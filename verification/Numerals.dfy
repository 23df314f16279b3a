/** Numerals as the C++ library reads and prints them: `std::stoi`, the hexadecimal stream
    manipulators, `std::setw` padding and `boost::to_upper_copy`. */
module Numerals {
  import opened Wrappers

  const INT_MIN := -0x8000_0000
  const INT_MAX := 0x7FFF_FFFF
  const UINT_MODULUS: nat := 0x1_0000_0000
  const ULONG_MODULUS: nat := 0x1_0000_0000_0000_0000

  /** The values of a C++ `int`. */
  type Int32 = x: int | -0x8000_0000 <= x <= 0x7FFF_FFFF

  /** Conversion of a C++ `int` to `unsigned int`. */
  function ToUnsigned(v: Int32): (u: nat)
    ensures u < UINT_MODULUS
  {
    if v < 0 then v + UINT_MODULUS else v
  }

  predicate IsSpace(c: char) {
    c == ' ' || '\t' <= c <= '\r'
  }

  predicate IsDigit(c: char) {
    '0' <= c <= '9'
  }

  predicate IsHexChar(c: char) {
    '0' <= c <= '9' || 'A' <= c <= 'F' || 'a' <= c <= 'f'
  }

  predicate AllDigits(s: string) {
    forall i | 0 <= i < |s| :: IsDigit(s[i])
  }

  predicate AllHex(s: string) {
    forall i | 0 <= i < |s| :: IsHexChar(s[i])
  }

  predicate IsUpperHex(s: string) {
    forall i | 0 <= i < |s| :: '0' <= s[i] <= '9' || 'A' <= s[i] <= 'F'
  }

  function HexCharValue(c: char): (v: nat)
    requires IsHexChar(c)
    ensures v < 16
  {
    if c <= '9' then c as int - '0' as int
    else if c <= 'F' then c as int - 'A' as int + 10
    else c as int - 'a' as int + 10
  }

  function DecValue(s: string): nat
    requires AllDigits(s)
  {
    if s == [] then 0
    else 10 * DecValue(s[..|s| - 1]) + (s[|s| - 1] as int - '0' as int)
  }

  function HexValue(s: string): nat
    requires AllHex(s)
  {
    if s == [] then 0
    else 16 * HexValue(s[..|s| - 1]) + HexCharValue(s[|s| - 1])
  }

  function Pow16(k: nat): (p: nat)
    ensures p >= 1
  {
    if k == 0 then 1 else 16 * Pow16(k - 1)
  }

  // ---------- reading ----------

  function SkipSpaces(s: string): string {
    if s != [] && IsSpace(s[0]) then SkipSpaces(s[1..]) else s
  }

  function LeadingDigits(s: string): (d: string)
    ensures d <= s && AllDigits(d)
  {
    if s != [] && IsDigit(s[0]) then [s[0]] + LeadingDigits(s[1..]) else []
  }

  function LeadingHex(s: string): (d: string)
    ensures d <= s && AllHex(d)
  {
    if s != [] && IsHexChar(s[0]) then [s[0]] + LeadingHex(s[1..]) else []
  }

  function DropSign(s: string): string {
    if s != [] && (s[0] == '-' || s[0] == '+') then s[1..] else s
  }

  predicate Negative(s: string) {
    s != [] && s[0] == '-'
  }

  /** `std::stoi`; None stands for either of the exceptions it throws. */
  function Stoi(s: string): Option<int> {
    var t := SkipSpaces(s);
    var d := LeadingDigits(DropSign(t));
    var v: int := if Negative(t) then 0 - DecValue(d) else DecValue(d);
    if d != [] && INT_MIN <= v <= INT_MAX then Some(v) else None
  }

  /** The shape shared by the four range checks: convert, give up on an exception, compare. */
  predicate StoiInRange(s: string, lo: int, hi: int) {
    var v := Stoi(s);
    v.Some? && lo <= v.value <= hi
  }

  function DropHexPrefix(s: string): string {
    if |s| >= 2 && s[0] == '0' && (s[1] == 'x' || s[1] == 'X') then s[2..] else s
  }

  /** Some character is not blank: without one an extraction fails before anything is read. */
  predicate HasText(s: string) {
    exists i | 0 <= i < |s| :: !IsSpace(s[i])
  }

  /** What `stream >> std::hex >> value` stores in an unsigned variable with this many values. Leading
      blanks, a sign and a 0x prefix are accepted, text without digits stores 0, an overflow stores the
      maximum. A blank text stores nothing: the variable keeps whatever it held. */
  function ExtractHex(s: string, modulus: nat): (v: Option<nat>)
    requires modulus > 0
    ensures v.Some? ==> v.value < modulus
  {
    var t := SkipSpaces(s);
    var d := HexValue(LeadingHex(DropHexPrefix(DropSign(t))));
    if t == [] then None
    else if d >= modulus then Some(modulus - 1)
    else if Negative(t) && d > 0 then Some(modulus - d)
    else Some(d)
  }

  /** Something is stored exactly when some character is not blank. */
  lemma {:induction false} StoredIffText(s: string, modulus: nat)
    requires modulus > 0
    ensures ExtractHex(s, modulus).Some? <==> HasText(s)
    ensures SkipSpaces(s) != [] <==> HasText(s)
  {
    if s != [] && IsSpace(s[0]) {
      StoredIffText(s[1..], modulus);
      if HasText(s) {
        var i :| 0 <= i < |s| && !IsSpace(s[i]);
        assert !IsSpace(s[1..][i - 1]);
      }
      if HasText(s[1..]) {
        var i :| 0 <= i < |s[1..]| && !IsSpace(s[1..][i]);
        assert !IsSpace(s[i + 1]);
      }
    }
  }

  lemma HexHasText(s: string)
    requires s != [] && AllHex(s)
    ensures HasText(s)
  {
    assert IsHexChar(s[0]);
  }

  lemma LeadingDigitsOfDigits(s: string)
    requires AllDigits(s)
    ensures LeadingDigits(s) == s
  {
  }

  lemma LeadingHexOfHex(s: string)
    requires AllHex(s)
    ensures LeadingHex(s) == s
  {
  }

  /** For digit strings of any length the check is the mathematical range, overflow included. */
  lemma RangeCheckIsMathematical(s: string, lo: nat, hi: nat)
    requires s != [] && AllDigits(s)
    requires hi <= INT_MAX
    ensures StoiInRange(s, lo, hi) <==> lo <= DecValue(s) <= hi
  {
    assert IsDigit(s[0]);
    LeadingDigitsOfDigits(s);
  }

  /** Reading a non-empty hexadecimal string gives its value, saturated at the width of the target. */
  lemma ExtractHexOfHex(s: string, modulus: nat)
    requires s != [] && AllHex(s) && modulus > 0
    ensures ExtractHex(s, modulus) == Some(if HexValue(s) < modulus then HexValue(s) else modulus - 1)
  {
    assert SkipSpaces(s) == s && DropSign(s) == s && !Negative(s) by { assert IsHexChar(s[0]); }
    assert DropHexPrefix(s) == s by { assert |s| >= 2 ==> IsHexChar(s[1]); }
    LeadingHexOfHex(s);
  }

  lemma BlankFirst(s: string, modulus: nat)
    requires s != [] && AllHex(s) && HexValue(s) < modulus
    ensures ExtractHex([' '] + s, modulus) == Some(HexValue(s))
  {
    var t := [' '] + s;
    assert t[0] == ' ' && t[1..] == s;
    assert SkipSpaces(t) == SkipSpaces(s);
    SameRead(t, s, modulus);
    ExtractHexOfHex(s, modulus);
  }

  lemma SameRead(s: string, t: string, modulus: nat)
    requires modulus > 0 && SkipSpaces(s) == SkipSpaces(t)
    ensures ExtractHex(s, modulus) == ExtractHex(t, modulus)
  {
  }

  lemma SignFirst(sign: char, s: string, modulus: nat)
    requires (sign == '+' || sign == '-') && s != [] && AllHex(s) && HexValue(s) < modulus
    ensures ExtractHex([sign] + s, modulus)
         == Some(if sign == '+' || HexValue(s) == 0 then HexValue(s) else modulus - HexValue(s))
  {
    var t := [sign] + s;
    assert t[0] == sign && t[1..] == s;
    assert SkipSpaces(t) == t && DropSign(t) == s;
    NoHexPrefix(s);
    LeadingHexOfHex(s);
    ReadAs(t, s, modulus);
  }

  lemma ReadAs(t: string, s: string, modulus: nat)
    requires t != [] && SkipSpaces(t) == t && LeadingHex(DropHexPrefix(DropSign(t))) == s
    requires AllHex(s) && HexValue(s) < modulus
    ensures ExtractHex(t, modulus)
         == Some(if Negative(t) && HexValue(s) > 0 then modulus - HexValue(s) else HexValue(s))
  {
  }

  lemma PrefixFirst(s: string, modulus: nat)
    requires s != [] && AllHex(s) && HexValue(s) < modulus
    ensures ExtractHex(['0', 'x'] + s, modulus) == Some(HexValue(s))
  {
    var t := ['0', 'x'] + s;
    assert t[0] == '0' && t[1] == 'x' && t[2..] == s;
    assert SkipSpaces(t) == t && DropSign(t) == t;
    LeadingHexOfHex(s);
    ReadAs(t, s, modulus);
  }

  /** Before a hexadecimal text a blank, a plus sign and the prefix 0x make no difference, and a minus
      sign negates the value modulo the width of the target. */
  lemma PrefixedHex(s: string, modulus: nat)
    requires s != [] && AllHex(s) && HexValue(s) < modulus
    ensures ExtractHex([' '] + s, modulus) == Some(HexValue(s))
    ensures ExtractHex(['+'] + s, modulus) == Some(HexValue(s))
    ensures ExtractHex(['0', 'x'] + s, modulus) == Some(HexValue(s))
    ensures ExtractHex(['-'] + s, modulus) == Some(if HexValue(s) == 0 then 0 else modulus - HexValue(s))
  {
    BlankFirst(s, modulus);
    SignFirst('+', s, modulus);
    SignFirst('-', s, modulus);
    PrefixFirst(s, modulus);
  }

  lemma NoHexPrefix(s: string)
    requires s != [] && AllHex(s)
    ensures DropHexPrefix(s) == s && SkipSpaces(s) == s && DropSign(s) == s && !Negative(s)
  {
    assert IsHexChar(s[0]) && (|s| >= 2 ==> IsHexChar(s[1]));
  }

  // ---------- printing ----------

  function HexDigit(d: nat, upper: bool): (c: char)
    requires d < 16
    ensures IsHexChar(c) && HexCharValue(c) == d
    ensures upper ==> '0' <= c <= '9' || 'A' <= c <= 'F'
  {
    if d < 10 then ('0' as int + d) as char
    else if upper then ('A' as int + d - 10) as char
    else ('a' as int + d - 10) as char
  }

  /** `stream << std::hex << n`, with or without `std::uppercase`. */
  function ToHex(n: nat, upper: bool): string {
    if n < 16 then [HexDigit(n, upper)]
    else ToHex(n / 16, upper) + [HexDigit(n % 16, upper)]
  }

  function Zeros(n: nat): (s: string)
    ensures |s| == n && forall i | 0 <= i < n :: s[i] == '0'
  {
    seq(n, _ => '0')
  }

  /** `std::setfill('0') << std::setw(width)`. */
  function PadZeros(s: string, width: nat): string {
    if |s| < width then Zeros(width - |s|) + s else s
  }

  function ToUpperChar(c: char): char {
    if 'a' <= c <= 'z' then (c as int - 'a' as int + 'A' as int) as char else c
  }

  function ToUpper(s: string): (u: string)
    ensures |u| == |s| && forall i | 0 <= i < |s| :: u[i] == ToUpperChar(s[i])
  {
    seq(|s|, i requires 0 <= i < |s| => ToUpperChar(s[i]))
  }

  /** `fromUnsignedIntToHexString`: printed in lower case, padded, then raised to upper case. */
  function UnsignedToHexString(v: nat, len: nat): string {
    ToUpper(PadZeros(ToHex(v, false), len))
  }

  lemma {:induction false} ToHexValue(n: nat, upper: bool)
    ensures AllHex(ToHex(n, upper)) && HexValue(ToHex(n, upper)) == n
    ensures upper ==> IsUpperHex(ToHex(n, upper))
  {
    var s := ToHex(n, upper);
    if n < 16 {
      assert s[..0] == [];
    } else {
      ToHexValue(n / 16, upper);
      assert s[..|s| - 1] == ToHex(n / 16, upper);
    }
  }

  /** The numeral is as short as it can be: it fits k digits exactly when the value does. */
  lemma {:induction false} ToHexLength(n: nat, upper: bool, k: nat)
    requires k >= 1
    ensures |ToHex(n, upper)| <= k <==> n < Pow16(k)
  {
    if k == 1 {
      assert Pow16(1) == 16 * Pow16(0);
      if n >= 16 { assert |ToHex(n / 16, upper)| >= 1; }
    } else if n >= 16 {
      ToHexLength(n / 16, upper, k - 1);
    } else {
      assert Pow16(k) == 16 * Pow16(k - 1);
    }
  }

  lemma {:induction false} PaddingKeepsValue(zeros: nat, s: string)
    requires AllHex(s)
    ensures AllHex(Zeros(zeros) + s) && HexValue(Zeros(zeros) + s) == HexValue(s)
    decreases |s|, zeros
  {
    var t := Zeros(zeros) + s;
    if s == [] {
      if zeros > 0 {
        PaddingKeepsValue(zeros - 1, s);
        assert t[..|t| - 1] == Zeros(zeros - 1) + s;
      } else {
        assert t == [];
      }
    } else {
      PaddingKeepsValue(zeros, s[..|s| - 1]);
      assert t[..|t| - 1] == Zeros(zeros) + s[..|s| - 1];
    }
  }

  lemma {:induction false} ValueBelowPower(s: string)
    requires AllHex(s)
    ensures HexValue(s) < Pow16(|s|)
  {
    if s != [] { ValueBelowPower(s[..|s| - 1]); }
  }

  lemma PadZerosKeepsValue(s: string, width: nat)
    requires AllHex(s)
    ensures AllHex(PadZeros(s, width)) && HexValue(PadZeros(s, width)) == HexValue(s)
    ensures IsUpperHex(s) ==> IsUpperHex(PadZeros(s, width))
  {
    if |s| < width {
      PaddingKeepsValue(width - |s|, s);
    }
  }

  lemma {:induction false} UpperCaseKeepsValue(s: string)
    requires AllHex(s)
    ensures AllHex(ToUpper(s)) && IsUpperHex(ToUpper(s)) && HexValue(ToUpper(s)) == HexValue(s)
  {
    forall i | 0 <= i < |s|
      ensures IsHexChar(ToUpperChar(s[i])) && HexCharValue(ToUpperChar(s[i])) == HexCharValue(s[i])
      ensures '0' <= ToUpperChar(s[i]) <= '9' || 'A' <= ToUpperChar(s[i]) <= 'F'
    {
      assert IsHexChar(s[i]);
    }
    if s != [] {
      UpperCaseKeepsValue(s[..|s| - 1]);
      assert ToUpper(s)[..|s| - 1] == ToUpper(s[..|s| - 1]);
    }
  }

  lemma UnsignedHexString(v: nat, len: nat)
    ensures var h := UnsignedToHexString(v, len);
            h != [] && AllHex(h) && IsUpperHex(h) && HexValue(h) == v
    ensures len >= 1 ==> (|UnsignedToHexString(v, len)| == len <==> v < Pow16(len))
  {
    var d := ToHex(v, false);
    ToHexValue(v, false);
    PadZerosKeepsValue(d, len);
    UpperCaseKeepsValue(PadZeros(d, len));
    if len >= 1 { ToHexLength(v, false, len); }
  }

  /** Printing an unsigned 32-bit value and reading it back is the identity. */
  lemma ParsePrintHex(v: nat, len: nat)
    requires v < UINT_MODULUS
    ensures ExtractHex(UnsignedToHexString(v, len), UINT_MODULUS) == Some(v)
  {
    UnsignedHexString(v, len);
    ExtractHexOfHex(UnsignedToHexString(v, len), UINT_MODULUS);
  }

  /** `std::to_string` of an int. */
  function IntToString(v: int): string {
    if v < 0 then "-" + NatToString(-v) else NatToString(v)
  }

  function NatToString(n: nat): string {
    if n < 10 then [('0' as int + n) as char]
    else NatToString(n / 10) + [('0' as int + n % 10) as char]
  }

  /** A decimal numeral is read back as the number it was printed from. */
  lemma {:induction false} NatToStringValue(n: nat)
    ensures AllDigits(NatToString(n)) && NatToString(n) != [] && DecValue(NatToString(n)) == n
  {
    var s := NatToString(n);
    if n < 10 {
      assert s[..0] == [];
    } else {
      NatToStringValue(n / 10);
      assert s[..|s| - 1] == NatToString(n / 10);
    }
  }
}
