/** `computeSqnFromSeqHe`: the 48-bit sequence number SQN = SEQ || IND of section C.1.1.1 of
    3GPP TS 33.102, built from the legacy SEQHE by a five-bit shift on a `std::bitset<48>`. */
module Sqn {
  import opened Numerals

  const SEQHE_BITS_LENGTH: nat := 48
  const BITS_PER_CHAR: nat := 4
  const IND_BITS: nat := 5
  const SEQ_MODULUS: nat := 0x800_0000_0000
  const SQN_MODULUS: nat := 0x1_0000_0000_0000

  function Pow2(k: nat): (p: nat)
    ensures p >= 1
  {
    if k == 0 then 1 else 2 * Pow2(k - 1)
  }

  /** `std::bitset<n>(v)`: the n low-order bits of v, bit 0 first. */
  function BitsOf(v: nat, n: nat): (bits: seq<bool>)
    ensures |bits| == n
  {
    if n == 0 then [] else [v % 2 == 1] + BitsOf(v / 2, n - 1)
  }

  /** `bits.to_ulong()`. */
  function ValueOf(bits: seq<bool>): nat {
    if bits == [] then 0 else (if bits[0] then 1 else 0) + 2 * ValueOf(bits[1..])
  }

  /** `bits << n`: bit i moves to i + n, the top n bits are lost. */
  function Shifted(bits: seq<bool>, n: nat): (r: seq<bool>)
    ensures |r| == |bits|
  {
    seq(|bits|, i requires 0 <= i < |bits| => i >= n && bits[i - n])
  }

  /** The number read from a SEQHE. */
  function SeqHeValue(seqHe: string): nat
    requires HasText(seqHe)
  {
    StoredIffText(seqHe, ULONG_MODULUS);
    ExtractHex(seqHe, ULONG_MODULUS).value
  }

  /** What the whole pipeline returns. */
  function SqnOf(seqHe: string): string
    requires HasText(seqHe)
  {
    PadZeros(ToHex(ValueOf(Shifted(BitsOf(SeqHeValue(seqHe), SEQHE_BITS_LENGTH), IND_BITS)), true),
             SEQHE_BITS_LENGTH / BITS_PER_CHAR)
  }

  // ---------- the code ----------

  /** The variable read into has no value before: a blank text would leave it so. */
  method FromHexStringToBitset(seqHe: string) returns (bits: array<bool>)
    requires HasText(seqHe)
    ensures fresh(bits)
    ensures bits[..] == BitsOf(SeqHeValue(seqHe), SEQHE_BITS_LENGTH)
  {
    bits := MakeBitset(SeqHeValue(seqHe), SEQHE_BITS_LENGTH);
  }

  /** `std::bitset<n> bits(value)`. */
  method MakeBitset(value: nat, n: nat) returns (bits: array<bool>)
    ensures fresh(bits) && bits[..] == BitsOf(value, n)
  {
    var b := BitsOf(value, n);
    bits := new bool[n](i requires 0 <= i < |b| => b[i]);
  }

  method LeftShift(bits: array<bool>, n: nat)
    modifies bits
    ensures bits[..] == Shifted(old(bits[..]), n)
  {
    forall i | 0 <= i < bits.Length {
      bits[i] := i >= n && bits[i - n];
    }
  }

  method FromBitsetToHexString(bits: array<bool>) returns (hexStr: string)
    requires bits.Length == SEQHE_BITS_LENGTH
    ensures hexStr == PadZeros(ToHex(ValueOf(bits[..]), true), SEQHE_BITS_LENGTH / BITS_PER_CHAR)
  {
    var tempStr := ToHex(ValueOf(bits[..]), true);
    NumeralFits(bits[..]);
    // The subtraction is on unsigned integers: it must not wrap.
    var nZeroesToAdd: nat := SEQHE_BITS_LENGTH / BITS_PER_CHAR - |tempStr|;
    hexStr := tempStr;
    if nZeroesToAdd > 0 {
      hexStr := Zeros(nZeroesToAdd) + tempStr;
    }
  }

  method ComputeSqnFromSeqHe(seqHe: string) returns (sqn: string)
    requires HasText(seqHe)
    ensures sqn == SqnOf(seqHe)
  {
    var bits := FromHexStringToBitset(seqHe);
    LeftShift(bits, IND_BITS);
    sqn := FromBitsetToHexString(bits);
  }

  // ---------- what it computes ----------

  lemma {:induction false} ValueBound(bits: seq<bool>)
    ensures ValueOf(bits) < Pow2(|bits|)
  {
    if bits != [] { ValueBound(bits[1..]); }
  }

  lemma Powers()
    ensures Pow16(12) == SQN_MODULUS == Pow2(48)
    ensures Pow2(43) == SEQ_MODULUS && Pow2(5) == 32
  {
    assert Pow16(6) == 0x100_0000;
    assert Pow2(8) == 0x100;
    assert Pow2(16) == 0x1_0000;
    assert Pow2(24) == 0x100_0000;
    assert Pow2(32) == 0x1_0000_0000;
    assert Pow2(40) == 0x100_0000_0000;
  }

  lemma NumeralFits(bits: seq<bool>)
    requires |bits| == SEQHE_BITS_LENGTH
    ensures |ToHex(ValueOf(bits), true)| <= SEQHE_BITS_LENGTH / BITS_PER_CHAR
  {
    ValueBound(bits);
    Powers();
    ToHexLength(ValueOf(bits), true, 12);
  }

  /** Taking n bits of v and reading them back is reduction modulo 2^n. */
  lemma {:induction false} ValueOfBitsOf(v: nat, n: nat)
    ensures ValueOf(BitsOf(v, n)) == v % Pow2(n)
  {
    if n > 0 {
      ValueOfBitsOf(v / 2, n - 1);
      HalvingModulo(v, Pow2(n - 1));
    }
  }

  lemma HalvingModulo(v: nat, p: nat)
    requires p >= 1
    ensures v % (2 * p) == v % 2 + 2 * (v / 2 % p)
  {
    var q, r := v / 2 / p, v / 2 % p;
    assert v == v % 2 + 2 * (q * p + r) == q * (2 * p) + (v % 2 + 2 * r);
    assert 0 <= v % 2 + 2 * r < 2 * p;
    UniqueRemainder(v, 2 * p, q, v % 2 + 2 * r);
  }

  lemma UniqueRemainder(v: nat, m: nat, q: nat, r: nat)
    requires m > 0 && v == q * m + r && r < m
    ensures v % m == r && v / m == q
  {
    assert v == v / m * m + v % m;
    MulGap(q, v / m, m);
    MulGap(v / m, q, m);
  }

  lemma MulGap(a: nat, b: nat, m: nat)
    ensures a < b ==> a * m + m <= b * m
  {
    if a < b { MulMonotone(a + 1, b, m); }
  }

  lemma MulMonotone(a: nat, b: nat, m: nat)
    requires a <= b
    ensures a * m <= b * m
  {
  }

  lemma {:induction false} PrefixOfBits(v: nat, n: nat, k: nat)
    requires k <= n
    ensures BitsOf(v, n)[..k] == BitsOf(v, k)
  {
    if k > 0 {
      PrefixOfBits(v / 2, n - 1, k - 1);
      assert BitsOf(v, n)[..k] == [v % 2 == 1] + BitsOf(v / 2, n - 1)[..k - 1];
    }
  }

  lemma ShiftedTail(bits: seq<bool>, n: nat)
    requires 0 < n <= |bits|
    ensures Shifted(bits, n) == [false] + Shifted(bits[..|bits| - 1], n - 1)
    ensures ValueOf(Shifted(bits, n)) == 2 * ValueOf(Shifted(bits[..|bits| - 1], n - 1))
  {
    var r := Shifted(bits, n);
    assert r == [false] + Shifted(bits[..|bits| - 1], n - 1);
    assert r[1..] == Shifted(bits[..|bits| - 1], n - 1);
  }

  /** Shifting left by n multiplies what is left of the value by 2^n. */
  lemma {:induction false} ValueOfShifted(bits: seq<bool>, n: nat)
    requires n <= |bits|
    ensures ValueOf(Shifted(bits, n)) == Pow2(n) * ValueOf(bits[..|bits| - n])
  {
    if n == 0 {
      assert Shifted(bits, 0) == bits == bits[..|bits|];
    } else {
      var shorter := bits[..|bits| - 1];
      ValueOfShifted(shorter, n - 1);
      ShiftedTail(bits, n);
      assert shorter[..|shorter| - (n - 1)] == bits[..|bits| - n];
      TwiceProduct(Pow2(n - 1), ValueOf(bits[..|bits| - n]));
    }
  }

  lemma TwiceProduct(a: nat, b: nat)
    ensures 2 * (a * b) == (2 * a) * b
  {
  }

  /** For every text that is not blank, hexadecimal or not: twelve upper-case digits worth 32 times what
      was read, modulo 2^48. */
  lemma SqnOfAnyText(seqHe: string)
    requires HasText(seqHe)
    ensures |SqnOf(seqHe)| == 12 && IsUpperHex(SqnOf(seqHe)) && AllHex(SqnOf(seqHe))
    ensures HexValue(SqnOf(seqHe)) == 32 * SeqHeValue(seqHe) % SQN_MODULUS
  {
    var v := SeqHeValue(seqHe);
    ShiftedWord(v);
    TwelveDigits(ValueOf(Shifted(BitsOf(v, SEQHE_BITS_LENGTH), IND_BITS)));
  }

  lemma TwelveDigits(n: nat)
    requires n < SQN_MODULUS
    ensures var text := PadZeros(ToHex(n, true), 12);
            |text| == 12 && IsUpperHex(text) && AllHex(text) && HexValue(text) == n
  {
    var d := ToHex(n, true);
    assert |d| <= 12 by {
      Powers();
      ToHexLength(n, true, 12);
    }
    ToHexValue(n, true);
    PadZerosKeepsValue(d, 12);
  }

  lemma ShiftedWord(v: nat)
    ensures ValueOf(Shifted(BitsOf(v, SEQHE_BITS_LENGTH), IND_BITS)) == 32 * v % SQN_MODULUS
  {
    ValueOfShifted(BitsOf(v, SEQHE_BITS_LENGTH), IND_BITS);
    PrefixOfBits(v, 48, 43);
    ValueOfBitsOf(v, 43);
    Powers();
    LowBits(v);
  }

  /** Only the low 43 bits of a value survive a five-bit shift in 48 bits. */
  lemma LowBits(v: nat)
    ensures 32 * v % SQN_MODULUS == 32 * (v % SEQ_MODULUS)
  {
    var q, r := v / SEQ_MODULUS, v % SEQ_MODULUS;
    UniqueRemainder(32 * v, SQN_MODULUS, q, 32 * r);
  }

  /** Below 2^64 the SQN is 32 times the SEQHE modulo 2^48; from there on the read saturates and
      the result no longer depends on the SEQHE. */
  lemma SqnOfSeqHe(seqHe: string)
    requires seqHe != [] && AllHex(seqHe)
    ensures HasText(seqHe) && AllHex(SqnOf(seqHe))
    ensures HexValue(seqHe) < ULONG_MODULUS ==>
      HexValue(SqnOf(seqHe)) == 32 * HexValue(seqHe) % SQN_MODULUS
    ensures HexValue(seqHe) >= ULONG_MODULUS ==> HexValue(SqnOf(seqHe)) == SQN_MODULUS - 32
  {
    HexHasText(seqHe);
    SqnOfAnyText(seqHe);
    ExtractHexOfHex(seqHe, ULONG_MODULUS);
    LargestShifted();
  }

  lemma LargestShifted()
    ensures 32 * (ULONG_MODULUS - 1) % SQN_MODULUS == SQN_MODULUS - 32
  {
  }

  lemma LastDigit(a: nat, x: nat, b: nat, y: nat)
    requires x < 16 && y < 16 && 16 * a + x == 16 * b + y
    ensures a == b && x == y
  {
  }

  lemma {:induction false} HexValueInjective(s: string, t: string)
    requires |s| == |t| && IsUpperHex(s) && IsUpperHex(t) && AllHex(s) && AllHex(t)
    requires HexValue(s) == HexValue(t)
    ensures s == t
  {
    if s != [] {
      var n := |s| - 1;
      LastDigit(HexValue(s[..n]), HexCharValue(s[n]), HexValue(t[..n]), HexCharValue(t[n]));
      HexValueInjective(s[..n], t[..n]);
      assert s[n] == t[n];
      assert s == s[..n] + [s[n]] && t == t[..n] + [t[n]];
    }
  }

  /** Two SEQHEs give the same SQN exactly when their low 43 bits agree. */
  lemma SameSqn(a: string, b: string)
    requires a != [] && AllHex(a) && HexValue(a) < ULONG_MODULUS
    requires b != [] && AllHex(b) && HexValue(b) < ULONG_MODULUS
    ensures HasText(a) && HasText(b)
    ensures SqnOf(a) == SqnOf(b) <==> HexValue(a) % SEQ_MODULUS == HexValue(b) % SEQ_MODULUS
  {
    SqnOfSeqHe(a);
    SqnOfSeqHe(b);
    SqnOfAnyText(a);
    SqnOfAnyText(b);
    LowBits(HexValue(a));
    LowBits(HexValue(b));
    if HexValue(SqnOf(a)) == HexValue(SqnOf(b)) {
      HexValueInjective(SqnOf(a), SqnOf(b));
    }
  }
}
