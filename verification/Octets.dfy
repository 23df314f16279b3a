/** `sortLDAPoctetString`: an LDAP octet string read back with its octets in order. */
module Octets {
  import opened Numerals
  import opened Sqn

  /** Zeroes to the left up to a multiple of four characters. */
  function PadToFour(s: string): (r: string)
    ensures |r| % 4 == 0
  {
    if |s| % 4 == 0 then s else Zeros(4 - |s| % 4) + s
  }

  /** Where the character at position i of the result comes from: positions 0,1 and 2,3 of each
      group of four change places. */
  function Partner(i: nat): (j: nat)
    ensures j / 4 == i / 4 && j % 4 == (i + 2) % 4
  {
    if i % 4 < 2 then i + 2 else i - 2
  }

  function Exchanged(s: string): (r: string)
    requires |s| % 4 == 0
    ensures |r| == |s|
  {
    seq(|s|, i requires 0 <= i < |s| => s[Partner(i)])
  }

  function Sorted(s: string): string {
    Exchanged(PadToFour(s))
  }

  lemma WithinGroup(g: nat, k: nat)
    requires g % 4 == 0 && k < 4
    ensures (g + k) % 4 == k
  {
  }

  lemma PartnerInGroup(g: nat, k: nat)
    requires g % 4 == 0 && k < 4
    ensures Partner(g + k) == g + (if k < 2 then k + 2 else k - 2)
  {
    assert (g + k) % 4 == k;
  }

  lemma ExchangedGroup(s: string, g: nat)
    requires g % 4 == 0 && g + 4 <= |s|
    ensures Exchanged(s[..g + 4]) == Exchanged(s[..g]) + [s[g + 2]] + [s[g + 3]] + [s[g]] + [s[g + 1]]
  {
    PartnerInGroup(g, 0);
    PartnerInGroup(g, 1);
    PartnerInGroup(g, 2);
    PartnerInGroup(g, 3);
    var r := Exchanged(s[..g + 4]);
    assert r[..g] == Exchanged(s[..g]);
    assert r == r[..g] + [r[g]] + [r[g + 1]] + [r[g + 2]] + [r[g + 3]];
  }

  method SortLDAPoctetString(str: string) returns (ordered: string)
    ensures ordered == Sorted(str)
  {
    ordered := "";
    var cPrev0, cPrev1, cPrev2 := '0', '0', '0';
    var dest := str;
    if |str| % 4 != 0 {
      dest := Zeros(4 - |str| % 4) + str;
    }
    var i := 0;
    ghost var g := 0;  // where the group of i starts
    while i < |dest|
      invariant g <= i <= |dest| && i <= g + 3 && g % 4 == 0
      invariant ordered == Exchanged(dest[..g])
      invariant i >= g + 1 ==> cPrev0 == dest[g]
      invariant i >= g + 2 ==> cPrev1 == dest[g + 1]
      invariant i >= g + 3 ==> cPrev2 == dest[g + 2]
    {
      WithinGroup(g, i - g);
      var c := dest[i];
      if i % 4 == 0 {
        cPrev0 := c;
      } else if i % 4 == 1 {
        cPrev1 := c;
      } else if i % 4 == 2 {
        cPrev2 := c;
      } else {
        ExchangedGroup(dest, g);
        ordered := ordered + [cPrev2] + [c] + [cPrev0] + [cPrev1];
        g := g + 4;
      }
      i := i + 1;
    }
    WithinGroup(g, i - g);
    assert g == |dest| && dest[..|dest|] == dest;
  }

  lemma PartnerOfPartner(i: nat)
    ensures Partner(Partner(i)) == i
  {
  }

  lemma ExchangedTwiceAt(t: string, i: nat)
    requires |t| % 4 == 0 && i < |t|
    ensures Exchanged(Exchanged(t))[i] == t[i]
  {
    PartnerOfPartner(i);
    assert Exchanged(Exchanged(t))[i] == Exchanged(t)[Partner(i)];
  }

  /** Exchanging twice changes nothing; without padding this is the whole function. */
  lemma Involution(s: string)
    ensures Sorted(Sorted(s)) == PadToFour(s)
  {
    var t := PadToFour(s);
    var u := Exchanged(Exchanged(t));
    assert Sorted(Sorted(s)) == u;
    forall i | 0 <= i < |t| ensures u[i] == t[i] { ExchangedTwiceAt(t, i); }
  }

  lemma {:induction false} SameCharacters(s: string)
    requires |s| % 4 == 0
    ensures multiset(Exchanged(s)) == multiset(s)
  {
    if s != [] {
      SameCharacters(s[..|s| - 4]);
      LastFourExchanged(s, Exchanged(s), |s| - 4);
    } else {
      assert Exchanged(s) == [];
    }
  }

  lemma LastFourExchanged(s: string, r: string, n: nat)
    requires |s| % 4 == 0 && |s| == n + 4 && r == Exchanged(s)
    requires multiset(Exchanged(s[..n])) == multiset(s[..n])
    ensures multiset(r) == multiset(s)
  {
    ExchangedGroup(s, n);
    assert s[..n + 4] == s;
    FourMore(s, n);
    SameBag(Exchanged(s[..n]), s[..n], s[n], s[n + 1], s[n + 2], s[n + 3]);
  }

  lemma FourMore(s: string, n: nat)
    requires |s| == n + 4
    ensures s == s[..n] + [s[n]] + [s[n + 1]] + [s[n + 2]] + [s[n + 3]]
  {
  }

  lemma SameBag(x: string, y: string, a: char, b: char, c: char, d: char)
    requires multiset(x) == multiset(y)
    ensures multiset(x + [c] + [d] + [a] + [b]) == multiset(y + [a] + [b] + [c] + [d])
  {
  }

  /** Nothing but the padding zeroes is added, nothing is lost. */
  lemma CharactersKept(s: string)
    ensures multiset(Sorted(s)) == multiset(PadToFour(s))
  {
    SameCharacters(PadToFour(s));
  }

  lemma TextExchanged(t: string)
    requires |t| % 4 == 0
    ensures HasText(Exchanged(t)) <==> HasText(t)
  {
    if HasText(t) {
      var i :| 0 <= i < |t| && !IsSpace(t[i]);
      PartnerOfPartner(i);
      assert Exchanged(t)[Partner(i)] == t[i];
    }
  }

  lemma TextPadded(s: string)
    ensures HasText(PadToFour(s)) <==> HasText(s) || |s| % 4 != 0
  {
    if |s| % 4 != 0 { assert PadToFour(s)[0] == '0'; }
  }

  /** A blank text stays blank unless it is padded. */
  lemma BlankSorted(s: string)
    ensures HasText(Sorted(s)) <==> HasText(s) || |s| % 4 != 0
  {
    TextPadded(s);
    TextExchanged(PadToFour(s));
  }

  /** A 16-bit word with its octets exchanged. */
  function SwapWord(w: nat): nat {
    w % 0x100 * 0x100 + w / 0x100
  }

  /** The value with the two octets of each of its n low-order 16-bit words exchanged. */
  function SwapOctets(v: nat, words: nat): nat {
    if words == 0 then 0
    else SwapOctets(v / 0x1_0000, words - 1) * 0x1_0000 + SwapWord(v % 0x1_0000)
  }

  /** The value of the last four digits. */
  function LastWord(s: string): (w: nat)
    requires |s| >= 4 && AllHex(s)
    ensures w < 0x1_0000
  {
    var n := |s| - 4;
    HexCharValue(s[n]) * 0x1000 + HexCharValue(s[n + 1]) * 0x100
    + HexCharValue(s[n + 2]) * 0x10 + HexCharValue(s[n + 3])
  }

  lemma FourDigits(s: string)
    requires |s| >= 4 && AllHex(s)
    ensures HexValue(s) == HexValue(s[..|s| - 4]) * 0x1_0000 + LastWord(s)
  {
    var n := |s| - 4;
    assert s[..n + 3][..n + 2] == s[..n + 2];
    assert s[..n + 2][..n + 1] == s[..n + 1];
    assert s[..n + 1][..n] == s[..n];
    assert HexValue(s) == 16 * HexValue(s[..n + 3]) + HexCharValue(s[n + 3]);
    assert HexValue(s[..n + 3]) == 16 * HexValue(s[..n + 2]) + HexCharValue(s[n + 2]);
    assert HexValue(s[..n + 2]) == 16 * HexValue(s[..n + 1]) + HexCharValue(s[n + 1]);
    assert HexValue(s[..n + 1]) == 16 * HexValue(s[..n]) + HexCharValue(s[n]);
  }

  lemma ExchangedHex(s: string)
    requires |s| % 4 == 0 && AllHex(s)
    ensures AllHex(Exchanged(s))
  {
    var r := Exchanged(s);
    forall i | 0 <= i < |r| ensures IsHexChar(r[i]) { assert r[i] == s[Partner(i)]; }
  }

  lemma {:induction false} ExchangedValue(s: string, words: nat)
    requires |s| == 4 * words && AllHex(s)
    ensures AllHex(Exchanged(s)) && HexValue(Exchanged(s)) == SwapOctets(HexValue(s), words)
  {
    if words > 0 {
      var p, e, r := LastWordApart(s);
      ExchangedValue(p, words - 1);
      AddWord(s, r, p, e, words);
    } else {
      assert s == [] && Exchanged(s) == [];
    }
  }

  lemma LastWordApart(s: string) returns (p: string, e: string, r: string)
    requires |s| % 4 == 0 && |s| >= 4 && AllHex(s)
    ensures p == s[..|s| - 4] && r == Exchanged(s) && e == Exchanged(p)
    ensures |r| == |s| && e == r[..|r| - 4] && AllHex(p) && AllHex(e) && AllHex(r)
    ensures LastWord(r) == SwapWord(LastWord(s))
  {
    p, r := s[..|s| - 4], Exchanged(s);
    ExchangedHex(s);
    LastWordSwapped(s);
    ExchangedPrefix(s);
    e := Exchanged(p);
    AllHexPrefix(r, |r| - 4);
  }

  lemma AllHexPrefix(s: string, n: nat)
    requires n <= |s| && AllHex(s)
    ensures AllHex(s[..n])
  {
  }

  lemma AddWord(s: string, r: string, p: string, e: string, words: nat)
    requires |s| == |r| >= 4 && words > 0 && AllHex(s) && AllHex(r)
    requires p == s[..|s| - 4] && e == r[..|r| - 4] && AllHex(e)
    requires HexValue(e) == SwapOctets(HexValue(p), words - 1) && LastWord(r) == SwapWord(LastWord(s))
    ensures HexValue(r) == SwapOctets(HexValue(s), words)
  {
    LastWordExchanged(s, r, words);
  }

  lemma ExchangedPrefix(s: string)
    requires |s| % 4 == 0 && |s| >= 4
    ensures Exchanged(s)[..|s| - 4] == Exchanged(s[..|s| - 4])
  {
    LastGroup(s);
  }

  /** The step of ExchangedValue: r is s with its words exchanged but for the last, and that one too. */
  lemma LastWordExchanged(s: string, r: string, words: nat)
    requires |s| == |r| >= 4 && words > 0 && AllHex(s) && AllHex(r)
    requires HexValue(r[..|r| - 4]) == SwapOctets(HexValue(s[..|s| - 4]), words - 1)
    requires LastWord(r) == SwapWord(LastWord(s))
    ensures HexValue(r) == SwapOctets(HexValue(s), words)
  {
    FourDigits(s);
    FourDigits(r);
    SwapLastWord(HexValue(s), HexValue(s[..|s| - 4]), LastWord(s), words);
  }

  lemma LastWordSwapped(s: string)
    requires |s| % 4 == 0 && |s| >= 4 && AllHex(s) && AllHex(Exchanged(s))
    ensures LastWord(Exchanged(s)) == SwapWord(LastWord(s))
  {
    var n := |s| - 4;
    LastGroup(s);
    SwapWordOfDigits(HexCharValue(s[n]), HexCharValue(s[n + 1]), HexCharValue(s[n + 2]), HexCharValue(s[n + 3]));
  }

  lemma SwapWordOfDigits(a: nat, b: nat, c: nat, d: nat)
    requires a < 16 && b < 16 && c < 16 && d < 16
    ensures var w := a * 0x1000 + b * 0x100 + c * 0x10 + d;
      w < 0x1_0000 && SwapWord(w) == c * 0x1000 + d * 0x100 + a * 0x10 + b
  {
    var w := a * 0x1000 + b * 0x100 + c * 0x10 + d;
    UniqueRemainder(w, 0x100, a * 0x10 + b, c * 0x10 + d);
  }

  lemma SwapLastWord(v: nat, high: nat, w: nat, words: nat)
    requires w < 0x1_0000 && v == high * 0x1_0000 + w && words > 0
    ensures SwapOctets(v, words) == SwapOctets(high, words - 1) * 0x1_0000 + SwapWord(w)
  {
    UniqueRemainder(v, 0x1_0000, high, w);
  }

  lemma LastGroup(s: string)
    requires |s| % 4 == 0 && |s| >= 4
    ensures var r, n := Exchanged(s), |s| - 4;
            r[..n] == Exchanged(s[..n])
            && r[n] == s[n + 2] && r[n + 1] == s[n + 3] && r[n + 2] == s[n] && r[n + 3] == s[n + 1]
  {
    ExchangedGroup(s, |s| - 4);
    assert s[..|s|] == s;
  }

  lemma PaddedLength(s: string, words: nat)
    requires words == (|s| + 3) / 4
    ensures |PadToFour(s)| == 4 * words
  {
  }

  lemma PaddedValue(s: string)
    requires AllHex(s)
    ensures AllHex(PadToFour(s)) && HexValue(PadToFour(s)) == HexValue(s)
  {
    if |s| % 4 != 0 { PaddingKeepsValue(4 - |s| % 4, s); }
  }

  /** For hexadecimal text of every length: padding on the left keeps the value, and reordering exchanges
      the octets of each of its words. */
  lemma SortedValue(s: string, words: nat)
    requires AllHex(s) && words == (|s| + 3) / 4
    ensures AllHex(Sorted(s)) && HexValue(Sorted(s)) == SwapOctets(HexValue(s), words)
  {
    PaddedLength(s, words);
    PaddedValue(s);
    ExchangedValue(PadToFour(s), words);
  }

  /** A twelve-digit SEQHE, reordered by the parser and shifted by the mutation: 32 times the value
      with the octets of each word exchanged, modulo 2^48. */
  lemma SqnOfReorderedSeqHe(s: string)
    requires |s| == 12 && AllHex(s)
    ensures HasText(Sorted(s)) && AllHex(SqnOf(Sorted(s)))
    ensures HexValue(SqnOf(Sorted(s))) == 32 * SwapOctets(HexValue(s), 3) % SQN_MODULUS
  {
    assert Sorted(s) == Exchanged(s);
    ExchangedValue(s, 3);
    SqnOfTwelveDigits(Exchanged(s));
  }

  lemma SqnOfTwelveDigits(s: string)
    requires |s| == 12 && AllHex(s)
    ensures HasText(s) && AllHex(SqnOf(s)) && HexValue(SqnOf(s)) == 32 * HexValue(s) % SQN_MODULUS
  {
    ValueBelowPower(s);
    Powers();
    SqnOfSeqHe(s);
  }
}
