/** Regrouping, and replacing every element of a list by a list of its own. */
module Lists {

  lemma Regroup<T>(a: seq<T>, b: seq<T>, c: seq<T>)
    ensures (a + b) + c == a + (b + c)
  {
  }

  ghost function FlatMap<A, B>(f: A -> seq<B>, s: seq<A>): seq<B> {
    if s == [] then [] else FlatMap(f, s[..|s| - 1]) + f(s[|s| - 1])
  }

  lemma FlatMapNext<A, B>(f: A -> seq<B>, s: seq<A>, i: nat)
    requires i < |s|
    ensures FlatMap(f, s[..i + 1]) == FlatMap(f, s[..i]) + f(s[i])
  {
    assert s[..i + 1][..i] == s[..i];
  }

  lemma {:induction false} FlatMapConcat<A, B>(f: A -> seq<B>, a: seq<A>, b: seq<A>)
    ensures FlatMap(f, a + b) == FlatMap(f, a) + FlatMap(f, b)
  {
    if b == [] {
      assert a + b == a;
    } else {
      var n := |b| - 1;
      assert (a + b)[..|a| + n] == a + b[..n];
      FlatMapConcat(f, a, b[..n]);
    }
  }

  lemma {:induction false} FlatMapTwice<A, B, C>(f: A -> seq<B>, g: B -> seq<C>, h: A -> seq<C>, s: seq<A>)
    requires forall i | 0 <= i < |s| :: FlatMap(g, f(s[i])) == h(s[i])
    ensures FlatMap(g, FlatMap(f, s)) == FlatMap(h, s)
  {
    if s != [] {
      var n := |s| - 1;
      FlatMapTwice(f, g, h, s[..n]);
      FlatMapConcat(g, FlatMap(f, s[..n]), f(s[n]));
    }
  }

  lemma {:induction false} FlatMapPlace<A, B>(f: A -> seq<B>, s: seq<A>, i: nat)
    requires i < |s|
    ensures var p, m := |FlatMap(f, s[..i])|, |f(s[i])|;
      p + m <= |FlatMap(f, s)| && FlatMap(f, s)[p..p + m] == f(s[i])
    decreases |s|
  {
    var n := |s| - 1;
    if i < n {
      FlatMapPlace(f, s[..n], i);
      assert s[..n][..i] == s[..i];
    }
  }

  lemma {:induction false} FlatMapSingles<A, B>(f: A -> seq<B>, s: seq<A>, t: seq<B>)
    requires |s| == |t| && forall i | 0 <= i < |s| :: f(s[i]) == [t[i]]
    ensures FlatMap(f, s) == t
  {
    if s != [] {
      var n := |s| - 1;
      FlatMapSingles(f, s[..n], t[..n]);
      assert t == t[..n] + [t[n]];
    }
  }

  lemma FlatMapOne<A, B>(f: A -> seq<B>, x: A)
    ensures FlatMap(f, [x]) == f(x)
  {
    assert [x][..0] == [];
  }

  lemma FlatMapThree<A, B>(f: A -> seq<B>, s: seq<A>)
    requires |s| == 3
    ensures FlatMap(f, s) == f(s[0]) + f(s[1]) + f(s[2])
  {
    FlatMapNext(f, s, 0);
    FlatMapNext(f, s, 1);
    FlatMapNext(f, s, 2);
    assert s[..3] == s && s[..0] == [];
    assert [] + f(s[0]) == f(s[0]);
  }
}
