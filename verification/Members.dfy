/** Object members as RapidJSON finds them, and string-keyed maps in the order `std::map` walks them. */
module Members {
  import opened Wrappers
  import opened Entities

  /** `HasMember` and `operator[]`: the first member of that name. */
  function Field(members: seq<Member>, name: string): Option<Json> {
    if members == [] then None
    else if members[0].name == name then Some(members[0].value)
    else Field(members[1..], name)
  }

  function MembersOf(j: Json): seq<Member> {
    if j.Obj? then j.members else []
  }

  lemma FieldOfCons(m: Member, rest: seq<Member>, name: string)
    ensures Field([m] + rest, name) == if m.name == name then Some(m.value) else Field(rest, name)
  {
    assert ([m] + rest)[0] == m && ([m] + rest)[1..] == rest;
  }

  lemma {:induction false} FieldOfConcat(a: seq<Member>, b: seq<Member>, name: string)
    ensures Field(a + b, name) == if Field(a, name).Some? then Field(a, name) else Field(b, name)
  {
    if a == [] {
      assert a + b == b;
    } else {
      assert (a + b)[1..] == a[1..] + b;
      FieldOfConcat(a[1..], b, name);
    }
  }

  lemma {:induction false} FieldIffNamed(members: seq<Member>, name: string)
    ensures Field(members, name).Some? <==> exists i | 0 <= i < |members| :: members[i].name == name
  {
    if members != [] {
      FieldIffNamed(members[1..], name);
      if Field(members[1..], name).Some? {
        var i :| 0 <= i < |members[1..]| && members[1..][i].name == name;
        assert members[i + 1].name == name;
      }
      if exists i | 0 <= i < |members| :: members[i].name == name {
        var i :| 0 <= i < |members| && members[i].name == name;
        assert i > 0 ==> members[1..][i - 1].name == name;
      }
    }
  }

  // ---------- the order of std::map ----------

  predicate AtMost(a: string, b: string) {
    a == [] || (b != [] && (a[0] < b[0] || (a[0] == b[0] && AtMost(a[1..], b[1..]))))
  }

  lemma {:induction false} AtMostTotal(a: string, b: string)
    ensures AtMost(a, b) || AtMost(b, a)
    ensures AtMost(a, b) && AtMost(b, a) ==> a == b
  {
    if a != [] && b != [] {
      AtMostTotal(a[1..], b[1..]);
      assert a == [a[0]] + a[1..] && b == [b[0]] + b[1..];
    }
  }

  lemma {:induction false} AtMostTransitive(a: string, b: string, c: string)
    requires AtMost(a, b) && AtMost(b, c)
    ensures AtMost(a, c)
  {
    if a != [] && a[0] == b[0] == c[0] { AtMostTransitive(a[1..], b[1..], c[1..]); }
  }

  predicate IsLeast(k: string, keys: set<string>) {
    k in keys && forall j | j in keys :: AtMost(k, j)
  }

  lemma {:induction false} LeastExists(keys: set<string>)
    requires keys != {}
    ensures exists k :: IsLeast(k, keys)
  {
    var x :| x in keys;
    var rest := keys - {x};
    if rest == {} {
      AtMostTotal(x, x);
      assert keys == {x};
      assert IsLeast(x, keys);
    } else {
      LeastExists(rest);
      var y :| IsLeast(y, rest);
      var k := if AtMost(x, y) then x else y;
      AtMostTotal(x, y);
      forall j | j in keys ensures AtMost(k, j) {
        AtMostTotal(x, x);
        if j in rest && k == x { AtMostTransitive(x, y, j); }
      }
      assert IsLeast(k, keys);
    }
  }

  lemma LeastUnique(a: string, b: string, keys: set<string>)
    requires IsLeast(a, keys) && IsLeast(b, keys)
    ensures a == b
  {
    AtMostTotal(a, b);
  }

  ghost function Least(keys: set<string>): (k: string)
    requires keys != {}
    ensures IsLeast(k, keys)
  {
    LeastExists(keys);
    var k :| IsLeast(k, keys);
    k
  }

  /** The keys in ascending order. */
  ghost function InOrder(keys: set<string>): (order: seq<string>)
    ensures forall k :: k in order <==> k in keys
    ensures |order| == |keys|
  {
    if keys == {} then [] else [Least(keys)] + InOrder(keys - {Least(keys)})
  }

  /** a comes before b in a dictionary: at their first difference it has the smaller character, or it
      ends there. */
  ghost predicate Precedes(a: string, b: string) {
    exists p: nat :: PartsAt(a, b, p)
  }

  /** They part at position p. */
  predicate PartsAt(a: string, b: string, p: nat) {
    p <= |a| && p < |b| && a[..p] == b[..p] && (p == |a| || a[p] < b[p])
  }

  lemma PartsLater(a: string, b: string, p: nat)
    requires a != [] && b != [] && a[0] == b[0] && PartsAt(a[1..], b[1..], p)
    ensures PartsAt(a, b, p + 1)
  {
    assert a[..p + 1] == [a[0]] + a[1..][..p] && b[..p + 1] == [b[0]] + b[1..][..p];
  }

  lemma PartsEarlier(a: string, b: string, p: nat)
    requires a != [] && b != [] && p > 0 && PartsAt(a, b, p)
    ensures a[0] == b[0] && PartsAt(a[1..], b[1..], p - 1)
  {
    assert a[..p][0] == b[..p][0];
    assert a[1..][..p - 1] == a[..p][1..] && b[1..][..p - 1] == b[..p][1..];
  }

  lemma {:induction false} AtMostMeans(a: string, b: string)
    ensures AtMost(a, b) <==> a == b || Precedes(a, b)
    decreases |a|
  {
    if a == [] || b == [] || a[0] != b[0] {
      PartsAtStart(a, b);
    } else {
      AtMostMeans(a[1..], b[1..]);
      assert a == [a[0]] + a[1..] && b == [b[0]] + b[1..];
      if Precedes(a, b) {
        var p: nat :| PartsAt(a, b, p);
        if p > 0 { PartsEarlier(a, b, p); }
      }
      if Precedes(a[1..], b[1..]) {
        var p: nat :| PartsAt(a[1..], b[1..], p);
        PartsLater(a, b, p);
      }
    }
  }

  lemma PartsAtStart(a: string, b: string)
    requires a == [] || b == [] || a[0] != b[0]
    ensures AtMost(a, b) <==> a == b || Precedes(a, b)
  {
    if b != [] { assert PartsAt(a, b, 0) <==> a == [] || a[0] < b[0]; }
    forall p: nat | p > 0 ensures !PartsAt(a, b, p) {
      if a != [] && b != [] && PartsAt(a, b, p) { PartsEarlier(a, b, p); }
    }
  }

  /** A walk over a map meets its keys in dictionary order. */
  lemma {:induction false} OrderIsAscending(keys: set<string>, i: nat, j: nat)
    requires i < j < |InOrder(keys)|
    ensures Precedes(InOrder(keys)[i], InOrder(keys)[j])
    decreases |keys|
  {
    var least := Least(keys);
    var rest := keys - {least};
    assert InOrder(keys) == [least] + InOrder(rest);
    if i > 0 {
      OrderIsAscending(rest, i - 1, j - 1);
    } else {
      var k := InOrder(rest)[j - 1];
      assert k in InOrder(rest);
      AtMostMeans(least, k);
    }
  }
}
