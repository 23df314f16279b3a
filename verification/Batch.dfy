/** A batch of changes judged one after the other (`applyValidationRules`), as a fold whose state is
    the verdict, the code and the two growing lists. */
module Batch {
  import opened Wrappers
  import opened Paths
  import opened Entities
  import opened Rules

  datatype Outcome = Outcome(ret: bool, code: int, accepted: seq<Change>, errors: seq<Error>)

  const START := Outcome(true, HTTP_OK, [], [])

  function Max(a: int, b: int): int {
    if a < b then b else a
  }

  /** The branch of the loop a path falls into. */
  datatype Kind = SubscriptionList | ImsiData | BadImsi | DynamicPath | Unknown

  function Classify(path: string): Kind {
    if IsAuthSubscriptionUri(path) then SubscriptionList
    else if IsStaticDataUri(path) || IsPrivIdUri(path) then (if IsImsiUri(path) then ImsiData else BadImsi)
    else if EndsWith(path, DYNAMIC_DATA) then DynamicPath
    else Unknown
  }

  /** A DELETE on a path that matches nothing: it overwrites verdict and code with true and 200. */
  predicate IsReset(c: Change) {
    Classify(c.resourcePath) == Unknown && c.operation == DELETE
  }

  predicate ResetFree(batch: seq<Change>) {
    forall c | c in batch :: !IsReset(c)
  }

  datatype Judgement = Judgement(ok: bool, code: int, errors: seq<Error>)

  /** Common rules first; the others only if no error is known by then, new or old. */
  function JudgeBy(common: seq<Error>, code: int, further: seq<Error>, prior: seq<Error>): Judgement {
    if prior + common != [] then Judgement(false, code, common)
    else if further != [] then Judgement(false, HTTP_CONFLICT, common + further)
    else Judgement(true, HTTP_OK, [])
  }

  function Judge(related: Related, c: Change, prior: seq<Error>): Judgement {
    if c.operation == CREATE then
      JudgeBy(CommonErrors(related, c), CommonCode(related, c), LegacyErrors(related, c), prior)
    else if c.operation == UPDATE then
      if BasePath(c.resourcePath) !in related then
        Judgement(false, HTTP_UNPROCESSABLE_ENTITY, [Error(UnprocessableEntity, c.resourcePath, RELATED_RESOURCE)])
      else
        JudgeBy(CommonErrors(related, c), CommonCode(related, c), UpdateErrors(related, c), prior)
    else
      Judgement(true, HTTP_OK, [])
  }

  function Step(related: Related, o: Outcome, c: Change): Outcome {
    match Classify(c.resourcePath)
    case SubscriptionList =>
      if c.operation == DELETE then o.(accepted := o.accepted + [c]) else o
    case ImsiData =>
      var j := Judge(related, c, o.errors);
      var ret := o.ret && j.ok;
      Outcome(ret, Max(o.code, j.code),
              if ret then o.accepted + [Mutate(related, c)] else o.accepted,
              o.errors + j.errors)
    case BadImsi =>
      Outcome(false, Max(o.code, HTTP_CONFLICT), o.accepted, o.errors + [Violation(c.resourcePath, IMSI)])
    case DynamicPath =>
      Outcome(false, Max(o.code, HTTP_CONFLICT), o.accepted,
              o.errors + [Violation(c.resourcePath, DYNAMIC_DATA)])
    case Unknown =>
      if c.operation != DELETE then
        Outcome(false, HTTP_UNPROCESSABLE_ENTITY, o.accepted,
                o.errors + [Error(UnprocessableEntity, c.resourcePath, RESOURCE_PATH)])
      else
        Outcome(true, HTTP_OK, o.accepted + [c], o.errors)
  }

  function Run(related: Related, o: Outcome, batch: seq<Change>): Outcome
    decreases |batch|
  {
    if batch == [] then o else Run(related, Step(related, o, batch[0]), batch[1..])
  }

  /** The outcome of a change judged alone. */
  function Alone(related: Related, c: Change): Outcome {
    Step(related, START, c)
  }

  lemma {:induction false} RunSplit(related: Related, o: Outcome, a: seq<Change>, b: seq<Change>)
    ensures Run(related, o, a + b) == Run(related, Run(related, o, a), b)
    decreases |a|
  {
    if a == [] {
      assert a + b == b;
    } else {
      assert (a + b)[0] == a[0] && (a + b)[1..] == a[1..] + b;
      RunSplit(related, Step(related, o, a[0]), a[1..], b);
    }
  }

  lemma RunLast(related: Related, o: Outcome, batch: seq<Change>, c: Change)
    ensures Run(related, o, batch + [c]) == Step(related, Run(related, o, batch), c)
  {
    RunSplit(related, o, batch, [c]);
    assert [c][1..] == [];
  }

  // ---------- the status is a function of the errors ----------

  predicate AnyUnprocessable(errors: seq<Error>) {
    exists e | e in errors :: e.message == UnprocessableEntity
  }

  function StatusOf(errors: seq<Error>): int {
    if errors == [] then HTTP_OK
    else if AnyUnprocessable(errors) then HTTP_UNPROCESSABLE_ENTITY
    else HTTP_CONFLICT
  }

  predicate Consistent(o: Outcome) {
    o.ret == (o.errors == []) && o.code == StatusOf(o.errors)
  }

  lemma StatusOfBoth(a: seq<Error>, b: seq<Error>)
    ensures StatusOf(a + b) == Max(StatusOf(a), StatusOf(b))
  {
    assert forall e :: e in a + b <==> e in a || e in b;
  }

  lemma NoneInBoth(a: seq<Error>, b: seq<Error>)
    ensures AnyUnprocessable(a + b) <==> AnyUnprocessable(a) || AnyUnprocessable(b)
  {
    assert forall e :: e in a + b <==> e in a || e in b;
  }

  lemma LegacyFieldViolations(legacy: Legacy, path: string, d: StaticData)
    ensures !AnyUnprocessable(LegacyFieldErrors(legacy, path, d))
  {
    var field := ManagementFieldMismatch(d.authenticationManagementField, legacy.amfValue, path);
    var opc := MismatchErrors(d.encOpcKey, legacy.eopc, path, ENC_OPC_KEY);
    LegacyKeyViolations(legacy, path, d);
    NoneInBoth(LegacyKeyErrors(legacy, path, d), field);
    NoneInBoth(LegacyKeyErrors(legacy, path, d) + field, opc);
    NoneInBoth(LegacyKeyErrors(legacy, path, d) + field + opc,
               MismatchErrors(d.akaAlgorithmInd, IntText(legacy.akaAlgInd), path, AKA_ALGORITHM_IND));
  }

  lemma LegacyKeyViolations(legacy: Legacy, path: string, d: StaticData)
    ensures !AnyUnprocessable(LegacyKeyErrors(legacy, path, d))
  {
  }

  lemma ImmutableViolations(stored: StaticData, path: string, d: StaticData)
    ensures !AnyUnprocessable(ImmutableErrors(stored, path, d))
  {
  }

  lemma LegacyErrorsAreConflicts(related: Related, c: Change)
    ensures !AnyUnprocessable(LegacyErrors(related, c))
  {
    var path, found := c.resourcePath, FindLegacy(related, c.resourcePath);
    if c.authSubscription.staticData.Some? && found.Some? {
      var d, legacy := c.authSubscription.staticData.value, found.value;
      LegacyFieldViolations(legacy, path, d);
      StatusOfBoth(AkaTypeErrors(path, legacy), LegacyFieldErrors(legacy, path, d));
    }
  }

  lemma UpdateErrorsAreConflicts(related: Related, c: Change)
    ensures !AnyUnprocessable(UpdateErrors(related, c))
  {
    var path, found := c.resourcePath, FindStored(related, c.resourcePath);
    if c.authSubscription.staticData.Some? && found.Some? {
      ImmutableViolations(found.value, path, c.authSubscription.staticData.value);
    }
  }

  lemma CommonStatus(related: Related, c: Change)
    ensures AnyUnprocessable(CommonErrors(related, c)) <==> JournalMissing(related, c)
  {
    if c.authSubscription.staticData.Some? {
      var path, d := c.resourcePath, c.authSubscription.staticData.value;
      var first := OwnErrors(MustBeGiven(related, path, d), path, d);
      assert !AnyUnprocessable(first);
      var last := AkaAlgorithmErrors(related, path, d);
      assert CommonErrors(related, c) == (first + last) + DynamicErrors(c);
      assert AnyUnprocessable(last) <==> JournalMissing(related, c) by {
        if JournalMissing(related, c) {
          assert last[|last| - 1] == Error(UnprocessableEntity, path, PROV_JOURNAL);
        }
      }
      StatusOfBoth(first, last);
      StatusOfBoth(first + last, DynamicErrors(c));
    }
  }

  /** One step of the fold from a consistent state, whether or not the code could make it. */
  lemma FoldStepIsPointwise(related: Related, o: Outcome, c: Change)
    requires Consistent(o) && !IsReset(c)
    ensures var o' := Step(related, o, c);
      && Consistent(o')
      && o'.ret == (o.ret && Alone(related, c).ret)
      && o'.code == Max(o.code, Alone(related, c).code)
  {
    var o' := Step(related, o, c);
    if Classify(c.resourcePath) == ImsiData {
      var j, j0 := Judge(related, c, o.errors), Judge(related, c, []);
      LegacyErrorsAreConflicts(related, c);
      UpdateErrorsAreConflicts(related, c);
      CommonStatus(related, c);
      assert [] + j0.errors == j0.errors;
      JudgementStatus(related, c, o.errors);
      JudgementStatus(related, c, []);
      StatusOfBoth(o.errors, j.errors);
      StatusOfBoth(o.errors, j0.errors);
    } else {
      StatusOfBoth(o.errors, o'.errors[|o.errors|..]);
    }
  }

  lemma RejectedStatus(errors: seq<Error>)
    requires errors != []
    ensures HTTP_CONFLICT <= StatusOf(errors)
  {
  }

  /** One step from a consistent state that is not a reset and does not throw: the verdict is the
      conjunction and the code the maximum of what was and of what the change gets alone, though errors
      known before may have kept the legacy and update rules from adding theirs. An UPDATE that lacks data
      can only come behind an error, and then changes neither. */
  lemma StepIsPointwise(related: Related, o: Outcome, c: Change)
    requires Consistent(o) && !IsReset(c) && (LacksData(related, c) ==> o.errors != [])
    ensures var o' := Step(related, o, c);
      && Consistent(o')
      && o'.ret == (o.ret && (LacksData(related, c) || Alone(related, c).ret))
      && o'.code == if LacksData(related, c) then o.code else Max(o.code, Alone(related, c).code)
  {
    FoldStepIsPointwise(related, o, c);
    if LacksData(related, c) {
      LacksDataAlone(related, c);
      RejectedStatus(o.errors);
    }
  }

  /** A judgement fails iff an error is known afterwards, and its code is at most what the errors say. */
  lemma JudgementStatus(related: Related, c: Change, prior: seq<Error>)
    ensures var j := Judge(related, c, prior);
      && (j.ok ==> j.errors == [] && j.code == HTTP_OK)
      && (prior == [] ==> j.ok == (j.errors == []) && j.code == StatusOf(j.errors))
      && (!j.ok ==> StatusOf(prior + j.errors) == Max(StatusOf(prior), j.code) && prior + j.errors != [])
      && (Judge(related, c, []).ok && prior == [] ==> j.ok)
      && (prior != [] && (c.operation == CREATE || c.operation == UPDATE) ==>
            Max(HTTP_CONFLICT, j.code) == Max(HTTP_CONFLICT, Judge(related, c, []).code))
  {
    LegacyErrorsAreConflicts(related, c);
    UpdateErrorsAreConflicts(related, c);
    CommonStatus(related, c);
    var j := Judge(related, c, prior);
    StatusOfBoth(prior, j.errors);
    assert prior + [] == prior;
    var common := CommonErrors(related, c);
    StatusOfBoth(common, LegacyErrors(related, c));
    StatusOfBoth(common, UpdateErrors(related, c));
  }

  // ---------- when the update rules find nothing to read ----------

  /** An UPDATE that the update rules would read static data from, though it has none. */
  predicate LacksData(related: Related, c: Change) {
    && Classify(c.resourcePath) == ImsiData && c.operation == UPDATE
    && BasePath(c.resourcePath) in related
    && c.authSubscription == AuthSubscription(None, None)
  }

  /** No change of the batch makes the update rules call `.value()` on nothing. */
  predicate NeverThrows(related: Related, o: Outcome, batch: seq<Change>)
    decreases |batch|
  {
    batch != [] ==>
      && (LacksData(related, batch[0]) ==> o.errors != [])
      && NeverThrows(related, Step(related, o, batch[0]), batch[1..])
  }

  lemma {:induction false} NeverThrowsFrom(related: Related, o: Outcome, batch: seq<Change>)
    ensures NeverThrows(related, o, batch) <==>
      forall n | 0 <= n < |batch| && LacksData(related, batch[n]) :: Run(related, o, batch[..n]).errors != []
    decreases |batch|
  {
    if batch != [] {
      var o', rest := Step(related, o, batch[0]), batch[1..];
      NeverThrowsFrom(related, o', rest);
      assert Run(related, o, batch[..0]) == o;
      forall n | 0 < n < |batch|
        ensures Run(related, o, batch[..n]) == Run(related, o', rest[..n - 1]) && batch[n] == rest[n - 1]
      {
        assert batch[..n][0] == batch[0] && batch[..n][1..] == rest[..n - 1];
      }
      forall n | 0 <= n < |rest|
        ensures Run(related, o, batch[..n + 1]) == Run(related, o', rest[..n]) && batch[n + 1] == rest[n]
      {
        assert batch[..n + 1][0] == batch[0] && batch[..n + 1][1..] == rest[..n];
      }
    }
  }

  /** A change before position n is rejected alone. */
  predicate RejectedBefore(related: Related, batch: seq<Change>, n: nat)
    requires n <= |batch|
  {
    exists c | c in batch[..n] :: Alone(related, c).errors != []
  }

  /** Each such UPDATE has a change before it that is rejected alone. */
  predicate DataBehindErrors(related: Related, batch: seq<Change>) {
    forall n | 0 <= n < |batch| && LacksData(related, batch[n]) :: RejectedBefore(related, batch, n)
  }

  /** The update rules never read absent data exactly when that guard holds. */
  lemma NeverThrowsExactly(related: Related, batch: seq<Change>)
    ensures NeverThrows(related, START, batch) <==> DataBehindErrors(related, batch)
  {
    NeverThrowsFrom(related, START, batch);
    forall n | 0 <= n < |batch|
      ensures Run(related, START, batch[..n]).errors != [] <==> RejectedBefore(related, batch, n)
    {
      FoldErrors(related, batch[..n]);
    }
  }

  /** Nothing in the batch that the update rules could fail on. */
  predicate NoneLacksData(related: Related, batch: seq<Change>) {
    forall c | c in batch :: !LacksData(related, c)
  }

  lemma NoneLacksDataRuns(related: Related, batch: seq<Change>)
    requires NoneLacksData(related, batch)
    ensures NeverThrows(related, START, batch)
  {
    NeverThrowsFrom(related, START, batch);
  }

  lemma FirstThrows(related: Related, batch: seq<Change>)
    requires batch != [] && LacksData(related, batch[0])
    ensures !NeverThrows(related, START, batch)
  {
  }

  /** What the fold makes of such an UPDATE on its own; the code has no answer. */
  lemma LacksDataAlone(related: Related, c: Change)
    requires LacksData(related, c)
    ensures Alone(related, c).ret && Alone(related, c).code == HTTP_OK && Alone(related, c).errors == []
  {
    assert CommonErrors(related, c) == [];
  }

  // ---------- reset-free batches ----------

  /** Over a reset-free run the status follows the error list after every change, from any
      consistent start: 200 iff there is none, 422 iff one is unprocessable, 409 otherwise. */
  lemma {:induction false} StatusFollowsErrors(related: Related, o: Outcome, batch: seq<Change>)
    requires Consistent(o) && ResetFree(batch)
    ensures Consistent(Run(related, o, batch))
    ensures o.code <= Run(related, o, batch).code
    decreases |batch|
  {
    if batch != [] {
      FoldStepIsPointwise(related, o, batch[0]);
      StatusFollowsErrors(related, Step(related, o, batch[0]), batch[1..]);
    }
  }

  /** After every prefix, and never going down between two of them. */
  lemma StatusAtEveryPrefix(related: Related, batch: seq<Change>, m: nat, n: nat)
    requires ResetFree(batch) && m <= n <= |batch|
    ensures Consistent(Run(related, START, batch[..m])) && Consistent(Run(related, START, batch[..n]))
    ensures Run(related, START, batch[..m]).code <= Run(related, START, batch[..n]).code
  {
    var first := Run(related, START, batch[..m]);
    StatusFollowsErrors(related, START, batch[..m]);
    assert batch[..n] == batch[..m] + batch[m..n];
    RunSplit(related, START, batch[..m], batch[m..n]);
    StatusFollowsErrors(related, first, batch[m..n]);
  }

  /** The code is the largest one that any change gets alone, of those that can be judged alone. */
  predicate IsMaxCode(related: Related, batch: seq<Change>, code: int) {
    && HTTP_OK <= code
    && (forall c | c in batch && !LacksData(related, c) :: Alone(related, c).code <= code)
    && (code == HTTP_OK || exists c | c in batch && !LacksData(related, c) :: Alone(related, c).code == code)
  }

  predicate AllAcceptedAlone(related: Related, batch: seq<Change>) {
    forall c | c in batch && !LacksData(related, c) :: Alone(related, c).ret
  }

  lemma {:induction false} VerdictFrom(related: Related, o: Outcome, batch: seq<Change>)
    requires Consistent(o) && ResetFree(batch)
    ensures var r := Run(related, o, batch);
      && r.ret == (o.ret && forall c | c in batch :: Alone(related, c).ret)
      && (forall c | c in batch :: Alone(related, c).code <= r.code)
      && o.code <= r.code
      && (r.code == o.code || exists c | c in batch :: Alone(related, c).code == r.code)
    decreases |batch|
  {
    if batch != [] {
      var c := batch[0];
      FoldStepIsPointwise(related, o, c);
      VerdictFrom(related, Step(related, o, c), batch[1..]);
      assert forall x :: x in batch <==> x == c || x in batch[1..];
    }
  }

  lemma RejectedAlone(related: Related, c: Change)
    requires !IsReset(c) && Alone(related, c).errors != []
    ensures !LacksData(related, c) && !Alone(related, c).ret
  {
    if LacksData(related, c) { LacksDataAlone(related, c); }
    FoldStepIsPointwise(related, START, c);
  }

  /** In a batch that runs through, a change that lacks data is not the only one that decides. */
  lemma AcceptedAlone(related: Related, batch: seq<Change>)
    requires ResetFree(batch) && NeverThrows(related, START, batch)
    ensures AllAcceptedAlone(related, batch) <==> forall c | c in batch :: Alone(related, c).ret
  {
    NeverThrowsExactly(related, batch);
    if AllAcceptedAlone(related, batch) {
      forall c | c in batch ensures Alone(related, c).ret {
        if LacksData(related, c) {
          var n :| 0 <= n < |batch| && batch[n] == c;
          var x :| x in batch[..n] && Alone(related, x).errors != [];
          RejectedAlone(related, x);
        }
      }
    }
  }

  /** For a reset-free batch that runs through the verdict is the conjunction, and the code the maximum,
      of what the changes get one by one, those left aside that cannot be judged alone. */
  lemma VerdictIsPointwise(related: Related, batch: seq<Change>)
    requires ResetFree(batch) && NeverThrows(related, START, batch)
    ensures Run(related, START, batch).ret <==> AllAcceptedAlone(related, batch)
    ensures IsMaxCode(related, batch, Run(related, START, batch).code)
  {
    VerdictFrom(related, START, batch);
    AcceptedAlone(related, batch);
    var code := Run(related, START, batch).code;
    if code != HTTP_OK {
      var c :| c in batch && Alone(related, c).code == code;
      if LacksData(related, c) { LacksDataAlone(related, c); }
    }
  }

  /** The two batches run through and get the same verdict and code. */
  predicate RunAlike(related: Related, a: seq<Change>, b: seq<Change>) {
    && NeverThrows(related, START, a) && NeverThrows(related, START, b)
    && Run(related, START, a).ret == Run(related, START, b).ret
    && Run(related, START, a).code == Run(related, START, b).code
  }

  /** Neither order nor repetition of changes matters to verdict and code, as long as both batches run
      through. */
  lemma VerdictIgnoresOrder(related: Related, a: seq<Change>, b: seq<Change>)
    requires ResetFree(a) && forall c :: c in a <==> c in b
    requires NeverThrows(related, START, a) && NeverThrows(related, START, b)
    ensures ResetFree(b)
    ensures RunAlike(related, a, b)
  {
    VerdictIsPointwise(related, a);
    VerdictIsPointwise(related, b);
  }

  /** Whether it runs through does depend on the order: all reorderings of a reset-free batch run alike
      exactly when no change of it lacks data. */
  lemma OrderIsIgnoredExactly(related: Related, batch: seq<Change>)
    requires ResetFree(batch)
    ensures (forall other: seq<Change> | multiset(other) == multiset(batch) :: RunAlike(related, batch, other))
       <==> NoneLacksData(related, batch)
  {
    if NoneLacksData(related, batch) {
      forall other: seq<Change> | multiset(other) == multiset(batch) ensures RunAlike(related, batch, other) {
        SameMembers(batch, other);
        NoneLacksDataRuns(related, batch);
        NoneLacksDataRuns(related, other);
        VerdictIgnoresOrder(related, batch, other);
      }
    } else {
      var n :| 0 <= n < |batch| && LacksData(related, batch[n]);
      var other := ThrowingOrder(related, batch, n);
      assert !RunAlike(related, batch, other);
    }
  }

  lemma ThrowingOrder(related: Related, batch: seq<Change>, n: nat) returns (other: seq<Change>)
    requires n < |batch| && LacksData(related, batch[n])
    ensures multiset(other) == multiset(batch) && !NeverThrows(related, START, other)
  {
    other := [batch[n]] + (batch[..n] + batch[n + 1..]);
    FirstThrows(related, other);
    MovedToFront(batch, n);
  }

  lemma MovedToFront(batch: seq<Change>, n: nat)
    requires n < |batch|
    ensures multiset([batch[n]] + (batch[..n] + batch[n + 1..])) == multiset(batch)
  {
    assert batch == batch[..n] + ([batch[n]] + batch[n + 1..]);
  }

  lemma SameMembers(a: seq<Change>, b: seq<Change>)
    requires multiset(a) == multiset(b)
    ensures forall c :: c in a <==> c in b
  {
    forall c ensures c in a <==> c in b {
      assert c in a <==> c in multiset(a);
      assert c in b <==> c in multiset(b);
    }
  }

  /** The whole and the two parts run through; verdicts are joined by conjunction, codes by maximum. */
  predicate SplitsAlike(related: Related, a: seq<Change>, b: seq<Change>) {
    && NeverThrows(related, START, a) && NeverThrows(related, START, b) && NeverThrows(related, START, a + b)
    && var both := Run(related, START, a + b);
       && both.ret == (Run(related, START, a).ret && Run(related, START, b).ret)
       && both.code == Max(Run(related, START, a).code, Run(related, START, b).code)
  }

  /** Nor does it matter how the changes are split over batches, as long as both parts run through. */
  lemma VerdictIgnoresSplitting(related: Related, a: seq<Change>, b: seq<Change>)
    requires ResetFree(a) && ResetFree(b)
    requires NeverThrows(related, START, a) && NeverThrows(related, START, b)
    ensures SplitsAlike(related, a, b)
  {
    var o := Run(related, START, a);
    RunSplit(related, START, a, b);
    StatusFollowsErrors(related, START, a);
    VerdictFrom(related, o, b);
    VerdictFrom(related, START, b);
    StatusFollowsErrors(related, START, b);
    StatusFollowsErrors(related, o, b);
    PartsRunThrough(related, a, b);
  }

  lemma PartsRunThrough(related: Related, a: seq<Change>, b: seq<Change>)
    requires NeverThrows(related, START, a) && NeverThrows(related, START, b)
    ensures NeverThrows(related, START, a + b)
  {
    NeverThrowsExactly(related, a);
    NeverThrowsExactly(related, b);
    NeverThrowsExactly(related, a + b);
    forall n | 0 <= n < |a + b| && LacksData(related, (a + b)[n]) ensures RejectedBefore(related, a + b, n) {
      if n < |a| { RejectedInFirst(related, a, b, n); } else { RejectedInSecond(related, a, b, n - |a|); }
    }
  }

  lemma RejectedInFirst(related: Related, a: seq<Change>, b: seq<Change>, n: nat)
    requires n <= |a| && RejectedBefore(related, a, n)
    ensures RejectedBefore(related, a + b, n)
  {
    assert (a + b)[..n] == a[..n];
  }

  lemma RejectedInSecond(related: Related, a: seq<Change>, b: seq<Change>, n: nat)
    requires n <= |b| && RejectedBefore(related, b, n)
    ensures RejectedBefore(related, a + b, |a| + n)
  {
    assert (a + b)[..|a| + n] == a + b[..n];
    var c :| c in b[..n] && Alone(related, c).errors != [];
    assert c in a + b[..n];
  }

  /** All splits of a reset-free batch are alike exactly when no change of it lacks data. */
  lemma SplittingIsIgnoredExactly(related: Related, batch: seq<Change>)
    requires ResetFree(batch)
    ensures (forall n | 0 <= n <= |batch| :: SplitsAlike(related, batch[..n], batch[n..]))
       <==> NoneLacksData(related, batch)
  {
    if NoneLacksData(related, batch) {
      forall n | 0 <= n <= |batch| ensures SplitsAlike(related, batch[..n], batch[n..]) {
        NoneLacksDataRuns(related, batch[..n]);
        NoneLacksDataRuns(related, batch[n..]);
        VerdictIgnoresSplitting(related, batch[..n], batch[n..]);
      }
    } else {
      var n :| 0 <= n < |batch| && LacksData(related, batch[n]);
      FirstThrows(related, batch[n..]);
      assert !SplitsAlike(related, batch[..n], batch[n..]);
    }
  }

  // ---------- what resets leave true, and what they break ----------

  /** A change that neither records an error nor consults the rules. */
  predicate IsQuiet(c: Change) {
    || Classify(c.resourcePath) == SubscriptionList
    || (Classify(c.resourcePath) == ImsiData && c.operation != CREATE && c.operation != UPDATE)
  }

  /** Errors are only ever appended, and the first one is one the change would get alone. */
  lemma StepErrors(related: Related, o: Outcome, c: Change)
    ensures o.errors <= Step(related, o, c).errors
    ensures o.errors == [] ==> Step(related, o, c).errors == Alone(related, c).errors
    ensures (IsQuiet(c) || IsReset(c)) ==> Step(related, o, c).errors == o.errors
  {
    if Classify(c.resourcePath) == ImsiData {
      JudgementOutcome(related, c, o.errors);
      assert [] + Judge(related, c, []).errors == Judge(related, c, []).errors;
    }
  }

  /** Only quiet changes and resets can leave the verdict true once an error is known. */
  lemma StepVerdict(related: Related, o: Outcome, c: Change)
    ensures IsQuiet(c) ==> Step(related, o, c).ret == o.ret
    ensures IsReset(c) ==> Step(related, o, c).ret
    ensures !IsQuiet(c) && !IsReset(c) && Step(related, o, c).ret ==> Step(related, o, c).errors == []
  {
    if Classify(c.resourcePath) == ImsiData { JudgementOutcome(related, c, o.errors); }
  }

  lemma JudgementOutcome(related: Related, c: Change, prior: seq<Error>)
    ensures var j := Judge(related, c, prior);
      && (if j.ok then j.errors == [] && j.code == HTTP_OK
          else j.code == HTTP_CONFLICT || j.code == HTTP_UNPROCESSABLE_ENTITY)
      && (j.ok && (c.operation == CREATE || c.operation == UPDATE) ==> prior == [])
      && (c.operation != CREATE && c.operation != UPDATE ==> j.ok)
  {
  }

  predicate VerdictMatchesCode(o: Outcome) {
    o.ret == (o.code == HTTP_OK) && o.code in {HTTP_OK, HTTP_CONFLICT, HTTP_UNPROCESSABLE_ENTITY}
  }

  lemma StepVerdictCode(related: Related, o: Outcome, c: Change)
    requires VerdictMatchesCode(o)
    ensures VerdictMatchesCode(Step(related, o, c))
  {
    if Classify(c.resourcePath) == ImsiData { JudgementOutcome(related, c, o.errors); }
  }

  /** The fold has errors exactly when one of its changes has errors alone. */
  lemma {:induction false} FoldErrors(related: Related, batch: seq<Change>)
    ensures Run(related, START, batch).errors != [] <==>
      exists c | c in batch :: Alone(related, c).errors != []
  {
    if batch != [] {
      var n := |batch| - 1;
      var rest, c := batch[..n], batch[n];
      assert batch == rest + [c];
      RunLast(related, START, rest, c);
      FoldErrors(related, rest);
      StepErrors(related, Run(related, START, rest), c);
      assert forall x :: x in batch <==> x in rest || x == c;
    }
  }

  /** Resets included: a batch that runs through has errors exactly when one of its changes has errors
      alone, of those that can be judged alone. */
  lemma ErrorsIffOneRejected(related: Related, batch: seq<Change>)
    requires NeverThrows(related, START, batch)
    ensures Run(related, START, batch).errors != [] <==>
      exists c | c in batch :: !LacksData(related, c) && Alone(related, c).errors != []
  {
    FoldErrors(related, batch);
    forall c | LacksData(related, c) ensures Alone(related, c).errors == [] { LacksDataAlone(related, c); }
  }

  /** Resets included: verdict and code agree, and the code is one of three. */
  lemma {:induction false} VerdictIsCode(related: Related, batch: seq<Change>)
    ensures VerdictMatchesCode(Run(related, START, batch))
  {
    if batch != [] {
      var n := |batch| - 1;
      assert batch == batch[..n] + [batch[n]];
      RunLast(related, START, batch[..n], batch[n]);
      VerdictIsCode(related, batch[..n]);
      StepVerdictCode(related, Run(related, START, batch[..n]), batch[n]);
    }
  }

  /** The reset at position n covers up the error of an earlier change, and nothing after it is
      judged. */
  predicate CoversUp(related: Related, batch: seq<Change>, n: nat) {
    && n < |batch| && IsReset(batch[n]) && RejectedBefore(related, batch, n)
    && (forall c | c in batch[n + 1..] :: IsQuiet(c) || IsReset(c))
  }

  /** The verdict of the fold contradicts its error list exactly when some reset covers an error up. */
  lemma {:induction false} FoldContradiction(related: Related, batch: seq<Change>)
    ensures var o := Run(related, START, batch);
      o.ret && o.errors != [] <==> exists n: nat :: CoversUp(related, batch, n)
  {
    if batch != [] {
      var last := |batch| - 1;
      var rest, c := batch[..last], batch[last];
      assert batch == rest + [c];
      RunLast(related, START, rest, c);
      StepErrors(related, Run(related, START, rest), c);
      FoldContradiction(related, rest);
      FoldErrors(related, rest);
      CoverUpGrows(related, rest, c);
      StepVerdict(related, Run(related, START, rest), c);
    }
  }

  /** In a batch that runs through, resets included, the verdict contradicts the error list exactly so. */
  lemma VerdictContradictsErrors(related: Related, batch: seq<Change>)
    requires NeverThrows(related, START, batch)
    ensures var o := Run(related, START, batch);
      o.ret && o.errors != [] <==> exists n: nat :: CoversUp(related, batch, n)
  {
    FoldContradiction(related, batch);
  }

  lemma CoverUpAtEnd(related: Related, rest: seq<Change>, c: Change)
    ensures CoversUp(related, rest + [c], |rest|) <==>
      IsReset(c) && exists x | x in rest :: Alone(related, x).errors != []
  {
    var batch := rest + [c];
    assert batch[..|rest|] == rest && batch[|rest| + 1..] == [];
  }

  lemma CoverUpBefore(related: Related, rest: seq<Change>, c: Change, n: nat)
    requires n < |rest|
    ensures CoversUp(related, rest + [c], n) <==> (IsQuiet(c) || IsReset(c)) && CoversUp(related, rest, n)
  {
    var batch := rest + [c];
    assert batch[..n] == rest[..n];
    assert batch[n + 1..] == rest[n + 1..] + [c];
  }

  lemma CoverUpGrows(related: Related, rest: seq<Change>, c: Change)
    ensures (exists n: nat :: CoversUp(related, rest + [c], n)) <==>
      || (IsReset(c) && exists x | x in rest :: Alone(related, x).errors != [])
      || ((IsQuiet(c) || IsReset(c)) && exists n: nat :: CoversUp(related, rest, n))
  {
    CoverUpAtEnd(related, rest, c);
    if n: nat :| CoversUp(related, rest + [c], n) {
      if n < |rest| { CoverUpBefore(related, rest, c, n); }
    }
    if n: nat :| CoversUp(related, rest, n) { CoverUpBefore(related, rest, c, n); }
  }

  // ---------- batches of deletions ----------

  /** A DELETE that the code rejects. */
  predicate RefusesDelete(c: Change) {
    Classify(c.resourcePath) == BadImsi || Classify(c.resourcePath) == DynamicPath
  }

  lemma SingleDelete(related: Related, c: Change)
    requires c.operation == DELETE
    ensures Alone(related, c).ret <==> !RefusesDelete(c)
    ensures Alone(related, c).code == if RefusesDelete(c) then HTTP_CONFLICT else HTTP_OK
  {
  }

  predicate ResetAfter(batch: seq<Change>, n: nat) {
    exists r | n < r < |batch| :: IsReset(batch[r])
  }

  /** "Every DELETE is answered with 200" holds of a batch of deletions exactly when a reset follows
      each rejected one. */
  lemma {:induction false} DeletionsSucceed(related: Related, batch: seq<Change>)
    requires forall c | c in batch :: c.operation == DELETE
    ensures var o := Run(related, START, batch);
      (o.ret && o.code == HTTP_OK) <==> forall n | 0 <= n < |batch| && RefusesDelete(batch[n]) :: ResetAfter(batch, n)
  {
    VerdictIsCode(related, batch);
    if batch != [] {
      var last := |batch| - 1;
      var rest, c := batch[..last], batch[last];
      assert batch == rest + [c];
      RunLast(related, START, rest, c);
      DeletionsSucceed(related, rest);
      VerdictIsCode(related, rest);
      ResetsGrow(rest, c);
      DeletionStep(related, Run(related, START, rest), c);
    }
  }

  lemma DeletionStep(related: Related, o: Outcome, c: Change)
    requires c.operation == DELETE
    ensures Step(related, o, c).ret == if RefusesDelete(c) then false else IsReset(c) || o.ret
  {
    StepVerdict(related, o, c);
  }

  lemma ResetsGrow(rest: seq<Change>, c: Change)
    ensures forall n | 0 <= n < |rest| :: ResetAfter(rest + [c], n) <==> ResetAfter(rest, n) || IsReset(c)
    ensures !ResetAfter(rest + [c], |rest|)
  {
    var batch := rest + [c];
    forall n | 0 <= n < |rest| ensures ResetAfter(batch, n) <==> ResetAfter(rest, n) || IsReset(c) {
      if ResetAfter(rest, n) {
        var r :| n < r < |rest| && IsReset(rest[r]);
        assert IsReset(batch[r]);
      }
      if IsReset(c) { assert IsReset(batch[|rest|]); }
      if ResetAfter(batch, n) {
        var r :| n < r < |batch| && IsReset(batch[r]);
        assert r < |rest| ==> IsReset(rest[r]);
      }
    }
  }

  /** A deletion that is rejected: one of dynamic data. */
  lemma DeletionRefused(related: Related)
    ensures var c := Change(DELETE, DYNAMIC_DATA, AuthSubscription(None, None));
      !Alone(related, c).ret && Alone(related, c).code == HTTP_CONFLICT
  {
    assert Classify(DYNAMIC_DATA) == DynamicPath by {
      CharOfPrefix(DYNAMIC_DATA, SUBSCRIBERS, 0);
      assert LastSlash(DYNAMIC_DATA) < 0 by { assert NoSlash(DYNAMIC_DATA); }
    }
    SingleDelete(related, Change(DELETE, DYNAMIC_DATA, AuthSubscription(None, None)));
  }
}
