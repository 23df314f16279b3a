/** What `response.changes` holds after a batch, resets included. */
module Acceptance {
  import opened Wrappers
  import opened Numerals
  import opened Paths
  import opened Entities
  import opened Rules
  import opened Batch

  predicate IsJudged(operation: string) {
    operation == CREATE || operation == UPDATE
  }

  // ---------- errors are sticky ----------

  /** One step of the fold appends at most one entry, of the operation and path of its change; a CREATE
      or an UPDATE is appended only while the error list is empty, before and after. */
  lemma FoldAppends(related: Related, o: Outcome, c: Change)
    ensures var o' := Step(related, o, c);
      || o'.accepted == o.accepted
      || (&& o'.accepted == o.accepted + [Mutate(related, c)]
          && (IsJudged(c.operation) ==> o.errors == [] && o'.errors == []))
  {
    if Classify(c.resourcePath) == ImsiData {
      JudgementOutcome(related, c, o.errors);
    } else if !IsStaticDataUri(c.resourcePath) {
      assert Mutate(related, c) == c;
    } else {
      NotCreatedElsewhere(related, o, c);
    }
  }

  /** A step that does not throw, with SEQHEs that can be read: it appends the mutated change or nothing. */
  lemma AppendedWhileClean(related: Related, o: Outcome, c: Change)
    requires SeqHesReadable(related) && (LacksData(related, c) ==> o.errors != [])
    ensures var o' := Step(related, o, c);
      || o'.accepted == o.accepted
      || (&& o'.accepted == o.accepted + [Mutate(related, c)]
          && (IsJudged(c.operation) ==> o.errors == [] && o'.errors == [] && !LacksData(related, c)))
  {
    FoldAppends(related, o, c);
  }

  lemma NotCreatedElsewhere(related: Related, o: Outcome, c: Change)
    requires Classify(c.resourcePath) != ImsiData
    ensures Step(related, o, c).accepted == o.accepted
      || (Step(related, o, c).accepted == o.accepted + [c] && c.operation == DELETE && Mutate(related, c) == c)
  {
  }

  /** From the first recorded error on, no CREATE and no UPDATE enters the response any more. */
  lemma {:induction false} StickyErrors(related: Related, o: Outcome, batch: seq<Change>)
    requires o.errors != []
    ensures var r := Run(related, o, batch);
      && r.errors != []
      && o.accepted <= r.accepted
      && forall k | |o.accepted| <= k < |r.accepted| :: !IsJudged(r.accepted[k].operation)
    decreases |batch|
  {
    if batch != [] {
      var c := batch[0];
      FoldAppends(related, o, c);
      StepErrors(related, o, c);
      StickyErrors(related, Step(related, o, c), batch[1..]);
    }
  }

  /** The same for any position of any batch: what was in the response when errors were first seen
      is a prefix of the final one, and the rest holds no CREATE and no UPDATE. */
  lemma StickyErrorsInBatch(related: Related, batch: seq<Change>, n: nat)
    requires n <= |batch| && Run(related, START, batch[..n]).errors != []
    ensures var before, after := Run(related, START, batch[..n]).accepted, Run(related, START, batch).accepted;
      && before <= after
      && forall k | |before| <= k < |after| :: !IsJudged(after[k].operation)
  {
    assert batch == batch[..n] + batch[n..];
    RunSplit(related, START, batch[..n], batch[n..]);
    StickyErrors(related, Run(related, START, batch[..n]), batch[n..]);
  }

  /** "Only DELETE" would be too much to say: behind a rejected change and a reset, an entry that is
      neither CREATE nor UPDATE is accepted again, whatever its operation. */
  lemma AcceptedBehindReset(related: Related, rejected: Change, reset: Change, c: Change)
    requires Alone(related, rejected).errors != [] && IsReset(reset)
    requires Classify(c.resourcePath) == ImsiData && !IsJudged(c.operation)
    ensures var o := Run(related, START, [rejected] + [reset] + [c]);
      o.ret && o.errors != [] && o.accepted != [] && o.accepted[|o.accepted| - 1].operation == c.operation
  {
    RunLast(related, START, [], rejected);
    assert [] + [rejected] == [rejected];
    RunLast(related, START, [rejected], reset);
    RunLast(related, START, [rejected] + [reset], c);
    var o2 := Run(related, START, [rejected] + [reset]);
    StepErrors(related, Alone(related, rejected), reset);
    StepErrors(related, o2, c);
    StepVerdict(related, o2, c);
    MutationKeepsAddress(related, c);
  }

  lemma PlainImsiPath(m: string, d: string)
    requires 5 <= |d| <= 15 && AllDigits(d)
    ensures Classify(AddSuffix(SUBSCRIBERS + m + AUTH_SUBSCRIPTION, IMSI_PREFIX + d)) == ImsiData
  {
    var base := SUBSCRIBERS + m + AUTH_SUBSCRIPTION;
    GetImsiEmpty(m, d);
    ImsiSegment(d);
    SplitAtLastSlash(base, IMSI_PREFIX + d);
    AuthSubscriptionPattern(base);
    ImsiPathEnds(AddSuffix(base, IMSI_PREFIX + d));
    AuthSubscriptionEnds(AddSuffix(base, IMSI_PREFIX + d));
  }

  predicate EndsWithoutOperation(o: Outcome) {
    o.errors != [] && o.accepted != [] && o.accepted[|o.accepted| - 1].operation == ""
  }

  lemma RejectedAndReset(path: string)
    requires Classify(path) == Unknown
    ensures Alone(map[], Change(CREATE, path, AuthSubscription(None, None))).errors != []
    ensures IsReset(Change(DELETE, path, AuthSubscription(None, None)))
  {
  }

  lemma EndsWithout(rejected: Change, reset: Change, c: Change)
    requires Alone(map[], rejected).errors != [] && IsReset(reset)
    requires Classify(c.resourcePath) == ImsiData && c.operation == ""
    ensures EndsWithoutOperation(Run(map[], START, [rejected] + [reset] + [c]))
  {
    AcceptedBehindReset(map[], rejected, reset, c);
  }

  /** Such a batch; the parser does not insist on an operation, though the interface description does. */
  lemma EntryWithoutOperationAfterError()
    ensures exists batch :: EndsWithoutOperation(Run(map[], START, batch))
  {
    var batch := WithoutOperation("m", "12345");
  }

  lemma WithoutOperation(m: string, d: string) returns (batch: seq<Change>)
    requires 5 <= |d| <= 15 && AllDigits(d)
    ensures EndsWithoutOperation(Run(map[], START, batch))
  {
    var none := AuthSubscription(None, None);
    var imsi := AddSuffix(SUBSCRIBERS + m + AUTH_SUBSCRIPTION, IMSI_PREFIX + d);
    PlainImsiPath(m, d);
    RejectedAndReset("");
    batch := [Change(CREATE, "", none)] + [Change(DELETE, "", none)] + [Change("", imsi, none)];
    EndsWithout(Change(CREATE, "", none), Change(DELETE, "", none), Change("", imsi, none));
  }

  /** Change k adds an entry that is no DELETE although an error is known. */
  predicate OddEntry(related: Related, batch: seq<Change>, k: nat) {
    && k < |batch|
    && var o, o' := Run(related, START, batch[..k]), Run(related, START, batch[..k + 1]);
       o.errors != [] && |o'.accepted| == |o.accepted| + 1 && o'.accepted[|o.accepted|].operation != DELETE
  }

  /** It has none of the three operations, an IMSI, and a reset before it that covers an error up and
      after which nothing is judged. */
  predicate OddBehindReset(related: Related, batch: seq<Change>, k: nat, r: nat) {
    && k < |batch| && Classify(batch[k].resourcePath) == ImsiData && !IsOperation(batch[k].operation)
    && CoversUp(related, batch[..k], r)
  }

  lemma OddStep(related: Related, o: Outcome, c: Change)
    requires o.errors != []
    ensures var o' := Step(related, o, c);
      (|o'.accepted| == |o.accepted| + 1 && o'.accepted[|o.accepted|].operation != DELETE) <==>
      o.ret && Classify(c.resourcePath) == ImsiData && !IsOperation(c.operation)
  {
    FoldAppends(related, o, c);
    MutationKeepsAddress(related, c);
    if Classify(c.resourcePath) == ImsiData {
      JudgementOutcome(related, c, o.errors);
    } else {
      NotCreatedElsewhere(related, o, c);
    }
  }

  lemma FoldOddEntry(related: Related, batch: seq<Change>, k: nat)
    ensures OddEntry(related, batch, k) <==> exists r: nat :: OddBehindReset(related, batch, k, r)
  {
    if k < |batch| {
      var o := Run(related, START, batch[..k]);
      assert batch[..k + 1] == batch[..k] + [batch[k]];
      RunLast(related, START, batch[..k], batch[k]);
      FoldContradiction(related, batch[..k]);
      if o.errors != [] {
        OddStep(related, o, batch[k]);
        if OddEntry(related, batch, k) {
          var r: nat :| CoversUp(related, batch[..k], r);
          assert OddBehindReset(related, batch, k, r);
        }
      }
    }
  }

  /** "After an error only DELETE entries are appended" fails at change k, if the changes before it run
      through, exactly so. */
  lemma OddEntryExactly(related: Related, batch: seq<Change>, k: nat)
    requires k <= |batch| && NeverThrows(related, START, batch[..k])
    ensures OddEntry(related, batch, k) <==> exists r: nat :: OddBehindReset(related, batch, k, r)
  {
    FoldOddEntry(related, batch, k);
  }

  /** So it holds of every batch whose changes all have one of the three operations. */
  lemma {:induction false} OnlyDeletesAfterError(related: Related, o: Outcome, batch: seq<Change>)
    requires o.errors != [] && forall c | c in batch :: IsOperation(c.operation)
    ensures var r := Run(related, o, batch);
      && o.accepted <= r.accepted
      && forall k | |o.accepted| <= k < |r.accepted| :: r.accepted[k].operation == DELETE
    decreases |batch|
  {
    if batch != [] {
      var c := batch[0];
      FoldAppends(related, o, c);
      MutationKeepsAddress(related, c);
      StepErrors(related, o, c);
      OnlyDeletesAfterError(related, Step(related, o, c), batch[1..]);
    }
  }

  // ---------- where an accepted entry comes from ----------

  /** The change an accepted CREATE or UPDATE stems from, with everything its rules established. */
  predicate IsSource(related: Related, c: Change, x: Change) {
    && x == Mutate(related, c) && x.operation == c.operation && x.resourcePath == c.resourcePath
    && Classify(c.resourcePath) == ImsiData
    && CommonErrors(related, c) == []
    && (c.operation == CREATE ==> LegacyErrors(related, c) == [])
    && (c.operation == UPDATE ==> BasePath(c.resourcePath) in related && UpdateErrors(related, c) == [])
  }

  lemma JudgedSource(related: Related, o: Outcome, c: Change)
    requires IsJudged(c.operation) && Step(related, o, c).accepted != o.accepted
    ensures IsSource(related, c, Mutate(related, c))
  {
    MutationKeepsAddress(related, c);
    if Classify(c.resourcePath) == ImsiData { CleanJudgement(related, c, o.errors); }
  }

  lemma CleanJudgement(related: Related, c: Change, prior: seq<Error>)
    requires IsJudged(c.operation)
    ensures Judge(related, c, prior).ok ==>
      && CommonErrors(related, c) == []
      && (c.operation == CREATE ==> LegacyErrors(related, c) == [])
      && (c.operation == UPDATE ==> BasePath(c.resourcePath) in related && UpdateErrors(related, c) == [])
  {
  }

  /** Change n is the source of x and was judged while no error was known. */
  predicate IsSourceAt(related: Related, batch: seq<Change>, n: nat, x: Change) {
    n < |batch| && IsSource(related, batch[n], x) && Run(related, START, batch[..n]).errors == []
  }

  lemma {:induction false} AcceptedHasSourceAt(related: Related, batch: seq<Change>, x: Change) returns (n: nat)
    requires x in Run(related, START, batch).accepted && IsJudged(x.operation)
    ensures IsSourceAt(related, batch, n, x)
  {
    var last := |batch| - 1;
    var rest, c := batch[..last], batch[last];
    assert batch == rest + [c];
    RunLast(related, START, rest, c);
    var o := Run(related, START, rest);
    if x in o.accepted {
      n := AcceptedHasSourceAt(related, rest, x);
      assert batch[..n] == rest[..n];
    } else {
      n := last;
      FoldAppends(related, o, c);
      MutationKeepsAddress(related, c);
      assert x == Mutate(related, c);
      JudgedSource(related, o, c);
    }
  }

  lemma SourceInBatch(related: Related, batch: seq<Change>, x: Change) returns (c: Change)
    requires x in Run(related, START, batch).accepted && IsJudged(x.operation)
    ensures c in batch && IsSource(related, c, x)
  {
    var n := AcceptedHasSourceAt(related, batch, x);
    c := batch[n];
  }

  /** With SEQHEs that can be read, every accepted CREATE or UPDATE is the mutation of a change that
      passed all its rules. */
  lemma AcceptedHasSource(related: Related, batch: seq<Change>, x: Change)
    requires SeqHesReadable(related)
    requires x in Run(related, START, batch).accepted && IsJudged(x.operation)
    ensures exists c | c in batch :: IsSource(related, c, x)
  {
    var c := SourceInBatch(related, batch, x);
  }

  /** Every accepted CREATE that carries static data and has no legacy subscription is well formed
      and complete, and a static-data one starts from sequence number zero. */
  lemma AcceptedCreateIsWellFormed(related: Related, batch: seq<Change>, x: Change)
    requires x in Run(related, START, batch).accepted && x.operation == CREATE
    requires x.authSubscription.staticData.Some? && LegacyPath(x.resourcePath) !in related
    ensures WellFormed(x.authSubscription.staticData.value) && Complete(x.authSubscription.staticData.value)
    ensures x.authSubscription.dynamicData ==
      if IsStaticDataUri(x.resourcePath)
      then Some(DynamicData(Some(SQN_SCHEME_NON_TIME_BASED), Some(SQN_MUTATION_VALUE), None)) else None
  {
    var c := SourceInBatch(related, batch, x);
    StaticErrorsMean(related, c.resourcePath, c.authSubscription.staticData.value);
  }

  predicate AgreeOnProtected(d: StaticData, stored: StaticData) {
    && d.encPermanentKey == stored.encPermanentKey && d.algorithmId == stored.algorithmId
    && d.a4KeyInd == stored.a4KeyInd && d.a4Ind == stored.a4Ind
    && d.encOpcKey == stored.encOpcKey && d.a4KeyV == stored.a4KeyV
  }

  lemma ImmutableMeans(stored: StaticData, path: string, d: StaticData)
    ensures ImmutableErrors(stored, path, d) == [] <==> AgreeOnProtected(d, stored)
  {
  }

  /** Every accepted UPDATE carries the static data of the request, which agrees, as optionals, with the
      stored data at its base path on the six protected attributes, and has no dynamic data. */
  lemma AcceptedUpdateKeepsProtected(related: Related, batch: seq<Change>, x: Change)
    requires Readable(related) && NeverThrows(related, START, batch)
    requires x in Run(related, START, batch).accepted && x.operation == UPDATE
    ensures var d, stored := x.authSubscription.staticData, FindStored(related, x.resourcePath);
            d.Some? && stored.Some? && AgreeOnProtected(d.value, stored.value)
    ensures x.authSubscription.dynamicData.None? && x in batch
  {
    var n := AcceptedHasSourceAt(related, batch, x);
    var c := batch[n];
    UpdateReturnedUnchanged(related, c);
    NeverThrowsFrom(related, START, batch);
    assert !LacksData(related, c);
    StoredFound(related, c.resourcePath);
    ImmutableMeans(FindStored(related, c.resourcePath).value, c.resourcePath, c.authSubscription.staticData.value);
  }

  lemma StoredFound(related: Related, path: string)
    requires Readable(related) && IsImsiUri(path) && BasePath(path) in related
    ensures FindStored(related, path).Some?
  {
    LookupsSucceed(related, path);
  }

  /** The mutation of an UPDATE that passed the common rules changes nothing at all. */
  lemma UpdateReturnedUnchanged(related: Related, c: Change)
    requires c.operation == UPDATE && CommonErrors(related, c) == []
    ensures Mutate(related, c) == c && c.authSubscription.dynamicData.None?
  {
  }

  /** Every accepted CREATE passes the legacy rules again as it stands in the response. */
  lemma AcceptedCreatePassesLegacyAgain(related: Related, batch: seq<Change>, x: Change)
    requires x in Run(related, START, batch).accepted && x.operation == CREATE
    ensures LegacyErrors(related, x) == []
  {
    var c := SourceInBatch(related, batch, x);
    MutationClosesLegacyCheck(related, c);
  }

  /** No accepted entry addresses dynamic data itself. */
  lemma {:induction false} AcceptedPathsAreNotDynamic(related: Related, batch: seq<Change>, x: Change)
    requires x in Run(related, START, batch).accepted
    ensures !EndsWith(x.resourcePath, DYNAMIC_DATA)
  {
    if batch != [] {
      var n := |batch| - 1;
      var rest, c := batch[..n], batch[n];
      assert batch == rest + [c];
      RunLast(related, START, rest, c);
      var o := Run(related, START, rest);
      if x in o.accepted {
        AcceptedPathsAreNotDynamic(related, rest, x);
      } else {
        FoldAppends(related, o, c);
        MutationKeepsAddress(related, c);
        AcceptedStepIsNotDynamic(related, o, c);
      }
    }
  }

  lemma AcceptedStepIsNotDynamic(related: Related, o: Outcome, c: Change)
    requires Step(related, o, c).accepted != o.accepted
    ensures !EndsWith(c.resourcePath, DYNAMIC_DATA)
  {
    match Classify(c.resourcePath)
    case SubscriptionList => AuthSubscriptionIsNotDynamic(c.resourcePath);
    case ImsiData => ImsiPathIsNotDynamic(c.resourcePath);
    case _ =>
  }

  // ---------- nothing is lost ----------

  /** What an error-free change must add: itself, mutated, unless it is a CREATE or UPDATE on the whole
      subscription list. */
  function ExpectedOf(related: Related, c: Change): seq<Change> {
    if Classify(c.resourcePath) == SubscriptionList && c.operation != DELETE then [] else [Mutate(related, c)]
  }

  function Expected(related: Related, batch: seq<Change>): seq<Change> {
    if batch == [] then []
    else Expected(related, batch[..|batch| - 1]) + ExpectedOf(related, batch[|batch| - 1])
  }

  lemma ErrorFreeStep(related: Related, o: Outcome, c: Change)
    requires o.ret && o.errors == [] && Step(related, o, c).errors == []
    ensures Step(related, o, c).ret && Step(related, o, c).accepted == o.accepted + ExpectedOf(related, c)
  {
    if Classify(c.resourcePath) == ImsiData {
      JudgementStatus(related, c, []);
    } else {
      NotCreatedElsewhere(related, o, c);
    }
  }

  lemma ErrorFreeLacksNothing(related: Related, batch: seq<Change>)
    requires NeverThrows(related, START, batch) && Run(related, START, batch).errors == []
    ensures NoneLacksData(related, batch)
  {
    NeverThrowsExactly(related, batch);
    FoldErrors(related, batch);
    forall n | 0 <= n < |batch| ensures !LacksData(related, batch[n]) {
      forall c | c in batch[..n] ensures Alone(related, c).errors == [] { assert c in batch; }
    }
  }

  lemma {:induction false} ErrorFreeFold(related: Related, batch: seq<Change>)
    requires Run(related, START, batch).errors == []
    ensures Run(related, START, batch).ret
    ensures Run(related, START, batch).accepted == Expected(related, batch)
  {
    if batch != [] {
      var n := |batch| - 1;
      var rest, c := batch[..n], batch[n];
      assert batch == rest + [c];
      RunLast(related, START, rest, c);
      StepErrors(related, Run(related, START, rest), c);
      ErrorFreeFold(related, rest);
      ErrorFreeStep(related, Run(related, START, rest), c);
    }
  }

  /** A batch that runs through without an error is accepted and returns what it must, and none of its
      changes lacks data. */
  lemma ErrorFreeBatchIsComplete(related: Related, batch: seq<Change>)
    requires NeverThrows(related, START, batch) && SeqHesReadable(related)
    requires Run(related, START, batch).errors == []
    ensures NoneLacksData(related, batch)
    ensures Run(related, START, batch).ret
    ensures Run(related, START, batch).accepted == Expected(related, batch)
  {
    ErrorFreeLacksNothing(related, batch);
    ErrorFreeFold(related, batch);
  }
}
