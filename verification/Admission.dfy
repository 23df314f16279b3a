/** When a change is accepted on its own, when it is rejected and when the code throws on it, in terms of
    the change and the related resources; and the conditions on whole batches that rest on it. */
module Admission {
  import opened Wrappers
  import opened Paths
  import opened Entities
  import opened Rules
  import opened Batch
  import opened Acceptance
  import opened Migration

  // ---------- one change ----------

  /** Data every CREATE and UPDATE must meet: no dynamic data, and static data that is well formed,
      complete unless a legacy subscription exists, with an indicator only for users the AuC knows. */
  predicate Presentable(related: Related, path: string, a: AuthSubscription) {
    && a.dynamicData.None?
    && (a.staticData.Some? ==>
          var d := a.staticData.value;
          && WellFormed(d)
          && (LegacyPath(path) !in related ==> Complete(d))
          && (d.akaAlgorithmInd.Some? ==> AucKnown(related, path)))
  }

  predicate AgreesWithLegacy(legacy: Legacy, data: Option<StaticData>) {
    && legacy.akaType == Some(AKATYPE_ALLOWED_VALUE)
    && (data.Some? ==> CarriesLegacy(FillStatic(data.value, legacy), legacy))
  }

  predicate Creatable(related: Related, path: string, a: AuthSubscription) {
    && Presentable(related, path, a)
    && (FindLegacy(related, path).Some? ==> AgreesWithLegacy(FindLegacy(related, path).value, a.staticData))
  }

  predicate Updatable(related: Related, path: string, a: AuthSubscription) {
    && BasePath(path) in related
    && Presentable(related, path, a)
    && a.staticData.Some?
    && (FindStored(related, path).Some? ==>
          AgreeOnProtected(a.staticData.value, FindStored(related, path).value))
  }

  /** A change that the rules accept: it lacks nothing they read, and nothing in it is wrong. */
  predicate Admissible(related: Related, c: Change) {
    match Classify(c.resourcePath)
    case SubscriptionList => true
    case ImsiData =>
      && (c.operation == CREATE ==> Creatable(related, c.resourcePath, c.authSubscription))
      && (c.operation == UPDATE ==> Updatable(related, c.resourcePath, c.authSubscription))
    case BadImsi => false
    case DynamicPath => false
    case Unknown => c.operation == DELETE
  }

  lemma CommonMeans(related: Related, c: Change)
    ensures CommonErrors(related, c) == [] <==> Presentable(related, c.resourcePath, c.authSubscription)
  {
    if c.authSubscription.staticData.Some? {
      StaticErrorsMean(related, c.resourcePath, c.authSubscription.staticData.value);
    }
  }

  lemma LegacyMeans(related: Related, c: Change)
    ensures LegacyErrors(related, c) == [] <==>
      var legacy := FindLegacy(related, c.resourcePath);
      legacy.Some? ==> AgreesWithLegacy(legacy.value, c.authSubscription.staticData)
  {
    var legacy := FindLegacy(related, c.resourcePath);
    if legacy.Some? && c.authSubscription.staticData.Some? {
      LegacyCheckMeans(c.authSubscription.staticData.value, legacy.value, c.resourcePath);
    }
  }

  lemma UpdateMeans(related: Related, c: Change)
    ensures UpdateErrors(related, c) == [] <==>
      (c.authSubscription.staticData.Some? && FindStored(related, c.resourcePath).Some? ==>
         AgreeOnProtected(c.authSubscription.staticData.value, FindStored(related, c.resourcePath).value))
  {
    if c.authSubscription.staticData.Some? && FindStored(related, c.resourcePath).Some? {
      ImmutableMeans(FindStored(related, c.resourcePath).value, c.resourcePath,
                     c.authSubscription.staticData.value);
    }
  }

  lemma CleanJudge(common: seq<Error>, code: int, further: seq<Error>)
    ensures JudgeBy(common, code, further, []).errors == [] <==> common == [] && further == []
  {
  }

  lemma CreateMeans(related: Related, c: Change)
    requires c.operation == CREATE
    ensures Judge(related, c, []).errors == [] <==> Creatable(related, c.resourcePath, c.authSubscription)
  {
    CleanJudge(CommonErrors(related, c), CommonCode(related, c), LegacyErrors(related, c));
    CommonMeans(related, c);
    LegacyMeans(related, c);
  }

  lemma ReplaceMeans(related: Related, c: Change)
    requires c.operation == UPDATE && Classify(c.resourcePath) == ImsiData && !LacksData(related, c)
    ensures Judge(related, c, []).errors == [] <==> Updatable(related, c.resourcePath, c.authSubscription)
  {
    CleanJudge(CommonErrors(related, c), CommonCode(related, c), UpdateErrors(related, c));
    CommonMeans(related, c);
    UpdateMeans(related, c);
  }

  lemma AloneIsJudge(related: Related, c: Change)
    requires Classify(c.resourcePath) == ImsiData
    ensures Alone(related, c).errors == Judge(related, c, []).errors
  {
    assert [] + Judge(related, c, []).errors == Judge(related, c, []).errors;
  }

  /** A change on which the code does not throw records no error on its own exactly when it is admissible;
      one on which it throws is not. */
  lemma AdmissibleExactly(related: Related, c: Change)
    ensures LacksData(related, c) ==> !Admissible(related, c)
    ensures !LacksData(related, c) ==> (Alone(related, c).errors == [] <==> Admissible(related, c))
  {
    if Classify(c.resourcePath) == ImsiData {
      AloneIsJudge(related, c);
      if c.operation == CREATE {
        CreateMeans(related, c);
      } else if c.operation == UPDATE && !LacksData(related, c) {
        ReplaceMeans(related, c);
      }
    }
  }

  /** A change that is wrong, and known to be by reading it. */
  predicate Faulty(related: Related, c: Change) {
    !LacksData(related, c) && !Admissible(related, c)
  }

  lemma FaultyExactly(related: Related, c: Change)
    ensures Faulty(related, c) <==> Alone(related, c).errors != []
  {
    AdmissibleExactly(related, c);
    if LacksData(related, c) { LacksDataAlone(related, c); }
  }

  lemma SingleRun(related: Related, c: Change)
    ensures Run(related, START, [c]) == Alone(related, c)
    ensures NeverThrows(related, START, [c]) <==> !LacksData(related, c)
  {
    assert [c][1..] == [];
    assert NeverThrows(related, Alone(related, c), []);
  }

  /** What becomes of a change on its own, resets included: it is accepted iff admissible, rejected iff
      faulty, and else the code throws. */
  lemma AloneExactly(related: Related, c: Change)
    ensures NeverThrows(related, START, [c]) && Run(related, START, [c]).ret <==> Admissible(related, c)
    ensures NeverThrows(related, START, [c]) && !Run(related, START, [c]).ret <==> Faulty(related, c)
    ensures !NeverThrows(related, START, [c]) <==> LacksData(related, c)
  {
    SingleRun(related, c);
    AdmissibleExactly(related, c);
    if !IsReset(c) { FoldStepIsPointwise(related, START, c); }
  }

  /** An admissible change on an IMSI path is added to the response, mutated. */
  lemma AdmissibleIsAccepted(related: Related, c: Change)
    requires Admissible(related, c) && Classify(c.resourcePath) == ImsiData && SeqHesReadable(related)
    ensures NeverThrows(related, START, [c])
    ensures Run(related, START, [c]).ret && Run(related, START, [c]).accepted == [Mutate(related, c)]
  {
    AloneExactly(related, c);
    SingleRun(related, c);
    AdmissibleExactly(related, c);
    ErrorFreeStep(related, START, c);
    assert START.accepted + ExpectedOf(related, c) == [Mutate(related, c)];
  }

  // ---------- batches ----------

  /** Some change of the batch is faulty. */
  predicate HasFault(related: Related, batch: seq<Change>) {
    exists c | c in batch :: Faulty(related, c)
  }

  lemma FaultExactly(related: Related, batch: seq<Change>)
    ensures HasFault(related, batch) <==> exists c | c in batch :: Alone(related, c).errors != []
  {
    forall c { FaultyExactly(related, c); }
  }

  /** Each UPDATE that lacks data has a faulty change before it. */
  predicate DataBehindFaults(related: Related, batch: seq<Change>) {
    forall n | 0 <= n < |batch| && LacksData(related, batch[n]) :: HasFault(related, batch[..n])
  }

  /** A batch runs through exactly then. */
  lemma RunsThroughExactly(related: Related, batch: seq<Change>)
    ensures NeverThrows(related, START, batch) <==> DataBehindFaults(related, batch)
  {
    NeverThrowsExactly(related, batch);
    forall n | 0 <= n <= |batch| { FaultExactly(related, batch[..n]); }
  }

  /** Resets included: a batch runs through and records errors exactly when each UPDATE that lacks data
      has a faulty change before it, and there is a faulty change. */
  lemma ErrorsExactly(related: Related, batch: seq<Change>)
    ensures NeverThrows(related, START, batch) && Run(related, START, batch).errors != [] <==>
      DataBehindFaults(related, batch) && HasFault(related, batch)
  {
    RunsThroughExactly(related, batch);
    FoldErrors(related, batch);
    FaultExactly(related, batch);
  }

  /** A reset at n, a faulty change before it, and nothing judged after it. */
  predicate HidesFault(related: Related, batch: seq<Change>, n: nat) {
    && n < |batch| && IsReset(batch[n]) && HasFault(related, batch[..n])
    && forall c | c in batch[n + 1..] :: IsQuiet(c) || IsReset(c)
  }

  lemma HidesFaultExactly(related: Related, batch: seq<Change>, n: nat)
    ensures HidesFault(related, batch, n) <==> CoversUp(related, batch, n)
  {
    if n < |batch| { FaultExactly(related, batch[..n]); }
  }

  predicate HidesSomeFault(related: Related, batch: seq<Change>) {
    exists n: nat | n < |batch| :: HidesFault(related, batch, n)
  }

  lemma HidesSomeFaultExactly(related: Related, batch: seq<Change>)
    ensures HidesSomeFault(related, batch) <==> exists n: nat :: CoversUp(related, batch, n)
  {
    forall n: nat { HidesFaultExactly(related, batch, n); }
    if n: nat :| CoversUp(related, batch, n) { assert HidesFault(related, batch, n); }
  }

  /** A batch runs through with a verdict that contradicts its error list exactly when each UPDATE that
      lacks data has a faulty change before it, and a reset hides a fault. */
  lemma ContradictionExactly(related: Related, batch: seq<Change>)
    ensures NeverThrows(related, START, batch) && Run(related, START, batch).ret
            && Run(related, START, batch).errors != [] <==>
      DataBehindFaults(related, batch) && HidesSomeFault(related, batch)
  {
    RunsThroughExactly(related, batch);
    FoldContradiction(related, batch);
    HidesSomeFaultExactly(related, batch);
  }

  /** Change k is reached, and adds an entry that is no DELETE although an error is known, exactly when it
      has none of the three operations and an IMSI path, and the changes before it run through with a
      hidden fault. */
  lemma OddEntryByInputs(related: Related, batch: seq<Change>, k: nat)
    requires k < |batch|
    ensures NeverThrows(related, START, batch[..k]) && OddEntry(related, batch, k) <==>
      && DataBehindFaults(related, batch[..k]) && HidesSomeFault(related, batch[..k])
      && Classify(batch[k].resourcePath) == ImsiData && !IsOperation(batch[k].operation)
  {
    RunsThroughExactly(related, batch[..k]);
    FoldOddEntry(related, batch, k);
    HidesSomeFaultExactly(related, batch[..k]);
    if r: nat :| CoversUp(related, batch[..k], r) {
      assert OddBehindReset(related, batch, k, r) <==>
        Classify(batch[k].resourcePath) == ImsiData && !IsOperation(batch[k].operation);
    }
  }

  /** A reset-free batch runs through and is accepted exactly when every change is admissible. */
  lemma AcceptedExactly(related: Related, batch: seq<Change>)
    requires ResetFree(batch)
    ensures NeverThrows(related, START, batch) && Run(related, START, batch).ret <==>
      forall c | c in batch :: Admissible(related, c)
  {
    StatusFollowsErrors(related, START, batch);
    ErrorsExactly(related, batch);
    RunsThroughExactly(related, batch);
    forall c { AdmissibleExactly(related, c); }
    if NeverThrows(related, START, batch) && !HasFault(related, batch) {
      forall c | c in batch ensures !LacksData(related, c) {
        var n :| 0 <= n < |batch| && batch[n] == c;
        assert forall x :: x in batch[..n] ==> x in batch;
      }
    }
  }
}
