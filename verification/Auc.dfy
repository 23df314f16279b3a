/** The algorithm indicator and the AuC: which bit of which journal in the document decides. */
module Auc {
  import opened Wrappers
  import opened Numerals
  import opened Paths
  import opened Entities
  import opened Rules
  import opened Batch
  import opened Diagnosis
  import opened Members
  import opened Parser
  import opened Admission
  import opened Answers
  import opened Resources
  import opened EndToEnd

  function JournalName(m: string): string {
    "/subscribers/" + m + "/journal/provJournal"
  }

  /** The data of a change with another algorithm indicator. */
  function WithIndicator(c: Change, ind: Option<string>): Change
    requires c.authSubscription.staticData.Some?
  {
    var d := c.authSubscription.staticData.value;
    c.(authSubscription := c.authSubscription.(staticData := Some(d.(akaAlgorithmInd := ind))))
  }

  predicate IsIndicator(ind: string) {
    ind == "0" || ind == "1" || ind == "2"
  }

  lemma IndicatorMeans(ind: string)
    ensures IsAkaAlgorithm(ind) <==> IsIndicator(ind)
  {
    if IsAkaAlgorithm(ind) { assert ind == [ind[0]]; }
  }

  lemma JournalOfSubscriber(m: string, d: string)
    requires NoSlash(m) && 5 <= |d| <= 15 && AllDigits(d)
    ensures JournalKey(StaticDataPath(m, d)) == JournalName(m)
  {
    PlainSplit(m, d);
    MscIdOfPlainPath(m, IMSI_PREFIX + d);
  }

  lemma PlainSplit(m: string, d: string)
    ensures StaticDataPath(m, d) == SUBSCRIBERS + m + AUTH_SUBSCRIPTION_CHILD + (IMSI_PREFIX + d) + STATIC_DATA
  {
    assert "/authSubscription/imsi-" == AUTH_SUBSCRIPTION_CHILD + IMSI_PREFIX;
    TwoMore(SUBSCRIBERS + m, AUTH_SUBSCRIPTION_CHILD, IMSI_PREFIX, d);
  }

  lemma TwoMore(a: string, b: string, c: string, d: string)
    ensures a + (b + c) + d == a + b + (c + d)
  {
  }

  /** The mask of the first journal of the subscriber. */
  lemma MaskOfSubscriber(resources: seq<Member>, decode: Decoder, k: nat, m: string, mask: string)
    requires NoSlash(m) && IsFirst(resources, k, JournalName(m))
    requires Field(MembersOf(resources[k].value), "imsiMask") == Some(Str(mask))
    ensures JournalName(m) in MapOf(resources, decode)
    ensures MapOf(resources, decode)[JournalName(m)] == Journal(mask)
  {
    JournalIsPlain(m);
    FirstPlainCounts(RelatedState(map[], []), resources, k, JournalName(m), decode);
  }

  lemma FifthFromTheEnd(pre: string, b: char, t: string)
    requires |t| == 4
    ensures InAuc(pre + [b] + t) <==> b == '1'
  {
    assert (pre + [b] + t)[|pre|] == b;
  }

  lemma MaskKnown(resources: seq<Member>, decode: Decoder, k: nat, m: string, d: string,
                  pre: string, b: char, t: string)
    requires NoSlash(m) && 5 <= |d| <= 15 && AllDigits(d) && IsFirst(resources, k, JournalName(m)) && |t| == 4
    requires Field(MembersOf(resources[k].value), "imsiMask") == Some(Str(pre + [b] + t))
    ensures JournalKey(StaticDataPath(m, d)) in MapOf(resources, decode)
    ensures AucKnown(MapOf(resources, decode), StaticDataPath(m, d)) <==> b == '1'
  {
    JournalOfSubscriber(m, d);
    MaskOfSubscriber(resources, decode, k, m, pre + [b] + t);
    FifthFromTheEnd(pre, b, t);
  }

  lemma OnlyStaticReports(related: Related, c: Change)
    requires c.authSubscription.staticData.Some?
    ensures Report(c.resourcePath, AkaAlgorithm) in CommonErrors(related, c) <==>
      Report(c.resourcePath, AkaAlgorithm)
        in StaticErrors(related, c.resourcePath, c.authSubscription.staticData.value)
  {
    assert DYNAMIC_DATA[1] != AKA_ALGORITHM_IND[1];
  }

  /** An indicator is reported exactly when it is none of the three, or the journal is known and the fifth
      character of its mask from the end is no 1. */
  lemma IndicatorReported(related: Related, c: Change)
    requires c.authSubscription.staticData.Some? && c.authSubscription.staticData.value.akaAlgorithmInd.Some?
    ensures Report(c.resourcePath, AkaAlgorithm) in CommonErrors(related, c) <==>
      || !IsIndicator(c.authSubscription.staticData.value.akaAlgorithmInd.value)
      || (JournalKey(c.resourcePath) in related && !AucKnown(related, c.resourcePath))
  {
    OnlyStaticReports(related, c);
    ReportedOnce(related, c.resourcePath, c.authSubscription.staticData.value, AkaAlgorithm);
    IndicatorMeans(c.authSubscription.staticData.value.akaAlgorithmInd.value);
  }

  lemma IndicatorJudged(related: Related, c: Change, inAuc: bool)
    requires c.authSubscription.staticData.Some?
    requires var ind := c.authSubscription.staticData.value.akaAlgorithmInd; ind.Some? && IsIndicator(ind.value)
    requires JournalKey(c.resourcePath) in related && (AucKnown(related, c.resourcePath) <==> inAuc)
    ensures Error(ConstraintViolation, c.resourcePath, "akaAlgorithmInd") in CommonErrors(related, c) <==> !inAuc
  {
    IndicatorReported(related, c);
    ReportOfIndicator(c.resourcePath);
  }

  lemma ReportOfIndicator(path: string)
    ensures Report(path, AkaAlgorithm) == Error(ConstraintViolation, path, "akaAlgorithmInd")
  {
  }

  /** For every mask and every indicator that is one: it is reported iff the fifth character of the mask
      from the end is no 1. */
  lemma MaskDecides(resources: seq<Member>, decode: Decoder, k: nat, c: Change, m: string, d: string,
                    pre: string, b: char, t: string)
    requires NoSlash(m) && 5 <= |d| <= 15 && AllDigits(d) && IsFirst(resources, k, JournalName(m)) && |t| == 4
    requires Field(MembersOf(resources[k].value), "imsiMask") == Some(Str(pre + [b] + t))
    requires c.resourcePath == StaticDataPath(m, d) && c.authSubscription.staticData.Some?
    requires var ind := c.authSubscription.staticData.value.akaAlgorithmInd; ind.Some? && IsIndicator(ind.value)
    ensures Error(ConstraintViolation, c.resourcePath, "akaAlgorithmInd") in CommonErrors(MapOf(resources, decode), c)
       <==> b != '1'
  {
    MaskKnown(resources, decode, k, m, d, pre, b, t);
    IndicatorJudged(MapOf(resources, decode), c, b == '1');
  }

  lemma PresentableWithIndicator(related: Related, c: Change, ind: string)
    requires c.authSubscription.staticData.Some? && IsIndicator(ind)
    requires Presentable(related, c.resourcePath, WithIndicator(c, None).authSubscription)
    ensures Presentable(related, c.resourcePath, WithIndicator(c, Some(ind)).authSubscription) <==>
      AucKnown(related, c.resourcePath)
  {
    IndicatorMeans(ind);
  }

  /** A CREATE that would be accepted without an indicator, of a subscriber without a legacy resource, is
      accepted with one iff the user is in the AuC. */
  lemma MaskDecidesCreate(resources: seq<Member>, decode: Decoder, k: nat, c: Change, ind: string,
                          m: string, d: string, pre: string, b: char, t: string)
    requires NoSlash(m) && 5 <= |d| <= 15 && AllDigits(d) && IsFirst(resources, k, JournalName(m)) && |t| == 4
    requires Field(MembersOf(resources[k].value), "imsiMask") == Some(Str(pre + [b] + t))
    requires c.operation == "CREATE" && c.resourcePath == StaticDataPath(m, d)
    requires c.authSubscription.staticData.Some? && IsIndicator(ind)
    requires forall r | r in resources :: r.name != "/legacy/serv=Auth/IMSI=" + d
    requires Run(MapOf(resources, decode), START, [WithIndicator(c, None)]).ret
    ensures Run(MapOf(resources, decode), START, [WithIndicator(c, Some(ind))]).ret <==> b == '1'
  {
    var related := MapOf(resources, decode);
    PathOfSubscriber(m, d);
    BranchOfPath(c.resourcePath);
    MaskKnown(resources, decode, k, m, d, pre, b, t);
    LegacyIsPlain(d);
    NoPlainEntry(RelatedState(map[], []), resources, LEGACY_BASE_PATH + d, decode);
    AnswerToCreate(related, WithIndicator(c, None));
    AnswerToCreate(related, WithIndicator(c, Some(ind)));
    PresentableWithIndicator(related, c, ind);
  }

  /** Without a journal of the subscriber the one error about that is recorded, and the code is 422. */
  lemma NoJournalIsUnprocessable(resources: seq<Member>, decode: Decoder, c: Change, m: string, d: string)
    requires NoSlash(m) && 5 <= |d| <= 15 && AllDigits(d)
    requires forall r | r in resources :: r.name != JournalName(m)
    requires c.resourcePath == StaticDataPath(m, d) && c.operation == "CREATE"
    requires c.authSubscription.staticData.Some? && c.authSubscription.staticData.value.akaAlgorithmInd.Some?
    ensures var o := Run(MapOf(resources, decode), START, [c]);
      && !o.ret && o.code == 422
      && Error(UnprocessableEntity, c.resourcePath, "provJournal") in CommonErrors(MapOf(resources, decode), c)
  {
    var related := MapOf(resources, decode);
    PathOfSubscriber(m, d);
    BranchOfPath(c.resourcePath);
    JournalOfSubscriber(m, d);
    JournalIsPlain(m);
    NoPlainEntry(RelatedState(map[], []), resources, JournalName(m), decode);
    AnswerToCreate(related, c);
    JournalAskedFor(related, c.resourcePath, c.authSubscription.staticData.value);
  }
}
