/** Inputs at which the service does something else than its documentation, or its own names, promise,
    and when exactly it does. */
module Deviations {
  import opened Wrappers
  import opened Numerals
  import opened Paths
  import opened Entities
  import opened Rules
  import opened Batch
  import opened Lists
  import opened Members
  import opened Parser
  import opened Acceptance
  import opened Migration
  import opened Admission
  import opened Server

  // ---------- AKAALGIND ----------

  /** The type test of AKAALGIND looks at VNUMBER: it is lost exactly when VNUMBER is no integer. */
  lemma AkaAlgIndRead(members: seq<Member>, decode: Decoder)
    ensures LegacyOf(members, decode).akaAlgInd == IntOf(members, AKA_ALG_IND) <==>
      IntOf(members, AKA_ALG_IND).None? || IntOf(members, VNUMBER).Some?
  {
  }

  /** The legacy subscription with AKAALGIND as the document has it. */
  function AsWritten(members: seq<Member>, decode: Decoder): Legacy {
    LegacyOf(members, decode).(akaAlgInd := IntOf(members, AKA_ALG_IND))
  }

  /** What the lost attribute lets pass: the legacy rules differ exactly for data with an indicator
      that contradicts it. */
  lemma AkaAlgIndMissed(members: seq<Member>, decode: Decoder, path: string, d: StaticData)
    ensures (ErrorsAgainstLegacy(LegacyOf(members, decode), path, Some(d))
             != ErrorsAgainstLegacy(AsWritten(members, decode), path, Some(d))) <==>
      && IntOf(members, VNUMBER).None? && IntOf(members, AKA_ALG_IND).Some?
      && d.akaAlgorithmInd.Some? && d.akaAlgorithmInd != IntText(IntOf(members, AKA_ALG_IND))
  {
    var read, written := LegacyOf(members, decode), AsWritten(members, decode);
    var common := AkaTypeErrors(path, read) + (LegacyKeyErrors(read, path, d)
      + ManagementFieldMismatch(d.authenticationManagementField, read.amfValue, path)
      + MismatchErrors(d.encOpcKey, read.eopc, path, ENC_OPC_KEY));
    LastMismatch(read, path, d);
    LastMismatch(written, path, d);
  }

  lemma LastMismatch(legacy: Legacy, path: string, d: StaticData)
    ensures ErrorsAgainstLegacy(legacy, path, Some(d))
         == (AkaTypeErrors(path, legacy) + (LegacyKeyErrors(legacy, path, d)
              + ManagementFieldMismatch(d.authenticationManagementField, legacy.amfValue, path)
              + MismatchErrors(d.encOpcKey, legacy.eopc, path, ENC_OPC_KEY)))
            + MismatchErrors(d.akaAlgorithmInd, IntText(legacy.akaAlgInd), path, AKA_ALGORITHM_IND)
  {
  }

  /** A legacy subscription whose AKAALGIND is 1 and whose VNUMBER is a text. */
  const LOST_INDICATOR: seq<Member> :=
    [Member(AKA_TYPE, Int(1)), Member(AKA_ALG_IND, Int(1)), Member(VNUMBER, Str("3"))]

  lemma FieldOfThree(m1: Member, m2: Member, m3: Member, name: string)
    ensures Field([m1, m2, m3], name)
         == if m1.name == name then Some(m1.value)
            else if m2.name == name then Some(m2.value)
            else if m3.name == name then Some(m3.value) else None
  {
    assert [m1, m2, m3] == [m1] + ([m2] + ([m3] + []));
    FieldOfCons(m1, [m2] + ([m3] + []), name);
    FieldOfCons(m2, [m3] + [], name);
    FieldOfCons(m3, [], name);
  }

  lemma LostIndicatorField(name: string)
    ensures Field(LOST_INDICATOR, name)
         == if name == AKA_TYPE || name == AKA_ALG_IND then Some(Int(1))
            else if name == VNUMBER then Some(Str("3")) else None
  {
    FieldOfThree(Member(AKA_TYPE, Int(1)), Member(AKA_ALG_IND, Int(1)), Member(VNUMBER, Str("3")), name);
    assert AKA_TYPE[0] != VNUMBER[0];
  }

  lemma NoText(name: string, reverseOrder: bool, decode: Decoder)
    requires name != AKA_TYPE && name != AKA_ALG_IND && name != VNUMBER
    requires name + ":" != AKA_TYPE && name + ":" != AKA_ALG_IND && name + ":" != VNUMBER
    ensures PlainOrEncoded(LOST_INDICATOR, name, reverseOrder, decode) == None
  {
    LostIndicatorField(name);
    LostIndicatorField(name + ":");
  }

  lemma LostIndicatorRead(decode: Decoder)
    ensures LegacyReadable(LOST_INDICATOR)
    ensures IntOf(LOST_INDICATOR, AKA_ALG_IND) == Some(1) && IntOf(LOST_INDICATOR, VNUMBER) == None
    ensures LegacyOf(LOST_INDICATOR, decode) == Legacy(None, None, None, None, None, None, None, Some(1), None, None)
  {
    LostIndicatorField(AKA_TYPE);
    LostIndicatorField(AKA_ALG_IND);
    LostIndicatorField(VNUMBER);
    LostIndicatorField(KIND);
    LostIndicatorField(A4_IND_LEGACY);
    LostIndicatorField(AMF_VALUE);
    assert F_SET_IND[0] != AKA_TYPE[0] && F_SET_IND[0] != VNUMBER[0];
    LostIndicatorField(F_SET_IND);
    NoText(EKI, false, decode);
    NoText(EOPC, false, decode);
    NoText(SEQ_HE, true, decode);
  }

  /** Data that gives indicator 2. */
  const OTHER_INDICATOR := BARE_DATA.(akaAlgorithmInd := Some("2"))

  lemma KeysDiffer(path: string)
    ensures JournalKey(path) != LegacyPath(path)
  {
    JournalIsNotLegacy(GetMscId(path), GetImsi(path));
  }

  lemma JournalIsNotLegacy(mscId: string, imsi: string)
    ensures JournalPath(mscId) != LEGACY_BASE_PATH + imsi
  {
    Regroup(SUBSCRIBERS, mscId, JOURNAL);
    RootsDiffer(mscId + JOURNAL, imsi);
  }

  lemma RootsDiffer(a: string, b: string)
    ensures SUBSCRIBERS + a != LEGACY_BASE_PATH + b
  {
    assert (SUBSCRIBERS + a)[1] == 's' && (LEGACY_BASE_PATH + b)[1] == 'l';
  }

  /** Related resources with a legacy subscription and a journal for the subscriber of a path. */
  function WithLegacy(path: string, legacy: Legacy): Related {
    map[JournalKey(path) := Journal("11111"), LegacyPath(path) := LegacySubscription(legacy)]
  }

  lemma LegacyFound(path: string, legacy: Legacy)
    ensures FindLegacy(WithLegacy(path, legacy), path) == Some(legacy)
    ensures AucKnown(WithLegacy(path, legacy), path)
  {
    KeysDiffer(path);
    assert BitIsSet("11111", POS_AUC_IN_IMSI_MASK);
  }

  lemma ReadableSeqHes(path: string, legacy: Legacy)
    ensures SeqHeReadable(legacy) ==> SeqHesReadable(WithLegacy(path, legacy))
  {
  }

  lemma LostIndicatorAgrees(decode: Decoder)
    ensures AgreesWithLegacy(LegacyOf(LOST_INDICATOR, decode), Some(OTHER_INDICATOR))
    ensures !AgreesWithLegacy(AsWritten(LOST_INDICATOR, decode), Some(OTHER_INDICATOR))
  {
    LostIndicatorRead(decode);
    assert IntText(Some(1)) == Some("1");
  }

  /** That CREATE is accepted; with AKAALGIND as written it would have been rejected. */
  lemma ContradictingCreateAccepted(path: string, decode: Decoder)
    requires IsStaticDataUri(path) && Classify(path) == ImsiData
    ensures var c := Change(CREATE, path, AuthSubscription(Some(OTHER_INDICATOR), None));
      && Alone(WithLegacy(path, LegacyOf(LOST_INDICATOR, decode)), c).ret
      && Alone(WithLegacy(path, AsWritten(LOST_INDICATOR, decode)), c).errors != []
  {
    var c := Change(CREATE, path, AuthSubscription(Some(OTHER_INDICATOR), None));
    LostIndicatorAgrees(decode);
    LegacyFound(path, LegacyOf(LOST_INDICATOR, decode));
    LegacyFound(path, AsWritten(LOST_INDICATOR, decode));
    ReadableSeqHes(path, LegacyOf(LOST_INDICATOR, decode));
    LostIndicatorRead(decode);
    AdmissibleIsAccepted(WithLegacy(path, LegacyOf(LOST_INDICATOR, decode)), c);
    SingleRun(WithLegacy(path, LegacyOf(LOST_INDICATOR, decode)), c);
    AdmissibleExactly(WithLegacy(path, AsWritten(LOST_INDICATOR, decode)), c);
  }

  // ---------- a CREATE that takes over too much or too little ----------

  const ODD_LEGACY := Legacy(Some(99), None, None, None, None, None, None, Some(1), None, None)

  lemma OddData()
    ensures WellFormed(BARE_DATA)
    ensures !WellFormed(FillStatic(BARE_DATA, ODD_LEGACY)) && !Complete(FillStatic(BARE_DATA, ODD_LEGACY))
  {
    FilledIsWellFormed(BARE_DATA, ODD_LEGACY);
    assert !FillsUpTo(BARE_DATA.algorithmId, ODD_LEGACY.fSetInd, 15);
  }

  predicate AcceptsIllFormed(related: Related, c: Change) {
    && Alone(related, c).ret && Alone(related, c).accepted == [Mutate(related, c)]
    && c.authSubscription.staticData.Some? && WellFormed(c.authSubscription.staticData.value)
    && var d := Mutate(related, c).authSubscription.staticData;
       d.Some? && !WellFormed(d.value) && !Complete(d.value)
  }

  lemma OddCreate(path: string)
    requires IsStaticDataUri(path) && Classify(path) == ImsiData
    ensures var related := WithLegacy(path, ODD_LEGACY);
      var c := Change(CREATE, path, AuthSubscription(Some(BARE_DATA), None));
      Mutate(related, c).authSubscription.staticData == Some(FillStatic(BARE_DATA, ODD_LEGACY))
  {
    LegacyFound(path, ODD_LEGACY);
  }

  /** The condition on the legacy values is needed: on every static-data path with an IMSI a subscriber
      whose legacy FSETIND is 99 is accepted with algorithm 99 and without a permanent key. */
  lemma IllFormedCreateAccepted(path: string)
    requires IsStaticDataUri(path) && Classify(path) == ImsiData
    ensures AcceptsIllFormed(WithLegacy(path, ODD_LEGACY),
                             Change(CREATE, path, AuthSubscription(Some(BARE_DATA), None)))
  {
    OddData();
    OddCreate(path);
    LegacyFound(path, ODD_LEGACY);
    ReadableSeqHes(path, ODD_LEGACY);
    SingleRun(WithLegacy(path, ODD_LEGACY), Change(CREATE, path, AuthSubscription(Some(BARE_DATA), None)));
    AdmissibleIsAccepted(WithLegacy(path, ODD_LEGACY), Change(CREATE, path, AuthSubscription(Some(BARE_DATA), None)));
  }

  // ---------- an UPDATE without data ----------

  const METHOD_ONLY: seq<Member> := [Member(AUTHENTICATION_METHOD, Str("5G_AKA"))]

  function BareUpdate(path: string): seq<Member> {
    [Member(OPERATION, Str(UPDATE)), Member(RESOURCE_PATH, Str(path))]
  }

  /** One UPDATE of the identifier itself, and its subscriber with static data of its own. */
  function ThrowingDocument(base: string, imsi: string): Json {
    Obj([Member(CHANGES, Arr([Obj(BareUpdate(AddSuffix(base, imsi)))])),
         Member(RELATED_RESOURCES,
                Obj([Member(base, Obj([Member(AUTH_SUBSCRIPTION_STATIC_DATA, Obj(METHOD_ONLY))]))]))])
  }

  lemma FieldOfOne(m: Member, name: string)
    ensures Field([m], name) == if m.name == name then Some(m.value) else None
  {
    assert [m] + [] == [m];
    FieldOfCons(m, [], name);
  }

  lemma MethodOnlyRead(path: string)
    ensures StaticParseErrors(METHOD_ONLY, path) == []
    ensures StaticOf(METHOD_ONLY).authenticationMethod == "5G_AKA"
  {
    var m := METHOD_ONLY[0];
    FieldOfOne(m, AUTHENTICATION_METHOD);
    FieldOfOne(m, ENC_PERMANENT_KEY);
    FieldOfOne(m, AUTHENTICATION_MANAGEMENT_FIELD);
    FieldOfOne(m, ALGORITHM_ID);
    FieldOfOne(m, A4_KEY_IND);
    FieldOfOne(m, A4_IND);
    FieldOfOne(m, ENC_OPC_KEY);
    FieldOfOne(m, ENC_TOPC_KEY);
    FieldOfOne(m, A4_KEY_V);
    FieldOfOne(m, AKA_ALGORITHM_IND);
  }

  lemma ThrowingChange(path: string)
    requires path != ""
    ensures ReadMembers(NEW_CHANGE, [], BareUpdate(path))
         == Reading(Change(UPDATE, path, AuthSubscription(None, None)), [])
  {
    var m1, m2 := Member(OPERATION, Str(UPDATE)), Member(RESOURCE_PATH, Str(path));
    assert BareUpdate(path)[1..] == [m2] && [m2][1..] == [];
    var c1 := NEW_CHANGE.(operation := UPDATE);
    assert ReadMember(NEW_CHANGE, [], m1) == Reading(c1, []);
    assert ReadMember(c1, [], m2) == Reading(c1.(resourcePath := path), []);
    assert ReadMembers(c1, [], [m2]) == Reading(c1.(resourcePath := path), []);
  }

  lemma ThrowingResource(base: string, decode: Decoder)
    requires IsAuthSubscriptionUri(base)
    ensures var m := Member(base, Obj([Member(AUTH_SUBSCRIPTION_STATIC_DATA, Obj(METHOD_ONLY))]));
      var s := ReadResources(RelatedState(map[], []), [m], decode);
      && ResourceReadable(m) && s.errors == [] && s.related.Keys == {base} && s.related[base].Subscription?
  {
    var m := Member(base, Obj([Member(AUTH_SUBSCRIPTION_STATIC_DATA, Obj(METHOD_ONLY))]));
    var members := MembersOf(m.value);
    FieldOfOne(members[0], AUTH_SUBSCRIPTION_STATIC_DATA);
    FieldOfOne(members[0], DYNAMIC_DATA);
    FieldOfOne(members[0], AKA_ALG_IND);
    MethodOnlyRead(base);
    assert [m][1..] == [];
    assert SubscriptionErrors(members, base) == [];
  }

  lemma ThrowingDocumentRead(base: string, imsi: string, decode: Decoder)
    requires IsAuthSubscriptionUri(base)
    ensures Navigable(ThrowingDocument(base, imsi))
    ensures var d := ReadDocument(ThrowingDocument(base, imsi), decode);
      && d.ok && d.errors == [] && d.related.Keys == {base} && d.related[base].Subscription?
      && d.changes == [Change(UPDATE, AddSuffix(base, imsi), AuthSubscription(None, None))]
  {
    var doc := ThrowingDocument(base, imsi);
    var changes, resources := doc.members[0], doc.members[1];
    assert doc.members == [changes] + [resources];
    assert CHANGES[0] != RELATED_RESOURCES[0];
    FieldOfCons(changes, [resources], CHANGES);
    FieldOfCons(changes, [resources], RELATED_RESOURCES);
    FieldOfOne(resources, RELATED_RESOURCES);
    ThrowingResource(base, decode);
    ThrowingChange(AddSuffix(base, imsi));
    ThrowingItems(AddSuffix(base, imsi));
  }

  lemma ThrowingItems(path: string)
    requires path != ""
    ensures ReadItems(ChangesState(true, [], []), [Obj(BareUpdate(path))])
         == ChangesState(true, [Change(UPDATE, path, AuthSubscription(None, None))], [])
  {
    var item := Obj(BareUpdate(path));
    ThrowingChange(path);
    var s := ReadItem(ChangesState(true, [], []), item);
    assert s == ChangesState(true, [Change(UPDATE, path, AuthSubscription(None, None))], []);
    assert [item][1..] == [];
    assert ReadItems(s, []) == s;
  }

  /** A document the parser takes without an error, for any subscriber and any identifier, on which the
      update rules read data that is not there. */
  lemma DocumentReachesThrow(m: string, d: string, decode: Decoder)
    requires 5 <= |d| <= 15 && AllDigits(d)
    ensures var doc := ThrowingDocument(SUBSCRIBERS + m + AUTH_SUBSCRIPTION, IMSI_PREFIX + d);
      && Navigable(doc) && ReadDocument(doc, decode).ok && ReadDocument(doc, decode).errors == []
      && MasksReadable(ReadDocument(doc, decode).related) && SeqHesReadable(ReadDocument(doc, decode).related)
      && !RulesTotal(ReadDocument(doc, decode))
  {
    var base, imsi := SUBSCRIBERS + m + AUTH_SUBSCRIPTION, IMSI_PREFIX + d;
    AuthSubscriptionPattern(base);
    ThrowingDocumentRead(base, imsi, decode);
    PlainImsiPath(m, d);
    ImsiSegment(d);
    SplitAtLastSlash(base, imsi);
    var read := ReadDocument(ThrowingDocument(base, imsi), decode);
    assert LacksData(read.related, read.changes[0]);
    FirstThrows(read.related, read.changes);
  }
}
