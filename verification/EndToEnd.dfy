/** From the members of a legacy subscription in the request document to the members of the accepted
    change: through the parser, the batch and the mutation. */
module EndToEnd {
  import opened Wrappers
  import opened Numerals
  import opened Lists
  import opened Paths
  import opened Sqn
  import opened Octets
  import opened Entities
  import opened Rules
  import opened Batch
  import opened Acceptance
  import opened Members
  import opened Parser
  import opened Migration
  import opened Admission
  import opened Answers
  import opened Resources

  // ---------- what the document says ----------

  /** The text of an integer member. */
  function IntegerText(members: seq<Member>, name: string): Option<string> {
    match Field(members, name)
    case Some(Int(n)) => Some(IntToString(n))
    case _ => None
  }

  /** The text of a member that is not empty, or else of the member with a colon, decoded. */
  function PlainOrCoded(members: seq<Member>, name: string, decode: Decoder): Option<string> {
    match Field(members, name)
    case Some(Str(s)) => if s != "" then Some(s) else Coded(members, name + ":", decode)
    case _ => Coded(members, name + ":", decode)
  }

  function Coded(members: seq<Member>, name: string, decode: Decoder): Option<string> {
    match Field(members, name)
    case Some(Str(s)) => if decode(s) != "" then Some(decode(s)) else None
    case _ => None
  }

  /** AKAALGIND as the parser takes it: only beside an integer VNUMBER. */
  function IndicatorText(members: seq<Member>): Option<string> {
    if IntegerText(members, "VNUMBER").Some? then IntegerText(members, "AKAALGIND") else None
  }

  lemma ReadText(members: seq<Member>, name: string, decode: Decoder)
    ensures PlainOrEncoded(members, name, false, decode) == PlainOrCoded(members, name, decode)
    ensures PlainOrEncoded(members, name, true, decode)
         == var s := PlainOrCoded(members, name, decode); if s.Some? then Some(Sorted(s.value)) else None
  {
    assert forall s :: |s| <= |Sorted(s)|;
    assert Sorted("") == "";
  }

  lemma LegacyRead(members: seq<Member>, decode: Decoder)
    ensures var legacy := LegacyOf(members, decode);
      && legacy.eki == PlainOrCoded(members, "EKI", decode)
      && legacy.eopc == PlainOrCoded(members, "EOPC", decode)
      && IntText(legacy.kind) == IntegerText(members, "KIND")
      && IntText(legacy.a4Ind) == IntegerText(members, "A4IND")
      && IntText(legacy.fSetInd) == IntegerText(members, "FSETIND")
      && IntText(legacy.vNumber) == IntegerText(members, "VNUMBER")
      && IntText(legacy.akaAlgInd) == IndicatorText(members)
      && IntText(legacy.akaType) == IntegerText(members, "AKATYPE")
      && (legacy.amfValue.Some? <==> IntegerText(members, "AMFVALUE").Some?)
      && (legacy.amfValue.Some? ==> Field(members, "AMFVALUE") == Some(Int(legacy.amfValue.value)))
      && (legacy.akaType.Some? ==> Field(members, "AKATYPE") == Some(Int(legacy.akaType.value)))
  {
    ReadText(members, "EKI", decode);
    ReadText(members, "EOPC", decode);
  }

  lemma SeqHeRead(members: seq<Member>, decode: Decoder)
    ensures LegacyOf(members, decode).seqHe
         == var s := PlainOrCoded(members, "SEQHE", decode); if s.Some? then Some(Sorted(s.value)) else None
  {
    ReadText(members, "SEQHE", decode);
  }

  // ---------- the path of a subscriber ----------

  function StaticDataPath(m: string, d: string): string {
    "/subscribers/" + m + "/authSubscription/imsi-" + d + "/authSubscriptionStaticData"
  }

  lemma StaticDataPathJoined(m: string, d: string)
    ensures StaticDataPath(m, d) == AddSuffix(AddSuffix(SUBSCRIBERS + m + AUTH_SUBSCRIPTION, IMSI_PREFIX + d),
                                              AUTH_SUBSCRIPTION_STATIC_DATA)
  {
    var a := SUBSCRIBERS + m;
    assert "/authSubscription/imsi-" == AUTH_SUBSCRIPTION + "/" + IMSI_PREFIX;
    StaticTail();
    ThreeMore(a, AUTH_SUBSCRIPTION, "/", IMSI_PREFIX, d);
    Regroup(a + AUTH_SUBSCRIPTION + "/" + (IMSI_PREFIX + d), "/", AUTH_SUBSCRIPTION_STATIC_DATA);
  }

  lemma ThreeMore(a: string, b: string, c: string, e: string, d: string)
    ensures a + (b + c + e) + d == a + b + c + (e + d)
  {
  }

  lemma PathOfSubscriber(m: string, d: string)
    requires 5 <= |d| <= 15 && AllDigits(d)
    ensures var path := StaticDataPath(m, d);
      && IsStaticDataUri(path) && Classify(path) == ImsiData && LegacyPath(path) == "/legacy/serv=Auth/IMSI=" + d
      && BasePath(path) == ChildKey(m, d)
  {
    StaticDataPathJoined(m, d);
    PlainStaticDataPath(m, d, StaticDataPath(m, d));
    StaticNameHasNoSlash();
    GetImsiExact(m, d, AUTH_SUBSCRIPTION_STATIC_DATA);
    SplitAtLastSlash(ChildKey(m, d), AUTH_SUBSCRIPTION_STATIC_DATA);
  }

  function MapOf(resources: seq<Member>, decode: Decoder): Related {
    ReadResources(RelatedState(map[], []), resources, decode).related
  }

  /** The first legacy resource of an IMSI is the legacy subscription of its static data. */
  lemma LegacyOfSubscriber(resources: seq<Member>, decode: Decoder, i: nat, m: string, d: string)
    requires 5 <= |d| <= 15 && AllDigits(d) && IsFirst(resources, i, "/legacy/serv=Auth/IMSI=" + d)
    ensures FindLegacy(MapOf(resources, decode), StaticDataPath(m, d))
         == Some(LegacyOf(MembersOf(resources[i].value), decode))
  {
    PathOfSubscriber(m, d);
    LegacyIsPlain(d);
    FirstPlainCounts(RelatedState(map[], []), resources, i, LEGACY_BASE_PATH + d, decode);
  }

  // ---------- the attributes ----------

  /** A result that is what was given, where something was, and what the document has, where it has it. */
  predicate Taken(given: Option<string>, document: Option<string>, result: Option<string>) {
    && (given.Some? ==> result == given)
    && (document.Some? ==> result == document)
    && (given.None? && document.None? ==> result.None?)
  }

  /** The unsigned value of AMFVALUE. */
  function FieldValue(members: seq<Member>): Option<nat> {
    match Field(members, "AMFVALUE")
    case Some(Int(n)) => Some(if n < 0 then n + 0x1_0000_0000 else n)
    case _ => None
  }

  predicate FieldTaken(given: Option<string>, document: Option<nat>, result: Option<string>) {
    && (given.Some? ==> result == given)
    && (document.Some? ==> result.Some? && AllHex(result.value) && HexValue(result.value) == document.value)
    && (given.None? && document.None? ==> result.None?)
    && (given.None? && document.Some? ==> |result.value| >= 4)
  }

  /** Static data r made of the data g of a request and the members of a legacy subscription: six
      attributes agree with the document, the field by value, the key version is only filled in, and
      nothing else changes. */
  predicate MadeOf(g: StaticData, members: seq<Member>, decode: Decoder, r: StaticData) {
    && Taken(g.encPermanentKey, PlainOrCoded(members, "EKI", decode), r.encPermanentKey)
    && Taken(g.encOpcKey, PlainOrCoded(members, "EOPC", decode), r.encOpcKey)
    && Taken(g.a4KeyInd, IntegerText(members, "KIND"), r.a4KeyInd)
    && Taken(g.a4Ind, IntegerText(members, "A4IND"), r.a4Ind)
    && Taken(g.algorithmId, IntegerText(members, "FSETIND"), r.algorithmId)
    && Taken(g.akaAlgorithmInd, IndicatorText(members), r.akaAlgorithmInd)
    && FieldTaken(g.authenticationManagementField, FieldValue(members), r.authenticationManagementField)
    && r.a4KeyV == (if g.a4KeyV.Some? then g.a4KeyV else IntegerText(members, "VNUMBER"))
    && r.authenticationMethod == g.authenticationMethod && r.encTopcKey == g.encTopcKey
    && r.vendorSpecific == g.vendorSpecific
  }

  lemma KeepsField(given: Option<string>, members: seq<Member>, legacy: Option<Int32>, path: string)
    requires given.Some? ==> IsManagementField(given.value)
    requires legacy.Some? <==> FieldValue(members).Some?
    requires legacy.Some? ==> Field(members, "AMFVALUE") == Some(Int(legacy.value))
    requires var r := Fill(given, ManagementFieldText(legacy));
      legacy.Some? ==> r.Some? && ExtractHex(r.value, UINT_MODULUS) == Some(ToUnsigned(legacy.value))
    ensures FieldTaken(given, FieldValue(members), Fill(given, ManagementFieldText(legacy)))
  {
    if legacy.Some? {
      if given.Some? {
        ManagementFieldFits(given.value);
      } else {
        UnsignedHexString(ToUnsigned(legacy.value), 4);
      }
    }
  }

  lemma ManagementFieldFits(v: string)
    requires IsManagementField(v)
    ensures ExtractHex(v, UINT_MODULUS) == Some(HexValue(v))
  {
    ExtractHexOfHex(v, UINT_MODULUS);
    ValueBelowPower(v);
    assert Pow16(4) == 0x1_0000;
  }

  lemma FilledIsMadeOf(g: StaticData, members: seq<Member>, decode: Decoder, path: string)
    requires WellFormed(g) && CarriesLegacy(FillStatic(g, LegacyOf(members, decode)), LegacyOf(members, decode))
    ensures MadeOf(g, members, decode, FillStatic(g, LegacyOf(members, decode)))
  {
    LegacyRead(members, decode);
    KeepsField(g.authenticationManagementField, members, LegacyOf(members, decode).amfValue, path);
  }

  /** The change of the request an accepted CREATE was made of. */
  ghost predicate MadeFrom(c: Change, members: seq<Member>, decode: Decoder, x: Change) {
    && c.operation == "CREATE" && c.resourcePath == x.resourcePath
    && (c.authSubscription.staticData.Some? <==> x.authSubscription.staticData.Some?)
    && (x.authSubscription.staticData.Some? ==>
          MadeOf(c.authSubscription.staticData.value, members, decode, x.authSubscription.staticData.value))
  }

  lemma SourceIsMade(related: Related, c: Change, x: Change, members: seq<Member>, decode: Decoder)
    requires IsSource(related, c, x) && c.operation == "CREATE" && IsStaticDataUri(c.resourcePath)
    requires FindLegacy(related, c.resourcePath) == Some(LegacyOf(members, decode))
    ensures MadeFrom(c, members, decode, x) && Field(members, "AKATYPE") == Some(Int(1))
  {
    LegacyRead(members, decode);
    if x.authSubscription.staticData.Some? {
      SourceIsTakenOver(related, c, x);
      FilledIsMadeOf(c.authSubscription.staticData.value, members, decode, c.resourcePath);
    }
  }

  /** In every batch, with every list of related resources, for every subscriber id: an accepted CREATE of
      the static data of d is made of a change of the batch and of the first legacy resource of d, attribute
      by attribute, and that resource has AKATYPE 1. */
  lemma CreateIsMadeOfDocument(resources: seq<Member>, decode: Decoder, i: nat, batch: seq<Change>, x: Change,
                               m: string, d: string)
    requires 5 <= |d| <= 15 && AllDigits(d) && IsFirst(resources, i, "/legacy/serv=Auth/IMSI=" + d)
    requires x in Run(MapOf(resources, decode), START, batch).accepted && x.operation == "CREATE"
    requires x.resourcePath == StaticDataPath(m, d)
    ensures exists c | c in batch :: MadeFrom(c, MembersOf(resources[i].value), decode, x)
    ensures Field(MembersOf(resources[i].value), "AKATYPE") == Some(Int(1))
  {
    var related := MapOf(resources, decode);
    PathOfSubscriber(m, d);
    LegacyOfSubscriber(resources, decode, i, m, d);
    var c := SourceInBatch(related, batch, x);
    SourceIsMade(related, c, x, MembersOf(resources[i].value), decode);
  }

  predicate Differ(given: Option<string>, document: Option<string>) {
    given.Some? && document.Some? && given != document
  }

  predicate FieldDiffers(given: Option<string>, document: Option<nat>) {
    given.Some? && document.Some? && AllHex(given.value) && HexValue(given.value) != document.value
  }

  /** Some attribute of a request is not what the members of a legacy subscription say. */
  predicate Contradicts(g: StaticData, members: seq<Member>, decode: Decoder) {
    || Differ(g.encPermanentKey, PlainOrCoded(members, "EKI", decode))
    || Differ(g.encOpcKey, PlainOrCoded(members, "EOPC", decode))
    || Differ(g.a4KeyInd, IntegerText(members, "KIND"))
    || Differ(g.a4Ind, IntegerText(members, "A4IND"))
    || Differ(g.algorithmId, IntegerText(members, "FSETIND"))
    || Differ(g.akaAlgorithmInd, IndicatorText(members))
    || FieldDiffers(g.authenticationManagementField, FieldValue(members))
  }

  lemma CarriesUnlessDiffer(given: Option<string>, document: Option<string>)
    ensures Carries(Fill(given, document), document) <==> !Differ(given, document)
  {
  }

  lemma FieldCarriesUnlessDiffers(given: Option<string>, legacy: Option<Int32>)
    requires given.Some? ==> IsManagementField(given.value)
    ensures var r := Fill(given, ManagementFieldText(legacy));
      (legacy.Some? ==> r.Some? && ExtractHex(r.value, UINT_MODULUS) == Some(ToUnsigned(legacy.value))) <==>
      !FieldDiffers(given, if legacy.Some? then Some(ToUnsigned(legacy.value)) else None)
  {
    if given.Some? { ManagementFieldFits(given.value); }
    if legacy.Some? { ParsePrintHex(ToUnsigned(legacy.value), 4); }
  }

  lemma ContradictsLegacy(g: StaticData, members: seq<Member>, decode: Decoder)
    requires WellFormed(g)
    ensures !Contradicts(g, members, decode) && Field(members, "AKATYPE") == Some(Int(1)) <==>
      AgreesWithLegacy(LegacyOf(members, decode), Some(g))
  {
    LegacyRead(members, decode);
    var legacy := LegacyOf(members, decode);
    CarriesUnlessDiffer(g.encPermanentKey, legacy.eki);
    CarriesUnlessDiffer(g.encOpcKey, legacy.eopc);
    CarriesUnlessDiffer(g.a4KeyInd, IntText(legacy.kind));
    CarriesUnlessDiffer(g.a4Ind, IntText(legacy.a4Ind));
    CarriesUnlessDiffer(g.algorithmId, IntText(legacy.fSetInd));
    CarriesUnlessDiffer(g.akaAlgorithmInd, IntText(legacy.akaAlgInd));
    FieldCarriesUnlessDiffers(g.authenticationManagementField, legacy.amfValue);
    AllowedType(members, decode);
  }

  lemma AllowedType(members: seq<Member>, decode: Decoder)
    ensures LegacyOf(members, decode).akaType == Some(1) <==> Field(members, "AKATYPE") == Some(Int(1))
  {
  }

  /** A CREATE of static data that the common rules have nothing against, for a subscriber with a legacy
      resource, is accepted exactly when that resource has AKATYPE 1 and contradicts none of its
      attributes. */
  lemma CreateAgreesWithDocument(resources: seq<Member>, decode: Decoder, i: nat, c: Change, m: string, d: string)
    requires 5 <= |d| <= 15 && AllDigits(d) && IsFirst(resources, i, "/legacy/serv=Auth/IMSI=" + d)
    requires c.operation == "CREATE" && c.resourcePath == StaticDataPath(m, d)
    requires c.authSubscription.staticData.Some?
    requires Presentable(MapOf(resources, decode), c.resourcePath, c.authSubscription)
    ensures var members := MembersOf(resources[i].value);
      Run(MapOf(resources, decode), START, [c]).ret <==>
      !Contradicts(c.authSubscription.staticData.value, members, decode)
      && Field(members, "AKATYPE") == Some(Int(1))
  {
    PathOfSubscriber(m, d);
    BranchOfPath(c.resourcePath);
    LegacyOfSubscriber(resources, decode, i, m, d);
    AnswerToCreate(MapOf(resources, decode), c);
    ContradictsLegacy(c.authSubscription.staticData.value, MembersOf(resources[i].value), decode);
  }

  // ---------- the SEQHE ----------

  /** All F stays all F, and nothing else becomes it. */
  lemma InvalidStaysInvalid(s: string)
    requires |s| == 12
    ensures Sorted(s) == SEQHE_INVALID_VALUE <==> s == SEQHE_INVALID_VALUE
  {
    Involution(s);
    var f := SEQHE_INVALID_VALUE;
    assert forall i | 0 <= i < 12 :: f[i] == 'F';
    assert Sorted(f) == f;
  }

  predicate SqnFollows(s: string, dyn: DynamicData)
    requires AllHex(s)
  {
    if s == "FFFFFFFFFFFF" then dyn == DynamicData(Some("TIME_BASED"), None, None)
    else
      && dyn.sqnScheme == Some("NON_TIME_BASED") && dyn.lastIndexesList.None? && dyn.sqn.Some?
      && |dyn.sqn.value| == 12 && AllHex(dyn.sqn.value)
      && HexValue(dyn.sqn.value) == 32 * SwapOctets(HexValue(s), 3) % SQN_MODULUS
  }

  lemma SqnFromLegacy(legacy: Legacy, s: string)
    requires |s| == 12 && AllHex(s) && legacy.seqHe == Some(Sorted(s))
    ensures SqnFollows(s, CreatedDynamicData(Some(legacy)))
  {
    InvalidStaysInvalid(s);
    SqnOfReorderedSeqHe(s);
    SqnOfAnyText(Sorted(s));
  }

  lemma CreatedFromLegacy(related: Related, batch: seq<Change>, x: Change)
    requires x in Run(related, START, batch).accepted && x.operation == CREATE && IsStaticDataUri(x.resourcePath)
    ensures x.authSubscription.dynamicData == Some(CreatedDynamicData(FindLegacy(related, x.resourcePath)))
  {
    var c := SourceInBatch(related, batch, x);
  }

  /** In every batch, with every list of related resources: when the first legacy resource of subscriber
      d has a twelve-digit SEQHE, plain or encoded, an accepted CREATE of that subscriber's static data
      starts from 32 times its value with the octets of each word exchanged, modulo 2^48, or is time-based
      if it is all F. */
  lemma SeqHeToSqn(resources: seq<Member>, decode: Decoder, i: nat, s: string, batch: seq<Change>, x: Change,
                   m: string, d: string)
    requires 5 <= |d| <= 15 && AllDigits(d) && |s| == 12 && AllHex(s)
    requires IsFirst(resources, i, "/legacy/serv=Auth/IMSI=" + d)
    requires PlainOrCoded(MembersOf(resources[i].value), "SEQHE", decode) == Some(s)
    requires x in Run(MapOf(resources, decode), START, batch).accepted
    requires x.operation == "CREATE" && x.resourcePath == StaticDataPath(m, d)
    ensures x.authSubscription.dynamicData.Some? && SqnFollows(s, x.authSubscription.dynamicData.value)
  {
    PathOfSubscriber(m, d);
    LegacyOfSubscriber(resources, decode, i, m, d);
    CreatedFromLegacy(MapOf(resources, decode), batch, x);
    SeqHeRead(MembersOf(resources[i].value), decode);
    SqnFromLegacy(LegacyOf(MembersOf(resources[i].value), decode), s);
  }

  /** Without a SEQHE the accepted CREATE is time-based and has no sequence number. */
  lemma NoSeqHeIsTimeBased(resources: seq<Member>, decode: Decoder, i: nat, batch: seq<Change>, x: Change,
                           m: string, d: string)
    requires 5 <= |d| <= 15 && AllDigits(d) && IsFirst(resources, i, "/legacy/serv=Auth/IMSI=" + d)
    requires PlainOrCoded(MembersOf(resources[i].value), "SEQHE", decode).None?
    requires x in Run(MapOf(resources, decode), START, batch).accepted
    requires x.operation == "CREATE" && x.resourcePath == StaticDataPath(m, d)
    ensures x.authSubscription.dynamicData == Some(DynamicData(Some("TIME_BASED"), None, None))
  {
    PathOfSubscriber(m, d);
    LegacyOfSubscriber(resources, decode, i, m, d);
    CreatedFromLegacy(MapOf(resources, decode), batch, x);
    SeqHeRead(MembersOf(resources[i].value), decode);
  }

  /** Without a legacy resource it starts from sequence number zero. */
  lemma NoLegacyStartsAtZero(resources: seq<Member>, decode: Decoder, batch: seq<Change>, x: Change,
                             m: string, d: string)
    requires 5 <= |d| <= 15 && AllDigits(d)
    requires forall r | r in resources :: r.name != "/legacy/serv=Auth/IMSI=" + d
    requires x in Run(MapOf(resources, decode), START, batch).accepted
    requires x.operation == "CREATE" && x.resourcePath == StaticDataPath(m, d)
    ensures x.authSubscription.dynamicData == Some(DynamicData(Some("NON_TIME_BASED"), Some("000000000000"), None))
  {
    PathOfSubscriber(m, d);
    LegacyIsPlain(d);
    NoPlainEntry(RelatedState(map[], []), resources, LEGACY_BASE_PATH + d, decode);
    CreatedFromLegacy(MapOf(resources, decode), batch, x);
  }
}
