/** What the rules of `ValidationData.cpp` demand of one change, and what a mutation does to it.
    The errors a rule records never depend on earlier errors; only whether it is consulted does. */
module Rules {
  import opened Wrappers
  import opened Numerals
  import opened Paths
  import opened Entities
  import opened Sqn

  const LENGTH_ENC_PERMANENT_KEY := 32
  const MAX_ALGORITHM_ID := 15
  const TEST_ALGORITHM_ID := 1
  const A4_KEY_IND_MAX := 511
  const A4_IND_MAX := 2
  const AKATYPE_ALLOWED_VALUE := 1
  const POS_AUC_IN_IMSI_MASK := 4
  const SEQHE_INVALID_VALUE := "FFFFFFFFFFFF"
  const SQN_MUTATION_VALUE := "000000000000"
  const SQN_SCHEME_TIME_BASED := "TIME_BASED"
  const SQN_SCHEME_NON_TIME_BASED := "NON_TIME_BASED"

  function Violation(path: string, about: string): Error {
    Error(ConstraintViolation, path, about)
  }

  // ---------- common rules ----------

  predicate IsAkaMethod(m: string) {
    m == "5G_AKA" || m == "EAP_AKA_PRIME"
  }

  predicate IsManagementField(s: string) {
    |s| == 4 && AllHex(s)
  }

  predicate IsNumber(s: string) {
    s != [] && AllDigits(s)
  }

  predicate IsMillenage(s: string) {
    StoiInRange(s, 0, MAX_ALGORITHM_ID) && Stoi(s).value != TEST_ALGORITHM_ID
  }

  /** ^[0-9]$|^[1-2][0-9]$|^[3][0-1]$ */
  predicate IsKeyVersion(s: string) {
    || (|s| == 1 && IsDigit(s[0]))
    || (|s| == 2 && '1' <= s[0] <= '2' && IsDigit(s[1]))
    || (|s| == 2 && s[0] == '3' && '0' <= s[1] <= '1')
  }

  predicate IsAkaAlgorithm(s: string) {
    |s| == 1 && '0' <= s[0] <= '2'
  }

  /** `checkBitIsSet`: bit 0 is the last character. */
  predicate BitIsSet(mask: string, bit: nat)
    requires bit < |mask|
  {
    mask[|mask| - 1 - bit] == '1'
  }

  predicate InAuc(mask: string) {
    |mask| > POS_AUC_IN_IMSI_MASK && BitIsSet(mask, POS_AUC_IN_IMSI_MASK)
  }

  /** One optional attribute: wrong when present, or missing when it must be there. */
  function AttributeErrors(present: bool, valid: bool, required: bool, path: string, name: string): seq<Error> {
    if present then (if valid then [] else [Violation(path, name)])
    else if required then [Violation(path, name)]
    else []
  }

  function MethodErrors(path: string, d: StaticData): seq<Error> {
    if IsAkaMethod(d.authenticationMethod) then [] else [Violation(path, AUTHENTICATION_METHOD)]
  }

  /** A key must be given when the method is AKA and no legacy subscription can supply it. */
  predicate MustBeGiven(related: Related, path: string, d: StaticData) {
    IsAkaMethod(d.authenticationMethod) && LegacyPath(path) !in related
  }

  function KeyErrors(required: bool, path: string, d: StaticData): seq<Error> {
    var v := d.encPermanentKey;
    AttributeErrors(v.Some?, v.Some? && AllHex(v.value) && |v.value| == LENGTH_ENC_PERMANENT_KEY, required,
                    path, ENC_PERMANENT_KEY)
  }

  function ManagementFieldErrors(required: bool, path: string, d: StaticData): seq<Error> {
    var v := d.authenticationManagementField;
    AttributeErrors(v.Some?, v.Some? && IsManagementField(v.value), required, path,
                    AUTHENTICATION_MANAGEMENT_FIELD)
  }

  function RangeErrors(v: Option<string>, hi: int, required: bool, path: string, name: string): seq<Error> {
    AttributeErrors(v.Some?, v.Some? && IsNumber(v.value) && StoiInRange(v.value, 0, hi), required, path, name)
  }

  function OpcKeyErrors(path: string, d: StaticData): seq<Error> {
    if d.encOpcKey.None? then []
    else if !AllHex(d.encOpcKey.value) || d.algorithmId.None? then [Violation(path, ENC_OPC_KEY)]
    else if IsNumber(d.algorithmId.value) && !IsMillenage(d.algorithmId.value) then [Violation(path, ENC_OPC_KEY)]
    else []
  }

  function KeyVersionErrors(path: string, d: StaticData): seq<Error> {
    if d.a4KeyV.Some? && !IsKeyVersion(d.a4KeyV.value) then [Violation(path, A4_KEY_V)] else []
  }

  function JournalKey(path: string): string {
    JournalPath(GetMscId(path))
  }

  function AkaAlgorithmErrors(related: Related, path: string, d: StaticData): seq<Error> {
    if d.akaAlgorithmInd.None? then []
    else (if IsAkaAlgorithm(d.akaAlgorithmInd.value) then [] else [Violation(path, AKA_ALGORITHM_IND)])
         + AucErrors(related, path)
  }

  function AucErrors(related: Related, path: string): seq<Error> {
    if JournalKey(path) !in related then [Error(UnprocessableEntity, path, PROV_JOURNAL)]
    else if related[JournalKey(path)].Journal? && InAuc(related[JournalKey(path)].imsiMask) then []
    else [Violation(path, AKA_ALGORITHM_IND)]
  }

  /** The six attributes that an AKA method needs. */
  function AkaErrors(required: bool, path: string, d: StaticData): seq<Error> {
    MethodErrors(path, d)
    + KeyErrors(required, path, d)
    + ManagementFieldErrors(required, path, d)
    + RangeErrors(d.algorithmId, MAX_ALGORITHM_ID, required, path, ALGORITHM_ID)
    + RangeErrors(d.a4KeyInd, A4_KEY_IND_MAX, required, path, A4_KEY_IND)
    + RangeErrors(d.a4Ind, A4_IND_MAX, required, path, A4_IND)
  }

  /** Everything that can be told from the static data alone. */
  function OwnErrors(required: bool, path: string, d: StaticData): seq<Error> {
    AkaErrors(required, path, d) + OpcKeyErrors(path, d) + KeyVersionErrors(path, d)
  }

  function StaticErrors(related: Related, path: string, d: StaticData): seq<Error> {
    OwnErrors(MustBeGiven(related, path, d), path, d) + AkaAlgorithmErrors(related, path, d)
  }

  function DynamicErrors(c: Change): seq<Error> {
    if c.authSubscription.dynamicData.Some? then [Violation(c.resourcePath, DYNAMIC_DATA)] else []
  }

  function CommonErrors(related: Related, c: Change): seq<Error> {
    (if c.authSubscription.staticData.Some?
     then StaticErrors(related, c.resourcePath, c.authSubscription.staticData.value) else [])
    + DynamicErrors(c)
  }

  predicate JournalMissing(related: Related, c: Change) {
    && c.authSubscription.staticData.Some?
    && c.authSubscription.staticData.value.akaAlgorithmInd.Some?
    && JournalKey(c.resourcePath) !in related
  }

  /** The code the common rules report when there is any error, theirs or an earlier one. */
  function CommonCode(related: Related, c: Change): int {
    if JournalMissing(related, c) then HTTP_UNPROCESSABLE_ENTITY else HTTP_CONFLICT
  }

  // ---------- legacy and update rules ----------

  function AkaTypeErrors(path: string, legacy: Legacy): seq<Error> {
    if legacy.akaType == Some(AKATYPE_ALLOWED_VALUE) then [] else [Violation(path, AKA_TYPE)]
  }

  function IntText(v: Option<Int32>): Option<string> {
    if v.Some? then Some(IntToString(v.value)) else None
  }

  /** A given attribute must be the text of the legacy one, where there is one. */
  function MismatchErrors(given: Option<string>, legacy: Option<string>, path: string, name: string): seq<Error> {
    if given.Some? && legacy.Some? && given != legacy then [Violation(path, name)] else []
  }

  /** The management field is hexadecimal text, the legacy AMFVALUE a signed integer. */
  function ManagementFieldMismatch(given: Option<string>, legacy: Option<Int32>, path: string): seq<Error> {
    if given.Some? && legacy.Some? && ExtractHex(given.value, UINT_MODULUS) != Some(ToUnsigned(legacy.value))
    then [Violation(path, AUTHENTICATION_MANAGEMENT_FIELD)] else []
  }

  function LegacyKeyErrors(legacy: Legacy, path: string, d: StaticData): seq<Error> {
    MismatchErrors(d.encPermanentKey, legacy.eki, path, ENC_PERMANENT_KEY)
    + MismatchErrors(d.a4KeyInd, IntText(legacy.kind), path, A4_KEY_IND)
    + MismatchErrors(d.a4Ind, IntText(legacy.a4Ind), path, A4_IND)
    + MismatchErrors(d.algorithmId, IntText(legacy.fSetInd), path, ALGORITHM_ID)
  }

  function LegacyFieldErrors(legacy: Legacy, path: string, d: StaticData): seq<Error> {
    LegacyKeyErrors(legacy, path, d)
    + ManagementFieldMismatch(d.authenticationManagementField, legacy.amfValue, path)
    + MismatchErrors(d.encOpcKey, legacy.eopc, path, ENC_OPC_KEY)
    + MismatchErrors(d.akaAlgorithmInd, IntText(legacy.akaAlgInd), path, AKA_ALGORITHM_IND)
  }

  function ErrorsAgainstLegacy(legacy: Legacy, path: string, d: Option<StaticData>): seq<Error> {
    if d.None? then AkaTypeErrors(path, legacy)
    else AkaTypeErrors(path, legacy) + LegacyFieldErrors(legacy, path, d.value)
  }

  function FindLegacy(related: Related, path: string): Option<Legacy> {
    if LegacyPath(path) in related && related[LegacyPath(path)].LegacySubscription?
    then Some(related[LegacyPath(path)].legacy) else None
  }

  function LegacyErrors(related: Related, c: Change): seq<Error> {
    var legacy := FindLegacy(related, c.resourcePath);
    if legacy.None? then [] else ErrorsAgainstLegacy(legacy.value, c.resourcePath, c.authSubscription.staticData)
  }

  /** The stored static data an UPDATE is compared with. */
  function FindStored(related: Related, path: string): Option<StaticData> {
    if BasePath(path) in related && related[BasePath(path)].Subscription?
    then related[BasePath(path)].subscription.staticData else None
  }

  function ChangedErrors(given: Option<string>, stored: Option<string>, path: string, name: string): seq<Error> {
    if given != stored then [Violation(path, name)] else []
  }

  function ImmutableErrors(stored: StaticData, path: string, d: StaticData): seq<Error> {
    ChangedErrors(d.encPermanentKey, stored.encPermanentKey, path, ENC_PERMANENT_KEY)
    + ChangedErrors(d.algorithmId, stored.algorithmId, path, ALGORITHM_ID)
    + ChangedErrors(d.a4KeyInd, stored.a4KeyInd, path, A4_KEY_IND)
    + ChangedErrors(d.a4Ind, stored.a4Ind, path, A4_IND)
    + ChangedErrors(d.encOpcKey, stored.encOpcKey, path, ENC_OPC_KEY)
    + ChangedErrors(d.a4KeyV, stored.a4KeyV, path, A4_KEY_V)
  }

  function UpdateErrors(related: Related, c: Change): seq<Error> {
    var stored := FindStored(related, c.resourcePath);
    if stored.None? || c.authSubscription.staticData.None? then []
    else ImmutableErrors(stored.value, c.resourcePath, c.authSubscription.staticData.value)
  }

  // ---------- mutations ----------

  function Fill(given: Option<string>, legacy: Option<string>): Option<string> {
    if given.None? then legacy else given
  }

  function ManagementFieldText(v: Option<Int32>): Option<string> {
    if v.Some? then Some(UnsignedToHexString(ToUnsigned(v.value), 4)) else None
  }

  function FillStatic(d: StaticData, legacy: Legacy): StaticData {
    d.(encPermanentKey := Fill(d.encPermanentKey, legacy.eki),
       a4KeyInd := Fill(d.a4KeyInd, IntText(legacy.kind)),
       a4Ind := Fill(d.a4Ind, IntText(legacy.a4Ind)),
       algorithmId := Fill(d.algorithmId, IntText(legacy.fSetInd)),
       authenticationManagementField :=
         Fill(d.authenticationManagementField, ManagementFieldText(legacy.amfValue)),
       encOpcKey := Fill(d.encOpcKey, legacy.eopc),
       a4KeyV := Fill(d.a4KeyV, IntText(legacy.vNumber)),
       akaAlgorithmInd := Fill(d.akaAlgorithmInd, IntText(legacy.akaAlgInd)))
  }

  function CreatedDynamicData(legacy: Option<Legacy>): DynamicData {
    if legacy.None? then
      DynamicData(Some(SQN_SCHEME_NON_TIME_BASED), Some(SQN_MUTATION_VALUE), None)
    else if legacy.value.seqHe.None? || legacy.value.seqHe.value == SEQHE_INVALID_VALUE then
      DynamicData(Some(SQN_SCHEME_TIME_BASED), None, None)
    else if HasText(legacy.value.seqHe.value) then
      DynamicData(Some(SQN_SCHEME_NON_TIME_BASED), Some(SqnOf(legacy.value.seqHe.value)), None)
    else
      // A blank SEQHE: the code computes the number from a variable without a value.
      DynamicData(Some(SQN_SCHEME_NON_TIME_BASED), None, None)
  }

  function FillData(d: Option<StaticData>, legacy: Option<Legacy>): Option<StaticData> {
    if d.Some? && legacy.Some? then Some(FillStatic(d.value, legacy.value)) else d
  }

  function MutateCreate(legacy: Option<Legacy>, a: AuthSubscription): AuthSubscription {
    AuthSubscription(FillData(a.staticData, legacy), Some(CreatedDynamicData(legacy)))
  }

  predicate StoredWithoutDynamicData(related: Related, path: string) {
    && path in related && related[path].Subscription?
    && related[path].subscription.dynamicData.None?
  }

  /** `computeMutations`. */
  function Mutate(related: Related, c: Change): Change {
    if !IsStaticDataUri(c.resourcePath) then c
    else if c.operation == CREATE then
      c.(authSubscription := MutateCreate(FindLegacy(related, c.resourcePath), c.authSubscription))
    else if c.operation == UPDATE && StoredWithoutDynamicData(related, c.resourcePath) then
      c.(authSubscription := c.authSubscription.(dynamicData := None))
    else c
  }

  // ---------- lookups ----------

  /** What the path-keyed map must look like for the unchecked variant accesses to be right. */
  ghost predicate WellKeyed(related: Related) {
    forall key | key in related ::
      match related[key]
      case Subscription(_) => MayBeSubscription(key)
      case Journal(_) => MayBeJournal(key)
      case LegacySubscription(_) => MayBeLegacy(key)
  }

  ghost predicate MasksReadable(related: Related) {
    forall key | key in related && related[key].Journal? ::
      related[key].imsiMask == "" || |related[key].imsiMask| > POS_AUC_IN_IMSI_MASK
  }

  predicate SeqHeReadable(legacy: Legacy) {
    legacy.seqHe.Some? ==> HasText(legacy.seqHe.value)
  }

  ghost predicate SeqHesReadable(related: Related) {
    forall key | key in related && related[key].LegacySubscription? :: SeqHeReadable(related[key].legacy)
  }

  ghost predicate StoredStaticData(related: Related) {
    forall key | key in related && related[key].Subscription? :: related[key].subscription.staticData.Some?
  }

  ghost predicate Readable(related: Related) {
    WellKeyed(related) && MasksReadable(related) && SeqHesReadable(related) && StoredStaticData(related)
  }

  /** Every lookup the rules and mutations make for a path finds the variant they take for granted,
      with what they read in it: no `boost::get` fails, and no `.value()` on a stored resource. */
  lemma LookupsSucceed(related: Related, path: string)
    requires Readable(related)
    ensures LegacyPath(path) in related ==>
      related[LegacyPath(path)].LegacySubscription? && SeqHeReadable(related[LegacyPath(path)].legacy)
    ensures JournalKey(path) in related ==>
      && related[JournalKey(path)].Journal?
      && (related[JournalKey(path)].imsiMask == "" || |related[JournalKey(path)].imsiMask| > POS_AUC_IN_IMSI_MASK)
    ensures IsImsiUri(path) && BasePath(path) in related ==>
      related[BasePath(path)].Subscription? && related[BasePath(path)].subscription.staticData.Some?
    ensures IsStaticDataUri(path) && path in related ==> related[path].Subscription?
  {
    LegacyPathIsLegacy(path);
    CapturedJournalPathIsJournal(path);
    if IsImsiUri(path) { ImsiBaseIsSubscription(path); }
    if IsStaticDataUri(path) { StaticDataIsSubscription(path); }
  }

  // ---------- what the rules amount to ----------

  predicate NumberUpTo(v: Option<string>, hi: nat) {
    v.Some? ==> IsNumber(v.value) && DecValue(v.value) <= hi
  }

  /** Static data as the interface defines it: the values, not the texts, are in range. */
  predicate WellFormed(d: StaticData) {
    && IsAkaMethod(d.authenticationMethod)
    && (d.encPermanentKey.Some? ==> AllHex(d.encPermanentKey.value) && |d.encPermanentKey.value| == 32)
    && (d.authenticationManagementField.Some? ==> IsManagementField(d.authenticationManagementField.value))
    && NumberUpTo(d.algorithmId, 15)
    && NumberUpTo(d.a4KeyInd, 511)
    && NumberUpTo(d.a4Ind, 2)
    && (d.encOpcKey.Some? ==> AllHex(d.encOpcKey.value) && d.algorithmId.Some? && DecValue(d.algorithmId.value) != 1)
    && (d.a4KeyV.Some? ==> IsKeyVersion(d.a4KeyV.value))
    && (d.akaAlgorithmInd.Some? ==> IsAkaAlgorithm(d.akaAlgorithmInd.value))
  }

  predicate Complete(d: StaticData) {
    && d.encPermanentKey.Some? && d.authenticationManagementField.Some?
    && d.algorithmId.Some? && d.a4KeyInd.Some? && d.a4Ind.Some?
  }

  predicate AucKnown(related: Related, path: string) {
    JournalKey(path) in related && related[JournalKey(path)].Journal? && InAuc(related[JournalKey(path)].imsiMask)
  }

  /** A management field that passes its own pattern can be read as a number. */
  lemma FieldHasText(required: bool, path: string, d: StaticData)
    requires ManagementFieldErrors(required, path, d) == []
    ensures FieldReadable(d)
  {
    if d.authenticationManagementField.Some? { HexHasText(d.authenticationManagementField.value); }
  }

  predicate FieldReadable(d: StaticData) {
    d.authenticationManagementField.Some? ==> HasText(d.authenticationManagementField.value)
  }

  lemma RangeErrorsAreMathematical(v: Option<string>, hi: nat, required: bool, path: string, name: string)
    requires hi <= INT_MAX
    ensures RangeErrors(v, hi, required, path, name) == [] <==> NumberUpTo(v, hi) && (required ==> v.Some?)
  {
    if v.Some? && IsNumber(v.value) { RangeCheckIsMathematical(v.value, 0, hi); }
  }

  lemma OpcKeyErrorsMean(path: string, d: StaticData)
    requires NumberUpTo(d.algorithmId, 15)
    ensures OpcKeyErrors(path, d) == [] <==>
      (d.encOpcKey.Some? ==> AllHex(d.encOpcKey.value) && d.algorithmId.Some? && DecValue(d.algorithmId.value) != 1)
  {
    if d.algorithmId.Some? {
      var s := d.algorithmId.value;
      RangeCheckIsMathematical(s, 0, 15);
      RangeCheckIsMathematical(s, 1, 1);
    }
  }

  /** The common rules record nothing exactly when the static data is well formed, complete unless a
      legacy subscription can complete it, and the AuC knows the user of an algorithm indicator. */
  lemma StaticErrorsMean(related: Related, path: string, d: StaticData)
    ensures StaticErrors(related, path, d) == [] <==>
      && WellFormed(d)
      && (LegacyPath(path) !in related ==> Complete(d))
      && (d.akaAlgorithmInd.Some? ==> AucKnown(related, path))
  {
    var required := MustBeGiven(related, path, d);
    RangeErrorsAreMathematical(d.algorithmId, 15, required, path, ALGORITHM_ID);
    RangeErrorsAreMathematical(d.a4KeyInd, 511, required, path, A4_KEY_IND);
    RangeErrorsAreMathematical(d.a4Ind, 2, required, path, A4_IND);
    if NumberUpTo(d.algorithmId, 15) { OpcKeyErrorsMean(path, d); }
  }

  lemma CommonFieldHasText(related: Related, c: Change)
    requires CommonErrors(related, c) == []
    ensures c.authSubscription.staticData.Some? ==> FieldReadable(c.authSubscription.staticData.value)
  {
    if c.authSubscription.staticData.Some? {
      var path, d := c.resourcePath, c.authSubscription.staticData.value;
      FieldHasText(MustBeGiven(related, path, d), path, d);
    }
  }

  // ---------- mutation against the legacy check ----------

  lemma FilledManagementFieldMatches(given: Option<string>, legacy: Option<Int32>, path: string)
    requires ManagementFieldMismatch(given, legacy, path) == []
    ensures ManagementFieldMismatch(Fill(given, ManagementFieldText(legacy)), legacy, path) == []
  {
    if given.None? && legacy.Some? { ParsePrintHex(ToUnsigned(legacy.value), 4); }
  }

  /** Filling from the legacy subscription closes the legacy check: run again on the mutated change
      it still records nothing, for every 32-bit AMFVALUE, negative ones included. */
  lemma MutationClosesLegacyCheck(related: Related, c: Change)
    requires c.operation == CREATE && LegacyErrors(related, c) == []
    ensures LegacyErrors(related, Mutate(related, c)) == []
  {
    var legacy := FindLegacy(related, c.resourcePath);
    if legacy.Some? && c.authSubscription.staticData.Some? {
      var d := c.authSubscription.staticData.value;
      assert LegacyFieldErrors(legacy.value, c.resourcePath, d) == [];
      FilledManagementFieldMatches(d.authenticationManagementField, legacy.value.amfValue, c.resourcePath);
    }
  }

  /** A filled-in management field has the four digits its own pattern demands only for AMF values
      that fit sixteen bits. */
  lemma FilledManagementFieldPattern(v: Int32)
    ensures IsManagementField(ManagementFieldText(Some(v)).value) <==> 0 <= v <= 0xFFFF
  {
    UnsignedHexString(ToUnsigned(v), 4);
    assert Pow16(4) == 0x1_0000;
  }

  lemma MutationIsIdempotent(related: Related, c: Change)
    requires SeqHesReadable(related)
    ensures Mutate(related, Mutate(related, c)) == Mutate(related, c)
  {
    var legacy := FindLegacy(related, c.resourcePath);
    if legacy.Some? && c.authSubscription.staticData.Some? {
      var d := c.authSubscription.staticData.value;
      assert FillStatic(FillStatic(d, legacy.value), legacy.value) == FillStatic(d, legacy.value);
    }
  }

  datatype Attribute = Method | PermanentKey | ManagementField | Algorithm | KeyInd | Ind | OpcKey | TopcKey
                     | KeyVersion | AkaAlgorithm

  function Get(d: StaticData, a: Attribute): Option<string> {
    match a
    case Method => Some(d.authenticationMethod)
    case PermanentKey => d.encPermanentKey
    case ManagementField => d.authenticationManagementField
    case Algorithm => d.algorithmId
    case KeyInd => d.a4KeyInd
    case Ind => d.a4Ind
    case OpcKey => d.encOpcKey
    case TopcKey => d.encTopcKey
    case KeyVersion => d.a4KeyV
    case AkaAlgorithm => d.akaAlgorithmInd
  }

  /** The text a legacy subscription supplies for an attribute. */
  function LegacyText(legacy: Legacy, a: Attribute): Option<string> {
    match a
    case Method => None
    case PermanentKey => legacy.eki
    case ManagementField => ManagementFieldText(legacy.amfValue)
    case Algorithm => IntText(legacy.fSetInd)
    case KeyInd => IntText(legacy.kind)
    case Ind => IntText(legacy.a4Ind)
    case OpcKey => legacy.eopc
    case TopcKey => None
    case KeyVersion => IntText(legacy.vNumber)
    case AkaAlgorithm => IntText(legacy.akaAlgInd)
  }

  /** The legacy subscription a change takes absent attributes from. */
  function Source(related: Related, c: Change): Option<Legacy> {
    if c.operation == CREATE && IsStaticDataUri(c.resourcePath) then FindLegacy(related, c.resourcePath) else None
  }

  lemma FilledAttribute(d: StaticData, legacy: Legacy, a: Attribute)
    ensures Get(FillStatic(d, legacy), a) == if Get(d, a).Some? then Get(d, a) else LegacyText(legacy, a)
  {
  }

  /** A mutation keeps the operation, the path and every attribute the request gives; an absent one
      becomes the legacy text, if the operation is CREATE and the legacy subscription has it. */
  lemma MutationIsConservative(related: Related, c: Change, a: Attribute)
    ensures var m := Mutate(related, c);
      && m.operation == c.operation && m.resourcePath == c.resourcePath
      && m.authSubscription.staticData.Some? == c.authSubscription.staticData.Some?
      && (c.authSubscription.staticData.Some? ==>
            var d, d' := c.authSubscription.staticData.value, m.authSubscription.staticData.value;
            && d'.vendorSpecific == d.vendorSpecific
            && Get(d', a) == (if Get(d, a).Some? then Get(d, a)
                              else if Source(related, c).Some? then LegacyText(Source(related, c).value, a)
                              else None))
  {
    if c.authSubscription.staticData.Some? && Source(related, c).Some? {
      FilledAttribute(c.authSubscription.staticData.value, Source(related, c).value, a);
    }
  }

  lemma MutationKeepsAddress(related: Related, c: Change)
    ensures Mutate(related, c).operation == c.operation && Mutate(related, c).resourcePath == c.resourcePath
  {
  }

  /** Time-based, without a sequence number, iff the SEQHE is absent or all F; otherwise the number
      has twelve digits. */
  predicate DynamicDataFollows(legacy: Option<Legacy>, dyn: DynamicData) {
    var timeBased := legacy.Some? && (legacy.value.seqHe.None? || legacy.value.seqHe.value == SEQHE_INVALID_VALUE);
    && dyn.lastIndexesList.None?
    && dyn.sqnScheme == Some(if timeBased then SQN_SCHEME_TIME_BASED else SQN_SCHEME_NON_TIME_BASED)
    && (dyn.sqn.None? <==> timeBased)
    && (dyn.sqn.Some? ==> |dyn.sqn.value| == 12 && IsUpperHex(dyn.sqn.value))
  }

  lemma CreatedDynamicDataFollows(legacy: Option<Legacy>)
    requires legacy.Some? ==> SeqHeReadable(legacy.value)
    ensures DynamicDataFollows(legacy, CreatedDynamicData(legacy))
  {
    if legacy.Some? && legacy.value.seqHe.Some? { SqnOfAnyText(legacy.value.seqHe.value); }
  }

  /** The dynamic data of a CREATE depends on the legacy subscription alone, whatever the request says,
      unless its SEQHE is blank. */
  lemma DynamicDataOfCreate(related: Related, c: Change, c': Change)
    requires c.operation == CREATE && IsStaticDataUri(c.resourcePath)
    requires c'.operation == CREATE && c'.resourcePath == c.resourcePath
    requires var legacy := FindLegacy(related, c.resourcePath); legacy.Some? ==> SeqHeReadable(legacy.value)
    ensures Mutate(related, c).authSubscription.dynamicData == Mutate(related, c').authSubscription.dynamicData
    ensures var dyn := Mutate(related, c).authSubscription.dynamicData;
            dyn.Some? && DynamicDataFollows(FindLegacy(related, c.resourcePath), dyn.value)
  {
    CreatedDynamicDataFollows(FindLegacy(related, c.resourcePath));
  }
}
