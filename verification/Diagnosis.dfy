/** The errors of a rejected change name its faults: an attribute is reported exactly when it is wrong,
    changed although it is protected, or at odds with the legacy subscription. */
module Diagnosis {
  import opened Wrappers
  import opened Numerals
  import opened Paths
  import opened Entities
  import opened Rules

  function NameOf(a: Attribute): string {
    match a
    case Method => "authenticationMethod"
    case PermanentKey => "encPermanentKey"
    case ManagementField => "authenticationManagementField"
    case Algorithm => "algorithmId"
    case KeyInd => "a4KeyInd"
    case Ind => "a4Ind"
    case OpcKey => "encOpcKey"
    case TopcKey => "encTopcKey"
    case KeyVersion => "a4KeyV"
    case AkaAlgorithm => "akaAlgorithmInd"
  }

  lemma NamesDistinct(a: Attribute, b: Attribute)
    ensures NameOf(a) == NameOf(b) <==> a == b
  {
    assert ENC_PERMANENT_KEY[0] != AKA_ALGORITHM_IND[0];
  }

  function Report(path: string, a: Attribute): Error {
    Error(ConstraintViolation, path, NameOf(a))
  }

  function MissingJournal(path: string): Error {
    Error(UnprocessableEntity, path, "provJournal")
  }

  // ---------- the patterns of the attributes, in plain terms ----------

  predicate IsAka(m: string) {
    m == "5G_AKA" || m == "EAP_AKA_PRIME"
  }

  predicate IsHexText(s: string) {
    forall i | 0 <= i < |s| :: s[i] in "0123456789ABCDEFabcdef"
  }

  predicate IsDecimalText(s: string) {
    forall i | 0 <= i < |s| :: s[i] in "0123456789"
  }

  lemma HexCharacter(c: char)
    ensures IsHexChar(c) <==> c in "0123456789ABCDEFabcdef"
    ensures IsDigit(c) <==> c in "0123456789"
  {
  }

  /** Keys are hexadecimal texts of either case, and numbers decimal texts. */
  lemma PlainTexts(s: string)
    ensures AllHex(s) <==> IsHexText(s)
    ensures AllDigits(s) <==> IsDecimalText(s)
    ensures IsManagementField(s) <==> |s| == 4 && IsHexText(s)
    ensures IsNumber(s) <==> s != "" && IsDecimalText(s)
  {
    forall i | 0 <= i < |s| ensures IsHexChar(s[i]) <==> s[i] in "0123456789ABCDEFabcdef" { HexCharacter(s[i]); }
    forall i | 0 <= i < |s| ensures IsDigit(s[i]) <==> s[i] in "0123456789" { HexCharacter(s[i]); }
  }

  /** A key version is the numeral of a number up to 31, without leading zeroes. */
  lemma KeyVersions(s: string)
    ensures IsKeyVersion(s) <==> exists n: nat :: n <= 31 && s == NatToString(n)
  {
    if IsKeyVersion(s) {
      var n := KeyVersionNumber(s);
    }
    forall n: nat | n <= 31 && s == NatToString(n) ensures IsKeyVersion(s) {
      if n >= 10 { assert NatToString(n / 10) == [('0' as int + n / 10) as char]; }
    }
  }

  lemma KeyVersionNumber(s: string) returns (n: nat)
    requires IsKeyVersion(s)
    ensures n <= 31 && s == NatToString(n)
  {
    if |s| == 1 {
      n := s[0] as int - '0' as int;
      assert s == [s[0]];
    } else {
      n := 10 * (s[0] as int - '0' as int) + (s[1] as int - '0' as int);
      assert n / 10 == s[0] as int - '0' as int && n % 10 == s[1] as int - '0' as int;
      assert NatToString(n / 10) == [s[0]];
      assert s == [s[0]] + [s[1]];
    }
  }

  // ---------- common rules ----------

  /** Not a number up to hi, or absent though it must be there. */
  predicate WrongNumber(v: Option<string>, hi: nat, required: bool) {
    if v.Some? then !NumberUpTo(v, hi) else required
  }

  /** An OPc key that is no hexadecimal text, or whose algorithm is absent, the test algorithm or out
      of range; an algorithm that is no number at all is reported under its own name only. */
  predicate WrongOpcKey(d: StaticData) {
    d.encOpcKey.Some?
    && (!AllHex(d.encOpcKey.value) || d.algorithmId.None?
        || (IsNumber(d.algorithmId.value)
            && (DecValue(d.algorithmId.value) == TEST_ALGORITHM_ID
                || DecValue(d.algorithmId.value) > MAX_ALGORITHM_ID)))
  }

  predicate IsWrong(related: Related, path: string, d: StaticData, a: Attribute) {
    var required := IsAka(d.authenticationMethod) && "/legacy/serv=Auth/IMSI=" + GetImsi(path) !in related;
    match a
    case Method => !IsAka(d.authenticationMethod)
    case PermanentKey =>
      if d.encPermanentKey.Some? then !(AllHex(d.encPermanentKey.value) && |d.encPermanentKey.value| == 32)
      else required
    case ManagementField =>
      if d.authenticationManagementField.Some? then !IsManagementField(d.authenticationManagementField.value)
      else required
    case Algorithm => WrongNumber(d.algorithmId, 15, required)
    case KeyInd => WrongNumber(d.a4KeyInd, 511, required)
    case Ind => WrongNumber(d.a4Ind, 2, required)
    case OpcKey => WrongOpcKey(d)
    case TopcKey => false
    case KeyVersion => d.a4KeyV.Some? && !IsKeyVersion(d.a4KeyV.value)
    case AkaAlgorithm =>
      d.akaAlgorithmInd.Some?
      && (!IsAkaAlgorithm(d.akaAlgorithmInd.value) || (JournalKey(path) in related && !AucKnown(related, path)))
  }

  /** What the common rules record about one attribute. */
  function ErrorsAbout(related: Related, path: string, d: StaticData, a: Attribute): seq<Error> {
    var required := MustBeGiven(related, path, d);
    match a
    case Method => MethodErrors(path, d)
    case PermanentKey => KeyErrors(required, path, d)
    case ManagementField => ManagementFieldErrors(required, path, d)
    case Algorithm => RangeErrors(d.algorithmId, MAX_ALGORITHM_ID, required, path, ALGORITHM_ID)
    case KeyInd => RangeErrors(d.a4KeyInd, A4_KEY_IND_MAX, required, path, A4_KEY_IND)
    case Ind => RangeErrors(d.a4Ind, A4_IND_MAX, required, path, A4_IND)
    case OpcKey => OpcKeyErrors(path, d)
    case TopcKey => []
    case KeyVersion => KeyVersionErrors(path, d)
    case AkaAlgorithm => AkaAlgorithmErrors(related, path, d)
  }

  lemma InAkaErrors(related: Related, path: string, d: StaticData, e: Error)
    ensures e in AkaErrors(MustBeGiven(related, path, d), path, d) <==>
      exists a :: IsAkaAttribute(a) && e in ErrorsAbout(related, path, d, a)
  {
    var required := MustBeGiven(related, path, d);
    assert e in AkaErrors(required, path, d) ==>
      || e in ErrorsAbout(related, path, d, Method) || e in ErrorsAbout(related, path, d, PermanentKey)
      || e in ErrorsAbout(related, path, d, ManagementField) || e in ErrorsAbout(related, path, d, Algorithm)
      || e in ErrorsAbout(related, path, d, KeyInd) || e in ErrorsAbout(related, path, d, Ind);
  }

  predicate IsAkaAttribute(a: Attribute) {
    a in {Method, PermanentKey, ManagementField, Algorithm, KeyInd, Ind}
  }

  lemma InFurtherErrors(related: Related, path: string, d: StaticData, e: Error)
    ensures e in OpcKeyErrors(path, d) + KeyVersionErrors(path, d) + AkaAlgorithmErrors(related, path, d) <==>
      exists a :: !IsAkaAttribute(a) && e in ErrorsAbout(related, path, d, a)
  {
    assert e in OpcKeyErrors(path, d) + KeyVersionErrors(path, d) + AkaAlgorithmErrors(related, path, d) ==>
      || e in ErrorsAbout(related, path, d, OpcKey) || e in ErrorsAbout(related, path, d, KeyVersion)
      || e in ErrorsAbout(related, path, d, AkaAlgorithm);
  }

  lemma InStaticErrors(related: Related, path: string, d: StaticData, e: Error)
    ensures e in StaticErrors(related, path, d) <==> exists a :: e in ErrorsAbout(related, path, d, a)
  {
    InAkaErrors(related, path, d, e);
    InFurtherErrors(related, path, d, e);
    InFourParts(AkaErrors(MustBeGiven(related, path, d), path, d), OpcKeyErrors(path, d), KeyVersionErrors(path, d),
                AkaAlgorithmErrors(related, path, d), e);
  }

  lemma InFourParts(a: seq<Error>, b: seq<Error>, c: seq<Error>, d: seq<Error>, e: Error)
    ensures e in ((a + b) + c) + d <==> e in a || e in (b + c) + d
  {
  }

  lemma RangeReported(v: Option<string>, hi: nat, required: bool, path: string, name: string)
    requires hi <= INT_MAX
    ensures RangeErrors(v, hi, required, path, name)
         == if WrongNumber(v, hi, required) then [Violation(path, name)] else []
  {
    RangeErrorsAreMathematical(v, hi, required, path, name);
  }

  lemma OpcKeyReported(path: string, d: StaticData)
    ensures OpcKeyErrors(path, d) == if WrongOpcKey(d) then [Violation(path, ENC_OPC_KEY)] else []
  {
    if d.algorithmId.Some? && IsNumber(d.algorithmId.value) {
      RangeCheckIsMathematical(d.algorithmId.value, 0, 15);
      RangeCheckIsMathematical(d.algorithmId.value, 1, 1);
    }
  }

  /** One attribute: reported under its own name iff it is wrong, and nothing else is recorded about it
      but that the journal is missing. */
  lemma AttributeReported(related: Related, path: string, d: StaticData, a: Attribute)
    ensures Report(path, a) in ErrorsAbout(related, path, d, a) <==> IsWrong(related, path, d, a)
    ensures forall e | e in ErrorsAbout(related, path, d, a) ::
      e == Report(path, a) || (e == MissingJournal(path) && a == AkaAlgorithm)
    ensures MissingJournal(path) in ErrorsAbout(related, path, d, a) <==>
      a == AkaAlgorithm && d.akaAlgorithmInd.Some? && JournalKey(path) !in related
  {
    var required := MustBeGiven(related, path, d);
    match a
    case Algorithm => RangeReported(d.algorithmId, 15, required, path, ALGORITHM_ID);
    case KeyInd => RangeReported(d.a4KeyInd, 511, required, path, A4_KEY_IND);
    case Ind => RangeReported(d.a4Ind, 2, required, path, A4_IND);
    case OpcKey => OpcKeyReported(path, d);
    case _ =>
  }

  /** For every request: an attribute is reported exactly when it is wrong. */
  lemma CommonErrorsNameFaults(related: Related, path: string, d: StaticData)
    ensures forall a :: Report(path, a) in StaticErrors(related, path, d) <==> IsWrong(related, path, d, a)
  {
    forall a ensures Report(path, a) in StaticErrors(related, path, d) <==> IsWrong(related, path, d, a) {
      ReportedOnce(related, path, d, a);
    }
  }

  /** The journal is asked for exactly when it is needed and missing. */
  lemma JournalAskedFor(related: Related, path: string, d: StaticData)
    ensures MissingJournal(path) in StaticErrors(related, path, d) <==>
      d.akaAlgorithmInd.Some? && JournalKey(path) !in related
  {
    InStaticErrors(related, path, d, MissingJournal(path));
    forall a { AttributeReported(related, path, d, a); }
  }

  /** Every error of the common rules is one of these, about this path. */
  lemma EveryErrorNamesAFault(related: Related, path: string, d: StaticData)
    ensures forall e | e in StaticErrors(related, path, d) ::
      e == MissingJournal(path) || exists a :: e == Report(path, a)
  {
    forall e | e in StaticErrors(related, path, d)
      ensures e == MissingJournal(path) || exists a :: e == Report(path, a)
    {
      InStaticErrors(related, path, d, e);
      var a :| e in ErrorsAbout(related, path, d, a);
      AttributeReported(related, path, d, a);
    }
  }

  lemma ReportedOnce(related: Related, path: string, d: StaticData, a: Attribute)
    ensures Report(path, a) in StaticErrors(related, path, d) <==> IsWrong(related, path, d, a)
  {
    InStaticErrors(related, path, d, Report(path, a));
    AttributeReported(related, path, d, a);
    forall b | Report(path, a) in ErrorsAbout(related, path, d, b) ensures b == a {
      AttributeReported(related, path, d, b);
      NamesDistinct(a, b);
    }
  }

  /** The errors about an attribute that has one pattern: its own, if it is wrong. */
  function Reported(related: Related, path: string, d: StaticData, a: Attribute): seq<Error> {
    if IsWrong(related, path, d, a) then [Report(path, a)] else []
  }

  /** The errors about the algorithm indicator: its pattern first, the AuC second. */
  function IndicatorErrors(related: Related, path: string, d: StaticData): seq<Error> {
    if d.akaAlgorithmInd.None? then []
    else
      (if d.akaAlgorithmInd.value in {"0", "1", "2"} then [] else [Report(path, AkaAlgorithm)])
      + if "/subscribers/" + GetMscId(path) + "/journal/provJournal" !in related then [MissingJournal(path)]
        else if AucKnown(related, path) then [] else [Report(path, AkaAlgorithm)]
  }

  lemma OneOfThree(s: string)
    ensures IsAkaAlgorithm(s) <==> s in {"0", "1", "2"}
  {
    if IsAkaAlgorithm(s) { assert s == [s[0]]; }
  }

  lemma AllButIndicator(related: Related, path: string, d: StaticData, a: Attribute)
    requires a != AkaAlgorithm
    ensures ErrorsAbout(related, path, d, a) == Reported(related, path, d, a)
  {
    match a
    case Algorithm => RangeReported(d.algorithmId, 15, MustBeGiven(related, path, d), path, ALGORITHM_ID);
    case KeyInd => RangeReported(d.a4KeyInd, 511, MustBeGiven(related, path, d), path, A4_KEY_IND);
    case Ind => RangeReported(d.a4Ind, 2, MustBeGiven(related, path, d), path, A4_IND);
    case OpcKey => OpcKeyReported(path, d);
    case _ =>
  }

  lemma IndicatorReports(related: Related, path: string, d: StaticData)
    ensures AkaAlgorithmErrors(related, path, d) == IndicatorErrors(related, path, d)
  {
    if d.akaAlgorithmInd.Some? { OneOfThree(d.akaAlgorithmInd.value); }
  }

  /** The errors of the common rules on static data, one for each wrong attribute, in this order. */
  lemma CommonErrorsInOrder(related: Related, path: string, d: StaticData)
    ensures StaticErrors(related, path, d)
         == (Reported(related, path, d, Method) + Reported(related, path, d, PermanentKey)
             + Reported(related, path, d, ManagementField) + Reported(related, path, d, Algorithm)
             + Reported(related, path, d, KeyInd) + Reported(related, path, d, Ind)
             + Reported(related, path, d, OpcKey) + Reported(related, path, d, KeyVersion))
            + IndicatorErrors(related, path, d)
  {
    AllButIndicator(related, path, d, Method);
    AllButIndicator(related, path, d, PermanentKey);
    AllButIndicator(related, path, d, ManagementField);
    AllButIndicator(related, path, d, Algorithm);
    AllButIndicator(related, path, d, KeyInd);
    AllButIndicator(related, path, d, Ind);
    AllButIndicator(related, path, d, OpcKey);
    AllButIndicator(related, path, d, KeyVersion);
    IndicatorReports(related, path, d);
  }

  // ---------- update rules ----------

  predicate IsProtected(a: Attribute) {
    a in {PermanentKey, Algorithm, KeyInd, Ind, OpcKey, KeyVersion}
  }

  lemma ChangeReported(given: Option<string>, stored: Option<string>, path: string, b: Attribute, a: Attribute)
    ensures Report(path, a) in ChangedErrors(given, stored, path, NameOf(b)) <==> a == b && given != stored
  {
    NamesDistinct(a, b);
  }

  /** An attribute of an UPDATE is reported exactly when it is protected and not the stored one. */
  lemma UpdateErrorsNameFaults(stored: StaticData, path: string, d: StaticData, a: Attribute)
    ensures Report(path, a) in ImmutableErrors(stored, path, d) <==> IsProtected(a) && Get(d, a) != Get(stored, a)
  {
    ChangeReported(d.encPermanentKey, stored.encPermanentKey, path, PermanentKey, a);
    ChangeReported(d.algorithmId, stored.algorithmId, path, Algorithm, a);
    ChangeReported(d.a4KeyInd, stored.a4KeyInd, path, KeyInd, a);
    ChangeReported(d.a4Ind, stored.a4Ind, path, Ind, a);
    ChangeReported(d.encOpcKey, stored.encOpcKey, path, OpcKey, a);
    ChangeReported(d.a4KeyV, stored.a4KeyV, path, KeyVersion, a);
  }

  function IfChanged(stored: StaticData, path: string, d: StaticData, a: Attribute): seq<Error> {
    if Get(d, a) != Get(stored, a) then [Report(path, a)] else []
  }

  /** The errors of the update rules, in this order. */
  lemma UpdateErrorsInOrder(stored: StaticData, path: string, d: StaticData)
    ensures ImmutableErrors(stored, path, d)
         == IfChanged(stored, path, d, PermanentKey) + IfChanged(stored, path, d, Algorithm)
            + IfChanged(stored, path, d, KeyInd) + IfChanged(stored, path, d, Ind)
            + IfChanged(stored, path, d, OpcKey) + IfChanged(stored, path, d, KeyVersion)
  {
  }

  // ---------- legacy rules ----------

  /** The attributes compared as text; the management field is compared by value. */
  predicate IsCompared(a: Attribute) {
    a in {PermanentKey, Algorithm, KeyInd, Ind, OpcKey, AkaAlgorithm}
  }

  predicate AtOdds(legacy: Legacy, d: StaticData, a: Attribute) {
    if a == ManagementField then
      d.authenticationManagementField.Some? && legacy.amfValue.Some?
      && ExtractHex(d.authenticationManagementField.value, UINT_MODULUS) != Some(ToUnsigned(legacy.amfValue.value))
    else
      IsCompared(a) && Get(d, a).Some? && LegacyText(legacy, a).Some? && Get(d, a) != LegacyText(legacy, a)
  }

  lemma MismatchReported(given: Option<string>, legacy: Option<string>, path: string, b: Attribute, a: Attribute)
    ensures Report(path, a) in MismatchErrors(given, legacy, path, NameOf(b)) <==>
      a == b && given.Some? && legacy.Some? && given != legacy
  {
    NamesDistinct(a, b);
  }

  lemma LegacyKeysNameFaults(legacy: Legacy, path: string, d: StaticData, a: Attribute)
    ensures Report(path, a) in LegacyKeyErrors(legacy, path, d) <==>
      a in {PermanentKey, KeyInd, Ind, Algorithm} && AtOdds(legacy, d, a)
  {
    MismatchReported(d.encPermanentKey, legacy.eki, path, PermanentKey, a);
    MismatchReported(d.a4KeyInd, IntText(legacy.kind), path, KeyInd, a);
    MismatchReported(d.a4Ind, IntText(legacy.a4Ind), path, Ind, a);
    MismatchReported(d.algorithmId, IntText(legacy.fSetInd), path, Algorithm, a);
  }

  /** An attribute of a CREATE is reported exactly when both sides have it and they differ. */
  lemma LegacyErrorsNameFaults(legacy: Legacy, path: string, d: StaticData, a: Attribute)
    ensures Report(path, a) in LegacyFieldErrors(legacy, path, d) <==> AtOdds(legacy, d, a)
  {
    LegacyKeysNameFaults(legacy, path, d, a);
    NamesDistinct(a, ManagementField);
    MismatchReported(d.encOpcKey, legacy.eopc, path, OpcKey, a);
    MismatchReported(d.akaAlgorithmInd, IntText(legacy.akaAlgInd), path, AkaAlgorithm, a);
  }

  function IfAtOdds(legacy: Legacy, path: string, d: StaticData, a: Attribute): seq<Error> {
    if AtOdds(legacy, d, a) then [Report(path, a)] else []
  }

  /** The errors of the legacy rules on static data: the AKATYPE first, then the attributes in this order. */
  lemma LegacyErrorsInOrder(legacy: Legacy, path: string, d: StaticData)
    ensures ErrorsAgainstLegacy(legacy, path, Some(d))
         == (if legacy.akaType == Some(1) then [] else [Error(ConstraintViolation, path, "AKATYPE")])
            + ((IfAtOdds(legacy, path, d, PermanentKey) + IfAtOdds(legacy, path, d, KeyInd)
                + IfAtOdds(legacy, path, d, Ind) + IfAtOdds(legacy, path, d, Algorithm))
               + IfAtOdds(legacy, path, d, ManagementField) + IfAtOdds(legacy, path, d, OpcKey)
               + IfAtOdds(legacy, path, d, AkaAlgorithm))
  {
    LegacyKeysInOrder(legacy, path, d);
  }

  lemma TextAtOdds(legacy: Legacy, path: string, d: StaticData, a: Attribute)
    requires IsCompared(a)
    ensures MismatchErrors(Get(d, a), LegacyText(legacy, a), path, NameOf(a)) == IfAtOdds(legacy, path, d, a)
  {
  }

  lemma LegacyKeysInOrder(legacy: Legacy, path: string, d: StaticData)
    ensures LegacyKeyErrors(legacy, path, d)
         == IfAtOdds(legacy, path, d, PermanentKey) + IfAtOdds(legacy, path, d, KeyInd)
            + IfAtOdds(legacy, path, d, Ind) + IfAtOdds(legacy, path, d, Algorithm)
  {
    TextAtOdds(legacy, path, d, PermanentKey);
    TextAtOdds(legacy, path, d, KeyInd);
    TextAtOdds(legacy, path, d, Ind);
    TextAtOdds(legacy, path, d, Algorithm);
  }

  /** A management field of the right shape never agrees with a negative or a wide AMFVALUE. */
  lemma ManagementFieldComparison(v: string, amf: Int32, path: string)
    requires IsManagementField(v)
    ensures ManagementFieldMismatch(Some(v), Some(amf), path) == [] <==> HexValue(v) == amf
  {
    ExtractHexOfHex(v, UINT_MODULUS);
    ValueBelowPower(v);
    assert Pow16(4) == 0x1_0000;
  }
}
