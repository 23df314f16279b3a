/** What a CREATE takes over from the subscriber's legacy subscription, and when the result is well
    formed: the rules check what the request gives, not what the mutation fills in afterwards. */
module Migration {
  import opened Wrappers
  import opened Numerals
  import opened Paths
  import opened Entities
  import opened Rules
  import opened Batch
  import opened Acceptance

  // ---------- the texts of integers ----------

  lemma TextOfInt(v: Int32, hi: nat)
    ensures NumberUpTo(IntText(Some(v)), hi) <==> 0 <= v <= hi
    ensures IsNumber(IntToString(v)) ==> DecValue(IntToString(v)) == v
  {
    if v < 0 {
      assert IntToString(v)[0] == '-';
    } else {
      NatToStringValue(v);
    }
  }

  lemma TextLength(n: nat)
    ensures n >= 10 ==> |NatToString(n)| >= 2
    ensures n >= 100 ==> |NatToString(n)| >= 3
  {
    if n >= 100 { assert |NatToString(n / 10)| >= 2; }
  }

  lemma KeyVersionOfInt(v: Int32)
    ensures IsKeyVersion(IntToString(v)) <==> 0 <= v <= 31
    ensures IsAkaAlgorithm(IntToString(v)) <==> 0 <= v <= 2
  {
    if v < 0 {
      var n: int := v;
      TextLength(-n);
      assert IntToString(v)[0] == '-';
    } else {
      TextLength(v);
      if 10 <= v < 100 {
        assert NatToString(v / 10) == [('0' as int + v / 10) as char];
      }
    }
  }

  // ---------- filling ----------

  predicate FillsUpTo(given: Option<string>, legacy: Option<Int32>, hi: nat) {
    given.None? && legacy.Some? ==> 0 <= legacy.value <= hi
  }

  /** The condition on the two inputs: every value that will be filled in is in range. */
  predicate LegacyFits(d: StaticData, legacy: Legacy) {
    && (d.encPermanentKey.None? && legacy.eki.Some? ==> AllHex(legacy.eki.value) && |legacy.eki.value| == 32)
    && FillsUpTo(d.authenticationManagementField, legacy.amfValue, 0xFFFF)
    && FillsUpTo(d.algorithmId, legacy.fSetInd, 15)
    && FillsUpTo(d.a4KeyInd, legacy.kind, 511)
    && FillsUpTo(d.a4Ind, legacy.a4Ind, 2)
    && FillsUpTo(d.a4KeyV, legacy.vNumber, 31)
    && FillsUpTo(d.akaAlgorithmInd, legacy.akaAlgInd, 2)
    && (d.encOpcKey.None? && legacy.eopc.Some? ==> AllHex(legacy.eopc.value) && AlgorithmTakesOpc(d, legacy))
  }

  /** An algorithm is given or will be filled in, and it is not the test algorithm. */
  predicate AlgorithmTakesOpc(d: StaticData, legacy: Legacy) {
    if d.algorithmId.Some? then !NumberIs(d.algorithmId.value, TEST_ALGORITHM_ID)
    else legacy.fSetInd.Some? && legacy.fSetInd.value != TEST_ALGORITHM_ID
  }

  predicate NumberIs(s: string, n: nat) {
    AllDigits(s) && DecValue(s) == n
  }

  lemma FilledNumber(given: Option<string>, legacy: Option<Int32>, hi: nat)
    requires NumberUpTo(given, hi)
    ensures NumberUpTo(Fill(given, IntText(legacy)), hi) <==> FillsUpTo(given, legacy, hi)
  {
    if legacy.Some? { TextOfInt(legacy.value, hi); }
  }

  lemma FilledField(given: Option<string>, legacy: Option<Int32>)
    requires given.Some? ==> IsManagementField(given.value)
    ensures var v := Fill(given, ManagementFieldText(legacy));
      (v.Some? ==> IsManagementField(v.value)) <==> FillsUpTo(given, legacy, 0xFFFF)
  {
    if legacy.Some? { FilledManagementFieldPattern(legacy.value); }
  }

  lemma FilledVersions(d: StaticData, legacy: Legacy)
    requires WellFormed(d)
    ensures var r := FillStatic(d, legacy);
      && ((r.a4KeyV.Some? ==> IsKeyVersion(r.a4KeyV.value)) <==> FillsUpTo(d.a4KeyV, legacy.vNumber, 31))
      && ((r.akaAlgorithmInd.Some? ==> IsAkaAlgorithm(r.akaAlgorithmInd.value)) <==>
            FillsUpTo(d.akaAlgorithmInd, legacy.akaAlgInd, 2))
  {
    if legacy.vNumber.Some? { KeyVersionOfInt(legacy.vNumber.value); }
    if legacy.akaAlgInd.Some? { KeyVersionOfInt(legacy.akaAlgInd.value); }
  }

  /** Filling well-formed static data leaves it well formed exactly when the legacy values fit. */
  lemma FilledIsWellFormed(d: StaticData, legacy: Legacy)
    requires WellFormed(d)
    ensures WellFormed(FillStatic(d, legacy)) <==> LegacyFits(d, legacy)
  {
    FilledNumber(d.algorithmId, legacy.fSetInd, 15);
    FilledNumber(d.a4KeyInd, legacy.kind, 511);
    FilledNumber(d.a4Ind, legacy.a4Ind, 2);
    FilledField(d.authenticationManagementField, legacy.amfValue);
    FilledVersions(d, legacy);
    if legacy.fSetInd.Some? { TextOfInt(legacy.fSetInd.value, 15); }
  }

  predicate Supplied(given: Option<string>, legacyHas: bool) {
    given.Some? || legacyHas
  }

  /** Each of the five attributes an AKA method needs is given or on the legacy subscription. */
  predicate LegacyCompletes(d: StaticData, legacy: Legacy) {
    && Supplied(d.encPermanentKey, legacy.eki.Some?)
    && Supplied(d.authenticationManagementField, legacy.amfValue.Some?)
    && Supplied(d.algorithmId, legacy.fSetInd.Some?)
    && Supplied(d.a4KeyInd, legacy.kind.Some?)
    && Supplied(d.a4Ind, legacy.a4Ind.Some?)
  }

  // ---------- accepted CREATEs of subscribers with a legacy subscription ----------

  predicate Carries(v: Option<string>, legacy: Option<string>) {
    legacy.Some? ==> v == legacy
  }

  /** Every attribute the legacy subscription has and the rules compare is the legacy one, the
      management field by value. */
  predicate CarriesLegacy(d: StaticData, legacy: Legacy) {
    && Carries(d.encPermanentKey, legacy.eki)
    && Carries(d.a4KeyInd, IntText(legacy.kind))
    && Carries(d.a4Ind, IntText(legacy.a4Ind))
    && Carries(d.algorithmId, IntText(legacy.fSetInd))
    && Carries(d.encOpcKey, legacy.eopc)
    && Carries(d.akaAlgorithmInd, IntText(legacy.akaAlgInd))
    && (legacy.amfValue.Some? ==>
          && d.authenticationManagementField.Some?
          && ExtractHex(d.authenticationManagementField.value, UINT_MODULUS) == Some(ToUnsigned(legacy.amfValue.value)))
  }

  lemma Mismatch(given: Option<string>, legacy: Option<string>, path: string, name: string)
    ensures MismatchErrors(given, legacy, path, name) == [] <==> Carries(Fill(given, legacy), legacy)
  {
  }

  lemma FieldMismatch(given: Option<string>, legacy: Option<Int32>, path: string)
    ensures ManagementFieldMismatch(given, legacy, path) == [] <==>
      var v := Fill(given, ManagementFieldText(legacy));
      legacy.Some? ==> v.Some? && ExtractHex(v.value, UINT_MODULUS) == Some(ToUnsigned(legacy.value))
  {
    if legacy.Some? { ParsePrintHex(ToUnsigned(legacy.value), 4); }
  }

  lemma KeyMismatch(d: StaticData, legacy: Legacy, path: string)
    ensures LegacyKeyErrors(legacy, path, d) == [] <==>
      var x := FillStatic(d, legacy);
      && Carries(x.encPermanentKey, legacy.eki)
      && Carries(x.a4KeyInd, IntText(legacy.kind))
      && Carries(x.a4Ind, IntText(legacy.a4Ind))
      && Carries(x.algorithmId, IntText(legacy.fSetInd))
  {
    Mismatch(d.encPermanentKey, legacy.eki, path, ENC_PERMANENT_KEY);
    Mismatch(d.a4KeyInd, IntText(legacy.kind), path, A4_KEY_IND);
    Mismatch(d.a4Ind, IntText(legacy.a4Ind), path, A4_IND);
    Mismatch(d.algorithmId, IntText(legacy.fSetInd), path, ALGORITHM_ID);
  }

  /** The legacy rules accept static data exactly when the mutation makes it carry the legacy data. */
  lemma LegacyCheckMeans(d: StaticData, legacy: Legacy, path: string)
    ensures ErrorsAgainstLegacy(legacy, path, Some(d)) == [] <==>
      legacy.akaType == Some(AKATYPE_ALLOWED_VALUE) && CarriesLegacy(FillStatic(d, legacy), legacy)
  {
    KeyMismatch(d, legacy, path);
    FieldMismatch(d.authenticationManagementField, legacy.amfValue, path);
    Mismatch(d.encOpcKey, legacy.eopc, path, ENC_OPC_KEY);
    Mismatch(d.akaAlgorithmInd, IntText(legacy.akaAlgInd), path, AKA_ALGORITHM_IND);
  }

  /** What is known of the mutated data x of a request's data d. */
  predicate TakenOver(d: StaticData, x: StaticData, legacy: Legacy) {
    && legacy.akaType == Some(AKATYPE_ALLOWED_VALUE) && CarriesLegacy(x, legacy)
    && WellFormed(d)
    && (WellFormed(x) <==> LegacyFits(d, legacy))
    && (Complete(x) <==> LegacyCompletes(d, legacy))
  }

  lemma FilledIsTakenOver(d: StaticData, legacy: Legacy, path: string)
    requires WellFormed(d) && ErrorsAgainstLegacy(legacy, path, Some(d)) == []
    ensures TakenOver(d, FillStatic(d, legacy), legacy)
  {
    FilledIsWellFormed(d, legacy);
    LegacyCheckMeans(d, legacy, path);
  }

  lemma SourceIsTakenOver(related: Related, c: Change, x: Change)
    requires IsSource(related, c, x) && c.operation == CREATE && IsStaticDataUri(c.resourcePath)
    requires FindLegacy(related, c.resourcePath).Some? && x.authSubscription.staticData.Some?
    ensures c.authSubscription.staticData.Some?
    ensures TakenOver(c.authSubscription.staticData.value, x.authSubscription.staticData.value,
                      FindLegacy(related, c.resourcePath).value)
  {
    var d := c.authSubscription.staticData.value;
    StaticErrorsMean(related, c.resourcePath, d);
    FilledIsTakenOver(d, FindLegacy(related, c.resourcePath).value, c.resourcePath);
  }

  /** In every batch: an accepted static-data CREATE of a subscriber with a legacy subscription has an
      allowed AKATYPE behind it, carries every legacy attribute, and stems from a well-formed request;
      it is itself well formed, and complete, exactly under the two conditions above. */
  lemma AcceptedCreateWithLegacy(related: Related, batch: seq<Change>, x: Change)
    requires x in Run(related, START, batch).accepted && x.operation == CREATE && IsStaticDataUri(x.resourcePath)
    requires x.authSubscription.staticData.Some? && FindLegacy(related, x.resourcePath).Some?
    ensures exists c | c in batch ::
      && c.operation == CREATE && c.resourcePath == x.resourcePath && c.authSubscription.staticData.Some?
      && TakenOver(c.authSubscription.staticData.value, x.authSubscription.staticData.value,
                   FindLegacy(related, x.resourcePath).value)
  {
    var c := SourceInBatch(related, batch, x);
    SourceIsTakenOver(related, c, x);
  }

  const BARE_DATA := StaticData("5G_AKA", None, None, None, None, None, None, None, None, None, map[])

  lemma StaticNameHasNoSlash()
    ensures NoSlash(AUTH_SUBSCRIPTION_STATIC_DATA)
  {
  }

  lemma PlainStaticDataPath(m: string, d: string, path: string)
    requires 5 <= |d| <= 15 && AllDigits(d)
    requires path == AddSuffix(AddSuffix(SUBSCRIBERS + m + AUTH_SUBSCRIPTION, IMSI_PREFIX + d),
                               AUTH_SUBSCRIPTION_STATIC_DATA)
    ensures IsStaticDataUri(path) && Classify(path) == ImsiData
  {
    StaticNameHasNoSlash();
    GetImsiExact(m, d, AUTH_SUBSCRIPTION_STATIC_DATA);
    StaticDataSplit(m, IMSI_PREFIX + d, path);
    AuthSubscriptionEnds(path);
    LastOfSuffix(path, STATIC_DATA);
  }

  lemma StaticDataSplit(m: string, n: string, path: string)
    requires path == AddSuffix(AddSuffix(SUBSCRIBERS + m + AUTH_SUBSCRIPTION, n), AUTH_SUBSCRIPTION_STATIC_DATA)
    ensures IsStaticDataUri(path)
  {
    var a := SUBSCRIBERS + m;
    assert AUTH_SUBSCRIPTION_CHILD == AUTH_SUBSCRIPTION + "/" && STATIC_DATA == "/" + AUTH_SUBSCRIPTION_STATIC_DATA;
    assert path == a + AUTH_SUBSCRIPTION_CHILD + n + STATIC_DATA;
    StaticDataPattern(path);
  }
}
