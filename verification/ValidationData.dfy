/** The rule engine: the class of `ValidationData.cpp`, with its two response lists as fields. Every
    variant and optional it reads is read with a destructor, so that no read can fail is part of what
    is verified here; what it leaves in its fields is the fold of module Batch. */
module Engine {
  import opened Wrappers
  import opened Numerals
  import opened Paths
  import opened Sqn
  import opened Entities
  import opened Rules
  import opened Batch
  import opened Lists

  /** The copy of a change that the mutations write to. */
  class Draft {
    var change: Change

    constructor (c: Change)
      ensures change == c
    {
      change := c;
    }

    method SetStaticData(d: Option<StaticData>)
      modifies this
      ensures change == old(change).(authSubscription := old(change.authSubscription).(staticData := d))
    {
      change := change.(authSubscription := change.authSubscription.(staticData := d));
    }

    method SetDynamicData(d: Option<DynamicData>)
      modifies this
      ensures change == old(change).(authSubscription := old(change.authSubscription).(dynamicData := d))
    {
      change := change.(authSubscription := change.authSubscription.(dynamicData := d));
    }
  }

  class ValidationData {
    var changes: seq<Change>
    var relatedResources: Related
    var accepted: seq<Change>  // response.changes
    var errors: seq<Error>     // response.errors

    constructor ()
      ensures changes == [] && relatedResources == map[] && accepted == [] && errors == []
    {
      changes, relatedResources, accepted, errors := [], map[], [], [];
    }

    /** What the rules take for granted about the fields they read. */
    ghost predicate Ready()
      reads this
    {
      Readable(relatedResources)
      && NeverThrows(relatedResources, Outcome(true, HTTP_OK, accepted, errors), changes)
    }

    predicate HasErrors()
      reads this`errors
    {
      errors != []
    }

    method AddError(message: Message, resourcePath: string, about: string)
      modifies this`errors
      ensures errors == old(errors) + [Error(message, resourcePath, about)]
    {
      errors := errors + [Error(message, resourcePath, about)];
    }

    // ---------- common rules ----------

    method CheckAuthenticationMethod(path: string, d: StaticData)
      modifies this`errors
      ensures errors == old(errors) + MethodErrors(path, d)
    {
      if !IsAkaMethod(d.authenticationMethod) {
        AddError(ConstraintViolation, path, AUTHENTICATION_METHOD);
      }
    }

    method CheckEncPermanentKey(path: string, d: StaticData, required: bool)
      modifies this`errors
      ensures errors == old(errors) + KeyErrors(required, path, d)
    {
      if d.encPermanentKey.Some? {
        if !AllHex(d.encPermanentKey.value) {
          AddError(ConstraintViolation, path, ENC_PERMANENT_KEY);
        } else if |d.encPermanentKey.value| != LENGTH_ENC_PERMANENT_KEY {
          AddError(ConstraintViolation, path, ENC_PERMANENT_KEY);
        }
      } else if required {
        AddError(ConstraintViolation, path, ENC_PERMANENT_KEY);
      }
    }

    method CheckAuthenticationManagementField(path: string, d: StaticData, required: bool)
      modifies this`errors
      ensures errors == old(errors) + ManagementFieldErrors(required, path, d)
    {
      if d.authenticationManagementField.Some? {
        if !IsManagementField(d.authenticationManagementField.value) {
          AddError(ConstraintViolation, path, AUTHENTICATION_MANAGEMENT_FIELD);
        }
      } else if required {
        AddError(ConstraintViolation, path, AUTHENTICATION_MANAGEMENT_FIELD);
      }
    }

    /** The block repeated for algorithmId, a4KeyInd and a4Ind. */
    method CheckNumber(path: string, v: Option<string>, hi: int, name: string, required: bool)
      modifies this`errors
      ensures errors == old(errors) + RangeErrors(v, hi, required, path, name)
    {
      if v.Some? {
        if !IsNumber(v.value) {
          AddError(ConstraintViolation, path, name);
        } else if !StoiInRange(v.value, 0, hi) {
          AddError(ConstraintViolation, path, name);
        }
      } else if required {
        AddError(ConstraintViolation, path, name);
      }
    }

    method CheckEncOpcKey(path: string, d: StaticData)
      modifies this`errors
      ensures errors == old(errors) + OpcKeyErrors(path, d)
    {
      if d.encOpcKey.Some? {
        if !AllHex(d.encOpcKey.value) {
          AddError(ConstraintViolation, path, ENC_OPC_KEY);
        } else if d.algorithmId.None? {
          AddError(ConstraintViolation, path, ENC_OPC_KEY);
        } else if IsNumber(d.algorithmId.value) {
          if !IsMillenage(d.algorithmId.value) {
            AddError(ConstraintViolation, path, ENC_OPC_KEY);
          }
        }
      }
    }

    method CheckA4KeyV(path: string, d: StaticData)
      modifies this`errors
      ensures errors == old(errors) + KeyVersionErrors(path, d)
    {
      if d.a4KeyV.Some? && !IsKeyVersion(d.a4KeyV.value) {
        AddError(ConstraintViolation, path, A4_KEY_V);
      }
    }

    /** Reads the journal's mask with `boost::get` and `checkBitIsSet`. */
    method CheckAkaAlgorithmInd(path: string, d: StaticData) returns (journalMissing: bool)
      requires Readable(relatedResources)
      modifies this`errors
      ensures errors == old(errors) + AkaAlgorithmErrors(relatedResources, path, d)
      ensures journalMissing == (d.akaAlgorithmInd.Some? && JournalKey(path) !in relatedResources)
    {
      journalMissing := false;
      if d.akaAlgorithmInd.Some? {
        if !IsAkaAlgorithm(d.akaAlgorithmInd.value) {
          AddError(ConstraintViolation, path, AKA_ALGORITHM_IND);
        }
        var pathToFind := JournalPath(GetMscId(path));
        LookupsSucceed(relatedResources, path);
        if pathToFind in relatedResources {
          var imsiMask := relatedResources[pathToFind].imsiMask;
          if imsiMask == "" || !BitIsSet(imsiMask, POS_AUC_IN_IMSI_MASK) {
            AddError(ConstraintViolation, path, AKA_ALGORITHM_IND);
          }
        } else {
          journalMissing := true;
          AddError(UnprocessableEntity, path, PROV_JOURNAL);
        }
      }
    }

    method CheckAkaAttributes(path: string, d: StaticData, required: bool)
      modifies this`errors
      ensures errors == old(errors) + AkaErrors(required, path, d)
    {
      ghost var before := errors;
      CheckAuthenticationMethod(path, d);
      ghost var e := MethodErrors(path, d);
      CheckEncPermanentKey(path, d, required);
      Regroup(before, e, KeyErrors(required, path, d));
      e := e + KeyErrors(required, path, d);
      CheckAuthenticationManagementField(path, d, required);
      Regroup(before, e, ManagementFieldErrors(required, path, d));
      e := e + ManagementFieldErrors(required, path, d);
      CheckNumber(path, d.algorithmId, MAX_ALGORITHM_ID, ALGORITHM_ID, required);
      Regroup(before, e, RangeErrors(d.algorithmId, MAX_ALGORITHM_ID, required, path, ALGORITHM_ID));
      e := e + RangeErrors(d.algorithmId, MAX_ALGORITHM_ID, required, path, ALGORITHM_ID);
      CheckNumber(path, d.a4KeyInd, A4_KEY_IND_MAX, A4_KEY_IND, required);
      Regroup(before, e, RangeErrors(d.a4KeyInd, A4_KEY_IND_MAX, required, path, A4_KEY_IND));
      e := e + RangeErrors(d.a4KeyInd, A4_KEY_IND_MAX, required, path, A4_KEY_IND);
      CheckNumber(path, d.a4Ind, A4_IND_MAX, A4_IND, required);
      Regroup(before, e, RangeErrors(d.a4Ind, A4_IND_MAX, required, path, A4_IND));
    }

    method CheckOwnAttributes(path: string, d: StaticData, required: bool)
      modifies this`errors
      ensures errors == old(errors) + OwnErrors(required, path, d)
    {
      ghost var before := errors;
      CheckAkaAttributes(path, d, required);
      CheckEncOpcKey(path, d);
      Regroup(before, AkaErrors(required, path, d), OpcKeyErrors(path, d));
      CheckA4KeyV(path, d);
      Regroup(before, AkaErrors(required, path, d) + OpcKeyErrors(path, d), KeyVersionErrors(path, d));
    }

    method CheckStaticData(path: string, d: StaticData) returns (journalMissing: bool)
      requires Readable(relatedResources)
      modifies this`errors
      ensures errors == old(errors) + StaticErrors(relatedResources, path, d)
      ensures journalMissing == (d.akaAlgorithmInd.Some? && JournalKey(path) !in relatedResources)
    {
      var has4GLegacy := LegacyPath(path) in relatedResources;
      var required := IsAkaMethod(d.authenticationMethod) && !has4GLegacy;
      CheckOwnAttributes(path, d, required);
      journalMissing := CheckAkaAlgorithmInd(path, d);
    }

    method CheckForCommonAuthSubscriptionRules(change: Change) returns (ok: bool, code: int)
      requires Readable(relatedResources)
      modifies this`errors
      ensures errors == old(errors) + CommonErrors(relatedResources, change)
      ensures ok == (errors == [])
      ensures code == if ok then HTTP_OK else CommonCode(relatedResources, change)
    {
      code := HTTP_CONFLICT;
      if change.authSubscription.staticData.Some? {
        var journalMissing := CheckStaticData(change.resourcePath, change.authSubscription.staticData.value);
        if journalMissing {
          code := HTTP_UNPROCESSABLE_ENTITY;
        }
      }
      if change.authSubscription.dynamicData.Some? {
        AddError(ConstraintViolation, change.resourcePath, DYNAMIC_DATA);
      }
      if HasErrors() {
        return false, code;
      }
      return true, HTTP_OK;
    }

    // ---------- legacy and update rules ----------

    method CheckOptionalAttributeWithLegacy(given: Option<string>, legacy: Option<string>, path: string, name: string)
      returns (ok: bool)
      modifies this`errors
      ensures errors == old(errors) + MismatchErrors(given, legacy, path, name)
      ensures ok == (MismatchErrors(given, legacy, path, name) == [])
    {
      ok := true;
      if given.Some? && legacy.Some? && given.value != legacy.value {
        AddError(ConstraintViolation, path, name);
        ok := false;
      }
    }

    /** The number is read into a variable without a value: the text must not be blank. */
    method CheckManagementFieldWithLegacy(given: Option<string>, legacy: Option<Int32>, path: string)
      returns (ok: bool)
      requires given.Some? ==> HasText(given.value)
      modifies this`errors
      ensures errors == old(errors) + ManagementFieldMismatch(given, legacy, path)
      ensures ok == (ManagementFieldMismatch(given, legacy, path) == [])
    {
      ok := true;
      if given.Some? {
        StoredIffText(given.value, UINT_MODULUS);
        var value := ExtractHex(given.value, UINT_MODULUS).value;
        if legacy.Some? && value != ToUnsigned(legacy.value) {
          AddError(ConstraintViolation, path, AUTHENTICATION_MANAGEMENT_FIELD);
          ok := false;
        }
      }
    }

    method CheckLegacyKeys(path: string, d: StaticData, legacy: Legacy) returns (ok: bool)
      modifies this`errors
      ensures errors == old(errors) + LegacyKeyErrors(legacy, path, d)
      ensures ok == (LegacyKeyErrors(legacy, path, d) == [])
    {
      ghost var before := errors;
      ok := CheckOptionalAttributeWithLegacy(d.encPermanentKey, legacy.eki, path, ENC_PERMANENT_KEY);
      ghost var e := MismatchErrors(d.encPermanentKey, legacy.eki, path, ENC_PERMANENT_KEY);
      var r := CheckOptionalAttributeWithLegacy(d.a4KeyInd, IntText(legacy.kind), path, A4_KEY_IND);
      Regroup(before, e, MismatchErrors(d.a4KeyInd, IntText(legacy.kind), path, A4_KEY_IND));
      ok, e := ok && r, e + MismatchErrors(d.a4KeyInd, IntText(legacy.kind), path, A4_KEY_IND);
      r := CheckOptionalAttributeWithLegacy(d.a4Ind, IntText(legacy.a4Ind), path, A4_IND);
      Regroup(before, e, MismatchErrors(d.a4Ind, IntText(legacy.a4Ind), path, A4_IND));
      ok, e := ok && r, e + MismatchErrors(d.a4Ind, IntText(legacy.a4Ind), path, A4_IND);
      r := CheckOptionalAttributeWithLegacy(d.algorithmId, IntText(legacy.fSetInd), path, ALGORITHM_ID);
      Regroup(before, e, MismatchErrors(d.algorithmId, IntText(legacy.fSetInd), path, ALGORITHM_ID));
      ok := ok && r;
    }

    method CheckLegacyFields(path: string, d: StaticData, legacy: Legacy) returns (ok: bool)
      requires FieldReadable(d)
      modifies this`errors
      ensures errors == old(errors) + LegacyFieldErrors(legacy, path, d)
      ensures ok == (LegacyFieldErrors(legacy, path, d) == [])
    {
      ghost var before := errors;
      ok := CheckLegacyKeys(path, d, legacy);
      ghost var e := LegacyKeyErrors(legacy, path, d);
      var r := CheckManagementFieldWithLegacy(d.authenticationManagementField, legacy.amfValue, path);
      Regroup(before, e, ManagementFieldMismatch(d.authenticationManagementField, legacy.amfValue, path));
      ok, e := ok && r, e + ManagementFieldMismatch(d.authenticationManagementField, legacy.amfValue, path);
      r := CheckOptionalAttributeWithLegacy(d.encOpcKey, legacy.eopc, path, ENC_OPC_KEY);
      Regroup(before, e, MismatchErrors(d.encOpcKey, legacy.eopc, path, ENC_OPC_KEY));
      ok, e := ok && r, e + MismatchErrors(d.encOpcKey, legacy.eopc, path, ENC_OPC_KEY);
      r := CheckOptionalAttributeWithLegacy(d.akaAlgorithmInd, IntText(legacy.akaAlgInd), path, AKA_ALGORITHM_IND);
      Regroup(before, e, MismatchErrors(d.akaAlgorithmInd, IntText(legacy.akaAlgInd), path, AKA_ALGORITHM_IND));
      ok := ok && r;
    }

    method CheckAkaType(path: string, legacy: Legacy) returns (ok: bool)
      modifies this`errors
      ensures errors == old(errors) + AkaTypeErrors(path, legacy)
      ensures ok == (AkaTypeErrors(path, legacy) == [])
    {
      ok := true;
      if legacy.akaType.None? {
        ok := false;
        AddError(ConstraintViolation, path, AKA_TYPE);
      } else if legacy.akaType.value != AKATYPE_ALLOWED_VALUE {
        ok := false;
        AddError(ConstraintViolation, path, AKA_TYPE);
      }
    }

    method CheckAgainstLegacy(path: string, d: Option<StaticData>, legacy: Legacy) returns (ok: bool)
      requires d.Some? ==> FieldReadable(d.value)
      modifies this`errors
      ensures errors == old(errors) + ErrorsAgainstLegacy(legacy, path, d)
      ensures ok == (ErrorsAgainstLegacy(legacy, path, d) == [])
    {
      ghost var before := errors;
      ok := CheckAkaType(path, legacy);
      if d.Some? {
        var fields := CheckLegacyFields(path, d.value, legacy);
        Regroup(before, AkaTypeErrors(path, legacy), LegacyFieldErrors(legacy, path, d.value));
        ok := ok && fields;
      }
    }

    /** Only consulted when the common rules record nothing. */
    method CheckForLegacyAuthSubscriptionRules(change: Change) returns (ok: bool)
      requires Readable(relatedResources) && CommonErrors(relatedResources, change) == []
      modifies this`errors
      ensures errors == old(errors) + LegacyErrors(relatedResources, change)
      ensures ok == (LegacyErrors(relatedResources, change) == [])
    {
      ok := true;
      var legacyPath := LegacyPath(change.resourcePath);
      LookupsSucceed(relatedResources, change.resourcePath);
      if legacyPath in relatedResources {
        var legacy := relatedResources[legacyPath].legacy;
        CommonFieldHasText(relatedResources, change);
        ok := CheckAgainstLegacy(change.resourcePath, change.authSubscription.staticData, legacy);
      }
    }

    method OptionalAttributeHasChanged(given: Option<string>, stored: Option<string>, path: string, name: string)
      returns (ok: bool)
      modifies this`errors
      ensures errors == old(errors) + ChangedErrors(given, stored, path, name)
      ensures ok == (ChangedErrors(given, stored, path, name) == [])
    {
      if (given.Some? && stored.None?) || (given.None? && stored.Some?) {
        AddError(ConstraintViolation, path, name);
        return false;
      } else if given.Some? && stored.Some? && given.value != stored.value {
        AddError(ConstraintViolation, path, name);
        return false;
      }
      return true;
    }

    method CheckProtectedAttributes(path: string, d: StaticData, stored: StaticData) returns (ok: bool)
      modifies this`errors
      ensures errors == old(errors) + ImmutableErrors(stored, path, d)
      ensures ok == (ImmutableErrors(stored, path, d) == [])
    {
      var ok1 := OptionalAttributeHasChanged(d.encPermanentKey, stored.encPermanentKey, path, ENC_PERMANENT_KEY);
      var ok2 := OptionalAttributeHasChanged(d.algorithmId, stored.algorithmId, path, ALGORITHM_ID);
      var ok3 := OptionalAttributeHasChanged(d.a4KeyInd, stored.a4KeyInd, path, A4_KEY_IND);
      var ok4 := OptionalAttributeHasChanged(d.a4Ind, stored.a4Ind, path, A4_IND);
      var ok5 := OptionalAttributeHasChanged(d.encOpcKey, stored.encOpcKey, path, ENC_OPC_KEY);
      var ok6 := OptionalAttributeHasChanged(d.a4KeyV, stored.a4KeyV, path, A4_KEY_V);
      ok := ok1 && ok2 && ok3 && ok4 && ok5 && ok6;
    }

    /** Reads the static data of the change and of the stored resource with `.value()`. */
    method CheckForUpdateAuthSubscriptionRules(change: Change) returns (ok: bool)
      requires Readable(relatedResources) && IsImsiUri(change.resourcePath)
      requires change.authSubscription.staticData.Some?
      modifies this`errors
      ensures errors == old(errors) + UpdateErrors(relatedResources, change)
      ensures ok == (UpdateErrors(relatedResources, change) == [])
    {
      ok := true;
      var d := change.authSubscription.staticData.value;
      var basePath := BasePath(change.resourcePath);
      LookupsSucceed(relatedResources, change.resourcePath);
      if basePath in relatedResources {
        var stored := relatedResources[basePath].subscription.staticData.value;
        ok := CheckProtectedAttributes(change.resourcePath, d, stored);
      }
    }

    method CheckForCreationAuthSubscription(change: Change) returns (ok: bool, code: int)
      requires Readable(relatedResources) && change.operation == CREATE
      modifies this`errors
      ensures var j := Judge(relatedResources, change, old(errors));
              ok == j.ok && code == j.code && errors == old(errors) + j.errors
    {
      var commonOk, commonCode := CheckForCommonAuthSubscriptionRules(change);
      ok := commonOk;
      if ok {
        ok := CheckForLegacyAuthSubscriptionRules(change);
      }
      code := if ok then HTTP_OK else Max(commonCode, HTTP_CONFLICT);
    }

    method CheckForUpdateAuthSubscription(change: Change) returns (ok: bool, code: int)
      requires Readable(relatedResources) && change.operation == UPDATE
      requires Classify(change.resourcePath) == ImsiData && (LacksData(relatedResources, change) ==> HasErrors())
      modifies this`errors
      ensures var j := Judge(relatedResources, change, old(errors));
              ok == j.ok && code == j.code && errors == old(errors) + j.errors
    {
      if BasePath(change.resourcePath) !in relatedResources {
        AddError(UnprocessableEntity, change.resourcePath, RELATED_RESOURCE);
        return false, HTTP_UNPROCESSABLE_ENTITY;
      }
      var commonOk, commonCode := CheckForCommonAuthSubscriptionRules(change);
      ok := commonOk;
      if ok {
        ok := CheckForUpdateAuthSubscriptionRules(change);
      }
      code := if ok then HTTP_OK else Max(commonCode, HTTP_CONFLICT);
    }

    // ---------- mutations ----------

    method FillOptionalAttribute(attr: Option<string>, legacy: Option<string>) returns (filled: Option<string>)
      ensures filled == Fill(attr, legacy)
    {
      filled := attr;
      if attr.None? && legacy.Some? {
        filled := Some(legacy.value);
      }
    }

    method FillOptionalAuthSubscriptionStaticAttributes(draft: Draft, legacy: Legacy)
      modifies draft
      ensures draft.change == old(draft.change).(authSubscription := old(draft.change.authSubscription).(
        staticData := FillData(old(draft.change.authSubscription.staticData), Some(legacy))))
    {
      if draft.change.authSubscription.staticData.Some? {
        var d := draft.change.authSubscription.staticData.value;
        var v := FillOptionalAttribute(d.encPermanentKey, legacy.eki);
        d := d.(encPermanentKey := v);
        v := FillOptionalAttribute(d.a4KeyInd, IntText(legacy.kind));
        d := d.(a4KeyInd := v);
        v := FillOptionalAttribute(d.a4Ind, IntText(legacy.a4Ind));
        d := d.(a4Ind := v);
        v := FillOptionalAttribute(d.algorithmId, IntText(legacy.fSetInd));
        d := d.(algorithmId := v);
        if legacy.amfValue.Some? {
          var hexStr := UnsignedToHexString(ToUnsigned(legacy.amfValue.value), 4);
          v := FillOptionalAttribute(d.authenticationManagementField, Some(hexStr));
          d := d.(authenticationManagementField := v);
        }
        v := FillOptionalAttribute(d.encOpcKey, legacy.eopc);
        d := d.(encOpcKey := v);
        v := FillOptionalAttribute(d.a4KeyV, IntText(legacy.vNumber));
        d := d.(a4KeyV := v);
        v := FillOptionalAttribute(d.akaAlgorithmInd, IntText(legacy.akaAlgInd));
        d := d.(akaAlgorithmInd := v);
        draft.SetStaticData(Some(d));
      }
    }

    method MutateCreation(draft: Draft)
      requires Readable(relatedResources)
      modifies draft
      ensures draft.change == old(draft.change).(authSubscription :=
        MutateCreate(FindLegacy(relatedResources, old(draft.change.resourcePath)),
                     old(draft.change.authSubscription)))
    {
      var legacyPath := LegacyPath(draft.change.resourcePath);
      LookupsSucceed(relatedResources, draft.change.resourcePath);
      if legacyPath in relatedResources {
        var legacy := relatedResources[legacyPath].legacy;
        if legacy.seqHe.None? || legacy.seqHe.value == SEQHE_INVALID_VALUE {
          draft.SetDynamicData(Some(DynamicData(Some(SQN_SCHEME_TIME_BASED), None, None)));
        } else {
          var sqn := ComputeSqnFromSeqHe(legacy.seqHe.value);
          draft.SetDynamicData(Some(DynamicData(Some(SQN_SCHEME_NON_TIME_BASED), Some(sqn), None)));
        }
        FillOptionalAuthSubscriptionStaticAttributes(draft, legacy);
      } else {
        draft.SetDynamicData(Some(DynamicData(Some(SQN_SCHEME_NON_TIME_BASED), Some(SQN_MUTATION_VALUE), None)));
      }
    }

    method ComputeMutations(draft: Draft)
      requires Readable(relatedResources)
      modifies draft
      ensures draft.change == Mutate(relatedResources, old(draft.change))
    {
      var path := draft.change.resourcePath;
      if IsStaticDataUri(path) {
        if draft.change.operation == CREATE {
          MutateCreation(draft);
        } else if draft.change.operation == UPDATE {
          LookupsSucceed(relatedResources, path);
          if path in relatedResources {
            var stored := relatedResources[path].subscription;
            if stored.dynamicData.None? {
              draft.SetDynamicData(None);
            }
          }
        }
      }
    }

    // ---------- the batch ----------

    method ApplyToImsiData(c: Change, ret: bool, code: int) returns (ret': bool, code': int)
      requires Readable(relatedResources) && (LacksData(relatedResources, c) ==> HasErrors())
      requires Classify(c.resourcePath) == ImsiData
      modifies this`accepted, this`errors
      ensures Outcome(ret', code', accepted, errors)
           == Step(relatedResources, Outcome(ret, code, old(accepted), old(errors)), c)
    {
      var ok, respCode := true, HTTP_OK;
      if c.operation == CREATE {
        ok, respCode := CheckForCreationAuthSubscription(c);
      } else if c.operation == UPDATE {
        ok, respCode := CheckForUpdateAuthSubscription(c);
      }
      ret' := ret && ok;
      code' := Max(code, respCode);
      if ret' {
        var responseChange := new Draft(c);
        ComputeMutations(responseChange);
        accepted := accepted + [responseChange.change];
      }
    }

    /** The branches for a path that matches no pattern. */
    method ApplyToOtherPath(c: Change, ret: bool, code: int) returns (ret': bool, code': int)
      requires Classify(c.resourcePath) == DynamicPath || Classify(c.resourcePath) == Unknown
      modifies this`accepted, this`errors
      ensures Outcome(ret', code', accepted, errors)
           == Step(relatedResources, Outcome(ret, code, old(accepted), old(errors)), c)
    {
      if EndsWith(c.resourcePath, DYNAMIC_DATA) {
        AddError(ConstraintViolation, c.resourcePath, DYNAMIC_DATA);
        return false, Max(code, HTTP_CONFLICT);
      } else if c.operation != DELETE {
        AddError(UnprocessableEntity, c.resourcePath, RESOURCE_PATH);
        return false, HTTP_UNPROCESSABLE_ENTITY;
      } else {
        accepted := accepted + [c];
        return true, HTTP_OK;
      }
    }

    /** The branch for a path with a wrong identifier. */
    method ApplyToBadImsi(c: Change, ret: bool, code: int) returns (ret': bool, code': int)
      requires Classify(c.resourcePath) == BadImsi
      modifies this`accepted, this`errors
      ensures Outcome(ret', code', accepted, errors)
           == Step(relatedResources, Outcome(ret, code, old(accepted), old(errors)), c)
    {
      AddError(ConstraintViolation, c.resourcePath, IMSI);
      return false, Max(code, HTTP_CONFLICT);
    }

    /** The body of the loop. */
    method ApplyToChange(c: Change, ret: bool, code: int) returns (ret': bool, code': int)
      requires Readable(relatedResources) && (LacksData(relatedResources, c) ==> HasErrors())
      modifies this`accepted, this`errors
      ensures Outcome(ret', code', accepted, errors)
           == Step(relatedResources, Outcome(ret, code, old(accepted), old(errors)), c)
    {
      if IsAuthSubscriptionUri(c.resourcePath) {
        if c.operation == DELETE {
          accepted := accepted + [c];
        }
        return ret, code;
      } else if IsStaticDataUri(c.resourcePath) || IsPrivIdUri(c.resourcePath) {
        if IsImsiUri(c.resourcePath) {
          ret', code' := ApplyToImsiData(c, ret, code);
        } else {
          ret', code' := ApplyToBadImsi(c, ret, code);
        }
      } else {
        ret', code' := ApplyToOtherPath(c, ret, code);
      }
    }

    method ApplyValidationRules() returns (ret: bool, code: int)
      requires Ready()
      modifies this`accepted, this`errors
      ensures Outcome(ret, code, accepted, errors)
           == Run(relatedResources, Outcome(true, HTTP_OK, old(accepted), old(errors)), changes)
    {
      ret, code := true, HTTP_OK;
      var i := 0;
      while i < |changes|
        invariant i <= |changes|
        invariant NeverThrows(relatedResources, Outcome(ret, code, accepted, errors), changes[i..])
        invariant Run(relatedResources, Outcome(ret, code, accepted, errors), changes[i..])
               == Run(relatedResources, Outcome(true, HTTP_OK, old(accepted), old(errors)), changes)
      {
        assert changes[i..][0] == changes[i] && changes[i..][1..] == changes[i + 1..];
        ret, code := ApplyToChange(changes[i], ret, code);
        i := i + 1;
      }
    }
  }
}
