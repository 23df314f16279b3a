/** The JSON parser of `ValidatorRapidJsonParser.cpp` over JSON trees: first what a document means,
    then the class that walks it. */
module Parser {
  import opened Wrappers
  import opened Numerals
  import opened Paths
  import opened Octets
  import opened Entities
  import opened Rules
  import opened Members
  import opened Lists
  import opened Engine

  const VENDOR_SPECIFIC := "vendorSpecific-"

  /** ^vendorSpecific-(.*?) */
  predicate IsVendorSpecific(name: string) {
    StartsWith(name, VENDOR_SPECIFIC)
  }

  // ---------- static data ----------

  /** An optional text member: present and a string, or nothing. */
  function Text(members: seq<Member>, name: string): Option<string> {
    var v := Field(members, name);
    if v.Some? && v.value.Str? then Some(v.value.s) else None
  }

  function TextErrors(members: seq<Member>, name: string, path: string): seq<Error> {
    var v := Field(members, name);
    if v.Some? && !v.value.Str? then [Violation(path, name)] else []
  }

  /** Vendor-specific members by name; of two with one name the first counts. */
  function VendorOf(members: seq<Member>): map<string, Json> {
    if members == [] then map[]
    else
      var before := VendorOf(members[..|members| - 1]);
      var m := members[|members| - 1];
      if IsVendorSpecific(m.name) && m.name !in before then before[m.name := m.value] else before
  }

  function StaticOf(members: seq<Member>): StaticData {
    var name := Text(members, AUTHENTICATION_METHOD);
    StaticData(
      if name.Some? then name.value else "",
      Text(members, ENC_PERMANENT_KEY), Text(members, AUTHENTICATION_MANAGEMENT_FIELD),
      Text(members, ALGORITHM_ID), Text(members, A4_KEY_IND), Text(members, A4_IND),
      Text(members, ENC_OPC_KEY), Text(members, ENC_TOPC_KEY), Text(members, A4_KEY_V),
      Text(members, AKA_ALGORITHM_IND), VendorOf(members))
  }

  function MethodParseErrors(members: seq<Member>, path: string): seq<Error> {
    if Text(members, AUTHENTICATION_METHOD).Some? then [] else [Violation(path, AUTHENTICATION_METHOD)]
  }

  function AkaParseErrors(members: seq<Member>, path: string): seq<Error> {
    MethodParseErrors(members, path)
    + TextErrors(members, ENC_PERMANENT_KEY, path)
    + TextErrors(members, AUTHENTICATION_MANAGEMENT_FIELD, path)
    + TextErrors(members, ALGORITHM_ID, path)
    + TextErrors(members, A4_KEY_IND, path)
    + TextErrors(members, A4_IND, path)
  }

  function FurtherParseErrors(members: seq<Member>, path: string): seq<Error> {
    TextErrors(members, ENC_OPC_KEY, path)
    + TextErrors(members, ENC_TOPC_KEY, path)
    + TextErrors(members, A4_KEY_V, path)
    + TextErrors(members, AKA_ALGORITHM_IND, path)
  }

  function StaticParseErrors(members: seq<Member>, path: string): seq<Error> {
    AkaParseErrors(members, path) + FurtherParseErrors(members, path)
  }

  // ---------- dynamic data and whole subscriptions ----------

  const SQN_SCHEME := "sqnScheme"
  const SQN := "sqn"
  const LAST_INDEXES_LIST := "lastIndexes"

  function IndexesOf(members: seq<Member>): map<string, Int32> {
    if members == [] then map[]
    else
      var before := IndexesOf(members[..|members| - 1]);
      var m := members[|members| - 1];
      if m.value.Int? && m.name !in before then before[m.name := m.value.n] else before
  }

  function IndexErrors(members: seq<Member>, path: string): seq<Error> {
    if members == [] then []
    else
      IndexErrors(members[..|members| - 1], path)
      + if members[|members| - 1].value.Int? then [] else [Violation(path, LAST_INDEXES_LIST)]
  }

  function DynamicOf(members: seq<Member>): DynamicData {
    var list := Field(members, LAST_INDEXES_LIST);
    DynamicData(Text(members, SQN_SCHEME), Text(members, SQN),
                if list.Some? && list.value.Obj? then Some(IndexesOf(list.value.members)) else None)
  }

  function LastIndexesErrors(members: seq<Member>, path: string): seq<Error> {
    var list := Field(members, LAST_INDEXES_LIST);
    if list.None? then []
    else if list.value.Obj? then IndexErrors(list.value.members, path)
    else [Violation(path, LAST_INDEXES_LIST)]
  }

  function DynamicParseErrors(members: seq<Member>, path: string): seq<Error> {
    TextErrors(members, SQN_SCHEME, path) + TextErrors(members, SQN, path) + LastIndexesErrors(members, path)
  }

  predicate HasStaticObject(members: seq<Member>) {
    var s := Field(members, AUTH_SUBSCRIPTION_STATIC_DATA);
    s.Some? && s.value.Obj?
  }

  predicate HasDynamicObject(members: seq<Member>) {
    var d := Field(members, DYNAMIC_DATA);
    d.Some? && d.value.Obj?
  }

  /** `getAuthSubscription` updates the subscription it is given. */
  function SubscriptionOf(members: seq<Member>, given: AuthSubscription): AuthSubscription {
    if !HasStaticObject(members) then given
    else
      AuthSubscription(
        Some(StaticOf(Field(members, AUTH_SUBSCRIPTION_STATIC_DATA).value.members)),
        if HasDynamicObject(members)
        then Some(DynamicOf(Field(members, DYNAMIC_DATA).value.members))
        else given.dynamicData)
  }

  function DynamicPartErrors(members: seq<Member>, path: string): seq<Error> {
    var d := Field(members, DYNAMIC_DATA);
    if d.None? then []
    else if d.value.Obj? then DynamicParseErrors(d.value.members, path)
    else [Violation(path, DYNAMIC_DATA)]
  }

  function SubscriptionErrors(members: seq<Member>, path: string): seq<Error> {
    if !HasStaticObject(members) then [Violation(path, AUTH_SUBSCRIPTION_STATIC_DATA)]
    else
      StaticParseErrors(Field(members, AUTH_SUBSCRIPTION_STATIC_DATA).value.members, path)
      + DynamicPartErrors(members, path)
  }

  // ---------- changes ----------

  const OPERATION := "operation"
  const DATA := "data"
  const CHANGES := "changes"
  const RELATED_RESOURCES := "relatedResources"

  /** A change while its members are read, with the errors recorded on the way; or a malformed one. */
  datatype ChangeState = Reading(change: Change, errors: seq<Error>) | MalformedChange(errors: seq<Error>)

  const NEW_CHANGE := Change("", "", AuthSubscription(None, None))

  /** Data is read by the resource path known so far. */
  function ReadData(c: Change, members: seq<Member>): AuthSubscription {
    if IsAuthSubscriptionUri(c.resourcePath) then SubscriptionOf(members, c.authSubscription)
    else if IsStaticDataUri(c.resourcePath) then c.authSubscription.(staticData := Some(StaticOf(members)))
    else c.authSubscription
  }

  function DataErrors(c: Change, members: seq<Member>): seq<Error> {
    if IsAuthSubscriptionUri(c.resourcePath) then SubscriptionErrors(members, c.resourcePath)
    else if IsStaticDataUri(c.resourcePath) then StaticParseErrors(members, c.resourcePath)
    else []
  }

  function ReadMember(c: Change, errors: seq<Error>, m: Member): ChangeState {
    if m.name == OPERATION then
      if m.value.Str? && IsOperation(m.value.s) then Reading(c.(operation := m.value.s), errors)
      else MalformedChange(errors)
    else if m.name == RESOURCE_PATH then
      if m.value.Str? && m.value.s != "" then Reading(c.(resourcePath := m.value.s), errors)
      else MalformedChange(errors)
    else if m.name == DATA then
      if m.value.Obj? then
        Reading(c.(authSubscription := ReadData(c, m.value.members)), errors + DataErrors(c, m.value.members))
      else MalformedChange(errors)
    else Reading(c, errors)
  }

  function ReadMembers(c: Change, errors: seq<Error>, members: seq<Member>): ChangeState
    decreases |members|
  {
    if members == [] then Reading(c, errors)
    else
      var s := ReadMember(c, errors, members[0]);
      if s.MalformedChange? then s else ReadMembers(s.change, s.errors, members[1..])
  }

  /** The changes list so far; `ok` is false from the first malformed element on. */
  datatype ChangesState = ChangesState(ok: bool, changes: seq<Change>, errors: seq<Error>)

  function ReadItem(s: ChangesState, j: Json): ChangesState {
    if !j.Obj? then s.(ok := false)
    else
      var c := ReadMembers(NEW_CHANGE, s.errors, j.members);
      if c.MalformedChange? then ChangesState(false, s.changes, c.errors)
      else ChangesState(true, s.changes + [c.change], c.errors)
  }

  function ReadItems(s: ChangesState, items: seq<Json>): ChangesState
    decreases |items|
  {
    if items == [] || !s.ok then s else ReadItems(ReadItem(s, items[0]), items[1..])
  }

  function ReadChanges(members: seq<Member>, s: ChangesState): ChangesState {
    var list := Field(members, CHANGES);
    if list.None? then s
    else if !list.value.Arr? then s.(ok := false)
    else ReadItems(s, list.value.items)
  }

  // ---------- related resources ----------

  type Decoder = string -> string

  /** `getString`; the decoder is the base64 library. */
  function StringOf(members: seq<Member>, name: string, reverseOrder: bool, encoded: bool, decode: Decoder): string {
    var v := Field(members, name);
    if v.None? || !v.value.Str? then ""
    else
      var s := if encoded then decode(v.value.s) else v.value.s;
      if reverseOrder then Sorted(s) else s
  }

  /** The plain member, or else the base64-encoded one; an empty text counts as absent. */
  function PlainOrEncoded(members: seq<Member>, name: string, reverseOrder: bool, decode: Decoder): Option<string> {
    var plain := StringOf(members, name, reverseOrder, false, decode);
    var s := if plain == "" then StringOf(members, name + ":", reverseOrder, true, decode) else plain;
    if s == "" then None else Some(s)
  }

  function IntOf(members: seq<Member>, name: string): Option<Int32> {
    var v := Field(members, name);
    if v.Some? && v.value.Int? then Some(v.value.n) else None
  }

  const F_SET_IND := "FSETIND"
  const EKI := "EKI"
  const KIND := "KIND"
  const A4_IND_LEGACY := "A4IND"
  const AMF_VALUE := "AMFVALUE"
  const EOPC := "EOPC"
  const SEQ_HE := "SEQHE"
  const VNUMBER := "VNUMBER"
  const AKA_ALG_IND := "AKAALGIND"
  const IMSI_MASK := "imsiMask"

  /** AKAALGIND is read when VNUMBER is an integer: the type test names the wrong member. */
  function AkaAlgIndOf(members: seq<Member>): Option<Int32> {
    if IntOf(members, VNUMBER).Some? then IntOf(members, AKA_ALG_IND) else None
  }

  function LegacyOf(members: seq<Member>, decode: Decoder): Legacy {
    Legacy(
      IntOf(members, F_SET_IND), PlainOrEncoded(members, EKI, false, decode), IntOf(members, KIND),
      IntOf(members, A4_IND_LEGACY), IntOf(members, AMF_VALUE), PlainOrEncoded(members, EOPC, false, decode),
      PlainOrEncoded(members, SEQ_HE, true, decode), IntOf(members, AKA_TYPE), IntOf(members, VNUMBER),
      AkaAlgIndOf(members))
  }

  datatype RelatedState = RelatedState(related: Related, errors: seq<Error>)

  /** `insert` keeps what is there. */
  function Insert(related: Related, key: string, r: Resource): Related {
    if key in related then related else related[key := r]
  }

  function ReadSubscription(s: RelatedState, key: string, members: seq<Member>): RelatedState {
    RelatedState(Insert(s.related, key, Subscription(SubscriptionOf(members, AuthSubscription(None, None)))),
                 s.errors + SubscriptionErrors(members, key))
  }

  function ReadChildren(s: RelatedState, path: string, children: seq<Member>): RelatedState
    decreases |children|
  {
    if children == [] then s
    else
      ReadChildren(ReadSubscription(s, AddSuffix(path, children[0].name), MembersOf(children[0].value)),
                   path, children[1..])
  }

  function ReadResource(s: RelatedState, m: Member, decode: Decoder): RelatedState {
    var members := MembersOf(m.value);
    if IsAuthSubscriptionUri(m.name) then
      if Field(members, AUTH_SUBSCRIPTION_STATIC_DATA).Some? then ReadSubscription(s, m.name, members)
      else ReadChildren(s, m.name, members)
    else if EndsWith(m.name, PROV_JOURNAL) then
      s.(related := Insert(s.related, m.name, Journal(StringOf(members, IMSI_MASK, false, false, decode))))
    else if IsLegacyUri(m.name) then
      s.(related := Insert(s.related, m.name, LegacySubscription(LegacyOf(members, decode))))
    else s
  }

  function ReadResources(s: RelatedState, resources: seq<Member>, decode: Decoder): RelatedState
    decreases |resources|
  {
    if resources == [] then s
    else ReadResources(ReadResource(s, resources[0], decode), resources[1..], decode)
  }

  function ReadRelated(members: seq<Member>, s: RelatedState, decode: Decoder): RelatedState {
    var list := Field(members, RELATED_RESOURCES);
    if list.None? then s else ReadResources(s, MembersOf(list.value), decode)
  }

  // ---------- what RapidJSON demands of the document ----------

  predicate LegacyReadable(members: seq<Member>) {
    Field(members, AKA_ALG_IND).Some? ==>
      && Field(members, VNUMBER).Some?
      && (Field(members, VNUMBER).value.Int? ==> Field(members, AKA_ALG_IND).value.Int?)
  }

  predicate ResourceReadable(m: Member) {
    m.value.Obj?
    && (IsAuthSubscriptionUri(m.name) ==>
          Field(m.value.members, AUTH_SUBSCRIPTION_STATIC_DATA).Some?
          || forall i | 0 <= i < |m.value.members| :: m.value.members[i].value.Obj?)
    && LegacyReadable(m.value.members)
  }

  /** Related resources are objects, and AKAALGIND comes with VNUMBER. */
  predicate Navigable(doc: Json) {
    && doc.Obj?
    && var list := Field(doc.members, RELATED_RESOURCES);
       list.Some? ==>
         (list.value.Obj? && forall i | 0 <= i < |list.value.members| :: ResourceReadable(list.value.members[i]))
  }

  // ---------- the class ----------

  class ValidatorRapidJsonParser {
    const doc: Json
    const decode: Decoder
    var parseError: bool

    /** `text` is what the JSON library makes of the request body: nothing if it is no JSON. */
    constructor (text: Option<Json>, decode: Decoder)
      ensures this.decode == decode && parseError == text.None?
      ensures text.Some? ==> doc == text.value
    {
      this.decode := decode;
      doc := if text.Some? then text.value else Null;
      parseError := text.None?;
    }

    method GetOptionalText(members: seq<Member>, name: string, data: ValidationData, path: string)
      returns (v: Option<string>)
      modifies data`errors
      ensures v == Text(members, name)
      ensures data.errors == old(data.errors) + TextErrors(members, name, path)
    {
      v := None;
      var f := Field(members, name);
      if f.Some? {
        if !f.value.Str? {
          data.AddError(ConstraintViolation, path, name);
        } else {
          v := Some(f.value.s);
        }
      }
    }

    method GetVendorSpecific(members: seq<Member>) returns (vendor: map<string, Json>)
      ensures vendor == VendorOf(members)
    {
      vendor := map[];
      var i := 0;
      while i < |members|
        invariant i <= |members| && vendor == VendorOf(members[..i])
      {
        assert members[..i + 1][..i] == members[..i];
        var m := members[i];
        if IsVendorSpecific(m.name) && m.name !in vendor {
          vendor := vendor[m.name := m.value];
        }
        i := i + 1;
      }
      assert members[..|members|] == members;
    }

    method GetMethod(members: seq<Member>, data: ValidationData, path: string) returns (v: string)
      modifies data`errors
      ensures v == StaticOf(members).authenticationMethod
      ensures data.errors == old(data.errors) + MethodParseErrors(members, path)
    {
      v := "";
      var f := Field(members, AUTHENTICATION_METHOD);
      if f.None? {
        data.AddError(ConstraintViolation, path, AUTHENTICATION_METHOD);
      } else {
        if !f.value.Str? {
          data.AddError(ConstraintViolation, path, AUTHENTICATION_METHOD);
        } else {
          v := f.value.s;
        }
      }
    }

    method GetAkaTexts(members: seq<Member>, data: ValidationData, path: string)
      returns (m: string, key: Option<string>, field: Option<string>, algorithm: Option<string>,
               keyInd: Option<string>, ind: Option<string>)
      modifies data`errors
      ensures m == StaticOf(members).authenticationMethod
      ensures key == Text(members, ENC_PERMANENT_KEY) && field == Text(members, AUTHENTICATION_MANAGEMENT_FIELD)
      ensures algorithm == Text(members, ALGORITHM_ID)
      ensures keyInd == Text(members, A4_KEY_IND) && ind == Text(members, A4_IND)
      ensures data.errors == old(data.errors) + AkaParseErrors(members, path)
    {
      ghost var before := data.errors;
      m := GetMethod(members, data, path);
      ghost var e := MethodParseErrors(members, path);
      key := GetOptionalText(members, ENC_PERMANENT_KEY, data, path);
      Regroup(before, e, TextErrors(members, ENC_PERMANENT_KEY, path));
      e := e + TextErrors(members, ENC_PERMANENT_KEY, path);
      field := GetOptionalText(members, AUTHENTICATION_MANAGEMENT_FIELD, data, path);
      Regroup(before, e, TextErrors(members, AUTHENTICATION_MANAGEMENT_FIELD, path));
      e := e + TextErrors(members, AUTHENTICATION_MANAGEMENT_FIELD, path);
      algorithm := GetOptionalText(members, ALGORITHM_ID, data, path);
      Regroup(before, e, TextErrors(members, ALGORITHM_ID, path));
      e := e + TextErrors(members, ALGORITHM_ID, path);
      keyInd := GetOptionalText(members, A4_KEY_IND, data, path);
      Regroup(before, e, TextErrors(members, A4_KEY_IND, path));
      e := e + TextErrors(members, A4_KEY_IND, path);
      ind := GetOptionalText(members, A4_IND, data, path);
      Regroup(before, e, TextErrors(members, A4_IND, path));
    }

    method GetFurtherTexts(members: seq<Member>, data: ValidationData, path: string)
      returns (opc: Option<string>, topc: Option<string>, keyV: Option<string>, aka: Option<string>)
      modifies data`errors
      ensures opc == Text(members, ENC_OPC_KEY) && topc == Text(members, ENC_TOPC_KEY)
      ensures keyV == Text(members, A4_KEY_V) && aka == Text(members, AKA_ALGORITHM_IND)
      ensures data.errors == old(data.errors) + FurtherParseErrors(members, path)
    {
      ghost var before := data.errors;
      opc := GetOptionalText(members, ENC_OPC_KEY, data, path);
      ghost var e := TextErrors(members, ENC_OPC_KEY, path);
      topc := GetOptionalText(members, ENC_TOPC_KEY, data, path);
      Regroup(before, e, TextErrors(members, ENC_TOPC_KEY, path));
      e := e + TextErrors(members, ENC_TOPC_KEY, path);
      keyV := GetOptionalText(members, A4_KEY_V, data, path);
      Regroup(before, e, TextErrors(members, A4_KEY_V, path));
      e := e + TextErrors(members, A4_KEY_V, path);
      aka := GetOptionalText(members, AKA_ALGORITHM_IND, data, path);
      Regroup(before, e, TextErrors(members, AKA_ALGORITHM_IND, path));
    }

    method GetAuthSubscriptionStaticData(members: seq<Member>, data: ValidationData, path: string)
      returns (d: StaticData)
      modifies data`errors
      ensures d == StaticOf(members)
      ensures data.errors == old(data.errors) + StaticParseErrors(members, path)
    {
      var vendor := GetVendorSpecific(members);
      var m, key, field, algorithm, keyInd, ind := GetAkaTexts(members, data, path);
      var opc, topc, keyV, aka := GetFurtherTexts(members, data, path);
      Regroup(old(data.errors), AkaParseErrors(members, path), FurtherParseErrors(members, path));
      d := StaticData(m, key, field, algorithm, keyInd, ind, opc, topc, keyV, aka, vendor);
    }

    method GetLastIndexes(members: seq<Member>, data: ValidationData, path: string) returns (list: map<string, Int32>)
      modifies data`errors
      ensures list == IndexesOf(members)
      ensures data.errors == old(data.errors) + IndexErrors(members, path)
    {
      list := map[];
      var i := 0;
      while i < |members|
        invariant i <= |members| && list == IndexesOf(members[..i])
        invariant data.errors == old(data.errors) + IndexErrors(members[..i], path)
      {
        assert members[..i + 1][..i] == members[..i];
        var m := members[i];
        if !m.value.Int? {
          data.AddError(ConstraintViolation, path, LAST_INDEXES_LIST);
        } else if m.name !in list {
          list := list[m.name := m.value.n];
        }
        i := i + 1;
      }
      assert members[..|members|] == members;
    }

    method GetAuthSubscriptionDynamicData(members: seq<Member>, data: ValidationData, path: string)
      returns (d: DynamicData)
      modifies data`errors
      ensures d == DynamicOf(members)
      ensures data.errors == old(data.errors) + DynamicParseErrors(members, path)
    {
      var scheme := GetOptionalText(members, SQN_SCHEME, data, path);
      var sqn := GetOptionalText(members, SQN, data, path);
      var list: Option<map<string, Int32>> := None;
      var f := Field(members, LAST_INDEXES_LIST);
      if f.Some? {
        if !f.value.Obj? {
          data.AddError(ConstraintViolation, path, LAST_INDEXES_LIST);
        } else {
          var indexes := GetLastIndexes(f.value.members, data, path);
          list := Some(indexes);
        }
      }
      d := DynamicData(scheme, sqn, list);
    }

    method GetDynamicPart(members: seq<Member>, given: Option<DynamicData>, data: ValidationData, path: string)
      returns (dynamicData: Option<DynamicData>)
      modifies data`errors
      ensures dynamicData == if HasDynamicObject(members)
        then Some(DynamicOf(Field(members, DYNAMIC_DATA).value.members)) else given
      ensures data.errors == old(data.errors) + DynamicPartErrors(members, path)
    {
      dynamicData := given;
      var d := Field(members, DYNAMIC_DATA);
      if d.Some? {
        if !d.value.Obj? {
          data.AddError(ConstraintViolation, path, DYNAMIC_DATA);
        } else {
          var read := GetAuthSubscriptionDynamicData(d.value.members, data, path);
          dynamicData := Some(read);
        }
      }
    }

    method GetBothParts(staticMembers: seq<Member>, members: seq<Member>, given: AuthSubscription,
                        data: ValidationData, path: string)
      returns (a: AuthSubscription)
      modifies data`errors
      ensures a.staticData == Some(StaticOf(staticMembers))
      ensures a.dynamicData == if HasDynamicObject(members)
        then Some(DynamicOf(Field(members, DYNAMIC_DATA).value.members)) else given.dynamicData
      ensures data.errors == old(data.errors)
                             + (StaticParseErrors(staticMembers, path) + DynamicPartErrors(members, path))
    {
      var staticData := GetAuthSubscriptionStaticData(staticMembers, data, path);
      var dynamicData := GetDynamicPart(members, given.dynamicData, data, path);
      Regroup(old(data.errors), StaticParseErrors(staticMembers, path), DynamicPartErrors(members, path));
      a := AuthSubscription(Some(staticData), dynamicData);
    }

    method GetAuthSubscription(members: seq<Member>, given: AuthSubscription, data: ValidationData, path: string)
      returns (a: AuthSubscription)
      modifies data`errors
      ensures a == SubscriptionOf(members, given)
      ensures data.errors == old(data.errors) + SubscriptionErrors(members, path)
    {
      a := given;
      var s := Field(members, AUTH_SUBSCRIPTION_STATIC_DATA);
      if s.None? {
        data.AddError(ConstraintViolation, path, AUTH_SUBSCRIPTION_STATIC_DATA);
        return;
      }
      if !s.value.Obj? {
        data.AddError(ConstraintViolation, path, AUTH_SUBSCRIPTION_STATIC_DATA);
        return;
      }
      a := GetBothParts(s.value.members, members, given, data, path);
    }

    // ---------- changes ----------

    method SetParsingError()
      modifies this`parseError
      ensures parseError
    {
      parseError := true;
    }

    method GetMember(m: Member, c: Change, data: ValidationData) returns (ok: bool, c': Change)
      modifies this`parseError, data`errors
      ensures var s := ReadMember(c, old(data.errors), m);
        ok == s.Reading? && data.errors == s.errors && (ok ==> c' == s.change && parseError == old(parseError))
      ensures !ok ==> parseError
    {
      ok, c' := true, c;
      if m.name == OPERATION {
        if !m.value.Str? || !IsOperation(m.value.s) {
          SetParsingError();
          return false, c;
        }
        c' := c.(operation := m.value.s);
      } else if m.name == RESOURCE_PATH {
        if !m.value.Str? || m.value.s == "" {
          SetParsingError();
          return false, c;
        }
        c' := c.(resourcePath := m.value.s);
      } else if m.name == DATA {
        if !m.value.Obj? {
          SetParsingError();
          return false, c;
        }
        if IsAuthSubscriptionUri(c.resourcePath) {
          var a := GetAuthSubscription(m.value.members, c.authSubscription, data, c.resourcePath);
          c' := c.(authSubscription := a);
        } else if IsStaticDataUri(c.resourcePath) {
          var d := GetAuthSubscriptionStaticData(m.value.members, data, c.resourcePath);
          c' := c.(authSubscription := c.authSubscription.(staticData := Some(d)));
        }
      }
    }

    method GetChange(members: seq<Member>, data: ValidationData) returns (ok: bool, c: Change)
      modifies this`parseError, data`errors
      ensures var s := ReadMembers(NEW_CHANGE, old(data.errors), members);
        ok == s.Reading? && data.errors == s.errors && (ok ==> c == s.change && parseError == old(parseError))
      ensures !ok ==> parseError
    {
      ok, c := true, NEW_CHANGE;
      var i := 0;
      while i < |members|
        invariant i <= |members| && ok && parseError == old(parseError)
        invariant ReadMembers(c, data.errors, members[i..]) == ReadMembers(NEW_CHANGE, old(data.errors), members)
      {
        assert members[i..][0] == members[i] && members[i..][1..] == members[i + 1..];
        ok, c := GetMember(members[i], c, data);
        if !ok {
          return;
        }
        i := i + 1;
      }
    }

    method GetChangesToValidate(data: ValidationData) returns (ok: bool)
      requires doc.Obj?
      modifies this`parseError, data`changes, data`errors
      ensures ChangesState(ok, data.changes, data.errors)
           == ReadChanges(doc.members, ChangesState(true, old(data.changes), old(data.errors)))
      ensures parseError == (old(parseError) || !ok)
    {
      ok := true;
      var list := Field(doc.members, CHANGES);
      if list.Some? {
        if !list.value.Arr? {
          SetParsingError();
          return false;
        }
        var items := list.value.items;
        var i := 0;
        while i < |items|
          invariant i <= |items| && ok && parseError == old(parseError)
          invariant ReadItems(ChangesState(ok, data.changes, data.errors), items[i..])
                 == ReadItems(ChangesState(true, old(data.changes), old(data.errors)), items)
        {
          assert items[i..][0] == items[i] && items[i..][1..] == items[i + 1..];
          if !items[i].Obj? {
            SetParsingError();
            return false;
          }
          var c;
          ok, c := GetChange(items[i].members, data);
          if !ok {
            return;
          }
          data.changes := data.changes + [c];
          i := i + 1;
        }
      }
    }

    // ---------- related resources ----------

    method GetString(members: seq<Member>, name: string, reverseOrder: bool, encoded: bool) returns (s: string)
      ensures s == StringOf(members, name, reverseOrder, encoded, decode)
    {
      s := "";
      var f := Field(members, name);
      if f.Some? && f.value.Str? {
        s := f.value.s;
        if encoded {
          s := decode(s);
        }
        if reverseOrder {
          s := SortLDAPoctetString(s);
        }
      }
    }

    method GetPlainOrEncoded(members: seq<Member>, name: string, reverseOrder: bool) returns (v: Option<string>)
      ensures v == PlainOrEncoded(members, name, reverseOrder, decode)
    {
      v := None;
      var s := GetString(members, name, reverseOrder, false);
      if s == "" {
        s := GetString(members, name + ":", reverseOrder, true);
      }
      if s != "" {
        v := Some(s);
      }
    }

    method GetAuthSubscriptionLegacy(members: seq<Member>) returns (legacy: Legacy)
      requires LegacyReadable(members)
      ensures legacy == LegacyOf(members, decode)
    {
      var eki := GetPlainOrEncoded(members, EKI, false);
      var eopc := GetPlainOrEncoded(members, EOPC, false);
      var seqHe := GetPlainOrEncoded(members, SEQ_HE, true);
      var akaAlgInd: Option<Int32> := None;
      if Field(members, AKA_ALG_IND).Some? {
        if Field(members, VNUMBER).value.Int? {
          akaAlgInd := Some(Field(members, AKA_ALG_IND).value.n);
        }
      }
      legacy := Legacy(
        IntOf(members, F_SET_IND), eki, IntOf(members, KIND), IntOf(members, A4_IND_LEGACY),
        IntOf(members, AMF_VALUE), eopc, seqHe, IntOf(members, AKA_TYPE), IntOf(members, VNUMBER), akaAlgInd);
    }

    method AddSubscription(key: string, members: seq<Member>, data: ValidationData)
      modifies data`relatedResources, data`errors
      ensures RelatedState(data.relatedResources, data.errors)
           == ReadSubscription(RelatedState(old(data.relatedResources), old(data.errors)), key, members)
    {
      var a := GetAuthSubscription(members, AuthSubscription(None, None), data, key);
      data.relatedResources := Insert(data.relatedResources, key, Subscription(a));
    }

    method AddChildren(path: string, children: seq<Member>, data: ValidationData)
      requires forall i | 0 <= i < |children| :: children[i].value.Obj?
      modifies data`relatedResources, data`errors
      ensures RelatedState(data.relatedResources, data.errors)
           == ReadChildren(RelatedState(old(data.relatedResources), old(data.errors)), path, children)
    {
      var i := 0;
      while i < |children|
        invariant i <= |children|
        invariant ReadChildren(RelatedState(data.relatedResources, data.errors), path, children[i..])
               == ReadChildren(RelatedState(old(data.relatedResources), old(data.errors)), path, children)
      {
        assert children[i..][0] == children[i] && children[i..][1..] == children[i + 1..];
        AddSubscription(AddSuffix(path, children[i].name), children[i].value.members, data);
        i := i + 1;
      }
    }

    method AddResource(m: Member, data: ValidationData)
      requires ResourceReadable(m)
      modifies data`relatedResources, data`errors
      ensures RelatedState(data.relatedResources, data.errors)
           == ReadResource(RelatedState(old(data.relatedResources), old(data.errors)), m, decode)
    {
      var members := m.value.members;
      if IsAuthSubscriptionUri(m.name) {
        if Field(members, AUTH_SUBSCRIPTION_STATIC_DATA).Some? {
          AddSubscription(m.name, members, data);
        } else {
          AddChildren(m.name, members, data);
        }
      } else if EndsWith(m.name, PROV_JOURNAL) {
        var imsiMask := GetString(members, IMSI_MASK, false, false);
        data.relatedResources := Insert(data.relatedResources, m.name, Journal(imsiMask));
      } else if IsLegacyUri(m.name) {
        var legacy := GetAuthSubscriptionLegacy(members);
        data.relatedResources := Insert(data.relatedResources, m.name, LegacySubscription(legacy));
      }
    }

    method GetRelatedResources(data: ValidationData)
      requires Navigable(doc)
      modifies data`relatedResources, data`errors
      ensures RelatedState(data.relatedResources, data.errors)
           == ReadRelated(doc.members, RelatedState(old(data.relatedResources), old(data.errors)), decode)
    {
      var list := Field(doc.members, RELATED_RESOURCES);
      if list.Some? {
        var resources := list.value.members;
        var i := 0;
        while i < |resources|
          invariant i <= |resources|
          invariant ReadResources(RelatedState(data.relatedResources, data.errors), resources[i..], decode)
                 == ReadResources(RelatedState(old(data.relatedResources), old(data.errors)), resources, decode)
        {
          assert resources[i..][0] == resources[i] && resources[i..][1..] == resources[i + 1..];
          AddResource(resources[i], data);
          i := i + 1;
        }
      }
    }

    method GetValidationData(data: ValidationData) returns (ok: bool)
      requires !parseError ==> Navigable(doc)
      modifies this`parseError, data`changes, data`relatedResources, data`errors
      ensures old(parseError) ==> !ok
      ensures !old(parseError) ==>
        var c := ReadChanges(doc.members, ChangesState(true, old(data.changes), old(data.errors)));
        && ok == c.ok && data.changes == c.changes
        && RelatedState(data.relatedResources, data.errors)
           == (var before := RelatedState(old(data.relatedResources), c.errors);
               if ok then ReadRelated(doc.members, before, decode) else before)
    {
      if parseError {
        return false;
      }
      ok := GetChangesToValidate(data);
      if !ok {
        return;
      }
      GetRelatedResources(data);
    }
  }
}
