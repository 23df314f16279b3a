/** The JSON encoder of `ValidatorRapidJsonEncoder.cpp`: error lists, accepted changes expanded with
    their dynamic-data siblings, and the members of a subscription. */
module Encoder {
  import opened Wrappers
  import opened Numerals
  import opened Paths
  import opened Entities
  import opened Rules
  import opened Members
  import opened Lists
  import opened Parser

  const ERRORS := "errors"
  const ERROR_MESSAGE := "errorMessage"
  const ERROR_DETAILS := "errorDetails"
  const AUTH_SUBSCRIPTION_NAME := "authSubscription"

  // ---------- members of a subscription ----------

  /** `strToJson`: an empty text is not written. */
  function TextMember(v: Option<string>, name: string): seq<Member> {
    if v.Some? && v.value != "" then [Member(name, Str(v.value))] else []
  }

  ghost function VendorMembers(order: seq<string>, vendor: map<string, Json>): seq<Member>
    requires forall k | k in order :: k in vendor
  {
    if order == [] then []
    else VendorMembers(order[..|order| - 1], vendor) + [Member(order[|order| - 1], vendor[order[|order| - 1]])]
  }

  type NamedText = (string, Option<string>)

  /** The attributes in the order in which they are written; encTopcKey is not among them. */
  function WrittenTexts(d: StaticData): seq<NamedText> {
    FirstTexts(d) + NextTexts(d) + LastTexts(d)
  }

  function FirstTexts(d: StaticData): seq<NamedText> {
    [(AUTHENTICATION_METHOD, Some(d.authenticationMethod)), (ENC_PERMANENT_KEY, d.encPermanentKey),
     (AUTHENTICATION_MANAGEMENT_FIELD, d.authenticationManagementField)]
  }

  function NextTexts(d: StaticData): seq<NamedText> {
    [(ALGORITHM_ID, d.algorithmId), (A4_KEY_IND, d.a4KeyInd), (A4_IND, d.a4Ind)]
  }

  function LastTexts(d: StaticData): seq<NamedText> {
    [(ENC_OPC_KEY, d.encOpcKey), (A4_KEY_V, d.a4KeyV), (AKA_ALGORITHM_IND, d.akaAlgorithmInd)]
  }

  ghost function MemberOfText(t: NamedText): seq<Member> {
    TextMember(t.1, t.0)
  }

  ghost function TextMembers(texts: seq<NamedText>): seq<Member> {
    FlatMap(MemberOfText, texts)
  }

  /** Vendor-specific members in key order, then the attributes. */
  ghost function StaticMembers(d: StaticData): seq<Member> {
    VendorMembers(InOrder(d.vendorSpecific.Keys), d.vendorSpecific) + TextMembers(WrittenTexts(d))
  }

  ghost function IndexMembers(order: seq<string>, list: map<string, Int32>): seq<Member>
    requires forall k | k in order :: k in list
  {
    if order == [] then []
    else IndexMembers(order[..|order| - 1], list) + [Member(order[|order| - 1], Int(list[order[|order| - 1]]))]
  }

  ghost function LastIndexesJson(list: Option<map<string, Int32>>): Json {
    Obj(if list.Some? then IndexMembers(InOrder(list.value.Keys), list.value) else [])
  }

  ghost function DynamicMembers(d: DynamicData): seq<Member> {
    TextMember(d.sqnScheme, SQN_SCHEME) + TextMember(d.sqn, SQN)
    + [Member(LAST_INDEXES_LIST, LastIndexesJson(d.lastIndexesList))]
  }

  // ---------- the response ----------

  predicate MentionsSubscription(path: string) {
    exists k | 0 <= k <= |path| :: OccursAt(path, AUTH_SUBSCRIPTION_NAME, k)
  }

  ghost function StaticPart(c: Change): Json {
    Obj(if MentionsSubscription(c.resourcePath) && c.authSubscription.staticData.Some?
        then StaticMembers(c.authSubscription.staticData.value) else [])
  }

  ghost function DynamicPart(c: Change): Json {
    Obj(if MentionsSubscription(c.resourcePath) && c.authSubscription.dynamicData.Some?
        then DynamicMembers(c.authSubscription.dynamicData.value) else [])
  }

  ghost function ChangeJson(c: Change): Json {
    Obj([Member(OPERATION, Str(c.operation)), Member(RESOURCE_PATH, Str(c.resourcePath))]
        + if c.operation != DELETE then [Member(DATA, StaticPart(c))] else [])
  }

  ghost function SiblingJson(c: Change): Json {
    Obj([Member(OPERATION, Str(c.operation)),
         Member(RESOURCE_PATH, Str(SiblingPath(c.resourcePath, DYNAMIC_DATA))),
         Member(DATA, DynamicPart(c))])
  }

  ghost function ExpandOne(c: Change): seq<Json> {
    if c.operation == CREATE then [ChangeJson(c), SiblingJson(c)] else [ChangeJson(c)]
  }

  ghost function Expand(changes: seq<Change>): seq<Json> {
    FlatMap(ExpandOne, changes)
  }

  function MessageText(m: Message): string {
    if m == ConstraintViolation then "Constraint Violation" else "Unprocessable entity"
  }

  /** The details are a map: "description" comes before "resource_path". */
  function ErrorJson(e: Error): Json {
    Obj([Member(ERROR_MESSAGE, Str(MessageText(e.message))),
         Member(ERROR_DETAILS, Obj([Member("description", Str(e.about)), Member(RESOURCE_PATH, Str(e.resourcePath))]))])
  }

  function ErrorsJson(errors: seq<Error>): (js: seq<Json>)
    ensures |js| == |errors| && forall i | 0 <= i < |errors| :: js[i] == ErrorJson(errors[i])
  {
    seq(|errors|, i requires 0 <= i < |errors| => ErrorJson(errors[i]))
  }

  ghost function ResponseJson(errors: seq<Error>, accepted: seq<Change>): Json {
    if errors != [] then Obj([Member(ERRORS, Arr(ErrorsJson(errors)))])
    else if accepted != [] then Obj([Member(CHANGES, Arr(Expand(accepted)))])
    else Obj([])
  }

  // ---------- the code ----------

  /** A JSON object under construction. */
  class ObjectValue {
    var members: seq<Member>

    constructor ()
      ensures members == []
    {
      members := [];
    }

    method AddMember(name: string, value: Json)
      modifies this
      ensures members == old(members) + [Member(name, value)]
    {
      members := members + [Member(name, value)];
    }
  }

  method StrToJson(data: ObjectValue, v: string, name: string)
    modifies data
    ensures data.members == old(data.members) + TextMember(Some(v), name)
  {
    if v != "" {
      data.AddMember(name, Str(v));
    }
  }

  method OptionalToJson(data: ObjectValue, v: Option<string>, name: string)
    modifies data
    ensures data.members == old(data.members) + TextMember(v, name)
  {
    if v.Some? {
      StrToJson(data, v.value, name);
    }
  }

  /** The next key a walk over a `std::map` visits. */
  method LeastKey(keys: set<string>) returns (k: string)
    requires keys != {}
    ensures k == Least(keys)
  {
    LeastExists(keys);
    k :| k in keys && forall j | j in keys :: AtMost(k, j);
    LeastUnique(k, Least(keys), keys);
  }

  lemma VisitNext(done: seq<string>, left: set<string>, k: string, all: seq<string>)
    requires left != {} && k == Least(left) && done + InOrder(left) == all
    ensures (done + [k]) + InOrder(left - {k}) == all
  {
    assert InOrder(left) == [k] + InOrder(left - {k});
    Regroup(done, [k], InOrder(left - {k}));
  }

  lemma VendorNext(done: seq<string>, vendor: map<string, Json>, k: string)
    requires (forall j | j in done :: j in vendor) && k in vendor
    ensures VendorMembers(done + [k], vendor) == VendorMembers(done, vendor) + [Member(k, vendor[k])]
  {
    assert (done + [k])[..|done|] == done;
  }

  lemma IndexNext(done: seq<string>, list: map<string, Int32>, k: string)
    requires (forall j | j in done :: j in list) && k in list
    ensures IndexMembers(done + [k], list) == IndexMembers(done, list) + [Member(k, Int(list[k]))]
  {
    assert (done + [k])[..|done|] == done;
  }

  method VendorSpecificToJson(data: ObjectValue, vendor: map<string, Json>)
    modifies data
    ensures data.members == old(data.members) + VendorMembers(InOrder(vendor.Keys), vendor)
  {
    var left := vendor.Keys;
    ghost var done: seq<string> := [];
    while left != {}
      invariant left <= vendor.Keys && done + InOrder(left) == InOrder(vendor.Keys)
      invariant forall k | k in done :: k in vendor
      invariant data.members == old(data.members) + VendorMembers(done, vendor)
      decreases |left|
    {
      var k := LeastKey(left);
      VisitNext(done, left, k, InOrder(vendor.Keys));
      VendorNext(done, vendor, k);
      Regroup(old(data.members), VendorMembers(done, vendor), [Member(k, vendor[k])]);
      data.AddMember(k, vendor[k]);
      left, done := left - {k}, done + [k];
    }
    assert done + [] == done;
  }

  /** Three attributes, one after the other. */
  method ThreeTextsToJson(data: ObjectValue, t: seq<NamedText>)
    requires |t| == 3
    modifies data
    ensures data.members == old(data.members) + TextMembers(t)
  {
    ghost var before := data.members;
    OptionalToJson(data, t[0].1, t[0].0);
    OptionalToJson(data, t[1].1, t[1].0);
    OptionalToJson(data, t[2].1, t[2].0);
    FlatMapThree(MemberOfText, t);
    Regroup(before, MemberOfText(t[0]), MemberOfText(t[1]));
    Regroup(before, MemberOfText(t[0]) + MemberOfText(t[1]), MemberOfText(t[2]));
  }

  method AttributesToJson(data: ObjectValue, d: StaticData)
    modifies data
    ensures data.members == old(data.members) + TextMembers(WrittenTexts(d))
  {
    ghost var before := data.members;
    ThreeTextsToJson(data, FirstTexts(d));
    ThreeTextsToJson(data, NextTexts(d));
    ThreeTextsToJson(data, LastTexts(d));
    FlatMapConcat(MemberOfText, FirstTexts(d), NextTexts(d));
    FlatMapConcat(MemberOfText, FirstTexts(d) + NextTexts(d), LastTexts(d));
    Regroup(before, TextMembers(FirstTexts(d)), TextMembers(NextTexts(d)));
    Regroup(before, TextMembers(FirstTexts(d)) + TextMembers(NextTexts(d)), TextMembers(LastTexts(d)));
  }

  method AuthSubscriptionStaticDataToJson(data: ObjectValue, a: AuthSubscription)
    modifies data
    ensures data.members
         == old(data.members) + if a.staticData.Some? then StaticMembers(a.staticData.value) else []
  {
    if a.staticData.Some? {
      var d := a.staticData.value;
      VendorSpecificToJson(data, d.vendorSpecific);
      AttributesToJson(data, d);
      Regroup(old(data.members), VendorMembers(InOrder(d.vendorSpecific.Keys), d.vendorSpecific),
              TextMembers(WrittenTexts(d)));
    }
  }

  method LastIndexesToJson(list: map<string, Int32>) returns (j: Json)
    ensures j == LastIndexesJson(Some(list))
  {
    var indexes := new ObjectValue();
    var left := list.Keys;
    ghost var done: seq<string> := [];
    while left != {}
      invariant left <= list.Keys && done + InOrder(left) == InOrder(list.Keys)
      invariant forall k | k in done :: k in list
      invariant indexes.members == IndexMembers(done, list)
      decreases |left|
    {
      var k := LeastKey(left);
      VisitNext(done, left, k, InOrder(list.Keys));
      IndexNext(done, list, k);
      indexes.AddMember(k, Int(list[k]));
      left, done := left - {k}, done + [k];
    }
    assert done + [] == done;
    j := Obj(indexes.members);
  }

  method AuthSubscriptionDynamicDataToJson(data: ObjectValue, a: AuthSubscription)
    modifies data
    ensures data.members
         == old(data.members) + if a.dynamicData.Some? then DynamicMembers(a.dynamicData.value) else []
  {
    if a.dynamicData.Some? {
      var d := a.dynamicData.value;
      OptionalToJson(data, d.sqnScheme, SQN_SCHEME);
      OptionalToJson(data, d.sqn, SQN);
      var lastIndexesList := Obj([]);
      if d.lastIndexesList.Some? {
        lastIndexesList := LastIndexesToJson(d.lastIndexesList.value);
      }
      data.AddMember(LAST_INDEXES_LIST, lastIndexesList);
    }
  }

  method StaticPartToJson(c: Change) returns (j: Json)
    ensures j == StaticPart(c)
  {
    var data := new ObjectValue();
    if MentionsSubscription(c.resourcePath) {
      AuthSubscriptionStaticDataToJson(data, c.authSubscription);
    }
    j := Obj(data.members);
  }

  method DynamicPartToJson(c: Change) returns (j: Json)
    ensures j == DynamicPart(c)
  {
    var data := new ObjectValue();
    if MentionsSubscription(c.resourcePath) {
      AuthSubscriptionDynamicDataToJson(data, c.authSubscription);
    }
    j := Obj(data.members);
  }

  method ChangeToJson(c: Change) returns (j: Json)
    ensures j == ChangeJson(c)
  {
    var change := new ObjectValue();
    change.AddMember(OPERATION, Str(c.operation));
    change.AddMember(RESOURCE_PATH, Str(c.resourcePath));
    assert change.members == [Member(OPERATION, Str(c.operation)), Member(RESOURCE_PATH, Str(c.resourcePath))];
    if c.operation != DELETE {
      var data := StaticPartToJson(c);
      change.AddMember(DATA, data);
    }
    j := Obj(change.members);
  }

  method SiblingToJson(c: Change) returns (j: Json)
    ensures j == SiblingJson(c)
  {
    var path := SiblingPath(c.resourcePath, DYNAMIC_DATA);
    var change := new ObjectValue();
    change.AddMember(OPERATION, Str(c.operation));
    change.AddMember(RESOURCE_PATH, Str(path));
    assert change.members == [Member(OPERATION, Str(c.operation)), Member(RESOURCE_PATH, Str(path))];
    var data := DynamicPartToJson(c);
    change.AddMember(DATA, data);
    j := Obj(change.members);
  }

  method ErrorsToJson(errors: seq<Error>) returns (list: seq<Json>)
    ensures list == ErrorsJson(errors)
  {
    list := [];
    var i := 0;
    while i < |errors|
      invariant i <= |errors| && list == ErrorsJson(errors[..i])
    {
      list := list + [ErrorJson(errors[i])];
      i := i + 1;
    }
    assert errors[..|errors|] == errors;
  }

  /** What one accepted change adds to the list. */
  method ExpandToJson(elem: Change) returns (emitted: seq<Json>)
    ensures emitted == ExpandOne(elem)
  {
    var change := ChangeToJson(elem);
    emitted := [change];
    if elem.operation == CREATE {
      var sibling := SiblingToJson(elem);
      emitted := emitted + [sibling];
    }
  }

  method ChangesToJson(accepted: seq<Change>) returns (changes: seq<Json>)
    ensures changes == Expand(accepted)
  {
    changes := [];
    var i := 0;
    while i < |accepted|
      invariant i <= |accepted| && changes == Expand(accepted[..i])
    {
      var emitted := ExpandToJson(accepted[i]);
      FlatMapNext(ExpandOne, accepted, i);
      changes := changes + emitted;
      i := i + 1;
    }
    assert accepted[..|accepted|] == accepted;
  }

  method ValidatorResponseToJson(errors: seq<Error>, accepted: seq<Change>) returns (j: Json)
    ensures j == ResponseJson(errors, accepted)
  {
    var document := new ObjectValue();
    if |errors| > 0 {
      var list := ErrorsToJson(errors);
      document.AddMember(ERRORS, Arr(list));
    } else if |accepted| > 0 {
      var changes := ChangesToJson(accepted);
      document.AddMember(CHANGES, Arr(changes));
    }
    j := Obj(document.members);
  }
}
