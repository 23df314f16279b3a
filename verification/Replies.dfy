/** What a reply says, by the names that stand in it: the sibling of a CREATE with its sequence number,
    the error list, and the replies that are made before any rule is consulted. */
module Replies {
  import opened Wrappers
  import opened Numerals
  import opened Paths
  import opened Sqn
  import opened Octets
  import opened Entities
  import opened Rules
  import opened Batch
  import opened Acceptance
  import opened Members
  import opened Parser
  import opened Encoder
  import opened RoundTrip
  import opened Resources
  import opened EndToEnd
  import opened Reading
  import opened Server

  // ---------- the members of an element ----------

  /** The member an attribute becomes: none if it is absent or empty. */
  function TextJson(v: Option<string>): Option<Json> {
    if v.Some? && v.value != "" then Some(Str(v.value)) else None
  }

  /** An element of the list of changes, with the members of its data. */
  predicate IsElement(j: Json, operation: string, path: string, data: seq<Member>) {
    && j.Obj?
    && Field(j.members, "operation") == Some(Str(operation))
    && Field(j.members, "resource_path") == Some(Str(path))
    && Field(j.members, "data") == Some(Obj(data))
  }

  lemma ThreeMembers(operation: string, path: string, data: seq<Member>)
    ensures IsElement(Obj([Member(OPERATION, Str(operation)), Member(RESOURCE_PATH, Str(path)),
                           Member(DATA, Obj(data))]), operation, path, data)
  {
    var m1, m2, m3 := Member(OPERATION, Str(operation)), Member(RESOURCE_PATH, Str(path)), Member(DATA, Obj(data));
    assert [m1, m2, m3] == [m1] + ([m2] + ([m3] + []));
    assert OPERATION[0] != RESOURCE_PATH[0] && DATA[0] != OPERATION[0] && DATA[0] != RESOURCE_PATH[0];
    FieldOfCons(m1, [m2] + ([m3] + []), OPERATION);
    FieldOfCons(m1, [m2] + ([m3] + []), RESOURCE_PATH);
    FieldOfCons(m1, [m2] + ([m3] + []), DATA);
    FieldOfCons(m2, [m3] + [], RESOURCE_PATH);
    FieldOfCons(m2, [m3] + [], DATA);
    FieldOfCons(m3, [], DATA);
  }

  /** The written members of static data, by name. */
  predicate WritesStatic(ms: seq<Member>, d: StaticData) {
    && Field(ms, "authenticationMethod") == TextJson(Some(d.authenticationMethod))
    && Field(ms, "encPermanentKey") == TextJson(d.encPermanentKey)
    && Field(ms, "authenticationManagementField") == TextJson(d.authenticationManagementField)
    && Field(ms, "algorithmId") == TextJson(d.algorithmId)
    && Field(ms, "a4KeyInd") == TextJson(d.a4KeyInd)
    && Field(ms, "a4Ind") == TextJson(d.a4Ind)
    && Field(ms, "encOpcKey") == TextJson(d.encOpcKey)
    && Field(ms, "a4KeyV") == TextJson(d.a4KeyV)
    && Field(ms, "akaAlgorithmInd") == TextJson(d.akaAlgorithmInd)
    && Field(ms, "encTopcKey") == None
  }

  lemma FieldOfRead(ms: seq<Member>, name: string, v: Option<string>, path: string)
    requires Text(ms, name) == Nonempty(v) && TextErrors(ms, name, path) == []
    ensures Field(ms, name) == TextJson(v)
  {
  }

  lemma WrittenStatic(d: StaticData, path: string)
    requires OnlyVendorKeys(d)
    ensures WritesStatic(StaticMembers(d), d)
  {
    forall i: nat | i < 9 ensures Field(StaticMembers(d), NAMES[i]) == TextJson(WrittenTexts(d)[i].1) {
      TextOfWritten(d, i, path);
      FieldOfRead(StaticMembers(d), NAMES[i], WrittenTexts(d)[i].1, path);
    }
    NineTexts(d);
    TopcKeyIsNotWritten(d, path);
    FieldOfRead(StaticMembers(d), ENC_TOPC_KEY, None, path);
  }

  lemma NineTexts(d: StaticData)
    ensures WrittenTexts(d) ==
      [(NAMES[0], Some(d.authenticationMethod)), (NAMES[1], d.encPermanentKey),
       (NAMES[2], d.authenticationManagementField), (NAMES[3], d.algorithmId), (NAMES[4], d.a4KeyInd),
       (NAMES[5], d.a4Ind), (NAMES[6], d.encOpcKey), (NAMES[7], d.a4KeyV), (NAMES[8], d.akaAlgorithmInd)]
  {
  }

  /** The written members of dynamic data, by name; the indexes are always an object. */
  ghost predicate WritesDynamic(ms: seq<Member>, d: DynamicData) {
    && Field(ms, "sqnScheme") == TextJson(d.sqnScheme)
    && Field(ms, "sqn") == TextJson(d.sqn)
    && Field(ms, "lastIndexes").Some? && Field(ms, "lastIndexes").value.Obj?
    && IndexesOf(Field(ms, "lastIndexes").value.members) == (if d.lastIndexesList.Some? then d.lastIndexesList.value
                                                              else map[])
    && DynamicOf(ms) == ErasedDynamic(d)
    && forall path :: DynamicParseErrors(ms, path) == []
  }

  lemma WrittenDynamic(d: DynamicData)
    ensures WritesDynamic(DynamicMembers(d), d)
  {
    DynamicField(d, SQN_SCHEME);
    DynamicField(d, SQN);
    DynamicField(d, LAST_INDEXES_LIST);
    DynamicNamesDiffer();
    IndexesJsonReadBack(d.lastIndexesList, "");
    forall path ensures DynamicParseErrors(DynamicMembers(d), path) == [] { DynamicDataRoundTrip(d, path); }
    DynamicDataRoundTrip(d, "");
  }

  // ---------- a CREATE in the response ----------

  predicate IsStaticElement(j: Json, x: Change, ms: seq<Member>) {
    && x.authSubscription.staticData.Some?
    && IsElement(j, "CREATE", x.resourcePath, ms) && WritesStatic(ms, x.authSubscription.staticData.value)
  }

  ghost predicate IsDynamicElement(j: Json, x: Change, ms: seq<Member>) {
    && x.authSubscription.dynamicData.Some?
    && IsElement(j, "CREATE", BasePath(x.resourcePath) + "/authSubscriptionDynamicData", ms)
    && WritesDynamic(ms, x.authSubscription.dynamicData.value)
  }

  /** The two elements of a CREATE of static data: itself with its static data, and right behind it the
      dynamic data under the sibling path. */
  ghost predicate IsPair(first: Json, second: Json, x: Change) {
    (exists ms :: IsStaticElement(first, x, ms)) && (exists ms :: IsDynamicElement(second, x, ms))
  }

  lemma FirstOfPair(x: Change)
    requires x.operation == "CREATE" && MentionsSubscription(x.resourcePath)
    requires x.authSubscription.staticData.Some? && OnlyVendorKeys(x.authSubscription.staticData.value)
    ensures IsStaticElement(ChangeJson(x), x, StaticMembers(x.authSubscription.staticData.value))
  {
    var d := x.authSubscription.staticData.value;
    MembersOfChange(x);
    ThreeMembers("CREATE", x.resourcePath, StaticMembers(d));
    WrittenStatic(d, x.resourcePath);
  }

  lemma SecondOfPair(x: Change)
    requires x.operation == "CREATE" && MentionsSubscription(x.resourcePath)
    requires x.authSubscription.dynamicData.Some?
    ensures IsDynamicElement(SiblingJson(x), x, DynamicMembers(x.authSubscription.dynamicData.value))
  {
    var d := x.authSubscription.dynamicData.value;
    SiblingPathMeans(x.resourcePath);
    ThreeMembers("CREATE", SiblingPath(x.resourcePath, DYNAMIC_DATA), DynamicMembers(d));
    WrittenDynamic(d);
  }

  lemma SiblingPathMeans(path: string)
    ensures SiblingPath(path, DYNAMIC_DATA) == BasePath(path) + "/authSubscriptionDynamicData"
  {
    assert "/authSubscriptionDynamicData" == "/" + DYNAMIC_DATA;
    assert BasePath(path) + "/" + DYNAMIC_DATA == BasePath(path) + ("/" + DYNAMIC_DATA);
  }

  /** The list of changes of a response document. */
  function ChangesOf(j: Json): seq<Json> {
    match Field(MembersOf(j), "changes")
    case Some(Arr(items)) => items
    case _ => []
  }

  lemma ResponseList(accepted: seq<Change>)
    ensures ChangesOf(ResponseJson([], accepted)) == Expand(accepted)
  {
    if accepted != [] {
      var m := Member(CHANGES, Arr(Expand(accepted)));
      FieldOfCons(m, [], CHANGES);
      assert [m] + [] == [m];
    }
  }

  /** In every response an accepted CREATE of static data stands as such a pair. */
  lemma CreateInResponse(accepted: seq<Change>, i: nat) returns (p: nat)
    requires i < |accepted| && accepted[i].operation == "CREATE" && IsStaticDataUri(accepted[i].resourcePath)
    requires accepted[i].authSubscription.staticData.Some? && accepted[i].authSubscription.dynamicData.Some?
    requires OnlyVendorKeys(accepted[i].authSubscription.staticData.value)
    ensures var list := ChangesOf(ResponseJson([], accepted));
      p + 1 < |list| && IsPair(list[p], list[p + 1], accepted[i])
  {
    var x := accepted[i];
    p := i + Creates(accepted, i);
    ResponseList(accepted);
    ExpansionPositions(accepted, i);
    PieceOfCreate(x);
    PairInList(Expand(accepted), p, ChangeJson(x), SiblingJson(x));
    PairOfCreate(x);
  }

  lemma PieceOfCreate(x: Change)
    requires x.operation == "CREATE"
    ensures ExpandOne(x) == [ChangeJson(x), SiblingJson(x)]
  {
  }

  lemma PairOfCreate(x: Change)
    requires x.operation == "CREATE" && IsStaticDataUri(x.resourcePath)
    requires x.authSubscription.staticData.Some? && x.authSubscription.dynamicData.Some?
    requires OnlyVendorKeys(x.authSubscription.staticData.value)
    ensures IsPair(ChangeJson(x), SiblingJson(x), x)
  {
    StaticPathMentionsSubscription(x.resourcePath);
    FirstOfPair(x);
    SecondOfPair(x);
  }

  lemma PairInList(list: seq<Json>, p: nat, a: Json, b: Json)
    requires PlacedAt(list, [a, b], p)
    ensures p + 1 < |list| && list[p] == a && list[p + 1] == b
  {
    assert list[p..p + 2][0] == a && list[p..p + 2][1] == b;
  }

  // ---------- errors in the response ----------

  /** An element of the error list: its message, and in the details its path and what it is about. */
  predicate IsErrorElement(j: Json, e: Error) {
    && j.Obj?
    && Field(j.members, "errorMessage")
       == Some(Str(if e.message == ConstraintViolation then "Constraint Violation" else "Unprocessable entity"))
    && Field(j.members, "errorDetails").Some? && Field(j.members, "errorDetails").value.Obj?
    && Field(Field(j.members, "errorDetails").value.members, "resource_path") == Some(Str(e.resourcePath))
    && Field(Field(j.members, "errorDetails").value.members, "description") == Some(Str(e.about))
  }

  predicate ListsErrors(body: Json, errors: seq<Error>) {
    match Field(MembersOf(body), "errors")
    case Some(Arr(items)) =>
      |items| == |errors| && forall i | 0 <= i < |errors| :: IsErrorElement(items[i], errors[i])
    case _ => false
  }

  lemma TwoMembers(a: Member, b: Member, name: string)
    ensures Field([a, b], name)
         == if a.name == name then Some(a.value) else if b.name == name then Some(b.value) else None
  {
    assert [a, b] == [a] + ([b] + []);
    FieldOfCons(a, [b] + [], name);
    FieldOfCons(b, [], name);
  }

  lemma ErrorElement(e: Error)
    ensures IsErrorElement(ErrorJson(e), e)
  {
    var details := [Member("description", Str(e.about)), Member(RESOURCE_PATH, Str(e.resourcePath))];
    TwoMembers(Member(ERROR_MESSAGE, Str(MessageText(e.message))), Member(ERROR_DETAILS, Obj(details)), "errorMessage");
    TwoMembers(Member(ERROR_MESSAGE, Str(MessageText(e.message))), Member(ERROR_DETAILS, Obj(details)), "errorDetails");
    TwoMembers(details[0], details[1], "resource_path");
    TwoMembers(details[0], details[1], "description");
    assert ERROR_MESSAGE[5] != ERROR_DETAILS[5] && "description"[0] != RESOURCE_PATH[0];
  }

  /** A response with errors lists them all, in order, and nothing else. */
  lemma ErrorsInResponse(errors: seq<Error>, accepted: seq<Change>)
    requires errors != []
    ensures ListsErrors(ResponseJson(errors, accepted), errors)
    ensures Field(MembersOf(ResponseJson(errors, accepted)), "changes") == None
  {
    var m := Member(ERRORS, Arr(ErrorsJson(errors)));
    assert [m] + [] == [m] && ERRORS[0] != CHANGES[0];
    FieldOfCons(m, [], ERRORS);
    FieldOfCons(m, [], CHANGES);
    forall i | 0 <= i < |errors| ensures IsErrorElement(ErrorsJson(errors)[i], errors[i]) { ErrorElement(errors[i]); }
  }

  // ---------- which reply is sent ----------

  /** The reply goes out, unless the schema validator objects to it. */
  predicate IsSent(world: World, reply: Reply, sent: Reply) {
    sent == if world.responseIsInvalid(reply) then Fault(500, "Malformed response") else reply
  }

  /** A request the schema validator rejects: 400, whatever else it holds. */
  lemma ReplyToInvalid(world: World, text: string)
    requires world.requestIsInvalid(text)
    ensures ReplyTo(world, text) == Fault(400, "Malformed request")
  {
  }

  /** A request that is no JSON, or whose changes cannot be read: 400. */
  lemma ReplyToUnreadable(world: World, text: string)
    requires !world.requestIsInvalid(text)
    requires world.parse(text).None? || !HasReadableChanges(MembersOf(world.parse(text).value))
    ensures IsSent(world, Fault(400, "Malformed request"), ReplyTo(world, text))
  {
    if world.parse(text).Some? { ChangesOfDocument(world.parse(text).value, world.decode); }
  }

  /** A readable request with errors in its data: 409, and a body that lists them. */
  lemma ReplyToFaultyData(world: World, text: string) returns (body: Json)
    requires !world.requestIsInvalid(text) && world.parse(text).Some?
    requires HasReadableChanges(MembersOf(world.parse(text).value))
    requires ReadDocument(world.parse(text).value, world.decode).errors != []
    ensures IsSent(world, Response(409, body), ReplyTo(world, text))
    ensures ListsErrors(body, ReadDocument(world.parse(text).value, world.decode).errors)
  {
    ChangesOfDocument(world.parse(text).value, world.decode);
    var errors := ReadDocument(world.parse(text).value, world.decode).errors;
    body := ResponseJson(errors, []);
    ErrorsInResponse(errors, []);
  }

  /** Any other request on which the rules do not throw: the code of the rules, or 200 if they accept, and a body with
      their errors if there are any and else with the expansion of what they accepted. */
  lemma ReplyOfRules(world: World, text: string) returns (body: Json)
    requires !world.requestIsInvalid(text) && world.parse(text).Some?
    requires HasReadableChanges(MembersOf(world.parse(text).value))
    requires ReadDocument(world.parse(text).value, world.decode).errors == []
    requires RulesTotal(ReadDocument(world.parse(text).value, world.decode))
    ensures var d := ReadDocument(world.parse(text).value, world.decode);
      var o := Run(d.related, START, d.changes);
      && IsSent(world, Response(if o.ret then 200 else o.code, body), ReplyTo(world, text))
      && (o.errors != [] ==> ListsErrors(body, o.errors))
      && (o.errors == [] ==> ChangesOf(body) == Expand(o.accepted))
  {
    ChangesOfDocument(world.parse(text).value, world.decode);
    var d := ReadDocument(world.parse(text).value, world.decode);
    var o := Run(d.related, START, d.changes);
    body := ResponseJson(o.errors, o.accepted);
    if o.errors != [] { ErrorsInResponse(o.errors, o.accepted); } else { ResponseList(o.accepted); }
  }

  // ---------- from the request to the reply ----------

  lemma {:induction false} SameChildren(a: RelatedState, b: RelatedState, path: string, children: seq<Member>)
    requires a.related == b.related
    ensures ReadChildren(a, path, children).related == ReadChildren(b, path, children).related
    decreases |children|
  {
    if children != [] {
      var key, ms := AddSuffix(path, children[0].name), MembersOf(children[0].value);
      SameChildren(ReadSubscription(a, key, ms), ReadSubscription(b, key, ms), path, children[1..]);
    }
  }

  lemma {:induction false} SameResources(a: RelatedState, b: RelatedState, resources: seq<Member>, decode: Decoder)
    requires a.related == b.related
    ensures ReadResources(a, resources, decode).related == ReadResources(b, resources, decode).related
    decreases |resources|
  {
    if resources != [] {
      SameChildren(a, b, resources[0].name, MembersOf(resources[0].value));
      SameResources(ReadResource(a, resources[0], decode), ReadResource(b, resources[0], decode), resources[1..],
                    decode);
    }
  }

  /** The map a readable document gives is that of its related resources. */
  lemma RelatedOfDocument(doc: Json, decode: Decoder)
    requires ReadDocument(doc, decode).ok
    ensures ReadDocument(doc, decode).related == MapOf(ResourcesOf(doc), decode)
  {
    var c := ReadChanges(MembersOf(doc), ChangesState(true, [], []));
    SameResources(RelatedState(map[], c.errors), RelatedState(map[], []), ResourcesOf(doc), decode);
  }

  /** A request whose document is this one, that is readable, has no errors in its data, and on which the
      rules do not throw. */
  ghost predicate Reaches(world: World, text: string, doc: Json) {
    && !world.requestIsInvalid(text) && world.parse(text) == Some(doc) && HasReadableChanges(MembersOf(doc))
    && ReadDocument(doc, world.decode).errors == [] && RulesTotal(ReadDocument(doc, world.decode))
  }

  /** From the SEQHE in the request to the number in the reply. A request that reaches the rules and passes
      them without an error, with an accepted CREATE of the static data of d, and whose reply the schema
      validator does not reject: the reply is 200, and in its list the element behind that CREATE has a
      sqn of twelve digits, 32 times the SEQHE of the first legacy resource of d with the octets of each
      word exchanged, modulo 2^48. */
  lemma SqnInReply(world: World, text: string, doc: Json, i: nat, s: string, k: nat, m: string, d: string)
      returns (body: Json, p: nat, q: string)
    requires Reaches(world, text, doc)
    requires 5 <= |d| <= 15 && AllDigits(d) && |s| == 12 && AllHex(s) && s != "FFFFFFFFFFFF"
    requires IsFirst(ResourcesOf(doc), i, "/legacy/serv=Auth/IMSI=" + d)
    requires PlainOrCoded(MembersOf(ResourcesOf(doc)[i].value), "SEQHE", world.decode) == Some(s)
    requires var o := Outcomes(world, doc);
      && o.errors == [] && k < |o.accepted|
      && o.accepted[k].operation == "CREATE" && o.accepted[k].resourcePath == StaticDataPath(m, d)
      && o.accepted[k].authSubscription.staticData.Some?
      && OnlyVendorKeys(o.accepted[k].authSubscription.staticData.value)
    requires !world.responseIsInvalid(Response(200, ResponseJson([], Outcomes(world, doc).accepted)))
    ensures ReplyTo(world, text) == Response(200, body)
    ensures var list := ChangesOf(body);
      && p + 1 < |list|
      && Field(MembersOf(list[p]), "resource_path") == Some(Str(StaticDataPath(m, d)))
      && Field(MembersOf(list[p + 1]), "data").Some?
      && Field(MembersOf(Field(MembersOf(list[p + 1]), "data").value), "sqn") == Some(Str(q))
      && Field(MembersOf(Field(MembersOf(list[p + 1]), "data").value), "sqnScheme") == Some(Str("NON_TIME_BASED"))
    ensures |q| == 12 && AllHex(q) && HexValue(q) == 32 * SwapOctets(HexValue(s), 3) % SQN_MODULUS
  {
    var o := Outcomes(world, doc);
    CleanReply(world, text, doc);
    body := ResponseJson([], o.accepted);
    RelatedOfDocument(doc, world.decode);
    PathOfSubscriber(m, d);
    SeqHeToSqn(ResourcesOf(doc), world.decode, i, s, ReadDocument(doc, world.decode).changes, o.accepted[k], m, d);
    p := CreateInResponse(o.accepted, k);
    q := o.accepted[k].authSubscription.dynamicData.value.sqn.value;
  }

  function Outcomes(world: World, doc: Json): Outcome {
    var d := ReadDocument(doc, world.decode);
    Run(d.related, START, d.changes)
  }

  lemma CleanReply(world: World, text: string, doc: Json)
    requires Reaches(world, text, doc) && Outcomes(world, doc).errors == []
    requires !world.responseIsInvalid(Response(200, ResponseJson([], Outcomes(world, doc).accepted)))
    ensures ReadDocument(doc, world.decode).ok
    ensures ReplyTo(world, text) == Response(200, ResponseJson([], Outcomes(world, doc).accepted))
  {
    ChangesOfDocument(doc, world.decode);
    var d := ReadDocument(doc, world.decode);
    ErrorFreeFold(d.related, d.changes);
  }
}
