/** The control flow of `ValidatorHttp2AsyncServer.cpp`: one request, one reply. */
module Server {
  import opened Wrappers
  import opened Entities
  import opened Rules
  import opened Batch
  import opened Admission
  import opened Members
  import opened Engine
  import opened Parser
  import opened Guarantees
  import opened Encoder

  const MALFORMED_REQUEST := "Malformed request"
  const MALFORMED_RESPONSE := "Malformed response"

  /** A reply: a single error made up by the handler, or a response document. */
  datatype Reply = Fault(status: int, message: string) | Response(status: int, body: Json)

  /** What the service asks of libraries: the schema validator, which may answer anything, the JSON
      text parser and the base64 decoder. */
  datatype World = World(
    requestIsInvalid: string -> bool, responseIsInvalid: Reply -> bool,
    parse: string -> Option<Json>, decode: Decoder)

  class Stream {
    var sent: seq<Reply>

    constructor ()
      ensures sent == []
    {
      sent := [];
    }

    method End(reply: Reply)
      modifies this
      ensures sent == old(sent) + [reply]
    {
      sent := sent + [reply];
    }
  }

  // ---------- which reply a request gets ----------

  /** The reply that leaves the service when this one is sent. */
  function Delivered(world: World, reply: Reply, validateResponse: bool): Reply {
    if validateResponse && world.responseIsInvalid(reply)
    then Fault(HTTP_INTERNAL_SERVER_ERROR, MALFORMED_RESPONSE) else reply
  }

  datatype Document = Document(ok: bool, changes: seq<Change>, related: Related, errors: seq<Error>)

  function ReadDocument(doc: Json, decode: Decoder): Document {
    var c := ReadChanges(MembersOf(doc), ChangesState(true, [], []));
    var r := ReadRelated(MembersOf(doc), RelatedState(map[], c.errors), decode);
    if c.ok then Document(true, c.changes, r.related, r.errors) else Document(false, c.changes, map[], c.errors)
  }

  ghost function Verdict(o: Outcome): Reply {
    Response(if o.ret then HTTP_OK else o.code, ResponseJson(o.errors, o.accepted))
  }

  ghost function ReplyTo(world: World, text: string): Reply {
    if world.requestIsInvalid(text) then Fault(HTTP_BAD_REQUEST, MALFORMED_REQUEST)
    else
      var json := world.parse(text);
      if json.None? || !ReadDocument(json.value, world.decode).ok then
        Delivered(world, Fault(HTTP_BAD_REQUEST, MALFORMED_REQUEST), true)
      else
        var d := ReadDocument(json.value, world.decode);
        if d.errors != [] then Delivered(world, Response(HTTP_CONFLICT, ResponseJson(d.errors, [])), true)
        else Delivered(world, Verdict(Run(d.related, START, d.changes)), true)
  }

  ghost predicate RulesTotal(d: Document) {
    d.ok && d.errors == [] ==> Readable(d.related) && NeverThrows(d.related, START, d.changes)
  }

  /** What must hold of a request for no library or lookup to fail on it. */
  ghost predicate Manageable(world: World, text: string) {
    !world.requestIsInvalid(text) && world.parse(text).Some? ==>
      Navigable(world.parse(text).value) && RulesTotal(ReadDocument(world.parse(text).value, world.decode))
  }

  // ---------- the code ----------

  method SendResponse(stream: Stream, world: World, reply: Reply, validateResponse: bool)
    modifies stream
    ensures stream.sent == old(stream.sent) + [Delivered(world, reply, validateResponse)]
    decreases if validateResponse then 2 else 0
  {
    if validateResponse {
      var invalid := CheckInvalidResponse(stream, world, reply);
      if invalid {
        return;
      }
    }
    stream.End(reply);
  }

  method CheckInvalidResponse(stream: Stream, world: World, reply: Reply) returns (invalid: bool)
    modifies stream
    ensures invalid == world.responseIsInvalid(reply)
    ensures stream.sent == old(stream.sent)
      + if invalid then [Fault(HTTP_INTERNAL_SERVER_ERROR, MALFORMED_RESPONSE)] else []
    decreases 1
  {
    invalid := world.responseIsInvalid(reply);
    if invalid {
      SendResponse(stream, world, Fault(HTTP_INTERNAL_SERVER_ERROR, MALFORMED_RESPONSE), false);
    }
  }

  method CheckInvalidRequest(stream: Stream, world: World, text: string) returns (invalid: bool)
    modifies stream
    ensures invalid == world.requestIsInvalid(text)
    ensures stream.sent == old(stream.sent)
      + if invalid then [Fault(HTTP_BAD_REQUEST, MALFORMED_REQUEST)] else []
  {
    invalid := world.requestIsInvalid(text);
    if invalid {
      SendResponse(stream, world, Fault(HTTP_BAD_REQUEST, MALFORMED_REQUEST), false);
    }
  }

  /** Runs the rules, on data without errors, and makes the response document. */
  method Judge(data: ValidationData) returns (reply: Reply)
    requires data.Ready() && data.errors == [] && data.accepted == []
    modifies data
    ensures reply == Verdict(Run(old(data.relatedResources), START, old(data.changes)))
  {
    var isValidated, code := data.ApplyValidationRules();
    var body := ValidatorResponseToJson(data.errors, data.accepted);
    if !isValidated {
      return Response(code, body);
    }
    return Response(HTTP_OK, body);
  }

  /** Every request is answered exactly once. */
  method HandleHttp2Request(stream: Stream, world: World, text: string)
    requires Manageable(world, text)
    modifies stream
    ensures stream.sent == old(stream.sent) + [ReplyTo(world, text)]
  {
    var invalid := CheckInvalidRequest(stream, world, text);
    if invalid {
      return;
    }
    var parser := new ValidatorRapidJsonParser(world.parse(text), world.decode);
    var reqData := new ValidationData();
    var ok := parser.GetValidationData(reqData);
    if !ok {
      SendResponse(stream, world, Fault(HTTP_BAD_REQUEST, MALFORMED_REQUEST), true);
      return;
    }
    if |reqData.errors| > 0 {
      var errors := ValidatorResponseToJson(reqData.errors, reqData.accepted);
      SendResponse(stream, world, Response(HTTP_CONFLICT, errors), true);
      return;
    }
    var reply := Judge(reqData);
    SendResponse(stream, world, reply, true);
  }

  // ---------- what the replies mean ----------

  /** Totality across parser and rules: on an error-free document whose journal masks reach the bit
      that is tested, no lookup fails exactly when each UPDATE without data that would be compared
      comes behind a change that is rejected. */
  lemma ParsedDocumentIsTotal(doc: Json, decode: Decoder)
    requires MasksReadable(ReadDocument(doc, decode).related) && SeqHesReadable(ReadDocument(doc, decode).related)
    ensures var d := ReadDocument(doc, decode);
      RulesTotal(d) <==> (d.ok && d.errors == [] ==> DataBehindFaults(d.related, d.changes))
  {
    var d := ReadDocument(doc, decode);
    RunsThroughExactly(d.related, d.changes);
    if d.ok && d.errors == [] {
      var c := ReadChanges(MembersOf(doc), ChangesState(true, [], []));
      ParsedRelatedIsReadable(MembersOf(doc), c.errors, decode);
    }
  }

  /** A request that reaches the rules, and on which they run through. */
  ghost predicate Judged(world: World, text: string) {
    && !world.requestIsInvalid(text) && world.parse(text).Some?
    && var d := ReadDocument(world.parse(text).value, world.decode);
       d.ok && d.errors == [] && RulesTotal(d)
  }

  ghost function JudgedDocument(world: World, text: string): Document
    requires Judged(world, text)
  {
    ReadDocument(world.parse(text).value, world.decode)
  }

  /** The reply the rules lead to, if the schema validator does not object to it. */
  ghost function RulesReply(world: World, text: string): Reply
    requires Judged(world, text)
  {
    var d := JudgedDocument(world, text);
    Verdict(Run(d.related, START, d.changes))
  }

  ghost predicate ReportsErrors(reply: Reply) {
    reply.Response? && Field(MembersOf(reply.body), ERRORS).Some?
  }

  /** When the schema validator accepts the reply, a judged request without resets gets 200 exactly when
      every change is admissible, and the body reports errors exactly when not. */
  lemma StatusOfResetFreeRequest(world: World, text: string)
    requires Judged(world, text) && ResetFree(JudgedDocument(world, text).changes)
    requires !world.responseIsInvalid(RulesReply(world, text))
    ensures var d := JudgedDocument(world, text);
      && (ReplyTo(world, text).status == HTTP_OK <==> forall c | c in d.changes :: Admissible(d.related, c))
      && (ReplyTo(world, text).status == HTTP_OK <==> !ReportsErrors(ReplyTo(world, text)))
  {
    var d := JudgedDocument(world, text);
    RulesReplyIsSent(world, text);
    AcceptedExactly(d.related, d.changes);
    StatusFollowsErrors(d.related, START, d.changes);
    VerdictIsCode(d.related, d.changes);
    VerdictRead(Run(d.related, START, d.changes));
  }

  lemma RulesReplyIsSent(world: World, text: string)
    requires Judged(world, text) && !world.responseIsInvalid(RulesReply(world, text))
    ensures ReplyTo(world, text) == RulesReply(world, text)
  {
  }

  lemma VerdictRead(o: Outcome)
    requires VerdictMatchesCode(o)
    ensures Verdict(o).status == HTTP_OK <==> o.ret
    ensures ReportsErrors(Verdict(o)) <==> o.errors != []
  {
    ErrorsMember(o);
  }

  lemma ErrorsMember(o: Outcome)
    ensures ReportsErrors(Verdict(o)) <==> o.errors != []
  {
    assert CHANGES[0] != ERRORS[0];
    var errors, changes := Member(ERRORS, Arr(ErrorsJson(o.errors))), Member(CHANGES, Arr(Expand(o.accepted)));
    assert [errors] + [] == [errors] && [changes] + [] == [changes];
    FieldOfCons(errors, [], ERRORS);
    FieldOfCons(changes, [], ERRORS);
  }

  /** In general a judged request is answered 200 with errors in the body exactly when a DELETE on an
      unrelated path covers up an earlier error. */
  lemma OkWithErrors(world: World, text: string)
    requires Judged(world, text)
    requires !world.responseIsInvalid(RulesReply(world, text))
    ensures var d := JudgedDocument(world, text);
      ReplyTo(world, text).status == HTTP_OK && ReportsErrors(ReplyTo(world, text)) <==>
      HidesSomeFault(d.related, d.changes)
  {
    var d := JudgedDocument(world, text);
    RulesReplyIsSent(world, text);
    HidesFaultIff(d.related, d.changes);
    VerdictIsCode(d.related, d.changes);
    VerdictRead(Run(d.related, START, d.changes));
  }

  lemma HidesFaultIff(related: Related, batch: seq<Change>)
    requires NeverThrows(related, START, batch)
    ensures Run(related, START, batch).ret && Run(related, START, batch).errors != [] <==>
      HidesSomeFault(related, batch)
  {
    ContradictionExactly(related, batch);
    RunsThroughExactly(related, batch);
  }
}
