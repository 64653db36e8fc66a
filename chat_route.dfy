/**
 * POST of the AI chat route (frontend/app/api/ai/chat/route.ts): validate the request, read
 * the model's reply, normalise the payload and answer with the document or an error.
 */
module ChatRoute {
  import opened Wrappers
  import opened Strings
  import opened JsonValue
  import opened CvTypes
  import opened Validators
  import opened ChatNormalize
  import opened ModelReply

  // ---------------------------------------------------------------------------------------
  // POST
  // ---------------------------------------------------------------------------------------

  const DefaultAssistantMessage: string := "Updated your resume based on your request."
  const InvalidShapeMessage: string := "Model returned invalid assistant JSON shape."
  const InvalidRequestMessage: string := "Invalid request"
  const FailureMessage: string := "Failed to update resume with AI"

  datatype Response =
    | Reply(assistantMessage: string, data: CVData)   // 200 with the normalised document
    | Failure(status: nat, error: string)

  /** RequestSchema: `instruction` a string of two or more characters and `cvData` accepted by CVDataSchema. */
  predicate RequestValid(body: Json) {
    && body.JObj?
    && Get(body, "instruction").JStr? && |Get(body, "instruction").s| >= 2
    && Accepts(Get(body, "cvData"))
  }

  /** zod's name for the type of a value in an invalid-type message. */
  function TypeName(v: Json): string {
    match v
    case JNull => "null"
    case JBool(_) => "boolean"
    case JNum(_) => "number"
    case JStr(_) => "string"
    case JArr(_) => "array"
    case JObj(_) => "object"
  }

  /**
   * `formErrors[0]` of the flattened request error: only an issue at the root lands there, and
   * the only root issue an object schema raises is a body that is not an object.
   */
  function FirstFormError(body: Json): (r: Option<string>)
    ensures r.Some? <==> !body.JObj?
  {
    if body.JObj? then None else Some("Expected object, received " + TypeName(body))
  }

  /** The catch clause: the thrown error's message, or the generic message when it has none. */
  function Caught(thrown: string): (r: Response)
    ensures r.Failure? && r.status == 500 && r.error != ""
    ensures thrown != "" ==> r.error == thrown
  {
    Failure(500, if thrown != "" then thrown else FailureMessage)
  }

  /** How far POST gets before the document is built: an early answer, or the model's parsed JSON. */
  datatype Stage =
    | Answered(response: Response)
    | Parsed(payload: Json)

  /**
   * POST up to `maybeParseJson`. `body` is None when the request body is not JSON; `reply` is
   * the model's message content, None when the model cannot be reached (no API key, a failed
   * call); `thrown` is the message of whichever call threw.
   */
  function Receive(
    body: Option<Json>, reply: Option<Json>, thrown: string,
    parse: string -> Option<Json>, stringify: Json -> string): (s: Stage)
    ensures s.Parsed? <==>
      (body.Some? && RequestValid(body.value) && reply.Some?
       && MaybeParseJson(ContentToText(reply.value, stringify), parse).Some?)
    ensures s.Parsed? ==> MaybeParseJson(ContentToText(reply.value, stringify), parse) == Some(s.payload)
    ensures s.Answered? ==> s.response.Failure? && (s.response.status == 400 || s.response == Caught(thrown))
    ensures s.Answered? && s.response.status == 400 <==> body.Some? && !RequestValid(body.value)
  {
    match body
    case None => Answered(Caught(thrown))
    case Some(b) =>
      if !RequestValid(b) then Answered(Failure(400, FirstFormError(b).GetOr(InvalidRequestMessage)))
      else
        match reply
        case None => Answered(Caught(thrown))
        case Some(content) =>
          match MaybeParseJson(ContentToText(content, stringify), parse)
          case None => Answered(Caught(thrown))
          case Some(payload) => Parsed(payload)
  }

  /**
   * The rest of POST: coerce the message, normalise the document, and check it against
   * ResponseSchema. The message is always a string, so the check is CVDataSchema on the
   * document, which is Valid on the record (see ReplyAccepted).
   */
  function Respond(payload: Json): (r: Response)
    ensures r.Reply? ==> Valid(r.data) && IsClean(r.assistantMessage)
    ensures r.Reply? ==> r.data == NormalizeCVData(PayloadData(payload))
  {
    assert IsClean(DefaultAssistantMessage);
    var message := AsString(Get(payload, "assistantMessage"), DefaultAssistantMessage);
    var data := NormalizeCVData(PayloadData(payload));
    if Valid(data) then Reply(message, data) else Failure(500, InvalidShapeMessage)
  }

  /** The response-shape check never fails: the normaliser's output always passes it. */
  lemma RespondReplies(payload: Json)
    ensures Respond(payload) ==
      Reply(AsString(Get(payload, "assistantMessage"), DefaultAssistantMessage), NormalizeCVData(PayloadData(payload)))
  {
    NormalizedIsValid(PayloadData(payload));
  }

  /** POST. */
  function HandleChat(
    body: Option<Json>, reply: Option<Json>, thrown: string,
    parse: string -> Option<Json>, stringify: Json -> string): (r: Response)
    ensures r.Reply? ==> Valid(r.data) && IsClean(r.assistantMessage)
  {
    match Receive(body, reply, thrown, parse, stringify)
    case Answered(response) => response
    case Parsed(payload) => Respond(payload)
  }

  /** A document the route answers with passes CVDataSchema once encoded as JSON. */
  lemma ReplyAccepted(
    body: Option<Json>, reply: Option<Json>, thrown: string,
    parse: string -> Option<Json>, stringify: Json -> string)
    requires HandleChat(body, reply, thrown, parse, stringify).Reply?
    ensures Accepts(Encode(HandleChat(body, reply, thrown, parse, stringify).data))
  {
    AcceptsEncodeIffValid(HandleChat(body, reply, thrown, parse, stringify).data);
  }

  /**
   * The route answers with a document exactly when the request is valid, the model replied
   * and its JSON parsed; that document is the normalised `data` of the payload, or of the
   * whole payload when it has no `data`. Every other answer is a 400 for the request or the
   * catch clause's 500: the "invalid assistant JSON shape" answer is never given.
   */
  lemma HandleChatOutcomes(
    body: Option<Json>, reply: Option<Json>, thrown: string,
    parse: string -> Option<Json>, stringify: Json -> string)
    ensures var s := Receive(body, reply, thrown, parse, stringify);
      var r := HandleChat(body, reply, thrown, parse, stringify);
      && (s.Parsed? ==> r == Reply(AsString(Get(s.payload, "assistantMessage"), DefaultAssistantMessage),
                                   NormalizeCVData(PayloadData(s.payload))))
      && (s.Answered? ==> r == s.response)
  {
    var s := Receive(body, reply, thrown, parse, stringify);
    if s.Parsed? {
      RespondReplies(s.payload);
    }
  }

  /** A request the schema rejects gets a 400 whatever the model would have said: it is never consulted. */
  lemma InvalidRequestRejected(
    b: Json, reply: Option<Json>, thrown: string,
    parse: string -> Option<Json>, stringify: Json -> string)
    requires !RequestValid(b)
    ensures var s := Receive(Some(b), reply, thrown, parse, stringify);
      && s == Answered(Failure(400, if b.JObj? then InvalidRequestMessage else FirstFormError(b).value))
      && s == Receive(Some(b), None, "", parse, stringify)
  {
  }
}
