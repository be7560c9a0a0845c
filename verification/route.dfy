/** The `/me` action: validates the posted message, then answers either
    with one JSON reply (through `ask`) or with a server-sent-event stream
    (through `askStream`) of chunk frames closed by one done or one error
    frame. */
module Route {
  import opened Results
  import opened Strings
  import opened Chatbot
  import opened Events

  const EmptyMessageError := "메세지를 입력하세요."
  const StreamFailure := "An error occurred while generating the response."
  const InternalError := "Internal server error"

  /** The `message` field of the posted JSON object: absent (or
      `undefined`), a string, or any other JSON value. */
  datatype MessageField = Missing | Text(text: string) | NonText

  /** The request body: either `request.json()` (or destructuring its
      result) throws with a message, or it yields an object whose
      `message` field is as given. */
  datatype Body = Unreadable(reason: string) | Json(message: MessageField)

  /** `stream` is the first `stream` query parameter, if any. */
  datatype Request = Request(stream: Option<string>, body: Body)

  /** The JSON replies: `{success: false, error}` for a rejected message,
      `{success: true, question, answer, timestamp}`, and
      `{success: false, error, details}` for an internal error. */
  datatype Reply =
    | Rejected(error: string)
    | Answered(question: string, answer: string, timestamp: string)
    | Crashed(error: string, details: string)

  datatype Response =
    | JsonResponse(status: nat, reply: Reply)
    | EventStream(frames: seq<string>)

  /** The foreign calls the chatbot makes. */
  datatype Oracles = Oracles(build: Build, retrieve: Retrieve, generate: Generate, open: OpenStream)

  /** The module-level chatbot slot after the action, and the response. */
  datatype Handled = Handled(server: Option<Chatbot>, response: Response)

  /** `!message || typeof message !== 'string'` fails exactly for a
      non-string or the empty string; a whitespace-only string passes. */
  function Validate(field: MessageField): (r: Option<string>)
    ensures r.Some? <==> field.Text? && field.text != ""
    ensures r.Some? ==> r.value == field.text
  {
    match field
    case Text(s) => if s == "" then None else Some(s)
    case _ => None
  }

  /** Streaming mode is chosen only by the exact string `true`. */
  predicate Streaming(req: Request) {
    req.stream == Some("true")
  }

  /** The events the stream writes for what a generator did: one chunk
      per yielded value, in order, then one closing event, which is done
      when the generator finished and error when it threw. `clock(i)` is
      the timestamp of the `i`-th event. */
  function StreamEvents(run: Generator, clock: nat -> string): (es: seq<Event>)
    ensures |es| == |run.yielded| + 1
    ensures forall i :: 0 <= i < |run.yielded| ==> es[i] == Chunk(run.yielded[i], clock(i))
    ensures es[|es| - 1] == (if run.thrown.Some? then Error(StreamFailure, clock(|run.yielded|)) else Done(clock(|run.yielded|)))
  {
    var n := |run.yielded|;
    var chunks := seq(n, i requires 0 <= i < n => Chunk(run.yielded[i], clock(i)));
    chunks + [if run.thrown.Some? then Error(StreamFailure, clock(n)) else Done(clock(n))]
  }

  /** The frames the stream enqueues, one per event. */
  function StreamFrames(run: Generator, clock: nat -> string): (frames: seq<string>)
    ensures |frames| == |run.yielded| + 1
    ensures forall i :: 0 <= i < |frames| ==> frames[i] == EventFrame(StreamEvents(run, clock)[i])
  {
    var es := StreamEvents(run, clock);
    var frames := Map(EventFrame, es);
    assert |frames| == |es|;
    frames
  }

  /** `action`. An unreadable body is an internal error and an invalid
      message a 400; neither touches the chatbot slot. Otherwise the
      singleton is fetched (created if need be) and consulted once: in
      JSON mode `ask`'s answer is echoed with the question, and its
      initialisation failure becomes an internal error; in streaming mode
      `askStream`'s run is framed, an initialisation failure showing up as
      the error frame. */
  function Action(server: Option<Chatbot>, req: Request, o: Oracles, clock: nat -> string): (h: Handled)
    ensures req.body.Unreadable? ==>
      h == Handled(server, JsonResponse(500, Crashed(InternalError, req.body.reason)))
    ensures req.body.Json? && Validate(req.body.message).None? ==>
      h == Handled(server, JsonResponse(400, Rejected(EmptyMessageError)))
    ensures req.body.Json? && Validate(req.body.message).Some? ==>
      var bot := GetRagChatbot(server).0;
      var message := req.body.message.text;
      if Streaming(req) then
        var (bot', run) := AskStream(bot, message, o.build, o.retrieve, o.open);
        h == Handled(Some(bot'), EventStream(StreamFrames(run, clock)))
      else
        var step := Ask(bot, message, o.build, o.retrieve, o.generate);
        && h.server == Some(step.bot)
        && h.response == match step.outcome
          case Success(answer) => JsonResponse(200, Answered(message, answer, clock(0)))
          case Failure(e) => JsonResponse(500, Crashed(InternalError, e))
  {
    match req.body
    case Unreadable(reason) => Handled(server, JsonResponse(500, Crashed(InternalError, reason)))
    case Json(field) =>
      match Validate(field)
      case None => Handled(server, JsonResponse(400, Rejected(EmptyMessageError)))
      case Some(message) =>
        var (bot, slot) := GetRagChatbot(server);
        if !Streaming(req) then
          var step := Ask(bot, message, o.build, o.retrieve, o.generate);
          match step.outcome
          case Success(answer) => Handled(Some(step.bot), JsonResponse(200, Answered(message, answer, clock(0))))
          case Failure(e) => Handled(Some(step.bot), JsonResponse(500, Crashed(InternalError, e)))
        else
          var (bot', run) := AskStream(bot, message, o.build, o.retrieve, o.open);
          Handled(Some(bot'), EventStream(StreamFrames(run, clock)))
  }

  /** A whitespace-only message is not rejected by the route. */
  lemma WhitespaceMessageAccepted()
    ensures Validate(Text(" ")).Some?
  {
  }

  /** The response is an event stream exactly when the message is valid
      and the `stream` parameter is `true`. */
  lemma StreamingIff(server: Option<Chatbot>, req: Request, o: Oracles, clock: nat -> string)
    ensures Action(server, req, o, clock).response.EventStream? <==>
      req.body.Json? && Validate(req.body.message).Some? && Streaming(req)
  {
  }

  /** Any other spelling of the parameter selects JSON mode. */
  lemma OtherStreamValuesAreJson(server: Option<Chatbot>, body: Body, o: Oracles, clock: nat -> string)
    ensures !Action(server, Request(Some("TRUE"), body), o, clock).response.EventStream?
    ensures !Action(server, Request(Some("1"), body), o, clock).response.EventStream?
    ensures !Action(server, Request(None, body), o, clock).response.EventStream?
  {
  }

  /** Exactly one closing event, and it is last: every earlier event is a
      chunk, and the stream never holds both done and error. */
  lemma ExactlyOneTerminal(run: Generator, clock: nat -> string)
    ensures var es := StreamEvents(run, clock);
      && !es[|es| - 1].Chunk?
      && (forall i :: 0 <= i < |es| - 1 ==> es[i].Chunk?)
      && !((exists i :: 0 <= i < |es| && es[i].Done?) && (exists j :: 0 <= j < |es| && es[j].Error?))
  {
    var es := StreamEvents(run, clock);
    forall i | 0 <= i < |es| && !es[i].Chunk?
      ensures i == |es| - 1
    {
    }
  }

  /** The chunk contents, read back in order, are what the generator
      yielded. */
  lemma ChunksInOrder(run: Generator, clock: nat -> string)
    ensures var es := StreamEvents(run, clock);
      Map((e: Event) => if e.Chunk? then e.content else "", es[..|es| - 1]) == run.yielded
  {
  }

  /** For a valid streaming request, the closing frame is an error exactly
      when the chatbot was not yet initialised and its build fails; once
      initialised, a failing retrieval or model shows up as a generic
      error chunk followed by done. */
  lemma StreamErrorOnlyFromInitialisation(server: Option<Chatbot>, message: string, o: Oracles, clock: nat -> string)
    requires message != ""
    ensures var h := Action(server, Request(Some("true"), Json(Text(message))), o, clock);
      var bot := GetRagChatbot(server).0;
      var run := AskStream(bot, message, o.build, o.retrieve, o.open).1;
      var es := StreamEvents(run, clock);
      && h.response == EventStream(Map(EventFrame, es))
      && (es[|es| - 1].Error? <==> !bot.isInitialized && o.build.Failure?)
      && (es[|es| - 1].Error? ==> |es| == 1)
  {
    var bot := GetRagChatbot(server).0;
    var run := AskStream(bot, message, o.build, o.retrieve, o.open).1;
    assert Validate(Text(message)) == Some(message);
    assert StreamFrames(run, clock) == Map(EventFrame, StreamEvents(run, clock));
  }

  /** In JSON mode a valid message is echoed back with `ask`'s answer,
      unless initialisation fails, which is a 500 carrying its message. */
  lemma JsonModeEchoes(server: Option<Chatbot>, message: string, stream: Option<string>, o: Oracles, clock: nat -> string)
    requires message != "" && stream != Some("true")
    ensures var h := Action(server, Request(stream, Json(Text(message))), o, clock);
      var step := Ask(GetRagChatbot(server).0, message, o.build, o.retrieve, o.generate);
      h.response.JsonResponse? &&
      (h.response.status == 200 <==> step.outcome.Success?) &&
      (step.outcome.Success? ==> h.response.reply.Answered? && h.response.reply.question == message && h.response.reply.answer == step.outcome.value)
  {
  }

  /** The chatbot slot is filled after any valid request and is left alone
      otherwise; the stored chatbot stays valid. */
  lemma SlotAfterAction(server: Option<Chatbot>, req: Request, o: Oracles, clock: nat -> string)
    requires server.Some? ==> Valid(server.value)
    ensures var h := Action(server, req, o, clock);
      && (req.body.Json? && Validate(req.body.message).Some? ==> h.server.Some? && Valid(h.server.value))
      && (!(req.body.Json? && Validate(req.body.message).Some?) ==> h.server == server)
  {
  }
}
