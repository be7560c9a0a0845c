/** The server-side chatbot: lazy one-time initialisation, context
    assembly from retrieved pages, and the two answer operations `ask` and
    `askStream` with their fixed user-facing outcome strings.

    The retriever, the language model and the index build are oracles:
    `build` is what loading the PDF and building the ensemble retriever
    yields (the retriever or the error it throws), `retrieve` maps a
    retriever and a question to the page contents it returns (or the error
    it throws), `generate` maps a context and a question to the model's
    full answer, and `open` maps them to the fragments a model stream
    delivers before it ends or fails. */
module Chatbot {
  import opened Results
  import opened Strings

  const NoDocuments := "관련 문서를 찾을 수 없습니다."
  const NoAnswer := "죄송합니다. 답변을 생성할 수 없습니다."
  const GenericError := "오류가 발생했습니다. 다시 시도해주세요."
  const RetrieverMissing := "Retriever가 초기화되지 않았습니다."

  /** Page contents are joined into the context with a blank line. */
  const PageSeparator := "\n\n"

  /** The ensemble retriever built over the loaded PDF pages, known only
      by an identity: what it returns for a question is the `retrieve`
      oracle's business. */
  datatype Retriever = Retriever(id: nat)

  /** The two fields of a `RAGChatbot` instance. */
  datatype Chatbot = Chatbot(retriever: Option<Retriever>, isInitialized: bool)

  /** A newly constructed chatbot. */
  const Fresh := Chatbot(None, false)

  /** The flag is set only right after the retriever is assigned. */
  predicate Valid(bot: Chatbot) {
    bot.isInitialized <==> bot.retriever.Some?
  }

  type Build = Result<Retriever, string>
  type Retrieve = (Retriever, string) -> Result<seq<string>, string>
  type Generate = (string, string) -> Result<string, string>

  /** What a model stream delivers: its fragments in order, and the error
      it fails with after them, if any. */
  datatype ModelStream = ModelStream(fragments: seq<string>, failure: Option<string>)
  type OpenStream = (string, string) -> ModelStream

  /** The state after a call, and what the call returned or threw. */
  datatype Step<T> = Step(bot: Chatbot, outcome: Result<T, string>)

  /** `initialize`: a no-op once initialised; otherwise the build either
      installs the retriever and sets the flag, or fails and leaves the
      state exactly as it was, so that the next call tries again. */
  function Initialize(bot: Chatbot, build: Build): (r: Step<()>)
    ensures bot.isInitialized ==> r == Step(bot, Success(()))
    ensures r.outcome.Success? <==> r.bot.isInitialized
    ensures !bot.isInitialized && build.Success? ==> r == Step(Chatbot(Some(build.value), true), Success(()))
    ensures !bot.isInitialized && build.Failure? ==> r == Step(bot, Failure(build.error))
    ensures r.outcome.Failure? ==> r.bot == bot && build.Failure? && r.outcome.error == build.error
    ensures Valid(bot) ==> Valid(r.bot)
  {
    if bot.isInitialized then Step(bot, Success(()))
    else match build
      case Failure(e) => Step(bot, Failure(e))
      case Success(retriever) => Step(Chatbot(Some(retriever), true), Success(()))
  }

  /** A sequential run of `initialize` calls: how many times a build was
      attempted and how many attempts installed a retriever. */
  datatype InitRun = InitRun(bot: Chatbot, attempts: nat, builds: nat)

  /** Runs `initialize` once per element of `outcomes`; the i-th element is
      what the build would yield if the i-th call attempted one. */
  function InitializeAll(bot: Chatbot, outcomes: seq<Build>): InitRun
    decreases |outcomes|
  {
    if |outcomes| == 0 then InitRun(bot, 0, 0)
    else
      var step := Initialize(bot, outcomes[0]);
      var rest := InitializeAll(step.bot, outcomes[1..]);
      var attempted := if bot.isInitialized then 0 else 1;
      var built := if !bot.isInitialized && step.outcome.Success? then 1 else 0;
      InitRun(rest.bot, attempted + rest.attempts, built + rest.builds)
  }

  /** The index of the first build that would succeed, or `|outcomes|`. */
  function FirstSuccess(outcomes: seq<Build>): (n: nat)
    ensures n <= |outcomes|
    ensures forall i :: 0 <= i < n ==> outcomes[i].Failure?
    ensures n < |outcomes| ==> outcomes[n].Success?
    decreases |outcomes|
  {
    if |outcomes| == 0 || outcomes[0].Success? then 0
    else 1 + FirstSuccess(outcomes[1..])
  }

  /** Over any sequential run the index is built at most once, and never
      once the chatbot is initialised; failed builds are retried, so the
      attempts are exactly the calls up to and including the first
      successful build. */
  lemma {:induction false} InitializeAtMostOnce(bot: Chatbot, outcomes: seq<Build>)
    ensures var run := InitializeAll(bot, outcomes);
      && run.builds <= 1
      && (bot.isInitialized ==> run.bot == bot && run.attempts == 0 && run.builds == 0)
      && (!bot.isInitialized ==>
            var n := FirstSuccess(outcomes);
            && run.attempts == (if n < |outcomes| then n + 1 else |outcomes|)
            && run.builds == (if n < |outcomes| then 1 else 0)
            && (run.bot.isInitialized <==> n < |outcomes|))
      && (Valid(bot) ==> Valid(run.bot))
    decreases |outcomes|
  {
    if |outcomes| > 0 {
      var step := Initialize(bot, outcomes[0]);
      InitializeAtMostOnce(step.bot, outcomes[1..]);
      if !bot.isInitialized && outcomes[0].Failure? {
        assert FirstSuccess(outcomes) == 1 + FirstSuccess(outcomes[1..]);
      }
    }
  }

  /** `getRagChatbot`: the module-level instance, created on first use. */
  function GetRagChatbot(instance: Option<Chatbot>): (r: (Chatbot, Option<Chatbot>))
    ensures r.1 == Some(r.0)
    ensures instance.Some? ==> r.0 == instance.value
    ensures instance.None? ==> r.0 == Fresh && Valid(r.0)
  {
    match instance
    case Some(bot) => (bot, instance)
    case None => (Fresh, Some(Fresh))
  }

  /** Asking for the instance twice is asking once: the second call
      returns the same chatbot and leaves the slot as the first left it. */
  lemma GetRagChatbotIdempotent(instance: Option<Chatbot>)
    ensures GetRagChatbot(GetRagChatbot(instance).1) == GetRagChatbot(instance)
  {
  }

  /** Every page is whitespace-only (vacuously so when there are none). */
  predicate AllBlank(pages: seq<string>) {
    forall k :: 0 <= k < |pages| ==> Blank(pages[k])
  }

  /** The context is blank exactly when every retrieved page is. */
  lemma ContextBlank(pages: seq<string>)
    ensures Blank(Join(pages, PageSeparator)) <==> AllBlank(pages)
  {
    assert Blank(PageSeparator);
    BlankJoin(pages, PageSeparator);
  }

  /** The context can be cut back into the retrieved pages when no page
      holds a line break itself. */
  lemma ContextRecoversPages(pages: seq<string>)
    requires |pages| >= 1
    requires forall k :: 0 <= k < |pages| ==> '\n' !in pages[k]
    ensures SplitOn(Join(pages, PageSeparator), PageSeparator) == pages
  {
    SplitJoin(pages, PageSeparator);
  }

  /** `searchDocuments`: fails while there is no retriever; otherwise the
      context is the retrieved page contents joined by a blank line, in
      the retriever's order, and it is blank exactly when every page is. */
  function SearchDocuments(bot: Chatbot, question: string, retrieve: Retrieve): (r: Result<string, string>)
    ensures bot.retriever.None? ==> r == Failure(RetrieverMissing)
    ensures bot.retriever.Some? && retrieve(bot.retriever.value, question).Failure? ==> r.Failure?
    ensures bot.retriever.Some? && retrieve(bot.retriever.value, question).Success? ==>
      var pages := retrieve(bot.retriever.value, question).value;
      && r == Success(Join(pages, PageSeparator))
      && (Blank(r.value) <==> AllBlank(pages))
  {
    match bot.retriever
    case None => Failure(RetrieverMissing)
    case Some(retriever) =>
      match retrieve(retriever, question)
      case Failure(e) => Failure(e)
      case Success(pages) =>
        ContextBlank(pages);
        Success(Join(pages, PageSeparator))
  }

  /** The body of `ask` after initialisation: its outcome mapping. A
      failed search or generation gives the generic error; a context of
      whitespace-only pages gives the no-documents string without
      consulting the model; an empty generation gives the no-answer string;
      any other generation, whitespace-only included, is returned as is. */
  function Respond(bot: Chatbot, question: string, retrieve: Retrieve, generate: Generate): (a: string)
    ensures bot.retriever.None? ==> a == GenericError
    ensures bot.retriever.Some? ==>
      match retrieve(bot.retriever.value, question)
      case Failure(_) => a == GenericError
      case Success(pages) =>
        if AllBlank(pages) then a == NoDocuments
        else match generate(Join(pages, PageSeparator), question)
          case Failure(_) => a == GenericError
          case Success(text) => a == (if text == "" then NoAnswer else text)
  {
    match SearchDocuments(bot, question, retrieve)
    case Failure(_) => GenericError
    case Success(context) =>
      if Trim(context) == "" then NoDocuments
      else match generate(context, question)
        case Failure(_) => GenericError
        case Success(result) => if result == "" then NoAnswer else result
  }

  /** With no relevant documents the model is never consulted: the answer
      is the same whatever the model would have said. */
  lemma RespondIgnoresModel(bot: Chatbot, question: string, retrieve: Retrieve, g1: Generate, g2: Generate)
    requires bot.retriever.Some?
    requires retrieve(bot.retriever.value, question).Success?
    requires AllBlank(retrieve(bot.retriever.value, question).value)
    ensures Respond(bot, question, retrieve, g1) == Respond(bot, question, retrieve, g2) == NoDocuments
  {
  }

  /** `ask`: initialises if needed, letting an initialisation failure
      propagate; after that, never throws and answers through `Respond`.
      Its effect on the state is exactly that of `initialize`. */
  function Ask(bot: Chatbot, question: string, build: Build, retrieve: Retrieve, generate: Generate): (r: Step<string>)
    ensures r.bot == Initialize(bot, build).bot
    ensures r.outcome.Failure? <==> !bot.isInitialized && build.Failure?
    ensures r.outcome.Failure? ==> r.bot == bot && r.outcome.error == build.error
    ensures r.outcome.Success? ==> r.bot.isInitialized && r.outcome.value == Respond(r.bot, question, retrieve, generate)
    ensures Valid(bot) ==> Valid(r.bot)
  {
    var init := if !bot.isInitialized then Initialize(bot, build) else Step(bot, Success(()));
    match init.outcome
    case Failure(e) => Step(init.bot, Failure(e))
    case Success(_) => Step(init.bot, Success(Respond(init.bot, question, retrieve, generate)))
  }

  /** An initialised, valid chatbot's answer is always one of the three
      fixed strings or a non-empty model generation. */
  lemma AskOutcomes(bot: Chatbot, question: string, build: Build, retrieve: Retrieve, generate: Generate)
    requires Valid(bot)
    ensures var r := Ask(bot, question, build, retrieve, generate);
      r.outcome.Success? ==>
        var a := r.outcome.value;
        || a == NoDocuments || a == NoAnswer || a == GenericError
        || (a != "" && exists context :: generate(context, question) == Success(a))
  {
    var r := Ask(bot, question, build, retrieve, generate);
    if r.outcome.Success? {
      var b := r.bot;
      var ret := b.retriever.value;
      match retrieve(ret, question)
      case Failure(_) =>
      case Success(pages) =>
        var context := Join(pages, PageSeparator);
        if !AllBlank(pages) && generate(context, question).Success? {
          assert generate(context, question) == Success(generate(context, question).value);
        }
    }
  }

  /** What a generator did: the values it yielded, in order, and the error
      it threw after them, if any. */
  datatype Generator = Generator(yielded: seq<string>, thrown: Option<string>)

  /** The body of `askStream` after initialisation. A failed search yields
      the generic error alone; whitespace-only pages yield the no-documents
      string alone; otherwise the model's non-blank fragments are yielded
      in order, followed by exactly one generic error when the model
      stream fails. Nothing yielded is ever blank. */
  function StreamResponse(bot: Chatbot, question: string, retrieve: Retrieve, open: OpenStream): (ys: seq<string>)
    ensures forall i :: 0 <= i < |ys| ==> !Blank(ys[i])
    ensures bot.retriever.None? ==> ys == [GenericError]
    ensures bot.retriever.Some? ==>
      match retrieve(bot.retriever.value, question)
      case Failure(_) => ys == [GenericError]
      case Success(pages) =>
        if AllBlank(pages) then ys == [NoDocuments]
        else
          var m := open(Join(pages, PageSeparator), question);
          && |ys| == |Filter(NotBlank, m.fragments)| + (if m.failure.Some? then 1 else 0)
          && ys[..|Filter(NotBlank, m.fragments)|] == Filter(NotBlank, m.fragments)
          && (m.failure.Some? ==> ys[|ys| - 1] == GenericError)
  {
    assert !Blank(GenericError) by { assert !IsWhitespace(GenericError[0]); }
    assert !Blank(NoDocuments) by { assert !IsWhitespace(NoDocuments[0]); }
    match SearchDocuments(bot, question, retrieve)
    case Failure(_) => [GenericError]
    case Success(context) =>
      if Trim(context) == "" then [NoDocuments]
      else
        var m := open(context, question);
        var kept := Filter(NotBlank, m.fragments);
        kept + (if m.failure.Some? then [GenericError] else [])
  }

  /** `askStream`: an initialisation failure is thrown before anything is
      yielded; after that the generator never throws. Its effect on the
      state is exactly that of `initialize`. */
  function AskStream(bot: Chatbot, question: string, build: Build, retrieve: Retrieve, open: OpenStream): (r: (Chatbot, Generator))
    ensures r.0 == Initialize(bot, build).bot
    ensures r.1.thrown.Some? <==> !bot.isInitialized && build.Failure?
    ensures r.1.thrown.Some? ==> r.1.yielded == [] && r.0 == bot
    ensures r.1.thrown.None? ==> r.0.isInitialized && r.1.yielded == StreamResponse(r.0, question, retrieve, open)
    ensures Valid(bot) ==> Valid(r.0)
  {
    var init := if !bot.isInitialized then Initialize(bot, build) else Step(bot, Success(()));
    match init.outcome
    case Failure(e) => (init.bot, Generator([], Some(e)))
    case Success(_) => (init.bot, Generator(StreamResponse(init.bot, question, retrieve, open), None))
  }

  /** When the model stream fails after partial output, the fragments
      already yielded stay, and the last thing yielded is one generic
      error. */
  lemma StreamFailureIsLast(bot: Chatbot, question: string, retrieve: Retrieve, open: OpenStream)
    requires bot.retriever.Some?
    requires retrieve(bot.retriever.value, question).Success?
    requires !AllBlank(retrieve(bot.retriever.value, question).value)
    requires open(Join(retrieve(bot.retriever.value, question).value, PageSeparator), question).failure.Some?
    ensures var m := open(Join(retrieve(bot.retriever.value, question).value, PageSeparator), question);
      StreamResponse(bot, question, retrieve, open) == Filter(NotBlank, m.fragments) + [GenericError]
  {
    var ys := StreamResponse(bot, question, retrieve, open);
    var m := open(Join(retrieve(bot.retriever.value, question).value, PageSeparator), question);
    var kept := Filter(NotBlank, m.fragments);
    assert ys == ys[..|kept|] + [ys[|ys| - 1]];
  }

  /** The two modes agree, given a model whose one-shot answer is the
      concatenation of its stream: when every fragment is non-blank and the
      stream completes with some output, the concatenated stream is exactly
      what `ask` returns. */
  lemma StreamAgreesWithAsk(bot: Chatbot, question: string, retrieve: Retrieve, generate: Generate, open: OpenStream)
    requires Valid(bot) && bot.isInitialized
    requires forall c, q :: open(c, q).failure.None? ==> generate(c, q) == Success(Concat(open(c, q).fragments))
    requires forall c, q :: open(c, q).failure.None? ==> open(c, q).fragments != []
    requires forall c, q, i :: 0 <= i < |open(c, q).fragments| ==> !Blank(open(c, q).fragments[i])
    requires match retrieve(bot.retriever.value, question)
      case Failure(_) => true
      case Success(pages) => open(Join(pages, PageSeparator), question).failure.None?
    ensures Concat(StreamResponse(bot, question, retrieve, open)) == Respond(bot, question, retrieve, generate)
  {
    var ret := bot.retriever.value;
    match retrieve(ret, question)
    case Failure(_) =>
      assert Concat([GenericError]) == GenericError + Concat([]);
    case Success(pages) =>
      if AllBlank(pages) {
        assert Concat([NoDocuments]) == NoDocuments + Concat([]);
      } else {
        var context := Join(pages, PageSeparator);
        var m := open(context, question);
        FilterAll(NotBlank, m.fragments);
        var ys := StreamResponse(bot, question, retrieve, open);
        assert ys == m.fragments;
        ConcatNonEmpty(m.fragments);
      }
  }

  /** The agreement also needs a completing stream to deliver something:
      for a model whose one-shot answer is empty and whose stream ends
      without a fragment, `ask` answers the no-answer string while
      `askStream` yields nothing at all. */
  lemma EmptyGenerationDiverges()
    ensures var bot := Chatbot(Some(Retriever(0)), true);
      var retrieve: Retrieve := (r: Retriever, q: string) => Success(["about me"]);
      var generate: Generate := (c: string, q: string) => Success("");
      var open: OpenStream := (c: string, q: string) => ModelStream([], None);
      && Respond(bot, "hi", retrieve, generate) == NoAnswer
      && StreamResponse(bot, "hi", retrieve, open) == []
  {
    assert !Blank("about me") by { assert !IsWhitespace("about me"[0]); }
    assert !AllBlank(["about me"]) by { assert ["about me"][0] == "about me"; }
  }

  lemma ConcatNonEmpty(xs: seq<string>)
    requires xs != [] && xs[0] != ""
    ensures Concat(xs) != ""
  {
  }

  /** The agreement needs every fragment to be non-blank: a model that
      streams a lone space between two words gets the space dropped. */
  lemma StreamDropsBlankFragments()
    ensures var fragments := ["Hello", " ", "world"];
      && Concat(Filter(NotBlank, fragments)) == "Helloworld"
      && Concat(fragments) == "Hello world"
  {
    var fragments := ["Hello", " ", "world"];
    assert NotBlank("Hello") by { assert !IsWhitespace("Hello"[0]); }
    assert NotBlank("world") by { assert !IsWhitespace("world"[0]); }
    assert !NotBlank(" ");
    assert Filter(NotBlank, fragments) == ["Hello", "world"];
    assert Concat(["world"]) == "world";
    assert Concat(["Hello", "world"]) == "Hello" + "world";
    assert Concat([" ", "world"]) == " " + "world";
  }
}
