/** The chat page: the submit guard, the streaming reader that splits each
    read on blank lines, strips `data: ` and applies the events to the
    chat history, and the handler for the non-streaming reply. */
module Client {
  import opened Results
  import opened Strings
  import opened Chatbot
  import opened Events
  import opened Route

  const ClientStreamError := "스트리밍 중 오류가 발생했습니다. 다시 시도해주세요."

  /** One exchange in the chat history. `streaming` is the optional
      `isStreaming` flag a submitted entry carries. */
  datatype Entry = Entry(question: string, answer: string, timestamp: string, streaming: Option<bool>)

  /** The page state: the input box, the history, whether a stream is in
      progress and whether streaming is switched on. */
  datatype Page = Page(message: string, history: seq<Entry>, isStreaming: bool, useStreaming: bool)

  /** What a submit sends: nothing, a streaming fetch, or a form post. */
  datatype Outgoing = NoRequest | StreamRequest(message: string) | FormRequest(message: string)

  /** `handleSubmit`, up to the first await of the streaming handler. A
      blank input or a stream in progress does nothing. Otherwise one
      entry with the question and an empty answer is appended, the input
      is cleared, and the request goes out in the selected mode; in
      streaming mode the page is marked as streaming. */
  function Submit(p: Page, now: string): (r: (Page, Outgoing))
    ensures Trim(p.message) == "" || p.isStreaming ==> r == (p, NoRequest)
    ensures Trim(p.message) != "" && !p.isStreaming ==>
      && r.0.history == p.history + [Entry(p.message, "", now, Some(p.useStreaming))]
      && r.0.message == ""
      && r.0.isStreaming == p.useStreaming
      && r.0.useStreaming == p.useStreaming
      && r.1 == (if p.useStreaming then StreamRequest(p.message) else FormRequest(p.message))
  {
    if Trim(p.message) == "" || p.isStreaming then (p, NoRequest)
    else
      var entry := Entry(p.message, "", now, Some(p.useStreaming));
      var out := if p.useStreaming then StreamRequest(p.message) else FormRequest(p.message);
      (Page("", p.history + [entry], p.useStreaming, p.useStreaming), out)
  }

  /** Whatever the page sends passes the route's validation. */
  lemma SubmittedMessageIsValid(p: Page, now: string)
    ensures var out := Submit(p, now).1;
      (out.StreamRequest? || out.FormRequest?) ==> Validate(Text(out.message)) == Some(out.message)
  {
    assert Blank("");
  }

  /** While a streamed answer is in progress a second submit does nothing. */
  lemma SubmitBlockedWhileStreaming(p: Page, now: string, later: string, next: string)
    requires p.useStreaming
    ensures var p' := Submit(p, now).0;
      Submit(p'.(message := next), later) == (p'.(message := next), NoRequest) || p' == p
  {
  }

  /** Replaces the answer and timestamp of the last entry, keeping the
      rest of it; an empty history stays empty. */
  function SetLast(h: seq<Entry>, answer: string, timestamp: string): (r: seq<Entry>)
    ensures |r| == |h|
    ensures forall i :: 0 <= i < |h| - 1 ==> r[i] == h[i]
    ensures |h| > 0 ==> r[|h| - 1] == h[|h| - 1].(answer := answer, timestamp := timestamp)
  {
    if |h| == 0 then h else h[..|h| - 1] + [h[|h| - 1].(answer := answer, timestamp := timestamp)]
  }

  /** The streaming reader's state: the history and the answer streamed so
      far. */
  datatype Reader = Reader(history: seq<Entry>, streamed: string)

  /** One event: a chunk appends its content to the streamed answer, an
      error replaces it, and either writes it into the last entry with the
      event's timestamp; done changes nothing. */
  function Apply(st: Reader, e: Event): (r: Reader)
    ensures |r.history| == |st.history|
    ensures forall i :: 0 <= i < |st.history| - 1 ==> r.history[i] == st.history[i]
    ensures e.Done? ==> r == st
    ensures e.Chunk? ==> r.streamed == st.streamed + e.content
    ensures e.Error? ==> r.streamed == e.content
    ensures !e.Done? && |st.history| > 0 ==>
      r.history[|st.history| - 1] == st.history[|st.history| - 1].(answer := r.streamed, timestamp := e.timestamp)
  {
    match e
    case Chunk(c, t) =>
      var s := st.streamed + c;
      Reader(SetLast(st.history, s, t), s)
    case Done(_) => st
    case Error(c, t) => Reader(SetLast(st.history, c, t), c)
  }

  /** The events applied in order. */
  function ApplyAll(st: Reader, es: seq<Event>): Reader
    decreases |es|
  {
    if |es| == 0 then st else ApplyAll(Apply(st, es[0]), es[1..])
  }

  /** Applying events never changes the history's length or any entry but
      the last. */
  lemma {:induction false} ApplyAllTouchesOnlyLast(st: Reader, es: seq<Event>)
    ensures var r := ApplyAll(st, es);
      && |r.history| == |st.history|
      && forall i :: 0 <= i < |st.history| - 1 ==> r.history[i] == st.history[i]
    decreases |es|
  {
    if |es| > 0 {
      ApplyAllTouchesOnlyLast(Apply(st, es[0]), es[1..]);
    }
  }

  lemma {:induction false} ApplyAllAppend(st: Reader, xs: seq<Event>, ys: seq<Event>)
    ensures ApplyAll(st, xs + ys) == ApplyAll(ApplyAll(st, xs), ys)
    decreases |xs|
  {
    if |xs| == 0 {
      assert xs + ys == ys;
    } else {
      assert (xs + ys)[1..] == xs[1..] + ys;
      ApplyAllAppend(Apply(st, xs[0]), xs[1..], ys);
    }
  }

  /** The contents of a run of chunk events. */
  function Contents(es: seq<Event>): seq<string>
    requires forall i :: 0 <= i < |es| ==> es[i].Chunk?
  {
    seq(|es|, i requires 0 <= i < |es| => es[i].content)
  }

  /** After chunk events only, the streamed answer has grown by their
      contents, in order, and (if there was at least one) the last entry
      holds it with the last chunk's timestamp. */
  lemma {:induction false} ChunksConcatenate(st: Reader, es: seq<Event>)
    requires forall i :: 0 <= i < |es| ==> es[i].Chunk?
    ensures var r := ApplyAll(st, es);
      && |r.history| == |st.history|
      && r.streamed == st.streamed + Concat(Contents(es))
      && (|es| > 0 && |st.history| > 0 ==>
            r.history[|st.history| - 1] == st.history[|st.history| - 1].(answer := r.streamed, timestamp := es[|es| - 1].timestamp))
    decreases |es|
  {
    ApplyAllTouchesOnlyLast(st, es);
    if |es| > 0 {
      var st' := Apply(st, es[0]);
      ChunksConcatenate(st', es[1..]);
      assert Contents(es) == [es[0].content] + Contents(es[1..]);
      assert st.streamed + es[0].content + Concat(Contents(es[1..])) == st.streamed + (es[0].content + Concat(Contents(es[1..])));
      if |es| == 1 {
        assert es[1..] == [];
      } else {
        assert es[1..][|es[1..]| - 1] == es[|es| - 1];
      }
    }
  }

  /** The prefix `data: ` stripped from a segment, if it carries it. */
  function Payload(segment: string): (r: Option<string>)
    ensures r.Some? <==> StartsWith(segment, DataPrefix)
    ensures r.Some? ==> DataPrefix + r.value == segment
  {
    if StartsWith(segment, DataPrefix) then Some(segment[|DataPrefix|..]) else None
  }

  /** The payloads of the `data: ` segments, in order; other segments are
      ignored. */
  function Payloads(segments: seq<string>): seq<string>
    decreases |segments|
  {
    if |segments| == 0 then []
    else match Payload(segments[0])
      case Some(p) => [p] + Payloads(segments[1..])
      case None => Payloads(segments[1..])
  }

  /** The payloads that parse as events, in order; the page's parse error
      handler skips the rest. */
  function ParseAll(payloads: seq<string>): seq<Event>
    decreases |payloads|
  {
    if |payloads| == 0 then []
    else match Parse(payloads[0])
      case Some(e) => [e] + ParseAll(payloads[1..])
      case None => ParseAll(payloads[1..])
  }

  /** The payloads in one read's text: `text.split('\n\n')`, then the
      `data: ` segments with the prefix removed. */
  function ReadPayloads(text: string): seq<string> {
    Payloads(SplitOn(text, FrameEnd))
  }

  /** The events one read delivers. */
  function DecodeRead(text: string): seq<Event> {
    ParseAll(ReadPayloads(text))
  }

  /** The text of a sequence of frames. */
  function FramesText(payloads: seq<string>): string {
    Concat(Map(Frame, payloads))
  }

  /** A segment the server writes: the prefix and the payload. */
  function DataLine(payload: string): string {
    DataPrefix + payload
  }

  /** Frames written one after another are their data lines joined by
      blank lines, ending in one more separator. */
  lemma {:induction false} FramesAsJoin(ps: seq<string>)
    ensures FramesText(ps) == Join(Map(DataLine, ps) + [""], FrameEnd)
    decreases |ps|
  {
    if |ps| > 0 {
      FramesAsJoin(ps[1..]);
      var tail := Map(DataLine, ps[1..]) + [""];
      assert Map(DataLine, ps) + [""] == [DataLine(ps[0])] + tail;
      assert Map(Frame, ps) == [Frame(ps[0])] + Map(Frame, ps[1..]);
      assert Join([DataLine(ps[0])] + tail, FrameEnd) == DataLine(ps[0]) + FrameEnd + Join(tail, FrameEnd) by {
        assert ([DataLine(ps[0])] + tail)[1..] == tail;
      }
    } else {
      assert Map(DataLine, ps) + [""] == [""];
    }
  }

  lemma {:induction false} PayloadsOfLines(ps: seq<string>)
    ensures Payloads(Map(DataLine, ps) + [""]) == ps
    decreases |ps|
  {
    if |ps| == 0 {
      assert Map(DataLine, ps) + [""] == [""];
      assert Payloads([""][1..]) == [];
    } else {
      PayloadsOfLines(ps[1..]);
      assert (Map(DataLine, ps) + [""])[1..] == Map(DataLine, ps[1..]) + [""];
      StartsWithAppend(DataPrefix, ps[0]);
      assert [ps[0]] + ps[1..] == ps;
    }
  }

  /** Frames whose payloads hold no line break read back as exactly those
      payloads, in order. */
  lemma PayloadRoundTrip(ps: seq<string>)
    requires forall i :: 0 <= i < |ps| ==> '\n' !in ps[i]
    ensures ReadPayloads(FramesText(ps)) == ps
  {
    var lines := Map(DataLine, ps) + [""];
    FramesAsJoin(ps);
    forall k | 0 <= k < |lines|
      ensures FrameEnd[0] !in lines[k]
    {
      if k < |ps| {
        assert lines[k] == DataPrefix + ps[k];
      }
    }
    SplitJoin(lines, FrameEnd);
    PayloadsOfLines(ps);
  }

  /** A payload that merely avoids a blank line is not enough: one ending
      in a line break loses it, because the frame's own separator then
      starts one character early. */
  lemma TrailingLineBreakLost()
    ensures ReadPayloads(Frame("x\n")) == ["x"]
  {
    var text := Frame("x\n");
    assert text == "data: x" + FrameEnd + "\n";
    NoFirstCharNoMatch("data: x", FrameEnd + "\n", FrameEnd);
    SplitFromPart("data: x", "\n", FrameEnd);
    assert !StartsWith("\n", FrameEnd);
    assert SplitFrom("\n", FrameEnd, "") == ["\n"] by {
      assert "\n"[1..] == "";
      assert "" + ['\n'] == "\n";
    }
    assert SplitOn(text, FrameEnd) == ["data: x", "\n"];
    StartsWithAppend(DataPrefix, "x");
    assert "data: x" == DataPrefix + "x";
    assert Payloads(["data: x", "\n"][1..]) == [] by {
      assert !StartsWith("\n", DataPrefix);
      assert ["data: x", "\n"][1..] == ["\n"];
      assert ["\n"][1..] == [];
    }
  }

  lemma {:induction false} ParseAllEncoded(es: seq<Event>)
    ensures ParseAll(Map(Encode, es)) == es
    decreases |es|
  {
    if |es| > 0 {
      ParseEncode(es[0]);
      assert Map(Encode, es)[1..] == Map(Encode, es[1..]);
      ParseAllEncoded(es[1..]);
      assert [es[0]] + es[1..] == es;
    }
  }

  /** The text the route writes for some events. */
  function Wire(es: seq<Event>): string {
    Concat(Map(EventFrame, es))
  }

  /** A read holding whole frames delivers exactly the events they carry,
      in order. */
  lemma WireRoundTrip(es: seq<Event>)
    ensures DecodeRead(Wire(es)) == es
  {
    var ps := Map(Encode, es);
    assert Map(EventFrame, es) == Map(Frame, ps);
    PayloadRoundTrip(ps);
    ParseAllEncoded(es);
  }

  /** The reads applied one after another. */
  function ReadAll(st: Reader, received: seq<string>): Reader
    decreases |received|
  {
    if |received| == 0 then st else ReadAll(ApplyAll(st, DecodeRead(received[0])), received[1..])
  }

  /** The batches of events written one after another. */
  function Flatten(batches: seq<seq<Event>>): seq<Event>
    decreases |batches|
  {
    if |batches| == 0 then [] else batches[0] + Flatten(batches[1..])
  }

  /** When every read ends on a frame boundary, reading the frames in
      pieces is reading them all at once. */
  lemma {:induction false} AlignedReads(st: Reader, batches: seq<seq<Event>>)
    ensures ReadAll(st, Map(Wire, batches)) == ApplyAll(st, Flatten(batches))
    decreases |batches|
  {
    if |batches| > 0 {
      WireRoundTrip(batches[0]);
      assert Map(Wire, batches)[1..] == Map(Wire, batches[1..]);
      AlignedReads(ApplyAll(st, batches[0]), batches[1..]);
      ApplyAllAppend(st, batches[0], Flatten(batches[1..]));
    }
  }

  /** A read holding only the prefix delivers nothing. */
  lemma PrefixAloneDecodesToNothing()
    ensures DecodeRead(DataPrefix) == []
  {
    NoFirstCharNoMatch(DataPrefix, "", FrameEnd);
    assert DataPrefix + "" == DataPrefix;
    SplitFromLast(DataPrefix, FrameEnd);
    StartsWithAppend(DataPrefix, "");
    assert Payloads([DataPrefix]) == [""] by {
      assert [DataPrefix][1..] == [];
    }
    assert Parse("") == None;
    assert [""][1..] == [];
  }

  /** A read holding a payload without its prefix delivers nothing. */
  lemma PayloadAloneDecodesToNothing(e: Event)
    ensures DecodeRead(Encode(e) + FrameEnd) == []
  {
    var payload := Encode(e);
    var segs := [payload, ""];
    assert payload + FrameEnd == Join(segs, FrameEnd) by {
      assert segs[1..] == [""];
      assert payload + FrameEnd + "" == payload + FrameEnd;
    }
    SplitJoin(segs, FrameEnd);
    assert Payload(payload) == None by {
      assert payload[0] != DataPrefix[0];
    }
    assert Payloads(segs) == [] by {
      assert segs[1..] == [""];
      assert Payload("") == None;
      assert [""][1..] == [];
    }
  }

  /** The page decodes each read on its own, so a frame cut right after
      `data: ` by the transport is lost: neither half carries a whole
      event. */
  lemma SplitFrameLost(st: Reader, t: string)
    ensures var e := Done(t);
      && DataPrefix + (Encode(e) + FrameEnd) == Wire([e])
      && ReadAll(st, [DataPrefix, Encode(e) + FrameEnd]) == st
  {
    var e := Done(t);
    var payload := Encode(e);
    assert Wire([e]) == DataPrefix + (payload + FrameEnd) by {
      assert Map(EventFrame, [e]) == [Frame(payload)];
      assert Concat([Frame(payload)]) == Frame(payload) + Concat([]);
    }
    var rest := payload + FrameEnd;
    PrefixAloneDecodesToNothing();
    PayloadAloneDecodesToNothing(e);
    assert ReadAll(st, [DataPrefix, rest]) == ReadAll(st, [rest]) by {
      assert [DataPrefix, rest][1..] == [rest];
      assert ApplyAll(st, []) == st;
    }
    assert ReadAll(st, [rest]) == st by {
      assert [rest][1..] == [];
      assert ApplyAll(st, []) == st;
    }
  }

  /** What the streaming fetch got: refused (network error, a non-ok
      status or no body), or the texts of its reads, possibly ending in a
      broken connection. */
  datatype Transport = Refused(reason: string) | Delivered(received: seq<string>, broken: bool)

  /** `handleStreamingRequest` after the fetch: the reads are decoded and
      applied; a refusal or a broken connection then overwrites the last
      answer with the page's own error text; the streaming flag is reset
      in every case. Only the last entry ever changes. */
  function HandleStreamingRequest(p: Page, t: Transport, now: string): (r: Page)
    ensures !r.isStreaming
    ensures r.message == p.message && r.useStreaming == p.useStreaming
    ensures |r.history| == |p.history|
    ensures forall i :: 0 <= i < |p.history| - 1 ==> r.history[i] == p.history[i]
    ensures (t.Refused? || t.broken) && |p.history| > 0 ==>
      r.history[|p.history| - 1].answer == ClientStreamError
  {
    match t
    case Refused(_) => p.(history := SetLast(p.history, ClientStreamError, now), isStreaming := false)
    case Delivered(received, broken) =>
      var st := ReadAll(Reader(p.history, ""), received);
      ReadAllTouchesOnlyLast(Reader(p.history, ""), received);
      var h := if broken then SetLast(st.history, ClientStreamError, now) else st.history;
      p.(history := h, isStreaming := false)
  }

  lemma {:induction false} ReadAllTouchesOnlyLast(st: Reader, received: seq<string>)
    ensures var r := ReadAll(st, received);
      && |r.history| == |st.history|
      && forall i :: 0 <= i < |st.history| - 1 ==> r.history[i] == st.history[i]
    decreases |received|
  {
    if |received| > 0 {
      var st' := ApplyAll(st, DecodeRead(received[0]));
      ApplyAllTouchesOnlyLast(st, DecodeRead(received[0]));
      ReadAllTouchesOnlyLast(st', received[1..]);
    }
  }

  /** One read holding whole frames is the events applied in order. */
  lemma ReadWhole(st: Reader, es: seq<Event>)
    ensures ReadAll(st, [Wire(es)]) == ApplyAll(st, es)
  {
    WireRoundTrip(es);
    assert [Wire(es)][1..] == [];
  }

  /** The route's events for a run, applied from an empty streamed
      answer: the streamed answer ends as the concatenation of what was
      yielded, or as the route's error text if the generator threw. */
  lemma ApplyRun(st: Reader, run: Generator, clock: nat -> string)
    requires st.streamed == ""
    ensures var r := ApplyAll(st, StreamEvents(run, clock));
      && |r.history| == |st.history|
      && r.streamed == (if run.thrown.Some? then StreamFailure else Concat(run.yielded))
      && (|st.history| > 0 && (run.thrown.Some? || |run.yielded| > 0) ==>
            r.history[|st.history| - 1].answer == r.streamed)
      && (|st.history| > 0 && run.thrown.None? && |run.yielded| == 0 ==>
            r.history[|st.history| - 1] == st.history[|st.history| - 1])
  {
    var es := StreamEvents(run, clock);
    var n := |run.yielded|;
    var chunks := es[..n];
    assert es == chunks + [es[n]];
    ApplyAllAppend(st, chunks, [es[n]]);
    ChunksConcatenate(st, chunks);
    assert Contents(chunks) == run.yielded;
    var mid := ApplyAll(st, chunks);
    assert ApplyAll(mid, [es[n]]) == Apply(mid, es[n]) by {
      assert [es[n]][1..] == [];
    }
    if n == 0 {
      assert chunks == [];
    }
  }

  /** What the generator's run looks like on the page: after the route's
      frames arrive in one piece, the last answer is the concatenation of
      what was yielded, or the route's error text if the generator threw;
      with nothing yielded and no error the answer is left as it was. */
  lemma StreamEndToEnd(p: Page, run: Generator, clock: nat -> string, now: string)
    requires |p.history| > 0
    ensures var r := HandleStreamingRequest(p, Delivered([Concat(StreamFrames(run, clock))], false), now);
      var last := |p.history| - 1;
      r.history[last].answer ==
        if run.thrown.Some? then StreamFailure
        else if |run.yielded| == 0 then p.history[last].answer
        else Concat(run.yielded)
  {
    var es := StreamEvents(run, clock);
    var st := Reader(p.history, "");
    assert Concat(StreamFrames(run, clock)) == Wire(es);
    ReadWhole(st, es);
    ApplyRun(st, run, clock);
  }

  /** `fetcher.data` handling: a successful JSON reply overwrites the last
      entry with its question, answer and timestamp (an empty timestamp
      falls back to the current time) and drops the streaming flag; any
      other reply leaves the history alone. */
  function ApplyReply(h: seq<Entry>, reply: Reply, now: string): (r: seq<Entry>)
    ensures |r| == |h|
    ensures forall i :: 0 <= i < |h| - 1 ==> r[i] == h[i]
    ensures !reply.Answered? ==> r == h
    ensures reply.Answered? && |h| > 0 ==>
      r[|h| - 1].question == reply.question && r[|h| - 1].answer == reply.answer && r[|h| - 1].streaming.None?
  {
    match reply
    case Answered(q, a, t) =>
      if |h| == 0 then h
      else h[..|h| - 1] + [Entry(q, a, if t == "" then now else t, None)]
    case _ => h
  }

  /** A form submit followed by the route's JSON reply: when `ask`
      succeeds, the entry the submit appended ends up holding the question
      and `ask`'s answer; when initialisation fails, it keeps its empty
      answer. */
  lemma FormRoundTrip(p: Page, now: string, server: Option<Chatbot>, o: Oracles, clock: nat -> string, later: string)
    requires Trim(p.message) != "" && !p.isStreaming && !p.useStreaming
    ensures var (p', out) := Submit(p, now);
      var h := Action(server, Request(None, Json(Text(out.message))), o, clock);
      var step := Ask(GetRagChatbot(server).0, p.message, o.build, o.retrieve, o.generate);
      h.response.JsonResponse? &&
      var last := ApplyReply(p'.history, h.response.reply, later)[|p.history|];
      && last.question == p.message
      && last.answer == (if step.outcome.Success? then step.outcome.value else "")
  {
    var (p', out) := Submit(p, now);
    SubmittedMessageIsValid(p, now);
    assert out == FormRequest(p.message);
    var h := Action(server, Request(None, Json(Text(p.message))), o, clock);
    var step := Ask(GetRagChatbot(server).0, p.message, o.build, o.retrieve, o.generate);
    JsonModeEchoes(server, p.message, None, o, clock);
    assert h.response.reply.Answered? <==> step.outcome.Success?;
  }
}
