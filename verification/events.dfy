/** The server-sent events the `/me` route writes and the page reads: the
    three event objects, their JSON text (as `JSON.stringify` writes it),
    the reading of that text back (as `JSON.parse` followed by the page's
    field accesses sees it), and the `data: ...` framing around it. */
module Events {
  import opened Results
  import opened Strings

  /** `{type: 'chunk', content, timestamp}`, `{type: 'done', timestamp}`
      and `{type: 'error', content, timestamp}`. Timestamps are opaque. */
  datatype Event =
    | Chunk(content: string, timestamp: string)
    | Done(timestamp: string)
    | Error(content: string, timestamp: string)

  /** No character below U+0020: every character is at least a space. */
  predicate Printable(s: string) {
    forall c :: c in s ==> ' ' <= c
  }

  lemma PrintableAppend(a: string, b: string)
    requires Printable(a) && Printable(b)
    ensures Printable(a + b)
  {
  }

  /** Lower-case hexadecimal digit, as JSON.stringify writes them. */
  function HexDigit(d: nat): (c: char)
    requires d < 16
    ensures ' ' <= c
  {
    if d < 10 then ('0' as int + d) as char else ('a' as int + d - 10) as char
  }

  /** The value of a hexadecimal digit of either case. */
  function HexValue(c: char): Option<nat> {
    if '0' <= c <= '9' then Some(c as int - '0' as int)
    else if 'a' <= c <= 'f' then Some(c as int - 'a' as int + 10)
    else if 'A' <= c <= 'F' then Some(c as int - 'A' as int + 10)
    else None
  }

  lemma HexRoundTrip(d: nat)
    requires d < 16
    ensures HexValue(HexDigit(d)) == Some(d)
  {
  }

  /** How JSON.stringify writes one character inside a string literal:
      quote and backslash are escaped, the five control characters with a
      short escape get it, the other control characters get `\u00xx`, and
      everything else is written as is. No character below U+0020
      survives. */
  function Escape(c: char): (r: string)
    ensures |r| > 0 && Printable(r)
  {
    if c == '"' then "\\\""
    else if c == '\\' then "\\\\"
    else if c == '\U{8}' then "\\b"
    else if c == '\t' then "\\t"
    else if c == '\n' then "\\n"
    else if c == '\U{C}' then "\\f"
    else if c == '\r' then "\\r"
    else if c < ' ' then "\\u00" + [HexDigit(c as int / 16), HexDigit(c as int % 16)]
    else [c]
  }

  function EscapeAll(s: string): (r: string)
    ensures Printable(r)
    decreases |s|
  {
    if |s| == 0 then ""
    else
      var r := Escape(s[0]) + EscapeAll(s[1..]);
      PrintableAppend(Escape(s[0]), EscapeAll(s[1..]));
      r
  }

  /** `JSON.stringify` of a string. */
  function Quote(s: string): (r: string)
    ensures Printable(r)
  {
    PrintableAppend("\"", EscapeAll(s));
    PrintableAppend("\"" + EscapeAll(s), "\"");
    "\"" + EscapeAll(s) + "\""
  }

  const ChunkHead := "{\"type\":\"chunk\",\"content\":"
  const ErrorHead := "{\"type\":\"error\",\"content\":"
  const DoneHead := "{\"type\":\"done\",\"timestamp\":"
  const StampKey := ",\"timestamp\":"

  /** The three heads open an object and hold no character below U+0020. */
  lemma HeadsOpenObjects()
    ensures Printable(ChunkHead) && ChunkHead[0] == '{'
    ensures Printable(DoneHead) && DoneHead[0] == '{'
    ensures Printable(ErrorHead) && ErrorHead[0] == '{'
  {
    ChunkHeadPrintable();
    DoneHeadPrintable();
    ErrorHeadPrintable();
  }

  lemma ChunkHeadPrintable() ensures Printable(ChunkHead) {}
  lemma DoneHeadPrintable() ensures Printable(DoneHead) {}
  lemma ErrorHeadPrintable() ensures Printable(ErrorHead) {}

  /** The head of an event's text. */
  function Head(e: Event): string {
    match e
    case Chunk(_, _) => ChunkHead
    case Done(_) => DoneHead
    case Error(_, _) => ErrorHead
  }

  /** The rest of an event's text. */
  function Body(e: Event): string {
    match e
    case Chunk(c, t) => Fields(c, t)
    case Done(t) => Stamp(t)
    case Error(c, t) => Fields(c, t)
  }

  /** `JSON.stringify` of an event object, keys in insertion order. The
      text is an object holding no character below U+0020, so in
      particular no line break. */
  function Encode(e: Event): (r: string)
    ensures Printable(r)
    ensures '\n' !in r
    ensures |r| > 0 && r[0] == '{'
  {
    var head := Head(e);
    var body := Body(e);
    HeadsOpenObjects();
    PrintableAppend(head, body);
    assert (head + body)[0] == head[0];
    head + body
  }

  /** The closing part of the done event: the quoted timestamp. */
  function Stamp(t: string): (r: string)
    ensures Printable(r)
  {
    assert Printable("}");
    PrintableAppend(Quote(t), "}");
    Quote(t) + "}"
  }

  /** The closing part of a content-and-timestamp event. */
  function Fields(c: string, t: string): (r: string)
    ensures Printable(r)
  {
    assert Printable(StampKey);
    PrintableAppend(StampKey, Stamp(t));
    PrintableAppend(Quote(c), StampKey + Stamp(t));
    Quote(c) + (StampKey + Stamp(t))
  }

  /** Reads the escape sequence after a backslash: the character it
      stands for and how many characters it took. */
  function Unescape(s: string): (r: Option<(char, nat)>)
    ensures r.Some? ==> 1 <= r.value.1 <= |s|
  {
    if |s| == 0 then None
    else if s[0] == '"' then Some(('"', 1))
    else if s[0] == '\\' then Some(('\\', 1))
    else if s[0] == '/' then Some(('/', 1))
    else if s[0] == 'b' then Some(('\U{8}', 1))
    else if s[0] == 'f' then Some(('\U{C}', 1))
    else if s[0] == 'n' then Some(('\n', 1))
    else if s[0] == 'r' then Some(('\r', 1))
    else if s[0] == 't' then Some(('\t', 1))
    else if s[0] == 'u' && |s| >= 5 then
      match (HexValue(s[1]), HexValue(s[2]), HexValue(s[3]), HexValue(s[4]))
      case (Some(a), Some(b), Some(c), Some(d)) =>
        var n := ((a * 16 + b) * 16 + c) * 16 + d;
        if n < 0x1_0000 && !(0xD800 <= n < 0xE000) then Some((n as char, 5)) else None
      case _ => None
    else None
  }

  /** Prepends a character to the text part of a successful read. */
  function Prepend(c: char, r: Option<(string, string)>): Option<(string, string)> {
    match r
    case None => None
    case Some((text, rest)) => Some(([c] + text, rest))
  }

  /** Reads the inside of a JSON string literal up to its closing quote:
      the decoded text and what follows the quote. A raw character below
      U+0020, a bad escape or a missing closing quote is a syntax
      error. */
  function ParseChars(s: string): Option<(string, string)>
    decreases |s|
  {
    if |s| == 0 then None
    else if s[0] == '"' then Some(("", s[1..]))
    else if s[0] == '\\' then
      match Unescape(s[1..])
      case None => None
      case Some((c, n)) => Prepend(c, ParseChars(s[1 + n..]))
    else if s[0] < ' ' then None
    else Prepend(s[0], ParseChars(s[1..]))
  }

  /** Reads a JSON string literal at the start of `s`. */
  function ParseString(s: string): Option<(string, string)> {
    if |s| > 0 && s[0] == '"' then ParseChars(s[1..]) else None
  }

  /** Reads `"content",timestamp":"stamp"}` (content, then timestamp). */
  function ParseFields(s: string): Option<(string, string)> {
    match ParseString(s)
    case None => None
    case Some((content, rest)) =>
      if StartsWith(rest, StampKey) then
        match ParseString(rest[|StampKey|..])
        case None => None
        case Some((stamp, tail)) => if tail == "}" then Some((content, stamp)) else None
      else None
  }

  /** What the page gets from one payload: the event it describes, or
      nothing when the text is not one of the three event objects. */
  function Parse(s: string): Option<Event> {
    if StartsWith(s, ChunkHead) then
      match ParseFields(s[|ChunkHead|..])
      case None => None
      case Some((c, t)) => Some(Chunk(c, t))
    else if StartsWith(s, ErrorHead) then
      match ParseFields(s[|ErrorHead|..])
      case None => None
      case Some((c, t)) => Some(Error(c, t))
    else if StartsWith(s, DoneHead) then
      match ParseString(s[|DoneHead|..])
      case None => None
      case Some((t, tail)) => if tail == "}" then Some(Done(t)) else None
    else None
  }

  /** Reading one escaped character gives that character back. */
  lemma ParseEscape(c: char, t: string)
    ensures ParseChars(Escape(c) + t) == Prepend(c, ParseChars(t))
  {
    var s := Escape(c) + t;
    if c == '"' || c == '\\' || c == '\U{8}' || c == '\t' || c == '\n' || c == '\U{C}' || c == '\r' {
      assert s[0] == '\\' && s[2..] == t;
      assert s[1..][0] == s[1];
    } else if c < ' ' {
      var h1 := HexDigit(c as int / 16);
      var h2 := HexDigit(c as int % 16);
      assert s == ['\\', 'u', '0', '0', h1, h2] + t;
      HexRoundTrip(c as int / 16);
      HexRoundTrip(c as int % 16);
      var u := s[1..];
      assert u[0] == 'u' && u[1] == '0' && u[2] == '0' && u[3] == h1 && u[4] == h2;
      assert Unescape(u) == Some((c, 5));
      assert s[6..] == t;
    } else {
      assert s[0] == c && s[1..] == t;
    }
  }

  /** Reading an escaped string followed by a closing quote gives the
      string back, and what follows the quote. */
  lemma {:induction false} ParseEscapeAll(x: string, rest: string)
    ensures ParseChars(EscapeAll(x) + "\"" + rest) == Some((x, rest))
    decreases |x|
  {
    if |x| == 0 {
      assert EscapeAll(x) + "\"" + rest == "\"" + rest;
    } else {
      ParseEscapeAll(x[1..], rest);
      assert EscapeAll(x) + "\"" + rest == Escape(x[0]) + (EscapeAll(x[1..]) + "\"" + rest);
      ParseEscape(x[0], EscapeAll(x[1..]) + "\"" + rest);
      assert [x[0]] + x[1..] == x;
    }
  }

  /** A quoted string reads back as itself. */
  lemma ParseQuote(x: string, rest: string)
    ensures ParseString(Quote(x) + rest) == Some((x, rest))
  {
    var s := Quote(x) + rest;
    assert s[1..] == EscapeAll(x) + "\"" + rest;
    ParseEscapeAll(x, rest);
  }

  lemma ParseStamp(t: string)
    ensures ParseString(Stamp(t)) == Some((t, "}"))
  {
    ParseQuote(t, "}");
  }

  lemma ParseFieldsQuoted(c: string, t: string)
    ensures ParseFields(Fields(c, t)) == Some((c, t))
  {
    var after := StampKey + Stamp(t);
    ParseQuote(c, after);
    StartsWithAppend(StampKey, Stamp(t));
    ParseStamp(t);
  }

  lemma ParseChunk(c: string, t: string)
    ensures Parse(ChunkHead + Fields(c, t)) == Some(Chunk(c, t))
  {
    StartsWithAppend(ChunkHead, Fields(c, t));
    ParseFieldsQuoted(c, t);
  }

  lemma ParseError(c: string, t: string)
    ensures Parse(ErrorHead + Fields(c, t)) == Some(Error(c, t))
  {
    var s := ErrorHead + Fields(c, t);
    StartsWithAppend(ErrorHead, Fields(c, t));
    assert !StartsWith(s, ChunkHead) by {
      assert s[9] == ErrorHead[9] != ChunkHead[9];
    }
    ParseFieldsQuoted(c, t);
  }

  lemma ParseDone(t: string)
    ensures Parse(DoneHead + Stamp(t)) == Some(Done(t))
  {
    var s := DoneHead + Stamp(t);
    StartsWithAppend(DoneHead, Stamp(t));
    assert !StartsWith(s, ChunkHead) && !StartsWith(s, ErrorHead) by {
      assert s[9] == DoneHead[9] != ChunkHead[9] && DoneHead[9] != ErrorHead[9];
    }
    ParseStamp(t);
  }

  /** Every event reads back as itself. */
  lemma ParseEncode(e: Event)
    ensures Parse(Encode(e)) == Some(e)
  {
    assert Encode(e) == Head(e) + Body(e);
    match e
    case Chunk(c, t) => ParseChunk(c, t);
    case Error(c, t) => ParseError(c, t);
    case Done(t) => ParseDone(t);
  }

  /** Distinct events are written as distinct texts. */
  lemma EncodeInjective(e1: Event, e2: Event)
    requires Encode(e1) == Encode(e2)
    ensures e1 == e2
  {
    ParseEncode(e1);
    ParseEncode(e2);
  }

  const DataPrefix := "data: "
  const FrameEnd := "\n\n"

  /** One server-sent-event frame around a payload. */
  function Frame(payload: string): string {
    DataPrefix + payload + FrameEnd
  }

  /** The frame the route writes for one event: it opens with the prefix
      and closes with the terminator, and between them sits a payload
      without a line break that parses back to the event. */
  function EventFrame(e: Event): (r: string)
    ensures |r| >= |DataPrefix| + |FrameEnd| && StartsWith(r, DataPrefix) && EndsWith(r, FrameEnd)
    ensures var p := r[|DataPrefix|..|r| - |FrameEnd|]; '\n' !in p && Parse(p) == Some(e)
  {
    ParseEncode(e);
    var p := Encode(e);
    var r := Frame(p);
    assert r[|DataPrefix|..|r| - |FrameEnd|] == p;
    r
  }
}
