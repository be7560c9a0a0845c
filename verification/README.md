# portfolio-chatbot, modelled in Dafny

portfolio-chatbot is a résumé chatbot. A Remix page posts a question to the
`/me` route. The route asks a retrieval-augmented chatbot (`RAGChatbot`),
which retrieves pages of the résumé PDF, has a Gemini model answer from them,
and replies in one of two ways:

- as one JSON object;
- as a server-sent-event stream of `data: <json>\n\n` frames. The page
  decodes these frames into the chat history as they arrive.

This project models the sequential logic around the foreign calls:

- **Config** (`config.dfy`): the prompt normaliser `stripPromptIndent` and
  the capitalised name `PASCAL_NAME`.
- **Chatbot** (`chatbot.dfy`): the chatbot's two-field initialisation state,
  `initialize`, `searchDocuments`, `ask`, `askStream` and the
  `getRagChatbot` singleton.
  - The index build is an oracle value: a retriever, or the error it throws.
  - Retrieval is an oracle function from a retriever and a question to page
    contents, or an error.
  - The one-shot model is a function from context and question to text, or
    an error.
  - The streaming model is a function from context and question to its
    fragments and an optional error after them.
  - An async generator is represented by what it yielded and what it threw.
- **Events** (`events.dfy`): the three event objects the route streams.
  - Their `JSON.stringify` text, with string escaping as the QuoteJSONString
    operation of ECMA-262 specifies.
  - The page's reading of that text back.
  - The `data: …\n\n` frame.
- **Route** (`route.dfy`): the `/me` action. It covers:
  - body and message validation;
  - choosing the mode;
  - the JSON reply;
  - the frames of the stream: chunks, then exactly one `done` or one `error`.
- **Client** (`client.dfy`): the page.
  - The submit guard.
  - The streaming reader: it splits each read on `"\n\n"`, keeps the
    `data: ` segments and parses them.
  - The chat-history reducer.
  - The handler for the non-streaming reply.
  - Lemmas that join the route and the page: frame/parse round-trips, and the
    answer the page ends up showing for a generator's run.
- `strings.dfy` and `results.dfy` hold the JavaScript string operations the
  code relies on (`trim` with ECMAScript white space, `split`, `join`,
  `startsWith`) and the option/result types.

Timestamps (`new Date().toISOString()`) are parameters. In the route, `clock(i)`
is the timestamp of the `i`-th event; on the page, `now` is the current time.

Three points where the code differs from what one might expect:

- Streaming and one-shot answers are not always the same text.
  - `askStream` drops whitespace-only fragments. `ask` keeps the model's text
    whole.
  - `ask` replaces an empty answer with the no-answer string. `askStream`
    has no such fallback: a stream that ends without a fragment yields
    nothing.
  - `Chatbot.StreamAgreesWithAsk` proves that the two agree under four
    conditions. The model's one-shot answer is its stream's fragments
    concatenated. Every stream that completes delivers at least one
    fragment. Every fragment is non-blank. The stream for the retrieved
    context does not fail.
  - `Chatbot.StreamDropsBlankFragments` shows that the non-blank condition
    is needed. `Chatbot.EmptyGenerationDiverges` shows that the non-empty
    condition is needed.
- Rank fusion exists in the code but is not modelled. The retriever is a
  LangChain `EnsembleRetriever` over a vector and a keyword retriever with
  weights `[0.7, 0.3]` (`app/lib/rag-chatbot.server.ts:103-106`). The
  fusion happens inside LangChain, which is not shown, so the retriever is
  an oracle.
- Initialisation has no guard against two concurrent calls. Only the
  sequential behaviour is modelled.

The frame/parse round-trip is proved for payloads without a line break.
That condition is sufficient, not necessary: an inner `'\n'` can survive.
A trailing `'\n'` breaks the round-trip, as `Client.TrailingLineBreakLost`
shows. Route payloads never contain
`'\n'` (`Events.Encode`), so the round-trip applies to everything the route
writes (`Client.WireRoundTrip`).

## Model

| member | source | states |
|---|---|---|
| Strings.Trim | app/constants/config.ts:43 | `trim` gives the empty string exactly for whitespace-only input. Otherwise the result starts and ends with a non-white-space character. The result is a contiguous slice of the input with only white space before and after it. |
| Strings.TrimUnique | app/constants/config.ts:43 | Whatever white space surrounds a core that starts and ends with non-white-space, `trim` returns exactly that core. |
| Strings.TrimIdempotent | app/constants/config.ts:43 | Trimming a trimmed string changes nothing. |
| Strings.SplitOn | app/constants/config.ts:42 | `split` on a literal separator gives at least one part. Joining the parts with the separator gives back the input. No part holds an occurrence of the separator. Each separator taken is the leftmost occurrence after its part. |
| Strings.SplitJoin | app/constants/config.ts:42-45 | `split` inverts `join` when no part contains the separator's first character. |
| Config.PascalCase | app/constants/config.ts:32-33 | Same length as the name. The first character is upper-cased and the rest is unchanged. A lower-case first letter becomes upper case. |
| Config.PascalNameIsCapitalised | app/constants/config.ts:28-33 | `PASCAL_NAME` for the name `pathas` is `Pathas`. |
| Config.StripPromptIndent | app/constants/config.ts:40-45 | The output is empty exactly when every input line is whitespace-only. Otherwise it starts and ends with a non-white-space character, so never with `'\n'`. |
| Config.StripLines | app/constants/config.ts:41-45 | The output's lines are exactly the trimmed non-blank input lines, in order. |
| Config.StripLinesNonEmpty | app/constants/config.ts:44-45 | No output line is empty, unless the whole output is. |
| Config.StripLinesTrimmed | app/constants/config.ts:43 | Every output line equals its own trim. |
| Config.StripIdempotent | app/constants/config.ts:40-45 | Stripping a stripped prompt changes nothing. |
| Chatbot.Initialize | app/lib/rag-chatbot.server.ts:71-116 | A no-op once initialised. A successful build installs the built retriever and sets the flag. Success exactly when the flag ends up set. On an uninitialised chatbot, a failed build fails the call with the build's error and leaves the state unchanged. Keeps the invariant that the flag implies a retriever. |
| Chatbot.InitializeAtMostOnce | app/lib/rag-chatbot.server.ts:71-116 | Over any run of calls, at most one build is installed, and none once initialised. Failed builds are retried, so the attempts are the calls up to and including the first success. The invariant holds throughout. |
| Chatbot.GetRagChatbot | app/lib/rag-chatbot.server.ts:197-204 | Returns the stored instance, or creates, stores and returns a fresh one. Either way the slot then holds the returned chatbot. |
| Chatbot.GetRagChatbotIdempotent | app/lib/rag-chatbot.server.ts:197-204 | Fetching the singleton twice is fetching it once. |
| Chatbot.SearchDocuments | app/lib/rag-chatbot.server.ts:54-66 | Fails with the missing-retriever message when there is no retriever, and fails when retrieval fails. Otherwise the context is the pages joined by `"\n\n"` in retriever order, and it is blank exactly when every page is. |
| Chatbot.ContextBlank | app/lib/rag-chatbot.server.ts:63 | The joined context is whitespace-only exactly when every page is. |
| Chatbot.ContextRecoversPages | app/lib/rag-chatbot.server.ts:63 | Splitting the context on `"\n\n"` gives back the pages when no page holds `'\n'`. |
| Chatbot.Respond | app/lib/rag-chatbot.server.ts:126-151 | The outcome mapping after initialisation. A failed search or generation gives the generic error. Whitespace-only pages give the no-documents string. An empty generation gives the no-answer string. Any other generation, whitespace-only included, is returned unchanged. |
| Chatbot.RespondIgnoresModel | app/lib/rag-chatbot.server.ts:130-132 | With blank context the answer is the no-documents string, whatever the model would say. |
| Chatbot.Ask | app/lib/rag-chatbot.server.ts:121-152 | Changes state exactly as `initialize` does. Fails exactly when an uninitialised chatbot's build fails, with that build's error. Otherwise answers through the outcome mapping. |
| Chatbot.AskOutcomes | app/lib/rag-chatbot.server.ts:121-152 | A successful answer is one of the three fixed strings or a non-empty model generation. |
| Chatbot.StreamResponse | app/lib/rag-chatbot.server.ts:162-193 | Nothing yielded is blank. A failed search yields the generic error alone, and blank pages yield the no-documents string alone. Otherwise the non-blank fragments come first, in order, followed by exactly one generic error when the model stream fails. |
| Chatbot.AskStream | app/lib/rag-chatbot.server.ts:157-194 | An initialisation failure is thrown before anything is yielded. After that the generator never throws and yields the stream response. The state changes as `initialize` changes it. |
| Chatbot.StreamFailureIsLast | app/lib/rag-chatbot.server.ts:184-193 | A failing model stream yields its non-blank fragments and then one generic error, as the last element. |
| Chatbot.StreamAgreesWithAsk | app/lib/rag-chatbot.server.ts:126-193 | Four conditions: the model's one-shot answer is its fragments concatenated; every completing stream delivers at least one fragment; every fragment is non-blank; the stream for the retrieved context does not fail. Under them the concatenated stream equals `ask`'s answer. |
| Chatbot.EmptyGenerationDiverges | app/lib/rag-chatbot.server.ts:147 | A model that answers the empty string and streams no fragment makes `ask` answer the no-answer string while `askStream` yields nothing. |
| Chatbot.StreamDropsBlankFragments | app/lib/rag-chatbot.server.ts:184-188 | A lone-space fragment is dropped from the stream. `"Hello"," ","world"` streams as `Helloworld`. |
| Events.Escape | app/routes/me.ts:62-66 | A character's `JSON.stringify` escape is non-empty and holds no character below U+0020. |
| Events.Encode | app/routes/me.ts:62-66 | An event's JSON text is an object, `{`-opened, with no character below U+0020 and so no line break. |
| Events.Parse | app/routes/_index.tsx:112-117 | No contract of its own: the page's `JSON.parse` of one payload and its `type` check, giving the event or nothing. `Events.ParseEncode` fixes its meaning on everything the route writes. |
| Events.ParseEncode | app/routes/_index.tsx:111-114 | Parsing an event's JSON text gives back that event. |
| Events.EncodeInjective | app/routes/me.ts:62-84 | Distinct events are written as distinct texts. |
| Route.Validate | app/routes/me.ts:26-31 | A message passes exactly when it is a non-empty string, and it passes unchanged. |
| Route.WhitespaceMessageAccepted | app/routes/me.ts:26 | A whitespace-only message is not rejected. |
| Route.StreamEvents | app/routes/me.ts:58-87 | One chunk event per yielded value, in order, then one closing event: `done` when the generator finished, `error` with the fixed message when it threw. |
| Route.StreamFrames | app/routes/me.ts:60-87 | One `data: …\n\n` frame per event, in order. |
| Events.Frame | app/routes/me.ts:67 | No contract of its own: `data: ` before the payload and a blank line after it. `Client.PayloadRoundTrip` fixes its meaning: frames whose payloads hold no line break are read back as exactly those payloads. |
| Events.EventFrame | app/routes/me.ts:62-67 | The frame starts with `data: ` and ends with `"\n\n"`. Between them sits a payload without a line break that parses back to the event. |
| Route.Action | app/routes/me.ts:17-109 | An unreadable body gives 500 and an invalid message gives 400; neither touches the chatbot slot. Otherwise the singleton is consulted once. JSON mode gives 200 with the question and `ask`'s answer, or 500 with the initialisation error. Streaming mode gives the frames of `askStream`'s run. |
| Route.StreamingIff | app/routes/me.ts:21 | The response is a stream exactly for a valid message with the `stream` parameter equal to `true`. |
| Route.OtherStreamValuesAreJson | app/routes/me.ts:21 | `TRUE`, `1` or no parameter select JSON mode. |
| Route.ExactlyOneTerminal | app/routes/me.ts:70-87 | The closing event is last, every earlier event is a chunk, and no stream holds both `done` and `error`. |
| Route.ChunksInOrder | app/routes/me.ts:60-68 | The chunk contents are the yielded values, in generator order. |
| Route.StreamErrorOnlyFromInitialisation | app/routes/me.ts:54-89 | For a valid streaming request, the closing frame is `error` exactly when initialisation fails, and then it is the only frame. |
| Route.JsonModeEchoes | app/routes/me.ts:38-47 | In JSON mode the reply is 200 exactly when `ask` succeeds. It then echoes the message as the question and `ask`'s answer as the answer. |
| Route.SlotAfterAction | app/routes/me.ts:26-33 | After a valid request the slot holds a valid chatbot. After an invalid one it is unchanged. |
| Client.Submit | app/routes/_index.tsx:47-75 | A blank input or a stream in progress does nothing. Otherwise exactly one entry is appended, holding the question and an empty answer. The input is then cleared and the request is sent in the selected mode. |
| Client.SubmittedMessageIsValid | app/routes/_index.tsx:49 | Any message the page sends passes the route's validation. |
| Client.SubmitBlockedWhileStreaming | app/routes/_index.tsx:49 | After a streaming submit, a second submit does nothing. |
| Client.SetLast | app/routes/_index.tsx:121-131 | The history keeps its length and every entry but the last. Only the last entry's answer and timestamp are replaced. An empty history stays empty. |
| Client.Apply | app/routes/_index.tsx:117-148 | A chunk appends its content to the streamed answer and an error replaces it. Either one writes the answer and the event's timestamp into the last entry. `done` changes nothing. |
| Client.ApplyAllTouchesOnlyLast | app/routes/_index.tsx:117-148 | Any sequence of events preserves the history's length and every entry but the last. |
| Client.ApplyAll | app/routes/_index.tsx:117-148 | No contract of its own: the events of a read applied in order. `Client.ApplyAllTouchesOnlyLast` and `Client.ChunksConcatenate` fix its meaning. |
| Client.ChunksConcatenate | app/routes/_index.tsx:117-132 | After chunk events, the last answer is the concatenation of their contents, carrying the last chunk's timestamp. |
| Client.Payload | app/routes/_index.tsx:111-113 | A segment yields a payload exactly when it starts with `data: `, and prefix plus payload is the segment. |
| Client.PayloadRoundTrip | app/routes/_index.tsx:109-114 | Frames whose payloads hold no line break are read back as exactly those payloads, in order. |
| Client.TrailingLineBreakLost | app/routes/_index.tsx:109-114 | A payload ending in `'\n'` comes back without it. |
| Client.WireRoundTrip | app/routes/_index.tsx:103-114 | A read holding the route's frames delivers exactly their events, in order. |
| Client.DecodeRead | app/routes/_index.tsx:108-153 | No contract of its own: one read's text split on blank lines, the `data: ` segments parsed, unparsable ones skipped. `Client.WireRoundTrip` fixes its meaning: a read holding the route's frames gives exactly their events. |
| Client.AlignedReads | app/routes/_index.tsx:103-108 | When every read ends on a frame boundary, reading in pieces equals reading everything at once. |
| Client.ReadAll | app/routes/_index.tsx:103-155 | No contract of its own: the read loop, decoding each read on its own. `Client.AlignedReads` fixes its meaning, and `Client.SplitFrameLost` shows that a frame cut right after `data: ` delivers no event. |
| Client.SplitFrameLost | app/routes/_index.tsx:103-114 | A frame cut right after `data: `, with the rest arriving in the next read, delivers no event. |
| Client.HandleStreamingRequest | app/routes/_index.tsx:77-174 | The streaming flag is always reset. Only the last entry changes. A refused fetch or broken connection leaves the page's own error text as the last answer. |
| Client.ApplyRun | app/routes/_index.tsx:117-148 | Applying the route's events for a run leaves the yielded values concatenated as the answer, or the route's error text if the generator threw. |
| Client.StreamEndToEnd | app/routes/_index.tsx:100-148 | After the route's frames arrive in one read, the last answer is the concatenation of what was yielded. It is the route's error text if the generator threw. It is unchanged if nothing was yielded. |
| Client.ApplyReply | app/routes/_index.tsx:176-191 | A successful reply overwrites the last entry with its question and answer and drops the streaming flag. Any other reply changes nothing. |
| Client.FormRoundTrip | app/routes/_index.tsx:176-191 | After a form submit and the route's reply, the appended entry holds the question. It also holds `ask`'s answer, or an empty answer if initialisation failed. |

## Left out

- Retrieval internals are oracles and no fusion formula is assumed. These are the ensemble of vector and BM25 retrievers with weights 0.7/0.3, the in-memory vector store, embeddings and PDF loading.
- The prompt template, the Gemini model set-up and the output parser are folded into the generation oracles.
- Concurrency is not modelled: execution is sequential. In the code two concurrent `initialize` calls could both build, because nothing guards against it.
- `ReadableStream`, `TextEncoder` and `TextDecoder` are not modelled: reads are text, not bytes. A multi-byte character cut across two reads is not modelled.
- Events.ParseEncode: the parser accepts only the three object layouts the route writes. It rejects other whitespace and key orders, and does not decode a surrogate pair written as two `\u` escapes. Such payloads count as unparsable, although `JSON.parse` would accept them. The route never writes them. A read that ends between the two line breaks of a frame does leave one: its payload ends in `'\n'`, which `JSON.parse` skips as white space and `Parse` rejects, so there the page delivers an event that the model drops.
- Route.Action: a body that is not JSON, or a JSON `null` that cannot be destructured, is represented as an unreadable body carrying the thrown message. Any non-string `message` value is represented as a non-text field.
- Route.Action: the stream response's headers and the `success` flags of the JSON replies are not modelled. The reply's variant carries that information.
- Logging (`console.*`), the `GET` loader, `meta` tags, rendering and scrolling are out of scope.
- Client.ApplyReply: in form mode, `fetcher.submit` and the `useEffect` trigger are not modelled. The route's reply is applied directly, once.
- Client.HandleStreamingRequest: React batches state updates, and the model applies them in order. The last entry ends up the same either way, because every update writes the answer streamed so far.
- Config.PascalCase: `toUpperCase` is modelled for the ASCII letters only. The configured name is ASCII.
