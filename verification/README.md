# Real-time guardrails: a verified model of the streaming audit gateway

The gateway takes a prompt over HTTP and passes it to a generative model.
The model's answer streams back in chunks, and the gateway relays those
chunks to the client as server-sent events (SSE). Before it forwards a
chunk, the gateway appends it to the text relayed so far and has a second
model, the safety classifier, judge that whole context.

- If the classifier replies `SAFE`, the chunk is forwarded.
- If it replies anything else, the gateway sends one `[STOP]` event and
  ends the stream. It reads nothing more from the generator.
- If the classifier call fails, the chunk counts as safe (fail-open).

The model has six modules:

- `Json` (json.dfy): what the gateway uses from Python's `json` module.
  - Decoded request values and their Python truth value.
  - The exact string escaping of `json.dumps` with `ensure_ascii=True`.
    This covers short escapes, lower-case `\uXXXX` and UTF-16 surrogate
    pairs above U+FFFF.
  - The inverse of that escaping, `Unescape`, which reads hex digits in
    either case, as `json.loads` does.
- `Audit` (audit.dfy): `check_chunk_safety` given what the classifier
  call produced.
  - Python's `strip()` over its white-space set.
  - `upper()` over the characters that can turn into the letters of `SAFE`.
  - The fail-open rule.
- `Framing` (framing.dfy): the SSE frame written for a chunk or for the
  stop signal, and how a client reads it back.
- `Coordinator` (coordinator.dfy): `generate_and_audit_stream`.
  - Reference functions: `Events` (the events sent) and `AuditCount` (the
    classifier calls made).
  - A closed form: everything before the first unsafe verdict is forwarded,
    then one stop signal.
  - An imperative method with the source's loop, proved to write exactly
    the frames of `Events`.
- `StreamExamples` (stream_examples.dfy): the two stream unit tests,
  restated as facts about the model, and a stream in which an empty chunk
  gets its context audited twice.
- `Chat` (chat.dfy): validation of the `/chat` request body.

The generator is modelled as the finite sequence of chunks it would
produce. The classifier is modelled as a function of two things, the
call's number within the stream and the context it is shown. Its value
is what that call returns: `Reply(text)` or `Failed`. Each call is a
fresh request to a sampling model, so two calls on the same context may
disagree. This happens when a chunk is empty
(`StreamExamples.RepeatedContextExample`).

The handler tests only Python truthiness (main.py:126), so any truthy JSON
value is accepted as a prompt, not only a non-empty string: a number, a
list or an object too (`Chat.NonStringPromptAccepted`).

## Model

| member | source | states |
|---|---|---|
| Audit.IsSafe | main.py:72-79 | `check_chunk_safety` on what the call produced: a failed call is safe; a reply is safe exactly when `Upper(Strip(text)) == "SAFE"`, which SafeReplyAccepted and SafeReplyShape characterise as white space, the word SAFE in any case, and white space |
| Audit.Strip | main.py:72 | `strip()` as `rstrip()` after `lstrip()`; TrimStartShape and TrimEndShape pin down what each removes |
| Audit.Upper | main.py:72 | `upper()` character by character: the result has the input's length, and UpperAt gives each character's upper case in place |
| Audit.TrimStartShape | main.py:72 | `lstrip()` removes exactly a prefix of white space, and what is left is empty or starts with a non-space character |
| Audit.TrimEndShape | main.py:72 | `rstrip()` removes exactly a suffix of white space, and what is left is empty or ends with a non-space character |
| Audit.UpperIsSafeWord | main.py:72-75 | a word upper-cases to `SAFE` exactly when it is `safe` in some mixture of cases, with U+017F allowed for the `s` |
| Audit.SafeReplyAccepted | main.py:72-75 | every reply made of white space, the word SAFE in any case, and white space is judged safe |
| Audit.SafeReplyShape | main.py:72-75 | every reply judged safe splits into white space, the word SAFE in some case, and white space; with SafeReplyAccepted, this characterises the safe replies |
| Audit.ExactSafeReply | test_main.py:14-22 | the reply `SAFE` is judged safe |
| Audit.PaddedLowerCaseSafeReply | main.py:72-75 | the reply `" safe\n"` is judged safe |
| Audit.UnsafeReply | test_main.py:24-31 | the reply `UNSAFE` is judged unsafe |
| Audit.FailOpen | main.py:76-79 | a failed classifier call is judged safe, while an `UNSAFE` reply is not |
| Json.Escape | main.py:107-111 | the string body `json.dumps` writes with `ensure_ascii=True`: never shorter than its input; EscapePrintable, UnescapeEscape and EscapeInjective characterise it |
| Json.EscapePrintable | main.py:111 | `json.dumps` escaping yields only printable ASCII, so no line break |
| Json.EscapeCharVerbatim | main.py:111 | a character is written as itself exactly when it is printable ASCII and neither `"` nor `\` |
| Json.JoinSplitSurrogates | main.py:111 | the UTF-16 surrogate pair written for a character above U+FFFF joins back to that character |
| Json.UnescapeEscape | main.py:111 | decoding the escaped form of any string gives back that string |
| Json.EscapeInjective | main.py:111 | different strings escape to different texts |
| Framing.Frame | main.py:107-111 | the f-string `data: {json.dumps({'text': s})}` and a blank line, with s the chunk's text or `[STOP]`; FrameIsOneMessage, ParseFrameOfFrame, FrameInjective and StopLookalike characterise it |
| Framing.FrameIsOneMessage | main.py:107-111 | each frame starts with `data: `, ends with a blank line and has no other LF or CR, so it is exactly one SSE message |
| Framing.ParseFrameOfFrame | main.py:111 | a client that removes `data: ` and decodes the JSON object reads back exactly the event's text |
| Framing.FrameInjective | main.py:107-111 | two events have the same frame exactly when they carry the same text |
| Framing.StopLookalike | main.py:107-111 | a forwarded chunk has the same frame as the stop signal exactly when its text is `[STOP]` |
| Coordinator.Events | main.py:97-111 | the events of one stream: each chunk appended to the context, the context audited by the next numbered call, the chunk forwarded when safe, otherwise one stop signal and the end; EventsShape gives its closed form |
| Coordinator.AuditCount | main.py:97-108 | the number of classifier calls of one stream: one per chunk read, up to and including the first unsafe one (EventsShape, EventsAt) |
| Coordinator.ContextStep | main.py:92-102 | the first audit sees the first chunk alone; each later audit sees the previous context with the next chunk appended, even an empty chunk |
| Coordinator.ContextGrows | main.py:92-105 | every audit's context extends the context of every earlier audit |
| Coordinator.FirstUnsafeFrom | main.py:97-108 | the first position at or after i whose audit is unsafe: every audit before it is safe, and its own is unsafe unless it is the end |
| Coordinator.FirstUnsafeUnique | main.py:105 | a position with every earlier audit safe and its own unsafe (or the end) is the first unsafe position |
| Coordinator.RunFrom | main.py:97-111 | the stream from any chunk before the first unsafe one forwards the chunks up to it, then stops, with one audit per chunk read |
| Coordinator.EventsShape | main.py:97-111 | a stream is the chunks before the first unsafe one, forwarded in order, then one stop signal if some audit was unsafe; the number of audits equals the number of events |
| Coordinator.EventsAt | main.py:97-111 | event j is chunk j when j is before the first unsafe position, and the stop signal otherwise; the number of events equals the number of audits |
| Coordinator.EventsAllSafe | main.py:97-111 | when every audit is safe, every chunk is forwarded in order, no stop signal is sent, and there are as many audits as chunks |
| Coordinator.EventsFirstUnsafe | main.py:105-108 | when the first unsafe audit is at chunk k, chunks 0..k-1 are forwarded, then one stop signal, after exactly k+1 audits |
| Coordinator.EventsAudited | main.py:105-111 | there are never more events than chunks; every forwarded chunk is the chunk at its own position and passed its own audit; a stop signal comes only last, after an unsafe audit |
| Coordinator.UnreadChunks | main.py:105-108 | after an unsafe audit, further chunks from the generator change neither the events nor the number of audits |
| Coordinator.FailOpenStream | main.py:76-79 | across a whole stream, a failed audit has the same effect as a `SAFE` reply |
| Coordinator.UnreachableForwardsAll | main.py:76-79 | when every classifier call fails, every chunk is forwarded, with one audit per chunk |
| Coordinator.GenerateAndAuditStream | main.py:81-111 | the loop writes exactly the frames of the stream's events, in order, and makes exactly as many classifier calls as the reference count |
| StreamExamples.FullStreamExample | test_main.py:46-65 | with every audit safe, `Hello`, ` world` and `!` are forwarded in order after three audits |
| StreamExamples.RepeatedContextExample | main.py:99-105 | an empty chunk has its context audited a second time; when the first of those calls fails and the second replies `UNSAFE`, the previous chunk is forwarded and then the stop signal is sent |
| StreamExamples.StopsOnUnsafeExample | test_main.py:67-86 | with the second context judged unsafe, the first chunk is forwarded, then the stop signal after two audits, and the third chunk is never read |
| Chat.Chat | main.py:113-130 | a body that is not an object raises; otherwise a prompt that is missing or falsy gets 400 with `{"error": "Prompt is required"}`, and any other prompt starts a `text/event-stream` answer with status 200 on exactly that prompt |
| Chat.StreamedPromptIsTruthy | main.py:126-130 | a stream is started only on a truthy prompt, and on the very value the client sent |
| Chat.MissingPromptIsNull | main.py:123-127 | an absent prompt and a `null` prompt are both rejected with the same 400 answer |
| Chat.OnlyPromptMatters | main.py:122-130 | fields other than `prompt` do not change the answer |
| Chat.NonStringPromptAccepted | main.py:126-130 | a truthy non-string prompt, such as the number 1, starts a stream |
| Chat.EmptyPromptRejected | main.py:126-127 | an empty-string prompt is rejected with 400 |
| Chat.NoPromptRejected | test_main.py:102-107 | an empty body object gets 400 with `{"error": "Prompt is required"}` |
| Chat.PromptStreamed | test_main.py:90-100 | a body with prompt `a test prompt` gets a 200 `text/event-stream` answer streamed on that prompt |

## Left out

- The Flask application, CORS, environment variables, `load_dotenv` and `app.run` (main.py:1-31, 132-134) are framework set-up with no logic of their own.
- The generative-model client and its streaming call (main.py:28-29, 94) are network calls. Their result is modelled as the finite sequence of chunks.
- The classifier call (main.py:66-70) is a network call. It is modelled as a function from the call's number within the stream and the context to `Reply(text)` or `Failed`. Any exception it raises is `Failed`.
- The system prompt and the `GenerateContentConfig` parameters (main.py:44-63) only shape what the classifier replies. The function parameter covers every possible reply.
- Logging (main.py:64, 73, 77, 100) has no effect on the result.
- `stream_with_context`, `Response` and the HTTP transport (main.py:130) are not modelled. A streamed answer is modelled as the prompt it would be started on, and the frames of a stream are those of `Coordinator.GenerateAndAuditStream`.
- Laziness and concurrency are not modelled. The model treats the generator as a finite sequence read front to back. `Coordinator.UnreadChunks` states that nothing after an unsafe audit is read.
- Coordinator.GenerateAndAuditStream: the number of classifier calls is a ghost out-parameter, a record for the proof; the source keeps no such counter.
- A `response.text` of `None`, for a generated chunk or for the classifier's reply, is not modelled. A chunk is always a string. A `None` reply would raise inside the `try` and count as `Failed`.
- An exception raised while streaming is not modelled. The source does not handle it.
- Chat.Chat: a body that is not valid JSON, or that is not sent as JSON, makes `request.get_json()` (main.py:122) raise inside the handler, and the framework answers with a 4xx error. The model starts from the decoded value, so this case is not modelled. A decoded body that is not an object, `null` included, makes `data.get` raise; it is modelled only as `Raised`, with no status code, because the framework answers it.
- Audit.UpperChar: only ASCII letters and U+017F are upper-cased. The model does not show that other characters with multi-character or non-ASCII upper-case forms cannot spell `SAFE`.
- Json.Escape: lone surrogates cannot occur in a Dafny string, so `json.dumps`'s handling of them is not modelled.
- Json.Value: a number is kept as a real. Only whether it is zero matters to the handler.
