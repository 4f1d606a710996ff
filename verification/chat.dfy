/**
 * The `/chat` endpoint: how the decoded body of a POST request is turned
 * into either a 400 answer or a streamed answer whose events come from the
 * coordinator (module Coordinator) run on the request's prompt.
 */
module Chat {

  import opened Json

  /** What the handler hands back to the web framework. */
  datatype Response =
    /** A JSON answer with a status code. */
    | Rejected(status: int, body: Value)
    /** A streamed answer: the events of the coordinator run on `prompt`. */
    | EventStream(status: int, mimetype: string, prompt: Value)
    /** The handler raised an exception (the body is not a JSON object, so it
        has no `get`); the framework, not the handler, answers. */
    | Raised

  const EventStreamType: string := "text/event-stream"

  /** The answer to a request without a usable prompt. */
  const PromptRequired: Value := Object(map["error" := Str("Prompt is required")])

  /** Python's `d.get(key)`: the value under `key`, or None when it is absent. */
  function Get(fields: map<string, Value>, key: string): (v: Value)
    ensures key in fields ==> v == fields[key]
    ensures key !in fields ==> v == Null
  {
    if key in fields then fields[key] else Null
  }

  /** The handler, given the request body as `request.get_json()` decodes
      it (`Null` for a JSON `null` body). A request whose prompt is missing
      or falsy is rejected with 400 and a fixed error object; any other
      object body starts a stream on exactly its prompt. */
  function Chat(data: Value): (r: Response)
    ensures r.Raised? <==> !data.Object?
    ensures data.Object? ==> (r.EventStream? <==> "prompt" in data.fields && Truthy(data.fields["prompt"]))
    ensures r.Rejected? ==> r.status == 400 && r.body == PromptRequired
    ensures r.EventStream? ==> r.status == 200 && r.mimetype == EventStreamType
    ensures r.EventStream? ==> data.Object? && r.prompt == data.fields["prompt"]
  {
    match data
    case Object(fields) =>
      var prompt := Get(fields, "prompt");
      if !Truthy(prompt) then Rejected(400, PromptRequired)
      else EventStream(200, EventStreamType, prompt)
    case _ => Raised
  }

  /** A stream is only ever started on a truthy prompt, and every stream
      carries the prompt the client sent. */
  lemma StreamedPromptIsTruthy(data: Value)
    requires Chat(data).EventStream?
    ensures Truthy(Chat(data).prompt)
    ensures data == Object(data.fields) && Get(data.fields, "prompt") == Chat(data).prompt
  {
  }

  /** An absent prompt and a `null` prompt are answered alike: `get` gives
      None for both. */
  lemma MissingPromptIsNull(fields: map<string, Value>)
    ensures Chat(Object(fields - {"prompt"})) == Chat(Object(fields["prompt" := Null]))
    ensures Chat(Object(fields - {"prompt"})) == Rejected(400, PromptRequired)
  {
    assert "prompt" !in fields - {"prompt"};
  }

  /** Fields other than the prompt do not change the answer. */
  lemma OnlyPromptMatters(fields1: map<string, Value>, fields2: map<string, Value>)
    requires ("prompt" in fields1) == ("prompt" in fields2)
    requires "prompt" in fields1 ==> fields1["prompt"] == fields2["prompt"]
    ensures Chat(Object(fields1)) == Chat(Object(fields2))
  {
  }

  /** Any truthy value is accepted as a prompt, not only a non-empty string:
      a number is streamed on as it is. */
  lemma NonStringPromptAccepted()
    ensures Chat(Object(map["prompt" := Number(1.0)])) == EventStream(200, EventStreamType, Number(1.0))
  {
  }

  /** A prompt given as the empty string is rejected. */
  lemma EmptyPromptRejected()
    ensures Chat(Object(map["prompt" := Str("")])) == Rejected(400, PromptRequired)
  {
  }

  /** A body without a prompt is rejected with the fixed error object. */
  lemma NoPromptRejected()
    ensures Chat(Object(map[])) == Rejected(400, Object(map["error" := Str("Prompt is required")]))
  {
  }

  /** A body with a prompt starts an event stream on that prompt. */
  lemma PromptStreamed()
    ensures Chat(Object(map["prompt" := Str("a test prompt")]))
      == EventStream(200, "text/event-stream", Str("a test prompt"))
  {
  }
}
