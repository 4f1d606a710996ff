/**
 * Transport framing: how each event of the stream is written as one
 * server-sent-event message, `data: ` followed by the JSON object
 * `{"text": ...}` and a blank line, and how a client reads it back.
 */
module Framing {

  import opened Json

  /** One event of the stream: a chunk forwarded to the client, or the signal
      that the stream was cut off. The two stay distinct here even where
      their frames do not (see StopLookalike). */
  datatype Event = Chunk(text: string) | Stop

  /** The text carried by the stop signal. */
  const StopText: string := "[STOP]"

  /** The string placed under "text" in the event's JSON object. */
  function Payload(e: Event): string {
    match e
    case Chunk(t) => t
    case Stop => StopText
  }

  /** What comes before the escaped payload: the SSE field name and the start
      of the object as json.dumps writes it, with its default `": "` separator. */
  const FramePrefix: string := "data: {\"text\": \""

  /** What follows the escaped payload: the end of the object and the blank
      line that ends an SSE message. */
  const FrameSuffix: string := "\"}\n\n"

  /** The message written for an event. */
  function Frame(e: Event): string {
    FramePrefix + Escape(Payload(e)) + FrameSuffix
  }

  /** No character of `s` ends an SSE line: neither LF nor CR. */
  predicate NoLineBreak(s: string) {
    forall i | 0 <= i < |s| :: s[i] != '\n' && s[i] != '\r'
  }

  lemma NoLineBreakConcat(a: string, b: string)
    requires NoLineBreak(a) && NoLineBreak(b)
    ensures NoLineBreak(a + b)
  {
    forall i | 0 <= i < |a + b|
      ensures (a + b)[i] != '\n' && (a + b)[i] != '\r'
    {
      if i >= |a| {
        assert (a + b)[i] == b[i - |a|];
      }
    }
  }

  /** Printable text holds no line break. */
  lemma PrintableNoLineBreak(t: string)
    requires Printable(t)
    ensures NoLineBreak(t)
  {
  }

  /** A body without line breaks, wrapped in the frame's prefix and suffix,
      is one SSE message. */
  lemma WrappedIsOneMessage(body: string, f: string)
    requires NoLineBreak(body)
    requires f == FramePrefix + body + FrameSuffix
    ensures f[..6] == "data: "
    ensures |f| >= 2 && f[|f| - 2..] == "\n\n"
    ensures NoLineBreak(f[..|f| - 2])
  {
    NoLineBreakConcat(FramePrefix, body);
    NoLineBreakConcat(FramePrefix + body, "\"}");
    assert f[..|f| - 2] == FramePrefix + body + "\"}";
    assert f[..6] == FramePrefix[..6];
  }

  /** Each frame is exactly one SSE message: it starts with the `data: `
      field and its only line breaks are the blank line at its end, so no
      payload can split a message or end it early. */
  lemma FrameIsOneMessage(e: Event)
    ensures Frame(e)[..6] == "data: "
    ensures |Frame(e)| >= 2 && Frame(e)[|Frame(e)| - 2..] == "\n\n"
    ensures NoLineBreak(Frame(e)[..|Frame(e)| - 2])
  {
    var body := Escape(Payload(e));
    EscapePrintable(Payload(e));
    PrintableNoLineBreak(body);
    WrappedIsOneMessage(body, Frame(e));
  }

  /** What a client reads from one message: `json.loads` of what follows
      `data: `, and then the value under "text"; None when the message does
      not have the shape Frame gives it. */
  function ParseFrame(f: string): Option<string> {
    if |f| >= |FramePrefix| + |FrameSuffix|
      && f[..|FramePrefix|] == FramePrefix
      && f[|f| - |FrameSuffix|..] == FrameSuffix
    then Unescape(f[|FramePrefix|..|f| - |FrameSuffix|])
    else None
  }

  /** A client reads back exactly the text the event carries. */
  lemma ParseFrameOfFrame(e: Event)
    ensures ParseFrame(Frame(e)) == Some(Payload(e))
  {
    var f := Frame(e);
    var body := Escape(Payload(e));
    assert f[..|FramePrefix|] == FramePrefix;
    assert f[|f| - |FrameSuffix|..] == FrameSuffix;
    assert f[|FramePrefix|..|f| - |FrameSuffix|] == body;
    UnescapeEscape(Payload(e));
  }

  /** Two events are framed alike exactly when they carry the same text:
      framing loses nothing but the difference between a chunk and the stop
      signal. */
  lemma FrameInjective(e1: Event, e2: Event)
    ensures Frame(e1) == Frame(e2) <==> Payload(e1) == Payload(e2)
  {
    ParseFrameOfFrame(e1);
    ParseFrameOfFrame(e2);
  }

  /** A forwarded chunk whose text is literally `[STOP]` is framed exactly
      like the stop signal, and it is the only chunk that is. */
  lemma StopLookalike(t: string)
    ensures Frame(Chunk(t)) == Frame(Stop) <==> t == StopText
  {
    FrameInjective(Chunk(t), Stop);
  }
}
