/**
 * The stream coordinator: it pulls chunks from the generation source one at
 * a time, appends each to the running context, has the whole context
 * audited, and either forwards the chunk or sends a single stop signal and
 * ends the stream without reading further.
 *
 * The generation source is the finite sequence of chunks the model would
 * produce; the classifier is a function from the call's number within the
 * stream and the context it is shown to what that call returns.
 */
module Coordinator {

  import opened Audit
  import opened Framing

  /** The safety classifier as the gateway sees it: what the n-th call of
      the stream (counting from 0) returns for the context it is given. Each
      call is a fresh request to a sampling model that may also fail, so two
      calls on the same context need not agree. */
  type Classifier = (nat, string) -> AuditOutcome

  /** The chunks joined in order. */
  function Concat(chunks: seq<string>): string {
    if chunks == [] then "" else Concat(chunks[..|chunks| - 1]) + chunks[|chunks| - 1]
  }

  /** Appending chunk i to the context of chunks 0..i-1 gives that of chunks 0..i. */
  lemma ConcatStep(chunks: seq<string>, i: nat)
    requires i < |chunks|
    ensures Concat(chunks[..i + 1]) == Concat(chunks[..i]) + chunks[i]
  {
    assert chunks[..i + 1][..i] == chunks[..i];
  }

  /** The context audited after chunk k has been appended: chunks 0..k joined. */
  function Context(chunks: seq<string>, k: nat): string
    requires k < |chunks|
  {
    Concat(chunks[..k + 1])
  }

  /** The verdict on the context audited after chunk k, by the stream's
      k-th classifier call. */
  predicate SafeAt(chunks: seq<string>, classify: Classifier, k: nat)
    requires k < |chunks|
  {
    IsSafe(classify(k, Context(chunks, k)))
  }

  /** The context starts as the first chunk alone, and each audit sees the
      previous context with the next chunk appended, even an empty one. */
  lemma ContextStep(chunks: seq<string>, k: nat)
    requires k < |chunks|
    ensures k == 0 ==> Context(chunks, k) == chunks[0]
    ensures k > 0 ==> Context(chunks, k) == Context(chunks, k - 1) + chunks[k]
  {
    ConcatStep(chunks, k);
    assert chunks[..0] == [];
  }

  /** The context only grows: each audit sees an extension of what every
      earlier audit saw. */
  lemma {:induction false} ContextGrows(chunks: seq<string>, j: nat, k: nat)
    requires j <= k < |chunks|
    ensures Context(chunks, j) <= Context(chunks, k)
    decreases k
  {
    if j < k {
      ContextGrows(chunks, j, k - 1);
      ContextStep(chunks, k);
      var c := Context(chunks, k - 1);
      assert Context(chunks, k)[..|c|] == c;
    }
  }

  // ---------------------------------------------------------------------
  // What the stream does, as functions of the chunks and the classifier

  /** The events sent for the chunks still to come, `rest`, when `context`
      holds every chunk read so far and `calls` classifier calls have been
      made: each chunk is appended to the context, the context is audited,
      and the chunk is forwarded if the verdict is safe; otherwise the stop
      signal is sent and nothing more is read. */
  function Run(rest: seq<string>, classify: Classifier, context: string, calls: nat): seq<Event>
    decreases |rest|
  {
    if rest == [] then []
    else
      var context' := context + rest[0];
      if !IsSafe(classify(calls, context')) then [Stop]
      else [Chunk(rest[0])] + Run(rest[1..], classify, context', calls + 1)
  }

  /** The number of classifier calls made for the chunks still to come. */
  function RunAudits(rest: seq<string>, classify: Classifier, context: string, calls: nat): nat
    decreases |rest|
  {
    if rest == [] then 0
    else
      var context' := context + rest[0];
      if !IsSafe(classify(calls, context')) then 1
      else 1 + RunAudits(rest[1..], classify, context', calls + 1)
  }

  /** The events of one stream, in the order they are sent. */
  function Events(chunks: seq<string>, classify: Classifier): seq<Event> {
    Run(chunks, classify, "", 0)
  }

  /** The number of classifier calls one stream makes. */
  function AuditCount(chunks: seq<string>, classify: Classifier): nat {
    RunAudits(chunks, classify, "", 0)
  }

  /** Every chunk, as a forwarded chunk event. */
  function Forwarded(chunks: seq<string>): (events: seq<Event>)
    ensures |events| == |chunks|
    ensures forall i | 0 <= i < |chunks| :: events[i] == Chunk(chunks[i])
  {
    seq(|chunks|, i requires 0 <= i < |chunks| => Chunk(chunks[i]))
  }

  // ---------------------------------------------------------------------
  // The same stream, described by where the first unsafe verdict falls

  /** The position of the first chunk whose audit comes back unsafe, at or
      after i; |chunks| when there is none. */
  function FirstUnsafeFrom(chunks: seq<string>, classify: Classifier, i: nat): (k: nat)
    requires i <= |chunks|
    ensures i <= k <= |chunks|
    ensures forall j | i <= j < k :: SafeAt(chunks, classify, j)
    ensures k < |chunks| ==> !SafeAt(chunks, classify, k)
    decreases |chunks| - i
  {
    if i == |chunks| || !SafeAt(chunks, classify, i) then i
    else FirstUnsafeFrom(chunks, classify, i + 1)
  }

  /** The position of the first chunk whose audit comes back unsafe; |chunks|
      when every audit is safe. */
  function FirstUnsafe(chunks: seq<string>, classify: Classifier): nat {
    FirstUnsafeFrom(chunks, classify, 0)
  }

  /** How many events a stream sends, and how many audits it makes: one per
      chunk up to and including the first unsafe one. */
  function StreamLength(chunks: seq<string>, classify: Classifier): nat {
    var k := FirstUnsafe(chunks, classify);
    if k < |chunks| then k + 1 else k
  }

  /** Before the first unsafe chunk, a chunk's verdict tells whether it is
      the first unsafe one. */
  lemma FirstUnsafeStep(chunks: seq<string>, classify: Classifier, i: nat)
    requires i < |chunks| && i <= FirstUnsafe(chunks, classify)
    ensures SafeAt(chunks, classify, i) <==> i < FirstUnsafe(chunks, classify)
  {
  }

  /** FirstUnsafe is the one position where every earlier audit is safe and
      its own is not (or the end, when every audit is safe). */
  lemma FirstUnsafeUnique(chunks: seq<string>, classify: Classifier, k: nat)
    requires k <= |chunks|
    requires forall j | 0 <= j < k :: SafeAt(chunks, classify, j)
    requires k < |chunks| ==> !SafeAt(chunks, classify, k)
    ensures FirstUnsafe(chunks, classify) == k
  {
  }

  lemma ForwardedCons(chunks: seq<string>, i: nat, k: nat)
    requires i < k <= |chunks|
    ensures Forwarded(chunks[i..k]) == [Chunk(chunks[i])] + Forwarded(chunks[i + 1..k])
  {
    var lhs := Forwarded(chunks[i..k]);
    var rhs := [Chunk(chunks[i])] + Forwarded(chunks[i + 1..k]);
    assert |lhs| == |rhs|;
    forall j | 0 <= j < |lhs|
      ensures lhs[j] == rhs[j]
    {
      if j > 0 {
        assert rhs[j] == Forwarded(chunks[i + 1..k])[j - 1];
      }
    }
  }

  /** Chunk i, read after chunks 0..i-1: a safe verdict forwards it and
      goes on; an unsafe one sends the stop signal and ends the stream. */
  lemma RunStep(chunks: seq<string>, classify: Classifier, i: nat)
    requires i < |chunks|
    ensures SafeAt(chunks, classify, i) ==>
      Run(chunks[i..], classify, Concat(chunks[..i]), i)
        == [Chunk(chunks[i])] + Run(chunks[i + 1..], classify, Concat(chunks[..i + 1]), i + 1)
    ensures SafeAt(chunks, classify, i) ==>
      RunAudits(chunks[i..], classify, Concat(chunks[..i]), i)
        == 1 + RunAudits(chunks[i + 1..], classify, Concat(chunks[..i + 1]), i + 1)
    ensures !SafeAt(chunks, classify, i) ==>
      Run(chunks[i..], classify, Concat(chunks[..i]), i) == [Stop]
      && RunAudits(chunks[i..], classify, Concat(chunks[..i]), i) == 1
  {
    var rest := chunks[i..];
    assert rest[0] == chunks[i] && rest[1..] == chunks[i + 1..];
    ConcatStep(chunks, i);
  }

  /** The tail of the stream that starts at chunk i, when every chunk before
      i was safe: the chunks from i up to the first unsafe one, then the stop
      signal if there is one. */
  lemma {:induction false} RunFrom(chunks: seq<string>, classify: Classifier, i: nat)
    requires i <= FirstUnsafe(chunks, classify)
    ensures var k := FirstUnsafe(chunks, classify);
      Run(chunks[i..], classify, Concat(chunks[..i]), i)
        == Forwarded(chunks[i..k]) + (if k < |chunks| then [Stop] else [])
    ensures RunAudits(chunks[i..], classify, Concat(chunks[..i]), i) == StreamLength(chunks, classify) - i
    decreases |chunks| - i
  {
    var k := FirstUnsafe(chunks, classify);
    var tail: seq<Event> := if k < |chunks| then [Stop] else [];
    if i == |chunks| {
      assert chunks[i..] == [] && chunks[i..k] == [];
    } else {
      RunStep(chunks, classify, i);
      FirstUnsafeStep(chunks, classify, i);
      if i < k {
        RunFrom(chunks, classify, i + 1);
        ForwardedCons(chunks, i, k);
        assert [Chunk(chunks[i])] + (Forwarded(chunks[i + 1..k]) + tail)
          == ([Chunk(chunks[i])] + Forwarded(chunks[i + 1..k])) + tail;
      } else {
        assert chunks[i..k] == [];
        assert [] + tail == tail;
      }
    }
  }

  /** The stream in closed form: the chunks before the first unsafe one,
      each forwarded in order, then the stop signal if some audit was
      unsafe; and one audit per event. */
  lemma EventsShape(chunks: seq<string>, classify: Classifier)
    ensures var k := FirstUnsafe(chunks, classify);
      Events(chunks, classify) == Forwarded(chunks[..k]) + (if k < |chunks| then [Stop] else [])
    ensures AuditCount(chunks, classify) == StreamLength(chunks, classify)
  {
    RunFrom(chunks, classify, 0);
    assert chunks[0..] == chunks && chunks[..0] == [];
  }

  /** The same, event by event. */
  lemma EventsAt(chunks: seq<string>, classify: Classifier)
    ensures |Events(chunks, classify)| == StreamLength(chunks, classify) == AuditCount(chunks, classify)
    ensures forall j | 0 <= j < |Events(chunks, classify)| ::
      Events(chunks, classify)[j]
        == if j < FirstUnsafe(chunks, classify) then Chunk(chunks[j]) else Stop
  {
    EventsShape(chunks, classify);
  }

  // ---------------------------------------------------------------------
  // Properties of the stream

  /** When every audit is safe, every chunk is forwarded, in order, and no
      stop signal is sent, after exactly one audit per chunk. */
  lemma EventsAllSafe(chunks: seq<string>, classify: Classifier)
    requires forall k | 0 <= k < |chunks| :: SafeAt(chunks, classify, k)
    ensures Events(chunks, classify) == Forwarded(chunks)
    ensures Stop !in Events(chunks, classify)
    ensures AuditCount(chunks, classify) == |chunks|
  {
    FirstUnsafeUnique(chunks, classify, |chunks|);
    EventsShape(chunks, classify);
    assert chunks[..|chunks|] == chunks;
    assert Events(chunks, classify) + [] == Forwarded(chunks);
  }

  /** When the first unsafe audit is that of chunk k, the chunks before k
      are forwarded, in order, followed by one stop signal, after exactly
      k + 1 audits. */
  lemma EventsFirstUnsafe(chunks: seq<string>, classify: Classifier, k: nat)
    requires k < |chunks|
    requires forall j | 0 <= j < k :: SafeAt(chunks, classify, j)
    requires !SafeAt(chunks, classify, k)
    ensures Events(chunks, classify) == Forwarded(chunks[..k]) + [Stop]
    ensures AuditCount(chunks, classify) == k + 1
  {
    FirstUnsafeUnique(chunks, classify, k);
    EventsShape(chunks, classify);
  }

  /** Every forwarded chunk is the chunk at its own position and passed its
      own audit; a stop signal is sent only as the last event, and only after
      an unsafe audit. So at most one stop signal is ever sent. */
  lemma EventsAudited(chunks: seq<string>, classify: Classifier)
    ensures |Events(chunks, classify)| <= |chunks|
    ensures forall j | 0 <= j < |Events(chunks, classify)| && Events(chunks, classify)[j].Chunk? ::
      Events(chunks, classify)[j].text == chunks[j] && SafeAt(chunks, classify, j)
    ensures forall j | 0 <= j < |Events(chunks, classify)| && Events(chunks, classify)[j].Stop? ::
      j == |Events(chunks, classify)| - 1 && !SafeAt(chunks, classify, j)
  {
    EventsAt(chunks, classify);
  }

  /** Appending chunks changes none of the contexts seen up to chunk k. */
  lemma ContextOfExtension(chunks: seq<string>, more: seq<string>, j: nat)
    requires j < |chunks|
    ensures Context(chunks + more, j) == Context(chunks, j)
  {
    assert (chunks + more)[..j + 1] == chunks[..j + 1];
  }

  /** Chunks appended after the first unsafe one do not move it. */
  lemma FirstUnsafeOfExtension(chunks: seq<string>, more: seq<string>, classify: Classifier)
    requires FirstUnsafe(chunks, classify) < |chunks|
    ensures FirstUnsafe(chunks + more, classify) == FirstUnsafe(chunks, classify)
  {
    var k := FirstUnsafe(chunks, classify);
    forall j | 0 <= j < k
      ensures SafeAt(chunks + more, classify, j)
    {
      ContextOfExtension(chunks, more, j);
      assert SafeAt(chunks, classify, j);
    }
    ContextOfExtension(chunks, more, k);
    FirstUnsafeUnique(chunks + more, classify, k);
  }

  /** Once an audit is unsafe the stream reads no further: whatever chunks
      the generator would have produced next change neither the events nor
      the number of audits. */
  lemma UnreadChunks(chunks: seq<string>, more: seq<string>, classify: Classifier)
    requires FirstUnsafe(chunks, classify) < |chunks|
    ensures Events(chunks + more, classify) == Events(chunks, classify)
    ensures AuditCount(chunks + more, classify) == AuditCount(chunks, classify)
  {
    var k := FirstUnsafe(chunks, classify);
    FirstUnsafeOfExtension(chunks, more, classify);
    EventsShape(chunks + more, classify);
    EventsShape(chunks, classify);
    assert (chunks + more)[..k] == chunks[..k];
  }

  /** Fail-open, for a whole stream: a failed audit has exactly the effect
      of a `SAFE` reply. `open` is the classifier with every failed call
      replaced by such a reply. */
  lemma FailOpenStream(chunks: seq<string>, classify: Classifier, open: Classifier)
    requires forall n, context :: open(n, context) == if classify(n, context).Failed? then Reply("SAFE") else classify(n, context)
    ensures Events(chunks, open) == Events(chunks, classify)
    ensures AuditCount(chunks, open) == AuditCount(chunks, classify)
  {
    ExactSafeReply();
    forall j | 0 <= j < |chunks|
      ensures SafeAt(chunks, open, j) == SafeAt(chunks, classify, j)
    {
    }
    FirstUnsafeUnique(chunks, open, FirstUnsafe(chunks, classify));
    EventsShape(chunks, classify);
    EventsShape(chunks, open);
  }

  /** With the classifier unreachable (every call fails), every chunk is
      forwarded. */
  lemma UnreachableForwardsAll(chunks: seq<string>, classify: Classifier)
    requires forall n, context :: classify(n, context) == Failed
    ensures Events(chunks, classify) == Forwarded(chunks)
    ensures AuditCount(chunks, classify) == |chunks|
  {
    EventsAllSafe(chunks, classify);
  }

  // ---------------------------------------------------------------------
  // generate_and_audit_stream

  /** The frames of the chunks before the first unsafe one, followed by the
      stop frame when some audit was unsafe, are the frames of the stream's
      events; and the stream makes one audit per event. */
  lemma FramesOfEvents(chunks: seq<string>, classify: Classifier, forwarded: seq<string>, stopped: bool)
    requires |forwarded| == FirstUnsafe(chunks, classify)
    requires forall j {:trigger forwarded[j]} | 0 <= j < |forwarded| :: forwarded[j] == Frame(Chunk(chunks[j]))
    requires stopped <==> FirstUnsafe(chunks, classify) < |chunks|
    ensures var frames := if stopped then forwarded + [Frame(Stop)] else forwarded;
      && |frames| == |Events(chunks, classify)| == AuditCount(chunks, classify)
      && forall j | 0 <= j < |frames| :: frames[j] == Frame(Events(chunks, classify)[j])
  {
    EventsAt(chunks, classify);
    var k := FirstUnsafe(chunks, classify);
    var frames := if stopped then forwarded + [Frame(Stop)] else forwarded;
    forall j | 0 <= j < |frames|
      ensures frames[j] == Frame(Events(chunks, classify)[j])
    {
      if j < k {
        assert Events(chunks, classify)[j] == Chunk(chunks[j]);
      } else {
        assert j == k && Events(chunks, classify)[j] == Stop;
      }
    }
  }

  /** Runs one stream: returns the frames written to the client, in order,
      and (as a ghost record) the number of classifier calls made. */
  method GenerateAndAuditStream(chunks: seq<string>, classify: Classifier)
    returns (frames: seq<string>, ghost audits: nat)
    ensures |frames| == |Events(chunks, classify)|
    ensures forall j | 0 <= j < |frames| :: frames[j] == Frame(Events(chunks, classify)[j])
    ensures audits == AuditCount(chunks, classify)
  {
    var context := "";
    frames := [];
    audits := 0;
    var i := 0;
    while i < |chunks|
      invariant 0 <= i <= |chunks| && i <= FirstUnsafe(chunks, classify)
      invariant context == Concat(chunks[..i])
      invariant |frames| == i && forall j {:trigger frames[j]} | 0 <= j < i :: frames[j] == Frame(Chunk(chunks[j]))
      invariant audits == i
    {
      var chunkText := chunks[i];
      ConcatStep(chunks, i);
      context := context + chunkText;
      audits := audits + 1;
      FirstUnsafeStep(chunks, classify, i);
      if !IsSafe(classify(i, context)) {
        FramesOfEvents(chunks, classify, frames, true);
        frames := frames + [Frame(Stop)];
        return;
      }
      frames := frames + [Frame(Chunk(chunkText))];
      i := i + 1;
    }
    FramesOfEvents(chunks, classify, frames, false);
  }
}
