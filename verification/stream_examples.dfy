/**
 * The streams of the source's unit tests, as facts about the model. Each
 * test scripts the classifier call by call; here the classifier is any
 * function that gives the scripted answers to the calls the stream makes.
 */
module StreamExamples {

  import opened Audit
  import opened Framing
  import opened Coordinator

  /** Three chunks, every audit safe: three chunk events, in order, and three
      audits. */
  lemma FullStreamExample(classify: Classifier)
    requires forall n, context :: classify(n, context) == Reply("SAFE")
    ensures Events(["Hello", " world", "!"], classify) == [Chunk("Hello"), Chunk(" world"), Chunk("!")]
    ensures AuditCount(["Hello", " world", "!"], classify) == 3
  {
    ExactSafeReply();
    EventsAllSafe(["Hello", " world", "!"], classify);
  }

  /** The first context is judged safe and the second unsafe: the first
      chunk, then the stop signal, after two audits; the third chunk is never
      read, so what the classifier would say about it does not matter. */
  lemma StopsOnUnsafeExample(classify: Classifier)
    requires classify(0, "This is safe.") == Reply("SAFE")
    requires classify(1, "This is safe." + " This is not.") == Reply("UNSAFE")
    ensures Events(["This is safe.", " This is not.", " This should not be sent."], classify)
      == [Chunk("This is safe."), Stop]
    ensures AuditCount(["This is safe.", " This is not.", " This should not be sent."], classify) == 2
  {
    var chunks := ["This is safe.", " This is not.", " This should not be sent."];
    ScriptedVerdicts(chunks, classify);
    EventsFirstUnsafe(chunks, classify, 1);
    assert chunks[..1] == ["This is safe."];
  }

  /** The verdicts the second test scripts, stated on the audit positions. */
  lemma ScriptedVerdicts(chunks: seq<string>, classify: Classifier)
    requires |chunks| == 3 && chunks[0] == "This is safe." && chunks[1] == " This is not."
    requires classify(0, "This is safe.") == Reply("SAFE")
    requires classify(1, "This is safe." + " This is not.") == Reply("UNSAFE")
    ensures forall j | 0 <= j < 1 :: SafeAt(chunks, classify, j)
    ensures !SafeAt(chunks, classify, 1)
  {
    ContextStep(chunks, 0);
    ContextStep(chunks, 1);
    ExactSafeReply();
    UnsafeReply();
    assert SafeAt(chunks, classify, 0);
  }

  /** An empty chunk has the same context audited twice, and the two calls
      may disagree: here the first fails (and so counts as safe) and the
      second replies `UNSAFE`, so `x` is forwarded and then the stream stops. */
  lemma RepeatedContextExample(classify: Classifier)
    requires classify(0, "x") == Failed
    requires classify(1, "x") == Reply("UNSAFE")
    ensures Events(["x", ""], classify) == [Chunk("x"), Stop]
    ensures AuditCount(["x", ""], classify) == 2
  {
    var chunks := ["x", ""];
    RepeatedContextVerdicts(chunks, classify);
    EventsFirstUnsafe(chunks, classify, 1);
    assert chunks[..1] == ["x"];
  }

  /** The verdicts of that stream, stated on the audit positions: both see
      the context `x`. */
  lemma RepeatedContextVerdicts(chunks: seq<string>, classify: Classifier)
    requires |chunks| == 2 && chunks[0] == "x" && chunks[1] == ""
    requires classify(0, "x") == Failed
    requires classify(1, "x") == Reply("UNSAFE")
    ensures forall j | 0 <= j < 1 :: SafeAt(chunks, classify, j)
    ensures !SafeAt(chunks, classify, 1)
  {
    ContextStep(chunks, 0);
    ContextStep(chunks, 1);
    assert Context(chunks, 1) == "x" + "" == "x";
    UnsafeReply();
    assert SafeAt(chunks, classify, 0);
  }
}
