/**
 * The audit verdict: how one answer of the safety classifier, or the failure
 * of the call that asked for it, is reduced to "safe" (true) or "unsafe"
 * (false). The classifier itself is outside the model; only what came back
 * from it is.
 */
module Audit {

  /** What one call to the classifier produced: the text of its reply, or an
      exception raised by the call (network error, timeout, malformed
      response). */
  datatype AuditOutcome = Reply(text: string) | Failed

  /** The characters Python's `str.strip()` removes when given no argument:
      the Unicode white space of `str.isspace()`. */
  predicate IsSpace(c: char) {
    var n := c as int;
    (0x09 <= n <= 0x0D) || (0x1C <= n <= 0x20) || n == 0x85 || n == 0xA0 || n == 0x1680
    || (0x2000 <= n <= 0x200A) || n == 0x2028 || n == 0x2029 || n == 0x202F
    || n == 0x205F || n == 0x3000
  }

  predicate AllSpace(s: string) {
    forall i | 0 <= i < |s| :: IsSpace(s[i])
  }

  /** `s.lstrip()`: the longest suffix of `s` that does not start with white space. */
  function TrimStart(s: string): (r: string)
    ensures |r| <= |s|
  {
    if s != [] && IsSpace(s[0]) then TrimStart(s[1..]) else s
  }

  /** `s.rstrip()`: the longest prefix of `s` that does not end with white space. */
  function TrimEnd(s: string): (r: string)
    ensures |r| <= |s|
  {
    if s != [] && IsSpace(s[|s| - 1]) then TrimEnd(s[..|s| - 1]) else s
  }

  /** `s.lstrip()` removes a prefix of white space, and what is left does
      not start with white space. */
  lemma {:induction false} TrimStartShape(s: string)
    ensures TrimStart(s) == s[|s| - |TrimStart(s)|..]
    ensures AllSpace(s[..|s| - |TrimStart(s)|])
    ensures TrimStart(s) == [] || !IsSpace(TrimStart(s)[0])
  {
    if s != [] && IsSpace(s[0]) {
      TrimStartShape(s[1..]);
      var n := |s| - |TrimStart(s)|;
      assert s[1..][..n - 1] == s[1..n];
      assert forall i | 1 <= i < n :: s[i] == s[1..n][i - 1];
    }
  }

  /** `s.rstrip()` removes a suffix of white space, and what is left does
      not end with white space. */
  lemma {:induction false} TrimEndShape(s: string)
    ensures TrimEnd(s) == s[..|TrimEnd(s)|]
    ensures AllSpace(s[|TrimEnd(s)|..])
    ensures TrimEnd(s) == [] || !IsSpace(TrimEnd(s)[|TrimEnd(s)| - 1])
  {
    if s != [] && IsSpace(s[|s| - 1]) {
      var t := s[..|s| - 1];
      TrimEndShape(t);
      var n := |TrimEnd(s)|;
      assert t[..n] == s[..n];
      assert forall i | n <= i < |s| - 1 :: s[i] == t[n..][i - n];
    }
  }

  /** `s.strip()` */
  function Strip(s: string): string {
    TrimEnd(TrimStart(s))
  }

  /** `c.upper()` for the characters whose upper case is a single character
      that matters here: the ASCII letters, and U+017F (long s), whose upper
      case is `S`. Every other character is left as it is. */
  function UpperChar(c: char): char {
    if 'a' <= c <= 'z' then (c as int - 32) as char
    else if c as int == 0x17F then 'S'
    else c
  }

  /** `s.upper()`, character by character. */
  function Upper(s: string): (r: string)
    ensures |r| == |s|
  {
    if s == [] then [] else [UpperChar(s[0])] + Upper(s[1..])
  }

  /** `check_chunk_safety`, given what the classifier call produced: a reply
      is safe exactly when, stripped of surrounding white space and put in
      upper case, it reads `SAFE`; a failed call counts as safe (fail-open). */
  predicate IsSafe(outcome: AuditOutcome) {
    match outcome
    case Failed => true
    case Reply(text) => Upper(Strip(text)) == "SAFE"
  }

  // ---------------------------------------------------------------------
  // An independent description of the replies accepted as safe

  /** `w` is the word SAFE in any mixture of upper and lower case. */
  predicate SafeWord(w: string) {
    |w| == 4
    && (w[0] == 's' || w[0] == 'S' || w[0] as int == 0x17F)
    && (w[1] == 'a' || w[1] == 'A')
    && (w[2] == 'f' || w[2] == 'F')
    && (w[3] == 'e' || w[3] == 'E')
  }

  /** `s.upper()` puts each character in upper case where it stands. */
  lemma {:induction false} UpperAt(s: string, k: nat)
    requires k < |s|
    ensures Upper(s)[k] == UpperChar(s[k])
  {
    if k > 0 {
      UpperAt(s[1..], k - 1);
    }
  }

  lemma UpperIsSafeWord(w: string)
    ensures Upper(w) == "SAFE" <==> SafeWord(w)
  {
    if |w| == 4 {
      UpperAt(w, 0);
      UpperAt(w, 1);
      UpperAt(w, 2);
      UpperAt(w, 3);
      if SafeWord(w) {
        assert Upper(w) == "SAFE";
      }
    }
  }

  /** Leading white space is removed up to the first other character. */
  lemma {:induction false} TrimStartOfSpaces(lead: string, rest: string)
    requires AllSpace(lead)
    requires rest == [] || !IsSpace(rest[0])
    ensures TrimStart(lead + rest) == rest
  {
    if lead == [] {
      assert lead + rest == rest;
    } else {
      assert (lead + rest)[1..] == lead[1..] + rest;
      TrimStartOfSpaces(lead[1..], rest);
    }
  }

  /** Trailing white space is removed back to the last other character. */
  lemma {:induction false} TrimEndOfSpaces(body: string, trail: string)
    requires AllSpace(trail)
    requires body == [] || !IsSpace(body[|body| - 1])
    ensures TrimEnd(body + trail) == body
  {
    if trail == [] {
      assert body + trail == body;
    } else {
      var s := body + trail;
      assert s[..|s| - 1] == body + trail[..|trail| - 1];
      TrimEndOfSpaces(body, trail[..|trail| - 1]);
    }
  }

  /** `strip()` removes exactly the white space around a word that neither
      starts nor ends with white space. */
  lemma {:induction false} StripOfSpaces(lead: string, body: string, trail: string)
    requires AllSpace(lead) && AllSpace(trail)
    requires body != [] && !IsSpace(body[0]) && !IsSpace(body[|body| - 1])
    ensures Strip(lead + body + trail) == body
  {
    assert lead + body + trail == lead + (body + trail);
    TrimStartOfSpaces(lead, body + trail);
    TrimEndOfSpaces(body, trail);
  }

  /** Every reply made of white space, the word SAFE in any case, and white
      space again is judged safe. */
  lemma {:induction false} SafeReplyAccepted(lead: string, word: string, trail: string)
    requires AllSpace(lead) && SafeWord(word) && AllSpace(trail)
    ensures IsSafe(Reply(lead + word + trail))
  {
    StripOfSpaces(lead, word, trail);
    UpperIsSafeWord(word);
  }

  /** Only such replies are judged safe: any reply judged safe splits into
      white space, the word SAFE in some case, and white space. So `UNSAFE`,
      an empty reply and every other text are unsafe. */
  lemma SafeReplyShape(text: string) returns (i: nat, j: nat)
    requires IsSafe(Reply(text))
    ensures i <= j <= |text|
    ensures AllSpace(text[..i]) && SafeWord(text[i..j]) && AllSpace(text[j..])
  {
    var start := TrimStart(text);
    var word := TrimEnd(start);
    TrimStartShape(text);
    TrimEndShape(start);
    i := |text| - |start|;
    j := i + |word|;
    UpperIsSafeWord(word);
    assert text[i..j] == word;
    assert text[j..] == start[|word|..];
  }

  /** An exact `SAFE` reply is safe. */
  lemma ExactSafeReply()
    ensures IsSafe(Reply("SAFE"))
  {
    assert AllSpace("");
    SafeReplyAccepted("", "SAFE", "");
    assert "" + "SAFE" + "" == "SAFE";
  }

  /** Surrounding white space and lower case do not matter. */
  lemma PaddedLowerCaseSafeReply()
    ensures IsSafe(Reply(" safe\n"))
  {
    assert AllSpace(" ") && AllSpace("\n");
    SafeReplyAccepted(" ", "safe", "\n");
    assert " " + "safe" + "\n" == " safe\n";
  }

  /** An `UNSAFE` reply is unsafe. */
  lemma UnsafeReply()
    ensures !IsSafe(Reply("UNSAFE"))
  {
    assert AllSpace("");
    StripOfSpaces("", "UNSAFE", "");
    assert "" + "UNSAFE" + "" == "UNSAFE";
  }

  /** Fail-open: a failed classifier call counts as safe, unlike a reply that
      says `UNSAFE`. */
  lemma FailOpen()
    ensures IsSafe(Failed) && !IsSafe(Reply("UNSAFE"))
  {
    UnsafeReply();
  }
}
