/**
 * The parts of Python's `json` module the gateway relies on: the decoded
 * values a request body can hold, Python's truth value of such a value, and
 * the string escaping `json.dumps` performs with its default
 * `ensure_ascii=True`, together with its inverse.
 */
module Json {

  datatype Option<T> = None | Some(value: T)

  /** A decoded JSON value. `json.loads` gives an int or a float for a number;
      both are kept as a real, since only their being zero matters here. */
  datatype Value =
    | Null
    | Bool(b: bool)
    | Number(n: real)
    | Str(s: string)
    | Array(items: seq<Value>)
    | Object(fields: map<string, Value>)

  /** Python's `bool(v)` for a decoded value: None, False, zero, and the empty
      string, list and dict are falsy; everything else is truthy. */
  predicate Truthy(v: Value) {
    match v
    case Null => false
    case Bool(b) => b
    case Number(n) => n != 0.0
    case Str(s) => s != ""
    case Array(items) => items != []
    case Object(fields) => fields != map[]
  }

  /** Every character is printable ASCII (space through tilde). */
  predicate Printable(t: string) {
    forall i | 0 <= i < |t| :: 0x20 <= t[i] as int <= 0x7E
  }

  // ---------------------------------------------------------------------
  // Four-digit hexadecimal, as in the `\uXXXX` escape: written in lower
  // case, read in either case

  function HexDigit(d: int): (c: char)
    requires 0 <= d < 16
  {
    if d < 10 then ('0' as int + d) as char else ('a' as int + d - 10) as char
  }

  function HexValue(c: char): (r: Option<int>)
    ensures r.Some? ==> 0 <= r.value < 16
  {
    if '0' <= c <= '9' then Some(c as int - '0' as int)
    else if 'a' <= c <= 'f' then Some(c as int - 'a' as int + 10)
    else if 'A' <= c <= 'F' then Some(c as int - 'A' as int + 10)
    else None
  }

  function Hex4(n: int): (h: string)
    requires 0 <= n < 0x10000
    ensures |h| == 4
  {
    [HexDigit(n / 16 / 16 / 16), HexDigit(n / 16 / 16 % 16), HexDigit(n / 16 % 16), HexDigit(n % 16)]
  }

  function ParseHex4(h: string): (r: Option<int>)
    requires |h| == 4
    ensures r.Some? ==> 0 <= r.value < 0x10000
  {
    match (HexValue(h[0]), HexValue(h[1]), HexValue(h[2]), HexValue(h[3]))
    case (Some(a), Some(b), Some(c), Some(d)) => Some(((a * 16 + b) * 16 + c) * 16 + d)
    case _ => None
  }

  /** Reading back the four digits written for `n` gives `n`. */
  lemma ParseHex4Hex4(n: int)
    requires 0 <= n < 0x10000
    ensures ParseHex4(Hex4(n)) == Some(n)
  {
    var h := Hex4(n);
    assert HexValue(h[0]) == Some(n / 16 / 16 / 16);
    assert HexValue(h[1]) == Some(n / 16 / 16 % 16);
    assert HexValue(h[2]) == Some(n / 16 % 16);
    assert HexValue(h[3]) == Some(n % 16);
  }

  /** `\u` followed by the four hex digits of the code unit `n`. */
  function UnicodeEscape(n: int): (e: string)
    requires 0 <= n < 0x10000
    ensures |e| == 6
  {
    "\\u" + Hex4(n)
  }

  // ---------------------------------------------------------------------
  // Escaping, as json.dumps writes the characters of a string

  // ---------------------------------------------------------------------
  // UTF-16 surrogate pairs, for the characters beyond U+FFFF

  function HighSurrogate(n: int): (h: int)
    requires 0x10000 <= n < 0x110000
    ensures 0xD800 <= h < 0xDC00
  {
    0xD800 + (n - 0x10000) / 0x400
  }

  function LowSurrogate(n: int): (l: int)
    requires 0x10000 <= n < 0x110000
    ensures 0xDC00 <= l < 0xE000
  {
    0xDC00 + (n - 0x10000) % 0x400
  }

  /** The code point a high and a low surrogate stand for together. */
  function JoinSurrogates(h: int, l: int): (n: int)
    requires 0xD800 <= h < 0xDC00 && 0xDC00 <= l < 0xE000
    ensures 0x10000 <= n < 0x110000
  {
    0x10000 + (h - 0xD800) * 0x400 + (l - 0xDC00)
  }

  lemma JoinSplitSurrogates(n: int)
    requires 0x10000 <= n < 0x110000
    ensures JoinSurrogates(HighSurrogate(n), LowSurrogate(n)) == n
  {
  }

  /** The escape `json.dumps` writes for a character `\X`, for the
      characters that have a one-letter escape. */
  function ShortEscape(c: char): Option<char> {
    if c == '"' then Some('"')
    else if c == '\\' then Some('\\')
    else if c == '\n' then Some('n')
    else if c == '\r' then Some('r')
    else if c == '\t' then Some('t')
    else if c as int == 0x08 then Some('b')
    else if c as int == 0x0C then Some('f')
    else None
  }

  /** The character a one-letter escape `\X` stands for (JSON also allows `\/`). */
  function ShortUnescape(x: char): Option<char> {
    if x == '"' then Some('"')
    else if x == '\\' then Some('\\')
    else if x == '/' then Some('/')
    else if x == 'n' then Some('\n')
    else if x == 'r' then Some('\r')
    else if x == 't' then Some('\t')
    else if x == 'b' then Some(0x08 as char)
    else if x == 'f' then Some(0x0C as char)
    else None
  }

  /** How one character appears inside a JSON string written with
      `ensure_ascii=True`: a one-letter escape where there is one, printable
      ASCII as itself, any other character below U+10000 as `\uXXXX`, and a
      character beyond as the `\uXXXX\uXXXX` pair of its UTF-16 surrogates. */
  function EscapeChar(c: char): (e: string)
    ensures 1 <= |e| <= 12
  {
    if ShortEscape(c).Some? then ['\\', ShortEscape(c).value]
    else if 0x20 <= c as int <= 0x7E then [c]
    else if c as int < 0x10000 then UnicodeEscape(c as int)
    else UnicodeEscape(HighSurrogate(c as int)) + UnicodeEscape(LowSurrogate(c as int))
  }

  /** The characters `json.dumps` writes between the quotes of a string. */
  function Escape(s: string): (t: string)
    ensures |s| <= |t|
  {
    if s == [] then [] else EscapeChar(s[0]) + Escape(s[1..])
  }

  lemma PrintableConcat(a: string, b: string)
    requires Printable(a) && Printable(b)
    ensures Printable(a + b)
  {
    forall i | 0 <= i < |a + b|
      ensures 0x20 <= (a + b)[i] as int <= 0x7E
    {
      if i >= |a| {
        assert (a + b)[i] == b[i - |a|];
      }
    }
  }

  lemma UnicodeEscapePrintable(n: int)
    requires 0 <= n < 0x10000
    ensures Printable(UnicodeEscape(n))
  {
    var e := UnicodeEscape(n);
    assert e == ['\\', 'u', HexDigit(n / 16 / 16 / 16), HexDigit(n / 16 / 16 % 16), HexDigit(n / 16 % 16), HexDigit(n % 16)];
  }

  /** The two `\\uXXXX` escapes of a character beyond U+FFFF are printable. */
  lemma SurrogatePairPrintable(c: char)
    requires c as int >= 0x10000
    ensures Printable(EscapeChar(c))
  {
    var hi, lo := HighSurrogate(c as int), LowSurrogate(c as int);
    assert EscapeChar(c) == UnicodeEscape(hi) + UnicodeEscape(lo);
    UnicodeEscapePrintable(hi);
    UnicodeEscapePrintable(lo);
    PrintableConcat(UnicodeEscape(hi), UnicodeEscape(lo));
  }

  /** Each character is written in printable ASCII. */
  lemma EscapeCharPrintable(c: char)
    ensures Printable(EscapeChar(c))
  {
    if ShortEscape(c).Some? {
      var x := ShortEscape(c).value;
      assert EscapeChar(c) == ['\\', x];
      assert 0x20 <= x as int <= 0x7E;
    } else if 0x20 <= c as int <= 0x7E {
      assert EscapeChar(c) == [c];
    } else if c as int < 0x10000 {
      assert EscapeChar(c) == UnicodeEscape(c as int);
      UnicodeEscapePrintable(c as int);
    } else {
      SurrogatePairPrintable(c);
    }
  }

  /** A character is written as itself exactly when it is printable ASCII
      other than a quote or a backslash. */
  lemma EscapeCharVerbatim(c: char)
    ensures EscapeChar(c) == [c] <==> (0x20 <= c as int <= 0x7E && c != '"' && c != '\\')
  {
    if ShortEscape(c).Some? {
      assert |EscapeChar(c)| == 2;
    } else if 0x20 <= c as int <= 0x7E {
    } else if c as int < 0x10000 {
      assert |EscapeChar(c)| == 6;
    } else {
      assert |EscapeChar(c)| == 12;
    }
  }

  /** What json.dumps writes for a string is printable ASCII: in particular
      it holds no line break, whatever the string holds. */
  lemma {:induction false} EscapePrintable(s: string)
    ensures Printable(Escape(s))
  {
    if s != [] {
      EscapeCharPrintable(s[0]);
      EscapePrintable(s[1..]);
      PrintableConcat(EscapeChar(s[0]), Escape(s[1..]));
    }
  }

  // ---------------------------------------------------------------------
  // Unescaping, as json.loads reads the body of a string

  function Prepend(c: char, rest: Option<string>): Option<string> {
    match rest
    case Some(r) => Some([c] + r)
    case None => None
  }

  /** Reads the body of a JSON string back into the characters it denotes,
      accepting hex digits in either case as `json.loads` does. None when it
      is not a well-formed string body (a raw quote or control character,
      an unknown or truncated escape), and also for a surrogate that is not
      part of a high-low pair, which `json.loads` keeps as a lone surrogate
      but a `char` cannot hold. */
  function Unescape(t: string): Option<string>
    decreases |t|
  {
    if t == [] then Some([])
    else if t[0] == '\\' then
      if |t| < 2 then None
      else if ShortUnescape(t[1]).Some? then Prepend(ShortUnescape(t[1]).value, Unescape(t[2..]))
      else if t[1] != 'u' || |t| < 6 then None
      else
        match ParseHex4(t[2..6])
        case None => None
        case Some(v) =>
          if 0xD800 <= v < 0xDC00 then
            if |t| < 12 || t[6] != '\\' || t[7] != 'u' then None
            else
              match ParseHex4(t[8..12])
              case None => None
              case Some(w) =>
                if 0xDC00 <= w < 0xE000
                then Prepend(JoinSurrogates(v, w) as char, Unescape(t[12..]))
                else None
          else if 0xDC00 <= v < 0xE000 then None
          else Prepend(v as char, Unescape(t[6..]))
    else if t[0] == '"' || t[0] as int < 0x20 then None
    else Prepend(t[0], Unescape(t[1..]))
  }

  /** An escape written with upper-case hex digits reads like the one
      `json.dumps` writes. */
  lemma UpperCaseHexRead()
    ensures Unescape("\\u00E9") == Unescape("\\u00e9") == Some([0xE9 as char])
  {
    ReadHexE9();
    var upper, lower := "\\u00E9", "\\u00e9";
    assert upper[0] == '\\' && upper[1] == 'u' && upper[2..6] == "00E9" && upper[6..] == [];
    assert lower[0] == '\\' && lower[1] == 'u' && lower[2..6] == "00e9" && lower[6..] == [];
    assert ShortUnescape('u') == None && Unescape([]) == Some([]);
    assert Unescape(upper) == Prepend(0xE9 as char, Unescape(upper[6..]));
    assert Unescape(lower) == Prepend(0xE9 as char, Unescape(lower[6..]));
    assert [0xE9 as char] + [] == [0xE9 as char];
  }

  lemma ReadHexE9()
    ensures ParseHex4("00E9") == ParseHex4("00e9") == Some(0xE9)
  {
    assert HexValue('E') == HexValue('e') == Some(14);
    assert HexValue('9') == Some(9) && HexValue('0') == Some(0);
  }

  lemma ReadShortEscape(x: char, rest: string)
    requires ShortUnescape(x).Some?
    ensures Unescape(['\\', x] + rest) == Prepend(ShortUnescape(x).value, Unescape(rest))
  {
    var t := ['\\', x] + rest;
    assert t[0] == '\\' && t[1] == x && t[2..] == rest;
  }

  lemma ReadPlain(c: char, rest: string)
    requires 0x20 <= c as int <= 0x7E && c != '"' && c != '\\'
    ensures Unescape([c] + rest) == Prepend(c, Unescape(rest))
  {
    var t := [c] + rest;
    assert t[0] == c && t[1..] == rest;
  }

  lemma ReadUnitEscape(n: int, rest: string)
    requires 0 <= n < 0xD800 || 0xE000 <= n < 0x10000
    ensures Unescape(UnicodeEscape(n) + rest) == Prepend(n as char, Unescape(rest))
  {
    var t := UnicodeEscape(n) + rest;
    ParseHex4Hex4(n);
    assert t[0] == '\\' && t[1] == 'u' && t[2..6] == Hex4(n) && t[6..] == rest;
  }

  lemma ReadSurrogatePair(hi: int, lo: int, rest: string)
    requires 0xD800 <= hi < 0xDC00 && 0xDC00 <= lo < 0xE000
    ensures Unescape(UnicodeEscape(hi) + UnicodeEscape(lo) + rest)
         == Prepend(JoinSurrogates(hi, lo) as char, Unescape(rest))
  {
    var t := UnicodeEscape(hi) + UnicodeEscape(lo) + rest;
    ParseHex4Hex4(hi);
    ParseHex4Hex4(lo);
    assert t[0] == '\\' && t[1] == 'u' && t[2..6] == Hex4(hi);
    assert t[6] == '\\' && t[7] == 'u' && t[8..12] == Hex4(lo) && t[12..] == rest;
  }

  lemma UnescapeEscapeShort(c: char, rest: string)
    requires ShortEscape(c).Some?
    ensures Unescape(EscapeChar(c) + rest) == Prepend(c, Unescape(rest))
  {
    var x := ShortEscape(c).value;
    assert ShortUnescape(x) == Some(c);
    assert EscapeChar(c) == ['\\', x];
    ReadShortEscape(x, rest);
  }

  lemma UnescapeEscapePlain(c: char, rest: string)
    requires ShortEscape(c).None? && 0x20 <= c as int <= 0x7E
    ensures Unescape(EscapeChar(c) + rest) == Prepend(c, Unescape(rest))
  {
    assert EscapeChar(c) == [c];
    ReadPlain(c, rest);
  }

  lemma UnescapeEscapeUnit(c: char, rest: string)
    requires ShortEscape(c).None? && !(0x20 <= c as int <= 0x7E) && c as int < 0x10000
    ensures Unescape(EscapeChar(c) + rest) == Prepend(c, Unescape(rest))
  {
    assert EscapeChar(c) == UnicodeEscape(c as int);
    ReadUnitEscape(c as int, rest);
  }

  lemma UnescapeEscapePair(c: char, rest: string)
    requires c as int >= 0x10000
    ensures Unescape(EscapeChar(c) + rest) == Prepend(c, Unescape(rest))
  {
    var hi, lo := HighSurrogate(c as int), LowSurrogate(c as int);
    assert EscapeChar(c) == UnicodeEscape(hi) + UnicodeEscape(lo);
    JoinSplitSurrogates(c as int);
    ReadSurrogatePair(hi, lo, rest);
  }

  /** Reading one escaped character back gives that character; the rest is read as before. */
  lemma UnescapeEscapeChar(c: char, rest: string)
    ensures Unescape(EscapeChar(c) + rest) == Prepend(c, Unescape(rest))
  {
    if ShortEscape(c).Some? {
      UnescapeEscapeShort(c, rest);
    } else if 0x20 <= c as int <= 0x7E {
      UnescapeEscapePlain(c, rest);
    } else if c as int < 0x10000 {
      UnescapeEscapeUnit(c, rest);
    } else {
      UnescapeEscapePair(c, rest);
    }
  }

  /** Reading back what json.dumps wrote gives the original string. */
  lemma {:induction false} UnescapeEscape(s: string)
    ensures Unescape(Escape(s)) == Some(s)
  {
    if s != [] {
      UnescapeEscape(s[1..]);
      UnescapeEscapeChar(s[0], Escape(s[1..]));
      assert [s[0]] + s[1..] == s;
    }
  }

  /** Different strings are written differently. */
  lemma EscapeInjective(s1: string, s2: string)
    ensures Escape(s1) == Escape(s2) <==> s1 == s2
  {
    UnescapeEscape(s1);
    UnescapeEscape(s2);
  }
}
