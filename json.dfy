/**
 * escapeJson and the string unescaping of section 7 of RFC 8259 it is meant to be undone by.
 */
module Json {
  import opened Common

  /** String.replace with a one-character target: every occurrence of c, left to right, becomes
      rep. */
  function ReplaceChar(s: string, c: char, rep: string): string
  {
    if s == [] then [] else (if s[0] == c then rep else [s[0]]) + ReplaceChar(s[1..], c, rep)
  }

  lemma {:induction false} ReplaceCharAppend(a: string, b: string, c: char, rep: string)
    ensures ReplaceChar(a + b, c, rep) == ReplaceChar(a, c, rep) + ReplaceChar(b, c, rep)
    decreases |a|
  {
    if a == [] {
      assert a + b == b;
    } else {
      assert (a + b)[1..] == a[1..] + b;
      ReplaceCharAppend(a[1..], b, c, rep);
    }
  }

  /** escapeJson: backslash first, then the quote, newline, carriage return and tab. */
  function EscapeJson(t: string): string
  {
    ReplaceChar(ReplaceChar(ReplaceChar(ReplaceChar(ReplaceChar(t, '\\', "\\\\"), '"', "\\\""), '\n', "\\n"), '\r', "\\r"), '\t', "\\t")
  }

  /** The escape of one character on its own. */
  function EscapeChar(c: char): string
  {
    match c
    case '\\' => "\\\\"
    case '"' => "\\\""
    case '\n' => "\\n"
    case '\r' => "\\r"
    case '\t' => "\\t"
    case _ => [c]
  }

  /** Escaping character by character. */
  function Escaped(t: string): string
  {
    if t == [] then [] else EscapeChar(t[0]) + Escaped(t[1..])
  }

  lemma EscapeJsonAppend(a: string, b: string)
    ensures EscapeJson(a + b) == EscapeJson(a) + EscapeJson(b)
  {
    var s1a, s1b := ReplaceChar(a, '\\', "\\\\"), ReplaceChar(b, '\\', "\\\\");
    ReplaceCharAppend(a, b, '\\', "\\\\");
    var s2a, s2b := ReplaceChar(s1a, '"', "\\\""), ReplaceChar(s1b, '"', "\\\"");
    ReplaceCharAppend(s1a, s1b, '"', "\\\"");
    var s3a, s3b := ReplaceChar(s2a, '\n', "\\n"), ReplaceChar(s2b, '\n', "\\n");
    ReplaceCharAppend(s2a, s2b, '\n', "\\n");
    var s4a, s4b := ReplaceChar(s3a, '\r', "\\r"), ReplaceChar(s3b, '\r', "\\r");
    ReplaceCharAppend(s3a, s3b, '\r', "\\r");
    ReplaceCharAppend(s4a, s4b, '\t', "\\t");
  }

  lemma ReplaceCharOne(d: char, c: char, rep: string)
    ensures ReplaceChar([d], c, rep) == if d == c then rep else [d]
  {
    assert [d][1..] == [];
  }

  lemma ReplaceCharTwo(d: char, e: char, c: char, rep: string)
    requires d != c && e != c
    ensures ReplaceChar([d, e], c, rep) == [d, e]
  {
    assert [d, e][1..] == [e];
    ReplaceCharOne(e, c, rep);
  }

  /** A later replacement never touches what an earlier one wrote. */
  lemma EscapeJsonChar(c: char)
    ensures EscapeJson([c]) == EscapeChar(c)
  {
    ReplaceCharOne(c, '\\', "\\\\");
    var s1 := ReplaceChar([c], '\\', "\\\\");
    if c == '\\' {
      ReplaceCharTwo('\\', '\\', '"', "\\\"");
      ReplaceCharTwo('\\', '\\', '\n', "\\n");
      ReplaceCharTwo('\\', '\\', '\r', "\\r");
      ReplaceCharTwo('\\', '\\', '\t', "\\t");
      return;
    }
    ReplaceCharOne(c, '"', "\\\"");
    if c == '"' {
      ReplaceCharTwo('\\', '"', '\n', "\\n");
      ReplaceCharTwo('\\', '"', '\r', "\\r");
      ReplaceCharTwo('\\', '"', '\t', "\\t");
      return;
    }
    ReplaceCharOne(c, '\n', "\\n");
    if c == '\n' {
      ReplaceCharTwo('\\', 'n', '\r', "\\r");
      ReplaceCharTwo('\\', 'n', '\t', "\\t");
      return;
    }
    ReplaceCharOne(c, '\r', "\\r");
    if c == '\r' {
      ReplaceCharTwo('\\', 'r', '\t', "\\t");
      return;
    }
    ReplaceCharOne(c, '\t', "\\t");
  }

  /** The chained replacements escape each character on its own: none of them sees the output
      of another. */
  lemma {:induction false} EscapeJsonIsEscaped(t: string)
    ensures EscapeJson(t) == Escaped(t)
    decreases |t|
  {
    if t != [] {
      assert t == [t[0]] + t[1..];
      EscapeJsonAppend([t[0]], t[1..]);
      EscapeJsonChar(t[0]);
      EscapeJsonIsEscaped(t[1..]);
    }
  }

  /** The backslash escapes of section 7 of RFC 8259, apart from \uXXXX. */
  function Unescaped(c: char): Option<char>
  {
    match c
    case '"' => Some('"')
    case '\\' => Some('\\')
    case '/' => Some('/')
    case 'b' => Some('\U{8}')
    case 'f' => Some('\U{C}')
    case 'n' => Some('\n')
    case 'r' => Some('\r')
    case 't' => Some('\t')
    case _ => None
  }

  /** Reading the body of a JSON string: None where it holds a raw quote, a dangling backslash
      or an escape it does not know. */
  function Unescape(s: string): Option<string>
  {
    if s == [] then Some([])
    else if s[0] == '"' then None
    else if s[0] != '\\' then
      match Unescape(s[1..])
      case None => None
      case Some(r) => Some([s[0]] + r)
    else if |s| < 2 then None
    else
      match (Unescaped(s[1]), Unescape(s[2..]))
      case (Some(c), Some(r)) => Some([c] + r)
      case _ => None
  }

  lemma UnescapeStep(c: char, rest: string)
    requires Unescape(rest).Some?
    ensures Unescape(EscapeChar(c) + rest) == Some([c] + Unescape(rest).value)
  {
    var e := EscapeChar(c);
    var s := e + rest;
    if c in {'\\', '"', '\n', '\r', '\t'} {
      assert |e| == 2 && e[0] == '\\' && Unescaped(e[1]) == Some(c);
      assert s[0] == '\\' && s[1] == e[1] && s[2..] == rest;
    } else {
      assert e == [c] && c != '"' && c != '\\';
      assert s[0] == c && s[1..] == rest;
    }
  }

  /** Unescaping undoes the per-character escape. */
  lemma {:induction false} UnescapeEscaped(t: string)
    ensures Unescape(Escaped(t)) == Some(t)
    decreases |t|
  {
    if t != [] {
      UnescapeEscaped(t[1..]);
      UnescapeStep(t[0], Escaped(t[1..]));
      assert [t[0]] + t[1..] == t;
    }
  }

  /** Reading back what escapeJson wrote gives the text back. */
  lemma UnescapeEscapeJson(t: string)
    ensures Unescape(EscapeJson(t)) == Some(t)
  {
    EscapeJsonIsEscaped(t);
    UnescapeEscaped(t);
  }

  /** No newline, carriage return or tab is left raw. */
  predicate NoRawBreaks(s: string)
  {
    forall i :: 0 <= i < |s| ==> s[i] != '\n' && s[i] != '\r' && s[i] != '\t'
  }

  lemma {:induction false} EscapedNoRawBreaks(t: string)
    ensures NoRawBreaks(Escaped(t))
    decreases |t|
  {
    if t != [] {
      EscapedNoRawBreaks(t[1..]);
      var e, r := EscapeChar(t[0]), Escaped(t[1..]);
      assert forall i :: 0 <= i < |e| ==> e[i] != '\n' && e[i] != '\r' && e[i] != '\t';
      assert forall i :: |e| <= i < |e| + |r| ==> (e + r)[i] == r[i - |e|];
    }
  }

  lemma EscapeJsonNoRawBreaks(t: string)
    ensures NoRawBreaks(EscapeJson(t))
  {
    EscapeJsonIsEscaped(t);
    EscapedNoRawBreaks(t);
  }

  /** The other control characters pass through raw, although section 7 of RFC 8259 requires
      every character below U+0020 to be escaped. */
  lemma EscapeJsonKeepsOtherControls()
    ensures EscapeJson("\U{8}") == "\U{8}"
    ensures EscapeJson("\U{0}") == "\U{0}"
  {
    EscapeJsonChar('\U{8}');
    EscapeJsonChar('\U{0}');
  }
}
