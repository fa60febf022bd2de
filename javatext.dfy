/**
 * The java.lang.String operations the mod relies on, stated over Dafny strings:
 * trim, indexOf, lastIndexOf, startsWith, split (with Java's limit-0 rules),
 * toLowerCase (on ASCII letters), Integer.parseInt and String.valueOf(int).
 */
module JavaText {
  import opened Common

  const MinInt: int := -0x8000_0000
  const MaxInt: int := 0x7fff_ffff

  predicate InInt32(n: int) { MinInt <= n <= MaxInt }

  // ---------------------------------------------------------------- trim

  /** String.trim() removes every code point up to and including U+0020 at both ends. */
  predicate IsTrimmable(c: char) { c <= ' ' }

  function TrimStart(s: string): (r: string)
    ensures |r| <= |s| && r == s[|s| - |r|..]
    ensures forall i :: 0 <= i < |s| - |r| ==> IsTrimmable(s[i])
    ensures r == [] || !IsTrimmable(r[0])
  {
    if s != [] && IsTrimmable(s[0]) then TrimStart(s[1..]) else s
  }

  function TrimEnd(s: string): (r: string)
    ensures |r| <= |s| && r == s[..|r|]
    ensures forall i :: |r| <= i < |s| ==> IsTrimmable(s[i])
    ensures r == [] || !IsTrimmable(r[|r| - 1])
  {
    if s != [] && IsTrimmable(s[|s| - 1]) then TrimEnd(s[..|s| - 1]) else s
  }

  /** s.trim(): the result is empty exactly when every character is trimmable, and otherwise
      starts and ends with a non-trimmable character taken from s. */
  function Trim(s: string): (r: string)
    ensures r == [] <==> forall i :: 0 <= i < |s| ==> IsTrimmable(s[i])
    ensures r != [] ==> !IsTrimmable(r[0]) && !IsTrimmable(r[|r| - 1])
    ensures forall c :: c in r ==> c in s
  {
    TrimFacts(s);
    TrimEnd(TrimStart(s))
  }

  lemma TrimFacts(s: string)
    ensures var r := TrimEnd(TrimStart(s));
      && (r == [] <==> forall i :: 0 <= i < |s| ==> IsTrimmable(s[i]))
      && (r != [] ==> !IsTrimmable(r[0]) && !IsTrimmable(r[|r| - 1]))
      && (forall c :: c in r ==> c in s)
  {
    var t := TrimStart(s);
    var r := TrimEnd(t);
    TrimInside(s);
    TrimEmptyIff(s);
    if r != [] {
      assert r[0] == t[0];
    }
  }

  /** What trim keeps is a slice of its input. */
  lemma TrimInside(s: string)
    ensures forall c :: c in TrimEnd(TrimStart(s)) ==> c in s
  {
    var t := TrimStart(s);
    var r := TrimEnd(t);
    forall c | c in r ensures c in s {
      var i :| 0 <= i < |r| && r[i] == c;
      assert t[i] == c;
      assert s[|s| - |t| + i] == c;
    }
  }

  lemma TrimEmptyIff(s: string)
    ensures TrimEnd(TrimStart(s)) == [] <==> forall i :: 0 <= i < |s| ==> IsTrimmable(s[i])
  {
    var t := TrimStart(s);
    var r := TrimEnd(t);
    if r != [] {
      assert !IsTrimmable(t[0]);
      assert s[|s| - |t|] == t[0];
    }
  }

  /** s.trim().isEmpty(), the blank-line test used throughout the mod. */
  predicate IsBlank(s: string) { Trim(s) == [] }

  lemma {:induction false} TrimOfTrimmed(s: string)
    requires s == [] || (!IsTrimmable(s[0]) && !IsTrimmable(s[|s| - 1]))
    ensures Trim(s) == s
  {
  }

  lemma TrimIdempotent(s: string)
    ensures Trim(Trim(s)) == Trim(s)
  {
    TrimOfTrimmed(Trim(s));
  }

  // ---------------------------------------------------------------- prefixes, lower case

  predicate StartsWith(s: string, p: string) { |p| <= |s| && s[..|p|] == p }

  predicate EndsWith(s: string, p: string) { |p| <= |s| && s[|s| - |p|..] == p }

  /** Character.toLowerCase on the ASCII letters; every other character is left as it is. */
  function LowerChar(c: char): char
  {
    if 'A' <= c <= 'Z' then (c as int + 32) as char else c
  }

  /** s.toLowerCase(), modelled on ASCII letters. */
  function Lower(s: string): (r: string)
    ensures |r| == |s|
    ensures forall i :: 0 <= i < |s| ==> r[i] == LowerChar(s[i])
  {
    if s == [] then [] else [LowerChar(s[0])] + Lower(s[1..])
  }

  lemma LowerIdempotent(s: string)
    ensures Lower(Lower(s)) == Lower(s)
  {
  }

  lemma LowerKeepsSpaces(s: string)
    ensures ' ' in Lower(s) <==> ' ' in s
  {
    if ' ' in Lower(s) {
      var i :| 0 <= i < |s| && Lower(s)[i] == ' ';
      assert s[i] == ' ';
    }
    if ' ' in s {
      var i :| 0 <= i < |s| && s[i] == ' ';
      assert Lower(s)[i] == ' ';
    }
  }

  /** a.equalsIgnoreCase(b), modelled on ASCII letters. */
  predicate EqualsIgnoreCase(a: string, b: string) { Lower(a) == Lower(b) }

  // ---------------------------------------------------------------- searching

  /** pat occurs in s at position j. */
  predicate MatchAt(s: string, pat: string, j: int)
  {
    0 <= j && j + |pat| <= |s| && s[j..j + |pat|] == pat
  }

  /** The first occurrence of pat at or after from, or -1. */
  function IndexFrom(s: string, pat: string, from: nat): (r: int)
    requires pat != [] && from <= |s|
    ensures r == -1 || (from <= r && MatchAt(s, pat, r))
    ensures forall j :: from <= j && (r == -1 || j < r) ==> !MatchAt(s, pat, j)
    decreases |s| - from
  {
    if from + |pat| > |s| then -1
    else if s[from..from + |pat|] == pat then from
    else IndexFrom(s, pat, from + 1)
  }

  /** s.indexOf(pat) */
  function IndexOf(s: string, pat: string): (r: int)
    requires pat != []
    ensures r == -1 || MatchAt(s, pat, r)
    ensures forall j :: (r == -1 || j < r) ==> !MatchAt(s, pat, j)
  {
    IndexFrom(s, pat, 0)
  }

  /** s.lastIndexOf(c): the position of the last c, or -1 when there is none. */
  function LastIndexOf(s: string, c: char): (r: int)
    ensures -1 <= r < |s|
    ensures r >= 0 ==> s[r] == c
    ensures forall j :: r < j < |s| ==> s[j] != c
  {
    if s == [] then -1
    else if s[|s| - 1] == c then |s| - 1
    else LastIndexOf(s[..|s| - 1], c)
  }

  /** A one-character pattern occurs exactly where its character does. */
  lemma MatchAtChar(s: string, c: char, j: int)
    ensures MatchAt(s, [c], j) <==> 0 <= j < |s| && s[j] == c
  {
    if 0 <= j < |s| && s[j] == c {
      assert s[j..j + 1] == [c];
    }
  }

  lemma IndexOfCharAbsent(s: string, c: char)
    requires c !in s
    ensures IndexOf(s, [c]) == -1
  {
    var r := IndexOf(s, [c]);
    if r != -1 {
      MatchAtChar(s, c, r);
    }
  }

  /** Before its first match, a pattern does not occur in any prefix of s. */
  lemma NoMatchBefore(s: string, pat: string, i: int)
    requires pat != []
    requires 0 <= i <= |s|
    requires forall j :: j < i ==> !MatchAt(s, pat, j)
    ensures IndexOf(s[..i], pat) == -1
  {
    var r := IndexOf(s[..i], pat);
    if r != -1 {
      assert s[..i][r..r + |pat|] == s[r..r + |pat|];
      assert MatchAt(s, pat, r);
    }
  }

  // ---------------------------------------------------------------- split

  /** sep between consecutive pieces. */
  function Join(ps: seq<string>, sep: string): string
    requires ps != []
  {
    if |ps| == 1 then ps[0] else ps[0] + sep + Join(ps[1..], sep)
  }

  /** The pieces between the occurrences of sep, found left to right without overlap. */
  function Pieces(s: string, sep: string): (r: seq<string>)
    requires sep != []
    ensures r != []
    ensures Join(r, sep) == s
    ensures forall k :: 0 <= k < |r| ==> IndexOf(r[k], sep) == -1
    decreases |s|
  {
    var i := IndexOf(s, sep);
    if i == -1 then
      assert s[..|s|] == s;
      NoMatchBefore(s, sep, |s|);
      [s]
    else
      var rest := Pieces(s[i + |sep|..], sep);
      NoMatchBefore(s, sep, i);
      assert s == s[..i] + sep + s[i + |sep|..] by {
        assert s[i..i + |sep|] == sep;
        assert s == s[..i] + s[i..i + |sep|] + s[i + |sep|..];
      }
      [s[..i]] + rest
  }

  /** Removes the empty strings at the end of a split, as String.split(regex) with limit 0 does. */
  function DropTrailingEmpty(ps: seq<string>): (r: seq<string>)
    ensures |r| <= |ps| && r == ps[..|r|]
    ensures forall k :: |r| <= k < |ps| ==> ps[k] == []
    ensures r == [] || r[|r| - 1] != []
  {
    if ps == [] then []
    else if ps[|ps| - 1] == [] then DropTrailingEmpty(ps[..|ps| - 1])
    else ps
  }

  /** s.split(sep) for a separator with no regular-expression metacharacters: when sep does not
      occur the whole string is the only element; otherwise trailing empty pieces are dropped. */
  function Split(s: string, sep: string): seq<string>
    requires sep != []
  {
    if IndexOf(s, sep) == -1 then [s] else DropTrailingEmpty(Pieces(s, sep))
  }

  /** The split is a prefix of the pieces between separators, dropping only empty pieces, and
      gluing all pieces back together with the separator gives s. */
  lemma SplitPieces(s: string, sep: string)
    requires sep != []
    ensures var ps := Pieces(s, sep); var r := Split(s, sep);
      && |r| <= |ps| && r == ps[..|r|]
      && (forall k :: |r| <= k < |ps| ==> ps[k] == [])
      && Join(ps, sep) == s
  {
  }

  /** Splitting a ++ c ++ b at the one-character separator c, where neither a nor b holds c. */
  lemma {:induction false} SplitOfTwo(a: string, c: char, b: string)
    requires c !in a && c !in b
    requires a != [] || b != []
    ensures Split(a + [c] + b, [c]) == (if b == [] then [a] else [a, b])
  {
    var s := a + [c] + b;
    MatchAtChar(s, c, |a|);
    var i := IndexOf(s, [c]);
    if i < |a| {
      MatchAtChar(s, c, i);
    }
    assert i == |a|;
    assert s[i + 1..] == b;
    assert s[..i] == a;
    IndexOfCharAbsent(a, c);
    IndexOfCharAbsent(b, c);
    assert Pieces(b, [c]) == [b];
    assert Pieces(s, [c]) == [a, b];
  }

  // ---------------------------------------------------------------- first token

  /** cmd.split(" ")[0]: the text before the first space. None where Java throws
      ArrayIndexOutOfBoundsException because the split is empty (a non-empty string of spaces). */
  function HeadToken(s: string): (r: Option<string>)
    ensures r.None? <==> s != [] && forall i :: 0 <= i < |s| ==> s[i] == ' '
    ensures r.Some? ==> ' ' !in r.value && StartsWith(s, r.value) && (|r.value| < |s| ==> s[|r.value|] == ' ')
  {
    var ps := Split(s, " ");
    HeadTokenFacts(s);
    if |ps| == 0 then None else Some(ps[0])
  }

  lemma HeadTokenFacts(s: string)
    ensures var ps := Split(s, " ");
      && (|ps| == 0 <==> s != [] && forall k :: 0 <= k < |s| ==> s[k] == ' ')
      && (|ps| > 0 ==> ' ' !in ps[0] && StartsWith(s, ps[0]) && (|ps[0]| < |s| ==> s[|ps[0]|] == ' '))
  {
    var ps := Split(s, " ");
    var i := IndexOf(s, " ");
    SplitPieces(s, " ");
    if i == -1 {
      forall k | 0 <= k < |s| ensures s[k] != ' ' {
        MatchAtChar(s, ' ', k);
      }
      if s != [] { assert s[0] != ' '; }
      assert ps == [s];
      assert s[..|s|] == s;
    } else {
      MatchAtChar(s, ' ', i);
      var all := Pieces(s, " ");
      assert all[0] == s[..i];
      forall k | 0 <= k < i ensures s[k] != ' ' {
        MatchAtChar(s, ' ', k);
      }
      if forall k :: 0 <= k < |s| ==> s[k] == ' ' {
        AllSpacePiecesEmpty(s);
        assert |ps| == 0;
      } else {
        var k :| 0 <= k < |s| && s[k] != ' ';
        NonSpacePieceSurvives(s, k);
        assert ps[0] == s[..i];
        assert ' ' !in s[..i];
      }
    }
  }

  lemma {:induction false} AllSpacePiecesEmpty(s: string)
    requires forall k :: 0 <= k < |s| ==> s[k] == ' '
    ensures forall k :: 0 <= k < |Pieces(s, " ")| ==> Pieces(s, " ")[k] == []
    decreases |s|
  {
    var i := IndexOf(s, " ");
    if i == -1 {
      if s != [] { MatchAtChar(s, ' ', 0); }
    } else {
      if i > 0 { MatchAtChar(s, ' ', 0); }
      AllSpacePiecesEmpty(s[i + 1..]);
    }
  }

  /** A string with a non-space character has a non-empty piece, so the split keeps its head. */
  lemma NonSpacePieceSurvives(s: string, k: int)
    requires 0 <= k < |s| && s[k] != ' '
    ensures exists j :: 0 <= j < |Pieces(s, " ")| && Pieces(s, " ")[j] != []
    ensures |DropTrailingEmpty(Pieces(s, " "))| > 0
  {
    var ps := Pieces(s, " ");
    var j := NonSpacePiece(s, k);
    var d := DropTrailingEmpty(ps);
    assert j < |d|;
  }

  /** The index of a non-empty piece of a string with a non-space character. */
  lemma {:induction false} NonSpacePiece(s: string, k: int) returns (j: nat)
    requires 0 <= k < |s| && s[k] != ' '
    ensures j < |Pieces(s, " ")| && Pieces(s, " ")[j] != []
    decreases |s|
  {
    var i := IndexOf(s, " ");
    if i == -1 {
      assert Pieces(s, " ") == [s];
      j := 0;
    } else if k < i {
      assert Pieces(s, " ")[0] == s[..i] && s[..i][k] == s[k];
      j := 0;
    } else {
      MatchAtChar(s, ' ', i);
      assert Pieces(s, " ") == [s[..i]] + Pieces(s[i + 1..], " ");
      var j' := NonSpacePiece(s[i + 1..], k - i - 1);
      j := j' + 1;
    }
  }

  lemma HeadTokenOfSpaceFree(s: string)
    requires ' ' !in s
    ensures HeadToken(s) == Some(s)
  {
    IndexOfCharAbsent(s, ' ');
  }

  // ---------------------------------------------------------------- integers

  predicate IsDigit(c: char) { '0' <= c <= '9' }

  predicate AllDigits(s: string) { forall i :: 0 <= i < |s| ==> IsDigit(s[i]) }

  /** The value of a digit character (0 for a character that is not one). */
  function DigitValue(c: char): nat
  {
    if IsDigit(c) then c as int - '0' as int else 0
  }

  /** The value of a string of decimal digits (no sign, leading zeros allowed); it is only ever
      taken of strings the caller has checked are digits. */
  function Value(d: string): nat
  {
    if d == [] then 0 else Value(d[..|d| - 1]) * 10 + DigitValue(d[|d| - 1])
  }

  /** Integer.parseInt(s) on ASCII digits: an optional sign and at least one digit, with the
      value inside the 32-bit range; None where Java throws NumberFormatException. */
  function ParseInt(s: string): (r: Option<int>)
    ensures r.Some? ==> InInt32(r.value)
    ensures AllDigits(s) && s != [] ==> r == (if Value(s) <= MaxInt then Some(Value(s)) else None)
  {
    if s == [] then None
    else if s[0] == '-' || s[0] == '+' then
      var d := s[1..];
      if d == [] || !AllDigits(d) then None
      else
        var n: int := Value(d);
        var v := if s[0] == '-' then -n else n;
        if InInt32(v) then Some(v) else None
    else if AllDigits(s) && Value(s) <= MaxInt then Some(Value(s))
    else None
  }

  function DigitChar(n: nat): char
    requires n < 10
  {
    ('0' as int + n) as char
  }

  function NatToString(n: nat): (r: string)
    ensures r != [] && AllDigits(r)
  {
    if n < 10 then [DigitChar(n)] else NatToString(n / 10) + [DigitChar(n % 10)]
  }

  /** String.valueOf(int) */
  function IntToString(n: int): string
  {
    if n < 0 then "-" + NatToString(-n) else NatToString(n)
  }

  lemma {:induction false} ValueOfNatToString(n: nat)
    ensures Value(NatToString(n)) == n
  {
    if n >= 10 {
      ValueOfNatToString(n / 10);
      var s := NatToString(n);
      assert s[..|s| - 1] == NatToString(n / 10);
    }
  }

  /** Parsing what String.valueOf wrote gives the number back. */
  lemma ParseIntOfIntToString(n: int)
    requires InInt32(n)
    ensures ParseInt(IntToString(n)) == Some(n)
  {
    if n < 0 {
      ValueOfNatToString(-n);
      assert IntToString(n)[1..] == NatToString(-n);
    } else {
      ValueOfNatToString(n);
    }
  }

  /** What String.valueOf writes has no surrounding whitespace and no colon. */
  lemma IntToStringShape(n: int)
    ensures var s := IntToString(n);
      s != [] && !IsTrimmable(s[0]) && !IsTrimmable(s[|s| - 1]) && ':' !in s && s[0] != '#'
  {
    var d := NatToString(if n < 0 then -n else n);
    assert forall c :: c in d ==> IsDigit(c);
  }

  /** The regular-expression class [a-zA-Z0-9_]. */
  predicate IsWordChar(c: char)
  {
    'a' <= c <= 'z' || 'A' <= c <= 'Z' || '0' <= c <= '9' || c == '_'
  }

  /** The end of the run of word characters starting at i. */
  function SpanWord(s: string, i: nat): (j: nat)
    requires i <= |s|
    ensures i <= j <= |s|
    ensures forall k :: i <= k < j ==> IsWordChar(s[k])
    ensures j < |s| ==> !IsWordChar(s[j])
    decreases |s| - i
  {
    if i < |s| && IsWordChar(s[i]) then SpanWord(s, i + 1) else i
  }
}
