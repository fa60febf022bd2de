/**
 * The repeat/delay modifier of a sub-command: the regular expression
 *   ^(.*?)\s*\+(\d+)(?:\s+(\d+))?$
 * matched against the whole sub-command, followed by the range checks on the repeat count and
 * the delay.
 */
module Modifier {
  import opened Common
  import opened JavaText

  /** \s in java.util.regex: space, tab, newline, vertical tab, form feed, carriage return. */
  predicate IsWs(c: char)
  {
    c == ' ' || c == '\t' || c == '\n' || c == '\U{000B}' || c == '\U{000C}' || c == '\r'
  }

  /** The characters '.' does not match. */
  predicate IsLineTerm(c: char)
  {
    c == '\n' || c == '\r' || c == '\U{0085}' || c == '\U{2028}' || c == '\U{2029}'
  }

  predicate AllWs(s: string) { forall i :: 0 <= i < |s| ==> IsWs(s[i]) }

  predicate NoLineTerm(s: string) { forall i :: 0 <= i < |s| ==> !IsLineTerm(s[i]) }

  /** The optional "\s+(\d+)" part. */
  datatype DelayPart = DelayPart(gap: string, digits: string)

  /** One way of reading a sub-command as group 1, the whitespace before '+', group 2 and
      the optional delay part. */
  datatype ModMatch = ModMatch(base: string, gap: string, reps: string, delay: Option<DelayPart>)

  /** The pieces fit the pattern's parts. */
  predicate WellFormed(m: ModMatch)
  {
    && NoLineTerm(m.base)
    && AllWs(m.gap)
    && m.reps != [] && AllDigits(m.reps)
    && (m.delay.Some? ==>
          m.delay.value.gap != [] && AllWs(m.delay.value.gap) &&
          m.delay.value.digits != [] && AllDigits(m.delay.value.digits))
  }

  /** The text the pieces spell. */
  function Render(m: ModMatch): string
  {
    m.base + m.gap + "+" + m.reps + (if m.delay.Some? then m.delay.value.gap + m.delay.value.digits else "")
  }

  /** The end of the run of whitespace starting at i. */
  function SpanWs(s: string, i: nat): (j: nat)
    requires i <= |s|
    ensures i <= j <= |s|
    ensures forall k :: i <= k < j ==> IsWs(s[k])
    ensures j < |s| ==> !IsWs(s[j])
    decreases |s| - i
  {
    if i < |s| && IsWs(s[i]) then SpanWs(s, i + 1) else i
  }

  /** The end of the run of digits starting at i. */
  function SpanDigits(s: string, i: nat): (j: nat)
    requires i <= |s|
    ensures i <= j <= |s|
    ensures forall k :: i <= k < j ==> IsDigit(s[k])
    ensures j < |s| ==> !IsDigit(s[j])
    decreases |s| - i
  {
    if i < |s| && IsDigit(s[i]) then SpanDigits(s, i + 1) else i
  }

  /** Matches "\s*\+(\d+)(?:\s+(\d+))?$" against the whole of r; group 1 is left empty. */
  function SuffixMatch(r: string): Option<ModMatch>
  {
    var a := SpanWs(r, 0);
    if a < |r| && r[a] == '+' then
      var b := SpanDigits(r, a + 1);
      if b == a + 1 then None
      else if b == |r| then Some(ModMatch("", r[..a], r[a + 1..b], None))
      else
        var c := SpanWs(r, b);
        var e := SpanDigits(r, c);
        if c > b && e > c && e == |r| then
          Some(ModMatch("", r[..a], r[a + 1..b], Some(DelayPart(r[b..c], r[c..e]))))
        else None
    else None
  }

  /** The lazy group 1: try the split points from left to right; '.' stops at a line terminator. */
  function FindMatch(s: string, k: nat): Option<ModMatch>
    requires k <= |s|
    decreases |s| - k
  {
    match SuffixMatch(s[k..])
    case Some(t) => Some(t.(base := s[..k]))
    case None => if k < |s| && !IsLineTerm(s[k]) then FindMatch(s, k + 1) else None
  }

  /** Matcher.matches() for the modifier pattern; a match is a well-formed reading of the whole
      sub-command. */
  function Match(s: string): Option<ModMatch>
  {
    FindMatch(s, 0)
  }

  // ------------------------------------------------------------------ regex semantics

  /** The run of whitespace starting at i ends exactly at j. */
  lemma SpanWsIs(s: string, i: nat, j: nat)
    requires i <= j <= |s|
    requires forall k :: i <= k < j ==> IsWs(s[k])
    requires j < |s| ==> !IsWs(s[j])
    ensures SpanWs(s, i) == j
  {
  }

  /** The run of digits starting at i ends exactly at j. */
  lemma SpanDigitsIs(s: string, i: nat, j: nat)
    requires i <= j <= |s|
    requires forall k :: i <= k < j ==> IsDigit(s[k])
    requires j < |s| ==> !IsDigit(s[j])
    ensures SpanDigits(s, i) == j
  {
  }

  lemma WsSlice(s: string, i: nat, j: nat)
    requires i <= j <= |s|
    requires forall k :: i <= k < j ==> IsWs(s[k])
    ensures AllWs(s[i..j])
  {
    assert forall k :: 0 <= k < j - i ==> s[i..j][k] == s[i + k];
  }

  lemma DigitsSlice(s: string, i: nat, j: nat)
    requires i <= j <= |s|
    requires forall k :: i <= k < j ==> IsDigit(s[k])
    ensures AllDigits(s[i..j])
  {
    assert forall k :: 0 <= k < j - i ==> s[i..j][k] == s[i + k];
  }

  lemma SuffixMatchSound(r: string)
    requires SuffixMatch(r).Some?
    ensures var m := SuffixMatch(r).value; WellFormed(m) && m.base == "" && Render(m) == r
  {
    var a := SpanWs(r, 0);
    var b := SpanDigits(r, a + 1);
    if b == |r| {
      SoundNoDelay(r, a);
    } else {
      var c := SpanWs(r, b);
      SoundDelay(r, a, b, c);
    }
  }

  lemma SoundNoDelay(r: string, a: nat)
    requires a < |r| && r[a] == '+' && a + 1 < |r|
    requires forall k :: 0 <= k < a ==> IsWs(r[k])
    requires forall k :: a + 1 <= k < |r| ==> IsDigit(r[k])
    ensures var m := ModMatch("", r[..a], r[a + 1..|r|], None); WellFormed(m) && Render(m) == r
  {
    WsSlice(r, 0, a);
    DigitsSlice(r, a + 1, |r|);
    assert r == r[..a] + [r[a]] + r[a + 1..|r|];
  }

  lemma SoundDelay(r: string, a: nat, b: nat, c: nat)
    requires a < |r| && r[a] == '+' && a + 1 < b < c < |r|
    requires forall k :: 0 <= k < a ==> IsWs(r[k])
    requires forall k :: a + 1 <= k < b ==> IsDigit(r[k])
    requires forall k :: b <= k < c ==> IsWs(r[k])
    requires forall k :: c <= k < |r| ==> IsDigit(r[k])
    ensures var m := ModMatch("", r[..a], r[a + 1..b], Some(DelayPart(r[b..c], r[c..|r|])));
      WellFormed(m) && Render(m) == r
  {
    WsSlice(r, 0, a);
    DigitsSlice(r, a + 1, b);
    WsSlice(r, b, c);
    DigitsSlice(r, c, |r|);
    GlueDelay(r, a, b, c);
  }

  /** The four slices around the '+' put back together. */
  lemma GlueDelay(r: string, a: nat, b: nat, c: nat)
    requires a < |r| && r[a] == '+' && a + 1 < b < c < |r|
    ensures "" + r[..a] + "+" + r[a + 1..b] + (r[b..c] + r[c..|r|]) == r
  {
    assert r[b..c] + r[c..|r|] == r[b..];
    assert r[..a] + "+" == r[..a + 1];
    assert r[..a + 1] + r[a + 1..b] == r[..b];
    assert r[..b] + r[b..] == r;
  }

  lemma CompleteNoDelay(gap: string, reps: string)
    requires AllWs(gap) && reps != [] && AllDigits(reps)
    ensures SuffixMatch(gap + "+" + reps) == Some(ModMatch("", gap, reps, None))
  {
    var r := gap + "+" + reps;
    var g := |gap|;
    assert r[..g] == gap;
    assert r[g] == '+';
    assert r[g + 1..|r|] == reps;
    SpanWsIs(r, 0, g);
    SpanDigitsIs(r, g + 1, |r|);
  }

  lemma CompleteDelay(gap: string, reps: string, dgap: string, digits: string)
    requires AllWs(gap) && reps != [] && AllDigits(reps)
    requires dgap != [] && AllWs(dgap) && digits != [] && AllDigits(digits)
    ensures SuffixMatch(gap + "+" + reps + (dgap + digits)) ==
            Some(ModMatch("", gap, reps, Some(DelayPart(dgap, digits))))
  {
    var r := gap + "+" + reps + (dgap + digits);
    var g := |gap|;
    var b := g + 1 + |reps|;
    var c := b + |dgap|;
    assert r[..g] == gap;
    assert r[g] == '+';
    assert r[g + 1..b] == reps;
    assert r[b..c] == dgap;
    assert r[c..|r|] == digits;
    assert IsWs(r[b]);
    assert IsDigit(r[c]);
    SpanWsIs(r, 0, g);
    SpanDigitsIs(r, g + 1, b);
    SpanWsIs(r, b, c);
    SpanDigitsIs(r, c, |r|);
  }
  /** The pieces of a well-formed reading determine where each run of the pattern ends. */
  lemma SuffixMatchComplete(m: ModMatch)
    requires WellFormed(m) && m.base == ""
    ensures SuffixMatch(Render(m)) == Some(m)
  {
    match m.delay
    case None =>
      assert Render(m) == m.gap + "+" + m.reps;
      CompleteNoDelay(m.gap, m.reps);
    case Some(dp) =>
      assert Render(m) == m.gap + "+" + m.reps + (dp.gap + dp.digits);
      CompleteDelay(m.gap, m.reps, dp.gap, dp.digits);
  }

  /** Group 1 is the front of the rendered text. */
  lemma RenderBase(m: ModMatch)
    ensures Render(m) == m.base + Render(m.(base := ""))
  {
  }

  lemma {:induction false} FindMatchSound(s: string, k: nat)
    requires k <= |s| && NoLineTerm(s[..k])
    requires FindMatch(s, k).Some?
    ensures WellFormed(FindMatch(s, k).value) && Render(FindMatch(s, k).value) == s
    decreases |s| - k
  {
    var o := SuffixMatch(s[k..]);
    if o.Some? {
      SuffixMatchSound(s[k..]);
      var m := o.value.(base := s[..k]);
      assert FindMatch(s, k) == Some(m);
      RenderBase(m);
      assert m.(base := "") == o.value;
      assert s == s[..k] + s[k..];
    } else {
      assert k < |s| && !IsLineTerm(s[k]);
      assert NoLineTerm(s[..k + 1]) by {
        assert s[..k + 1] == s[..k] + [s[k]];
      }
      FindMatchSound(s, k + 1);
    }
  }

  lemma {:induction false} FindMatchShortest(s: string, k: nat, m: ModMatch)
    requires WellFormed(m) && Render(m) == s
    requires k <= |m.base|
    ensures FindMatch(s, k).Some? && |FindMatch(s, k).value.base| <= |m.base|
    decreases |m.base| - k
  {
    var t := m.(base := "");
    assert s == m.base + Render(t);
    if SuffixMatch(s[k..]).None? {
      if k == |m.base| {
        assert s[k..] == Render(t);
        SuffixMatchComplete(t);
      }
      assert s[k] == m.base[k];
      FindMatchShortest(s, k + 1, m);
    }
  }

  /** Soundness: a match is a well-formed reading of the whole sub-command. */
  lemma MatchSound(s: string)
    ensures Match(s).Some? ==> WellFormed(Match(s).value) && Render(Match(s).value) == s
  {
    if FindMatch(s, 0).Some? {
      FindMatchSound(s, 0);
    }
  }

  /** Laziness: whenever some well-formed reading exists, the match exists and its group 1 is
      no longer than that reading's. */
  lemma MatchShortest(s: string, m: ModMatch)
    requires WellFormed(m) && Render(m) == s
    ensures Match(s).Some? && |Match(s).value.base| <= |m.base|
  {
    FindMatchShortest(s, 0, m);
  }

  /** Once group 1 is fixed, the rest of the reading is forced. */
  lemma MatchUnique(m1: ModMatch, m2: ModMatch)
    requires WellFormed(m1) && WellFormed(m2)
    requires Render(m1) == Render(m2) && |m1.base| == |m2.base|
    ensures m1 == m2
  {
    var s := Render(m1);
    var t1 := m1.(base := "");
    var t2 := m2.(base := "");
    RenderBase(m1);
    RenderBase(m2);
    assert m1.base == s[..|m1.base|] == m2.base;
    assert Render(t1) == s[|m1.base|..] == Render(t2);
    SuffixMatchComplete(t1);
    SuffixMatchComplete(t2);
  }

  // ------------------------------------------------------------------ range checks

  /** A sub-command with its repeat count and delay in seconds. */
  datatype Job = Job(cmd: string, reps: nat, delay: nat)

  /** execSingleCmd / execCmdInGame before the block test: with no modifier the command runs
      once without delay; with one, the base is the trimmed group 1 and the counts must parse
      into an int and stay within the configured bounds (the repeat count is checked first). */
  function ParseModifiers(cmd: string, maxRepeats: int, maxDelay: int): Result<Job, Event>
  {
    match Match(cmd)
    case None => Ok(Job(cmd, 1, 0))
    case Some(m) =>
      var base := Trim(m.base);
      var reps := Value(m.reps);
      if reps > MaxInt then Err(Msg("bad_repeats", [base]))
      else if reps > maxRepeats then Err(Msg("repeats_exceed_max", [IntToString(reps), IntToString(maxRepeats)]))
      else match m.delay
        case None => Ok(Job(base, reps, 0))
        case Some(dp) =>
          var delay := Value(dp.digits);
          if delay > MaxInt then Err(Msg("bad_delay", [base]))
          else if delay > maxDelay then Err(Msg("delay_exceed_max", [IntToString(delay), IntToString(maxDelay)]))
          else Ok(Job(base, reps, delay))
  }

  /** With no match the command runs once at once. */
  lemma ParseModifiersUnmatched(cmd: string, maxRepeats: int, maxDelay: int)
    requires Match(cmd).None?
    ensures ParseModifiers(cmd, maxRepeats, maxDelay) == Ok(Job(cmd, 1, 0))
  {
  }

  /** With a match, group 1 trimmed runs the given number of times, with the given delay only
      when group 3 is present, and only then is the delay bound checked. */
  lemma ParseModifiersMatched(cmd: string, maxRepeats: int, maxDelay: int)
    requires Match(cmd).Some? && ParseModifiers(cmd, maxRepeats, maxDelay).Ok?
    ensures var m := Match(cmd).value;
      var j := ParseModifiers(cmd, maxRepeats, maxDelay).value;
      && j.cmd == Trim(m.base)
      && j.reps == Value(m.reps) <= maxRepeats
      && j.delay == (if m.delay.None? then 0 else Value(m.delay.value.digits))
      && (m.delay.Some? ==> j.delay <= maxDelay)
  {
  }

  /** Every refusal is one of the four range messages. */
  lemma ParseModifiersRefusals(cmd: string, maxRepeats: int, maxDelay: int)
    ensures var r := ParseModifiers(cmd, maxRepeats, maxDelay);
      r.Err? ==> r.error.Msg? && r.error.key in {"bad_repeats", "repeats_exceed_max", "bad_delay", "delay_exceed_max"}
  {
    var r := ParseModifiers(cmd, maxRepeats, maxDelay);
    match Match(cmd)
    case None =>
    case Some(m) =>
      var base := Trim(m.base);
      var reps := Value(m.reps);
      if reps > MaxInt {
        assert r == Err(Msg("bad_repeats", [base]));
      } else if reps > maxRepeats {
        assert r.error.key == "repeats_exceed_max";
      } else if m.delay.Some? {
        var delay := Value(m.delay.value.digits);
        if delay > MaxInt {
          assert r == Err(Msg("bad_delay", [base]));
        } else if delay > maxDelay {
          assert r.error.key == "delay_exceed_max";
        }
      }
  }

  /** The character right after group 1 starts the whitespace gap or is the '+'. */
  lemma AfterBase(m: ModMatch)
    requires WellFormed(m)
    ensures var r := Render(m); |m.base| < |r| && (IsWs(r[|m.base|]) || r[|m.base|] == '+')
  {
    var r := Render(m);
    assert r == m.base + (m.gap + "+" + m.reps + (if m.delay.Some? then m.delay.value.gap + m.delay.value.digits else ""));
    if m.gap != [] {
      assert r[|m.base|] == m.gap[0];
    }
  }

  /** A reading whose group 1 holds no whitespace and no '+' is the one the matcher picks. */
  lemma MatchIs(s: string, m: ModMatch)
    requires WellFormed(m) && Render(m) == s
    requires forall j :: 0 <= j < |m.base| ==> !IsWs(s[j]) && s[j] != '+'
    ensures Match(s) == Some(m)
  {
    MatchShortest(s, m);
    MatchSound(s);
    var m' := Match(s).value;
    AfterBase(m');
    MatchUnique(m, m');
  }

  /** "foo +3 1": three runs one second apart. */
  lemma ExampleRepeatAndDelay()
    ensures ParseModifiers("foo +3 1", 20, 5) == Ok(Job("foo", 3, 1))
  {
    var m := ModMatch("foo", " ", "3", Some(DelayPart(" ", "1")));
    assert WellFormed(m);
    assert Render(m) == "foo +3 1";
    MatchIs("foo +3 1", m);
    assert Trim("foo") == "foo";
    assert Value("3") == 3;
    assert Value("1") == 1;
  }

  /** "foo+3": the whitespace before '+' is optional. */
  lemma ExampleNoGap()
    ensures ParseModifiers("foo+3", 20, 5) == Ok(Job("foo", 3, 0))
  {
    var m := ModMatch("foo", "", "3", None);
    assert WellFormed(m);
    assert Render(m) == "foo+3";
    MatchIs("foo+3", m);
    assert Trim("foo") == "foo";
    assert Value("3") == 3;
  }

  /** "foo +999" with the default bound of 20 is refused, naming both numbers. */
  lemma ExampleTooManyRepeats()
    ensures ParseModifiers("foo +999", 20, 5) == Err(Msg("repeats_exceed_max", ["999", "20"]))
  {
    var m := ModMatch("foo", " ", "999", None);
    assert WellFormed(m);
    assert Render(m) == "foo +999";
    MatchIs("foo +999", m);
    assert Value("9") == 9;
    assert Value("99") == 99;
    assert Value("999") == 999;
    assert ParseModifiers("foo +999", 20, 5) == Err(Msg("repeats_exceed_max", [IntToString(999), IntToString(20)]));
    ExampleNumerals();
  }

  /** The numerals of that message. */
  lemma ExampleNumerals()
    ensures IntToString(999) == "999" && IntToString(20) == "20"
  {
    assert DigitChar(9) == '9' && DigitChar(2) == '2' && DigitChar(0) == '0';
    assert 999 / 10 == 99 && 999 % 10 == 9 && 99 / 10 == 9 && 99 % 10 == 9;
    assert 20 / 10 == 2 && 20 % 10 == 0;
    assert NatToString(99) == ['9'] + ['9'];
    assert NatToString(999) == ['9', '9'] + ['9'];
    assert NatToString(20) == ['2'] + ['0'];
  }

  /** "foo +2 9" with the default delay bound of 5 is refused. */
  lemma ExampleDelayTooLong()
    ensures ParseModifiers("foo +2 9", 20, 5) == Err(Msg("delay_exceed_max", ["9", "5"]))
  {
    var m := ModMatch("foo", " ", "2", Some(DelayPart(" ", "9")));
    assert WellFormed(m);
    assert Render(m) == "foo +2 9";
    MatchIs("foo +2 9", m);
    assert Trim("foo") == "foo";
    assert Value("2") == 2;
    assert Value("9") == 9;
    assert IntToString(9) == "9";
    assert IntToString(5) == "5";
  }
}
