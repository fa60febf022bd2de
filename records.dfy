/**
 * What one line of commands_list.txt or chat.txt does: the split of a record into nickname and
 * payload, the chain of sub-commands, and for each sub-command the timers it schedules or the
 * message that refuses it.
 */
module Records {
  import opened Common
  import opened JavaText
  import opened Modifier
  import opened BlockList

  /** One scheduled run of a command: who asked (None for the player's own /cycm execute),
      what is sent, how many seconds after scheduling, and its "rep of reps" label. */
  datatype Execution = Execution(nick: Option<string>, cmd: string, offset: nat, rep: nat, reps: nat)

  /** The timers an accepted command schedules. */
  function Executions(nick: Option<string>, cmd: string, reps: nat, delay: nat): seq<Execution>
  {
    seq(reps, k requires 0 <= k < reps => Execution(nick, cmd, k * delay, k + 1, reps))
  }

  /** Exactly reps runs of the same command, labelled 1 .. reps, at offsets 0, delay, 2*delay, ...
      and in the order they were scheduled; with a positive delay the offsets strictly increase. */
  lemma ExecutionsShape(nick: Option<string>, cmd: string, reps: nat, delay: nat)
    ensures var r := Executions(nick, cmd, reps, delay);
      && |r| == reps
      && (forall k :: 0 <= k < reps ==> r[k].cmd == cmd && r[k].nick == nick && r[k].rep == k + 1 && r[k].reps == reps)
      && (forall k :: 0 <= k < reps ==> r[k].offset == k * delay)
      && (delay > 0 ==> forall j, k :: 0 <= j < k < reps ==> r[j].offset < r[k].offset)
  {
    var r := Executions(nick, cmd, reps, delay);
    if delay > 0 {
      forall j, k | 0 <= j < k < reps
        ensures r[j].offset < r[k].offset
      {
        MulMonotone(j, k, delay);
      }
    }
  }

  lemma MulMonotone(j: nat, k: nat, d: nat)
    requires j < k && d > 0
    ensures j * d < k * d
  {
  }

  /** The messages and timers produced by handling some input. */
  datatype Outcome = Outcome(events: seq<Event>, execs: seq<Execution>)

  const Nothing := Outcome([], [])

  function Then(a: Outcome, b: Outcome): Outcome
  {
    Outcome(a.events + b.events, a.execs + b.execs)
  }

  /** The repeat and delay bounds. */
  datatype Bounds = Bounds(maxRepeats: int, maxDelay: int)

  /** The initial values of maxRepeats and maxDelaySeconds. */
  const DefaultBounds := Bounds(20, 5)

  /** A timer is safe when the first token of its command is not blocked, or, for the player's
      own commands, is one of the mod's commands. */
  predicate Safe(e: Execution, blocked: set<string>, exempt: bool)
  {
    var t := HeadToken(e.cmd);
    t.Some? && (Lower(t.value) !in blocked || (exempt && IsModCmd(Lower(t.value))))
  }

  /** The block test on the lower-cased first token of a parsed job, and its timers when it
      passes. A command that is all spaces makes Java throw. The source asks isCmdBlocked about
      the lower-cased token; AdmitIsCmdBlocked shows that this is membership of the token. */
  function Admit(nick: Option<string>, job: Job, blocked: set<string>, exempt: bool): Outcome
  {
    match HeadToken(job.cmd)
    case None => Outcome([Crash("java.lang.ArrayIndexOutOfBoundsException")], [])
    case Some(t) =>
      var base := Lower(t);
      if base in blocked && !(exempt && IsModCmd(base)) then
        Outcome([Msg("cmd_blocked", ["/" + base])], [])
      else
        Outcome([], Executions(nick, job.cmd, job.reps, job.delay))
  }

  /**
   * execSingleCmd (exempt = false) and, after its player check, execCmdInGame (exempt = true):
   * the modifier parse and bound checks, then the block test.
   */
  function SubCommand(nick: Option<string>, cmd: string, blocked: set<string>, bounds: Bounds, exempt: bool): Outcome
  {
    match ParseModifiers(cmd, bounds.maxRepeats, bounds.maxDelay)
    case Err(e) => Outcome([e], [])
    case Ok(job) => Admit(nick, job, blocked, exempt)
  }

  /** The block test either refuses with one message or schedules every run of the job, and
      every timer it schedules is safe. */
  lemma AdmitShape(nick: Option<string>, job: Job, blocked: set<string>, exempt: bool)
    ensures var r := Admit(nick, job, blocked, exempt);
      && |r.events| <= 1 && (r.events != [] ==> r.execs == [])
      && (forall k :: 0 <= k < |r.execs| ==> Safe(r.execs[k], blocked, exempt))
      && (r.execs != [] ==> r.execs == Executions(nick, job.cmd, job.reps, job.delay))
      && (HeadToken(job.cmd).Some? ==> r.events == [] || r.events[0].Msg?)
  {
  }

  /** A sub-command either gives one message or the runs of the job its modifiers describe,
      and every timer it schedules is safe. */
  lemma SubCommandShape(nick: Option<string>, cmd: string, blocked: set<string>, bounds: Bounds, exempt: bool)
    ensures var r := SubCommand(nick, cmd, blocked, bounds, exempt);
      && |r.events| <= 1 && (r.events != [] ==> r.execs == [])
      && (forall k :: 0 <= k < |r.execs| ==> Safe(r.execs[k], blocked, exempt))
      && (r.execs != [] ==>
        var job := ParseModifiers(cmd, bounds.maxRepeats, bounds.maxDelay);
        job.Ok? && r.execs == Executions(nick, job.value.cmd, job.value.reps, job.value.delay))
  {
    var job := ParseModifiers(cmd, bounds.maxRepeats, bounds.maxDelay);
    if job.Ok? {
      AdmitShape(nick, job.value, blocked, exempt);
    }
  }

  /** A sub-command whose lower-cased first token is blocked is never scheduled, unless it is
      one of the mod's commands run by the player. */
  lemma BlockedNeverScheduled(nick: Option<string>, cmd: string, blocked: set<string>, bounds: Bounds, exempt: bool)
    requires var job := ParseModifiers(cmd, bounds.maxRepeats, bounds.maxDelay);
      job.Ok? && HeadToken(job.value.cmd).Some? &&
      var base := Lower(HeadToken(job.value.cmd).value);
      base in blocked && !(exempt && IsModCmd(base))
    ensures SubCommand(nick, cmd, blocked, bounds, exempt).execs == []
    ensures SubCommand(nick, cmd, blocked, bounds, exempt).events ==
      [Msg("cmd_blocked", ["/" + Lower(HeadToken(ParseModifiers(cmd, bounds.maxRepeats, bounds.maxDelay).value.cmd).value)])]
  {
    var t := HeadToken(ParseModifiers(cmd, bounds.maxRepeats, bounds.maxDelay).value.cmd).value;
    LowerKeepsSpaces(t);
    IsCmdBlockedOfToken(blocked, Lower(t));
    LowerIdempotent(t);
  }

  /** The command of a parsed job is trimmed when the sub-command was, so it has a first token. */
  lemma JobCmdTrimmed(cmd: string, bounds: Bounds)
    requires Trim(cmd) == cmd
    requires ParseModifiers(cmd, bounds.maxRepeats, bounds.maxDelay).Ok?
    ensures var c := ParseModifiers(cmd, bounds.maxRepeats, bounds.maxDelay).value.cmd;
      Trim(c) == c && HeadToken(c).Some?
  {
    if Match(cmd).Some? {
      ParseModifiersMatched(cmd, bounds.maxRepeats, bounds.maxDelay);
      TrimIdempotent(Match(cmd).value.base);
    }
    var c := ParseModifiers(cmd, bounds.maxRepeats, bounds.maxDelay).value.cmd;
    HasHeadToken(c);
  }

  lemma HasHeadToken(c: string)
    requires Trim(c) == c
    ensures HeadToken(c).Some?
  {
    if c != [] { assert !IsTrimmable(c[0]) && c[0] != ' '; }
  }

  /** The block test never crashes on a command that has a first token. */
  lemma AdmitNoCrash(nick: Option<string>, job: Job, blocked: set<string>, exempt: bool)
    requires HeadToken(job.cmd).Some?
    ensures NoCrash(Admit(nick, job, blocked, exempt))
  {
  }

  /** A sub-command already trimmed never makes the first-token split throw. */
  lemma TrimmedNeverCrashes(nick: Option<string>, cmd: string, blocked: set<string>, bounds: Bounds, exempt: bool)
    requires Trim(cmd) == cmd
    ensures NoCrash(SubCommand(nick, cmd, blocked, bounds, exempt))
  {
    var job := ParseModifiers(cmd, bounds.maxRepeats, bounds.maxDelay);
    if job.Ok? {
      JobCmdTrimmed(cmd, bounds);
      AdmitNoCrash(nick, job.value, blocked, exempt);
    } else {
      RefusalNoCrash(nick, cmd, blocked, bounds, exempt);
    }
  }

  /** A refused modifier is reported as a message, not an exception. */
  lemma RefusalNoCrash(nick: Option<string>, cmd: string, blocked: set<string>, bounds: Bounds, exempt: bool)
    requires ParseModifiers(cmd, bounds.maxRepeats, bounds.maxDelay).Err?
    ensures NoCrash(SubCommand(nick, cmd, blocked, bounds, exempt))
  {
    ParseModifiersRefusals(cmd, bounds.maxRepeats, bounds.maxDelay);
  }

  /** No message of the outcome is an escaped exception. */
  predicate NoCrash(o: Outcome)
  {
    forall k :: 0 <= k < |o.events| ==> !o.events[k].Crash?
  }

  /** Every timer of the outcome is safe. */
  predicate AllSafe(o: Outcome, blocked: set<string>, exempt: bool)
  {
    forall k :: 0 <= k < |o.execs| ==> Safe(o.execs[k], blocked, exempt)
  }

  /** The outcomes of handling several inputs one after the other. */
  function Concat(os: seq<Outcome>): Outcome
  {
    if os == [] then Nothing else Then(Concat(os[..|os| - 1]), os[|os| - 1])
  }

  /** Concatenation splits at any point. */
  lemma {:induction false} ConcatAppend(xs: seq<Outcome>, ys: seq<Outcome>)
    ensures Concat(xs + ys) == Then(Concat(xs), Concat(ys))
    decreases |ys|
  {
    if ys == [] {
      assert xs + ys == xs;
      var c := Concat(xs);
      assert c.events + [] == c.events && c.execs + [] == c.execs;
    } else {
      var ys' := ys[..|ys| - 1];
      assert (xs + ys)[..|xs + ys| - 1] == xs + ys';
      assert (xs + ys)[|xs + ys| - 1] == ys[|ys| - 1];
      ConcatAppend(xs, ys');
      var x := Concat(xs);
      var y := Concat(ys');
      var z := ys[|ys| - 1];
      assert (x.events + y.events) + z.events == x.events + (y.events + z.events);
      assert (x.execs + y.execs) + z.execs == x.execs + (y.execs + z.execs);
    }
  }

  lemma ThenKeeps(a: Outcome, b: Outcome, blocked: set<string>)
    ensures NoCrash(a) && NoCrash(b) ==> NoCrash(Then(a, b))
    ensures AllSafe(a, blocked, false) && AllSafe(b, blocked, false) ==> AllSafe(Then(a, b), blocked, false)
  {
    var t := Then(a, b);
    assert forall k :: |a.events| <= k < |t.events| ==> t.events[k] == b.events[k - |a.events|];
    assert forall k :: |a.execs| <= k < |t.execs| ==> t.execs[k] == b.execs[k - |a.execs|];
  }

  /** A concatenation of crash-free outcomes is crash-free, and of safe outcomes safe. */
  lemma {:induction false} ConcatKeeps(os: seq<Outcome>, blocked: set<string>)
    ensures (forall i :: 0 <= i < |os| ==> NoCrash(os[i])) ==> NoCrash(Concat(os))
    ensures (forall i :: 0 <= i < |os| ==> AllSafe(os[i], blocked, false)) ==> AllSafe(Concat(os), blocked, false)
  {
    if os != [] {
      var front := os[..|os| - 1];
      ConcatKeeps(front, blocked);
      ThenKeeps(Concat(front), os[|os| - 1], blocked);
    }
  }

  /** Appending one outcome after another to what was already there. */
  lemma ThenAfter(events: seq<Event>, execs: seq<Execution>, a: Outcome, b: Outcome)
    ensures events + a.events + b.events == events + Then(a, b).events
    ensures execs + a.execs + b.execs == execs + Then(a, b).execs
  {
  }

  /** A concatenation grows by one outcome at a time. */
  lemma ConcatStep(os: seq<Outcome>, i: nat)
    requires i < |os|
    ensures Concat(os[..i + 1]) == Then(Concat(os[..i]), os[i])
  {
    assert os[..i + 1][..i] == os[..i];
  }

  function Map(f: string -> Outcome, cmds: seq<string>): (r: seq<Outcome>)
    ensures |r| == |cmds| && forall k :: 0 <= k < |cmds| ==> r[k] == f(cmds[k])
  {
    if cmds == [] then [] else [f(cmds[0])] + Map(f, cmds[1..])
  }

  lemma {:induction false} MapAppend(f: string -> Outcome, a: seq<string>, b: seq<string>)
    ensures Map(f, a + b) == Map(f, a) + Map(f, b)
  {
    var l := Map(f, a + b);
    var r := Map(f, a) + Map(f, b);
    assert |l| == |r|;
    forall k | 0 <= k < |l| ensures l[k] == r[k] {
      if k < |a| { assert (a + b)[k] == a[k]; } else { assert (a + b)[k] == b[k - |a|]; }
    }
  }

  function Outcomes(nick: Option<string>, cmds: seq<string>, blocked: set<string>, bounds: Bounds): (r: seq<Outcome>)
  {
    Map(c => SubCommand(nick, c, blocked, bounds, false), cmds)
  }

  function Chain(nick: Option<string>, cmds: seq<string>, blocked: set<string>, bounds: Bounds): Outcome
  {
    Concat(Outcomes(nick, cmds, blocked, bounds))
  }

  lemma ChainAppend(nick: Option<string>, a: seq<string>, b: seq<string>, blocked: set<string>, bounds: Bounds)
    ensures Chain(nick, a + b, blocked, bounds) == Then(Chain(nick, a, blocked, bounds), Chain(nick, b, blocked, bounds))
  {
    var f := c => SubCommand(nick, c, blocked, bounds, false);
    MapAppend(f, a, b);
    ConcatAppend(Map(f, a), Map(f, b));
  }

  /** A chain grows by one sub-command at a time, which is how procCmdLine's loop runs it. */
  lemma ChainStep(nick: Option<string>, cmds: seq<string>, i: nat, blocked: set<string>, bounds: Bounds)
    requires i < |cmds|
    ensures Chain(nick, cmds[..i + 1], blocked, bounds) ==
      Then(Chain(nick, cmds[..i], blocked, bounds), SubCommand(nick, cmds[i], blocked, bounds, false))
  {
    assert cmds[..i + 1] == cmds[..i] + [cmds[i]];
    ChainAppend(nick, cmds[..i], [cmds[i]], blocked, bounds);
    var o := SubCommand(nick, cmds[i], blocked, bounds, false);
    var os := Outcomes(nick, [cmds[i]], blocked, bounds);
    assert os == [o];
    assert os[..0] == [];
    assert Concat(os) == Then(Nothing, o);
    assert [] + o.events == o.events && [] + o.execs == o.execs;
  }

  /** The chain of no sub-command does nothing. */
  lemma ChainNil(nick: Option<string>, cmds: seq<string>, blocked: set<string>, bounds: Bounds)
    ensures Chain(nick, cmds[..0], blocked, bounds) == Nothing
  {
    assert Outcomes(nick, cmds[..0], blocked, bounds) == [];
  }

  /** What one more sub-command adds behind what the chain so far has added. */
  lemma ChainExtend(nick: Option<string>, cmds: seq<string>, i: nat, blocked: set<string>, bounds: Bounds,
                    events: seq<Event>, execs: seq<Execution>)
    requires i < |cmds|
    ensures var prev := Chain(nick, cmds[..i], blocked, bounds);
      var here := SubCommand(nick, cmds[i], blocked, bounds, false);
      var next := Chain(nick, cmds[..i + 1], blocked, bounds);
      events + prev.events + here.events == events + next.events
      && execs + prev.execs + here.execs == execs + next.execs
  {
    ChainStep(nick, cmds, i, blocked, bounds);
    ThenAfter(events, execs, Chain(nick, cmds[..i], blocked, bounds), SubCommand(nick, cmds[i], blocked, bounds, false));
  }

  /** Every timer a chain schedules is safe. */
  lemma ChainSafe(nick: Option<string>, cmds: seq<string>, blocked: set<string>, bounds: Bounds)
    ensures AllSafe(Chain(nick, cmds, blocked, bounds), blocked, false)
  {
    var os := Outcomes(nick, cmds, blocked, bounds);
    forall i | 0 <= i < |os|
      ensures AllSafe(os[i], blocked, false)
    {
      SubCommandShape(nick, cmds[i], blocked, bounds, false);
    }
    ConcatKeeps(os, blocked);
  }

  /** A chain of trimmed sub-commands never crashes. */
  lemma ChainNeverCrashes(nick: Option<string>, cmds: seq<string>, blocked: set<string>, bounds: Bounds)
    requires forall k :: 0 <= k < |cmds| ==> Trim(cmds[k]) == cmds[k]
    ensures NoCrash(Chain(nick, cmds, blocked, bounds))
  {
    var os := Outcomes(nick, cmds, blocked, bounds);
    forall i | 0 <= i < |os|
      ensures NoCrash(os[i])
    {
      TrimmedNeverCrashes(nick, cmds[i], blocked, bounds, false);
    }
    ConcatKeeps(os, blocked);
  }

  /** A record split at its last colon, both sides trimmed. */
  datatype Record = Record(nick: string, payload: string)

  /** The split procCmdLine and procChatLine make; None for a line without a colon or ending
      in one. */
  function SplitRecord(line: string): Option<Record>
  {
    var idx := LastIndexOf(line, ':');
    if idx == -1 || idx == |line| - 1 then None
    else Some(Record(Trim(line[..idx]), Trim(line[idx + 1..])))
  }

  /** A line is refused exactly when it has no colon or ends in one. */
  lemma SplitRecordNone(line: string)
    ensures SplitRecord(line).None? <==> ':' !in line || line[|line| - 1] == ':'
  {
    if ':' in line {
      var i :| 0 <= i < |line| && line[i] == ':';
    }
  }

  /** Both sides of an accepted split are trimmed and the payload holds no colon. */
  lemma SplitRecordParts(line: string)
    requires SplitRecord(line).Some?
    ensures var r := SplitRecord(line).value;
      ':' !in r.payload && Trim(r.nick) == r.nick && Trim(r.payload) == r.payload
  {
    var idx := LastIndexOf(line, ':');
    var rest := line[idx + 1..];
    assert ':' !in rest;
    TrimIdempotent(line[..idx]);
    TrimIdempotent(rest);
  }

  /** A nickname (which may itself hold colons), a colon and a colon-free payload are split back
      into the trimmed nickname and payload. */
  lemma RecordRoundTrip(nick: string, payload: string)
    requires payload != [] && ':' !in payload
    ensures SplitRecord(nick + ":" + payload) == Some(Record(Trim(nick), Trim(payload)))
  {
    var line := nick + ":" + payload;
    assert line[|nick|] == ':';
    var idx := LastIndexOf(line, ':');
    assert idx == |nick|;
    assert line[..idx] == nick;
    assert line[idx + 1..] == payload;
  }

  /** The trimmed sub-commands of the text after the leading '/'. */
  function SubCommands(rest: string): seq<string>
  {
    var ps := Split(rest, "&&");
    seq(|ps|, k requires 0 <= k < |ps| => Trim(ps[k]))
  }

  /** procCmdLine */
  function CmdLine(line: string, blocked: set<string>, bounds: Bounds): Outcome
  {
    match SplitRecord(line)
    case None => Outcome([Msg("bad_cmd_format", [line])], [])
    case Some(rec) =>
      if !StartsWith(rec.payload, "/") then Outcome([Msg("cmd_must_start_with_slash", [line])], [])
      else Chain(Some(rec.nick), SubCommands(rec.payload[1..]), blocked, bounds)
  }

  /** A record whose payload starts with '/' runs its sub-commands in order. */
  lemma CmdLineIsChain(line: string, blocked: set<string>, bounds: Bounds)
    requires SplitRecord(line).Some? && StartsWith(SplitRecord(line).value.payload, "/")
    ensures var rec := SplitRecord(line).value;
      CmdLine(line, blocked, bounds) == Chain(Some(rec.nick), SubCommands(rec.payload[1..]), blocked, bounds)
  {
  }

  /** A record never crashes the pipeline, and every timer it schedules runs a command whose
      first token is not blocked, on behalf of the record's nickname. */
  lemma CmdLineSafe(line: string, blocked: set<string>, bounds: Bounds)
    ensures AllSafe(CmdLine(line, blocked, bounds), blocked, false)
    ensures NoCrash(CmdLine(line, blocked, bounds))
  {
    var o := SplitRecord(line);
    if o.Some? && StartsWith(o.value.payload, "/") {
      var rec := o.value;
      var cmds := SubCommands(rec.payload[1..]);
      forall k | 0 <= k < |cmds|
        ensures Trim(cmds[k]) == cmds[k]
      {
        TrimIdempotent(Split(rec.payload[1..], "&&")[k]);
      }
      ChainSafe(Some(rec.nick), cmds, blocked, bounds);
      ChainNeverCrashes(Some(rec.nick), cmds, blocked, bounds);
    }
  }

  /** A line that is not a well-formed record, or whose payload does not start with '/', is
      refused with one message naming the whole line and schedules nothing. */
  lemma CmdLineRejects(line: string, blocked: set<string>, bounds: Bounds)
    ensures SplitRecord(line).None? ==> CmdLine(line, blocked, bounds) == Outcome([Msg("bad_cmd_format", [line])], [])
    ensures SplitRecord(line).Some? && !StartsWith(SplitRecord(line).value.payload, "/") ==>
      CmdLine(line, blocked, bounds) == Outcome([Msg("cmd_must_start_with_slash", [line])], [])
  {
  }

  /** The split is at the last colon, so a command argument holding a colon cuts the record
      there: the payload is what follows that colon, and unless it starts with '/' the whole
      line is refused. */
  lemma LastColonCutsArguments(nick: string, cmd: string, arg: string, blocked: set<string>, bounds: Bounds)
    requires ':' !in arg && Trim(arg) != [] && Trim(arg)[0] != '/'
    ensures var line := nick + ":/" + cmd + ":" + arg;
      && SplitRecord(line) == Some(Record(Trim(nick + ":/" + cmd), Trim(arg)))
      && CmdLine(line, blocked, bounds) == Outcome([Msg("cmd_must_start_with_slash", [line])], [])
  {
    var head := nick + ":/" + cmd;
    var line := nick + ":/" + cmd + ":" + arg;
    assert line == head + ":" + arg;
    RecordRoundTrip(head, arg);
    var rec := Record(Trim(head), Trim(arg));
    FirstCharNotSlash(rec.payload);
    NoSlashRefused(line, rec, blocked, bounds);
  }

  /** "Alice:/summon minecraft:chicken +2 1" has the nickname "Alice:/summon minecraft" and
      the payload "chicken +2 1". */
  lemma LastColonExample()
    ensures SplitRecord("Alice:/summon minecraft:chicken +2 1") == Some(Record("Alice:/summon minecraft", "chicken +2 1"))
  {
    var line := "Alice:/summon minecraft:chicken +2 1";
    assert line == "Alice:/summon minecraft" + ":" + "chicken +2 1";
    LastColonSplit(line, "Alice:/summon minecraft", "chicken +2 1");
  }

  lemma FirstCharNotSlash(s: string)
    requires s != [] && s[0] != '/'
    ensures !StartsWith(s, "/")
  {
  }

  lemma NoSlashRefused(line: string, rec: Record, blocked: set<string>, bounds: Bounds)
    requires SplitRecord(line) == Some(rec) && !StartsWith(rec.payload, "/")
    ensures CmdLine(line, blocked, bounds) == Outcome([Msg("cmd_must_start_with_slash", [line])], [])
  {
  }

  lemma LastColonSplit(line: string, a: string, b: string)
    requires a == "Alice:/summon minecraft" && b == "chicken +2 1"
    requires line == a + ":" + b
    ensures SplitRecord(line) == Some(Record(a, b))
  {
    assert ':' !in b by {
      assert forall k :: 0 <= k < |b| ==> b[k] != ':';
    }
    RecordRoundTrip(a, b);
    TrimOfTrimmed(a);
    TrimOfTrimmed(b);
  }

  /** procChatLine: the same split; the message is shown as "<nick> message", with the nickname
      everything before the last colon and the message everything after it, both trimmed. */
  function ChatEffect(line: string): (r: Event)
    ensures r.Msg? <==> SplitRecord(line).None?
    ensures r.Msg? ==> r == Msg("bad_chat_format", [line])
    ensures !r.Msg? ==> r.ChatLine?
    ensures r.ChatLine? ==>
      exists k :: 0 <= k < |line| - 1 && line[k] == ':' && ':' !in line[k + 1..]
        && r.nick == Trim(line[..k]) && r.text == Trim(line[k + 1..])
  {
    match SplitRecord(line)
    case None => Msg("bad_chat_format", [line])
    case Some(rec) =>
      var k := LastIndexOf(line, ':');
      var rest := line[k + 1..];
      assert ':' !in rest by {
        assert forall j :: 0 <= j < |rest| ==> rest[j] == line[k + 1 + j];
      }
      ChatLine(rec.nick, rec.payload)
  }
}
