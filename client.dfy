/**
 * The mod's client state (the static fields of the main CYCMClient) and the operations that change
 * it: the block set and its file, the repeat bounds and their file, the two input queues with
 * their logs, the scheduler and its pending timers, and the output the player sees.
 */
module Mod {
  import opened Common
  import opened JavaText
  import opened Modifier
  import opened BlockList
  import opened Records
  import opened Settings

  /** An input file after procClearFirst: without its first line. */
  function Tail(lines: seq<string>): seq<string>
  {
    if lines == [] then [] else lines[1..]
  }

  /** A log after procClearFirst: the first line of the input, behind the time stamp. */
  function Logged(log: seq<string>, stamp: string, lines: seq<string>): seq<string>
  {
    if lines == [] then log else log + [stamp + " " + lines[0]]
  }

  /** The effect of procCmdLine on the head of commands_list.txt, if there is one. */
  function CmdQueueEffect(lines: seq<string>, blocked: set<string>, bounds: Bounds): Outcome
  {
    if lines == [] then Nothing else CmdLine(lines[0], blocked, bounds)
  }

  /** The effect of procChatLine on the head of chat.txt, if there is one. */
  function ChatQueueEffect(lines: seq<string>): seq<Event>
  {
    if lines == [] then [] else [ChatEffect(lines[0])]
  }

  /** What scheduling an outcome's runs does: without a live scheduler the first schedule call
      throws and nothing is scheduled. */
  function Launch(o: Outcome, running: bool): (r: Outcome)
    ensures running || o.execs == [] ==> r == o
    ensures !running && o.execs != [] ==> r.execs == [] && r.events == [Crash("java.lang.NullPointerException")]
  {
    if !running && o.execs != [] then Outcome([Crash("java.lang.NullPointerException")], []) else o
  }

  /** The translated state name setModEnabled reports. */
  function StateName(enabled: bool): string
  {
    if enabled then "cycm.state.enabled" else "cycm.state.disabled"
  }

  class Client {
    /** The configuration's modEnabled flag. */
    var enabled: bool
    /** Whether MinecraftClient.player is present. */
    var player: bool
    /** Whether the file-processing scheduler exists and is not shut down. */
    var running: bool
    var blocked: set<string>
    /** The lines of blocked_commands.txt. */
    var blockedFile: seq<string>
    var maxRepeats: int
    var maxDelay: int
    /** The lines of repeating_settings.txt. */
    var settingsFile: seq<string>
    /** The lines of commands_list.txt and chat.txt, and of their logs. */
    var cmdFile: seq<string>
    var chatFile: seq<string>
    var cmdLog: seq<string>
    var chatLog: seq<string>
    /** The runs scheduled on the scheduler and not yet fired, in the order scheduled. */
    var timers: seq<Execution>
    /** What was shown to the player or sent to the server, oldest first. */
    var out: seq<Event>

    /** The mod's commands stay in the block set, and the bounds are Java ints. */
    predicate Valid()
      reads this`blocked, this`maxRepeats, this`maxDelay
    {
      Protected <= blocked && InInt32(maxRepeats) && InInt32(maxDelay)
    }

    function CurrentBounds(): Bounds
      reads this`maxRepeats, this`maxDelay
    {
      Bounds(maxRepeats, maxDelay)
    }

    /** The static initial state: an empty block set and the bounds 20 and 5. */
    constructor (enabled: bool, player: bool, blockedFile: seq<string>, settingsFile: seq<string>,
                 cmdFile: seq<string>, chatFile: seq<string>)
      ensures this.enabled == enabled && this.player == player && !running
      ensures blocked == {} && this.blockedFile == blockedFile
      ensures CurrentBounds() == DefaultBounds && this.settingsFile == settingsFile
      ensures this.cmdFile == cmdFile && this.chatFile == chatFile && cmdLog == [] && chatLog == []
      ensures timers == [] && out == []
    {
      this.enabled := enabled;
      this.player := player;
      running := false;
      blocked := {};
      this.blockedFile := blockedFile;
      maxRepeats := DefaultBounds.maxRepeats;
      maxDelay := DefaultBounds.maxDelay;
      this.settingsFile := settingsFile;
      this.cmdFile := cmdFile;
      this.chatFile := chatFile;
      cmdLog := [];
      chatLog := [];
      timers := [];
      out := [];
    }

    /** onInitializeClient: load the block set, then the repeat bounds. */
    method OnInitialize()
      requires InInt32(maxRepeats) && InInt32(maxDelay)
      modifies this`blocked, this`blockedFile, this`maxRepeats, this`maxDelay, this`settingsFile
      ensures Valid()
      ensures blocked == Init(Loaded(old(blockedFile)))
      ensures InitChanges(Loaded(old(blockedFile))) ==> Lines(blockedFile) == Persisted(blocked)
      ensures !InitChanges(Loaded(old(blockedFile))) ==> blockedFile == old(blockedFile)
      ensures CurrentBounds() == ReadSettings(old(settingsFile), old(CurrentBounds()))
      ensures settingsFile == if Rewrites(old(settingsFile)) then SettingsLines(old(CurrentBounds())) else old(settingsFile)
    {
      LoadBlocked();
      LoadRepeatingSettings();
    }

    /** sendLocalizedMessage */
    method Say(key: string, args: seq<string>)
      modifies this`out
      ensures out == old(out) + Shown(player, key, args)
    {
      if player {
        out := out + [Msg(key, args)];
      }
    }

    // ---------------------------------------------------------------- block set

    /** saveBlockedCommands: one "/" + entry line per entry, in the set's iteration order. */
    method SaveBlocked()
      modifies this`blockedFile
      ensures Lines(blockedFile) == Persisted(blocked)
      ensures |blockedFile| == |blocked|
    {
      var rest := blocked;
      var lines: seq<string> := [];
      while rest != {}
        invariant rest <= blocked
        invariant forall l :: l in lines ==> |l| > 0 && l == "/" + l[1..] && l[1..] in blocked && l[1..] !in rest
        invariant forall x :: x in blocked && x !in rest ==> "/" + x in lines
        invariant |lines| + |rest| == |blocked|
        decreases |rest|
      {
        var s :| s in rest;
        lines := lines + ["/" + s];
        rest := rest - {s};
      }
      PersistedMembers(blocked);
      assert Lines(lines) == Persisted(blocked);
      blockedFile := lines;
    }

    /** loadBlockedCommands: the entries of the kept lines, then initBlockedCommands. */
    method LoadBlocked()
      modifies this`blocked, this`blockedFile
      ensures blocked == Init(Loaded(old(blockedFile)))
      ensures InitChanges(Loaded(old(blockedFile))) ==> Lines(blockedFile) == Persisted(blocked)
      ensures !InitChanges(Loaded(old(blockedFile))) ==> blockedFile == old(blockedFile)
    {
      var lines := blockedFile;
      blocked := {};
      for i := 0 to |lines|
        invariant blocked == Loaded(lines[..i])
        invariant blockedFile == lines
      {
        LoadedSnoc(lines, i);
        var e := LineEntry(lines[i]);
        if e.Some? {
          blocked := blocked + {e.value};
        }
      }
      assert lines[..|lines|] == lines;
      InitBlocked();
    }

    /** The adding loop of initBlockedCommands: add each entry, noting whether any was new. */
    method AddEach(adds: set<string>) returns (chg: bool)
      modifies this`blocked
      ensures forall x :: x in blocked <==> x in old(blocked) || x in adds
      ensures chg <==> exists x :: x in adds && x !in old(blocked)
    {
      chg := false;
      var rest := adds;
      while rest != {}
        invariant rest <= adds
        invariant forall x :: x in blocked <==> x in old(blocked) || (x in adds && x !in rest)
        invariant chg <==> exists x :: x in adds && x !in rest && x !in old(blocked)
        decreases |rest|
      {
        var c :| c in rest;
        if c !in blocked {
          blocked := blocked + {c};
          chg := true;
        }
        rest := rest - {c};
      }
    }

    /** initBlockedCommands: add each default entry (already lower-case) and then the mod's
        three commands, and save when any of them was missing. */
    method InitBlocked()
      modifies this`blocked, this`blockedFile
      ensures blocked == Init(old(blocked))
      ensures InitChanges(old(blocked)) ==> Lines(blockedFile) == Persisted(blocked)
      ensures !InitChanges(old(blocked)) ==> blockedFile == old(blockedFile)
    {
      var fromDefaults := AddEach(DefaultBlocked);
      var fromProtected := AddEach(Protected);
      assert blocked == Init(old(blocked));
      if fromDefaults || fromProtected {
        SaveBlocked();
      }
    }

    /** blockCommand */
    method Block(cmd: string)
      requires Valid()
      modifies this`blocked, this`blockedFile, this`out
      ensures Valid()
      ensures var c := CleanCmd(cmd);
        && (IsModCmd(c) ==> (blocked == old(blocked) && blockedFile == old(blockedFile)
              && out == old(out) + Shown(player, "mod_cmd_cannot_be_blocked", ["/" + c])))
        && (!IsModCmd(c) && c !in old(blocked) ==> (blocked == old(blocked) + {c}
              && (Lines(blockedFile) == Persisted(blocked))
              && out == old(out) + Shown(player, "cmd_blocked_success", ["/" + c])))
        && (!IsModCmd(c) && c in old(blocked) ==> (blocked == old(blocked) && blockedFile == old(blockedFile)
              && out == old(out) + Shown(player, "cmd_already_blocked", ["/" + c])))
    {
      var c := CleanCmd(cmd);
      if IsModCmd(c) {
        Say("mod_cmd_cannot_be_blocked", ["/" + c]);
        return;
      }
      if c !in blocked {
        blocked := blocked + {c};
        Say("cmd_blocked_success", ["/" + c]);
        SaveBlocked();
      } else {
        Say("cmd_already_blocked", ["/" + c]);
      }
    }

    /** unblockCommand: "all" puts back exactly the default entries and the mod's commands. */
    method Unblock(cmd: string)
      requires Valid()
      modifies this`blocked, this`blockedFile, this`out
      ensures Valid()
      ensures var c := CleanCmd(cmd);
        && (IsModCmd(c) ==> (blocked == old(blocked) && blockedFile == old(blockedFile)
              && out == old(out) + Shown(player, "mod_cmd_cannot_be_unblocked", ["/" + c])))
        && (!IsModCmd(c) && c == "all" ==> (blocked == DefaultBlocked + Protected
              && (Lines(blockedFile) == Persisted(blocked))
              && out == old(out) + Shown(player, "all_cmds_unblocked", [])))
        && (!IsModCmd(c) && c != "all" && c in old(blocked) ==> (blocked == old(blocked) - {c}
              && (Lines(blockedFile) == Persisted(blocked))
              && out == old(out) + Shown(player, "cmd_unblocked_success", ["/" + c])))
        && (!IsModCmd(c) && c != "all" && c !in old(blocked) ==> (blocked == old(blocked) && blockedFile == old(blockedFile)
              && out == old(out) + Shown(player, "cmd_not_blocked", ["/" + c])))
    {
      var c := CleanCmd(cmd);
      if IsModCmd(c) {
        Say("mod_cmd_cannot_be_unblocked", ["/" + c]);
        return;
      }
      AllIgnoringCase(c);
      if EqualsIgnoreCase("all", c) {
        blocked := {};
        InitBlocked();
        Say("all_cmds_unblocked", []);
      } else if c in blocked {
        blocked := blocked - {c};
        Say("cmd_unblocked_success", ["/" + c]);
        SaveBlocked();
      } else {
        Say("cmd_not_blocked", ["/" + c]);
      }
    }

    // ---------------------------------------------------------------- repeat bounds

    /** loadRepeatingSettings */
    method LoadRepeatingSettings()
      requires Valid()
      modifies this`maxRepeats, this`maxDelay, this`settingsFile
      ensures Valid()
      ensures CurrentBounds() == ReadSettings(old(settingsFile), old(CurrentBounds()))
      ensures settingsFile == if Rewrites(old(settingsFile)) then SettingsLines(old(CurrentBounds())) else old(settingsFile)
    {
      var s := FirstKept(settingsFile);
      if s.Some? && |Split(s.value, ":")| == 2 {
        SetBounds(Split(s.value, ":"));
      } else {
        settingsFile := SettingsLines(CurrentBounds());
      }
    }

    /** The bounds from the two pieces of the settings line: maxRepeats as soon as the first
        parses, maxDelaySeconds only if the second parses too. */
    method SetBounds(ps: seq<string>)
      requires |ps| == 2 && Valid()
      modifies this`maxRepeats, this`maxDelay
      ensures Valid() && CurrentBounds() == ReadPieces(ps, old(CurrentBounds()))
    {
      var n := ParseInt(Trim(ps[0]));
      if n.Some? {
        maxRepeats := n.value;
        var d := ParseInt(Trim(ps[1]));
        if d.Some? {
          maxDelay := d.value;
        }
      }
    }

    /** saveRepeatingSettings */
    method SaveRepeatingSettings()
      modifies this`settingsFile
      ensures settingsFile == SettingsLines(CurrentBounds())
    {
      settingsFile := SettingsLines(CurrentBounds());
    }

    /** setMaxRepeats: only a positive value is taken, saved and reported. */
    method SetMaxRepeats(num: int)
      requires Valid() && InInt32(num)
      modifies this`maxRepeats, this`settingsFile, this`out
      ensures Valid() && maxDelay == old(maxDelay)
      ensures num <= 0 ==> (maxRepeats == old(maxRepeats) && settingsFile == old(settingsFile)
        && out == old(out) + Shown(player, "num_repeats_positive_warning", []))
      ensures num > 0 ==> (maxRepeats == num && settingsFile == SettingsLines(CurrentBounds())
        && out == old(out) + Shown(player, "repeats_set_success", [IntToString(num)]))
      ensures num > 0 ==> forall b :: ReadSettings(settingsFile, b) == CurrentBounds()
    {
      if num <= 0 {
        Say("num_repeats_positive_warning", []);
        return;
      }
      maxRepeats := num;
      SaveRepeatingSettings();
      Say("repeats_set_success", [IntToString(num)]);
      forall b | true
        ensures ReadSettings(settingsFile, b) == CurrentBounds()
      {
        SettingsRoundTrip(CurrentBounds(), b);
      }
    }

    /** setMaxDelaySeconds: only a non-negative value is taken, saved and reported. */
    method SetMaxDelaySeconds(delay: int)
      requires Valid() && InInt32(delay)
      modifies this`maxDelay, this`settingsFile, this`out
      ensures Valid() && maxRepeats == old(maxRepeats)
      ensures delay < 0 ==> (maxDelay == old(maxDelay) && settingsFile == old(settingsFile)
        && out == old(out) + Shown(player, "delay_positive_warning", []))
      ensures delay >= 0 ==> (maxDelay == delay && settingsFile == SettingsLines(CurrentBounds())
        && out == old(out) + Shown(player, "delay_set_success", [IntToString(delay)]))
      ensures delay >= 0 ==> forall b :: ReadSettings(settingsFile, b) == CurrentBounds()
    {
      if delay < 0 {
        Say("delay_positive_warning", []);
        return;
      }
      maxDelay := delay;
      SaveRepeatingSettings();
      Say("delay_set_success", [IntToString(delay)]);
      forall b | true
        ensures ReadSettings(settingsFile, b) == CurrentBounds()
      {
        SettingsRoundTrip(CurrentBounds(), b);
      }
    }

    // ---------------------------------------------------------------- the pipeline

    /** The scheduling loop of execSingleCmd and execCmdInGame: run r of reps at r * delay. */
    method Schedule(nick: Option<string>, cmd: string, reps: nat, delay: nat)
      modifies this`timers
      ensures timers == old(timers) + Executions(nick, cmd, reps, delay)
    {
      ghost var all := Executions(nick, cmd, reps, delay);
      for r := 0 to reps
        invariant timers == old(timers) + all[..r]
      {
        assert all[..r + 1] == all[..r] + [all[r]];
        timers := timers + [Execution(nick, cmd, r * delay, r + 1, reps)];
      }
      assert all[..reps] == all;
    }

    /** The tail that execSingleCmd and execCmdInGame share once the modifiers are read: the
        block test on the first word (the mod's own commands pass it when exempt), then one
        timer per run; scheduling a run without a live scheduler throws. */
    method RunJob(nick: Option<string>, job: Job, exempt: bool)
      requires player
      modifies this`out, this`timers
      ensures var o := Launch(Admit(nick, job, blocked, exempt), running);
        out == old(out) + o.events && timers == old(timers) + o.execs
    {
      var head := HeadToken(job.cmd);
      if head.None? {
        out := out + [Crash("java.lang.ArrayIndexOutOfBoundsException")];
        return;
      }
      var base := Lower(head.value);
      if base in blocked && !(exempt && IsModCmd(base)) {
        Say("cmd_blocked", ["/" + base]);
        return;
      }
      if !running && job.reps > 0 {
        out := out + [Crash("java.lang.NullPointerException")];
        return;
      }
      Schedule(nick, job.cmd, job.reps, job.delay);
    }

    /** execSingleCmd for a sub-command of a record from nick. It runs on the live scheduler. */
    method ExecSingleCmd(nick: string, cmd: string)
      requires running && player
      modifies this`out, this`timers
      ensures var o := SubCommand(Some(nick), cmd, blocked, CurrentBounds(), false);
        out == old(out) + o.events && timers == old(timers) + o.execs
    {
      Exec(Some(nick), cmd, false);
    }

    /** execCmdInGame (/cycm execute and /ce): the player's own command, with the mod's commands
        exempt from the block test. */
    method ExecCmdInGame(cmd: string)
      modifies this`out, this`timers
      ensures !player ==> out == old(out) && timers == old(timers)
      ensures player ==> var o := Launch(SubCommand(None, cmd, blocked, CurrentBounds(), true), running);
        out == old(out) + o.events && timers == old(timers) + o.execs
    {
      if !player {
        Say("no_player", []);
        return;
      }
      Exec(None, cmd, true);
    }

    /** What execSingleCmd and execCmdInGame share: read the modifiers, then the block test and
        the timers. */
    method Exec(nick: Option<string>, cmd: string, exempt: bool)
      requires player
      modifies this`out, this`timers
      ensures var o := Launch(SubCommand(nick, cmd, blocked, CurrentBounds(), exempt), running);
        out == old(out) + o.events && timers == old(timers) + o.execs
    {
      ghost var o := SubCommand(nick, cmd, blocked, CurrentBounds(), exempt);
      var parsed := ParseModifiers(cmd, maxRepeats, maxDelay);
      if parsed.Err? {
        assert o == Outcome([parsed.error], []);
        out := out + [parsed.error];
        return;
      }
      assert o == Admit(nick, parsed.value, blocked, exempt);
      RunJob(nick, parsed.value, exempt);
    }

    /** procCmdLine: split the record, then run each trimmed sub-command in turn. */
    method ProcCmdLine(line: string)
      requires running && player
      modifies this`out, this`timers
      ensures var o := CmdLine(line, blocked, CurrentBounds());
        out == old(out) + o.events && timers == old(timers) + o.execs
    {
      var rec := SplitRecord(line);
      if rec.None? {
        Say("bad_cmd_format", [line]);
        return;
      }
      var nick := rec.value.nick;
      var fullCmd := rec.value.payload;
      if !StartsWith(fullCmd, "/") {
        Say("cmd_must_start_with_slash", [line]);
        return;
      }
      CmdLineIsChain(line, blocked, CurrentBounds());
      RunSubCommands(nick, fullCmd[1..]);
    }

    /** The loop of procCmdLine over the pieces between "&&". */
    method RunSubCommands(nick: string, rest: string)
      requires running && player
      modifies this`out, this`timers
      ensures var o := Chain(Some(nick), SubCommands(rest), blocked, CurrentBounds());
        out == old(out) + o.events && timers == old(timers) + o.execs
    {
      RunEach(nick, SubCommands(rest));
    }

    /** Run each of cmds in turn, as execSingleCmd from nick. */
    method RunEach(nick: string, cmds: seq<string>)
      requires running && player
      modifies this`out, this`timers
      ensures var o := Chain(Some(nick), cmds, blocked, CurrentBounds());
        out == old(out) + o.events && timers == old(timers) + o.execs
    {
      ChainNil(Some(nick), cmds, blocked, CurrentBounds());
      for i := 0 to |cmds|
        invariant out == old(out) + Chain(Some(nick), cmds[..i], blocked, CurrentBounds()).events
        invariant timers == old(timers) + Chain(Some(nick), cmds[..i], blocked, CurrentBounds()).execs
      {
        RunSubCommand(nick, cmds, i, old(out), old(timers));
      }
      assert cmds[..|cmds|] == cmds;
    }

    /** One turn of that loop: the i-th piece extends the chain of the ones before it. */
    method RunSubCommand(nick: string, cmds: seq<string>, i: nat, ghost out0: seq<Event>, ghost timers0: seq<Execution>)
      requires running && player && i < |cmds|
      requires out == out0 + Chain(Some(nick), cmds[..i], blocked, CurrentBounds()).events
      requires timers == timers0 + Chain(Some(nick), cmds[..i], blocked, CurrentBounds()).execs
      modifies this`out, this`timers
      ensures out == out0 + Chain(Some(nick), cmds[..i + 1], blocked, CurrentBounds()).events
      ensures timers == timers0 + Chain(Some(nick), cmds[..i + 1], blocked, CurrentBounds()).execs
    {
      ExecSingleCmd(nick, cmds[i]);
      ChainExtend(Some(nick), cmds, i, blocked, CurrentBounds(), out0, timers0);
    }

    /** procChatLine: both the chat line and the format error are shown only to a player. */
    method ProcChatLine(line: string)
      modifies this`out
      ensures out == old(out) + (if player then [ChatEffect(line)] else [])
    {
      var rec := SplitRecord(line);
      if rec.None? {
        Say("bad_chat_format", [line]);
        return;
      }
      if player {
        out := out + [ChatLine(rec.value.nick, rec.value.payload)];
      }
    }

    /** procClearFirst on commands_list.txt with procCmdLine: log the first line, process it,
        then write the file back without it. */
    method ProcClearFirstCmds(stamp: string)
      requires running && player
      modifies this`cmdFile, this`cmdLog, this`out, this`timers
      ensures cmdFile == Tail(old(cmdFile)) && cmdLog == Logged(old(cmdLog), stamp, old(cmdFile))
      ensures var o := CmdQueueEffect(old(cmdFile), blocked, CurrentBounds());
        out == old(out) + o.events && timers == old(timers) + o.execs
    {
      if cmdFile == [] {
        return;
      }
      var first := cmdFile[0];
      cmdLog := cmdLog + [stamp + " " + first];
      ProcCmdLine(first);
      cmdFile := cmdFile[1..];
    }

    /** procClearFirst on chat.txt with procChatLine. */
    method ProcClearFirstChat(stamp: string)
      modifies this`chatFile, this`chatLog, this`out
      ensures chatFile == Tail(old(chatFile)) && chatLog == Logged(old(chatLog), stamp, old(chatFile))
      ensures out == old(out) + (if player then ChatQueueEffect(old(chatFile)) else [])
    {
      if chatFile == [] {
        return;
      }
      var first := chatFile[0];
      chatLog := chatLog + [stamp + " " + first];
      ProcChatLine(first);
      chatFile := chatFile[1..];
    }

    /** processFiles, run every two seconds by the live scheduler: commands, then chat. Without
        a player or with the mod off it stops the scheduler instead, which drops the timers. */
    method ProcessFiles(stamp: string)
      requires running
      modifies this`running, this`timers, this`cmdFile, this`chatFile, this`cmdLog, this`chatLog, this`out
      ensures !(enabled && player) ==> (!running && timers == []
        && cmdFile == old(cmdFile) && chatFile == old(chatFile) && out == old(out)
        && cmdLog == old(cmdLog) && chatLog == old(chatLog))
      ensures enabled && player ==> (running
        && cmdFile == Tail(old(cmdFile)) && cmdLog == Logged(old(cmdLog), stamp, old(cmdFile))
        && chatFile == Tail(old(chatFile)) && chatLog == Logged(old(chatLog), stamp, old(chatFile)))
      ensures enabled && player ==> var o := CmdQueueEffect(old(cmdFile), blocked, CurrentBounds());
        out == old(out) + o.events + ChatQueueEffect(old(chatFile)) && timers == old(timers) + o.execs
    {
      if !enabled || !player {
        StopFileProcessing();
        return;
      }
      ProcessQueues(stamp);
    }

    /** What processFiles does with a player and the mod on: the head of each queue in turn. */
    method ProcessQueues(stamp: string)
      requires running && player
      modifies this`timers, this`cmdFile, this`chatFile, this`cmdLog, this`chatLog, this`out
      ensures cmdFile == Tail(old(cmdFile)) && cmdLog == Logged(old(cmdLog), stamp, old(cmdFile))
      ensures chatFile == Tail(old(chatFile)) && chatLog == Logged(old(chatLog), stamp, old(chatFile))
      ensures var o := CmdQueueEffect(old(cmdFile), blocked, CurrentBounds());
        out == old(out) + o.events + ChatQueueEffect(old(chatFile)) && timers == old(timers) + o.execs
    {
      ProcClearFirstCmds(stamp);
      ghost var mid := out;
      ProcClearFirstChat(stamp);
      assert out == mid + ChatQueueEffect(old(chatFile));
    }

    /** A timer fires: without a player it does nothing; otherwise it announces the run and
        sends the command. */
    method Fire(k: nat)
      requires k < |timers|
      modifies this`timers, this`out
      ensures timers == old(timers[..k] + timers[k + 1..])
      ensures var e := old(timers[k]);
        out == old(out) + (if player then [Executed(e.nick, e.cmd, e.rep, e.reps), SendCommand(e.cmd)] else [])
    {
      var e := timers[k];
      timers := timers[..k] + timers[k + 1..];
      if player {
        out := out + [Executed(e.nick, e.cmd, e.rep, e.reps), SendCommand(e.cmd)];
      }
    }

    // ---------------------------------------------------------------- lifecycle

    /** startFileProcessing: a no-op while the scheduler is live. */
    method StartFileProcessing()
      modifies this`running
      ensures running
    {
      if !running {
        running := true;
      }
    }

    /** stopFileProcessing: shutdownNow drops the pending timers; a second stop does nothing. */
    method StopFileProcessing()
      modifies this`running, this`timers
      ensures !running
      ensures timers == if old(running) then [] else old(timers)
    {
      if running {
        running := false;
        timers := [];
      }
    }

    /** The end-of-tick handler: start when a player is present and the mod is on, stop when
        the player is gone. */
    method Tick()
      modifies this`running, this`timers
      ensures player && enabled ==> running && timers == old(timers)
      ensures player && !enabled ==> running == old(running) && timers == old(timers)
      ensures !player ==> !running && timers == (if old(running) then [] else old(timers))
    {
      if player {
        if enabled && !running {
          StartFileProcessing();
        }
      } else {
        StopFileProcessing();
      }
    }

    /** setModEnabled */
    method SetModEnabled(e: bool)
      modifies this`enabled, this`running, this`timers, this`out
      ensures enabled == e
      ensures old(enabled) == e ==> (running == old(running) && timers == old(timers)
        && out == old(out) + Shown(player, "mod_already_state", [StateName(e)]))
      ensures old(enabled) != e ==> (out == old(out) + Shown(player, "mod_state", [StateName(e)])
        && running == e && (e ==> timers == old(timers))
        && (!e ==> timers == if old(running) then [] else old(timers)))
    {
      if enabled == e {
        Say("mod_already_state", [StateName(e)]);
        return;
      }
      enabled := e;
      Say("mod_state", [StateName(e)]);
      if e {
        StartFileProcessing();
      } else {
        StopFileProcessing();
      }
    }
  }

  /** The clean name of a command is already lower-case, so comparing it with "all" ignoring
      case is plain equality. */
  lemma AllIgnoringCase(c: string)
    requires Lower(c) == c
    ensures EqualsIgnoreCase("all", c) <==> c == "all"
  {
    assert Lower("all") == "all" by {
      assert forall i :: 0 <= i < 3 ==> LowerChar("all"[i]) == "all"[i];
    }
  }
}
