/**
 * The older reader in the client source set: every two seconds it reads commands_list.txt and
 * chat.txt whole and acts on the lines past a per-file cursor, splitting each at its first
 * colon.
 */
module Legacy {
  import opened Common
  import opened JavaText
  import opened Modifier
  import opened Records

  /** The end of the nickname a line starts with: its run of [a-zA-Z0-9_]. */
  function NickEnd(line: string): nat
  {
    SpanWord(line, 0)
  }

  /** No line terminator from position from on: what ".*$" accepts there. */
  predicate NoLineTermFrom(line: string, from: nat)
  {
    forall i :: from <= i < |line| ==> !IsLineTerm(line[i])
  }

  /** line.matches("^[a-zA-Z0-9_]+:.*"), where '.' takes no line terminator. */
  predicate IsChatLine(line: string)
  {
    var k := NickEnd(line);
    0 < k < |line| && line[k] == ':' && NoLineTermFrom(line, k + 1)
  }

  /** line.matches("^[a-zA-Z0-9_]+:/.*") */
  predicate IsCommandLine(line: string)
  {
    var k := NickEnd(line);
    0 < k && k + 1 < |line| && line[k] == ':' && line[k + 1] == '/' && NoLineTermFrom(line, k + 2)
  }

  lemma CommandLineIsChatLine(line: string)
    requires IsCommandLine(line)
    ensures IsChatLine(line)
  {
  }

  /** In a line of either form the first colon ends the nickname. */
  lemma FirstColon(line: string)
    requires IsChatLine(line)
    ensures IndexOf(line, ":") == NickEnd(line)
  {
    var k := NickEnd(line);
    MatchAtChar(line, ':', k);
    MatchAtChar(line, ':', IndexOf(line, ":"));
  }

  /** line.split(":", 2) on a line of either form: the text before the first colon and the
      text after it, which may be empty. */
  function SplitFirst(line: string): (string, string)
    requires IsChatLine(line)
  {
    FirstColon(line);
    var i := IndexOf(line, ":");
    (line[..i], line[i + 1..])
  }

  /** Which of the two files a line comes from. */
  datatype Kind = Commands | Chat

  /** What one line makes happen: for a command line, the announcement and the chat message
      "/" + the text after ":/"; for a chat line, "<nick> " and the text after the colon,
      untrimmed; for any other line, nothing. */
  function LineEvents(kind: Kind, line: string): seq<Event>
  {
    match kind
    case Commands =>
      if IsCommandLine(line) then
        CommandLineIsChatLine(line);
        var (nick, rest) := SplitFirst(line);
        FirstColon(line);
        var command := rest[1..];
        [Announce(nick, command), SendChat("/" + command)]
      else []
    case Chat =>
      if IsChatLine(line) then
        var (nick, text) := SplitFirst(line);
        [ChatLine(nick, text)]
      else []
  }

  /** A command line sends exactly what follows its first ":/", from the nickname before it. */
  lemma CommandLineEvents(line: string)
    requires IsCommandLine(line)
    ensures var k := NickEnd(line);
      && k > 0 && ':' !in line[..k]
      && LineEvents(Commands, line) == [Announce(line[..k], line[k + 2..]), SendChat("/" + line[k + 2..])]
  {
    CommandLineIsChatLine(line);
    FirstColon(line);
    var k := NickEnd(line);
    assert forall i :: 0 <= i < k ==> line[..k][i] == line[i] && IsWordChar(line[i]);
  }

  /** The effects of a run of lines, in file order. */
  function Effects(kind: Kind, lines: seq<string>): seq<Event>
  {
    if lines == [] then [] else Effects(kind, lines[..|lines| - 1]) + LineEvents(kind, lines[|lines| - 1])
  }

  lemma EffectsSnoc(kind: Kind, lines: seq<string>, lo: nat, i: nat)
    requires lo <= i < |lines|
    ensures Effects(kind, lines[lo..i + 1]) == Effects(kind, lines[lo..i]) + LineEvents(kind, lines[i])
  {
    assert lines[lo..i + 1][..i - lo] == lines[lo..i];
  }

  lemma EffectsEmpty(kind: Kind, lines: seq<string>, lo: nat)
    requires lo <= |lines|
    ensures Effects(kind, lines[lo..lo]) == []
  {
    assert lines[lo..lo] == [];
  }

  lemma EffectsWhole(kind: Kind, lines: seq<string>, lo: nat)
    requires lo <= |lines|
    ensures Effects(kind, lines[lo..|lines|]) == Effects(kind, lines[lo..])
  {
    assert lines[lo..|lines|] == lines[lo..];
  }

  lemma {:induction false} EffectsAppend(kind: Kind, a: seq<string>, b: seq<string>)
    ensures Effects(kind, a + b) == Effects(kind, a) + Effects(kind, b)
    decreases |b|
  {
    if b == [] {
      assert a + b == a;
    } else {
      var p := b[..|b| - 1];
      assert (a + b)[..|a + b| - 1] == a + p && (a + b)[|a + b| - 1] == b[|b| - 1];
      EffectsAppend(kind, a, p);
    }
  }

  /** What one read of a file leaves: the file (created empty when it was missing), the
      cursor, and the effects. */
  datatype Read = Read(file: Option<seq<string>>, cursor: nat, events: seq<Event>)

  /** processCommandsFile / processChatFile: a missing file is created and nothing else
      happens; otherwise the lines from the cursor on are acted on, and the cursor moves to the
      end, but only when the file has more lines than the cursor. */
  function ReadNew(kind: Kind, file: Option<seq<string>>, cursor: nat): Read
  {
    match file
    case None => Read(Some([]), cursor, [])
    case Some(lines) =>
      if |lines| > cursor then Read(file, |lines|, Effects(kind, lines[cursor..])) else Read(file, cursor, [])
  }

  /** The cursor never moves back, and stays unless it moves to the end of the file. */
  lemma ReadNewCursor(kind: Kind, file: Option<seq<string>>, cursor: nat)
    ensures var r := ReadNew(kind, file, cursor);
      && r.cursor >= cursor
      && (r.cursor == cursor || (file.Some? && r.cursor == |file.value|))
      && r.file.Some? && (file.Some? ==> r.file == file)
  {
  }

  /** Each line is acted on once: reading again before the file grows does nothing. */
  lemma ReadNewTwice(kind: Kind, file: Option<seq<string>>, cursor: nat)
    ensures var r := ReadNew(kind, file, cursor);
      ReadNew(kind, r.file, r.cursor) == Read(r.file, r.cursor, [])
  {
  }

  /** Lines appended after a read are what the next read acts on, and only they. */
  lemma ReadNewAppended(kind: Kind, lines: seq<string>, more: seq<string>)
    requires more != []
    ensures ReadNew(kind, Some(lines + more), |lines|) == Read(Some(lines + more), |lines| + |more|, Effects(kind, more))
  {
    assert (lines + more)[|lines|..] == more;
  }

  /** A file rewritten with no more lines than were read is never looked at, whatever it
      now holds. */
  lemma ReadNewShrunk(kind: Kind, lines: seq<string>, cursor: nat)
    requires |lines| <= cursor
    ensures ReadNew(kind, Some(lines), cursor) == Read(Some(lines), cursor, [])
  {
  }

  /** The run of word characters from i ends at j when all before j are word characters and
      the one at j is not. */
  lemma {:induction false} SpanWordAt(s: string, i: nat, j: nat)
    requires i <= j <= |s|
    requires forall k :: i <= k < j ==> IsWordChar(s[k])
    requires j < |s| ==> !IsWordChar(s[j])
    ensures SpanWord(s, i) == j
    decreases j - i
  {
    if i < j {
      SpanWordAt(s, i + 1, j);
    }
  }

  /** This reader sends a command whose text holds a colon whole: "bob:/say a:b" announces
      and sends "/say a:b". */
  lemma SendsColonCommand(line: string, nick: string, text: string)
    requires nick == "bob" && text == "say a:b" && line == nick + ":/" + text
    ensures LineEvents(Commands, line) == [Announce(nick, text), SendChat("/" + text)]
  {
    assert forall k :: 0 <= k < 3 ==> line[k] == nick[k];
    SpanWordAt(line, 0, 3);
    assert forall i :: 5 <= i < |line| ==> line[i] == text[i - 5];
    assert NoLineTermFrom(line, 5);
    CommandLineEvents(line);
    assert line[..3] == nick && line[5..] == text;
  }

  /** The main reader splits the same line at its last colon, so its payload "b" is not a
      command and the line is refused. */
  lemma MainReaderSplitsAtLast(line: string, nick: string, payload: string)
    requires nick == "bob:/say a" && payload == "b" && line == nick + ":" + payload
    ensures SplitRecord(line) == Some(Record(nick, payload)) && !StartsWith(payload, "/")
  {
    RecordRoundTrip(nick, payload);
    TrimOfTrimmed(nick);
    TrimOfTrimmed(payload);
  }

  /** The client-side CYCMClient's static state, with the two files as snapshots of their
      lines. */
  class LegacyClient {
    /** commands_list.txt; None while it does not exist. */
    var commandsFile: Option<seq<string>>
    /** chat.txt */
    var chatFile: Option<seq<string>>
    /** lastReadCommandsLineCount */
    var commandsCursor: nat
    /** lastReadChatLineCount */
    var chatCursor: nat
    /** Whether the scheduler is live. */
    var running: bool
    /** config.isModEnabled() */
    var enabled: bool
    /** Whether client.player is there. */
    var player: bool
    /** Messages shown and chat messages sent. */
    var out: seq<Event>

    constructor(enabled: bool, commandsFile: Option<seq<string>>, chatFile: Option<seq<string>>)
      ensures this.enabled == enabled && this.commandsFile == commandsFile && this.chatFile == chatFile
      ensures commandsCursor == 0 && chatCursor == 0 && !running && !player && out == []
    {
      this.enabled := enabled;
      this.commandsFile := commandsFile;
      this.chatFile := chatFile;
      commandsCursor := 0;
      chatCursor := 0;
      running := false;
      player := false;
      out := [];
    }

    /** startFileProcessing: a live scheduler is left alone. */
    method StartFileProcessing()
      modifies this`running
      ensures running
    {
      if running {
        return;
      }
      running := true;
    }

    /** stopFileProcessing; calling it again changes nothing. */
    method StopFileProcessing()
      modifies this`running
      ensures !running
    {
      if running {
        running := false;
      }
    }

    /** The two END_CLIENT_TICK handlers, in the order they were registered. */
    method Tick()
      modifies this`running
      ensures running == (player && enabled)
    {
      if player && enabled {
        if !running {
          StartFileProcessing();
        }
      } else {
        StopFileProcessing();
      }
      // The second handler stops a live scheduler when there is no player; the first has
      // already stopped it then.
    }

    /** setModEnabled: the scheduler follows only while there is a player. */
    method SetModEnabled(e: bool)
      modifies this`enabled, this`running
      ensures enabled == e
      ensures player ==> running == e
      ensures !player ==> running == old(running)
    {
      enabled := e;
      if player {
        if e {
          StartFileProcessing();
        } else {
          StopFileProcessing();
        }
      }
    }

    /** processCommandsFile */
    method ProcessCommandsFile()
      modifies this`commandsFile, this`commandsCursor, this`out
      ensures var r := ReadNew(Commands, old(commandsFile), old(commandsCursor));
        commandsFile == r.file && commandsCursor == r.cursor && out == old(out) + r.events
    {
      if commandsFile.None? {
        commandsFile := Some([]);
        return;
      }
      var lines := commandsFile.value;
      if |lines| > commandsCursor {
        ActOn(Commands, lines, commandsCursor);
        commandsCursor := |lines|;
      }
    }

    /** processChatFile */
    method ProcessChatFile()
      modifies this`chatFile, this`chatCursor, this`out
      ensures var r := ReadNew(Chat, old(chatFile), old(chatCursor));
        chatFile == r.file && chatCursor == r.cursor && out == old(out) + r.events
    {
      if chatFile.None? {
        chatFile := Some([]);
        return;
      }
      var lines := chatFile.value;
      if |lines| > chatCursor {
        ActOn(Chat, lines, chatCursor);
        chatCursor := |lines|;
      }
    }

    /** The loop both readers share: act on each line from the cursor on, in order. */
    method ActOn(kind: Kind, lines: seq<string>, from: nat)
      requires from <= |lines|
      modifies this`out
      ensures out == old(out) + Effects(kind, lines[from..])
    {
      var acted := [];
      EffectsEmpty(kind, lines, from);
      for i := from to |lines|
        invariant out == old(out) && acted == Effects(kind, lines[from..i])
      {
        EffectsSnoc(kind, lines, from, i);
        acted := acted + LineEvents(kind, lines[i]);
      }
      EffectsWhole(kind, lines, from);
      out := out + acted;
    }

    /** processFiles, run by the live scheduler: with the mod off or no player it stops the
        scheduler and touches neither file; otherwise commands, then chat. */
    method ProcessFiles()
      requires running
      modifies this`running, this`commandsFile, this`commandsCursor, this`chatFile, this`chatCursor, this`out
      ensures !(enabled && player) ==> (!running && commandsFile == old(commandsFile) && chatFile == old(chatFile)
        && commandsCursor == old(commandsCursor) && chatCursor == old(chatCursor) && out == old(out))
      ensures enabled && player ==> (running
        && var c := ReadNew(Commands, old(commandsFile), old(commandsCursor));
        var h := ReadNew(Chat, old(chatFile), old(chatCursor));
        && commandsFile == c.file && commandsCursor == c.cursor
        && chatFile == h.file && chatCursor == h.cursor
        && out == old(out) + c.events + h.events)
    {
      if !enabled {
        StopFileProcessing();
        return;
      }
      if player {
        ProcessCommandsFile();
        ProcessChatFile();
      } else {
        StopFileProcessing();
      }
    }
  }
}
