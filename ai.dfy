/**
 * The Gemini bridge: the conversation history, the request body built from it, the decision
 * tree that handles a reply, and the slot holding the 30-second timeout of the request under way.
 */
module Ai {
  import opened Common
  import opened JavaText
  import opened Modifier
  import opened BlockList
  import opened Settings
  import opened Json

  /** AIConversationEntry: a role and a text, which Java allows to be null (None). */
  datatype Entry = Entry(role: string, text: Option<string>)

  /** The start of the request body, before its entries. */
  const Opening := "{ \"contents\": ["

  /** The fixed user/model pair that starts every conversation. */
  const Preamble :=
    "{\"role\": \"user\", \"parts\": [{\"text\": \""
    + "You are a helpful Minecraft assistant. "
    + "Respond concisely in Ukrainian. "
    + "If a user asks you to perform an action, respond in JSON without Markdown, using the format: {\\\\\\\"message\\\\\\\": \\\\\\\"Your text response\\\\\\\", \\\\\\\"runCommand\\\\\\\": \\\\\\\"command to run, empty, or null\\\\\\\"}. "
    + "If you need to run a command, always start it with a slash (/). "
    + "You can use Minecraft commands, including complex ones with NBT or selectors. "
    + "You also know about the repeater syntax for commands (+N Y where N is repeats, Y is delay in seconds) and command chaining with &&. "
    + "For example, if I say \\\\\\\"summon a bunch of chickens\\\\\\\" you might respond {\\\\\\\"message\\\\\\\": \\\\\\\"Summoning chickens!\\\\\\\", \\\\\\\"runCommand\\\\\\\": \\\\\\\"/summon minecraft:chicken +10 1\\\\\\\"}. "
    + "If the user gives you command output, use it to inform your next response. "
    + "If you cannot fulfill a command, just explain it in the message field. "
    + "Do not use Markdown in your JSON. "
    + "Example: {\\\\\\\"message\\\\\\\": \\\\\\\"I've found a village!\\\\\\\", \\\\\\\"runCommand\\\\\\\": \\\\\\\"/locate structure minecraft:village_plains\\\\\\\"}.\"}]}, "
    + "{\"role\": \"model\", \"parts\": [{\"text\": \""
    + "Зрозумів. "
    + "Я готовий допомагати з Minecraft командами.\"}]}"

  /** The end of the request body. */
  const Closing := "]}"

  /** The JSON object of one entry, its text escaped. */
  function EntryJson(role: string, text: string): string
  {
    ", {\"role\": \"" + role + "\", \"parts\": [{\"text\": \"" + EscapeJson(text) + "\"}]}"
  }

  /** The entries of a history, in order; None when one has a null text, where escapeJson
      throws. */
  function Contents(h: seq<Entry>): Option<string>
  {
    if h == [] then Some([])
    else
      var last := h[|h| - 1];
      match Contents(h[..|h| - 1])
      case None => None
      case Some(c) => if last.text.None? then None else Some(c + EntryJson(last.role, last.text.value))
  }

  /** buildRequestBody: the opening, the preamble, every entry of the history, the closing.
      The bridge always passes Preamble; taking it as a parameter keeps the long text out of
      the reasoning about the rest. */
  function RequestBody(preamble: string, h: seq<Entry>): Option<string>
  {
    match Contents(h)
    case None => None
    case Some(c) => Some(Opening + preamble + c + Closing)
  }

  /** The body can be built exactly when no entry has a null text. */
  lemma {:induction false} ContentsSomeIff(h: seq<Entry>)
    ensures Contents(h).Some? <==> forall k :: 0 <= k < |h| ==> h[k].text.Some?
    decreases |h|
  {
    if h != [] {
      var p := h[..|h| - 1];
      ContentsSomeIff(p);
      assert forall k :: 0 <= k < |p| ==> p[k] == h[k];
    }
  }

  lemma ContentsSnoc(h: seq<Entry>, i: nat)
    requires i < |h| && h[i].text.Some? && Contents(h[..i]).Some?
    ensures Contents(h[..i + 1]) == Some(Contents(h[..i]).value + EntryJson(h[i].role, h[i].text.value))
  {
    assert h[..i + 1][..i] == h[..i];
  }

  lemma ContentsNoneAt(h: seq<Entry>, i: nat)
    requires i < |h| && h[i].text.None?
    ensures Contents(h).None?
  {
    ContentsSomeIff(h);
  }

  /** A null text stops the build whatever follows it. */
  lemma ContentsNonePrefix(h: seq<Entry>, n: nat)
    requires n <= |h| && Contents(h[..n]).None?
    ensures Contents(h).None?
  {
    ContentsSomeIff(h[..n]);
    ContentsSomeIff(h);
    var k :| 0 <= k < n && h[..n][k].text.None?;
    assert h[k].text.None?;
  }

  /** Each entry carries its text escaped so that reading the JSON string gives it back, with
      no raw line break inside. */
  lemma EntryJsonReadsBack(role: string, text: string)
    ensures exists esc :: (EntryJson(role, text) == ", {\"role\": \"" + role + "\", \"parts\": [{\"text\": \"" + esc + "\"}]}"
      && Unescape(esc) == Some(text) && NoRawBreaks(esc))
  {
    UnescapeEscapeJson(text);
    EscapeJsonNoRawBreaks(text);
  }

  /** What COMMAND_PATTERN's group 1 holds after find(): the command name after the slash;
      None when the pattern does not match. */
  function CommandBase(cmd: string): Option<string>
  {
    var k := SpanWs(cmd, 0);
    if k + 1 < |cmd| && cmd[k] == '/' && IsWordChar(cmd[k + 1]) then Some(cmd[k + 1..SpanWord(cmd, k + 1)])
    else None
  }

  /** For a command that starts with '/', the pattern matches exactly when a word character
      follows, and the name is the longest run of them, which holds no space. */
  lemma CommandBaseOfSlash(cmd: string)
    requires StartsWith(cmd, "/")
    ensures CommandBase(cmd).Some? <==> |cmd| > 1 && IsWordChar(cmd[1])
    ensures CommandBase(cmd).Some? ==> var g := CommandBase(cmd).value;
      g != [] && g == cmd[1..1 + |g|] && ' ' !in g && (1 + |g| < |cmd| ==> !IsWordChar(cmd[1 + |g|]))
      && forall k :: 0 <= k < |g| ==> IsWordChar(g[k])
  {
    assert cmd[0] == '/' && !IsWs(cmd[0]);
    if CommandBase(cmd).Some? {
      var g := CommandBase(cmd).value;
      assert forall k :: 0 <= k < |g| ==> g[k] == cmd[1 + k];
    }
  }

  /** AIResponse as Gson reads the reply text: not JSON, the JSON null, or the two fields. */
  datatype Reply = NotStructured | NullReply | Structured(message: Option<string>, runCommand: Option<string>)

  /** The response envelope as Gson reads it: not JSON at all, candidates without a first text
      part, a first text part and what it parses to, an error object, or none of these. */
  datatype Response =
    | Unparsable(body: string, error: string)
    | NoText
    | Text(raw: string, reply: Reply)
    | ApiError(message: string)
    | Malformed

  /** What handling a reply shows and sends, and what it appends to the history. */
  datatype Handling = Handling(events: seq<Event>, entries: seq<Entry>)

  /** The command branch once a command is known to be non-blank: the format test, the block
      test on the lower-cased name, and the hand-off to the game without the slash. */
  function RunCommand(cmd: string, blocked: set<string>, player: bool): Handling
  {
    if !StartsWith(cmd, "/") then Handling(Shown(player, "ai_invalid_command_format", [cmd]), [])
    else
      var base := if CommandBase(cmd).Some? then Lower(CommandBase(cmd).value) else "";
      if base != [] && IsCmdBlocked(blocked, base) == Some(true) then
        Handling(Shown(player, "ai_cmd_blocked_warning", [base]), [])
      else
        Handling(Shown(player, "ai_executing_command", [cmd]) + [SendCommand(cmd[1..])],
                 [Entry("model", Some("Executed command: " + cmd))])
  }

  /** The message Java gives when group(1) is read from a matcher that never matched, as the
      exceptionally handler reports it. */
  const NoMatchFound := "java.lang.IllegalStateException: No match found"

  /** The command branch as written: group(1) is read from a second, fresh matcher, which
      throws whenever the first one found the pattern; the exception ends the handler, and the
      request's exceptionally handler reports it. Only a command with no name after the slash
      gets through, unblocked. */
  function RunCommandAsWritten(cmd: string, player: bool): Handling
  {
    if !StartsWith(cmd, "/") then Handling(Shown(player, "ai_invalid_command_format", [cmd]), [])
    else if CommandBase(cmd).Some? then Handling(Shown(player, "ai_request_error", [NoMatchFound]), [])
    else
      Handling(Shown(player, "ai_executing_command", [cmd]) + [SendCommand(cmd[1..])],
               [Entry("model", Some("Executed command: " + cmd))])
  }

  /** The reply's message, shown when it is neither null nor empty. */
  function MessageShown(player: bool, m: Option<string>): seq<Event>
  {
    if m.Some? && m.value != [] then Shown(player, "ai_response", [m.value]) else []
  }

  /** handleGeminiResponse after it has cleared the timeout; asWritten chooses the command
      branch as written or corrected. */
  function Handle(resp: Response, blocked: set<string>, player: bool, asWritten: bool): Handling
  {
    match resp
    case Unparsable(body, error) =>
      Handling(Shown(player, "ai_malformed_json", [error]) + Shown(player, "ai_response", [body]), [])
    case NoText => Handling([], [])
    case ApiError(m) => Handling(Shown(player, "ai_api_error", [m]), [])
    case Malformed => Handling(Shown(player, "ai_malformed_response", []), [])
    case Text(raw, reply) =>
      match reply
      case NotStructured => Handling(Shown(player, "ai_response", [raw]), [Entry("model", Some(raw))])
      case NullReply => Handling(Shown(player, "ai_response", [raw]), [Entry("model", Some(raw))])
      case Structured(m, c) =>
        if c.Some? && !IsBlank(c.value) then
          var h := if asWritten then RunCommandAsWritten(c.value, player) else RunCommand(c.value, blocked, player);
          Handling(MessageShown(player, m) + h.events, h.entries)
        else Handling(MessageShown(player, m), [Entry("model", m)])
  }

  /** The handler with the command name read from the matcher that found it. */
  function Decide(resp: Response, blocked: set<string>, player: bool): Handling
  {
    Handle(resp, blocked, player, false)
  }

  /** The handler as written. */
  function DecideAsWritten(resp: Response, blocked: set<string>, player: bool): Handling
  {
    Handle(resp, blocked, player, true)
  }

  /** The commands sent to the game, in order. */
  function Commands(events: seq<Event>): seq<string>
  {
    if events == [] then []
    else Commands(events[..|events| - 1]) + (if events[|events| - 1].SendCommand? then [events[|events| - 1].command] else [])
  }

  lemma {:induction false} CommandsAppend(a: seq<Event>, b: seq<Event>)
    ensures Commands(a + b) == Commands(a) + Commands(b)
    decreases |b|
  {
    if b == [] {
      assert a + b == a;
    } else {
      assert (a + b)[..|a + b| - 1] == a + b[..|b| - 1];
      CommandsAppend(a, b[..|b| - 1]);
    }
  }

  lemma CommandsShown(player: bool, key: string, args: seq<string>)
    ensures Commands(Shown(player, key, args)) == []
  {
    if player {
      assert Shown(player, key, args)[..0] == [];
    }
  }

  /** The reply asks for a command that the handler should send: non-blank, starting with '/',
      and with a name, if any, that is not blocked. */
  predicate Approved(resp: Response, blocked: set<string>)
  {
    resp.Text? && resp.reply.Structured? && resp.reply.runCommand.Some?
    && var c := resp.reply.runCommand.value;
    !IsBlank(c) && StartsWith(c, "/") && (CommandBase(c).None? || Lower(CommandBase(c).value) !in blocked)
  }

  /** A command reaches the game exactly when the reply asks for an approved one: it goes
      without its slash and is recorded as "Executed command: " and the command; nothing else
      is ever sent. */
  lemma DecideSends(resp: Response, blocked: set<string>, player: bool)
    ensures var h := Decide(resp, blocked, player);
      && (Approved(resp, blocked) ==> var c := resp.reply.runCommand.value;
            Commands(h.events) == [c[1..]] && h.entries == [Entry("model", Some("Executed command: " + c))])
      && (!Approved(resp, blocked) ==> Commands(h.events) == [])
  {
    match resp
    case Unparsable(body, error) =>
      CommandsShown(player, "ai_malformed_json", [error]);
      CommandsShown(player, "ai_response", [body]);
      CommandsAppend(Shown(player, "ai_malformed_json", [error]), Shown(player, "ai_response", [body]));
    case NoText =>
    case ApiError(m) => CommandsShown(player, "ai_api_error", [m]);
    case Malformed => CommandsShown(player, "ai_malformed_response", []);
    case Text(raw, reply) =>
      if reply.Structured? {
        StructuredSends(raw, reply.message, reply.runCommand, blocked, player);
      } else {
        CommandsShown(player, "ai_response", [raw]);
      }
  }

  lemma CommandsMessageShown(player: bool, m: Option<string>)
    ensures Commands(MessageShown(player, m)) == []
  {
    if m.Some? && m.value != [] {
      CommandsShown(player, "ai_response", [m.value]);
    }
  }

  lemma StructuredSends(raw: string, m: Option<string>, c: Option<string>, blocked: set<string>, player: bool)
    ensures var resp := Text(raw, Structured(m, c));
      var h := Decide(resp, blocked, player);
      && (Approved(resp, blocked) ==>
            Commands(h.events) == [c.value[1..]] && h.entries == [Entry("model", Some("Executed command: " + c.value))])
      && (!Approved(resp, blocked) ==> Commands(h.events) == [])
  {
    CommandsMessageShown(player, m);
    if c.Some? && !IsBlank(c.value) {
      RunCommandSends(c.value, blocked, player);
      CommandsAppend(MessageShown(player, m), RunCommand(c.value, blocked, player).events);
    }
  }

  lemma RunCommandSends(cmd: string, blocked: set<string>, player: bool)
    ensures var h := RunCommand(cmd, blocked, player);
      var ok := StartsWith(cmd, "/") && (CommandBase(cmd).None? || Lower(CommandBase(cmd).value) !in blocked);
      && (ok ==> Commands(h.events) == [cmd[1..]] && h.entries == [Entry("model", Some("Executed command: " + cmd))])
      && (!ok ==> Commands(h.events) == [] && h.entries == [])
  {
    if !StartsWith(cmd, "/") {
      CommandsShown(player, "ai_invalid_command_format", [cmd]);
      return;
    }
    var base := if CommandBase(cmd).Some? then Lower(CommandBase(cmd).value) else "";
    if CommandBase(cmd).Some? {
      CommandBaseOfSlash(cmd);
      LowerKeepsSpaces(CommandBase(cmd).value);
      IsCmdBlockedOfToken(blocked, base);
      LowerIdempotent(CommandBase(cmd).value);
    }
    if base != [] && IsCmdBlocked(blocked, base) == Some(true) {
      CommandsShown(player, "ai_cmd_blocked_warning", [base]);
    } else {
      var shown := Shown(player, "ai_executing_command", [cmd]);
      CommandsShown(player, "ai_executing_command", [cmd]);
      CommandsAppend(shown, [SendCommand(cmd[1..])]);
      assert [SendCommand(cmd[1..])][..0] == [];
    }
  }

  /** Only a reply that asks for an approved command, or one without command that is not
      plain text, grows the history, and then by exactly one model entry. */
  lemma DecideEntries(resp: Response, blocked: set<string>, player: bool)
    ensures var h := Decide(resp, blocked, player);
      && (!resp.Text? ==> h.entries == [])
      && (resp.Text? && !resp.reply.Structured? ==> (h.entries == [Entry("model", Some(resp.raw))]
            && h.events == Shown(player, "ai_response", [resp.raw])))
      && (resp.Text? && resp.reply.Structured? && (resp.reply.runCommand.None? || IsBlank(resp.reply.runCommand.value)) ==>
            h.entries == [Entry("model", resp.reply.message)])
      && (resp.Text? && resp.reply.Structured? && resp.reply.runCommand.Some? && !IsBlank(resp.reply.runCommand.value) ==>
            h.entries == (if Approved(resp, blocked) then [Entry("model", Some("Executed command: " + resp.reply.runCommand.value))] else []))
  {
    match resp {
      case Text(raw, reply) =>
        match reply {
          case Structured(message, run) =>
            if run.Some? && !IsBlank(run.value) {
              RunCommandSends(run.value, blocked, player);
            }
          case _ =>
        }
      case _ =>
    }
  }

  /** The only entry with a null text comes from a structured reply that has neither a message
      nor a command. */
  lemma DecideNullEntry(resp: Response, blocked: set<string>, player: bool)
    ensures (exists k :: 0 <= k < |Decide(resp, blocked, player).entries| && Decide(resp, blocked, player).entries[k].text.None?)
      <==> resp.Text? && resp.reply.Structured? && resp.reply.message.None?
           && (resp.reply.runCommand.None? || IsBlank(resp.reply.runCommand.value))
  {
    DecideEntries(resp, blocked, player);
    var es := Decide(resp, blocked, player).entries;
    if resp.Text? && resp.reply.Structured? && resp.reply.message.None?
       && (resp.reply.runCommand.None? || IsBlank(resp.reply.runCommand.value)) {
      assert es[0].text.None?;
    }
  }

  /** As written, a reply whose command has a name after its slash never reaches the game, is
      not recorded, and ends in the request error. */
  lemma AsWrittenRefusesNamedCommands(resp: Response, blocked: set<string>, player: bool)
    requires resp.Text? && resp.reply.Structured? && resp.reply.runCommand.Some?
    requires var c := resp.reply.runCommand.value; StartsWith(c, "/") && CommandBase(c).Some?
    ensures var h := DecideAsWritten(resp, blocked, player);
      Commands(h.events) == [] && h.entries == []
      && (player ==> h.events[|h.events| - 1] == Msg("ai_request_error", [NoMatchFound]))
  {
    var c := resp.reply.runCommand.value;
    var m := resp.reply.message;
    assert c[0] == '/' && !IsTrimmable(c[0]);
    TrimEmptyIff(c);
    CommandsMessageShown(player, m);
    CommandsShown(player, "ai_request_error", [NoMatchFound]);
    CommandsAppend(MessageShown(player, m), Shown(player, "ai_request_error", [NoMatchFound]));
  }

  /** Everywhere else the handler as written and the corrected one agree. */
  lemma AsWrittenAgrees(resp: Response, blocked: set<string>, player: bool)
    requires !(resp.Text? && resp.reply.Structured? && resp.reply.runCommand.Some?
               && StartsWith(resp.reply.runCommand.value, "/") && CommandBase(resp.reply.runCommand.value).Some?)
    ensures DecideAsWritten(resp, blocked, player) == Decide(resp, blocked, player)
  {
  }

  /** The input that shows it: "/time set day" from the model, with nothing blocked, is sent by
      the corrected handler and refused by the handler as written. */
  lemma AsWrittenCounterexample()
    ensures var resp := Text("", Structured(None, Some("/time set day")));
      Commands(Decide(resp, {}, true).events) == ["time set day"]
      && Commands(DecideAsWritten(resp, {}, true).events) == []
  {
    var resp := Text("", Structured(None, Some("/time set day")));
    var c := "/time set day";
    assert StartsWith(c, "/") && IsWordChar(c[1]);
    CommandBaseOfSlash(c);
    TrimEmptyIff(c);
    assert !IsTrimmable(c[0]);
    DecideSends(resp, {}, true);
    AsWrittenRefusesNamedCommands(resp, {}, true);
  }

  /** The key is missing when there is none or it is blank. */
  predicate KeyMissing(k: Option<string>)
  {
    k.None? || IsBlank(k.value)
  }

  /** The key loadApiKey reads, the first line that is neither blank nor a comment, is never
      blank itself: only a file without such a line leaves it missing. */
  lemma LoadedKey(lines: seq<string>)
    ensures KeyMissing(FirstKept(lines)) <==> FirstKept(lines).None?
  {
  }

  /** The text the key adds to the request URI: String concatenation writes a null key as "null". */
  function KeyText(k: Option<string>): string
  {
    if k.None? then "null" else k.value
  }

  /** Character.isSpaceChar: the Unicode space, line and paragraph separators. */
  predicate IsSpaceChar(c: char)
  {
    c == ' ' || c == '\U{A0}' || c == '\U{1680}' || ('\U{2000}' <= c <= '\U{200A}')
    || c == '\U{2028}' || c == '\U{2029}' || c == '\U{202F}' || c == '\U{205F}' || c == '\U{3000}'
  }

  predicate IsHexDigit(c: char)
  {
    '0' <= c <= '9' || 'a' <= c <= 'f' || 'A' <= c <= 'F'
  }

  /** A character java.net.URI takes as itself in a query or a fragment: an ASCII letter or
      digit, an unreserved mark, a reserved character, or a non-ASCII character that is neither
      a space separator nor an ISO control. */
  predicate IsUricChar(c: char)
  {
    if c < '\U{80}' then
      'a' <= c <= 'z' || 'A' <= c <= 'Z' || '0' <= c <= '9' || c in "-_.!~*'()" || c in ";/?:@&=+$,[]"
    else !IsSpaceChar(c) && !('\U{80}' <= c <= '\U{9F}')
  }

  /** java.net.URI's check of a query or a fragment: each character stands for itself, or a '%'
      starts an escape of two hex digits. Anything else is a syntax error. */
  predicate UricText(s: string)
    decreases |s|
  {
    if s == [] then true
    else if s[0] == '%' then |s| >= 3 && IsHexDigit(s[1]) && IsHexDigit(s[2]) && UricText(s[3..])
    else IsUricChar(s[0]) && UricText(s[1..])
  }

  /**
   * Whether URI.create accepts the Gemini base URL followed by the key. The base is a fixed
   * https URL ending in "?key=", so the key starts the query: the query runs up to the first
   * '#' and the rest is the fragment, and both must pass the check.
   */
  predicate UriAccepts(key: string)
  {
    var i := IndexOf(key, "#");
    if i == -1 then UricText(key) else UricText(key[..i]) && UricText(key[i + 1..])
  }

  /** A text that passes the query check holds no space and no '#'. */
  lemma {:induction false} UricTextRefuses(s: string, k: nat)
    requires UricText(s) && k < |s|
    ensures s[k] != ' ' && s[k] != '#'
    decreases |s|
  {
    if s[0] == '%' {
      if k >= 3 {
        UricTextRefuses(s[3..], k - 3);
      }
    } else if k > 0 {
      UricTextRefuses(s[1..], k - 1);
    }
  }

  /** A key holding a space, as a key line with a trailing blank does, makes URI.create throw. */
  lemma SpaceRefused(key: string, k: nat)
    requires k < |key| && key[k] == ' '
    ensures !UriAccepts(key)
  {
    var i := IndexOf(key, "#");
    if i == -1 {
      if UricText(key) {
        UricTextRefuses(key, k);
      }
    } else if UricText(key[..i]) && UricText(key[i + 1..]) {
      assert key[i..i + 1] == "#";
      if k < i {
        UricTextRefuses(key[..i], k);
      } else {
        assert k != i;
        UricTextRefuses(key[i + 1..], k - i - 1);
      }
    }
  }

  /** The characters of a Gemini API key: ASCII letters, digits, '-' and '_'. */
  predicate IsKeyChar(c: char)
  {
    'a' <= c <= 'z' || 'A' <= c <= 'Z' || '0' <= c <= '9' || c == '-' || c == '_'
  }

  lemma {:induction false} KeyCharsUric(s: string)
    requires forall k :: 0 <= k < |s| ==> IsKeyChar(s[k])
    ensures UricText(s)
    decreases |s|
  {
    if s != [] {
      KeyCharsUric(s[1..]);
    }
  }

  /** A key made of key characters only always gives a valid request URI. */
  lemma KeyCharsAccepted(key: string)
    requires forall k :: 0 <= k < |key| ==> IsKeyChar(key[k])
    ensures UriAccepts(key)
  {
    IndexOfCharAbsent(key, '#');
    KeyCharsUric(key);
  }

  /** What sendMessageToAI appends: the output of the last command when it is not blank, then
      the message. */
  function Asked(message: string, output: Option<string>): seq<Entry>
  {
    (if output.Some? && !IsBlank(output.value) then [Entry("user", Some("Output of last command: " + output.value))] else [])
    + [Entry("user", Some(message))]
  }

  /** One user entry, or two with the output first; every entry has a text. */
  lemma AskedShape(message: string, output: Option<string>)
    ensures var a := Asked(message, output);
      && |a| == (if output.Some? && !IsBlank(output.value) then 2 else 1)
      && a[|a| - 1] == Entry("user", Some(message))
      && (|a| == 2 ==> a[0] == Entry("user", Some("Output of last command: " + output.value)))
      && forall k :: 0 <= k < |a| ==> a[k].role == "user" && a[k].text.Some?
  {
  }

  /** A request can only fail to be built because of an entry already in the history: what
      sendMessageToAI adds never has a null text. */
  lemma AskedKeepsBody(preamble: string, h: seq<Entry>, message: string, output: Option<string>)
    ensures RequestBody(preamble, h + Asked(message, output)).Some? <==> RequestBody(preamble, h).Some?
  {
    var a := Asked(message, output);
    AskedShape(message, output);
    ContentsSomeIff(h);
    ContentsSomeIff(h + a);
    assert forall k :: 0 <= k < |h| ==> (h + a)[k] == h[k];
    assert forall k :: 0 <= k < |a| ==> (h + a)[|h| + k] == a[k];
  }

  /** AIClient's static state. */
  class AiBridge {
    /** The preamble of every request. */
    const preamble: string
    /** apiKey */
    var apiKey: Option<string>
    /** conversationHistory */
    var history: seq<Entry>
    /** stopAiScheduler: the body of the request whose 30-second timeout is live, if any. */
    var slot: Option<string>
    /** The request bodies sent to the Gemini endpoint, in order. */
    var requests: seq<string>
    /** Messages shown and commands sent to the game. */
    var out: seq<Event>

    constructor()
      ensures preamble == Preamble
      ensures apiKey == None && history == [] && slot == None && requests == [] && out == []
    {
      preamble := Preamble;
      apiKey := None;
      history := [];
      slot := None;
      requests := [];
      out := [];
    }

    /** CYCMClient.sendLocalizedMessage, which shows nothing without a player. */
    method Say(player: bool, key: string, args: seq<string>)
      modifies this`out
      ensures out == old(out) + Shown(player, key, args)
    {
      if player {
        out := out + [Msg(key, args)];
      }
    }

    /** loadApiKey, from the lines of gemini_api_key.txt (none when it had to be created). */
    method LoadApiKey(configReady: bool, lines: seq<string>, player: bool)
      modifies this`apiKey, this`out
      ensures !configReady ==> apiKey == old(apiKey) && out == old(out) + Shown(player, "ai_config_not_ready_warning", [])
      ensures configReady ==> (apiKey == FirstKept(lines)
        && out == old(out) + (if apiKey.None? then Shown(player, "ai_no_api_key_warning", []) else []))
    {
      if !configReady {
        Say(player, "ai_config_not_ready_warning", []);
        return;
      }
      apiKey := FirstKept(lines);
      LoadedKey(lines);
      if KeyMissing(apiKey) {
        Say(player, "ai_no_api_key_warning", []);
      }
    }

    /** stopCurrentAIGeneration: cancels the timeout, if any; calling it again changes nothing. */
    method Stop()
      modifies this`slot
      ensures slot == None
    {
      if slot.Some? {
        slot := None;
      }
    }

    /** buildRequestBody; None where Java throws on a null entry text. The entries are
        gathered first and the fixed opening and preamble put before them at the end, which
        builds the same string as appending everything in order. */
    method BuildRequestBody() returns (body: Option<string>)
      ensures body == RequestBody(preamble, history)
    {
      var entries := "";
      for i := 0 to |history|
        invariant Contents(history[..i]) == Some(entries)
      {
        var e := history[i];
        if e.text.None? {
          ContentsNoneAt(history[..i + 1], i);
          ContentsNonePrefix(history, i + 1);
          return None;
        }
        ContentsSnoc(history, i);
        entries := entries + EntryJson(e.role, e.text.value);
      }
      assert history[..|history|] == history;
      return Some(Opening + preamble + entries + Closing);
    }

    /** sendMessageToAI: with the mod on and a key, cancel the previous timeout, grow the
        history, build the body, arm a new timeout and send the request. */
    method SendMessageToAI(message: string, output: Option<string>, enabled: bool, player: bool)
      modifies this`history, this`slot, this`requests, this`out
      ensures !enabled ==> (history == old(history) && slot == old(slot) && requests == old(requests)
        && out == old(out) + Shown(player, "ai_mod_disabled", []))
      ensures enabled && KeyMissing(apiKey) ==> (history == old(history) && slot == old(slot)
        && requests == old(requests) && out == old(out) + Shown(player, "ai_no_api_key_warning", []))
      ensures enabled && !KeyMissing(apiKey) ==> history == old(history) + Asked(message, output)
      ensures enabled && !KeyMissing(apiKey) && RequestBody(preamble, history).None? ==>
        slot == None && requests == old(requests) && out == old(out) + [Crash("java.lang.NullPointerException")]
      ensures enabled && !KeyMissing(apiKey) && RequestBody(preamble, history).Some? && !UriAccepts(KeyText(apiKey)) ==>
        slot == None && requests == old(requests) && out == old(out) + [Crash("java.lang.IllegalArgumentException")]
      ensures enabled && !KeyMissing(apiKey) && RequestBody(preamble, history).Some? && UriAccepts(KeyText(apiKey)) ==>
        slot == RequestBody(preamble, history) && requests == old(requests) + [RequestBody(preamble, history).value]
        && out == old(out) + Shown(player, "ai_generating_response", [])
    {
      if !enabled {
        Say(player, "ai_mod_disabled", []);
        return;
      }
      if KeyMissing(apiKey) {
        Say(player, "ai_no_api_key_warning", []);
        return;
      }
      Request(message, output, player);
    }

    /** What sendMessageToAI does once its guards pass. */
    method Request(message: string, output: Option<string>, player: bool)
      modifies this`history, this`slot, this`requests, this`out
      ensures history == old(history) + Asked(message, output)
      ensures RequestBody(preamble, history).None? ==>
        slot == None && requests == old(requests) && out == old(out) + [Crash("java.lang.NullPointerException")]
      ensures RequestBody(preamble, history).Some? && !UriAccepts(KeyText(apiKey)) ==>
        slot == None && requests == old(requests) && out == old(out) + [Crash("java.lang.IllegalArgumentException")]
      ensures RequestBody(preamble, history).Some? && UriAccepts(KeyText(apiKey)) ==>
        slot == RequestBody(preamble, history) && requests == old(requests) + [RequestBody(preamble, history).value]
        && out == old(out) + Shown(player, "ai_generating_response", [])
    {
      Stop();
      Ask(message, output);
      Send(player);
    }

    /** The history entries of sendMessageToAI. */
    method Ask(message: string, output: Option<string>)
      modifies this`history
      ensures history == old(history) + Asked(message, output)
    {
      var asked := Entry("user", Some(message));
      if output.Some? && !IsBlank(output.value) {
        var shown := Entry("user", Some("Output of last command: " + output.value));
        history := history + [shown];
        history := history + [asked];
        assert history == old(history) + ([shown] + [asked]);
      } else {
        history := history + [asked];
      }
    }

    /** The rest of sendMessageToAI: build the body, make the request URI from the key, arm the
        timeout, send the request. */
    method Send(player: bool)
      modifies this`slot, this`requests, this`out
      ensures RequestBody(preamble, history).None? ==>
        slot == old(slot) && requests == old(requests) && out == old(out) + [Crash("java.lang.NullPointerException")]
      ensures RequestBody(preamble, history).Some? && !UriAccepts(KeyText(apiKey)) ==>
        slot == old(slot) && requests == old(requests) && out == old(out) + [Crash("java.lang.IllegalArgumentException")]
      ensures RequestBody(preamble, history).Some? && UriAccepts(KeyText(apiKey)) ==>
        slot == RequestBody(preamble, history) && requests == old(requests) + [RequestBody(preamble, history).value]
        && out == old(out) + Shown(player, "ai_generating_response", [])
    {
      var body := BuildRequestBody();
      if body.None? {
        out := out + [Crash("java.lang.NullPointerException")];
        return;
      }
      if !UriAccepts(KeyText(apiKey)) {
        out := out + [Crash("java.lang.IllegalArgumentException")];
        return;
      }
      Say(player, "ai_generating_response", []);
      slot := body;
      requests := requests + [body.value];
    }

    /** handleGeminiResponse: clears the timeout first, then shows, sends and records what the
        decision tree says. A reply that arrives after its timeout is handled all the same. */
    method HandleResponse(resp: Response, blocked: set<string>, player: bool)
      modifies this`slot, this`history, this`out
      ensures slot == None
      ensures var h := Decide(resp, blocked, player);
        out == old(out) + h.events && history == old(history) + h.entries
    {
      Stop();
      var h := Decide(resp, blocked, player);
      out := out + h.events;
      history := history + h.entries;
    }

    /** The exceptionally handler of the request: clear the timeout and report the failure. */
    method RequestFailed(error: string, player: bool)
      modifies this`slot, this`out
      ensures slot == None && out == old(out) + Shown(player, "ai_request_error", [error])
    {
      Stop();
      Say(player, "ai_request_error", [error]);
    }

    /** The 30-second timer: it fires only while its executor is the live one, clears the slot
        and reports the timeout. */
    method Timeout(player: bool)
      modifies this`slot, this`out
      ensures slot == None
      ensures old(slot).Some? ==> out == old(out) + Shown(player, "ai_generation_timeout", [])
      ensures old(slot).None? ==> out == old(out)
    {
      if slot.Some? {
        Stop();
        Say(player, "ai_generation_timeout", []);
      }
    }
  }
}
