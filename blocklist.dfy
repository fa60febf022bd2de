/**
 * The rules of the block set: which commands it holds by default, which mod commands are
 * protected, how a command is tested against it, and how it is written to and read back from
 * blocked_commands.txt.
 */
module BlockList {
  import opened Common
  import opened JavaText

  /** The entries initBlockedCommands always puts back. */
  const DefaultBlocked: set<string> :=
    {"op", "clear", "deop", "kill", "execute", "ban", "reload", "kick", "stop", "particle"}

  /** The mod's own commands: always in the set and never blocked or unblocked by hand. */
  const Protected: set<string> := {"cycm", "ai", "stopai"}

  /** isModCmd */
  predicate IsModCmd(cmd: string)
  {
    cmd == "cycm" || cmd == "ai" || cmd == "stopai"
  }

  lemma IsModCmdIsProtected(cmd: string)
    ensures IsModCmd(cmd) <==> cmd in Protected
  {
  }

  /** isCmdBlocked: the lower-cased first space-delimited token is in the set. None where the
      token does not exist and Java throws. */
  function IsCmdBlocked(blocked: set<string>, cmd: string): (r: Option<bool>)
    ensures r.None? <==> cmd != [] && forall i :: 0 <= i < |cmd| ==> cmd[i] == ' '
    ensures r.Some? ==> (r.value <==> exists t :: t in blocked && Prefix(t, Lower(cmd)))
  {
    match HeadToken(cmd)
    case None => None
    case Some(t) =>
      TokenPrefix(blocked, cmd, t);
      Some(Lower(t) in blocked)
  }

  /** t is the whole first token of s: a prefix followed by a space or the end. */
  predicate Prefix(t: string, s: string)
  {
    StartsWith(s, t) && ' ' !in t && (|t| < |s| ==> s[|t|] == ' ')
  }

  /** Two token-prefixes of the same string are the same. */
  lemma PrefixUnique(t1: string, t2: string, s: string)
    requires Prefix(t1, s) && Prefix(t2, s)
    ensures t1 == t2
  {
    if |t1| == |t2| {
      assert t1 == s[..|t1|] == t2;
    }
  }

  lemma TokenPrefix(blocked: set<string>, cmd: string, t: string)
    requires HeadToken(cmd) == Some(t)
    ensures Lower(t) in blocked <==> exists u :: u in blocked && Prefix(u, Lower(cmd))
  {
    var lc := Lower(cmd);
    var lt := Lower(t);
    LowerKeepsSpaces(t);
    assert lc[..|lt|] == lt;
    assert Prefix(lt, lc);
    if u :| u in blocked && Prefix(u, lc) {
      PrefixUnique(u, lt, lc);
    }
  }

  /** A command without spaces is blocked exactly when its lower-cased form is in the set. */
  lemma IsCmdBlockedOfToken(blocked: set<string>, cmd: string)
    requires ' ' !in cmd
    ensures IsCmdBlocked(blocked, cmd) == Some(Lower(cmd) in blocked)
  {
    HeadTokenOfSpaceFree(cmd);
  }

  /** The name blockCommand / unblockCommand work with: lower-cased, one leading '/' dropped. */
  function CleanCmd(cmd: string): (r: string)
    ensures Lower(r) == r
    ensures r == Lower(if StartsWith(cmd, "/") then cmd[1..] else cmd)
    ensures |r| == |cmd| - (if StartsWith(cmd, "/") then 1 else 0)
  {
    LowerIdempotent(cmd);
    if StartsWith(Lower(cmd), "/") then
      LowerIdempotent(cmd[1..]);
      Lower(cmd[1..])
    else Lower(cmd)
  }

  /** A line of blocked_commands.txt that contributes an entry: not blank, not a comment. */
  predicate Kept(line: string)
  {
    !IsBlank(line) && !StartsWith(Trim(line), "#")
  }

  /** The entry a kept line contributes: trimmed, one leading '/' dropped, lower-cased. */
  function Entry(line: string): (r: string)
    ensures Lower(r) == r
  {
    var t := Trim(line);
    if StartsWith(t, "/") then LowerIdempotent(t[1..]); Lower(t[1..]) else LowerIdempotent(t); Lower(t)
  }

  /** What one line contributes to the set, if anything. */
  function LineEntry(line: string): Option<string>
  {
    if Kept(line) then Some(Entry(line)) else None
  }

  /** The values f gives the lines, as a set. */
  function Collect(f: string -> Option<string>, lines: seq<string>): set<string>
    decreases |lines|
  {
    if lines == [] then {}
    else
      var last := f(lines[|lines| - 1]);
      Collect(f, lines[..|lines| - 1]) + (if last.Some? then {last.value} else {})
  }

  /** A value is collected exactly when some line gives it. */
  lemma {:induction false} CollectMembers(f: string -> Option<string>, lines: seq<string>, e: string)
    ensures e in Collect(f, lines) <==> exists i :: 0 <= i < |lines| && f(lines[i]) == Some(e)
    decreases |lines|
  {
    if lines != [] {
      var n := |lines| - 1;
      var p := lines[..n];
      CollectMembers(f, p, e);
      if e in Collect(f, p) {
        var i :| 0 <= i < |p| && f(p[i]) == Some(e);
        assert lines[i] == p[i];
      } else if e in Collect(f, lines) {
        assert f(lines[n]) == Some(e);
      }
      if exists i :: 0 <= i < |lines| && f(lines[i]) == Some(e) {
        var i :| 0 <= i < |lines| && f(lines[i]) == Some(e);
        if i < n {
          assert p[i] == lines[i];
        }
      }
    }
  }

  /** The entries loadBlockedCommands reads from the file's lines. */
  function Loaded(lines: seq<string>): set<string>
  {
    Collect(LineEntry, lines)
  }

  /** initBlockedCommands */
  function Init(b: set<string>): (r: set<string>)
    ensures b <= r && DefaultBlocked <= r && Protected <= r
    ensures forall e :: e in r ==> e in b || e in DefaultBlocked || e in Protected
  {
    b + DefaultBlocked + Protected
  }

  /** Whether initBlockedCommands adds anything, which is when it saves the file. */
  predicate InitChanges(b: set<string>)
  {
    !(DefaultBlocked <= b && Protected <= b)
  }

  lemma InitChangesIff(b: set<string>)
    ensures InitChanges(b) <==> Init(b) != b
  {
    if InitChanges(b) {
      if DefaultBlocked <= b {
        var p :| p in Protected && p !in b;
        assert p in Init(b);
      } else {
        var d :| d in DefaultBlocked && d !in b;
        assert d in Init(b);
      }
    }
  }

  /** Init is idempotent: a second initialisation changes nothing and does not save. */
  lemma InitIdempotent(b: set<string>)
    ensures Init(Init(b)) == Init(b) && !InitChanges(Init(b))
  {
  }

  /** The lines of a file, as a set. */
  function Lines(ls: seq<string>): set<string>
  {
    set l | l in ls
  }

  /** The lines saveBlockedCommands writes, as a set: one "/" + entry per entry. */
  function Persisted(b: set<string>): set<string>
  {
    set s | s in b :: "/" + s
  }

  /** Every entry has its line, and every line is an entry behind a '/'. */
  lemma PersistedMembers(b: set<string>)
    ensures forall s :: s in b <==> "/" + s in Persisted(b)
    ensures forall l :: l in Persisted(b) ==> |l| > 0 && l == "/" + l[1..] && l[1..] in b
  {
    assert forall s :: ("/" + s)[1..] == s;
  }

  lemma CollectSnoc(f: string -> Option<string>, lines: seq<string>, i: nat)
    requires i < |lines|
    ensures Collect(f, lines[..i + 1]) == Collect(f, lines[..i]) + (if f(lines[i]).Some? then {f(lines[i]).value} else {})
  {
    assert lines[..i + 1][..i] == lines[..i];
  }

  /** Reading one more line adds at most its entry. */
  lemma LoadedSnoc(lines: seq<string>, i: nat)
    requires i < |lines|
    ensures Loaded(lines[..i + 1]) == Loaded(lines[..i]) + (if LineEntry(lines[i]).Some? then {LineEntry(lines[i]).value} else {})
  {
    CollectSnoc(LineEntry, lines, i);
  }

  /** An entry that survives a save and a load unchanged: already lower-cased and without a
      trailing character that trim would remove. */
  predicate Storable(s: string)
  {
    Lower(s) == s && (s != [] ==> !IsTrimmable(s[|s| - 1]))
  }

  lemma EntryOfPersisted(s: string)
    requires Storable(s)
    ensures Kept("/" + s) && Entry("/" + s) == s && LineEntry("/" + s) == Some(s)
  {
    var l := "/" + s;
    assert !IsTrimmable(l[0]) && !IsTrimmable(l[|l| - 1]);
    TrimOfTrimmed(l);
    assert l[1..] == s;
  }

  /** Loading what was saved gives the set back when every entry is storable. */
  lemma LoadPersisted(b: set<string>, file: seq<string>)
    requires forall s :: s in b ==> Storable(s)
    requires Lines(file) == Persisted(b)
    ensures Loaded(file) == b
  {
    PersistedMembers(b);
    forall e | e in Loaded(file)
      ensures e in b
    {
      CollectMembers(LineEntry, file, e);
      var i :| 0 <= i < |file| && LineEntry(file[i]) == Some(e);
      assert file[i] in Lines(file);
      var s := file[i][1..];
      EntryOfPersisted(s);
    }
    forall s | s in b
      ensures s in Loaded(file)
    {
      assert "/" + s in Lines(file);
      var i :| 0 <= i < |file| && file[i] == "/" + s;
      EntryOfPersisted(s);
      CollectMembers(LineEntry, file, s);
    }
  }

  lemma EntryStorable(line: string)
    requires Kept(line)
    ensures Storable(Entry(line))
  {
    var t := Trim(line);
    KeptTrimmed(line);
    if StartsWith(t, "/") {
      LowerStorable(t, t[1..]);
    } else {
      LowerStorable(t, t);
    }
  }

  /** A kept line trims to a non-empty string ending in a character trim keeps. */
  lemma KeptTrimmed(line: string)
    requires Kept(line)
    ensures Trim(line) != [] && !IsTrimmable(Trim(line)[|Trim(line)| - 1])
  {
  }

  /** The lower-cased form of a trimmed string, or of its tail, is storable. */
  lemma LowerStorable(t: string, u: string)
    requires t != [] && !IsTrimmable(t[|t| - 1])
    requires u == t || u == t[1..]
    ensures Storable(Lower(u))
  {
    LowerIdempotent(u);
    if u != [] {
      assert u[|u| - 1] == t[|t| - 1];
      assert Lower(u)[|u| - 1] == LowerChar(t[|t| - 1]);
    }
  }

  /** Every entry read from a file is storable, so a load, save and load again is stable. */
  lemma LoadedStorable(lines: seq<string>)
    ensures forall e :: e in Loaded(lines) ==> Storable(e)
  {
    forall e | e in Loaded(lines)
      ensures Storable(e)
    {
      CollectMembers(LineEntry, lines, e);
      var i :| 0 <= i < |lines| && LineEntry(lines[i]) == Some(e);
      EntryStorable(lines[i]);
    }
  }

  /** sugUnblock: blocked entries other than the mod's own that start with what was typed,
      plus "all" when it fits too. */
  function UnblockSuggestions(blocked: set<string>, typed: string): (r: set<string>)
    ensures forall c :: c in r && c != "all" ==> c in blocked && !IsModCmd(c)
    ensures forall c :: c in r ==> StartsWith(c, Lower(typed))
  {
    var rem := Lower(typed);
    (set c | c in blocked && !IsModCmd(c) && StartsWith(c, rem)) + (if StartsWith("all", rem) then {"all"} else {})
  }

  /** Completion: while a lower-case entry that may be unblocked is being typed, every prefix of
      it, the empty one included, suggests it. */
  lemma SuggestsEveryPrefix(blocked: set<string>, c: string, k: nat)
    requires c in blocked && !IsModCmd(c) && Lower(c) == c && k <= |c|
    ensures c in UnblockSuggestions(blocked, c[..k])
  {
    var p := c[..k];
    assert Lower(p) == p by {
      forall i | 0 <= i < |p|
        ensures Lower(p)[i] == p[i]
      {
        assert Lower(c)[i] == LowerChar(c[i]);
      }
    }
    assert StartsWith(c, Lower(p));
  }

  /** The mod's own commands are never offered for unblocking. */
  lemma NeverSuggestsProtected(blocked: set<string>, typed: string)
    ensures forall c :: c in UnblockSuggestions(blocked, typed) ==> c !in Protected
  {
    forall c | c in UnblockSuggestions(blocked, typed)
      ensures c !in Protected
    {
      IsModCmdIsProtected(c);
    }
  }

  /** A lower-case suggestion without a leading '/', other than "all", is a blocked entry that
      unblockCommand cleans to itself, so taking it unblocks exactly that entry. */
  lemma SuggestionUnblocks(blocked: set<string>, typed: string, c: string)
    requires c in UnblockSuggestions(blocked, typed) && c != "all"
    requires Lower(c) == c && !StartsWith(c, "/")
    ensures CleanCmd(c) == c && c in blocked && !IsModCmd(c)
  {
  }
}
