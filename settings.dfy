/** The rules of repeating_settings.txt: one "maxRepeats:maxDelaySeconds" line. */
module Settings {
  import opened Common
  import opened JavaText
  import opened BlockList
  import opened Records

  /** The index of the first line from `from` on that is neither blank nor a '#' comment, the
      same filter the block file uses; |lines| when there is none. */
  function FirstKeptFrom(lines: seq<string>, from: nat): (i: nat)
    requires from <= |lines|
    ensures from <= i <= |lines|
    ensures i < |lines| ==> Kept(lines[i])
    ensures forall j :: from <= j < i ==> !Kept(lines[j])
    decreases |lines| - from
  {
    if from == |lines| || Kept(lines[from]) then from else FirstKeptFrom(lines, from + 1)
  }

  /** findFirst over the kept lines. */
  function FirstKept(lines: seq<string>): Option<string>
  {
    var i := FirstKeptFrom(lines, 0);
    if i == |lines| then None else Some(lines[i])
  }

  /** Whether loadRepeatingSettings rewrites the file with the current bounds: when no line is
      kept or the kept line does not split into exactly two pieces at ':'. */
  predicate Rewrites(lines: seq<string>)
  {
    var l := FirstKept(lines);
    l.None? || |Split(l.value, ":")| != 2
  }

  /**
   * The bounds after loadRepeatingSettings read the lines, starting from b. A line of two pieces
   * sets maxRepeats from the first as soon as it parses, and maxDelaySeconds from the second
   * only if that parses too; a first piece that does not parse leaves both bounds as they were.
   */
  function ReadSettings(lines: seq<string>, b: Bounds): (r: Bounds)
    ensures Rewrites(lines) ==> r == b
    ensures r.maxDelay != b.maxDelay ==> r.maxRepeats != b.maxRepeats || ParseInt(Trim(Split(FirstKept(lines).value, ":")[0])).Some?
  {
    var l := FirstKept(lines);
    if l.None? then b
    else
      var ps := Split(l.value, ":");
      if |ps| != 2 then b else ReadPieces(ps, b)
  }

  /** The bounds the two pieces of the settings line give, starting from b. */
  function ReadPieces(ps: seq<string>, b: Bounds): Bounds
    requires |ps| == 2
  {
    match ParseInt(Trim(ps[0]))
    case None => b
    case Some(n) =>
      match ParseInt(Trim(ps[1]))
      case None => Bounds(n, b.maxDelay)
      case Some(d) => Bounds(n, d)
  }

  /** The single line saveRepeatingSettings writes. */
  function SettingsLines(b: Bounds): seq<string>
  {
    [IntToString(b.maxRepeats) + ":" + IntToString(b.maxDelay)]
  }

  /** Reading back what was saved gives the saved bounds, whatever they replace, and does not
      rewrite the file. This holds for every pair of 32-bit values, including the ones
      setMaxRepeats and setMaxDelaySeconds would refuse. */
  lemma SettingsRoundTrip(b: Bounds, prev: Bounds)
    requires InInt32(b.maxRepeats) && InInt32(b.maxDelay)
    ensures ReadSettings(SettingsLines(b), prev) == b
    ensures !Rewrites(SettingsLines(b))
  {
    var a := IntToString(b.maxRepeats);
    var d := IntToString(b.maxDelay);
    var l := a + ":" + d;
    IntToStringShape(b.maxRepeats);
    IntToStringShape(b.maxDelay);
    assert l[0] == a[0] && l[|l| - 1] == d[|d| - 1];
    TrimOfTrimmed(l);
    TrimOfTrimmed(a);
    TrimOfTrimmed(d);
    assert Kept(l);
    assert FirstKept(SettingsLines(b)) == Some(l);
    SplitOfTwo(a, ':', d);
    assert Split(l, ":") == [a, d];
    ParseIntOfIntToString(b.maxRepeats);
    ParseIntOfIntToString(b.maxDelay);
  }
}
