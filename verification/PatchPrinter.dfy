/**
 A printer of unified patches in git's format: the file header with its extended lines, the hunk headers
 and the prefixed body lines, for files modified, created or deleted. Beside it, what each of the parser's
 tests makes of a line so printed.
 */
module PatchPrinter {
  import opened Wrappers
  import opened Sequences
  import opened TextLines
  import opened PatchParser
  import Decimals

  // ---------- The printer ----------

  /** A body line without its marker; a `Meta` line is git's remark about a missing final newline. */
  datatype BodyLine = BodyLine(typ: LineType, text: string)

  datatype Hunk = Hunk(oldStart: nat, newStart: nat, section: string, body: seq<BodyLine>)

  datatype Change = Modified | Created | Deleted

  /** One file's patch; `extended` are git's lines about modes, names and blob ids. */
  datatype Patch = Patch(change: Change, oldPath: string, newPath: string, extended: seq<string>, hunks: seq<Hunk>)

  function Marker(typ: LineType): char {
    match typ
    case Add => '+'
    case Del => '-'
    case Ctx => ' '
    case Meta => '\\'
  }

  function PrintBody(b: BodyLine): string {
    [Marker(b.typ)] + b.text
  }

  function PrintBodies(body: seq<BodyLine>): seq<string> {
    if body == [] then [] else [PrintBody(body[0])] + PrintBodies(body[1..])
  }

  predicate OnOld(typ: LineType) {
    typ == Del || typ == Ctx
  }

  predicate OnNew(typ: LineType) {
    typ == Add || typ == Ctx
  }

  function OldCount(body: seq<BodyLine>): nat {
    if body == [] then 0 else (if OnOld(body[0].typ) then 1 else 0) + OldCount(body[1..])
  }

  function NewCount(body: seq<BodyLine>): nat {
    if body == [] then 0 else (if OnNew(body[0].typ) then 1 else 0) + NewCount(body[1..])
  }

  /** `start,count`, where git leaves a count of one out. */
  function Range(start: nat, count: nat): string {
    Decimals.Print(start) + if count == 1 then "" else "," + Decimals.Print(count)
  }

  function Header(h: Hunk): string {
    "@@ -" + (Range(h.oldStart, OldCount(h.body))
              + (" +" + (Range(h.newStart, NewCount(h.body)) + (" @@" + h.section))))
  }

  function HunkLines(hunks: seq<Hunk>): seq<string> {
    if hunks == [] then [] else [Header(hunks[0])] + PrintBodies(hunks[0].body) + HunkLines(hunks[1..])
  }

  function GitLine(p: Patch): string {
    "diff --git a/" + (p.oldPath + (" b/" + p.newPath))
  }

  function OldName(p: Patch): string {
    if p.change == Created then "/dev/null" else "a/" + p.oldPath
  }

  function NewName(p: Patch): string {
    if p.change == Deleted then "/dev/null" else "b/" + p.newPath
  }

  function FileLines(p: Patch): seq<string> {
    [GitLine(p)] + p.extended + ["--- " + OldName(p), "+++ " + NewName(p)]
  }

  function PatchLines(p: Patch): seq<string> {
    FileLines(p) + HunkLines(p.hunks)
  }

  /** The patch without a final newline. */
  function Print(p: Patch): string {
    Join(PatchLines(p))
  }

  /** The tests the parser makes before it looks for a hunk header all fail. */
  predicate NoFileLine(line: string) {
    && !StartsWith(line, "diff --git ") && !StartsWith(line, "Binary files ")
    && !StartsWith(line, "GIT binary patch") && !StartsWith(line, "--- ") && !StartsWith(line, "+++ ")
  }

  predicate WellFormed(p: Patch) {
    && OneLine(p.oldPath) && OneLine(p.newPath)
    && (forall line | line in p.extended :: OneLine(line) && NoFileLine(line) && MatchHunk(line) == None)
    && p.hunks != []
    && forall h | h in p.hunks :: NoTerminator(h.section) && forall b | b in h.body :: OneLine(b.text)
  }

  // ---------- What the parser should return ----------

  function TextOf(b: BodyLine): string {
    if b.typ == Meta then "\\" + b.text else b.text
  }

  /** A body line with the numbers its sides have reached; 0 where a side has no line. */
  function LineOf(b: BodyLine, old': nat, new': nat): DiffLine {
    DiffLine(b.typ, TextOf(b), if OnOld(b.typ) then old' else 0, if OnNew(b.typ) then new' else 0)
  }

  /** Body lines with their line numbers, counting from `old` and `new`. */
  function Number(body: seq<BodyLine>, old': nat, new': nat): seq<DiffLine> {
    if body == [] then []
    else
      var b := body[0];
      [LineOf(b, old', new')]
      + Number(body[1..], if OnOld(b.typ) then old' + 1 else old', if OnNew(b.typ) then new' + 1 else new')
  }

  /** How many of `n` more lines fit under the cap. */
  function Room(kept: nat, n: nat): nat {
    if kept >= LINE_CAP then 0 else Min(n, LINE_CAP - kept)
  }

  /** The hunk as returned with `body` for its lines, when `kept` lines precede it. */
  function HunkOf(h: Hunk, body: seq<BodyLine>, kept: nat): DiffHunk {
    DiffHunk(Header(h), h.oldStart, h.newStart, Number(body[..Room(kept, |body|)], h.oldStart, h.newStart))
  }

  function AllBody(hunks: seq<Hunk>): seq<BodyLine> {
    if hunks == [] then [] else AllBody(hunks[..|hunks| - 1]) + hunks[|hunks| - 1].body
  }

  function ExpectedHunks(hunks: seq<Hunk>): seq<DiffHunk> {
    if hunks == [] then []
    else
      var n := |hunks| - 1;
      ExpectedHunks(hunks[..n]) + [HunkOf(hunks[n], hunks[n].body, Room(0, |AllBody(hunks[..n])|))]
  }

  /** The additions counted in a body that `kept` lines precede: all below the cap; past it, an added
      text that starts with `++` looks like a file header and is not counted. */
  function AddedIn(body: seq<BodyLine>, kept: nat): nat {
    if body == [] then 0
    else
      var n := |body| - 1;
      AddedIn(body[..n], kept)
      + if body[n].typ == Add && (kept + n < LINE_CAP || !StartsWith(body[n].text, "++")) then 1 else 0
  }

  function RemovedIn(body: seq<BodyLine>, kept: nat): nat {
    if body == [] then 0
    else
      var n := |body| - 1;
      RemovedIn(body[..n], kept)
      + if body[n].typ == Del && (kept + n < LINE_CAP || !StartsWith(body[n].text, "--")) then 1 else 0
  }

  function Expected(p: Patch): FileDiff {
    var all := AllBody(p.hunks);
    FileDiff(p.oldPath, p.newPath, ExpectedHunks(p.hunks), AddedIn(all, 0), RemovedIn(all, 0), false,
             |all| >= LINE_CAP)
  }

  /** A body line the parser does not mistake for a file header. */
  predicate Benign(b: BodyLine) {
    !(b.typ == Add && StartsWith(b.text, "++ ")) && !(b.typ == Del && StartsWith(b.text, "-- "))
  }

  predicate AllBenign(body: seq<BodyLine>) {
    forall i | 0 <= i < |body| :: Benign(body[i])
  }

  // ---------- What the parser does return ----------

  /** The lines that are not taken for file headers. */
  function Legible(body: seq<BodyLine>): seq<BodyLine> {
    if body == [] then []
    else
      var n := |body| - 1;
      Legible(body[..n]) + if Benign(body[n]) then [body[n]] else []
  }

  /** The path of a side after a line: one taken for the side's file header replaces it, unless it reads
      `/dev/null`. */
  function Redirected(b: BodyLine, side: LineType, path: string): string {
    if b.typ != side || Benign(b) then path
    else
      var found := StripPrefix(b.text[3..], if side == Del then "a/" else "b/");
      if found == "/dev/null" then path else found
  }

  function PathAfter(body: seq<BodyLine>, side: LineType, path: string): string {
    if body == [] then path else Redirected(body[|body| - 1], side, PathAfter(body[..|body| - 1], side, path))
  }

  /** The paths of the `diff --git` line, as the parser reads them. */
  function GitPaths(p: Patch): (string, string) {
    var m := MatchGit(GitLine(p));
    if m.Some? then m.value else ("", "")
  }

  /** The paths the parser has read above the first hunk: a side that names `/dev/null` leaves it with what
      the `diff --git` line gave. */
  function HeaderPaths(p: Patch): (string, string) {
    (if p.change == Created || p.oldPath == "/dev/null" then GitPaths(p).0 else p.oldPath,
     if p.change == Deleted || p.newPath == "/dev/null" then GitPaths(p).1 else p.newPath)
  }

  function ShownHunks(hunks: seq<Hunk>): seq<DiffHunk> {
    if hunks == [] then []
    else
      var n := |hunks| - 1;
      ShownHunks(hunks[..n]) + [HunkOf(hunks[n], Legible(hunks[n].body), Room(0, |Legible(AllBody(hunks[..n]))|))]
  }

  /** What the parser makes of any patch, the lines it takes for file headers included. */
  function Shown(p: Patch): FileDiff {
    var all := AllBody(p.hunks);
    var legible := Legible(all);
    FileDiff(PathAfter(all, Del, HeaderPaths(p).0), PathAfter(all, Add, HeaderPaths(p).1), ShownHunks(p.hunks),
             AddedIn(legible, 0), RemovedIn(legible, 0), false, |legible| >= LINE_CAP)
  }

  // ---------- The line that names both files ----------

  predicate OccursAt(part: string, s: string, k: nat) {
    k + |part| <= |s| && s[k..k + |part|] == part
  }

  predicate Occurs(part: string, s: string) {
    exists k | 0 <= k <= |s| :: OccursAt(part, s, k)
  }

  /** No occurrence of `part` is behind the last one. */
  lemma {:induction false} LastIndexLast(s: string, part: string, k: nat)
    requires part != "" && OccursAt(part, s, k)
    ensures LastIndexOf(s, part).Some? && LastIndexOf(s, part).value >= k
    decreases |s|
  {
    if k + |part| < |s| {
      assert s[..|s| - 1][k..k + |part|] == part;
      if s[|s| - |part|..] != part { LastIndexLast(s[..|s| - 1], part, k); }
    } else {
      assert s[|s| - |part|..] == part;
    }
  }

  /** What occurs in `new` occurs that much further behind ` b/`, and nothing overlaps ` b/` itself. */
  lemma {:induction false} OccursBehind(old': string, new': string, k: nat)
    requires |old'| < k
    ensures OccursAt(" b/", old' + (" b/" + new'), k) <==> |old'| + 3 <= k && OccursAt(" b/", new', k - |old'| - 3)
  {
    var rest, n := old' + (" b/" + new'), |old'|;
    assert rest == (old' + " b/") + new' && |old' + " b/"| == n + 3;
    if k + 3 <= |rest| && k < n + 3 {
      assert rest[n + 1] == 'b' && rest[n + 2] == '/' && rest[k..k + 3][0] == rest[k];
    }
  }

  lemma {:induction false} LaterOccurrence(old': string, new': string, k: nat)
    requires OccursAt(" b/", new', k)
    ensures var rest := old' + (" b/" + new');
            LastIndexOf(rest, " b/").Some? && LastIndexOf(rest, " b/").value > |old'|
  {
    OccursBehind(old', new', |old'| + 3 + k);
    LastIndexLast(old' + (" b/" + new'), " b/", |old'| + 3 + k);
  }

  /** The greedy split of `old b/new` is where it was put together, exactly when `new` holds no ` b/`. */
  lemma {:induction false} SplitsWhereJoined(old': string, new': string)
    ensures var rest := old' + (" b/" + new');
            && LastIndexOf(rest, " b/").Some? && LastIndexOf(rest, " b/").value >= |old'|
            && (LastIndexOf(rest, " b/").value == |old'| <==> !Occurs(" b/", new'))
  {
    var rest, n := old' + (" b/" + new'), |old'|;
    assert rest[n..n + 3] == " b/";
    LastIndexLast(rest, " b/", n);
    var at := LastIndexOf(rest, " b/").value;
    if at > n { OccursBehind(old', new', at); }
    if k :| 0 <= k <= |new'| && OccursAt(" b/", new', k) { LaterOccurrence(old', new', k); }
  }

  /** What a line of two paths must be for both to be read back. */
  predicate ReadablePaths(old': string, new': string) {
    NoTerminator(old') && NoTerminator(new') && !Occurs(" b/", new')
  }

  lemma {:induction false} TerminatorOfParts(old': string, new': string)
    ensures NoTerminator(old' + (" b/" + new')) <==> NoTerminator(old') && NoTerminator(new')
  {
    var rest := old' + (" b/" + new');
    assert forall i | 0 <= i < |old'| :: rest[i] == old'[i];
    forall i | 0 <= i < |new'|
      ensures NoTerminator(rest) ==> !IsTerminator(new'[i])
    {
      assert rest[|old'| + 3 + i] == new'[i];
    }
  }

  lemma {:induction false} Dropped(front: string, back: string)
    ensures StartsWith(front + back, front) && (front + back)[|front|..] == back
  {
  }

  /** The paths of the `diff --git` line are read back, both or neither, if and only if neither holds a line
      terminator and the new one no ` b/`. For a file created or deleted this line is all there is. */
  lemma {:induction false} GitPathsIff(p: Patch)
    requires p.oldPath != "" && p.newPath != ""
    ensures GitPaths(p).0 == p.oldPath <==> ReadablePaths(p.oldPath, p.newPath)
    ensures GitPaths(p).1 == p.newPath <==> ReadablePaths(p.oldPath, p.newPath)
  {
    var rest := p.oldPath + (" b/" + p.newPath);
    Dropped("diff --git a/", rest);
    assert |"diff --git a/"| == 13;
    SplitsWhereJoined(p.oldPath, p.newPath);
    TerminatorOfParts(p.oldPath, p.newPath);
    var at := LastIndexOf(rest, " b/").value;
    assert rest[..|p.oldPath|] == p.oldPath && rest[|p.oldPath| + 3..] == p.newPath;
  }

  // ---------- Prefixes ----------

  lemma {:induction false} FirstChar(line: string, prefix: string)
    requires prefix != "" && StartsWith(line, prefix)
    ensures line != "" && line[0] == prefix[0]
  {
  }

  lemma {:induction false} ConsPrefix(c: char, text: string, prefix: string)
    ensures StartsWith([c] + text, [c] + prefix) <==> StartsWith(text, prefix)
  {
    if StartsWith([c] + text, [c] + prefix) {
      assert text == ([c] + text)[1..] && prefix == ([c] + prefix)[1..];
      assert forall i | 0 <= i < |prefix| :: text[i] == ([c] + text)[i + 1] == ([c] + prefix)[i + 1] == prefix[i];
    }
  }

  lemma {:induction false} MinusPrefixes(text: string)
    ensures StartsWith(['-'] + text, "--- ") <==> StartsWith(text, "-- ")
    ensures StartsWith(['-'] + text, "---") <==> StartsWith(text, "--")
  {
    ConsPrefix('-', text, "-- ");
    ConsPrefix('-', text, "--");
    assert ['-'] + "-- " == "--- " && ['-'] + "--" == "---";
  }

  lemma {:induction false} PlusPrefixes(text: string)
    ensures StartsWith(['+'] + text, "+++ ") <==> StartsWith(text, "++ ")
    ensures StartsWith(['+'] + text, "+++") <==> StartsWith(text, "++")
  {
    ConsPrefix('+', text, "++ ");
    ConsPrefix('+', text, "++");
    assert ['+'] + "++ " == "+++ " && ['+'] + "++" == "+++";
  }

  /** None of the prefixes the parser tests first starts with the character of `line`, unless it is a
      file header in disguise. */
  lemma {:induction false} BodyPrefixes(b: BodyLine)
    ensures var line := PrintBody(b);
            && !StartsWith(line, "diff --git ") && !StartsWith(line, "Binary files ")
            && !StartsWith(line, "GIT binary patch") && MatchHunk(line) == None
            && (StartsWith(line, "--- ") <==> b.typ == Del && StartsWith(b.text, "-- "))
            && (StartsWith(line, "+++ ") <==> b.typ == Add && StartsWith(b.text, "++ "))
            && (StartsWith(line, "---") <==> b.typ == Del && StartsWith(b.text, "--"))
            && (StartsWith(line, "+++") <==> b.typ == Add && StartsWith(b.text, "++"))
  {
    var line := PrintBody(b);
    assert line[0] == Marker(b.typ);
    if b.typ == Del { MinusPrefixes(b.text); }
    if b.typ == Add { PlusPrefixes(b.text); }
  }

  // ---------- A hunk header ----------

  /** A number in front of a blank is matched, and the blank is left. */
  lemma {:induction false} NumberMatches(start: nat, rest: string)
    requires rest != "" && rest[0] == ' '
    ensures MatchRange(Decimals.Print(start) + rest) == Some((start, rest))
  {
    var digits := Decimals.Print(start);
    Decimals.ReadPrint(start);
    Decimals.LeadingPrefix(digits, rest);
    if StartsWith(rest, ",") { FirstChar(rest, ","); }
  }

  /** A number, a comma and a count. */
  lemma {:induction false} CountedMatches(start: nat, count: nat, rest: string)
    requires rest != "" && rest[0] == ' '
    ensures MatchRange(Decimals.Print(start) + ("," + (Decimals.Print(count) + rest))) == Some((start, rest))
  {
    var digits, more := Decimals.Print(start), Decimals.Print(count);
    var tail := "," + (more + rest);
    Decimals.ReadPrint(start);
    Decimals.LeadingPrefix(digits, tail);
    Decimals.LeadingPrefix(more, rest);
  }

  lemma {:induction false} RangeMatches(start: nat, count: nat, rest: string)
    requires rest != "" && rest[0] == ' '
    ensures MatchRange(Range(start, count) + rest) == Some((start, rest))
  {
    if count == 1 {
      assert Range(start, count) == Decimals.Print(start);
      NumberMatches(start, rest);
    } else {
      CountedMatches(start, count, rest);
      Reassociate(Decimals.Print(start), "," + Decimals.Print(count), rest);
      Reassociate(",", Decimals.Print(count), rest);
    }
  }

  lemma {:induction false} HeaderMatches(h: Hunk)
    requires NoTerminator(h.section)
    ensures MatchHunk(Header(h)) == Some((h.oldStart, h.newStart))
  {
    var tail := " @@" + h.section;
    var new' := Range(h.newStart, NewCount(h.body)) + tail;
    var old' := Range(h.oldStart, OldCount(h.body)) + (" +" + new');
    RangeMatches(h.newStart, NewCount(h.body), tail);
    RangeMatches(h.oldStart, OldCount(h.body), " +" + new');
    Dropped("@@ -", old');
    Dropped(" +", new');
    Dropped(" @@", h.section);
  }
}
