/**
 The unified-patch parser of the files view: its tests on a line in the order it makes them, what each
 line does to the file, hunk and counts read so far, the fold of a whole text, and the loop that computes
 that fold.
 */
module PatchParser {
  import opened Wrappers
  import opened Sequences
  import opened TextLines
  import Decimals

  // ---------- Data ----------

  datatype LineType = Add | Del | Ctx | Meta

  datatype DiffLine = DiffLine(typ: LineType, text: string, oldNo: nat, newNo: nat)

  datatype DiffHunk = DiffHunk(header: string, oldStart: nat, newStart: nat, lines: seq<DiffLine>)

  datatype FileDiff = FileDiff(oldPath: string, newPath: string, hunks: seq<DiffHunk>,
                               added: nat, removed: nat, binary: bool, truncated: bool)

  const LINE_CAP := 4000

  // ---------- Matching one line ----------

  function StripPrefix(s: string, prefix: string): string {
    if StartsWith(s, prefix) then s[|prefix|..] else s
  }

  /** What `.` of a regular expression does not match. */
  predicate IsTerminator(c: char) {
    c == '\n' || c == '\r' || c == '\U{2028}' || c == '\U{2029}'
  }

  predicate NoTerminator(s: string) {
    forall i | 0 <= i < |s| :: !IsTerminator(s[i])
  }

  /** The last occurrence of `part` in `s`. */
  function LastIndexOf(s: string, part: string): (at: Option<nat>)
    requires part != ""
    ensures at.Some? ==> at.value + |part| <= |s| && s[at.value..at.value + |part|] == part
  {
    if |s| < |part| then None
    else if s[|s| - |part|..] == part then Some(|s| - |part|)
    else LastIndexOf(s[..|s| - 1], part)
  }

  /** `/^diff --git a\/(.*) b\/(.*)$/`: the first group is as long as possible. */
  function MatchGit(line: string): Option<(string, string)> {
    if !StartsWith(line, "diff --git a/") then None
    else
      var rest := line[13..];
      var at := LastIndexOf(rest, " b/");
      if at.None? || !NoTerminator(rest) then None
      else Some((rest[..at.value], rest[at.value + 3..]))
  }

  /** `(\d+)(?:,(\d+))?` at the front of `s`: the number and what follows. */
  function MatchRange(s: string): (m: Option<(nat, string)>) {
    var k := Decimals.Leading(s);
    if k == 0 then None
    else
      var rest := s[k..];
      var l := if StartsWith(rest, ",") then Decimals.Leading(rest[1..]) else 0;
      Some((Decimals.Read(s[..k]), if l > 0 then rest[1 + l..] else rest))
  }

  /** `/^@@ -(\d+)(?:,(\d+))? \+(\d+)(?:,(\d+))? @@(.*)$/`: the two starts. */
  function MatchHunk(line: string): Option<(nat, nat)> {
    if !StartsWith(line, "@@ -") then None
    else
      var old' := MatchRange(line[4..]);
      if old'.None? || !StartsWith(old'.value.1, " +") then None
      else
        var new' := MatchRange(old'.value.1[2..]);
        if new'.None? || !StartsWith(new'.value.1, " @@") || !NoTerminator(new'.value.1[3..]) then None
        else Some((old'.value.0, new'.value.0))
  }

  // ---------- The parser as a fold ----------

  /** The parser's variables. While `inHunk`, the open hunk is the last of `hunks`. */
  datatype Parse = Parse(oldPath: string, newPath: string, added: nat, removed: nat, binary: bool,
                         hunks: seq<DiffHunk>, inHunk: bool, oldNo: nat, newNo: nat, kept: nat)

  const START := Parse("", "", 0, 0, false, [], false, 0, 0, 0)

  function Retain(hunks: seq<DiffHunk>, line: DiffLine): seq<DiffHunk>
    requires hunks != []
  {
    var n := |hunks| - 1;
    hunks[n := hunks[n].(lines := hunks[n].lines + [line])]
  }

  predicate Wf(p: Parse) {
    p.inHunk ==> p.hunks != []
  }

  /** A line inside a hunk, below the cap. */
  function KeepLine(p: Parse, line: string): Parse
    requires p.hunks != []
  {
    if StartsWith(line, "+") then
      p.(hunks := Retain(p.hunks, DiffLine(Add, line[1..], 0, p.newNo)),
         newNo := p.newNo + 1, added := p.added + 1, kept := p.kept + 1)
    else if StartsWith(line, "-") then
      p.(hunks := Retain(p.hunks, DiffLine(Del, line[1..], p.oldNo, 0)),
         oldNo := p.oldNo + 1, removed := p.removed + 1, kept := p.kept + 1)
    else if StartsWith(line, "\\") then
      p.(hunks := Retain(p.hunks, DiffLine(Meta, line, 0, 0)), kept := p.kept + 1)
    else
      p.(hunks := Retain(p.hunks, DiffLine(Ctx, if line == "" then "" else line[1..], p.oldNo, p.newNo)),
         oldNo := p.oldNo + 1, newNo := p.newNo + 1, kept := p.kept + 1)
  }

  /** A line inside a hunk, past the cap: it is only counted. */
  function CountLine(p: Parse, line: string): Parse {
    if StartsWith(line, "+") && !StartsWith(line, "+++") then p.(added := p.added + 1)
    else if StartsWith(line, "-") && !StartsWith(line, "---") then p.(removed := p.removed + 1)
    else p
  }

  function ParseLine(p: Parse, line: string): (p': Parse)
    requires Wf(p)
    ensures Wf(p')
  {
    if StartsWith(line, "diff --git ") then
      var m := MatchGit(line);
      if m.Some? then p.(oldPath := m.value.0, newPath := m.value.1, inHunk := false) else p.(inHunk := false)
    else if StartsWith(line, "Binary files ") || StartsWith(line, "GIT binary patch") then p.(binary := true)
    else if StartsWith(line, "--- ") then
      var path := StripPrefix(line[4..], "a/");
      if path != "/dev/null" then p.(oldPath := path) else p
    else if StartsWith(line, "+++ ") then
      var path := StripPrefix(line[4..], "b/");
      if path != "/dev/null" then p.(newPath := path) else p
    else
      var m := MatchHunk(line);
      if m.Some? then
        p.(oldNo := m.value.0, newNo := m.value.1, inHunk := true,
           hunks := p.hunks + [DiffHunk(line, m.value.0, m.value.1, [])])
      else if !p.inHunk then p
      else if p.kept >= LINE_CAP then CountLine(p, line)
      else KeepLine(p, line)
  }

  function ParseAll(p: Parse, lines: seq<string>): (p': Parse)
    requires Wf(p)
    ensures Wf(p')
    decreases |lines|
  {
    if lines == [] then p else ParseAll(ParseLine(p, lines[0]), lines[1..])
  }

  function Finish(p: Parse): Option<FileDiff> {
    if p.hunks == [] && !p.binary && p.added + p.removed == 0 then None
    else Some(FileDiff(p.oldPath, p.newPath, p.hunks, p.added, p.removed, p.binary, p.kept >= LINE_CAP))
  }

  function Parsed(patch: string): Option<FileDiff> {
    Finish(ParseAll(START, Split(patch)))
  }

  /** Retains one body line: what the loop does below the cap. */
  method KeepBody(ghost p: Parse, line: string, hunks: seq<DiffHunk>, oldNo: nat, newNo: nat, added: nat, removed: nat)
    returns (hunks': seq<DiffHunk>, oldNo': nat, newNo': nat, added': nat, removed': nat)
    requires p.hunks == hunks != [] && p.oldNo == oldNo && p.newNo == newNo
    requires p.added == added && p.removed == removed
    ensures KeepLine(p, line) == p.(hunks := hunks', oldNo := oldNo', newNo := newNo', added := added',
                                    removed := removed', kept := p.kept + 1)
  {
    hunks', oldNo', newNo', added', removed' := hunks, oldNo, newNo, added, removed;
    if StartsWith(line, "+") {
      hunks' := Retain(hunks, DiffLine(Add, line[1..], 0, newNo));
      newNo', added' := newNo + 1, added + 1;
    } else if StartsWith(line, "-") {
      hunks' := Retain(hunks, DiffLine(Del, line[1..], oldNo, 0));
      oldNo', removed' := oldNo + 1, removed + 1;
    } else if StartsWith(line, "\\") {
      hunks' := Retain(hunks, DiffLine(Meta, line, 0, 0));
    } else {
      hunks' := Retain(hunks, DiffLine(Ctx, if |line| > 0 then line[1..] else "", oldNo, newNo));
      oldNo', newNo' := oldNo + 1, newNo + 1;
    }
  }

  /** The parser's loop over the lines of a patch. */
  method ParsePatch(patch: string) returns (diff: Option<FileDiff>)
    ensures diff == Parsed(patch)
  {
    var lines := Split(patch);
    var oldPath, newPath := "", "";
    var added, removed, binary := 0, 0, false;
    var hunks: seq<DiffHunk>, inHunk := [], false;
    var oldNo, newNo, kept := 0, 0, 0;
    ghost var p := START;
    for i := 0 to |lines|
      invariant Wf(p) && p == Parse(oldPath, newPath, added, removed, binary, hunks, inHunk, oldNo, newNo, kept)
      invariant ParseAll(p, lines[i..]) == ParseAll(START, lines)
    {
      var line := lines[i];
      assert lines[i..][0] == line && lines[i..][1..] == lines[i + 1..];
      ghost var was := p;
      p := ParseLine(p, line);
      if StartsWith(line, "diff --git ") {
        var m := MatchGit(line);
        if m.Some? { oldPath, newPath := m.value.0, m.value.1; }
        inHunk := false;
      } else if StartsWith(line, "Binary files ") || StartsWith(line, "GIT binary patch") {
        binary := true;
      } else if StartsWith(line, "--- ") {
        var path := StripPrefix(line[4..], "a/");
        if path != "/dev/null" { oldPath := path; }
      } else if StartsWith(line, "+++ ") {
        var path := StripPrefix(line[4..], "b/");
        if path != "/dev/null" { newPath := path; }
      } else {
        var hm := MatchHunk(line);
        if hm.Some? {
          oldNo, newNo := hm.value.0, hm.value.1;
          hunks := hunks + [DiffHunk(line, oldNo, newNo, [])];
          inHunk := true;
        } else if inHunk && kept >= LINE_CAP {
          if StartsWith(line, "+") && !StartsWith(line, "+++") { added := added + 1; }
          else if StartsWith(line, "-") && !StartsWith(line, "---") { removed := removed + 1; }
        } else if inHunk {
          hunks, oldNo, newNo, added, removed := KeepBody(was, line, hunks, oldNo, newNo, added, removed);
          kept := kept + 1;
        }
      }
    }
    if hunks == [] && !binary && added + removed == 0 { return None; }
    diff := Some(FileDiff(oldPath, newPath, hunks, added, removed, binary, kept >= LINE_CAP));
  }
}
