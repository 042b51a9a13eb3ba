/** What the parser returns for whatever the printer prints, and when that inverts the printer. */
module PatchRoundTrip {
  import opened Wrappers
  import opened Sequences
  import opened TextLines
  import opened PatchParser
  import opened PatchPrinter

  // ---------- Snoc lemmas ----------

  lemma {:induction false} ParseSnoc(p: Parse, lines: seq<string>, line: string)
    requires Wf(p)
    ensures ParseAll(p, lines + [line]) == ParseLine(ParseAll(p, lines), line)
    decreases |lines|
  {
    if lines == [] {
      assert ([line])[1..] == [];
    } else {
      assert (lines + [line])[1..] == lines[1..] + [line];
      ParseSnoc(ParseLine(p, lines[0]), lines[1..], line);
    }
  }

  lemma {:induction false} ParseAppend(p: Parse, a: seq<string>, b: seq<string>)
    requires Wf(p)
    ensures ParseAll(p, a + b) == ParseAll(ParseAll(p, a), b)
    decreases |a|
  {
    if a == [] {
      assert a + b == b;
    } else {
      assert (a + b)[1..] == a[1..] + b;
      ParseAppend(ParseLine(p, a[0]), a[1..], b);
    }
  }

  lemma {:induction false} PrintSnoc(body: seq<BodyLine>, b: BodyLine)
    ensures PrintBodies(body + [b]) == PrintBodies(body) + [PrintBody(b)]
  {
    if body == [] {
      assert [b][1..] == [];
    } else {
      assert (body + [b])[1..] == body[1..] + [b];
      PrintSnoc(body[1..], b);
    }
  }

  lemma {:induction false} CountSnoc(body: seq<BodyLine>, b: BodyLine)
    ensures OldCount(body + [b]) == OldCount(body) + if OnOld(b.typ) then 1 else 0
    ensures NewCount(body + [b]) == NewCount(body) + if OnNew(b.typ) then 1 else 0
  {
    if body == [] {
      assert [b][1..] == [];
    } else {
      assert (body + [b])[1..] == body[1..] + [b];
      CountSnoc(body[1..], b);
    }
  }

  /** The next line of a body is numbered by how many lines its sides have so far. */
  function NextLine(body: seq<BodyLine>, b: BodyLine, old': nat, new': nat): DiffLine {
    LineOf(b, old' + OldCount(body), new' + NewCount(body))
  }

  lemma {:induction false} NumberSnoc(body: seq<BodyLine>, b: BodyLine, old': nat, new': nat)
    ensures Number(body + [b], old', new') == Number(body, old', new') + [NextLine(body, b, old', new')]
    decreases body
  {
    if body == [] {
      assert [b][1..] == [];
    } else {
      var head, rest := body[0], body[1..];
      var next, next' := if OnOld(head.typ) then old' + 1 else old', if OnNew(head.typ) then new' + 1 else new';
      assert body == [head] + rest;
      assert body + [b] == [head] + (rest + [b]);
      NumberSnoc(rest, b, next, next');
    }
  }

  // ---------- One body ----------

  /** The parser after the printed body of the hunk it has open. */
  function ReadBody(p: Parse, body: seq<BodyLine>): Parse
    requires p.hunks != []
  {
    var m := Room(p.kept, |body|);
    var n := |p.hunks| - 1;
    p.(hunks := p.hunks[n := p.hunks[n].(lines := p.hunks[n].lines + Number(body[..m], p.oldNo, p.newNo))],
       oldNo := p.oldNo + OldCount(body[..m]), newNo := p.newNo + NewCount(body[..m]),
       added := p.added + AddedIn(body, p.kept), removed := p.removed + RemovedIn(body, p.kept),
       kept := p.kept + m)
  }

  /** Below the cap a benign line is kept with its numbers. */
  lemma {:induction false} KeepBenign(p: Parse, b: BodyLine)
    requires p.inHunk && p.hunks != [] && p.kept < LINE_CAP && Benign(b)
    ensures ParseLine(p, PrintBody(b)) ==
            p.(hunks := Retain(p.hunks, LineOf(b, p.oldNo, p.newNo)),
               oldNo := p.oldNo + (if OnOld(b.typ) then 1 else 0),
               newNo := p.newNo + (if OnNew(b.typ) then 1 else 0),
               added := p.added + (if b.typ == Add then 1 else 0),
               removed := p.removed + (if b.typ == Del then 1 else 0),
               kept := p.kept + 1)
  {
    var line := PrintBody(b);
    BodyPrefixes(b);
    assert line[0] == Marker(b.typ) && line[1..] == b.text;
    assert ParseLine(p, line) == KeepLine(p, line);
    match b.typ
    case Add =>
    case Del =>
    case Ctx =>
    case Meta => assert line == "\\" + b.text;
  }

  /** Past the cap a benign line is at most counted. */
  lemma {:induction false} CountBenign(p: Parse, b: BodyLine)
    requires p.inHunk && p.hunks != [] && p.kept >= LINE_CAP && Benign(b)
    ensures ParseLine(p, PrintBody(b)) ==
            p.(added := p.added + (if b.typ == Add && !StartsWith(b.text, "++") then 1 else 0),
               removed := p.removed + (if b.typ == Del && !StartsWith(b.text, "--") then 1 else 0))
  {
    var line := PrintBody(b);
    BodyPrefixes(b);
    assert line[0] == Marker(b.typ);
    assert ParseLine(p, line) == CountLine(p, line);
    match b.typ
    case Add =>
    case Del =>
    case Ctx =>
    case Meta =>
  }

  lemma {:induction false} RetainNumbered(p: Parse, q: Parse, body: seq<BodyLine>, b: BodyLine)
    requires p.hunks != [] && p.kept + |body| < LINE_CAP && q == ReadBody(p, body)
    ensures Retain(q.hunks, LineOf(b, q.oldNo, q.newNo)) == ReadBody(p, body + [b]).hunks
  {
    var all, n := body + [b], |p.hunks| - 1;
    assert body[..|body|] == body && all[..|all|] == all;
    NumberSnoc(body, b, p.oldNo, p.newNo);
    Reassociate(p.hunks[n].lines, Number(body, p.oldNo, p.newNo), [NextLine(body, b, p.oldNo, p.newNo)]);
  }

  lemma {:induction false} ReadBodyBelow(p: Parse, body: seq<BodyLine>, b: BodyLine)
    requires p.inHunk && p.hunks != [] && Benign(b) && p.kept + |body| < LINE_CAP
    ensures ParseLine(ReadBody(p, body), PrintBody(b)) == ReadBody(p, body + [b])
  {
    var all := body + [b];
    var q := ReadBody(p, body);
    assert all[..|body|] == body && body[..|body|] == body && all[..|all|] == all;
    KeepBenign(q, b);
    NumberSnoc(body, b, p.oldNo, p.newNo);
    CountSnoc(body, b);
    RetainNumbered(p, q, body, b);
  }

  lemma {:induction false} ReadBodyPast(p: Parse, body: seq<BodyLine>, b: BodyLine)
    requires p.inHunk && p.hunks != [] && Benign(b) && p.kept + |body| >= LINE_CAP
    ensures ParseLine(ReadBody(p, body), PrintBody(b)) == ReadBody(p, body + [b])
  {
    var all := body + [b];
    var m := Room(p.kept, |body|);
    assert all[..|body|] == body;
    assert Room(p.kept, |all|) == m && all[..m] == body[..m];
    CountBenign(ReadBody(p, body), b);
  }

  // ---------- A body with lines taken for file headers ----------

  /** A line taken for a file header at most replaces a path. */
  lemma {:induction false} SkipsHeaderLike(p: Parse, b: BodyLine)
    requires Wf(p) && !Benign(b)
    ensures ParseLine(p, PrintBody(b)) ==
            p.(oldPath := Redirected(b, Del, p.oldPath), newPath := Redirected(b, Add, p.newPath))
  {
    var line := PrintBody(b);
    BodyPrefixes(b);
    assert line[4..] == b.text[3..];
  }

  function WithPaths(p: Parse, body: seq<BodyLine>): Parse {
    p.(oldPath := PathAfter(body, Del, p.oldPath), newPath := PathAfter(body, Add, p.newPath))
  }

  /** The parser after any body. */
  function ReadAny(p: Parse, body: seq<BodyLine>): Parse
    requires p.hunks != []
  {
    ReadBody(WithPaths(p, body), Legible(body))
  }

  lemma {:induction false} LegibleAppend(a: seq<BodyLine>, b: seq<BodyLine>)
    ensures Legible(a + b) == Legible(a) + Legible(b)
    ensures forall side, path :: PathAfter(a + b, side, path) == PathAfter(b, side, PathAfter(a, side, path))
  {
    if b == [] {
      assert a + b == a;
    } else {
      var rest, last := b[..|b| - 1], b[|b| - 1];
      assert b == rest + [last];
      assert a + b == (a + rest) + [last];
      LegibleAppend(a, rest);
    }
  }

  lemma {:induction false} ReadBenign(q: Parse, legible: seq<BodyLine>, b: BodyLine)
    requires q.inHunk && q.hunks != [] && Benign(b)
    ensures ParseLine(ReadBody(q, legible), PrintBody(b)) == ReadBody(q, legible + [b])
  {
    if q.kept + |legible| < LINE_CAP { ReadBodyBelow(q, legible, b); } else { ReadBodyPast(q, legible, b); }
  }

  lemma {:induction false} ReadHeaderLike(p: Parse, body: seq<BodyLine>, legible: seq<BodyLine>, b: BodyLine)
    requires p.inHunk && p.hunks != [] && !Benign(b)
    ensures ParseLine(ReadBody(WithPaths(p, body), legible), PrintBody(b)) ==
            ReadBody(WithPaths(p, body + [b]), legible)
  {
    SkipsHeaderLike(ReadBody(WithPaths(p, body), legible), b);
  }

  lemma {:induction false} ReadOneMore(p: Parse, body: seq<BodyLine>, b: BodyLine)
    requires p.inHunk && p.hunks != []
    ensures ParseLine(ReadAny(p, body), PrintBody(b)) == ReadAny(p, body + [b])
  {
    if Benign(b) {
      assert WithPaths(p, body + [b]) == WithPaths(p, body);
      ReadBenign(WithPaths(p, body), Legible(body), b);
    } else {
      assert Legible(body) + [] == Legible(body);
      ReadHeaderLike(p, body, Legible(body), b);
    }
  }

  lemma {:induction false} BodyParses(p: Parse, body: seq<BodyLine>)
    requires p.inHunk && p.hunks != []
    ensures ParseAll(p, PrintBodies(body)) == ReadAny(p, body)
  {
    if body == [] {
      var n := |p.hunks| - 1;
      assert p.hunks[n].lines + [] == p.hunks[n].lines;
    } else {
      var rest, last := body[..|body| - 1], body[|body| - 1];
      assert body == rest + [last];
      BodyParses(p, rest);
      PrintSnoc(rest, last);
      ParseSnoc(p, PrintBodies(rest), PrintBody(last));
      ReadOneMore(p, rest, last);
    }
  }

  // ---------- All hunks ----------

  /** The parser with the hunk just opened. */
  function OpenHunk(p: Parse, h: Hunk): Parse {
    p.(oldNo := h.oldStart, newNo := h.newStart, inHunk := true,
       hunks := p.hunks + [DiffHunk(Header(h), h.oldStart, h.newStart, [])])
  }

  lemma {:induction false} HeaderIsNoFileLine(line: string)
    requires StartsWith(line, "@@ -")
    ensures NoFileLine(line)
  {
    FirstChar(line, "@@ -");
    if StartsWith(line, "diff --git ") { FirstChar(line, "diff --git "); }
    if StartsWith(line, "Binary files ") { FirstChar(line, "Binary files "); }
    if StartsWith(line, "GIT binary patch") { FirstChar(line, "GIT binary patch"); }
    if StartsWith(line, "--- ") { FirstChar(line, "--- "); }
    if StartsWith(line, "+++ ") { FirstChar(line, "+++ "); }
  }

  lemma {:induction false} HeaderParses(p: Parse, h: Hunk)
    requires Wf(p) && NoTerminator(h.section)
    ensures ParseLine(p, Header(h)) == OpenHunk(p, h)
  {
    HeaderMatches(h);
    HeaderIsNoFileLine(Header(h));
  }

  lemma {:induction false} HunkLinesSnoc(hunks: seq<Hunk>, h: Hunk)
    ensures HunkLines(hunks + [h]) == HunkLines(hunks) + ([Header(h)] + PrintBodies(h.body))
  {
    if hunks == [] {
      assert [h][1..] == [];
    } else {
      assert (hunks + [h])[1..] == hunks[1..] + [h];
      HunkLinesSnoc(hunks[1..], h);
    }
  }

  lemma {:induction false} AddedAppend(a: seq<BodyLine>, b: seq<BodyLine>)
    ensures AddedIn(a + b, 0) == AddedIn(a, 0) + AddedIn(b, Room(0, |a|))
    ensures RemovedIn(a + b, 0) == RemovedIn(a, 0) + RemovedIn(b, Room(0, |a|))
  {
    if b == [] {
      assert a + b == a;
    } else {
      var n := |b| - 1;
      assert (a + b)[..|a + b| - 1] == a + b[..n];
      AddedAppend(a, b[..n]);
    }
  }

  /** What the parser has read once it is past the printed hunks. */
  ghost predicate HasRead(p: Parse, file: Parse, hunks: seq<Hunk>) {
    var all := AllBody(hunks);
    var legible := Legible(all);
    && p.hunks == ShownHunks(hunks) && p.kept == Room(0, |legible|)
    && p.added == AddedIn(legible, 0) && p.removed == RemovedIn(legible, 0)
    && p.oldPath == PathAfter(all, Del, file.oldPath) && p.newPath == PathAfter(all, Add, file.newPath)
    && !p.binary && (hunks != [] ==> p.inHunk)
  }

  /** Up to the cap, the parser's line numbers stand just past the last hunk. */
  ghost predicate StandsAfter(p: Parse, hunks: seq<Hunk>) {
    hunks != [] && |Legible(AllBody(hunks))| <= LINE_CAP ==>
      var last := hunks[|hunks| - 1];
      && p.oldNo == last.oldStart + OldCount(Legible(last.body))
      && p.newNo == last.newStart + NewCount(Legible(last.body))
  }

  /** A fresh parser that has only read the file's paths. */
  predicate OnlyPaths(file: Parse) {
    file.hunks == [] && file.kept == 0 && file.added == 0 && file.removed == 0 && !file.binary && !file.inHunk
  }

  lemma {:induction false} ReadLines(p: Parse, h: Hunk, body: seq<BodyLine>)
    ensures ReadBody(OpenHunk(p, h), body).hunks == p.hunks + [HunkOf(h, body, p.kept)]
  {
    var q := OpenHunk(p, h);
    var lines := Number(body[..Room(p.kept, |body|)], h.oldStart, h.newStart);
    assert q.hunks[|p.hunks|].lines + lines == lines;
  }

  lemma {:induction false} ReadHunk(p: Parse, file: Parse, hunks: seq<Hunk>, h: Hunk)
    requires Wf(p) && HasRead(p, file, hunks)
    ensures HasRead(ReadAny(OpenHunk(p, h), h.body), file, hunks + [h])
  {
    var all, legible := AllBody(hunks), Legible(h.body);
    assert (hunks + [h])[..|hunks|] == hunks;
    assert AllBody(hunks + [h]) == all + h.body;
    LegibleAppend(all, h.body);
    AddedAppend(Legible(all), legible);
    ReadLines(p, h, legible);
  }

  lemma {:induction false} ReadStands(p: Parse, hunks: seq<Hunk>, h: Hunk)
    requires p.kept == Room(0, |Legible(AllBody(hunks))|)
    ensures StandsAfter(ReadAny(OpenHunk(p, h), h.body), hunks + [h])
  {
    assert (hunks + [h])[..|hunks|] == hunks;
    var legible := Legible(h.body);
    LegibleAppend(AllBody(hunks), h.body);
    if |Legible(AllBody(hunks))| + |legible| <= LINE_CAP { assert legible[..Room(p.kept, |legible|)] == legible; }
  }

  lemma {:induction false} HunkOpens(p: Parse, h: Hunk)
    requires Wf(p) && NoTerminator(h.section)
    ensures ParseAll(p, [Header(h)] + PrintBodies(h.body)) == ParseAll(OpenHunk(p, h), PrintBodies(h.body))
  {
    HeaderParses(p, h);
    var lines := [Header(h)] + PrintBodies(h.body);
    assert lines[1..] == PrintBodies(h.body);
  }

  /** The printed hunks are the earlier ones and then the last, header first. */
  lemma {:induction false} LastHunk(p: Parse, hunks: seq<Hunk>) returns (q: Parse)
    requires Wf(p) && hunks != [] && NoTerminator(hunks[|hunks| - 1].section)
    ensures var n := |hunks| - 1;
            && q == ParseAll(p, HunkLines(hunks[..n]))
            && ParseAll(p, HunkLines(hunks)) == ParseAll(OpenHunk(q, hunks[n]), PrintBodies(hunks[n].body))
  {
    var n := |hunks| - 1;
    q := ParseAll(p, HunkLines(hunks[..n]));
    assert hunks[..n] + [hunks[n]] == hunks;
    HunkLinesSnoc(hunks[..n], hunks[n]);
    ParseAppend(p, HunkLines(hunks[..n]), [Header(hunks[n])] + PrintBodies(hunks[n].body));
    HunkOpens(q, hunks[n]);
  }

  lemma {:induction false} OneMoreHunk(before: Parse, file: Parse, hunks: seq<Hunk>) returns (p: Parse)
    requires hunks != [] && Wf(before) && HasRead(before, file, hunks[..|hunks| - 1])
    ensures p == ParseAll(OpenHunk(before, hunks[|hunks| - 1]), PrintBodies(hunks[|hunks| - 1].body))
    ensures HasRead(p, file, hunks) && StandsAfter(p, hunks)
  {
    var rest, h := hunks[..|hunks| - 1], hunks[|hunks| - 1];
    assert hunks == rest + [h];
    BodyParses(OpenHunk(before, h), h.body);
    ReadHunk(before, file, rest, h);
    ReadStands(before, rest, h);
    p := ReadAny(OpenHunk(before, h), h.body);
  }

  lemma {:induction false} HunksParse(file: Parse, hunks: seq<Hunk>) returns (p: Parse)
    requires OnlyPaths(file) && forall i | 0 <= i < |hunks| :: NoTerminator(hunks[i].section)
    ensures p == ParseAll(file, HunkLines(hunks)) && HasRead(p, file, hunks) && StandsAfter(p, hunks)
  {
    if hunks == [] { return file; }
    var before := LastHunk(file, hunks);
    var again := HunksParse(file, hunks[..|hunks| - 1]);
    p := OneMoreHunk(before, file, hunks);
  }

  // ---------- The file lines ----------

  lemma {:induction false} OldNameLine(p: Parse, name: string)
    requires Wf(p)
    ensures var path := StripPrefix(name, "a/");
            ParseLine(p, "--- " + name) == if path == "/dev/null" then p else p.(oldPath := path)
  {
    var line := "--- " + name;
    assert line[0] == '-' && line[..4] == "--- " && line[4..] == name;
    if StartsWith(line, "diff --git ") { FirstChar(line, "diff --git "); }
    if StartsWith(line, "Binary files ") { FirstChar(line, "Binary files "); }
    if StartsWith(line, "GIT binary patch") { FirstChar(line, "GIT binary patch"); }
  }

  lemma {:induction false} NewNameLine(p: Parse, name: string)
    requires Wf(p)
    ensures var path := StripPrefix(name, "b/");
            ParseLine(p, "+++ " + name) == if path == "/dev/null" then p else p.(newPath := path)
  {
    var line := "+++ " + name;
    assert line[0] == '+' && line[..4] == "+++ " && line[4..] == name;
    if StartsWith(line, "diff --git ") { FirstChar(line, "diff --git "); }
    if StartsWith(line, "Binary files ") { FirstChar(line, "Binary files "); }
    if StartsWith(line, "GIT binary patch") { FirstChar(line, "GIT binary patch"); }
    if StartsWith(line, "--- ") { FirstChar(line, "--- "); }
  }

  /** The names the two lines give: none for `/dev/null`. */
  lemma {:induction false} NamesStripped(p: Patch)
    ensures StripPrefix(OldName(p), "a/") == if p.change == Created then "/dev/null" else p.oldPath
    ensures StripPrefix(NewName(p), "b/") == if p.change == Deleted then "/dev/null" else p.newPath
  {
    var none := "/dev/null";
    assert none[0] == '/' && "a/"[0] == 'a' && "b/"[0] == 'b';
    if p.change != Created { Dropped("a/", p.oldPath); } else if StartsWith(none, "a/") { FirstChar(none, "a/"); }
    if p.change != Deleted { Dropped("b/", p.newPath); } else if StartsWith(none, "b/") { FirstChar(none, "b/"); }
  }

  /** Lines about modes, names and blob ids pass unnoticed. */
  lemma {:induction false} ExtendedPass(p: Parse, lines: seq<string>)
    requires Wf(p) && !p.inHunk
    requires forall line | line in lines :: NoFileLine(line) && MatchHunk(line) == None
    ensures ParseAll(p, lines) == p
    decreases |lines|
  {
    if lines != [] {
      assert lines[0] in lines;
      assert ParseLine(p, lines[0]) == p;
      ExtendedPass(p, lines[1..]);
    }
  }

  lemma {:induction false} GitLineParses(p: Patch)
    ensures ParseLine(START, GitLine(p)) == START.(oldPath := GitPaths(p).0, newPath := GitPaths(p).1)
  {
    Dropped("diff --git ", "a/" + (p.oldPath + (" b/" + p.newPath)));
    assert "diff --git a/" == "diff --git " + "a/";
    assert GitLine(p) == "diff --git " + ("a/" + (p.oldPath + (" b/" + p.newPath)));
  }

  lemma {:induction false} TwoLinesParse(q: Parse, first: string, second: string)
    requires Wf(q)
    ensures ParseAll(q, [first, second]) == ParseLine(ParseLine(q, first), second)
  {
    var lines := [first, second];
    assert lines[1..] == [second] && [second][1..] == [];
    assert ParseAll(q, lines) == ParseAll(ParseLine(q, first), [second]);
  }

  lemma {:induction false} NamesParse(q: Parse, p: Patch) returns (file: Parse)
    requires Wf(q)
    ensures file == ParseAll(q, ["--- " + OldName(p), "+++ " + NewName(p)])
    ensures file == q.(oldPath := if p.change == Created || p.oldPath == "/dev/null" then q.oldPath else p.oldPath,
                       newPath := if p.change == Deleted || p.newPath == "/dev/null" then q.newPath else p.newPath)
  {
    var names := ["--- " + OldName(p), "+++ " + NewName(p)];
    NamesStripped(p);
    OldNameLine(q, OldName(p));
    var r := ParseLine(q, names[0]);
    NewNameLine(r, NewName(p));
    file := ParseLine(r, names[1]);
    TwoLinesParse(q, names[0], names[1]);
  }

  /** The parser above the first hunk. */
  function FileOf(p: Patch): Parse {
    START.(oldPath := HeaderPaths(p).0, newPath := HeaderPaths(p).1)
  }

  lemma {:induction false} FileParses(p: Patch) returns (file: Parse)
    requires WellFormed(p)
    ensures file == ParseAll(START, FileLines(p)) && file == FileOf(p)
  {
    var names := ["--- " + OldName(p), "+++ " + NewName(p)];
    var lines := [GitLine(p)] + (p.extended + names);
    assert FileLines(p) == lines && lines[1..] == p.extended + names;
    GitLineParses(p);
    var q := ParseLine(START, GitLine(p));
    ParseAppend(q, p.extended, names);
    ExtendedPass(q, p.extended);
    file := NamesParse(q, p);
  }

  // ---------- Round trip ----------

  lemma {:induction false} BodiesOneLine(body: seq<BodyLine>)
    requires forall b | b in body :: OneLine(b.text)
    ensures AllOneLine(PrintBodies(body))
  {
    if body != [] { BodiesOneLine(body[1..]); }
  }

  lemma {:induction false} PrintedOneLine(hunks: seq<Hunk>)
    requires forall h | h in hunks :: NoTerminator(h.section) && forall b | b in h.body :: OneLine(b.text)
    ensures AllOneLine(HunkLines(hunks))
  {
    if hunks != [] {
      PrintedOneLine(hunks[1..]);
      BodiesOneLine(hunks[0].body);
    }
  }

  lemma {:induction false} NamesOneLine(p: Patch)
    requires WellFormed(p)
    ensures AllOneLine(FileLines(p))
  {
    assert OneLine(OldName(p)) && OneLine(NewName(p)) && OneLine(GitLine(p));
    assert forall i | 0 <= i < |p.extended| :: p.extended[i] in p.extended;
  }

  lemma {:induction false} JoinEmpty(lines: seq<string>)
    requires lines != []
    ensures Join(lines + [""]) == Join(lines) + "\n"
  {
    if |lines| == 1 {
      assert (lines + [""])[1..] == [""];
    } else {
      assert (lines + [""])[1..] == lines[1..] + [""];
      JoinEmpty(lines[1..]);
    }
  }

  lemma {:induction false} SplitsBack(p: Patch)
    requires WellFormed(p)
    ensures Split(Print(p)) == PatchLines(p)
    ensures Split(Print(p) + "\n") == PatchLines(p) + [""]
  {
    var lines := PatchLines(p);
    PrintedOneLine(p.hunks);
    NamesOneLine(p);
    SplitJoin(lines);
    assert AllOneLine(lines + [""]);
    JoinEmpty(lines);
    SplitJoin(lines + [""]);
  }

  /** The parser after all lines of a well-formed patch. */
  lemma {:induction false} PatchReads(p: Patch) returns (q: Parse)
    requires WellFormed(p)
    ensures q == ParseAll(START, PatchLines(p))
    ensures Wf(q) && StandsAfter(q, p.hunks)
    ensures HasRead(q, FileOf(p), p.hunks)
  {
    var file := FileParses(p);
    ParseAppend(START, FileLines(p), HunkLines(p.hunks));
    assert forall i | 0 <= i < |p.hunks| :: p.hunks[i] in p.hunks;
    q := HunksParse(file, p.hunks);
  }

  lemma {:induction false} FinishShown(q: Parse, p: Patch)
    requires HasRead(q, FileOf(p), p.hunks) && ShownHunks(p.hunks) != []
    ensures Finish(q) == Some(Shown(p))
  {
  }

  /** What the parser returns for every well-formed patch, of any size and with any lines: lines taken for
      file headers are lost and redirect a path, the others are numbered, kept up to the cap and counted. */
  lemma {:induction false} ParsesShown(p: Patch)
    requires WellFormed(p)
    ensures Parsed(Print(p)) == Some(Shown(p))
  {
    SplitsBack(p);
    var q := PatchReads(p);
    FinishShown(q, p);
  }

  // ---------- When that is what was printed ----------

  /** Benign lines are all legible and redirect nothing. */
  lemma {:induction false} LegibleBenign(body: seq<BodyLine>)
    requires AllBenign(body)
    ensures Legible(body) == body
    ensures forall side, path :: PathAfter(body, side, path) == path
  {
    if body != [] { LegibleBenign(body[..|body| - 1]); }
  }

  /** A benign front stays in front. */
  lemma {:induction false} LegibleFront(body: seq<BodyLine>, m: nat)
    requires m <= |body| && AllBenign(body[..m])
    ensures m <= |Legible(body)| && Legible(body)[..m] == body[..m]
  {
    LegibleAppend(body[..m], body[m..]);
    assert body == body[..m] + body[m..];
    LegibleBenign(body[..m]);
  }

  lemma {:induction false} LegibleAtMost(body: seq<BodyLine>)
    ensures |Legible(body)| <= |body| && AllBenign(Legible(body))
    ensures |Legible(body)| == |body| ==> AllBenign(body)
  {
    if body != [] { LegibleAtMost(body[..|body| - 1]); }
  }

  /** Every line below the cap is benign. */
  predicate BenignBelowCap(body: seq<BodyLine>) {
    AllBenign(body[..Room(0, |body|)])
  }

  /** Then the same room is taken, by the same lines. */
  lemma {:induction false} SameRoom(body: seq<BodyLine>, kept: nat)
    requires kept <= LINE_CAP && AllBenign(body[..Room(kept, |body|)])
    ensures var m := Room(kept, |body|);
            Room(kept, |Legible(body)|) == m && Legible(body)[..m] == body[..m]
  {
    LegibleAtMost(body);
    LegibleFront(body, Room(kept, |body|));
  }

  /** The lines below the cap of two stretches: those of the first, then as many of the second as still fit. */
  lemma {:induction false} BelowCapAppend(a: seq<BodyLine>, b: seq<BodyLine>)
    ensures (a + b)[..Room(0, |a + b|)] == a[..Room(0, |a|)] + b[..Room(Room(0, |a|), |b|)]
    ensures BenignBelowCap(a + b) <==> BenignBelowCap(a) && AllBenign(b[..Room(Room(0, |a|), |b|)])
  {
    var x, y := a[..Room(0, |a|)], b[..Room(Room(0, |a|), |b|)];
    assert (a + b)[..Room(0, |a + b|)] == x + y;
    assert forall i | 0 <= i < |x| :: (x + y)[i] == x[i];
    forall i | 0 <= i < |y|
      ensures (x + y)[|x| + i] == y[i]
    {
    }
    if AllBenign(x + y) {
      assert forall i | 0 <= i < |y| :: Benign((x + y)[|x| + i]) && (x + y)[|x| + i] == y[i];
    }
  }

  /** No line shown could be taken for a file header. */
  predicate BenignLines(lines: seq<DiffLine>) {
    forall i | 0 <= i < |lines| :: Benign(BodyLine(lines[i].typ, lines[i].text))
  }

  lemma {:induction false} ConsBenign(head: DiffLine, rest: seq<DiffLine>, b: BodyLine, body: seq<BodyLine>)
    requires Benign(BodyLine(head.typ, head.text)) <==> Benign(b)
    requires BenignLines(rest) <==> AllBenign(body)
    ensures BenignLines([head] + rest) <==> AllBenign([b] + body)
  {
    var lines, all := [head] + rest, [b] + body;
    assert lines[0] == head && forall i | 0 <= i < |rest| :: lines[i + 1] == rest[i];
    assert all[0] == b && forall i | 0 <= i < |body| :: all[i + 1] == body[i];
    assert BenignLines(lines) <==> Benign(BodyLine(head.typ, head.text)) && BenignLines(rest) by {
      assert forall i | 0 < i < |lines| :: lines[i] == rest[i - 1];
    }
    assert AllBenign(all) <==> Benign(b) && AllBenign(body) by {
      assert forall i | 0 < i < |all| :: all[i] == body[i - 1];
    }
  }

  lemma {:induction false} NumberBenign(body: seq<BodyLine>, old': nat, new': nat)
    ensures BenignLines(Number(body, old', new')) <==> AllBenign(body)
    decreases |body|
  {
    if body != [] {
      var b, rest := body[0], body[1..];
      var next, next' := if OnOld(b.typ) then old' + 1 else old', if OnNew(b.typ) then new' + 1 else new';
      var head := LineOf(b, old', new');
      NumberBenign(rest, next, next');
      ConsBenign(head, Number(rest, next, next'), b, rest);
      assert body == [b] + rest;
    }
  }

  lemma {:induction false} SnocEqual(a: seq<DiffHunk>, x: DiffHunk, b: seq<DiffHunk>, y: DiffHunk)
    requires |a| == |b|
    ensures a + [x] == b + [y] <==> a == b && x == y
  {
    if a + [x] == b + [y] {
      assert a == (a + [x])[..|a|] == (b + [y])[..|b|] == b;
      assert x == (a + [x])[|a|] == (b + [y])[|b|] == y;
    }
  }

  lemma {:induction false} HunkShownIff(h: Hunk, kept: nat)
    requires kept <= LINE_CAP
    ensures HunkOf(h, Legible(h.body), kept) == HunkOf(h, h.body, kept) <==>
            AllBenign(h.body[..Room(kept, |h.body|)])
  {
    var legible := Legible(h.body);
    if AllBenign(h.body[..Room(kept, |h.body|)]) {
      SameRoom(h.body, kept);
    } else {
      LegibleAtMost(h.body);
      NumberBenign(legible[..Room(kept, |legible|)], h.oldStart, h.newStart);
      NumberBenign(h.body[..Room(kept, |h.body|)], h.oldStart, h.newStart);
    }
  }

  /** The hunks shown are those printed exactly when every line below the cap is benign. */
  lemma {:induction false} HunksShownIff(hunks: seq<Hunk>)
    ensures ShownHunks(hunks) == ExpectedHunks(hunks) <==> BenignBelowCap(AllBody(hunks))
    ensures |ShownHunks(hunks)| == |ExpectedHunks(hunks)| == |hunks|
  {
    if hunks != [] {
      var n := |hunks| - 1;
      var front, h := AllBody(hunks[..n]), hunks[n];
      HunksShownIff(hunks[..n]);
      BelowCapAppend(front, h.body);
      var shown := HunkOf(h, Legible(h.body), Room(0, |Legible(front)|));
      var expected := HunkOf(h, h.body, Room(0, |front|));
      SnocEqual(ShownHunks(hunks[..n]), shown, ExpectedHunks(hunks[..n]), expected);
      if BenignBelowCap(front) {
        SameRoom(front, 0);
        HunkShownIff(h, Room(0, |front|));
      }
    }
  }

  lemma {:induction false} OneMoreCounts(rest: seq<BodyLine>, last: BodyLine)
    requires AddedIn(Legible(rest), 0) == AddedIn(rest, 0) && RemovedIn(Legible(rest), 0) == RemovedIn(rest, 0)
    requires |Legible(rest)| >= LINE_CAP <==> |rest| >= LINE_CAP
    requires |rest| < LINE_CAP ==> Benign(last)
    ensures AddedIn(Legible(rest + [last]), 0) == AddedIn(rest + [last], 0)
    ensures RemovedIn(Legible(rest + [last]), 0) == RemovedIn(rest + [last], 0)
  {
    if !Benign(last) { assert Legible(rest) + [] == Legible(rest); }
  }

  /** Past the cap a line taken for a file header counts for nothing either way. */
  lemma {:induction false} SameCounts(body: seq<BodyLine>)
    requires BenignBelowCap(body)
    ensures AddedIn(Legible(body), 0) == AddedIn(body, 0) && RemovedIn(Legible(body), 0) == RemovedIn(body, 0)
    ensures |Legible(body)| >= LINE_CAP <==> |body| >= LINE_CAP
  {
    SameRoom(body, 0);
    if body != [] {
      var rest, last := body[..|body| - 1], body[|body| - 1];
      assert body == rest + [last];
      BelowCapAppend(rest, [last]);
      SameCounts(rest);
      assert |rest| < LINE_CAP ==> [last][..Room(Room(0, |rest|), 1)][0] == last;
      OneMoreCounts(rest, last);
    }
  }

  /** The parser inverts the printer, for patches of any size, if and only if below the cap no added text
      starts with `++ ` and no deleted text with `-- `, and the paths that the header lines and such texts
      past the cap leave are the patch's own. */
  lemma {:induction false} RoundTripIff(p: Patch)
    requires WellFormed(p)
    ensures var all := AllBody(p.hunks);
            Parsed(Print(p)) == Some(Expected(p)) <==>
            && BenignBelowCap(all)
            && PathAfter(all, Del, HeaderPaths(p).0) == p.oldPath
            && PathAfter(all, Add, HeaderPaths(p).1) == p.newPath
  {
    ParsesShown(p);
    HunksShownIff(p.hunks);
    if BenignBelowCap(AllBody(p.hunks)) { SameCounts(AllBody(p.hunks)); }
  }

  /** Up to the cap, for a patch whose header lines give its paths, only the texts decide. */
  lemma {:induction false} RoundTripUpToCap(p: Patch)
    requires WellFormed(p) && |AllBody(p.hunks)| <= LINE_CAP && HeaderPaths(p) == (p.oldPath, p.newPath)
    ensures Parsed(Print(p)) == Some(Expected(p)) <==> AllBenign(AllBody(p.hunks))
  {
    var all := AllBody(p.hunks);
    RoundTripIff(p);
    assert all[..Room(0, |all|)] == all;
    if AllBenign(all) { LegibleBenign(all); }
  }

  /** For a patch of any size whose body lines are benign, the parser returns both paths, every hunk with
      its numbered lines up to the cap, and the counts. */
  lemma {:induction false} ParsesBack(p: Patch)
    requires WellFormed(p) && AllBenign(AllBody(p.hunks)) && HeaderPaths(p) == (p.oldPath, p.newPath)
    ensures Parsed(Print(p)) == Some(Expected(p))
  {
    RoundTripIff(p);
    LegibleBenign(AllBody(p.hunks));
  }

  /** The paths of a changed file are always read back, unless one is `/dev/null`; a created file's old path
      and a deleted one's new path only when the `diff --git` line can be split again. */
  lemma {:induction false} HeaderPathsIff(p: Patch)
    requires p.oldPath != "" && p.newPath != "" && p.oldPath != "/dev/null" && p.newPath != "/dev/null"
    ensures HeaderPaths(p) == (p.oldPath, p.newPath) <==>
            p.change == Modified || ReadablePaths(p.oldPath, p.newPath)
  {
    GitPathsIff(p);
  }

  // ---------- The counts ----------

  function CountOf(body: seq<BodyLine>, typ: LineType): nat {
    if body == [] then 0
    else CountOf(body[..|body| - 1], typ) + if body[|body| - 1].typ == typ then 1 else 0
  }

  /** A line past the cap that the counts leave out. */
  predicate Uncounted(body: seq<BodyLine>, typ: LineType, twice: string) {
    exists i | LINE_CAP <= i < |body| :: body[i].typ == typ && StartsWith(body[i].text, twice)
  }

  lemma {:induction false} CountsTrue(body: seq<BodyLine>)
    ensures AddedIn(body, 0) <= CountOf(body, Add) && RemovedIn(body, 0) <= CountOf(body, Del)
    ensures AddedIn(body, 0) == CountOf(body, Add) <==> !Uncounted(body, Add, "++")
    ensures RemovedIn(body, 0) == CountOf(body, Del) <==> !Uncounted(body, Del, "--")
  {
    if body != [] {
      var n := |body| - 1;
      var front := body[..n];
      CountsTrue(front);
    }
  }

  /** Every line of the type is benign. */
  predicate AllOfBenign(body: seq<BodyLine>, typ: LineType) {
    forall i | 0 <= i < |body| && body[i].typ == typ :: Benign(body[i])
  }

  lemma {:induction false} AllOfSnoc(body: seq<BodyLine>, b: BodyLine, typ: LineType)
    ensures AllOfBenign(body + [b], typ) <==> AllOfBenign(body, typ) && (b.typ == typ ==> Benign(b))
  {
    var all := body + [b];
    assert all[|body|] == b && forall i | 0 <= i < |body| :: all[i] == body[i];
  }

  lemma {:induction false} LegibleCounts(body: seq<BodyLine>, typ: LineType)
    ensures CountOf(Legible(body), typ) <= CountOf(body, typ)
    ensures CountOf(Legible(body), typ) == CountOf(body, typ) <==> AllOfBenign(body, typ)
  {
    if body != [] {
      var rest, last := body[..|body| - 1], body[|body| - 1];
      assert body == rest + [last];
      LegibleCounts(rest, typ);
      AllOfSnoc(rest, last, typ);
      assert Legible(rest) + [] == Legible(rest);
    }
  }

  /** The counts the parser returns, for every well-formed patch: the additions are all counted if and only
      if none is taken for a file header and none past the cap starts with `++`; the deletions likewise. */
  lemma {:induction false} CountsIff(p: Patch)
    requires WellFormed(p)
    ensures Parsed(Print(p)).Some?
    ensures var diff, all := Parsed(Print(p)).value, AllBody(p.hunks);
            && (diff.added == CountOf(all, Add) <==>
                AllOfBenign(all, Add) && !Uncounted(Legible(all), Add, "++"))
            && (diff.removed == CountOf(all, Del) <==>
                AllOfBenign(all, Del) && !Uncounted(Legible(all), Del, "--"))
  {
    ParsesShown(p);
    CountsTrue(Legible(AllBody(p.hunks)));
    LegibleCounts(AllBody(p.hunks), Add);
    LegibleCounts(AllBody(p.hunks), Del);
  }

  /** Both counts are true if and only if no line is taken for a file header and none past the cap has a
      text starting with `++` or `--` on its side. */
  lemma {:induction false} BothCountsIff(p: Patch)
    requires WellFormed(p)
    ensures Parsed(Print(p)).Some?
    ensures var diff, all := Parsed(Print(p)).value, AllBody(p.hunks);
            diff.added == CountOf(all, Add) && diff.removed == CountOf(all, Del) <==>
            AllBenign(all) && !Uncounted(all, Add, "++") && !Uncounted(all, Del, "--")
  {
    var all := AllBody(p.hunks);
    CountsIff(p);
    assert AllBenign(all) <==> AllOfBenign(all, Add) && AllOfBenign(all, Del);
    if AllBenign(all) { LegibleBenign(all); }
  }

  // ---------- A final newline ----------

  /** The empty line the parser shows below a patch that ends in a newline. */
  function ExtraLine(last: Hunk): DiffLine {
    var body := Legible(last.body);
    DiffLine(Ctx, "", last.oldStart + OldCount(body), last.newStart + NewCount(body))
  }

  /** The parser after an empty line inside a hunk. */
  function AfterBlank(q: Parse): Parse
    requires q.hunks != []
  {
    if q.kept >= LINE_CAP then q
    else q.(hunks := Retain(q.hunks, DiffLine(Ctx, "", q.oldNo, q.newNo)),
            oldNo := q.oldNo + 1, newNo := q.newNo + 1, kept := q.kept + 1)
  }

  lemma {:induction false} BlankLine(q: Parse)
    requires Wf(q) && q.inHunk
    ensures ParseLine(q, "") == AfterBlank(q)
  {
  }

  /** What the parser makes of a patch that ends in a newline. */
  function ShownWithNewline(p: Patch): FileDiff
    requires ShownHunks(p.hunks) != [] && p.hunks != []
  {
    var kept := |Legible(AllBody(p.hunks))|;
    if kept >= LINE_CAP then Shown(p)
    else Shown(p).(hunks := Retain(ShownHunks(p.hunks), ExtraLine(p.hunks[|p.hunks| - 1])),
                   truncated := kept + 1 >= LINE_CAP)
  }

  lemma {:induction false} FinishBlank(q: Parse, p: Patch)
    requires p.hunks != [] && Wf(q) && StandsAfter(q, p.hunks) && HasRead(q, FileOf(p), p.hunks)
    requires ShownHunks(p.hunks) != []
    ensures Finish(AfterBlank(q)) == Some(ShownWithNewline(p))
  {
    FinishShown(q, p);
    if q.kept < LINE_CAP {
      assert q.kept == |Legible(AllBody(p.hunks))|;
      assert DiffLine(Ctx, "", q.oldNo, q.newNo) == ExtraLine(p.hunks[|p.hunks| - 1]);
    }
  }

  /** The same patch with the newline git ends it with: the parser shows one more, empty context line
      below the last hunk, unless the cap is already reached. */
  lemma {:induction false} FinalNewlineAddsLine(p: Patch)
    requires WellFormed(p)
    ensures ShownHunks(p.hunks) != []
    ensures Parsed(Print(p)) == Some(Shown(p)) && Parsed(Print(p) + "\n") == Some(ShownWithNewline(p))
  {
    ParsesShown(p);
    SplitsBack(p);
    var q := PatchReads(p);
    ParseSnoc(START, PatchLines(p), "");
    BlankLine(q);
    FinishBlank(q, p);
    assert Parsed(Print(p) + "\n") == Finish(AfterBlank(q));
  }

  /** A deleted text that starts with `-- ` is taken for a file header: the line is lost and the old path
      overwritten. */
  lemma {:induction false} DashedDeletionIsLost(p: Parse, rest: string)
    requires Wf(p) && rest != "/dev/null" && !StartsWith(rest, "a/")
    ensures ParseLine(p, PrintBody(BodyLine(Del, "-- " + rest))) == p.(oldPath := rest)
  {
    var b := BodyLine(Del, "-- " + rest);
    var line := PrintBody(b);
    BodyPrefixes(b);
    assert line[4..] == rest;
  }
}
