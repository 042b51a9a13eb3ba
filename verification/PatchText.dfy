/** What the parser returns for every text whatever, read off its lines. */
module PatchText {
  import opened Wrappers
  import opened Sequences
  import opened TextLines
  import opened PatchParser
  import opened PatchPrinter
  import opened PatchRoundTrip
  import Decimals

  // ---------- Kinds of lines ----------

  predicate IsGit(line: string) {
    StartsWith(line, "diff --git ")
  }

  predicate IsBinary(line: string) {
    StartsWith(line, "Binary files ") || StartsWith(line, "GIT binary patch")
  }

  predicate IsName(line: string) {
    StartsWith(line, "--- ") || StartsWith(line, "+++ ")
  }

  predicate OpensHunk(line: string) {
    MatchHunk(line).Some?
  }

  /** What only a hunk gives a meaning to. */
  predicate IsBody(line: string) {
    !IsGit(line) && !IsBinary(line) && !IsName(line) && !OpensHunk(line)
  }

  // ---------- What the lines say ----------

  /** A hunk is open behind the lines: one opened, and no new file began since. */
  predicate Open(lines: seq<string>) {
    lines != [] &&
    var n := |lines| - 1;
    OpensHunk(lines[n]) || (!IsGit(lines[n]) && Open(lines[..n]))
  }

  datatype Piece = Piece(header: string, body: seq<string>)

  /** The hunks: each header with the body lines behind it, while it is open. */
  function Pieces(lines: seq<string>): (pieces: seq<Piece>)
    ensures Open(lines) ==> pieces != []
  {
    if lines == [] then []
    else
      var n := |lines| - 1;
      var pieces := Pieces(lines[..n]);
      if OpensHunk(lines[n]) then pieces + [Piece(lines[n], [])]
      else if IsBody(lines[n]) && Open(lines[..n]) then
        var last := pieces[|pieces| - 1];
        pieces[|pieces| - 1 := last.(body := last.body + [lines[n]])]
      else pieces
  }

  /** The text behind the first character says the line, and the character its kind; what starts with none
      of the three is context. */
  function AsBody(line: string): BodyLine {
    if line == "" then BodyLine(Ctx, "")
    else if line[0] == '+' then BodyLine(Add, line[1..])
    else if line[0] == '-' then BodyLine(Del, line[1..])
    else if line[0] == '\\' then BodyLine(Meta, line[1..])
    else BodyLine(Ctx, line[1..])
  }

  function AsBodies(lines: seq<string>): (body: seq<BodyLine>)
    ensures |body| == |lines|
  {
    if lines == [] then [] else AsBodies(lines[..|lines| - 1]) + [AsBody(lines[|lines| - 1])]
  }

  /** All body lines of all hunks. */
  function AllLines(pieces: seq<Piece>): seq<BodyLine> {
    if pieces == [] then []
    else AllLines(pieces[..|pieces| - 1]) + AsBodies(pieces[|pieces| - 1].body)
  }

  /** A hunk with its lines numbered from its starts, as many as fit when `kept` lines precede it. */
  function HunkAt(header: string, old': nat, new': nat, body: seq<BodyLine>, kept: nat): DiffHunk {
    DiffHunk(header, old', new', Number(body[..Room(kept, |body|)], old', new'))
  }

  /** Where a hunk header says the two sides start. */
  function Starts(header: string): (nat, nat) {
    var m := MatchHunk(header);
    if m.Some? then m.value else (0, 0)
  }

  function HunkFrom(piece: Piece, kept: nat): DiffHunk {
    HunkAt(piece.header, Starts(piece.header).0, Starts(piece.header).1, AsBodies(piece.body), kept)
  }

  function HunksFrom(pieces: seq<Piece>): seq<DiffHunk> {
    if pieces == [] then []
    else
      var n := |pieces| - 1;
      HunksFrom(pieces[..n]) + [HunkFrom(pieces[n], Room(0, |AllLines(pieces[..n])|))]
  }

  /** The old path behind a line: what it names, if it names one. `/dev/null` is no name. */
  function OldNamed(line: string, path: string): string {
    if IsGit(line) && MatchGit(line).Some? then MatchGit(line).value.0
    else if StartsWith(line, "--- ") && StripPrefix(line[4..], "a/") != "/dev/null" then StripPrefix(line[4..], "a/")
    else path
  }

  function NewNamed(line: string, path: string): string {
    if IsGit(line) && MatchGit(line).Some? then MatchGit(line).value.1
    else if StartsWith(line, "+++ ") && StripPrefix(line[4..], "b/") != "/dev/null" then StripPrefix(line[4..], "b/")
    else path
  }

  /** The paths: what the last line to name one says. */
  function OldPathIn(lines: seq<string>): string {
    if lines == [] then "" else OldNamed(lines[|lines| - 1], OldPathIn(lines[..|lines| - 1]))
  }

  function NewPathIn(lines: seq<string>): string {
    if lines == [] then "" else NewNamed(lines[|lines| - 1], NewPathIn(lines[..|lines| - 1]))
  }

  predicate AnyBinary(lines: seq<string>) {
    exists i | 0 <= i < |lines| :: IsBinary(lines[i])
  }

  predicate AnyHunk(lines: seq<string>) {
    exists i | 0 <= i < |lines| :: OpensHunk(lines[i])
  }

  // ---------- The parser reads it so ----------

  lemma {:induction false} KindsDiffer(line: string)
    ensures IsGit(line) ==> !IsBinary(line) && !IsName(line) && !OpensHunk(line)
    ensures IsBinary(line) ==> !IsName(line) && !OpensHunk(line)
    ensures IsName(line) ==> !OpensHunk(line)
    ensures StartsWith(line, "--- ") ==> !StartsWith(line, "+++ ")
  {
    if IsGit(line) { FirstChar(line, "diff --git "); }
    if StartsWith(line, "Binary files ") { FirstChar(line, "Binary files "); }
    if StartsWith(line, "GIT binary patch") { FirstChar(line, "GIT binary patch"); }
    if StartsWith(line, "--- ") { FirstChar(line, "--- "); }
    if StartsWith(line, "+++ ") { FirstChar(line, "+++ "); }
    if OpensHunk(line) { FirstChar(line, "@@ -"); }
  }

  /** What the parser has counted is what the body lines come to. */
  predicate Counted(p: Parse, all: seq<BodyLine>) {
    p.kept == Room(0, |all|) && p.added == AddedIn(all, 0) && p.removed == RemovedIn(all, 0)
  }

  /** What holds of the parser behind the lines, the line numbers aside. */
  ghost predicate ReadSo(p: Parse, lines: seq<string>) {
    var pieces := Pieces(lines);
    var all := AllLines(pieces);
    && p.oldPath == OldPathIn(lines) && p.newPath == NewPathIn(lines)
    && p.binary == AnyBinary(lines) && p.inHunk == Open(lines)
    && p.hunks == HunksFrom(pieces) && Counted(p, all)
  }

  /** The line numbers behind the body of a piece. */
  predicate NumbersAt(piece: Piece, old': nat, new': nat) {
    && old' == Starts(piece.header).0 + OldCount(AsBodies(piece.body))
    && new' == Starts(piece.header).1 + NewCount(AsBodies(piece.body))
  }

  /** Below the cap the line numbers stand behind the body of the last hunk. */
  ghost predicate Stands(p: Parse, lines: seq<string>) {
    Open(lines) && p.kept < LINE_CAP ==>
      NumbersAt(Pieces(lines)[|Pieces(lines)| - 1], p.oldNo, p.newNo)
  }

  lemma {:induction false} AnyBinarySnoc(lines: seq<string>, line: string)
    ensures AnyBinary(lines + [line]) <==> AnyBinary(lines) || IsBinary(line)
  {
    var all := lines + [line];
    if i :| 0 <= i < |lines| && IsBinary(lines[i]) { assert all[i] == lines[i]; }
    if IsBinary(line) { assert all[|lines|] == line; }
    if i :| 0 <= i < |all| && IsBinary(all[i]) && i < |lines| { assert lines[i] == all[i]; }
  }

  lemma {:induction false} AnyHunkSnoc(lines: seq<string>, line: string)
    ensures AnyHunk(lines + [line]) <==> AnyHunk(lines) || OpensHunk(line)
  {
    var all := lines + [line];
    if i :| 0 <= i < |lines| && OpensHunk(lines[i]) { assert all[i] == lines[i]; }
    if OpensHunk(line) { assert all[|lines|] == line; }
    if i :| 0 <= i < |all| && OpensHunk(all[i]) && i < |lines| { assert lines[i] == all[i]; }
  }

  lemma {:induction false} PathsSnoc(lines: seq<string>, line: string)
    ensures OldPathIn(lines + [line]) == OldNamed(line, OldPathIn(lines))
    ensures NewPathIn(lines + [line]) == NewNamed(line, NewPathIn(lines))
  {
    assert (lines + [line])[..|lines|] == lines;
  }

  lemma {:induction false} PathsStay(lines: seq<string>, line: string)
    requires !IsGit(line) && !IsName(line)
    ensures OldPathIn(lines + [line]) == OldPathIn(lines) && NewPathIn(lines + [line]) == NewPathIn(lines)
  {
    PathsSnoc(lines, line);
  }

  /** What the parser makes of a line that is neither a hunk header nor body. */
  lemma {:induction false} OtherParses(p: Parse, line: string)
    requires Wf(p) && (IsGit(line) || IsBinary(line) || IsName(line))
    ensures ParseLine(p, line) ==
            p.(oldPath := OldNamed(line, p.oldPath), newPath := NewNamed(line, p.newPath),
               inHunk := p.inHunk && !IsGit(line), binary := p.binary || IsBinary(line))
  {
    KindsDiffer(line);
  }

  /** A line that is neither a hunk header nor body leaves the hunks alone. */
  lemma {:induction false} OtherPieces(lines: seq<string>, line: string)
    requires IsGit(line) || IsBinary(line) || IsName(line)
    ensures Pieces(lines + [line]) == Pieces(lines)
    ensures Open(lines + [line]) == (Open(lines) && !IsGit(line))
    ensures AnyBinary(lines + [line]) == (AnyBinary(lines) || IsBinary(line))
  {
    assert (lines + [line])[..|lines|] == lines;
    AnyBinarySnoc(lines, line);
    KindsDiffer(line);
  }

  lemma {:induction false} OtherReads(p: Parse, lines: seq<string>, line: string)
    requires Wf(p) && ReadSo(p, lines) && Stands(p, lines) && (IsGit(line) || IsBinary(line) || IsName(line))
    ensures ReadSo(ParseLine(p, line), lines + [line]) && Stands(ParseLine(p, line), lines + [line])
  {
    OtherParses(p, line);
    OtherPieces(lines, line);
    PathsSnoc(lines, line);
  }

  lemma {:induction false} HeaderPieces(lines: seq<string>, line: string)
    requires OpensHunk(line)
    ensures Pieces(lines + [line]) == Pieces(lines) + [Piece(line, [])] && Open(lines + [line])
    ensures AnyBinary(lines + [line]) == AnyBinary(lines)
    ensures OldPathIn(lines + [line]) == OldPathIn(lines) && NewPathIn(lines + [line]) == NewPathIn(lines)
  {
    assert (lines + [line])[..|lines|] == lines;
    AnyBinarySnoc(lines, line);
    KindsDiffer(line);
    PathsStay(lines, line);
  }

  lemma {:induction false} HunkStarts(pieces: seq<Piece>, line: string)
    ensures AllLines(pieces + [Piece(line, [])]) == AllLines(pieces)
    ensures HunksFrom(pieces + [Piece(line, [])]) ==
            HunksFrom(pieces) + [DiffHunk(line, Starts(line).0, Starts(line).1, [])]
  {
    var more := pieces + [Piece(line, [])];
    assert more[..|pieces|] == pieces && more[|pieces|] == Piece(line, []);
    assert AsBodies([]) == [];
  }

  lemma {:induction false} HeaderReads(p: Parse, lines: seq<string>, line: string)
    requires Wf(p) && ReadSo(p, lines) && OpensHunk(line)
    ensures ReadSo(ParseLine(p, line), lines + [line]) && Stands(ParseLine(p, line), lines + [line])
  {
    HeaderPieces(lines, line);
    HunkStarts(Pieces(lines), line);
    KindsDiffer(line);
    assert AsBodies([]) == [];
  }

  /** A body line where no hunk is open passes unnoticed. */
  lemma {:induction false} StrayReads(p: Parse, lines: seq<string>, line: string)
    requires Wf(p) && ReadSo(p, lines) && IsBody(line) && !Open(lines)
    ensures ReadSo(ParseLine(p, line), lines + [line]) && Stands(ParseLine(p, line), lines + [line])
  {
    assert (lines + [line])[..|lines|] == lines;
    AnyBinarySnoc(lines, line);
    PathsStay(lines, line);
  }

  lemma {:induction false} AsBodiesSnoc(lines: seq<string>, line: string)
    ensures AsBodies(lines + [line]) == AsBodies(lines) + [AsBody(line)]
  {
    assert (lines + [line])[..|lines|] == lines;
  }

  /** Below the cap a body line is kept as what it is, with its numbers. */
  lemma {:induction false} KeepsBody(p: Parse, line: string)
    requires p.hunks != []
    ensures var b := AsBody(line);
            KeepLine(p, line) ==
            p.(hunks := Retain(p.hunks, LineOf(b, p.oldNo, p.newNo)),
               oldNo := p.oldNo + (if OnOld(b.typ) then 1 else 0),
               newNo := p.newNo + (if OnNew(b.typ) then 1 else 0),
               added := p.added + (if b.typ == Add then 1 else 0),
               removed := p.removed + (if b.typ == Del then 1 else 0),
               kept := p.kept + 1)
  {
    if line != "" { assert line == [line[0]] + line[1..]; }
  }

  lemma {:induction false} CountsBody(p: Parse, line: string)
    ensures var b := AsBody(line);
            CountLine(p, line) ==
            p.(added := p.added + (if b.typ == Add && !StartsWith(b.text, "++") then 1 else 0),
               removed := p.removed + (if b.typ == Del && !StartsWith(b.text, "--") then 1 else 0))
  {
    if line != "" {
      assert line == [line[0]] + line[1..];
      MinusPrefixes(line[1..]);
      PlusPrefixes(line[1..]);
    }
  }

  /** The hunks with one more line in the last. */
  function Grown(pieces: seq<Piece>, line: string): seq<Piece>
    requires pieces != []
  {
    var n := |pieces| - 1;
    pieces[n := pieces[n].(body := pieces[n].body + [line])]
  }

  lemma {:induction false} BodyPieces(lines: seq<string>, line: string)
    requires IsBody(line) && Open(lines)
    ensures Pieces(lines + [line]) == Grown(Pieces(lines), line) && Open(lines + [line])
    ensures AnyBinary(lines + [line]) == AnyBinary(lines)
    ensures OldPathIn(lines + [line]) == OldPathIn(lines) && NewPathIn(lines + [line]) == NewPathIn(lines)
  {
    assert (lines + [line])[..|lines|] == lines;
    AnyBinarySnoc(lines, line);
    PathsStay(lines, line);
  }

  lemma {:induction false} AllLinesSnoc(pieces: seq<Piece>, line: string)
    requires pieces != []
    ensures AllLines(Grown(pieces, line)) == AllLines(pieces) + [AsBody(line)]
  {
    var n := |pieces| - 1;
    assert Grown(pieces, line)[..n] == pieces[..n];
    AsBodiesSnoc(pieces[n].body, line);
    Reassociate(AllLines(pieces[..n]), AsBodies(pieces[n].body), [AsBody(line)]);
  }

  /** The counts behind one more body line. */
  lemma {:induction false} CountsSnoc(all: seq<BodyLine>, b: BodyLine)
    ensures var below := Room(0, |all|) < LINE_CAP;
            && Room(0, |all + [b]|) == Room(0, |all|) + (if below then 1 else 0)
            && AddedIn(all + [b], 0) ==
                 AddedIn(all, 0) + (if b.typ == Add && (below || !StartsWith(b.text, "++")) then 1 else 0)
            && RemovedIn(all + [b], 0) ==
                 RemovedIn(all, 0) + (if b.typ == Del && (below || !StartsWith(b.text, "--")) then 1 else 0)
  {
    assert (all + [b])[..|all|] == all;
  }

  /** A hunk past the cap takes no more lines. */
  lemma {:induction false} HunkFull(header: string, old': nat, new': nat, body: seq<BodyLine>, b: BodyLine, kept: nat)
    requires kept + |body| >= LINE_CAP
    ensures HunkAt(header, old', new', body + [b], kept) == HunkAt(header, old', new', body, kept)
  {
    var m := Room(kept, |body|);
    assert Room(kept, |body + [b]|) == m && (body + [b])[..m] == body[..m];
  }

  /** Below the cap it takes the next line, with the numbers its sides have reached. */
  lemma {:induction false} HunkTakes(header: string, old': nat, new': nat, body: seq<BodyLine>, b: BodyLine, kept: nat)
    requires kept + |body| < LINE_CAP
    ensures var h := HunkAt(header, old', new', body, kept);
            HunkAt(header, old', new', body + [b], kept) == h.(lines := h.lines + [NextLine(body, b, old', new')])
  {
    var all := body + [b];
    assert all[..|all|] == all && body[..|body|] == body;
    NumberSnoc(body, b, old', new');
  }

  lemma {:induction false} HunkGrows(header: string, start: nat, start': nat, body: seq<BodyLine>, b: BodyLine,
                                     kept: nat, old': nat, new': nat)
    requires kept + |body| < LINE_CAP ==> old' == start + OldCount(body) && new' == start' + NewCount(body)
    ensures var h := HunkAt(header, start, start', body, kept);
            HunkAt(header, start, start', body + [b], kept) ==
            if kept + |body| >= LINE_CAP then h else h.(lines := h.lines + [LineOf(b, old', new')])
  {
    if kept + |body| >= LINE_CAP {
      HunkFull(header, start, start', body, b, kept);
    } else {
      HunkTakes(header, start, start', body, b, kept);
    }
  }

  /** The hunk of a piece with one more line. */
  lemma {:induction false} PieceGrows(piece: Piece, line: string, kept: nat, old': nat, new': nat)
    requires kept + |piece.body| < LINE_CAP ==> NumbersAt(piece, old', new')
    ensures var h := HunkFrom(piece, kept);
            HunkFrom(Piece(piece.header, piece.body + [line]), kept) ==
            if kept + |piece.body| >= LINE_CAP then h
            else h.(lines := h.lines + [LineOf(AsBody(line), old', new')])
  {
    AsBodiesSnoc(piece.body, line);
    HunkGrows(piece.header, Starts(piece.header).0, Starts(piece.header).1, AsBodies(piece.body), AsBody(line), kept,
              old', new');
  }

  lemma {:induction false} HunksGrow(pieces: seq<Piece>, line: string)
    requires pieces != []
    ensures var n, kept := |pieces| - 1, Room(0, |AllLines(pieces[..|pieces| - 1])|);
            && HunksFrom(pieces) == HunksFrom(pieces[..n]) + [HunkFrom(pieces[n], kept)]
            && HunksFrom(Grown(pieces, line))
                 == HunksFrom(pieces[..n]) + [HunkFrom(Piece(pieces[n].header, pieces[n].body + [line]), kept)]
  {
    assert Grown(pieces, line)[..|pieces| - 1] == pieces[..|pieces| - 1];
  }

  lemma {:induction false} RetainLast(front: seq<DiffHunk>, hunk: DiffHunk, line: DiffLine)
    ensures Retain(front + [hunk], line) == front + [hunk.(lines := hunk.lines + [line])]
  {
  }

  /** The cap is reached behind all lines exactly when it is behind the last hunk's. */
  lemma {:induction false} CapReached(pieces: seq<Piece>)
    requires pieces != []
    ensures var n := |pieces| - 1;
            Room(0, |AllLines(pieces)|) >= LINE_CAP <==>
            Room(0, |AllLines(pieces[..n])|) + |pieces[n].body| >= LINE_CAP
  {
  }

  /** The hunks behind one more body line: it is retained below the cap, and not past it. */
  lemma {:induction false} BodyHunks(pieces: seq<Piece>, line: string, old': nat, new': nat)
    requires pieces != []
    requires Room(0, |AllLines(pieces)|) < LINE_CAP ==> NumbersAt(pieces[|pieces| - 1], old', new')
    ensures HunksFrom(pieces) != []
    ensures HunksFrom(Grown(pieces, line)) ==
            if Room(0, |AllLines(pieces)|) >= LINE_CAP then HunksFrom(pieces)
            else Retain(HunksFrom(pieces), LineOf(AsBody(line), old', new'))
  {
    var n := |pieces| - 1;
    var kept := Room(0, |AllLines(pieces[..n])|);
    HunksGrow(pieces, line);
    CapReached(pieces);
    PieceGrows(pieces[n], line, kept, old', new');
    RetainLast(HunksFrom(pieces[..n]), HunkFrom(pieces[n], kept), LineOf(AsBody(line), old', new'));
  }

  lemma {:induction false} NumbersMove(piece: Piece, line: string, old': nat, new': nat)
    requires NumbersAt(piece, old', new')
    ensures var b := AsBody(line);
            NumbersAt(Piece(piece.header, piece.body + [line]), old' + (if OnOld(b.typ) then 1 else 0),
                      new' + (if OnNew(b.typ) then 1 else 0))
  {
    AsBodiesSnoc(piece.body, line);
    CountSnoc(AsBodies(piece.body), AsBody(line));
  }

  /** The parser behind a body line of an open hunk: below the cap it is retained and numbered, past it only
      counted, and not even that when it looks like a file name. */
  function AfterBody(p: Parse, b: BodyLine): Parse
    requires p.hunks != []
  {
    var below := p.kept < LINE_CAP;
    p.(hunks := if below then Retain(p.hunks, LineOf(b, p.oldNo, p.newNo)) else p.hunks,
       oldNo := p.oldNo + (if below && OnOld(b.typ) then 1 else 0),
       newNo := p.newNo + (if below && OnNew(b.typ) then 1 else 0),
       added := p.added + (if b.typ == Add && (below || !StartsWith(b.text, "++")) then 1 else 0),
       removed := p.removed + (if b.typ == Del && (below || !StartsWith(b.text, "--")) then 1 else 0),
       kept := p.kept + (if below then 1 else 0))
  }

  lemma {:induction false} BodyLineParses(p: Parse, line: string)
    requires Wf(p) && p.inHunk && IsBody(line)
    ensures ParseLine(p, line) == AfterBody(p, AsBody(line))
  {
    if p.kept >= LINE_CAP { CountsBody(p, line); } else { KeepsBody(p, line); }
  }

  /** The last piece behind one more body line. */
  lemma {:induction false} LastGrown(pieces: seq<Piece>, line: string)
    requires pieces != []
    ensures var n := |pieces| - 1;
            |Grown(pieces, line)| == n + 1
            && Grown(pieces, line)[n] == Piece(pieces[n].header, pieces[n].body + [line])
  {
  }

  lemma {:induction false} BodyReadsHunks(p: Parse, lines: seq<string>, line: string)
    requires Wf(p) && ReadSo(p, lines) && Stands(p, lines) && IsBody(line) && Open(lines)
    ensures AfterBody(p, AsBody(line)).hunks == HunksFrom(Pieces(lines + [line]))
  {
    BodyHunks(Pieces(lines), line, p.oldNo, p.newNo);
    BodyPieces(lines, line);
  }

  lemma {:induction false} CountedAfter(p: Parse, all: seq<BodyLine>, b: BodyLine)
    requires p.hunks != [] && Counted(p, all)
    ensures Counted(AfterBody(p, b), all + [b])
  {
    CountsSnoc(all, b);
  }

  lemma {:induction false} BodyReadsCounts(p: Parse, lines: seq<string>, line: string)
    requires p.hunks != [] && Counted(p, AllLines(Pieces(lines))) && IsBody(line) && Open(lines)
    ensures Counted(AfterBody(p, AsBody(line)), AllLines(Pieces(lines + [line])))
  {
    BodyPieces(lines, line);
    AllLinesSnoc(Pieces(lines), line);
    CountedAfter(p, AllLines(Pieces(lines)), AsBody(line));
  }

  lemma {:induction false} BodyReads(p: Parse, lines: seq<string>, line: string)
    requires Wf(p) && ReadSo(p, lines) && Stands(p, lines) && IsBody(line) && Open(lines)
    ensures ReadSo(AfterBody(p, AsBody(line)), lines + [line])
  {
    BodyReadsHunks(p, lines, line);
    BodyReadsCounts(p, lines, line);
    BodyPieces(lines, line);
  }

  lemma {:induction false} BodyStands(p: Parse, lines: seq<string>, line: string)
    requires Wf(p) && ReadSo(p, lines) && Stands(p, lines) && IsBody(line) && Open(lines)
    ensures Stands(AfterBody(p, AsBody(line)), lines + [line])
  {
    var pieces := Pieces(lines);
    BodyPieces(lines, line);
    LastGrown(pieces, line);
    if p.kept < LINE_CAP { NumbersMove(pieces[|pieces| - 1], line, p.oldNo, p.newNo); }
  }

  lemma {:induction false} LineReads(p: Parse, lines: seq<string>, line: string)
    requires Wf(p) && ReadSo(p, lines) && Stands(p, lines)
    ensures ReadSo(ParseLine(p, line), lines + [line]) && Stands(ParseLine(p, line), lines + [line])
  {
    if OpensHunk(line) {
      HeaderReads(p, lines, line);
    } else if !IsBody(line) {
      OtherReads(p, lines, line);
    } else if Open(lines) {
      BodyLineParses(p, line);
      BodyReads(p, lines, line);
      BodyStands(p, lines, line);
    } else {
      StrayReads(p, lines, line);
    }
  }

  lemma {:induction false} LinesRead(lines: seq<string>)
    ensures ReadSo(ParseAll(START, lines), lines) && Stands(ParseAll(START, lines), lines)
  {
    if lines != [] {
      var front, last := lines[..|lines| - 1], lines[|lines| - 1];
      assert lines == front + [last];
      LinesRead(front);
      ParseSnoc(START, front, last);
      LineReads(ParseAll(START, front), front, last);
    }
  }

  lemma {:induction false} HunkOpensPiece(lines: seq<string>)
    ensures Pieces(lines) != [] <==> AnyHunk(lines)
    ensures Pieces(lines) == [] ==> !Open(lines)
  {
    if lines != [] {
      var front, last := lines[..|lines| - 1], lines[|lines| - 1];
      assert lines == front + [last];
      HunkOpensPiece(front);
      AnyHunkSnoc(front, last);
    }
  }

  /** For every text: nothing is returned exactly when no line speaks of binary files and none opens a hunk.
      Otherwise the result is the paths last named, the hunks with their lines kept and numbered up to 4000
      in all, the counts, and whether a line speaks of binary files. */
  lemma {:induction false} ParsesAnyText(patch: string)
    ensures var lines := Split(patch);
            var pieces := Pieces(lines);
            var all := AllLines(pieces);
            && (Parsed(patch) == None <==> !AnyBinary(lines) && !AnyHunk(lines))
            && (Parsed(patch).Some? ==>
                  Parsed(patch).value ==
                  FileDiff(OldPathIn(lines), NewPathIn(lines), HunksFrom(pieces), AddedIn(all, 0), RemovedIn(all, 0),
                           AnyBinary(lines), |all| >= 4000))
  {
    var lines := Split(patch);
    LinesRead(lines);
    HunkOpensPiece(lines);
  }

  /** A diff is marked binary if and only if a line of the text starts with one of the two phrases. */
  lemma {:induction false} BinaryIff(patch: string)
    ensures Parsed(patch).Some? && Parsed(patch).value.binary <==>
            exists i | 0 <= i < |Split(patch)| ::
              "Binary files " <= Split(patch)[i] || "GIT binary patch" <= Split(patch)[i]
  {
    ParsesAnyText(patch);
    var lines := Split(patch);
    assert forall i | 0 <= i < |lines| ::
      IsBinary(lines[i]) <==> "Binary files " <= lines[i] || "GIT binary patch" <= lines[i];
  }

  // ---------- What the two matched lines look like ----------

  lemma {:induction false} Starting(s: string, prefix: string)
    requires StartsWith(s, prefix)
    ensures s == prefix + s[|prefix|..]
  {
  }

  lemma {:induction false} GitFolds(rest: string, at: nat)
    requires LastIndexOf(rest, " b/") == Some(at) && NoTerminator(rest)
    ensures MatchGit("diff --git a/" + rest) == Some((rest[..at], rest[at + 3..]))
  {
    Dropped("diff --git a/", rest);
  }

  lemma {:induction false} GitIsMatched(old': string, new': string)
    requires ReadablePaths(old', new')
    ensures MatchGit("diff --git a/" + (old' + (" b/" + new'))) == Some((old', new'))
  {
    var rest := old' + (" b/" + new');
    SplitsWhereJoined(old', new');
    TerminatorOfParts(old', new');
    GitFolds(rest, |old'|);
    assert rest[..|old'|] == old' && rest[|old'| + 3..] == new';
  }

  lemma {:induction false} GitUnfolds(line: string)
    requires MatchGit(line).Some?
    ensures var (old', new') := MatchGit(line).value;
            var rest := old' + (" b/" + new');
            line == "diff --git a/" + rest && NoTerminator(rest) && LastIndexOf(rest, " b/") == Some(|old'|)
  {
    var rest := line[13..];
    var at := LastIndexOf(rest, " b/").value;
    Starting(line, "diff --git a/");
    assert rest == rest[..at] + (" b/" + rest[at + 3..]);
  }

  lemma {:induction false} MatchedIsGit(line: string)
    requires MatchGit(line).Some?
    ensures var (old', new') := MatchGit(line).value;
            line == "diff --git a/" + (old' + (" b/" + new')) && ReadablePaths(old', new')
  {
    var (old', new') := MatchGit(line).value;
    GitUnfolds(line);
    SplitsWhereJoined(old', new');
    TerminatorOfParts(old', new');
  }

  /** The paths of a `diff --git` line are matched if and only if they are what it consists of, without line
      terminators and the second without ` b/`. */
  lemma {:induction false} GitMatchIff(line: string, old': string, new': string)
    ensures MatchGit(line) == Some((old', new')) <==>
            line == "diff --git a/" + (old' + (" b/" + new')) && ReadablePaths(old', new')
  {
    if ReadablePaths(old', new') { GitIsMatched(old', new'); }
    if MatchGit(line).Some? { MatchedIsGit(line); }
  }

  /** `(\d+)(?:,(\d+))?`: digits that say `n`, and perhaps a comma and more digits. */
  predicate RangeOf(s: string, n: nat, digits: string, count: string) {
    && digits != "" && Decimals.AllDigits(digits) && Decimals.Read(digits) == n
    && s == digits + count
    && (count == "" || (count[0] == ',' && |count| > 1 && Decimals.AllDigits(count[1..])))
  }

  ghost predicate IsRange(s: string, n: nat) {
    exists digits, count :: RangeOf(s, n, digits, count)
  }

  /** A range before a blank is matched. */
  lemma {:induction false} RangeIsMatched(s: string, n: nat, rest: string)
    requires IsRange(s, n) && rest != "" && rest[0] == ' '
    ensures MatchRange(s + rest) == Some((n, rest))
  {
    var digits, count :| RangeOf(s, n, digits, count);
    assert s + rest == digits + (count + rest);
    Decimals.LeadingPrefix(digits, count + rest);
    if count != "" {
      assert (count + rest)[0] == ',' && (count + rest)[1..] == count[1..] + rest;
      Decimals.LeadingPrefix(count[1..], rest);
      assert count == "," + count[1..];
      assert StartsWith(count + rest, ",");
    } else {
      assert count + rest == rest;
      if StartsWith(rest, ",") { FirstChar(rest, ","); }
    }
  }

  lemma {:induction false} CountedIsRange(s: string, k: nat, l: nat)
    requires 0 < k < |s| && Decimals.AllDigits(s[..k]) && s[k] == ','
    requires 0 < l && k + 1 + l <= |s| && Decimals.AllDigits(s[k + 1..k + 1 + l])
    ensures IsRange(s[..k + 1 + l], Decimals.Read(s[..k]))
  {
    var count := s[k..k + 1 + l];
    assert count[1..] == s[k + 1..k + 1 + l] && s[..k + 1 + l] == s[..k] + count;
    assert RangeOf(s[..k + 1 + l], Decimals.Read(s[..k]), s[..k], count);
  }

  lemma {:induction false} CountAt(s: string, k: nat, l: nat)
    requires k <= |s| && StartsWith(s[k..], ",") && l == Decimals.Leading(s[k..][1..])
    ensures k < |s| && s[k] == ',' && k + 1 + l <= |s| && Decimals.AllDigits(s[k + 1..k + 1 + l])
    ensures s[k..][1 + l..] == s[k + 1 + l..]
  {
    assert s[k..][1..] == s[k + 1..] && s[k + 1..][..l] == s[k + 1..k + 1 + l];
  }

  lemma {:induction false} DigitsAreRange(s: string, k: nat)
    requires 0 < k <= |s| && Decimals.AllDigits(s[..k])
    ensures IsRange(s[..k], Decimals.Read(s[..k]))
  {
    assert RangeOf(s[..k], Decimals.Read(s[..k]), s[..k], "");
  }

  /** How far a match goes: `k` digits, and behind a comma `l` more. */
  lemma {:induction false} RangeUnfolds(s: string) returns (k: nat, l: nat)
    requires MatchRange(s).Some?
    ensures 0 < k <= |s| && Decimals.AllDigits(s[..k])
    ensures l > 0 ==> StartsWith(s[k..], ",") && l == Decimals.Leading(s[k..][1..])
    ensures MatchRange(s).value == (Decimals.Read(s[..k]), if l > 0 then s[k..][1 + l..] else s[k..])
  {
    k := Decimals.Leading(s);
    l := if StartsWith(s[k..], ",") then Decimals.Leading(s[k..][1..]) else 0;
  }

  lemma {:induction false} TakenApart(s: string, m: nat, rest: string)
    requires m <= |s| && rest == s[m..]
    ensures s == s[..m] + rest
  {
  }

  /** What is matched is a range. */
  lemma {:induction false} MatchedIsRange(s: string) returns (r: string)
    requires MatchRange(s).Some?
    ensures s == r + MatchRange(s).value.1 && IsRange(r, MatchRange(s).value.0)
  {
    var k, l := RangeUnfolds(s);
    var m := k;
    if l > 0 {
      CountAt(s, k, l);
      CountedIsRange(s, k, l);
      m := k + 1 + l;
    } else {
      DigitsAreRange(s, k);
    }
    r := s[..m];
    TakenApart(s, m, MatchRange(s).value.1);
  }

  /** `@@ -range +range @@section`. */
  predicate HeaderOf(line: string, r: string, r': string, section: string) {
    line == "@@ -" + (r + (" +" + (r' + (" @@" + section))))
  }

  lemma {:induction false} HeaderIsMatched(line: string, r: string, r': string, section: string, old': nat, new': nat)
    requires HeaderOf(line, r, r', section) && IsRange(r, old') && IsRange(r', new') && NoTerminator(section)
    ensures MatchHunk(line) == Some((old', new'))
  {
    var tail := " @@" + section;
    RangeIsMatched(r', new', tail);
    RangeIsMatched(r, old', " +" + (r' + tail));
    Dropped("@@ -", r + (" +" + (r' + tail)));
    Dropped(" +", r' + tail);
    Dropped(" @@", section);
  }

  /** The tests a hunk header has passed. */
  lemma {:induction false} HunkUnfolds(line: string) returns (first: string, second: string, section: string)
    requires OpensHunk(line)
    ensures line == "@@ -" + first && MatchRange(first).Some? && MatchRange(first).value.1 == " +" + second
    ensures MatchRange(second).Some? && MatchRange(second).value.1 == " @@" + section && NoTerminator(section)
    ensures MatchHunk(line).value == (MatchRange(first).value.0, MatchRange(second).value.0)
  {
    first := line[4..];
    Starting(line, "@@ -");
    var rest := MatchRange(first).value.1;
    Starting(rest, " +");
    second := rest[2..];
    var tail := MatchRange(second).value.1;
    Starting(tail, " @@");
    section := tail[3..];
  }

  /** The parts a matched header consists of. */
  lemma {:induction false} MatchedIsHeader(line: string, first: string, second: string, section: string)
    returns (r: string, r': string)
    requires line == "@@ -" + first && MatchRange(first).Some? && MatchRange(first).value.1 == " +" + second
    requires MatchRange(second).Some? && MatchRange(second).value.1 == " @@" + section
    ensures HeaderOf(line, r, r', section)
    ensures IsRange(r, MatchRange(first).value.0) && IsRange(r', MatchRange(second).value.0)
  {
    r := MatchedIsRange(first);
    r' := MatchedIsRange(second);
  }

  /** A line opens a hunk, with these starts, if and only if it is a header that says them. */
  lemma {:induction false} HunkMatchIff(line: string, old': nat, new': nat)
    ensures MatchHunk(line) == Some((old', new')) <==>
            exists r, r', section ::
              HeaderOf(line, r, r', section) && IsRange(r, old') && IsRange(r', new') && NoTerminator(section)
  {
    if r, r', section :|
      HeaderOf(line, r, r', section) && IsRange(r, old') && IsRange(r', new') && NoTerminator(section)
    {
      HeaderIsMatched(line, r, r', section, old', new');
    }
    if MatchHunk(line) == Some((old', new')) {
      var first, second, section := HunkUnfolds(line);
      var r, r' := MatchedIsHeader(line, first, second, section);
    }
  }
}
