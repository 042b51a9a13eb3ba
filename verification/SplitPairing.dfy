/**
 Side-by-side rows of a hunk. One pairing on line positions serves both implementations: `SplitRows` carries
 the lines themselves, `PairIndexes` the indexes of the highlighted texts of the two sides, and row by row both
 show the same.
 */
module SplitPairing {
  import opened Wrappers
  import opened Sequences
  import opened PatchParser

  // ---------- The pairing on positions ----------

  datatype PosRow = PosRow(left: Option<nat>, right: Option<nat>)

  /** Pending deletions, each on a row of its own. */
  function Flush(pending: seq<nat>): seq<PosRow> {
    seq(|pending|, k requires 0 <= k < |pending| => PosRow(Some(pending[k]), None))
  }

  /** The rows of the lines from position `k` on, with deletions waiting for additions. */
  function Pair(lines: seq<DiffLine>, k: nat, pending: seq<nat>): seq<PosRow>
    requires k <= |lines|
    decreases |lines| - k
  {
    if k == |lines| then Flush(pending)
    else
      match lines[k].typ
      case Del => Pair(lines, k + 1, pending + [k])
      case Add =>
        if pending != [] then [PosRow(Some(pending[0]), Some(k))] + Pair(lines, k + 1, pending[1..])
        else [PosRow(None, Some(k))] + Pair(lines, k + 1, [])
      case Ctx => Flush(pending) + [PosRow(Some(k), Some(k))] + Pair(lines, k + 1, [])
      case Meta => Flush(pending) + [PosRow(Some(k), None)] + Pair(lines, k + 1, [])
  }

  function Rows(lines: seq<DiffLine>): seq<PosRow> {
    Pair(lines, 0, [])
  }

  // ---------- The columns ----------

  function Cell(at: Option<nat>): seq<nat> {
    if at.Some? then [at.value] else []
  }

  function LeftColumn(rows: seq<PosRow>): seq<nat> {
    if rows == [] then [] else Cell(rows[0].left) + LeftColumn(rows[1..])
  }

  function RightColumn(rows: seq<PosRow>): seq<nat> {
    if rows == [] then [] else Cell(rows[0].right) + RightColumn(rows[1..])
  }

  /** A column of cells, or the text of a side. */
  datatype Side = LeftCells | RightCells | OldText | NewText

  predicate On(side: Side, line: DiffLine) {
    match side
    case LeftCells => line.typ != Add
    case RightCells => line.typ == Add || line.typ == Ctx
    case OldText => line.typ == Del || line.typ == Ctx
    case NewText => line.typ == Add || line.typ == Ctx
  }

  /** The positions from `k` on whose lines are on a side, in order. */
  function Positions(lines: seq<DiffLine>, k: nat, side: Side): seq<nat>
    requires k <= |lines|
    decreases |lines| - k
  {
    if k == |lines| then [] else (if On(side, lines[k]) then [k] else []) + Positions(lines, k + 1, side)
  }

  lemma {:induction false} LeftAppend(a: seq<PosRow>, b: seq<PosRow>)
    ensures LeftColumn(a + b) == LeftColumn(a) + LeftColumn(b)
    ensures RightColumn(a + b) == RightColumn(a) + RightColumn(b)
  {
    if a == [] {
      assert a + b == b;
    } else {
      var row, rest := a[0], a[1..];
      assert a == [row] + rest;
      assert a + b == [row] + (rest + b);
      LeftAppend(rest, b);
      Reassociate(Cell(row.left), LeftColumn(rest), LeftColumn(b));
      Reassociate(Cell(row.right), RightColumn(rest), RightColumn(b));
    }
  }

  lemma {:induction false} FlushColumns(pending: seq<nat>)
    ensures LeftColumn(Flush(pending)) == pending && RightColumn(Flush(pending)) == []
  {
    if pending != [] {
      assert Flush(pending)[1..] == Flush(pending[1..]);
      FlushColumns(pending[1..]);
    }
  }

  /** The columns of flushed deletions, a row, and what follows. */
  lemma {:induction false} FlushedColumns(pending: seq<nat>, row: PosRow, rest: seq<PosRow>)
    ensures LeftColumn(Flush(pending) + [row] + rest) == pending + (Cell(row.left) + LeftColumn(rest))
    ensures RightColumn(Flush(pending) + [row] + rest) == Cell(row.right) + RightColumn(rest)
  {
    FlushColumns(pending);
    assert Flush(pending) + [row] + rest == Flush(pending) + ([row] + rest);
    LeftAppend(Flush(pending), [row] + rest);
  }

  /** The columns of a pairing, given those of the lines after position `k`. */
  ghost predicate ColumnsFrom(lines: seq<DiffLine>, k: nat, pending: seq<nat>)
    requires k <= |lines|
  {
    && LeftColumn(Pair(lines, k, pending)) == pending + Positions(lines, k, LeftCells)
    && RightColumn(Pair(lines, k, pending)) == Positions(lines, k, RightCells)
  }

  lemma {:induction false} ShownColumns(lines: seq<DiffLine>, k: nat, pending: seq<nat>)
    requires k < |lines| && (lines[k].typ == Ctx || lines[k].typ == Meta)
    requires ColumnsFrom(lines, k + 1, [])
    ensures ColumnsFrom(lines, k, pending)
  {
    var row := PosRow(Some(k), if lines[k].typ == Ctx then Some(k) else None);
    var rest := Pair(lines, k + 1, []);
    assert Pair(lines, k, pending) == Flush(pending) + [row] + rest;
    FlushedColumns(pending, row, rest);
    var left, right := Positions(lines, k + 1, LeftCells), Positions(lines, k + 1, RightCells);
    assert [] + left == left;
    assert Positions(lines, k, LeftCells) == Cell(row.left) + left;
    assert Positions(lines, k, RightCells) == Cell(row.right) + right;
  }

  lemma {:induction false} PairColumns(lines: seq<DiffLine>, k: nat, pending: seq<nat>)
    requires k <= |lines|
    ensures ColumnsFrom(lines, k, pending)
    decreases |lines| - k
  {
    if k == |lines| {
      FlushColumns(pending);
    } else if lines[k].typ == Del {
      PairColumns(lines, k + 1, pending + [k]);
      assert pending + [k] + Positions(lines, k + 1, LeftCells) == pending + Positions(lines, k, LeftCells);
    } else if lines[k].typ == Add {
      PairColumns(lines, k + 1, if pending != [] then pending[1..] else []);
    } else {
      PairColumns(lines, k + 1, []);
      ShownColumns(lines, k, pending);
    }
  }

  /** Read downwards, the left column is exactly the deleted, context and meta lines in order, the right
      column exactly the added and context lines. */
  lemma {:induction false} ColumnsAreSides(lines: seq<DiffLine>)
    ensures LeftColumn(Rows(lines)) == Positions(lines, 0, LeftCells)
    ensures RightColumn(Rows(lines)) == Positions(lines, 0, RightCells)
  {
    PairColumns(lines, 0, []);
  }

  // ---------- A block of deletions and additions ----------

  predicate AllOf(lines: seq<DiffLine>, from: nat, to: nat, typ: LineType)
    requires from <= to <= |lines|
  {
    forall k | from <= k < to :: lines[k].typ == typ
  }

  /** `d` deletions from position `from` beside `a` additions from position `k`, as long as each lasts. */
  function ChangeRows(from: nat, d: nat, k: nat, a: nat): seq<PosRow> {
    seq(Max(d, a), r requires 0 <= r < Max(d, a) =>
          PosRow(if r < d then Some(from + r) else None, if r < a then Some(k + r) else None))
  }

  lemma {:induction false} SpanCons(from: nat, d: nat)
    requires d > 0
    ensures Span(from, d) != [] && Span(from, d)[0] == from && Span(from, d)[1..] == Span(from + 1, d - 1)
  {
  }

  lemma {:induction false} DelsWait(lines: seq<DiffLine>, k: nat, pending: seq<nat>, d: nat)
    requires k + d <= |lines| && AllOf(lines, k, k + d, Del)
    ensures Pair(lines, k, pending) == Pair(lines, k + d, pending + Span(k, d))
    decreases d
  {
    if d == 0 {
      assert pending + Span(k, 0) == pending;
    } else {
      DelsWait(lines, k + 1, pending + [k], d - 1);
      assert pending + [k] + Span(k + 1, d - 1) == pending + Span(k, d);
    }
  }

  /** The end of a change: the lines run out, or a context or meta line follows. */
  predicate ChangeEnds(lines: seq<DiffLine>, k: nat)
    requires k <= |lines|
  {
    k == |lines| || lines[k].typ == Ctx || lines[k].typ == Meta
  }

  /** From position `k` on, `a` additions are paired with the `d` deletions waiting from position `from`. */
  ghost predicate Takes(lines: seq<DiffLine>, k: nat, from: nat, d: nat, a: nat)
    requires k + a <= |lines|
  {
    Pair(lines, k, Span(from, d)) == ChangeRows(from, d, k, a) + Pair(lines, k + a, [])
  }

  lemma {:induction false} PairedTakes(lines: seq<DiffLine>, k: nat, from: nat, d: nat, a: nat)
    requires k + a <= |lines| && d > 0 && a > 0 && lines[k].typ == Add
    requires Takes(lines, k + 1, from + 1, d - 1, a - 1)
    ensures Takes(lines, k, from, d, a)
  {
    SpanCons(from, d);
    Reassociate([PosRow(Some(from), Some(k))], ChangeRows(from + 1, d - 1, k + 1, a - 1), Pair(lines, k + a, []));
  }

  lemma {:induction false} AloneTakes(lines: seq<DiffLine>, k: nat, from: nat, a: nat)
    requires k + a <= |lines| && a > 0 && lines[k].typ == Add
    requires Takes(lines, k + 1, from, 0, a - 1)
    ensures Takes(lines, k, from, 0, a)
  {
    assert Span(from, 0) == [];
    Reassociate([PosRow(None, Some(k))], ChangeRows(from, 0, k + 1, a - 1), Pair(lines, k + a, []));
  }

  /** Additions take the deletions still waiting, then stand alone; deletions left over are flushed. */
  lemma {:induction false} AddsTake(lines: seq<DiffLine>, k: nat, from: nat, d: nat, a: nat)
    requires k + a <= |lines| && AllOf(lines, k, k + a, Add) && ChangeEnds(lines, k + a)
    ensures Takes(lines, k, from, d, a)
    decreases a
  {
    if a == 0 {
    } else if d > 0 {
      AddsTake(lines, k + 1, from + 1, d - 1, a - 1);
      PairedTakes(lines, k, from, d, a);
    } else {
      AddsTake(lines, k + 1, from, 0, a - 1);
      AloneTakes(lines, k, from, a);
    }
  }

  /** A block of D deletions followed by A additions, standing on its own, takes max(D, A) rows, the r-th
      deletion beside the r-th addition. */
  lemma {:induction false} BlockTakesMax(lines: seq<DiffLine>, from: nat, d: nat, a: nat)
    requires from + d + a <= |lines|
    requires AllOf(lines, from, from + d, Del) && AllOf(lines, from + d, from + d + a, Add)
    requires ChangeEnds(lines, from + d + a)
    ensures |ChangeRows(from, d, from + d, a)| == Max(d, a)
    ensures Pair(lines, from, []) == ChangeRows(from, d, from + d, a) + Pair(lines, from + d + a, [])
  {
    DelsWait(lines, from, [], d);
    assert [] + Span(from, d) == Span(from, d);
    AddsTake(lines, from + d, from, d, a);
  }

  // ---------- The first implementation: lines ----------

  datatype SplitRow = SplitRow(left: Option<DiffLine>, right: Option<DiffLine>)

  function LineAt(lines: seq<DiffLine>, at: Option<nat>): Option<DiffLine> {
    if at.Some? && at.value < |lines| then Some(lines[at.value]) else None
  }

  /** Rows of positions as rows of lines. */
  function AsLines(lines: seq<DiffLine>, rows: seq<PosRow>): seq<SplitRow> {
    seq(|rows|, r requires 0 <= r < |rows| => SplitRow(LineAt(lines, rows[r].left), LineAt(lines, rows[r].right)))
  }

  method FlushRows(ghost lines: seq<DiffLine>, rows: seq<SplitRow>, pendingDels: seq<DiffLine>,
                   ghost done: seq<PosRow>, ghost waiting: seq<nat>) returns (all: seq<SplitRow>)
    requires rows == AsLines(lines, done) && |waiting| == |pendingDels|
    requires forall k | 0 <= k < |waiting| :: waiting[k] < |lines| && lines[waiting[k]] == pendingDels[k]
    ensures all == AsLines(lines, done + Flush(waiting))
  {
    all := rows;
    for k := 0 to |pendingDels|
      invariant all == AsLines(lines, done + Flush(waiting[..k]))
    {
      all := all + [SplitRow(Some(pendingDels[k]), None)];
      assert done + Flush(waiting[..k + 1]) == done + Flush(waiting[..k]) + [PosRow(Some(waiting[k]), None)];
    }
    assert waiting[..|waiting|] == waiting;
  }

  method SplitRows(lines: seq<DiffLine>) returns (rows: seq<SplitRow>)
    ensures rows == AsLines(lines, Rows(lines))
  {
    rows := [];
    var pendingDels: seq<DiffLine> := [];
    ghost var done: seq<PosRow>, waiting: seq<nat> := [], [];
    for i := 0 to |lines|
      invariant Rows(lines) == done + Pair(lines, i, waiting)
      invariant rows == AsLines(lines, done)
      invariant |waiting| == |pendingDels|
      invariant forall k | 0 <= k < |waiting| :: waiting[k] < i && lines[waiting[k]] == pendingDels[k]
    {
      var line := lines[i];
      match line.typ
      case Del =>
        pendingDels := pendingDels + [line];
        waiting := waiting + [i];
      case Add =>
        if |pendingDels| > 0 {
          rows := rows + [SplitRow(Some(pendingDels[0]), Some(line))];
          done := done + [PosRow(Some(waiting[0]), Some(i))];
          pendingDels, waiting := pendingDels[1..], waiting[1..];
        } else {
          rows := rows + [SplitRow(None, Some(line))];
          done := done + [PosRow(None, Some(i))];
        }
      case _ =>
        rows := FlushRows(lines, rows, pendingDels, done, waiting);
        done := done + Flush(waiting);
        pendingDels, waiting := [], [];
        rows := rows + [SplitRow(Some(line), if line.typ == Ctx then Some(line) else None)];
        done := done + [PosRow(Some(i), if line.typ == Ctx then Some(i) else None)];
    }
    rows := FlushRows(lines, rows, pendingDels, done, waiting);
  }

  // ---------- The second implementation: indexes ----------

  /** How many of the first `k` lines are on a side: the index line `k` has among them. */
  function CountBefore(lines: seq<DiffLine>, k: nat, side: Side): nat
    requires k <= |lines|
  {
    if k == 0 then 0 else CountBefore(lines, k - 1, side) + if On(side, lines[k - 1]) then 1 else 0
  }

  /** The text of the old side, or of the new one. */
  function SideTexts(lines: seq<DiffLine>, k: nat, side: Side): (texts: seq<string>)
    requires k <= |lines|
    ensures |texts| == CountBefore(lines, k, side)
  {
    if k == 0 then []
    else SideTexts(lines, k - 1, side) + if On(side, lines[k - 1]) then [lines[k - 1].text] else []
  }

  datatype IndexRow = IndexRow(left: Option<nat>, right: Option<nat>, leftNo: nat, rightNo: nat)

  /** Where a line is in a side's text, if it is on that side. */
  function IndexIn(lines: seq<DiffLine>, at: Option<nat>, side: Side): Option<nat> {
    if at.Some? && at.value < |lines| && On(side, lines[at.value]) then Some(CountBefore(lines, at.value, side))
    else None
  }

  function OldNoAt(lines: seq<DiffLine>, at: Option<nat>): nat {
    if at.Some? && at.value < |lines| then lines[at.value].oldNo else 0
  }

  /** The new number beside a row: the right line's, or for a line shown on the left alone, 0, or what the
      line itself carries when it is no deletion. */
  function NewNoOf(lines: seq<DiffLine>, row: PosRow): nat {
    if row.right.Some? && row.right.value < |lines| then lines[row.right.value].newNo
    else if row.left.Some? && row.left.value < |lines| && lines[row.left.value].typ != Del then
      lines[row.left.value].newNo
    else 0
  }

  /** A row of positions as a row of indexes: meta lines, on neither side, leave both cells empty. */
  function AsIndex(lines: seq<DiffLine>, row: PosRow): IndexRow {
    IndexRow(IndexIn(lines, row.left, OldText), IndexIn(lines, row.right, NewText),
             OldNoAt(lines, row.left), NewNoOf(lines, row))
  }

  function AsIndexes(lines: seq<DiffLine>, rows: seq<PosRow>): seq<IndexRow> {
    seq(|rows|, r requires 0 <= r < |rows| => AsIndex(lines, rows[r]))
  }

  /** The index maps hold every line so far on their side. A line's identity is its position. */
  ghost predicate Indexed(lines: seq<DiffLine>, n: nat, idx: map<nat, nat>, side: Side)
    requires n <= |lines|
  {
    && (forall k: nat :: k in idx <==> k < n && On(side, lines[k]))
    && (forall k: nat | k in idx :: idx[k] == CountBefore(lines, k, side))
  }

  method IndexSides(lines: seq<DiffLine>)
    returns (oldRaw: seq<string>, newRaw: seq<string>, oldIdx: map<nat, nat>, newIdx: map<nat, nat>)
    ensures oldRaw == SideTexts(lines, |lines|, OldText) && newRaw == SideTexts(lines, |lines|, NewText)
    ensures Indexed(lines, |lines|, oldIdx, OldText) && Indexed(lines, |lines|, newIdx, NewText)
  {
    oldRaw, newRaw, oldIdx, newIdx := [], [], map[], map[];
    for k := 0 to |lines|
      invariant oldRaw == SideTexts(lines, k, OldText) && newRaw == SideTexts(lines, k, NewText)
      invariant Indexed(lines, k, oldIdx, OldText) && Indexed(lines, k, newIdx, NewText)
    {
      var line := lines[k];
      if line.typ == Del || line.typ == Ctx {
        oldIdx := oldIdx[k := |oldRaw|];
        oldRaw := oldRaw + [line.text];
      }
      if line.typ == Add || line.typ == Ctx {
        newIdx := newIdx[k := |newRaw|];
        newRaw := newRaw + [line.text];
      }
    }
  }

  function Get(idx: map<nat, nat>, k: nat): Option<nat> {
    if k in idx then Some(idx[k]) else None
  }

  /** The row of an addition, beside the first deletion waiting, if any. */
  method AddedRow(lines: seq<DiffLine>, oldIdx: map<nat, nat>, newIdx: map<nat, nat>, pendingDels: seq<nat>, i: nat)
    returns (row: IndexRow)
    requires Indexed(lines, |lines|, oldIdx, OldText) && Indexed(lines, |lines|, newIdx, NewText)
    requires i < |lines| && forall k | 0 <= k < |pendingDels| :: pendingDels[k] < i
    ensures row == AsIndex(lines, PosRow(if pendingDels != [] then Some(pendingDels[0]) else None, Some(i)))
  {
    if |pendingDels| > 0 {
      var paired := pendingDels[0];
      return IndexRow(Get(oldIdx, paired), Get(newIdx, i), lines[paired].oldNo, lines[i].newNo);
    }
    return IndexRow(None, Get(newIdx, i), 0, lines[i].newNo);
  }

  /** The row of a context or meta line. */
  method ShownRow(lines: seq<DiffLine>, oldIdx: map<nat, nat>, newIdx: map<nat, nat>, i: nat) returns (row: IndexRow)
    requires Indexed(lines, |lines|, oldIdx, OldText) && Indexed(lines, |lines|, newIdx, NewText)
    requires i < |lines| && (lines[i].typ == Ctx || lines[i].typ == Meta)
    ensures row == AsIndex(lines, PosRow(Some(i), if lines[i].typ == Ctx then Some(i) else None))
  {
    row := IndexRow(Get(oldIdx, i), Get(newIdx, i), lines[i].oldNo, lines[i].newNo);
  }

  function AddPos(pending: seq<nat>, i: nat): PosRow {
    PosRow(if pending != [] then Some(pending[0]) else None, Some(i))
  }

  function ShownPos(lines: seq<DiffLine>, i: nat): PosRow
    requires i < |lines|
  {
    PosRow(Some(i), if lines[i].typ == Ctx then Some(i) else None)
  }

  /** The rows so far stand for `done`, which the lines from `i` on, with `pending` waiting, complete. */
  ghost predicate PairedTo(lines: seq<DiffLine>, i: nat, pending: seq<nat>, done: seq<PosRow>, rows: seq<IndexRow>)
    requires i <= |lines|
  {
    && Rows(lines) == done + Pair(lines, i, pending)
    && rows == AsIndexes(lines, done)
    && forall k | 0 <= k < |pending| :: pending[k] < i && lines[pending[k]].typ == Del
  }

  lemma {:induction false} DelPaired(lines: seq<DiffLine>, i: nat, pending: seq<nat>, done: seq<PosRow>,
                                     rows: seq<IndexRow>)
    requires i < |lines| && lines[i].typ == Del && PairedTo(lines, i, pending, done, rows)
    ensures PairedTo(lines, i + 1, pending + [i], done, rows)
  {
  }

  lemma {:induction false} AddPaired(lines: seq<DiffLine>, i: nat, pending: seq<nat>, done: seq<PosRow>,
                                     rows: seq<IndexRow>, row: IndexRow)
    requires i < |lines| && lines[i].typ == Add && PairedTo(lines, i, pending, done, rows)
    requires row == AsIndex(lines, AddPos(pending, i))
    ensures PairedTo(lines, i + 1, if pending != [] then pending[1..] else [],
                     done + [AddPos(pending, i)], rows + [row])
  {
  }

  lemma {:induction false} ShownPaired(lines: seq<DiffLine>, i: nat, pending: seq<nat>, done: seq<PosRow>,
                                       rows: seq<IndexRow>, flushed: seq<IndexRow>, row: IndexRow)
    requires i < |lines| && lines[i].typ != Del && lines[i].typ != Add && PairedTo(lines, i, pending, done, rows)
    requires flushed == AsIndexes(lines, done + Flush(pending)) && row == AsIndex(lines, ShownPos(lines, i))
    ensures PairedTo(lines, i + 1, [], done + Flush(pending) + [ShownPos(lines, i)], flushed + [row])
  {
  }

  method FlushIndexes(lines: seq<DiffLine>, oldIdx: map<nat, nat>, rows: seq<IndexRow>, pendingDels: seq<nat>,
                      ghost done: seq<PosRow>) returns (all: seq<IndexRow>)
    requires Indexed(lines, |lines|, oldIdx, OldText) && rows == AsIndexes(lines, done)
    requires forall k | 0 <= k < |pendingDels| :: pendingDels[k] < |lines| && lines[pendingDels[k]].typ == Del
    ensures all == AsIndexes(lines, done + Flush(pendingDels))
  {
    all := rows;
    for k := 0 to |pendingDels|
      invariant all == AsIndexes(lines, done + Flush(pendingDels[..k]))
    {
      var d := pendingDels[k];
      all := all + [IndexRow(Get(oldIdx, d), None, lines[d].oldNo, 0)];
      assert done + Flush(pendingDels[..k + 1]) == done + Flush(pendingDels[..k]) + [PosRow(Some(d), None)];
    }
    assert pendingDels[..|pendingDels|] == pendingDels;
  }

  /** `prepareHunk`'s pairing loop. */
  method PairIndexes(lines: seq<DiffLine>, oldIdx: map<nat, nat>, newIdx: map<nat, nat>) returns (rows: seq<IndexRow>)
    requires Indexed(lines, |lines|, oldIdx, OldText) && Indexed(lines, |lines|, newIdx, NewText)
    ensures rows == AsIndexes(lines, Rows(lines))
  {
    rows := [];
    var pendingDels: seq<nat> := [];
    ghost var done: seq<PosRow> := [];
    assert AsIndexes(lines, []) == [];
    for i := 0 to |lines|
      invariant PairedTo(lines, i, pendingDels, done, rows)
    {
      if lines[i].typ == Del {
        DelPaired(lines, i, pendingDels, done, rows);
        pendingDels := pendingDels + [i];
      } else if lines[i].typ == Add {
        var row := AddedRow(lines, oldIdx, newIdx, pendingDels, i);
        AddPaired(lines, i, pendingDels, done, rows, row);
        done := done + [AddPos(pendingDels, i)];
        rows := rows + [row];
        pendingDels := if |pendingDels| > 0 then pendingDels[1..] else [];
      } else {
        ghost var before := rows;
        rows := FlushIndexes(lines, oldIdx, rows, pendingDels, done);
        var row := ShownRow(lines, oldIdx, newIdx, i);
        ShownPaired(lines, i, pendingDels, done, before, rows, row);
        done := done + Flush(pendingDels) + [ShownPos(lines, i)];
        rows := rows + [row];
        pendingDels := [];
      }
    }
    rows := FlushIndexes(lines, oldIdx, rows, pendingDels, done);
  }

  // ---------- The two agree ----------

  /** An index row shows, in the side texts, what a line row shows: a line on a side appears at its index,
      a meta line as an empty cell. */
  ghost predicate Shows(index: Option<nat>, line: Option<DiffLine>, texts: seq<string>) {
    match line
    case None => index == None
    case Some(l) =>
      if l.typ == Meta then index == None
      else index.Some? && index.value < |texts| && texts[index.value] == l.text
  }

  lemma {:induction false} TextAtIndex(lines: seq<DiffLine>, n: nat, k: nat, side: Side)
    requires k < n <= |lines| && On(side, lines[k])
    ensures CountBefore(lines, k, side) < |SideTexts(lines, n, side)|
    ensures SideTexts(lines, n, side)[CountBefore(lines, k, side)] == lines[k].text
  {
    if k < n - 1 { TextAtIndex(lines, n - 1, k, side); }
  }

  /** On the left no addition, on the right neither a deletion nor a remark, and no context line alone. */
  predicate Sided(lines: seq<DiffLine>, row: PosRow) {
    && (row.left.Some? ==> row.left.value < |lines| && On(LeftCells, lines[row.left.value]))
    && (row.right.Some? ==> row.right.value < |lines| && On(RightCells, lines[row.right.value]))
    && (row.left.Some? && row.right.None? ==> lines[row.left.value].typ != Ctx)
  }

  predicate AllSided(lines: seq<DiffLine>, rows: seq<PosRow>) {
    forall r | 0 <= r < |rows| :: Sided(lines, rows[r])
  }

  lemma {:induction false} PairSides(lines: seq<DiffLine>, k: nat, pending: seq<nat>)
    requires k <= |lines|
    requires forall i | 0 <= i < |pending| :: pending[i] < |lines| && lines[pending[i]].typ == Del
    ensures AllSided(lines, Pair(lines, k, pending))
    decreases |lines| - k
  {
    if k < |lines| {
      if lines[k].typ == Del {
        PairSides(lines, k + 1, pending + [k]);
      } else if lines[k].typ == Add {
        var left := if pending != [] then pending[1..] else [];
        var row := PosRow(if pending != [] then Some(pending[0]) else None, Some(k));
        PairSides(lines, k + 1, left);
      } else {
        var row := PosRow(Some(k), if lines[k].typ == Ctx then Some(k) else None);
        PairSides(lines, k + 1, []);
      }
    }
  }

  /** The new number a row of lines calls for: its right line's, or the remark's when it shows a remark. */
  function NewNoBeside(row: SplitRow): nat {
    if row.right.Some? then row.right.value.newNo
    else if row.left.Some? && row.left.value.typ == Meta then row.left.value.newNo
    else 0
  }

  /** Row by row, the index rows show what the line rows show, and carry the same numbers. */
  lemma {:induction false} PairingsAgree(lines: seq<DiffLine>)
    ensures var byLine, byIndex := AsLines(lines, Rows(lines)), AsIndexes(lines, Rows(lines));
            && |byLine| == |byIndex|
            && forall r | 0 <= r < |byLine| ::
                 && Shows(byIndex[r].left, byLine[r].left, SideTexts(lines, |lines|, OldText))
                 && Shows(byIndex[r].right, byLine[r].right, SideTexts(lines, |lines|, NewText))
                 && byIndex[r].leftNo == (if byLine[r].left.Some? then byLine[r].left.value.oldNo else 0)
                 && byIndex[r].rightNo == NewNoBeside(byLine[r])
  {
    PairSides(lines, 0, []);
    var rows := Rows(lines);
    forall r | 0 <= r < |rows|
      ensures Shows(AsIndex(lines, rows[r]).left, LineAt(lines, rows[r].left), SideTexts(lines, |lines|, OldText))
      ensures Shows(AsIndex(lines, rows[r]).right, LineAt(lines, rows[r].right), SideTexts(lines, |lines|, NewText))
    {
      var row := rows[r];
      if row.left.Some? && On(OldText, lines[row.left.value]) { TextAtIndex(lines, |lines|, row.left.value, OldText); }
      if row.right.Some? { TextAtIndex(lines, |lines|, row.right.value, NewText); }
    }
  }
}
