/** The line diff of an edit card: an LCS table in one flat array, a greedy walk over it, a row cap. */
module LineDiff {
  import opened Wrappers
  import opened Sequences
  import opened TextLines

  const DIFF_ROW_CAP := 900

  datatype Kind = Ctx | Add | Del

  datatype Row = Row(kind: Kind, oldNum: Option<nat>, newNum: Option<nat>, text: string)

  /** `text.replace(/\n$/, "").split("\n")`. */
  function Lines(text: string): (lines: seq<string>)
    ensures lines != []
  {
    if text != "" && text[|text| - 1] == '\n' then Split(text[..|text| - 1]) else Split(text)
  }

  /** The lines are the text but for one final newline: nothing else is lost by comparing lines. */
  lemma {:induction false} LinesAreText(text: string)
    ensures Join(Lines(text)) + (if text != "" && text[|text| - 1] == '\n' then "\n" else "") == text
  {
    if text != "" && text[|text| - 1] == '\n' { JoinSplit(text[..|text| - 1]); } else { JoinSplit(text); }
  }

  // ---------- The reference: longest common subsequences ----------

  /** The length of a longest common subsequence of `a[i..]` and `b[j..]`. */
  function Lcs(a: seq<string>, b: seq<string>, i: nat, j: nat): nat
    requires i <= |a| && j <= |b|
    decreases |a| - i + |b| - j
  {
    if i == |a| || j == |b| then 0
    else if a[i] == b[j] then Lcs(a, b, i + 1, j + 1) + 1
    else Max(Lcs(a, b, i + 1, j), Lcs(a, b, i, j + 1))
  }

  /** Dropping the head of one side loses at most one common line. */
  lemma {:induction false} LcsSlack(a: seq<string>, b: seq<string>, i: nat, j: nat)
    requires i <= |a| && j <= |b|
    ensures i < |a| ==> Lcs(a, b, i + 1, j) <= Lcs(a, b, i, j) <= Lcs(a, b, i + 1, j) + 1
    ensures j < |b| ==> Lcs(a, b, i, j + 1) <= Lcs(a, b, i, j) <= Lcs(a, b, i, j + 1) + 1
    decreases |a| - i + |b| - j
  {
    if i < |a| && j < |b| {
      LcsSlack(a, b, i + 1, j);
      LcsSlack(a, b, i, j + 1);
      LcsSlack(a, b, i + 1, j + 1);
    }
  }

  // ---------- Scripts ----------

  /** The old side of a script: its rows without the added ones. */
  function OldSide(rows: seq<Row>): seq<string> {
    if rows == [] then []
    else
      var n := |rows| - 1;
      OldSide(rows[..n]) + if rows[n].kind == Add then [] else [rows[n].text]
  }

  function NewSide(rows: seq<Row>): seq<string> {
    if rows == [] then []
    else
      var n := |rows| - 1;
      NewSide(rows[..n]) + if rows[n].kind == Del then [] else [rows[n].text]
  }

  /** How many rows delete or add. */
  function Changes(rows: seq<Row>): nat {
    if rows == [] then 0
    else Changes(rows[..|rows| - 1]) + if rows[|rows| - 1].kind == Ctx then 0 else 1
  }

  function Kept(rows: seq<Row>): nat {
    if rows == [] then 0
    else Kept(rows[..|rows| - 1]) + if rows[|rows| - 1].kind == Ctx then 1 else 0
  }

  /** Rows are numbered when the k-th old-side row carries old number k, the k-th new-side row new
      number k, and no row carries a number of a side it is not on. */
  predicate Numbered(rows: seq<Row>) {
    rows == [] ||
    var n := |rows| - 1;
    && Numbered(rows[..n])
    && rows[n].oldNum == (if rows[n].kind == Add then None else Some(|OldSide(rows[..n])| + 1))
    && rows[n].newNum == (if rows[n].kind == Del then None else Some(|NewSide(rows[..n])| + 1))
  }

  /** A script that turns `a` into `b`. */
  ghost predicate Script(rows: seq<Row>, a: seq<string>, b: seq<string>) {
    OldSide(rows) == a && NewSide(rows) == b
  }

  lemma {:induction false} SidesAdd(rows: seq<Row>)
    ensures |OldSide(rows)| + |NewSide(rows)| == 2 * Kept(rows) + Changes(rows)
  {
    if rows != [] { SidesAdd(rows[..|rows| - 1]); }
  }

  lemma {:induction false} LastOfPrefix(a: seq<string>, i: nat, front: seq<string>, last: string)
    requires i <= |a| && a[..i] == front + [last]
    ensures i > 0 && front == a[..i - 1] && a[i - 1] == last
  {
    assert a[..i][i - 1] == last && a[..i][..i - 1] == front;
  }

  /** One more row: what it adds to each side and to the count of kept lines. */
  lemma {:induction false} RowAdded(rows: seq<Row>, row: Row)
    ensures OldSide(rows + [row]) == OldSide(rows) + if row.kind == Add then [] else [row.text]
    ensures NewSide(rows + [row]) == NewSide(rows) + if row.kind == Del then [] else [row.text]
    ensures Kept(rows + [row]) == Kept(rows) + if row.kind == Ctx then 1 else 0
    ensures Numbered(rows + [row]) <==>
            && Numbered(rows)
            && row.oldNum == (if row.kind == Add then None else Some(|OldSide(rows)| + 1))
            && row.newNum == (if row.kind == Del then None else Some(|NewSide(rows)| + 1))
  {
    assert (rows + [row])[..|rows|] == rows;
  }

  /** No script keeps more lines than a longest common subsequence has. */
  lemma {:induction false} KeptAtMostLcs(rows: seq<Row>, a: seq<string>, b: seq<string>, i: nat, j: nat)
    requires i <= |a| && j <= |b|
    requires OldSide(rows) == a[..i] && NewSide(rows) == b[..j]
    ensures Kept(rows) + Lcs(a, b, i, j) <= Lcs(a, b, 0, 0)
    decreases |rows|
  {
    if rows != [] {
      var rest, row := rows[..|rows| - 1], rows[|rows| - 1];
      assert rows == rest + [row];
      RowAdded(rest, row);
      if row.kind != Add { LastOfPrefix(a, i, OldSide(rest), row.text); }
      if row.kind != Del { LastOfPrefix(b, j, NewSide(rest), row.text); }
      match row.kind
      case Ctx => KeptAtMostLcs(rest, a, b, i - 1, j - 1);
      case Del =>
        KeptAtMostLcs(rest, a, b, i - 1, j);
        LcsSlack(a, b, i - 1, j);
      case Add =>
        KeptAtMostLcs(rest, a, b, i, j - 1);
        LcsSlack(a, b, i, j - 1);
    }
  }

  // ---------- The walk as a function ----------

  function DelRow(rows: seq<Row>, text: string): seq<Row> {
    rows + [Row(Del, Some(|OldSide(rows)| + 1), None, text)]
  }

  function AddRow(rows: seq<Row>, text: string): seq<Row> {
    rows + [Row(Add, None, Some(|NewSide(rows)| + 1), text)]
  }

  function CtxRow(rows: seq<Row>, text: string): seq<Row> {
    rows + [Row(Ctx, Some(|OldSide(rows)| + 1), Some(|NewSide(rows)| + 1), text)]
  }

  /** The greedy walk from `(i, j)`: equal lines are kept, a deletion goes first on a tie. */
  function Walk(a: seq<string>, b: seq<string>, i: nat, j: nat, rows: seq<Row>): seq<Row>
    requires i <= |a| && j <= |b|
    decreases |a| - i + |b| - j
  {
    if i < |a| && j < |b| then
      if a[i] == b[j] then Walk(a, b, i + 1, j + 1, CtxRow(rows, a[i]))
      else if Lcs(a, b, i + 1, j) >= Lcs(a, b, i, j + 1) then Walk(a, b, i + 1, j, DelRow(rows, a[i]))
      else Walk(a, b, i, j + 1, AddRow(rows, b[j]))
    else if i < |a| then Walk(a, b, i + 1, j, DelRow(rows, a[i]))
    else if j < |b| then Walk(a, b, i, j + 1, AddRow(rows, b[j]))
    else rows
  }

  /** Every line of `a` deleted, then every line of `b` added. */
  function Replace(a: seq<string>, b: seq<string>): seq<Row> {
    seq(|a|, k requires 0 <= k < |a| => Row(Del, Some(k + 1), None, a[k]))
    + seq(|b|, k requires 0 <= k < |b| => Row(Add, None, Some(k + 1), b[k]))
  }

  predicate Capped(a: seq<string>, b: seq<string>) {
    |a| > DIFF_ROW_CAP || |b| > DIFF_ROW_CAP
  }

  function DiffRows(a: seq<string>, b: seq<string>): seq<Row> {
    if Capped(a, b) then Replace(a, b) else Walk(a, b, 0, 0, [])
  }

  // ---------- The method ----------

  /** The flat index of cell `(i, j)` of a table with `n + 1` columns. */
  function At(i: nat, j: nat, n: nat): nat {
    i * (n + 1) + j
  }

  lemma {:induction false} MulMonotone(x: nat, y: nat, c: nat)
    requires x <= y
    ensures x * c <= y * c
  {
  }

  lemma {:induction false} AtInside(i: nat, j: nat, m: nat, n: nat)
    requires i <= m && j <= n
    ensures At(i, j, n) < (m + 1) * (n + 1)
  {
    MulMonotone(i, m, n + 1);
  }

  lemma {:induction false} AtInjective(i: nat, j: nat, k: nat, l: nat, n: nat)
    requires j <= n && l <= n && At(i, j, n) == At(k, l, n)
    ensures i == k && j == l
  {
    if i < k {
      MulMonotone(i + 1, k, n + 1);
    } else if k < i {
      MulMonotone(k + 1, i, n + 1);
    }
  }

  /** Cell `(i, j)` of the flat table holds the length of the longest common subsequence from there. */
  ghost predicate Filled(dp: seq<nat>, a: seq<string>, b: seq<string>, i: nat, j: nat)
    requires i <= |a| && j <= |b| && |dp| == (|a| + 1) * (|b| + 1)
  {
    AtInside(i, j, |a|, |b|);
    dp[At(i, j, |b|)] == Lcs(a, b, i, j)
  }

  /** Everything from row `i`, column `j` on, rows below it whole, is filled. */
  ghost predicate FilledFrom(dp: seq<nat>, a: seq<string>, b: seq<string>, i: nat, j: nat)
    requires i <= |a| && j <= |b| && |dp| == (|a| + 1) * (|b| + 1)
  {
    forall k: nat, l: nat | k <= |a| && l <= |b| && (k > i || (k == i && l >= j)) :: Filled(dp, a, b, k, l)
  }

  /** A value that cannot occur in a table the cap lets through needs no wrap-around. */
  lemma {:induction false} LcsFitsUint32(a: seq<string>, b: seq<string>, i: nat, j: nat)
    requires i <= |a| && j <= |b|
    ensures Lcs(a, b, i, j) <= |a| - i
    ensures |a| <= 900 && |b| <= 900 ==> Lcs(a, b, i, j) <= 900 < 0x1_0000_0000
    decreases |a| - i + |b| - j
  {
    if i < |a| && j < |b| {
      LcsFitsUint32(a, b, i + 1, j + 1);
      LcsFitsUint32(a, b, i + 1, j);
      LcsFitsUint32(a, b, i, j + 1);
    }
  }

  /** Writing one more cell of the current row, right to left. */
  lemma {:induction false} FillCell(before: seq<nat>, after: seq<nat>, a: seq<string>, b: seq<string>, i: nat, j: nat)
    requires i < |a| && j < |b| && |before| == (|a| + 1) * (|b| + 1)
    requires FilledFrom(before, a, b, i, j + 1)
    requires At(i, j, |b|) < |before| && after == before[At(i, j, |b|) := Lcs(a, b, i, j)]
    ensures FilledFrom(after, a, b, i, j)
  {
    forall k: nat, l: nat | k <= |a| && l <= |b| && (k > i || (k == i && l >= j))
      ensures Filled(after, a, b, k, l)
    {
      AtInside(k, l, |a|, |b|);
      if At(k, l, |b|) == At(i, j, |b|) {
        AtInjective(k, l, i, j, |b|);
      } else {
        assert Filled(before, a, b, k, l);
      }
    }
  }

  /** The last cell of row `i`. */
  function ZeroCell(i: nat, a: seq<string>, b: seq<string>): (k: nat)
    requires i <= |a|
    ensures k < (|a| + 1) * (|b| + 1)
  {
    AtInside(i, |b|, |a|, |b|);
    At(i, |b|, |b|)
  }

  /** The first row done, or a row just finished: the next row up has only its last cell, which is 0. */
  lemma {:induction false} NextRow(dp: seq<nat>, a: seq<string>, b: seq<string>, i: nat)
    requires 0 < i <= |a| && |dp| == (|a| + 1) * (|b| + 1)
    requires FilledFrom(dp, a, b, i, 0) && dp[ZeroCell(i - 1, a, b)] == 0
    ensures FilledFrom(dp, a, b, i - 1, |b|)
  {
    assert forall k: nat, l: nat | k <= |a| && l <= |b| && k >= i :: Filled(dp, a, b, k, l);
  }

  method FillRow(dp: array<nat>, a: seq<string>, b: seq<string>, i: nat)
    requires i < |a| && dp.Length == (|a| + 1) * (|b| + 1)
    requires FilledFrom(dp[..], a, b, i, |b|)
    requires forall k: nat | k < i :: dp[ZeroCell(k, a, b)] == 0
    modifies dp
    ensures FilledFrom(dp[..], a, b, i, 0)
    ensures forall k: nat | k < i :: dp[ZeroCell(k, a, b)] == 0
  {
    var n := |b|;
    var j := n;
    while j > 0
      invariant 0 <= j <= n
      invariant FilledFrom(dp[..], a, b, i, j)
      invariant forall k: nat | k < i :: dp[ZeroCell(k, a, b)] == 0
    {
      j := j - 1;
      ghost var before := dp[..];
      AtInside(i, j, |a|, n);
      AtInside(i + 1, j, |a|, n);
      AtInside(i + 1, j + 1, |a|, n);
      AtInside(i, j + 1, |a|, n);
      assert Filled(before, a, b, i + 1, j + 1) && Filled(before, a, b, i + 1, j) && Filled(before, a, b, i, j + 1);
      dp[At(i, j, n)] := if a[i] == b[j] then dp[At(i + 1, j + 1, n)] + 1
                         else Max(dp[At(i + 1, j, n)], dp[At(i, j + 1, n)]);
      FillCell(before, dp[..], a, b, i, j);
      forall k: nat | k < i
        ensures dp[ZeroCell(k, a, b)] == 0
      {
        if At(k, n, n) == At(i, j, n) { AtInjective(k, n, i, j, n); }
      }
    }
  }

  /** Fills the table bottom row first, each row right to left, as the source does. */
  method FillTable(a: seq<string>, b: seq<string>) returns (dp: array<nat>)
    ensures fresh(dp) && dp.Length == (|a| + 1) * (|b| + 1)
    ensures FilledFrom(dp[..], a, b, 0, 0)
  {
    var m, n := |a|, |b|;
    dp := new nat[(m + 1) * (n + 1)](_ => 0);
    var i := m;
    while i > 0
      invariant 0 <= i <= m
      invariant FilledFrom(dp[..], a, b, i, 0)
      invariant forall k: nat | k < i :: dp[ZeroCell(k, a, b)] == 0
    {
      i := i - 1;
      NextRow(dp[..], a, b, i + 1);
      FillRow(dp, a, b, i);
    }
  }

  /** What the walk has emitted when it stands at `(i, j)`, and how its counters stand. */
  ghost predicate WalkedTo(a: seq<string>, b: seq<string>, i: nat, j: nat, rows: seq<Row>, oldNum: nat, newNum: nat) {
    && i <= |a| && j <= |b|
    && Walk(a, b, i, j, rows) == Walk(a, b, 0, 0, [])
    && oldNum == |OldSide(rows)| + 1 && newNum == |NewSide(rows)| + 1
  }

  lemma {:induction false} WalkedOn(a: seq<string>, b: seq<string>, i: nat, j: nat, rows: seq<Row>,
                                    oldNum: nat, newNum: nat)
    requires WalkedTo(a, b, i, j, rows, oldNum, newNum)
    ensures i < |a| && j < |b| && a[i] == b[j] ==>
              WalkedTo(a, b, i + 1, j + 1, rows + [Row(Ctx, Some(oldNum), Some(newNum), a[i])], oldNum + 1, newNum + 1)
    ensures i < |a| && (j == |b| || (a[i] != b[j] && Lcs(a, b, i + 1, j) >= Lcs(a, b, i, j + 1))) ==>
              WalkedTo(a, b, i + 1, j, rows + [Row(Del, Some(oldNum), None, a[i])], oldNum + 1, newNum)
    ensures j < |b| && (i == |a| || (a[i] != b[j] && Lcs(a, b, i + 1, j) < Lcs(a, b, i, j + 1))) ==>
              WalkedTo(a, b, i, j + 1, rows + [Row(Add, None, Some(newNum), b[j])], oldNum, newNum + 1)
  {
    if i < |a| {
      RowAdded(rows, Row(Ctx, Some(oldNum), Some(newNum), a[i]));
      RowAdded(rows, Row(Del, Some(oldNum), None, a[i]));
    }
    if j < |b| { RowAdded(rows, Row(Add, None, Some(newNum), b[j])); }
  }

  /** The two cells the walk compares hold the lengths it needs. */
  lemma {:induction false} NextCells(cells: seq<nat>, a: seq<string>, b: seq<string>, i: nat, j: nat)
    requires |cells| == (|a| + 1) * (|b| + 1) && FilledFrom(cells, a, b, 0, 0)
    requires i < |a| && j < |b|
    ensures 0 <= At(i + 1, j, |b|) < |cells| && cells[At(i + 1, j, |b|)] == Lcs(a, b, i + 1, j)
    ensures 0 <= At(i, j + 1, |b|) < |cells| && cells[At(i, j + 1, |b|)] == Lcs(a, b, i, j + 1)
  {
    AtInside(i + 1, j, |a|, |b|);
    AtInside(i, j + 1, |a|, |b|);
    assert Filled(cells, a, b, i + 1, j) && Filled(cells, a, b, i, j + 1);
  }

  method WalkTable(dp: array<nat>, a: seq<string>, b: seq<string>) returns (rows: seq<Row>)
    requires dp.Length == (|a| + 1) * (|b| + 1) && FilledFrom(dp[..], a, b, 0, 0)
    ensures rows == Walk(a, b, 0, 0, [])
  {
    var m, n := |a|, |b|;
    var oldNum, newNum, i, j := 1, 1, 0, 0;
    rows := [];
    while i < m && j < n
      invariant WalkedTo(a, b, i, j, rows, oldNum, newNum)
      decreases m - i + n - j
    {
      NextCells(dp[..], a, b, i, j);
      WalkedOn(a, b, i, j, rows, oldNum, newNum);
      if a[i] == b[j] {
        rows := rows + [Row(Ctx, Some(oldNum), Some(newNum), a[i])];
        oldNum, newNum, i, j := oldNum + 1, newNum + 1, i + 1, j + 1;
      } else if dp[At(i + 1, j, n)] >= dp[At(i, j + 1, n)] {
        rows := rows + [Row(Del, Some(oldNum), None, a[i])];
        oldNum, i := oldNum + 1, i + 1;
      } else {
        rows := rows + [Row(Add, None, Some(newNum), b[j])];
        newNum, j := newNum + 1, j + 1;
      }
    }
    while i < m
      invariant WalkedTo(a, b, i, j, rows, oldNum, newNum) && (i < m ==> j == n)
    {
      WalkedOn(a, b, i, j, rows, oldNum, newNum);
      rows := rows + [Row(Del, Some(oldNum), None, a[i])];
      oldNum, i := oldNum + 1, i + 1;
    }
    while j < n
      invariant WalkedTo(a, b, m, j, rows, oldNum, newNum)
    {
      WalkedOn(a, b, m, j, rows, oldNum, newNum);
      rows := rows + [Row(Add, None, Some(newNum), b[j])];
      newNum, j := newNum + 1, j + 1;
    }
  }

  method LineDiff(oldText: string, newText: string) returns (rows: seq<Row>)
    ensures rows == DiffRows(Lines(oldText), Lines(newText))
  {
    var a, b := Lines(oldText), Lines(newText);
    if |a| > DIFF_ROW_CAP || |b| > DIFF_ROW_CAP {
      rows := seq(|a|, k requires 0 <= k < |a| => Row(Del, Some(k + 1), None, a[k]))
              + seq(|b|, k requires 0 <= k < |b| => Row(Add, None, Some(k + 1), b[k]));
      return;
    }
    var dp := FillTable(a, b);
    rows := WalkTable(dp, a, b);
  }

  // ---------- What the rows are ----------

  /** `all` continues the numbered script `rows` of two prefixes to one of the whole, keeping `more` lines. */
  ghost predicate Completes(all: seq<Row>, rows: seq<Row>, a: seq<string>, b: seq<string>, more: nat) {
    Script(all, a, b) && Numbered(all) && Kept(all) == Kept(rows) + more
  }

  lemma {:induction false} CompletesVia(all: seq<Row>, rows: seq<Row>, row: Row, a: seq<string>, b: seq<string>,
                                        more: nat)
    requires Completes(all, rows + [row], a, b, more)
    ensures Completes(all, rows, a, b, more + if row.kind == Ctx then 1 else 0)
  {
    RowAdded(rows, row);
  }

  /** A numbered script of the first `i` old and the first `j` new lines. */
  ghost predicate Reached(rows: seq<Row>, a: seq<string>, b: seq<string>, i: nat, j: nat)
    requires i <= |a| && j <= |b|
  {
    Script(rows, a[..i], b[..j]) && Numbered(rows)
  }

  lemma {:induction false} ReachDel(rows: seq<Row>, a: seq<string>, b: seq<string>, i: nat, j: nat) returns (row: Row)
    requires i < |a| && j <= |b| && Reached(rows, a, b, i, j)
    ensures row.kind == Del && rows + [row] == DelRow(rows, a[i]) && Reached(rows + [row], a, b, i + 1, j)
  {
    row := Row(Del, Some(i + 1), None, a[i]);
    assert a[..i + 1] == a[..i] + [a[i]];
    RowAdded(rows, row);
  }

  lemma {:induction false} ReachAdd(rows: seq<Row>, a: seq<string>, b: seq<string>, i: nat, j: nat) returns (row: Row)
    requires i <= |a| && j < |b| && Reached(rows, a, b, i, j)
    ensures row.kind == Add && rows + [row] == AddRow(rows, b[j]) && Reached(rows + [row], a, b, i, j + 1)
  {
    row := Row(Add, None, Some(j + 1), b[j]);
    assert b[..j + 1] == b[..j] + [b[j]];
    RowAdded(rows, row);
  }

  lemma {:induction false} ReachCtx(rows: seq<Row>, a: seq<string>, b: seq<string>, i: nat, j: nat) returns (row: Row)
    requires i < |a| && j < |b| && a[i] == b[j] && Reached(rows, a, b, i, j)
    ensures row.kind == Ctx && rows + [row] == CtxRow(rows, a[i]) && Reached(rows + [row], a, b, i + 1, j + 1)
  {
    row := Row(Ctx, Some(i + 1), Some(j + 1), a[i]);
    assert a[..i + 1] == a[..i] + [a[i]] && b[..j + 1] == b[..j] + [b[j]];
    RowAdded(rows, row);
  }

  lemma {:induction false} ReachedAll(rows: seq<Row>, a: seq<string>, b: seq<string>)
    requires Reached(rows, a, b, |a|, |b|)
    ensures Completes(rows, rows, a, b, 0)
  {
    assert a[..|a|] == a && b[..|b|] == b;
  }

  /** The walk extends a numbered script of the two prefixes to one of the whole, keeping as many more
      lines as the longest common subsequence of what is left. */
  lemma {:induction false} WalkScript(a: seq<string>, b: seq<string>, i: nat, j: nat, rows: seq<Row>)
    requires i <= |a| && j <= |b| && Reached(rows, a, b, i, j)
    ensures Completes(Walk(a, b, i, j, rows), rows, a, b, Lcs(a, b, i, j))
    decreases |a| - i + |b| - j
  {
    var all := Walk(a, b, i, j, rows);
    if i == |a| && j == |b| {
      ReachedAll(rows, a, b);
    } else if i < |a| && j < |b| && a[i] == b[j] {
      var row := ReachCtx(rows, a, b, i, j);
      WalkScript(a, b, i + 1, j + 1, rows + [row]);
      CompletesVia(all, rows, row, a, b, Lcs(a, b, i + 1, j + 1));
    } else if j == |b| || (i < |a| && Lcs(a, b, i + 1, j) >= Lcs(a, b, i, j + 1)) {
      var row := ReachDel(rows, a, b, i, j);
      WalkScript(a, b, i + 1, j, rows + [row]);
      CompletesVia(all, rows, row, a, b, Lcs(a, b, i + 1, j));
    } else {
      var row := ReachAdd(rows, a, b, i, j);
      WalkScript(a, b, i, j + 1, rows + [row]);
      CompletesVia(all, rows, row, a, b, Lcs(a, b, i, j + 1));
    }
  }

  lemma {:induction false} ReplaceAdds(a: seq<string>, rest: seq<string>, last: string)
    ensures Replace(a, rest + [last]) == Replace(a, rest) + [Row(Add, None, Some(|rest| + 1), last)]
  {
  }

  lemma {:induction false} ReplaceDels(rest: seq<string>, last: string)
    ensures Replace(rest + [last], []) == Replace(rest, []) + [Row(Del, Some(|rest| + 1), None, last)]
  {
  }

  /** Replacing everything is a script that keeps nothing. */
  ghost predicate Replaces(rows: seq<Row>, a: seq<string>, b: seq<string>) {
    Script(rows, a, b) && Numbered(rows) && Kept(rows) == 0
  }

  lemma {:induction false} ReplaceScript(a: seq<string>, b: seq<string>)
    ensures Replaces(Replace(a, b), a, b)
    decreases |a| + |b|
  {
    if b != [] {
      var rest, last := b[..|b| - 1], b[|b| - 1];
      assert b == rest + [last];
      ReplaceScript(a, rest);
      ReplaceAdds(a, rest, last);
      RowAdded(Replace(a, rest), Row(Add, None, Some(|rest| + 1), last));
    } else if a != [] {
      var rest, last := a[..|a| - 1], a[|a| - 1];
      assert a == rest + [last];
      ReplaceScript(rest, b);
      ReplaceDels(rest, last);
      RowAdded(Replace(rest, b), Row(Del, Some(|rest| + 1), None, last));
    }
  }

  /** Capped or not, the rows without additions are the old text, those without deletions the new
      text, and both sides are numbered from 1. */
  lemma {:induction false} DiffReconstructs(a: seq<string>, b: seq<string>)
    ensures Script(DiffRows(a, b), a, b) && Numbered(DiffRows(a, b))
    ensures Kept(DiffRows(a, b)) == if Capped(a, b) then 0 else Lcs(a, b, 0, 0)
  {
    if Capped(a, b) {
      ReplaceScript(a, b);
    } else {
      assert a[..0] == [] && b[..0] == [];
      WalkScript(a, b, 0, 0, []);
    }
  }

  /** The k-th row of the old side carries old number k, and of the new side new number k. */
  lemma {:induction false} NumberedAt(rows: seq<Row>, k: nat)
    requires Numbered(rows) && k < |rows|
    ensures rows[k].oldNum == if rows[k].kind == Add then None else Some(|OldSide(rows[..k])| + 1)
    ensures rows[k].newNum == if rows[k].kind == Del then None else Some(|NewSide(rows[..k])| + 1)
    decreases |rows|
  {
    var n := |rows| - 1;
    if k < n {
      NumberedAt(rows[..n], k);
      assert rows[..n][..k] == rows[..k];
    }
  }

  /** A script of fewest deletions and additions among all that turn `a` into `b`. */
  ghost predicate Optimal(rows: seq<Row>, a: seq<string>, b: seq<string>) {
    && Script(rows, a, b)
    && forall other: seq<Row> | Script(other, a, b) :: Changes(rows) <= Changes(other)
  }

  predicate ShareLine(a: seq<string>, b: seq<string>) {
    exists i, j | 0 <= i < |a| && 0 <= j < |b| :: a[i] == b[j]
  }

  lemma {:induction false} SharedLineCounts(a: seq<string>, b: seq<string>, i: nat, j: nat)
    requires i <= |a| && j <= |b|
    ensures (exists k, l | i <= k < |a| && j <= l < |b| :: a[k] == b[l]) <==> Lcs(a, b, i, j) > 0
    decreases |a| - i + |b| - j
  {
    if i < |a| && j < |b| && a[i] != b[j] {
      SharedLineCounts(a, b, i + 1, j);
      SharedLineCounts(a, b, i, j + 1);
    }
  }

  lemma {:induction false} FewestChanges(rows: seq<Row>, other: seq<Row>, a: seq<string>, b: seq<string>)
    requires Script(rows, a, b) && Script(other, a, b) && Kept(rows) == Lcs(a, b, 0, 0)
    ensures Changes(rows) <= Changes(other)
  {
    SidesAdd(rows);
    SidesAdd(other);
    assert a[..|a|] == a && b[..|b|] == b;
    KeptAtMostLcs(other, a, b, |a|, |b|);
  }

  /** The diff is a shortest script if and only if it is under the cap or the sides share no line. */
  lemma {:induction false} OptimalIff(a: seq<string>, b: seq<string>)
    ensures Optimal(DiffRows(a, b), a, b) <==> (|a| <= 900 && |b| <= 900) || !ShareLine(a, b)
  {
    var rows := DiffRows(a, b);
    var best := Walk(a, b, 0, 0, []);
    DiffReconstructs(a, b);
    assert a[..0] == [] && b[..0] == [];
    WalkScript(a, b, 0, 0, []);
    SharedLineCounts(a, b, 0, 0);
    SidesAdd(rows);
    SidesAdd(best);
    if Kept(rows) == Lcs(a, b, 0, 0) {
      forall other: seq<Row> | Script(other, a, b)
        ensures Changes(rows) <= Changes(other)
      {
        FewestChanges(rows, other, a, b);
      }
    } else {
      assert Changes(best) < Changes(rows);
    }
  }

  /** Past the cap even two equal texts are listed whole, twice. */
  lemma {:induction false} CapListsEqualTexts()
    ensures var a := seq(901, i => "x");
            Changes(DiffRows(a, a)) == 2 * |a| && !Optimal(DiffRows(a, a), a, a)
  {
    var a := seq(901, i => "x");
    assert a[0] in a;
    OptimalIff(a, a);
    DiffReconstructs(a, a);
    SidesAdd(DiffRows(a, a));
  }

  /** Past the cap every old line is deleted, numbered, and then every new one added. */
  lemma {:induction false} CappedListsWhole(a: seq<string>, b: seq<string>)
    requires |a| > 900 || |b| > 900
    ensures var rows := DiffRows(a, b);
            && |rows| == |a| + |b|
            && (forall k | 0 <= k < |a| :: rows[k] == Row(Del, Some(k + 1), None, a[k]))
            && (forall k | 0 <= k < |b| :: rows[|a| + k] == Row(Add, None, Some(k + 1), b[k]))
  {
    var dels := seq(|a|, k requires 0 <= k < |a| => Row(Del, Some(k + 1), None, a[k]));
    var adds := seq(|b|, k requires 0 <= k < |b| => Row(Add, None, Some(k + 1), b[k]));
    assert DiffRows(a, b) == dels + adds;
  }
}
