/** Two display walks: the fold of unchanged diff rows, and the clusters of completed tool cards. */
module Folding {
  import opened Wrappers
  import opened Sequences
  import D = LineDiff
  import T = Transcript

  // ---------- Runs ----------

  /** Where the run of set flags around `k` starts. */
  function RunStart(flags: seq<bool>, k: nat): (i: nat)
    requires k < |flags| && flags[k]
    ensures i <= k && (forall l | i <= l <= k :: flags[l]) && (i == 0 || !flags[i - 1])
  {
    if k == 0 || !flags[k - 1] then k else RunStart(flags, k - 1)
  }

  /** Where it ends, exclusively. */
  function RunEnd(flags: seq<bool>, k: nat): (j: nat)
    requires k < |flags| && flags[k]
    ensures k < j <= |flags| && (forall l | k <= l < j :: flags[l]) && (j == |flags| || !flags[j])
    decreases |flags| - k
  {
    if k + 1 == |flags| || !flags[k + 1] then k + 1 else RunEnd(flags, k + 1)
  }

  /** `[i, j)` is a maximal run. */
  predicate IsRun(flags: seq<bool>, i: nat, j: nat) {
    && i < j <= |flags| && (forall l | i <= l < j :: flags[l])
    && (i == 0 || !flags[i - 1]) && (j == |flags| || !flags[j])
  }

  /** The positions `0 .. n`. */
  function UpTo(n: nat): seq<nat> {
    seq(n, k => k)
  }

  lemma {:induction false} UpToExtend(n: nat, count: nat)
    ensures UpTo(n + count) == UpTo(n) + Span(n, count)
  {
  }

  // ---------- The diff body ----------

  const CTX_COLLAPSE := 10

  /** A row shown, or a button standing for `count` rows hidden inside the run that starts at `start`. */
  datatype DiffItem = Shown(row: nat) | Gap(start: nat, count: nat)

  /** The rows an item stands for. */
  function DiffRowsOf(item: DiffItem): seq<nat> {
    match item
    case Shown(k) => [k]
    case Gap(start, count) => Span(start + 3, count)
  }

  function AllDiffRows(items: seq<DiffItem>): seq<nat> {
    if items == [] then [] else AllDiffRows(items[..|items| - 1]) + DiffRowsOf(items[|items| - 1])
  }

  function Unchanged(rows: seq<D.Row>): seq<bool> {
    seq(|rows|, k requires 0 <= k < |rows| => rows[k].kind == D.Ctx)
  }

  /** Row `k` is folded away: its run is long and not expanded, and it is not among the run's first or
      last three rows. */
  predicate Hidden(flags: seq<bool>, expanded: set<nat>, k: nat)
    requires k < |flags|
  {
    && flags[k]
    && var i, j := RunStart(flags, k), RunEnd(flags, k);
       && j - i > CTX_COLLAPSE + 2 && i !in expanded
       && i + 3 <= k < j - 3
  }

  /** A shown row is not hidden; a gap is the middle of one long run that is not expanded. */
  ghost predicate Fair(flags: seq<bool>, expanded: set<nat>, item: DiffItem) {
    match item
    case Shown(k) => k < |flags| && !Hidden(flags, expanded, k)
    case Gap(start, count) =>
      count > CTX_COLLAPSE - 4 && start !in expanded && IsRun(flags, start, start + count + 6)
  }

  /** The items emitted stand for the first `n` rows, in order, each once. */
  ghost predicate FoldedTo(flags: seq<bool>, expanded: set<nat>, items: seq<DiffItem>, n: nat) {
    && AllDiffRows(items) == UpTo(n)
    && forall item | item in items :: Fair(flags, expanded, item)
  }

  /** The middle of a long run that is not expanded is emitted as a gap. */
  lemma {:induction false} EmitGap(flags: seq<bool>, expanded: set<nat>, items: seq<DiffItem>, i: nat, j: nat)
    requires IsRun(flags, i, j) && j - i > CTX_COLLAPSE + 2 && i !in expanded
    requires FoldedTo(flags, expanded, items, i + 3)
    ensures FoldedTo(flags, expanded, items + [Gap(i, j - i - 6)], j - 3)
  {
  }

  /** Shows the rows from `from` to `to` of the run `[i, j)`, none of which is hidden. */
  method ShowRows(ghost flags: seq<bool>, ghost expanded: set<nat>, shown: seq<DiffItem>,
                  ghost i: nat, ghost j: nat, from: nat, to: nat) returns (items: seq<DiffItem>)
    requires IsRun(flags, i, j) && i <= from <= to <= j
    requires j - i <= CTX_COLLAPSE + 2 || i in expanded || to <= i + 3 || j - 3 <= from
    requires FoldedTo(flags, expanded, shown, from)
    ensures FoldedTo(flags, expanded, items, to)
  {
    items := shown;
    for k := from to to
      invariant FoldedTo(flags, expanded, items, k)
    {
      items := items + [Shown(k)];
    }
  }

  /** Emits a long run that is not expanded. */
  method FoldLong(ghost flags: seq<bool>, ghost expanded: set<nat>, shown: seq<DiffItem>, i: nat, j: nat)
    returns (items: seq<DiffItem>)
    requires IsRun(flags, i, j) && j - i > CTX_COLLAPSE + 2 && i !in expanded && FoldedTo(flags, expanded, shown, i)
    ensures FoldedTo(flags, expanded, items, j)
  {
    var front := ShowRows(flags, expanded, shown, i, j, i, i + 3);
    EmitGap(flags, expanded, front, i, j);
    var folded := front + [Gap(i, j - i - 6)];
    items := ShowRows(flags, expanded, folded, i, j, j - 3, j);
  }

  /** Emits the run `[i, j)`: all of it, or its first and last three rows around a gap. */
  method FoldRun(ghost flags: seq<bool>, expanded: set<nat>, shown: seq<DiffItem>, i: nat, j: nat)
    returns (items: seq<DiffItem>)
    requires IsRun(flags, i, j) && FoldedTo(flags, expanded, shown, i)
    ensures FoldedTo(flags, expanded, items, j)
  {
    var run := j - i;
    if run <= CTX_COLLAPSE + 2 || i in expanded {
      items := ShowRows(flags, expanded, shown, i, j, i, j);
    } else {
      items := FoldLong(flags, expanded, shown, i, j);
    }
  }

  /** Where the run of unchanged rows that starts at `i` ends. */
  method ScanRun(rows: seq<D.Row>, i: nat) returns (j: nat)
    requires i < |rows| && rows[i].kind == D.Ctx && (i == 0 || rows[i - 1].kind != D.Ctx)
    ensures IsRun(Unchanged(rows), i, j)
  {
    j := i;
    while j < |rows| && rows[j].kind == D.Ctx
      invariant i <= j <= |rows| && forall l | i <= l < j :: rows[l].kind == D.Ctx
    {
      j := j + 1;
    }
  }

  /** For any rows and any set of expanded runs, every row is shown or inside exactly one gap, in order,
      and every item is fair. */
  method DiffBody(rows: seq<D.Row>, expanded: set<nat>) returns (items: seq<DiffItem>)
    ensures FoldedTo(Unchanged(rows), expanded, items, |rows|)
  {
    items := [];
    var i := 0;
    while i < |rows|
      invariant 0 <= i <= |rows| && FoldedTo(Unchanged(rows), expanded, items, i)
      invariant i == 0 || i == |rows| || rows[i - 1].kind != D.Ctx || rows[i].kind != D.Ctx
    {
      if rows[i].kind != D.Ctx {
        items := items + [Shown(i)];
        i := i + 1;
        continue;
      }
      var j := ScanRun(rows, i);
      items := FoldRun(Unchanged(rows), expanded, items, i, j);
      i := j;
    }
  }

  // ---------- What the fold means ----------

  function ShownCount(items: seq<DiffItem>): nat {
    if items == [] then 0
    else ShownCount(items[..|items| - 1]) + if items[|items| - 1].Shown? then 1 else 0
  }

  function GapTotal(items: seq<DiffItem>): nat {
    if items == [] then 0
    else
      var n := |items| - 1;
      GapTotal(items[..n]) + if items[n].Gap? then items[n].count else 0
  }

  lemma {:induction false} ShownAndGapsTotal(items: seq<DiffItem>)
    ensures ShownCount(items) + GapTotal(items) == |AllDiffRows(items)|
  {
    if items != [] { ShownAndGapsTotal(items[..|items| - 1]); }
  }

  /** A row that items stand for is shown by one or inside a gap. */
  lemma {:induction false} StoodFor(items: seq<DiffItem>, k: nat) returns (item: DiffItem)
    requires k in AllDiffRows(items)
    ensures item in items && k in DiffRowsOf(item)
  {
    var n := |items| - 1;
    if k in DiffRowsOf(items[n]) { item := items[n]; } else { item := StoodFor(items[..n], k); }
  }

  lemma {:induction false} GapHides(flags: seq<bool>, expanded: set<nat>, gap: DiffItem, k: nat)
    requires gap.Gap? && Fair(flags, expanded, gap) && k in DiffRowsOf(gap)
    ensures k < |flags| && Hidden(flags, expanded, k)
  {
  }

  /** The rows `[i, j)` are unchanged, and those around them are not. */
  predicate UnchangedRun(rows: seq<D.Row>, i: nat, j: nat) {
    && i < j <= |rows| && (forall l | i <= l < j :: rows[l].kind == D.Ctx)
    && (i == 0 || rows[i - 1].kind != D.Ctx) && (j == |rows| || rows[j].kind != D.Ctx)
  }

  lemma {:induction false} RunIsUnchanged(rows: seq<D.Row>, i: nat, j: nat)
    ensures IsRun(Unchanged(rows), i, j) <==> UnchangedRun(rows, i, j)
  {
    var flags := Unchanged(rows);
    assert forall l | 0 <= l < |rows| :: flags[l] <==> rows[l].kind == D.Ctx;
  }

  /** The row is in a run of more than 12 unchanged rows that is not expanded, beyond its first three and its
      last three. */
  ghost predicate FoldedAway(rows: seq<D.Row>, expanded: set<nat>, k: nat) {
    exists i: nat, j: nat :: UnchangedRun(rows, i, j) && j - i > 12 && i !in expanded && i + 3 <= k < j - 3
  }

  lemma {:induction false} HiddenIn(rows: seq<D.Row>, expanded: set<nat>, k: nat)
    requires k < |rows|
    ensures Hidden(Unchanged(rows), expanded, k) <==> FoldedAway(rows, expanded, k)
  {
    var flags := Unchanged(rows);
    if flags[k] {
      var start, end := RunStart(flags, k), RunEnd(flags, k);
      RunIsUnchanged(rows, start, end);
      forall i: nat, j: nat | UnchangedRun(rows, i, j) && i <= k < j
        ensures i == start && j == end
      {
        RunIsUnchanged(rows, i, j);
      }
    }
  }

  /** Nothing is lost: shown rows and gap labels total the rows; a row is not shown exactly when it is in a
      run of more than 12 unchanged rows that is not expanded, beyond the run's first three and last three;
      so every changed row is shown; and every gap says how many it stands for. */
  lemma {:induction false} FoldLosesNothing(rows: seq<D.Row>, expanded: set<nat>, items: seq<DiffItem>)
    requires FoldedTo(Unchanged(rows), expanded, items, |rows|)
    ensures ShownCount(items) + GapTotal(items) == |rows|
    ensures forall k | 0 <= k < |rows| ::
              Shown(k) !in items <==> FoldedAway(rows, expanded, k)
    ensures forall item | item in items && item.Gap? ::
              item.start !in expanded && item.count > 6 && UnchangedRun(rows, item.start, item.start + item.count + 6)
    ensures forall k | 0 <= k < |rows| && rows[k].kind != D.Ctx :: Shown(k) in items
  {
    ShownAndGapsTotal(items);
    var flags := Unchanged(rows);
    forall k | 0 <= k < |rows|
      ensures Shown(k) in items <==> !Hidden(flags, expanded, k)
      ensures Hidden(flags, expanded, k) <==> FoldedAway(rows, expanded, k)
    {
      HiddenIn(rows, expanded, k);
      assert UpTo(|rows|)[k] == k;
      var item := StoodFor(items, k);
      if item.Gap? { GapHides(flags, expanded, item, k); }
    }
    forall item | item in items && item.Gap?
      ensures UnchangedRun(rows, item.start, item.start + item.count + 6)
    {
      RunIsUnchanged(rows, item.start, item.start + item.count + 6);
    }
  }

  // ---------- The tool clusters ----------

  const TOOL_CLUSTER_MIN := 3

  datatype RowItem = Cluster(members: seq<nat>) | Single(block: nat, isTail: bool)

  predicate Completed(b: T.Block) {
    b.body.Tool? && b.body.call.status == Value("completed")
  }

  function CompletedFlags(visible: seq<T.Block>): seq<bool> {
    seq(|visible|, k requires 0 <= k < |visible| => Completed(visible[k]))
  }

  function BlocksOf(item: RowItem): seq<nat> {
    match item
    case Cluster(members) => members
    case Single(k, _) => [k]
  }

  function AllBlocks(items: seq<RowItem>): seq<nat> {
    if items == [] then [] else AllBlocks(items[..|items| - 1]) + BlocksOf(items[|items| - 1])
  }

  lemma {:induction false} AllBlocksSnoc(items: seq<RowItem>, item: RowItem)
    ensures AllBlocks(items + [item]) == AllBlocks(items) + BlocksOf(item)
  {
    assert (items + [item])[..|items|] == items;
  }

  /** Block `k` belongs in a cluster: its run of completed tools has at least three members. */
  predicate Clustered(flags: seq<bool>, k: nat)
    requires k < |flags|
  {
    flags[k] && RunEnd(flags, k) - RunStart(flags, k) >= TOOL_CLUSTER_MIN
  }

  /** A cluster is one whole run of at least three; a single block belongs in no cluster and is the
      tail exactly when it is the last visible block. */
  ghost predicate Sound(flags: seq<bool>, item: RowItem) {
    match item
    case Cluster(members) =>
      exists i: nat, j: nat :: IsRun(flags, i, j) && j - i >= TOOL_CLUSTER_MIN && members == Span(i, j - i)
    case Single(k, isTail) =>
      k < |flags| && !Clustered(flags, k) && (isTail <==> k == |flags| - 1)
  }

  ghost predicate WalkedTo(flags: seq<bool>, items: seq<RowItem>, n: nat) {
    && AllBlocks(items) == UpTo(n)
    && forall item | item in items :: Sound(flags, item)
  }

  lemma {:induction false} EmitRow(flags: seq<bool>, items: seq<RowItem>, n: nat, item: RowItem)
    requires WalkedTo(flags, items, n) && Sound(flags, item)
    requires BlocksOf(item) == Span(n, |BlocksOf(item)|)
    ensures WalkedTo(flags, items + [item], n + |BlocksOf(item)|)
  {
    AllBlocksSnoc(items, item);
    UpToExtend(n, |BlocksOf(item)|);
  }

  predicate DistinctIds(visible: seq<T.Block>) {
    forall k, l | 0 <= k < l < |visible| :: visible[k].id != visible[l].id
  }

  lemma {:induction false} TailById(visible: seq<T.Block>, k: nat)
    requires DistinctIds(visible) && k < |visible|
    ensures visible[k].id == visible[|visible| - 1].id <==> k == |visible| - 1
  {
  }

  /** A run being gathered: `run` lists `[from, i)`, all completed, and nothing completed is right before it. */
  ghost predicate Gathered(flags: seq<bool>, run: seq<nat>, from: nat, i: nat) {
    && from <= i <= |flags| && run == Span(from, i - from)
    && (forall l | from <= l < i :: flags[l])
    && (from == 0 || from == |flags| || !flags[from - 1])
  }

  lemma {:induction false} GatherOne(flags: seq<bool>, run: seq<nat>, from: nat, i: nat)
    requires Gathered(flags, run, from, i) && i < |flags| && flags[i]
    ensures Gathered(flags, run + [i], from, i + 1)
  {
  }

  /** A long run goes out as one cluster. */
  lemma {:induction false} EmitCluster(flags: seq<bool>, items: seq<RowItem>, run: seq<nat>, i: nat, j: nat)
    requires WalkedTo(flags, items, i) && Gathered(flags, run, i, j) && |run| >= TOOL_CLUSTER_MIN
    requires j == |flags| || !flags[j]
    ensures WalkedTo(flags, items + [Cluster(run)], j)
  {
    assert IsRun(flags, i, j);
    EmitRow(flags, items, i, Cluster(run));
  }

  /** A member of a short run goes out alone. */
  lemma {:induction false} EmitMember(visible: seq<T.Block>, items: seq<RowItem>, i: nat, j: nat, k: nat)
    requires DistinctIds(visible)
    requires IsRun(CompletedFlags(visible), i, j) && j - i < TOOL_CLUSTER_MIN && i <= k < j
    requires WalkedTo(CompletedFlags(visible), items, k)
    ensures WalkedTo(CompletedFlags(visible),
                     items + [Single(k, visible[k].id == visible[|visible| - 1].id)], k + 1)
  {
    TailById(visible, k);
    EmitRow(CompletedFlags(visible), items, k, Single(k, visible[k].id == visible[|visible| - 1].id));
  }

  /** The members of a short run, one by one. */
  method ShowMembers(visible: seq<T.Block>, shown: seq<RowItem>, run: seq<nat>, tailId: int, ghost i: nat, ghost j: nat)
    returns (items: seq<RowItem>)
    requires DistinctIds(visible) && visible != [] && tailId == visible[|visible| - 1].id
    requires IsRun(CompletedFlags(visible), i, j) && j - i < TOOL_CLUSTER_MIN && run == Span(i, j - i)
    requires WalkedTo(CompletedFlags(visible), shown, i)
    ensures WalkedTo(CompletedFlags(visible), items, j)
  {
    items := shown;
    for l := 0 to |run|
      invariant WalkedTo(CompletedFlags(visible), items, i + l)
    {
      EmitMember(visible, items, i, j, i + l);
      items := items + [Single(run[l], visible[run[l]].id == tailId)];
    }
  }

  /** Emits a finished run `[i, j)` of completed tools: one cluster, or its members one by one. */
  method FlushRun(visible: seq<T.Block>, done: seq<RowItem>, run: seq<nat>, tailId: int, ghost i: nat, ghost j: nat)
    returns (items: seq<RowItem>)
    requires DistinctIds(visible) && visible != [] && tailId == visible[|visible| - 1].id
    requires Gathered(CompletedFlags(visible), run, i, j)
    requires j == |visible| || !CompletedFlags(visible)[j]
    requires WalkedTo(CompletedFlags(visible), done, i)
    ensures WalkedTo(CompletedFlags(visible), items, j)
  {
    ghost var flags := CompletedFlags(visible);
    items := done;
    if |run| == 0 { return; }
    if |run| >= TOOL_CLUSTER_MIN {
      EmitCluster(flags, items, run, i, j);
      items := items + [Cluster(run)];
      return;
    }
    items := ShowMembers(visible, items, run, tailId, i, j);
  }

  /** A block that is no completed tool goes out alone, and nothing completed is right before the next. */
  lemma {:induction false} EmitOther(visible: seq<T.Block>, items: seq<RowItem>, i: nat)
    requires i < |visible| && !Completed(visible[i]) && WalkedTo(CompletedFlags(visible), items, i)
    ensures WalkedTo(CompletedFlags(visible), items + [Single(i, i + 1 >= |visible|)], i + 1)
    ensures Gathered(CompletedFlags(visible), [], i + 1, i + 1)
  {
    EmitRow(CompletedFlags(visible), items, i, Single(i, i + 1 >= |visible|));
  }

  /** The walk over the visible blocks, whose ids are pairwise distinct. */
  method ClusterWalk(visible: seq<T.Block>) returns (items: seq<RowItem>)
    requires DistinctIds(visible)
    ensures WalkedTo(CompletedFlags(visible), items, |visible|)
  {
    var tailId := if |visible| > 0 then visible[|visible| - 1].id as int else -1;
    items := [];
    var run: seq<nat> := [];
    ghost var from := 0;
    for i := 0 to |visible|
      invariant Gathered(CompletedFlags(visible), run, from, i) && WalkedTo(CompletedFlags(visible), items, from)
    {
      if visible[i].body.Tool? && visible[i].body.call.status == Value("completed") {
        GatherOne(CompletedFlags(visible), run, from, i);
        run := run + [i];
        continue;
      }
      items := FlushRun(visible, items, run, tailId, from, i);
      run := [];
      EmitOther(visible, items, i);
      items := items + [Single(i, i + 1 >= |visible|)];
      from := i + 1;
    }
    if |visible| > 0 { items := FlushRun(visible, items, run, tailId, from, |visible|); }
  }

  lemma {:induction false} InSomeItem(items: seq<RowItem>, k: nat) returns (item: RowItem)
    requires k in AllBlocks(items)
    ensures item in items && k in BlocksOf(item)
  {
    var n := |items| - 1;
    if k in BlocksOf(items[n]) { item := items[n]; } else { item := InSomeItem(items[..n], k); }
  }

  lemma {:induction false} InsideRun(flags: seq<bool>, cluster: RowItem, k: nat)
    requires cluster.Cluster? && Sound(flags, cluster) && k in cluster.members
    ensures k < |flags| && Clustered(flags, k)
  {
    var i: nat, j: nat :| IsRun(flags, i, j) && j - i >= TOOL_CLUSTER_MIN && cluster.members == Span(i, j - i);
  }

  /** The blocks `[i, j)` are cards of completed tools, and those around them are not. */
  ghost predicate CompletedRun(visible: seq<T.Block>, i: nat, j: nat) {
    && i < j <= |visible|
    && (forall l | i <= l < j :: visible[l].body.Tool? && visible[l].body.call.status == Value("completed"))
    && (i == 0 || !(visible[i - 1].body.Tool? && visible[i - 1].body.call.status == Value("completed")))
    && (j == |visible| || !(visible[j].body.Tool? && visible[j].body.call.status == Value("completed")))
  }

  lemma {:induction false} RunIsCompleted(visible: seq<T.Block>, i: nat, j: nat)
    ensures IsRun(CompletedFlags(visible), i, j) <==> CompletedRun(visible, i, j)
  {
    var flags := CompletedFlags(visible);
    assert forall l | 0 <= l < |visible| :: flags[l] <==> Completed(visible[l]);
  }

  /** The block is in a run of at least three completed tools. */
  ghost predicate InLongRun(visible: seq<T.Block>, k: nat) {
    exists i: nat, j: nat :: CompletedRun(visible, i, j) && j - i >= 3 && i <= k < j
  }

  lemma {:induction false} ClusteredIn(visible: seq<T.Block>, k: nat)
    requires k < |visible|
    ensures Clustered(CompletedFlags(visible), k) <==> InLongRun(visible, k)
  {
    var flags := CompletedFlags(visible);
    if flags[k] {
      var start, end := RunStart(flags, k), RunEnd(flags, k);
      RunIsCompleted(visible, start, end);
      forall i: nat, j: nat | CompletedRun(visible, i, j) && i <= k < j
        ensures i == start && j == end
      {
        RunIsCompleted(visible, i, j);
      }
    }
  }

  /** The items flatten back to the visible blocks, and a block is inside a cluster exactly when its run
      of completed tools has at least three members: a failed or running tool never is. */
  lemma {:induction false} ClustersExactly(visible: seq<T.Block>, items: seq<RowItem>, k: nat)
    requires WalkedTo(CompletedFlags(visible), items, |visible|) && k < |visible|
    ensures (exists item :: item in items && item.Cluster? && k in item.members) <==>
            InLongRun(visible, k)
    ensures InLongRun(visible, k) ==> Completed(visible[k])
  {
    ClusteredIn(visible, k);
    var flags := CompletedFlags(visible);
    assert UpTo(|visible|)[k] == k;
    var item := InSomeItem(items, k);
    if other :| other in items && other.Cluster? && k in other.members {
      InsideRun(flags, other, k);
    }
  }
}
