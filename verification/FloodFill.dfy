/** Flood-filling the near-white background that touches the border to transparency. */
module FloodFill {
  datatype Pixel = Pixel(r: nat, g: nat, b: nat, a: nat)

  const CLEAR := Pixel(255, 255, 255, 0)

  type Cell = (int, int)

  predicate NearWhite(p: Pixel) {
    p.r > 242 && p.g > 242 && p.b > 242
  }

  // ---------- What should become transparent ----------

  predicate Inside(c: Cell, w: nat, h: nat) {
    0 <= c.0 < w && 0 <= c.1 < h
  }

  predicate OnBorder(c: Cell, w: nat, h: nat) {
    c.0 == 0 || c.0 == w - 1 || c.1 == 0 || c.1 == h - 1
  }

  /** The neighbour in direction `d`, in the order the source visits them. */
  function Neighbour(c: Cell, d: nat): Cell
    requires d < 4
  {
    if d == 0 then (c.0 + 1, c.1) else if d == 1 then (c.0 - 1, c.1)
    else if d == 2 then (c.0, c.1 + 1) else (c.0, c.1 - 1)
  }

  predicate Adjacent(c: Cell, d: Cell) {
    (c.1 == d.1 && (c.0 == d.0 + 1 || d.0 == c.0 + 1)) || (c.0 == d.0 && (c.1 == d.1 + 1 || d.1 == c.1 + 1))
  }

  /** The near-white pixels of an image. */
  ghost function Whites(px: array2<Pixel>): set<Cell>
    reads px
  {
    set x, y | 0 <= x < px.Length0 && 0 <= y < px.Length1 && NearWhite(px[x, y]) :: (x, y)
  }

  /** A walk through `white`, from a border pixel, one step up, down, left or right at a time. */
  ghost predicate Walk(path: seq<Cell>, white: set<Cell>, w: nat, h: nat) {
    && path != [] && OnBorder(path[0], w, h)
    && (forall i | 0 <= i < |path| :: path[i] in white)
    && (forall i | 0 < i < |path| :: Adjacent(path[i - 1], path[i]))
  }

  /** The background: what some walk from the border ends on. */
  ghost predicate Background(c: Cell, white: set<Cell>, w: nat, h: nat) {
    exists path :: Walk(path, white, w, h) && path[|path| - 1] == c
  }

  lemma {:induction false} BorderIsBackground(c: Cell, white: set<Cell>, w: nat, h: nat)
    requires c in white && OnBorder(c, w, h)
    ensures Background(c, white, w, h)
  {
    assert Walk([c], white, w, h);
  }

  lemma {:induction false} NextIsBackground(c: Cell, d: Cell, white: set<Cell>, w: nat, h: nat)
    requires Background(c, white, w, h) && d in white && Adjacent(c, d)
    ensures Background(d, white, w, h)
  {
    var path :| Walk(path, white, w, h) && path[|path| - 1] == c;
    var longer := path + [d];
    assert Walk(longer, white, w, h) && longer[|longer| - 1] == d;
  }

  /** `seen` has every white border pixel and, with each pixel in it, every white neighbour. */
  ghost predicate Closed(seen: set<Cell>, white: set<Cell>, w: nat, h: nat) {
    && (forall c | c in white && OnBorder(c, w, h) :: c in seen)
    && (forall c, d | c in seen && d in white && Adjacent(c, d) :: d in seen)
  }

  /** A closed set holds the end of every walk. */
  lemma {:induction false} ClosedHoldsWalks(path: seq<Cell>, seen: set<Cell>, white: set<Cell>, w: nat, h: nat)
    requires Walk(path, white, w, h) && Closed(seen, white, w, h)
    ensures path[|path| - 1] in seen
    decreases |path|
  {
    var n := |path| - 1;
    if n > 0 {
      assert Walk(path[..n], white, w, h);
      ClosedHoldsWalks(path[..n], seen, white, w, h);
      assert Adjacent(path[n - 1], path[n]);
    }
  }

  lemma {:induction false} ClosedIsBackground(seen: set<Cell>, white: set<Cell>, w: nat, h: nat)
    requires Closed(seen, white, w, h)
    requires forall c | c in seen :: Background(c, white, w, h)
    ensures forall c :: c in seen <==> Background(c, white, w, h)
  {
    forall c | Background(c, white, w, h)
      ensures c in seen
    {
      var path :| Walk(path, white, w, h) && path[|path| - 1] == c;
      ClosedHoldsWalks(path, seen, white, w, h);
    }
  }

  // ---------- The search ----------

  /** No cell twice. */
  ghost predicate Once(cells: seq<Cell>) {
    forall i, j | 0 <= i < j < |cells| :: cells[i] != cells[j]
  }

  ghost predicate SeenIs(seen: array2<bool>, entered: seq<Cell>)
    reads seen
  {
    forall x, y | 0 <= x < seen.Length0 && 0 <= y < seen.Length1 :: seen[x, y] <==> (x, y) in entered
  }

  /** Every cell that has entered the queue is background, and none entered twice. */
  ghost predicate Sound(entered: seq<Cell>, white: set<Cell>, w: nat, h: nat) {
    Once(entered) && forall c | c in entered :: c in white && Background(c, white, w, h)
  }

  /** A pixel at the border joins the queue when it is near-white and not seen. */
  method Seed(px: array2<Pixel>, seen: array2<bool>, q: seq<Cell>, x: int, y: int, ghost white: set<Cell>)
    returns (q': seq<Cell>)
    requires seen.Length0 == px.Length0 && seen.Length1 == px.Length1
    requires Inside((x, y), px.Length0, px.Length1) && OnBorder((x, y), px.Length0, px.Length1)
    requires white == Whites(px) && SeenIs(seen, q) && Sound(q, white, px.Length0, px.Length1)
    modifies seen
    ensures SeenIs(seen, q') && Sound(q', white, px.Length0, px.Length1)
    ensures (x, y) in white ==> (x, y) in q'
    ensures forall c | c in q :: c in q'
  {
    q' := q;
    if NearWhite(px[x, y]) && !seen[x, y] {
      BorderIsBackground((x, y), white, px.Length0, px.Length1);
      q' := q + [(x, y)];
      seen[x, y] := true;
    }
  }

  /** Column `x` has entered at its top and bottom. */
  ghost predicate RowsSeeded(x: int, h: nat, white: set<Cell>, q: seq<Cell>) {
    ((x, 0) in white ==> (x, 0) in q) && ((x, h - 1) in white ==> (x, h - 1) in q)
  }

  /** The near-white pixels of the top and bottom rows, each once. */
  method SeedRows(px: array2<Pixel>, seen: array2<bool>, ghost white: set<Cell>) returns (q: seq<Cell>)
    requires seen.Length0 == px.Length0 && seen.Length1 == px.Length1
    requires px.Length0 > 0 && px.Length1 > 0
    requires white == Whites(px) && SeenIs(seen, [])
    modifies seen
    ensures SeenIs(seen, q) && Sound(q, white, px.Length0, px.Length1)
    ensures forall x | 0 <= x < px.Length0 :: RowsSeeded(x, px.Length1, white, q)
  {
    q := [];
    for x := 0 to px.Length0
      invariant SeenIs(seen, q) && Sound(q, white, px.Length0, px.Length1)
      invariant forall k | 0 <= k < x :: RowsSeeded(k, px.Length1, white, q)
    {
      ghost var was := q;
      q := Seed(px, seen, q, x, 0, white);
      q := Seed(px, seen, q, x, px.Length1 - 1, white);
      forall k | 0 <= k < x
        ensures RowsSeeded(k, px.Length1, white, q)
      {
        assert RowsSeeded(k, px.Length1, white, was);
      }
    }
  }

  /** Row `y` has entered at its left and right. */
  ghost predicate ColumnsSeeded(y: int, w: nat, white: set<Cell>, q: seq<Cell>) {
    ((0, y) in white ==> (0, y) in q) && ((w - 1, y) in white ==> (w - 1, y) in q)
  }

  /** The near-white pixels of the left and right columns join those of the top and bottom rows. */
  method SeedColumns(px: array2<Pixel>, seen: array2<bool>, rows: seq<Cell>, ghost white: set<Cell>)
    returns (q: seq<Cell>)
    requires seen.Length0 == px.Length0 && seen.Length1 == px.Length1
    requires px.Length0 > 0 && px.Length1 > 0
    requires white == Whites(px) && SeenIs(seen, rows) && Sound(rows, white, px.Length0, px.Length1)
    requires forall x | 0 <= x < px.Length0 :: RowsSeeded(x, px.Length1, white, rows)
    modifies seen
    ensures SeenIs(seen, q) && Sound(q, white, px.Length0, px.Length1)
    ensures forall c | c in white && OnBorder(c, px.Length0, px.Length1) :: c in q
  {
    var w, h := px.Length0, px.Length1;
    q := rows;
    for y := 0 to h
      invariant SeenIs(seen, q) && Sound(q, white, w, h)
      invariant forall c | c in rows :: c in q
      invariant forall k | 0 <= k < y :: ColumnsSeeded(k, w, white, q)
    {
      ghost var was := q;
      q := Seed(px, seen, q, 0, y, white);
      q := Seed(px, seen, q, w - 1, y, white);
      forall k | 0 <= k < y
        ensures ColumnsSeeded(k, w, white, q)
      {
        assert ColumnsSeeded(k, w, white, was);
      }
    }
    forall c | c in white && OnBorder(c, w, h)
      ensures c in q
    {
      assert RowsSeeded(c.0, h, white, rows) && ColumnsSeeded(c.1, w, white, q);
    }
  }

  /** The neighbours of `c` in the first `n` directions that are near-white have entered. */
  ghost predicate Visited(c: Cell, n: nat, entered: seq<Cell>, white: set<Cell>)
    requires n <= 4
  {
    forall d: nat | d < n :: Neighbour(c, d) in white ==> Neighbour(c, d) in entered
  }

  /** How the image stands once the cells of `done` have been cleared. */
  ghost predicate Cleared(px: array2<Pixel>, before: map<Cell, Pixel>, done: seq<Cell>)
    reads px
  {
    forall x, y | 0 <= x < px.Length0 && 0 <= y < px.Length1 ::
      (x, y) in before && px[x, y] == if (x, y) in done then CLEAR else before[(x, y)]
  }

  ghost function WhitesOf(before: map<Cell, Pixel>, w: nat, h: nat): set<Cell> {
    set c | c in before && Inside(c, w, h) && NearWhite(before[c])
  }

  /** One neighbour of `c` joins the queue when it is inside, near-white and not seen. */
  method VisitOne(px: array2<Pixel>, seen: array2<bool>, q: seq<Cell>, c: Cell, d: nat, ghost done: seq<Cell>,
                  ghost before: map<Cell, Pixel>, ghost white: set<Cell>) returns (q': seq<Cell>)
    requires seen.Length0 == px.Length0 && seen.Length1 == px.Length1
    requires c in done && d < 4 && Cleared(px, before, done)
    requires WhitesOf(before, px.Length0, px.Length1) == white
    requires SeenIs(seen, done + q) && Sound(done + q, white, px.Length0, px.Length1)
    modifies seen
    ensures SeenIs(seen, done + q') && Sound(done + q', white, px.Length0, px.Length1)
    ensures Neighbour(c, d) in white ==> Neighbour(c, d) in done + q'
    ensures forall e | e in done + q :: e in done + q'
  {
    var n := Neighbour(c, d);
    q' := q;
    if 0 <= n.0 < px.Length0 && 0 <= n.1 < px.Length1 && !seen[n.0, n.1] && NearWhite(px[n.0, n.1]) {
      assert n !in done + q;
      assert c in done + q;
      NextIsBackground(c, n, white, px.Length0, px.Length1);
      seen[n.0, n.1] := true;
      q' := q + [n];
      assert done + q' == done + q + [n];
    }
  }

  /** The near-white neighbours of `c` not seen yet join the queue. */
  method VisitNeighbours(px: array2<Pixel>, seen: array2<bool>, q: seq<Cell>, c: Cell, ghost done: seq<Cell>,
                         ghost before: map<Cell, Pixel>, ghost white: set<Cell>) returns (q': seq<Cell>)
    requires seen.Length0 == px.Length0 && seen.Length1 == px.Length1
    requires c in done && Cleared(px, before, done)
    requires WhitesOf(before, px.Length0, px.Length1) == white
    requires SeenIs(seen, done + q) && Sound(done + q, white, px.Length0, px.Length1)
    modifies seen
    ensures SeenIs(seen, done + q') && Sound(done + q', white, px.Length0, px.Length1)
    ensures Visited(c, 4, done + q', white)
    ensures forall e | e in done + q :: e in done + q'
  {
    q' := q;
    for d := 0 to 4
      invariant SeenIs(seen, done + q') && Sound(done + q', white, px.Length0, px.Length1)
      invariant Visited(c, d, done + q', white)
      invariant forall e | e in done + q :: e in done + q'
    {
      q' := VisitOne(px, seen, q', c, d, done, before, white);
    }
  }

  /** The search stands with `done` popped and `q` waiting: everything popped has had its neighbours
      visited, and the image is cleared where it was popped. */
  ghost predicate Searching(px: array2<Pixel>, seen: array2<bool>, q: seq<Cell>, done: seq<Cell>,
                            before: map<Cell, Pixel>, white: set<Cell>)
    reads px, seen
  {
    && seen.Length0 == px.Length0 && seen.Length1 == px.Length1
    && WhitesOf(before, px.Length0, px.Length1) == white
    && SeenIs(seen, done + q) && Sound(done + q, white, px.Length0, px.Length1)
    && Cleared(px, before, done)
    && (forall c | c in white && OnBorder(c, px.Length0, px.Length1) :: c in done + q)
    && (forall c | c in done :: Visited(c, 4, done + q, white))
  }

  /** The cell at the head of the queue is near-white and has not been popped before. */
  lemma {:induction false} PoppedHead(done: seq<Cell>, q: seq<Cell>, white: set<Cell>, w: nat, h: nat)
    requires q != [] && Sound(done + q, white, w, h)
    ensures q[0] in white && q[0] !in done
    ensures done + [q[0]] + q[1..] == done + q
  {
    var all := done + q;
    assert all[|done|] == q[0];
    assert forall i | 0 <= i < |done| :: all[i] == done[i];
  }

  /** One turn of the loop: the cell popped is cleared, and its neighbours join the queue. */
  method PopOne(px: array2<Pixel>, seen: array2<bool>, q: seq<Cell>, ghost done: seq<Cell>,
                ghost before: map<Cell, Pixel>, ghost white: set<Cell>) returns (q': seq<Cell>)
    requires q != [] && px as object != seen && Searching(px, seen, q, done, before, white)
    modifies px, seen
    ensures Searching(px, seen, q', done + [q[0]], before, white)
    ensures q[0] in white && q[0] !in done
  {
    var c := q[0];
    ghost var more := done + [c];
    PoppedHead(done, q, white, px.Length0, px.Length1);
    px[c.0, c.1] := CLEAR;
    q' := VisitNeighbours(px, seen, q[1..], c, more, before, white);
  }

  lemma {:induction false} FillsBackground(done: seq<Cell>, white: set<Cell>, w: nat, h: nat)
    requires Sound(done, white, w, h)
    requires forall c | c in white && OnBorder(c, w, h) :: c in done
    requires forall c | c in done :: Visited(c, 4, done, white)
    ensures forall c :: c in done <==> Background(c, white, w, h)
  {
    var seen := set c | c in done;
    forall c, d | c in seen && d in white && Adjacent(c, d)
      ensures d in seen
    {
      assert Neighbour(c, 0) == d || Neighbour(c, 1) == d || Neighbour(c, 2) == d || Neighbour(c, 3) == d;
    }
    ClosedIsBackground(seen, white, w, h);
  }

  /** For every image with at least one pixel: the pixels that end up white and transparent are exactly the
      background, a pixel of it being one with red, green and blue of at least 243; every other pixel is
      unchanged; and `entered`, the cells that went through the queue, has each background pixel exactly
      once. */
  method WhitenessToAlpha(px: array2<Pixel>) returns (ghost entered: seq<Cell>)
    requires px.Length0 > 0 && px.Length1 > 0
    modifies px
    ensures forall x, y | 0 <= x < px.Length0 && 0 <= y < px.Length1 ::
              (x, y) in old(Whites(px)) <==> old(px[x, y].r >= 243 && px[x, y].g >= 243 && px[x, y].b >= 243)
    ensures forall x, y | 0 <= x < px.Length0 && 0 <= y < px.Length1 ::
              if Background((x, y), old(Whites(px)), px.Length0, px.Length1)
              then px[x, y].a == 0 && px[x, y].r == px[x, y].g == px[x, y].b == 255
              else px[x, y] == old(px[x, y])
    ensures Once(entered)
    ensures forall c :: c in entered <==> Background(c, old(Whites(px)), px.Length0, px.Length1)
  {
    ghost var white := Whites(px);
    ghost var before := map x, y | 0 <= x < px.Length0 && 0 <= y < px.Length1 :: (x, y) := px[x, y];
    var seen := new bool[px.Length0, px.Length1]((_, _) => false);
    var q := SeedRows(px, seen, white);
    q := SeedColumns(px, seen, q, white);
    entered := [];
    assert [] + q == q;
    ghost var left := white;
    while q != []
      invariant Searching(px, seen, q, entered, before, white)
      invariant forall c | c in white && c !in entered :: c in left
      decreases left
    {
      ghost var popped := q[0];
      q := PopOne(px, seen, q, entered, before, white);
      entered := entered + [popped];
      left := left - {popped};
    }
    assert entered + [] == entered;
    FillsBackground(entered, white, px.Length0, px.Length1);
  }
}
