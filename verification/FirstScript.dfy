/** Which of the shortest scripts the line diff gives: the first, so that nothing of it is left open. */
module FirstScript {
  import opened Sequences
  import opened LineDiff
  import opened Wrappers

  function Kinds(rows: seq<Row>): seq<Kind> {
    seq(|rows|, k requires 0 <= k < |rows| => rows[k].kind)
  }

  /** A kept line comes before a deletion, and that before an addition. */
  function Rank(kind: Kind): nat {
    match kind
    case Ctx => 0
    case Del => 1
    case Add => 2
  }

  /** `a` is `b`, or comes before it where they first differ. */
  predicate NotAfter(a: seq<Kind>, b: seq<Kind>) {
    if a == [] || b == [] then a == b
    else if a[0] == b[0] then NotAfter(a[1..], b[1..])
    else Rank(a[0]) < Rank(b[0])
  }

  lemma {:induction false} SidesAppend(first: seq<Row>, second: seq<Row>)
    ensures OldSide(first + second) == OldSide(first) + OldSide(second)
    ensures NewSide(first + second) == NewSide(first) + NewSide(second)
    ensures Kept(first + second) == Kept(first) + Kept(second)
  {
    if second == [] {
      assert first + second == first;
    } else {
      var front, last := second[..|second| - 1], second[|second| - 1];
      assert second == front + [last] && first + second == (first + front) + [last];
      SidesAppend(first, front);
      RowAdded(front, last);
      RowAdded(first + front, last);
    }
  }

  lemma {:induction false} RowCons(row: Row, rest: seq<Row>)
    ensures OldSide([row] + rest) == (if row.kind == Add then [] else [row.text]) + OldSide(rest)
    ensures NewSide([row] + rest) == (if row.kind == Del then [] else [row.text]) + NewSide(rest)
    ensures Kept([row] + rest) == (if row.kind == Ctx then 1 else 0) + Kept(rest)
  {
    SidesAppend([row], rest);
    RowAdded([], row);
    assert [] + [row] == [row];
  }

  /** A script for what is left of both sides. */
  ghost predicate Rest(rows: seq<Row>, a: seq<string>, b: seq<string>, i: nat, j: nat)
    requires i <= |a| && j <= |b|
  {
    OldSide(rows) == a[i..] && NewSide(rows) == b[j..]
  }

  /** What the first row of a script says, and what is left for the others. */
  lemma {:induction false} RestCons(rows: seq<Row>, a: seq<string>, b: seq<string>, i: nat, j: nat)
    requires i <= |a| && j <= |b| && rows != [] && Rest(rows, a, b, i, j)
    ensures var kind, rest := rows[0].kind, rows[1..];
            && Kept(rows) == (if kind == Ctx then 1 else 0) + Kept(rest)
            && (kind == Ctx ==> i < |a| && j < |b| && a[i] == b[j] && Rest(rest, a, b, i + 1, j + 1))
            && (kind == Del ==> i < |a| && Rest(rest, a, b, i + 1, j))
            && (kind == Add ==> j < |b| && Rest(rest, a, b, i, j + 1))
  {
    var row, rest := rows[0], rows[1..];
    assert rows == [row] + rest;
    RowCons(row, rest);
    if row.kind != Add { assert a[i..][0] == row.text && a[i..][1..] == OldSide(rest); }
    if row.kind != Del { assert b[j..][0] == row.text && b[j..][1..] == NewSide(rest); }
  }

  lemma {:induction false} RestKeeps(rows: seq<Row>, a: seq<string>, b: seq<string>, i: nat, j: nat)
    requires i <= |a| && j <= |b| && Rest(rows, a, b, i, j)
    ensures Kept(rows) <= Lcs(a, b, i, j)
    decreases |rows|
  {
    if rows != [] {
      RestCons(rows, a, b, i, j);
      LcsSlack(a, b, i, j);
      match rows[0].kind
      case Ctx => RestKeeps(rows[1..], a, b, i + 1, j + 1);
      case Del => RestKeeps(rows[1..], a, b, i + 1, j);
      case Add => RestKeeps(rows[1..], a, b, i, j + 1);
    }
  }

  /** What the walk does next. */
  function Turn(a: seq<string>, b: seq<string>, i: nat, j: nat): Kind
    requires i <= |a| && j <= |b| && (i < |a| || j < |b|)
  {
    if i < |a| && j < |b| then
      if a[i] == b[j] then Ctx else if Lcs(a, b, i + 1, j) >= Lcs(a, b, i, j + 1) then Del else Add
    else if i < |a| then Del
    else Add
  }

  function Turns(a: seq<string>, b: seq<string>, i: nat, j: nat): seq<Kind>
    requires i <= |a| && j <= |b|
    decreases |a| - i + |b| - j
  {
    if i == |a| && j == |b| then []
    else
      match Turn(a, b, i, j)
      case Ctx => [Ctx] + Turns(a, b, i + 1, j + 1)
      case Del => [Del] + Turns(a, b, i + 1, j)
      case Add => [Add] + Turns(a, b, i, j + 1)
  }

  lemma {:induction false} KindsSnoc(rows: seq<Row>, row: Row, rest: seq<Kind>)
    ensures Kinds(rows + [row]) + rest == Kinds(rows) + ([row.kind] + rest)
  {
  }

  /** The walk, one row further. */
  lemma {:induction false} NextTurn(a: seq<string>, b: seq<string>, i: nat, j: nat, rows: seq<Row>)
    returns (i': nat, j': nat, row: Row)
    requires i <= |a| && j <= |b| && (i < |a| || j < |b|)
    ensures i <= i' <= |a| && j <= j' <= |b| && i + j < i' + j'
    ensures row.kind == Turn(a, b, i, j)
    ensures Walk(a, b, i, j, rows) == Walk(a, b, i', j', rows + [row])
    ensures Turns(a, b, i, j) == [row.kind] + Turns(a, b, i', j')
  {
    match Turn(a, b, i, j)
    case Ctx => i', j', row := i + 1, j + 1, Row(Ctx, Some(|OldSide(rows)| + 1), Some(|NewSide(rows)| + 1), a[i]);
    case Del => i', j', row := i + 1, j, Row(Del, Some(|OldSide(rows)| + 1), None, a[i]);
    case Add => i', j', row := i, j + 1, Row(Add, None, Some(|NewSide(rows)| + 1), b[j]);
  }

  lemma {:induction false} WalkTurns(a: seq<string>, b: seq<string>, i: nat, j: nat, rows: seq<Row>)
    requires i <= |a| && j <= |b|
    ensures Kinds(Walk(a, b, i, j, rows)) == Kinds(rows) + Turns(a, b, i, j)
    decreases |a| - i + |b| - j
  {
    if i < |a| || j < |b| {
      var i', j', row := NextTurn(a, b, i, j, rows);
      WalkTurns(a, b, i', j', rows + [row]);
      KindsSnoc(rows, row, Turns(a, b, i', j'));
    }
  }

  /** Where a script that keeps as much as possible does something else than the walk, the walk comes first. */
  lemma {:induction false} OtherTurnIsLater(rows: seq<Row>, a: seq<string>, b: seq<string>, i: nat, j: nat)
    requires i <= |a| && j <= |b| && rows != [] && (i < |a| || j < |b|)
    requires Rest(rows, a, b, i, j) && Kept(rows) == Lcs(a, b, i, j)
    requires rows[0].kind != Turn(a, b, i, j)
    ensures Rank(Turn(a, b, i, j)) < Rank(rows[0].kind)
  {
    RestCons(rows, a, b, i, j);
    if Turn(a, b, i, j) == Add && rows[0].kind == Del {
      RestKeeps(rows[1..], a, b, i + 1, j);
    }
  }

  lemma {:induction false} TurnsComeFirst(rows: seq<Row>, a: seq<string>, b: seq<string>, i: nat, j: nat)
    requires i <= |a| && j <= |b| && Rest(rows, a, b, i, j) && Kept(rows) == Lcs(a, b, i, j)
    ensures NotAfter(Turns(a, b, i, j), Kinds(rows))
    decreases |rows|
  {
    if rows == [] {
      assert a[i..] == [] && b[j..] == [];
    } else {
      RestCons(rows, a, b, i, j);
      var kind, rest := rows[0].kind, rows[1..];
      assert Kinds(rows)[1..] == Kinds(rest) && Kinds(rows)[0] == kind;
      if kind != Turn(a, b, i, j) {
        OtherTurnIsLater(rows, a, b, i, j);
      } else {
        var i', j' := if kind == Add then i else i + 1, if kind == Del then j else j + 1;
        RestKeeps(rest, a, b, i', j');
        LcsSlack(a, b, i, j);
        TurnsComeFirst(rest, a, b, i', j');
        assert Turns(a, b, i, j) == [kind] + Turns(a, b, i', j');
      }
    }
  }

  /** Of all shortest scripts the walk gives the first, kept lines before deletions before additions. With the
      two sides and the numbers that leaves nothing of the diff open. */
  lemma {:induction false} DiffIsFirstOptimal(a: seq<string>, b: seq<string>, other: seq<Row>)
    requires |a| <= 900 && |b| <= 900
    requires Script(other, a, b) && Changes(other) == Changes(DiffRows(a, b))
    ensures NotAfter(Kinds(DiffRows(a, b)), Kinds(other))
  {
    DiffReconstructs(a, b);
    SidesAdd(DiffRows(a, b));
    SidesAdd(other);
    assert a[0..] == a && b[0..] == b;
    TurnsComeFirst(other, a, b, 0, 0);
    WalkTurns(a, b, 0, 0, []);
    assert Kinds([]) + Turns(a, b, 0, 0) == Turns(a, b, 0, 0);
  }
}
