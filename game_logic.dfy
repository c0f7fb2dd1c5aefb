/**
 * The Migoyugo board rule engine (server/gameLogic.js).
 *
 * The board is an 8x8 array of cells; a cell is empty or holds a stone of one colour.
 * A stone that completed a line of exactly four becomes a permanent marker ("yugo")
 * with a rank. The specification functions below work on a value snapshot of the board
 * (`Grid`); the methods work on the array, in the same loops as the source, and are
 * proved against those functions.
 */
module GameLogic {
  import opened Wrappers

  datatype Color = White | Black

  function Other(c: Color): Color
  {
    if c == White then Black else White
  }

  /** The yugoType of a marker; Unranked is a stone placed without one. */
  datatype Rank = Unranked | Standard | Double | Triple | Quadruple

  datatype Cell = Empty | Stone(color: Color, isYugo: bool, yugoType: Rank)

  datatype Pos = Pos(row: int, col: int)

  /** A step on the board: (dr, dc). */
  datatype Dir = Dir(dr: int, dc: int)

  /** A value snapshot of the board, indexed [row][col]. */
  type Grid = seq<seq<Cell>>

  predicate IsGrid(g: Grid)
  {
    |g| == 8 && forall r :: 0 <= r < 8 ==> |g[r]| == 8
  }

  predicate InBounds(p: Pos)
  {
    0 <= p.row < 8 && 0 <= p.col < 8
  }

  function At(g: Grid, p: Pos): Cell
    requires IsGrid(g) && InBounds(p)
  {
    g[p.row][p.col]
  }

  /** The contents of the board array as a value. */
  ghost function Snapshot(b: array2<Cell>): (g: Grid)
    requires b.Length0 == 8 && b.Length1 == 8
    reads b
    ensures IsGrid(g)
    ensures forall r, c :: 0 <= r < 8 && 0 <= c < 8 ==> g[r][c] == b[r, c]
  {
    seq(8, r reads b requires 0 <= r < 8 => seq(8, c reads b requires 0 <= c < 8 => b[r, c]))
  }

  /** Two grids with the same cells are the same grid. */
  lemma GridExt(g: Grid, h: Grid)
    requires IsGrid(g) && IsGrid(h)
    requires forall r, c :: 0 <= r < 8 && 0 <= c < 8 ==> g[r][c] == h[r][c]
    ensures g == h
  {
    forall r | 0 <= r < 8
      ensures g[r] == h[r]
    {
      assert forall c :: 0 <= c < 8 ==> g[r][c] == h[r][c];
    }
  }

  function EmptyGrid(): (g: Grid)
    ensures IsGrid(g)
  {
    seq(8, r => seq(8, c => Empty))
  }

  /** The grid g with cell p replaced by x. */
  function Place(g: Grid, p: Pos, x: Cell): (h: Grid)
    requires IsGrid(g) && InBounds(p)
    ensures IsGrid(h)
  {
    g[p.row := g[p.row][p.col := x]]
  }

  // ---------------------------------------------------------------- directions and runs

  predicate IsUnit(d: Dir)
  {
    -1 <= d.dr <= 1 && -1 <= d.dc <= 1 && (d.dr != 0 || d.dc != 0)
  }

  /** The eight directions, in the order of the `directions` lists (gameLogic.js:20-24, 126-130). */
  function Direction(i: nat): (d: Dir)
    requires i < 8
    ensures IsUnit(d)
  {
    if i == 0 then Dir(-1, -1) else if i == 1 then Dir(-1, 0) else if i == 2 then Dir(-1, 1)
    else if i == 3 then Dir(0, -1) else if i == 4 then Dir(0, 1)
    else if i == 5 then Dir(1, -1) else if i == 6 then Dir(1, 0) else Dir(1, 1)
  }

  /** The four capture axes: up, up-right, right, down-right (gameLogic.js:59-64). */
  function YugoDirection(j: nat): (d: Dir)
    requires j < 4
    ensures IsUnit(d)
  {
    if j == 0 then Dir(-1, 0) else if j == 1 then Dir(-1, 1) else if j == 2 then Dir(0, 1) else Dir(1, 1)
  }

  function Add(p: Pos, d: Dir): Pos
  {
    Pos(p.row + d.dr, p.col + d.dc)
  }

  function Neg(d: Dir): Dir
  {
    Dir(-d.dr, -d.dc)
  }

  /** k * x for a step component x in -1..1, written without multiplication. */
  function Times(k: int, x: int): int
    requires -1 <= x <= 1
  {
    if x == 1 then k else if x == -1 then -k else 0
  }

  /** Times is linear in k and odd in both arguments. */
  lemma TimesFacts(k: int, x: int)
    requires -1 <= x <= 1
    ensures Times(k + 1, x) == Times(k, x) + x
    ensures Times(k, -x) == -Times(k, x)
    ensures Times(-k, x) == -Times(k, x)
  {
  }

  /** The cell k steps from p in direction d (k may be negative). */
  function Offset(p: Pos, d: Dir, k: int): Pos
    requires IsUnit(d)
  {
    Pos(p.row + Times(k, d.dr), p.col + Times(k, d.dc))
  }

  /** A bound on how many more in-range cells a walk from p in direction d can visit. */
  function Reach(p: Pos, d: Dir): nat
  {
    if !InBounds(p) then 0
    else
      (if d.dr > 0 then 8 - p.row else if d.dr < 0 then p.row + 1 else 0)
      + (if d.dc > 0 then 8 - p.col else if d.dc < 0 then p.col + 1 else 0)
  }

  /** Does the walk continue over this cell? Same colour, and a marker too when markersOnly. */
  predicate Matches(x: Cell, color: Color, markersOnly: bool)
  {
    x.Stone? && x.color == color && (markersOnly ==> x.isYugo)
  }

  /** The number of consecutive matching cells from p onwards in direction d. */
  function Run(g: Grid, p: Pos, d: Dir, color: Color, markersOnly: bool): nat
    requires IsGrid(g) && IsUnit(d)
    decreases Reach(p, d)
  {
    if InBounds(p) && Matches(At(g, p), color, markersOnly)
    then 1 + Run(g, Add(p, d), d, color, markersOnly)
    else 0
  }

  /** The cells from m steps behind p to n steps ahead of p, from the negative end to the positive end. */
  function Line(p: Pos, d: Dir, m: nat, n: nat): (l: seq<Pos>)
    requires IsUnit(d)
    ensures |l| == m + n + 1
  {
    seq(m + n + 1, i => Offset(p, d, i - m))
  }

  /** The cells through p and its neighbours that walk in d, as the source assembles them (push, unshift). */
  function AxisLine(g: Grid, p: Pos, d: Dir, color: Color, markersOnly: bool): seq<Pos>
    requires IsGrid(g) && IsUnit(d)
  {
    Line(p, d, Run(g, Add(p, Neg(d)), Neg(d), color, markersOnly), Run(g, Add(p, d), d, color, markersOnly))
  }

  /** 1 + the matching cells on both sides of p along the axis of d. */
  function AxisCount(g: Grid, p: Pos, d: Dir, color: Color, markersOnly: bool): nat
    requires IsGrid(g) && IsUnit(d)
  {
    1 + Run(g, Add(p, d), d, color, markersOnly) + Run(g, Add(p, Neg(d)), Neg(d), color, markersOnly)
  }

  lemma LinePush(p: Pos, d: Dir, m: nat, n: nat)
    requires IsUnit(d)
    ensures Line(p, d, m, n) + [Offset(p, d, n + 1)] == Line(p, d, m, n + 1)
  {
  }

  lemma LineUnshift(p: Pos, d: Dir, m: nat, n: nat)
    requires IsUnit(d)
    ensures [Offset(p, d, -(m + 1))] + Line(p, d, m, n) == Line(p, d, m + 1, n)
  {
    var l, l' := [Offset(p, d, -(m + 1))] + Line(p, d, m, n), Line(p, d, m + 1, n);
    forall i | 0 <= i < |l|
      ensures l[i] == l'[i]
    {
      if i > 0 {
        assert l[i] == Line(p, d, m, n)[i - 1];
      }
    }
  }

  // ---------------------------------------------------------------- move legality

  /** Some direction has more than four same-coloured cells through p (gameLogic.js:19-56). */
  ghost predicate LineTooLong(g: Grid, p: Pos, color: Color)
    requires IsGrid(g)
  {
    exists i: nat :: i < 8 && AxisCount(g, p, Direction(i), color, false) > 4
  }

  /** In range, empty, and no line longer than four (gameLogic.js:11-17). */
  ghost predicate ValidMove(g: Grid, row: int, col: int, color: Color)
    requires IsGrid(g)
  {
    InBounds(Pos(row, col)) && g[row][col] == Empty && !LineTooLong(g, Pos(row, col), color)
  }

  ghost predicate HasLegalMove(g: Grid, color: Color)
    requires IsGrid(g)
  {
    exists r, c :: 0 <= r < 8 && 0 <= c < 8 && ValidMove(g, r, c, color)
  }

  // ---------------------------------------------------------------- capture lines

  /** The lines of exactly four among the first n capture axes, in axis order. */
  function YugoLinesUpTo(g: Grid, p: Pos, color: Color, n: nat): seq<seq<Pos>>
    requires IsGrid(g) && n <= 4
  {
    if n == 0 then []
    else
      var l := AxisLine(g, p, YugoDirection(n - 1), color, false);
      YugoLinesUpTo(g, p, color, n - 1) + (if |l| == 4 then [l] else [])
  }

  /** The capture lines completed through p (gameLogic.js:58-96). */
  function YugoLines(g: Grid, p: Pos, color: Color): seq<seq<Pos>>
    requires IsGrid(g)
  {
    YugoLinesUpTo(g, p, color, 4)
  }

  /** The cells of the lines, line after line. */
  function Flatten(ls: seq<seq<Pos>>): seq<Pos>
  {
    if ls == [] then [] else Flatten(ls[..|ls| - 1]) + ls[|ls| - 1]
  }

  predicate AllInBounds(cells: seq<Pos>)
  {
    forall k :: 0 <= k < |cells| ==> InBounds(cells[k])
  }

  /** A cell that capture processing removes: a stone that is not a marker. */
  predicate Clearable(x: Cell)
  {
    x.Stone? && !x.isYugo
  }

  /**
   * The cells that capture processing removes, in the order visited: every cell of the
   * lines other than the placed cell that holds a non-marker stone, each the first time
   * it is visited (after that it is empty).
   */
  function Removed(g: Grid, cells: seq<Pos>, placed: Pos): seq<Pos>
    requires IsGrid(g) && AllInBounds(cells)
  {
    if cells == [] then []
    else
      var pre := Removed(g, cells[..|cells| - 1], placed);
      var q := cells[|cells| - 1];
      if q != placed && Clearable(At(g, q)) && q !in pre then pre + [q] else pre
  }

  /** The grid g with the given cells emptied. */
  function ClearCells(g: Grid, cells: seq<Pos>): (h: Grid)
    requires IsGrid(g)
    ensures IsGrid(h)
  {
    seq(8, r requires 0 <= r < 8 => seq(8, c requires 0 <= c < 8 => if Pos(r, c) in cells then Empty else g[r][c]))
  }

  /** The rank for a number of simultaneous lines (gameLogic.js:116-120). */
  function RankFor(lines: nat): Rank
  {
    if lines == 2 then Double else if lines == 3 then Triple else if lines == 4 then Quadruple else Standard
  }

  // ---------------------------------------------------------------- win lines

  /** The first of directions i..7 whose marker run through p is exactly four (gameLogic.js:125-161). */
  function IgoFrom(g: Grid, p: Pos, color: Color, i: nat): Option<seq<Pos>>
    requires IsGrid(g) && i <= 8
    decreases 8 - i
  {
    if i == 8 then None
    else
      var l := AxisLine(g, p, Direction(i), color, true);
      if |l| == 4 then Some(l) else IgoFrom(g, p, color, i + 1)
  }

  function IgoLine(g: Grid, p: Pos, color: Color): Option<seq<Pos>>
    requires IsGrid(g)
  {
    IgoFrom(g, p, color, 0)
  }

  // ---------------------------------------------------------------- scoring

  /** The value of a marker of a given rank; anything unranked counts 1 (gameLogic.js:182-199). */
  function RankValue(k: Rank): nat
  {
    match k
    case Standard => 1
    case Double => 2
    case Triple => 3
    case Quadruple => 4
    case Unranked => 1
  }

  function CellValue(x: Cell, color: Color): nat
  {
    if x.Stone? && x.isYugo && x.color == color then RankValue(x.yugoType) else 0
  }

  /** The value of the first n cells of a row. */
  function RowScore(row: seq<Cell>, color: Color, n: nat): nat
    requires n <= |row|
  {
    if n == 0 then 0 else RowScore(row, color, n - 1) + CellValue(row[n - 1], color)
  }

  /** The value of the first n rows. */
  function RowsScore(g: Grid, color: Color, n: nat): nat
    requires IsGrid(g) && n <= 8
  {
    if n == 0 then 0 else RowsScore(g, color, n - 1) + RowScore(g[n - 1], color, 8)
  }

  /** The sum of the ranks of a colour's markers (gameLogic.js:174-207). */
  function Score(g: Grid, color: Color): nat
    requires IsGrid(g)
  {
    RowsScore(g, color, 8)
  }

  // ---------------------------------------------------------------- the array operations

  /** A fresh 8x8 board of empty cells (gameLogic.js:5-7). */
  method CreateEmptyBoard() returns (b: array2<Cell>)
    ensures fresh(b) && b.Length0 == 8 && b.Length1 == 8
    ensures Snapshot(b) == EmptyGrid()
  {
    b := new Cell[8, 8]((r, c) => Empty);
    GridExt(Snapshot(b), EmptyGrid());
  }

  /** One walk of wouldCreateLineTooLong (gameLogic.js:32-38, 42-48): adds the matching cells from q on in direction d. */
  method CountRun(b: array2<Cell>, ghost g: Grid, q0: Pos, d: Dir, color: Color, count0: int) returns (count: int)
    requires b.Length0 == 8 && b.Length1 == 8 && g == Snapshot(b) && IsUnit(d)
    ensures count == count0 + Run(g, q0, d, color, false)
  {
    count := count0;
    var q := q0;
    while InBounds(q) && b[q.row, q.col].Stone? && b[q.row, q.col].color == color
      invariant Run(g, q0, d, color, false) == (count - count0) + Run(g, q, d, color, false)
      decreases Run(g, q, d, color, false)
    {
      count := count + 1;
      q := Add(q, d);
    }
  }

  /** The two walks that wouldCreateLineTooLong makes for one direction (gameLogic.js:29-48). */
  method CountAxis(b: array2<Cell>, row: int, col: int, d: Dir, color: Color) returns (count: int)
    requires b.Length0 == 8 && b.Length1 == 8 && IsUnit(d)
    ensures count == AxisCount(Snapshot(b), Pos(row, col), d, color, false)
  {
    ghost var g := Snapshot(b);
    var p := Pos(row, col);
    var ahead := CountRun(b, g, Pos(row + d.dr, col + d.dc), d, color, 1);
    assert ahead == 1 + Run(g, Add(p, d), d, color, false);
    count := CountRun(b, g, Pos(row - d.dr, col - d.dc), Neg(d), color, ahead);
    assert count == ahead + Run(g, Add(p, Neg(d)), Neg(d), color, false);
  }

  /** wouldCreateLineTooLong (gameLogic.js:19-56). */
  method WouldCreateLineTooLong(b: array2<Cell>, row: int, col: int, color: Color) returns (tooLong: bool)
    requires b.Length0 == 8 && b.Length1 == 8
    ensures tooLong == LineTooLong(Snapshot(b), Pos(row, col), color)
  {
    for i := 0 to 8
      invariant forall j: nat :: j < i ==> AxisCount(Snapshot(b), Pos(row, col), Direction(j), color, false) <= 4
    {
      var count := CountAxis(b, row, col, Direction(i), color);
      if count > 4 {
        return true;
      }
    }
    return false;
  }

  /** isValidMove (gameLogic.js:11-17). */
  method IsValidMove(b: array2<Cell>, row: int, col: int, color: Color) returns (valid: bool)
    requires b.Length0 == 8 && b.Length1 == 8
    ensures valid == ValidMove(Snapshot(b), row, col, color)
  {
    if row < 0 || row >= 8 || col < 0 || col >= 8 {
      return false;
    }
    if b[row, col] != Empty {
      return false;
    }
    var tooLong := WouldCreateLineTooLong(b, row, col, color);
    return !tooLong;
  }

  lemma OffsetStep(p: Pos, d: Dir, k: int)
    requires IsUnit(d)
    ensures Add(Offset(p, d, k), d) == Offset(p, d, k + 1)
    ensures Add(Offset(p, d, -k), Neg(d)) == Offset(p, d, -(k + 1))
  {
    TimesFacts(k, d.dr);
    TimesFacts(k, d.dc);
    TimesFacts(k + 1, d.dr);
    TimesFacts(k + 1, d.dc);
  }

  /** One cell of a walk: a matching cell adds one to the run that follows it. */
  lemma RunStep(g: Grid, q: Pos, d: Dir, color: Color, markersOnly: bool)
    requires IsGrid(g) && IsUnit(d) && InBounds(q) && Matches(At(g, q), color, markersOnly)
    ensures Run(g, q, d, color, markersOnly) == 1 + Run(g, Add(q, d), d, color, markersOnly)
  {
  }

  /** The loop test of the line walks (gameLogic.js:73, 82, 137, 146): q is on the board and matches. */
  method CellFits(b: array2<Cell>, ghost g: Grid, q: Pos, color: Color, markersOnly: bool) returns (fits: bool)
    requires b.Length0 == 8 && b.Length1 == 8 && g == Snapshot(b)
    ensures fits <==> InBounds(q) && Matches(At(g, q), color, markersOnly)
  {
    fits := InBounds(q) && b[q.row, q.col].Stone? && (!markersOnly || b[q.row, q.col].isYugo) && b[q.row, q.col].color == color;
  }

  /** The state of the walk ahead of p after n cells: q is the next cell to test. */
  ghost predicate Ahead(g: Grid, p: Pos, d: Dir, color: Color, markersOnly: bool, line: seq<Pos>, q: Pos, n: nat)
    requires IsGrid(g) && IsUnit(d)
  {
    line == Line(p, d, 0, n) && q == Offset(p, d, n + 1)
    && Run(g, Add(p, d), d, color, markersOnly) == n + Run(g, q, d, color, markersOnly)
  }

  lemma AheadStep(g: Grid, p: Pos, d: Dir, color: Color, markersOnly: bool, line: seq<Pos>, q: Pos, n: nat)
    requires IsGrid(g) && IsUnit(d) && Ahead(g, p, d, color, markersOnly, line, q, n)
    requires InBounds(q) && Matches(At(g, q), color, markersOnly)
    ensures Ahead(g, p, d, color, markersOnly, line + [q], Add(q, d), n + 1)
    ensures Run(g, Add(q, d), d, color, markersOnly) < Run(g, q, d, color, markersOnly)
  {
    LinePush(p, d, 0, n);
    OffsetStep(p, d, n + 1);
    RunStep(g, q, d, color, markersOnly);
  }

  lemma AheadStart(g: Grid, p: Pos, d: Dir, color: Color, markersOnly: bool)
    requires IsGrid(g) && IsUnit(d)
    ensures Ahead(g, p, d, color, markersOnly, [p], Add(p, d), 0)
  {
    TimesFacts(0, d.dr);
    TimesFacts(0, d.dc);
    assert Line(p, d, 0, 0) == [Offset(p, d, 0)];
  }

  lemma AheadEnd(g: Grid, p: Pos, d: Dir, color: Color, markersOnly: bool, line: seq<Pos>, q: Pos, n: nat)
    requires IsGrid(g) && IsUnit(d) && Ahead(g, p, d, color, markersOnly, line, q, n)
    requires !(InBounds(q) && Matches(At(g, q), color, markersOnly))
    ensures line == Line(p, d, 0, Run(g, Add(p, d), d, color, markersOnly))
  {
    RunStop(g, q, d, color, markersOnly);
  }

  /** The walk ahead of p: each matching cell is pushed after the line [p]. */
  method PushRun(b: array2<Cell>, p: Pos, d: Dir, color: Color, markersOnly: bool) returns (line: seq<Pos>)
    requires b.Length0 == 8 && b.Length1 == 8 && IsUnit(d)
    ensures line == Line(p, d, 0, Run(Snapshot(b), Add(p, d), d, color, markersOnly))
  {
    ghost var g := Snapshot(b);
    line := [p];
    ghost var n := 0;
    var q := Add(p, d);
    AheadStart(g, p, d, color, markersOnly);
    var fits := CellFits(b, g, q, color, markersOnly);
    while fits
      invariant fits <==> InBounds(q) && Matches(At(g, q), color, markersOnly)
      invariant Ahead(g, p, d, color, markersOnly, line, q, n)
      decreases Run(g, q, d, color, markersOnly)
    {
      assert Ahead(g, p, d, color, markersOnly, line + [q], Add(q, d), n + 1)
        && Run(g, Add(q, d), d, color, markersOnly) < Run(g, q, d, color, markersOnly) by {
        AheadStep(g, p, d, color, markersOnly, line, q, n);
      }
      line := line + [q];
      q := Add(q, d);
      n := n + 1;
      fits := CellFits(b, g, q, color, markersOnly);
    }
    AheadEnd(g, p, d, color, markersOnly, line, q, n);
  }

  /** The state of the walk behind p after m cells: q is the next cell to test. */
  ghost predicate Behind(g: Grid, p: Pos, d: Dir, color: Color, markersOnly: bool, n: nat, line: seq<Pos>, q: Pos, m: nat)
    requires IsGrid(g) && IsUnit(d)
  {
    line == Line(p, d, m, n) && q == Offset(p, d, -(m + 1))
    && Run(g, Add(p, Neg(d)), Neg(d), color, markersOnly) == m + Run(g, q, Neg(d), color, markersOnly)
  }

  lemma BehindStep(g: Grid, p: Pos, d: Dir, color: Color, markersOnly: bool, n: nat, line: seq<Pos>, q: Pos, m: nat)
    requires IsGrid(g) && IsUnit(d) && Behind(g, p, d, color, markersOnly, n, line, q, m)
    requires InBounds(q) && Matches(At(g, q), color, markersOnly)
    ensures Behind(g, p, d, color, markersOnly, n, [q] + line, Add(q, Neg(d)), m + 1)
    ensures Run(g, Add(q, Neg(d)), Neg(d), color, markersOnly) < Run(g, q, Neg(d), color, markersOnly)
  {
    LineUnshift(p, d, m, n);
    OffsetStep(p, d, m + 1);
    RunStep(g, q, Neg(d), color, markersOnly);
  }

  lemma BehindStart(g: Grid, p: Pos, d: Dir, color: Color, markersOnly: bool, n: nat)
    requires IsGrid(g) && IsUnit(d)
    ensures Behind(g, p, d, color, markersOnly, n, Line(p, d, 0, n), Add(p, Neg(d)), 0)
  {
    TimesFacts(0, d.dr);
    TimesFacts(0, d.dc);
    TimesFacts(-1, d.dr);
    TimesFacts(-1, d.dc);
  }

  lemma BehindEnd(g: Grid, p: Pos, d: Dir, color: Color, markersOnly: bool, n: nat, line: seq<Pos>, q: Pos, m: nat)
    requires IsGrid(g) && IsUnit(d) && Behind(g, p, d, color, markersOnly, n, line, q, m)
    requires !(InBounds(q) && Matches(At(g, q), color, markersOnly))
    ensures line == Line(p, d, Run(g, Add(p, Neg(d)), Neg(d), color, markersOnly), n)
  {
    RunStop(g, q, Neg(d), color, markersOnly);
  }

  lemma RunStop(g: Grid, q: Pos, d: Dir, color: Color, markersOnly: bool)
    requires IsGrid(g) && IsUnit(d) && !(InBounds(q) && Matches(At(g, q), color, markersOnly))
    ensures Run(g, q, d, color, markersOnly) == 0
  {
  }

  /** One pass of the walk behind p: the matching cell q is unshifted and the walk moves on. */
  method UnshiftCell(b: array2<Cell>, ghost g: Grid, p: Pos, d: Dir, color: Color, markersOnly: bool, ghost n: nat,
                     line: seq<Pos>, q: Pos, ghost m: nat) returns (line': seq<Pos>, q': Pos, fits: bool)
    requires b.Length0 == 8 && b.Length1 == 8 && g == Snapshot(b) && IsUnit(d)
    requires Behind(g, p, d, color, markersOnly, n, line, q, m)
    requires InBounds(q) && Matches(At(g, q), color, markersOnly)
    ensures line' == [q] + line && q' == Add(q, Neg(d))
    ensures Behind(g, p, d, color, markersOnly, n, line', q', m + 1)
    ensures fits <==> InBounds(q') && Matches(At(g, q'), color, markersOnly)
    ensures Run(g, q', Neg(d), color, markersOnly) < Run(g, q, Neg(d), color, markersOnly)
  {
    BehindStep(g, p, d, color, markersOnly, n, line, q, m);
    line' := [q] + line;
    q' := Add(q, Neg(d));
    fits := CellFits(b, g, q', color, markersOnly);
  }

  /** The walk behind p: each matching cell is unshifted before the line. */
  method UnshiftRun(b: array2<Cell>, p: Pos, d: Dir, color: Color, markersOnly: bool, line0: seq<Pos>, ghost n: nat) returns (line: seq<Pos>)
    requires b.Length0 == 8 && b.Length1 == 8 && IsUnit(d)
    requires line0 == Line(p, d, 0, n)
    ensures line == Line(p, d, Run(Snapshot(b), Add(p, Neg(d)), Neg(d), color, markersOnly), n)
  {
    ghost var g := Snapshot(b);
    line := line0;
    ghost var m := 0;
    var q := Add(p, Neg(d));
    BehindStart(g, p, d, color, markersOnly, n);
    var fits := CellFits(b, g, q, color, markersOnly);
    while fits
      invariant fits <==> InBounds(q) && Matches(At(g, q), color, markersOnly)
      invariant Behind(g, p, d, color, markersOnly, n, line, q, m)
      decreases Run(g, q, Neg(d), color, markersOnly)
    {
      line, q, fits := UnshiftCell(b, g, p, d, color, markersOnly, n, line, q, m);
      m := m + 1;
    }
    BehindEnd(g, p, d, color, markersOnly, n, line, q, m);
  }

  /**
   * The two walks that checkForYugos and checkForIgo make for one direction
   * (gameLogic.js:69-88, 133-152): the matching cells ahead of p are pushed after it,
   * those behind it are unshifted before it.
   */
  method CollectAxis(b: array2<Cell>, row: int, col: int, d: Dir, color: Color, markersOnly: bool) returns (line: seq<Pos>)
    requires b.Length0 == 8 && b.Length1 == 8 && IsUnit(d)
    ensures line == AxisLine(Snapshot(b), Pos(row, col), d, color, markersOnly)
  {
    var p := Pos(row, col);
    line := PushRun(b, p, d, color, markersOnly);
    line := UnshiftRun(b, p, d, color, markersOnly, line, Run(Snapshot(b), Add(p, d), d, color, markersOnly));
  }

  /** checkForYugos (gameLogic.js:58-96). */
  method CheckForYugos(b: array2<Cell>, row: int, col: int, color: Color) returns (yugos: seq<seq<Pos>>)
    requires b.Length0 == 8 && b.Length1 == 8
    ensures yugos == YugoLines(Snapshot(b), Pos(row, col), color)
  {
    yugos := [];
    for j := 0 to 4
      invariant yugos == YugoLinesUpTo(Snapshot(b), Pos(row, col), color, j)
    {
      var line := CollectAxis(b, row, col, YugoDirection(j), color, false);
      if |line| == 4 {
        yugos := yugos + [line];
      }
    }
  }

  /** Every cell of every line is on the board. */
  predicate LinesInBounds(ls: seq<seq<Pos>>)
  {
    forall i, k :: 0 <= i < |ls| && 0 <= k < |ls[i]| ==> InBounds(ls[i][k])
  }

  lemma {:induction false} FlattenInBounds(ls: seq<seq<Pos>>)
    requires LinesInBounds(ls)
    ensures AllInBounds(Flatten(ls))
  {
    if ls != [] {
      var init := ls[..|ls| - 1];
      assert LinesInBounds(init) by {
        forall i, k | 0 <= i < |init| && 0 <= k < |init[i]|
          ensures InBounds(init[i][k])
        {
          assert init[i] == ls[i];
        }
      }
      FlattenInBounds(init);
      var last := ls[|ls| - 1];
      assert forall k :: 0 <= k < |last| ==> InBounds(last[k]) by {
        forall k | 0 <= k < |last| ensures InBounds(last[k]) {
          assert InBounds(ls[|ls| - 1][k]);
        }
      }
    }
  }

  lemma FlattenStep(ls: seq<seq<Pos>>, i: nat)
    requires i < |ls|
    ensures Flatten(ls[..i + 1]) == Flatten(ls[..i]) + ls[i]
  {
    assert ls[..i + 1][..i] == ls[..i];
  }

  /** Visiting one more cell extends Removed as the loop body of processYugos does. */
  lemma RemovedStep(g: Grid, visited: seq<Pos>, q: Pos, placed: Pos)
    requires IsGrid(g) && AllInBounds(visited) && InBounds(q)
    ensures AllInBounds(visited + [q])
    ensures Removed(g, visited + [q], placed)
         == (var pre := Removed(g, visited, placed);
             if q != placed && Clearable(At(g, q)) && q !in pre then pre + [q] else pre)
  {
    assert (visited + [q])[..|visited|] == visited;
  }

  /**
   * One pass of the inner loop of processYugos (gameLogic.js:107-113): the cell is
   * emptied and recorded unless it is the placed stone or not a plain stone.
   */
  method ClearCell(b: array2<Cell>, cell: Pos, row: int, col: int, ghost g: Grid, ghost visited: seq<Pos>, removed0: seq<Pos>)
    returns (removed: seq<Pos>)
    requires b.Length0 == 8 && b.Length1 == 8 && IsGrid(g) && AllInBounds(visited) && InBounds(cell)
    requires removed0 == Removed(g, visited, Pos(row, col))
    requires forall r, c :: 0 <= r < 8 && 0 <= c < 8 ==> b[r, c] == if Pos(r, c) in removed0 then Empty else g[r][c]
    modifies b
    ensures AllInBounds(visited + [cell])
    ensures removed == Removed(g, visited + [cell], Pos(row, col))
    ensures forall r, c :: 0 <= r < 8 && 0 <= c < 8 ==> b[r, c] == if Pos(r, c) in removed then Empty else g[r][c]
  {
    RemovedStep(g, visited, cell, Pos(row, col));
    removed := removed0;
    if !(cell.row == row && cell.col == col) && b[cell.row, cell.col].Stone? && !b[cell.row, cell.col].isYugo {
      removed := removed + [Pos(cell.row, cell.col)];
      b[cell.row, cell.col] := Empty;
    }
  }

  /**
   * The inner loop of processYugos (gameLogic.js:106-114) over one line: the board is g
   * with `removed` emptied before and after.
   */
  method ClearLine(b: array2<Cell>, yugo: seq<Pos>, row: int, col: int, ghost g: Grid, ghost done: seq<Pos>, removed0: seq<Pos>)
    returns (removed: seq<Pos>)
    requires b.Length0 == 8 && b.Length1 == 8 && IsGrid(g)
    requires AllInBounds(done) && AllInBounds(yugo)
    requires removed0 == Removed(g, done, Pos(row, col))
    requires forall r, c :: 0 <= r < 8 && 0 <= c < 8 ==> b[r, c] == if Pos(r, c) in removed0 then Empty else g[r][c]
    modifies b
    ensures AllInBounds(done + yugo)
    ensures removed == Removed(g, done + yugo, Pos(row, col))
    ensures forall r, c :: 0 <= r < 8 && 0 <= c < 8 ==> b[r, c] == if Pos(r, c) in removed then Empty else g[r][c]
  {
    removed := removed0;
    assert done + yugo[..0] == done;
    for k := 0 to |yugo|
      invariant AllInBounds(done + yugo[..k])
      invariant removed == Removed(g, done + yugo[..k], Pos(row, col))
      invariant forall r, c :: 0 <= r < 8 && 0 <= c < 8 ==> b[r, c] == if Pos(r, c) in removed then Empty else g[r][c]
    {
      ghost var visited := done + yugo[..k];
      assert done + yugo[..k + 1] == visited + [yugo[k]];
      removed := ClearCell(b, yugo[k], row, col, g, visited, removed);
    }
    assert yugo[..|yugo|] == yugo;
  }

  /**
   * processYugos (gameLogic.js:98-123): empties, in place, every non-marker stone of the
   * lines other than the placed cell, and reports the rank for the number of lines.
   */
  method ProcessYugos(b: array2<Cell>, yugos: seq<seq<Pos>>, row: int, col: int) returns (yugoType: Option<Rank>, removed: seq<Pos>)
    requires b.Length0 == 8 && b.Length1 == 8
    requires LinesInBounds(yugos)
    modifies b
    ensures AllInBounds(Flatten(yugos))
    ensures yugos == [] ==> yugoType == None && removed == [] && Snapshot(b) == old(Snapshot(b))
    ensures yugos != [] ==> yugoType == Some(RankFor(|yugos|))
    ensures removed == Removed(old(Snapshot(b)), Flatten(yugos), Pos(row, col))
    ensures Snapshot(b) == ClearCells(old(Snapshot(b)), removed)
  {
    ghost var g := Snapshot(b);
    FlattenInBounds(yugos);
    if |yugos| == 0 {
      GridExt(Snapshot(b), ClearCells(g, []));
      return None, [];
    }
    removed := [];
    for i := 0 to |yugos|
      invariant AllInBounds(Flatten(yugos[..i]))
      invariant removed == Removed(g, Flatten(yugos[..i]), Pos(row, col))
      invariant forall r, c :: 0 <= r < 8 && 0 <= c < 8 ==> b[r, c] == if Pos(r, c) in removed then Empty else g[r][c]
    {
      FlattenStep(yugos, i);
      assert AllInBounds(yugos[i]) by {
        forall k | 0 <= k < |yugos[i]| ensures InBounds(yugos[i][k]) {
          assert LinesInBounds(yugos);
        }
      }
      removed := ClearLine(b, yugos[i], row, col, g, Flatten(yugos[..i]), removed);
    }
    assert yugos[..|yugos|] == yugos;
    GridExt(Snapshot(b), ClearCells(g, removed));
    yugoType := Some(RankFor(|yugos|));
  }

  /** checkForIgo (gameLogic.js:125-161). */
  method CheckForIgo(b: array2<Cell>, row: int, col: int, color: Color) returns (igo: Option<seq<Pos>>)
    requires b.Length0 == 8 && b.Length1 == 8
    ensures igo == IgoLine(Snapshot(b), Pos(row, col), color)
  {
    for i := 0 to 8
      invariant IgoLine(Snapshot(b), Pos(row, col), color) == IgoFrom(Snapshot(b), Pos(row, col), color, i)
    {
      var line := CollectAxis(b, row, col, Direction(i), color, true);
      if |line| == 4 {
        return Some(line);
      }
    }
    return None;
  }

  /** hasLegalMoves (gameLogic.js:163-172). */
  method HasLegalMoves(b: array2<Cell>, color: Color) returns (any: bool)
    requires b.Length0 == 8 && b.Length1 == 8
    ensures any == HasLegalMove(Snapshot(b), color)
  {
    ghost var g := Snapshot(b);
    for row := 0 to 8
      invariant forall r, c :: 0 <= r < row && 0 <= c < 8 ==> !ValidMove(g, r, c, color)
    {
      for col := 0 to 8
        invariant forall r, c :: (0 <= r < row && 0 <= c < 8) || (r == row && 0 <= c < col) ==> !ValidMove(g, r, c, color)
      {
        var valid := IsValidMove(b, row, col, color);
        if valid {
          return true;
        }
      }
    }
    return false;
  }

  /** countYugos (gameLogic.js:174-207). */
  method CountYugos(b: array2<Cell>, color: Color) returns (count: int)
    requires b.Length0 == 8 && b.Length1 == 8
    ensures count == Score(Snapshot(b), color)
  {
    ghost var g := Snapshot(b);
    count := 0;
    for row := 0 to 8
      invariant count == RowsScore(g, color, row)
    {
      for col := 0 to 8
        invariant count == RowsScore(g, color, row) + RowScore(g[row], color, col)
      {
        var cell := b[row, col];
        if cell.Stone? && cell.isYugo && cell.color == color {
          var yugoValue := 1;
          match cell.yugoType {
            case Standard => yugoValue := 1;
            case Double => yugoValue := 2;
            case Triple => yugoValue := 3;
            case Quadruple => yugoValue := 4;
            case Unranked => yugoValue := 1;
          }
          count := count + yugoValue;
        }
      }
    }
  }
}
