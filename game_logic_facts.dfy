/**
 * Properties of the rule engine's specification functions: what a walk counts, the shape
 * of the lines the engine reports, when a line is too long, which cells a capture clears,
 * and the bounds of the score.
 */
module GameLogicFacts {
  import opened Wrappers
  import opened GameLogic
  import opened Collections

  // ---------------------------------------------------------------- offsets

  lemma OffsetCompose(p: Pos, d: Dir, a: int, b: int)
    requires IsUnit(d)
    ensures Offset(Offset(p, d, a), d, b) == Offset(p, d, a + b)
  {
  }

  /** A walk from p's neighbour visits the cells 1, 2, ... steps from p. */
  lemma OffsetAhead(p: Pos, d: Dir, j: int)
    requires IsUnit(d)
    ensures Offset(Add(p, d), d, j) == Offset(p, d, j + 1)
  {
    TimesFacts(j, d.dr);
    TimesFacts(j, d.dc);
  }

  /** A walk from p's other neighbour visits the cells 1, 2, ... steps behind p. */
  lemma OffsetBehind(p: Pos, d: Dir, j: int)
    requires IsUnit(d)
    ensures Offset(Add(p, Neg(d)), Neg(d), j) == Offset(p, d, -(j + 1))
  {
    TimesFacts(j, d.dr);
    TimesFacts(j, d.dc);
    TimesFacts(j + 1, d.dr);
    TimesFacts(j + 1, d.dc);
  }

  /** Distinct step counts along a direction reach distinct cells. */
  lemma OffsetInjective(p: Pos, d: Dir, a: int, b: int)
    requires IsUnit(d) && Offset(p, d, a) == Offset(p, d, b)
    ensures a == b
  {
  }

  // ---------------------------------------------------------------- walks

  /** The cell q is on the board and the walk continues over it. */
  ghost predicate Fits(g: Grid, q: Pos, color: Color, markersOnly: bool)
    requires IsGrid(g)
  {
    InBounds(q) && Matches(At(g, q), color, markersOnly)
  }

  /** A walk counts at least n cells exactly when the first n cells it visits all fit. */
  lemma {:induction false} RunAtLeast(g: Grid, q: Pos, d: Dir, color: Color, markersOnly: bool, n: nat)
    requires IsGrid(g) && IsUnit(d)
    ensures Run(g, q, d, color, markersOnly) >= n <==> forall j :: 0 <= j < n ==> Fits(g, Offset(q, d, j), color, markersOnly)
    decreases n
  {
    assert Offset(q, d, 0) == q;
    if n > 0 && Fits(g, q, color, markersOnly) {
      var q' := Add(q, d);
      RunAtLeast(g, q', d, color, markersOnly, n - 1);
      forall j | 0 <= j < n - 1
        ensures Offset(q', d, j) == Offset(q, d, j + 1)
      {
        OffsetAhead(q, d, j);
      }
      if forall j :: 0 <= j < n ==> Fits(g, Offset(q, d, j), color, markersOnly) {
        forall j | 0 <= j < n - 1
          ensures Fits(g, Offset(q', d, j), color, markersOnly)
        {
          assert Offset(q', d, j) == Offset(q, d, j + 1);
        }
      }
      if Run(g, q, d, color, markersOnly) >= n {
        forall j | 0 <= j < n
          ensures Fits(g, Offset(q, d, j), color, markersOnly)
        {
          if j > 0 {
            assert Offset(q', d, j - 1) == Offset(q, d, j);
          }
        }
      }
    }
  }

  /** A walk counts exactly the fitting cells before the first one that does not fit. */
  lemma RunExact(g: Grid, q: Pos, d: Dir, color: Color, markersOnly: bool)
    requires IsGrid(g) && IsUnit(d)
    ensures var n := Run(g, q, d, color, markersOnly);
      (forall j :: 0 <= j < n ==> Fits(g, Offset(q, d, j), color, markersOnly)) && !Fits(g, Offset(q, d, n), color, markersOnly)
  {
    var n := Run(g, q, d, color, markersOnly);
    RunAtLeast(g, q, d, color, markersOnly, n);
    RunAtLeast(g, q, d, color, markersOnly, n + 1);
  }

  lemma RunIs(g: Grid, q: Pos, d: Dir, color: Color, markersOnly: bool, n: nat)
    requires IsGrid(g) && IsUnit(d)
    requires forall j :: 0 <= j < n ==> Fits(g, Offset(q, d, j), color, markersOnly)
    requires !Fits(g, Offset(q, d, n), color, markersOnly)
    ensures Run(g, q, d, color, markersOnly) == n
  {
    RunAtLeast(g, q, d, color, markersOnly, n);
    RunAtLeast(g, q, d, color, markersOnly, n + 1);
  }

  // ---------------------------------------------------------------- the shape of a line

  /**
   * l is the maximal straight line through p along d, ordered from the negative end to
   * the positive end, every cell of which other than p fits.
   */
  ghost predicate IsRunLine(g: Grid, p: Pos, d: Dir, color: Color, markersOnly: bool, l: seq<Pos>)
    requires IsGrid(g) && IsUnit(d)
  {
    && p in l
    && (forall k :: 0 <= k < |l| ==> l[k] == Offset(l[0], d, k))
    && (forall k :: 0 <= k < |l| && l[k] != p ==> Fits(g, l[k], color, markersOnly))
    && !Fits(g, Offset(l[0], d, -1), color, markersOnly)
    && !Fits(g, Offset(l[0], d, |l|), color, markersOnly)
  }

  /**
   * Walking from p, the n cells ahead and the m cells behind fit and the next cell on
   * either side does not.
   */
  ghost predicate WalkFits(g: Grid, p: Pos, d: Dir, color: Color, markersOnly: bool, m: int, n: int)
    requires IsGrid(g) && IsUnit(d)
  {
    AheadFits(g, p, d, color, markersOnly, n) && BehindFits(g, p, d, color, markersOnly, m)
  }

  /** The n cells ahead of p fit and the one after them does not. */
  ghost predicate AheadFits(g: Grid, p: Pos, d: Dir, color: Color, markersOnly: bool, n: int)
    requires IsGrid(g) && IsUnit(d)
  {
    && (forall k :: 0 < k <= n ==> Fits(g, Offset(p, d, k), color, markersOnly))
    && !Fits(g, Offset(p, d, n + 1), color, markersOnly)
  }

  /** The m cells behind p fit and the one before them does not. */
  ghost predicate BehindFits(g: Grid, p: Pos, d: Dir, color: Color, markersOnly: bool, m: int)
    requires IsGrid(g) && IsUnit(d)
  {
    && (forall k :: -m <= k < 0 ==> Fits(g, Offset(p, d, k), color, markersOnly))
    && !Fits(g, Offset(p, d, -m - 1), color, markersOnly)
  }

  lemma AheadWalkFits(g: Grid, p: Pos, d: Dir, color: Color, markersOnly: bool, n: nat)
    requires IsGrid(g) && IsUnit(d) && n == Run(g, Add(p, d), d, color, markersOnly)
    ensures AheadFits(g, p, d, color, markersOnly, n)
  {
    RunExact(g, Add(p, d), d, color, markersOnly);
    forall k | 0 < k <= n
      ensures Fits(g, Offset(p, d, k), color, markersOnly)
    {
      OffsetAhead(p, d, k - 1);
    }
    OffsetAhead(p, d, n);
  }

  lemma BehindWalkFits(g: Grid, p: Pos, d: Dir, color: Color, markersOnly: bool, m: nat)
    requires IsGrid(g) && IsUnit(d) && m == Run(g, Add(p, Neg(d)), Neg(d), color, markersOnly)
    ensures BehindFits(g, p, d, color, markersOnly, m)
  {
    RunExact(g, Add(p, Neg(d)), Neg(d), color, markersOnly);
    forall k | -(m as int) <= k < 0
      ensures Fits(g, Offset(p, d, k), color, markersOnly)
    {
      OffsetBehind(p, d, -k - 1);
    }
    OffsetBehind(p, d, m);
  }

  /** The two walks through p stop exactly where WalkFits says. */
  lemma WalksFit(g: Grid, p: Pos, d: Dir, color: Color, markersOnly: bool)
    requires IsGrid(g) && IsUnit(d)
    ensures WalkFits(g, p, d, color, markersOnly, Run(g, Add(p, Neg(d)), Neg(d), color, markersOnly), Run(g, Add(p, d), d, color, markersOnly))
  {
    AheadWalkFits(g, p, d, color, markersOnly, Run(g, Add(p, d), d, color, markersOnly));
    BehindWalkFits(g, p, d, color, markersOnly, Run(g, Add(p, Neg(d)), Neg(d), color, markersOnly));
  }

  /** Conversely, the walks through p count exactly the cells that WalkFits names. */
  lemma WalksAre(g: Grid, p: Pos, d: Dir, color: Color, markersOnly: bool, m: nat, n: nat)
    requires IsGrid(g) && IsUnit(d) && WalkFits(g, p, d, color, markersOnly, m, n)
    ensures Run(g, Add(p, Neg(d)), Neg(d), color, markersOnly) == m
    ensures Run(g, Add(p, d), d, color, markersOnly) == n
  {
    forall j | 0 <= j < n
      ensures Fits(g, Offset(Add(p, d), d, j), color, markersOnly)
    {
      OffsetAhead(p, d, j);
    }
    OffsetAhead(p, d, n);
    RunIs(g, Add(p, d), d, color, markersOnly, n);
    forall j | 0 <= j < m
      ensures Fits(g, Offset(Add(p, Neg(d)), Neg(d), j), color, markersOnly)
    {
      OffsetBehind(p, d, j);
    }
    OffsetBehind(p, d, m);
    RunIs(g, Add(p, Neg(d)), Neg(d), color, markersOnly, m);
  }

  /** Line p d m n is straight along d. */
  lemma LineStraight(p: Pos, d: Dir, m: nat, n: nat)
    requires IsUnit(d)
    ensures var l := Line(p, d, m, n); forall k :: 0 <= k < |l| ==> l[k] == Offset(l[0], d, k)
  {
    var l := Line(p, d, m, n);
    forall k | 0 <= k < |l|
      ensures l[k] == Offset(l[0], d, k)
    {
      OffsetCompose(p, d, -(m as int), k);
    }
  }

  lemma LineBefore(g: Grid, p: Pos, d: Dir, color: Color, markersOnly: bool, m: nat, n: nat)
    requires IsGrid(g) && IsUnit(d) && WalkFits(g, p, d, color, markersOnly, m, n)
    ensures !Fits(g, Offset(Line(p, d, m, n)[0], d, -1), color, markersOnly)
  {
    OffsetCompose(p, d, -(m as int), -1);
  }

  lemma LineAfter(g: Grid, p: Pos, d: Dir, color: Color, markersOnly: bool, m: nat, n: nat)
    requires IsGrid(g) && IsUnit(d) && WalkFits(g, p, d, color, markersOnly, m, n)
    ensures !Fits(g, Offset(Line(p, d, m, n)[0], d, m + n + 1), color, markersOnly)
  {
    OffsetCompose(p, d, -(m as int), m + n + 1);
  }

  lemma LineIsRunLine(g: Grid, p: Pos, d: Dir, color: Color, markersOnly: bool, m: nat, n: nat)
    requires IsGrid(g) && IsUnit(d) && WalkFits(g, p, d, color, markersOnly, m, n)
    ensures IsRunLine(g, p, d, color, markersOnly, Line(p, d, m, n))
  {
    var l := Line(p, d, m, n);
    assert l[m] == Offset(p, d, 0) == p;
    LineStraight(p, d, m, n);
    assert forall k :: 0 <= k < |l| && k != m ==> Fits(g, l[k], color, markersOnly);
    LineBefore(g, p, d, color, markersOnly, m, n);
    LineAfter(g, p, d, color, markersOnly, m, n);
  }

  /** A straight sequence of cells through p, seen from p. */
  lemma StraightThrough(p: Pos, d: Dir, l: seq<Pos>, i: nat)
    requires IsUnit(d) && i < |l| && l[i] == p
    requires forall k :: 0 <= k < |l| ==> l[k] == Offset(l[0], d, k)
    ensures l == Line(p, d, i, |l| - 1 - i)
    ensures l[0] == Offset(p, d, -(i as int))
  {
    OffsetCompose(l[0], d, i, -(i as int));
    assert Offset(l[0], d, 0) == l[0];
    forall k | 0 <= k < |l|
      ensures l[k] == Offset(p, d, k - i)
    {
      OffsetCompose(p, d, -(i as int), k);
    }
  }

  /** The cells of a run line other than p fit, seen from p. */
  lemma RunLineCells(g: Grid, p: Pos, d: Dir, color: Color, markersOnly: bool, l: seq<Pos>, i: nat)
    requires IsGrid(g) && IsUnit(d) && IsRunLine(g, p, d, color, markersOnly, l)
    requires i < |l| && l == Line(p, d, i, |l| - 1 - i)
    ensures forall k :: -(i as int) <= k <= |l| - 1 - i && k != 0 ==> Fits(g, Offset(p, d, k), color, markersOnly)
  {
    forall k | -(i as int) <= k <= |l| - 1 - i && k != 0
      ensures Fits(g, Offset(p, d, k), color, markersOnly)
    {
      assert Offset(p, d, k) == l[i + k];
      if l[i + k] == p {
        OffsetInjective(p, d, k, 0);
      }
    }
  }

  lemma RunLineEnds(g: Grid, p: Pos, d: Dir, color: Color, markersOnly: bool, l: seq<Pos>, i: nat)
    requires IsGrid(g) && IsUnit(d) && IsRunLine(g, p, d, color, markersOnly, l)
    requires i < |l| && l[0] == Offset(p, d, -(i as int))
    ensures !Fits(g, Offset(p, d, -(i as int) - 1), color, markersOnly)
    ensures !Fits(g, Offset(p, d, |l| - 1 - i + 1), color, markersOnly)
  {
    OffsetCompose(p, d, -(i as int), -1);
    OffsetCompose(p, d, -(i as int), |l|);
  }

  lemma RunLineWalk(g: Grid, p: Pos, d: Dir, color: Color, markersOnly: bool, l: seq<Pos>, i: nat)
    requires IsGrid(g) && IsUnit(d) && IsRunLine(g, p, d, color, markersOnly, l)
    requires i < |l| && l == Line(p, d, i, |l| - 1 - i) && l[0] == Offset(p, d, -(i as int))
    ensures WalkFits(g, p, d, color, markersOnly, i, |l| - 1 - i)
  {
    RunLineCells(g, p, d, color, markersOnly, l, i);
    RunLineEnds(g, p, d, color, markersOnly, l, i);
  }

  lemma RunLineIsLine(g: Grid, p: Pos, d: Dir, color: Color, markersOnly: bool, l: seq<Pos>) returns (m: nat, n: nat)
    requires IsGrid(g) && IsUnit(d) && IsRunLine(g, p, d, color, markersOnly, l)
    ensures l == Line(p, d, m, n) && WalkFits(g, p, d, color, markersOnly, m, n)
  {
    var i :| 0 <= i < |l| && l[i] == p;
    StraightThrough(p, d, l, i);
    RunLineWalk(g, p, d, color, markersOnly, l, i);
    m, n := i, |l| - 1 - i;
  }

  /** AxisLine is the one line through p along d that IsRunLine describes. */
  lemma AxisLineIff(g: Grid, p: Pos, d: Dir, color: Color, markersOnly: bool, l: seq<Pos>)
    requires IsGrid(g) && IsUnit(d)
    ensures l == AxisLine(g, p, d, color, markersOnly) <==> IsRunLine(g, p, d, color, markersOnly, l)
  {
    if l == AxisLine(g, p, d, color, markersOnly) {
      WalksFit(g, p, d, color, markersOnly);
      LineIsRunLine(g, p, d, color, markersOnly, Run(g, Add(p, Neg(d)), Neg(d), color, markersOnly), Run(g, Add(p, d), d, color, markersOnly));
    }
    if IsRunLine(g, p, d, color, markersOnly, l) {
      var m, n := RunLineIsLine(g, p, d, color, markersOnly, l);
      WalksAre(g, p, d, color, markersOnly, m, n);
    }
  }

  // ---------------------------------------------------------------- lines that are too long

  /** The five cells a steps behind p to 4 - a steps ahead of p along d; all but p fit. */
  ghost predicate FiveThrough(g: Grid, p: Pos, d: Dir, color: Color, a: int)
    requires IsGrid(g) && IsUnit(d)
  {
    forall k :: -a <= k <= 4 - a && k != 0 ==> Fits(g, Offset(p, d, k), color, false)
  }

  /** With m cells behind and n ahead, a window of five fits exactly when 1 + m + n > 4. */
  lemma WindowIff(g: Grid, p: Pos, d: Dir, color: Color, m: nat, n: nat)
    requires IsGrid(g) && IsUnit(d) && WalkFits(g, p, d, color, false, m, n)
    ensures 1 + m + n > 4 <==> exists a :: 0 <= a <= 4 && FiveThrough(g, p, d, color, a)
  {
    if 1 + m + n > 4 {
      var a := if m < 4 then m else 4;
      assert FiveThrough(g, p, d, color, a);
    }
    if exists a :: 0 <= a <= 4 && FiveThrough(g, p, d, color, a) {
      var a :| 0 <= a <= 4 && FiveThrough(g, p, d, color, a);
    }
  }

  /**
   * A move is rejected as too long exactly when the mover's stones would complete a
   * straight window of five through p in some direction.
   */
  lemma LineTooLongIff(g: Grid, p: Pos, color: Color)
    requires IsGrid(g)
    ensures LineTooLong(g, p, color) <==> exists i: nat, a :: i < 8 && 0 <= a <= 4 && FiveThrough(g, p, Direction(i), color, a)
  {
    forall i: nat | i < 8
      ensures AxisCount(g, p, Direction(i), color, false) > 4 <==> exists a :: 0 <= a <= 4 && FiveThrough(g, p, Direction(i), color, a)
    {
      var d := Direction(i);
      WalksFit(g, p, d, color, false);
      WindowIff(g, p, d, color, Run(g, Add(p, Neg(d)), Neg(d), color, false), Run(g, Add(p, d), d, color, false));
    }
  }

  // ---------------------------------------------------------------- capture lines

  /** Run lines along two different directions through p, of length two or more, differ. */
  lemma AxisLinesDiffer(g: Grid, p: Pos, d1: Dir, d2: Dir, color: Color, markersOnly: bool)
    requires IsGrid(g) && IsUnit(d1) && IsUnit(d2) && d1 != d2
    requires |AxisLine(g, p, d1, color, markersOnly)| >= 2
    ensures AxisLine(g, p, d1, color, markersOnly) != AxisLine(g, p, d2, color, markersOnly)
  {
    var l1 := AxisLine(g, p, d1, color, markersOnly);
    var l2 := AxisLine(g, p, d2, color, markersOnly);
    AxisLineIff(g, p, d1, color, markersOnly, l1);
    AxisLineIff(g, p, d2, color, markersOnly, l2);
    assert l1[1] == Offset(l1[0], d1, 1);
    assert |l2| >= 2 ==> l2[1] == Offset(l2[0], d2, 1);
    assert Offset(l1[0], d1, 1) != Offset(l1[0], d2, 1);
  }

  /** A new line along axis n - 1 differs from the lines of the earlier axes. */
  lemma YugoLineNew(g: Grid, p: Pos, color: Color, n: nat, pre: seq<seq<Pos>>)
    requires IsGrid(g) && 0 < n <= 4
    requires forall k :: 0 <= k < |pre| ==> exists j :: 0 <= j < n - 1 && pre[k] == AxisLine(g, p, YugoDirection(j), color, false)
    requires |AxisLine(g, p, YugoDirection(n - 1), color, false)| == 4
    ensures AxisLine(g, p, YugoDirection(n - 1), color, false) !in pre
  {
    forall k | 0 <= k < |pre|
      ensures pre[k] != AxisLine(g, p, YugoDirection(n - 1), color, false)
    {
      var j :| 0 <= j < n - 1 && pre[k] == AxisLine(g, p, YugoDirection(j), color, false);
      AxesDiffer(g, p, color, j, n - 1);
    }
  }

  /** Full lines along two different capture axes differ. */
  lemma AxesDiffer(g: Grid, p: Pos, color: Color, i: nat, j: nat)
    requires IsGrid(g) && i < j < 4
    requires |AxisLine(g, p, YugoDirection(j), color, false)| == 4
    ensures AxisLine(g, p, YugoDirection(i), color, false) != AxisLine(g, p, YugoDirection(j), color, false)
  {
    AxisLinesDiffer(g, p, YugoDirection(j), YugoDirection(i), color, false);
  }

  lemma {:induction false} YugoLinesUpToShape(g: Grid, p: Pos, color: Color, n: nat)
    requires IsGrid(g) && n <= 4
    ensures var ls := YugoLinesUpTo(g, p, color, n);
      && |ls| <= n
      && (forall k :: 0 <= k < |ls| ==> |ls[k]| == 4 && exists j :: 0 <= j < n && ls[k] == AxisLine(g, p, YugoDirection(j), color, false))
      && (forall j :: 0 <= j < n && |AxisLine(g, p, YugoDirection(j), color, false)| == 4 ==> AxisLine(g, p, YugoDirection(j), color, false) in ls)
      && NoDup(ls)
  {
    if n > 0 {
      YugoLinesUpToShape(g, p, color, n - 1);
      var pre := YugoLinesUpTo(g, p, color, n - 1);
      var l := AxisLine(g, p, YugoDirection(n - 1), color, false);
      if |l| == 4 {
        YugoLineNew(g, p, color, n, pre);
        assert YugoLinesUpTo(g, p, color, n) == pre + [l];
      } else {
        assert YugoLinesUpTo(g, p, color, n) == pre;
      }
    }
  }

  /**
   * The lines checkForYugos reports: at most four, each a run line of exactly four
   * through p along one of the four axes, no two the same, and every such line is
   * reported.
   */
  lemma YugoLinesShape(g: Grid, p: Pos, color: Color)
    requires IsGrid(g)
    ensures var ls := YugoLines(g, p, color);
      && |ls| <= 4
      && (forall l :: l in ls ==> |l| == 4 && exists j :: 0 <= j < 4 && IsRunLine(g, p, YugoDirection(j), color, false, l))
      && (forall j, l :: 0 <= j < 4 && |l| == 4 && IsRunLine(g, p, YugoDirection(j), color, false, l) ==> l in ls)
      && NoDup(ls)
  {
    var ls := YugoLines(g, p, color);
    YugoLinesUpToShape(g, p, color, 4);
    forall l | l in ls
      ensures |l| == 4 && exists j :: 0 <= j < 4 && IsRunLine(g, p, YugoDirection(j), color, false, l)
    {
      var k :| 0 <= k < |ls| && ls[k] == l;
      var j :| 0 <= j < 4 && l == AxisLine(g, p, YugoDirection(j), color, false);
      AxisLineIff(g, p, YugoDirection(j), color, false, l);
    }
    forall j, l | 0 <= j < 4 && |l| == 4 && IsRunLine(g, p, YugoDirection(j), color, false, l)
      ensures l in ls
    {
      AxisLineIff(g, p, YugoDirection(j), color, false, l);
    }
  }

  /** The lines reported for a cell on the board lie on the board. */
  lemma YugoLinesInBounds(g: Grid, p: Pos, color: Color)
    requires IsGrid(g) && InBounds(p)
    ensures LinesInBounds(YugoLines(g, p, color))
  {
    var ls := YugoLines(g, p, color);
    YugoLinesShape(g, p, color);
    forall i, k | 0 <= i < |ls| && 0 <= k < |ls[i]|
      ensures InBounds(ls[i][k])
    {
      assert ls[i] in ls;
      var j :| 0 <= j < 4 && IsRunLine(g, p, YugoDirection(j), color, false, ls[i]);
      if ls[i][k] != p {
        assert Fits(g, ls[i][k], color, false);
      }
    }
  }

  // ---------------------------------------------------------------- win lines

  /** How many markers the walks through p along direction k count, p included. */
  ghost function MarkerCount(g: Grid, p: Pos, color: Color, k: nat): nat
    requires IsGrid(g) && k < 8
  {
    AxisCount(g, p, Direction(k), color, true)
  }

  lemma IgoFromStep(g: Grid, p: Pos, color: Color, i: nat)
    requires IsGrid(g) && i < 8
    ensures IgoFrom(g, p, color, i)
      == if MarkerCount(g, p, color, i) == 4 then Some(AxisLine(g, p, Direction(i), color, true)) else IgoFrom(g, p, color, i + 1)
  {
  }

  /** The first direction from i on whose marker walks count four, or 8 if there is none. */
  lemma {:induction false} FirstFour(g: Grid, p: Pos, color: Color, i: nat) returns (k: nat)
    requires IsGrid(g) && i <= 8
    ensures i <= k <= 8
    ensures forall k' :: i <= k' < k ==> MarkerCount(g, p, color, k') != 4
    ensures k < 8 ==> MarkerCount(g, p, color, k) == 4
    decreases 8 - i
  {
    if i == 8 || MarkerCount(g, p, color, i) == 4 {
      k := i;
    } else {
      k := FirstFour(g, p, color, i + 1);
    }
  }

  lemma {:induction false} IgoFromFirst(g: Grid, p: Pos, color: Color, i: nat, k: nat)
    requires IsGrid(g) && i <= k < 8
    requires forall k' :: i <= k' < k ==> MarkerCount(g, p, color, k') != 4
    requires MarkerCount(g, p, color, k) == 4
    ensures IgoFrom(g, p, color, i) == Some(AxisLine(g, p, Direction(k), color, true))
    decreases k - i
  {
    IgoFromStep(g, p, color, i);
    if i < k {
      IgoFromFirst(g, p, color, i + 1, k);
    }
  }

  lemma {:induction false} IgoFromNoFour(g: Grid, p: Pos, color: Color, i: nat)
    requires IsGrid(g) && i <= 8
    requires forall k' :: i <= k' < 8 ==> MarkerCount(g, p, color, k') != 4
    ensures IgoFrom(g, p, color, i) == None
    decreases 8 - i
  {
    if i < 8 {
      IgoFromStep(g, p, color, i);
      IgoFromNoFour(g, p, color, i + 1);
    }
  }

  /**
   * checkForIgo reports the marker line of the first direction whose marker walks
   * through p count exactly four: a run line of four through p whose three other cells
   * are the mover's markers. It reports none exactly when no direction counts four.
   * The cell p itself is not examined.
   */
  lemma IgoLineShape(g: Grid, p: Pos, color: Color)
    requires IsGrid(g)
    ensures IgoLine(g, p, color) == None <==> forall k :: 0 <= k < 8 ==> MarkerCount(g, p, color, k) != 4
    ensures IgoLine(g, p, color).Some? ==> var l := IgoLine(g, p, color).value;
      |l| == 4 && exists k :: (0 <= k < 8 && IsRunLine(g, p, Direction(k), color, true, l)
        && forall k' :: 0 <= k' < k ==> MarkerCount(g, p, color, k') != 4)
  {
    var k := FirstFour(g, p, color, 0);
    if k < 8 {
      IgoFromFirst(g, p, color, 0, k);
      AxisLineIff(g, p, Direction(k), color, true, AxisLine(g, p, Direction(k), color, true));
    } else {
      IgoFromNoFour(g, p, color, 0);
    }
  }

  // ---------------------------------------------------------------- capture processing

  /**
   * The cells capture processing removes are exactly the visited cells, other than the
   * placed one, that hold a non-marker stone, each listed once.
   */
  lemma {:induction false} RemovedMembers(g: Grid, cells: seq<Pos>, placed: Pos)
    requires IsGrid(g) && AllInBounds(cells)
    ensures forall q :: q in Removed(g, cells, placed) <==> InBounds(q) && q in cells && q != placed && Clearable(At(g, q))
    ensures NoDup(Removed(g, cells, placed))
    decreases |cells|
  {
    if cells != [] {
      var init := cells[..|cells| - 1];
      assert AllInBounds(init);
      RemovedMembers(g, init, placed);
      assert cells == init + [cells[|cells| - 1]];
    }
  }

  /**
   * The board after capture processing: a visited cell other than the placed one that
   * held a non-marker stone is empty, and every other cell is unchanged.
   */
  lemma CaptureEffect(g: Grid, cells: seq<Pos>, placed: Pos)
    requires IsGrid(g) && AllInBounds(cells)
    ensures var h := ClearCells(g, Removed(g, cells, placed));
      forall r, c :: 0 <= r < 8 && 0 <= c < 8 ==>
        h[r][c] == if Pos(r, c) in cells && Pos(r, c) != placed && Clearable(g[r][c]) then Empty else g[r][c]
  {
    RemovedMembers(g, cells, placed);
  }

  /** Capture processing never clears a marker or the placed cell. */
  lemma CaptureKeeps(g: Grid, cells: seq<Pos>, placed: Pos)
    requires IsGrid(g) && AllInBounds(cells)
    ensures var h := ClearCells(g, Removed(g, cells, placed));
      && (forall r, c :: 0 <= r < 8 && 0 <= c < 8 && g[r][c].Stone? && g[r][c].isYugo ==> h[r][c] == g[r][c])
      && (InBounds(placed) ==> At(h, placed) == At(g, placed))
  {
    CaptureEffect(g, cells, placed);
  }

  // ---------------------------------------------------------------- scores

  lemma {:induction false} RowScoreBound(row: seq<Cell>, color: Color, n: nat)
    requires n <= |row|
    ensures RowScore(row, color, n) <= 4 * n
  {
    if n > 0 {
      RowScoreBound(row, color, n - 1);
    }
  }

  lemma {:induction false} RowsScoreBound(g: Grid, color: Color, n: nat)
    requires IsGrid(g) && n <= 8
    ensures RowsScore(g, color, n) <= 32 * n
  {
    if n > 0 {
      RowsScoreBound(g, color, n - 1);
      RowScoreBound(g[n - 1], color, 8);
    }
  }

  /** A colour's score is at most 256: 64 cells, each worth at most 4. */
  lemma ScoreBound(g: Grid, color: Color)
    requires IsGrid(g)
    ensures Score(g, color) <= 256
  {
    RowsScoreBound(g, color, 8);
  }

  /** The player owns a marker at (r, c). */
  predicate IsMarkerOf(x: Cell, color: Color)
  {
    x.Stone? && x.isYugo && x.color == color
  }

  lemma {:induction false} RowScoreZero(row: seq<Cell>, color: Color, n: nat)
    requires n <= |row|
    ensures RowScore(row, color, n) == 0 <==> forall c :: 0 <= c < n ==> !IsMarkerOf(row[c], color)
  {
    if n > 0 {
      RowScoreZero(row, color, n - 1);
    }
  }

  lemma {:induction false} RowsScoreZero(g: Grid, color: Color, n: nat)
    requires IsGrid(g) && n <= 8
    ensures RowsScore(g, color, n) == 0 <==> forall r, c :: 0 <= r < n && 0 <= c < 8 ==> !IsMarkerOf(g[r][c], color)
  {
    if n > 0 {
      RowsScoreZero(g, color, n - 1);
      RowScoreZero(g[n - 1], color, 8);
    }
  }

  /** A colour scores zero exactly when it owns no marker; so the empty board scores zero. */
  lemma ScoreZero(g: Grid, color: Color)
    requires IsGrid(g)
    ensures Score(g, color) == 0 <==> forall r, c :: 0 <= r < 8 && 0 <= c < 8 ==> !IsMarkerOf(g[r][c], color)
    ensures Score(EmptyGrid(), color) == 0
  {
    RowsScoreZero(g, color, 8);
    RowsScoreZero(EmptyGrid(), color, 8);
  }

  /** Rows whose cells are worth the same to a player score the same. */
  lemma {:induction false} RowScoreExt(r1: seq<Cell>, r2: seq<Cell>, color: Color, n: nat)
    requires n <= |r1| && n <= |r2|
    requires forall c :: 0 <= c < n ==> CellValue(r1[c], color) == CellValue(r2[c], color)
    ensures RowScore(r1, color, n) == RowScore(r2, color, n)
  {
    if n > 0 {
      RowScoreExt(r1, r2, color, n - 1);
    }
  }

  lemma {:induction false} RowsScoreExt(g: Grid, h: Grid, color: Color, n: nat)
    requires IsGrid(g) && IsGrid(h) && n <= 8
    requires forall r, c :: 0 <= r < n && 0 <= c < 8 ==> CellValue(g[r][c], color) == CellValue(h[r][c], color)
    ensures RowsScore(g, color, n) == RowsScore(h, color, n)
  {
    if n > 0 {
      RowsScoreExt(g, h, color, n - 1);
      RowScoreExt(g[n - 1], h[n - 1], color, 8);
    }
  }

  /** Replacing a cell by one worth the same to a player leaves that player's score. */
  lemma ScorePlace(g: Grid, p: Pos, x: Cell, color: Color)
    requires IsGrid(g) && InBounds(p) && CellValue(x, color) == CellValue(At(g, p), color)
    ensures Score(Place(g, p, x), color) == Score(g, color)
  {
    RowsScoreExt(Place(g, p, x), g, color, 8);
  }

  // ---------------------------------------------------------------- occupied cells

  /** The occupied cells of the board. */
  function Occupied(g: Grid): set<Pos>
    requires IsGrid(g)
  {
    set r, c | 0 <= r < 8 && 0 <= c < 8 && g[r][c] != Empty :: Pos(r, c)
  }

  /** Membership in Occupied, cell by cell. */
  lemma OccupiedIff(g: Grid, q: Pos)
    requires IsGrid(g)
    ensures q in Occupied(g) <==> InBounds(q) && At(g, q) != Empty
  {
    if InBounds(q) && At(g, q) != Empty {
      assert q == Pos(q.row, q.col);
    }
  }

  lemma {:induction false} NoDupCard<T>(s: seq<T>)
    requires NoDup(s)
    ensures |set x | x in s| == |s|
  {
    if s != [] {
      var init := s[..|s| - 1];
      NoDupCard(init);
      assert (set x | x in s) == (set x | x in init) + {s[|s| - 1]};
      assert s[|s| - 1] !in (set x | x in init);
    }
  }

  /** Placing a stone on an empty cell adds exactly that cell. */
  lemma PlaceOccupied(g: Grid, p: Pos, x: Cell)
    requires IsGrid(g) && InBounds(p) && At(g, p) == Empty && x != Empty
    ensures Occupied(Place(g, p, x)) == Occupied(g) + {p}
    ensures |Occupied(Place(g, p, x))| == |Occupied(g)| + 1
  {
    var h := Place(g, p, x);
    forall q ensures q in Occupied(h) <==> q in Occupied(g) + {p} {
      OccupiedIff(g, q);
      OccupiedIff(h, q);
    }
    assert Occupied(h) == Occupied(g) + {p};
    OccupiedIff(g, p);
  }

  /** Re-placing an occupied cell keeps the occupied set. */
  lemma ReplaceOccupied(g: Grid, p: Pos, x: Cell)
    requires IsGrid(g) && InBounds(p) && At(g, p) != Empty && x != Empty
    ensures Occupied(Place(g, p, x)) == Occupied(g)
  {
    var h := Place(g, p, x);
    forall q ensures q in Occupied(h) <==> q in Occupied(g) {
      OccupiedIff(g, q);
      OccupiedIff(h, q);
    }
  }

  /** Emptying distinct occupied cells removes exactly that many. */
  lemma ClearOccupied(g: Grid, cells: seq<Pos>)
    requires IsGrid(g) && NoDup(cells)
    requires forall q :: q in cells ==> q in Occupied(g)
    ensures Occupied(ClearCells(g, cells)) == Occupied(g) - set q | q in cells
    ensures |Occupied(ClearCells(g, cells))| == |Occupied(g)| - |cells|
  {
    var h := ClearCells(g, cells);
    var s := set q | q in cells;
    assert Occupied(h) == Occupied(g) - s;
    NoDupCard(cells);
    assert s <= Occupied(g);
  }

  /**
   * A move puts a stone on an empty cell and then clears the captured stones: the
   * number of occupied cells grows by one minus the number of cells removed.
   */
  lemma MoveOccupancy(g: Grid, p: Pos, x: Cell, cells: seq<Pos>)
    requires IsGrid(g) && InBounds(p) && At(g, p) == Empty && x != Empty && AllInBounds(cells)
    ensures var h := Place(g, p, x);
      var removed := Removed(h, cells, p);
      |Occupied(ClearCells(h, removed))| == |Occupied(g)| + 1 - |removed|
  {
    var h := Place(g, p, x);
    var removed := Removed(h, cells, p);
    PlaceOccupied(g, p, x);
    RemovedMembers(h, cells, p);
    ClearOccupied(h, removed);
  }
}
