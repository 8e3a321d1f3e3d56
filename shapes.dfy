/** Shape detection from one ship part (battle_functions.py:32-119): the scans along a row
    or column, the check for foreign neighbours and the reconstruction of one ship. */
module Shapes {
  import opened Board

  /** The position `k` steps from `from` in direction `step` (+1 or -1). */
  function Along(from: int, step: int, k: int): int
  {
    if step == 1 then from + k else from - k
  }

  /** Whether position `m` lies strictly before the exclusive bound `end` of a scan. */
  predicate Before(m: int, end: int, step: int)
  {
    if step == 1 then m < end else m > end
  }

  /** The scan a `check_row` call may make: direction +1 or -1 and an end that keeps it on the line. */
  predicate ScanOk(line: seq<char>, from: int, end: int, step: int)
  {
    |line| == 10 &&
    (step == 1 || step == -1) &&
    (step == 1 ==> 0 <= from && end <= 10) &&
    (step == -1 ==> from <= 9 && -1 <= end)
  }

  /** Position `m` is among the first `n` positions a scan from `from` in direction `step` visits. */
  predicate Within(from: int, step: int, n: int, m: int)
  {
    if step == 1 then from <= m < from + n else from - n < m <= from
  }

  /** Length of the run of ship parts on `line` that starts at `from` and goes towards `end`,
      stopping at the first cell that is not a ship part. */
  function Run(line: seq<char>, from: int, end: int, step: int): (n: nat)
    requires ScanOk(line, from, end, step)
    ensures n == 0 || Before(Along(from, step, n - 1), end, step)
    ensures forall m :: Within(from, step, n, m) ==> 0 <= m < 10 && line[m] == ShipMark
    ensures Before(Along(from, step, n), end, step) ==> line[Along(from, step, n)] != ShipMark
    decreases if step == 1 then end - from else from - end
  {
    if !Before(from, end, step) || line[from] != ShipMark then 0
    else 1 + Run(line, from + step, end, step)
  }

  /** The cell a scan of line `lineNum` visits at position `m`: along a row, or along a column
      when the scan is `reverse`d (the `x.reverse()` of each pair). */
  function LineCell(lineNum: int, m: int, reverse: bool): Point
    requires Letterable(lineNum) && Letterable(m)
  {
    if reverse then Change(lineNum, m) else Change(m, lineNum)
  }

  /** The `(position, line)` pairs a scan collected, turned into points by `change`. */
  function ToPoints(cells: seq<(int, int)>, reverse: bool): (ps: seq<Point>)
    requires forall k :: 0 <= k < |cells| ==> Letterable(cells[k].0) && Letterable(cells[k].1)
    ensures |ps| == |cells|
    ensures forall k :: 0 <= k < |cells| ==> ps[k] == LineCell(cells[k].1, cells[k].0, reverse)
  {
    if cells == [] then []
    else [LineCell(cells[0].1, cells[0].0, reverse)] + ToPoints(cells[1..], reverse)
  }

  /** `Run` is the only length with its three properties: the first `n` positions are ship
      parts, the last of them is inside the bound, and the next position is outside the bound
      or not a ship part. */
  lemma {:induction false} RunIs(line: seq<char>, from: int, end: int, step: int, n: int)
    requires ScanOk(line, from, end, step) && 0 <= n
    requires n == 0 || Before(Along(from, step, n - 1), end, step)
    requires forall m :: Within(from, step, n, m) ==> 0 <= m < 10 && line[m] == ShipMark
    requires Before(Along(from, step, n), end, step) ==> line[Along(from, step, n)] != ShipMark
    ensures Run(line, from, end, step) == n
    decreases n
  {
    if n > 0 {
      assert Within(from, step, n, from);
      RunIs(line, from + step, end, step, n - 1);
    }
  }

  /** The `for move in range(start + step, end, step)` loop of `check_row`: the start cell and
      then each ship part up to the first cell that is not one, as (position, line) pairs. */
  method ScanCells(line: seq<char>, lineNum: int, start: int, end: int, step: int)
    returns (number: int, cells: seq<(int, int)>)
    requires |line| == 10 && 0 <= start < 10
    requires (step == 1 && end <= 10) || (step == -1 && -1 <= end)
    ensures number == |cells| == 1 + Run(line, start + step, end, step)
    ensures forall k :: 0 <= k < number ==>
      (0 <= Along(start, step, k) < 10 && cells[k] == (Along(start, step, k), lineNum))
  {
    number := 1;
    cells := [(start, lineNum)];
    var move := start + step;
    while Before(move, end, step)
      invariant number == |cells| >= 1
      invariant move == Along(start, step, number)
      invariant step == 1 ==> 1 <= move
      invariant step == -1 ==> move <= 8
      invariant forall k :: 0 <= k < number ==>
        (0 <= Along(start, step, k) < 10 && cells[k] == (Along(start, step, k), lineNum))
      invariant forall k :: 1 <= k < number ==> Before(cells[k].0, end, step) && line[cells[k].0] == ShipMark
      decreases if step == 1 then end - move else move - end
    {
      if line[move] == ShipMark {
        cells := cells + [(move, lineNum)];
        number := number + 1;
        move := move + step;
      } else {
        break;
      }
    }
    ScannedRun(line, lineNum, start, end, step, cells);
  }

  /** The cells a finished scan collected are the start cell and the run after it. */
  lemma ScannedRun(line: seq<char>, lineNum: int, start: int, end: int, step: int, cells: seq<(int, int)>)
    requires |line| == 10 && 0 <= start < 10 && |cells| >= 1
    requires (step == 1 && end <= 10) || (step == -1 && -1 <= end)
    requires forall k :: 0 <= k < |cells| ==> cells[k].0 == Along(start, step, k)
    requires forall k :: 1 <= k < |cells| ==> Before(cells[k].0, end, step) && 0 <= cells[k].0 < 10 && line[cells[k].0] == ShipMark
    requires Before(Along(start, step, |cells|), end, step) ==>
      0 <= Along(start, step, |cells|) < 10 && line[Along(start, step, |cells|)] != ShipMark
    ensures |cells| == 1 + Run(line, start + step, end, step)
  {
    var n := |cells| - 1;
    forall m | Within(start + step, step, n, m)
      ensures 0 <= m < 10 && line[m] == ShipMark
    {
      var k := if step == 1 then m - start else start - m;
      assert cells[k].0 == m;
    }
    if n > 0 {
      assert cells[n].0 == Along(start + step, step, n - 1);
    }
    RunIs(line, start + step, end, step, n);
  }

  /** `check_row`: the number of cells of the run through `start` in one direction, and those cells. */
  method CheckRow(line: seq<char>, lineNum: int, start: int, end: int, step: int, reverse: bool)
    returns (number: int, coordinates: seq<Point>)
    requires |line| == 10 && 0 <= lineNum < 10 && 0 <= start < 10
    requires (step == 1 && end <= 10) || (step == -1 && -1 <= end)
    ensures number == |coordinates| == 1 + Run(line, start + step, end, step)
    ensures forall k :: 0 <= k < number ==>
      (0 <= Along(start, step, k) < 10 && coordinates[k] == LineCell(lineNum, Along(start, step, k), reverse))
  {
    var cells;
    number, cells := ScanCells(line, lineNum, start, end, step);
    coordinates := ToPoints(cells, reverse);
  }

  /** The neighbour directions `find_foreign` walks, as (column step, row step). */
  const ForeignDirections: seq<(int, int)> :=
    [(-1, 0), (0, 1), (0, -1), (1, 0), (1, 1), (-1, -1), (1, -1), (-1, 1)]

  /** The neighbour of `pt` in direction `d` is inspected (both indices in 1..9), holds a ship
      part and is not one of the `allowed` points. */
  predicate ForeignAt(g: Grid, pt: Point, allowed: seq<Point>, d: (int, int))
    requires IsGrid(g)
  {
    var c, r := Col(pt) + d.0, Row(pt) + d.1;
    0 < c < 10 && 0 < r < 10 && g[r][c] == ShipMark && Change(c, r) !in allowed
  }

  predicate Foreign(g: Grid, pt: Point, allowed: seq<Point>)
    requires IsGrid(g)
  {
    exists i :: 0 <= i < |ForeignDirections| && ForeignAt(g, pt, allowed, ForeignDirections[i])
  }

  /** (c, r) is one of the eight cells around `pt`. */
  predicate Neighbour(pt: Point, c: int, r: int)
  {
    (c, r) != (Col(pt), Row(pt)) && -1 <= c - Col(pt) <= 1 && -1 <= r - Row(pt) <= 1
  }

  /** A foreign neighbour is exactly a king-move neighbour with both indices in 1..9 that holds
      a ship part and is not allowed: neighbours in row 0 or column 0 are never looked at. */
  lemma ForeignMeaning(g: Grid, pt: Point, allowed: seq<Point>)
    requires IsGrid(g)
    ensures Foreign(g, pt, allowed) <==>
      exists c, r :: Neighbour(pt, c, r) && 0 < c < 10 && 0 < r < 10 &&
        g[r][c] == ShipMark && Change(c, r) !in allowed
  {
    if Foreign(g, pt, allowed) {
      var i :| 0 <= i < |ForeignDirections| && ForeignAt(g, pt, allowed, ForeignDirections[i]);
      var d := ForeignDirections[i];
      assert Neighbour(pt, Col(pt) + d.0, Row(pt) + d.1);
    }
    if exists c, r :: Neighbour(pt, c, r) && 0 < c < 10 && 0 < r < 10 &&
        g[r][c] == ShipMark && Change(c, r) !in allowed {
      var c, r :| Neighbour(pt, c, r) && 0 < c < 10 && 0 < r < 10 &&
        g[r][c] == ShipMark && Change(c, r) !in allowed;
      var d := (c - Col(pt), r - Row(pt));
      assert d in ForeignDirections;
      var i :| 0 <= i < |ForeignDirections| && ForeignDirections[i] == d;
      assert ForeignAt(g, pt, allowed, ForeignDirections[i]);
    }
  }

  /** `find_foreign`: whether `pt` has a foreign neighbour, trying the directions in order. */
  method FindForeign(pt: Point, allowed: seq<Point>, g: Grid) returns (found: bool)
    requires IsGrid(g)
    ensures found == Foreign(g, pt, allowed)
  {
    var i := 0;
    while i < |ForeignDirections|
      invariant 0 <= i <= |ForeignDirections|
      invariant forall j :: 0 <= j < i ==> !ForeignAt(g, pt, allowed, ForeignDirections[j])
    {
      var d := ForeignDirections[i];
      var c, r := Col(pt) + d.0, Row(pt) + d.1;
      if 0 < c < 10 && 0 < r < 10 {
        var diagonal := Change(c, r);
        if HasShip(diagonal, g) && diagonal !in allowed {
          return true;
        }
      }
      i := i + 1;
    }
    return false;
  }

  /** Column `c` of the field read top to bottom. */
  function Column(g: Grid, c: int): (line: seq<char>)
    requires IsGrid(g) && 0 <= c < 10
    ensures |line| == 10 && forall r :: 0 <= r < 10 ==> line[r] == g[r][c]
  {
    seq(10, r requires 0 <= r < 10 => g[r][c])
  }

  /** `len` cells of row `r` from column `from` rightwards. */
  function RowSpan(from: int, r: int, len: int): (s: seq<Point>)
    requires 0 <= from && 0 <= len && from + len <= 10
    ensures |s| == len
    ensures forall k :: 0 <= k < len ==> s[k] == Change(from + k, r)
  {
    seq(len, k requires 0 <= k < len => Change(from + k, r))
  }

  /** `len` cells of column `c` from row `from` downwards. */
  function ColumnSpan(c: int, from: int, len: int): (s: seq<Point>)
    requires 0 <= c < 10 && 0 <= len
    ensures |s| == len
    ensures forall k :: 0 <= k < len ==> s[k] == Change(c, from + k)
  {
    seq(len, k requires 0 <= k < len => Change(c, from + k))
  }

  /** The horizontal ship candidate through `p`: the left and right scans merged, in ascending
      order. */
  function HorizontalRun(g: Grid, p: Point): seq<Point>
    requires IsGrid(g) && InBoard(p) && g[Row(p)][Col(p)] == ShipMark
  {
    var left, right := Run(g[Row(p)], Col(p) - 1, -1, -1), Run(g[Row(p)], Col(p) + 1, 10, 1);
    RowSpan(Col(p) - left, Row(p), left + right + 1)
  }

  /** The vertical ship candidate through `p`, in ascending order. The downward scan may reach
      the last row; the upward scan stops before row 0 and never looks at it. */
  function VerticalRun(g: Grid, p: Point): seq<Point>
    requires IsGrid(g) && InBoard(p) && g[Row(p)][Col(p)] == ShipMark
  {
    var up, down := Run(Column(g, Col(p)), Row(p) - 1, 0, -1), Run(Column(g, Col(p)), Row(p) + 1, 10, 1);
    ColumnSpan(Col(p), Row(p) - up, up + down + 1)
  }

  /** The row run holds `p` and lies on `p`'s row: the cells from its first column on. */
  lemma HorizontalShape(g: Grid, p: Point)
    requires IsGrid(g) && InBoard(p) && g[Row(p)][Col(p)] == ShipMark
    ensures var h := HorizontalRun(g, p);
      && 1 <= |h| && p in h
      && 0 <= Col(h[0]) && Col(h[0]) + |h| <= 10
      && h == RowSpan(Col(h[0]), Row(p), |h|)
  {
    var left := Run(g[Row(p)], Col(p) - 1, -1, -1);
    var h := HorizontalRun(g, p);
    assert h[left] == p by { ChangeBack(p); }
    assert Col(h[0]) == Col(p) - left;
  }

  /** The row run is a run of ship parts, and the scans stop at its two ends. */
  lemma HorizontalCells(g: Grid, p: Point)
    requires IsGrid(g) && InBoard(p) && g[Row(p)][Col(p)] == ShipMark
    ensures var h := HorizontalRun(g, p);
      && 1 <= |h|
      && (forall c :: Col(h[0]) <= c < Col(h[0]) + |h| ==> g[Row(p)][c] == ShipMark)
      && (Col(h[0]) > 0 ==> g[Row(p)][Col(h[0]) - 1] != ShipMark)
      && (Col(h[0]) + |h| < 10 ==> g[Row(p)][Col(h[0]) + |h|] != ShipMark)
  {
    var c, r := Col(p), Row(p);
    var left := Run(g[r], c - 1, -1, -1);
    var right := Run(g[r], c + 1, 10, 1);
    var h := HorizontalRun(g, p);
    assert Col(h[0]) == c - left;
    forall cc | c - left <= cc < c - left + |h|
      ensures g[r][cc] == ShipMark
    {
      if cc < c {
        assert Within(c - 1, -1, left, cc);
      } else if cc > c {
        assert Within(c + 1, 1, right, cc);
      }
    }
    assert c - left > 0 ==> Along(c - 1, -1, left) == c - left - 1 && Before(c - left - 1, -1, -1);
    assert c + right + 1 < 10 ==> Along(c + 1, 1, right) == c + right + 1 && Before(c + right + 1, 10, 1);
  }

  /** The column run holds `p` and lies on `p`'s column, never starting at row 0 unless `p` is
      there: the cells from its first row on. */
  lemma VerticalShape(g: Grid, p: Point)
    requires IsGrid(g) && InBoard(p) && g[Row(p)][Col(p)] == ShipMark
    ensures var v := VerticalRun(g, p);
      && 1 <= |v| && p in v
      && 0 <= Row(v[0]) && Row(v[0]) + |v| <= 10
      && (Row(v[0]) == Row(p) || Row(v[0]) >= 1)
      && v == ColumnSpan(Col(p), Row(v[0]), |v|)
  {
    var up := Run(Column(g, Col(p)), Row(p) - 1, 0, -1);
    var v := VerticalRun(g, p);
    assert v[up] == p by { ChangeBack(p); }
    assert Row(v[0]) == Row(p) - up;
  }

  /** The column run is a run of ship parts, and the scans stop at its two ends (the upward
      one before row 0). */
  lemma VerticalCells(g: Grid, p: Point)
    requires IsGrid(g) && InBoard(p) && g[Row(p)][Col(p)] == ShipMark
    ensures var v := VerticalRun(g, p);
      && 1 <= |v|
      && (forall r :: Row(v[0]) <= r < Row(v[0]) + |v| ==> g[r][Col(p)] == ShipMark)
      && (Row(v[0]) >= 2 ==> g[Row(v[0]) - 1][Col(p)] != ShipMark)
      && (Row(v[0]) + |v| < 10 ==> g[Row(v[0]) + |v|][Col(p)] != ShipMark)
  {
    var c, r := Col(p), Row(p);
    var line := Column(g, c);
    var down := Run(line, r + 1, 10, 1);
    var up := Run(line, r - 1, 0, -1);
    var v := VerticalRun(g, p);
    assert |v| == up + down + 1 && Row(v[0]) == r - up;
    forall rr | r - up <= rr < r - up + |v|
      ensures g[rr][c] == ShipMark
    {
      if rr < r {
        assert Within(r - 1, -1, up, rr);
      } else if rr > r {
        assert Within(r + 1, 1, down, rr);
      }
    }
    assert r - up >= 2 ==> Along(r - 1, -1, up) == r - up - 1 && Before(r - up - 1, 0, -1);
    assert r + down + 1 < 10 ==> Along(r + 1, 1, down) == r + down + 1 && Before(r + down + 1, 10, 1);
  }

  /** The axis `ship_size` keeps: `max` of the two `[length, members]` lists. The longer run wins;
      on equal lengths Python compares the member lists, whose order comes from a `set`, so the
      contract only promises one of the two runs. */
  function Axis(g: Grid, p: Point): seq<Point>
    requires IsGrid(g) && InBoard(p) && g[Row(p)][Col(p)] == ShipMark
  {
    var h, v := HorizontalRun(g, p), VerticalRun(g, p);
    if |v| > |h| || (|v| == |h| && SeqLess(h, v)) then v else h
  }

  /** The kept axis contains the queried cell, is the row run or the column run, and is at
      least as long as either. */
  lemma AxisShape(g: Grid, p: Point)
    requires IsGrid(g) && InBoard(p) && g[Row(p)][Col(p)] == ShipMark
    ensures var m := Axis(g, p);
      && p in m
      && (m == HorizontalRun(g, p) || m == VerticalRun(g, p))
      && |HorizontalRun(g, p)| <= |m| && |VerticalRun(g, p)| <= |m|
  {
    HorizontalShape(g, p);
    VerticalShape(g, p);
  }

  /** Outcome of `ship_size`: 0 (no ship part), False (a foreign neighbour), or `[size, members]`. */
  datatype Shape = NoShip | Touching | Ship(size: int, members: seq<Point>)

  /** What `ship_size` returns for the cell `p`. */
  function ShipShape(g: Grid, p: Point): Shape
    requires IsGrid(g) && InBoard(p)
  {
    if g[Row(p)][Col(p)] != ShipMark then NoShip
    else
      var members := Axis(g, p);
      if exists q :: q in members && Foreign(g, q, members) then Touching
      else Ship(|members|, members)
  }

  /** The three outcomes of `ship_size`: no ship exactly off the ship parts, a shape with
      foreign neighbours exactly when a member of the longer axis has one, and otherwise the
      axis itself, which holds the queried cell. */
  lemma ShipShapeCases(g: Grid, p: Point)
    requires IsGrid(g) && InBoard(p)
    ensures var s := ShipShape(g, p);
      && (s.NoShip? <==> g[Row(p)][Col(p)] != ShipMark)
      && (s.Touching? <==>
            (g[Row(p)][Col(p)] == ShipMark && exists q :: q in Axis(g, p) && Foreign(g, q, Axis(g, p))))
      && (s.Ship? ==> s.members == Axis(g, p) && s.size == |s.members| && p in s.members)
  {
    if g[Row(p)][Col(p)] == ShipMark {
      AxisShape(g, p);
    }
  }

  /** The points lie side by side on one row, or one under the other on one column, in
      ascending order. */
  predicate Straight(m: seq<Point>)
  {
    |m| > 0 &&
    ((forall k :: 0 <= k < |m| ==> Row(m[k]) == Row(m[0]) && Col(m[k]) == Col(m[0]) + k) ||
     (forall k :: 0 <= k < |m| ==> Col(m[k]) == Col(m[0]) && Row(m[k]) == Row(m[0]) + k))
  }

  /** Every member of a run lies on the board and holds a ship part. */
  lemma RunCells(g: Grid, p: Point)
    requires IsGrid(g) && InBoard(p) && g[Row(p)][Col(p)] == ShipMark
    ensures forall q :: q in HorizontalRun(g, p) ==> InBoard(q) && g[Row(q)][Col(q)] == ShipMark
    ensures forall q :: q in VerticalRun(g, p) ==> InBoard(q) && g[Row(q)][Col(q)] == ShipMark
  {
    HorizontalShape(g, p);
    HorizontalCells(g, p);
    VerticalShape(g, p);
    VerticalCells(g, p);
    var h, v := HorizontalRun(g, p), VerticalRun(g, p);
    forall q | q in h
      ensures InBoard(q) && g[Row(q)][Col(q)] == ShipMark
    {
      var k :| 0 <= k < |h| && h[k] == q;
      assert q == Change(Col(h[0]) + k, Row(p));
    }
    forall q | q in v
      ensures InBoard(q) && g[Row(q)][Col(q)] == ShipMark
    {
      var k :| 0 <= k < |v| && v[k] == q;
      assert q == Change(Col(p), Row(v[0]) + k);
    }
  }

  /** The row run is a straight run of one to ten points. */
  lemma HorizontalStraight(g: Grid, p: Point)
    requires IsGrid(g) && InBoard(p) && g[Row(p)][Col(p)] == ShipMark
    ensures 1 <= |HorizontalRun(g, p)| <= 10 && Straight(HorizontalRun(g, p))
  {
    HorizontalShape(g, p);
    var h := HorizontalRun(g, p);
    assert forall k :: 0 <= k < |h| ==> h[k] == Change(Col(h[0]) + k, Row(p));
  }

  /** The column run is a straight run of one to ten points. */
  lemma VerticalStraight(g: Grid, p: Point)
    requires IsGrid(g) && InBoard(p) && g[Row(p)][Col(p)] == ShipMark
    ensures 1 <= |VerticalRun(g, p)| <= 10 && Straight(VerticalRun(g, p))
  {
    VerticalShape(g, p);
    var v := VerticalRun(g, p);
    assert forall k :: 0 <= k < |v| ==> v[k] == Change(Col(p), Row(v[0]) + k);
  }

  /** No member of an accepted ship has a ship part around it (looking only at rows and
      columns 1..9) that is not a member. */
  lemma AcceptedNoForeign(g: Grid, p: Point)
    requires IsGrid(g) && InBoard(p)
    requires ShipShape(g, p).Ship?
    ensures var m := ShipShape(g, p).members;
      forall q, c, r :: (q in m && Neighbour(q, c, r) && 0 < c < 10 && 0 < r < 10 &&
        g[r][c] == ShipMark) ==> Change(c, r) in m
  {
    var m := ShipShape(g, p).members;
    forall q, c, r | q in m && Neighbour(q, c, r) && 0 < c < 10 && 0 < r < 10 && g[r][c] == ShipMark
      ensures Change(c, r) in m
    {
      assert !Foreign(g, q, m);
      ForeignMeaning(g, q, m);
    }
  }

  /** A ship `ship_size` accepts is a straight run of one to ten ship parts through `p`, and no
      part of it has a ship part around it (looking only at rows and columns 1..9) that is not
      a member. */
  lemma AcceptedShipIsolated(g: Grid, p: Point)
    requires IsGrid(g) && InBoard(p)
    requires ShipShape(g, p).Ship?
    ensures var m := ShipShape(g, p).members;
      && 1 <= |m| <= 10
      && Straight(m)
      && (forall q :: q in m ==> InBoard(q) && g[Row(q)][Col(q)] == ShipMark)
      && forall q, c, r :: (q in m && Neighbour(q, c, r) && 0 < c < 10 && 0 < r < 10 &&
           g[r][c] == ShipMark) ==> Change(c, r) in m
  {
    RunCells(g, p);
    HorizontalStraight(g, p);
    VerticalStraight(g, p);
    AcceptedNoForeign(g, p);
  }

  /** The left scan reversed followed by the right scan without its start lists the row run. */
  lemma MergedRow(left: seq<Point>, right: seq<Point>, c: int, r: int, n: nat, m: nat)
    requires |left| == n + 1 && |right| == m + 1 && 0 <= c - n && c + m < 10
    requires forall k :: 0 <= k < |left| ==> left[k] == Change(c - k, r)
    requires forall k :: 0 <= k < |right| ==> right[k] == Change(c + k, r)
    ensures Reversed(left) + right[1..] == RowSpan(c - n, r, n + m + 1)
  {
    var rev, tail := Reversed(left), right[1..];
    var span := RowSpan(c - n, r, n + m + 1);
    forall j | 0 <= j < n + m + 1
      ensures (rev + tail)[j] == span[j]
    {
      if j <= n {
        assert rev[j] == left[n - j] == Change(c - (n - j), r);
      } else {
        assert tail[j - n - 1] == right[j - n] == Change(c + (j - n), r);
      }
    }
    assert rev + tail == span;
  }

  lemma MergedColumn(up: seq<Point>, down: seq<Point>, c: int, r: int)
    requires |up| >= 1 && |down| >= 1 && 0 <= c < 10
    requires forall k :: 0 <= k < |up| ==> up[k] == Change(c, r - k)
    requires forall k :: 0 <= k < |down| ==> down[k] == Change(c, r + k)
    ensures Reversed(up) + down[1..] == ColumnSpan(c, r - |up| + 1, |up| + |down| - 1)
  {
    var merged, span := Reversed(up) + down[1..], ColumnSpan(c, r - |up| + 1, |up| + |down| - 1);
    forall j | 0 <= j < |span|
      ensures merged[j] == span[j]
    {
      if j < |up| {
        assert merged[j] == up[|up| - 1 - j];
      } else {
        assert merged[j] == down[j - |up| + 1];
      }
    }
  }

  /** The left and right `check_row` scans of `ship_size` through `p`, and the distinct cells
      they found listed in ascending order. */
  method ScanRow(p: Point, g: Grid) returns (leftN: int, rightN: int, horizontal: seq<Point>)
    requires IsGrid(g) && InBoard(p) && g[Row(p)][Col(p)] == ShipMark
    ensures horizontal == HorizontalRun(g, p) && leftN + rightN - 1 == |horizontal|
  {
    var r, c := Row(p), Col(p);
    var left, right;
    leftN, left := CheckRow(g[r], r, c, -1, -1, false);
    rightN, right := CheckRow(g[r], r, c, 10, 1, false);
    assert forall k :: 0 <= k < |left| ==> left[k] == Change(c - k, r);
    assert forall k :: 0 <= k < |right| ==> right[k] == Change(c + k, r);
    MergedRow(left, right, c, r, Run(g[r], c - 1, -1, -1), Run(g[r], c + 1, 10, 1));
    horizontal := Reversed(left) + right[1..];
  }

  /** The down and up `check_row` scans of `ship_size` over `p`'s column, and the distinct
      cells they found listed in ascending order. */
  method ScanColumn(p: Point, g: Grid) returns (upN: int, downN: int, vertical: seq<Point>)
    requires IsGrid(g) && InBoard(p) && g[Row(p)][Col(p)] == ShipMark
    ensures vertical == VerticalRun(g, p) && upN + downN - 1 == |vertical|
  {
    var r, c := Row(p), Col(p);
    var column := Column(g, c);
    var down, up;
    downN, down := CheckRow(column, c, r, 10, 1, true);
    upN, up := CheckRow(column, c, r, 0, -1, true);
    assert forall k :: 0 <= k < |up| ==> up[k] == Change(c, r - k);
    assert forall k :: 0 <= k < |down| ==> down[k] == Change(c, r + k);
    MergedColumn(up, down, c, r);
    vertical := Reversed(up) + down[1..];
  }

  /** The four scans of `ship_size` and `max` over the two `[length, members]` lists. */
  method LongerAxis(p: Point, g: Grid) returns (n: int, members: seq<Point>)
    requires IsGrid(g) && InBoard(p) && g[Row(p)][Col(p)] == ShipMark
    ensures members == Axis(g, p) && n == |members|
  {
    var leftN, rightN, horizontal := ScanRow(p, g);
    var upN, downN, vertical := ScanColumn(p, g);
    n, members := leftN + rightN - 1, horizontal;
    if upN + downN - 1 > n || (upN + downN - 1 == n && SeqLess(horizontal, vertical)) {
      n, members := upN + downN - 1, vertical;
    }
  }

  /** A member of the kept axis with a foreign neighbour makes the cell's shape Touching. */
  lemma TouchingMember(g: Grid, p: Point, i: int)
    requires IsGrid(g) && InBoard(p) && g[Row(p)][Col(p)] == ShipMark
    requires 0 <= i < |Axis(g, p)| && Foreign(g, Axis(g, p)[i], Axis(g, p))
    ensures ShipShape(g, p) == Touching
  {
    assert Axis(g, p)[i] in Axis(g, p);
  }

  /** When no member of the kept axis has a foreign neighbour, the cell's shape is that axis. */
  lemma IsolatedAxis(g: Grid, p: Point)
    requires IsGrid(g) && InBoard(p) && g[Row(p)][Col(p)] == ShipMark
    requires forall j :: 0 <= j < |Axis(g, p)| ==> !Foreign(g, Axis(g, p)[j], Axis(g, p))
    ensures ShipShape(g, p) == Ship(|Axis(g, p)|, Axis(g, p))
  {
    var members := Axis(g, p);
    forall q | q in members
      ensures !Foreign(g, q, members)
    {
      var j :| 0 <= j < |members| && members[j] == q;
    }
  }

  /** The `for point in ship[1]` loop of `ship_size`: the index of the first member with a
      foreign neighbour, or the number of members when none has one. */
  method FirstTouching(members: seq<Point>, g: Grid) returns (i: int)
    requires IsGrid(g)
    ensures 0 <= i <= |members|
    ensures i < |members| ==> Foreign(g, members[i], members)
    ensures forall j :: 0 <= j < i ==> !Foreign(g, members[j], members)
  {
    i := 0;
    while i < |members|
      invariant 0 <= i <= |members|
      invariant forall j :: 0 <= j < i ==> !Foreign(g, members[j], members)
    {
      var foreign := FindForeign(members[i], members, g);
      if foreign {
        return;
      }
      i := i + 1;
    }
  }

  /** `ship_size`: the ship the cell `p` belongs to, or why there is none. */
  method ShipSize(p: Point, g: Grid) returns (s: Shape)
    requires IsGrid(g) && InBoard(p)
    ensures s == ShipShape(g, p)
  {
    if !HasShip(p, g) {
      return NoShip;
    }
    var n, members := LongerAxis(p, g);
    var i := FirstTouching(members, g);
    if i < |members| {
      TouchingMember(g, p, i);
      return Touching;
    }
    IsolatedAxis(g, p);
    return Ship(n, members);
  }

  /** The list read backwards. */
  function Reversed<T>(s: seq<T>): (r: seq<T>)
    ensures |r| == |s|
    ensures forall k :: 0 <= k < |s| ==> r[k] == s[|s| - 1 - k]
  {
    if s == [] then [] else Reversed(s[1..]) + [s[0]]
  }
}
