/** Random placement of the fleet (battle_functions.py:158-206, 225-253; the same loops are
    `Field._generate_ships` and `Field.generate_field`, battle_main.py:136-215).

    `randrange(n)` is the next number of an injected draw sequence taken modulo `n`. The
    source retries forever; here every retry consumes draws, and a method that runs out of
    draws reports failure instead of looping. */
module Placement {
  import opened Board
  import opened Shapes
  import opened Fleet

  /** The four directions a ship may grow in, as (column step, row step). */
  const Directions: seq<(int, int)> := [(0, 1), (0, -1), (1, 0), (-1, 0)]

  /** The order sizes are placed in: the key order of the fleet dictionary, largest first. */
  const SizeOrder: seq<int> := [4, 3, 2, 1]

  /** `a * k` for a direction component `a` in -1..1. */
  function Scale(a: int, k: int): (v: int)
    requires -1 <= a <= 1
    ensures v == a * k
  {
    if a == 0 then 0 else if a == 1 then k else -k
  }

  /** The point `k` steps from the start (`sc`, `sr`) in direction `d`; it may lie off the
      field, below 0 or at 10 and above. */
  function StepPoint(sc: int, sr: int, d: (int, int), k: int): (p: Point)
    requires 0 <= sc < 10 && 0 <= sr < 10 && d in Directions && 0 <= k < 4
    ensures Col(p) == sc + d.0 * k && Row(p) == sr + d.1 * k
  {
    Change(sc + Scale(d.0, k), sr + Scale(d.1, k))
  }

  /** The physical cell `field[row][column]` reaches for a readable point, with Python's
      negative indexing. */
  function Cell(p: Point): (int, int)
    requires Indexable(p)
  {
    (Wrap(Row(p)), Wrap(Col(p)))
  }

  /** The inner loop accepts point `p` after the points `coords`: reading it raises no
      IndexError, it holds no ship part and it has no foreign neighbour. */
  predicate Accepts(g: Grid, p: Point, coords: seq<Point>)
    requires IsGrid(g)
  {
    Indexable(p) && !HasShip(p, g) && !Foreign(g, p, coords)
  }

  /** `x` points in a straight line from an in-board start in one of the four directions. */
  predicate Line(coords: seq<Point>, x: int)
  {
    && |coords| == x && 1 <= x <= 4
    && InBoard(coords[0])
    && exists d :: d in Directions &&
         forall k :: 0 <= k < x ==> coords[k] == StepPoint(Col(coords[0]), Row(coords[0]), d, k)
  }

  /** Every point is readable and lies on a cell without a ship part, and no two points reach
      the same cell. */
  predicate Fresh(g: Grid, coords: seq<Point>)
    requires IsGrid(g)
  {
    && (forall k :: 0 <= k < |coords| ==> Indexable(coords[k]) && !HasShip(coords[k], g))
    && forall i, j :: 0 <= i < j < |coords| ==> Cell(coords[i]) != Cell(coords[j])
  }

  /** Every point after the start was checked for foreign neighbours against the points before
      it; the start itself never is. */
  predicate Apart(g: Grid, coords: seq<Point>)
    requires IsGrid(g)
  {
    forall k :: 1 <= k < |coords| ==> !Foreign(g, coords[k], coords[..k])
  }

  /** Some point of `coords` reaches cell (`r`, `c`). */
  predicate Covers(coords: seq<Point>, r: int, c: int)
  {
    exists k :: 0 <= k < |coords| && Indexable(coords[k]) && Cell(coords[k]) == (r, c)
  }

  /** Field `h` grew from field `g` by ship parts only: no ship part is lost and every cell that
      changed now holds one. */
  predicate Grows(g: Grid, h: Grid)
    requires IsGrid(g) && IsGrid(h)
  {
    forall r, c :: 0 <= r < 10 && 0 <= c < 10 ==>
      (g[r][c] == ShipMark ==> h[r][c] == ShipMark) && (h[r][c] == g[r][c] || h[r][c] == ShipMark)
  }

  lemma GrowsTrans(g: Grid, h: Grid, i: Grid)
    requires IsGrid(g) && IsGrid(h) && IsGrid(i)
    requires Grows(g, h) && Grows(h, i)
    ensures Grows(g, i)
  {
  }

  /** Two readable indices less than ten apart reach different cells. */
  lemma WrapApart(a: int, b: int)
    requires -10 <= a < 10 && -10 <= b < 10 && a != b && -10 < a - b < 10
    ensures Wrap(a) != Wrap(b)
  {
  }

  /** The inner `for k in range(1, x)` loop: grow a ship of size `x` from the start cell in
      direction `d`. It stops at the first point that is occupied or has a foreign neighbour,
      and raises the IndexError when a point's row or column is 10 or more. */
  method Extend(g: Grid, sc: int, sr: int, d: (int, int), x: int)
    returns (indexError: bool, coordinates: seq<Point>)
    requires IsGrid(g) && 0 <= sc < 10 && 0 <= sr < 10 && d in Directions && 1 <= x <= 4
    ensures 1 <= |coordinates| <= x
    ensures forall k :: 0 <= k < |coordinates| ==> coordinates[k] == StepPoint(sc, sr, d, k)
    ensures forall k :: 1 <= k < |coordinates| ==> Accepts(g, coordinates[k], coordinates[..k])
    ensures indexError ==> |coordinates| < x && !Indexable(StepPoint(sc, sr, d, |coordinates|))
    ensures !indexError && |coordinates| < x ==>
      var next := StepPoint(sc, sr, d, |coordinates|);
      Indexable(next) && (HasShip(next, g) || Foreign(g, next, coordinates))
  {
    indexError := false;
    coordinates := [Change(sc, sr)];
    var k := 1;
    while k < x
      invariant 1 <= k <= x && |coordinates| == k
      invariant forall j :: 0 <= j < k ==> coordinates[j] == StepPoint(sc, sr, d, j)
      invariant forall j :: 1 <= j < k ==> Accepts(g, coordinates[j], coordinates[..j])
    {
      var coord := StepPoint(sc, sr, d, k);
      if !Indexable(coord) {
        indexError := true;
        return;
      }
      var occupied := HasShip(coord, g);
      if occupied {
        return;
      }
      var foreign := FindForeign(coord, coordinates, g);
      if foreign {
        return;
      }
      assert coordinates == (coordinates + [coord])[..k];
      coordinates := coordinates + [coord];
      k := k + 1;
    }
  }

  /** The points of a ship the inner loop completed reach distinct cells. */
  lemma LineCellsDistinct(g: Grid, coords: seq<Point>, sc: int, sr: int, d: (int, int))
    requires IsGrid(g) && 0 <= sc < 10 && 0 <= sr < 10 && d in Directions && |coords| <= 4
    requires forall k :: 0 <= k < |coords| ==> coords[k] == StepPoint(sc, sr, d, k)
    requires forall k :: 0 <= k < |coords| ==> Indexable(coords[k])
    ensures forall i, j :: 0 <= i < j < |coords| ==> Cell(coords[i]) != Cell(coords[j])
  {
    forall i, j | 0 <= i < j < |coords|
      ensures Cell(coords[i]) != Cell(coords[j])
    {
      if d.1 != 0 {
        WrapApart(Row(coords[i]), Row(coords[j]));
      } else {
        WrapApart(Col(coords[i]), Col(coords[j]));
      }
    }
  }

  /** The `while True` loop for one ship of size `x`: draw a start column and row, and when
      that cell is free a direction; when the attempt grew to `x` points, write them on the
      field. An abandoned attempt writes nothing. */
  method PlaceShip(g: Grid, x: int, rng: seq<nat>, pos: nat)
    returns (placed: bool, g': Grid, coords: seq<Point>, pos': nat)
    requires IsGrid(g) && 1 <= x <= 4 && pos <= |rng|
    ensures IsGrid(g') && pos <= pos' <= |rng|
    ensures placed ==> pos' >= pos + 3 && Line(coords, x) && Fresh(g, coords) && Apart(g, coords)
    ensures placed ==> Stamped(g, coords, g') && Grows(g, g') && Stars(g') == Stars(g) + x
    ensures !placed ==> g' == g && pos' + 3 > |rng|
  {
    g', pos' := g, pos;
    while true
      invariant pos <= pos' <= |rng|
      decreases |rng| - pos'
    {
      if pos' + 2 > |rng| {
        return false, g, [], pos';
      }
      var sc, sr := rng[pos'] % 10, rng[pos' + 1] % 10;
      pos' := pos' + 2;
      var coord := Change(sc, sr);
      var occupied := HasShip(coord, g);
      if !occupied {
        if pos' + 1 > |rng| {
          return false, g, [], pos';
        }
        var d := Directions[rng[pos'] % 4];
        pos' := pos' + 1;
        var indexError, coordinates := Extend(g, sc, sr, d, x);
        if !indexError && |coordinates| == x {
          assert coordinates[0] == coord;
          LineCellsDistinct(g, coordinates, sc, sr, d);
          g' := Stamp(g, coordinates);
          return true, g', coordinates, pos';
        }
      }
    }
  }

  /** `h` is `g` with a ship part written on every cell a point of `coords` reaches. */
  predicate Stamped(g: Grid, coords: seq<Point>, h: Grid)
    requires IsGrid(g) && IsGrid(h)
  {
    forall r, c :: 0 <= r < 10 && 0 <= c < 10 ==>
      h[r][c] == if Covers(coords, r, c) then ShipMark else g[r][c]
  }

  /** Stamping one more point covers exactly the cells covered before plus that point's cell. */
  lemma CoversNext(coords: seq<Point>, i: int, r: int, c: int)
    requires 0 <= i < |coords| && Indexable(coords[i])
    ensures Covers(coords[..i + 1], r, c) <==> Covers(coords[..i], r, c) || (r, c) == Cell(coords[i])
  {
    if Covers(coords[..i + 1], r, c) {
      var k :| 0 <= k < i + 1 && Indexable(coords[..i + 1][k]) && Cell(coords[..i + 1][k]) == (r, c);
      if k < i {
        assert coords[..i][k] == coords[..i + 1][k];
      }
    }
    if Covers(coords[..i], r, c) {
      var k :| 0 <= k < i && Indexable(coords[..i][k]) && Cell(coords[..i][k]) == (r, c);
      assert coords[..i + 1][k] == coords[..i][k];
    }
    if (r, c) == Cell(coords[i]) {
      assert Cell(coords[..i + 1][i]) == (r, c);
    }
  }

  /** In a fresh placement the cell of point `i` is neither stamped by the earlier points nor a
      ship part of the field stamped on. */
  lemma FreshUncovered(g: Grid, coords: seq<Point>, i: int)
    requires IsGrid(g) && Fresh(g, coords) && 0 <= i < |coords|
    ensures !Covers(coords[..i], Cell(coords[i]).0, Cell(coords[i]).1)
    ensures g[Cell(coords[i]).0][Cell(coords[i]).1] != ShipMark
  {
    forall k | 0 <= k < i
      ensures Cell(coords[..i][k]) != Cell(coords[i])
    {
      assert coords[..i][k] == coords[k];
    }
  }

  /** The write loop `field[r][c] = '*'` over the points of a completed ship. */
  method Stamp(g: Grid, coords: seq<Point>) returns (g': Grid)
    requires IsGrid(g) && forall k :: 0 <= k < |coords| ==> Indexable(coords[k])
    ensures IsGrid(g') && Grows(g, g') && Stamped(g, coords, g')
    ensures Fresh(g, coords) ==> Stars(g') == Stars(g) + |coords|
  {
    g' := g;
    for i := 0 to |coords|
      invariant IsGrid(g')
      invariant forall r, c :: 0 <= r < 10 && 0 <= c < 10 ==>
        g'[r][c] == if Covers(coords[..i], r, c) then ShipMark else g[r][c]
      invariant Fresh(g, coords) ==> Stars(g') == Stars(g) + i
    {
      var r, c := Cell(coords[i]).0, Cell(coords[i]).1;
      if Fresh(g, coords) {
        FreshUncovered(g, coords, i);
        StarsMark(g', r, c);
      }
      g' := Mark(g', r, c, ShipMark);
      forall r', c' | 0 <= r' < 10 && 0 <= c' < 10
        ensures Covers(coords[..i + 1], r', c') <==> Covers(coords[..i], r', c') || (r', c') == (r, c)
      {
        CoversNext(coords, i, r', c');
      }
    }
    assert coords[..|coords|] == coords;
  }

  /** The `for i in range(number)` loop: place `number` ships of size `x`, one after another. */
  method PlaceSize(g: Grid, x: int, number: int, rng: seq<nat>, pos: nat)
    returns (done: bool, g': Grid, placed: seq<seq<Point>>, pos': nat)
    requires IsGrid(g) && 1 <= x <= 4 && 0 <= number && pos <= |rng|
    ensures IsGrid(g') && Grows(g, g') && pos <= pos' <= |rng|
    ensures done ==> pos' >= pos + 3 * number
    ensures done ==> |placed| == number && Stars(g') == Stars(g) + x * number
    ensures done ==> forall s :: s in placed ==> Line(s, x)
  {
    g', placed, pos' := g, [], pos;
    for i := 0 to number
      invariant IsGrid(g') && Grows(g, g') && pos + 3 * i <= pos' <= |rng|
      invariant |placed| == i && Stars(g') == Stars(g) + x * i
      invariant forall s :: s in placed ==> Line(s, x)
    {
      var ok, coords;
      ghost var before := g';
      ok, g', coords, pos' := PlaceShip(g', x, rng, pos');
      if !ok {
        return false, g', placed, pos';
      }
      GrowsTrans(g, before, g');
      placed := placed + [coords];
      assert x * (i + 1) == x * i + x;
    }
    done := true;
  }

  /** Ship parts laid before the size at position `idx` of the placement order. */
  function Laid(idx: int): int
    requires 0 <= idx <= 4
  {
    [0, 4, 10, 16, 20][idx]
  }

  /** The size at position `idx` of the placement order is a size of the fleet, with at least
      one ship. */
  lemma SizeAt(idx: int)
    requires 0 <= idx < |SizeOrder|
    ensures 1 <= SizeOrder[idx] <= 4 && SizeOrder[idx] in Requirement && Requirement[SizeOrder[idx]] >= 1
  {
  }

  /** Placing the ships of the size at position `idx` lays that size times its count. */
  lemma LaidStep(idx: int)
    requires 0 <= idx < 4
    ensures Laid(idx + 1) == Laid(idx) + SizeOrder[idx] * Requirement[SizeOrder[idx]]
  {
    if idx == 0 {
    } else if idx == 1 {
    } else if idx == 2 {
    } else {
    }
  }

  /** The coordinate lists recorded once the first `idx` sizes of the placement order are
      placed: a list per size of the fleet, holding lines of that size, as many as the fleet
      asks for of the sizes done and none yet of the others. */
  predicate Recorded(ships2: map<int, seq<seq<Point>>>, idx: int)
    requires 0 <= idx <= 4
  {
    && ships2.Keys == Requirement.Keys
    && (forall x :: x in ships2 ==> forall s :: s in ships2[x] ==> Line(s, x))
    && forall x :: x in ships2 ==> |ships2[x]| == if x in SizeOrder[..idx] then Requirement[x] else 0
  }

  lemma RecordedStep(ships2: map<int, seq<seq<Point>>>, idx: int, placed: seq<seq<Point>>)
    requires 0 <= idx < 4 && Recorded(ships2, idx)
    requires |placed| == Requirement[SizeOrder[idx]]
    requires forall s :: s in placed ==> Line(s, SizeOrder[idx])
    ensures Recorded(ships2[SizeOrder[idx] := placed], idx + 1)
  {
    assert SizeOrder[..idx + 1] == SizeOrder[..idx] + [SizeOrder[idx]];
    assert SizeOrder[idx] !in SizeOrder[..idx];
  }

  /** `generate_ships`: place the whole fleet, largest ships first, on the field `g`, and
      return the field with the coordinate lists of the ships of each size. */
  method GenerateShips(g: Grid, rng: seq<nat>, pos: nat)
    returns (done: bool, g': Grid, ships2: map<int, seq<seq<Point>>>, pos': nat)
    requires IsGrid(g) && pos <= |rng|
    ensures IsGrid(g') && Grows(g, g') && pos <= pos' <= |rng|
    ensures done ==> pos' > pos && Stars(g') == Stars(g) + 20
    ensures done ==> ships2.Keys == Requirement.Keys
    ensures done ==> forall x :: x in ships2 ==> |ships2[x]| == Requirement[x]
    ensures done ==> forall x :: x in ships2 ==> forall s :: s in ships2[x] ==> Line(s, x)
  {
    g', pos' := g, pos;
    ships2 := map[4 := [], 3 := [], 2 := [], 1 := []];
    for idx := 0 to |SizeOrder|
      invariant IsGrid(g') && Grows(g, g') && pos <= pos' <= |rng|
      invariant idx > 0 ==> pos' > pos
      invariant Stars(g') == Stars(g) + Laid(idx)
      invariant Recorded(ships2, idx)
    {
      var ok;
      ghost var before := g';
      ok, g', ships2, pos' := PlaceRound(g', idx, ships2, rng, pos');
      GrowsTrans(g, before, g');
      if !ok {
        return false, g', ships2, pos';
      }
      LaidStep(idx);
    }
    done := true;
    RecordedAll(ships2);
  }

  /** Once all four sizes are placed, every size has as many lines as the fleet asks for. */
  lemma RecordedAll(ships2: map<int, seq<seq<Point>>>)
    requires Recorded(ships2, 4)
    ensures forall x :: x in ships2 ==> |ships2[x]| == Requirement[x]
  {
    assert SizeOrder[..4] == SizeOrder;
  }

  /** One turn of the size loop of `generate_ships`: place the ships of the size at position
      `idx` of the placement order and record their coordinate lists under that size. */
  method PlaceRound(g: Grid, idx: int, ships2: map<int, seq<seq<Point>>>, rng: seq<nat>, pos: nat)
    returns (ok: bool, g': Grid, ships2': map<int, seq<seq<Point>>>, pos': nat)
    requires IsGrid(g) && 0 <= idx < |SizeOrder| && pos <= |rng| && Recorded(ships2, idx)
    ensures IsGrid(g') && Grows(g, g') && pos <= pos' <= |rng|
    ensures ok ==> pos' > pos && Recorded(ships2', idx + 1)
    ensures ok ==> Stars(g') == Stars(g) + SizeOrder[idx] * Requirement[SizeOrder[idx]]
  {
    SizeAt(idx);
    var x := SizeOrder[idx];
    var number := Requirement[x];
    var placed;
    ok, g', placed, pos' := PlaceSize(g, x, number, rng, pos);
    ships2' := ships2;
    if ok {
      RecordedStep(ships2, idx, placed);
      ships2' := ships2[x := placed];
    }
  }

  /** `generate_field`: place fleets on a blank field until `is_valid` accepts one. */
  method GenerateField(rng: seq<nat>, start: nat) returns (ok: bool, g: Grid, pos: nat)
    requires start <= |rng|
    ensures IsGrid(g) && start <= pos <= |rng|
    ensures ok ==> pos > start && FleetValid(g) && Stars(g) == 20
    ensures ok ==> forall r, c :: 0 <= r < 10 && 0 <= c < 10 ==> g[r][c] == ShipMark || g[r][c] == EmptyMark
  {
    var blank := Blank();
    BlankStarsFrom(0);
    var done, ships2;
    done, g, ships2, pos := GenerateShips(blank, rng, start);
    if !done {
      return false, g, pos;
    }
    var valid := IsValid(g);
    while !valid
      invariant IsGrid(g) && start < pos <= |rng| && Stars(g) == 20 && Grows(blank, g)
      invariant valid ==> FleetValid(g)
      decreases |rng| - pos
    {
      done, g, ships2, pos := GenerateShips(blank, rng, pos);
      if !done {
        return false, g, pos;
      }
      valid := IsValid(g);
    }
    ok := true;
    forall r, c | 0 <= r < 10 && 0 <= c < 10
      ensures g[r][c] == ShipMark || g[r][c] == EmptyMark
    {
      assert blank[r][c] == EmptyMark;
    }
  }
}
