/** The object layer of the game (battle_main.py:12-225): ships that record the hits they take,
    the field that owns a roster of ships and resolves shots, and the player's ship counter. */
module Battle {
  import opened Wrappers
  import opened Board
  import opened Shapes
  import opened Fleet
  import opened Placement
  import opened Render

  /** A ship on the field: its bow (the least of its parts), its length, its parts and the
      parts hit so far. */
  class Ship {
    const bow: Point
    const length: int
    const parts: seq<Point>
    var hit: seq<Point>

    constructor (bow: Point, length: int, parts: seq<Point>)
      ensures this.bow == bow && this.length == length && this.parts == parts
      ensures hit == []
    {
      this.bow := bow;
      this.length := length;
      this.parts := parts;
      hit := [];
    }

    /** Whether the ship has taken as many hits as it is long. */
    predicate Destroyed()
      reads this
    {
      |hit| == length
    }

    /** `delete_ship`: the parts when the ship is destroyed, nothing otherwise. */
    method DeleteShip() returns (destroyed: Option<seq<Point>>)
      ensures destroyed.Some? <==> Destroyed()
      ensures destroyed.Some? ==> destroyed.value == parts
    {
      if |hit| == length {
        return Some(parts);
      }
      return None;
    }

    /** `shoot_at`: record one more hit, then report whether that destroyed the ship. */
    method ShootAt(point: Point) returns (destroyed: Option<seq<Point>>)
      modifies this
      ensures hit == old(hit) + [point]
      ensures destroyed.Some? <==> |old(hit)| + 1 == length
      ensures destroyed.Some? ==> destroyed.value == parts
    {
      hit := hit + [point];
      destroyed := DeleteShip();
    }
  }

  /** The player; only the number of ships still afloat is modelled. */
  class Player {
    var ships: int

    constructor ()
      ensures ships == 10
    {
      ships := 10;
    }
  }

  /** The eight directions around a sunk ship's part, as (column step, row step), in the order
      `Field.shoot_at` tries them. */
  const SinkDirections: seq<(int, int)> := [(0, 1), (0, -1), (-1, 0), (1, 0), (-1, 1), (1, 1), (-1, -1), (1, -1)]

  /** Index of the first ship of the roster whose parts hold `p`; the roster's length when
      none does. */
  function OwnerIndex(ships: seq<Ship>, p: Point): (i: int)
    ensures 0 <= i <= |ships|
    ensures i < |ships| ==> p in ships[i].parts
    ensures forall k :: 0 <= k < i ==> p !in ships[k].parts
  {
    if |ships| == 0 then 0
    else if p in ships[0].parts then 0
    else 1 + OwnerIndex(ships[1..], p)
  }

  /** What the roster says about each ship: bow, length and parts. */
  function Specs(ships: seq<Ship>): (specs: seq<(Point, int, seq<Point>)>)
    ensures |specs| == |ships|
  {
    seq(|ships|, i requires 0 <= i < |ships| => (ships[i].bow, ships[i].length, ships[i].parts))
  }

  /** Ship descriptions as `_add_ships` makes them: distinct bows, each ship at least one part
      long, as long as its list of parts, and with its parts on the field. */
  predicate SpecsOk(specs: seq<(Point, int, seq<Point>)>)
  {
    && (forall i, j :: 0 <= i < j < |specs| ==> specs[i].0 != specs[j].0)
    && forall i :: 0 <= i < |specs| ==>
         && 1 <= specs[i].1 == |specs[i].2|
         && forall q :: q in specs[i].2 ==> InBoard(q)
  }

  /** The roster as the source builds it: distinct bows (so distinct ships), each ship at
      least one part long, as long as its list of parts, and with its parts on the field. */
  predicate RosterOk(ships: seq<Ship>)
  {
    && (forall i, j :: 0 <= i < j < |ships| ==> ships[i].bow != ships[j].bow)
    && forall i :: 0 <= i < |ships| ==>
         && 1 <= ships[i].length == |ships[i].parts|
         && forall q :: q in ships[i].parts ==> InBoard(q)
  }

  /** The roster is in shape exactly when its ship descriptions are. */
  lemma RosterSpecs(ships: seq<Ship>)
    ensures RosterOk(ships) <==> SpecsOk(Specs(ships))
  {
    var specs := Specs(ships);
    assert forall i :: 0 <= i < |ships| ==> specs[i] == (ships[i].bow, ships[i].length, ships[i].parts);
  }

  /** Every ship part on field `g` belongs to some ship of the roster. */
  predicate CoveredBy(g: Grid, ships: seq<Ship>)
    requires IsGrid(g)
  {
    forall r, c :: 0 <= r < 10 && 0 <= c < 10 && g[r][c] == ShipMark ==>
      exists k :: 0 <= k < |ships| && Change(c, r) in ships[k].parts
  }

  /** Some part has (`c`, `r`) among its eight neighbours. */
  predicate Near(parts: seq<Point>, c: int, r: int)
  {
    exists k :: 0 <= k < |parts| && Neighbour(parts[k], c, r)
  }

  /** The field after the parts `parts[..n]` of a sunk ship are marked: those parts are
      sunk, the cells around them that are not parts of the ship are misses, and every other
      cell is as on `g`. */
  function SinkState(g: Grid, parts: seq<Point>, n: int): (h: Grid)
    requires IsGrid(g) && 0 <= n <= |parts|
    ensures IsGrid(h)
  {
    seq(10, r requires 0 <= r < 10 => seq(10, c requires 0 <= c < 10 =>
      if Change(c, r) in parts[..n] then SunkMark
      else if Change(c, r) !in parts && Near(parts[..n], c, r) then MissMark
      else g[r][c]))
  }

  /** The field after a ship with parts `parts` sinks. */
  function Sunk(g: Grid, parts: seq<Point>): (h: Grid)
    requires IsGrid(g)
    ensures IsGrid(h)
  {
    SinkState(g, parts, |parts|)
  }

  /** The field with misses around `part` on the first `m` directions, except on parts. */
  function AroundState(g: Grid, part: Point, parts: seq<Point>, m: int): (h: Grid)
    requires IsGrid(g) && 0 <= m <= |SinkDirections|
    ensures IsGrid(h)
  {
    seq(10, r requires 0 <= r < 10 => seq(10, c requires 0 <= c < 10 =>
      if Change(c, r) !in parts && Toward(part, m, c, r) then MissMark else g[r][c]))
  }

  /** (`c`, `r`) is one of the first `m` directions away from `part`. */
  predicate Toward(part: Point, m: int, c: int, r: int)
    requires 0 <= m <= |SinkDirections|
  {
    exists j :: 0 <= j < m && c == Col(part) + SinkDirections[j].0 && r == Row(part) + SinkDirections[j].1
  }

  /** The eight directions reach exactly the eight neighbours. */
  lemma TowardAll(part: Point, c: int, r: int)
    ensures Toward(part, 8, c, r) <==> Neighbour(part, c, r)
  {
    if Neighbour(part, c, r) {
      var d := (c - Col(part), r - Row(part));
      assert d in SinkDirections;
      var j :| 0 <= j < 8 && SinkDirections[j] == d;
    }
  }

  /** `list.remove`: the roster without the first occurrence of `x`. */
  function RemoveFirst(ships: seq<Ship>, x: Ship): (rest: seq<Ship>)
    ensures x in ships ==> |rest| == |ships| - 1
    ensures x !in ships ==> rest == ships
  {
    if |ships| == 0 then []
    else if ships[0] == x then ships[1..]
    else [ships[0]] + RemoveFirst(ships[1..], x)
  }

  /** Removing the first occurrence of the ship at index `i` cuts out exactly that index. */
  lemma {:induction false} RemoveFirstAt(ships: seq<Ship>, i: int)
    requires 0 <= i < |ships| && forall k :: 0 <= k < i ==> ships[k] != ships[i]
    ensures RemoveFirst(ships, ships[i]) == ships[..i] + ships[i + 1..]
  {
    if i > 0 {
      RemoveFirstAt(ships[1..], i - 1);
      assert ships[1..][..i - 1] + ships[1..][i..] == ships[1..i] + ships[i + 1..];
      assert ships[..i] == [ships[0]] + ships[1..i];
    }
  }

  /** The bows of the roster, in order. */
  function Bows(ships: seq<Ship>): (bows: seq<Point>)
    ensures |bows| == |ships|
  {
    seq(|ships|, i requires 0 <= i < |ships| => ships[i].bow)
  }

  /** `ship_size` finds a ship, and not a shape with foreign neighbours, from every ship part:
      `_add_ships` can subscript each of its answers. */
  predicate Untouched(g: Grid)
    requires IsGrid(g)
  {
    forall k :: 0 <= k < 100 ==> !Answers(g)[k].Touching?
  }

  /** The ships `_add_ships` appends while scanning cells `k`.. with answers `a`, given the
      bows already on the roster: a ship is added when its bow, the least member, is new. */
  function Added(a: seq<Shape>, k: int, bows: seq<Point>): seq<(Point, int, seq<Point>)>
    requires WellFormed(a) && 0 <= k <= 100
    decreases 100 - k
  {
    if k == 100 then []
    else if a[k].Ship? then
      var bow := MinPoint(a[k].members);
      if bow in bows then Added(a, k + 1, bows)
      else [(bow, a[k].size, a[k].members)] + Added(a, k + 1, bows + [bow])
    else Added(a, k + 1, bows)
  }

  /** Before any direction is tried, and before any part is sunk, the field is as it was. */
  lemma StatesStart(g: Grid, part: Point, parts: seq<Point>)
    requires IsGrid(g)
    ensures AroundState(g, part, parts, 0) == g
    ensures SinkState(g, parts, 0) == g
  {
    var a, z := AroundState(g, part, parts, 0), SinkState(g, parts, 0);
    forall r, c | 0 <= r < 10 && 0 <= c < 10
      ensures a[r][c] == g[r][c] && z[r][c] == g[r][c]
    {
      assert !Near(parts[..0], c, r);
    }
    GridExt(a, g);
    GridExt(z, g);
  }

  /** One more direction reaches one more cell. */
  lemma TowardStep(part: Point, m: int, c: int, r: int)
    requires 0 <= m < |SinkDirections|
    ensures Toward(part, m + 1, c, r) <==>
      Toward(part, m, c, r) || (c == Col(part) + SinkDirections[m].0 && r == Row(part) + SinkDirections[m].1)
  {
    if Toward(part, m + 1, c, r) {
      var j :| 0 <= j < m + 1 && c == Col(part) + SinkDirections[j].0 && r == Row(part) + SinkDirections[j].1;
      if j < m {
        assert Toward(part, m, c, r);
      }
    }
    if Toward(part, m, c, r) {
      var j :| 0 <= j < m && c == Col(part) + SinkDirections[j].0 && r == Row(part) + SinkDirections[j].1;
      assert 0 <= j < m + 1;
    }
    if c == Col(part) + SinkDirections[m].0 && r == Row(part) + SinkDirections[m].1 {
      assert 0 <= m < m + 1;
    }
  }

  /** Trying direction `m` around `part` marks a miss on that cell when it is on the board and
      not a part of the ship, and changes nothing otherwise. */
  lemma AroundStep(g: Grid, part: Point, parts: seq<Point>, m: int)
    requires IsGrid(g) && InBoard(part) && 0 <= m < |SinkDirections|
    ensures var c, r := Col(part) + SinkDirections[m].0, Row(part) + SinkDirections[m].1;
      AroundState(g, part, parts, m + 1) ==
        if 0 <= c < 10 && 0 <= r < 10 && Change(c, r) !in parts
        then Mark(AroundState(g, part, parts, m), r, c, MissMark)
        else AroundState(g, part, parts, m)
  {
    var c, r := Col(part) + SinkDirections[m].0, Row(part) + SinkDirections[m].1;
    var before, after := AroundState(g, part, parts, m), AroundState(g, part, parts, m + 1);
    var expected := if 0 <= c < 10 && 0 <= r < 10 && Change(c, r) !in parts
      then Mark(before, r, c, MissMark) else before;
    forall r', c' | 0 <= r' < 10 && 0 <= c' < 10
      ensures after[r'][c'] == expected[r'][c']
    {
      TowardStep(part, m, c', r');
    }
    GridExt(after, expected);
  }

  /** One more part near a cell. */
  lemma NearStep(parts: seq<Point>, n: int, c: int, r: int)
    requires 0 <= n < |parts|
    ensures Near(parts[..n + 1], c, r) <==> Near(parts[..n], c, r) || Neighbour(parts[n], c, r)
  {
    if Near(parts[..n + 1], c, r) {
      var k :| 0 <= k < n + 1 && Neighbour(parts[..n + 1][k], c, r);
      if k < n {
        assert parts[..n][k] == parts[k];
      }
    }
    if Near(parts[..n], c, r) {
      var k :| 0 <= k < n && Neighbour(parts[..n][k], c, r);
      assert parts[..n + 1][k] == parts[k];
    }
    if Neighbour(parts[n], c, r) {
      assert parts[..n + 1][n] == parts[n];
    }
  }

  /** Sinking part `n`: mark it sunk, then mark misses all around it. */
  lemma SinkStep(g: Grid, parts: seq<Point>, n: int)
    requires IsGrid(g) && 0 <= n < |parts| && InBoard(parts[n])
    requires forall q :: q in parts ==> InBoard(q)
    ensures SinkState(g, parts, n + 1) ==
      AroundState(Mark(SinkState(g, parts, n), Row(parts[n]), Col(parts[n]), SunkMark), parts[n], parts, 8)
  {
    var part := parts[n];
    var marked := Mark(SinkState(g, parts, n), Row(part), Col(part), SunkMark);
    var lhs, rhs := SinkState(g, parts, n + 1), AroundState(marked, part, parts, 8);
    ChangeBack(part);
    forall r, c | 0 <= r < 10 && 0 <= c < 10
      ensures lhs[r][c] == rhs[r][c]
    {
      NearStep(parts, n, c, r);
      TowardAll(part, c, r);
      assert parts[..n + 1] == parts[..n] + [part];
      ChangeInjective(c, r, Col(part), Row(part));
    }
    GridExt(lhs, rhs);
  }

  /** Overwriting a cell with anything but a ship part keeps every ship part owned. */
  lemma CoveredMark(g: Grid, ships: seq<Ship>, r: int, c: int, ch: char)
    requires IsGrid(g) && 0 <= r < 10 && 0 <= c < 10 && ch != ShipMark
    ensures CoveredBy(g, ships) ==> CoveredBy(Mark(g, r, c, ch), ships)
  {
  }

  /** After a ship sinks and leaves the roster, every ship part still on the field is owned by
      a ship that stays, and the roster keeps its shape. */
  lemma CoveredSunk(g: Grid, ships: seq<Ship>, i: int)
    requires IsGrid(g) && 0 <= i < |ships| && RosterOk(ships)
    ensures RosterOk(ships[..i] + ships[i + 1..])
    ensures CoveredBy(g, ships) ==> CoveredBy(Sunk(g, ships[i].parts), ships[..i] + ships[i + 1..])
  {
    var rest := ships[..i] + ships[i + 1..];
    var h := Sunk(g, ships[i].parts);
    RemovedRoster(ships, i);
    if CoveredBy(g, ships) {
      forall r, c | 0 <= r < 10 && 0 <= c < 10 && h[r][c] == ShipMark
        ensures exists k :: 0 <= k < |rest| && Change(c, r) in rest[k].parts
      {
        SunkShipPart(g, ships[i].parts, r, c);
        var k :| 0 <= k < |ships| && Change(c, r) in ships[k].parts;
        if k < i {
          assert rest[k] == ships[k];
        } else {
          assert rest[k - 1] == ships[k];
        }
      }
    }
  }

  /** On a field whose ship parts all have owners, a shot at a ship part always finds one. */
  lemma CoveredOwner(g: Grid, ships: seq<Ship>, p: Point)
    requires IsGrid(g) && CoveredBy(g, ships) && InBoard(p) && g[Row(p)][Col(p)] == ShipMark
    ensures OwnerIndex(ships, p) < |ships|
  {
    ChangeBack(p);
    var k :| 0 <= k < |ships| && Change(Col(p), Row(p)) in ships[k].parts;
  }

  /** A roster without one of its ships stays in shape. */
  lemma RemovedRoster(ships: seq<Ship>, i: int)
    requires 0 <= i < |ships| && RosterOk(ships)
    ensures RosterOk(ships[..i] + ships[i + 1..])
  {
    var rest := ships[..i] + ships[i + 1..];
    forall k | 0 <= k < |rest|
      ensures rest[k] == ships[if k < i then k else k + 1]
    {
      if k < i {
        assert rest[k] == ships[..i][k];
      } else {
        assert rest[k] == ships[i + 1..][k - i];
      }
    }
    forall j, k | 0 <= j < k < |rest|
      ensures rest[j].bow != rest[k].bow
    {
      var j', k' := if j < i then j else j + 1, if k < i then k else k + 1;
      assert j' < k' && rest[j] == ships[j'] && rest[k] == ships[k'];
    }
  }

  /** A ship part left on the field after a sinking was a ship part before, and not one of the
      sunk ship's parts. */
  lemma SunkShipPart(g: Grid, parts: seq<Point>, r: int, c: int)
    requires IsGrid(g) && 0 <= r < 10 && 0 <= c < 10 && Sunk(g, parts)[r][c] == ShipMark
    ensures g[r][c] == ShipMark && Change(c, r) !in parts
  {
    assert parts[..|parts|] == parts;
  }

  /** How `correct_ships` ends: with a field and a roster of ten ships, by running out of
      draws, or with the TypeError `_add_ships` raises on a shape with foreign neighbours. */
  datatype Outcome = Built | Exhausted | TypeError

  /** Appending a ship appends its bow and its description. */
  lemma AppendShip(ships: seq<Ship>, s: Ship)
    ensures Bows(ships + [s]) == Bows(ships) + [s.bow]
    ensures Specs(ships + [s]) == Specs(ships) + [(s.bow, s.length, s.parts)]
  {
  }

  /** No shape with foreign neighbours among the answers for cells `from` to `to`. */
  predicate Clean(a: seq<Shape>, from: int, to: int)
    requires 0 <= from <= to <= |a|
  {
    forall j :: from <= j < to ==> !a[j].Touching?
  }

  /** Cells `from` to `to` and the next one are clean exactly when the first ones are and the
      next one is. */
  lemma CleanExtend(a: seq<Shape>, from: int, to: int)
    requires 0 <= from <= to < |a|
    ensures Clean(a, from, to + 1) <==> Clean(a, from, to) && !a[to].Touching?
  {
  }

  /** Two adjacent ranges of cells are clean exactly when their union is. */
  lemma CleanJoin(a: seq<Shape>, from: int, mid: int, to: int)
    requires 0 <= from <= mid <= to <= |a|
    ensures Clean(a, from, to) <==> Clean(a, from, mid) && Clean(a, mid, to)
  {
  }

  /** The ships `_add_ships` appends have new bows, distinct from each other, and are
      described as the roster needs, with parts that are ship parts of `g`. */
  lemma {:induction false} AddedFacts(g: Grid, k: int, bows: seq<Point>)
    requires IsGrid(g) && WellFormed(Answers(g)) && 0 <= k <= 100
    ensures var added := Added(Answers(g), k, bows);
      && SpecsOk(added)
      && (forall i :: 0 <= i < |added| ==> added[i].0 !in bows)
      && OnShips(g, added)
    decreases 100 - k
  {
    if k < 100 {
      var a := Answers(g);
      AddedStep(a, k, bows);
      if a[k].Ship? && MinPoint(a[k].members) !in bows {
        var bow := MinPoint(a[k].members);
        AnswerShip(g, k);
        AddedFacts(g, k + 1, bows + [bow]);
        AddedCons(g, (bow, a[k].size, a[k].members), Added(a, k + 1, bows + [bow]), bows);
      } else {
        AddedFacts(g, k + 1, bows);
      }
    } else {
      assert Added(Answers(g), k, bows) == [];
    }
  }

  /** Every part of the described ships is a ship part of `g`. */
  predicate OnShips(g: Grid, specs: seq<(Point, int, seq<Point>)>)
    requires IsGrid(g)
  {
    forall i, q :: 0 <= i < |specs| && q in specs[i].2 ==> InBoard(q) && g[Row(q)][Col(q)] == ShipMark
  }

  /** A ship with a new bow, in front of ships whose bows are newer still. */
  lemma AddedCons(g: Grid, e: (Point, int, seq<Point>), rest: seq<(Point, int, seq<Point>)>, bows: seq<Point>)
    requires IsGrid(g)
    requires e.0 !in bows && 1 <= e.1 == |e.2| && forall q :: q in e.2 ==> InBoard(q) && g[Row(q)][Col(q)] == ShipMark
    requires SpecsOk(rest) && forall i :: 0 <= i < |rest| ==> rest[i].0 !in bows + [e.0]
    requires OnShips(g, rest)
    ensures var added := [e] + rest;
      && SpecsOk(added)
      && (forall i :: 0 <= i < |added| ==> added[i].0 !in bows)
      && OnShips(g, added)
  {
    var added := [e] + rest;
    forall i | 0 <= i < |added|
      ensures added[i].0 !in bows && (i > 0 ==> added[i].0 != e.0)
    {
      if i > 0 {
        assert added[i] == rest[i - 1];
        assert rest[i - 1].0 !in bows + [e.0];
      }
    }
    forall i, q | 0 <= i < |added| && q in added[i].2
      ensures g[Row(q)][Col(q)] == ShipMark
    {
      if i > 0 {
        assert added[i] == rest[i - 1];
      }
    }
  }

  /** Appending the ship for cell `k`, whose bow is new, moves the scan on by one cell. */
  lemma AppendStep(ships: seq<Ship>, s: Ship, a: seq<Shape>, k: int)
    requires WellFormed(a) && 0 <= k < 100 && a[k].Ship?
    requires s.bow == MinPoint(a[k].members) && s.bow !in Bows(ships)
    requires s.length == a[k].size && s.parts == a[k].members
    ensures Specs(ships + [s]) + Added(a, k + 1, Bows(ships + [s])) == Specs(ships) + Added(a, k, Bows(ships))
  {
    AppendShip(ships, s);
    AddedStep(a, k, Bows(ships));
    var e := (s.bow, s.length, s.parts);
    assert Added(a, k, Bows(ships)) == [e] + Added(a, k + 1, Bows(ships) + [s.bow]);
    assert Specs(ships) + [e] + Added(a, k + 1, Bows(ships) + [s.bow]) ==
      Specs(ships) + ([e] + Added(a, k + 1, Bows(ships) + [s.bow]));
  }

  /** The ships `_add_ships` appends to a roster in shape leave it in shape, and their parts
      are ship parts of `g`. */
  lemma AddedRoster(g: Grid, before: seq<Ship>, after: seq<Ship>)
    requires IsGrid(g) && WellFormed(Answers(g))
    requires Specs(after) == Specs(before) + Added(Answers(g), 0, Bows(before))
    ensures RosterOk(before) ==> RosterOk(after)
    ensures Placed(after, |before|, g)
  {
    var added := Added(Answers(g), 0, Bows(before));
    AddedFacts(g, 0, Bows(before));
    JoinedRoster(before, after, added);
    SpecsPlaced(g, before, after, added);
  }

  /** Ships with new bows, described as the roster needs, keep a roster in shape. */
  lemma JoinedRoster(before: seq<Ship>, after: seq<Ship>, added: seq<(Point, int, seq<Point>)>)
    requires Specs(after) == Specs(before) + added && SpecsOk(added)
    requires forall i :: 0 <= i < |added| ==> added[i].0 !in Bows(before)
    ensures RosterOk(before) ==> RosterOk(after)
  {
    SpecsJoin(Specs(before), Bows(before), added);
    RosterSpecs(before);
    RosterSpecs(after);
  }

  /** Ships described by entries whose parts are ship parts of `g` are placed on `g`. */
  lemma SpecsPlaced(g: Grid, before: seq<Ship>, after: seq<Ship>, added: seq<(Point, int, seq<Point>)>)
    requires IsGrid(g) && Specs(after) == Specs(before) + added && SpecsOk(added)
    requires OnShips(g, added)
    ensures Placed(after, |before|, g)
  {
    forall j, q | |before| <= j < |after| && q in after[j].parts
      ensures InBoard(q) && g[Row(q)][Col(q)] == ShipMark
    {
      assert Specs(after)[j] == added[j - |before|];
    }
  }

  /** A roster extended by ships with new bows stays in shape. */
  lemma SpecsJoin(s1: seq<(Point, int, seq<Point>)>, bows: seq<Point>, s2: seq<(Point, int, seq<Point>)>)
    requires |bows| == |s1| && forall k :: 0 <= k < |s1| ==> bows[k] == s1[k].0
    requires SpecsOk(s2) && forall i :: 0 <= i < |s2| ==> s2[i].0 !in bows
    ensures SpecsOk(s1) ==> SpecsOk(s1 + s2)
  {
    if SpecsOk(s1) {
      var s := s1 + s2;
      forall i, j | 0 <= i < j < |s|
        ensures s[i].0 != s[j].0
      {
        if i < |s1| && j >= |s1| {
          assert bows[i] == s1[i].0;
          assert s2[j - |s1|].0 !in bows;
        }
      }
    }
  }

  /** Every part of the ships from index `from` on is a ship part of `g`. */
  predicate Placed(ships: seq<Ship>, from: int, g: Grid)
    requires IsGrid(g)
  {
    forall j, q :: 0 <= from <= j < |ships| && q in ships[j].parts ==> InBoard(q) && g[Row(q)][Col(q)] == ShipMark
  }

  /** A freshly generated field: ship parts and empty cells only. */
  predicate Plain(g: Grid)
    requires IsGrid(g)
  {
    forall r, c :: 0 <= r < 10 && 0 <= c < 10 ==> g[r][c] == ShipMark || g[r][c] == EmptyMark
  }

  /** What `_add_ships` reads from the answer for the cell in `row`, `column`: no ship exactly
      off a ship part, and otherwise a shape whose members are ship parts on the board. */
  lemma ShipCell(g: Grid, row: int, column: int)
    requires IsGrid(g) && 0 <= row < 10 && 0 <= column < 10
    ensures var s := Answers(g)[10 * row + column];
      && (s.NoShip? <==> g[row][column] != ShipMark)
      && (s.Ship? ==>
            && 1 <= |s.members| && s.size == |s.members|
            && forall q :: q in s.members ==> InBoard(q) && g[Row(q)][Col(q)] == ShipMark)
  {
    AnswerAtCell(g, row, column);
    if Answers(g)[10 * row + column].Ship? {
      AcceptedShipIsolated(g, Change(column, row));
    }
  }

  /** A ship among the answers has at least one part, its size is its part count, and its
      parts are ship parts of `g`. */
  lemma AnswerShip(g: Grid, k: int)
    requires IsGrid(g) && 0 <= k < 100 && Answers(g)[k].Ship?
    ensures var s := Answers(g)[k];
      && 1 <= |s.members| && s.size == |s.members|
      && forall q :: q in s.members ==> InBoard(q) && g[Row(q)][Col(q)] == ShipMark
  {
    var row, column := k / 10, k % 10;
    assert 10 * row + column == k;
    ShipCell(g, row, column);
  }

  /** One cell of the scan of `_add_ships`, by the shape of its answer. */
  lemma AddedStep(a: seq<Shape>, k: int, bows: seq<Point>)
    requires WellFormed(a) && 0 <= k < 100
    ensures !a[k].Ship? ==> Added(a, k, bows) == Added(a, k + 1, bows)
    ensures a[k].Ship? && MinPoint(a[k].members) in bows ==> Added(a, k, bows) == Added(a, k + 1, bows)
    ensures a[k].Ship? && MinPoint(a[k].members) !in bows ==>
      Added(a, k, bows) == [(MinPoint(a[k].members), a[k].size, a[k].members)] +
        Added(a, k + 1, bows + [MinPoint(a[k].members)])
  {
  }

  /** The roster so far, followed by the ships the scan still appends from cell `k` on,
      is `total`. */
  predicate Scanned(ships: seq<Ship>, a: seq<Shape>, k: int, total: seq<(Point, int, seq<Point>)>)
    requires WellFormed(a) && 0 <= k <= 100
  {
    Specs(ships) + Added(a, k, Bows(ships)) == total
  }

  /** Once the scan has passed the last cell, the roster is the whole of `total`. */
  lemma ScannedAll(ships: seq<Ship>, a: seq<Shape>, total: seq<(Point, int, seq<Point>)>)
    requires WellFormed(a) && Scanned(ships, a, 100, total)
    ensures Specs(ships) == total
  {
    assert Added(a, 100, Bows(ships)) == [];
    assert Specs(ships) + [] == Specs(ships);
  }

  /** The game field with its roster of ships. */
  class Field {
    var ships: seq<Ship>
    var field: Grid

    /** The roster's ship objects. */
    ghost function Roster(): set<Ship>
      reads this
    {
      set s | s in ships
    }

    predicate Valid()
      reads this
    {
      IsGrid(field) && RosterOk(ships)
    }

    /** Every ship part on the field has an owner on the roster. */
    predicate Covered()
      reads this
      requires IsGrid(field)
    {
      CoveredBy(field, ships)
    }

    /** A field with no ships, before `correct_ships` fills it. */
    constructor Empty()
      ensures ships == [] && field == Blank() && Valid()
    {
      ships := [];
      field := Blank();
    }

    /** `field_with_ships`. */
    method FieldWithShips() returns (s: string)
      requires Valid()
      ensures s == Rendered(field)
    {
      s := FieldToStr(field);
    }

    /** `field_without_ships`: the rendering with every ship part shown as empty. */
    method FieldWithoutShips() returns (s: string)
      requires Valid()
      ensures s == Rendered(HideShips(field))
      ensures ShipMark !in s
    {
      var shown := FieldToStr(field);
      s := Replace(shown, ShipMark, EmptyMark);
      HiddenRendering(field);
    }

    /** `_find_ship_for_position`: the first ship of the roster with `position` among its
        parts, or none. */
    method FindShipForPosition(position: Point) returns (ship: Ship?)
      ensures ship == null <==> OwnerIndex(ships, position) == |ships|
      ensures ship != null ==> ship == ships[OwnerIndex(ships, position)]
    {
      for i := 0 to |ships|
        invariant forall k :: 0 <= k < i ==> position !in ships[k].parts
      {
        if position in ships[i].parts {
          OwnerFirst(ships, position, i);
          return ships[i];
        }
      }
      OwnerFirst(ships, position, |ships|);
      return null;
    }

    /** `mark_cell`: overwrite the cell the point names, with Python's negative indexing. */
    method MarkCell(point: Point, mark: char)
      requires IsGrid(field) && Indexable(point)
      modifies this`field
      ensures field == Mark(old(field), Wrap(Row(point)), Wrap(Col(point)), mark)
    {
      field := Mark(field, Wrap(Row(point)), Wrap(Col(point)), mark);
    }

    /** The miss marks `shoot_at` puts around one part of a sunk ship: each of the eight
        directions, when it stays on the board and leaves the ship. */
    method MarkAround(part: Point, parts: seq<Point>)
      requires IsGrid(field) && InBoard(part)
      modifies this`field
      ensures field == AroundState(old(field), part, parts, 8)
    {
      StatesStart(field, part, parts);
      for m := 0 to |SinkDirections|
        invariant IsGrid(field) && field == AroundState(old(field), part, parts, m)
      {
        MarkDirection(part, parts, old(field), m);
      }
    }

    /** One turn of the direction loop of `shoot_at`: the neighbour of `part` in direction `m`
        is marked a miss when it is on the field and not a part. */
    method MarkDirection(part: Point, parts: seq<Point>, ghost g: Grid, m: int)
      requires IsGrid(g) && InBoard(part) && 0 <= m < |SinkDirections|
      requires IsGrid(field) && field == AroundState(g, part, parts, m)
      modifies this`field
      ensures field == AroundState(g, part, parts, m + 1)
    {
      var x := SinkDirections[m];
      var coord := Change(Col(part) + x.0, Row(part) + x.1);
      AroundStep(g, part, parts, m);
      if 0 <= Col(coord) < 10 && 0 < coord.number <= 10 && coord !in parts {
        MarkCell(coord, MissMark);
      }
    }

    /** What `shoot_at` does to the field when a ship sinks: each part in turn is marked sunk,
        then the cells around it are marked as misses. */
    method SinkShip(parts: seq<Point>)
      requires IsGrid(field) && forall q :: q in parts ==> InBoard(q)
      modifies this`field
      ensures field == Sunk(old(field), parts)
    {
      StatesStart(field, Point('A', 1), parts);
      for n := 0 to |parts|
        invariant IsGrid(field) && field == SinkState(old(field), parts, n)
      {
        var part := parts[n];
        SinkStep(old(field), parts, n);
        MarkCell(part, SunkMark);
        MarkAround(part, parts);
      }
    }

    /** The end of a shot that destroys `ship`, the roster's `i`th: the field shows it sunk,
        it leaves the roster and the player has one ship fewer. */
    method Destroy(ship: Ship, ghost i: int, player: Player)
      requires IsGrid(field) && RosterOk(ships)
      requires 0 <= i < |ships| && ship == ships[i]
      modifies this, player
      ensures field == Sunk(old(field), ship.parts)
      ensures ships == old(ships[..i] + ships[i + 1..])
      ensures player.ships == old(player.ships) - 1
      ensures RosterOk(ships) && (old(CoveredBy(field, ships)) ==> CoveredBy(field, ships))
    {
      CoveredSunk(field, ships, i);
      SinkShip(ship.parts);
      RemoveFirstAt(ships, i);
      ships := RemoveFirst(ships, ship);
      player.ships := player.ships - 1;
    }

    /** `shoot_at`. A shot on a ship part marks it hit, records the hit on the first ship of the
        roster owning the point and returns true; when that hit destroys the ship, its parts
        are marked sunk, the cells around them misses, the ship leaves the roster and the
        player has one ship fewer. Any other shot marks a miss and records nothing. Every ship
        part on the field keeps an owner on the roster. */
    method ShootAt(point: Point, player: Player) returns (shooting: bool)
      requires Valid() && InBoard(point)
      requires field[Row(point)][Col(point)] == ShipMark ==> OwnerIndex(ships, point) < |ships|
      modifies this, Roster(), player
      ensures Valid() && (old(Covered()) ==> Covered())
      ensures shooting <==> old(field[Row(point)][Col(point)]) == ShipMark
      ensures !shooting ==>
        && field == Mark(old(field), Row(point), Col(point), MissMark)
        && ships == old(ships) && player.ships == old(player.ships)
        && forall s :: s in old(ships) ==> s.hit == old(s.hit)
      ensures shooting ==>
        var i := OwnerIndex(old(ships), point);
        && i < |old(ships)|
        && var ship := old(ships)[i];
        && ship.hit == old(ship.hit) + [point]
        && (forall s :: s in old(ships) && s != ship ==> s.hit == old(s.hit))
        && if |old(ship.hit)| + 1 == ship.length then
             && field == Sunk(Mark(old(field), Row(point), Col(point), HitMark), ship.parts)
             && ships == old(ships[..i] + ships[i + 1..])
             && player.ships == old(player.ships) - 1
           else
             && field == Mark(old(field), Row(point), Col(point), HitMark)
             && ships == old(ships) && player.ships == old(player.ships)
    {
      ChangeBack(point);
      ghost var g0, s0 := field, ships;
      if field[Row(point)][Col(point)] == ShipMark {
        var ship := FindShipForPosition(point);
        ghost var i := OwnerIndex(ships, point);
        if ship == null {
          assert false;
        }
        assert ship == s0[i];
        MarkCell(point, HitMark);
        CoveredMark(g0, s0, Row(point), Col(point), HitMark);
        ghost var g1 := field;
        var parts := ship.ShootAt(point);
        assert field == g1 && ships == s0;
        if parts.Some? {
          Destroy(ship, i, player);
        }
        return true;
      } else {
        MarkCell(point, MissMark);
        CoveredMark(g0, s0, Row(point), Col(point), MissMark);
        return false;
      }
    }

    /** The body of the scan of `_add_ships` for the cell in `row`, `column`: on a ship part,
        ask `ship_size` for its shape, fail with the TypeError when the shape has foreign
        neighbours, and otherwise append a new ship unless one with the same bow is on the
        roster already. */
    method AddCell(g: Grid, row: int, column: int, ghost a: seq<Shape>, ghost total: seq<(Point, int, seq<Point>)>)
      returns (typeError: bool)
      requires IsGrid(g) && a == Answers(g) && WellFormed(a) && 0 <= row < 10 && 0 <= column < 10
      requires Scanned(ships, a, 10 * row + column, total)
      modifies this`ships
      ensures typeError <==> a[10 * row + column].Touching?
      ensures !typeError ==> Scanned(ships, a, 10 * row + column + 1, total)
    {
      ghost var k := 10 * row + column;
      ShipCell(g, row, column);
      typeError := false;
      if g[row][column] == ShipMark {
        var ship := ShipAt(g, row, column);
        if ship.Touching? {
          return true;
        }
        AddShape(ship, a, k, total);
      } else {
        AddedStep(a, k, Bows(ships));
      }
    }

    /** A ship found by `ship_size` at cell `k` of the scan joins the roster unless a ship
        with the same bow is there already. */
    method AddShape(ship: Shape, ghost a: seq<Shape>, ghost k: int, ghost total: seq<(Point, int, seq<Point>)>)
      requires WellFormed(a) && 0 <= k < 100 && ship == a[k] && ship.Ship?
      requires Scanned(ships, a, k, total)
      modifies this`ships
      ensures Scanned(ships, a, k + 1, total)
    {
      var bow := MinPoint(ship.members);
      var found := FindShip(bow);
      if !found {
        var s := new Ship(bow, ship.size, ship.members);
        AppendStep(ships, s, a, k);
        ships := ships + [s];
      } else {
        AddedStep(a, k, Bows(ships));
      }
    }

    /** The inner loop of `_add_ships`, over the cells of row `row`. */
    method AddRow(g: Grid, row: int, ghost a: seq<Shape>, ghost total: seq<(Point, int, seq<Point>)>)
      returns (typeError: bool)
      requires IsGrid(g) && a == Answers(g) && WellFormed(a) && 0 <= row < 10
      requires Scanned(ships, a, 10 * row, total)
      modifies this`ships
      ensures typeError <==> !Clean(a, 10 * row, 10 * row + 10)
      ensures !typeError ==> Scanned(ships, a, 10 * row + 10, total)
    {
      for column := 0 to 10
        invariant Clean(a, 10 * row, 10 * row + column)
        invariant Scanned(ships, a, 10 * row + column, total)
      {
        typeError := AddCell(g, row, column, a, total);
        CleanExtend(a, 10 * row, 10 * row + column);
        if typeError {
          return true;
        }
      }
      typeError := false;
    }

    /** `_add_ships`: scan the cells of `g` in row-major order and append a ship for every
        shape whose bow is new, keeping the roster in shape; it fails with the TypeError
        exactly when some ship part has a shape with foreign neighbours. */
    method AddShips(g: Grid) returns (typeError: bool)
      requires IsGrid(g)
      modifies this`ships
      ensures typeError <==> !Untouched(g)
      ensures WellFormed(Answers(g))
      ensures !typeError ==> Specs(ships) == Specs(old(ships)) + Added(Answers(g), 0, Bows(old(ships)))
      ensures !typeError && RosterOk(old(ships)) ==> RosterOk(ships)
      ensures !typeError ==> Placed(ships, |old(ships)|, g)
    {
      ghost var a := Answers(g);
      ghost var before := ships;
      AnswersWellFormed(g);
      typeError := AddRows(g, a);
      if !typeError {
        AddedRoster(g, before, ships);
      }
    }

    /** The row-by-row scan of `_add_ships`: it stops at the first shape with foreign
        neighbours, and otherwise appends the ships it finds to the roster. */
    method AddRows(g: Grid, ghost a: seq<Shape>) returns (typeError: bool)
      requires IsGrid(g) && a == Answers(g) && WellFormed(a)
      modifies this`ships
      ensures typeError <==> !Clean(a, 0, 100)
      ensures !typeError ==> Specs(ships) == old(Specs(ships)) + Added(a, 0, old(Bows(ships)))
    {
      ghost var total := Specs(ships) + Added(a, 0, Bows(ships));
      for row := 0 to 10
        invariant Clean(a, 0, 10 * row)
        invariant Scanned(ships, a, 10 * row, total)
      {
        typeError := AddRow(g, row, a, total);
        CleanJoin(a, 0, 10 * row, 10 * row + 10);
        if typeError {
          return true;
        }
      }
      typeError := false;
      ScannedAll(ships, a, total);
    }

    /** `correct_ships`: generate fields until `_add_ships` finds ten ships on one, and return
        that field; the roster is the one `_add_ships` built on it. Draws come from `rng`
        from index `start` on. */
    method CorrectShips(rng: seq<nat>, start: nat) returns (outcome: Outcome, g: Grid, pos: nat)
      requires start <= |rng|
      modifies this`ships
      ensures IsGrid(g) && start <= pos <= |rng|
      ensures outcome != Exhausted ==> pos > start && FleetValid(g) && Stars(g) == 20
      ensures outcome == TypeError ==> !Untouched(g)
      ensures outcome == Built ==>
        && Untouched(g) && |ships| == 10 && RosterOk(ships) && Placed(ships, 0, g) && Plain(g)
        && WellFormed(Answers(g)) && Specs(ships) == Added(Answers(g), 0, [])
    {
      var done;
      done, g, pos := GenerateField(rng, start);
      if !done {
        return Exhausted, g, pos;
      }
      var typeError := AddShips(g);
      if typeError {
        return TypeError, g, pos;
      }
      while true
        invariant IsGrid(g) && start < pos <= |rng|
        invariant FleetValid(g) && Stars(g) == 20 && Plain(g)
        decreases |rng| - pos
      {
        typeError := Rebuild(g);
        if typeError {
          return TypeError, g, pos;
        }
        if |ships| == 10 {
          return Built, g, pos;
        }
        done, g, pos := GenerateField(rng, pos);
        if !done {
          return Exhausted, g, pos;
        }
      }
    }

    /** One pass of the retry loop of `correct_ships`: empty the roster and run `_add_ships`
        on `g` again. */
    method Rebuild(g: Grid) returns (typeError: bool)
      requires IsGrid(g)
      modifies this`ships
      ensures typeError <==> !Untouched(g)
      ensures WellFormed(Answers(g))
      ensures !typeError ==>
        && RosterOk(ships) && Placed(ships, 0, g) && Specs(ships) == Added(Answers(g), 0, [])
    {
      ships := [];
      typeError := AddShips(g);
      assert Bows([]) == [] && Specs([]) == [];
    }

    /** `_find_ship`: whether a ship of the roster has bow `bow`. */
    method FindShip(bow: Point) returns (found: bool)
      ensures found <==> bow in Bows(ships)
    {
      for i := 0 to |ships|
        invariant bow !in Bows(ships[..i])
      {
        if ships[i].bow == bow {
          assert Bows(ships)[i] == bow;
          return true;
        }
        assert Bows(ships[..i + 1]) == Bows(ships[..i]) + [ships[i].bow];
      }
      assert ships[..|ships|] == ships;
      return false;
    }
  }

  /** The first owner is the first index whose parts hold the point. */
  lemma OwnerFirst(ships: seq<Ship>, p: Point, i: int)
    requires 0 <= i <= |ships| && forall k :: 0 <= k < i ==> p !in ships[k].parts
    requires i < |ships| ==> p in ships[i].parts
    ensures OwnerIndex(ships, p) == i
  {
  }

  /** `Field()`: an empty roster, then the field and roster `correct_ships` builds. */
  method NewField(rng: seq<nat>) returns (outcome: Outcome, f: Field)
    ensures fresh(f)
    ensures outcome == Built ==>
      && f.Valid() && |f.ships| == 10 && FleetValid(f.field) && Stars(f.field) == 20
      && Placed(f.ships, 0, f.field) && Plain(f.field)
      && WellFormed(Answers(f.field)) && Specs(f.ships) == Added(Answers(f.field), 0, [])
  {
    f := new Field.Empty();
    var g, pos;
    outcome, g, pos := f.CorrectShips(rng, 0);
    f.field := g;
  }
}
