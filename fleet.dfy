/** The fleet validator `is_valid` (battle_functions.py:130-155): a row-major scan that asks
    `ship_size` about every ship part, counts each ship once and compares the size histogram
    with the required fleet. */
module Fleet {
  import opened Wrappers
  import opened Board
  import opened Shapes

  /** The fleet every field must hold: size -> number of ships. */
  const Requirement: map<int, int> := map[4 := 1, 3 := 2, 2 := 3, 1 := 4]

  /** The counts the scan starts from. */
  const NoShips: map<int, int> := map[4 := 0, 3 := 0, 2 := 0, 1 := 0]

  /** The cell with row-major index `k`. */
  function CellAt(k: int): (p: Point)
    requires 0 <= k < 100
    ensures InBoard(p) && Row(p) == k / 10 && Col(p) == k % 10
  {
    Change(k % 10, k / 10)
  }

  /** What `ship_size` answers for each of the 100 cells, in row-major order. */
  function Answers(g: Grid): (a: seq<Shape>)
    requires IsGrid(g)
    ensures |a| == 100
  {
    seq(100, k requires 0 <= k < 100 => ShipShape(g, CellAt(k)))
  }

  /** Answers as `ship_size` gives them: a ship always has a member. */
  predicate WellFormed(a: seq<Shape>)
  {
    |a| == 100 &&
    forall k :: 0 <= k < 100 && a[k].Ship? ==> |a[k].members| > 0 && a[k].size == |a[k].members|
  }

  lemma AnswersWellFormed(g: Grid)
    requires IsGrid(g)
    ensures WellFormed(Answers(g))
  {
    forall k | 0 <= k < 100 && Answers(g)[k].Ship?
      ensures |Answers(g)[k].members| > 0 && Answers(g)[k].size == |Answers(g)[k].members|
    {
      assert Answers(g)[k] == ShipShape(g, CellAt(k));
      ShipShapeCases(g, CellAt(k));
    }
  }

  /** The scan of `is_valid` from cell `k` on over the answers `a`, given the counts so far
      and the members already used. A ship is counted when its first member is not used yet;
      None stands for the KeyError raised when a counted ship's size is not a key of the counts. */
  function Census(a: seq<Shape>, k: int, counts: map<int, int>, used: seq<Point>): Option<map<int, int>>
    requires WellFormed(a) && 0 <= k <= 100
    decreases 100 - k
  {
    if k == 100 then Some(counts)
    else
      match a[k]
      case Ship(n, members) =>
        if members[0] in used then Census(a, k + 1, counts, used)
        else if n in counts then Census(a, k + 1, counts[n := counts[n] + 1], used + members)
        else None
      case _ => Census(a, k + 1, counts, used)
  }

  /** What `is_valid` returns. */
  predicate FleetValid(g: Grid)
    requires IsGrid(g)
  {
    AnswersWellFormed(g);
    Census(Answers(g), 0, NoShips, []) == Some(Requirement)
  }

  /** `is_valid`. */
  method IsValid(g: Grid) returns (ok: bool)
    requires IsGrid(g)
    ensures ok == FleetValid(g)
  {
    AnswersWellFormed(g);
    var requirement := Requirement;
    var keyError, ships := ScanAll(g, Answers(g));
    ok := !keyError && requirement == ships;
  }

  /** The scan of `is_valid` over all cells: the counts it gathers, or the KeyError. */
  method ScanAll(g: Grid, ghost a: seq<Shape>) returns (keyError: bool, ships: map<int, int>)
    requires IsGrid(g) && a == Answers(g) && WellFormed(a)
    ensures keyError <==> Census(a, 0, NoShips, []) == None
    ensures !keyError ==> Census(a, 0, NoShips, []) == Some(ships)
  {
    ghost var verdict := Census(a, 0, NoShips, []);
    ships, keyError := NoShips, false;
    var used: seq<Point> := [];
    var row := 0;
    while row < 10 && !keyError
      invariant 0 <= row <= 10
      invariant keyError ==> verdict == None
      invariant !keyError ==> Census(a, 10 * row, ships, used) == verdict
    {
      keyError, ships, used := VisitRow(g, row, a, ships, used);
      row := row + 1;
      assert 10 * row == 10 * (row - 1) + 10;
    }
    if !keyError {
      CensusEnd(a, ships, used);
    }
  }

  /** Past the last cell, the census is the counts gathered so far. */
  lemma CensusEnd(a: seq<Shape>, counts: map<int, int>, used: seq<Point>)
    requires WellFormed(a)
    ensures Census(a, 100, counts, used) == Some(counts)
  {
  }

  /** The inner loop of `is_valid`, over the cells of row `row`. */
  method VisitRow(g: Grid, row: int, ghost a: seq<Shape>, ships: map<int, int>, used: seq<Point>)
    returns (keyError: bool, ships': map<int, int>, used': seq<Point>)
    requires IsGrid(g) && a == Answers(g) && WellFormed(a) && 0 <= row < 10
    ensures keyError ==> Census(a, 10 * row, ships, used) == None
    ensures !keyError ==> Census(a, 10 * row, ships, used) == Census(a, 10 * row + 10, ships', used')
  {
    ships', used' := ships, used;
    for column := 0 to 10
      invariant Census(a, 10 * row + column, ships', used') == Census(a, 10 * row, ships, used)
    {
      keyError, ships', used' := VisitCell(g, row, column, a, ships', used');
      if keyError {
        return;
      }
    }
    keyError := false;
  }

  /** The body of the scan of `is_valid` for the cell in `row`, `column`: it either raises the
      KeyError the whole scan ends with, or moves the scan on to the next cell. */
  method VisitCell(g: Grid, row: int, column: int, ghost a: seq<Shape>, ships: map<int, int>, used: seq<Point>)
    returns (keyError: bool, ships': map<int, int>, used': seq<Point>)
    requires IsGrid(g) && a == Answers(g) && WellFormed(a)
    requires 0 <= row < 10 && 0 <= column < 10
    ensures keyError ==> Census(a, 10 * row + column, ships, used) == None
    ensures !keyError ==>
      Census(a, 10 * row + column, ships, used) == Census(a, 10 * row + column + 1, ships', used')
  {
    var coord := Change(column, row);
    var hasShip := HasShip(coord, g);
    if hasShip {
      var ship := ShipAt(g, row, column);
      keyError, ships', used' := CountShape(ship, a, 10 * row + column, ships, used);
    } else {
      keyError, ships', used' := false, ships, used;
      NoShipAtCell(g, row, column);
      CensusStep(a, 10 * row + column, ships, used);
    }
  }

  /** What the scan does with the answer `ship` for cell `k`: count it when it is a ship whose
      first member is not used yet, raising the KeyError when its size is not a key. */
  method CountShape(ship: Shape, ghost a: seq<Shape>, ghost k: int, ships: map<int, int>, used: seq<Point>)
    returns (keyError: bool, ships': map<int, int>, used': seq<Point>)
    requires WellFormed(a) && 0 <= k < 100 && ship == a[k]
    ensures keyError ==> Census(a, k, ships, used) == None
    ensures !keyError ==> Census(a, k, ships, used) == Census(a, k + 1, ships', used')
  {
    keyError, ships', used' := false, ships, used;
    CensusStep(a, k, ships, used);
    if ship.Ship? && ship.size > 0 && ship.members[0] !in used {
      if ship.size in ships {
        ships' := ships[ship.size := ships[ship.size] + 1];
        used' := used + ship.members;
      } else {
        keyError := true;
      }
    }
  }

  /** `ship_size` of the cell in `row`, `column`, as the answer the scan reads. */
  method ShipAt(g: Grid, row: int, column: int) returns (ship: Shape)
    requires IsGrid(g) && 0 <= row < 10 && 0 <= column < 10
    ensures ship == Answers(g)[10 * row + column]
  {
    ship := ShipSize(Change(column, row), g);
    AnswerAtCell(g, row, column);
  }

  /** A cell without a ship part has no ship as its answer. */
  lemma NoShipAtCell(g: Grid, row: int, column: int)
    requires IsGrid(g) && 0 <= row < 10 && 0 <= column < 10
    requires !HasShip(Change(column, row), g)
    ensures Answers(g)[10 * row + column] == NoShip
  {
    AnswerAtCell(g, row, column);
  }

  /** One step of the scan, by the shape of the answer for cell `k`. */
  lemma CensusStep(a: seq<Shape>, k: int, counts: map<int, int>, used: seq<Point>)
    requires WellFormed(a) && 0 <= k < 100
    ensures !a[k].Ship? ==> Census(a, k, counts, used) == Census(a, k + 1, counts, used)
    ensures a[k].Ship? && a[k].members[0] in used ==> Census(a, k, counts, used) == Census(a, k + 1, counts, used)
    ensures a[k].Ship? && a[k].members[0] !in used && a[k].size !in counts ==> Census(a, k, counts, used) == None
    ensures a[k].Ship? && a[k].members[0] !in used && a[k].size in counts ==>
      Census(a, k, counts, used) == Census(a, k + 1, counts[a[k].size := counts[a[k].size] + 1], used + a[k].members)
  {
  }

  /** The answer for the cell in `row`, `column` is what `ship_size` says about it. */
  lemma AnswerAtCell(g: Grid, row: int, column: int)
    requires IsGrid(g) && 0 <= row < 10 && 0 <= column < 10
    ensures Answers(g)[10 * row + column] == ShipShape(g, Change(column, row))
  {
    var k := 10 * row + column;
    assert k / 10 == row && k % 10 == column;
    assert Answers(g)[k] == ShipShape(g, CellAt(k));
  }

  /** The member lists of the ships `is_valid` counts from cell `k` on, in scan order. */
  function Counted(a: seq<Shape>, k: int, used: seq<Point>): (ships: seq<seq<Point>>)
    requires WellFormed(a) && 0 <= k <= 100
    ensures forall i :: 0 <= i < |ships| ==> |ships[i]| > 0
    decreases 100 - k
  {
    if k == 100 then []
    else
      match a[k]
      case Ship(n, members) =>
        if members[0] in used then Counted(a, k + 1, used)
        else [members] + Counted(a, k + 1, used + members)
      case _ => Counted(a, k + 1, used)
  }

  /** Number of ships of size `n`. */
  function Tally(ships: seq<seq<Point>>, n: int): nat
  {
    if ships == [] then 0 else (if |ships[0]| == n then 1 else 0) + Tally(ships[1..], n)
  }

  /** Every ship has a size the counts have a key for. */
  predicate AllSized(ships: seq<seq<Point>>)
  {
    forall i :: 0 <= i < |ships| ==> 1 <= |ships[i]| <= 4
  }

  /** The counts with the histogram of `ships` added. */
  function AddTally(counts: map<int, int>, ships: seq<seq<Point>>): map<int, int>
  {
    map n | n in counts :: counts[n] + Tally(ships, n)
  }

  /** Counting one more ship before the rest adds one to its size's count. */
  lemma AddTallyCons(counts: map<int, int>, m: seq<Point>, rest: seq<seq<Point>>)
    requires |m| in counts
    ensures AddTally(counts[|m| := counts[|m|] + 1], rest) == AddTally(counts, [m] + rest)
  {
    assert ([m] + rest)[1..] == rest;
  }

  lemma AllSizedCons(m: seq<Point>, rest: seq<seq<Point>>)
    ensures AllSized([m] + rest) <==> 1 <= |m| <= 4 && AllSized(rest)
  {
    var all := [m] + rest;
    if AllSized(all) {
      assert all[0] == m;
      forall i | 0 <= i < |rest|
        ensures 1 <= |rest[i]| <= 4
      {
        assert all[i + 1] == rest[i];
      }
    }
    if 1 <= |m| <= 4 && AllSized(rest) {
      forall i | 0 <= i < |all|
        ensures 1 <= |all[i]| <= 4
      {
        if i > 0 {
          assert all[i] == rest[i - 1];
        }
      }
    }
  }

  /** The scan's result is the starting counts plus the histogram of the ships it counts, or
      the KeyError exactly when one of them has a size outside 1..4. */
  lemma {:induction false} CensusTally(a: seq<Shape>, k: int, counts: map<int, int>, used: seq<Point>)
    requires WellFormed(a) && 0 <= k <= 100
    requires counts.Keys == {1, 2, 3, 4}
    ensures Census(a, k, counts, used) ==
      if AllSized(Counted(a, k, used)) then Some(AddTally(counts, Counted(a, k, used))) else None
    decreases 100 - k
  {
    if k == 100 {
      assert AddTally(counts, []) == counts;
    } else if a[k].Ship? {
      var members := a[k].members;
      if members[0] in used {
        CensusTally(a, k + 1, counts, used);
      } else {
        var rest := Counted(a, k + 1, used + members);
        assert Counted(a, k, used) == [members] + rest;
        AllSizedCons(members, rest);
        if |members| in counts {
          CensusTally(a, k + 1, counts[|members| := counts[|members|] + 1], used + members);
          AddTallyCons(counts, members, rest);
        }
      }
    } else {
      CensusTally(a, k + 1, counts, used);
    }
  }

  /** Total number of cells of a list of ships. */
  function TotalSize(ships: seq<seq<Point>>): nat
  {
    if ships == [] then 0 else |ships[0]| + TotalSize(ships[1..])
  }

  /** For ships of sizes 1..4, the histogram determines how many there are and how many
      cells they cover. */
  lemma {:induction false} TallySums(ships: seq<seq<Point>>)
    requires AllSized(ships)
    ensures |ships| == Tally(ships, 1) + Tally(ships, 2) + Tally(ships, 3) + Tally(ships, 4)
    ensures TotalSize(ships) == Tally(ships, 1) + 2 * Tally(ships, 2) + 3 * Tally(ships, 3) + 4 * Tally(ships, 4)
  {
    if ships != [] {
      TallySums(ships[1..]);
    }
  }

  /** The member lists of the ships `is_valid` counts on the field, in scan order. */
  function FleetOf(g: Grid): seq<seq<Point>>
    requires IsGrid(g)
  {
    AnswersWellFormed(g);
    Counted(Answers(g), 0, [])
  }

  /** The histogram of `ships` is the required fleet: one of size 4, two of 3, three of 2, four of 1. */
  predicate RequiredFleet(ships: seq<seq<Point>>)
  {
    forall n :: 1 <= n <= 4 ==> Tally(ships, n) == Requirement[n]
  }

  /** The counts the scan ends with equal the required ones exactly when the histogram does. */
  lemma TallyIsRequirement(ships: seq<seq<Point>>)
    ensures AddTally(NoShips, ships) == Requirement <==> RequiredFleet(ships)
  {
    var final := AddTally(NoShips, ships);
    assert final.Keys == Requirement.Keys;
    assert forall n :: n in final ==> final[n] == Tally(ships, n);
    if forall n :: 1 <= n <= 4 ==> Tally(ships, n) == Requirement[n] {
      assert forall n :: n in final ==> final[n] == Requirement[n];
    }
  }

  /** The scan over answers `a` accepts exactly when the ships it counts all have sizes
      1..4 and their histogram is the required fleet. */
  lemma CensusMeaning(a: seq<Shape>)
    requires WellFormed(a)
    ensures Census(a, 0, NoShips, []) == Some(Requirement) <==>
      AllSized(Counted(a, 0, [])) && RequiredFleet(Counted(a, 0, []))
    ensures Census(a, 0, NoShips, []) == Some(Requirement) ==>
      |Counted(a, 0, [])| == 10 && TotalSize(Counted(a, 0, [])) == 20
  {
    var ships := Counted(a, 0, []);
    CensusTally(a, 0, NoShips, []);
    TallyIsRequirement(ships);
    if Census(a, 0, NoShips, []) == Some(Requirement) {
      TallySums(ships);
    }
  }

  /** `is_valid` holds exactly when the ships it counts all have sizes 1..4 and their
      histogram is the required fleet; such a fleet is ten ships covering twenty cells. */
  lemma FleetValidMeaning(g: Grid)
    requires IsGrid(g)
    ensures FleetValid(g) <==> AllSized(FleetOf(g)) && RequiredFleet(FleetOf(g))
    ensures FleetValid(g) ==> |FleetOf(g)| == 10 && TotalSize(FleetOf(g)) == 20
  {
    AnswersWellFormed(g);
    CensusMeaning(Answers(g));
  }

  /** Each counted ship is the answer for one of the scanned cells. */
  lemma {:induction false} CountedAnswers(a: seq<Shape>, k: int, used: seq<Point>)
    requires WellFormed(a) && 0 <= k <= 100
    ensures forall i :: 0 <= i < |Counted(a, k, used)| ==>
      exists j :: k <= j < 100 && a[j] == Ship(|Counted(a, k, used)[i]|, Counted(a, k, used)[i])
    decreases 100 - k
  {
    if k < 100 {
      if a[k].Ship? && a[k].members[0] !in used {
        var members := a[k].members;
        var rest := Counted(a, k + 1, used + members);
        CountedAnswers(a, k + 1, used + members);
        var ships := [members] + rest;
        assert Counted(a, k, used) == ships;
        forall i | 0 <= i < |ships|
          ensures exists j :: k <= j < 100 && a[j] == Ship(|ships[i]|, ships[i])
        {
          if i == 0 {
            assert a[k] == Ship(|ships[0]|, ships[0]);
          } else {
            assert ships[i] == rest[i - 1];
            var j :| k + 1 <= j < 100 && a[j] == Ship(|rest[i - 1]|, rest[i - 1]);
            assert a[j] == Ship(|ships[i]|, ships[i]);
          }
        }
      } else {
        CountedAnswers(a, k + 1, used);
        var ships := Counted(a, k + 1, used);
        assert Counted(a, k, used) == ships;
        forall i | 0 <= i < |ships|
          ensures exists j :: k <= j < 100 && a[j] == Ship(|ships[i]|, ships[i])
        {
          var j :| k + 1 <= j < 100 && a[j] == Ship(|ships[i]|, ships[i]);
        }
      }
    } else {
      assert Counted(a, k, used) == [];
    }
  }

  /** No counted ship starts inside a used member or inside an earlier counted ship. */
  lemma {:induction false} CountedFresh(a: seq<Shape>, k: int, used: seq<Point>)
    requires WellFormed(a) && 0 <= k <= 100
    ensures forall i :: 0 <= i < |Counted(a, k, used)| ==> Counted(a, k, used)[i][0] !in used
    ensures forall i, j :: 0 <= j < i < |Counted(a, k, used)| ==>
      Counted(a, k, used)[i][0] !in Counted(a, k, used)[j]
    decreases 100 - k
  {
    if k < 100 {
      if a[k].Ship? && a[k].members[0] !in used {
        var members := a[k].members;
        var rest := Counted(a, k + 1, used + members);
        CountedFresh(a, k + 1, used + members);
        var ships := [members] + rest;
        assert Counted(a, k, used) == ships;
        forall i | 0 < i < |ships|
          ensures ships[i] == rest[i - 1]
          ensures ships[i][0] !in members && ships[i][0] !in used
        {
          assert rest[i - 1][0] !in used + members;
        }
      } else {
        CountedFresh(a, k + 1, used);
        assert Counted(a, k, used) == Counted(a, k + 1, used);
      }
    } else {
      assert Counted(a, k, used) == [];
    }
  }

  /** On a field `is_valid` accepts, the ten counted ships are straight runs of one to four
      ship parts with no foreign ship part around them (rows and columns 1..9), each found by
      `ship_size` from one of its cells, and no ship's first member lies in an earlier ship. */
  lemma ValidFleetShips(g: Grid)
    requires IsGrid(g) && FleetValid(g)
    ensures var ships := FleetOf(g);
      && |ships| == 10
      && TotalSize(ships) == 20
      && (forall i, j :: 0 <= j < i < |ships| ==> ships[i][0] !in ships[j])
      && forall i :: 0 <= i < |ships| ==>
           && 1 <= |ships[i]| <= 4
           && Straight(ships[i])
           && (forall q :: q in ships[i] ==> InBoard(q) && g[Row(q)][Col(q)] == ShipMark)
           && forall q, c, r :: (q in ships[i] && Neighbour(q, c, r) && 0 < c < 10 && 0 < r < 10 &&
                g[r][c] == ShipMark) ==> Change(c, r) in ships[i]
  {
    var ships := FleetOf(g);
    var a := Answers(g);
    AnswersWellFormed(g);
    FleetValidMeaning(g);
    CountedAnswers(a, 0, []);
    CountedFresh(a, 0, []);
    forall i | 0 <= i < |ships|
      ensures Straight(ships[i])
      ensures forall q :: q in ships[i] ==> InBoard(q) && g[Row(q)][Col(q)] == ShipMark
      ensures forall q, c, r :: (q in ships[i] && Neighbour(q, c, r) && 0 < c < 10 && 0 < r < 10 &&
                g[r][c] == ShipMark) ==> Change(c, r) in ships[i]
    {
      var j :| 0 <= j < 100 && a[j] == Ship(|ships[i]|, ships[i]);
      assert Answers(g)[j] == ShipShape(g, CellAt(j));
      AcceptedShipIsolated(g, CellAt(j));
    }
  }
}
