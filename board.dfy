/** Coordinates and cells of the 10x10 game field (battle_functions.py:19-29, 122-127). */
module Board {

  /** Cell marks used on the field. */
  const ShipMark := '*'
  const EmptyMark := '-'
  const HitMark := '+'
  const SunkMark := 'Y'
  const MissMark := 'X'

  /** The field: ten rows of ten one-character cells. */
  type Grid = seq<seq<char>>

  predicate IsGrid(g: Grid)
  {
    |g| == 10 && forall r :: 0 <= r < |g| ==> |g[r]| == 10
  }

  /** The empty field every placement starts from. */
  function Blank(): (g: Grid)
    ensures IsGrid(g)
    ensures forall r, c :: 0 <= r < 10 && 0 <= c < 10 ==> g[r][c] == EmptyMark
  {
    seq(10, _ => seq(10, _ => EmptyMark))
  }

  /** The external coordinate: a letter 'A'.. for the column and a 1-based row number. */
  datatype Point = Point(letter: char, number: int)

  /** Zero-based column of a point, `ord(letter) - 65`. */
  function Col(p: Point): int
  {
    p.letter as int - 65
  }

  /** Zero-based row of a point, `number - 1`. */
  function Row(p: Point): int
  {
    p.number - 1
  }

  predicate InBoard(p: Point)
  {
    0 <= Col(p) < 10 && 0 <= Row(p) < 10
  }

  /** Column indices that `chr` can turn into a letter. */
  predicate Letterable(c: int)
  {
    -65 <= c < 0xD800 - 65
  }

  /** `change`: zero-based (column, row) to the external (letter, number). */
  function Change(c: int, r: int): (p: Point)
    requires Letterable(c)
    ensures Col(p) == c && Row(p) == r
    ensures InBoard(p) <==> 0 <= c < 10 && 0 <= r < 10
  {
    Point((c + 65) as char, r + 1)
  }

  lemma ChangeInjective(c1: int, r1: int, c2: int, r2: int)
    requires Letterable(c1) && Letterable(c2)
    ensures Change(c1, r1) == Change(c2, r2) <==> c1 == c2 && r1 == r2
  {
    if Change(c1, r1) == Change(c2, r2) {
      assert Col(Change(c1, r1)) == Col(Change(c2, r2));
    }
  }

  /** A point on the board is the `change` of its own column and row. */
  lemma ChangeBack(q: Point)
    requires InBoard(q)
    ensures Change(Col(q), Row(q)) == q
  {
  }

  /** Python list indexing: an index in -10..-1 counts from the end. */
  function Wrap(i: int): (k: int)
    requires -10 <= i < 10
    ensures 0 <= k < 10
    ensures i >= 0 ==> k == i
    ensures i < 0 ==> k == i + 10
  {
    if i < 0 then i + 10 else i
  }

  /** Whether `field[row][column]` can be read without an IndexError. */
  predicate Indexable(p: Point)
  {
    -10 <= Row(p) < 10 && -10 <= Col(p) < 10
  }

  /** `has_ship`: whether the cell the point names holds an unhit ship part. */
  function HasShip(p: Point, g: Grid): (b: bool)
    requires IsGrid(g) && Indexable(p)
    ensures InBoard(p) ==> (b <==> g[Row(p)][Col(p)] == ShipMark)
    ensures Row(p) < 0 && Col(p) >= 0 ==> (b <==> g[Row(p) + 10][Col(p)] == ShipMark)
    ensures Row(p) >= 0 && Col(p) < 0 ==> (b <==> g[Row(p)][Col(p) + 10] == ShipMark)
    ensures Row(p) < 0 && Col(p) < 0 ==> (b <==> g[Row(p) + 10][Col(p) + 10] == ShipMark)
  {
    g[Wrap(Row(p))][Wrap(Col(p))] == ShipMark
  }

  /** Python tuple order on points: by letter, then by number. */
  predicate PointLess(a: Point, b: Point)
  {
    a.letter < b.letter || (a.letter == b.letter && a.number < b.number)
  }

  /** Python `min` over a non-empty list of points. */
  function MinPoint(s: seq<Point>): (m: Point)
    requires |s| > 0
    ensures m in s
    ensures forall q :: q in s ==> !PointLess(q, m)
  {
    if |s| == 1 then s[0]
    else
      var rest := MinPoint(s[1..]);
      assert forall q :: q in s ==> q == s[0] || q in s[1..];
      if PointLess(s[0], rest) then s[0] else rest
  }

  /** Python list order on lists of points: lexicographic, a proper prefix first. */
  predicate SeqLess(a: seq<Point>, b: seq<Point>)
  {
    if |a| == 0 then |b| > 0
    else if |b| == 0 then false
    else if a[0] == b[0] then SeqLess(a[1..], b[1..])
    else PointLess(a[0], b[0])
  }

  /** The field with one cell overwritten. */
  function Mark(g: Grid, r: int, c: int, ch: char): (g': Grid)
    requires IsGrid(g) && 0 <= r < 10 && 0 <= c < 10
    ensures IsGrid(g')
    ensures g'[r][c] == ch
    ensures forall r', c' :: 0 <= r' < 10 && 0 <= c' < 10 && (r', c') != (r, c) ==> g'[r'][c'] == g[r'][c']
  {
    g[r := g[r][c := ch]]
  }

  /** Two fields that agree on every cell are equal. */
  lemma GridExt(a: Grid, b: Grid)
    requires IsGrid(a) && IsGrid(b)
    requires forall r, c :: 0 <= r < 10 && 0 <= c < 10 ==> a[r][c] == b[r][c]
    ensures a == b
  {
    forall r | 0 <= r < 10
      ensures a[r] == b[r]
    {
      assert forall c :: 0 <= c < 10 ==> a[r][c] == b[r][c];
    }
  }

  /** Number of ship parts among cells k..99, read in row-major order. */
  function StarsFrom(g: Grid, k: int): (n: nat)
    requires IsGrid(g) && 0 <= k <= 100
    ensures n <= 100 - k
    decreases 100 - k
  {
    if k == 100 then 0
    else (if g[k / 10][k % 10] == ShipMark then 1 else 0) + StarsFrom(g, k + 1)
  }

  /** Number of ship parts on the whole field. */
  function Stars(g: Grid): nat
    requires IsGrid(g)
  {
    StarsFrom(g, 0)
  }

  /** Putting a ship part on a cell that had none adds exactly one to the count. */
  lemma {:induction false} StarsFromMark(g: Grid, r: int, c: int, k: int)
    requires IsGrid(g) && 0 <= r < 10 && 0 <= c < 10 && 0 <= k <= 100
    requires g[r][c] != ShipMark
    ensures StarsFrom(Mark(g, r, c, ShipMark), k) == StarsFrom(g, k) + (if k <= 10 * r + c then 1 else 0)
    decreases 100 - k
  {
    if k < 100 {
      StarsFromMark(g, r, c, k + 1);
    }
  }

  lemma StarsMark(g: Grid, r: int, c: int)
    requires IsGrid(g) && 0 <= r < 10 && 0 <= c < 10
    requires g[r][c] != ShipMark
    ensures Stars(Mark(g, r, c, ShipMark)) == Stars(g) + 1
  {
    StarsFromMark(g, r, c, 0);
  }

  lemma {:induction false} BlankStarsFrom(k: int)
    requires 0 <= k <= 100
    ensures StarsFrom(Blank(), k) == 0
    decreases 100 - k
  {
    if k < 100 {
      BlankStarsFrom(k + 1);
    }
  }
}
