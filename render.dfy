/** Text rendering of the field (battle_functions.py:209-222; battle_main.py:50-61): a header
    line with the column letters, then one line per row, labelled 1..10, with the cells
    separated by spaces. */
module Render {
  import opened Board

  /** The header line: three spaces, then the column letters A..J separated by spaces. */
  const Header: string := "   A B C D E F G H I J\n"

  /** Every rendered line is this long, newline included. */
  const LineWidth := 23

  /** `str(n)` for a row label 1..10. */
  function Label(n: int): (s: string)
    requires 1 <= n <= 10
    ensures |s| == if n == 10 then 2 else 1
  {
    if n == 10 then "10" else [('0' as int + n) as char]
  }

  /** `' '.join(cells)`. */
  function Join(cells: seq<char>): (r: string)
    ensures |cells| > 0 ==> |r| == 2 * |cells| - 1
    ensures |cells| == 0 ==> r == []
  {
    if |cells| == 0 then []
    else if |cells| == 1 then [cells[0]]
    else [cells[0], ' '] + Join(cells[1..])
  }

  /** Cell `j` sits at offset `2 * j` of the joined text, with a space after every cell
      but the last. */
  lemma {:induction false} JoinAt(cells: seq<char>, j: int)
    requires 0 <= j < |cells|
    ensures Join(cells)[2 * j] == cells[j]
    ensures j + 1 < |cells| ==> Join(cells)[2 * j + 1] == ' '
  {
    if j > 0 {
      JoinAt(cells[1..], j - 1);
      assert Join(cells) == [cells[0], ' '] + Join(cells[1..]);
    }
  }

  /** The line for row `i`: its label, padding to three columns, the cells and a newline. */
  function RowLine(g: Grid, i: int): (line: string)
    requires IsGrid(g) && 0 <= i < 10
    ensures |line| == LineWidth
  {
    Label(i + 1) + (if i == 9 then " " else "  ") + Join(g[i]) + "\n"
  }

  /** The lines of the first `n` rows. */
  function Lines(g: Grid, n: int): (s: string)
    requires IsGrid(g) && 0 <= n <= 10
    ensures |s| == LineWidth * n
  {
    if n == 0 then "" else Lines(g, n - 1) + RowLine(g, n - 1)
  }

  /** What `field_to_str` returns. */
  function Rendered(g: Grid): string
    requires IsGrid(g)
  {
    Header + Lines(g, 10)
  }

  /** `field_to_str`. */
  method FieldToStr(g: Grid) returns (myField: string)
    requires IsGrid(g)
    ensures myField == Rendered(g)
  {
    myField := Header;
    for i := 0 to |g|
      invariant myField == Header + Lines(g, i)
    {
      var line;
      if i == 9 {
        line := Label(i + 1) + " " + Join(g[i]) + "\n";
      } else {
        line := Label(i + 1) + "  " + Join(g[i]) + "\n";
      }
      myField := myField + line;
    }
  }

  /** Character `m` of line `k` among the first `n` lines. */
  lemma {:induction false} LinesAt(g: Grid, n: int, k: int, m: int)
    requires IsGrid(g) && 0 <= k < n <= 10 && 0 <= m < LineWidth
    ensures Lines(g, n)[LineWidth * k + m] == RowLine(g, k)[m]
  {
    if k < n - 1 {
      LinesAt(g, n - 1, k, m);
    }
  }

  /** The rendering is eleven lines of 23 characters each, every one ending in a newline;
      row `i` starts with its label 1..10, and its cell `j` is at column `3 + 2 * j`. */
  lemma RenderedLayout(g: Grid, i: int, j: int)
    requires IsGrid(g) && 0 <= i < 10 && 0 <= j < 10
    ensures |Rendered(g)| == LineWidth * 11
    ensures Rendered(g)[LineWidth - 1] == '\n'
    ensures Rendered(g)[LineWidth * (i + 1) + LineWidth - 1] == '\n'
    ensures Rendered(g)[LineWidth * (i + 1) .. LineWidth * (i + 1) + |Label(i + 1)|] == Label(i + 1)
    ensures Rendered(g)[LineWidth * (i + 1) + 3 + 2 * j] == g[i][j]
  {
    var s, base, tag := Rendered(g), LineWidth * (i + 1), Label(i + 1);
    RenderedAt(g, i, LineWidth - 1);
    RowCell(g, i, j);
    RenderedAt(g, i, 3 + 2 * j);
    forall m | 0 <= m < |tag|
      ensures s[base .. base + |tag|][m] == tag[m]
    {
      RenderedAt(g, i, m);
    }
  }

  /** Character `m` of the line for row `i` in the rendering. */
  lemma RenderedAt(g: Grid, i: int, m: int)
    requires IsGrid(g) && 0 <= i < 10 && 0 <= m < LineWidth
    ensures |Rendered(g)| == LineWidth * 11
    ensures Rendered(g)[LineWidth * (i + 1) + m] == RowLine(g, i)[m]
  {
    LinesAt(g, 10, i, m);
    assert |Header| == LineWidth;
  }

  /** Cell `j` of row `i` sits at column `3 + 2 * j` of the row's line. */
  lemma RowCell(g: Grid, i: int, j: int)
    requires IsGrid(g) && 0 <= i < 10 && 0 <= j < 10
    ensures RowLine(g, i)[3 + 2 * j] == g[i][j]
  {
    JoinAt(g[i], j);
    var prefix := Label(i + 1) + (if i == 9 then " " else "  ");
    assert |prefix| == 3;
    assert RowLine(g, i) == prefix + Join(g[i]) + "\n";
  }

  /** Reading the cells back out of a rendering. */
  function Parse(s: string): (g: Grid)
    requires |s| == LineWidth * 11
    ensures IsGrid(g)
  {
    seq(10, i requires 0 <= i < 10 => seq(10, j requires 0 <= j < 10 => s[LineWidth * (i + 1) + 3 + 2 * j]))
  }

  /** The rendering loses nothing: the field can be read back from it. */
  lemma ParseRendered(g: Grid)
    requires IsGrid(g)
    ensures |Rendered(g)| == LineWidth * 11 && Parse(Rendered(g)) == g
  {
    RenderedLayout(g, 0, 0);
    var h := Parse(Rendered(g));
    forall i, j | 0 <= i < 10 && 0 <= j < 10
      ensures h[i][j] == g[i][j]
    {
      RenderedLayout(g, i, j);
    }
    GridExt(h, g);
  }

  /** `str.replace(a, b)` for single characters. */
  function Replace(s: string, a: char, b: char): (r: string)
    ensures |r| == |s|
    ensures forall k :: 0 <= k < |s| ==> r[k] == if s[k] == a then b else s[k]
  {
    seq(|s|, k requires 0 <= k < |s| => if s[k] == a then b else s[k])
  }

  lemma ReplaceConcat(s: string, t: string, a: char, b: char)
    ensures Replace(s + t, a, b) == Replace(s, a, b) + Replace(t, a, b)
  {
  }

  /** The field with every ship part shown as an empty cell. */
  function HideShips(g: Grid): (h: Grid)
    requires IsGrid(g)
    ensures IsGrid(h)
  {
    seq(10, i requires 0 <= i < 10 => Replace(g[i], ShipMark, EmptyMark))
  }

  /** Joining commutes with replacing a character other than the space. */
  lemma {:induction false} ReplaceJoin(cells: seq<char>, a: char, b: char)
    requires a != ' '
    ensures Replace(Join(cells), a, b) == Join(Replace(cells, a, b))
  {
    if |cells| > 1 {
      ReplaceJoin(cells[1..], a, b);
      assert Replace(cells, a, b)[1..] == Replace(cells[1..], a, b);
      ReplaceConcat([cells[0], ' '], Join(cells[1..]), a, b);
    }
  }

  lemma {:induction false} ReplaceLines(g: Grid, n: int)
    requires IsGrid(g) && 0 <= n <= 10
    ensures Replace(Lines(g, n), ShipMark, EmptyMark) == Lines(HideShips(g), n)
  {
    if n > 0 {
      ReplaceLines(g, n - 1);
      var i := n - 1;
      var pad := if i == 9 then " " else "  ";
      ReplaceJoin(g[i], ShipMark, EmptyMark);
      ReplaceConcat(Lines(g, i), RowLine(g, i), ShipMark, EmptyMark);
      ReplaceConcat(Label(i + 1) + pad + Join(g[i]), "\n", ShipMark, EmptyMark);
      ReplaceConcat(Label(i + 1) + pad, Join(g[i]), ShipMark, EmptyMark);
      ReplaceConcat(Label(i + 1), pad, ShipMark, EmptyMark);
      assert Replace(Label(i + 1), ShipMark, EmptyMark) == Label(i + 1);
      assert Replace(pad, ShipMark, EmptyMark) == pad;
      assert Replace("\n", ShipMark, EmptyMark) == "\n";
    }
  }

  /** The view without ships is the rendering of the field with every ship part shown as an
      empty cell, and it shows no ship part at all. */
  lemma HiddenRendering(g: Grid)
    requires IsGrid(g)
    ensures Replace(Rendered(g), ShipMark, EmptyMark) == Rendered(HideShips(g))
    ensures ShipMark !in Replace(Rendered(g), ShipMark, EmptyMark)
  {
    ReplaceLines(g, 10);
    ReplaceConcat(Header, Lines(g, 10), ShipMark, EmptyMark);
    assert Replace(Header, ShipMark, EmptyMark) == Header;
  }
}
