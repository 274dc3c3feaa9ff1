/**
 * `OmmaTerm`: the terminal's cursor and its back and front cell buffers,
 * stored column-major (`back[x][y]`, x the column, y the row), and what the
 * terminal writes to standard output.
 */
module Term {
  import opened Ints
  import opened Errors
  import opened Decimal
  import opened Cell

  const ESC: char := '\U{1b}'

  /**
   * One write to standard output: `Cup(row, col)` is the cursor position
   * sequence `CupSequence(row, col)`; `CellText(cell)` is a cell's colour
   * prefix (`fgcode`, `bgcode`, not part of this model) followed by its character.
   */
  datatype Emission = Cup(row: nat, col: nat) | CellText(cell: OmmaCell)

  /** The cursor position sequence CUP of ECMA-48 (section 8.3.21): ESC [ row ; column H,
      with row and column counted from 1. */
  function CupSequence(row: nat, col: nat): string {
    [ESC, '['] + Dec(row + 1) + ";" + Dec(col + 1) + "H"
  }

  /** The canonical reading of a CUP sequence: both parameters present, decimal without
      leading zeros, each at least 1; the result is the 0-based (row, column). ECMA-48's
      omitted parameters (ESC [ H, ESC [ ; 5 H) and leading zeros are not read. */
  function ParseCup(s: string): Option<(nat, nat)> {
    if |s| < 3 || s[0] != ESC || s[1] != '[' || s[|s| - 1] != 'H' then None
    else
      var body := s[2..|s| - 1];
      var k := IndexOf(body, ';');
      if k == |body| then None
      else
        match (ParseDec(body[..k]), ParseDec(body[k + 1..]))
        case (Some(r), Some(c)) => if r >= 1 && c >= 1 then Some((r - 1, c - 1)) else None
        case _ => None
  }

  /** The emitted sequence reads back, canonically, as the 0-based position it was given. */
  lemma {:induction false} CupRoundTrip(row: nat, col: nat)
    ensures ParseCup(CupSequence(row, col)) == Some((row, col))
  {
    var a, b := Dec(row + 1), Dec(col + 1);
    var s := CupSequence(row, col);
    var body := s[2..|s| - 1];
    assert body == a + [';'] + b;
    IndexOfAfterDigits(a, ';', b);
    assert body[..|a|] == a && body[|a| + 1..] == b;
    ParseDecOfDec(row + 1);
    ParseDecOfDec(col + 1);
  }

  /** The emitted spelling is the only canonical spelling of that position. */
  lemma {:induction false} CupUnique(s: string, row: nat, col: nat)
    requires ParseCup(s) == Some((row, col))
    ensures s == CupSequence(row, col)
  {
    var body := s[2..|s| - 1];
    var k := IndexOf(body, ';');
    assert ParseDec(body[..k]) == Some(row + 1) && ParseDec(body[k + 1..]) == Some(col + 1);
    DecOfParseDec(body[..k], row + 1);
    DecOfParseDec(body[k + 1..], col + 1);
    Reassemble(s, k);
  }

  /** A string framed as ESC [ ... H, its body cut at position k where a ';' stands. */
  lemma Reassemble(s: string, k: nat)
    requires |s| >= 3 && s[0] == ESC && s[1] == '[' && s[|s| - 1] == 'H'
    requires k < |s| - 3 && s[2 + k] == ';'
    ensures var body := s[2..|s| - 1];
            s == [ESC, '['] + body[..k] + ";" + body[k + 1..] + "H"
  {
    var body := s[2..|s| - 1];
    assert body == body[..k] + [';'] + body[k + 1..];
    assert s == [ESC, '['] + body + "H";
  }

  /** Reads "{rows} by {cols}" back into its two numbers. */
  function ParseDimensions(s: string): Option<(nat, nat)> {
    var k := IndexOf(s, ' ');
    if k + 4 > |s| || s[k..k + 4] != " by " then None
    else
      match (ParseDec(s[..k]), ParseDec(s[k + 4..]))
      case (Some(r), Some(c)) => Some((r, c))
      case _ => None
  }

  lemma {:induction false} DimensionsRoundTrip(rows: nat, cols: nat)
    ensures ParseDimensions(Dec(rows) + " by " + Dec(cols)) == Some((rows, cols))
  {
    var a, b := Dec(rows), Dec(cols);
    var s := a + " by " + b;
    assert s == a + [' '] + ("by " + b);
    IndexOfAfterDigits(a, ' ', "by " + b);
    assert s[..|a|] == a && s[|a|..|a| + 4] == " by " && s[|a| + 4..] == b;
    ParseDecOfDec(rows);
    ParseDecOfDec(cols);
  }

  /** `cols` columns of `rows` cells each. */
  predicate IsGrid(g: seq<seq<OmmaCell>>, cols: nat, rows: nat) {
    |g| == cols && forall x :: 0 <= x < cols ==> |g[x]| == rows
  }

  /** `vec![vec![OmmaCell::default(); rows]; cols]` */
  function DefaultGrid(cols: nat, rows: nat): (g: seq<seq<OmmaCell>>)
    ensures IsGrid(g, cols, rows)
    ensures forall x, y :: 0 <= x < cols && 0 <= y < rows ==> g[x][y] == Default()
  {
    seq(cols, _ => seq(rows, _ => Default()))
  }

  /**
   * The effect of `put_cell_at(x, y, c)` on a back buffer: its result and the
   * buffer afterwards. Bounds come from the buffer itself: the number of
   * columns and the length of column 0.
   */
  function PutCell(g: seq<seq<OmmaCell>>, x: nat, y: nat, c: OmmaCell): (r: (Result<u32>, seq<seq<OmmaCell>>))
    requires |g| > 0 && IsGrid(g, |g|, |g[0]|)
    ensures r.0.Err? <==> x >= |g| || y >= |g[0]|
    ensures r.0.Err? ==> r.0.error == "invalid put cell at " + Dec(x) + ":" + Dec(y)
                                      + " (max " + Dec(|g|) + ":" + Dec(|g[0]|) + ")"
    ensures r.0.Ok? ==> r.0.value == (if IsTransparent(c) then 0 else 1)
    ensures r.0.Err? || IsTransparent(c) ==> r.1 == g
    ensures IsGrid(r.1, |g|, |g[0]|)
    ensures r.0.Ok? && !IsTransparent(c) ==> r.1[x][y] == c
    ensures forall i, j :: 0 <= i < |g| && 0 <= j < |g[0]| && (i != x || j != y) ==> r.1[i][j] == g[i][j]
  {
    var xMax, yMax := |g|, |g[0]|;
    if x >= xMax || y >= yMax then
      (Err("invalid put cell at " + Dec(x) + ":" + Dec(y) + " (max " + Dec(xMax) + ":" + Dec(yMax) + ")"), g)
    else if c.ch == EMPTY then
      (Ok(0), g)
    else
      (Ok(1), g[x := g[x][y := c]])
  }

  /** What `render` writes for the first `n` cells of column `x`, top to bottom. */
  function ColumnLog(g: seq<seq<OmmaCell>>, x: nat, n: nat): seq<Emission>
    requires x < |g| && n <= |g[x]|
  {
    if n == 0 then [] else ColumnLog(g, x, n - 1) + [Cup(n - 1, x), CellText(g[x][n - 1])]
  }

  /** What `render` writes for the first `m` columns, left to right. */
  function FrameLog(g: seq<seq<OmmaCell>>, m: nat, rows: nat): seq<Emission>
    requires m <= |g| && IsGrid(g, |g|, rows)
  {
    if m == 0 then [] else FrameLog(g, m - 1, rows) + ColumnLog(g, m - 1, rows)
  }

  lemma {:induction false} ColumnLogAt(g: seq<seq<OmmaCell>>, x: nat, n: nat, y: nat)
    requires x < |g| && n <= |g[x]|
    ensures |ColumnLog(g, x, n)| == 2 * n
    ensures y < n ==> ColumnLog(g, x, n)[2 * y] == Cup(y, x)
    ensures y < n ==> ColumnLog(g, x, n)[2 * y + 1] == CellText(g[x][y])
  {
    if n > 0 {
      ColumnLogAt(g, x, n - 1, y);
    }
  }

  lemma {:induction false} FrameLogLength(g: seq<seq<OmmaCell>>, m: nat, rows: nat)
    requires m <= |g| && IsGrid(g, |g|, rows)
    ensures |FrameLog(g, m, rows)| == 2 * (m * rows)
  {
    if m > 0 {
      FrameLogLength(g, m - 1, rows);
      ColumnLogAt(g, m - 1, rows, 0);
      MulSucc(m - 1, rows);
      assert |FrameLog(g, m, rows)| == |FrameLog(g, m - 1, rows)| + |ColumnLog(g, m - 1, rows)|;
    }
  }

  /** Writing column `m - 1` only appends: the earlier columns' entries stay where they were. */
  lemma FrameLogExtends(g: seq<seq<OmmaCell>>, m: nat, rows: nat, i: nat)
    requires 0 < m <= |g| && IsGrid(g, |g|, rows) && i < |FrameLog(g, m - 1, rows)|
    ensures FrameLog(g, m, rows)[i] == FrameLog(g, m - 1, rows)[i]
  {
  }

  /** Column `x` is written right after the columns before it. */
  lemma FrameLogNextColumn(g: seq<seq<OmmaCell>>, x: nat, rows: nat, j: nat)
    requires x < |g| && IsGrid(g, |g|, rows) && j < |ColumnLog(g, x, rows)|
    ensures |FrameLog(g, x, rows)| + j < |FrameLog(g, x + 1, rows)|
    ensures FrameLog(g, x + 1, rows)[|FrameLog(g, x, rows)| + j] == ColumnLog(g, x, rows)[j]
  {
  }

  /** Cell (x, y) of the column written last: the cursor move to it, then the cell. */
  lemma FrameLogLastColumn(g: seq<seq<OmmaCell>>, x: nat, rows: nat, y: nat)
    requires x < |g| && IsGrid(g, |g|, rows) && y < rows
    ensures |FrameLog(g, x, rows)| + 2 * y + 1 < |FrameLog(g, x + 1, rows)|
    ensures FrameLog(g, x + 1, rows)[|FrameLog(g, x, rows)| + 2 * y] == Cup(y, x)
    ensures FrameLog(g, x + 1, rows)[|FrameLog(g, x, rows)| + 2 * y + 1] == CellText(g[x][y])
  {
    ColumnLogAt(g, x, rows, y);
    FrameLogNextColumn(g, x, rows, 2 * y);
    FrameLogNextColumn(g, x, rows, 2 * y + 1);
  }

  /**
   * Within the first `m` columns, cell (x, y) is written right after the
   * columns before x and the cells above y in column x: first the cursor move
   * to row y, column x, then the cell.
   */
  lemma {:induction false} FrameLogAt(g: seq<seq<OmmaCell>>, m: nat, rows: nat, x: nat, y: nat)
    requires m <= |g| && IsGrid(g, |g|, rows) && x < m && y < rows
    ensures |FrameLog(g, x, rows)| + 2 * y + 1 < |FrameLog(g, m, rows)|
    ensures FrameLog(g, m, rows)[|FrameLog(g, x, rows)| + 2 * y] == Cup(y, x)
    ensures FrameLog(g, m, rows)[|FrameLog(g, x, rows)| + 2 * y + 1] == CellText(g[x][y])
  {
    if m == x + 1 {
      FrameLogLastColumn(g, x, rows, y);
    } else {
      var i := |FrameLog(g, x, rows)| + 2 * y;
      FrameLogAt(g, m - 1, rows, x, y);
      FrameLogExtends(g, m, rows, i);
      FrameLogExtends(g, m, rows, i + 1);
    }
  }

  /**
   * In the log of a whole frame, cell (x, y) is the (x * rows + y)-th cell
   * written: entry 2 * (x * rows + y) moves the cursor to it and the next
   * entry writes it.
   */
  lemma FrameLogCell(g: seq<seq<OmmaCell>>, cols: nat, rows: nat, x: nat, y: nat)
    requires IsGrid(g, cols, rows) && x < cols && y < rows
    ensures 2 * (x * rows + y) + 1 < |FrameLog(g, cols, rows)|
    ensures FrameLog(g, cols, rows)[2 * (x * rows + y)] == Cup(y, x)
    ensures FrameLog(g, cols, rows)[2 * (x * rows + y) + 1] == CellText(g[x][y])
  {
    FrameLogLength(g, x, rows);
    FrameLogAt(g, cols, rows, x, y);
  }

  /** Entry k of a cols-by-rows frame log belongs to cell number k / 2, in column k / 2 / rows and row k / 2 % rows. */
  lemma EntryPosition(k: nat, cols: nat, rows: nat) returns (x: nat, y: nat)
    requires k < 2 * (cols * rows)
    ensures rows > 0 && x == k / 2 / rows && y == k / 2 % rows
    ensures x < cols && y < rows && 2 * (x * rows + y) + k % 2 == k
  {
    var p := k / 2;
    if rows > 0 && p / rows >= cols {
      MulLeft(cols, p / rows, rows);
    }
    x, y := p / rows, p % rows;
  }

  /**
   * The log of a whole frame, entry by entry: two entries per cell, columns
   * left to right and each column top to bottom; the even entry moves the
   * cursor to the cell, the odd one writes it. With FrameLogCell, every cell
   * is written exactly once.
   */
  lemma FrameLogEntry(g: seq<seq<OmmaCell>>, cols: nat, rows: nat, k: nat)
    requires IsGrid(g, cols, rows) && k < |FrameLog(g, cols, rows)|
    ensures rows > 0 && k / 2 / rows < cols
    ensures var x, y := k / 2 / rows, k / 2 % rows;
            FrameLog(g, cols, rows)[k] == if k % 2 == 0 then Cup(y, x) else CellText(g[x][y])
  {
    FrameLogLength(g, cols, rows);
    var x, y := EntryPosition(k, cols, rows);
    FrameLogCell(g, cols, rows, x, y);
  }

  /** Writing the same cell at the same place twice has the effect of writing it once. */
  lemma PutCellIdempotent(g: seq<seq<OmmaCell>>, x: nat, y: nat, c: OmmaCell)
    requires |g| > 0 && IsGrid(g, |g|, |g[0]|)
    ensures PutCell(PutCell(g, x, y, c).1, x, y, c) == PutCell(g, x, y, c)
  {
    var once := PutCell(g, x, y, c);
    if once.0.Ok? && !IsTransparent(c) {
      assert once.1[x][y := c] == once.1[x];
      assert once.1[x := once.1[x]] == once.1;
    }
  }

  /** After a successful non-transparent write, the next full redraw shows the new cell at
      that position's place in the frame log, and every other cell as it was. */
  lemma PutThenRender(g: seq<seq<OmmaCell>>, rows: nat, x: nat, y: nat, c: OmmaCell, i: nat, j: nat)
    requires |g| > 0 && IsGrid(g, |g|, rows) && rows > 0
    requires x < |g| && y < rows && !IsTransparent(c)
    requires i < |g| && j < rows
    ensures 2 * (i * rows + j) + 1 < |FrameLog(PutCell(g, x, y, c).1, |g|, rows)|
    ensures var after := PutCell(g, x, y, c).1;
            FrameLog(after, |g|, rows)[2 * (i * rows + j) + 1]
            == CellText(if i == x && j == y then c else g[i][j])
  {
    var after := PutCell(g, x, y, c).1;
    FrameLogCell(after, |g|, rows, i, j);
  }

  lemma MulSucc(a: nat, b: nat)
    ensures (a + 1) * b == a * b + b
  {
  }

  /** The count before cell (x, y) stays below the size of the frame. */
  lemma CountBelowFrame(x: nat, y: nat, cols: nat, rows: nat)
    requires x < cols && y < rows
    ensures x * rows + y + 1 <= cols * rows
  {
    MulSucc(x, rows);
    MulLeft(x + 1, cols, rows);
  }

  lemma MulLeft(a: nat, b: nat, c: nat)
    requires a <= b
    ensures a * c <= b * c
  {
  }

  /** A frame of at most 65535 by 65535 cells has fewer than 2^32 of them. */
  lemma FrameFitsU32(cols: u16, rows: u16)
    ensures cols * rows < U32_LIMIT
  {
    MulLeft(cols, 0xFFFF, rows);
    MulLeft(rows, 0xFFFF, 0xFFFF);
  }

  class OmmaTerm {
    var row: u16
    var col: u16
    var maxRow: u16
    var maxCol: u16
    /** Reserved for diffing; never read or written after construction. */
    var front: seq<seq<OmmaCell>>
    var back: seq<seq<OmmaCell>>
    /** Everything written to standard output, oldest first. */
    var out: seq<Emission>

    ghost predicate Valid()
      reads this
    {
      IsGrid(back, maxCol, maxRow) && IsGrid(front, maxCol, maxRow)
    }

    /** `OmmaTerm::new_mock`: both buffers `maxCol` columns of `maxRow` default cells, cursor at (0, 0). */
    constructor NewMock(maxRow: u16, maxCol: u16)
      ensures Valid()
      ensures this.maxRow == maxRow && this.maxCol == maxCol && row == 0 && col == 0
      ensures back == DefaultGrid(maxCol, maxRow) && front == DefaultGrid(maxCol, maxRow)
      ensures out == []
    {
      row, col := 0, 0;
      this.maxRow, this.maxCol := maxRow, maxCol;
      front := DefaultGrid(maxCol, maxRow);
      back := DefaultGrid(maxCol, maxRow);
      out := [];
    }

    /** `Display`: "{max_row} by {max_col}", which reads back as the two dimensions. */
    function Display(): (s: string)
      reads this
      ensures ParseDimensions(s) == Some((maxRow as nat, maxCol as nat))
    {
      DimensionsRoundTrip(maxRow, maxCol);
      Dec(maxRow) + " by " + Dec(maxCol)
    }

    /**
     * `move_cursor(col, row)`: refuses a position outside the screen; otherwise
     * records it and writes the CUP sequence for it.
     * The error message subtracts 1 from each dimension, so both must be positive.
     */
    method MoveCursor(col: u16, row: u16) returns (r: Result<()>)
      requires maxRow > 0 && maxCol > 0
      modifies this`row, this`col, this`out
      ensures r.Ok? <==> row < maxRow && col < maxCol
      ensures r.Ok? ==> this.row == row && this.col == col
      ensures r.Ok? ==> out == old(out) + [Cup(row, col)]
      ensures r.Err? ==> this.row == old(this.row) && this.col == old(this.col) && out == old(out)
      ensures r.Err? ==> r.error == "invalid cursor move " + Dec(row) + ":" + Dec(col)
                                   + " (max " + Dec(maxRow - 1) + ":" + Dec(maxCol - 1) + ")"
    {
      if row >= maxRow || col >= maxCol {
        return Err("invalid cursor move " + Dec(row) + ":" + Dec(col)
                   + " (max " + Dec(maxRow - 1) + ":" + Dec(maxCol - 1) + ")");
      }
      this.row := row;
      this.col := col;
      out := out + [Cup(row, col)];
      return Ok(());
    }

    /**
     * `put_cell_at(x, y, cell)`: a bounds-checked write into the back buffer
     * that skips the transparent sentinel. Indexing column 0 needs at least one column.
     */
    method PutCellAt(x: nat, y: nat, cell: OmmaCell) returns (r: Result<u32>)
      requires Valid() && maxCol > 0
      modifies this`back
      ensures Valid()
      ensures (r, back) == PutCell(old(back), x, y, cell)
    {
      var xMax := |back|;
      var yMax := |back[0]|;
      if x >= xMax || y >= yMax {
        return Err("invalid put cell at " + Dec(x) + ":" + Dec(y) + " (max " + Dec(xMax) + ":" + Dec(yMax) + ")");
      }
      if cell.ch == EMPTY {
        return Ok(0);
      }
      back := back[x := back[x][y := cell]];
      return Ok(1);
    }

    /** `render_cell_at(x, y, cell)`: moves the cursor to column x, row y, then writes the cell;
        at an invalid position only the error comes back and nothing is written. */
    method RenderCellAt(x: u16, y: u16, cell: OmmaCell) returns (r: Result<()>)
      requires maxRow > 0 && maxCol > 0
      modifies this`row, this`col, this`out
      ensures r.Ok? <==> y < maxRow && x < maxCol
      ensures r.Ok? ==> row == y && col == x
      ensures r.Ok? ==> out == old(out) + [Cup(y, x), CellText(cell)]
      ensures r.Err? ==> row == old(row) && col == old(col) && out == old(out)
    {
      r := MoveCursor(x, y);
      if r.Err? {
        return;
      }
      out := out + [CellText(cell)];
    }

    /**
     * `render`: a full-frame redraw of the back buffer, column by column, and
     * the number of cells drawn. The buffers are only read; the cursor ends on
     * the last cell.
     */
    method Render() returns (r: Result<u32>)
      requires Valid()
      modifies this`row, this`col, this`out
      ensures r.Ok? && r.value == maxCol * maxRow
      ensures out == old(out) + FrameLog(back, maxCol, maxRow)
      ensures maxCol > 0 && maxRow > 0 ==> row == maxRow - 1 && col == maxCol - 1
      ensures maxCol == 0 || maxRow == 0 ==> row == old(row) && col == old(col)
    {
      FrameFitsU32(maxCol, maxRow);
      var written: u32 := 0;
      for x := 0 to maxCol
        invariant written == x * maxRow
        invariant out == old(out) + FrameLog(back, x, maxRow)
        invariant x > 0 && maxRow > 0 ==> row == maxRow - 1 && col == x - 1
        invariant x == 0 || maxRow == 0 ==> row == old(row) && col == old(col)
      {
        for y := 0 to maxRow
          invariant written == x * maxRow + y
          invariant out == old(out) + FrameLog(back, x, maxRow) + ColumnLog(back, x, y)
          invariant y > 0 ==> row == y - 1 && col == x
          invariant y == 0 && x > 0 && maxRow > 0 ==> row == maxRow - 1 && col == x - 1
          invariant y == 0 && (x == 0 || maxRow == 0) ==> row == old(row) && col == old(col)
        {
          CountBelowFrame(x, y, maxCol, maxRow);
          written := written + 1;
          var cell := back[x][y];
          var drawn := RenderCellAt(x, y, cell);
          if drawn.Err? {
            return drawn.Cast();
          }
        }
        MulSucc(x, maxRow);
      }
      return Ok(written);
    }
  }
}
