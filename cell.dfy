/**
 * `OmmaCell`: the drawable unit, a character with foreground and background
 * colour codes and attribute bits. The character `EMPTY` marks a transparent
 * cell, one that leaves the destination unchanged when written.
 */
module Cell {
  import opened Ints

  /** The transparent sentinel character. */
  const EMPTY: char := '\0'

  datatype OmmaCell = OmmaCell(ch: char, fg: u8, bg: u8, attrs: u16)

  const BLANK_CELL: OmmaCell := OmmaCell(' ', 0, 0, 0)
  const EMPTY_CELL: OmmaCell := OmmaCell(EMPTY, 0, 0, 0)
  const PLAYER_CELL: OmmaCell := OmmaCell('@', 0, 0, 0)
  const FLOOR_CELL: OmmaCell := OmmaCell('.', 0, 0, 0)
  const WALL_CELL: OmmaCell := OmmaCell('#', 0, 0, 0)
  const HORIZ_CELL: OmmaCell := OmmaCell('-', 0, 0, 0)
  const VERT_CELL: OmmaCell := OmmaCell('|', 0, 0, 0)
  const CORNER_CELL: OmmaCell := OmmaCell('O', 0, 0, 0)
  const SPECIAL_CELL: OmmaCell := OmmaCell('*', 0, 0, 0)

  /** The named cell constants, in declaration order. */
  const NAMED_CELLS: seq<OmmaCell> := [BLANK_CELL, EMPTY_CELL, PLAYER_CELL, FLOOR_CELL, WALL_CELL,
                                       HORIZ_CELL, VERT_CELL, CORNER_CELL, SPECIAL_CELL]

  /** A cell whose character is the sentinel is never drawn. */
  predicate IsTransparent(c: OmmaCell) {
    c.ch == EMPTY
  }

  /** `OmmaCell::new` stores the four fields unchanged. */
  function New(ch: char, fg: u8, bg: u8, attrs: u16): (c: OmmaCell)
    ensures c.ch == ch && c.fg == fg && c.bg == bg && c.attrs == attrs
  {
    OmmaCell(ch, fg, bg, attrs)
  }

  /** `OmmaCell::default()`: a space with no colour and no attributes, i.e. `BLANK_CELL`. */
  function Default(): (c: OmmaCell)
    ensures c.ch == ' ' && c.fg == 0 && c.bg == 0 && c.attrs == 0
    ensures !IsTransparent(c) && c == BLANK_CELL
  {
    New(' ', 0, 0, 0)
  }

  /** `OmmaCell::transparent()`: the sentinel with no colour and no attributes, i.e. `EMPTY_CELL`. */
  function Transparent(): (c: OmmaCell)
    ensures c.ch == EMPTY && c.fg == 0 && c.bg == 0 && c.attrs == 0
    ensures IsTransparent(c) && c == EMPTY_CELL
  {
    New(EMPTY, 0, 0, 0)
  }

  /** Among the named cells only `EMPTY_CELL` is transparent. */
  lemma OnlyEmptyCellIsTransparent()
    ensures forall i :: 0 <= i < |NAMED_CELLS| ==> (IsTransparent(NAMED_CELLS[i]) <==> NAMED_CELLS[i] == EMPTY_CELL)
  {
  }
}
