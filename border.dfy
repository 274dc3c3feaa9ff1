/**
 * `OmmaBorder`: the eight cells drawn around a window (four edges, four
 * corners) and a `hidden` flag that the setters flip in place.
 */
module Border {
  import opened Cell

  class OmmaBorder {
    var hidden: bool
    var borderTop: OmmaCell
    var borderBottom: OmmaCell
    var borderLeft: OmmaCell
    var borderRight: OmmaCell
    var borderCornerTl: OmmaCell
    var borderCornerTr: OmmaCell
    var borderCornerBl: OmmaCell
    var borderCornerBr: OmmaCell

    /** The eight cells: top, bottom, left, right, then the corners top-left, top-right,
        bottom-left, bottom-right. The getters of the source read these fields. */
    function Cells(): (cells: seq<OmmaCell>)
      reads this
      ensures |cells| == 8
    {
      [borderTop, borderBottom, borderLeft, borderRight,
       borderCornerTl, borderCornerTr, borderCornerBl, borderCornerBr]
    }

    /** `OmmaBorder::new(horiz, vert, corner)`: `horiz` on top and bottom, `vert` left and right,
        `corner` in all four corners; shown. */
    constructor New(horiz: OmmaCell, vert: OmmaCell, corner: OmmaCell)
      ensures !hidden
      ensures borderTop == horiz && borderBottom == horiz
      ensures borderLeft == vert && borderRight == vert
      ensures borderCornerTl == corner && borderCornerTr == corner
      ensures borderCornerBl == corner && borderCornerBr == corner
    {
      hidden := false;
      borderTop, borderBottom := horiz, horiz;
      borderLeft, borderRight := vert, vert;
      borderCornerTl, borderCornerTr := corner, corner;
      borderCornerBl, borderCornerBr := corner, corner;
    }

    /** `OmmaBorder::new_mono(mono)`: the same cell in all eight places; shown. */
    constructor NewMono(mono: OmmaCell)
      ensures !hidden
      ensures forall i :: 0 <= i < 8 ==> Cells()[i] == mono
    {
      hidden := false;
      borderTop, borderBottom := mono, mono;
      borderLeft, borderRight := mono, mono;
      borderCornerTl, borderCornerTr := mono, mono;
      borderCornerBl, borderCornerBr := mono, mono;
    }

    /** Flips `hidden`; two calls restore it. No cell changes. */
    method ToggleHidden()
      modifies this`hidden
      ensures hidden == !old(hidden)
      ensures Cells() == old(Cells())
    {
      hidden := !hidden;
    }

    /** Hides the border, whatever it was before; no cell changes. */
    method SetHidden()
      modifies this`hidden
      ensures hidden
      ensures Cells() == old(Cells())
    {
      hidden := true;
    }

    /** Shows the border, whatever it was before; no cell changes. */
    method ClearHidden()
      modifies this`hidden
      ensures !hidden
      ensures Cells() == old(Cells())
    {
      hidden := false;
    }
  }
}
