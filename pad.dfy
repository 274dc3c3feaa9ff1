/** `OmmaPad`: four margins, counted in cells. */
module Pad {

  datatype OmmaPad = OmmaPad(padTop: nat, padBottom: nat, padLeft: nat, padRight: nat)

  /** `OmmaPad::new(top, bottom, left, right)`: each getter returns its own argument. */
  function New(top: nat, bottom: nat, left: nat, right: nat): (p: OmmaPad)
    ensures p.padTop == top && p.padBottom == bottom
    ensures p.padLeft == left && p.padRight == right
  {
    OmmaPad(top, bottom, left, right)
  }

  /** `OmmaPad::default()`: no margin on any side. */
  function Default(): (p: OmmaPad)
    ensures p.padTop == 0 && p.padBottom == 0 && p.padLeft == 0 && p.padRight == 0
  {
    New(0, 0, 0, 0)
  }
}
