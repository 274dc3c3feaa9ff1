/** `OmmaColor`: an RGB triple of bytes, and the named colours. */
module Color {
  import opened Ints

  datatype OmmaColor = OmmaColor(r: u8, g: u8, b: u8)

  const WHITE: OmmaColor := OmmaColor(255, 255, 255)
  const LIGHT_GREY: OmmaColor := OmmaColor(200, 200, 200)
  const DARK_GREY: OmmaColor := OmmaColor(100, 100, 100)
  const BLACK: OmmaColor := OmmaColor(0, 0, 0)
  const RED: OmmaColor := OmmaColor(255, 0, 0)
  const GREEN: OmmaColor := OmmaColor(0, 255, 0)
  const BLUE: OmmaColor := OmmaColor(0, 0, 255)

  /** `OmmaColor::new` keeps the three channels as given. */
  function New(r: u8, g: u8, b: u8): (c: OmmaColor)
    ensures c.r == r && c.g == g && c.b == b
  {
    OmmaColor(r, g, b)
  }

  /** `OmmaColor::default()` is white: every channel at full intensity. */
  function Default(): (c: OmmaColor)
    ensures c.r == 255 && c.g == 255 && c.b == 255
    ensures c == WHITE
  {
    WHITE
  }

  /** A grey has the same value on every channel. */
  predicate IsGrey(c: OmmaColor, level: u8) {
    c.r == level && c.g == level && c.b == level
  }

  /** Exactly one channel at full intensity, the other two at zero. */
  predicate IsPrimary(c: OmmaColor) {
    || (c.r == 255 && c.g == 0 && c.b == 0)
    || (c.r == 0 && c.g == 255 && c.b == 0)
    || (c.r == 0 && c.g == 0 && c.b == 255)
  }

  /** BLACK is all zero; RED, GREEN and BLUE each have exactly one channel at 255, the others at 0;
      the two greys are uniform at 200 and 100; WHITE is the uniform grey at 255. */
  lemma NamedColours()
    ensures IsGrey(BLACK, 0) && IsGrey(WHITE, 255)
    ensures IsGrey(LIGHT_GREY, 200) && IsGrey(DARK_GREY, 100)
    ensures IsPrimary(RED) && RED.r == 255
    ensures IsPrimary(GREEN) && GREEN.g == 255
    ensures IsPrimary(BLUE) && BLUE.b == 255
  {
  }
}
