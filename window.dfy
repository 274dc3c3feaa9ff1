/**
 * The window record of `src/window.rs`: an id and a rectangle given as
 * row, column, height and width. The id is not assigned by this constructor.
 */
module Window {
  import opened Ints

  datatype Window = Window(id: u32, y: u16, x: u16, height: u16, width: u16)

  /** `Window::new(y, x, height, width)`: the first argument is the row, the second the column. */
  function New(y: u16, x: u16, height: u16, width: u16): (w: Window)
    ensures w.id == 0
    ensures w.y == y && w.x == x && w.height == height && w.width == width
  {
    Window(0, y, x, height, width)
  }

  /** `Window::default()`: every field zero. */
  function Default(): (w: Window)
    ensures w.id == 0 && w.y == 0 && w.x == 0 && w.height == 0 && w.width == 0
  {
    Window(0, 0, 0, 0, 0)
  }
}
