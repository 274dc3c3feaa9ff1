# ommatidium, modelled in Dafny

ommatidium is a small terminal UI toolkit. A `Session` owns one terminal
(`OmmaTerm`) and two append-only arenas: windows and objects, each indexed
by id. The terminal keeps a back buffer of cells, stored column-major
(`back[x][y]`, where x is the column and y the row), and a cursor. `render`
redraws the whole back buffer: for every cell it moves the cursor with the
ECMA-48 CUP sequence (section 8.3.21 of ECMA-48, `ESC [ row ; column H`,
1-based) and then writes the cell. Objects are leaves that hold at most one
cell at an offset inside their parent window. They are built with an
`ObjectBuilder` and drawn by `Object::blit` through the bounds-checked
`put_cell_at`. Two process-wide counters hand out window ids and object ids.

The project has one Dafny module per source file, plus three helper modules:

- `Ints` defines the u8, u16 and u32 widths.
- `Errors` defines `Result` (an error carries only its message, as `OmmaErr` does) and `Option`.
- `Decimal` models Rust's `{}` formatting of an unsigned integer, with its parse-back.

The modules that follow the source:

- `Color`, `Cell`, `Pad` and `Window` are value types, modelled as datatypes.
- `Border` is a class, because its `hidden` setters mutate in place.
- `Term` holds the class `OmmaTerm`. `back` and `front` are `seq<seq<OmmaCell>>` fields. Standard output is a field `out`: the list of writes made, each either a cursor move `Cup(row, col)` (standing for the bytes `CupSequence(row, col)`) or a cell `CellText(cell)`.
- `Ids` holds the class `IdCounters`. Its two fields are the two static atomics; every caller shares one instance.
- `Objects` holds the datatype `ObjectBuilder` and the class `Object`.
- `Session` holds the class `Session` over a window record with an id, a parent id, a child list and an object list.
- `ObjectSubmit` holds `ObjectBuilder::submit`. It is a module of its own because the session holds objects, and submitting an object needs the session.

What is proved, in outline:

- `render` visits every cell exactly once, columns left to right and each column top to bottom, and returns `max_col * max_row`. It moves the cursor to each cell before writing it and never touches the buffers.
- Every CUP sequence written reads back, under the canonical reading (both parameters present, no leading zeros), as the 0-based position it was given, and no other canonical spelling reads as that position.
- `put_cell_at` fails exactly out of bounds, and skips the transparent cell. Otherwise it changes that one cell and returns 1.
- Id counters hand out 0, 1, 2, … and wrap silently at 2^32. Their "wrapped" error branch cannot be reached, because it compares two copies of the same pre-increment value.
- Session registration grows the arena by one even when it fails. It links the entity under its parent only, and keeps window ids equal to their indices.

The object counter's unreachable error message names the "window_id tracker", word for word as the window counter's does. The model keeps it verbatim.

## Model

| member | source | states |
|---|---|---|
| Color.New | src/color.rs:16-18 | the three channels are stored as given |
| Color.Default | src/color.rs:9-13 | the default colour is WHITE, every channel 255 |
| Color.NamedColours | src/color.rs:21-44 | BLACK is all 0; RED, GREEN and BLUE each have exactly one channel at 255 and the others at 0; the greys are uniform at 200 and 100 |
| Cell.New | src/cell.rs:19-21 | the four fields are stored unchanged |
| Cell.Default | src/cell.rs:12-16 | the default cell is a space with no colours or attributes, equal to BLANK_CELL and not transparent |
| Cell.Transparent | src/cell.rs:23-25 | the transparent cell has the EMPTY character, equals EMPTY_CELL and is transparent |
| Cell.OnlyEmptyCellIsTransparent | src/cell.rs:34-95 | among the named cells, exactly EMPTY_CELL has the EMPTY character, so it is the only one `put_cell_at` skips |
| Pad.New | src/pad.rs:17-38 | each getter returns its own argument, in the order top, bottom, left, right |
| Pad.Default | src/pad.rs:10-14 | all four margins are 0 |
| Window.New | src/window.rs:13-21 | the id is 0; the arguments become y, x, height and width, in that order |
| Window.Default | src/window.rs:2-9 | every field is 0 |
| Border.OmmaBorder.New | src/border.rs:19-31 | top and bottom are `horiz`, left and right are `vert`, all four corners are `corner`, and the border is shown |
| Border.OmmaBorder.NewMono | src/border.rs:34-46 | all eight cells are `mono`, and the border is shown |
| Border.OmmaBorder.Cells | src/border.rs:49-76 | the eight getters' cells, in a fixed order |
| Border.OmmaBorder.ToggleHidden | src/border.rs:78-80 | `hidden` flips, so two calls restore it; no cell changes |
| Border.OmmaBorder.SetHidden | src/border.rs:82-84 | `hidden` is true afterwards whatever it was, so repeating it changes nothing; no cell changes |
| Border.OmmaBorder.ClearHidden | src/border.rs:86-88 | `hidden` is false afterwards whatever it was; no cell changes |
| Decimal.Dec | src/term.rs:212-222 | the decimal text of a number is canonical: only digits, no leading zero, "0" only for zero |
| Decimal.ParseDecOfDec | src/term.rs:222 | the decimal text of n reads back as n |
| Decimal.DecOfParseDec | src/term.rs:222 | canonical decimal text is the formatting of the number it reads as |
| Term.CupRoundTrip | src/term.rs:221-222 | the CUP sequence written for 0-based (row, col) reads back, canonically, as (row, col): its parameters count from 1 |
| Term.CupUnique | src/term.rs:221-222 | any canonical spelling (both parameters present, no leading zeros) of position (row, col) is exactly the sequence written for it |
| Term.DefaultGrid | src/term.rs:194-195 | `max_col` columns of `max_row` cells, every one the default cell |
| Term.OmmaTerm.NewMock | src/term.rs:192-205 | both buffers are default grids of `max_col` columns by `max_row` rows; the cursor is at (0, 0); nothing is written |
| Term.OmmaTerm.Display | src/term.rs:155-158 | the text reads back as (max_row, max_col), in that order |
| Term.OmmaTerm.MoveCursor | src/term.rs:209-223 | succeeds exactly when row < max_row and col < max_col. On success it sets the cursor and writes the CUP for (row, col). On failure nothing changes, and the message names row:col and the last valid row and column |
| Term.PutCell | src/term.rs:227-248 | fails exactly when x is at least the number of columns or y at least the length of column 0, and the buffer then stays the same. A transparent cell returns 0 and changes nothing. Any other cell returns 1 and makes `back[x][y]` that cell. No other cell changes, and the buffer stays a grid |
| Term.OmmaTerm.PutCellAt | src/term.rs:227-248 | the result and the new back buffer are `PutCell` of the old one; `front`, the cursor and the output are untouched |
| Term.PutCellIdempotent | src/term.rs:241-246 | writing the same cell at the same place twice has the effect of writing it once |
| Term.OmmaTerm.RenderCellAt | src/term.rs:251-260 | x is the column and y the row. In bounds, the cursor moves there and the CUP then the cell are written. Out of bounds, an error comes back and nothing is written |
| Term.OmmaTerm.Render | src/term.rs:263-273 | always succeeds with max_col * max_row. The output grows by exactly the frame log of the back buffer. The buffers are not modified, and the cursor ends on the last cell |
| Term.FrameFitsU32 | src/term.rs:264-267 | a 65535-by-65535 frame has fewer than 2^32 cells, so the u32 cell count cannot overflow |
| Term.FrameLogLength | src/term.rs:265-271 | the frame log has two writes per cell: 2 * max_col * max_row |
| Term.FrameLogAt | src/term.rs:265-270 | cell (x, y) is drawn after all earlier columns and the cells above it in column x: first the CUP to row y, column x, then the cell |
| Term.FrameLogCell | src/term.rs:265-270 | in a full frame, writes 2(x·rows + y) and 2(x·rows + y) + 1 are the cursor move to cell (x, y) and that cell |
| Term.FrameLogEntry | src/term.rs:265-270 | every write of the frame log belongs to cell k/2, in column k/2/rows and row k/2 mod rows. Even writes are cursor moves and odd writes are cells, so each cell is drawn exactly once, in column-major order |
| Term.PutThenRender | src/term.rs:243-273 | after a successful write of a visible cell, the next redraw shows that cell at its position and every other cell as before |
| Ids.FetchAdd | src/lib.rs:19 | the successor modulo 2^32; it is 0 exactly after u32::MAX |
| Ids.IdCounters.constructor | src/lib.rs:14-15 | both counters start at 0 |
| Ids.IdCounters.NextWindowId | src/lib.rs:17-26 | always returns the value before the call, never the wrap error, and advances the window counter by one modulo 2^32; the object counter is untouched |
| Ids.IdCounters.NextObjectId | src/lib.rs:32-41 | the same on the object counter, leaving the window counter untouched |
| Ids.IssuedModular | src/lib.rs:17-26 | the i-th id handed out from a counter at `start` is start + i modulo 2^32 |
| Ids.FromZeroConsecutive | src/lib.rs:14-26 | from a fresh counter, the first 2^32 ids are 0, 1, 2, … with no repeat |
| Ids.WrapRepeatsZero | src/lib.rs:18-24 | call 2^32 + 1 hands out 0 again: the wrap goes undetected |
| Objects.NewBuilder | src/object.rs:30-39 | parent 0, no name, offset (0, 0), shown, no cell |
| Objects.ObjectBuilder.Parent | src/object.rs:42-45 | sets the parent id and nothing else |
| Objects.ObjectBuilder.Name | src/object.rs:48-51 | sets the name and nothing else |
| Objects.ObjectBuilder.Offset | src/object.rs:54-58 | sets both offsets and nothing else |
| Objects.ObjectBuilder.Hidden | src/object.rs:61-64 | marks the builder hidden and changes nothing else |
| Objects.ObjectBuilder.Cell | src/object.rs:67-70 | sets the cell and nothing else |
| Objects.ObjectName | src/object.rs:75-79 | the given name, or else a name starting "Unnamed Object #" |
| Objects.UnnamedNameReadsBack | src/object.rs:75-79 | the number after the prefix of a generated name reads back as the object's id |
| Objects.UnnamedNamesDistinct | src/object.rs:74-79 | unnamed objects with different ids get different names |
| Objects.Object.constructor | src/object.rs:80-88 | every field is stored as given |
| Objects.Object.ToggleHidden | src/object.rs:127-129 | `hidden` flips |
| Objects.Object.SetHidden | src/object.rs:131-133 | `hidden` is true afterwards, whatever it was |
| Objects.Object.ClearHidden | src/object.rs:135-137 | `hidden` is false afterwards, whatever it was |
| Objects.Object.Blit | src/object.rs:139-154 | a hidden object or one without a cell returns 0 and writes nothing. Otherwise the result and the new back buffer are `put_cell_at` of the cell at (offset_x + parent_x, offset_y + parent_y): 0 for the transparent cell, 1 for a written one, or the bounds error. Only the back buffer can change |
| Objects.Object.Display | src/object.rs:94-102 | the text starts "H:" for a hidden object and "V:" for a shown one |
| Objects.DisplayIdReadsBack | src/object.rs:94-102 | the text between the first and second ':' reads back as the id |
| Objects.DisplayParentReadsBack | src/object.rs:94-102 | the text after the last ':' reads back as the parent id |
| Objects.DisplayNameReadsBack | src/object.rs:94-102 | the text between the ':' that ends the id field and the ':' that starts the parent field is exactly the name, even when the name holds ':' or digits |
| ObjectSubmit.Submit | src/object.rs:73-91 | takes the next object id and advances that counter. It pushes a new object carrying that id, the given name or "Unnamed Object #{id}", and the builder's parent, offsets, flag and cell. The object is linked under its window as `register_object` does. The push and the spent id remain even when the window does not exist |
| Session.WindowRecord.AddChild | src/session.rs:76-77 | appends the id to the child list and changes nothing else |
| Session.WindowRecord.AddObject | src/session.rs:118-119 | appends the id to the object list and changes nothing else |
| Session.WindowDirect | src/session.rs:87-101 | succeeds exactly when id < len, with `windows[id]`. Otherwise the message is "invalid window_id {id}, max is {len-1}" |
| Session.ObjectDirect | src/session.rs:137-149 | succeeds exactly when id < len, with `objects[id]`. Otherwise the message is "invalid object_id {id}, max is {len-1}" |
| Session.PushWindow | src/session.rs:72-79 | the arena always grows by one, with the window last. It fails exactly when the parent id is not below the new length, and then nothing else changes. On success it returns the window's id, appends that id to the parent's child list, and changes no other window |
| Session.Session.RegisterWindow | src/session.rs:72-79 | the result and the new window arena are `PushWindow` of the old one |
| Session.Session.Window | src/session.rs:81-84 | succeeds exactly when id < the number of windows, with that window. Otherwise the message is "invalid window_id {id}, max is {len-1}" |
| Session.LinkObject | src/session.rs:114-121 | fails exactly when the window id is not a valid index, and no window changes then. On success it returns the object id, appends it to that window's object list only, and the arena keeps its length |
| Session.Session.RegisterObject | src/session.rs:114-121 | the object is always appended to the object arena, and the windows change as `LinkObject` says |
| Session.Session.Object | src/session.rs:123-135 | succeeds exactly when id < the number of objects, with that object. Otherwise the message is "invalid object_id {id}, max is {len-1}" |
| Session.RegisterKeepsIdsAreIndices | src/session.rs:73-75 | if every window's id is its index and the new window's id is the arena length, this stays so whether or not registration succeeds |
| Session.LinkKeepsIdsAreIndices | src/session.rs:114-121 | registering an object keeps every window's id equal to its index |
| Session.LookupFindsThatId | src/session.rs:91-93 | while ids equal indices, looking up an id finds the window with that id |
| Session.SelfParentIsOwnChild | src/session.rs:75-77 | a window whose parent id is its own new index is accepted and becomes its own child |
| Session.SystemWindowRegisters | src/session.rs:49-54 | the System Window (id 0, parent 0) registered into an empty arena yields exactly one window, which is its own child |
| Session.Session.Empty | src/session.rs:42-47 | both arenas and the child list are empty, and the terminal is the given one |
| Session.Session.NewInner | src/session.rs:35-56 | fails with "Session::new() may only be invoked once per executable lifetime" exactly when a window id was already handed out. Otherwise the session holds exactly one window (id 0, its own child) and no objects, and the window counter is 1 |
| Session.Session.Render | src/session.rs:152-162 | the back buffer becomes the composited one whether or not compositing failed. A failed composite is returned and nothing is drawn. Otherwise the result is max_col * max_row and the output grows by the frame log of the composited buffer |

## Left out

- Raw mode, terminal probing, `OmmaTerm::new` and both `Drop` impls are left out. They are calls into the operating system: `isatty`, `tcgetattr`, `tcsetattr`, `cfmakeraw` and `ioctl(TIOCGWINSZ)`.
- Likewise `Session::new`, which needs a real terminal.
- `read_key` is left out, in both `OmmaTerm` and `Session`: it is a blocking read from standard input.
- Term.ParseCup: it is the canonical reading only. Omitted parameters, which ECMA-48 lets default to 1 (ESC [ H, ESC [ ; 5 H), and leading zeros are not read, so `CupUnique` speaks of canonical spellings only.
- Write and flush failures on standard output are not modelled; every write succeeds. So `RenderCellAt` fails only on a bad position.
- `fgcode` and `bgcode` are not defined in `src/cell.rs`. The colour prefix of a written cell is therefore folded into `CellText(cell)`.
- `Window::blit`, `WindowBuilder`, `add_child` and `add_object` are not in `src/window.rs`, which is a five-field stub. So the following are approximated:
  - The session's windows are modelled by the four members the session uses.
  - Compositing in `Session::render` is not modelled. Its outcome is the parameter `rootBlit`, and the back buffer it leaves (possibly changed part-way before a failure) is the parameter `composited`.
  - The System Window is registered with parent 0, on the assumption that a builder's parent defaults to 0, as `ObjectBuilder`'s does. Its name ("System Window") and its virtual flag live in the builder and are not modelled.
- `Session::new_window`, `submit_window`, `new_object` and `submit_object` are not modelled as members. They only construct or forward to a builder. `new_object` is `Objects.NewBuilder`, and `submit_object` is `ObjectSubmit.Submit`.
- `default_headless` and `new_headless` are not modelled as members. They are `OmmaTerm.NewMock` followed by `NewInner`.
- The getters of `Object`, `IdCounters` (`current_window_id`, `current_object_id`), `OmmaBorder`, `OmmaPad` and `Window` are modelled as reads of the fields or datatype components they return. They have no contract of their own.
- `Session.children` is kept as a field but is never read or written after construction, as in the source.
- `BOX_HOLLOW_BORDER` is left out: the cells it names (`BOX_HORIZ_HOLLOW_CELL` and the others) are not defined in `src/cell.rs`.
- `OmmaErr` is not modelled beyond its message, and neither is its `Display`. `src/error.rs` is not part of this model.
- `src/main.rs`, `src/plane.rs` and `src/ommacell.rs` are left out. The demo driver only calls the modelled API. The other two are not declared in `src/lib.rs` and call functions that do not exist.
- The tests under `tests/` are left out: they target APIs that are no longer present.
- The counters are atomics with relaxed ordering. Only sequential use is modelled, and under it the wrap check is dead code. Under concurrent calls the two reads could differ, and this model says nothing about that case.
- Objects.Object.Blit: its offsets and the parent position are unbounded naturals. A `usize` overflow in `offset_x + parent_x` would panic in a debug build; that is not modelled.
- Panics become preconditions:
  - `put_cell_at` reads `back[0]`, so `PutCellAt`, and `Blit` of a visible object with a cell, require a terminal with at least one column.
  - `move_cursor` subtracts 1 from both dimensions in its error message, so `MoveCursor` and `RenderCellAt` require both to be positive.
  - `window_direct`'s message subtracts 1 from the arena length, so `WindowDirect`, `Session.Window`, `LinkObject` and `RegisterObject` require a non-empty window arena.
  - `object` and `object_direct` subtract 1 from the object arena's length in their messages (src/session.rs:132, src/session.rs:146), so `Session.Object` and `ObjectDirect` require a non-empty object arena.
  - `render` indexes `windows[0]`, so `Session.Render` requires it to exist.
