/** Cell contents as the text-UI layer hands them to the canvas backend. */
module Style {

  /** Upper bound of a Rust `u16`. */
  const U16Max: int := 0xFFFF

  /** Upper bound of a Rust `u32`. */
  const U32Max: int := 0xFFFF_FFFF

  type u8 = x: int | 0 <= x < 0x100
  type u16 = x: int | 0 <= x <= U16Max

  /** A terminal color: `Reset` is the terminal's default, the rest are palette entries. */
  datatype Color =
    | Reset
    | Black | Red | Green | Yellow | Blue | Magenta | Cyan | Gray
    | DarkGray | LightRed | LightGreen | LightYellow | LightBlue | LightMagenta | LightCyan
    | White
    | Rgb(r: u8, g: u8, b: u8)
    | Indexed(index: u8)

  /** The text attributes a cell may carry. */
  datatype Attribute =
    | Bold | Dim | Italic | Underlined | SlowBlink | RapidBlink | Reversed | Hidden | CrossedOut

  /** One grid cell: its glyph run and its style. */
  datatype Cell = Cell(
    symbol: string,
    fg: Color,
    bg: Color,
    underlineColor: Color,
    modifier: set<Attribute>)

  /** A cell placed at a column and row of the grid, as the draw iterator yields it. */
  datatype Placed = Placed(x: u16, y: u16, cell: Cell)

  /**
   * The textual form of a color that the canvas receives as a fill style.
   * It comes from the text-UI library's own color formatting, so the model
   * takes it as a parameter and assumes nothing about it.
   */
  type ColorNames = Color -> string

  /** Saturating `u16` addition. */
  function SaturatingAdd16(a: u16, b: u16): (r: u16)
    ensures a + b <= U16Max ==> r == a + b
    ensures a + b > U16Max ==> r == U16Max
  {
    if a + b > U16Max then U16Max else a + b
  }

  /**
   * Wrapping `u16` increment, the meaning `p + 1` has without overflow
   * checks; with them, the increment of 65535 panics instead.
   */
  function WrappingSucc16(a: u16): (r: u16)
    ensures a < U16Max ==> r == a + 1
    ensures a == U16Max ==> r == 0
  {
    (a + 1) % (U16Max + 1)
  }
}
