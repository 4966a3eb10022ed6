/** Value types shared by the terminal emulator (TerminalTypes.hpp). */
module TerminalTypes {

  datatype Color =
    | Default | Black | Red | Green | Yellow | Blue | Magenta | Cyan | White
    | BrightBlack | BrightRed | BrightGreen | BrightYellow
    | BrightBlue | BrightMagenta | BrightCyan | BrightWhite

  datatype Rendition = Rendition(
    foreground: Color, background: Color,
    bold: bool, faint: bool, italic: bool, underline: bool, blink: bool, inverse: bool)

  const PLAIN := Rendition(Default, Default, false, false, false, false, false, false)

  datatype Cell = Cell(codepoint: nat, rendition: Rendition)

  type Row = seq<Cell>

  /** 0-based position. */
  datatype Cursor = Cursor(row: int, column: int)

  const HOME := Cursor(0, 0)

  datatype Modes = Modes(
    autoWrap: bool, originMode: bool, lineFeedNewLine: bool,
    cursorVisible: bool, applicationCursorKeys: bool, applicationKeypad: bool)

  const POWER_ON_MODES := Modes(true, false, false, true, false, false)

  const SPACE: nat := 0x20
  const MAX_HISTORY: nat := 1000
  const TAB_INTERVAL: nat := 8

  function Min(a: int, b: int): int { if a < b then a else b }

  function Max(a: int, b: int): int { if a < b then b else a }

  function Clamp(x: int, lo: int, hi: int): int { if x < lo then lo else if x > hi then hi else x }
}
