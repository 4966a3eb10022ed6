/** The screen buffer as a value, with every operation in closed form.
    The class in TerminalScreen.dfy is proved to compute these functions in place. */
module ScreenModel {
  import opened TerminalTypes

  datatype Screen = Screen(
    rows: int, cols: int, grid: seq<Row>,
    cursor: Cursor, savedCursor: Cursor,
    rendition: Rendition, savedRendition: Rendition,
    tabStops: seq<bool>, top: int, bottom: int,
    pendingWrap: bool, modes: Modes, history: seq<Row>)
  {
    /** What every operation keeps. A deferred wrap is only ever held in the last column. */
    predicate Valid() {
      && rows > 0 && cols > 0
      && RowsOf(grid, rows, cols)
      && Inside(cursor) && Inside(savedCursor)
      && 0 <= top <= bottom < rows
      && (rows > 1 ==> top < bottom)
      && (pendingWrap ==> cursor.column == cols - 1)
      && |tabStops| == cols
      && |history| <= MAX_HISTORY
      && RowsOf(history, |history|, cols)
    }

    predicate Inside(c: Cursor) {
      0 <= c.row < rows && 0 <= c.column < cols
    }

    /** Screen dimensions never change. */
    predicate SameSize(other: Screen) {
      rows == other.rows && cols == other.cols
    }
  }

  predicate RowsOf(g: seq<Row>, n: int, cols: int) {
    |g| == n && forall r | 0 <= r < |g| :: |g[r]| == cols
  }

  function BlankRow(cols: nat, rendition: Rendition): Row {
    seq(cols, _ => Cell(SPACE, rendition))
  }

  function BlankRows(n: nat, cols: nat, rendition: Rendition): (g: seq<Row>)
    ensures RowsOf(g, n, cols)
  {
    seq(n, _ => BlankRow(cols, rendition))
  }

  /** The newest MAX_HISTORY rows. */
  function Newest(h: seq<Row>): seq<Row> {
    if |h| > MAX_HISTORY then h[|h| - MAX_HISTORY..] else h
  }

  /** Power-on state. */
  function Initial(rows: int, cols: int): (s: Screen)
    requires rows > 0 && cols > 0
    ensures s.Valid() && s.rows == rows && s.cols == cols
  {
    Screen(rows, cols, BlankRows(rows, cols, PLAIN), HOME, HOME, PLAIN, PLAIN,
           seq(cols, c => c > 0 && c % TAB_INTERVAL == 0),
           0, rows - 1, false, POWER_ON_MODES, [])
  }

  function RegionClamp(s: Screen, n: int): (k: int)
    requires s.Valid()
    ensures 1 <= k <= s.bottom - s.top + 1
  {
    Clamp(n, 1, s.bottom - s.top + 1)
  }

  /** Shift the rows of the region up by n, blank rows entering at the bottom; rows leaving a
      full-screen region go to the history. */
  function ScrollUp(s: Screen, n: int): (r: Screen)
    requires s.Valid()
    ensures r.Valid() && r.SameSize(s)
  {
    var k := RegionClamp(s, n);
    var full := s.top == 0 && s.bottom == s.rows - 1;
    s.(grid := s.grid[..s.top] + s.grid[s.top + k..s.bottom + 1]
               + BlankRows(k, s.cols, s.rendition) + s.grid[s.bottom + 1..],
       history := if full then Newest(s.history + s.grid[s.top..s.top + k]) else s.history)
  }

  /** Shift the rows of the region down by n, blank rows entering at the top. */
  function ScrollDown(s: Screen, n: int): (r: Screen)
    requires s.Valid()
    ensures r.Valid() && r.SameSize(s)
  {
    var k := RegionClamp(s, n);
    s.(grid := s.grid[..s.top] + BlankRows(k, s.cols, s.rendition)
               + s.grid[s.top..s.bottom + 1 - k] + s.grid[s.bottom + 1..])
  }

  function CarriageReturn(s: Screen): (r: Screen)
    requires s.Valid()
    ensures r.Valid() && r.SameSize(s)
  {
    s.(cursor := s.cursor.(column := 0), pendingWrap := false)
  }

  function Index(s: Screen): (r: Screen)
    requires s.Valid()
    ensures r.Valid() && r.SameSize(s)
  {
    if s.cursor.row == s.bottom then
      ScrollUp(s.(pendingWrap := false), 1)
    else
      s.(cursor := s.cursor.(row := Min(s.cursor.row + 1, s.rows - 1)), pendingWrap := false)
  }

  function ReverseIndex(s: Screen): (r: Screen)
    requires s.Valid()
    ensures r.Valid() && r.SameSize(s)
  {
    if s.cursor.row == s.top then
      ScrollDown(s.(pendingWrap := false), 1)
    else
      s.(cursor := s.cursor.(row := Max(s.cursor.row - 1, 0)), pendingWrap := false)
  }

  function NextLine(s: Screen): (r: Screen)
    requires s.Valid()
    ensures r.Valid() && r.SameSize(s)
  {
    CarriageReturn(Index(s))
  }

  function LineFeed(s: Screen): (r: Screen)
    requires s.Valid()
    ensures r.Valid() && r.SameSize(s)
  {
    if s.modes.lineFeedNewLine then NextLine(s) else Index(s)
  }

  /** Carry out a wrap that was deferred in the last column. */
  function ResolveWrap(s: Screen): (r: Screen)
    requires s.Valid()
    ensures r.Valid() && r.SameSize(s) && !r.pendingWrap
    ensures r.modes == s.modes && r.rendition == s.rendition
  {
    if s.pendingWrap && s.modes.autoWrap then Index(CarriageReturn(s)) else s.(pendingWrap := false)
  }

  function SetCell(g: seq<Row>, row: int, column: int, cell: Cell): (r: seq<Row>)
    requires 0 <= row < |g| && 0 <= column < |g[row]|
    ensures |r| == |g|
    ensures forall i | 0 <= i < |g| :: |r[i]| == |g[i]|
  {
    g[row := g[row][column := cell]]
  }

  /** Put a character at the cursor; the cursor never leaves the row, a wrap is deferred. */
  function Write(s: Screen, ch: nat): (r: Screen)
    requires s.Valid()
    ensures r.Valid() && r.SameSize(s)
  {
    var w := ResolveWrap(s);
    var atEnd := w.cursor.column == w.cols - 1;
    w.(grid := SetCell(w.grid, w.cursor.row, w.cursor.column, Cell(ch, w.rendition)),
       cursor := w.cursor.(column := if atEnd then w.cols - 1 else w.cursor.column + 1),
       pendingWrap := atEnd && w.modes.autoWrap)
  }

  function Backspace(s: Screen): (r: Screen)
    requires s.Valid()
    ensures r.Valid() && r.SameSize(s)
  {
    s.(cursor := s.cursor.(column := Max(s.cursor.column - 1, 0)), pendingWrap := false)
  }

  /** The nearest tab stop at or after column c, else the last column. */
  function NextStop(stops: seq<bool>, c: nat): (r: nat)
    requires 0 < |stops|
    ensures r < |stops|
    ensures c < |stops| ==> c <= r
    ensures forall k | c <= k < r :: !stops[k]
    ensures c < |stops| && r < |stops| - 1 ==> stops[r]
    decreases |stops| - c
  {
    if c >= |stops| then |stops| - 1
    else if stops[c] then c
    else NextStop(stops, c + 1)
  }

  function HorizontalTab(s: Screen): (r: Screen)
    requires s.Valid()
    ensures r.Valid() && r.SameSize(s)
  {
    s.(cursor := s.cursor.(column := NextStop(s.tabStops, s.cursor.column + 1)), pendingWrap := false)
  }

  function SetTab(s: Screen, on: bool): (r: Screen)
    requires s.Valid()
    ensures r.Valid() && r.SameSize(s)
  {
    s.(tabStops := s.tabStops[s.cursor.column := on])
  }

  function ClearAllTabs(s: Screen): (r: Screen)
    requires s.Valid()
    ensures r.Valid() && r.SameSize(s)
  {
    s.(tabStops := seq(s.cols, _ => false))
  }

  /** Every cursor movement drops a deferred wrap. */
  function At(s: Screen, row: int, column: int): (r: Screen)
    requires s.Valid() && s.Inside(Cursor(row, column))
    ensures r.Valid() && r.SameSize(s)
  {
    s.(cursor := Cursor(row, column), pendingWrap := false)
  }

  function Up(s: Screen, n: int): (r: Screen)
    requires s.Valid()
    ensures r.Valid() && r.SameSize(s)
  {
    At(s, Max(s.top, s.cursor.row - Max(n, 1)), s.cursor.column)
  }

  function Down(s: Screen, n: int): (r: Screen)
    requires s.Valid()
    ensures r.Valid() && r.SameSize(s)
  {
    At(s, Min(s.bottom, s.cursor.row + Max(n, 1)), s.cursor.column)
  }

  function Forward(s: Screen, n: int): (r: Screen)
    requires s.Valid()
    ensures r.Valid() && r.SameSize(s)
  {
    At(s, s.cursor.row, Min(s.cols - 1, s.cursor.column + Max(n, 1)))
  }

  function Backward(s: Screen, n: int): (r: Screen)
    requires s.Valid()
    ensures r.Valid() && r.SameSize(s)
  {
    At(s, s.cursor.row, Max(0, s.cursor.column - Max(n, 1)))
  }

  /** 1-based target, clamped to the screen. */
  function MoveTo(s: Screen, row: int, column: int): (r: Screen)
    requires s.Valid()
    ensures r.Valid() && r.SameSize(s)
  {
    At(s, Clamp(row, 1, s.rows) - 1, Clamp(column, 1, s.cols) - 1)
  }

  function MoveToColumn(s: Screen, column: int): (r: Screen)
    requires s.Valid()
    ensures r.Valid() && r.SameSize(s)
  {
    At(s, s.cursor.row, Clamp(column, 1, s.cols) - 1)
  }

  function Save(s: Screen): (r: Screen)
    requires s.Valid()
    ensures r.Valid() && r.SameSize(s)
  {
    s.(savedCursor := s.cursor, savedRendition := s.rendition)
  }

  function Restore(s: Screen): (r: Screen)
    requires s.Valid()
    ensures r.Valid() && r.SameSize(s)
  {
    s.(cursor := s.savedCursor, rendition := s.savedRendition, pendingWrap := false)
  }

  /** Which cells an erase in display covers, in reading order relative to the cursor. */
  predicate ErasedInDisplay(mode: int, c: Cursor, row: int, column: int) {
    match mode
    case 0 => row > c.row || (row == c.row && column >= c.column)
    case 1 => row < c.row || (row == c.row && column <= c.column)
    case 2 => true
    case 3 => true
    case _ => false
  }

  predicate ErasedInLine(mode: int, c: Cursor, row: int, column: int) {
    row == c.row && match mode
                    case 0 => column >= c.column
                    case 1 => column <= c.column
                    case 2 => true
                    case _ => false
  }

  /** Blank the cells a predicate selects, leave the others. */
  function EraseWhere(g: seq<Row>, blank: Cell, covers: (int, int) -> bool): (r: seq<Row>)
    ensures |r| == |g|
    ensures forall i | 0 <= i < |g| :: |r[i]| == |g[i]|
    ensures forall i, j | 0 <= i < |g| && 0 <= j < |g[i]| ::
              r[i][j] == if covers(i, j) then blank else g[i][j]
  {
    seq(|g|, i requires 0 <= i < |g| =>
      seq(|g[i]|, j requires 0 <= j < |g[i]| => if covers(i, j) then blank else g[i][j]))
  }

  function EraseInDisplay(s: Screen, mode: int): (r: Screen)
    requires s.Valid()
    ensures r.Valid() && r.SameSize(s)
  {
    s.(grid := EraseWhere(s.grid, Cell(SPACE, s.rendition),
                          (i, j) => ErasedInDisplay(mode, s.cursor, i, j)),
       pendingWrap := false,
       history := if mode == 3 then [] else s.history)
  }

  function EraseInLine(s: Screen, mode: int): (r: Screen)
    requires s.Valid()
    ensures r.Valid() && r.SameSize(s)
  {
    s.(grid := EraseWhere(s.grid, Cell(SPACE, s.rendition),
                          (i, j) => ErasedInLine(mode, s.cursor, i, j)),
       pendingWrap := false)
  }

  /** 1-based inclusive margins; an empty or reversed region selects the whole screen. */
  function SetScrollRegion(s: Screen, top: int, bottom: int): (r: Screen)
    requires s.Valid()
    ensures r.Valid() && r.SameSize(s)
  {
    var t := Max(top, 1);
    var b := if 1 <= bottom <= s.rows then bottom else s.rows;
    if t < b then s.(top := t - 1, bottom := b - 1, cursor := Cursor(t - 1, 0), pendingWrap := false)
    else s.(top := 0, bottom := s.rows - 1, cursor := HOME, pendingWrap := false)
  }

  /** The alignment pattern: every cell an E in the current rendition, cursor home. */
  function AlignmentPattern(s: Screen): (r: Screen)
    requires s.Valid()
    ensures r.Valid() && r.SameSize(s)
  {
    s.(grid := seq(s.rows, _ => seq(s.cols, _ => Cell('E' as nat, s.rendition))),
       cursor := HOME, pendingWrap := false)
  }

  // ---------------------------------------------------------------------------
  // What scrolling means, row by row
  // ---------------------------------------------------------------------------

  /** Scrolling a region by n is the pure shift with blank fill and leaves the rows outside alone. */
  lemma ScrollUpRows(s: Screen, n: int, i: int)
    requires s.Valid() && 0 <= i < s.rows
    ensures var k := Clamp(n, 1, s.bottom - s.top + 1);
            ScrollUp(s, n).grid[i] ==
              if i < s.top || s.bottom < i then s.grid[i]
              else if i + k <= s.bottom then s.grid[i + k]
              else BlankRow(s.cols, s.rendition)
  {
  }

  lemma ScrollDownRows(s: Screen, n: int, i: int)
    requires s.Valid() && 0 <= i < s.rows
    ensures var k := Clamp(n, 1, s.bottom - s.top + 1);
            ScrollDown(s, n).grid[i] ==
              if i < s.top || s.bottom < i then s.grid[i]
              else if s.top <= i - k then s.grid[i - k]
              else BlankRow(s.cols, s.rendition)
  {
  }

  lemma NewestTwice(h: seq<Row>, x: seq<Row>, y: seq<Row>)
    ensures Newest(Newest(h + x) + y) == Newest(h + x + y)
  {
    if |h + x| > MAX_HISTORY {
      assert (h + x)[|h + x| - MAX_HISTORY..] + y == (h + x + y)[|h + x| - MAX_HISTORY..];
    }
  }

  /** One more row. */
  lemma NewestSnoc(h: seq<Row>, row: Row)
    ensures Newest(Newest(h) + [row]) == Newest(h + [row])
  {
    NewestTwice([], h, [row]);
    assert [] + h == h;
  }

  lemma ScrollUpStepGrid(s: Screen, n: int)
    requires s.Valid() && 1 <= n < s.bottom - s.top + 1
    ensures ScrollUp(ScrollUp(s, n), 1).grid == ScrollUp(s, n + 1).grid
  {
    var g, h := ScrollUp(ScrollUp(s, n), 1).grid, ScrollUp(s, n + 1).grid;
    forall i | 0 <= i < s.rows ensures g[i] == h[i] {
      ScrollUpStepRow(s, n, i);
    }
    assert g == h;
  }

  lemma ScrollUpStepRow(s: Screen, n: int, i: int)
    requires s.Valid() && 1 <= n < s.bottom - s.top + 1 && 0 <= i < s.rows
    ensures ScrollUp(ScrollUp(s, n), 1).grid[i] == ScrollUp(s, n + 1).grid[i]
  {
    ScrollUpRows(ScrollUp(s, n), 1, i);
    ScrollUpRows(s, n + 1, i);
    ScrollUpRows(s, n, i);
    if s.top <= i < s.bottom {
      ScrollUpRows(s, n, i + 1);
    }
  }

  lemma FullHistory(s: Screen, n: int)
    requires s.Valid() && 1 <= n <= s.rows && s.top == 0 && s.bottom == s.rows - 1
    ensures ScrollUp(s, n).history == Newest(s.history + s.grid[..n])
  {
    assert s.grid[0..n] == s.grid[..n];
  }

  lemma ScrollUpStepHistory(s: Screen, n: int)
    requires s.Valid() && 1 <= n < s.bottom - s.top + 1 && s.top == 0 && s.bottom == s.rows - 1
    ensures ScrollUp(ScrollUp(s, n), 1).history == ScrollUp(s, n + 1).history
  {
    var m := ScrollUp(s, n);
    var x, y := s.grid[..n], [s.grid[n]];
    ScrollUpRows(s, n, 0);
    FullHistory(s, n);
    FullHistory(m, 1);
    FullHistory(s, n + 1);
    assert m.grid[..1] == y;
    NewestTwice(s.history, x, y);
    assert s.history + x + y == s.history + s.grid[..n + 1];
  }

  /** Scrolling one row at a time composes to scrolling by the total, history included. */
  lemma ScrollUpStep(s: Screen, n: int)
    requires s.Valid() && 1 <= n < s.bottom - s.top + 1
    ensures ScrollUp(ScrollUp(s, n), 1) == ScrollUp(s, n + 1)
  {
    ScrollUpStepGrid(s, n);
    if s.top == 0 && s.bottom == s.rows - 1 {
      ScrollUpStepHistory(s, n);
    }
  }

  lemma ScrollDownStepRow(s: Screen, n: int, i: int)
    requires s.Valid() && 1 <= n < s.bottom - s.top + 1 && 0 <= i < s.rows
    ensures ScrollDown(ScrollDown(s, n), 1).grid[i] == ScrollDown(s, n + 1).grid[i]
  {
    ScrollDownRows(ScrollDown(s, n), 1, i);
    ScrollDownRows(s, n + 1, i);
    ScrollDownRows(s, n, i);
    if s.top < i <= s.bottom {
      ScrollDownRows(s, n, i - 1);
    }
  }

  lemma ScrollDownStep(s: Screen, n: int)
    requires s.Valid() && 1 <= n < s.bottom - s.top + 1
    ensures ScrollDown(ScrollDown(s, n), 1) == ScrollDown(s, n + 1)
  {
    var g, h := ScrollDown(ScrollDown(s, n), 1).grid, ScrollDown(s, n + 1).grid;
    forall i | 0 <= i < s.rows ensures g[i] == h[i] {
      ScrollDownStepRow(s, n, i);
    }
    assert g == h;
  }

  /** One row at a time, as the region scrolls are implemented. */
  function ScrollUpTimes(s: Screen, n: nat): (r: Screen)
    requires s.Valid()
    ensures r.Valid() && r.SameSize(s)
  {
    if n == 0 then s else ScrollUp(ScrollUpTimes(s, n - 1), 1)
  }

  function ScrollDownTimes(s: Screen, n: nat): (r: Screen)
    requires s.Valid()
    ensures r.Valid() && r.SameSize(s)
  {
    if n == 0 then s else ScrollDown(ScrollDownTimes(s, n - 1), 1)
  }

  lemma {:induction false} ScrollUpTotal(s: Screen, n: int)
    requires s.Valid() && 1 <= n <= s.bottom - s.top + 1
    ensures ScrollUpTimes(s, n) == ScrollUp(s, n)
  {
    assert ScrollUpTimes(s, 0) == s;
    if n > 1 {
      ScrollUpTotal(s, n - 1);
      ScrollUpStep(s, n - 1);
    }
  }

  lemma {:induction false} ScrollDownTotal(s: Screen, n: int)
    requires s.Valid() && 1 <= n <= s.bottom - s.top + 1
    ensures ScrollDownTimes(s, n) == ScrollDown(s, n)
  {
    assert ScrollDownTimes(s, 0) == s;
    if n > 1 {
      ScrollDownTotal(s, n - 1);
      ScrollDownStep(s, n - 1);
    }
  }

  lemma ScrollUpInSteps(s: Screen, n: int, k: int)
    requires s.Valid() && k == RegionClamp(s, n)
    ensures ScrollUpTimes(s, k) == ScrollUp(s, n)
  {
    ScrollUpTotal(s, k);
    assert RegionClamp(s, k) == k;
  }

  lemma ScrollDownInSteps(s: Screen, n: int, k: int)
    requires s.Valid() && k == RegionClamp(s, n)
    ensures ScrollDownTimes(s, k) == ScrollDown(s, n)
  {
    ScrollDownTotal(s, k);
    assert RegionClamp(s, k) == k;
  }

  /** Row-by-row characterisations of a one-row scroll, as the in-place loops establish them. */
  lemma ScrollUpOne(s: Screen, g: seq<Row>, h: seq<Row>)
    requires s.Valid() && |g| == s.rows
    requires forall i | 0 <= i < s.rows ::
               g[i] == if i == s.bottom then BlankRow(s.cols, s.rendition)
                       else s.grid[if s.top <= i < s.bottom then i + 1 else i]
    requires h == if s.top == 0 && s.bottom == s.rows - 1 then Newest(s.history + [s.grid[s.top]]) else s.history
    ensures s.(grid := g, history := h) == ScrollUp(s, 1)
  {
    forall i | 0 <= i < s.rows ensures g[i] == ScrollUp(s, 1).grid[i] {
      ScrollUpRows(s, 1, i);
    }
    assert g == ScrollUp(s, 1).grid;
    assert s.grid[s.top..s.top + 1] == [s.grid[s.top]];
  }

  lemma ScrollDownOne(s: Screen, g: seq<Row>)
    requires s.Valid() && |g| == s.rows
    requires forall i | 0 <= i < s.rows ::
               g[i] == if i == s.top then BlankRow(s.cols, s.rendition)
                       else s.grid[if s.top < i <= s.bottom then i - 1 else i]
    ensures s.(grid := g) == ScrollDown(s, 1)
  {
    forall i | 0 <= i < s.rows ensures g[i] == ScrollDown(s, 1).grid[i] {
      ScrollDownRows(s, 1, i);
    }
    assert g == ScrollDown(s, 1).grid;
  }

  /** Cell-by-cell characterisations of the erasures. */
  lemma ErasedDisplay(s: Screen, mode: int, g: seq<Row>)
    requires s.Valid() && RowsOf(g, s.rows, s.cols)
    requires forall i, j | 0 <= i < s.rows && 0 <= j < s.cols ::
               g[i][j] == if ErasedInDisplay(mode, s.cursor, i, j) then Cell(SPACE, s.rendition) else s.grid[i][j]
    ensures s.(grid := g, pendingWrap := false, history := if mode == 3 then [] else s.history)
         == EraseInDisplay(s, mode)
  {
    SameCells(g, EraseInDisplay(s, mode).grid);
  }

  lemma ErasedLine(s: Screen, mode: int, g: seq<Row>)
    requires s.Valid() && RowsOf(g, s.rows, s.cols)
    requires forall i, j | 0 <= i < s.rows && 0 <= j < s.cols ::
               g[i][j] == if ErasedInLine(mode, s.cursor, i, j) then Cell(SPACE, s.rendition) else s.grid[i][j]
    ensures s.(grid := g, pendingWrap := false) == EraseInLine(s, mode)
  {
    SameCells(g, EraseInLine(s, mode).grid);
  }

  /** Grids that agree cell by cell are equal. */
  lemma SameCells(g: seq<Row>, h: seq<Row>)
    requires |g| == |h|
    requires forall i | 0 <= i < |g| :: |g[i]| == |h[i]|
    requires forall i, j | 0 <= i < |g| && 0 <= j < |g[i]| :: g[i][j] == h[i][j]
    ensures g == h
  {
    forall i | 0 <= i < |g| ensures g[i] == h[i] {
    }
  }
}
