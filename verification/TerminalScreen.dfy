/** The screen buffer as it is implemented: fields updated in place, loops over rows and cells. */
module TerminalScreenClass {
  import opened TerminalTypes
  import M = ScreenModel

  class TerminalScreen {
    const rows: int
    const cols: int
    var grid: seq<Row>
    var cursor: Cursor
    var savedCursor: Cursor
    var currentRendition: Rendition
    var savedRendition: Rendition
    var tabStops: seq<bool>
    var scrollTop: int
    var scrollBottom: int
    var pendingWrap: bool
    var modes: Modes
    var history: seq<Row>

    ghost function View(): M.Screen
      reads this
    {
      M.Screen(rows, cols, grid, cursor, savedCursor, currentRendition, savedRendition,
               tabStops, scrollTop, scrollBottom, pendingWrap, modes, history)
    }

    ghost predicate Valid()
      reads this
    {
      View().Valid()
    }

    constructor (rows: int, cols: int)
      ensures View() == M.Initial(if rows > 0 then rows else 24, if cols > 0 then cols else 100)
    {
      this.rows := if rows > 0 then rows else 24;
      this.cols := if cols > 0 then cols else 100;
      grid, cursor, savedCursor, currentRendition, savedRendition := [], HOME, HOME, PLAIN, PLAIN;
      tabStops, scrollTop, scrollBottom, pendingWrap := [], 0, 0, false;
      modes, history := POWER_ON_MODES, [];
      new;
      Reset();
    }

    method Reset()
      requires rows > 0 && cols > 0
      modifies this
      ensures View() == M.Initial(rows, cols)
    {
      currentRendition, savedRendition := PLAIN, PLAIN;
      cursor, savedCursor := HOME, HOME;
      modes := POWER_ON_MODES;
      scrollTop, scrollBottom, pendingWrap := 0, rows - 1, false;
      grid := M.BlankRows(rows, cols, currentRendition);
      SetDefaultTabStops();
      history := [];
    }

    /** A stop at every TAB_INTERVAL-th column but the first. */
    method SetDefaultTabStops()
      requires cols > 0
      modifies this`tabStops
      ensures tabStops == seq(cols, c => c > 0 && c % TAB_INTERVAL == 0)
    {
      tabStops := seq(cols, _ => false);
      var c := TAB_INTERVAL;
      while c < cols
        invariant |tabStops| == cols && c % TAB_INTERVAL == 0 && c > 0
        invariant forall k | 0 <= k < cols :: tabStops[k] == (0 < k < c && k % TAB_INTERVAL == 0)
      {
        tabStops := tabStops[c := true];
        c := c + TAB_INTERVAL;
      }
    }

    method Write(ch: nat)
      requires Valid()
      modifies this
      ensures View() == M.Write(old(View()), ch)
    {
      if pendingWrap && modes.autoWrap {
        CarriageReturn();
        Index();
      }
      pendingWrap := false;
      grid := grid[cursor.row := grid[cursor.row][cursor.column := Cell(ch, currentRendition)]];
      if cursor.column + 1 >= cols {
        pendingWrap := modes.autoWrap;
        cursor := cursor.(column := cols - 1);
      } else {
        cursor := cursor.(column := cursor.column + 1);
      }
    }

    method CarriageReturn()
      requires Valid()
      modifies this
      ensures View() == M.CarriageReturn(old(View()))
    {
      cursor := cursor.(column := 0);
      pendingWrap := false;
    }

    method LineFeed()
      requires Valid()
      modifies this
      ensures View() == M.LineFeed(old(View()))
    {
      Index();
      if modes.lineFeedNewLine {
        CarriageReturn();
      }
    }

    method Backspace()
      requires Valid()
      modifies this
      ensures View() == M.Backspace(old(View()))
    {
      if cursor.column > 0 {
        cursor := cursor.(column := cursor.column - 1);
      }
      pendingWrap := false;
    }

    method HorizontalTab()
      requires Valid()
      modifies this
      ensures View() == M.HorizontalTab(old(View()))
    {
      pendingWrap := false;
      var c := cursor.column + 1;
      while c < cols
        invariant cursor.column < c <= cols
        invariant M.NextStop(tabStops, cursor.column + 1) == M.NextStop(tabStops, c)
        invariant View() == old(View()).(pendingWrap := false)
      {
        if tabStops[c] {
          cursor := cursor.(column := c);
          return;
        }
        c := c + 1;
      }
      cursor := cursor.(column := cols - 1);
    }

    method Index()
      requires Valid()
      modifies this
      ensures View() == M.Index(old(View()))
    {
      pendingWrap := false;
      if cursor.row == scrollBottom {
        ScrollUpInRegion(1);
      } else if cursor.row < rows - 1 {
        cursor := cursor.(row := cursor.row + 1);
      }
    }

    method NextLine()
      requires Valid()
      modifies this
      ensures View() == M.NextLine(old(View()))
    {
      Index();
      CarriageReturn();
    }

    method ReverseIndex()
      requires Valid()
      modifies this
      ensures View() == M.ReverseIndex(old(View()))
    {
      pendingWrap := false;
      if cursor.row == scrollTop {
        ScrollDownInRegion(1);
      } else if cursor.row > 0 {
        cursor := cursor.(row := cursor.row - 1);
      }
    }

    method SetTabHere()
      requires Valid()
      modifies this
      ensures View() == M.SetTab(old(View()), true)
    {
      if 0 <= cursor.column < cols {
        tabStops := tabStops[cursor.column := true];
      }
    }

    method ClearTabHere()
      requires Valid()
      modifies this
      ensures View() == M.SetTab(old(View()), false)
    {
      if 0 <= cursor.column < cols {
        tabStops := tabStops[cursor.column := false];
      }
    }

    method ClearAllTabs()
      requires Valid()
      modifies this
      ensures View() == M.ClearAllTabs(old(View()))
    {
      tabStops := seq(|tabStops|, _ => false);
    }

    method Up(n: int)
      requires Valid()
      modifies this
      ensures View() == M.Up(old(View()), n)
    {
      pendingWrap := false;
      cursor := cursor.(row := Max(scrollTop, cursor.row - if n < 1 then 1 else n));
    }

    method Down(n: int)
      requires Valid()
      modifies this
      ensures View() == M.Down(old(View()), n)
    {
      pendingWrap := false;
      cursor := cursor.(row := Min(scrollBottom, cursor.row + if n < 1 then 1 else n));
    }

    method Forward(n: int)
      requires Valid()
      modifies this
      ensures View() == M.Forward(old(View()), n)
    {
      pendingWrap := false;
      cursor := cursor.(column := Min(cols - 1, cursor.column + if n < 1 then 1 else n));
    }

    method Backward(n: int)
      requires Valid()
      modifies this
      ensures View() == M.Backward(old(View()), n)
    {
      pendingWrap := false;
      cursor := cursor.(column := Max(0, cursor.column - if n < 1 then 1 else n));
    }

    method MoveTo(row: int, column: int)
      requires Valid()
      modifies this
      ensures View() == M.MoveTo(old(View()), row, column)
    {
      pendingWrap := false;
      cursor := Cursor((if row < 1 then 1 else row) - 1, (if column < 1 then 1 else column) - 1);
      ClampCursor();
    }

    method ClampCursor()
      requires rows > 0 && cols > 0
      modifies this
      ensures View() == old(View()).(cursor := Cursor(Clamp(old(cursor.row), 0, rows - 1),
                                                      Clamp(old(cursor.column), 0, cols - 1)))
    {
      if cursor.row < 0 {
        cursor := cursor.(row := 0);
      }
      if cursor.row >= rows {
        cursor := cursor.(row := rows - 1);
      }
      if cursor.column < 0 {
        cursor := cursor.(column := 0);
      }
      if cursor.column >= cols {
        cursor := cursor.(column := cols - 1);
      }
    }

    method MoveToColumn(column: int)
      requires Valid()
      modifies this
      ensures View() == M.MoveToColumn(old(View()), column)
    {
      pendingWrap := false;
      cursor := cursor.(column := Min(cols - 1, (if column < 1 then 1 else column) - 1));
    }

    method Save()
      requires Valid()
      modifies this
      ensures View() == M.Save(old(View()))
    {
      savedCursor := cursor;
      savedRendition := currentRendition;
    }

    method Restore()
      requires Valid()
      modifies this
      ensures View() == M.Restore(old(View()))
    {
      cursor := savedCursor;
      currentRendition := savedRendition;
      pendingWrap := false;
      ClampCursor();
    }

    method SetRendition(r: Rendition)
      requires Valid()
      modifies this
      ensures View() == old(View()).(rendition := r)
    {
      currentRendition := r;
    }

    method SetModes(m: Modes)
      requires Valid()
      modifies this
      ensures View() == old(View()).(modes := m)
    {
      modes := m;
    }

    /** Blank the cells from..to of one row. */
    method EraseRow(row: int, from: int, to: int)
      requires M.RowsOf(grid, rows, cols) && 0 <= row < rows && 0 <= from && to < cols
      modifies this`grid
      ensures M.RowsOf(grid, rows, cols)
      ensures forall i, j | 0 <= i < rows && 0 <= j < cols ::
                grid[i][j] == if i == row && from <= j <= to then Cell(SPACE, currentRendition)
                              else old(grid)[i][j]
    {
      var c := from;
      while c <= to
        invariant from <= c <= Max(from, to + 1)
        invariant M.RowsOf(grid, rows, cols)
        invariant forall i, j | 0 <= i < rows && 0 <= j < cols ::
                    grid[i][j] == if i == row && from <= j < c then Cell(SPACE, currentRendition)
                                  else old(grid)[i][j]
      {
        grid := grid[row := grid[row][c := Cell(SPACE, currentRendition)]];
        c := c + 1;
      }
    }

    /** Blank the rows lo..hi - 1 whole. */
    method EraseRows(lo: int, hi: int)
      requires M.RowsOf(grid, rows, cols) && 0 <= lo && hi <= rows
      modifies this`grid
      ensures M.RowsOf(grid, rows, cols)
      ensures forall i, j | 0 <= i < rows && 0 <= j < cols ::
                grid[i][j] == if lo <= i < hi then Cell(SPACE, currentRendition) else old(grid)[i][j]
    {
      var r := lo;
      while r < hi
        invariant lo <= r <= Max(lo, hi)
        invariant M.RowsOf(grid, rows, cols)
        invariant forall i, j | 0 <= i < rows && 0 <= j < cols ::
                    grid[i][j] == if lo <= i < r then Cell(SPACE, currentRendition) else old(grid)[i][j]
      {
        EraseRow(r, 0, cols - 1);
        r := r + 1;
      }
    }

    method EraseInDisplay(mode: int)
      requires Valid()
      modifies this
      ensures View() == M.EraseInDisplay(old(View()), mode)
    {
      pendingWrap := false;
      EraseDisplayCells(mode);
      M.ErasedDisplay(old(View()), mode, grid);
      if mode == 3 {
        history := [];
      }
    }

    method EraseDisplayCells(mode: int)
      requires M.RowsOf(grid, rows, cols) && 0 <= cursor.row < rows && 0 <= cursor.column < cols
      modifies this`grid
      ensures M.RowsOf(grid, rows, cols)
      ensures forall i, j | 0 <= i < rows && 0 <= j < cols ::
                grid[i][j] == if M.ErasedInDisplay(mode, cursor, i, j) then Cell(SPACE, currentRendition)
                              else old(grid)[i][j]
    {
      if mode == 0 {
        EraseRow(cursor.row, cursor.column, cols - 1);
        EraseRows(cursor.row + 1, rows);
      } else if mode == 1 {
        EraseRows(0, cursor.row);
        EraseRow(cursor.row, 0, cursor.column);
      } else if mode == 2 || mode == 3 {
        EraseRows(0, rows);
      }
    }

    method EraseInLine(mode: int)
      requires Valid()
      modifies this
      ensures View() == M.EraseInLine(old(View()), mode)
    {
      pendingWrap := false;
      EraseLineCells(mode);
      M.ErasedLine(old(View()), mode, grid);
    }

    method EraseLineCells(mode: int)
      requires M.RowsOf(grid, rows, cols) && 0 <= cursor.row < rows && 0 <= cursor.column < cols
      modifies this`grid
      ensures M.RowsOf(grid, rows, cols)
      ensures forall i, j | 0 <= i < rows && 0 <= j < cols ::
                grid[i][j] == if M.ErasedInLine(mode, cursor, i, j) then Cell(SPACE, currentRendition)
                              else old(grid)[i][j]
    {
      if mode == 0 {
        EraseRow(cursor.row, cursor.column, cols - 1);
      } else if mode == 1 {
        EraseRow(cursor.row, 0, cursor.column);
      } else if mode == 2 {
        EraseRow(cursor.row, 0, cols - 1);
      }
    }

    method SetScrollRegion(top: int, bottom: int)
      requires Valid()
      modifies this
      ensures View() == M.SetScrollRegion(old(View()), top, bottom)
    {
      var t, b := top, bottom;
      if t < 1 {
        t := 1;
      }
      if b < 1 || b > rows {
        b := rows;
      }
      if t >= b {
        t, b := 1, rows;
      }
      scrollTop, scrollBottom := t - 1, b - 1;
      cursor := Cursor(scrollTop, 0);
      pendingWrap := false;
    }

    method ScrollUpInRegion(n: int)
      requires Valid()
      modifies this
      ensures View() == M.ScrollUp(old(View()), n)
    {
      var k := if n < 1 then 1 else n;
      var regionRows := scrollBottom - scrollTop + 1;
      if k > regionRows {
        k := regionRows;
      }
      M.ScrollUpInSteps(View(), n, k);
      ScrollUpRows(k);
    }

    method ScrollUpRows(k: int)
      requires Valid() && k >= 0
      modifies this
      ensures View() == M.ScrollUpTimes(old(View()), k)
    {
      var i := 0;
      while i < k
        invariant 0 <= i <= k && View() == M.ScrollUpTimes(old(View()), i)
      {
        ScrollUpOneRow();
        i := i + 1;
      }
    }

    method ScrollUpOneRow()
      requires Valid()
      modifies this
      ensures View() == M.ScrollUp(old(View()), 1)
    {
      if scrollTop == 0 && scrollBottom == rows - 1 {
        Remember(grid[scrollTop]);
      }
      ghost var kept := history;
      ShiftRowsUp();
      grid := grid[scrollBottom := M.BlankRow(cols, currentRendition)];
      M.ScrollUpOne(old(View()), grid, kept);
    }

    /** Push a row into the history and drop the oldest ones over the limit. */
    method Remember(row: Row)
      modifies this
      ensures View() == old(View()).(history := M.Newest(old(history) + [row]))
    {
      history := history + [row];
      while |history| > MAX_HISTORY
        invariant View() == old(View()).(history := history)
        invariant M.Newest(history) == M.Newest(old(history) + [row])
      {
        history := history[1..];
      }
    }

    /** The inner loop of a one-row scroll: every row of the region but the last takes its successor. */
    method ShiftRowsUp()
      requires |grid| == rows && 0 <= scrollTop <= scrollBottom < rows
      modifies this`grid
      ensures |grid| == rows
      ensures forall i | 0 <= i < rows ::
                grid[i] == old(grid)[if scrollTop <= i < scrollBottom then i + 1 else i]
    {
      var r := scrollTop;
      while r < scrollBottom
        invariant scrollTop <= r <= scrollBottom
        invariant |grid| == rows
        invariant forall i | scrollTop <= i < r :: grid[i] == old(grid)[i + 1]
        invariant forall i | 0 <= i < rows && !(scrollTop <= i < r) :: grid[i] == old(grid)[i]
      {
        grid := grid[r := grid[r + 1]];
        r := r + 1;
      }
    }

    method ScrollDownInRegion(n: int)
      requires Valid()
      modifies this
      ensures View() == M.ScrollDown(old(View()), n)
    {
      var k := if n < 1 then 1 else n;
      var regionRows := scrollBottom - scrollTop + 1;
      if k > regionRows {
        k := regionRows;
      }
      M.ScrollDownInSteps(View(), n, k);
      ScrollDownRows(k);
    }

    method ScrollDownRows(k: int)
      requires Valid() && k >= 0
      modifies this
      ensures View() == M.ScrollDownTimes(old(View()), k)
    {
      var i := 0;
      while i < k
        invariant 0 <= i <= k && View() == M.ScrollDownTimes(old(View()), i)
      {
        ScrollDownOneRow();
        i := i + 1;
      }
    }

    method ScrollDownOneRow()
      requires Valid()
      modifies this
      ensures View() == M.ScrollDown(old(View()), 1)
    {
      ShiftRowsDown();
      grid := grid[scrollTop := M.BlankRow(cols, currentRendition)];
      M.ScrollDownOne(old(View()), grid);
    }

    /** The other way: every row of the region but the first takes its predecessor. */
    method ShiftRowsDown()
      requires |grid| == rows && 0 <= scrollTop <= scrollBottom < rows
      modifies this`grid
      ensures |grid| == rows
      ensures forall i | 0 <= i < rows ::
                grid[i] == old(grid)[if scrollTop < i <= scrollBottom then i - 1 else i]
    {
      var r := scrollBottom;
      while r > scrollTop
        invariant scrollTop <= r <= scrollBottom
        invariant |grid| == rows
        invariant forall i | r < i <= scrollBottom :: grid[i] == old(grid)[i - 1]
        invariant forall i | 0 <= i < rows && !(r < i <= scrollBottom) :: grid[i] == old(grid)[i]
      {
        grid := grid[r := grid[r - 1]];
        r := r - 1;
      }
    }
  }
}
