/** The control functions, said of the bytes a terminal receives: what each one does to the cells, the cursor and the
    replies, from any terminal and in the middle of anything. */
module ControlFunctions {
  import opened Basics
  import opened TerminalTypes
  import opened ParserModel
  import opened CsiRoundTrip
  import P = PlainText
  import S = ScreenModel
  import T = TerminalModel

  /** Nothing but the screen has changed, and the next byte is read afresh. */
  predicate OnlyScreen(t: T.Terminal, r: T.Terminal) {
    r.outgoing == t.outgoing && r.attributes == t.attributes && r.parser.state == Ground
  }

  /** A control sequence with these parameters. */
  function Csi(t: T.Terminal, ns: seq<nat>, final: char): (r: T.Terminal)
    requires t.Valid() && '@' <= final <= '~'
    ensures r.Valid() && r.SameSize(t)
  {
    T.Feed(t, Render(false, ns, final as int))
  }

  /** The same with the private marker. */
  function Dec(t: T.Terminal, ns: seq<nat>, final: char): (r: T.Terminal)
    requires t.Valid() && '@' <= final <= '~'
    ensures r.Valid() && r.SameSize(t)
  {
    T.Feed(t, Render(true, ns, final as int))
  }

  /** ESC and one byte. */
  function Esc(t: T.Terminal, final: char): (r: T.Terminal)
    requires t.Valid() && final < 128 as char
    ensures r.Valid() && r.SameSize(t)
  {
    T.Feed(t, [ESC, final as int])
  }

  lemma CsiActs(t: T.Terminal, priv: bool, ns: seq<nat>, final: char)
    requires t.Valid() && '@' <= final <= '~'
    ensures var r := T.Feed(t, Render(priv, ns, final as int));
            && r.screen == T.OnScreenCsi(t.screen, final, ns, priv) && r.attributes == t.attributes
            && r.outgoing == t.outgoing + T.Reply(t, final, ns, priv) && r.parser.state == Ground
  {
    var e := CsiDispatch(final as int, ns, priv, 0);
    RoundTrip(t.parser, priv, ns, final as int);
    T.FeedIsParseThenInterpret(t, Render(priv, ns, final as int));
    assert [e][..0] == [];
    assert T.OnEvents(t, [e]) == T.OnEvent(t, e);
  }

  /** A control sequence that is not answered. */
  lemma CsiOnScreen(t: T.Terminal, priv: bool, ns: seq<nat>, final: char)
    requires t.Valid() && '@' <= final <= '~' && final != 'n' && final != 'c'
    ensures var r := T.Feed(t, Render(priv, ns, final as int));
            r.screen == T.OnScreenCsi(t.screen, final, ns, priv) && OnlyScreen(t, r)
  {
    CsiActs(t, priv, ns, final);
    assert t.outgoing + [] == t.outgoing;
  }

  /** ESC ends whatever the parser was doing. */
  lemma Escapes(p: Parser, b: Byte)
    requires 0x30 <= b <= 0x7E && b != BRACKET && b != BACKSLASH && !OpensString(b)
    ensures Feed(p, [ESC, b]).1 == [EscDispatch(b, 0)] && Feed(p, [ESC, b]).0.state == Ground
  {
    FeedTwo(p, ESC, b);
    var m := Step(p, ESC).0;
    if p.state == OscStringEsc {
      assert Step(p, ESC) == Step(Enter(p, Escape), ESC);
    } else if p.state == OscString {
      assert Step(m, b) == Step(Enter(m, Escape), b);
    }
  }

  lemma EscActs(t: T.Terminal, final: char)
    requires t.Valid() && final in {'D', 'E', 'M', 'H', '7', '8', 'c', '=', '>', 'Z'}
    ensures Esc(t, final) == T.OnEsc(t, final as int, 0).(parser := Esc(t, final).parser)
    ensures Esc(t, final).parser.state == Ground
  {
    var e := EscDispatch(final as int, 0);
    Escapes(t.parser, final as int);
    T.FeedIsParseThenInterpret(t, [ESC, final as int]);
    assert [e][..0] == [];
    assert T.OnEvents(t, [e]) == T.OnEvent(t, e);
  }

  // ---------------------------------------------------------------------------
  // Erasing
  // ---------------------------------------------------------------------------

  /** A cell of the screen after: blank in the present rendition, or as before. */
  ghost predicate Blanked(s: S.Screen, r: S.Screen, row: int, column: int, blank: bool)
    requires s.Valid() && r.Valid() && r.SameSize(s) && 0 <= row < s.rows && 0 <= column < s.cols
  {
    r.grid[row][column] == if blank then Cell(SPACE, s.rendition) else s.grid[row][column]
  }

  /** ESC [ K from the cursor to the end of its row, ESC [ 1 K from the start of the row to the cursor, ESC [ 2 K all
      of it. */
  predicate LineBlank(ns: seq<nat>, c: Cursor, row: int, column: int) {
    && row == c.row
    && if ns == [1] then column <= c.column else ns == [2] || c.column <= column
  }

  /** ESC [ J from the cursor to the end of the screen, ESC [ 1 J from its start to the cursor, ESC [ 2 J and ESC [ 3 J
      all of it. */
  predicate DisplayBlank(ns: seq<nat>, c: Cursor, row: int, column: int) {
    if ns == [1] then row < c.row || (row == c.row && column <= c.column)
    else if ns == [2] || ns == [3] then true
    else c.row < row || (row == c.row && c.column <= column)
  }

  lemma LineCell(s: S.Screen, mode: int, i: int, j: int)
    requires s.Valid() && 0 <= i < s.rows && 0 <= j < s.cols
    ensures Blanked(s, S.EraseInLine(s, mode), i, j, S.ErasedInLine(mode, s.cursor, i, j))
  {
  }

  lemma DisplayCell(s: S.Screen, mode: int, i: int, j: int)
    requires s.Valid() && 0 <= i < s.rows && 0 <= j < s.cols
    ensures Blanked(s, S.EraseInDisplay(s, mode), i, j, S.ErasedInDisplay(mode, s.cursor, i, j))
  {
  }

  lemma LineCells(s: S.Screen, ns: seq<nat>)
    requires s.Valid() && (ns == [] || ns == [0] || ns == [1] || ns == [2])
    ensures forall i, j | 0 <= i < s.rows && 0 <= j < s.cols ::
              Blanked(s, S.EraseInLine(s, T.ParamRaw(ns, 0, 0)), i, j, LineBlank(ns, s.cursor, i, j))
  {
    forall i, j | 0 <= i < s.rows && 0 <= j < s.cols
      ensures Blanked(s, S.EraseInLine(s, T.ParamRaw(ns, 0, 0)), i, j, LineBlank(ns, s.cursor, i, j))
    {
      LineCell(s, T.ParamRaw(ns, 0, 0), i, j);
    }
  }

  /** The cursor stays, no other row changes, and a deferred wrap is dropped. */
  lemma EraseLine(t: T.Terminal, ns: seq<nat>)
    requires t.Valid() && (ns == [] || ns == [0] || ns == [1] || ns == [2])
    ensures var s, r := t.screen, Csi(t, ns, 'K');
            && OnlyScreen(t, r) && r.screen == s.(grid := r.screen.grid, pendingWrap := false)
            && forall i, j | 0 <= i < s.rows && 0 <= j < s.cols ::
                 Blanked(s, r.screen, i, j, LineBlank(ns, s.cursor, i, j))
  {
    CsiOnScreen(t, false, ns, 'K');
    LineCells(t.screen, ns);
  }

  /** The same for the screen; ESC [ 3 J also forgets the history. */
  lemma EraseDisplay(t: T.Terminal, ns: seq<nat>)
    requires t.Valid() && (ns == [] || ns == [0] || ns == [1] || ns == [2] || ns == [3])
    ensures var s, r := t.screen, Csi(t, ns, 'J');
            && OnlyScreen(t, r)
            && r.screen == s.(grid := r.screen.grid, pendingWrap := false,
                              history := if ns == [3] then [] else s.history)
            && forall i, j | 0 <= i < s.rows && 0 <= j < s.cols ::
                 Blanked(s, r.screen, i, j, DisplayBlank(ns, s.cursor, i, j))
  {
    var s, mode := t.screen, T.ParamRaw(ns, 0, 0);
    CsiOnScreen(t, false, ns, 'J');
    forall i, j | 0 <= i < s.rows && 0 <= j < s.cols
      ensures Blanked(s, S.EraseInDisplay(s, mode), i, j, DisplayBlank(ns, s.cursor, i, j))
    {
      DisplayCell(s, mode, i, j);
    }
  }

  /** The characters of a line, sent one by one. */
  function Glyphs(line: seq<Byte>): (text: seq<P.Token>)
    ensures |text| == |line|
  {
    if line == [] then [] else Glyphs(line[..|line| - 1]) + [P.Glyph(line[|line| - 1])]
  }

  lemma GlyphsSnoc(line: seq<Byte>)
    requires line != []
    ensures Glyphs(line)[..|line| - 1] == Glyphs(line[..|line| - 1])
    ensures Glyphs(line)[|line| - 1] == P.Glyph(line[|line| - 1])
  {
  }

  lemma {:induction false} GlyphLine(line: seq<Byte>)
    ensures P.LogicalLines(Glyphs(line)) == [line]
    decreases line
  {
    if line != [] {
      GlyphLine(line[..|line| - 1]);
      GlyphsSnoc(line);
      assert line == line[..|line| - 1] + [line[|line| - 1]];
    }
  }

  lemma {:induction false} GlyphBytes(line: seq<Byte>)
    ensures P.Bytes(Glyphs(line)) == line
    decreases line
  {
    if line != [] {
      GlyphBytes(line[..|line| - 1]);
      GlyphsSnoc(line);
      assert line == line[..|line| - 1] + [line[|line| - 1]];
    }
  }

  lemma {:induction false} GlyphsPlain(line: seq<Byte>)
    requires forall i | 0 <= i < |line| :: P.Printable(line[i])
    ensures P.Plain(Glyphs(line))
    decreases line
  {
    if line != [] {
      GlyphsPlain(line[..|line| - 1]);
      GlyphsSnoc(line);
    }
  }

  /** The line stands in the first row, in plain cells, and nothing anywhere else. */
  ghost predicate Standing(s: S.Screen, line: seq<Byte>) {
    && s.Valid() && s.rendition == PLAIN && s.cursor.row == 0
    && (forall j | 0 <= j < s.cols :: s.grid[0][j] == Cell(if j < |line| then line[j] else SPACE, PLAIN))
    && forall i | 0 < i < s.rows :: s.grid[i] == S.BlankRow(s.cols, PLAIN)
  }

  lemma LaidStands(s: S.Screen, line: seq<Byte>)
    requires P.Laid(s, [line])
    ensures Standing(s, line)
  {
    assert P.Pad([line], s.cols) == [P.PadRow(line, s.cols)];
  }

  /** A line that fits, on a reset terminal. */
  lemma LineStands(t: T.Terminal, rows: int, cols: int, line: seq<Byte>)
    requires rows > 0 && cols > 0 && t.parser.state == Ground && t.screen == S.Initial(rows, cols)
    requires |line| <= cols && forall i | 0 <= i < |line| :: P.Printable(line[i])
    ensures var r := T.Feed(t, line); r == t.(screen := r.screen) && Standing(r.screen, line)
  {
    GlyphLine(line);
    GlyphBytes(line);
    GlyphsPlain(line);
    P.TextLaid(t, rows, cols, Glyphs(line));
    OneRow(line, cols);
    LaidStands(T.Feed(t, line).screen, line);
  }

  lemma OneRow(line: seq<Byte>, cols: nat)
    requires cols > 0 && |line| <= cols
    ensures P.HardWrap([line], cols) == [line]
  {
    var one: seq<seq<Byte>> := [line];
    assert one[..0] == [];
  }

  lemma ToColumn(t: T.Terminal, line: seq<Byte>, k: nat)
    requires Standing(t.screen, line) && 1 <= k <= t.screen.cols
    ensures var r := Csi(t, [k], 'G');
            OnlyScreen(t, r) && Standing(r.screen, line) && r.screen.cursor == Cursor(0, k - 1)
  {
    CsiOnScreen(t, false, [k], 'G');
  }

  lemma BlankedRow(s: S.Screen, r: S.Screen, i: int)
    requires s.Valid() && r.Valid() && r.SameSize(s) && 0 <= i < s.rows
    requires forall j | 0 <= j < s.cols :: Blanked(s, r, i, j, false)
    ensures r.grid[i] == s.grid[i]
  {
    forall j | 0 <= j < s.cols ensures r.grid[i][j] == s.grid[i][j] {
      assert Blanked(s, r, i, j, false);
    }
  }

  /** What is left of a line when the cursor is in column k. */
  predicate Left(ns: seq<nat>, k: nat, j: int) {
    if ns == [1] then k <= j else ns != [2] && j < k - 1
  }

  lemma LeftInLine(s: S.Screen, r: S.Screen, line: seq<Byte>, k: nat, ns: seq<nat>)
    requires Standing(s, line) && r.Valid() && r.SameSize(s) && k >= 1 && s.cursor == Cursor(0, k - 1)
    requires forall i, j | 0 <= i < s.rows && 0 <= j < s.cols :: Blanked(s, r, i, j, LineBlank(ns, s.cursor, i, j))
    ensures forall i | 0 < i < s.rows :: r.grid[i] == S.BlankRow(s.cols, PLAIN)
    ensures forall j | 0 <= j < s.cols ::
              r.grid[0][j] == Cell(if j < |line| && Left(ns, k, j) then line[j] else SPACE, PLAIN)
  {
    forall i | 0 < i < s.rows ensures r.grid[i] == S.BlankRow(s.cols, PLAIN) {
      forall j | 0 <= j < s.cols ensures Blanked(s, r, i, j, false) {
        assert !LineBlank(ns, s.cursor, i, j);
      }
      BlankedRow(s, r, i);
    }
    forall j | 0 <= j < s.cols
      ensures r.grid[0][j] == Cell(if j < |line| && Left(ns, k, j) then line[j] else SPACE, PLAIN)
    {
      assert Blanked(s, r, 0, j, LineBlank(ns, s.cursor, 0, j));
    }
  }

  /** A line, a move to column k, and ESC [ K: what stood before column k is left; ESC [ 1 K: what stood after it;
      ESC [ 2 K: nothing. */
  lemma EraseInText(t: T.Terminal, rows: int, cols: int, line: seq<Byte>, k: nat, ns: seq<nat>)
    requires rows > 0 && cols > 0 && t.parser.state == Ground && t.screen == S.Initial(rows, cols)
    requires |line| <= cols && forall i | 0 <= i < |line| :: P.Printable(line[i])
    requires 1 <= k <= cols && (ns == [] || ns == [0] || ns == [1] || ns == [2])
    ensures var r := Csi(Csi(T.Feed(t, line), [k], 'G'), ns, 'K');
            && r.screen.cursor == Cursor(0, k - 1) && r.outgoing == t.outgoing
            && (forall i | 0 < i < rows :: r.screen.grid[i] == S.BlankRow(cols, PLAIN))
            && forall j | 0 <= j < cols ::
                 r.screen.grid[0][j] == Cell(if j < |line| && Left(ns, k, j) then line[j] else SPACE, PLAIN)
  {
    var u := T.Feed(t, line);
    LineStands(t, rows, cols, line);
    ToColumn(u, line, k);
    var v := Csi(u, [k], 'G');
    EraseLine(v, ns);
    LeftInLine(v.screen, Csi(v, ns, 'K').screen, line, k, ns);
  }

  // ---------------------------------------------------------------------------
  // Moving the cursor
  // ---------------------------------------------------------------------------

  /** How far: a missing or zero number counts as one. */
  function Count(ns: seq<nat>): nat {
    if ns == [] || ns[0] == 0 then 1 else ns[0]
  }

  /** Only the cursor has moved, which drops a deferred wrap. */
  predicate Moved(t: T.Terminal, r: T.Terminal, row: int, column: int) {
    OnlyScreen(t, r) && r.screen == t.screen.(cursor := Cursor(row, column), pendingWrap := false)
  }

  /** ESC [ n A and ESC [ n B move up and down as far as the margins of the scrolling region. */
  lemma MoveVertically(t: T.Terminal, ns: seq<nat>)
    requires t.Valid()
    ensures var s, n := t.screen, Count(ns);
            && Moved(t, Csi(t, ns, 'A'), if s.cursor.row - n < s.top then s.top else s.cursor.row - n, s.cursor.column)
            && Moved(t, Csi(t, ns, 'B'), if s.cursor.row + n > s.bottom then s.bottom else s.cursor.row + n,
                     s.cursor.column)
  {
    CsiOnScreen(t, false, ns, 'A');
    CsiOnScreen(t, false, ns, 'B');
  }

  /** ESC [ n C and ESC [ n D move right and left as far as the screen goes. */
  lemma MoveHorizontally(t: T.Terminal, ns: seq<nat>)
    requires t.Valid()
    ensures var s, n := t.screen, Count(ns);
            && Moved(t, Csi(t, ns, 'C'), s.cursor.row,
                     if s.cursor.column + n >= s.cols then s.cols - 1 else s.cursor.column + n)
            && Moved(t, Csi(t, ns, 'D'), s.cursor.row, if s.cursor.column < n then 0 else s.cursor.column - n)
  {
    CsiOnScreen(t, false, ns, 'C');
    CsiOnScreen(t, false, ns, 'D');
  }

  /** ESC [ n E and ESC [ n F move down and up to the start of a row. */
  lemma MoveToLine(t: T.Terminal, ns: seq<nat>)
    requires t.Valid()
    ensures var s, n := t.screen, Count(ns);
            && Moved(t, Csi(t, ns, 'E'), if s.cursor.row + n > s.bottom then s.bottom else s.cursor.row + n, 0)
            && Moved(t, Csi(t, ns, 'F'), if s.cursor.row - n < s.top then s.top else s.cursor.row - n, 0)
  {
    CsiOnScreen(t, false, ns, 'E');
    CsiOnScreen(t, false, ns, 'F');
  }

  /** ESC [ n G moves within the row, to a column counted from one. */
  lemma MoveInLine(t: T.Terminal, ns: seq<nat>)
    requires t.Valid()
    ensures var s, n := t.screen, Count(ns);
            Moved(t, Csi(t, ns, 'G'), s.cursor.row, if n > s.cols then s.cols - 1 else n - 1)
  {
    CsiOnScreen(t, false, ns, 'G');
  }

  /** ESC [ row ; column H, and f, go to a place counted from one, and to the last row or column beyond it. */
  lemma MoveToPlace(t: T.Terminal, row: nat, column: nat, final: char)
    requires t.Valid() && (final == 'H' || final == 'f')
    ensures var s := t.screen;
            Moved(t, Csi(t, [row, column], final),
                  if row == 0 then 0 else if row > s.rows then s.rows - 1 else row - 1,
                  if column == 0 then 0 else if column > s.cols then s.cols - 1 else column - 1)
  {
    CsiOnScreen(t, false, [row, column], final);
  }

  /** Where there is room, the opposite move comes back. */
  lemma ThereAndBack(t: T.Terminal, n: nat)
    requires t.Valid() && n >= 1
    ensures var s := t.screen;
            && (s.cursor.column + n < s.cols ==> Csi(Csi(t, [n], 'C'), [n], 'D').screen.cursor == s.cursor)
            && (s.top <= s.cursor.row && s.cursor.row + n <= s.bottom ==>
                  Csi(Csi(t, [n], 'B'), [n], 'A').screen.cursor == s.cursor)
  {
    MoveHorizontally(t, [n]);
    MoveHorizontally(Csi(t, [n], 'C'), [n]);
    MoveVertically(t, [n]);
    MoveVertically(Csi(t, [n], 'B'), [n]);
  }

  // ---------------------------------------------------------------------------
  // Saving and restoring the cursor
  // ---------------------------------------------------------------------------

  predicate Saves(e: Event) {
    match e
    case EscDispatch(final, intermediate) => intermediate == 0 && (final == '7' as int || final == 'c' as int)
    case CsiDispatch(final, _, _, intermediate) => intermediate == 0 && final == 's' as int
    case _ => false
  }

  predicate SameSaved(r: S.Screen, s: S.Screen) {
    r.savedCursor == s.savedCursor && r.savedRendition == s.savedRendition
  }

  lemma CsiKeepsSaved(s: S.Screen, final: char, ns: seq<nat>, priv: bool)
    requires s.Valid() && final != 's'
    ensures SameSaved(T.OnScreenCsi(s, final, ns, priv), s)
  {
  }

  lemma EscKeepsSaved(t: T.Terminal, final: Byte, intermediate: Byte)
    requires t.Valid() && (intermediate != 0 || (final != '7' as int && final != 'c' as int))
    ensures SameSaved(T.OnEsc(t, final, intermediate).screen, t.screen)
  {
  }

  lemma EventKeepsSaved(t: T.Terminal, e: Event)
    requires t.Valid() && !Saves(e)
    ensures SameSaved(T.OnEvent(t, e).screen, t.screen)
  {
    match e
    case Print(code) =>
    case Execute(code) =>
    case EscDispatch(final, intermediate) => EscKeepsSaved(t, final, intermediate);
    case CsiDispatch(final, ns, priv, intermediate) =>
      if intermediate == 0 {
        CsiKeepsSaved(t.screen, final as char, ns, priv);
      }
    case OscDispatch(payload) =>
  }

  lemma {:induction false} EventsKeepSaved(t: T.Terminal, es: seq<Event>)
    requires t.Valid() && forall i | 0 <= i < |es| :: !Saves(es[i])
    ensures SameSaved(T.OnEvents(t, es).screen, t.screen)
    decreases es
  {
    if es != [] {
      EventsKeepSaved(t, es[..|es| - 1]);
      EventKeepsSaved(T.OnEvents(t, es[..|es| - 1]), es[|es| - 1]);
    }
  }

  lemma SaveSaves(t: T.Terminal)
    requires t.Valid()
    ensures var r := Esc(t, '7');
            OnlyScreen(t, r)
            && r.screen == t.screen.(savedCursor := t.screen.cursor, savedRendition := t.screen.rendition)
  {
    EscActs(t, '7');
  }

  lemma RestoreRestores(t: T.Terminal)
    requires t.Valid()
    ensures var r := Esc(t, '8');
            OnlyScreen(t, r)
            && r.screen == t.screen.(cursor := t.screen.savedCursor, rendition := t.screen.savedRendition,
                                     pendingWrap := false)
  {
    EscActs(t, '8');
  }

  /** ESC 7, any bytes that neither save again nor reset, and ESC 8: the cursor and the rendition are what they were,
      everything else is as the bytes left it. */
  lemma SaveAndRestore(t: T.Terminal, between: seq<Byte>)
    requires t.Valid()
    requires var es := Feed(Esc(t, '7').parser, between).1; forall i | 0 <= i < |es| :: !Saves(es[i])
    ensures var later := T.Feed(Esc(t, '7'), between);
            var back := Esc(later, '8');
            back.screen == later.screen.(cursor := t.screen.cursor, rendition := t.screen.rendition,
                                         pendingWrap := false)
  {
    var u := Esc(t, '7');
    var es := Feed(u.parser, between).1;
    SaveSaves(t);
    T.FeedIsParseThenInterpret(u, between);
    EventsKeepSaved(u, es);
    RestoreRestores(T.Feed(u, between));
  }

  /** ESC [ s and ESC [ u do the same. */
  lemma SaveAlike(t: T.Terminal)
    requires t.Valid()
    ensures Csi(t, [], 's').screen == Esc(t, '7').screen && Csi(t, [], 'u').screen == Esc(t, '8').screen
  {
    CsiOnScreen(t, false, [], 's');
    CsiOnScreen(t, false, [], 'u');
    EscActs(t, '7');
    EscActs(t, '8');
  }

  // ---------------------------------------------------------------------------
  // Rendition
  // ---------------------------------------------------------------------------

  /** A control sequence that only sets the rendition. */
  predicate Renders(t: T.Terminal, ns: seq<nat>, rendition: Rendition)
    requires t.Valid()
  {
    var r := Csi(t, ns, 'm');
    OnlyScreen(t, r) && r.screen == t.screen.(rendition := rendition)
  }

  lemma OneParameter(t: T.Terminal, n: nat)
    requires t.Valid()
    ensures Renders(t, [n], T.ApplySgrParameter(n, t.screen.rendition))
  {
    CsiOnScreen(t, false, [n], 'm');
    assert [n][..0] == [];
    assert T.ApplySgrAll([n], t.screen.rendition) == T.ApplySgrParameter(n, t.screen.rendition);
  }

  /** The attributes that are switched on. */
  lemma AttributesOn(t: T.Terminal)
    requires t.Valid()
    ensures var was := t.screen.rendition;
            && Renders(t, [1], was.(bold := true)) && Renders(t, [2], was.(faint := true))
            && Renders(t, [3], was.(italic := true)) && Renders(t, [4], was.(underline := true))
            && Renders(t, [5], was.(blink := true)) && Renders(t, [7], was.(inverse := true))
  {
    OneParameter(t, 1);
    OneParameter(t, 2);
    OneParameter(t, 3);
    OneParameter(t, 4);
    OneParameter(t, 5);
    OneParameter(t, 7);
  }

  /** The attributes that are switched off. */
  lemma AttributesOff(t: T.Terminal)
    requires t.Valid()
    ensures var was := t.screen.rendition;
            && Renders(t, [22], was.(bold := false, faint := false)) && Renders(t, [23], was.(italic := false))
            && Renders(t, [24], was.(underline := false)) && Renders(t, [25], was.(blink := false))
            && Renders(t, [27], was.(inverse := false))
  {
    OneParameter(t, 22);
    OneParameter(t, 23);
    OneParameter(t, 24);
    OneParameter(t, 25);
    OneParameter(t, 27);
  }

  /** The default colours. */
  lemma BackToDefault(t: T.Terminal)
    requires t.Valid()
    ensures var was := t.screen.rendition;
            && Renders(t, [39], was.(foreground := Default)) && Renders(t, [49], was.(background := Default))
  {
    OneParameter(t, 39);
    OneParameter(t, 49);
  }

  lemma BackToPlain(t: T.Terminal)
    requires t.Valid()
    ensures Renders(t, [0], PLAIN) && Renders(t, [], PLAIN)
  {
    OneParameter(t, 0);
    CsiOnScreen(t, false, [], 'm');
  }

  /** The colours in the order of their codes, the bright ones after the others. */
  function ColorNumber(c: Color): nat
    requires c != Default
  {
    match c
    case Black => 0 case Red => 1 case Green => 2 case Yellow => 3
    case Blue => 4 case Magenta => 5 case Cyan => 6 case White => 7
    case BrightBlack => 8 case BrightRed => 9 case BrightGreen => 10 case BrightYellow => 11
    case BrightBlue => 12 case BrightMagenta => 13 case BrightCyan => 14 case BrightWhite => 15
  }

  function ColorCode(c: Color, base: nat): nat
    requires c != Default
  {
    if ColorNumber(c) < 8 then base + ColorNumber(c) else base + 60 + (ColorNumber(c) - 8)
  }

  lemma ForegroundCode(c: Color, r: Rendition)
    requires c != Default
    ensures T.ApplySgrParameter(ColorCode(c, 30), r) == r.(foreground := c)
  {
  }

  lemma BackgroundCode(c: Color, r: Rendition)
    requires c != Default
    ensures T.ApplySgrParameter(ColorCode(c, 40), r) == r.(background := c)
  {
  }

  /** Foregrounds from 30 and 90, backgrounds from 40 and 100. */
  lemma Colors(t: T.Terminal, c: Color)
    requires t.Valid() && c != Default
    ensures Renders(t, [ColorCode(c, 30)], t.screen.rendition.(foreground := c))
    ensures Renders(t, [ColorCode(c, 40)], t.screen.rendition.(background := c))
  {
    OneParameter(t, ColorCode(c, 30));
    OneParameter(t, ColorCode(c, 40));
    ForegroundCode(c, t.screen.rendition);
    BackgroundCode(c, t.screen.rendition);
  }

  /** A character is written at the cursor in the present rendition and the cursor moves on; in the last column it
      stays, and the wrap is deferred while wrapping is on. */
  lemma Written(t: T.Terminal, code: Byte)
    requires t.Valid() && t.parser.state == Ground && P.Printable(code) && !t.screen.pendingWrap
    ensures var s, r := t.screen, T.Feed(t, [code]);
            var last := s.cursor.column == s.cols - 1;
            && OnlyScreen(t, r)
            && r.screen == s.(grid := r.screen.grid,
                              cursor := Cursor(s.cursor.row, if last then s.cursor.column else s.cursor.column + 1),
                              pendingWrap := last && s.modes.autoWrap)
            && forall i, j | 0 <= i < s.rows && 0 <= j < s.cols ::
                 r.screen.grid[i][j] ==
                 if i == s.cursor.row && j == s.cursor.column then Cell(code, s.rendition) else s.grid[i][j]
  {
    P.FeedGlyph(t, code);
  }

  // ---------------------------------------------------------------------------
  // Modes
  // ---------------------------------------------------------------------------

  /** A control sequence that only sets modes. */
  predicate Sets(t: T.Terminal, priv: bool, n: nat, on: bool, modes: Modes)
    requires t.Valid()
  {
    var r := T.Feed(t, Render(priv, [n], (if on then 'h' else 'l') as int));
    OnlyScreen(t, r) && r.screen == t.screen.(modes := modes)
  }

  lemma OneMode(t: T.Terminal, priv: bool, n: nat, on: bool)
    requires t.Valid()
    ensures Sets(t, priv, n, on, T.ApplyModeParameter(n, on, priv, t.screen.modes))
  {
    CsiOnScreen(t, priv, [n], if on then 'h' else 'l');
    assert [n][..0] == [];
    assert T.ApplyModeAll([n], on, priv, t.screen.modes) == T.ApplyModeParameter(n, on, priv, t.screen.modes);
  }

  lemma ModesSet(t: T.Terminal, on: bool)
    requires t.Valid()
    ensures var was := t.screen.modes;
            && Sets(t, false, 20, on, was.(lineFeedNewLine := on))
            && Sets(t, true, 1, on, was.(applicationCursorKeys := on)) && Sets(t, true, 6, on, was.(originMode := on))
            && Sets(t, true, 7, on, was.(autoWrap := on)) && Sets(t, true, 25, on, was.(cursorVisible := on))
  {
    OneMode(t, false, 20, on);
    OneMode(t, true, 1, on);
    OneMode(t, true, 6, on);
    OneMode(t, true, 7, on);
    OneMode(t, true, 25, on);
  }

  lemma KeypadModes(t: T.Terminal)
    requires t.Valid()
    ensures var was := t.screen.modes;
            && Esc(t, '=').screen == t.screen.(modes := was.(applicationKeypad := true))
            && Esc(t, '>').screen == t.screen.(modes := was.(applicationKeypad := false))
  {
    EscActs(t, '=');
    EscActs(t, '>');
  }

  // ---------------------------------------------------------------------------
  // Lines, tabs and the scrolling region
  // ---------------------------------------------------------------------------

  /** ESC D at the bottom margin moves the rows of the region up by one, a blank row entering at the bottom; anywhere
      else it moves the cursor down, at most to the last row. Rows outside the region never change. */
  lemma IndexBytes(t: T.Terminal)
    requires t.Valid()
    ensures var s, r := t.screen, Esc(t, 'D');
            && OnlyScreen(t, r)
            && if s.cursor.row == s.bottom then
                 && r.screen.cursor == s.cursor
                 && forall i | 0 <= i < s.rows ::
                      r.screen.grid[i] == if s.top <= i < s.bottom then s.grid[i + 1]
                                          else if i == s.bottom then S.BlankRow(s.cols, s.rendition)
                                          else s.grid[i]
               else
                 && r.screen.grid == s.grid && r.screen.cursor.column == s.cursor.column
                 && r.screen.cursor.row == if s.cursor.row == s.rows - 1 then s.cursor.row else s.cursor.row + 1
  {
    EscActs(t, 'D');
  }

  /** ESC M is the same upwards. */
  lemma ReverseIndexBytes(t: T.Terminal)
    requires t.Valid()
    ensures var s, r := t.screen, Esc(t, 'M');
            && OnlyScreen(t, r) && r.screen.history == s.history
            && if s.cursor.row == s.top then
                 && r.screen.cursor == s.cursor
                 && forall i | 0 <= i < s.rows ::
                      r.screen.grid[i] == if s.top < i <= s.bottom then s.grid[i - 1]
                                          else if i == s.top then S.BlankRow(s.cols, s.rendition)
                                          else s.grid[i]
               else
                 && r.screen.grid == s.grid && r.screen.cursor.column == s.cursor.column
                 && r.screen.cursor.row == if s.cursor.row == 0 then 0 else s.cursor.row - 1
  {
    EscActs(t, 'M');
  }

  /** ESC E starts the next line; line feed, vertical tab and form feed do what ESC D does, or ESC E in new-line
      mode. */
  lemma LineFeeds(t: T.Terminal, code: Byte)
    requires t.Valid() && t.parser.state == Ground && code in {0x0A, 0x0B, 0x0C}
    ensures T.Feed(t, [code]).screen == Esc(t, if t.screen.modes.lineFeedNewLine then 'E' else 'D').screen
    ensures Esc(t, 'E').screen == Esc(t, 'D').screen.(cursor := Esc(t, 'D').screen.cursor.(column := 0))
  {
    P.FeedControl(t, code);
    EscActs(t, 'D');
    EscActs(t, 'E');
  }

  lemma CarriageReturns(t: T.Terminal)
    requires t.Valid() && t.parser.state == Ground
    ensures Moved(t, T.Feed(t, [0x0D]), t.screen.cursor.row, 0)
  {
    P.FeedControl(t, 0x0D);
    assert T.OnExecute(t.screen, 0x0D) == S.CarriageReturn(t.screen);
  }

  lemma Backspaces(t: T.Terminal)
    requires t.Valid() && t.parser.state == Ground
    ensures var c := t.screen.cursor;
            Moved(t, T.Feed(t, [0x08]), c.row, if c.column == 0 then 0 else c.column - 1)
  {
    P.FeedControl(t, 0x08);
    assert T.OnExecute(t.screen, 0x08) == S.Backspace(t.screen);
  }

  /** A tab goes to the next column with a stop, else to the last one. */
  lemma Tabs(t: T.Terminal)
    requires t.Valid() && t.parser.state == Ground
    ensures var s, r := t.screen, T.Feed(t, [0x09]);
            var c := r.screen.cursor.column;
            && Moved(t, r, s.cursor.row, c) && s.cursor.column <= c < s.cols
            && (c < s.cols - 1 ==> s.tabStops[c])
            && (forall k | s.cursor.column < k < c :: !s.tabStops[k])
            && (s.cursor.column < s.cols - 1 ==> s.cursor.column < c)
  {
    P.FeedControl(t, 0x09);
  }

  /** After a reset the stops are eight columns apart. */
  lemma FirstTabs(rows: int, cols: int, k: int)
    requires rows > 0 && cols > 0 && 0 <= k < cols
    ensures S.Initial(rows, cols).tabStops[k] <==> k > 0 && k % 8 == 0
  {
  }

  /** ESC H sets a stop in the column of the cursor, ESC [ g removes it, ESC [ 3 g removes all. */
  lemma TabStops(t: T.Terminal)
    requires t.Valid()
    ensures var s := t.screen;
            && Esc(t, 'H').screen == s.(tabStops := s.tabStops[s.cursor.column := true])
            && Csi(t, [], 'g').screen == s.(tabStops := s.tabStops[s.cursor.column := false])
            && Csi(t, [0], 'g').screen == s.(tabStops := s.tabStops[s.cursor.column := false])
            && Csi(t, [3], 'g').screen == s.(tabStops := Csi(t, [3], 'g').screen.tabStops)
            && forall k | 0 <= k < s.cols :: !Csi(t, [3], 'g').screen.tabStops[k]
  {
    EscActs(t, 'H');
    CsiOnScreen(t, false, [], 'g');
    CsiOnScreen(t, false, [0], 'g');
    CsiOnScreen(t, false, [3], 'g');
  }

  /** ESC [ top ; bottom r sets the margins, counted from one, when they enclose at least two rows of the screen, and
      otherwise takes the whole screen; the cursor goes to the first column of the top margin. */
  lemma Margins(t: T.Terminal, top: nat, bottom: nat)
    requires t.Valid()
    ensures var s, r := t.screen, Csi(t, [top, bottom], 'r');
            var first := if top == 0 then 1 else top;
            var last := if 1 <= bottom <= s.rows then bottom else s.rows;
            var region := first < last;
            && OnlyScreen(t, r)
            && r.screen == s.(top := if region then first - 1 else 0, bottom := if region then last - 1 else s.rows - 1,
                              cursor := Cursor(if region then first - 1 else 0, 0), pendingWrap := false)
  {
    CsiOnScreen(t, false, [top, bottom], 'r');
  }

  // ---------------------------------------------------------------------------
  // Replies
  // ---------------------------------------------------------------------------

  /** The status request is answered ESC [ 0 n; the screen does not change. */
  lemma StatusReply(t: T.Terminal)
    requires t.Valid()
    ensures var r := Csi(t, [5], 'n');
            r.screen == t.screen && r.outgoing == t.outgoing + [0x1B, 0x5B, 0x30, 0x6E]
  {
    CsiActs(t, false, [5], 'n');
  }

  /** The identity request is answered, in both forms, with the device attributes. */
  lemma IdentityReply(t: T.Terminal)
    requires t.Valid()
    ensures Csi(t, [], 'c').screen == t.screen && Csi(t, [], 'c').outgoing == t.outgoing + t.attributes
    ensures Esc(t, 'Z').screen == t.screen && Esc(t, 'Z').outgoing == t.outgoing + t.attributes
  {
    CsiActs(t, false, [], 'c');
    EscActs(t, 'Z');
  }

  /** At power-on these are ESC [ ? 6 c. */
  lemma FirstIdentity(rows: int, cols: int)
    requires rows > 0 && cols > 0
    ensures T.PowerOn(rows, cols).attributes == [0x1B, 0x5B, 0x3F, 0x36, 0x63]
  {
  }
}
