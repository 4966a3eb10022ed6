/** What the terminal shows after plain text: history and screen together are the hard-wrapped text. */
module PlainText {
  import opened Basics
  import opened TerminalTypes
  import P = ParserModel
  import S = ScreenModel
  import T = TerminalModel

  // ---------------------------------------------------------------------------
  // Text and its layout, without any screen
  // ---------------------------------------------------------------------------

  datatype Token = Glyph(code: Byte) | LineBreak

  /** Bytes a terminal displays: everything from 0x20 up except DEL. */
  predicate Printable(b: Byte) { b >= 0x20 && b != P.DEL }

  predicate Plain(text: seq<Token>) {
    forall i | 0 <= i < |text| :: text[i].Glyph? ==> Printable(text[i].code)
  }

  /** A line break is sent as CR LF. */
  function TokenBytes(token: Token): seq<Byte> {
    match token
    case Glyph(code) => [code]
    case LineBreak => [0x0D, 0x0A]
  }

  function Bytes(text: seq<Token>): seq<Byte> {
    if text == [] then [] else Bytes(text[..|text| - 1]) + TokenBytes(text[|text| - 1])
  }

  /** The text cut at its line breaks. */
  function LogicalLines(text: seq<Token>): (lines: seq<seq<Byte>>)
    ensures |lines| > 0
  {
    if text == [] then [[]]
    else
      var lines := LogicalLines(text[..|text| - 1]);
      match text[|text| - 1]
      case LineBreak => lines + [[]]
      case Glyph(code) => lines[|lines| - 1 := lines[|lines| - 1] + [code]]
  }

  /** One logical line cut into rows of cols characters; a line of exactly cols characters is one row. */
  function Chop(line: seq<Byte>, cols: nat): (rows: seq<seq<Byte>>)
    requires cols > 0
    ensures |rows| > 0 && forall i | 0 <= i < |rows| :: |rows[i]| <= cols
  {
    if |line| <= cols then [line] else [line[..cols]] + Chop(line[cols..], cols)
  }

  function HardWrap(lines: seq<seq<Byte>>, cols: nat): (rows: seq<seq<Byte>>)
    requires cols > 0
    ensures lines != [] ==> |rows| > 0
    ensures forall i | 0 <= i < |rows| :: |rows[i]| <= cols
  {
    if lines == [] then [] else HardWrap(lines[..|lines| - 1], cols) + Chop(lines[|lines| - 1], cols)
  }

  function PadRow(row: seq<Byte>, cols: nat): Row {
    seq(cols, i => if 0 <= i < |row| then Cell(row[i], PLAIN) else Cell(SPACE, PLAIN))
  }

  function Pad(w: seq<seq<Byte>>, cols: nat): (p: seq<Row>)
    ensures |p| == |w|
  {
    seq(|w|, i requires 0 <= i < |w| => PadRow(w[i], cols))
  }

  /** Blank-padded to the height of the screen, trimmed to the newest MAX_HISTORY + rows rows. */
  function Picture(p: seq<Row>, rows: nat, cols: nat): seq<Row> {
    if |p| < rows then p + S.BlankRows(rows - |p|, cols, PLAIN)
    else if |p| > MAX_HISTORY + rows then p[|p| - (MAX_HISTORY + rows)..]
    else p
  }

  // ---------------------------------------------------------------------------
  // Where the layout sits on the screen
  // ---------------------------------------------------------------------------

  function Past(p: seq<Row>, rows: nat): seq<Row> {
    if |p| <= rows then [] else S.Newest(p[..|p| - rows])
  }

  function Visible(p: seq<Row>, rows: nat, cols: nat): seq<Row> {
    if |p| <= rows then p + S.BlankRows(rows - |p|, cols, PLAIN) else p[|p| - rows..]
  }

  /** The screen shows the unpadded rows w, the cursor stands after the last character. */
  ghost predicate Laid(s: S.Screen, w: seq<seq<Byte>>) {
    && s.Valid() && s.rendition == PLAIN && s.modes == POWER_ON_MODES
    && s.top == 0 && s.bottom == s.rows - 1
    && |w| > 0 && (forall i | 0 <= i < |w| :: |w[i]| <= s.cols)
    && s.history == Past(Pad(w, s.cols), s.rows)
    && s.grid == Visible(Pad(w, s.cols), s.rows, s.cols)
    && s.cursor.row == Min(|w|, s.rows) - 1
    && s.cursor.column == Min(|w[|w| - 1]|, s.cols - 1)
    && s.pendingWrap == (|w[|w| - 1]| == s.cols)
  }

  lemma InitialLaid(rows: int, cols: int)
    requires rows > 0 && cols > 0
    ensures Laid(S.Initial(rows, cols), [[]])
  {
    assert PadRow([], cols) == S.BlankRow(cols, PLAIN);
    assert Visible(Pad([[]], cols), rows, cols) == S.BlankRows(rows, cols, PLAIN);
  }

  /** The two halves of the screen memory make up the picture. */
  lemma Halves(p: seq<Row>, rows: nat, cols: nat)
    requires rows > 0
    ensures Past(p, rows) + Visible(p, rows, cols) == Picture(p, rows, cols)
  {
  }

  lemma PastIsNewest(p: seq<Row>, rows: nat)
    requires |p| >= rows > 0
    ensures Past(p, rows) == S.Newest(p[..|p| - rows])
  {
  }

  lemma PastGrows(p: seq<Row>, row: Row, rows: nat)
    requires |p| >= rows > 0
    ensures Past(p + [row], rows) == S.Newest(Past(p, rows) + [p[|p| - rows]])
  {
    PastIsNewest(p, rows);
    PastIsNewest(p + [row], rows);
    S.NewestSnoc(p[..|p| - rows], p[|p| - rows]);
    assert (p + [row])[..|p| + 1 - rows] == p[..|p| - rows] + [p[|p| - rows]];
  }

  lemma PadBreak(w: seq<seq<Byte>>, cols: nat)
    ensures Pad(w + [[]], cols) == Pad(w, cols) + [S.BlankRow(cols, PLAIN)]
  {
    assert PadRow([], cols) == S.BlankRow(cols, PLAIN);
  }

  /** At the bottom of the screen a new line pushes the top row into the past. */
  lemma ScrollLaid(s: S.Screen, p: seq<Row>)
    requires s.Valid() && s.top == 0 && s.bottom == s.rows - 1 && s.rendition == PLAIN
    requires s.history == Past(p, s.rows) && s.grid == Visible(p, s.rows, s.cols) && |p| >= s.rows
    ensures var r, p' := S.ScrollUp(s, 1), p + [S.BlankRow(s.cols, PLAIN)];
            r.history == Past(p', s.rows) && r.grid == Visible(p', s.rows, s.cols)
  {
    var blank := S.BlankRow(s.cols, PLAIN);
    FullScroll(s);
    PastGrows(p, blank, s.rows);
    VisibleMoves(p, blank, s.rows, s.cols);
  }

  lemma VisibleMoves(p: seq<Row>, row: Row, rows: nat, cols: nat)
    requires |p| >= rows > 0
    ensures |Visible(p, rows, cols)| == rows && Visible(p, rows, cols)[0] == p[|p| - rows]
    ensures Visible(p + [row], rows, cols) == Visible(p, rows, cols)[1..] + [row]
  {
    assert Visible(p, rows, cols) == p[|p| - rows..];
    assert Visible(p + [row], rows, cols) == (p + [row])[|p| + 1 - rows..];
  }

  /** Scrolling the whole screen by one row. */
  lemma FullScroll(s: S.Screen)
    requires s.Valid() && s.top == 0 && s.bottom == s.rows - 1
    ensures S.ScrollUp(s, 1).grid == s.grid[1..] + [S.BlankRow(s.cols, s.rendition)]
    ensures S.ScrollUp(s, 1).history == S.Newest(s.history + [s.grid[0]])
  {
    assert s.grid[0..1] == [s.grid[0]];
  }

  lemma BreakInside(s: S.Screen, w: seq<seq<Byte>>)
    requires Laid(s, w) && |w| < s.rows
    ensures Laid(S.Index(S.CarriageReturn(s)), w + [[]])
  {
    PadBreak(w, s.cols);
    assert Visible(Pad(w + [[]], s.cols), s.rows, s.cols) == s.grid;
  }

  lemma BreakAtBottom(s: S.Screen, w: seq<seq<Byte>>)
    requires Laid(s, w) && |w| >= s.rows
    ensures Laid(S.Index(S.CarriageReturn(s)), w + [[]])
  {
    PadBreak(w, s.cols);
    ScrollLaid(S.CarriageReturn(s), Pad(w, s.cols));
  }

  /** Moving to a new line appends an empty row to the layout. */
  lemma BreakLaid(s: S.Screen, w: seq<seq<Byte>>)
    requires Laid(s, w)
    ensures Laid(S.Index(S.CarriageReturn(s)), w + [[]])
  {
    if |w| < s.rows {
      BreakInside(s, w);
    } else {
      BreakAtBottom(s, w);
    }
  }

  /** Writing where a row still has room extends that row. */
  lemma RoomLaid(s: S.Screen, w: seq<seq<Byte>>, code: Byte)
    requires Laid(s, w) && |w[|w| - 1]| < s.cols
    ensures Laid(S.Write(s, code), w[|w| - 1 := w[|w| - 1] + [code]])
  {
    var last := w[|w| - 1];
    var w' := w[|w| - 1 := last + [code]];
    var p, p' := Pad(w, s.cols), Pad(w', s.cols);
    var k := s.cursor.row;
    var row := PadRow(last, s.cols)[|last| := Cell(code, PLAIN)];
    assert PadRow(last + [code], s.cols) == row;
    assert p' == p[|p| - 1 := row];
    assert s.grid[k] == PadRow(last, s.cols);
    assert Visible(p', s.rows, s.cols) == s.grid[k := row];
    if |p| > s.rows {
      assert p'[..|p| - s.rows] == p[..|p| - s.rows];
    }
  }

  function PutGlyph(w: seq<seq<Byte>>, code: Byte, cols: nat): seq<seq<Byte>>
    requires |w| > 0
  {
    if |w[|w| - 1]| == cols then w + [[code]] else w[|w| - 1 := w[|w| - 1] + [code]]
  }

  /** Writing after a full row carries out the deferred wrap first. */
  lemma GlyphLaid(s: S.Screen, w: seq<seq<Byte>>, code: Byte)
    requires Laid(s, w)
    ensures Laid(S.Write(s, code), PutGlyph(w, code, s.cols))
  {
    if |w[|w| - 1]| < s.cols {
      RoomLaid(s, w, code);
    } else {
      var r := S.Index(S.CarriageReturn(s));
      BreakLaid(s, w);
      RoomLaid(r, w + [[]], code);
      assert S.Write(s, code) == S.Write(r, code);
      var empty: seq<Byte> := [];
      assert empty + [code] == [code];
      assert (w + [empty])[|w| := [code]] == w + [[code]];
    }
  }

  // ---------------------------------------------------------------------------
  // The layout grows one token at a time
  // ---------------------------------------------------------------------------

  lemma {:induction false} ChopSnoc(line: seq<Byte>, code: Byte, cols: nat)
    requires cols > 0
    ensures Chop(line + [code], cols) == PutGlyph(Chop(line, cols), code, cols)
  {
    if |line| > cols {
      ChopSnoc(line[cols..], code, cols);
      assert (line + [code])[..cols] == line[..cols];
      assert (line + [code])[cols..] == line[cols..] + [code];
    } else if |line| == cols {
      assert (line + [code])[..cols] == line && (line + [code])[cols..] == [code];
    }
  }

  lemma WrapSnoc(lines: seq<seq<Byte>>, code: Byte, cols: nat)
    requires cols > 0 && |lines| > 0
    ensures HardWrap(lines[|lines| - 1 := lines[|lines| - 1] + [code]], cols)
            == PutGlyph(HardWrap(lines, cols), code, cols)
  {
    var n := |lines| - 1;
    var more := lines[n := lines[n] + [code]];
    assert more[..n] == lines[..n];
    ChopSnoc(lines[n], code, cols);
  }

  lemma WrapBreak(lines: seq<seq<Byte>>, cols: nat)
    requires cols > 0
    ensures HardWrap(lines + [[]], cols) == HardWrap(lines, cols) + [[]]
  {
    assert (lines + [[]])[..|lines|] == lines;
  }

  // ---------------------------------------------------------------------------
  // From bytes to the screen
  // ---------------------------------------------------------------------------

  /** In Ground, printable bytes and CR LF reach the screen directly and leave the parser alone. */
  lemma FeedGlyph(t: T.Terminal, code: Byte)
    requires t.Valid() && t.parser.state == P.Ground && Printable(code)
    ensures T.Feed(t, [code]) == t.(screen := S.Write(t.screen, code))
  {
    T.OneEvent(t, code, t.parser, P.Print(code));
  }

  lemma FeedControl(t: T.Terminal, code: Byte)
    requires t.Valid() && t.parser.state == P.Ground && P.IsC0Execute(code)
    ensures T.Feed(t, [code]) == t.(screen := T.OnExecute(t.screen, code))
  {
    FeedExecute(t, code);
    Executes(t, code);
  }

  lemma FeedExecute(t: T.Terminal, code: Byte)
    requires t.Valid() && t.parser.state == P.Ground && P.IsC0Execute(code)
    ensures T.Feed(t, [code]) == T.OnEvent(t, P.Execute(code))
  {
    ControlStep(t.parser, code);
    T.OneEvent(t, code, t.parser, P.Execute(code));
  }

  lemma ControlStep(p: P.Parser, code: Byte)
    requires p.state == P.Ground && P.IsC0Execute(code)
    ensures P.Step(p, code) == (p, [P.Execute(code)])
  {
  }

  lemma Executes(t: T.Terminal, code: Byte)
    requires t.Valid()
    ensures T.OnEvent(t, P.Execute(code)) == t.(screen := T.OnExecute(t.screen, code))
  {
  }

  lemma FeedLineBreak(t: T.Terminal)
    requires t.Valid() && t.parser.state == P.Ground && !t.screen.modes.lineFeedNewLine
    ensures T.Feed(t, [0x0D, 0x0A]) == t.(screen := S.Index(S.CarriageReturn(t.screen)))
  {
    FeedControl(t, 0x0D);
    assert T.OnExecute(t.screen, 0x0D) == S.CarriageReturn(t.screen);
    var u := t.(screen := S.CarriageReturn(t.screen));
    FeedControl(u, 0x0A);
    assert T.OnExecute(u.screen, 0x0A) == S.Index(u.screen);
    T.TwoBytes(t, 0x0D, 0x0A);
  }

  function Grow(w: seq<seq<Byte>>, token: Token, cols: nat): seq<seq<Byte>>
    requires |w| > 0
  {
    match token
    case Glyph(code) => PutGlyph(w, code, cols)
    case LineBreak => w + [[]]
  }

  lemma WrapGrows(text: seq<Token>, token: Token, cols: nat)
    requires cols > 0
    ensures HardWrap(LogicalLines(text + [token]), cols) == Grow(HardWrap(LogicalLines(text), cols), token, cols)
  {
    assert (text + [token])[..|text|] == text;
    var lines := LogicalLines(text);
    match token
    case Glyph(code) => WrapSnoc(lines, code, cols);
    case LineBreak => WrapBreak(lines, cols);
  }

  lemma TokenLaid(t: T.Terminal, w: seq<seq<Byte>>, token: Token)
    requires t.parser.state == P.Ground && Laid(t.screen, w)
    requires token.Glyph? ==> Printable(token.code)
    ensures var r := T.Feed(t, TokenBytes(token));
            && r == t.(screen := r.screen)
            && r.screen.SameSize(t.screen)
            && Laid(r.screen, Grow(w, token, t.screen.cols))
  {
    match token
    case Glyph(code) =>
      FeedGlyph(t, code);
      GlyphLaid(t.screen, w, code);
    case LineBreak =>
      FeedLineBreak(t);
      BreakLaid(t.screen, w);
  }

  lemma {:induction false} TextLaid(t: T.Terminal, rows: int, cols: int, text: seq<Token>)
    requires rows > 0 && cols > 0
    requires t.parser.state == P.Ground && t.screen == S.Initial(rows, cols)
    requires Plain(text)
    ensures var r := T.Feed(t, Bytes(text));
            && r == t.(screen := r.screen)
            && Laid(r.screen, HardWrap(LogicalLines(text), cols))
    decreases text
  {
    if text == [] {
      InitialLaid(rows, cols);
      var empty: seq<seq<Byte>> := [[]];
      assert empty[..0] == [];
      assert HardWrap(empty, cols) == empty;
    } else {
      var before, token := text[..|text| - 1], text[|text| - 1];
      assert text == before + [token];
      TextLaid(t, rows, cols, before);
      T.FeedConcat(t, Bytes(before), TokenBytes(token));
      TokenLaid(T.Feed(t, Bytes(before)), HardWrap(LogicalLines(before), cols), token);
      WrapGrows(before, token, cols);
    }
  }

  /** For every screen size and every plain text fed to a freshly reset terminal, the history followed by
      the screen is the hard-wrapped text, padded to the height of the screen and trimmed to the newest
      rows; the cursor stands on the last row of the text and nothing was replied. */
  lemma HistoryAndScreenAreTheText(t: T.Terminal, rows: int, cols: int, text: seq<Token>)
    requires rows > 0 && cols > 0
    requires t.parser.state == P.Ground && t.screen == S.Initial(rows, cols)
    requires Plain(text)
    ensures var r := T.Feed(t, Bytes(text));
            var wrapped := HardWrap(LogicalLines(text), cols);
            && r.screen.history + r.screen.grid == Picture(Pad(wrapped, cols), rows, cols)
            && |r.screen.grid| == rows
            && r.screen.cursor.row == Min(|wrapped|, rows) - 1
            && r.screen.cursor.column == Min(|wrapped[|wrapped| - 1]|, cols - 1)
            && r.outgoing == t.outgoing
  {
    TextLaid(t, rows, cols, text);
    Halves(Pad(HardWrap(LogicalLines(text), cols), cols), rows, cols);
  }

  /** A full reset (ESC c) brings any terminal, in the middle of anything, to the start of the theorem. */
  lemma ResetStartsAfresh(t: T.Terminal)
    requires t.Valid()
    ensures var r := T.Feed(t, [P.ESC, 'c' as int]);
            r.parser.state == P.Ground && r.screen == S.Initial(t.screen.rows, t.screen.cols)
  {
    var c: Byte := 'c' as int;
    if t.parser.state == P.OscStringEsc {
      assert P.Step(t.parser, P.ESC) == P.Step(P.Enter(t.parser, P.Escape), P.ESC);
    }
    T.Silent(t, P.ESC);
    var m := T.Feed(t, [P.ESC]);
    if m.parser.state == P.OscStringEsc {
      assert P.Step(m.parser, c) == P.Step(P.Enter(m.parser, P.Escape), c);
    }
    T.OneEvent(m, c, P.Step(m.parser, c).0, P.EscDispatch(c, 0));
    T.TwoBytes(t, P.ESC, c);
  }
}
