/** The terminal as a value: what each parser callback does to the screen and to the reply queue. */
module TerminalModel {
  import opened Basics
  import opened TerminalTypes
  import opened P = ParserModel
  import S = ScreenModel

  datatype Terminal = Terminal(screen: S.Screen, parser: Parser, outgoing: seq<Byte>, attributes: seq<Byte>)
  {
    predicate Valid() { screen.Valid() }

    predicate SameSize(other: Terminal) { screen.SameSize(other.screen) }
  }

  /** VT102 identity. */
  const VT102_ATTRIBUTES: seq<Byte> := [ESC, BRACKET, QUESTION, '6' as int, 'c' as int]

  function PowerOn(rows: int, cols: int): (t: Terminal)
    requires rows > 0 && cols > 0
    ensures t.Valid() && t.screen.rows == rows && t.screen.cols == cols
  {
    Terminal(S.Initial(rows, cols), FRESH, [], VT102_ATTRIBUTES)
  }

  // ---------------------------------------------------------------------------
  // Parameters, renditions and modes
  // ---------------------------------------------------------------------------

  /** A missing or zero parameter takes the default. */
  function Param(params: seq<nat>, i: nat, default: int): int {
    if i >= |params| || params[i] == 0 then default else params[i]
  }

  /** A missing parameter takes the default. */
  function ParamRaw(params: seq<nat>, i: nat, default: int): int {
    if i >= |params| then default else params[i]
  }

  const PALETTE: seq<Color> := [Black, Red, Green, Yellow, Blue, Magenta, Cyan, White]
  const BRIGHT_PALETTE: seq<Color> :=
    [BrightBlack, BrightRed, BrightGreen, BrightYellow, BrightBlue, BrightMagenta, BrightCyan, BrightWhite]

  /** The colour a code selects, counted from the code of black (30 or 40). */
  function ColorOf(code: int, black: int): Option<Color> {
    if black <= code < black + 8 then Some(PALETTE[code - black])
    else if code == black + 9 then Some(Default)
    else if black + 60 <= code < black + 68 then Some(BRIGHT_PALETTE[code - black - 60])
    else None
  }

  function ApplySgrParameter(code: nat, r: Rendition): Rendition {
    match code
    case 0 => PLAIN
    case 1 => r.(bold := true)
    case 2 => r.(faint := true)
    case 3 => r.(italic := true)
    case 4 => r.(underline := true)
    case 5 => r.(blink := true)
    case 7 => r.(inverse := true)
    case 22 => r.(bold := false, faint := false)
    case 23 => r.(italic := false)
    case 24 => r.(underline := false)
    case 25 => r.(blink := false)
    case 27 => r.(inverse := false)
    case _ =>
      match (ColorOf(code, 30), ColorOf(code, 40))
      case (Some(color), _) => r.(foreground := color)
      case (None, Some(color)) => r.(background := color)
      case (None, None) => r
  }

  /** Parameters act from left to right. */
  function ApplySgrAll(params: seq<nat>, r: Rendition): Rendition {
    if params == [] then r
    else ApplySgrParameter(params[|params| - 1], ApplySgrAll(params[..|params| - 1], r))
  }

  function ApplyModeParameter(code: nat, on: bool, priv: bool, m: Modes): Modes {
    if !priv then (if code == 20 then m.(lineFeedNewLine := on) else m)
    else match code
      case 1 => m.(applicationCursorKeys := on)
      case 6 => m.(originMode := on)
      case 7 => m.(autoWrap := on)
      case 25 => m.(cursorVisible := on)
      case _ => m
  }

  function ApplyModeAll(params: seq<nat>, on: bool, priv: bool, m: Modes): Modes {
    if params == [] then m
    else ApplyModeParameter(params[|params| - 1], on, priv, ApplyModeAll(params[..|params| - 1], on, priv, m))
  }

  // ---------------------------------------------------------------------------
  // Callbacks
  // ---------------------------------------------------------------------------

  function OnExecute(s: S.Screen, code: Byte): (r: S.Screen)
    requires s.Valid()
    ensures r.Valid() && r.SameSize(s)
  {
    match code
    case 0x08 => S.Backspace(s)
    case 0x09 => S.HorizontalTab(s)
    case 0x0A => S.LineFeed(s)
    case 0x0B => S.LineFeed(s)
    case 0x0C => S.LineFeed(s)
    case 0x0D => S.CarriageReturn(s)
    case _ => s
  }

  function OnEsc(t: Terminal, final: Byte, intermediate: Byte): (r: Terminal)
    requires t.Valid()
    ensures r.Valid() && r.SameSize(t) && r.parser == t.parser
  {
    var s := t.screen;
    if intermediate == '#' as int then
      if final == '8' as int then t.(screen := S.AlignmentPattern(s)) else t
    else if intermediate != 0 then t
    else match final as char
      case 'D' => t.(screen := S.Index(s))
      case 'E' => t.(screen := S.NextLine(s))
      case 'M' => t.(screen := S.ReverseIndex(s))
      case 'H' => t.(screen := S.SetTab(s, true))
      case '7' => t.(screen := S.Save(s))
      case '8' => t.(screen := S.Restore(s))
      case 'c' => t.(screen := S.Initial(s.rows, s.cols))
      case '=' => t.(screen := s.(modes := s.modes.(applicationKeypad := true)))
      case '>' => t.(screen := s.(modes := s.modes.(applicationKeypad := false)))
      case 'Z' => t.(outgoing := t.outgoing + t.attributes)
      case _ => t
  }

  /** Control sequences that only change the screen. */
  function OnScreenCsi(s: S.Screen, final: char, params: seq<nat>, priv: bool): (r: S.Screen)
    requires s.Valid()
    ensures r.Valid() && r.SameSize(s)
  {
    match final
    case 'A' => S.Up(s, Param(params, 0, 1))
    case 'B' => S.Down(s, Param(params, 0, 1))
    case 'C' => S.Forward(s, Param(params, 0, 1))
    case 'D' => S.Backward(s, Param(params, 0, 1))
    case 'E' => S.MoveToColumn(S.Down(s, Param(params, 0, 1)), 1)
    case 'F' => S.MoveToColumn(S.Up(s, Param(params, 0, 1)), 1)
    case 'G' => S.MoveToColumn(s, Param(params, 0, 1))
    case 'H' => S.MoveTo(s, Param(params, 0, 1), Param(params, 1, 1))
    case 'f' => S.MoveTo(s, Param(params, 0, 1), Param(params, 1, 1))
    case 'J' => S.EraseInDisplay(s, ParamRaw(params, 0, 0))
    case 'K' => S.EraseInLine(s, ParamRaw(params, 0, 0))
    case 'g' => if ParamRaw(params, 0, 0) == 3 then S.ClearAllTabs(s) else S.SetTab(s, false)
    case 'h' => s.(modes := ApplyModeAll(params, true, priv, s.modes))
    case 'l' => s.(modes := ApplyModeAll(params, false, priv, s.modes))
    case 'm' => s.(rendition := if params == [] then PLAIN else ApplySgrAll(params, s.rendition))
    case 'r' => S.SetScrollRegion(s, ParamRaw(params, 0, 1), ParamRaw(params, 1, s.rows))
    case 's' => S.Save(s)
    case 'u' => S.Restore(s)
    case _ => s
  }

  /** Decimal digits, as std::to_string prints them. */
  function Decimal(n: nat): (s: seq<Byte>)
    ensures |s| > 0 && forall i | 0 <= i < |s| :: 0x30 <= s[i] <= 0x39
  {
    if n < 10 then [0x30 + n] else Decimal(n / 10) + [0x30 + n % 10]
  }

  /** CPR, section 8.3.14 of ECMA-48: 1-based row and column. */
  function CursorReport(c: Cursor): seq<Byte>
    requires c.row >= 0 && c.column >= 0
  {
    [ESC, BRACKET] + Decimal(c.row + 1) + [SEMICOLON] + Decimal(c.column + 1) + ['R' as int]
  }

  const STATUS_OK: seq<Byte> := [ESC, BRACKET, '0' as int, 'n' as int]

  function Reply(t: Terminal, final: char, params: seq<nat>, priv: bool): seq<Byte>
    requires t.Valid()
  {
    if final == 'n' && ParamRaw(params, 0, 0) == 5 then STATUS_OK
    else if final == 'n' && ParamRaw(params, 0, 0) == 6 then CursorReport(t.screen.cursor)
    else if final == 'c' && !priv then t.attributes
    else []
  }

  function OnEvent(t: Terminal, e: Event): (r: Terminal)
    requires t.Valid()
    ensures r.Valid() && r.SameSize(t) && r.parser == t.parser
  {
    match e
    case Print(code) => t.(screen := S.Write(t.screen, code))
    case Execute(code) => t.(screen := OnExecute(t.screen, code))
    case EscDispatch(final, intermediate) => OnEsc(t, final, intermediate)
    case CsiDispatch(final, params, priv, intermediate) =>
      if intermediate != 0 then t
      else t.(screen := OnScreenCsi(t.screen, final as char, params, priv),
              outgoing := t.outgoing + Reply(t, final as char, params, priv))
    case OscDispatch(_) => t
  }

  function OnEvents(t: Terminal, es: seq<Event>): (r: Terminal)
    requires t.Valid()
    ensures r.Valid() && r.SameSize(t) && r.parser == t.parser
  {
    if es == [] then t else OnEvent(OnEvents(t, es[..|es| - 1]), es[|es| - 1])
  }

  function FeedByte(t: Terminal, b: Byte): (r: Terminal)
    requires t.Valid()
    ensures r.Valid() && r.SameSize(t)
  {
    var (p, es) := Step(t.parser, b);
    OnEvents(t, es).(parser := p)
  }

  /** Every byte string keeps the screen well formed and its size. */
  function Feed(t: Terminal, bs: seq<Byte>): (r: Terminal)
    requires t.Valid()
    ensures r.Valid() && r.SameSize(t)
    decreases bs
  {
    if bs == [] then t else Feed(FeedByte(t, bs[0]), bs[1..])
  }

  lemma OneEvent(t: Terminal, b: Byte, p: Parser, e: Event)
    requires t.Valid() && Step(t.parser, b) == (p, [e])
    ensures Feed(t, [b]) == FeedByte(t, b) == OnEvent(t, e).(parser := p)
  {
    assert [e][..0] == [];
    assert OnEvents(t, [e]) == OnEvent(t, e);
    assert [b][1..] == [];
  }

  lemma Silent(t: Terminal, b: Byte)
    requires t.Valid() && Step(t.parser, b).1 == []
    ensures Feed(t, [b]) == t.(parser := Step(t.parser, b).0)
  {
    assert [b][1..] == [];
  }

  lemma TwoBytes(t: Terminal, a: Byte, b: Byte)
    requires t.Valid()
    ensures Feed(t, [a, b]) == Feed(Feed(t, [a]), [b])
  {
    assert [a] + [b] == [a, b];
    FeedConcat(t, [a], [b]);
  }

  lemma {:induction false} FeedConcat(t: Terminal, a: seq<Byte>, b: seq<Byte>)
    requires t.Valid()
    ensures Feed(t, a + b) == Feed(Feed(t, a), b)
    decreases a
  {
    if a == [] {
      assert a + b == b;
    } else {
      assert (a + b)[0] == a[0] && (a + b)[1..] == a[1..] + b;
      FeedConcat(FeedByte(t, a[0]), a[1..], b);
    }
  }

  lemma {:induction false} OnEventsConcat(t: Terminal, a: seq<Event>, b: seq<Event>)
    requires t.Valid()
    ensures OnEvents(t, a + b) == OnEvents(OnEvents(t, a), b)
    decreases b
  {
    if b == [] {
      assert a + b == a;
    } else {
      assert (a + b)[..|a + b| - 1] == a + b[..|b| - 1];
      OnEventsConcat(t, a, b[..|b| - 1]);
    }
  }

  /** Callbacks do not look at the parser. */
  lemma OnEventIgnoresParser(t: Terminal, e: Event, p: Parser)
    requires t.Valid()
    ensures OnEvent(t.(parser := p), e) == OnEvent(t, e).(parser := p)
  {
  }

  lemma {:induction false} OnEventsIgnoresParser(t: Terminal, es: seq<Event>, p: Parser)
    requires t.Valid()
    ensures OnEvents(t.(parser := p), es) == OnEvents(t, es).(parser := p)
    decreases es
  {
    if es != [] {
      OnEventsIgnoresParser(t, es[..|es| - 1], p);
      OnEventIgnoresParser(OnEvents(t, es[..|es| - 1]), es[|es| - 1], p);
    }
  }

  /** Byte-by-byte interpretation is parsing first and interpreting the callbacks afterwards. */
  lemma {:induction false} FeedIsParseThenInterpret(t: Terminal, bs: seq<Byte>)
    requires t.Valid()
    ensures var (p, es) := P.Feed(t.parser, bs);
            Feed(t, bs) == OnEvents(t, es).(parser := p)
    decreases bs
  {
    if bs != [] {
      var (p, es) := Step(t.parser, bs[0]);
      var (q, fs) := P.Feed(p, bs[1..]);
      FeedIsParseThenInterpret(FeedByte(t, bs[0]), bs[1..]);
      OnEventsIgnoresParser(OnEvents(t, es), fs, p);
      OnEventsConcat(t, es, fs);
    }
  }
}
