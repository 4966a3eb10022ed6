/** The terminal facade as it is implemented: a parser whose callbacks drive the screen in place. */
module Vt100TerminalClass {
  import opened Basics
  import opened TerminalTypes
  import P = ParserModel
  import S = ScreenModel
  import T = TerminalModel
  import opened TerminalScreenClass
  import opened Vt100ParserClass

  class Vt100Terminal {
    const screen: TerminalScreen
    const parser: Vt100Parser
    var outgoing: seq<Byte>
    var attributes: seq<Byte>

    ghost function View(): T.Terminal
      reads this, screen, parser
    {
      T.Terminal(screen.View(), parser.View(), outgoing, attributes)
    }

    ghost predicate Valid()
      reads this, screen, parser
    {
      View().Valid()
    }

    constructor (rows: int, cols: int)
      ensures View() == T.PowerOn(if rows > 0 then rows else 24, if cols > 0 then cols else 100)
      ensures fresh(screen) && fresh(parser)
    {
      screen := new TerminalScreen(rows, cols);
      parser := new Vt100Parser();
      outgoing := [];
      attributes := T.VT102_ATTRIBUTES;
    }

    method Feed(data: seq<Byte>)
      requires Valid()
      modifies this, screen, parser
      ensures View() == T.Feed(old(View()), data)
    {
      for i := 0 to |data|
        invariant Valid()
        invariant View() == T.Feed(old(View()), data[..i])
      {
        assert data[..i + 1] == data[..i] + [data[i]];
        T.FeedConcat(old(View()), data[..i], [data[i]]);
        FeedByte(data[i]);
      }
      assert data[..|data|] == data;
    }

    method FeedByte(b: Byte)
      requires Valid()
      modifies this, screen, parser
      ensures View() == T.FeedByte(old(View()), b)
    {
      var events := parser.FeedByte(b);
      T.OnEventsIgnoresParser(old(View()), events, parser.View());
      label fed:
      for i := 0 to |events|
        invariant Valid()
        invariant View() == T.OnEvents(old@fed(View()), events[..i])
      {
        assert events[..i + 1][..i] == events[..i];
        OnEvent(events[i]);
      }
      assert events[..|events|] == events;
    }

    method TakeOutgoing() returns (out: seq<Byte>)
      modifies this
      ensures out == old(outgoing) && View() == old(View()).(outgoing := [])
    {
      out := outgoing;
      outgoing := [];
    }

    method SetDeviceAttributesResponse(response: seq<Byte>)
      modifies this
      ensures View() == old(View()).(attributes := response)
    {
      attributes := response;
    }

    method OnEvent(e: P.Event)
      requires Valid()
      modifies this, screen
      ensures View() == T.OnEvent(old(View()), e)
    {
      match e
      case Print(code) => screen.Write(code);
      case Execute(code) => OnExecute(code);
      case EscDispatch(final, intermediate) => OnEsc(final, intermediate);
      case CsiDispatch(final, params, priv, intermediate) => OnCsi(final, params, priv, intermediate);
      case OscDispatch(_) =>
    }

    method OnExecute(b: Byte)
      requires Valid()
      modifies screen
      ensures View() == old(View()).(screen := T.OnExecute(old(screen.View()), b))
    {
      match b
      case 0x08 => screen.Backspace();
      case 0x09 => screen.HorizontalTab();
      case 0x0A => screen.LineFeed();
      case 0x0B => screen.LineFeed();
      case 0x0C => screen.LineFeed();
      case 0x0D => screen.CarriageReturn();
      case _ =>
    }

    method OnEsc(final: Byte, intermediate: Byte)
      requires Valid()
      modifies this, screen
      ensures View() == T.OnEsc(old(View()), final, intermediate)
    {
      if intermediate == '(' as int || intermediate == ')' as int || intermediate == '*' as int
         || intermediate == '+' as int {
        return;
      }
      if intermediate == '#' as int {
        if final == '8' as int {
          FillScreenWithAlignmentPattern(screen);
        }
        return;
      }
      if intermediate != 0 {
        return;
      }
      match final as char
      case 'D' => screen.Index();
      case 'E' => screen.NextLine();
      case 'M' => screen.ReverseIndex();
      case 'H' => screen.SetTabHere();
      case '7' => screen.Save();
      case '8' => screen.Restore();
      case 'c' => screen.Reset();
      case '=' => screen.SetModes(screen.modes.(applicationKeypad := true));
      case '>' => screen.SetModes(screen.modes.(applicationKeypad := false));
      case 'Z' => outgoing := outgoing + attributes;
      case _ =>
    }

    method OnCsi(final: Byte, params: seq<nat>, priv: bool, intermediate: Byte)
      requires Valid()
      modifies this, screen
      ensures View() == T.OnEvent(old(View()), P.CsiDispatch(final, params, priv, intermediate))
    {
      if intermediate != 0 {
        return;
      }
      assert outgoing + [] == outgoing;
      match final as char
      case 'n' =>
        if T.ParamRaw(params, 0, 0) == 5 {
          outgoing := outgoing + T.STATUS_OK;
        } else if T.ParamRaw(params, 0, 0) == 6 {
          outgoing := outgoing + T.CursorReport(screen.cursor);
        }
      case 'c' =>
        if !priv {
          outgoing := outgoing + attributes;
        }
      case _ => OnScreenCsi(final as char, params, priv);
    }

    method OnScreenCsi(final: char, params: seq<nat>, priv: bool)
      requires Valid()
      modifies screen
      ensures screen.View() == T.OnScreenCsi(old(screen.View()), final, params, priv)
    {
      match final
      case 'A' => screen.Up(T.Param(params, 0, 1));
      case 'B' => screen.Down(T.Param(params, 0, 1));
      case 'C' => screen.Forward(T.Param(params, 0, 1));
      case 'D' => screen.Backward(T.Param(params, 0, 1));
      case 'E' =>
        screen.Down(T.Param(params, 0, 1));
        screen.MoveToColumn(1);
      case 'F' =>
        screen.Up(T.Param(params, 0, 1));
        screen.MoveToColumn(1);
      case 'G' => screen.MoveToColumn(T.Param(params, 0, 1));
      case 'H' => screen.MoveTo(T.Param(params, 0, 1), T.Param(params, 1, 1));
      case 'f' => screen.MoveTo(T.Param(params, 0, 1), T.Param(params, 1, 1));
      case 'J' => screen.EraseInDisplay(T.ParamRaw(params, 0, 0));
      case 'K' => screen.EraseInLine(T.ParamRaw(params, 0, 0));
      case 'g' =>
        if T.ParamRaw(params, 0, 0) == 3 {
          screen.ClearAllTabs();
        } else {
          screen.ClearTabHere();
        }
      case 'h' => ApplyMode(params, true, priv);
      case 'l' => ApplyMode(params, false, priv);
      case 'm' => ApplySgr(params);
      case 'r' => screen.SetScrollRegion(T.ParamRaw(params, 0, 1), T.ParamRaw(params, 1, screen.rows));
      case 's' => screen.Save();
      case 'u' => screen.Restore();
      case _ =>
    }

    method ApplySgr(params: seq<nat>)
      requires Valid()
      modifies screen
      ensures screen.View() == old(screen.View()).(rendition :=
                if params == [] then PLAIN else T.ApplySgrAll(params, old(screen.currentRendition)))
    {
      var r := screen.currentRendition;
      if params == [] {
        screen.SetRendition(PLAIN);
        return;
      }
      for i := 0 to |params|
        invariant screen.View() == old(screen.View())
        invariant r == T.ApplySgrAll(params[..i], screen.currentRendition)
      {
        assert params[..i + 1][..i] == params[..i];
        r := T.ApplySgrParameter(params[i], r);
      }
      assert params[..|params|] == params;
      screen.SetRendition(r);
    }

    method ApplyMode(params: seq<nat>, on: bool, priv: bool)
      requires Valid()
      modifies screen
      ensures screen.View() == old(screen.View()).(modes := T.ApplyModeAll(params, on, priv, old(screen.modes)))
    {
      for i := 0 to |params|
        invariant screen.View() == old(screen.View()).(modes := screen.modes)
        invariant screen.modes == T.ApplyModeAll(params[..i], on, priv, old(screen.modes))
      {
        assert params[..i + 1][..i] == params[..i];
        screen.SetModes(T.ApplyModeParameter(params[i], on, priv, screen.modes));
      }
      assert params[..|params|] == params;
    }
  }

  /** The alignment pattern moves before every write, so no write ever wraps, scrolls or touches the
      history, although every last column defers a wrap. */
  method FillScreenWithAlignmentPattern(screen: TerminalScreen)
    requires screen.Valid()
    modifies screen
    ensures screen.View() == S.AlignmentPattern(old(screen.View()))
  {
    ghost var e := Cell('E' as nat, screen.currentRendition);
    for row := 0 to screen.rows
      invariant screen.Valid()
      invariant SameButGrid(screen.View(), old(screen.View()))
      invariant forall i, j | 0 <= i < row && 0 <= j < screen.cols :: screen.grid[i][j] == e
    {
      for column := 0 to screen.cols
        invariant screen.Valid()
        invariant SameButGrid(screen.View(), old(screen.View()))
        invariant forall i, j | 0 <= i < row && 0 <= j < screen.cols :: screen.grid[i][j] == e
        invariant forall j | 0 <= j < column :: screen.grid[row][j] == e
      {
        screen.MoveTo(row + 1, column + 1);
        screen.Write('E' as nat);
      }
    }
    screen.MoveTo(1, 1);
    S.SameCells(screen.grid, S.AlignmentPattern(old(screen.View())).grid);
  }

  /** Equal apart from cells, cursor and deferred wrap. */
  ghost predicate SameButGrid(s: S.Screen, t: S.Screen) {
    s == t.(grid := s.grid, cursor := s.cursor, pendingWrap := s.pendingWrap)
  }
}
