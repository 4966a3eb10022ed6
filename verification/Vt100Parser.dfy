/** The parser as it is implemented: one field per register, one handler per state.
    Each method returns the callbacks it made, in order. */
module Vt100ParserClass {
  import opened Basics
  import opened TerminalTypes
  import opened P = ParserModel

  class Vt100Parser {
    var state: State
    var params: seq<Byte>
    var oscBuffer: seq<Byte>
    var intermediate: Byte
    var privateMarker: bool

    ghost function View(): Parser
      reads this
    {
      Parser(state, params, oscBuffer, intermediate, privateMarker)
    }

    constructor ()
      ensures View() == FRESH
    {
      state, params, oscBuffer, intermediate, privateMarker := Ground, [], [], 0, false;
    }

    method Reset()
      modifies this
      ensures View() == FRESH
    {
      state, params, oscBuffer, intermediate, privateMarker := Ground, [], [], 0, false;
    }

    method Transition(next: State)
      modifies this
      ensures View() == Enter(old(View()), next)
    {
      state := next;
      if next == CsiEntry {
        params, intermediate, privateMarker := [], 0, false;
      } else if next == Escape {
        intermediate := 0;
      } else if next == OscString {
        oscBuffer := [];
      }
    }

    method Feed(data: seq<Byte>) returns (events: seq<Event>)
      modifies this
      ensures (View(), events) == P.Feed(old(View()), data)
    {
      events := [];
      for i := 0 to |data|
        invariant (View(), events) == P.Feed(old(View()), data[..i])
      {
        assert data[..i + 1] == data[..i] + [data[i]];
        FeedConcat(old(View()), data[..i], [data[i]]);
        FeedOne(View(), data[i]);
        var e := FeedByte(data[i]);
        events := events + e;
      }
      assert data[..|data|] == data;
    }

    method Anywhere(b: Byte) returns (consumed: bool)
      modifies this
      ensures consumed == (b in {ESC, CAN, SUB})
      ensures View() == if b == ESC then Enter(old(View()), Escape)
                        else if consumed then Enter(old(View()), Ground) else old(View())
    {
      consumed := true;
      if b == ESC {
        Transition(Escape);
      } else if b == CAN || b == SUB {
        Transition(Ground);
      } else {
        consumed := false;
      }
    }

    method FeedByte(b: Byte) returns (events: seq<Event>)
      modifies this
      ensures (View(), events) == Step(old(View()), b)
      decreases state == OscStringEsc, 1
    {
      events := [];
      if state == OscString {
        events := HandleOsc(b);
        return;
      }
      if state == OscStringEsc {
        events := HandleOscEsc(b);
        return;
      }
      var consumed := Anywhere(b);
      if consumed {
        return;
      }
      match state
      case Ground => events := HandleGround(b);
      case Escape => events := HandleEscape(b);
      case CsiEntry => events := HandleCsiEntry(b);
      case CsiParam => events := HandleCsiParam(b);
      case CsiIntermediate => events := HandleCsiIntermediate(b);
      case Ignore =>
        if IsFinal(b) {
          Transition(Ground);
        }
      case OscString =>
      case OscStringEsc =>
    }

    method HandleGround(b: Byte) returns (events: seq<Event>)
      requires state == Ground && b !in {ESC, CAN, SUB}
      ensures (View(), events) == Step(View(), b)
    {
      if b == DEL {
        return [];
      }
      if IsC0Execute(b) {
        return [Execute(b)];
      }
      return if b >= 0x20 then [Print(b)] else [];
    }

    method HandleEscape(b: Byte) returns (events: seq<Event>)
      requires state == Escape && b !in {ESC, CAN, SUB}
      modifies this
      ensures (View(), events) == Step(old(View()), b)
    {
      events := [];
      if IsC0Execute(b) {
        return [Execute(b)];
      }
      if b == DEL {
        return;
      }
      if IsIntermediate(b) {
        intermediate := b;
        return;
      }
      if b == BRACKET {
        Transition(CsiEntry);
        return;
      }
      if b == CLOSE_BRACKET {
        Transition(OscString);
        return;
      }
      if b == 'P' as int || b == 'X' as int || b == '^' as int || b == '_' as int {
        Transition(OscString);
        return;
      }
      if b == BACKSLASH {
        Transition(Ground);
        return;
      }
      if IsFinal(b) || 0x30 <= b <= 0x3F {
        events := [EscDispatch(b, intermediate)];
        Transition(Ground);
      }
    }

    method HandleCsiEntry(b: Byte) returns (events: seq<Event>)
      requires state == CsiEntry && b !in {ESC, CAN, SUB}
      modifies this
      ensures (View(), events) == Step(old(View()), b)
    {
      events := [];
      if IsC0Execute(b) {
        return [Execute(b)];
      }
      if b == DEL {
        return;
      }
      if IsPrivateMarker(b) {
        privateMarker := b == QUESTION;
        Transition(CsiParam);
        return;
      }
      if IsParameter(b) {
        params := params + [if b == 0x3A then 0x3B else b];
        Transition(CsiParam);
        return;
      }
      if IsIntermediate(b) {
        intermediate := b;
        Transition(CsiIntermediate);
        return;
      }
      if IsFinal(b) {
        events := DispatchCsi(b);
        return;
      }
      Transition(Ignore);
    }

    method HandleCsiParam(b: Byte) returns (events: seq<Event>)
      requires state == CsiParam && b !in {ESC, CAN, SUB}
      modifies this
      ensures (View(), events) == Step(old(View()), b)
    {
      events := [];
      if IsC0Execute(b) {
        return [Execute(b)];
      }
      if b == DEL {
        return;
      }
      if IsParameter(b) {
        params := params + [if b == 0x3A then 0x3B else b];
        return;
      }
      if IsIntermediate(b) {
        intermediate := b;
        Transition(CsiIntermediate);
        return;
      }
      if IsFinal(b) {
        events := DispatchCsi(b);
        return;
      }
      Transition(Ignore);
    }

    method HandleCsiIntermediate(b: Byte) returns (events: seq<Event>)
      requires state == CsiIntermediate && b !in {ESC, CAN, SUB}
      modifies this
      ensures (View(), events) == Step(old(View()), b)
    {
      events := [];
      if IsC0Execute(b) {
        return [Execute(b)];
      }
      if b == DEL {
        return;
      }
      if IsIntermediate(b) {
        intermediate := b;
        return;
      }
      if IsFinal(b) {
        events := DispatchCsi(b);
        return;
      }
      Transition(Ignore);
    }

    method DispatchCsi(finalByte: Byte) returns (events: seq<Event>)
      modifies this
      ensures (View(), events) == Dispatch(old(View()), finalByte)
    {
      var values: seq<nat> := [];
      var current: nat, hasDigit := 0, false;
      for i := 0 to |params|
        invariant View() == old(View())
        invariant hasDigit ==> i > 0
        invariant !hasDigit ==> current == 0
        invariant values + [current] == FieldValues(params[..i])
      {
        assert params[..i + 1][..i] == params[..i];
        var c := params[i];
        if 0x30 <= c <= 0x39 {
          current := current * 10 + (c - 0x30);
          hasDigit := true;
        } else if c == SEMICOLON {
          values := values + [if hasDigit then current else 0];
          current := 0;
          hasDigit := false;
        }
      }
      assert params[..|params|] == params;
      if hasDigit || params != [] {
        values := values + [current];
      }
      events := [CsiDispatch(finalByte, values, privateMarker, intermediate)];
      Transition(Ground);
    }

    method HandleOsc(b: Byte) returns (events: seq<Event>)
      requires state == OscString
      modifies this
      ensures (View(), events) == Step(old(View()), b)
    {
      events := [];
      if b == BEL {
        events := [OscDispatch(oscBuffer)];
        Transition(Ground);
        return;
      }
      if b == ESC {
        state := OscStringEsc;
        return;
      }
      if b == CAN || b == SUB {
        Transition(Ground);
        return;
      }
      oscBuffer := oscBuffer + [b];
    }

    method HandleOscEsc(b: Byte) returns (events: seq<Event>)
      requires state == OscStringEsc
      modifies this
      ensures (View(), events) == Step(old(View()), b)
      decreases true, 0
    {
      if b == BACKSLASH {
        events := [OscDispatch(oscBuffer)];
        Transition(Ground);
        return;
      }
      Transition(Escape);
      events := FeedByte(b);
    }
  }
}
