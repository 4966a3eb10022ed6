/** Printing a control sequence and parsing it back. */
module CsiRoundTrip {
  import opened Basics
  import opened TerminalTypes
  import opened ParserModel
  import TerminalModel

  predicate ParameterBytes(s: seq<Byte>) {
    forall i | 0 <= i < |s| :: 0x30 <= s[i] <= 0x39 || s[i] == SEMICOLON
  }

  /** Parameters separated by semicolons. */
  function Join(ns: seq<nat>): (s: seq<Byte>)
    ensures ParameterBytes(s)
    ensures ns == [] <==> s == []
  {
    if ns == [] then []
    else if |ns| == 1 then TerminalModel.Decimal(ns[0])
    else Join(ns[..|ns| - 1]) + [SEMICOLON] + TerminalModel.Decimal(ns[|ns| - 1])
  }

  /** ESC [, an optional private marker, the parameters and the final byte. */
  function Render(priv: bool, ns: seq<nat>, final: Byte): seq<Byte> {
    [ESC, BRACKET] + (if priv then [QUESTION] else []) + Join(ns) + [final]
  }

  lemma ByteSnoc(s: seq<Byte>, c: Byte)
    ensures FieldValues(s + [c]) == NextByte(FieldValues(s), c)
  {
    assert (s + [c])[..|s|] == s;
  }

  function LastSet(v: seq<nat>, n: nat): (r: seq<nat>)
    requires |v| > 0
    ensures |r| == |v| && r[|r| - 1] == n
  {
    v[|v| - 1 := n]
  }

  lemma DigitSet(v: seq<nat>, q: nat, d: nat)
    requires |v| > 0 && d < 10
    ensures NextByte(LastSet(v, q), 0x30 + d) == LastSet(v, q * 10 + d)
  {
  }

  lemma LastDigit(s: seq<Byte>, v: seq<nat>, q: nat, d: nat)
    requires |v| > 0 && d < 10 && FieldValues(s) == LastSet(v, q)
    ensures FieldValues(s + [0x30 + d]) == LastSet(v, q * 10 + d)
  {
    ByteSnoc(s, 0x30 + d);
    DigitSet(v, q, d);
  }

  /** Digits appended to a field that is still zero give that field the value printed. */
  lemma {:induction false} FieldOfDecimal(s: seq<Byte>, n: nat)
    requires FieldValues(s)[|FieldValues(s)| - 1] == 0
    ensures FieldValues(s + TerminalModel.Decimal(n)) == LastSet(FieldValues(s), n)
  {
    if n < 10 {
      assert LastSet(FieldValues(s), 0) == FieldValues(s);
      LastDigit(s, FieldValues(s), 0, n);
    } else {
      FieldOfDecimal(s, n / 10);
      LastDigit(s + TerminalModel.Decimal(n / 10), FieldValues(s), n / 10, n % 10);
      assert s + TerminalModel.Decimal(n) == s + TerminalModel.Decimal(n / 10) + [0x30 + n % 10];
    }
  }

  lemma {:induction false} ValuesOfJoin(ns: seq<nat>)
    ensures Values(Join(ns)) == ns
  {
    if |ns| == 1 {
      FieldOfDecimal([], ns[0]);
      assert [] + TerminalModel.Decimal(ns[0]) == TerminalModel.Decimal(ns[0]);
    } else if |ns| > 1 {
      var init, n := ns[..|ns| - 1], ns[|ns| - 1];
      ValuesOfJoin(init);
      NextField(Join(init), n);
      assert init + [n] == ns;
    }
  }

  /** A semicolon and a number add a field. */
  lemma NextField(s: seq<Byte>, n: nat)
    ensures FieldValues(s + [SEMICOLON] + TerminalModel.Decimal(n)) == FieldValues(s) + [n]
  {
    var v := FieldValues(s);
    ByteSnoc(s, SEMICOLON);
    FieldOfDecimal(s + [SEMICOLON], n);
    assert (v + [0])[|v| := n] == v + [n];
  }

  /** Parameter bytes are collected without any callback. */
  lemma {:induction false} FeedParameters(p: Parser, s: seq<Byte>)
    requires p.state in {CsiEntry, CsiParam} && ParameterBytes(s)
    ensures Feed(p, s) == (p.(params := p.params + s, state := if s == [] then p.state else CsiParam), [])
    decreases s
  {
    if s == [] {
      assert p.params + s == p.params;
    } else {
      var q := p.(params := p.params + [s[0]], state := CsiParam);
      CollectsParameter(p, s[0]);
      FeedParameters(q, s[1..]);
      assert p.params + [s[0]] + s[1..] == p.params + s;
      var none: seq<Event> := [];
      assert none + none == none;
    }
  }

  lemma CollectsParameter(p: Parser, b: Byte)
    requires p.state in {CsiEntry, CsiParam} && (0x30 <= b <= 0x39 || b == SEMICOLON)
    ensures Step(p, b) == (p.(params := p.params + [b], state := CsiParam), [])
  {
  }

  /** ESC [ opens a control sequence from every state, an unfinished string included. */
  lemma Introducer(p: Parser)
    ensures var (q, e) := Feed(p, [ESC, BRACKET]);
            e == [] && q == p.(state := CsiEntry, params := [], intermediate := 0, privateMarker := false)
  {
    FeedTwo(p, ESC, BRACKET);
    var m := Step(p, ESC).0;
    if p.state == OscStringEsc {
      assert Step(p, ESC) == Step(Enter(p, Escape), ESC);
    } else if p.state == OscString {
      assert Step(m, BRACKET) == Step(Enter(m, Escape), BRACKET);
    }
  }

  /** The part after the introducer. */
  lemma Body(p: Parser, priv: bool, ns: seq<nat>)
    requires p.state == CsiEntry && p.params == [] && p.intermediate == 0 && !p.privateMarker
    ensures var (q, e) := Feed(p, (if priv then [QUESTION] else []) + Join(ns));
            e == [] && q.state in {CsiEntry, CsiParam} && q.params == Join(ns)
            && q.intermediate == 0 && q.privateMarker == priv
  {
    var m := if priv then Step(p, QUESTION).0 else p;
    FeedParameters(m, Join(ns));
    assert [] + Join(ns) == Join(ns);
    if priv {
      FeedOne(p, QUESTION);
      FeedConcat(p, [QUESTION], Join(ns));
    }
  }

  /** A printed control sequence is parsed as exactly one dispatch of the same values, whatever the
      parser was doing before, and leaves the parser in Ground. */
  lemma RoundTrip(p: Parser, priv: bool, ns: seq<nat>, final: Byte)
    requires IsFinal(final)
    ensures Feed(p, Render(priv, ns, final)).0.state == Ground
    ensures Feed(p, Render(priv, ns, final)).1 == [CsiDispatch(final, ns, priv, 0)]
  {
    var body := (if priv then [QUESTION] else []) + Join(ns);
    var q := Feed(p, [ESC, BRACKET]).0;
    Introducer(p);
    Body(q, priv, ns);
    var r := Feed(q, body).0;
    ValuesOfJoin(ns);
    FeedOne(r, final);
    FeedConcat(p, [ESC, BRACKET], body);
    FeedConcat(p, [ESC, BRACKET] + body, [final]);
    assert Render(priv, ns, final) == [ESC, BRACKET] + body + [final];
  }

  /** A control character inside a control sequence acts at once, and the sequence is read as if it had not been
      there. */
  lemma ControlInside(p: Parser, priv: bool, ns: seq<nat>, code: Byte, final: Byte)
    requires IsFinal(final) && IsC0Execute(code)
    ensures var body := [ESC, BRACKET] + ((if priv then [QUESTION] else []) + Join(ns));
            Feed(p, body + [code] + [final]).1 == [Execute(code), CsiDispatch(final, ns, priv, 0)]
  {
    var params := (if priv then [QUESTION] else []) + Join(ns);
    var q := Feed(p, [ESC, BRACKET]).0;
    Introducer(p);
    Body(q, priv, ns);
    var r := Feed(q, params).0;
    ValuesOfJoin(ns);
    FeedConcat(p, [ESC, BRACKET], params);
    FeedOne(r, code);
    FeedOne(r, final);
    FeedConcat(p, [ESC, BRACKET] + params, [code]);
    FeedConcat(p, [ESC, BRACKET] + params + [code], [final]);
  }

  /** A marker after the first parameter spoils the sequence: nothing comes of it up to its final byte. */
  lemma SpoiltSequence(p: Parser, ns: seq<nat>, marker: Byte, more: seq<Byte>, final: Byte)
    requires ns != [] && IsPrivateMarker(marker) && IsFinal(final)
    requires forall i | 0 <= i < |more| :: 0x20 <= more[i] <= 0x3F
    ensures Feed(p, [ESC, BRACKET] + Join(ns) + [marker] + more + [final]).1 == []
    ensures Feed(p, [ESC, BRACKET] + Join(ns) + [marker] + more + [final]).0.state == Ground
  {
    var q := Feed(p, [ESC, BRACKET]).0;
    Introducer(p);
    FeedParameters(q, Join(ns));
    var r := Feed(q, Join(ns)).0;
    FeedConcat(p, [ESC, BRACKET], Join(ns));
    FeedOne(r, marker);
    var i := Feed(r, [marker]).0;
    FeedConcat(p, [ESC, BRACKET] + Join(ns), [marker]);
    Ignores(i, more);
    FeedConcat(p, [ESC, BRACKET] + Join(ns) + [marker], more);
    FeedOne(i, final);
    FeedConcat(p, [ESC, BRACKET] + Join(ns) + [marker] + more, [final]);
  }

  lemma {:induction false} Ignores(p: Parser, s: seq<Byte>)
    requires p.state == Ignore && forall i | 0 <= i < |s| :: 0x20 <= s[i] <= 0x3F
    ensures Feed(p, s) == (p, [])
    decreases s
  {
    if s != [] {
      Ignores(p, s[1..]);
      var none: seq<Event> := [];
      assert none + none == none;
    }
  }

  /** Colons separate parameters as semicolons do, and DEL is never anything. */
  lemma ColonAndDel(p: Parser)
    requires p.state != OscString && p.state != OscStringEsc
    ensures Step(p, DEL) == (p, [])
    ensures p.state in {CsiEntry, CsiParam, CsiIntermediate} ==> Step(p, COLON) == Step(p, SEMICOLON)
  {
  }

  /** Bytes that can stand in a string. */
  predicate StringBytes(s: seq<Byte>) {
    forall i | 0 <= i < |s| :: s[i] != BEL && s[i] != ESC && s[i] != CAN && s[i] != SUB
  }

  lemma {:induction false} FeedString(p: Parser, s: seq<Byte>)
    requires p.state == OscString && StringBytes(s)
    ensures Feed(p, s) == (p.(osc := p.osc + s), [])
    decreases s
  {
    if s == [] {
      assert p.osc + s == p.osc;
    } else {
      var q := p.(osc := p.osc + [s[0]]);
      FeedString(q, s[1..]);
      assert p.osc + [s[0]] + s[1..] == p.osc + s;
      var none: seq<Event> := [];
      assert none + none == none;
    }
  }

  lemma StringIntroducer(p: Parser)
    ensures var (q, e) := Feed(p, [ESC, CLOSE_BRACKET]); e == [] && q.state == OscString && q.osc == []
  {
    FeedTwo(p, ESC, CLOSE_BRACKET);
    var m := Step(p, ESC).0;
    if p.state == OscStringEsc {
      assert Step(p, ESC) == Step(Enter(p, Escape), ESC);
    } else if p.state == OscString {
      assert Step(m, CLOSE_BRACKET) == Step(Enter(m, Escape), CLOSE_BRACKET);
    }
  }

  /** A string, whatever the parser was doing before, is handed over whole at BEL or ESC \, and nothing else of it
      reaches the terminal. */
  lemma StringRoundTrip(p: Parser, s: seq<Byte>, end: seq<Byte>)
    requires StringBytes(s) && (end == [BEL] || end == [ESC, BACKSLASH])
    ensures Feed(p, [ESC, CLOSE_BRACKET] + s + end).0.state == Ground
    ensures Feed(p, [ESC, CLOSE_BRACKET] + s + end).1 == [OscDispatch(s)]
  {
    var q := Feed(p, [ESC, CLOSE_BRACKET]).0;
    StringIntroducer(p);
    FeedString(q, s);
    assert [] + s == s;
    var r := Feed(q, s).0;
    if end == [BEL] {
      FeedOne(r, BEL);
    } else {
      FeedTwo(r, ESC, BACKSLASH);
    }
    FeedConcat(p, [ESC, CLOSE_BRACKET], s);
    FeedConcat(p, [ESC, CLOSE_BRACKET] + s, end);
  }

  /** The reply to a cursor report request is a printed control sequence. */
  lemma ReportIsRendered(c: Cursor)
    requires c.row >= 0 && c.column >= 0
    ensures TerminalModel.CursorReport(c) ==
            Render(false, [c.row + 1, c.column + 1], 'R' as int)
  {
    var row, column := c.row + 1, c.column + 1;
    var ns: seq<nat> := [row, column];
    assert ns[..1] == [row];
    assert Join(ns) == TerminalModel.Decimal(row) + [SEMICOLON] + TerminalModel.Decimal(column);
  }

  /** A printed control sequence acts on the terminal as its dispatch does. */
  lemma RenderedActs(t: TerminalModel.Terminal, ns: seq<nat>, final: Byte)
    requires t.Valid() && IsFinal(final)
    ensures var r := TerminalModel.Feed(t, Render(false, ns, final));
            r == TerminalModel.OnEvent(t, CsiDispatch(final, ns, false, 0)).(parser := r.parser)
  {
    RoundTrip(t.parser, false, ns, final);
    TerminalModel.FeedIsParseThenInterpret(t, Render(false, ns, final));
    var e := CsiDispatch(final, ns, false, 0);
    assert [e][..0] == [];
    assert TerminalModel.OnEvents(t, [e]) == TerminalModel.OnEvent(t, e);
  }

  /** Asking for the cursor position queues the report and changes nothing on the screen. */
  lemma RequestReport(t: TerminalModel.Terminal)
    requires t.Valid()
    ensures var r := TerminalModel.Feed(t, Render(false, [6], 'n' as int));
            r.screen == t.screen && r.outgoing == t.outgoing + TerminalModel.CursorReport(t.screen.cursor)
  {
    RenderedActs(t, [6], 'n' as int);
  }

  /** A cursor position sequence (CUP, section 8.3.21) inside the screen goes exactly there. */
  lemma PositionCursor(t: TerminalModel.Terminal, c: Cursor)
    requires t.Valid() && t.screen.Inside(c)
    ensures var r := TerminalModel.Feed(t, Render(false, [c.row + 1, c.column + 1], 'H' as int));
            r.screen == t.screen.(cursor := c, pendingWrap := false) && r.outgoing == t.outgoing
  {
    RenderedActs(t, [c.row + 1, c.column + 1], 'H' as int);
    assert t.outgoing + [] == t.outgoing;
  }

  /** The row and column reported (CPR, section 8.3.14), sent back as a cursor position after any
      further input, put the cursor back exactly where it was: from every well-formed terminal, in the
      middle of any sequence. */
  lemma ReportThenReturn(t: TerminalModel.Terminal, between: seq<Byte>)
    requires t.Valid()
    ensures var c := t.screen.cursor;
            var asked := TerminalModel.Feed(t, Render(false, [6], 'n' as int));
            var later := TerminalModel.Feed(asked, between);
            var back := TerminalModel.Feed(later, Render(false, [c.row + 1, c.column + 1], 'H' as int));
            && asked.outgoing == t.outgoing + Render(false, [c.row + 1, c.column + 1], 'R' as int)
            && back.screen == later.screen.(cursor := c, pendingWrap := false)
            && back.outgoing == later.outgoing
  {
    RequestReport(t);
    ReportIsRendered(t.screen.cursor);
    var asked := TerminalModel.Feed(t, Render(false, [6], 'n' as int));
    PositionCursor(TerminalModel.Feed(asked, between), t.screen.cursor);
  }
}
