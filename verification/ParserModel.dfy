/** The byte-level VT100 automaton as a transition function on values (ECMA-48, section 5.4). */
module ParserModel {
  import opened Basics
  import opened TerminalTypes

  const ESC: Byte := 0x1B
  const CAN: Byte := 0x18
  const SUB: Byte := 0x1A
  const BEL: Byte := 0x07
  const DEL: Byte := 0x7F
  const BACKSLASH: Byte := 0x5C
  const BRACKET: Byte := 0x5B
  const CLOSE_BRACKET: Byte := 0x5D
  const SEMICOLON: Byte := 0x3B
  const COLON: Byte := 0x3A
  const QUESTION: Byte := 0x3F

  datatype State =
    | Ground | Escape | CsiEntry | CsiParam | CsiIntermediate
    | OscString | OscStringEsc | Ignore

  datatype Event =
    | Print(code: Byte)
    | Execute(code: Byte)
    | EscDispatch(final: Byte, intermediate: Byte)
    | CsiDispatch(final: Byte, params: seq<nat>, privateMarker: bool, intermediate: Byte)
    | OscDispatch(payload: seq<Byte>)

  datatype Parser = Parser(
    state: State, params: seq<Byte>, osc: seq<Byte>, intermediate: Byte, privateMarker: bool)

  const FRESH := Parser(Ground, [], [], 0, false)

  predicate IsC0Execute(b: Byte) { b <= 0x17 || b == 0x19 || 0x1C <= b <= 0x1F }

  predicate IsIntermediate(b: Byte) { 0x20 <= b <= 0x2F }

  predicate IsParameter(b: Byte) { 0x30 <= b <= 0x3B }

  predicate IsPrivateMarker(b: Byte) { 0x3C <= b <= 0x3F }

  predicate IsFinal(b: Byte) { 0x40 <= b <= 0x7E }

  /** The bytes that introduce a string: OSC, and DCS, SOS, PM, APC which are consumed alike. */
  predicate OpensString(b: Byte) {
    b == CLOSE_BRACKET || b == 'P' as int || b == 'X' as int || b == '^' as int || b == '_' as int
  }

  /** Entering a state clears the fields that state is about to collect. */
  function Enter(p: Parser, next: State): Parser {
    match next
    case CsiEntry => p.(state := next, params := [], intermediate := 0, privateMarker := false)
    case Escape => p.(state := next, intermediate := 0)
    case OscString => p.(state := next, osc := [])
    case _ => p.(state := next)
  }

  /** A digit continues the last field, a semicolon opens the next one. */
  function NextByte(v: seq<nat>, c: Byte): (r: seq<nat>)
    requires |v| > 0
    ensures |r| > 0
  {
    if c == SEMICOLON then v + [0]
    else if 0x30 <= c <= 0x39 then v[|v| - 1 := v[|v| - 1] * 10 + (c - 0x30)]
    else v
  }

  /** Numeric value of each field of a parameter string, read left to right; never empty. */
  function FieldValues(s: seq<Byte>): (v: seq<nat>)
    ensures |v| > 0
  {
    if s == [] then [0] else NextByte(FieldValues(s[..|s| - 1]), s[|s| - 1])
  }

  /** An empty parameter string has no parameters at all. */
  function Values(s: seq<Byte>): seq<nat> {
    if s == [] then [] else FieldValues(s)
  }

  function Dispatch(p: Parser, b: Byte): (Parser, seq<Event>) {
    (Enter(p, Ground), [CsiDispatch(b, Values(p.params), p.privateMarker, p.intermediate)])
  }

  function CollectIntermediate(p: Parser, b: Byte): Parser {
    Enter(p.(intermediate := b), CsiIntermediate)
  }

  /** Sub-parameters separated by colons are treated like parameters. */
  function CollectParameter(p: Parser, b: Byte): Parser {
    Enter(p.(params := p.params + [if b == COLON then SEMICOLON else b]), CsiParam)
  }

  function StepEscape(p: Parser, b: Byte): (Parser, seq<Event>) {
    if IsIntermediate(b) then (p.(intermediate := b), [])
    else if b == BRACKET then (Enter(p, CsiEntry), [])
    else if OpensString(b) then (Enter(p, OscString), [])
    else if b == BACKSLASH then (Enter(p, Ground), [])
    else if 0x30 <= b <= 0x7E then (Enter(p, Ground), [EscDispatch(b, p.intermediate)])
    else (p, [])
  }

  /** The three control-sequence states differ only in what they still accept. */
  function StepCsi(p: Parser, b: Byte): (Parser, seq<Event>) {
    if IsFinal(b) then Dispatch(p, b)
    else if IsIntermediate(b) then (CollectIntermediate(p, b), [])
    else if IsParameter(b) && p.state != CsiIntermediate then (CollectParameter(p, b), [])
    else if IsPrivateMarker(b) && p.state == CsiEntry then
      (Enter(p.(privateMarker := b == QUESTION), CsiParam), [])
    else (Enter(p, Ignore), [])
  }

  function Step(p: Parser, b: Byte): (Parser, seq<Event>)
    decreases p.state == OscStringEsc
  {
    if p.state == OscString then
      if b == BEL then (Enter(p, Ground), [OscDispatch(p.osc)])
      else if b == ESC then (p.(state := OscStringEsc), [])
      else if b == CAN || b == SUB then (Enter(p, Ground), [])
      else (p.(osc := p.osc + [b]), [])
    else if p.state == OscStringEsc then
      if b == BACKSLASH then (Enter(p, Ground), [OscDispatch(p.osc)])
      else Step(Enter(p, Escape), b)
    else if b == ESC then (Enter(p, Escape), [])
    else if b == CAN || b == SUB then (Enter(p, Ground), [])
    else if p.state == Ignore then
      if IsFinal(b) then (Enter(p, Ground), []) else (p, [])
    else if IsC0Execute(b) then (p, [Execute(b)])
    else if b == DEL then (p, [])
    else match p.state
      case Ground => (p, [Print(b)])
      case Escape => StepEscape(p, b)
      case _ => StepCsi(p, b)
  }

  function Feed(p: Parser, bs: seq<Byte>): (Parser, seq<Event>)
    decreases bs
  {
    if bs == [] then (p, [])
    else
      var (q, e) := Step(p, bs[0]);
      var (r, f) := Feed(q, bs[1..]);
      (r, e + f)
  }

  /** Feeding in two pieces is feeding the whole. */
  lemma {:induction false} FeedConcat(p: Parser, a: seq<Byte>, b: seq<Byte>)
    ensures var m := Feed(p, a);
            var n := Feed(m.0, b);
            Feed(p, a + b) == (n.0, m.1 + n.1)
    decreases a
  {
    if a == [] {
      assert a + b == b;
      assert Feed(p, a).1 + Feed(p, b).1 == Feed(p, b).1;
    } else {
      assert (a + b)[0] == a[0] && (a + b)[1..] == a[1..] + b;
      var (q, e) := Step(p, a[0]);
      FeedConcat(q, a[1..], b);
      var (m, f) := Feed(q, a[1..]);
      assert e + (f + Feed(m, b).1) == (e + f) + Feed(m, b).1;
    }
  }

  lemma FeedOne(p: Parser, b: Byte)
    ensures Feed(p, [b]) == Step(p, b)
  {
    var (q, e) := Step(p, b);
    assert Feed(q, [b][1..]) == (q, []);
    assert e + [] == e;
  }

  lemma FeedTwo(p: Parser, a: Byte, b: Byte)
    ensures var (q, e) := Step(p, a);
            var (r, f) := Step(q, b);
            Feed(p, [a, b]) == (r, e + f)
  {
    FeedOne(p, a);
    FeedOne(Step(p, a).0, b);
    FeedConcat(p, [a], [b]);
    assert [a] + [b] == [a, b];
  }
}
