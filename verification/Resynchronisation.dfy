/** CAN and SUB, and no other byte, bring the parser back in step with a fresh one. */
module Resynchronisation {
  import opened Basics
  import opened TerminalTypes
  import opened ParserModel

  /** The registers a state can still read; everything else is stale and set to its reset value. */
  function Live(p: Parser): Parser {
    match p.state
    case Ground => FRESH
    case Ignore => FRESH.(state := Ignore)
    case Escape => FRESH.(state := Escape, intermediate := p.intermediate)
    case OscString => FRESH.(state := OscString, osc := p.osc)
    case OscStringEsc => FRESH.(state := OscStringEsc, osc := p.osc)
    case _ => p.(osc := [])
  }

  /** Live is a bisimulation: parsers that agree on it cannot be told apart by one byte... */
  lemma StepLive(p: Parser, q: Parser, b: Byte)
    requires Live(p) == Live(q)
    ensures Step(p, b).1 == Step(q, b).1
    ensures Live(Step(p, b).0) == Live(Step(q, b).0)
    decreases p.state == OscStringEsc
  {
    if p.state == OscStringEsc && b != BACKSLASH {
      StepLive(Enter(p, Escape), Enter(q, Escape), b);
    }
  }

  /** ...nor by any byte string. */
  lemma {:induction false} FeedLive(p: Parser, q: Parser, bs: seq<Byte>)
    requires Live(p) == Live(q)
    ensures Feed(p, bs).1 == Feed(q, bs).1
    ensures Live(Feed(p, bs).0) == Live(Feed(q, bs).0)
    decreases bs
  {
    if bs != [] {
      StepLive(p, q, bs[0]);
      FeedLive(Step(p, bs[0]).0, Step(q, bs[0]).0, bs[1..]);
    }
  }

  /** The callbacks a fresh parser makes on a byte string. */
  function Events(bs: seq<Byte>): seq<Event> {
    Feed(FRESH, bs).1
  }

  predicate InStepAfter(p: seq<Byte>, b: Byte, t: seq<Byte>) {
    Events(p + [b] + t) == Events(p + [b]) + Events(t)
  }

  /** After this byte the past no longer matters, whatever came before. */
  ghost predicate Synchronises(b: Byte) {
    forall p: seq<Byte>, t: seq<Byte> :: InStepAfter(p, b, t)
  }

  /** CAN and SUB abort silently from every state, and what follows is read as by a fresh parser. */
  lemma Resynchronised(p: seq<Byte>, b: Byte, t: seq<Byte>)
    requires b == CAN || b == SUB
    ensures Events(p + [b]) == Events(p)
    ensures Events(p + [b] + t) == Events(p) + Events(t)
  {
    var m := Feed(FRESH, p).0;
    var (n, e) := Step(m, b);
    assert n.state == Ground && e == [] by {
      if m.state == OscStringEsc {
        assert Step(m, b) == Step(Enter(m, Escape), b);
      }
    }
    FeedOne(m, b);
    FeedConcat(FRESH, p, [b]);
    FeedConcat(FRESH, p + [b], t);
    FeedLive(n, FRESH, t);
  }

  lemma Cancel<T>(a: seq<T>, x: seq<T>, y: seq<T>)
    ensures a + x == a + y <==> x == y
  {
    assert (a + x)[|a|..] == x && (a + y)[|a|..] == y;
  }

  /** For every other byte some context keeps it from synchronising. */
  lemma OthersDoNot(b: Byte)
    requires b != CAN && b != SUB
    ensures exists p: seq<Byte>, t: seq<Byte> :: !InStepAfter(p, b, t)
  {
    var letter: Byte := 'm' as int;
    var p: seq<Byte> := if b == ESC then [] else if b == BEL then [ESC, BRACKET] else [ESC, CLOSE_BRACKET];
    var t: seq<Byte> := [letter];
    var m := Feed(FRESH, p).0;
    if b != ESC {
      FeedTwo(FRESH, ESC, p[1]);
    }
    FeedOne(m, b);
    FeedOne(Step(m, b).0, letter);
    FeedOne(FRESH, letter);
    FeedConcat(FRESH, p, [b]);
    FeedConcat(FRESH, p + [b], t);
    var tail := Feed(Step(m, b).0, t).1;
    assert tail != Events(t);
    assert Events(p + [b] + t) == Events(p + [b]) + tail;
    Cancel(Events(p + [b]), tail, Events(t));
    assert !InStepAfter(p, b, t);
  }

  lemma SynchronisingBytes(b: Byte)
    ensures Synchronises(b) <==> b == CAN || b == SUB
  {
    if b == CAN || b == SUB {
      forall p: seq<Byte>, t: seq<Byte> ensures InStepAfter(p, b, t) {
        Resynchronised(p, b, t);
      }
    } else {
      OthersDoNot(b);
    }
  }
}
