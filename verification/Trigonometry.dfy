/** Sine and cosine by a table of 512 samples of one turn, interpolated linearly. Angles are reals, pi is any
    positive real, and table entries are in units of 1e-7. */
module Trigonometry {
  import opened SineTable

  // ---------------------------------------------------------------------------
  // The index arithmetic
  // ---------------------------------------------------------------------------

  const INT32 := 0x8000_0000
  const UINT32 := 0x1_0000_0000

  /** A conversion of a real number to a signed integer discards the fraction. */
  function Truncate(u: real): int {
    if u < 0.0 then -(-u).Floor else u.Floor
  }

  /** The conversion is defined for the numbers that have a 32-bit value. */
  predicate Convertible(u: real) {
    -(INT32 as real) <= u < INT32 as real
  }

  function Floored(u: real): int {
    var i := Truncate(u);
    if u < i as real then i - 1 else i
  }

  /** Reinterpreted as an unsigned 32-bit number, of which the low nine bits remain. */
  function Index(floored: int): (index: int)
    ensures 0 <= index < SIZE
  {
    floored % UINT32 % SIZE
  }

  function NextIndex(index: int): int {
    (index + 1) % SIZE
  }

  /** Keeping the low nine bits is taking the remainder by 512. */
  lemma MaskIsRemainder(floored: bv32)
    ensures floored & 511 == floored % 512
  {
  }

  lemma FlooredIsFloor(u: real)
    ensures Floored(u) == u.Floor
  {
  }

  /** The index is the true floor modulo 512, negative angles included, and the next index is its successor. */
  lemma IndexIsFloor(u: real)
    requires Convertible(u)
    ensures Index(Floored(u)) == u.Floor % SIZE && NextIndex(Index(Floored(u))) == (u.Floor + 1) % SIZE
  {
    FlooredIsFloor(u);
    RemainderOfRemainder(u.Floor);
  }

  lemma RemainderIs(n: int, q: int, r: int)
    requires n == 512 * q + r && 0 <= r < 512
    ensures n % 512 == r
  {
  }

  lemma RemainderOfRemainder(n: int)
    ensures n % UINT32 % SIZE == n % SIZE && (n % SIZE + 1) % SIZE == (n + 1) % SIZE
  {
    var high, low := n / UINT32, n % UINT32;
    var q, r := low / 512, low % 512;
    RemainderIs(n, 0x80_0000 * high + q, r);
    RemainderIs(n + 1, 0x80_0000 * high + q + (if r == 511 then 1 else 0), if r == 511 then 0 else r + 1);
  }

  // ---------------------------------------------------------------------------
  // Sine and cosine
  // ---------------------------------------------------------------------------

  /** The angle in table steps. */
  function Scaled(angle: real, pi: real): real
    requires pi > 0.0
  {
    angle * (512.0 / (2.0 * pi))
  }

  function Lookup(f: int -> int, u: real): real {
    var floored := Floored(u);
    var fraction := u - floored as real;
    var index := Index(floored);
    var nextIndex := NextIndex(index);
    f(index) as real + fraction * (f(nextIndex) - f(index)) as real
  }

  function SineOf(f: int -> int, angle: real, pi: real): real
    requires pi > 0.0
  {
    Lookup(f, Scaled(angle, pi)) / UNIT as real
  }

  function Sine(angle: real, pi: real): real
    requires pi > 0.0
  {
    SineOf(Entry, angle, pi)
  }

  function Cosine(angle: real, pi: real): real
    requires pi > 0.0
  {
    Sine(angle + pi / 2.0, pi)
  }

  // ---------------------------------------------------------------------------
  // Interpolation without end in both directions
  // ---------------------------------------------------------------------------

  function Between(a: real, b: real, x: real): real {
    a + x * (b - a)
  }

  function Wave(f: int -> int, u: real): real {
    Between(f(u.Floor) as real, f(u.Floor + 1) as real, u - u.Floor as real)
  }

  lemma Repeats(f: int -> int, n: int)
    requires OnCircle(f)
    ensures f(n % SIZE) == f(n)
  {
    assert TurnFits(f, n % SIZE, n / SIZE);
    assert n % SIZE + 512 * (n / SIZE) == n;
  }

  lemma LookupIsWave(f: int -> int, u: real)
    requires OnCircle(f) && Convertible(u)
    ensures Lookup(f, u) == Wave(f, u)
  {
    FlooredIsFloor(u);
    IndexIsFloor(u);
    Repeats(f, u.Floor);
    Repeats(f, u.Floor + 1);
  }

  lemma ShiftedFloor(u: real, k: int)
    ensures (u + k as real).Floor == u.Floor + k
  {
  }

  lemma WaveTurn(f: int -> int, u: real)
    requires OnCircle(f)
    ensures Wave(f, u + 512.0) == Wave(f, u)
  {
    ShiftedFloor(u, 512);
    assert TurnFits(f, u.Floor, 1) && TurnFits(f, u.Floor + 1, 1);
  }

  lemma BetweenNegated(a: real, b: real, x: real)
    ensures Between(-a, -b, x) == -Between(a, b, x)
    ensures Between(-b, -a, 1.0 - x) == -Between(a, b, x)
  {
  }

  lemma WaveHalfTurn(f: int -> int, u: real)
    requires OnCircle(f)
    ensures Wave(f, u + 256.0) == -Wave(f, u)
  {
    ShiftedFloor(u, 256);
    HalfTurn(f, u.Floor);
    HalfTurn(f, u.Floor + 1);
    BetweenNegated(f(u.Floor) as real, f(u.Floor + 1) as real, u - u.Floor as real);
  }

  lemma WaveOdd(f: int -> int, u: real)
    requires OnCircle(f)
    ensures Wave(f, -u) == -Wave(f, u)
  {
    var n := u.Floor;
    Odd(f, n);
    Odd(f, n + 1);
    BetweenNegated(f(n) as real, f(n + 1) as real, u - n as real);
    if u == n as real {
      assert (-u).Floor == -n;
    } else {
      assert (-u).Floor == -n - 1;
    }
  }

  lemma ProductOrdered(x: real, y: real, z: real)
    requires 0.0 <= x && y <= z
    ensures x * y <= x * z
  {
    assert x * (z - y) >= 0.0;
  }

  lemma BetweenIsMean(a: real, b: real, x: real)
    ensures Between(a, b, x) == (1.0 - x) * a + x * b
  {
  }

  lemma MeanMonotone(y: real, x: real, a: real, b: real, a1: real, b1: real)
    requires 0.0 <= y && 0.0 <= x && a <= a1 && b <= b1
    ensures y * a + x * b <= y * a1 + x * b1
  {
    ProductOrdered(y, a, a1);
    ProductOrdered(x, b, b1);
  }

  lemma BetweenMonotone(a: real, b: real, a1: real, b1: real, x: real)
    requires a <= a1 && b <= b1 && 0.0 <= x <= 1.0
    ensures Between(a, b, x) <= Between(a1, b1, x)
  {
    BetweenIsMean(a, b, x);
    BetweenIsMean(a1, b1, x);
    MeanMonotone(1.0 - x, x, a, b, a1, b1);
  }

  lemma WaveBounded(f: int -> int, u: real)
    requires OnCircle(f)
    ensures -(UNIT as real) <= Wave(f, u) <= UNIT as real
  {
    Circle(f, u.Floor);
    Circle(f, u.Floor + 1);
    var (a, b, x) := (f(u.Floor) as real, f(u.Floor + 1) as real, u - u.Floor as real);
    BetweenMonotone(a, b, UNIT as real, UNIT as real, x);
    BetweenMonotone(-(UNIT as real), -(UNIT as real), a, b, x);
  }

  // ---------------------------------------------------------------------------
  // Almost a rotation
  // ---------------------------------------------------------------------------

  predicate InRing(s: real, t: real, low: real, high: real) {
    low <= s * s + t * t <= high
  }

  lemma DotBetween(a: real, b: real, c: real, d: real, x: real, e: real, g: real)
    ensures Between(a, b, x) * e + Between(c, d, x) * g == Between(a * e + c * g, b * e + d * g, x)
  {
    var (p, q) := (b - a, d - c);
    assert (a + x * p) * e == a * e + x * (p * e);
    assert (c + x * q) * g == c * g + x * (q * g);
    assert p * e + q * g == (b * e + d * g) - (a * e + c * g);
  }

  /** The square of the length of a point on the chord between two points, from the products at the ends. */
  lemma ChordSquared(a: real, b: real, c: real, d: real, x: real, s: real, t: real, n: real, m: real, k: real)
    requires s == Between(a, b, x) && t == Between(c, d, x)
    requires n == a * a + c * c && m == a * b + c * d && k == b * b + d * d
    ensures s * s + t * t == Between(Between(n, m, x), Between(m, k, x), x)
  {
    DotBetween(a, b, c, d, x, s, t);
    DotBetween(a, b, c, d, x, a, c);
    DotBetween(a, b, c, d, x, b, d);
  }

  lemma Shortfall(base: real, drop: real, x: real)
    requires drop >= 0.0
    ensures base - drop / 2.0 <= Between(Between(base, base - drop, x), Between(base - drop, base, x), x)
  {
    assert Between(base, base - drop, x) == base - x * drop;
    assert Between(base - drop, base, x) == base - drop + x * drop;
    assert (2.0 * x - 1.0) * (2.0 * x - 1.0) * drop >= 0.0;
  }

  /** Bounds on the products at the ends carry over; the one between the ends counts at most half. */
  lemma TwiceBetween(n: real, m: real, k: real, x: real, base: real, drop: real, top: real)
    requires 0.0 <= x <= 1.0 && drop >= 0.0
    requires base <= n <= top && base - drop <= m <= top && base <= k <= top
    ensures base - drop / 2.0 <= Between(Between(n, m, x), Between(m, k, x), x) <= top
  {
    BetweenMonotone(n, m, top, top, x);
    BetweenMonotone(m, k, top, top, x);
    BetweenMonotone(Between(n, m, x), Between(m, k, x), top, top, x);
    BetweenMonotone(base, base - drop, n, m, x);
    BetweenMonotone(base - drop, base, m, k, x);
    BetweenMonotone(Between(base, base - drop, x), Between(base - drop, base, x),
                    Between(n, m, x), Between(m, k, x), x);
    Shortfall(base, drop, x);
  }

  /** A chord between two points near a circle, when the angle between them is small, is near the circle. */
  lemma ChordNearCircle(a: real, b: real, c: real, d: real, x: real, base: real, drop: real, top: real)
    requires 0.0 <= x <= 1.0 && drop >= 0.0 && InRing(a, c, base, top) && InRing(b, d, base, top)
    requires base - drop <= a * b + c * d <= top
    ensures InRing(Between(a, b, x), Between(c, d, x), base - drop / 2.0, top)
  {
    var (n, m, k) := (a * a + c * c, a * b + c * d, b * b + d * d);
    ChordSquared(a, b, c, d, x, Between(a, b, x), Between(c, d, x), n, m, k);
    TwiceBetween(n, m, k, x, base, drop, top);
  }

  predicate NearUnit(a: real, c: real) {
    InRing(a, c, 99_999_820_000_000.0, 100_000_031_000_000.0)
  }

  predicate NearTurn(a: real, b: real, c: real, d: real) {
    99_992_380_000_000.0 <= a * b + c * d <= 100_000_031_000_000.0
  }

  predicate NearCircle(s: real, t: real) {
    InRing(s, t, 99_996_000_000_000.0, 100_000_031_000_000.0)
  }

  lemma Products(a: int, b: int, c: int, d: int)
    ensures (a * b + c * d) as real == a as real * b as real + c as real * d as real
  {
  }

  lemma CloseInReals(a: int, b: int, c: int, d: int)
    requires Close(a, b, c, d)
    ensures NearUnit(a as real, c as real) && NearTurn(a as real, b as real, c as real, d as real)
  {
    Products(a, a, c, c);
    Products(a, b, c, d);
    var n, m := a * a + c * c, a * b + c * d;
    assert 99_999_820_000_000 <= n <= 100_000_031_000_000;
    assert 99_992_380_000_000 <= m <= 100_000_000_000_000;
  }

  lemma CloseChord(a: real, b: real, c: real, d: real, x: real)
    requires NearUnit(a, c) && NearTurn(a, b, c, d) && NearUnit(b, d) && 0.0 <= x <= 1.0
    ensures NearCircle(Between(a, b, x), Between(c, d, x))
  {
    ChordNearCircle(a, b, c, d, x, 99_999_820_000_000.0, 7_440_000_000.0, 100_000_031_000_000.0);
  }

  lemma EntriesClose(f: int -> int, n: int)
    requires OnCircle(f)
    ensures NearUnit(f(n) as real, f(n + 128) as real)
    ensures NearTurn(f(n) as real, f(n + 1) as real, f(n + 128) as real, f(n + 129) as real)
  {
    Circle(f, n);
    CloseInReals(f(n), f(n + 1), f(n + 128), f(n + 129));
  }

  lemma EntryChord(f: int -> int, n: int, x: real)
    requires OnCircle(f) && 0.0 <= x <= 1.0
    ensures NearCircle(Between(f(n) as real, f(n + 1) as real, x), Between(f(n + 128) as real, f(n + 129) as real, x))
  {
    EntriesClose(f, n);
    EntriesClose(f, n + 1);
    CloseChord(f(n) as real, f(n + 1) as real, f(n + 128) as real, f(n + 129) as real, x);
  }

  lemma WaveNearCircle(f: int -> int, u: real)
    requires OnCircle(f)
    ensures NearCircle(Wave(f, u), Wave(f, u + 128.0))
  {
    ShiftedFloor(u, 128);
    EntryChord(f, u.Floor, u - u.Floor as real);
  }

  // ---------------------------------------------------------------------------
  // Every angle
  // ---------------------------------------------------------------------------

  /** The angle has an index. */
  predicate Representable(angle: real, pi: real)
    requires pi > 0.0
  {
    Convertible(Scaled(angle, pi))
  }

  lemma Steps(angle: real, pi: real)
    requires pi > 0.0
    ensures Scaled(angle + 2.0 * pi, pi) == Scaled(angle, pi) + 512.0
    ensures Scaled(angle + pi, pi) == Scaled(angle, pi) + 256.0
    ensures Scaled(angle + pi / 2.0, pi) == Scaled(angle, pi) + 128.0
    ensures Scaled(-angle, pi) == -Scaled(angle, pi)
  {
    var steps := 512.0 / (2.0 * pi);
    assert steps * (2.0 * pi) == 512.0;
    assert steps * pi == 256.0;
    assert steps * (pi / 2.0) == 128.0;
  }

  lemma SineIsWave(f: int -> int, angle: real, pi: real)
    requires OnCircle(f) && pi > 0.0 && Representable(angle, pi)
    ensures SineOf(f, angle, pi) == Wave(f, Scaled(angle, pi)) / UNIT as real
  {
    LookupIsWave(f, Scaled(angle, pi));
  }

  lemma Unscaled(s: real, t: real)
    requires NearCircle(s, t)
    ensures InRing(s / UNIT as real, t / UNIT as real, 0.99996, 1.00000031)
  {
    var (p, q) := (s / UNIT as real, t / UNIT as real);
    assert p * p + q * q == (s * s + t * t) / 100_000_000_000_000.0;
  }

  lemma TablePeriodic(f: int -> int, angle: real, pi: real)
    requires OnCircle(f) && pi > 0.0 && Representable(angle, pi) && Representable(angle + 2.0 * pi, pi)
    ensures SineOf(f, angle + 2.0 * pi, pi) == SineOf(f, angle, pi)
  {
    SineIsWave(f, angle, pi);
    SineIsWave(f, angle + 2.0 * pi, pi);
    Steps(angle, pi);
    WaveTurn(f, Scaled(angle, pi));
  }

  lemma TableHalfTurn(f: int -> int, angle: real, pi: real)
    requires OnCircle(f) && pi > 0.0 && Representable(angle, pi) && Representable(angle + pi, pi)
    ensures SineOf(f, angle + pi, pi) == -SineOf(f, angle, pi)
  {
    SineIsWave(f, angle, pi);
    SineIsWave(f, angle + pi, pi);
    Steps(angle, pi);
    WaveHalfTurn(f, Scaled(angle, pi));
  }

  lemma TableOdd(f: int -> int, angle: real, pi: real)
    requires OnCircle(f) && pi > 0.0 && Representable(angle, pi) && Representable(-angle, pi)
    ensures SineOf(f, -angle, pi) == -SineOf(f, angle, pi)
  {
    SineIsWave(f, angle, pi);
    SineIsWave(f, -angle, pi);
    Steps(angle, pi);
    WaveOdd(f, Scaled(angle, pi));
  }

  lemma TableBounded(f: int -> int, angle: real, pi: real)
    requires OnCircle(f) && pi > 0.0 && Representable(angle, pi)
    ensures -1.0 <= SineOf(f, angle, pi) <= 1.0
  {
    SineIsWave(f, angle, pi);
    WaveBounded(f, Scaled(angle, pi));
  }

  lemma TableOnUnitCircle(f: int -> int, angle: real, pi: real)
    requires OnCircle(f) && pi > 0.0 && Representable(angle, pi) && Representable(angle + pi / 2.0, pi)
    ensures InRing(SineOf(f, angle, pi), SineOf(f, angle + pi / 2.0, pi), 0.99996, 1.00000031)
  {
    var u := Scaled(angle, pi);
    SineIsWave(f, angle, pi);
    Steps(angle, pi);
    SineIsWave(f, angle + pi / 2.0, pi);
    WaveNearCircle(f, u);
    Unscaled(Wave(f, u), Wave(f, u + 128.0));
  }

  /** A whole turn changes nothing. */
  lemma SinePeriodic(angle: real, pi: real)
    requires pi > 0.0 && Representable(angle, pi) && Representable(angle + 2.0 * pi, pi)
    ensures Sine(angle + 2.0 * pi, pi) == Sine(angle, pi)
  {
    SineOnCircle();
    TablePeriodic(Entry, angle, pi);
  }

  /** Half a turn changes the sign. */
  lemma SineHalfTurn(angle: real, pi: real)
    requires pi > 0.0 && Representable(angle, pi) && Representable(angle + pi, pi)
    ensures Sine(angle + pi, pi) == -Sine(angle, pi)
  {
    SineOnCircle();
    TableHalfTurn(Entry, angle, pi);
  }

  lemma SineOdd(angle: real, pi: real)
    requires pi > 0.0 && Representable(angle, pi) && Representable(-angle, pi)
    ensures Sine(-angle, pi) == -Sine(angle, pi)
  {
    SineOnCircle();
    TableOdd(Entry, angle, pi);
  }

  lemma SineBounded(angle: real, pi: real)
    requires pi > 0.0 && Representable(angle, pi)
    ensures -1.0 <= Sine(angle, pi) <= 1.0
  {
    SineOnCircle();
    TableBounded(Entry, angle, pi);
  }

  /** Sine and cosine, looked up separately, are a point on the unit circle to within 4e-5. */
  lemma OnUnitCircle(angle: real, pi: real)
    requires pi > 0.0 && Representable(angle, pi) && Representable(angle + pi / 2.0, pi)
    ensures InRing(Sine(angle, pi), Cosine(angle, pi), 0.99996, 1.00000031)
  {
    SineOnCircle();
    TableOnUnitCircle(Entry, angle, pi);
  }

  lemma TableAtStep(f: int -> int, n: int, pi: real)
    requires OnCircle(f) && pi > 0.0 && -INT32 <= n < INT32
    ensures SineOf(f, n as real * (2.0 * pi / 512.0), pi) == f(n) as real / UNIT as real
  {
    assert (2.0 * pi / 512.0) * (512.0 / (2.0 * pi)) == 1.0;
    assert Scaled(n as real * (2.0 * pi / 512.0), pi) == n as real;
    SineIsWave(f, n as real * (2.0 * pi / 512.0), pi);
  }

  /** At every multiple of 1/512 of a turn the sine is the entry itself. */
  lemma SineAtStep(n: int, pi: real)
    requires pi > 0.0 && -INT32 <= n < INT32
    ensures Sine(n as real * (2.0 * pi / 512.0), pi) == Entry(n) as real / UNIT as real
  {
    SineOnCircle();
    TableAtStep(Entry, n, pi);
  }

  lemma Axes()
    ensures Entry(0) == 0 && Entry(128) == UNIT && Entry(256) == 0
  {
    Address(128, 1, 0, 0);
    Address(256, 2, 0, 0);
  }

  lemma TableQuarterTurns(f: int -> int, pi: real)
    requires OnCircle(f) && pi > 0.0 && f(0) == 0 && f(128) == UNIT && f(256) == 0
    ensures SineOf(f, 0.0, pi) == 0.0 && SineOf(f, pi / 2.0, pi) == 1.0 && SineOf(f, pi / 2.0 + pi / 2.0, pi) == 0.0
  {
    TableAtStep(f, 0, pi);
    TableAtStep(f, 128, pi);
    TableAtStep(f, 256, pi);
    assert 0 as real * (2.0 * pi / 512.0) == 0.0 && 128 as real * (2.0 * pi / 512.0) == pi / 2.0;
    assert 256 as real * (2.0 * pi / 512.0) == pi / 2.0 + pi / 2.0;
  }

  /** The angles at which cosine and sine are the axes. */
  lemma QuarterTurns(pi: real)
    requires pi > 0.0
    ensures Sine(0.0, pi) == 0.0 && Cosine(0.0, pi) == 1.0
    ensures Sine(pi / 2.0, pi) == 1.0 && Cosine(pi / 2.0, pi) == 0.0
  {
    SineOnCircle();
    Axes();
    TableQuarterTurns(Entry, pi);
    assert 0.0 + pi / 2.0 == pi / 2.0;
  }
}
