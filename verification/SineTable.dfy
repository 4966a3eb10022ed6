/** The sine table of the trigonometry unit, in units of 1e-7: 512 samples of one turn, by quarters and rows. */
module SineTable {
  const SIZE := 512
  const UNIT := 10_000_000

  type Row = row: seq<int> | |row| == 8 witness [0, 0, 0, 0, 0, 0, 0, 0]

  function FirstQuarter(r: int): Row {
    match r
    case 0 => [0, 122715, 245412, 368072, 490677, 613207, 735646, 857973]
    case 1 => [980171, 1102222, 1224107, 1345807, 1467305, 1588581, 1709619, 1830399]
    case 2 => [1950903, 2071114, 2191012, 2310581, 2429802, 2548656, 2667128, 2785197]
    case 3 => [2902847, 3020059, 3136817, 3253103, 3368899, 3484187, 3598950, 3713172]
    case 4 => [3826834, 3939920, 4052413, 4164296, 4275551, 4386163, 4496113, 4605387]
    case 5 => [4713967, 4821838, 4928982, 5035384, 5141027, 5245897, 5349976, 5453249]
    case 6 => [5555702, 5657318, 5758082, 5857979, 5956993, 6055110, 6152316, 6248595]
    case 7 => [6343933, 6438316, 6531728, 6624157, 6715590, 6806013, 6895405, 6983750]
    case 8 => [7071068, 7157308, 7242471, 7326542, 7409511, 7491364, 7572088, 7651673]
    case 9 => [7730105, 7807372, 7883464, 7958369, 8032075, 8104572, 8175848, 8245893]
    case 10 => [8314696, 8382247, 8448536, 8513552, 8577286, 8639729, 8700870, 8760701]
    case 11 => [8819213, 8876396, 8932243, 8986745, 9039893, 9091680, 9142098, 9191139]
    case 12 => [9238795, 9285060, 9329928, 9373390, 9415441, 9456073, 9495282, 9533061]
    case 13 => [9569403, 9604305, 9637761, 9669765, 9700313, 9729400, 9757021, 9783174]
    case 14 => [9807853, 9831055, 9852776, 9873014, 9891765, 9909026, 9924795, 9939070]
    case _ => [9951847, 9963126, 9972905, 9981181, 9987955, 9993224, 9996988, 9999247]
  }

  function SecondQuarter(r: int): Row {
    match r
    case 0 => [10000000, 9999247, 9996988, 9993224, 9987955, 9981181, 9972905, 9963126]
    case 1 => [9951847, 9939070, 9924795, 9909026, 9891765, 9873014, 9852776, 9831055]
    case 2 => [9807853, 9783174, 9757021, 9729400, 9700313, 9669765, 9637761, 9604305]
    case 3 => [9569403, 9533061, 9495282, 9456073, 9415441, 9373390, 9329928, 9285060]
    case 4 => [9238795, 9191139, 9142098, 9091680, 9039893, 8986745, 8932243, 8876396]
    case 5 => [8819213, 8760701, 8700870, 8639729, 8577286, 8513552, 8448536, 8382247]
    case 6 => [8314696, 8245893, 8175848, 8104572, 8032075, 7958369, 7883464, 7807372]
    case 7 => [7730105, 7651673, 7572088, 7491364, 7409511, 7326542, 7242471, 7157308]
    case 8 => [7071068, 6983750, 6895405, 6806013, 6715590, 6624157, 6531728, 6438316]
    case 9 => [6343933, 6248595, 6152316, 6055110, 5956993, 5857979, 5758082, 5657318]
    case 10 => [5555702, 5453249, 5349976, 5245897, 5141027, 5035384, 4928982, 4821838]
    case 11 => [4713967, 4605387, 4496113, 4386163, 4275551, 4164296, 4052413, 3939920]
    case 12 => [3826834, 3713172, 3598950, 3484187, 3368899, 3253103, 3136817, 3020059]
    case 13 => [2902847, 2785197, 2667128, 2548656, 2429802, 2310581, 2191012, 2071114]
    case 14 => [1950903, 1830399, 1709619, 1588581, 1467305, 1345807, 1224107, 1102222]
    case _ => [980171, 857973, 735646, 613207, 490677, 368072, 245412, 122715]
  }

  function ThirdQuarter(r: int): Row {
    match r
    case 0 => [0, -122715, -245412, -368072, -490677, -613207, -735646, -857973]
    case 1 => [-980171, -1102222, -1224107, -1345807, -1467305, -1588581, -1709619, -1830399]
    case 2 => [-1950903, -2071114, -2191012, -2310581, -2429802, -2548656, -2667128, -2785197]
    case 3 => [-2902847, -3020059, -3136817, -3253103, -3368899, -3484187, -3598950, -3713172]
    case 4 => [-3826834, -3939920, -4052413, -4164296, -4275551, -4386163, -4496113, -4605387]
    case 5 => [-4713967, -4821838, -4928982, -5035384, -5141027, -5245897, -5349976, -5453249]
    case 6 => [-5555702, -5657318, -5758082, -5857979, -5956993, -6055110, -6152316, -6248595]
    case 7 => [-6343933, -6438316, -6531728, -6624157, -6715590, -6806013, -6895405, -6983750]
    case 8 => [-7071068, -7157308, -7242471, -7326542, -7409511, -7491364, -7572088, -7651673]
    case 9 => [-7730105, -7807372, -7883464, -7958369, -8032075, -8104572, -8175848, -8245893]
    case 10 => [-8314696, -8382247, -8448536, -8513552, -8577286, -8639729, -8700870, -8760701]
    case 11 => [-8819213, -8876396, -8932243, -8986745, -9039893, -9091680, -9142098, -9191139]
    case 12 => [-9238795, -9285060, -9329928, -9373390, -9415441, -9456073, -9495282, -9533061]
    case 13 => [-9569403, -9604305, -9637761, -9669765, -9700313, -9729400, -9757021, -9783174]
    case 14 => [-9807853, -9831055, -9852776, -9873014, -9891765, -9909026, -9924795, -9939070]
    case _ => [-9951847, -9963126, -9972905, -9981181, -9987955, -9993224, -9996988, -9999247]
  }

  function FourthQuarter(r: int): Row {
    match r
    case 0 => [-10000000, -9999247, -9996988, -9993224, -9987955, -9981181, -9972905, -9963126]
    case 1 => [-9951847, -9939070, -9924795, -9909026, -9891765, -9873014, -9852776, -9831055]
    case 2 => [-9807853, -9783174, -9757021, -9729400, -9700313, -9669765, -9637761, -9604305]
    case 3 => [-9569403, -9533061, -9495282, -9456073, -9415441, -9373390, -9329928, -9285060]
    case 4 => [-9238795, -9191139, -9142098, -9091680, -9039893, -8986745, -8932243, -8876396]
    case 5 => [-8819213, -8760701, -8700870, -8639729, -8577286, -8513552, -8448536, -8382247]
    case 6 => [-8314696, -8245893, -8175848, -8104572, -8032075, -7958369, -7883464, -7807372]
    case 7 => [-7730105, -7651673, -7572088, -7491364, -7409511, -7326542, -7242471, -7157308]
    case 8 => [-7071068, -6983750, -6895405, -6806013, -6715590, -6624157, -6531728, -6438316]
    case 9 => [-6343933, -6248595, -6152316, -6055110, -5956993, -5857979, -5758082, -5657318]
    case 10 => [-5555702, -5453249, -5349976, -5245897, -5141027, -5035384, -4928982, -4821838]
    case 11 => [-4713967, -4605387, -4496113, -4386163, -4275551, -4164296, -4052413, -3939920]
    case 12 => [-3826834, -3713172, -3598950, -3484187, -3368899, -3253103, -3136817, -3020059]
    case 13 => [-2902847, -2785197, -2667128, -2548656, -2429802, -2310581, -2191012, -2071114]
    case 14 => [-1950903, -1830399, -1709619, -1588581, -1467305, -1345807, -1224107, -1102222]
    case _ => [-980171, -857973, -735646, -613207, -490677, -368072, -245412, -122715]
  }

  /** A table of four quarter turns with 16 rows each. */
  datatype Table = Table(first: int -> Row, second: int -> Row, third: int -> Row, fourth: int -> Row) {
    function Quarter(q: int): int -> Row {
      match q
      case 0 => first
      case 1 => second
      case 2 => third
      case _ => fourth
    }

    /** The entry at any signed index, the table being repeated without end in both directions. */
    function At(n: int): int {
      Quarter(n / 128 % 4)(n / 8 % 16)[n % 8]
    }
  }

  const SINE := Table(FirstQuarter, SecondQuarter, ThirdQuarter, FourthQuarter)

  /** Two successive entries and the two a quarter turn on: each pair is a point in the unit square, the
      first point is almost on the unit circle and the second almost its rotation by 1/512 of a turn. */
  predicate Close(a: int, b: int, c: int, d: int) {
    && -UNIT <= a <= UNIT && -UNIT <= c <= UNIT
    && -180_000_000 <= a * a + c * c - UNIT * UNIT <= 31_000_000
    && -7_620_000_000 <= a * b + c * d - UNIT * UNIT <= 0
  }

  predicate RowsClose(x: Row, x8: int, y: Row, y8: int)
  {
    && Close(x[0], x[1], y[0], y[1]) && Close(x[1], x[2], y[1], y[2])
    && Close(x[2], x[3], y[2], y[3]) && Close(x[3], x[4], y[3], y[4])
    && Close(x[4], x[5], y[4], y[5]) && Close(x[5], x[6], y[5], y[6])
    && Close(x[6], x[7], y[6], y[7]) && Close(x[7], x8, y[7], y8)
  }

  predicate Negates(x: Row, y: Row)
  {
    && y[0] == -x[0] && y[1] == -x[1] && y[2] == -x[2] && y[3] == -x[3]
    && y[4] == -x[4] && y[5] == -x[5] && y[6] == -x[6] && y[7] == -x[7]
  }

  predicate Mirrors(x: Row, y: Row, y8: int)
  {
    && y8 == x[0] && y[7] == x[1] && y[6] == x[2] && y[5] == x[3]
    && y[4] == x[4] && y[3] == x[5] && y[2] == x[6] && y[1] == x[7]
  }

  /** All that is used of a row of each quarter: the third and fourth quarter are the negated first and second,
      the second is the mirror image of the first, and the entries are those of a circle. Next to a row x and
      its entry x8 that follows it stands the row w of the second quarter that x mirrors, w8 being what follows. */
  predicate Fit(x: Row, x8: int, y: Row, y8: int, z: Row, u: Row, w: Row, w8: int) {
    Negates(x, z) && Negates(y, u) && Mirrors(x, w, w8) && RowsClose(x, x8, y, y8)
  }

  predicate RowFits(t: Table, r: int) {
    Fit(t.first(r), if r == 15 then t.second(0)[0] else t.first(r + 1)[0],
        t.second(r), if r == 15 then t.third(0)[0] else t.second(r + 1)[0],
        t.third(r), t.fourth(r),
        t.second(15 - r), if r == 0 then t.third(0)[0] else t.second(16 - r)[0])
  }

  /** The same of the table itself, its rows spelled out so that they can be computed. */
  predicate SineRowFits(r: int) {
    Fit(FirstQuarter(r), if r == 15 then SecondQuarter(0)[0] else FirstQuarter(r + 1)[0],
        SecondQuarter(r), if r == 15 then ThirdQuarter(0)[0] else SecondQuarter(r + 1)[0],
        ThirdQuarter(r), FourthQuarter(r),
        SecondQuarter(15 - r), if r == 0 then ThirdQuarter(0)[0] else SecondQuarter(16 - r)[0])
  }

  predicate SineRowsFit(lo: int, hi: int)
    requires 0 <= lo <= hi <= 16
    decreases hi
  {
    lo == hi || (SineRowsFit(lo, hi - 1) && SineRowFits(hi - 1))
  }

  lemma Rows0To4()
    ensures SineRowsFit(0, 4)
  {
  }

  lemma Rows4To8()
    ensures SineRowsFit(4, 8)
  {
  }

  lemma Rows8To12()
    ensures SineRowsFit(8, 12)
  {
  }

  lemma Rows12To16()
    ensures SineRowsFit(12, 16)
  {
  }

  lemma RowAmong(r: int, lo: int, hi: int)
    requires 0 <= lo <= r < hi <= 16 && SineRowsFit(lo, hi)
    ensures SineRowFits(r)
  {
    if r < hi - 1 {
      RowAmong(r, lo, hi - 1);
    }
  }

  lemma SineRow(r: int)
    requires 0 <= r < 16
    ensures SineRowFits(r)
  {
    if r < 4 {
      Rows0To4();
      RowAmong(r, 0, 4);
    } else if r < 8 {
      Rows4To8();
      RowAmong(r, 4, 8);
    } else if r < 12 {
      Rows8To12();
      RowAmong(r, 8, 12);
    } else {
      Rows12To16();
      RowAmong(r, 12, 16);
    }
  }

  lemma SineFits(r: int)
    requires 0 <= r < 16
    ensures RowFits(SINE, r)
  {
    SineRow(r);
  }

  /** A table that fits a circle row by row. */
  predicate Circular(t: Table) {
    forall r | 0 <= r < 16 :: RowFits(t, r)
  }

  lemma Address(n: int, q: int, r: int, j: int)
    requires 0 <= r < 16 && 0 <= j < 8 && n == 128 * q + 8 * r + j
    ensures n / 128 == q && n / 8 % 16 == r && n % 8 == j
  {
  }

  /** The index n is that of an entry of the first turn, a value of f there the entry. */
  predicate Located(t: Table, f: int -> int, n: int, q: int, r: int, j: int)
    requires 0 <= j < 8
  {
    n == 128 * q + 8 * r + j ==> f(n) == t.Quarter(q)(r)[j]
  }

  ghost predicate Reads(t: Table, f: int -> int) {
    forall n, q, r, j | 0 <= q < 4 && 0 <= r < 16 && 0 <= j < 8 :: Located(t, f, n, q, r, j)
  }

  predicate NegatedAt(f: int -> int, n: int) {
    f(n + 256) == -f(n)
  }

  predicate MirroredAt(f: int -> int, n: int) {
    f(256 - n) == f(n)
  }

  predicate CloseAt(f: int -> int, n: int) {
    Close(f(n), f(n + 1), f(n + 128), f(n + 129))
  }

  /** What a function of the index has to do with a circle, at index n of the first quarter turn. */
  predicate QuarterFits(f: int -> int, n: int) {
    NegatedAt(f, n) && NegatedAt(f, n + 128) && MirroredAt(f, n) && CloseAt(f, n)
  }

  predicate TurnFits(f: int -> int, n: int, k: int) {
    f(n + 512 * k) == f(n)
  }

  ghost predicate OnCircle(f: int -> int) {
    && (forall n | 0 <= n < 128 :: QuarterFits(f, n))
    && (forall n, k :: TurnFits(f, n, k))
  }

  lemma NegatedPair(x: Row, y: Row, j: int)
    requires Negates(x, y) && 0 <= j < 8
    ensures y[j] == -x[j]
  {
  }

  lemma RowNegated(t: Table, f: int -> int, n: int, r: int, j: int)
    requires Reads(t, f) && RowFits(t, r) && 0 <= r < 16 && 0 <= j < 8 && n == 8 * r + j
    ensures NegatedAt(f, n) && NegatedAt(f, n + 128)
  {
    NegatedPair(t.first(r), t.third(r), j);
    NegatedPair(t.second(r), t.fourth(r), j);
    assert Located(t, f, n, 0, r, j) && Located(t, f, n + 256, 2, r, j);
    assert Located(t, f, n + 128, 1, r, j) && Located(t, f, n + 384, 3, r, j);
  }

  lemma RowMirrored(t: Table, f: int -> int, n: int, r: int, j: int)
    requires Reads(t, f) && RowFits(t, r) && 0 <= r < 16 && 0 <= j < 8 && n == 8 * r + j
    ensures MirroredAt(f, n)
  {
    assert Located(t, f, n, 0, r, j);
    if j > 0 {
      assert Located(t, f, 256 - n, 1, 15 - r, 8 - j);
    } else if r > 0 {
      assert Located(t, f, 256 - n, 1, 16 - r, 0);
    } else {
      assert Located(t, f, 256, 2, 0, 0);
    }
  }

  lemma ClosePair(x: Row, x8: int, y: Row, y8: int, j: int)
    requires RowsClose(x, x8, y, y8) && 0 <= j < 8
    ensures Close(x[j], if j == 7 then x8 else x[j + 1], y[j], if j == 7 then y8 else y[j + 1])
  {
  }

  function After(t: Table, q: int, r: int, j: int): int
    requires 0 <= q < 3 && 0 <= r < 16 && 0 <= j < 8
  {
    if j < 7 then t.Quarter(q)(r)[j + 1] else if r < 15 then t.Quarter(q)(r + 1)[0] else t.Quarter(q + 1)(0)[0]
  }

  lemma Next(t: Table, f: int -> int, n: int, q: int, r: int, j: int)
    requires Reads(t, f) && 0 <= q < 3 && 0 <= r < 16 && 0 <= j < 8 && n == 128 * q + 8 * r + j
    ensures f(n + 1) == After(t, q, r, j)
  {
    if j < 7 {
      assert Located(t, f, n + 1, q, r, j + 1);
    } else if r < 15 {
      assert Located(t, f, n + 1, q, r + 1, 0);
    } else {
      assert Located(t, f, n + 1, q + 1, 0, 0);
    }
  }

  lemma AfterClose(t: Table, r: int, j: int)
    requires RowFits(t, r) && 0 <= r < 16 && 0 <= j < 8
    ensures Close(t.first(r)[j], After(t, 0, r, j), t.second(r)[j], After(t, 1, r, j))
  {
    var x8 := if r == 15 then t.second(0)[0] else t.first(r + 1)[0];
    var y8 := if r == 15 then t.third(0)[0] else t.second(r + 1)[0];
    ClosePair(t.first(r), x8, t.second(r), y8, j);
  }

  lemma Values(t: Table, f: int -> int, n: int, r: int, j: int)
    requires Reads(t, f) && 0 <= r < 16 && 0 <= j < 8 && n == 8 * r + j
    ensures f(n) == t.first(r)[j] && f(n + 1) == After(t, 0, r, j)
    ensures f(n + 128) == t.second(r)[j] && f(n + 129) == After(t, 1, r, j)
  {
    assert Located(t, f, n, 0, r, j) && Located(t, f, n + 128, 1, r, j);
    Next(t, f, n, 0, r, j);
    Next(t, f, n + 128, 1, r, j);
  }

  lemma RowClose(t: Table, f: int -> int, n: int, r: int, j: int)
    requires Reads(t, f) && RowFits(t, r) && 0 <= r < 16 && 0 <= j < 8 && n == 8 * r + j
    ensures CloseAt(f, n)
  {
    AfterClose(t, r, j);
    Values(t, f, n, r, j);
  }

  lemma CircularOnCircle(t: Table, f: int -> int, n: int)
    requires Circular(t) && Reads(t, f) && 0 <= n < 128
    ensures QuarterFits(f, n)
  {
    var r, j := n / 8, n % 8;
    assert RowFits(t, r);
    RowNegated(t, f, n, r, j);
    RowMirrored(t, f, n, r, j);
    RowClose(t, f, n, r, j);
  }

  lemma OneTurn(t: Table, n: int, k: int)
    ensures t.At(n + 512 * k) == t.At(n)
  {
    var r, j := n / 8 % 16, n % 8;
    Address(n, n / 128, r, j);
    Address(n + 512 * k, n / 128 + 4 * k, r, j);
  }

  lemma EntryLocated(t: Table, n: int, q: int, r: int, j: int)
    requires 0 <= q < 4 && 0 <= r < 16 && 0 <= j < 8
    ensures Located(t, k => t.At(k), n, q, r, j)
  {
    if n == 128 * q + 8 * r + j {
      Address(n, q, r, j);
    }
  }

  lemma TableOnCircle(t: Table)
    requires Circular(t)
    ensures OnCircle(k => t.At(k))
  {
    var f := k => t.At(k);
    forall n, q, r, j | 0 <= q < 4 && 0 <= r < 16 && 0 <= j < 8
      ensures Located(t, f, n, q, r, j)
    {
      EntryLocated(t, n, q, r, j);
    }
    forall n | 0 <= n < 128
      ensures QuarterFits(f, n)
    {
      CircularOnCircle(t, f, n);
    }
    forall n, k
      ensures TurnFits(f, n, k)
    {
      OneTurn(t, n, k);
    }
  }

  /** Every entry of the table in use, at any signed index. */
  function Entry(n: int): int {
    SINE.At(n)
  }

  lemma SineOnCircle()
    ensures OnCircle(Entry)
  {
    forall r | 0 <= r < 16
      ensures RowFits(SINE, r)
    {
      SineFits(r);
    }
    TableOnCircle(SINE);
    SameOnCircle(k => SINE.At(k), Entry);
  }

  lemma SameOnCircle(f: int -> int, g: int -> int)
    requires OnCircle(f) && forall k :: f(k) == g(k)
    ensures OnCircle(g)
  {
    forall n | 0 <= n < 128
      ensures QuarterFits(g, n)
    {
      assert QuarterFits(f, n);
    }
    forall n, k
      ensures TurnFits(g, n, k)
    {
      assert TurnFits(f, n, k);
    }
  }

  // ---------------------------------------------------------------------------
  // Every index
  // ---------------------------------------------------------------------------

  lemma HalfTurn(f: int -> int, n: int)
    requires OnCircle(f)
    ensures f(n + 256) == -f(n)
  {
    var q, i := n / 128, n % 128;
    assert QuarterFits(f, i) && TurnFits(f, i + 128 * (q % 4), q / 4) && TurnFits(f, i + 128 * (q % 4) + 256, q / 4);
    assert TurnFits(f, i, 1) && TurnFits(f, i + 128, 1);
  }

  lemma Shifted(f: int -> int, i: int, q: int)
    requires OnCircle(f)
    ensures q % 4 == 0 ==> f(i + 128 * q) == f(i)
    ensures q % 4 == 1 ==> f(i + 128 * q) == f(i + 128)
    ensures q % 4 == 2 ==> f(i + 128 * q) == -f(i)
    ensures q % 4 == 3 ==> f(i + 128 * q) == -f(i + 128)
  {
    assert TurnFits(f, i + 128 * (q % 4), q / 4);
    HalfTurn(f, i);
    HalfTurn(f, i + 128);
  }

  lemma QuarterOdd(f: int -> int, i: int)
    requires OnCircle(f) && 0 <= i < 128
    ensures f(-i) == -f(i) && f(128 - i) == f(128 + i)
  {
    HalfTurn(f, -i);
    assert QuarterFits(f, i);
    if i > 0 {
      assert QuarterFits(f, 128 - i);
    }
  }

  /** The table is an odd function. */
  lemma Odd(f: int -> int, n: int)
    requires OnCircle(f)
    ensures f(-n) == -f(n)
  {
    var i, q := n % 128, n / 128;
    QuarterOdd(f, i);
    assert -n == -i + 128 * (-q);
    Shifted(f, i, q);
    Shifted(f, -i, -q);
  }

  lemma CloseTurned(a: int, b: int, c: int, d: int)
    requires Close(a, b, c, d)
    ensures Close(c, d, -a, -b) && Close(-a, -b, -c, -d) && Close(-c, -d, a, b)
  {
  }

  /** Every entry and the one a quarter turn on are a point almost on the unit circle, the successors of both
      almost its rotation by 1/512 of a turn. */
  lemma Circle(f: int -> int, n: int)
    requires OnCircle(f)
    ensures Close(f(n), f(n + 1), f(n + 128), f(n + 129))
  {
    var i, q := n % 128, n / 128;
    assert QuarterFits(f, i);
    CloseTurned(f(i), f(i + 1), f(i + 128), f(i + 129));
    Shifted(f, i, q);
    Shifted(f, i + 1, q);
    Shifted(f, i, q + 1);
    Shifted(f, i + 1, q + 1);
  }
}
