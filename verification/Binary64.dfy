/** IEEE 754-2019 binary64 values and roundTiesToEven (section 4.3.1), as far as
    `tonumber` needs them: Lua turns the decimal text of an amount into the
    nearest binary64 before `core/redis.py`'s script compares two amounts. */
module Binary64 {

  /** Numeric(12,2) holds amounts below 10^10, that is, below 10^12 cents. */
  const MAX_CENTS: nat := 1_000_000_000_000

  const TWO52: int := 0x10_0000_0000_0000
  const TWO53: int := 0x20_0000_0000_0000
  const MIN_EXPONENT: int := -1074
  const MAX_EXPONENT: int := 971

  function Pow2(e: int): (r: real)
    ensures r > 0.0
    decreases if e < 0 then -e else e
  {
    if e == 0 then 1.0 else if e > 0 then 2.0 * Pow2(e - 1) else Pow2(e + 1) / 2.0
  }

  /** A finite binary64: an integer significand below 2^53 scaled by a power of two. */
  ghost predicate Represents(v: real, m: int, e: int) {
    -TWO53 < m < TWO53 && MIN_EXPONENT <= e <= MAX_EXPONENT && v == m as real * Pow2(e)
  }

  ghost predicate IsBinary64(v: real) {
    exists m, e :: Represents(v, m, e)
  }

  function Distance(x: real, y: real): real {
    if x < y then y - x else x - y
  }

  ghost predicate Nearest(x: real, v: real) {
    IsBinary64(v) && forall m, e, w :: Represents(w, m, e) ==> Distance(x, v) <= Distance(x, w)
  }

  /** The exponent at which `x` has a full 53-bit significand, searched downwards. */
  function Exponent(x: real, e: int): (f: int)
    requires MIN_EXPONENT <= e <= -19
    requires 0.0 <= x < TWO53 as real * Pow2(e)
    ensures MIN_EXPONENT <= f <= e
    ensures x < TWO53 as real * Pow2(f)
    ensures f == MIN_EXPONENT || TWO52 as real * Pow2(f) <= x
    decreases e - MIN_EXPONENT
  {
    if e == MIN_EXPONENT || TWO52 as real * Pow2(e) <= x then e
    else
      assert TWO53 as real * Pow2(e - 1) == TWO52 as real * Pow2(e);
      Exponent(x, e - 1)
  }

  /** Round to nearest, ties to the even significand. */
  function RoundSignificand(q: real): (m: int)
    ensures q - q.Floor as real == 0.5 ==> m % 2 == 0
  {
    var low := q.Floor;
    var rest := q - low as real;
    if rest < 0.5 || (rest == 0.5 && low % 2 == 0) then low else low + 1
  }

  lemma Pow2At34()
    ensures Pow2(-19) * 524288.0 == 1.0
  {
    assert Pow2(-4) == 0.0625;
    assert Pow2(-8) == 0.00390625;
    assert Pow2(-12) == 0.000244140625;
    assert Pow2(-16) * 65536.0 == 1.0;
  }

  function Round(x: real): (v: real)
    requires 0.0 <= x < 17179869184.0
  {
    Pow2At34();
    RoundAt(x, Pow2(Exponent(x, -19)))
  }

  function RoundAt(x: real, u: real): (v: real)
    requires u > 0.0
  {
    RoundSignificand(x / u) as real * u
  }

  lemma Pow2Step(e: int)
    ensures Pow2(e + 1) == 2.0 * Pow2(e)
  {
  }

  lemma Pow2Zero()
    ensures Pow2(0) == 1.0
  {
  }

  lemma DoubledFactor(x: real, y: real)
    ensures 2.0 * (x * y) == x * (2.0 * y)
  {
  }

  lemma {:induction false} Pow2Split(e: int, f: nat)
    ensures Pow2(e + f) == Pow2(e) * Pow2(f)
  {
    hide Pow2;
    if f == 0 {
      Pow2Zero();
    } else {
      Pow2Split(e, f - 1);
      Pow2Step(e + f - 1);
      Pow2Step(f - 1);
      DoubledFactor(Pow2(e), Pow2(f - 1));
    }
  }

  lemma {:induction false} Pow2IsInteger(f: nat) returns (k: int)
    ensures Pow2(f) == k as real && k >= 1
  {
    if f == 0 { k := 1; } else { k := Pow2IsInteger(f - 1); k := 2 * k; }
  }

  lemma {:induction false} Pow2Monotone(e: int, f: int)
    requires e <= f
    ensures Pow2(e) <= Pow2(f)
    decreases f - e
  {
    if e < f { Pow2Monotone(e, f - 1); assert Pow2(f) == 2.0 * Pow2(f - 1); }
  }

  lemma RoundedIsNearestInteger(q: real, k: int)
    ensures Distance(q, RoundSignificand(q) as real) <= Distance(q, k as real)
  {
    var low := q.Floor;
    RoundingUp(low, low % 2 == 0, q - low as real);
    if k <= low {
      assert k as real <= low as real <= q;
    } else {
      assert k as real >= low as real + 1.0;
    }
  }

  lemma RoundingUp(low: int, even: bool, rest: real)
    requires 0.0 <= rest < 1.0
    ensures rest < 0.5 || (rest == 0.5 && even) ==> rest <= 1.0 - rest
    ensures !(rest < 0.5 || (rest == 0.5 && even)) ==> 1.0 - rest <= rest
  {
  }

  lemma Scale(x: real, y: real, u: real)
    requires u > 0.0
    ensures Distance(x * u, y * u) == Distance(x, y) * u
  {
  }

  lemma ScaleOrder(x: real, y: real, u: real)
    requires u > 0.0 && x <= y
    ensures x * u <= y * u
  {
  }

  /** A binary64 whose exponent is at least `e` is an integer multiple of `Pow2(e)`. */
  lemma CoarseIsMultiple(m: int, f: int, e: int) returns (k: int)
    requires e <= f
    ensures m as real * Pow2(f) == k as real * Pow2(e)
  {
    hide Pow2;
    var t := Pow2IsInteger(f - e);
    Pow2Split(e, f - e);
    k := m * t;
    Associate(m, t, Pow2(e));
  }

  lemma Associate(m: int, t: int, u: real)
    ensures m as real * (u * t as real) == (m * t) as real * u
  {
  }

  lemma ProductBound(m: real, f: real, p: real, b: real)
    requires 0.0 < f <= p && m <= b && 0.0 <= b
    ensures m * f <= b * p
  {
    ScaleOrder(m, b, f);
    if b > 0.0 { ScaleOrder(f, p, b); }
  }

  /** A binary64 whose exponent is below `e` lies at or under `TWO52 * Pow2(e)`. */
  lemma FineIsSmall(m: int, f: int, e: int)
    requires f < e && -TWO53 < m < TWO53
    ensures m as real * Pow2(f) <= TWO52 as real * Pow2(e)
  {
    hide Pow2;
    var p := Pow2(e - 1);
    Pow2Monotone(f, e - 1);
    ProductBound(m as real, Pow2(f), p, TWO53 as real);
    DoubleScale(p);
    assert Pow2(e) == 2.0 * p by { Pow2Step(e - 1); }
  }

  lemma DoubleScale(u: real)
    ensures TWO53 as real * u == TWO52 as real * (2.0 * u)
  {
  }

  lemma Unscale(x: real, u: real)
    requires u > 0.0
    ensures x / u * u == x
  {
  }

  lemma ScaleDistances(q: real, r: real, k: real, u: real)
    requires u > 0.0 && Distance(q, r) <= Distance(q, k)
    ensures Distance(q * u, r * u) <= Distance(q * u, k * u)
  {
    hide Distance;
    var near, far := Distance(q, r), Distance(q, k);
    ScaleOrder(near, far, u);
    assert Distance(q * u, r * u) == near * u by { Scale(q, r, u); }
    assert Distance(q * u, k * u) == far * u by { Scale(q, k, u); }
  }

  lemma UnscaleBelow(q: real, b: real, u: real)
    requires u > 0.0 && q * u < b * u
    ensures q < b
  {
  }

  lemma UnscaleNonNegative(q: real, u: real)
    requires u > 0.0 && 0.0 <= q * u
    ensures 0.0 <= q
  {
  }

  lemma SignificandBounds(q: real)
    requires 0.0 <= q < TWO53 as real
    ensures 0 <= RoundSignificand(q) <= TWO53
    ensures TWO52 as real <= q ==> TWO52 <= q.Floor
  {
  }

  lemma RoundedSignificand(x: real, u: real) returns (m: int)
    requires u > 0.0 && 0.0 <= x < TWO53 as real * u
    ensures 0 <= m <= TWO53 && RoundAt(x, u) == m as real * u
  {
    var q := x / u;
    Unscale(x, u);
    UnscaleBelow(q, TWO53 as real, u);
    UnscaleNonNegative(q, u);
    SignificandBounds(q);
    m := RoundSignificand(q);
  }

  lemma RoundedIsBinary64(v: real, m: int, e: int)
    requires 0 <= m <= TWO53 && MIN_EXPONENT <= e < MAX_EXPONENT && v == m as real * Pow2(e)
    ensures IsBinary64(v)
  {
    if m < TWO53 {
      assert Represents(v, m, e);
    } else {
      Pow2Step(e);
      DoubleScale(Pow2(e));
      assert Represents(v, TWO52, e + 1);
    }
  }

  /** The unit of the last place that `Round` works with, and what is known of it. */
  lemma Unit(x: real) returns (e: int, u: real)
    requires 0.0 <= x < 17179869184.0
    ensures MIN_EXPONENT <= e <= -19 && u == Pow2(e) && Round(x) == RoundAt(x, u)
    ensures x < TWO53 as real * u && (e == MIN_EXPONENT || TWO52 as real * u <= x)
  {
    Pow2At34();
    e := Exponent(x, -19);
    u := Pow2(e);
  }

  lemma RoundIsBinary64(x: real)
    requires 0.0 <= x < 17179869184.0
    ensures IsBinary64(Round(x))
  {
    hide Round, RoundAt, Pow2;
    var e, u := Unit(x);
    var m := RoundedSignificand(x, u);
    RoundedIsBinary64(RoundAt(x, u), m, e);
  }

  lemma NearestOnGrid(x: real, q: real, r: int, k: int, u: real)
    requires u > 0.0 && q * u == x
    requires Distance(q, r as real) <= Distance(q, k as real)
    ensures Distance(x, r as real * u) <= Distance(x, k as real * u)
  {
    ScaleDistances(q, r as real, k as real, u);
  }

  lemma GridNearest(x: real, u: real, k: int)
    requires u > 0.0
    ensures Distance(x, RoundAt(x, u)) <= Distance(x, k as real * u)
  {
    hide RoundSignificand, Distance;
    var q := x / u;
    var r := RoundSignificand(q);
    assert RoundAt(x, u) == r as real * u;
    assert q * u == x by { Unscale(x, u); }
    RoundedIsNearestInteger(q, k);
    hide RoundAt;
    NearestOnGrid(x, q, r, k, u);
  }

  lemma FartherBelow(x: real, v: real, g: real, w: real)
    requires Distance(x, v) <= Distance(x, g) && w <= g <= x
    ensures Distance(x, v) <= Distance(x, w)
  {
  }

  lemma CloserThan(x: real, e: int, u: real, m: int, f: int, w: real)
    requires u == Pow2(e) && -TWO53 < m < TWO53 && MIN_EXPONENT <= f && w == m as real * Pow2(f)
    requires e == MIN_EXPONENT || TWO52 as real * u <= x
    ensures Distance(x, RoundAt(x, u)) <= Distance(x, w)
  {
    hide RoundAt, Pow2, Distance;
    if e <= f {
      var k := CoarseIsMultiple(m, f, e);
      GridNearest(x, u, k);
      assert w == k as real * u;
    } else {
      FineIsSmall(m, f, e);
      CloserThanBelow(x, u, TWO52, w);
    }
  }

  /** The rounding is at least as close as anything below a grid point below `x`. */
  lemma CloserThanBelow(x: real, u: real, k: int, w: real)
    requires u > 0.0 && w <= k as real * u <= x
    ensures Distance(x, RoundAt(x, u)) <= Distance(x, w)
  {
    hide RoundAt, Distance;
    GridNearest(x, u, k);
    FartherBelow(x, RoundAt(x, u), k as real * u, w);
  }

  /** No binary64 is closer to `x` than `Round(x)`. */
  lemma RoundIsNearest(x: real)
    requires 0.0 <= x < 17179869184.0
    ensures Nearest(x, Round(x))
  {
    hide Round, RoundAt, Pow2;
    RoundIsBinary64(x);
    var e, u := Unit(x);
    forall m, f, w | Represents(w, m, f) ensures Distance(x, Round(x)) <= Distance(x, w) {
      CloserThan(x, e, u, m, f, w);
    }
  }

  /** What Lua's `tonumber` makes of an amount's decimal text. */
  function ToNumber(cents: nat): (v: real)
    requires cents < MAX_CENTS
  {
    Round(cents as real / 100.0)
  }

  lemma RoundingError(cents: nat)
    requires cents < MAX_CENTS
    ensures Distance(cents as real / 100.0, ToNumber(cents)) <= 1.0 / 524288.0
  {
    var x := cents as real / 100.0;
    Pow2At34();
    var k := (x * 524288.0).Floor;
    RoundIsNearest(x);
    assert Represents(k as real * Pow2(-19), k, -19);
    assert k as real * Pow2(-19) == k as real / 524288.0;
  }

  /** Rounding never merges or swaps two amounts the column can hold, so the
      script's comparison of doubles is the comparison of the exact amounts. */
  lemma ComparisonIsExact(a: nat, b: nat)
    requires a < MAX_CENTS && b < MAX_CENTS
    ensures ToNumber(a) > ToNumber(b) <==> a > b
  {
    RoundingError(a);
    RoundingError(b);
    if a > b {
      assert a as real / 100.0 - b as real / 100.0 >= 0.01;
    } else if a < b {
      assert b as real / 100.0 - a as real / 100.0 >= 0.01;
    }
  }
}
