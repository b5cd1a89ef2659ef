/**
 Sorting, median and linearly interpolated quantiles over the reals, and how they react to
 reordering and to affine changes of the sample.
 */
module OrderStatistics {

  predicate Ascending(s: seq<real>) {
    forall i, j | 0 <= i < j < |s| :: s[i] <= s[j]
  }

  function Insert(v: real, s: seq<real>): (r: seq<real>)
    ensures multiset(r) == multiset{v} + multiset(s)
  {
    if s == [] then [v]
    else if v <= s[0] then [v] + s
    else
      assert s == [s[0]] + s[1..];
      [s[0]] + Insert(v, s[1..])
  }

  function Sort(s: seq<real>): (r: seq<real>)
    ensures multiset(r) == multiset(s) && |r| == |s|
  {
    if s == [] then []
    else
      assert s == [s[0]] + s[1..];
      var r := Insert(s[0], Sort(s[1..]));
      assert |r| == |multiset(r)|;
      r
  }

  lemma {:induction false} InsertKeepsAscending(v: real, s: seq<real>)
    requires Ascending(s)
    ensures Ascending(Insert(v, s))
  {
    if s != [] && v > s[0] {
      InsertKeepsAscending(v, s[1..]);
      InsertedIsBounded(v, s[1..], s[0]);
      AscendingFrom(s[0], Insert(v, s[1..]));
    }
  }

  lemma InsertedIsBounded(v: real, s: seq<real>, low: real)
    requires low <= v && forall k | 0 <= k < |s| :: low <= s[k]
    ensures forall k | 0 <= k < |Insert(v, s)| :: low <= Insert(v, s)[k]
  {
    hide Insert;
    var r := Insert(v, s);
    forall k | 0 <= k < |r| ensures low <= r[k] {
      assert r[k] in multiset(r);
      assert r[k] in multiset{v} + multiset(s);
    }
  }

  lemma AscendingFrom(low: real, s: seq<real>)
    requires Ascending(s) && forall k | 0 <= k < |s| :: low <= s[k]
    ensures Ascending([low] + s)
  {}

  lemma {:induction false} SortIsAscending(s: seq<real>)
    ensures Ascending(Sort(s))
  {
    if s != [] {
      SortIsAscending(s[1..]);
      InsertKeepsAscending(s[0], Sort(s[1..]));
    }
  }

  lemma LeastIsFirst(s: seq<real>, t: seq<real>)
    requires s != [] && t != [] && Ascending(s) && multiset(s) == multiset(t)
    ensures s[0] <= t[0]
  {
    assert t[0] in multiset(t);
    assert t[0] in s;
  }

  lemma RestOf(s: seq<real>)
    requires s != []
    ensures multiset(s[1..]) == multiset(s) - multiset{s[0]}
    ensures Ascending(s) ==> Ascending(s[1..])
  {
    assert s == [s[0]] + s[1..];
  }

  /** An ascending arrangement of a bag of numbers is unique. */
  lemma {:induction false} AscendingIsUnique(s: seq<real>, t: seq<real>)
    requires Ascending(s) && Ascending(t) && multiset(s) == multiset(t)
    ensures s == t
    decreases |s|
  {
    assert |s| == |multiset(s)| == |multiset(t)| == |t|;
    if s != [] {
      LeastIsFirst(s, t);
      LeastIsFirst(t, s);
      RestOf(s);
      RestOf(t);
      AscendingIsUnique(s[1..], t[1..]);
      assert s == [s[0]] + s[1..] && t == [t[0]] + t[1..];
    }
  }

  lemma SortIgnoresOrder(s: seq<real>, t: seq<real>)
    requires multiset(s) == multiset(t)
    ensures Sort(s) == Sort(t)
  {
    SortIsAscending(s);
    SortIsAscending(t);
    AscendingIsUnique(Sort(s), Sort(t));
  }

  // ------------------------------------------------------------ median and quantiles

  /** The point at fraction `w` of the way from one order statistic to another. */
  function Between(a: real, b: real, w: real): real {
    a + w * (b - a)
  }

  /** The value at a position, between two neighbours when it is no whole number. */
  function Interpolate(t: seq<real>, h: real): real
    requires 0.0 <= h <= (|t| - 1) as real
  {
    var lo := h.Floor;
    if lo + 1 < |t| then Between(t[lo], t[lo + 1], h - lo as real) else t[lo]
  }

  function Position(n: nat, q: real): (h: real)
    requires n > 0 && 0.0 <= q <= 1.0
    ensures 0.0 <= h <= (n - 1) as real
  {
    Product(q, (n - 1) as real);
    Product(1.0 - q, (n - 1) as real);
    q * (n - 1) as real
  }

  lemma Product(x: real, y: real)
    requires 0.0 <= x && 0.0 <= y
    ensures 0.0 <= x * y
  {}

  /** The middle of a sorted sample: its middle element, or the mean of the two in the middle. */
  function Middle(t: seq<real>): real
    requires t != []
  {
    var n := |t|;
    if n % 2 == 1 then t[n / 2] else Between(t[n / 2 - 1], t[n / 2], 0.5)
  }

  /** `np.median` */
  function Median(s: seq<real>): real
    requires s != []
  {
    Middle(Sort(s))
  }

  /** `np.quantile` with its default, linear interpolation. */
  function Quantile(s: seq<real>, q: real): real
    requires s != [] && 0.0 <= q <= 1.0
  {
    Interpolate(Sort(s), Position(|s|, q))
  }

  lemma MiddlePosition(n: nat)
    requires n > 0
    ensures Position(n, 0.5) == if n % 2 == 1 then (n / 2) as real else (n / 2 - 1) as real + 0.5
  {}

  lemma MiddleIsHalfway(t: seq<real>)
    requires t != []
    ensures Middle(t) == Interpolate(t, Position(|t|, 0.5))
  {
    MiddlePosition(|t|);
    var n := |t|;
    if n % 2 == 1 {
      assert ((n / 2) as real).Floor == n / 2;
    } else {
      assert ((n / 2 - 1) as real + 0.5).Floor == n / 2 - 1;
    }
  }

  /** The median is the middle quantile. */
  lemma MedianIsMiddleQuantile(s: seq<real>)
    requires s != []
    ensures Median(s) == Quantile(s, 0.5)
  {
    MiddleIsHalfway(Sort(s));
  }

  lemma BetweenIsMonotone(a: real, b: real, v: real, w: real)
    requires a <= b && v <= w
    ensures Between(a, b, v) <= Between(a, b, w)
  {
    var d, e := w - v, b - a;
    Product(d, e);
    assert w * e == v * e + d * e;
  }

  lemma InterpolateWithin(t: seq<real>, h: real)
    requires Ascending(t) && 0.0 <= h <= (|t| - 1) as real
    ensures t[h.Floor] <= Interpolate(t, h)
    ensures h.Floor + 1 < |t| ==> Interpolate(t, h) <= t[h.Floor + 1]
  {
    var lo := h.Floor;
    if lo + 1 < |t| {
      BetweenIsMonotone(t[lo], t[lo + 1], 0.0, h - lo as real);
      BetweenIsMonotone(t[lo], t[lo + 1], h - lo as real, 1.0);
    }
  }

  lemma InterpolateIsMonotone(t: seq<real>, g: real, h: real)
    requires Ascending(t) && 0.0 <= g <= h <= (|t| - 1) as real
    ensures Interpolate(t, g) <= Interpolate(t, h)
  {
    var i, j := g.Floor, h.Floor;
    if i == j {
      if i + 1 < |t| { BetweenIsMonotone(t[i], t[i + 1], g - i as real, h - j as real); }
    } else {
      InterpolateWithin(t, g);
      InterpolateWithin(t, h);
      assert t[i + 1] <= t[j];
    }
  }

  /** A higher quantile is no smaller. */
  lemma QuantileIsMonotone(s: seq<real>, p: real, q: real)
    requires s != [] && 0.0 <= p <= q <= 1.0
    ensures Quantile(s, p) <= Quantile(s, q)
  {
    SortIsAscending(s);
    var m := (|s| - 1) as real;
    Product(q - p, m);
    assert (q - p) * m == q * m - p * m;
    InterpolateIsMonotone(Sort(s), Position(|s|, p), Position(|s|, q));
  }

  // ------------------------------------------------------------ how much of a sample lies below a quantile

  function CountBelow(s: seq<real>, v: real): nat {
    if s == [] then 0 else CountBelow(s[1..], v) + if s[0] < v then 1 else 0
  }

  function CountUpTo(s: seq<real>, v: real): nat {
    if s == [] then 0 else CountUpTo(s[1..], v) + if s[0] <= v then 1 else 0
  }

  lemma {:induction false} InsertCounts(x: real, s: seq<real>, v: real)
    ensures CountBelow(Insert(x, s), v) == CountBelow(s, v) + if x < v then 1 else 0
    ensures CountUpTo(Insert(x, s), v) == CountUpTo(s, v) + if x <= v then 1 else 0
  {
    if s != [] && x > s[0] { InsertCounts(x, s[1..], v); }
  }

  lemma {:induction false} SortCounts(s: seq<real>, v: real)
    ensures CountBelow(Sort(s), v) == CountBelow(s, v) && CountUpTo(Sort(s), v) == CountUpTo(s, v)
  {
    if s != [] {
      SortCounts(s[1..], v);
      InsertCounts(s[0], Sort(s[1..]), v);
    }
  }

  lemma {:induction false} NoneBelow(t: seq<real>, v: real)
    requires forall i | 0 <= i < |t| :: t[i] >= v
    ensures CountBelow(t, v) == 0
  {
    if t != [] { NoneBelow(t[1..], v); }
  }

  lemma {:induction false} BelowStopsAt(t: seq<real>, v: real, k: nat)
    requires Ascending(t) && k < |t| && t[k] >= v
    ensures CountBelow(t, v) <= k
  {
    if k == 0 { NoneBelow(t, v); } else { BelowStopsAt(t[1..], v, k - 1); }
  }

  lemma {:induction false} UpToReaches(t: seq<real>, v: real, k: nat)
    requires Ascending(t) && k < |t| && t[k] <= v
    ensures CountUpTo(t, v) >= k + 1
  {
    if k > 0 { UpToReaches(t[1..], v, k - 1); }
  }

  /** Up to a quantile lies more than its share of the gaps, and below it less than one more than that. */
  lemma QuantileRank(s: seq<real>, q: real)
    requires s != [] && 0.0 <= q <= 1.0
    ensures q * (|s| - 1) as real < CountUpTo(s, Quantile(s, q)) as real
    ensures CountBelow(s, Quantile(s, q)) as real < q * (|s| - 1) as real + 1.0
  {
    hide CountBelow, CountUpTo, Sort, Interpolate;
    var t, h, v := Sort(s), Position(|s|, q), Quantile(s, q);
    SortIsAscending(s);
    SortCounts(s, v);
    PositionRank(t, h);
  }

  lemma PositionRank(t: seq<real>, h: real)
    requires Ascending(t) && 0.0 <= h <= (|t| - 1) as real
    ensures h < CountUpTo(t, Interpolate(t, h)) as real
    ensures CountBelow(t, Interpolate(t, h)) as real < h + 1.0
  {
    var v, lo := Interpolate(t, h), h.Floor;
    InterpolateWithin(t, h);
    UpToReaches(t, v, lo);
    if lo as real < h {
      assert lo + 1 < |t|;
      BelowStopsAt(t, v, lo + 1);
    } else {
      BelowStopsAt(t, v, lo);
    }
  }

  ghost predicate Steps(s: seq<real>, a: real, step: real) {
    forall i | 0 <= i < |s| :: s[i] == a + step * i as real
  }

  lemma StepsAscend(s: seq<real>, a: real, step: real)
    requires Steps(s, a, step) && step >= 0.0
    ensures Ascending(s)
  {
    forall i, j | 0 <= i < j < |s| ensures s[i] <= s[j] {
      StepGrows(step, i as real, j as real);
    }
  }

  lemma StepGrows(step: real, x: real, y: real)
    requires step >= 0.0 && x <= y
    ensures step * x <= step * y
  {
    Product(step, y - x);
    assert step * (y - x) == step * y - step * x;
  }

  lemma StepBetween(a: real, step: real, x: real, w: real)
    ensures Between(a + step * x, a + step * (x + 1.0), w) == a + step * (x + w)
  {
    assert step * (x + 1.0) == step * x + step;
    assert step * (x + w) == step * x + step * w;
  }

  lemma InterpolateSteps(s: seq<real>, a: real, step: real, h: real)
    requires Steps(s, a, step) && 0.0 <= h <= (|s| - 1) as real
    ensures Interpolate(s, h) == a + step * h
  {
    hide Between;
    var lo := h.Floor;
    StepBetween(a, step, lo as real, h - lo as real);
    assert s[lo] == a + step * lo as real;
    if lo + 1 < |s| {
      assert s[lo + 1] == a + step * (lo as real + 1.0);
      assert lo as real + (h - lo as real) == h;
    } else {
      assert h == lo as real;
    }
  }

  /** Between neighbours a quantile is linear: on evenly spaced numbers it is the point at its fraction. */
  lemma QuantileOfSteps(s: seq<real>, a: real, step: real, q: real)
    requires s != [] && 0.0 <= q <= 1.0 && step >= 0.0 && Steps(s, a, step)
    ensures Quantile(s, q) == a + step * (q * (|s| - 1) as real)
  {
    hide Steps, Interpolate, Sort;
    StepsAscend(s, a, step);
    SortIsAscending(s);
    AscendingIsUnique(Sort(s), s);
    InterpolateSteps(s, a, step, Position(|s|, q));
  }

  // ------------------------------------------------------------ changes that keep the order

  ghost predicate KeepsOrder(f: real -> real) {
    forall x, y :: x <= y <==> f(x) <= f(y)
  }

  function Map(f: real -> real, s: seq<real>): (r: seq<real>)
    ensures |r| == |s| && forall i | 0 <= i < |s| :: r[i] == f(s[i])
  {
    if s == [] then [] else [f(s[0])] + Map(f, s[1..])
  }

  lemma {:induction false} InsertCommutes(f: real -> real, v: real, s: seq<real>)
    requires KeepsOrder(f)
    ensures Insert(f(v), Map(f, s)) == Map(f, Insert(v, s))
  {
    if s != [] {
      assert v <= s[0] <==> f(v) <= f(s[0]);
      if v > s[0] { InsertCommutes(f, v, s[1..]); }
    }
  }

  lemma {:induction false} SortCommutes(f: real -> real, s: seq<real>)
    requires KeepsOrder(f)
    ensures Sort(Map(f, s)) == Map(f, Sort(s))
  {
    if s != [] {
      SortCommutes(f, s[1..]);
      InsertCommutes(f, s[0], Sort(s[1..]));
    }
  }

  ghost predicate KeepsBetween(f: real -> real) {
    forall a, b, w :: Between(f(a), f(b), w) == f(Between(a, b, w))
  }

  lemma MiddleCommutes(f: real -> real, t: seq<real>)
    requires t != [] && KeepsBetween(f)
    ensures Middle(Map(f, t)) == f(Middle(t))
  {}

  lemma InterpolateCommutes(f: real -> real, t: seq<real>, h: real)
    requires 0.0 <= h <= (|t| - 1) as real && KeepsBetween(f)
    ensures Interpolate(Map(f, t), h) == f(Interpolate(t, h))
  {}

  /** The median moves with the sample. */
  lemma MedianCommutes(f: real -> real, s: seq<real>)
    requires s != [] && KeepsOrder(f) && KeepsBetween(f)
    ensures Median(Map(f, s)) == f(Median(s))
  {
    SortCommutes(f, s);
    MiddleCommutes(f, Sort(s));
  }

  /** So does every quantile. */
  lemma QuantileCommutes(f: real -> real, s: seq<real>, q: real)
    requires s != [] && KeepsOrder(f) && KeepsBetween(f) && 0.0 <= q <= 1.0
    ensures Quantile(Map(f, s), q) == f(Quantile(s, q))
  {
    SortCommutes(f, s);
    InterpolateCommutes(f, Sort(s), Position(|s|, q));
  }

  /** Scaling by `k`, then shifting by `c`. */
  function Affine(k: real, c: real): real -> real {
    v => k * v + c
  }

  lemma AffineIsRegular(k: real, c: real)
    requires k > 0.0
    ensures KeepsOrder(Affine(k, c)) && KeepsBetween(Affine(k, c))
  {
    hide Affine, Between;
    forall x: real, y: real ensures x <= y <==> Affine(k, c)(x) <= Affine(k, c)(y) {
      AffineOrder(k, c, x, y);
    }
    forall a: real, b: real, w: real
      ensures Between(Affine(k, c)(a), Affine(k, c)(b), w) == Affine(k, c)(Between(a, b, w))
    {
      AffineBetween(k, c, a, b, w);
    }
  }

  lemma AffineOrder(k: real, c: real, x: real, y: real)
    requires k > 0.0
    ensures x <= y <==> Affine(k, c)(x) <= Affine(k, c)(y)
  {
    ScaledOrder(k, x, y);
    assert Affine(k, c)(x) == k * x + c && Affine(k, c)(y) == k * y + c;
  }

  lemma AffineBetween(k: real, c: real, a: real, b: real, w: real)
    ensures Between(Affine(k, c)(a), Affine(k, c)(b), w) == Affine(k, c)(Between(a, b, w))
  {
    BetweenAffine(k, c, a, b, w);
  }

  lemma ScaledOrder(k: real, x: real, y: real)
    requires k > 0.0
    ensures x <= y <==> k * x <= k * y
  {
    assert k * (y - x) == k * y - k * x;
    if x > y {
      assert k * (x - y) > 0.0;
    } else {
      Product(k, y - x);
    }
  }

  lemma BetweenAffine(k: real, c: real, a: real, b: real, w: real)
    ensures Between(k * a + c, k * b + c, w) == k * Between(a, b, w) + c
  {
    var d := b - a;
    assert k * b + c - (k * a + c) == k * d;
    assert w * (k * d) == k * (w * d);
    assert k * (a + w * d) == k * a + k * (w * d);
  }

  lemma SortOfConstant(s: seq<real>, v: real)
    requires forall i | 0 <= i < |s| :: s[i] == v
    ensures forall i | 0 <= i < |s| :: Sort(s)[i] == v
  {
    forall i | 0 <= i < |s| ensures Sort(s)[i] == v {
      assert Sort(s)[i] in multiset(Sort(s));
      assert Sort(s)[i] in multiset(s);
    }
  }

  /** Of equal numbers every order statistic is that number. */
  lemma ConstantStatistics(s: seq<real>, v: real, q: real)
    requires s != [] && 0.0 <= q <= 1.0 && forall i | 0 <= i < |s| :: s[i] == v
    ensures Median(s) == v && Quantile(s, q) == v
  {
    hide Sort, Middle, Interpolate, Position;
    SortOfConstant(s, v);
    MiddleOfConstant(Sort(s), v);
    InterpolateOfConstant(Sort(s), v, Position(|s|, q));
  }

  lemma MiddleOfConstant(t: seq<real>, v: real)
    requires t != [] && forall i | 0 <= i < |t| :: t[i] == v
    ensures Middle(t) == v
  {
    assert t[|t| / 2] == v;
  }

  lemma InterpolateOfConstant(t: seq<real>, v: real, h: real)
    requires 0.0 <= h <= (|t| - 1) as real && forall i | 0 <= i < |t| :: t[i] == v
    ensures Interpolate(t, h) == v
  {
    assert t[h.Floor] == v;
  }
}
