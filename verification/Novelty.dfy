/**
 The novelty metric of the strategy explorer (tools/strategies/auto_strategy_explorer.js).
 Prices, thresholds and distances are reals; the set of symbols a strategy trades is an
 arbitrary finite set.
 */
module Novelty {
  import opened Extrema
  import opened Wrappers

  /** A strategy specification. The fields a caller may leave out are optional. */
  datatype Spec = Spec(
    family: string,
    model: string,
    timeframe: Option<string>,
    universe: Option<seq<string>>,
    indicators: Option<set<string>>,
    threshold: Option<real>,
    horizon: Option<real>,
    maxHoldingDays: Option<real>)

  function Threshold(s: Spec): real {
    if s.threshold.Some? then s.threshold.value else 0.0
  }

  /** A missing horizon and a horizon of 0 both count as 1. */
  function Horizon(s: Spec): real {
    if s.horizon.Some? && s.horizon.value != 0.0 then s.horizon.value else 1.0
  }

  function Symbols(s: Spec): set<string> {
    if s.universe.Some? then set x | x in s.universe.value else {}
  }

  function Abs(x: real): real {
    if x < 0.0 then -x else x
  }

  // ---- the six dimensions ----

  function Mismatch<T(==)>(x: T, y: T): real {
    if x != y then 1.0 else 0.0
  }

  function ThresholdGap(x: Spec, y: Spec): real {
    Min(1.0, Abs(Threshold(x) - Threshold(y)) / 0.05)
  }

  function HorizonGap(x: Spec, y: Spec): real {
    Min(1.0, Abs(Horizon(x) - Horizon(y)) / 20.0)
  }

  /** Jaccard distance; two empty sets are at distance 0. */
  function Jaccard<T(==)>(a: set<T>, b: set<T>): real {
    if |a + b| > 0 then 1.0 - |a * b| as real / |a + b| as real else 0.0
  }

  /** The mean of the six dimensions; 1 when a strategy is missing. */
  function Distance(a: Option<Spec>, b: Option<Spec>): real {
    if a.None? || b.None? then 1.0 else
      var x, y := a.value, b.value;
      Mean(Mismatch(x.family, y.family), Mismatch(x.model, y.model), Mismatch(x.timeframe, y.timeframe),
           ThresholdGap(x, y), HorizonGap(x, y), Jaccard(Symbols(x), Symbols(y)))
  }

  function Mean(d1: real, d2: real, d3: real, d4: real, d5: real, d6: real): real {
    (d1 + d2 + d3 + d4 + d5 + d6) / 6.0
  }

  /** The accumulating computation; its final cap at 1 never changes the mean of six capped terms. */
  method ComputeDistance(a: Option<Spec>, b: Option<Spec>) returns (d: real)
    ensures d == Distance(a, b)
    ensures 0.0 <= d <= 1.0
  {
    hide Threshold, Horizon, Symbols, Abs;
    if a.None? || b.None? {
      return 1.0;
    }
    var x, y := a.value, b.value;
    d := 0.0;
    if x.family != y.family { d := d + 1.0; }
    if x.model != y.model { d := d + 1.0; }
    if x.timeframe != y.timeframe { d := d + 1.0; }
    d := d + Min(1.0, Abs(Threshold(x) - Threshold(y)) / 0.05);
    d := d + Min(1.0, Abs(Horizon(x) - Horizon(y)) / 20.0);
    var uA, uB := Symbols(x), Symbols(y);
    var union := uA + uB;
    var intersection := CountShared(uA, uB);
    d := d + (if |union| > 0 then 1.0 - intersection as real / |union| as real else 0.0);
    assert d == 6.0 * Distance(a, b);
    DistanceBounds(a, b);
    d := Min(1.0, d / 6.0);
  }

  /** The counting loop over one universe. */
  method CountShared<T(==)>(uA: set<T>, uB: set<T>) returns (intersection: nat)
    ensures intersection == |uA * uB|
  {
    intersection := 0;
    var rest := uA;
    while rest != {}
      invariant rest <= uA
      invariant intersection == |(uA - rest) * uB|
      decreases |rest|
    {
      var s :| s in rest;
      if s in uB {
        assert (uA - (rest - {s})) * uB == (uA - rest) * uB + {s};
        intersection := intersection + 1;
      } else {
        assert (uA - (rest - {s})) * uB == (uA - rest) * uB;
      }
      rest := rest - {s};
    }
    assert uA - {} == uA;
  }

  // ---- sizes of set differences ----

  function SymmetricGap<T>(a: set<T>, b: set<T>): nat {
    |a - b| + |b - a|
  }

  lemma SymmetricGapTriangle<T>(a: set<T>, b: set<T>, c: set<T>)
    ensures SymmetricGap(a, c) <= SymmetricGap(a, b) + SymmetricGap(b, c)
  {
    SubsetSize(a - c, (a - b) + (b - c));
    SubsetSize(c - a, (c - b) + (b - a));
    UnionSize(a - b, b - c);
    UnionSize(c - b, b - a);
  }

  lemma SubsetSize<T>(a: set<T>, b: set<T>)
    requires a <= b
    ensures |a| <= |b|
  {
    assert b == a + (b - a);
  }

  lemma UnionSize<T>(a: set<T>, b: set<T>)
    ensures |a + b| == |a| + |b| - |a * b|
    ensures |a + b| <= |a| + |b|
  {
  }

  /** The Jaccard distance as a ratio of symmetric differences: 2g / (|a| + |b| + g). */
  lemma JaccardAsGap<T>(a: set<T>, b: set<T>)
    ensures |a| + |b| + SymmetricGap(a, b) == 2 * |a + b|
    ensures |a| <= |b| + SymmetricGap(a, b) && |b| <= |a| + SymmetricGap(a, b)
    ensures |a + b| > 0 ==>
              Jaccard(a, b) == 2.0 * SymmetricGap(a, b) as real / (|a| + |b| + SymmetricGap(a, b)) as real
  {
    assert a == (a - b) + a * b && b == (b - a) + a * b;
    assert a + b == (a - b) + (b - a) + a * b;
    if |a + b| > 0 {
      var u, i, g := |a + b| as real, |a * b| as real, SymmetricGap(a, b) as real;
      assert u == i + g;
      ComplementRatio(i, g, u);
    }
  }

  lemma ComplementRatio(i: real, g: real, u: real)
    requires 0.0 < u == i + g
    ensures 1.0 - i / u == 2.0 * g / (2.0 * u)
  {
    Cancel(g, u);
    SumOfQuotients(i, g, u);
  }

  lemma SumOfQuotients(x: real, y: real, d: real)
    requires d > 0.0
    ensures x / d + y / d == (x + y) / d
  {
  }

  lemma Cancel(g: real, u: real)
    requires u > 0.0
    ensures 2.0 * g / (2.0 * u) == g / u
  {
  }

  // ---- the triangle inequality ----

  lemma RatioGrows(z: real, s: real, k: real)
    requires 0.0 <= z <= s && 0.0 <= k && 0.0 < k + z
    ensures z / (k + z) <= s / (k + s)
  {
    assert z * (k + s) <= s * (k + z);
    DivideBoth(z, k + z, s, k + s);
  }

  lemma RatioShrinks(x: real, p: real, q: real)
    requires 0.0 <= x && 0.0 < p <= q
    ensures x / q <= x / p
  {
  }

  lemma DivideBoth(n: real, d: real, m: real, e: real)
    requires d > 0.0 && e > 0.0 && n * e <= m * d
    ensures n / d <= m / e
  {
    var t := d * e;
    PositiveProduct(d, e);
    TimesDivisor(n, d, e);
    TimesDivisor(m, e, d);
    CancelFactor(n / d, m / e, t);
  }

  lemma PositiveProduct(d: real, e: real)
    requires d > 0.0 && e > 0.0
    ensures d * e > 0.0 && d * e == e * d
  {
  }

  lemma TimesDivisor(n: real, d: real, e: real)
    requires d > 0.0
    ensures (n / d) * (d * e) == n * e
  {
    var q := n / d;
    assert q * d == n;
    Associate(q, d, e);
  }

  lemma Associate(x: real, y: real, z: real)
    ensures x * (y * z) == (x * y) * z
  {
  }

  lemma CancelFactor(x: real, y: real, t: real)
    requires t > 0.0 && x * t <= y * t
    ensures x <= y
  {
    var gap := x - y;
    assert gap * t == x * t - y * t;
    if gap > 0.0 {
      PositiveProduct(gap, t);
    }
  }

  /** x / (a + b + x) is subadditive along a chain of three sizes. */
  lemma SteinhausTriangle(a: real, b: real, c: real, x: real, y: real, z: real)
    requires 0.0 <= a && 0.0 <= b && 0.0 <= c && 0.0 <= x && 0.0 <= y && 0.0 <= z
    requires z <= x + y && b <= c + y && b <= a + x
    requires 0.0 < a + b + x && 0.0 < b + c + y && 0.0 < a + c + z
    ensures z / (a + c + z) <= x / (a + b + x) + y / (b + c + y)
  {
    RatioGrows(z, x + y, a + c);
    var q := a + c + (x + y);
    assert (x + y) / q == x / q + y / q;
    RatioShrinks(x, a + b + x, q);
    RatioShrinks(y, b + c + y, q);
  }

  lemma JaccardBounds<T>(a: set<T>, b: set<T>)
    ensures 0.0 <= Jaccard(a, b) <= 1.0
    ensures Jaccard(a, b) == Jaccard(b, a)
    ensures Jaccard(a, b) == 0.0 <==> a == b
  {
    assert a + b == b + a && a * b == b * a;
    JaccardAsGap(a, b);
    if |a + b| > 0 {
      var u, i := |a + b| as real, |a * b| as real;
      SubsetSize(a * b, a + b);
      DivideBoth(i, u, 1.0, 1.0);
      assert 0.0 <= i / u <= 1.0;
      if Jaccard(a, b) == 0.0 {
        assert i / u * u == i;
        assert i == u;
        assert |a - b| + |b - a| == 0;
        assert a - b == {} && b - a == {};
        assert a == b;
      }
      if a == b {
        assert a * b == a + b;
      }
    } else {
      assert a + b == {};
      assert a == {} && b == {};
    }
  }

  lemma JaccardTriangle<T>(a: set<T>, b: set<T>, c: set<T>)
    ensures Jaccard(a, c) <= Jaccard(a, b) + Jaccard(b, c)
  {
    JaccardBounds(a, b);
    JaccardBounds(b, c);
    if |a + b| == 0 {
      assert a + b == {};
      assert a == {} && b == {};
    } else if |b + c| == 0 {
      assert b + c == {};
      assert b == {} && c == {};
    } else if |a + c| > 0 {
      JaccardAsGap(a, b);
      JaccardAsGap(b, c);
      JaccardAsGap(a, c);
      SymmetricGapTriangle(a, b, c);
      SteinhausTriangle(|a| as real, |b| as real, |c| as real,
                        SymmetricGap(a, b) as real, SymmetricGap(b, c) as real, SymmetricGap(a, c) as real);
      Doubled(SymmetricGap(a, b) as real, (|a| + |b| + SymmetricGap(a, b)) as real);
      Doubled(SymmetricGap(b, c) as real, (|b| + |c| + SymmetricGap(b, c)) as real);
      Doubled(SymmetricGap(a, c) as real, (|a| + |c| + SymmetricGap(a, c)) as real);
    }
  }

  lemma Doubled(x: real, d: real)
    requires d > 0.0
    ensures 2.0 * x / d == 2.0 * (x / d)
  {
  }

  lemma MismatchTriangle<T>(x: T, y: T, z: T)
    ensures Mismatch(x, z) <= Mismatch(x, y) + Mismatch(y, z)
  {
  }

  lemma GapTriangles(x: Spec, y: Spec, z: Spec)
    ensures ThresholdGap(x, z) <= ThresholdGap(x, y) + ThresholdGap(y, z)
    ensures HorizonGap(x, z) <= HorizonGap(x, y) + HorizonGap(y, z)
  {
  }

  // ---- main results ----

  /** Agreement on all six dimensions. */
  predicate SameDimensions(x: Spec, y: Spec) {
    && x.family == y.family
    && x.model == y.model
    && x.timeframe == y.timeframe
    && Threshold(x) == Threshold(y)
    && Horizon(x) == Horizon(y)
    && Symbols(x) == Symbols(y)
  }

  /** Symmetric and within [0,1] on every pair of arguments, missing strategies included. */
  lemma DistanceBounds(a: Option<Spec>, b: Option<Spec>)
    ensures 0.0 <= Distance(a, b) <= 1.0
    ensures Distance(a, b) == Distance(b, a)
  {
    if a.Some? && b.Some? {
      JaccardBounds(Symbols(a.value), Symbols(b.value));
    }
  }

  /** The triangle inequality, for all arguments, missing strategies included. */
  lemma DistanceTriangle(a: Option<Spec>, b: Option<Spec>, c: Option<Spec>)
    ensures Distance(a, c) <= Distance(a, b) + Distance(b, c)
  {
    DistanceBounds(a, c);
    DistanceBounds(a, b);
    DistanceBounds(b, c);
    if a.Some? && b.Some? && c.Some? {
      hide Jaccard, ThresholdGap, HorizonGap, Mismatch;
      var x, y, z := a.value, b.value, c.value;
      MismatchTriangle(x.family, y.family, z.family);
      MismatchTriangle(x.model, y.model, z.model);
      MismatchTriangle(x.timeframe, y.timeframe, z.timeframe);
      GapTriangles(x, y, z);
      JaccardTriangle(Symbols(a.value), Symbols(b.value), Symbols(c.value));
    }
  }

  /** Two strategies are at distance 0 exactly when both exist and agree on all six dimensions. */
  lemma DistanceZeroExactly(a: Option<Spec>, b: Option<Spec>)
    ensures Distance(a, b) == 0.0 <==> a.Some? && b.Some? && SameDimensions(a.value, b.value)
  {
    if a.Some? && b.Some? {
      JaccardBounds(Symbols(a.value), Symbols(b.value));
    }
  }

  /** The pseudometric laws hold on a strategy exactly when it is there: a missing one is at distance 1 from itself. */
  lemma SelfDistanceZeroExactly(a: Option<Spec>)
    ensures Distance(a, a) == 0.0 <==> a.Some?
  {
    DistanceZeroExactly(a, a);
  }

  // ---- what each dimension weighs ----

  /** The distance is the sum of the distances to the strategies that differ in one dimension only. */
  lemma DistanceSplits(s: Spec, t: Spec)
    ensures Distance(Some(s), Some(t))
         == Distance(Some(s), Some(s.(family := t.family))) + Distance(Some(s), Some(s.(model := t.model)))
            + Distance(Some(s), Some(s.(timeframe := t.timeframe)))
            + Distance(Some(s), Some(s.(threshold := t.threshold)))
            + Distance(Some(s), Some(s.(horizon := t.horizon)))
            + Distance(Some(s), Some(s.(universe := t.universe)))
  {
    hide Jaccard, Symbols;
    NoGaps(s);
    SameJaccard(Symbols(s));
    SameSymbols(s, t);
  }

  lemma NoGaps(s: Spec)
    ensures ThresholdGap(s, s) == 0.0 && HorizonGap(s, s) == 0.0
  {
  }

  lemma SameJaccard<T>(a: set<T>)
    ensures Jaccard(a, a) == 0.0
  {
    assert a + a == a && a * a == a;
  }

  lemma SameSymbols(s: Spec, t: Spec)
    ensures Symbols(s.(family := t.family)) == Symbols(s.(model := t.model)) == Symbols(s.(timeframe := t.timeframe))
         == Symbols(s.(threshold := t.threshold)) == Symbols(s.(horizon := t.horizon)) == Symbols(s)
    ensures Symbols(s.(universe := t.universe)) == Symbols(t)
  {
  }

  /** A family, model or timeframe of its own puts a strategy at 1/6, left-out timeframes being equal. */
  lemma NameWeighsASixth(s: Spec, t: Spec)
    ensures Distance(Some(s), Some(s.(family := t.family))) == if s.family == t.family then 0.0 else 1.0 / 6.0
    ensures Distance(Some(s), Some(s.(model := t.model))) == if s.model == t.model then 0.0 else 1.0 / 6.0
    ensures Distance(Some(s), Some(s.(timeframe := t.timeframe)))
         == if s.timeframe == t.timeframe then 0.0 else 1.0 / 6.0
  {
    hide Jaccard, Symbols;
    NoGaps(s);
    SameJaccard(Symbols(s));
    SameSymbols(s, t);
  }

  /** A threshold gap counts in full from 0.05 on and in proportion below; a holding period from 20 days on. */
  lemma GapWeighsUpToASixth(s: Spec, x: real, y: real)
    ensures var d := Distance(Some(s.(threshold := Some(x))), Some(s.(threshold := Some(y))));
            && (x == y ==> d == 0.0) && (y - x >= 0.05 || x - y >= 0.05 ==> d == 1.0 / 6.0)
            && (0.0 <= y - x <= 0.05 ==> d == (y - x) / 0.3) && (0.0 <= x - y <= 0.05 ==> d == (x - y) / 0.3)
    ensures x != 0.0 && y != 0.0 ==>
              var d := Distance(Some(s.(horizon := Some(x))), Some(s.(horizon := Some(y))));
              && (x == y ==> d == 0.0) && (y - x >= 20.0 || x - y >= 20.0 ==> d == 1.0 / 6.0)
              && (0.0 <= y - x <= 20.0 ==> d == (y - x) / 120.0) && (0.0 <= x - y <= 20.0 ==> d == (x - y) / 120.0)
    ensures Distance(Some(s.(threshold := None)), Some(s.(threshold := Some(0.0)))) == 0.0
    ensures Distance(Some(s.(horizon := None)), Some(s.(horizon := Some(1.0)))) == 0.0
    ensures Distance(Some(s.(horizon := Some(0.0))), Some(s.(horizon := Some(1.0)))) == 0.0
  {
    hide Jaccard, Symbols;
    SameJaccard(Symbols(s));
    SymbolsOf(s, x);
    SymbolsOf(s, y);
    SymbolsOf(s, 0.0);
    SymbolsOf(s, 1.0);
  }

  lemma SymbolsOf(s: Spec, x: real)
    ensures Symbols(s.(threshold := Some(x))) == Symbols(s.(threshold := None)) == Symbols(s)
    ensures Symbols(s.(horizon := Some(x))) == Symbols(s.(horizon := None)) == Symbols(s)
  {
  }

  /** The symbols count with the part of all of them that the two strategies do not share. */
  lemma UniverseWeighsByShare(s: Spec, a: seq<string>, b: seq<string>)
    ensures var d := Distance(Some(s.(universe := Some(a))), Some(s.(universe := Some(b))));
            var all := set x | x in a + b;
            var shared := set x | x in a && x in b;
            if all == {} then d == 0.0 else 6.0 * d * |all| as real == (|all| - |shared|) as real
    ensures Distance(Some(s.(universe := None)), Some(s.(universe := Some([])))) == 0.0
  {
    hide Jaccard, Distance, Symbols;
    var x, y := s.(universe := Some(a)), s.(universe := Some(b));
    SymbolsOfBoth(s, a, b);
    UniverseOnly(s, Some(a), Some(b));
    UniverseOnly(s, None, Some([]));
    ShareOf(Symbols(x), Symbols(y));
    ShareOf<string>({}, {});
  }

  lemma SymbolsOfBoth(s: Spec, a: seq<string>, b: seq<string>)
    ensures var x, y := Symbols(s.(universe := Some(a))), Symbols(s.(universe := Some(b)));
            x + y == (set z | z in a + b) && x * y == set z | z in a && z in b
    ensures Symbols(s.(universe := None)) == Symbols(s.(universe := Some([]))) == {}
  {
  }

  lemma UniverseOnly(s: Spec, a: Option<seq<string>>, b: Option<seq<string>>)
    ensures var x, y := s.(universe := a), s.(universe := b);
            6.0 * Distance(Some(x), Some(y)) == Jaccard(Symbols(x), Symbols(y))
  {
    hide Jaccard, Symbols;
  }

  lemma ShareOf<T>(a: set<T>, b: set<T>)
    ensures if a + b == {} then Jaccard(a, b) == 0.0
            else Jaccard(a, b) * |a + b| as real == (|a + b| - |a * b|) as real
  {
    if a + b != {} {
      var i, u := |a * b| as real, |a + b| as real;
      assert (1.0 - i / u) * u == u - i;
    }
  }
}
