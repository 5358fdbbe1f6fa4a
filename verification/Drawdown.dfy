/**
 Equity curves and their drawdown: the one-pass scan of tools/strategies/portfolio_pulse.js, and the aggregation of
 trades into a curve with its own scan in backend/cpp_core/src/main.cpp.
 */
module Drawdown {

  // ---- the JavaScript scan ----

  datatype Worst = Worst(drawdown: real, peakIndex: nat, troughIndex: nat)
  datatype Scan = Scan(peak: real, peakIndex: nat, worst: Worst)

  /** The relative change from one point of the series to another. */
  function Change(values: seq<real>, i: nat, j: nat): real
    requires i < |values| && j < |values| && Positive(values)
  {
    (values[j] - values[i]) / values[i]
  }

  /** Where the scan stands after the first k values. */
  function ScanUpTo(values: seq<real>, k: nat): Scan
    requires 0 < |values| && k <= |values|
  {
    if k == 0 then Scan(values[0], 0, Worst(0.0, 0, 0)) else
      var s := ScanUpTo(values, k - 1);
      var i := k - 1;
      var peak := if values[i] > s.peak then values[i] else s.peak;
      var peakIndex := if values[i] > s.peak then i else s.peakIndex;
      var drawdown := if peak > 0.0 then (values[i] - peak) / peak else 0.0;
      Scan(peak, peakIndex, if drawdown < s.worst.drawdown then Worst(drawdown, peakIndex, i) else s.worst)
  }

  predicate Positive(values: seq<real>) {
    forall i :: 0 <= i < |values| ==> values[i] > 0.0
  }

  /** The peak is the first maximum so far, and the worst decline is attained and minimal over all ordered pairs. */
  lemma {:induction false} ScanIsMinimum(values: seq<real>, k: nat)
    requires 0 < k <= |values| && Positive(values)
    ensures var s := ScanUpTo(values, k);
            && s.peakIndex < k && s.peak == values[s.peakIndex]
            && (forall i :: 0 <= i < k ==> values[i] <= s.peak)
            && (forall i :: 0 <= i < s.peakIndex ==> values[i] < s.peak)
            && s.worst.peakIndex <= s.worst.troughIndex < k
            && s.worst.drawdown == Change(values, s.worst.peakIndex, s.worst.troughIndex)
            && (forall i, j :: 0 <= i <= j < k ==> Change(values, i, j) >= s.worst.drawdown)
  {
    var s := ScanUpTo(values, k);
    if k == 1 {
      assert ScanUpTo(values, 0) == Scan(values[0], 0, Worst(0.0, 0, 0));
    } else {
      ScanIsMinimum(values, k - 1);
      var j := k - 1;
      forall i | 0 <= i < k ensures Change(values, i, j) >= s.worst.drawdown {
        SmallerBaseSmallerDecline(values[i], s.peak, values[k - 1]);
      }
    }
  }

  lemma SmallerBaseSmallerDecline(base: real, peak: real, v: real)
    requires 0.0 < base <= peak && v > 0.0
    ensures (v - base) / base >= (v - peak) / peak
  {
    RelativeChange(v, base);
    RelativeChange(v, peak);
    QuotientShrinks(v, base, peak);
  }

  lemma RelativeChange(v: real, base: real)
    requires base > 0.0
    ensures (v - base) / base == v / base - 1.0
  {
    QuotientOfSum(v - base, base, base);
  }

  lemma QuotientOfSum(x: real, y: real, d: real)
    requires d > 0.0
    ensures x / d + y / d == (x + y) / d
  {
  }

  lemma QuotientShrinks(v: real, a: real, b: real)
    requires 0.0 < a <= b && 0.0 <= v
    ensures v / b <= v / a
  {
  }

  /** The worst decline of a series. On positive series it is the minimum of the relative changes over all i <= j,
      reported with the pair that attains it. */
  method MaxDrawdown(values: seq<real>) returns (worst: Worst)
    ensures values == [] ==> worst == Worst(0.0, 0, 0)
    ensures values != [] ==> worst == ScanUpTo(values, |values|).worst
    ensures values != [] && Positive(values) ==>
              && worst.peakIndex <= worst.troughIndex < |values|
              && worst.drawdown == Change(values, worst.peakIndex, worst.troughIndex)
              && forall i, j :: 0 <= i <= j < |values| ==> Change(values, i, j) >= worst.drawdown
  {
    worst := Worst(0.0, 0, 0);
    if values == [] {
      return;
    }
    var peak := values[0];
    var peakIndex := 0;
    for i := 0 to |values|
      invariant Scan(peak, peakIndex, worst) == ScanUpTo(values, i)
    {
      if values[i] > peak {
        peak := values[i];
        peakIndex := i;
      }
      var drawdown := if peak > 0.0 then (values[i] - peak) / peak else 0.0;
      if drawdown < worst.drawdown {
        worst := Worst(drawdown, peakIndex, i);
      }
    }
    if Positive(values) {
      ScanIsMinimum(values, |values|);
    }
  }

  // ---- the C++ scan ----

  datatype Point = Point(time: string, equity: real)
  datatype Depth = Depth(peak: real, dd: real)

  function Equities(points: seq<Point>): seq<real> {
    seq(|points|, i requires 0 <= i < |points| => points[i].equity)
  }

  function DepthUpTo(values: seq<real>, k: nat): Depth
    requires k <= |values|
  {
    if k == 0 then Depth(1.0, 0.0) else
      var d := DepthUpTo(values, k - 1);
      var peak := if values[k - 1] > d.peak then values[k - 1] else d.peak;
      var fall := (if peak > 0.0 then (peak - values[k - 1]) / peak else d.dd);
      Depth(peak, if fall > d.dd then fall else d.dd)
  }

  method MaxDepth(points: seq<Point>) returns (dd: real)
    ensures dd == DepthUpTo(Equities(points), |points|).dd
  {
    var peak := 1.0;
    dd := 0.0;
    for k := 0 to |points|
      invariant Depth(peak, dd) == DepthUpTo(Equities(points), k)
    {
      if points[k].equity > peak {
        peak := points[k].equity;
      }
      if peak > 0.0 {
        var fall := (peak - points[k].equity) / peak;
        if fall > dd {
          dd := fall;
        }
      }
    }
  }

  /** On every curve that starts at 1.0 the two scans agree: same peak, opposite sign. */
  lemma {:induction false} ScansAgree(values: seq<real>, k: nat)
    requires 0 < k <= |values| && values[0] == 1.0
    ensures DepthUpTo(values, k).peak == ScanUpTo(values, k).peak >= 1.0
    ensures DepthUpTo(values, k).dd == -ScanUpTo(values, k).worst.drawdown >= 0.0
  {
    if k == 1 {
      assert ScanUpTo(values, 0) == Scan(values[0], 0, Worst(0.0, 0, 0));
      assert DepthUpTo(values, 0) == Depth(1.0, 0.0);
    } else {
      ScansAgree(values, k - 1);
      var peak, v := ScanUpTo(values, k).peak, values[k - 1];
      NegatedQuotient(v, peak);
    }
  }

  lemma NegatedQuotient(v: real, peak: real)
    requires peak > 0.0
    ensures (peak - v) / peak == -((v - peak) / peak)
  {
  }

  /** The depth stays below 1 exactly as long as the equity stays positive. */
  lemma {:induction false} DepthBelowOneExactly(values: seq<real>, k: nat)
    requires k <= |values|
    ensures DepthUpTo(values, k).peak >= 1.0 && DepthUpTo(values, k).dd >= 0.0
    ensures DepthUpTo(values, k).dd < 1.0 <==> forall i :: 0 <= i < k ==> values[i] > 0.0
    ensures forall i :: 0 <= i < k && values[i] >= 0.0 ==> DepthUpTo(values, k).dd >= 1.0 - values[i]
  {
    if k > 0 {
      DepthBelowOneExactly(values, k - 1);
      var peak, v := DepthUpTo(values, k).peak, values[k - 1];
      FallBelowOne(v, peak);
    }
  }

  lemma FallBelowOne(v: real, peak: real)
    requires peak >= 1.0 && v <= peak
    ensures (peak - v) / peak < 1.0 <==> v > 0.0
    ensures (peak - v) / peak >= 0.0
    ensures v >= 0.0 ==> (peak - v) / peak >= 1.0 - v
  {
    RelativeChange(v, peak);
    NegatedQuotient(v, peak);
    var q := v / peak;
    assert q * peak == v;
    if v >= 0.0 {
      QuotientShrinks(v, 1.0, peak);
    }
  }

  // ---- aggregating trades ----

  datatype Trade = Trade(exitTime: string, netReturn: real)

  datatype Summary = Summary(
    points: seq<Point>,
    gains: seq<real>,
    winners: nat,
    losers: nat,
    netReturn: real,
    maxDrawdown: real,
    winRate: real,
    expectancy: real)

  function PositionSize(pct: real): real {
    if pct < 0.01 then 0.01 else if pct > 1.0 then 1.0 else pct
  }

  function Flatten(symbols: seq<seq<Trade>>, k: nat): seq<Trade>
    requires k <= |symbols|
  {
    if k == 0 then [] else Flatten(symbols, k - 1) + symbols[k - 1]
  }

  /** The equity after a list of trades: every trade multiplies it by one plus its share of the position. */
  function Equity(trades: seq<Trade>, size: real): real {
    if trades == [] then 1.0
    else Equity(trades[..|trades| - 1], size) * (1.0 + Pnl(size, trades[|trades| - 1]))
  }

  function Curve(trades: seq<Trade>, size: real): seq<Point> {
    if trades == [] then [Point("start", 1.0)]
    else Curve(trades[..|trades| - 1], size) + [Point(trades[|trades| - 1].exitTime, Equity(trades, size))]
  }

  /** A trade's effect on the equity: its return on the share of the equity it used. */
  function Pnl(size: real, t: Trade): real {
    size * t.netReturn
  }

  function Returns(trades: seq<Trade>, size: real): seq<real> {
    if trades == [] then [] else Returns(trades[..|trades| - 1], size) + [Pnl(size, trades[|trades| - 1])]
  }

  function Winners(trades: seq<Trade>): nat {
    if trades == [] then 0
    else Winners(trades[..|trades| - 1]) + if trades[|trades| - 1].netReturn > 0.0 then 1 else 0
  }

  function Losers(trades: seq<Trade>): nat {
    if trades == [] then 0
    else Losers(trades[..|trades| - 1]) + if trades[|trades| - 1].netReturn < 0.0 then 1 else 0
  }

  function Sum(values: seq<real>): real {
    if values == [] then 0.0 else Sum(values[..|values| - 1]) + values[|values| - 1]
  }

  /** Runs the symbols one after the other and folds all their trades into one equity curve. */
  method Aggregate(symbols: seq<seq<Trade>>, positionSizePct: real) returns (s: Summary)
    ensures var trades, size := Flatten(symbols, |symbols|), PositionSize(positionSizePct);
            && s.points == Curve(trades, size)
            && s.gains == Returns(trades, size)
            && s.winners == Winners(trades) && s.losers == Losers(trades)
            && s.netReturn == Equity(trades, size) - 1.0
            && s.maxDrawdown == DepthUpTo(Equities(s.points), |s.points|).dd
            && s.winRate == Mean(Winners(trades) as real, |trades|)
            && s.expectancy == Mean(Sum(Returns(trades, size)), |trades|)
  {
    hide DepthUpTo, Mean, Sum;
    var size := PositionSize(positionSizePct);
    var equity := 1.0;
    var points := [Point("start", 1.0)];
    var gains, winners, losers := [], 0, 0;
    ghost var done: seq<Trade> := [];
    for k := 0 to |symbols|
      invariant done == Flatten(symbols, k)
      invariant Folded(done, size, equity, points, gains, winners, losers)
    {
      hide Folded, Equity, Curve, Returns, Winners, Losers, Pnl;
      var trades := symbols[k];
      for j := 0 to |trades|
        invariant done == Flatten(symbols, k) + trades[..j]
        invariant Folded(done, size, equity, points, gains, winners, losers)
      {
        var t := trades[j];
        assert trades[..j + 1] == trades[..j] + [t];
        FoldOne(done, size, equity, points, gains, winners, losers, t);
        done := done + [t];
        var pnl := Pnl(size, t);
        equity := equity * (1.0 + pnl);
        gains := gains + [pnl];
        points := points + [Point(t.exitTime, equity)];
        if t.netReturn > 0.0 {
          winners := winners + 1;
        } else if t.netReturn < 0.0 {
          losers := losers + 1;
        }
      }
      assert trades[..|trades|] == trades;
    }
    var dd := MaxDepth(points);
    var total := Accumulate(gains);
    OneReturnEach(done, size);
    s := Summary(points, gains, winners, losers, equity - 1.0, dd, Mean(winners as real, |gains|),
                 Mean(total, |gains|));
  }

  function Mean(total: real, n: nat): real {
    if n > 0 then total / n as real else 0.0
  }

  ghost predicate Folded(done: seq<Trade>, size: real, equity: real, points: seq<Point>, gains: seq<real>,
                         winners: nat, losers: nat) {
    && equity == Equity(done, size) && points == Curve(done, size) && gains == Returns(done, size)
    && winners == Winners(done) && losers == Losers(done)
  }

  lemma {:induction false} OneReturnEach(trades: seq<Trade>, size: real)
    ensures |Returns(trades, size)| == |trades|
  {
    if trades != [] {
      OneReturnEach(trades[..|trades| - 1], size);
    }
  }

  lemma FoldOne(done: seq<Trade>, size: real, equity: real, points: seq<Point>, gains: seq<real>, winners: nat,
                losers: nat, t: Trade)
    requires Folded(done, size, equity, points, gains, winners, losers)
    ensures var next := equity * (1.0 + Pnl(size, t));
            Folded(done + [t], size, next, points + [Point(t.exitTime, next)], gains + [Pnl(size, t)],
                   if t.netReturn > 0.0 then winners + 1 else winners,
                   if t.netReturn < 0.0 then losers + 1 else losers)
  {
    hide Pnl;
    var more := done + [t];
    assert more[..|more| - 1] == done;
  }

  method Accumulate(values: seq<real>) returns (total: real)
    ensures total == Sum(values)
  {
    total := 0.0;
    for k := 0 to |values|
      invariant total == Sum(values[..k])
    {
      assert values[..k + 1][..k] == values[..k];
      total := total + values[k];
    }
    assert values[..|values|] == values;
  }

  lemma {:induction false} CurveFollowsEquity(trades: seq<Trade>, size: real)
    ensures |Curve(trades, size)| == |trades| + 1
    ensures forall k :: 0 <= k <= |trades| ==> Curve(trades, size)[k].equity == Equity(trades[..k], size)
  {
    if trades == [] {
    } else {
      var front := trades[..|trades| - 1];
      CurveFollowsEquity(front, size);
      assert forall k :: 0 <= k <= |front| ==> front[..k] == trades[..k];
      assert trades[..|trades|] == trades;
    }
  }

  lemma {:induction false} EquityStaysPositive(trades: seq<Trade>, size: real)
    requires 0.0 < size <= 1.0 && forall t <- trades :: t.netReturn > -1.0
    ensures Equity(trades, size) > 0.0
  {
    if trades != [] {
      var n := |trades| - 1;
      EquityStaysPositive(trades[..n], size);
      assert trades[n] in trades;
      FactorIsPositive(size, trades[n]);
      ProductIsPositive(Equity(trades[..n], size), 1.0 + Pnl(size, trades[n]));
    }
  }

  lemma FactorIsPositive(size: real, t: Trade)
    requires 0.0 < size <= 1.0 && t.netReturn > -1.0
    ensures 1.0 + Pnl(size, t) > 0.0
  {
    ProductIsPositive(size, t.netReturn + 1.0);
    assert size * (t.netReturn + 1.0) == Pnl(size, t) + size;
  }

  lemma ProductIsPositive(x: real, y: real)
    requires x > 0.0 && y > 0.0
    ensures x * y > 0.0
  {
  }

  lemma {:induction false} WinnersAndLosers(trades: seq<Trade>)
    ensures Winners(trades) + Losers(trades) <= |trades|
  {
    if trades != [] {
      WinnersAndLosers(trades[..|trades| - 1]);
    }
  }

  /** The win rate is a share. */
  lemma WinRateWithinOne(trades: seq<Trade>)
    ensures 0.0 <= Mean(Winners(trades) as real, |trades|) <= 1.0
  {
    WinnersAndLosers(trades);
    if trades != [] {
      ShareWithinOne(Winners(trades) as real, |trades| as real);
    }
  }

  lemma ShareWithinOne(x: real, n: real)
    requires 0.0 <= x <= n && n > 0.0
    ensures 0.0 <= x / n <= 1.0
  {
    var q := x / n;
    assert q * n == x;
    if q < 0.0 {
      ProductIsPositive(-q, n);
    }
    if q > 1.0 {
      ProductIsPositive(q - 1.0, n);
    }
  }

  /** If no trade loses everything, equity stays positive all along, the depth stays below 1 and bounds the net loss,
      and the JavaScript scan of the same curve finds the same depth with the opposite sign. */
  lemma AggregateIsBounded(trades: seq<Trade>, pct: real)
    requires forall t <- trades :: t.netReturn > -1.0
    ensures var size := PositionSize(pct);
            var values := Equities(Curve(trades, size));
            var dd := DepthUpTo(values, |values|).dd;
            && |values| == |trades| + 1 && values[0] == 1.0 && Positive(values)
            && 0.0 <= dd < 1.0
            && Equity(trades, size) - 1.0 >= -dd
            && ScanUpTo(values, |values|).worst.drawdown == -dd
  {
    var size := PositionSize(pct);
    CurveFollowsEquity(trades, size);
    var values := Equities(Curve(trades, size));
    forall k | 0 <= k < |values| ensures values[k] > 0.0 {
      EquityStaysPositive(trades[..k], size);
    }
    assert trades[..0] == [] && trades[..|trades|] == trades;
    DepthBelowOneExactly(values, |values|);
    ScansAgree(values, |values|);
    assert values[|trades|] == Equity(trades, size);
  }

  // ---- what the summary says ----

  /** The equity after one more trade: its return on the share of the equity that it used. */
  function After(equity: real, size: real, netReturn: real): real {
    equity * (1.0 + size * netReturn)
  }

  /** The curve starts at 1 and has a point for the exit of every trade. */
  ghost predicate Compounds(points: seq<Point>, trades: seq<Trade>, size: real) {
    && |points| == |trades| + 1 && points[0] == Point("start", 1.0)
    && forall k :: 0 <= k < |trades| ==>
         points[k + 1] == Point(trades[k].exitTime, After(points[k].equity, size, trades[k].netReturn))
  }

  lemma EquityStep(trades: seq<Trade>, t: Trade, size: real)
    ensures Equity(trades + [t], size) == After(Equity(trades, size), size, t.netReturn)
  {
    assert (trades + [t])[..|trades|] == trades;
  }

  lemma {:induction false} CurveCompounds(trades: seq<Trade>, size: real)
    ensures Compounds(Curve(trades, size), trades, size)
    ensures Curve(trades, size)[|trades|].equity == Equity(trades, size)
  {
    if trades == [] {
      assert Curve(trades, size) == [Point("start", 1.0)];
    } else {
      hide Equity, After, Compounds;
      var front, t := trades[..|trades| - 1], trades[|trades| - 1];
      CurveCompounds(front, size);
      EquityStep(front, t, size);
      assert front + [t] == trades;
      MoreCompounds(Curve(front, size), front, t, size);
    }
  }

  lemma MoreCompounds(points: seq<Point>, trades: seq<Trade>, t: Trade, size: real)
    requires Compounds(points, trades, size)
    ensures |points| == |trades| + 1
    ensures var next := After(points[|trades|].equity, size, t.netReturn);
            Compounds(points + [Point(t.exitTime, next)], trades + [t], size)
  {
    hide After;
  }

  lemma {:induction false} ReturnsExactly(trades: seq<Trade>, size: real)
    ensures |Returns(trades, size)| == |trades|
    ensures forall k :: 0 <= k < |trades| ==> Returns(trades, size)[k] == size * trades[k].netReturn
  {
    if trades != [] {
      ReturnsExactly(trades[..|trades| - 1], size);
    }
  }

  function Above(trades: seq<Trade>): set<nat> {
    set k: nat | k < |trades| && trades[k].netReturn > 0.0
  }

  function Below(trades: seq<Trade>): set<nat> {
    set k: nat | k < |trades| && trades[k].netReturn < 0.0
  }

  lemma OneMorePlace(trades: seq<Trade>, t: Trade)
    ensures |Above(trades + [t])| == |Above(trades)| + if t.netReturn > 0.0 then 1 else 0
    ensures |Below(trades + [t])| == |Below(trades)| + if t.netReturn < 0.0 then 1 else 0
  {
    var n := |trades|;
    assert n !in Above(trades) && n !in Below(trades);
    assert Above(trades + [t]) == if t.netReturn > 0.0 then Above(trades) + {n} else Above(trades);
    assert Below(trades + [t]) == if t.netReturn < 0.0 then Below(trades) + {n} else Below(trades);
  }

  /** A trade that breaks even neither wins nor loses. */
  lemma {:induction false} CountsExactly(trades: seq<Trade>)
    ensures Winners(trades) == |Above(trades)| && Losers(trades) == |Below(trades)|
  {
    if trades == [] {
      assert Above([]) == {} && Below([]) == {};
    } else {
      var front, t := trades[..|trades| - 1], trades[|trades| - 1];
      assert front + [t] == trades;
      CountsExactly(front);
      OneMorePlace(front, t);
    }
  }

  lemma {:induction false} SumAdds(a: seq<real>, b: seq<real>)
    ensures Sum(a + b) == Sum(a) + Sum(b)
  {
    if b == [] {
      assert a + b == a;
    } else {
      SumAdds(a, b[..|b| - 1]);
      assert (a + b)[..|a + b| - 1] == a + b[..|b| - 1];
    }
  }

  lemma SumOfOne(x: real)
    ensures Sum([x]) == x && Sum([]) == 0.0
  {
    assert [x][..0] == [];
  }

  lemma MeanExactly(total: real, n: nat)
    ensures if n == 0 then Mean(total, n) == 0.0 else Mean(total, n) * n as real == total
  {
  }

  /** The position is the requested share of the equity, but at least a hundredth of it and at most all. */
  lemma PositionExactly(pct: real)
    ensures 0.01 <= PositionSize(pct) <= 1.0
    ensures PositionSize(pct) == pct || (PositionSize(pct) == 0.01 && pct < 0.01)
            || (PositionSize(pct) == 1.0 && pct > 1.0)
  {
  }
}
