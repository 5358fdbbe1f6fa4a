/**
 What a trading cycle sells and buys, said of the feed, the markets and the exchange's answers alone: which positions
 go and why, which token, price and size each order carries, and what is stored of each purchase.
 */
module BotCycleTrades {
  import opened Wrappers
  import opened BotCycle
  import opened BotCycleProperties

  // ---- reasons to sell ----

  /** Bet i is the one that counts for a slug: no later bet has it. */
  predicate LastBet(bets: seq<Bet>, slug: string, i: int) {
    0 <= i < |bets| && bets[i].slug == slug && forall j :: i < j < |bets| ==> bets[j].slug != slug
  }

  function SideProbability(side: Side, b: Bet): real {
    if side.Yes? then b.aiProbability else 1.0 - b.aiProbability
  }

  function SidePrice(side: Side, b: Bet): real {
    if side.Yes? then b.marketPrice else 1.0 - b.marketPrice
  }

  /** The price a position is looked at with: the live quote of its token, or the feed's price of its side. */
  ghost predicate PriceSeen(env: Env, p: Position, price: real) {
    && 0.0 < price <= 1.0
    && if env.live then env.quote(p.token) == Some(price)
       else exists i :: LastBet(env.bets, p.slug, i) && price == SidePrice(p.side, env.bets[i])
  }

  /** The feed gives the position's side no edge at this price. */
  ghost predicate EdgeGone(env: Env, p: Position, price: real) {
    exists i :: LastBet(env.bets, p.slug, i) && SideProbability(p.side, env.bets[i]) <= price
  }

  predicate TooOld(env: Env, cfg: Config, p: Position) {
    (env.nowMs - p.entryMs) as real >= cfg.maxPositionAgeHours * 3_600_000.0
  }

  ghost predicate ReasonToSell(env: Env, cfg: Config, p: Position, price: real) {
    price >= 0.95 || price >= p.targetPrice || price <= p.stopPrice || EdgeGone(env, p, price) || TooOld(env, cfg, p)
  }

  /** The first reason that applies, in this order. */
  ghost predicate FirstReason(env: Env, cfg: Config, p: Position, price: real, r: ExitReason) {
    match r
    case Resolved => price >= 0.95
    case Target => p.targetPrice <= price < 0.95
    case StopLoss => price <= p.stopPrice && price < 0.95 && price < p.targetPrice
    case AiReversal => p.stopPrice < price < 0.95 && price < p.targetPrice && EdgeGone(env, p, price)
    case TimeDecay =>
      && p.stopPrice < price < 0.95 && price < p.targetPrice && !EdgeGone(env, p, price)
      && TooOld(env, cfg, p)
  }

  lemma {:induction false} BetForExactly(bets: seq<Bet>, slug: string)
    ensures forall i :: LastBet(bets, slug, i) ==> BetFor(bets, slug) == Some(bets[i])
    ensures BetFor(bets, slug).Some? ==> exists i :: LastBet(bets, slug, i)
  {
    if bets != [] {
      var n := |bets| - 1;
      BetForExactly(bets[..n], slug);
      if bets[n].slug == slug {
        assert LastBet(bets, slug, n);
      } else {
        forall i | LastBet(bets, slug, i) ensures BetFor(bets, slug) == Some(bets[i]) {
          assert LastBet(bets[..n], slug, i);
        }
        if i :| LastBet(bets[..n], slug, i) {
          assert LastBet(bets, slug, i);
        }
      }
    }
  }

  lemma ObservablePriceExactly(env: Env, p: Position, price: real)
    ensures ObservablePrice(env, p) == Some(price) <==> PriceSeen(env, p, price)
  {
    hide BetFor;
    BetForExactly(env.bets, p.slug);
  }

  lemma EdgeGoneExactly(env: Env, p: Position, price: real)
    ensures EdgeGone(env, p, price) <==>
            BetFor(env.bets, p.slug).Some? && SideProbability(p.side, BetFor(env.bets, p.slug).value) <= price
  {
    hide BetFor;
    BetForExactly(env.bets, p.slug);
  }

  /** A position has an exit exactly if a price is seen at which some reason applies; its reason is the first one. */
  lemma ExitExactly(env: Env, cfg: Config, p: Position, r: ExitReason)
    ensures ExitOf(env, cfg, p) == Some(r) <==>
            exists price :: PriceSeen(env, p, price) && FirstReason(env, cfg, p, price, r)
    ensures ExitOf(env, cfg, p).Some? <==>
            exists price :: PriceSeen(env, p, price) && ReasonToSell(env, cfg, p, price)
  {
    hide BetFor, PriceSeen, EdgeGone, ObservablePrice;
    var seen := ObservablePrice(env, p);
    if seen.Some? {
      ObservablePriceExactly(env, p, seen.value);
      EdgeGoneExactly(env, p, seen.value);
    }
    forall price | PriceSeen(env, p, price) ensures seen == Some(price) {
      ObservablePriceExactly(env, p, price);
    }
    assert seen.Some? ==> 0.0 < seen.value by {
      if seen.Some? { SeenIsPositive(env, p, seen.value); }
    }
  }

  lemma SeenIsPositive(env: Env, p: Position, price: real)
    requires PriceSeen(env, p, price)
    ensures 0.0 < price <= 1.0
  {
  }

  // ---- the review phase ----

  /** The order that closes a position at a price. */
  function ClosingOrder(p: Position, price: real): Intent {
    Intent(p.token, price, p.shares, false)
  }

  /** Position k is counted as sold: in paper mode for a reason alone, live if its closing order is approved and
      matched. */
  ghost predicate Sold(env: Env, cfg: Config, p: Position, k: nat) {
    exists price :: PriceSeen(env, p, price) && ReasonToSell(env, cfg, p, price) && Closes(env, p, price, k)
  }

  predicate Closes(env: Env, p: Position, price: real, k: nat) {
    env.live ==> env.authorized(ClosingOrder(p, price)) && env.exchange(ClosingOrder(p, price), k).Matched?
  }

  /** And it leaves: live only if the log of that order works. */
  ghost predicate Gone(env: Env, cfg: Config, p: Position, k: nat) {
    exists price ::
      && PriceSeen(env, p, price) && ReasonToSell(env, cfg, p, price) && Closes(env, p, price, k)
      && (env.live ==> env.logged(ClosingOrder(p, price), k))
  }

  lemma SellsExactly(env: Env, cfg: Config, p: Position, k: nat)
    ensures Sells(env, cfg, p, k) <==> Sold(env, cfg, p, k)
    ensures Sells(env, cfg, p, k) && !Unlogged(env, cfg, p, k) <==> Gone(env, cfg, p, k)
  {
    hide ExitOf, ObservablePrice, PriceSeen, ReasonToSell;
    ExitExactly(env, cfg, p, Resolved);
    forall price ensures ObservablePrice(env, p) == Some(price) <==> PriceSeen(env, p, price) {
      ObservablePriceExactly(env, p, price);
    }
    ExitHasPrice(env, cfg, p);
  }

  lemma ExitHasPrice(env: Env, cfg: Config, p: Position)
    ensures ExitOf(env, cfg, p).Some? ==> ObservablePrice(env, p).Some?
  {
  }

  /** The positions whose index is not in `gone`, in order. */
  function Keep(all: seq<Position>, gone: set<int>, n: nat): seq<Position>
    requires n <= |all|
  {
    if n == 0 then []
    else if n - 1 in gone then Keep(all, gone, n - 1)
    else Keep(all, gone, n - 1) + [all[n - 1]]
  }

  ghost function GoneBefore(env: Env, cfg: Config, all: seq<Position>, k: nat): set<int>
    requires k <= |all|
  {
    set i: int | 0 <= i < k && Gone(env, cfg, all[i], i)
  }

  ghost function SoldBefore(env: Env, cfg: Config, all: seq<Position>, k: nat): set<int>
    requires k <= |all|
  {
    set i: int | 0 <= i < k && Sold(env, cfg, all[i], i)
  }

  lemma {:induction false} KeepAll(all: seq<Position>, n: nat)
    requires n <= |all|
    ensures Keep(all, {}, n) == all[..n]
  {
    if n > 0 {
      KeepAll(all, n - 1);
    }
  }

  lemma {:induction false} WithoutIdAppend(ps: seq<Position>, p: Position, id: PositionId)
    ensures WithoutId(ps + [p], id) == WithoutId(ps, id) + if p.id == id then [] else [p]
  {
    if ps == [] {
      assert ps + [p] == [p];
      assert [p][1..] == [] && WithoutId([], id) == [];
    } else {
      assert (ps + [p])[1..] == ps[1..] + [p];
      WithoutIdAppend(ps[1..], p, id);
    }
  }

  lemma {:induction false} KeepOneLess(all: seq<Position>, gone: set<int>, k: nat, n: nat)
    requires UniqueIds(all) && k < |all| && n <= |all|
    ensures WithoutId(Keep(all, gone, n), all[k].id) == Keep(all, gone + {k}, n)
  {
    hide UniqueIds;
    if n > 0 {
      KeepOneLess(all, gone, k, n - 1);
      assert all[n - 1].id == all[k].id <==> n - 1 == k by { DifferentIds(all, n - 1, k); }
      if n - 1 !in gone {
        WithoutIdAppend(Keep(all, gone, n - 1), all[n - 1], all[k].id);
      }
    }
  }

  lemma DifferentIds(all: seq<Position>, i: nat, k: nat)
    requires UniqueIds(all) && i < |all| && k < |all|
    ensures all[i].id == all[k].id <==> i == k
  {
  }

  /** Main result: the review keeps exactly the positions that are not sold and logged, in order, and counts those
      sold. */
  lemma {:induction false} ReviewExactly(env: Env, cfg: Config, all: seq<Position>, k: nat)
    requires k <= |all| && UniqueIds(all)
    ensures ReviewUpTo(env, cfg, all, k).kept == Keep(all, GoneBefore(env, cfg, all, k), |all|)
    ensures ReviewUpTo(env, cfg, all, k).sells == |SoldBefore(env, cfg, all, k)|
  {
    hide Sells, Unlogged, Sold, Gone, UniqueIds, Keep, WithoutId;
    if k == 0 {
      assert GoneBefore(env, cfg, all, 0) == {} && SoldBefore(env, cfg, all, 0) == {};
      KeepAll(all, |all|);
      assert all[..|all|] == all;
    } else {
      ReviewExactly(env, cfg, all, k - 1);
      SellsExactly(env, cfg, all[k - 1], k - 1);
      var gone, sold := GoneBefore(env, cfg, all, k - 1), SoldBefore(env, cfg, all, k - 1);
      KeepOneLess(all, gone, k - 1, |all|);
      assert GoneBefore(env, cfg, all, k) == if Gone(env, cfg, all[k - 1], k - 1) then gone + {k - 1} else gone;
      assert SoldBefore(env, cfg, all, k) == if Sold(env, cfg, all[k - 1], k - 1) then sold + {k - 1} else sold;
      UnloggedWasSold(env, cfg, all[k - 1], k - 1);
    }
  }

  lemma UnloggedWasSold(env: Env, cfg: Config, p: Position, k: nat)
    ensures Unlogged(env, cfg, p, k) ==> Sells(env, cfg, p, k)
  {
  }

  /** Each order of the review closes a position at the price seen, with its token and all its shares, for a reason. */
  ghost predicate IsClosing(env: Env, cfg: Config, p: Position, order: Intent) {
    exists price ::
      && PriceSeen(env, p, price) && ReasonToSell(env, cfg, p, price)
      && env.authorized(ClosingOrder(p, price)) && order == ClosingOrder(p, price)
  }

  /** The review posts, in order, one approved closing order for each position with a reason, live only. */
  lemma ReviewOrdersExactly(env: Env, cfg: Config, all: seq<Position>, k: nat)
    requires k < |all|
    ensures var before, after := ReviewOrders(env, cfg, all, k), ReviewOrders(env, cfg, all, k + 1);
            && (forall order :: env.live && IsClosing(env, cfg, all[k], order) ==> after == before + [order])
            && (!env.live || (forall order :: !IsClosing(env, cfg, all[k], order)) ==> after == before)
    ensures ReviewOrders(env, cfg, all, 0) == []
  {
    hide ExitOf, ObservablePrice, PriceSeen, ReasonToSell;
    var p := all[k];
    ExitExactly(env, cfg, p, Resolved);
    ExitHasPrice(env, cfg, p);
    forall price ensures ObservablePrice(env, p) == Some(price) <==> PriceSeen(env, p, price) {
      ObservablePriceExactly(env, p, price);
    }
    if ExitOf(env, cfg, p).Some? && env.authorized(SellIntent(env, p)) {
      assert IsClosing(env, cfg, p, SellIntent(env, p));
    }
  }

  // ---- purchases ----

  /** The model gives YES at least the market's price. */
  predicate Likely(b: Bet) {
    b.aiProbability >= b.marketPrice
  }

  /** A resolved market that is active, needs no manual allowance and does not end before today. */
  predicate Open(env: Env, slug: string) {
    && env.lookup(slug).Some? && env.lookup(slug).value.active && !env.lookup(slug).value.negRisk
    && (env.endDay(slug).Some? ==> env.nowMs < (env.endDay(slug).value + 1) * 86_400_000)
  }

  /** The order for a bet: its market's YES token if the model finds YES likely, else the NO token, at that side's
      price, for the configured amount of money. */
  predicate OrderFor(cfg: Config, m: Market, b: Bet, order: Intent) {
    && order.buy
    && order.token == (if Likely(b) then m.yesToken else m.noToken)
    && order.price == (if Likely(b) then b.marketPrice else 1.0 - b.marketPrice)
    && (order.quantity.None? <==> order.price == 0.0)
    && (order.quantity.Some? ==> order.quantity.value * order.price == cfg.positionSizeUsdc)
  }

  /** The take-profit price: the captured share of the edge above the fill, at least a cent above it, at most 0.95. */
  predicate TargetFor(cfg: Config, b: Bet, fill: real, target: real) {
    var edge := (if Likely(b) then b.aiProbability else 1.0 - b.aiProbability) - fill;
    var goal := fill + (if edge > 0.02 then edge else 0.02) * cfg.edgeCaptureRatio;
    && target <= 0.95
    && (fill + 0.01 <= 0.95 ==> target >= fill + 0.01)
    && (fill + 0.01 > 0.95 || goal > 0.95 ==> target == 0.95)
    && (fill + 0.01 <= goal <= 0.95 ==> target == goal)
    && (goal < fill + 0.01 <= 0.95 ==> target == fill + 0.01)
  }

  /** What is stored of a purchase: the order's own token, price and size, and the fill the exchange reported. */
  predicate PositionFor(env: Env, cfg: Config, b: Bet, order: Intent, fill: real, p: Position) {
    && p.slug == b.slug && (p.side.Yes? <==> Likely(b))
    && p.token == order.token && p.id == PositionId(order.token, env.nowMs)
    && p.entryPrice == order.price && p.shares == order.quantity && p.fillPrice == fill
    && p.stopPrice == fill - fill * cfg.stopLossPct
    && TargetFor(cfg, b, fill, p.targetPrice)
    && p.entryMs == env.nowMs && p.aiProbabilityAtEntry == b.aiProbability && p.lastFokFailMs.None?
  }

  /** Bet b, looked at as the k-th candidate, is bought with this order at this fill price. */
  predicate Filled(env: Env, cfg: Config, b: Bet, k: nat, order: Intent, fill: real) {
    && Open(env, b.slug) && OrderFor(cfg, env.lookup(b.slug).value, b, order)
    && if env.live then
         && env.authorized(order) && env.exchange(order, k).Matched?
         && fill == (if env.exchange(order, k).price.Some? then env.exchange(order, k).price.value else order.price)
       else fill == order.price
  }

  lemma SameFactor(x: real, y: real, t: real)
    requires t != 0.0 && x * t == y * t
    ensures x == y
  {
    var gap := x - y;
    assert gap * t == x * t - y * t;
  }

  lemma SharesCost(usdc: real, price: real)
    requires price != 0.0
    ensures (usdc / price) * price == usdc
  {
  }

  lemma OneOrder(cfg: Config, m: Market, b: Bet, x: Intent, y: Intent)
    requires OrderFor(cfg, m, b, x) && OrderFor(cfg, m, b, y)
    ensures x == y
  {
    assert x.price == y.price;
    SameShares(x.quantity, y.quantity, x.price, cfg.positionSizeUsdc);
  }

  lemma SameShares(x: Option<real>, y: Option<real>, price: real, usdc: real)
    requires (x.None? <==> price == 0.0) && (y.None? <==> price == 0.0)
    requires (x.Some? ==> x.value * price == usdc) && (y.Some? ==> y.value * price == usdc)
    ensures x == y
  {
    if x.Some? {
      SameFactor(x.value, y.value, price);
    }
  }

  lemma OpenExactly(env: Env, c: Candidate)
    ensures Tradable(env, c) <==> Open(env, c.bet.slug)
  {
  }

  lemma OrderExactly(env: Env, cfg: Config, b: Bet)
    requires Tradable(env, CandidateOf(b))
    ensures OrderFor(cfg, env.lookup(b.slug).value, b, BuyIntent(env, cfg, CandidateOf(b)))
  {
    var c := CandidateOf(b);
    if c.price != 0.0 {
      SharesCost(cfg.positionSizeUsdc, c.price);
    }
  }

  lemma PositionExactly(env: Env, cfg: Config, b: Bet, fill: real)
    requires Tradable(env, CandidateOf(b))
    ensures var c := CandidateOf(b);
            PositionFor(env, cfg, b, BuyIntent(env, cfg, c), fill, NewPosition(env, cfg, c, fill))
  {
    assert fill * (1.0 - cfg.stopLossPct) == fill - fill * cfg.stopLossPct;
  }

  /** The fill price of candidate k, if it is bought. */
  lemma FilledExactly(env: Env, cfg: Config, b: Bet, k: nat, order: Intent, fill: real)
    ensures var c := CandidateOf(b);
            Filled(env, cfg, b, k, order, fill) <==>
            && Tradable(env, c) && order == BuyIntent(env, cfg, c)
            && Purchase(env, cfg, c, k) == Some(NewPosition(env, cfg, c, fill))
  {
    hide BuyIntent, OrderFor, NewPosition;
    var c := CandidateOf(b);
    OpenExactly(env, c);
    if Tradable(env, c) {
      OrderExactly(env, cfg, b);
      OrderPrice(env, cfg, b);
      FillKept(env, cfg, c, fill);
      if Purchase(env, cfg, c, k).Some? {
        var f := PurchaseFill(env, cfg, c, k);
        FillKept(env, cfg, c, f);
      }
      if OrderFor(cfg, env.lookup(b.slug).value, b, order) {
        OneOrder(cfg, env.lookup(b.slug).value, b, order, BuyIntent(env, cfg, c));
      }
    }
  }

  lemma FillKept(env: Env, cfg: Config, c: Candidate, fill: real)
    requires Tradable(env, c)
    ensures NewPosition(env, cfg, c, fill).fillPrice == fill
  {
  }

  lemma OrderPrice(env: Env, cfg: Config, b: Bet)
    requires Tradable(env, CandidateOf(b))
    ensures BuyIntent(env, cfg, CandidateOf(b)).price == CandidateOf(b).price
  {
  }

  /** What one candidate does: nothing after a throw, nothing unless it is bought, else its position at the end. */
  lemma BuyStepExactly(env: Env, cfg: Config, held: seq<Position>, k: nat)
    requires k < |Considered(env, cfg, held)|
    ensures var cs := Considered(env, cfg, held);
            var a, b := BuyUpTo(env, cfg, held, cs, k), BuyUpTo(env, cfg, held, cs, k + 1);
            && (a.threw || (forall order, fill :: !Filled(env, cfg, cs[k].bet, k, order, fill)) ==> b == a)
            && (forall order, fill :: !a.threw && Filled(env, cfg, cs[k].bet, k, order, fill) ==>
                  Extends(env, cfg, cs[k].bet, k, order, fill, a, b))
  {
    hide Considered, CooldownBlocks, Tradable, Purchase, BuyIntent, NewPosition, Filled, PositionFor;
    var cs := Considered(env, cfg, held);
    ConsideredAreEligible(env, cfg, held);
    assert cs[k] in cs;
    var bet :| bet in env.bets && cs[k] == CandidateOf(bet);
    SameBet(bet);
    CooldownNeverBlocks(env, cfg, held, k);
    forall order, fill | Filled(env, cfg, bet, k, order, fill)
      ensures Tradable(env, cs[k]) && order == BuyIntent(env, cfg, cs[k])
           && Purchase(env, cfg, cs[k], k) == Some(NewPosition(env, cfg, cs[k], fill))
           && PositionFor(env, cfg, bet, order, fill, NewPosition(env, cfg, cs[k], fill))
    {
      FilledExactly(env, cfg, bet, k, order, fill);
      PositionExactly(env, cfg, bet, fill);
    }
    if Tradable(env, cs[k]) && Purchase(env, cfg, cs[k], k).Some? {
      var fill := PurchaseFill(env, cfg, cs[k], k);
      FilledExactly(env, cfg, bet, k, BuyIntent(env, cfg, cs[k]), fill);
    }
  }

  lemma SameBet(b: Bet)
    ensures CandidateOf(b).bet == b
  {
  }

  lemma PurchaseFill(env: Env, cfg: Config, c: Candidate, k: nat) returns (fill: real)
    requires Tradable(env, c) && Purchase(env, cfg, c, k).Some?
    ensures Purchase(env, cfg, c, k) == Some(NewPosition(env, cfg, c, fill))
    ensures fill == if env.live && Submitted(env, BuyIntent(env, cfg, c), k).Matched?
                       && Submitted(env, BuyIntent(env, cfg, c), k).price.Some?
                    then Submitted(env, BuyIntent(env, cfg, c), k).price.value else c.price
  {
    hide NewPosition, Tradable;
    if env.live {
      var answer := Submitted(env, BuyIntent(env, cfg, c), k);
      fill := if answer.price.Some? then answer.price.value else c.price;
    } else {
      fill := c.price;
    }
  }

  predicate Extends(env: Env, cfg: Config, b: Bet, k: nat, order: Intent, fill: real, before: Buying, after: Buying) {
    && |after.positions| == |before.positions| + 1 && before.positions <= after.positions
    && PositionFor(env, cfg, b, order, fill, after.positions[|before.positions|])
    && after.buys == before.buys + 1
    && after.threw == (env.live && !env.logged(order, k))
  }

  /** A position comes from one of the first k candidates' bets, which was filled. */
  ghost predicate ComesFrom(env: Env, cfg: Config, cs: seq<Candidate>, k: nat, p: Position)
    requires k <= |cs|
  {
    exists i: nat, order, fill ::
      i < k && Filled(env, cfg, cs[i].bet, i, order, fill) && PositionFor(env, cfg, cs[i].bet, order, fill, p)
  }

  /** Main result: every position bought in a cycle comes from a filled candidate, in the order of the ranking, and
      every candidate filled before a throw is stored. */
  lemma {:induction false} PurchasesExactly(env: Env, cfg: Config, held: seq<Position>, k: nat)
    requires k <= |Considered(env, cfg, held)|
    ensures var cs := Considered(env, cfg, held);
            var b := BuyUpTo(env, cfg, held, cs, k);
            && held <= b.positions && |b.positions| == |held| + b.buys
            && (forall j :: |held| <= j < |b.positions| ==> ComesFrom(env, cfg, cs, k, b.positions[j]))
            && (forall i: nat, order, fill ::
                  i < k && !BuyUpTo(env, cfg, held, cs, i).threw && Filled(env, cfg, cs[i].bet, i, order, fill) ==>
                  exists j :: |held| <= j < |b.positions|
                    && PositionFor(env, cfg, cs[i].bet, order, fill, b.positions[j]))
  {
    hide Considered, Filled, PositionFor, BuyUpTo;
    var cs := Considered(env, cfg, held);
    if k == 0 {
      NothingBought(env, cfg, held, cs);
    } else {
      PurchasesExactly(env, cfg, held, k - 1);
      BuyStepExactly(env, cfg, held, k - 1);
      var a, b := BuyUpTo(env, cfg, held, cs, k - 1), BuyUpTo(env, cfg, held, cs, k);
      var n, bet := k - 1, cs[k - 1].bet;
      if order, fill :| !a.threw && Filled(env, cfg, bet, n, order, fill) {
        assert Extends(env, cfg, bet, n, order, fill, a, b);
        assert ComesFrom(env, cfg, cs, k, b.positions[|a.positions|]);
      }
      forall j | |held| <= j < |a.positions| ensures ComesFrom(env, cfg, cs, k, b.positions[j]) {
        assert a.positions[j] == b.positions[j];
        assert ComesFrom(env, cfg, cs, k - 1, a.positions[j]);
      }
      forall i: nat, order, fill |
        i < k && !BuyUpTo(env, cfg, held, cs, i).threw && Filled(env, cfg, cs[i].bet, i, order, fill)
        ensures exists j :: |held| <= j < |b.positions| && PositionFor(env, cfg, cs[i].bet, order, fill, b.positions[j])
      {
        if i < k - 1 {
          var j :| |held| <= j < |a.positions| && PositionFor(env, cfg, cs[i].bet, order, fill, a.positions[j]);
          assert b.positions[j] == a.positions[j];
        } else {
          assert Extends(env, cfg, cs[i].bet, i, order, fill, a, b);
        }
      }
    }
  }

  lemma NothingBought(env: Env, cfg: Config, held: seq<Position>, cs: seq<Candidate>)
    ensures BuyUpTo(env, cfg, held, cs, 0) == Buying(held, 0, false)
  {
  }

  /** The buy phase posts, in order, one order for each open candidate that the authorizer approves, live only, and none
      after a throw: the very order that a purchase stores. */
  lemma BuyOrdersExactly(env: Env, cfg: Config, held: seq<Position>, k: nat)
    requires k < |Considered(env, cfg, held)|
    ensures var cs := Considered(env, cfg, held);
            var bet := cs[k].bet;
            var before, after := BuyOrders(env, cfg, held, cs, k), BuyOrders(env, cfg, held, cs, k + 1);
            && BuyOrders(env, cfg, held, cs, 0) == []
            && (!env.live || BuyUpTo(env, cfg, held, cs, k).threw || !Open(env, bet.slug) ==> after == before)
            && (env.live && !BuyUpTo(env, cfg, held, cs, k).threw && Open(env, bet.slug) ==>
                  forall order :: OrderFor(cfg, env.lookup(bet.slug).value, bet, order) ==>
                    after == if env.authorized(order) then before + [order] else before)
  {
    hide Considered, CooldownBlocks, BuyIntent, OrderFor, BuyUpTo;
    var cs := Considered(env, cfg, held);
    ConsideredAreEligible(env, cfg, held);
    assert cs[k] in cs;
    var bet :| bet in env.bets && cs[k] == CandidateOf(bet);
    SameBet(bet);
    CooldownNeverBlocks(env, cfg, held, k);
    OpenExactly(env, cs[k]);
    if Tradable(env, cs[k]) {
      OrderExactly(env, cfg, bet);
      forall order | OrderFor(cfg, env.lookup(bet.slug).value, bet, order) ensures order == BuyIntent(env, cfg, cs[k]) {
        OneOrder(cfg, env.lookup(bet.slug).value, bet, order, BuyIntent(env, cfg, cs[k]));
      }
    }
  }
}
