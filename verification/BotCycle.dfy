/**
 One cycle of the trading bot (backend/execution/src/cycle.ts): review and sell open positions, rank the
 feed's candidates by edge, buy into the free slots, save. Everything a cycle observes from outside (feed,
 market lookups, order outcomes, clock) is one `Env` value. Prices and probabilities are reals.
 */
module BotCycle {
  import opened Extrema
  import opened Wrappers

  datatype Side = Yes | No

  datatype Config = Config(
    enabled: bool,
    maxPositions: int,
    positionSizeUsdc: real,
    minEdge: real,
    stopLossPct: real,
    edgeCaptureRatio: real,
    fokCooldownMinutes: real,
    maxPositionAgeHours: real)

  datatype Bet = Bet(slug: string, aiProbability: real, marketPrice: real)

  datatype PositionId = PositionId(token: string, ms: int)

  /** `shares` is missing when the purchase price is 0 and the division has no finite value. */
  datatype Position = Position(
    id: PositionId,
    token: string,
    slug: string,
    side: Side,
    entryPrice: real,
    fillPrice: real,
    shares: Option<real>,
    targetPrice: real,
    stopPrice: real,
    entryMs: int,
    aiProbabilityAtEntry: real,
    lastFokFailMs: Option<int>)

  datatype Intent = Intent(token: string, price: real, quantity: Option<real>, buy: bool)

  /** `price` is the fill price the exchange reports, if it reports one. */
  datatype Fill = Matched(price: Option<real>) | Unmatched | Failed

  datatype Market = Market(yesToken: string, noToken: string, negRisk: bool, active: bool)

  /** What a cycle observes. `quote`, `exchange` and `logged` answer for the k-th order of a phase. */
  datatype Env = Env(
    live: bool,
    nowMs: int,
    bets: seq<Bet>,
    quote: string -> Option<real>,
    authorized: Intent -> bool,
    exchange: (Intent, nat) -> Fill,
    logged: (Intent, nat) -> bool,
    lookup: string -> Option<Market>,
    endDay: string -> Option<int>)

  const MS_PER_DAY := 86_400_000

  function Clamp(value: real, min: real, max: real): real { Min(max, Max(min, value)) }

  // ---- phase 3: review ----

  datatype ExitReason = Resolved | Target | StopLoss | AiReversal | TimeDecay

  function ExitReasonAt(pos: Position, fairPrice: real, bet: Option<Bet>, maxAgeHours: real,
                        nowMs: int): Option<ExitReason> {
    var aiProb := if bet.Some? then bet.value.aiProbability else pos.aiProbabilityAtEntry;
    var edge := if pos.side.Yes? then aiProb - fairPrice else (1.0 - aiProb) - fairPrice;
    if fairPrice <= 0.0 then None
    else if fairPrice >= 0.95 then Some(Resolved)
    else if fairPrice >= pos.targetPrice then Some(Target)
    else if fairPrice <= pos.stopPrice then Some(StopLoss)
    else if edge <= 0.0 && bet.Some? then Some(AiReversal)
    else if (nowMs - pos.entryMs) as real / 3_600_000.0 >= maxAgeHours then Some(TimeDecay)
    else None
  }

  /** The last bet of the feed with the given slug. */
  function BetFor(bets: seq<Bet>, slug: string): Option<Bet> {
    if bets == [] then None
    else if bets[|bets| - 1].slug == slug then Some(bets[|bets| - 1])
    else BetFor(bets[..|bets| - 1], slug)
  }

  /** The price a position is reviewed at: the live quote, or the feed price of its side. */
  function ObservablePrice(env: Env, pos: Position): Option<real> {
    var bet := BetFor(env.bets, pos.slug);
    var price := if env.live then env.quote(pos.token)
                 else if bet.None? then None
                 else Some(if pos.side.Yes? then bet.value.marketPrice else 1.0 - bet.value.marketPrice);
    if price.Some? && 0.0 < price.value <= 1.0 then price else None
  }

  function ExitOf(env: Env, cfg: Config, pos: Position): Option<ExitReason> {
    var price := ObservablePrice(env, pos);
    if price.None? then None
    else ExitReasonAt(pos, price.value, BetFor(env.bets, pos.slug), cfg.maxPositionAgeHours, env.nowMs)
  }

  function SellIntent(env: Env, pos: Position): Intent
    requires ObservablePrice(env, pos).Some?
  {
    Intent(pos.token, ObservablePrice(env, pos).value, pos.shares, false)
  }

  /** The order outcome behind the risk authorizer: a refused intent fails without reaching the exchange. */
  function Submitted(env: Env, intent: Intent, k: nat): Fill {
    if env.authorized(intent) then env.exchange(intent, k) else Failed
  }

  predicate Sells(env: Env, cfg: Config, pos: Position, k: nat) {
    && ExitOf(env, cfg, pos).Some?
    && (env.live ==> Submitted(env, SellIntent(env, pos), k).Matched?)
  }

  /** A filled sell whose order log threw: counted as sold, but the position stays. */
  predicate Unlogged(env: Env, cfg: Config, pos: Position, k: nat) {
    Sells(env, cfg, pos, k) && env.live && !env.logged(SellIntent(env, pos), k)
  }

  function WithoutId(positions: seq<Position>, id: PositionId): seq<Position> {
    if positions == [] then []
    else if positions[0].id == id then WithoutId(positions[1..], id)
    else [positions[0]] + WithoutId(positions[1..], id)
  }

  datatype Review = Review(kept: seq<Position>, sells: nat, unlogged: nat)

  /** The state after reviewing the first k of the positions held when the phase began. */
  function ReviewUpTo(env: Env, cfg: Config, all: seq<Position>, k: nat): Review
    requires k <= |all|
  {
    if k == 0 then Review(all, 0, 0) else
      var r := ReviewUpTo(env, cfg, all, k - 1);
      var pos := all[k - 1];
      if !Sells(env, cfg, pos, k - 1) then r
      else if Unlogged(env, cfg, pos, k - 1) then Review(r.kept, r.sells + 1, r.unlogged + 1)
      else Review(WithoutId(r.kept, pos.id), r.sells + 1, r.unlogged)
  }

  /** The orders that the review of the first k positions posts. */
  function ReviewOrders(env: Env, cfg: Config, all: seq<Position>, k: nat): seq<Intent>
    requires k <= |all|
  {
    if k == 0 then []
    else
      var before := ReviewOrders(env, cfg, all, k - 1);
      if env.live && ExitOf(env, cfg, all[k - 1]).Some? && env.authorized(SellIntent(env, all[k - 1])) then
        before + [SellIntent(env, all[k - 1])]
      else before
  }

  // ---- phase 4: ranking ----

  datatype Candidate = Candidate(bet: Bet, side: Side, edge: real, price: real)

  function CandidateOf(bet: Bet): Candidate {
    var yesEdge := bet.aiProbability - bet.marketPrice;
    var noPrice := 1.0 - bet.marketPrice;
    var noEdge := (1.0 - bet.aiProbability) - noPrice;
    var side := if yesEdge >= noEdge then Yes else No;
    Candidate(bet, side, if side.Yes? then yesEdge else noEdge, if side.Yes? then bet.marketPrice else noPrice)
  }

  /** The stable sort by descending edge: an element stays before later ones of equal edge. */
  function SortByEdge(cs: seq<Candidate>): seq<Candidate> {
    if cs == [] then [] else InsertByEdge(cs[0], SortByEdge(cs[1..]))
  }

  function InsertByEdge(c: Candidate, cs: seq<Candidate>): seq<Candidate> {
    if cs == [] || c.edge >= cs[0].edge then [c] + cs else [cs[0]] + InsertByEdge(c, cs[1..])
  }

  function Ranked(bets: seq<Bet>): seq<Candidate> {
    SortByEdge(seq(|bets|, i requires 0 <= i < |bets| => CandidateOf(bets[i])))
  }

  function Slugs(positions: seq<Position>): set<string> {
    set p <- positions :: p.slug
  }

  predicate Eligible(c: Candidate, open: set<string>, minEdge: real) {
    c.bet.slug !in open && c.edge >= minEdge
  }

  function EligibleOf(cs: seq<Candidate>, open: set<string>, minEdge: real): seq<Candidate> {
    if cs == [] then []
    else if Eligible(cs[0], open, minEdge) then [cs[0]] + EligibleOf(cs[1..], open, minEdge)
    else EligibleOf(cs[1..], open, minEdge)
  }

  function Take<T>(s: seq<T>, n: int): seq<T> {
    if n <= 0 then [] else if n >= |s| then s else s[..n]
  }

  /** The candidates the buy loop looks at: the best eligible ones, as many as there are free slots. */
  function Considered(env: Env, cfg: Config, held: seq<Position>): seq<Candidate> {
    if !cfg.enabled then []
    else Take(EligibleOf(Ranked(env.bets), Slugs(held), cfg.minEdge), cfg.maxPositions - |held|)
  }

  // ---- phase 4: buying ----

  predicate CooldownBlocks(positions: seq<Position>, slug: string, cooldownMinutes: real, nowMs: int) {
    exists i ::
      && 0 <= i < |positions|
      && positions[i].slug == slug
      && positions[i].lastFokFailMs.Some?
      && (forall j :: 0 <= j < i ==> positions[j].slug != slug || positions[j].lastFokFailMs.None?)
      && (nowMs - positions[i].lastFokFailMs.value) as real / 60_000.0 < cooldownMinutes
  }

  /** The market resolves, is active, needs no manual allowance and has not passed its end date. */
  predicate Tradable(env: Env, c: Candidate) {
    var info := env.lookup(c.bet.slug);
    var endDay := env.endDay(c.bet.slug);
    && info.Some? && info.value.active && !info.value.negRisk
    && (endDay.Some? ==> endDay.value >= env.nowMs / MS_PER_DAY)
  }

  function TokenOf(env: Env, c: Candidate): string
    requires Tradable(env, c)
  {
    var info := env.lookup(c.bet.slug).value;
    if c.side.Yes? then info.yesToken else info.noToken
  }

  function SharesFor(usdc: real, price: real): Option<real> {
    if price == 0.0 then None else Some(usdc / price)
  }

  function BuyIntent(env: Env, cfg: Config, c: Candidate): Intent
    requires Tradable(env, c)
  {
    Intent(TokenOf(env, c), c.price, SharesFor(cfg.positionSizeUsdc, c.price), true)
  }

  function NewPosition(env: Env, cfg: Config, c: Candidate, fillPrice: real): Position
    requires Tradable(env, c)
  {
    var edgeAtFill := if c.side.Yes? then c.bet.aiProbability - fillPrice else (1.0 - c.bet.aiProbability) - fillPrice;
    var effectiveEdge := if edgeAtFill > 0.02 then edgeAtFill else 0.02;
    Position(PositionId(TokenOf(env, c), env.nowMs), TokenOf(env, c), c.bet.slug, c.side, c.price, fillPrice,
             SharesFor(cfg.positionSizeUsdc, c.price),
             Clamp(fillPrice + effectiveEdge * cfg.edgeCaptureRatio, fillPrice + 0.01, 0.95),
             fillPrice * (1.0 - cfg.stopLossPct),
             env.nowMs, c.bet.aiProbability, None)
  }

  /** The position a tradable candidate turns into, if its order fills. */
  function Purchase(env: Env, cfg: Config, c: Candidate, k: nat): Option<Position>
    requires Tradable(env, c)
  {
    if !env.live then Some(NewPosition(env, cfg, c, c.price))
    else
      var fill := Submitted(env, BuyIntent(env, cfg, c), k);
      if fill.Matched? then Some(NewPosition(env, cfg, c, if fill.price.Some? then fill.price.value else c.price))
        else None
  }

  /** `threw` is set when an order log throws; the exception ends the cycle before anything is saved. */
  datatype Buying = Buying(positions: seq<Position>, buys: nat, threw: bool)

  function BuyUpTo(env: Env, cfg: Config, held: seq<Position>, cs: seq<Candidate>, k: nat): Buying
    requires k <= |cs|
  {
    if k == 0 then Buying(held, 0, false) else
      var b := BuyUpTo(env, cfg, held, cs, k - 1);
      var c := cs[k - 1];
      if b.threw || CooldownBlocks(b.positions, c.bet.slug, cfg.fokCooldownMinutes, env.nowMs)
        || !Tradable(env, c) then b
      else
        var p := Purchase(env, cfg, c, k - 1);
        if p.None? then b
        else Buying(b.positions + [p.value], b.buys + 1, env.live && !env.logged(BuyIntent(env, cfg, c), k - 1))
  }

  /** The orders that buying from the first k candidates posts. */
  function BuyOrders(env: Env, cfg: Config, held: seq<Position>, cs: seq<Candidate>, k: nat): seq<Intent>
    requires k <= |cs|
  {
    if k == 0 then []
    else
      var before := BuyOrders(env, cfg, held, cs, k - 1);
      var b := BuyUpTo(env, cfg, held, cs, k - 1);
      var c := cs[k - 1];
      if env.live && !b.threw && !CooldownBlocks(b.positions, c.bet.slug, cfg.fokCooldownMinutes, env.nowMs)
         && Tradable(env, c) && env.authorized(BuyIntent(env, cfg, c)) then
        before + [BuyIntent(env, cfg, c)]
      else before
  }

  // ---- the whole cycle ----

  datatype Outcome = Outcome(positions: seq<Position>, sells: nat, buys: nat, threw: bool, unlogged: nat)

  function Cycle(env: Env, cfg: Config, positions: seq<Position>): Outcome {
    var r := ReviewUpTo(env, cfg, positions, |positions|);
    var cs := Considered(env, cfg, r.kept);
    var b := BuyUpTo(env, cfg, r.kept, cs, |cs|);
    Outcome(if b.threw then positions else b.positions, r.sells, b.buys, b.threw, r.unlogged)
  }

  /** The bot with its saved positions and every order it has posted to the exchange. */
  class Bot {
    const cfg: Config
    var positions: seq<Position>
    var posted: seq<Intent>

    constructor (cfg: Config)
      ensures this.cfg == cfg && positions == [] && posted == []
    {
      this.cfg := cfg;
      positions, posted := [], [];
    }

    /** Nothing reaches the exchange unless the risk authorizer approved exactly that order. */
    method SubmitRiskApproved(env: Env, intent: Intent, k: nat) returns (fill: Fill)
      modifies this`posted
      ensures fill == Submitted(env, intent, k)
      ensures posted == old(posted) + if env.authorized(intent) then [intent] else []
    {
      if !env.authorized(intent) {
        return Failed;
      }
      posted := posted + [intent];
      fill := env.exchange(intent, k);
    }

    /** The feed indexed by slug; a later bet replaces an earlier one with the same slug. */
    method IndexBets(bets: seq<Bet>) returns (bySlug: map<string, Bet>)
      ensures forall slug :: BetFor(bets, slug) == if slug in bySlug then Some(bySlug[slug]) else None
    {
      bySlug := map[];
      for i := 0 to |bets|
        invariant forall slug :: BetFor(bets[..i], slug) == if slug in bySlug then Some(bySlug[slug]) else None
      {
        assert bets[..i + 1][..i] == bets[..i];
        bySlug := bySlug[bets[i].slug := bets[i]];
      }
      assert bets[..|bets|] == bets;
    }

    method ReviewPositions(env: Env, all: seq<Position>) returns (kept: seq<Position>, sells: nat)
      modifies this`posted
      ensures kept == ReviewUpTo(env, cfg, all, |all|).kept && sells == ReviewUpTo(env, cfg, all, |all|).sells
      ensures posted == old(posted) + ReviewOrders(env, cfg, all, |all|)
      ensures old(posted) <= posted && (forall i <- posted[|old(posted)|..] :: env.authorized(i))
      ensures !env.live ==> posted == old(posted)
    {
      var bySlug := IndexBets(env.bets);
      kept, sells := all, 0;
      for k := 0 to |all|
        invariant kept == ReviewUpTo(env, cfg, all, k).kept && sells == ReviewUpTo(env, cfg, all, k).sells
        invariant posted == old(posted) + ReviewOrders(env, cfg, all, k)
        invariant old(posted) <= posted && (forall i <- posted[|old(posted)|..] :: env.authorized(i))
        invariant !env.live ==> posted == old(posted)
      {
        var pos := all[k];
        var bet := if pos.slug in bySlug then Some(bySlug[pos.slug]) else None;
        assert bet == BetFor(env.bets, pos.slug);
        var price := if env.live then env.quote(pos.token)
                     else if bet.None? then None
                     else Some(if pos.side.Yes? then bet.value.marketPrice else 1.0 - bet.value.marketPrice);
        if price.None? || price.value <= 0.0 || price.value > 1.0 {
          continue;
        }
        var exit := ExitReasonAt(pos, price.value, bet, cfg.maxPositionAgeHours, env.nowMs);
        if exit.None? {
          continue;
        }
        if env.live {
          var intent := Intent(pos.token, price.value, pos.shares, false);
          var fill := SubmitRiskApproved(env, intent, k);
          if fill.Matched? {
            sells := sells + 1;
            if env.logged(intent, k) {
              kept := WithoutId(kept, pos.id);
            }
          }
        } else {
          sells := sells + 1;
          kept := WithoutId(kept, pos.id);
        }
      }
    }

    method BuyCandidates(env: Env, held: seq<Position>, cs: seq<Candidate>) returns (b: Buying)
      modifies this`posted
      ensures b == BuyUpTo(env, cfg, held, cs, |cs|)
      ensures posted == old(posted) + BuyOrders(env, cfg, held, cs, |cs|)
      ensures old(posted) <= posted && (forall i <- posted[|old(posted)|..] :: env.authorized(i))
      ensures !env.live ==> posted == old(posted)
    {
      hide Tradable, CooldownBlocks, NewPosition, BuyIntent;
      b := Buying(held, 0, false);
      for k := 0 to |cs|
        invariant b == BuyUpTo(env, cfg, held, cs, k) && !b.threw
        invariant posted == old(posted) + BuyOrders(env, cfg, held, cs, k)
        invariant old(posted) <= posted && (forall i <- posted[|old(posted)|..] :: env.authorized(i))
        invariant !env.live ==> posted == old(posted)
      {
        var c := cs[k];
        if CooldownBlocks(b.positions, c.bet.slug, cfg.fokCooldownMinutes, env.nowMs) || !Tradable(env, c) {
          continue;
        }
        var fillPrice := c.price;
        if env.live {
          var fill := SubmitRiskApproved(env, BuyIntent(env, cfg, c), k);
          if !fill.Matched? {
            continue;
          }
          if fill.price.Some? {
            fillPrice := fill.price.value;
          }
        }
        b := Buying(b.positions + [NewPosition(env, cfg, c, fillPrice)], b.buys + 1, false);
        if env.live && !env.logged(BuyIntent(env, cfg, c), k) {
          b := b.(threw := true);
          ThrownForGood(env, cfg, held, cs, k + 1, |cs|);
          return;
        }
      }
    }

    /** Phases 3 to 5. An exception leaves the saved positions as they were. */
    method RunCycle(env: Env) returns (sells: nat, buys: nat, threw: bool)
      modifies this
      ensures var o := Cycle(env, cfg, old(positions));
              positions == o.positions && sells == o.sells && buys == o.buys && threw == o.threw
      ensures var all := old(positions);
              var kept := ReviewUpTo(env, cfg, all, |all|).kept;
              var cs := Considered(env, cfg, kept);
              posted == old(posted) + ReviewOrders(env, cfg, all, |all|) + BuyOrders(env, cfg, kept, cs, |cs|)
      ensures old(posted) <= posted && (forall i <- posted[|old(posted)|..] :: env.authorized(i))
      ensures !env.live ==> posted == old(posted)
    {
      var kept: seq<Position>;
      kept, sells := ReviewPositions(env, positions);
      var cs := [];
      if cfg.enabled {
        var slotsLeft := cfg.maxPositions - |kept|;
        if slotsLeft > 0 && env.bets != [] {
          cs := EligibleOf(Ranked(env.bets), Slugs(kept), cfg.minEdge);
          if slotsLeft < |cs| {
            cs := cs[..slotsLeft];
          }
        }
      }
      assert cs == Considered(env, cfg, kept);
      var b := BuyCandidates(env, kept, cs);
      buys, threw := b.buys, b.threw;
      if !threw {
        positions := b.positions;
      }
    }
  }

  lemma {:induction false} ThrownForGood(env: Env, cfg: Config, held: seq<Position>, cs: seq<Candidate>, j: nat, k: nat)
    requires j <= k <= |cs| && BuyUpTo(env, cfg, held, cs, j).threw
    ensures BuyUpTo(env, cfg, held, cs, k) == BuyUpTo(env, cfg, held, cs, j)
    ensures BuyOrders(env, cfg, held, cs, k) == BuyOrders(env, cfg, held, cs, j)
  {
    if j < k {
      ThrownForGood(env, cfg, held, cs, j, k - 1);
    }
  }
}
