/** Repeating a dry-run cycle with feed, lookups and clock frozen changes nothing, and which bounds that needs. */
module BotCycleFixpoint {
  import opened Wrappers
  import opened BotCycle
  import opened BotCycleProperties

  ghost predicate DistinctSlugs(bets: seq<Bet>) {
    forall i, j :: 0 <= i < j < |bets| ==> bets[i].slug != bets[j].slug
  }

  /** A paper-mode cycle over a sane feed: probabilities within [0,1], one bet a market. */
  ghost predicate SaneDryRun(env: Env, cfg: Config) {
    && !env.live
    && DistinctSlugs(env.bets)
    && (forall b <- env.bets :: 0.0 <= b.aiProbability <= 1.0)
    && cfg.minEdge > 0.05 && cfg.stopLossPct > 0.0 && cfg.maxPositionAgeHours > 0.0
  }

  // ---- the sell phase ----

  /** In paper mode a position that survives the review has no reason to exit. No uniqueness of ids is needed. */
  lemma {:induction false} SurvivorsHold(env: Env, cfg: Config, all: seq<Position>, k: nat)
    requires k <= |all| && !env.live
    ensures var kept := ReviewUpTo(env, cfg, all, k).kept;
            && (forall p <- kept :: p in all)
            && (forall i :: 0 <= i < k && ExitOf(env, cfg, all[i]).Some? ==> forall p <- kept :: p.id != all[i].id)
  {
    hide ExitOf, WithoutId;
    if k > 0 {
      SurvivorsHold(env, cfg, all, k - 1);
      WithoutIdMembers(ReviewUpTo(env, cfg, all, k - 1).kept, all[k - 1].id);
      assert ExitOf(env, cfg, all[k - 1]).Some? ==> Sells(env, cfg, all[k - 1], k - 1);
    }
  }

  lemma {:induction false} AllHoldUnchanged(env: Env, cfg: Config, all: seq<Position>, k: nat)
    requires k <= |all| && forall p <- all :: ExitOf(env, cfg, p).None?
    ensures ReviewUpTo(env, cfg, all, k) == Review(all, 0, 0)
  {
    if k > 0 {
      AllHoldUnchanged(env, cfg, all, k - 1);
      assert all[k - 1] in all;
    }
  }

  // ---- a position bought this cycle ----

  lemma {:induction false} BetForDistinct(bets: seq<Bet>, i: nat)
    requires DistinctSlugs(bets) && i < |bets|
    ensures BetFor(bets, bets[i].slug) == Some(bets[i])
  {
    if i < |bets| - 1 {
      BetForDistinct(bets[..|bets| - 1], i);
    }
  }

  /** When a fresh paper position survives its first review: exactly if it was bought below 0.95 with a positive edge,
      a positive stop distance and a positive age limit (or at a price no review looks at). */
  lemma FreshPositionHoldsExactly(env: Env, cfg: Config, b: Bet)
    requires !env.live && DistinctSlugs(env.bets) && b in env.bets && Tradable(env, CandidateOf(b))
    ensures var c := CandidateOf(b);
            ExitOf(env, cfg, NewPosition(env, cfg, c, c.price)).None? <==>
            (0.0 < c.price <= 1.0 ==>
               c.price < 0.95 && c.edge > 0.0 && cfg.stopLossPct > 0.0 && cfg.maxPositionAgeHours > 0.0)
  {
    var c := CandidateOf(b);
    var i :| 0 <= i < |env.bets| && env.bets[i] == b;
    BetForDistinct(env.bets, i);
    var p := NewPosition(env, cfg, c, c.price);
    assert ObservablePrice(env, p) == if 0.0 < c.price <= 1.0 then Some(c.price) else None;
    if 0.0 < c.price <= 1.0 {
      StopBelow(c.price, cfg.stopLossPct);
      assert c.price < 0.95 ==> c.price < p.targetPrice;
    }
  }

  lemma StopBelow(price: real, stopLossPct: real)
    requires price > 0.0
    ensures price <= price * (1.0 - stopLossPct) <==> stopLossPct <= 0.0
  {
    assert price - price * (1.0 - stopLossPct) == price * stopLossPct;
  }

  // ---- the buy phase ----

  function Tradables(env: Env, cs: seq<Candidate>): nat {
    if cs == [] then 0 else Tradables(env, cs[..|cs| - 1]) + if Tradable(env, cs[|cs| - 1]) then 1 else 0
  }

  /** In paper mode every tradable considered candidate is bought, and nothing else. */
  lemma {:induction false} DryBuys(env: Env, cfg: Config, held: seq<Position>, k: nat)
    requires !env.live && k <= |Considered(env, cfg, held)|
    ensures var cs := Considered(env, cfg, held)[..k];
            var b := BuyUpTo(env, cfg, held, Considered(env, cfg, held), k);
            && !b.threw
            && b.buys == Tradables(env, cs)
            && |b.positions| == |held| + b.buys
            && (forall p <- b.positions :: p in held || BoughtFrom(env, cfg, cs, p))
            && Slugs(b.positions) == Slugs(held) + TradedSlugs(env, cs)
  {
    hide Considered, Tradable, NewPosition, CooldownBlocks, BoughtFrom, TradedSlugs, Slugs, BuyUpTo;
    var all := Considered(env, cfg, held);
    if k > 0 {
      DryBuys(env, cfg, held, k - 1);
      DryStep(env, cfg, held, k);
      var cs, fewer, c := all[..k], all[..k - 1], all[k - 1];
      assert cs[..k - 1] == fewer && cs == fewer + [c];
      var a, b := BuyUpTo(env, cfg, held, all, k - 1), BuyUpTo(env, cfg, held, all, k);
      OneMoreTraded(env, cfg, fewer, c);
      if Tradable(env, c) {
        SlugOfPurchase(env, cfg, c);
        SlugsOfAppended(a.positions, NewPosition(env, cfg, c, c.price));
      }
    } else {
      NothingYet(env, cfg, held);
    }
  }

  /** The k-th candidate adds its position if it is tradable. */
  lemma DryStep(env: Env, cfg: Config, held: seq<Position>, k: nat)
    requires !env.live && 0 < k <= |Considered(env, cfg, held)|
    requires !BuyUpTo(env, cfg, held, Considered(env, cfg, held), k - 1).threw
    ensures var all := Considered(env, cfg, held);
            var a, b := BuyUpTo(env, cfg, held, all, k - 1), BuyUpTo(env, cfg, held, all, k);
            if Tradable(env, all[k - 1]) then
              b == Buying(a.positions + [NewPosition(env, cfg, all[k - 1], all[k - 1].price)], a.buys + 1, false)
            else b == a
  {
    hide Considered, Tradable, NewPosition, CooldownBlocks;
    CooldownNeverBlocks(env, cfg, held, k - 1);
    assert Considered(env, cfg, held)[k - 1] in Considered(env, cfg, held);
  }

  lemma NothingYet(env: Env, cfg: Config, held: seq<Position>)
    ensures BuyUpTo(env, cfg, held, Considered(env, cfg, held), 0) == Buying(held, 0, false)
    ensures TradedSlugs(env, Considered(env, cfg, held)[..0]) == {}
  {
  }

  lemma OneMoreTraded(env: Env, cfg: Config, cs: seq<Candidate>, c: Candidate)
    ensures forall p :: BoughtFrom(env, cfg, cs, p) ==> BoughtFrom(env, cfg, cs + [c], p)
    ensures Tradable(env, c) ==> BoughtFrom(env, cfg, cs + [c], NewPosition(env, cfg, c, c.price))
    ensures TradedSlugs(env, cs + [c]) == TradedSlugs(env, cs) + if Tradable(env, c) then {c.bet.slug} else {}
  {
    hide Tradable, NewPosition;
    assert c in cs + [c];
    assert forall d <- cs :: d in cs + [c];
  }

  ghost predicate BoughtFrom(env: Env, cfg: Config, cs: seq<Candidate>, p: Position) {
    exists c <- cs :: Tradable(env, c) && p == NewPosition(env, cfg, c, c.price)
  }

  lemma SlugOfPurchase(env: Env, cfg: Config, c: Candidate)
    requires Tradable(env, c)
    ensures NewPosition(env, cfg, c, c.price).slug == c.bet.slug
  {
  }

  lemma SlugsOfAppended(ps: seq<Position>, p: Position)
    ensures Slugs(ps + [p]) == Slugs(ps) + {p.slug}
  {
    assert p in ps + [p];
    assert forall q <- ps :: q in ps + [p];
  }

  function TradedSlugs(env: Env, cs: seq<Candidate>): set<string> {
    set c <- cs | Tradable(env, c) :: c.bet.slug
  }

  lemma {:induction false} NothingTradableNothingBought(env: Env, cfg: Config, held: seq<Position>, cs: seq<Candidate>,
                                                        k: nat)
    requires k <= |cs| && forall c <- cs :: !Tradable(env, c)
    ensures BuyUpTo(env, cfg, held, cs, k) == Buying(held, 0, false)
  {
    if k > 0 {
      NothingTradableNothingBought(env, cfg, held, cs, k - 1);
      assert cs[k - 1] in cs;
    }
  }

  // ---- slots in the second cycle ----

  ghost predicate DistinctCandidates(cs: seq<Candidate>) {
    forall i, j :: 0 <= i < j < |cs| ==> cs[i].bet.slug != cs[j].bet.slug
  }

  function DropSlugs(cs: seq<Candidate>, slugs: set<string>): seq<Candidate> {
    if cs == [] then []
    else if cs[0].bet.slug in slugs then DropSlugs(cs[1..], slugs)
    else [cs[0]] + DropSlugs(cs[1..], slugs)
  }

  lemma {:induction false} MoreOpenSlugs(cs: seq<Candidate>, open: set<string>, more: set<string>, minEdge: real)
    ensures EligibleOf(cs, open + more, minEdge) == DropSlugs(EligibleOf(cs, open, minEdge), more)
  {
    if cs != [] {
      MoreOpenSlugs(cs[1..], open, more, minEdge);
      var rest := EligibleOf(cs[1..], open, minEdge);
      if Eligible(cs[0], open, minEdge) {
        assert ([cs[0]] + rest)[1..] == rest;
      }
    }
  }

  lemma {:induction false} DropSplits(a: seq<Candidate>, b: seq<Candidate>, slugs: set<string>)
    ensures DropSlugs(a + b, slugs) == DropSlugs(a, slugs) + DropSlugs(b, slugs)
  {
    if a == [] {
      assert a + b == b;
    } else {
      DropSplits(a[1..], b, slugs);
      assert (a + b)[1..] == a[1..] + b;
      var x, y := DropSlugs(a[1..], slugs), DropSlugs(b, slugs);
      assert [a[0]] + (x + y) == ([a[0]] + x) + y;
    }
  }

  /** Dropping the traded slugs from a list of distinct candidates leaves exactly the untradable ones. */
  lemma {:induction false} DropTraded(env: Env, cs: seq<Candidate>, slugs: set<string>)
    requires DistinctCandidates(cs) && forall c <- cs :: c.bet.slug in slugs <==> Tradable(env, c)
    ensures |DropSlugs(cs, slugs)| == |cs| - Tradables(env, cs)
    ensures forall c <- DropSlugs(cs, slugs) :: !Tradable(env, c)
  {
    if cs != [] {
      var n := |cs| - 1;
      var front, last := cs[..n], cs[n..];
      assert cs == front + last;
      DropTraded(env, front, slugs);
      DropSplits(front, last, slugs);
      assert last[1..] == [] && DropSlugs(last[1..], slugs) == [];
    }
  }

  lemma {:induction false} RankingKeepsDistinct(cs: seq<Candidate>)
    requires DistinctCandidates(cs)
    ensures DistinctCandidates(SortByEdge(cs))
    ensures forall c :: c in SortByEdge(cs) <==> c in cs
  {
    if cs != [] {
      RankingKeepsDistinct(cs[1..]);
      InsertKeepsDistinct(cs[0], SortByEdge(cs[1..]));
    }
  }

  lemma {:induction false} InsertKeepsDistinct(c: Candidate, cs: seq<Candidate>)
    requires DistinctCandidates(cs) && forall x <- cs :: x.bet.slug != c.bet.slug
    ensures DistinctCandidates(InsertByEdge(c, cs))
    ensures forall x :: x in InsertByEdge(c, cs) <==> x == c || x in cs
  {
    if cs != [] && c.edge < cs[0].edge {
      InsertKeepsDistinct(c, cs[1..]);
      PrependDistinct(cs[0], InsertByEdge(c, cs[1..]));
    } else {
      PrependDistinct(c, cs);
    }
  }

  lemma PrependDistinct(c: Candidate, cs: seq<Candidate>)
    requires DistinctCandidates(cs) && forall x <- cs :: x.bet.slug != c.bet.slug
    ensures DistinctCandidates([c] + cs)
  {
  }

  lemma {:induction false} EligibleKeepsDistinct(cs: seq<Candidate>, open: set<string>, minEdge: real)
    requires DistinctCandidates(cs)
    ensures DistinctCandidates(EligibleOf(cs, open, minEdge))
    ensures forall c <- EligibleOf(cs, open, minEdge) :: c in cs
  {
    if cs != [] {
      EligibleKeepsDistinct(cs[1..], open, minEdge);
      if Eligible(cs[0], open, minEdge) {
        PrependDistinct(cs[0], EligibleOf(cs[1..], open, minEdge));
      }
    }
  }

  lemma RankedDistinct(env: Env)
    requires DistinctSlugs(env.bets)
    ensures DistinctCandidates(Ranked(env.bets))
  {
    RankedIsFeed(env.bets);
    RankingKeepsDistinct(Feed(env.bets));
  }

  /** After the first cycle's purchases, the free slots of the second are exactly used up by the candidates that failed
      in the first, or fewer: no new candidate moves up. */
  lemma SecondCycleSeesFailures(env: Env, cfg: Config, held: seq<Position>, after: seq<Position>)
    requires !env.live && DistinctSlugs(env.bets)
    requires var cs := Considered(env, cfg, held); after == BuyUpTo(env, cfg, held, cs, |cs|).positions
    ensures forall c <- Considered(env, cfg, after) :: !Tradable(env, c)
  {
    hide Tradable, TradedSlugs, Tradables, Ranked, EligibleOf, DropSlugs, DistinctCandidates, DistinctSlugs, Slugs,
      BuyUpTo;
    if !cfg.enabled {
      return;
    }
    var cs := Considered(env, cfg, held);
    var eligible := EligibleOf(Ranked(env.bets), Slugs(held), cfg.minEdge);
    var slots := cfg.maxPositions - |held|;
    var traded := TradedSlugs(env, cs);
    assert |after| == |held| + Tradables(env, cs) && Slugs(after) == Slugs(held) + traded by {
      DryBuys(env, cfg, held, |cs|);
      assert cs[..|cs|] == cs;
    }
    assert EligibleOf(Ranked(env.bets), Slugs(after), cfg.minEdge) == DropSlugs(eligible, traded) by {
      MoreOpenSlugs(Ranked(env.bets), Slugs(held), traded, cfg.minEdge);
    }
    RankedDistinct(env);
    EligibleKeepsDistinct(Ranked(env.bets), Slugs(held), cfg.minEdge);
    TakenSlotsStayTaken(env, eligible, slots, traded);
  }

  lemma TakenSlotsStayTaken(env: Env, eligible: seq<Candidate>, slots: int, traded: set<string>)
    requires DistinctCandidates(eligible)
    requires traded == TradedSlugs(env, Take(eligible, slots))
    ensures forall c <- Take(DropSlugs(eligible, traded), slots - Tradables(env, Take(eligible, slots))) ::
            !Tradable(env, c)
  {
    hide *;
    var cs := Take(eligible, slots);
    TakeSplits(eligible, slots);
    var rest := eligible[|cs|..];
    DropSplits(cs, rest, traded);
    PrefixDistinct(cs, rest);
    TradedExactly(env, cs);
    DropTraded(env, cs, traded);
    DropNothing(traded);
    TakeWithin(DropSlugs(cs, traded), DropSlugs(rest, traded), slots - Tradables(env, cs));
  }

  lemma TakeSplits(s: seq<Candidate>, n: int)
    ensures |Take(s, n)| <= |s| && s == Take(s, n) + s[|Take(s, n)|..]
    ensures n <= |Take(s, n)| || s[|Take(s, n)|..] == []
  {
  }

  lemma PrefixDistinct(a: seq<Candidate>, b: seq<Candidate>)
    requires DistinctCandidates(a + b)
    ensures DistinctCandidates(a)
  {
    forall i, j | 0 <= i < j < |a| ensures a[i].bet.slug != a[j].bet.slug {
      assert (a + b)[i] == a[i] && (a + b)[j] == a[j];
    }
  }

  lemma TradedExactly(env: Env, cs: seq<Candidate>)
    requires DistinctCandidates(cs)
    ensures forall c <- cs :: c.bet.slug in TradedSlugs(env, cs) <==> Tradable(env, c)
  {
    hide Tradable;
    forall c | c in cs ensures c.bet.slug in TradedSlugs(env, cs) <==> Tradable(env, c) {
      if d :| d in cs && Tradable(env, d) && d.bet.slug == c.bet.slug {
        assert c == d;
      }
    }
  }

  lemma DropNothing(slugs: set<string>)
    ensures DropSlugs([], slugs) == []
  {
  }

  lemma TakeWithin(a: seq<Candidate>, b: seq<Candidate>, n: int)
    requires n <= |a| || b == []
    ensures forall c <- Take(a + b, n) :: c in a
  {
  }

  /** A purchase that the next review holds, or cannot look at. */
  predicate HeldAfterPurchase(cfg: Config, c: Candidate) {
    0.0 < c.price <= 1.0 ==> c.price < 0.95 && c.edge > 0.0 && cfg.stopLossPct > 0.0 && cfg.maxPositionAgeHours > 0.0
  }

  ghost predicate PurchasesHeld(env: Env, cfg: Config, positions: seq<Position>) {
    var kept := ReviewUpTo(env, cfg, positions, |positions|).kept;
    forall c <- Considered(env, cfg, kept) :: Tradable(env, c) ==> HeldAfterPurchase(cfg, c)
  }

  ghost predicate RepeatsUnchanged(env: Env, cfg: Config, positions: seq<Position>) {
    var first := Cycle(env, cfg, positions);
    Cycle(env, cfg, first.positions) == Outcome(first.positions, 0, 0, false, 0)
  }

  /** A paper review that meets a reason to exit sells. */
  lemma {:induction false} ExitSells(env: Env, cfg: Config, all: seq<Position>, i: nat, k: nat)
    requires i < k <= |all| && !env.live && ExitOf(env, cfg, all[i]).Some?
    ensures ReviewUpTo(env, cfg, all, k).sells > 0
  {
    hide ExitOf, WithoutId;
    if i < k - 1 {
      ExitSells(env, cfg, all, i, k - 1);
    } else {
      assert Sells(env, cfg, all[i], i);
    }
  }

  lemma PurchaseExits(env: Env, cfg: Config, held: seq<Position>, c: Candidate)
    requires !env.live && DistinctSlugs(env.bets) && c in Considered(env, cfg, held) && Tradable(env, c)
    ensures ExitOf(env, cfg, NewPosition(env, cfg, c, c.price)).None? <==> HeldAfterPurchase(cfg, c)
  {
    hide Considered, ExitOf, NewPosition, Tradable;
    ConsideredAreEligible(env, cfg, held);
    var b :| b in env.bets && c == CandidateOf(b);
    FreshPositionHoldsExactly(env, cfg, b);
  }

  /** What a paper cycle leaves, and that the second cycle starts from it. */
  lemma FirstCycle(env: Env, cfg: Config, positions: seq<Position>)
    requires !env.live
    ensures var kept := ReviewUpTo(env, cfg, positions, |positions|).kept;
            var cs := Considered(env, cfg, kept);
            var first := Cycle(env, cfg, positions);
            && first.positions == BuyUpTo(env, cfg, kept, cs, |cs|).positions
            && (forall p <- first.positions :: p in kept || BoughtFrom(env, cfg, cs, p))
            && (forall p <- kept :: ExitOf(env, cfg, p).None?)
  {
    hide ExitOf, BoughtFrom, NewPosition, Tradable;
    var kept := ReviewUpTo(env, cfg, positions, |positions|).kept;
    var cs := Considered(env, cfg, kept);
    SurvivorsHold(env, cfg, positions, |positions|);
    DryBuys(env, cfg, kept, |cs|);
    assert cs[..|cs|] == cs;
    forall p | p in kept ensures ExitOf(env, cfg, p).None? {
      assert p in positions;
      var i :| 0 <= i < |positions| && positions[i] == p;
    }
  }

  lemma {:induction false} EveryPurchaseBought(env: Env, cfg: Config, held: seq<Position>, i: nat, k: nat)
    requires !env.live && i < k <= |Considered(env, cfg, held)| && Tradable(env, Considered(env, cfg, held)[i])
    ensures var c := Considered(env, cfg, held)[i];
            NewPosition(env, cfg, c, c.price) in BuyUpTo(env, cfg, held, Considered(env, cfg, held), k).positions
  {
    hide Considered, NewPosition, Tradable;
    DryBuys(env, cfg, held, k - 1);
    DryStep(env, cfg, held, k);
    if i < k - 1 {
      EveryPurchaseBought(env, cfg, held, i, k - 1);
    }
  }

  lemma HeldPurchasesRepeat(env: Env, cfg: Config, positions: seq<Position>)
    requires !env.live && DistinctSlugs(env.bets) && PurchasesHeld(env, cfg, positions)
    ensures RepeatsUnchanged(env, cfg, positions)
  {
    hide ExitOf, NewPosition, Tradable, HeldAfterPurchase, Considered;
    var kept := ReviewUpTo(env, cfg, positions, |positions|).kept;
    var cs := Considered(env, cfg, kept);
    FirstCycle(env, cfg, positions);
    var after := BuyUpTo(env, cfg, kept, cs, |cs|).positions;
    forall p | p in after ensures ExitOf(env, cfg, p).None? {
      if p !in kept {
        assert BoughtFrom(env, cfg, cs, p);
        var c :| c in cs && Tradable(env, c) && p == NewPosition(env, cfg, c, c.price);
        PurchaseExits(env, cfg, kept, c);
      }
    }
    AllHoldUnchanged(env, cfg, after, |after|);
    SecondCycleSeesFailures(env, cfg, kept, after);
    var again := Considered(env, cfg, after);
    NothingTradableNothingBought(env, cfg, after, again, |again|);
  }

  /** Main result: a second paper cycle sells nothing, buys nothing and keeps every position exactly if the first one
      bought nothing that the next review lets go. */
  lemma DryRunFixpointExactly(env: Env, cfg: Config, positions: seq<Position>)
    requires !env.live && DistinctSlugs(env.bets)
    ensures RepeatsUnchanged(env, cfg, positions) <==> PurchasesHeld(env, cfg, positions)
  {
    hide ExitOf, NewPosition, Tradable, HeldAfterPurchase, Considered;
    var kept := ReviewUpTo(env, cfg, positions, |positions|).kept;
    var cs := Considered(env, cfg, kept);
    if PurchasesHeld(env, cfg, positions) {
      HeldPurchasesRepeat(env, cfg, positions);
    } else {
      var c :| c in cs && Tradable(env, c) && !HeldAfterPurchase(cfg, c);
      var i :| 0 <= i < |cs| && cs[i] == c;
      FirstCycle(env, cfg, positions);
      EveryPurchaseBought(env, cfg, kept, i, |cs|);
      PurchaseExits(env, cfg, kept, c);
      var after := Cycle(env, cfg, positions).positions;
      var j :| 0 <= j < |after| && after[j] == NewPosition(env, cfg, c, c.price);
      ExitSells(env, cfg, after, j, |after|);
    }
  }

  /** With sane settings it always does. */
  lemma DryRunIsFixpoint(env: Env, cfg: Config, positions: seq<Position>)
    requires SaneDryRun(env, cfg)
    ensures RepeatsUnchanged(env, cfg, positions)
  {
    hide Considered, Tradable;
    var kept := ReviewUpTo(env, cfg, positions, |positions|).kept;
    ConsideredAreEligible(env, cfg, kept);
    forall c | c in Considered(env, cfg, kept) ensures HeldAfterPurchase(cfg, c) {
      var b :| b in env.bets && c == CandidateOf(b);
      EdgeIsDistance(b);
    }
    DryRunFixpointExactly(env, cfg, positions);
  }

  // ---- which settings are safe for every feed ----

  /** A paper-mode feed: probabilities within [0,1], one bet a market, any market prices. */
  ghost predicate SaneFeed(env: Env) {
    !env.live && DistinctSlugs(env.bets) && forall b <- env.bets :: 0.0 <= b.aiProbability <= 1.0
  }

  ghost predicate AlwaysFixpoint(cfg: Config) {
    forall env: Env, positions: seq<Position> :: SaneFeed(env) ==> RepeatsUnchanged(env, cfg, positions)
  }

  /** Nothing is bought, or only at prices that no review looks at, or nothing that the next review lets go. */
  predicate SafeSettings(cfg: Config) {
    || !cfg.enabled || cfg.maxPositions <= 0 || cfg.minEdge >= 1.0
    || (cfg.minEdge > 0.05 && cfg.stopLossPct > 0.0 && cfg.maxPositionAgeHours > 0.0)
  }

  /** Main result: the settings that make every sane feed a fixpoint after one paper cycle. */
  lemma FixpointForEveryFeed(cfg: Config)
    ensures AlwaysFixpoint(cfg) <==> SafeSettings(cfg)
  {
    hide RepeatsUnchanged, PurchasesHeld;
    if SafeSettings(cfg) {
      forall env: Env, positions: seq<Position> | SaneFeed(env) ensures RepeatsUnchanged(env, cfg, positions) {
        SafePurchases(env, cfg, positions);
        DryRunFixpointExactly(env, cfg, positions);
      }
    } else {
      var env, bet := RiskyFeed(if cfg.minEdge <= 0.05 then 0.95 else 1.0 - cfg.minEdge);
      RiskyPurchase(env, cfg, bet);
      DryRunFixpointExactly(env, cfg, []);
      assert SaneFeed(env) && !RepeatsUnchanged(env, cfg, []);
    }
  }

  lemma SafePurchases(env: Env, cfg: Config, positions: seq<Position>)
    requires SaneFeed(env) && SafeSettings(cfg)
    ensures PurchasesHeld(env, cfg, positions)
  {
    hide Tradable;
    var kept := ReviewUpTo(env, cfg, positions, |positions|).kept;
    ConsideredAreEligible(env, cfg, kept);
    forall c | c in Considered(env, cfg, kept) ensures HeldAfterPurchase(cfg, c) {
      var b :| b in env.bets && c == CandidateOf(b);
      EdgeIsDistance(b);
    }
  }

  /** One tradable market, sure to happen, at the given price. */
  lemma RiskyFeed(price: real) returns (env: Env, bet: Bet)
    ensures SaneFeed(env) && env.bets == [bet] && bet == Bet("m", 1.0, price) && Tradable(env, CandidateOf(bet))
  {
    bet := Bet("m", 1.0, price);
    env := Env(false, 0, [bet], _ => None, _ => false, (_, _) => Failed, (_, _) => true,
               _ => Some(Market("y", "n", false, true)), _ => None);
  }

  lemma RiskyPurchase(env: Env, cfg: Config, bet: Bet)
    requires env.bets == [bet] && Tradable(env, CandidateOf(bet)) && bet.aiProbability == 1.0
    requires !SafeSettings(cfg) && bet.marketPrice == if cfg.minEdge <= 0.05 then 0.95 else 1.0 - cfg.minEdge
    ensures !PurchasesHeld(env, cfg, [])
  {
    hide Tradable;
    var c := CandidateOf(bet);
    OneCandidate(env, cfg, bet);
    assert ReviewUpTo(env, cfg, [], 0).kept == [];
    assert c in Considered(env, cfg, []);
    assert !HeldAfterPurchase(cfg, c);
  }

  lemma OneCandidate(env: Env, cfg: Config, bet: Bet)
    requires env.bets == [bet] && cfg.enabled && cfg.maxPositions > 0 && CandidateOf(bet).edge >= cfg.minEdge
    ensures Considered(env, cfg, []) == [CandidateOf(bet)]
  {
    hide CandidateOf, Feed, SortByEdge, InsertByEdge;
    var c := CandidateOf(bet);
    RankedIsFeed(env.bets);
    OneRanked(bet);
    assert Slugs([]) == {};
    assert [c][1..] == [] && EligibleOf([], {}, cfg.minEdge) == [];
    assert EligibleOf([c], {}, cfg.minEdge) == [c];
  }

  lemma OneRanked(bet: Bet)
    ensures SortByEdge(Feed([bet])) == [CandidateOf(bet)]
  {
    hide CandidateOf;
    var c := CandidateOf(bet);
    assert Feed([bet]) == [c];
    assert [c][1..] == [] && SortByEdge([]) == [];
    assert SortByEdge([c]) == InsertByEdge(c, []);
  }

  /** The edge bound is needed: at a minimum edge of exactly 0.05 a paper bot buys at 0.95, sells and buys again
      forever. */
  lemma LowEdgeChurns() returns (env: Env, cfg: Config)
    ensures !env.live && DistinctSlugs(env.bets) && forall b <- env.bets :: 0.0 <= b.aiProbability <= 1.0
    ensures cfg.minEdge == 0.05 && cfg.stopLossPct > 0.0 && cfg.maxPositionAgeHours > 0.0
    ensures var second := Cycle(env, cfg, Cycle(env, cfg, []).positions); second.sells == 1 && second.buys == 1
  {
    var bet: Bet;
    env, bet := RiskyFeed(0.95);
    cfg := Config(true, 1, 10.0, 0.05, 0.3, 0.5, 30.0, 168.0);
    OneBetBought(env, cfg, bet);
    var p := NewPosition(env, cfg, CandidateOf(bet), 0.95);
    assert Cycle(env, cfg, []).positions == [p];
    assert BetFor(env.bets, "m") == Some(bet);
    assert ExitOf(env, cfg, p) == Some(Resolved);
    assert ReviewUpTo(env, cfg, [p], 1) == Review([], 1, 0) by {
      assert ReviewUpTo(env, cfg, [p], 0) == Review([p], 0, 0);
      assert WithoutId([p], p.id) == [];
    }
    assert Cycle(env, cfg, [p]).sells == 1 && Cycle(env, cfg, [p]).buys == 1;
  }

  lemma OneBetBought(env: Env, cfg: Config, bet: Bet)
    requires !env.live && env.bets == [bet] && Tradable(env, CandidateOf(bet))
    requires cfg.enabled && cfg.maxPositions == 1 && CandidateOf(bet).edge >= cfg.minEdge
    ensures var c := CandidateOf(bet);
            BuyUpTo(env, cfg, [], Considered(env, cfg, []), |Considered(env, cfg, [])|)
            == Buying([NewPosition(env, cfg, c, c.price)], 1, false)
  {
    OneCandidate(env, cfg, bet);
    assert BuyUpTo(env, cfg, [], [CandidateOf(bet)], 0) == Buying([], 0, false);
  }
}
