/** What every trading cycle keeps, and when a repeated cycle changes nothing. */
module BotCycleProperties {
  import opened Wrappers
  import opened BotCycle

  // ---- ranking ----

  /** A NO bet's edge is the negated YES edge, so the chosen edge is the distance between model and market. */
  lemma EdgeIsDistance(bet: Bet)
    ensures var c := CandidateOf(bet);
            && c.edge >= 0.0
            && (c.edge == bet.aiProbability - bet.marketPrice || c.edge == bet.marketPrice - bet.aiProbability)
            && (c.side.Yes? <==> bet.aiProbability >= bet.marketPrice)
            && c.price + c.edge == (if c.side.Yes? then bet.aiProbability else 1.0 - bet.aiProbability)
  {
  }

  predicate Descending(cs: seq<Candidate>) {
    forall i, j :: 0 <= i < j < |cs| ==> cs[i].edge >= cs[j].edge
  }

  function OfEdge(cs: seq<Candidate>, e: real): seq<Candidate> {
    if cs == [] then [] else if cs[0].edge == e then [cs[0]] + OfEdge(cs[1..], e) else OfEdge(cs[1..], e)
  }

  /** The ranking is a descending, stable rearrangement of the feed. */
  lemma {:induction false} SortIsStable(cs: seq<Candidate>, e: real)
    ensures Descending(SortByEdge(cs))
    ensures multiset(SortByEdge(cs)) == multiset(cs)
    ensures OfEdge(SortByEdge(cs), e) == OfEdge(cs, e)
  {
    if cs != [] {
      SortIsStable(cs[1..], e);
      InsertIsSorted(cs[0], SortByEdge(cs[1..]));
      InsertIsStable(cs[0], SortByEdge(cs[1..]), e);
      assert cs == [cs[0]] + cs[1..];
    }
  }

  lemma {:induction false} InsertIsSorted(c: Candidate, cs: seq<Candidate>)
    requires Descending(cs)
    ensures Descending(InsertByEdge(c, cs))
    ensures multiset(InsertByEdge(c, cs)) == multiset{c} + multiset(cs)
    ensures forall x <- InsertByEdge(c, cs) :: x == c || x in cs
  {
    if cs != [] && c.edge < cs[0].edge {
      InsertIsSorted(c, cs[1..]);
      var tail := InsertByEdge(c, cs[1..]);
      assert cs == [cs[0]] + cs[1..];
      PrependKeepsOrder(cs[0], tail);
    } else {
      PrependKeepsOrder(c, cs);
    }
  }

  lemma PrependKeepsOrder(c: Candidate, cs: seq<Candidate>)
    requires Descending(cs)
    requires forall x <- cs :: c.edge >= x.edge
    ensures Descending([c] + cs)
  {
  }

  lemma {:induction false} InsertIsStable(c: Candidate, cs: seq<Candidate>, e: real)
    ensures OfEdge(InsertByEdge(c, cs), e) == if c.edge == e then [c] + OfEdge(cs, e) else OfEdge(cs, e)
  {
    var r := InsertByEdge(c, cs);
    if cs == [] || c.edge >= cs[0].edge {
      assert r[1..] == cs;
    } else {
      InsertIsStable(c, cs[1..], e);
      assert r[1..] == InsertByEdge(c, cs[1..]);
    }
  }

  lemma {:induction false} EligibleIsFilter(cs: seq<Candidate>, open: set<string>, minEdge: real)
    requires Descending(cs)
    ensures Descending(EligibleOf(cs, open, minEdge))
    ensures forall c :: c in EligibleOf(cs, open, minEdge) <==> c in cs && Eligible(c, open, minEdge)
  {
    if cs != [] {
      EligibleIsFilter(cs[1..], open, minEdge);
      var rest := EligibleOf(cs[1..], open, minEdge);
      forall j | 0 <= j < |rest| ensures cs[0].edge >= rest[j].edge {
        assert rest[j] in cs[1..];
      }
    }
  }

  function Feed(bets: seq<Bet>): seq<Candidate> {
    seq(|bets|, i requires 0 <= i < |bets| => CandidateOf(bets[i]))
  }

  lemma RankedIsFeed(bets: seq<Bet>)
    ensures Ranked(bets) == SortByEdge(Feed(bets))
    ensures Descending(Ranked(bets))
    ensures multiset(Ranked(bets)) == multiset(Feed(bets))
    ensures forall c :: c in Ranked(bets) <==> exists b <- bets :: c == CandidateOf(b)
  {
    hide SortByEdge, CandidateOf, Descending;
    SortIsStable(Feed(bets), 0.0);
    forall c ensures c in Ranked(bets) <==> exists b <- bets :: c == CandidateOf(b) {
      SameMembers(Ranked(bets), Feed(bets), c);
      FeedMembers(bets, c);
    }
  }

  lemma SameMembers(a: seq<Candidate>, b: seq<Candidate>, c: Candidate)
    requires multiset(a) == multiset(b)
    ensures c in a <==> c in b
  {
    assert c in a <==> c in multiset(a);
    assert c in b <==> c in multiset(b);
  }

  lemma FeedMembers(bets: seq<Bet>, c: Candidate)
    ensures c in Feed(bets) <==> exists b <- bets :: c == CandidateOf(b)
  {
    hide CandidateOf;
    if b :| b in bets && c == CandidateOf(b) {
      var i :| 0 <= i < |bets| && bets[i] == b;
      assert Feed(bets)[i] == c;
    }
  }

  /** The cycle looks at exactly the top slots by edge: eligible candidates, as many as there is room for, and no
      eligible candidate left out beats one that is considered. */
  lemma ConsidersTopSlots(env: Env, cfg: Config, held: seq<Position>)
    ensures !cfg.enabled ==> Considered(env, cfg, held) == []
    ensures cfg.enabled ==>
            var eligible := EligibleOf(Ranked(env.bets), Slugs(held), cfg.minEdge);
            var cs := Considered(env, cfg, held);
            var slots := cfg.maxPositions - |held|;
            && |cs| == (if slots <= 0 then 0 else if slots <= |eligible| then slots else |eligible|)
            && cs <= eligible
            && (forall c :: c in eligible <==>
                && (exists b <- env.bets :: c == CandidateOf(b))
                && (forall p <- held :: p.slug != c.bet.slug) && c.edge >= cfg.minEdge)
            && (forall i, j :: 0 <= i < |cs| <= j < |eligible| ==> cs[i].edge >= eligible[j].edge)
            && (forall i, j :: 0 <= i < j < |cs| ==> cs[i].edge >= cs[j].edge)
  {
    RankedIsFeed(env.bets);
    EligibleIsFilter(Ranked(env.bets), Slugs(held), cfg.minEdge);
  }

  // ---- conservation ----

  predicate UniqueIds(positions: seq<Position>) {
    forall i, j :: 0 <= i < j < |positions| ==> positions[i].id != positions[j].id
  }

  lemma {:induction false} WithoutIdMembers(positions: seq<Position>, id: PositionId)
    ensures forall p :: p in WithoutId(positions, id) <==> p in positions && p.id != id
  {
    if positions != [] {
      WithoutIdMembers(positions[1..], id);
    }
  }

  lemma {:induction false} WithoutIdKeepsUnique(positions: seq<Position>, id: PositionId)
    requires UniqueIds(positions)
    ensures UniqueIds(WithoutId(positions, id))
  {
    if positions != [] {
      WithoutIdKeepsUnique(positions[1..], id);
      WithoutIdMembers(positions[1..], id);
      var rest := WithoutId(positions[1..], id);
      forall j | 0 <= j < |rest| ensures rest[j].id != positions[0].id {
        assert rest[j] in positions[1..];
      }
    }
  }

  lemma {:induction false} WithoutIdAbsent(positions: seq<Position>, id: PositionId)
    requires forall p <- positions :: p.id != id
    ensures WithoutId(positions, id) == positions
  {
    if positions != [] {
      WithoutIdAbsent(positions[1..], id);
    }
  }

  /** A unique id names one position. */
  lemma {:induction false} WithoutIdCount(positions: seq<Position>, k: nat)
    requires UniqueIds(positions) && k < |positions|
    ensures |WithoutId(positions, positions[k].id)| == |positions| - 1
  {
    if k == 0 {
      WithoutIdAbsent(positions[1..], positions[0].id);
    } else {
      WithoutIdCount(positions[1..], k - 1);
    }
  }

  lemma WithoutIdFacts(positions: seq<Position>, p: Position)
    requires UniqueIds(positions) && p in positions
    ensures UniqueIds(WithoutId(positions, p.id)) && |WithoutId(positions, p.id)| == |positions| - 1
    ensures forall q :: q in WithoutId(positions, p.id) <==> q in positions && q.id != p.id
  {
    hide UniqueIds, WithoutId;
    var k :| 0 <= k < |positions| && positions[k] == p;
    WithoutIdCount(positions, k);
    WithoutIdKeepsUnique(positions, p.id);
    WithoutIdMembers(positions, p.id);
  }

  /** Reviewing the first k positions: nothing is invented, unreviewed positions stay, and the count is exact. */
  lemma {:induction false} ReviewConserves(env: Env, cfg: Config, all: seq<Position>, k: nat)
    requires k <= |all| && UniqueIds(all)
    ensures var r := ReviewUpTo(env, cfg, all, k);
            && UniqueIds(r.kept)
            && (forall p <- r.kept :: p in all)
            && (forall i :: k <= i < |all| ==> all[i] in r.kept)
            && |r.kept| + r.sells == |all| + r.unlogged
            && r.unlogged <= r.sells
            && (!env.live ==> r.unlogged == 0)
  {
    hide ExitOf, WithoutId;
    if k > 0 {
      ReviewConserves(env, cfg, all, k - 1);
      var r := ReviewUpTo(env, cfg, all, k - 1);
      assert all[k - 1] in r.kept;
      WithoutIdFacts(r.kept, all[k - 1]);
    }
  }

  lemma {:induction false} BuyingCounts(env: Env, cfg: Config, held: seq<Position>, cs: seq<Candidate>, k: nat)
    requires k <= |cs|
    ensures var b := BuyUpTo(env, cfg, held, cs, k);
            held <= b.positions && |b.positions| == |held| + b.buys && b.buys <= k
  {
    if k > 0 {
      BuyingCounts(env, cfg, held, cs, k - 1);
    }
  }

  /** The tally of unlogged sells is 0 exactly if no reviewed position was sold with a log that threw. */
  lemma {:induction false} UnloggedExactly(env: Env, cfg: Config, all: seq<Position>, k: nat)
    requires k <= |all|
    ensures ReviewUpTo(env, cfg, all, k).unlogged == 0 <==> forall i :: 0 <= i < k ==> !Unlogged(env, cfg, all[i], i)
  {
    hide WithoutId, ExitOf, Submitted;
    if k > 0 {
      UnloggedExactly(env, cfg, all, k - 1);
    }
  }

  /** A completed cycle changes the number of positions by exactly buys minus sells, unless an order log failed:
      the count is off by the sells whose log threw, and by nothing else. */
  lemma CycleConserves(env: Env, cfg: Config, positions: seq<Position>)
    requires UniqueIds(positions)
    ensures var o := Cycle(env, cfg, positions);
            && (!o.threw ==> |o.positions| == |positions| - o.sells + o.buys + o.unlogged)
            && (!o.threw ==>
                (|o.positions| == |positions| - o.sells + o.buys <==>
                 forall i :: 0 <= i < |positions| ==> !Unlogged(env, cfg, positions[i], i)))
            && (o.threw ==> o.positions == positions)
            && (!env.live ==> !o.threw && o.unlogged == 0)
  {
    hide Considered, BuyUpTo, ReviewUpTo, Unlogged;
    ReviewConserves(env, cfg, positions, |positions|);
    UnloggedExactly(env, cfg, positions, |positions|);
    var kept := ReviewUpTo(env, cfg, positions, |positions|).kept;
    var cs := Considered(env, cfg, kept);
    BuyingCounts(env, cfg, kept, cs, |cs|);
    if !env.live {
      NeverThrowsDry(env, cfg, kept, cs, |cs|);
    }
  }

  lemma {:induction false} NeverThrowsDry(env: Env, cfg: Config, held: seq<Position>, cs: seq<Candidate>, k: nat)
    requires k <= |cs| && !env.live
    ensures !BuyUpTo(env, cfg, held, cs, k).threw
  {
    if k > 0 {
      NeverThrowsDry(env, cfg, held, cs, k - 1);
    }
  }

  /** One live position at its target, an approved and matched sell, and a log that throws: counted as sold, and
      kept. */
  lemma UnloggedSellMiscounts() returns (env: Env, cfg: Config, positions: seq<Position>)
    ensures UniqueIds(positions) && |positions| == 1
    ensures var o := Cycle(env, cfg, positions);
            && !o.threw && o.sells == 1 && o.buys == 0 && o.unlogged == 1
            && o.positions == positions
            && |o.positions| == |positions| - o.sells + o.buys + 1
  {
    env := Env(true, 0, [], _ => Some(0.9), _ => true, (_, _) => Matched(None), (_, _) => false, _ => None, _ => None);
    cfg := Config(false, 1, 10.0, 0.1, 0.3, 0.5, 30.0, 168.0);
    var p := Position(PositionId("y", 0), "y", "m", Yes, 0.5, 0.5, Some(20.0), 0.8, 0.35, 0, 0.7, None);
    positions := [p];
    assert ObservablePrice(env, p) == Some(0.9);
    assert ExitOf(env, cfg, p) == Some(Target);
    assert ReviewUpTo(env, cfg, positions, 0) == Review(positions, 0, 0);
    assert ReviewUpTo(env, cfg, positions, 1) == Review(positions, 1, 1);
    assert BuyUpTo(env, cfg, positions, [], 0) == Buying(positions, 0, false);
  }

  /** A completed cycle never ends above the configured maximum, except with positions that survived the review. */
  lemma CycleRespectsMaximum(env: Env, cfg: Config, positions: seq<Position>)
    requires !Cycle(env, cfg, positions).threw
    ensures var kept := |ReviewUpTo(env, cfg, positions, |positions|).kept|;
            |Cycle(env, cfg, positions).positions| <= if cfg.maxPositions > kept then cfg.maxPositions else kept
  {
    var kept := ReviewUpTo(env, cfg, positions, |positions|).kept;
    var cs := Considered(env, cfg, kept);
    BuyingCounts(env, cfg, kept, cs, |cs|);
  }

  // ---- the cooldown guard ----

  lemma ConsideredAreEligible(env: Env, cfg: Config, held: seq<Position>)
    ensures forall c <- Considered(env, cfg, held) ::
              Eligible(c, Slugs(held), cfg.minEdge) && exists b <- env.bets :: c == CandidateOf(b)
  {
    RankedIsFeed(env.bets);
    EligibleIsFilter(Ranked(env.bets), Slugs(held), cfg.minEdge);
  }

  /** The cooldown check of the buy loop never fires: a considered candidate's slug has no open position, and positions
      bought in the same cycle carry no failure time. */
  lemma {:induction false} CooldownNeverBlocks(env: Env, cfg: Config, held: seq<Position>, k: nat)
    requires k <= |Considered(env, cfg, held)|
    ensures var cs := Considered(env, cfg, held);
            var b := BuyUpTo(env, cfg, held, cs, k);
            && (forall i :: |held| <= i < |b.positions| ==> b.positions[i].lastFokFailMs.None?)
            && held <= b.positions
            && forall c <- cs :: !CooldownBlocks(b.positions, c.bet.slug, cfg.fokCooldownMinutes, env.nowMs)
  {
    hide Considered, Tradable, EligibleOf, Ranked, Slugs, CooldownBlocks;
    var cs := Considered(env, cfg, held);
    if k > 0 {
      CooldownNeverBlocks(env, cfg, held, k - 1);
    }
    var b := BuyUpTo(env, cfg, held, cs, k);
    ConsideredAreEligible(env, cfg, held);
    forall c | c in cs ensures !CooldownBlocks(b.positions, c.bet.slug, cfg.fokCooldownMinutes, env.nowMs) {
      NoFailureNoBlock(held, b.positions, c.bet.slug, cfg.fokCooldownMinutes, env.nowMs);
    }
  }

  /** A slug without an open position is not blocked by positions that carry no failure time. */
  lemma NoFailureNoBlock(held: seq<Position>, positions: seq<Position>, slug: string, cooldownMinutes: real, nowMs: int)
    requires held <= positions && slug !in Slugs(held)
    requires forall i :: |held| <= i < |positions| ==> positions[i].lastFokFailMs.None?
    ensures !CooldownBlocks(positions, slug, cooldownMinutes, nowMs)
  {
    assert forall i :: 0 <= i < |held| ==> held[i].slug in Slugs(held);
  }
}
