/** Whole runs of the trading bot: position ids stay unique, and positions are conserved over any number of cycles. */
module BotCycleRuns {
  import opened BotCycle
  import opened BotCycleProperties
  import opened BotCycleFixpoint

  /** Ids are unique and none was issued after the given time. */
  ghost predicate IdsUpTo(positions: seq<Position>, ms: int) {
    UniqueIds(positions) && forall p <- positions :: p.id.ms <= ms
  }

  function TokensOf(m: Market): set<string> {
    {m.yesToken, m.noToken}
  }

  /** One bet a market, and no two markets share a token. */
  ghost predicate DistinctMarkets(env: Env) {
    && DistinctSlugs(env.bets)
    && forall s, t :: s != t && env.lookup(s).Some? && env.lookup(t).Some? ==>
         TokensOf(env.lookup(s).value) !! TokensOf(env.lookup(t).value)
  }

  lemma ConsideredDistinct(env: Env, cfg: Config, held: seq<Position>)
    requires DistinctSlugs(env.bets)
    ensures DistinctCandidates(Considered(env, cfg, held))
  {
    RankedDistinct(env);
    EligibleKeepsDistinct(Ranked(env.bets), Slugs(held), cfg.minEdge);
  }

  /** Every purchase gets an id no other position has: an earlier one carries an earlier time, one of this cycle
      another market's token. */
  lemma {:induction false} BuyingKeepsIds(env: Env, cfg: Config, held: seq<Position>, cs: seq<Candidate>, k: nat,
                                          ms: int)
    requires k <= |cs| && DistinctCandidates(cs) && DistinctMarkets(env)
    requires IdsUpTo(held, ms) && ms < env.nowMs
    ensures var b := BuyUpTo(env, cfg, held, cs, k);
            && IdsUpTo(b.positions, env.nowMs)
            && forall p <- b.positions ::
                 p.id.ms == env.nowMs ==> exists i :: 0 <= i < k && FromMarket(env, cs[i], p)
  {
    hide BuyUpTo, DistinctMarkets, Tradable, TokenOf;
    if k > 0 {
      BuyingKeepsIds(env, cfg, held, cs, k - 1, ms);
      BuyStep(env, cfg, held, cs, k);
      var a, b := BuyUpTo(env, cfg, held, cs, k - 1), BuyUpTo(env, cfg, held, cs, k);
      if b.positions != a.positions {
        var bought := b.positions[|a.positions|];
        assert FromMarket(env, cs[k - 1], bought);
        forall p | p in a.positions ensures p.id != bought.id {
          if p.id.ms == env.nowMs {
            var i :| 0 <= i < k - 1 && FromMarket(env, cs[i], p);
            assert cs[i].bet.slug != cs[k - 1].bet.slug;
            MarketsKeepTokensApart(env, cs[i], cs[k - 1]);
          }
        }
        AppendKeepsIds(a.positions, bought, env.nowMs);
      }
    } else {
      assert BuyUpTo(env, cfg, held, cs, 0) == Buying(held, 0, false) by { BuyNothing(env, cfg, held, cs); }
    }
  }

  lemma BuyNothing(env: Env, cfg: Config, held: seq<Position>, cs: seq<Candidate>)
    ensures BuyUpTo(env, cfg, held, cs, 0) == Buying(held, 0, false)
  {
  }

  lemma BuyStep(env: Env, cfg: Config, held: seq<Position>, cs: seq<Candidate>, k: nat)
    requires 0 < k <= |cs|
    ensures var a, b := BuyUpTo(env, cfg, held, cs, k - 1).positions, BuyUpTo(env, cfg, held, cs, k).positions;
            b == a || (|b| == |a| + 1 && b == a + [b[|a|]] && FromMarket(env, cs[k - 1], b[|a|]))
  {
    hide CooldownBlocks, Tradable, TokenOf;
  }

  lemma MarketsKeepTokensApart(env: Env, c: Candidate, d: Candidate)
    requires DistinctMarkets(env) && c.bet.slug != d.bet.slug && Tradable(env, c) && Tradable(env, d)
    ensures TokenOf(env, c) != TokenOf(env, d)
  {
  }

  lemma AppendKeepsIds(positions: seq<Position>, p: Position, ms: int)
    requires IdsUpTo(positions, ms) && p.id.ms <= ms && forall q <- positions :: q.id != p.id
    ensures IdsUpTo(positions + [p], ms)
  {
  }

  ghost predicate FromMarket(env: Env, c: Candidate, p: Position) {
    Tradable(env, c) && p.id.token == TokenOf(env, c) && p.id.ms == env.nowMs
  }

  /** A cycle run after every id was issued keeps ids unique. */
  lemma CycleKeepsIds(env: Env, cfg: Config, positions: seq<Position>, ms: int)
    requires IdsUpTo(positions, ms) && ms < env.nowMs && DistinctMarkets(env)
    ensures IdsUpTo(Cycle(env, cfg, positions).positions, env.nowMs)
  {
    ReviewConserves(env, cfg, positions, |positions|);
    var kept := ReviewUpTo(env, cfg, positions, |positions|).kept;
    var cs := Considered(env, cfg, kept);
    ConsideredDistinct(env, cfg, kept);
    BuyingKeepsIds(env, cfg, kept, cs, |cs|, ms);
  }

  /** The saved positions after the first k cycles. */
  function PositionsAfter(envs: seq<Env>, cfg: Config, start: seq<Position>, k: nat): seq<Position>
    requires k <= |envs|
  {
    if k == 0 then start else Cycle(envs[k - 1], cfg, PositionsAfter(envs, cfg, start, k - 1)).positions
  }

  /** Purchases minus sales over the completed cycles among the first k, plus the sales whose log threw. */
  function NetChange(envs: seq<Env>, cfg: Config, start: seq<Position>, k: nat): int
    requires k <= |envs|
  {
    if k == 0 then 0 else
      var o := Cycle(envs[k - 1], cfg, PositionsAfter(envs, cfg, start, k - 1));
      NetChange(envs, cfg, start, k - 1) + if o.threw then 0 else o.buys - o.sells + o.unlogged
  }

  /** Main result: over any run of cycles under an advancing clock ids stay unique and every position is accounted
      for. */
  lemma {:induction false} RunConserves(envs: seq<Env>, cfg: Config, start: seq<Position>, ms: int, k: nat)
    requires k <= |envs| && IdsUpTo(start, ms)
    requires forall i :: 0 <= i < |envs| ==> DistinctMarkets(envs[i]) && ms < envs[i].nowMs
    requires forall i, j :: 0 <= i < j < |envs| ==> envs[i].nowMs < envs[j].nowMs
    ensures IdsUpTo(PositionsAfter(envs, cfg, start, k), if k == 0 then ms else envs[k - 1].nowMs)
    ensures |PositionsAfter(envs, cfg, start, k)| == |start| + NetChange(envs, cfg, start, k)
  {
    hide Cycle;
    if k > 0 {
      RunConserves(envs, cfg, start, ms, k - 1);
      var before := PositionsAfter(envs, cfg, start, k - 1);
      CycleKeepsIds(envs[k - 1], cfg, before, if k == 1 then ms else envs[k - 2].nowMs);
      CycleConserves(envs[k - 1], cfg, before);
    }
  }
}
