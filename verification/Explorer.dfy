/**
 The explorer's persistent state and its discovery cycle
 (tools/strategies/auto_strategy_explorer.js). The random choices of a cycle are a sequence of
 draws; the hash is a parameter. Evaluation, file names and timestamps play no part.
 */
module Explorer {
  import opened Wrappers
  import opened Novelty

  const MAX_ATTEMPTS := 1000
  const MAX_HISTORY := 100
  const MAX_SEEN := 500
  const MIN_NOVELTY := 0.5

  const FAMILIES := ["momentum", "mean_reversion", "breakout", "volatility", "ml_alpha", "stat_arb", "orderflow"]
  const MODELS := ["cnn_window_v0", "random_forest_v0", "logistic_regression_v0", "svm_margin_v0", "knn_pattern_v0",
                   "decision_tree_stump_v0"]
  const TIMEFRAMES := ["5m", "15m", "30m", "1h", "4h", "1d"]
  const UNIVERSES := [["SPY", "QQQ"], ["BTCUSDT", "ETHUSDT"], ["AAPL", "MSFT", "NVDA"], ["SPY", "BTCUSDT", "GLD"],
                      ["PLTR", "TSLA", "AMD"], ["INTC", "NVDA", "AAPL"]]
  const FULL_INDICATORS: set<string> := {"rsi", "bollinger", "atr", "return_fast", "return_slow", "volatility"}
  const INDICATOR_SETS: seq<set<string>> := [
    FULL_INDICATORS,
    {"rsi", "macd", "atr", "return_fast", "volatility"},
    {"bollinger", "atr", "return_slow", "volatility"},
    {"rsi", "stoch", "return_fast", "return_slow"},
    {"atr", "volatility", "return_fast", "return_slow"}]
  const HORIZONS := [3.0, 5.0, 8.0, 13.0, 21.0]

  // ---- fingerprints ----

  /** What is hashed. The sorted symbol list is the multiset of symbols, the sorted key list the set of keys. */
  datatype Norm = Norm(
    family: string,
    model: string,
    timeframe: Option<string>,
    universe: multiset<string>,
    indicators: set<string>,
    threshold: Option<real>,
    horizon: Option<real>)

  type Hash = Norm -> string

  function NormOf(s: Spec): Norm {
    Norm(s.family, s.model, s.timeframe,
         if s.universe.Some? then multiset(s.universe.value) else multiset{},
         if s.indicators.Some? then s.indicators.value else {},
         s.threshold, s.horizon)
  }

  function Fingerprint(hash: Hash, s: Spec): string {
    hash(NormOf(s))
  }

  // ---- candidates ----

  /** The outcome of the seven random picks of one attempt; the threshold is 0.50 plus whole hundredths. */
  datatype Draw = Draw(family: nat, model: nat, timeframe: nat, universe: nat, indicators: nat, hundredths: nat,
                       horizon: nat)
  {
    predicate Valid() {
      && family < |FAMILIES| && model < |MODELS| && timeframe < |TIMEFRAMES|
      && universe < |UNIVERSES| && indicators < |INDICATOR_SETS| && hundredths <= 10 && horizon < |HORIZONS|
    }

    function Candidate(): Spec
      requires Valid()
    {
      Spec(FAMILIES[family], MODELS[model], Some(TIMEFRAMES[timeframe]), Some(UNIVERSES[universe]),
           Some(INDICATOR_SETS[indicators]), Some(0.5 + hundredths as real / 100.0), Some(HORIZONS[horizon]), None)
    }
  }

  type Draws = s: seq<Draw> | |s| == MAX_ATTEMPTS && forall d <- s :: d.Valid()
    witness seq(MAX_ATTEMPTS, _ => Draw(0, 0, 0, 0, 0, 0, 0))

  // ---- state ----

  datatype Entry = Entry(strategy: Spec, noveltyDistance: real)
  datatype State = State(history: seq<Entry>, seen: seq<string>, last: Option<Spec>, totalDiscovered: nat)

  const EMPTY_STATE := State([], [], None, 0)

  predicate Acceptable(hash: Hash, st: State, c: Spec) {
    && Fingerprint(hash, c) !in st.seen
    && (st.last.Some? ==> Distance(Some(c), st.last) >= MIN_NOVELTY)
  }

  /** The first acceptable candidate among the draws. */
  function FirstAcceptable(hash: Hash, st: State, draws: seq<Draw>): (r: Option<Spec>)
    requires forall d <- draws :: d.Valid()
    ensures r.None? <==> forall d <- draws :: !Acceptable(hash, st, d.Candidate())
    ensures r.Some? ==> Acceptable(hash, st, r.value) && exists d <- draws :: r.value == d.Candidate()
  {
    if draws == [] then None
    else if Acceptable(hash, st, draws[0].Candidate()) then Some(draws[0].Candidate())
    else FirstAcceptable(hash, st, draws[1..])
  }

  lemma NextDraw(hash: Hash, st: State, draws: Draws, k: nat)
    requires k < |draws|
    ensures FirstAcceptable(hash, st, draws[k..])
         == if Acceptable(hash, st, draws[k].Candidate()) then Some(draws[k].Candidate())
            else FirstAcceptable(hash, st, draws[k + 1..])
  {
    hide Acceptable;
    assert draws[k..][1..] == draws[k + 1..] && draws[k..][0] == draws[k];
  }

  lemma NoMoreDraws(hash: Hash, st: State, draws: Draws)
    ensures draws[0..] == draws && FirstAcceptable(hash, st, draws[MAX_ATTEMPTS..]) == None
  {
  }

  /** The defaults applied when a specification is registered. */
  function Complete(s: Spec): Spec {
    Spec(s.family, s.model,
         Some(if s.timeframe.Some? && s.timeframe.value != "" then s.timeframe.value else "1h"),
         Some(if s.universe.Some? && |s.universe.value| > 0 then s.universe.value else ["SPY"]),
         Some(if s.indicators.Some? then s.indicators.value else FULL_INDICATORS),
         Some(if s.threshold.Some? then s.threshold.value else 0.60),
         Some(if s.maxHoldingDays.Some? && s.maxHoldingDays.value != 0.0 then s.maxHoldingDays.value
              else if s.horizon.Some? && s.horizon.value != 0.0 then s.horizon.value else 5.0),
         None)
  }

  function LastN<T>(s: seq<T>, n: nat): seq<T> {
    if |s| > n then s[|s| - n..] else s
  }

  function Trim(st: State): State {
    st.(history := LastN(st.history, MAX_HISTORY), seen := LastN(st.seen, MAX_SEEN))
  }

  function Register(hash: Hash, st: State, s: Spec): State {
    var c := Complete(s);
    var novelty := if st.last.Some? then Distance(Some(c), st.last) else 1.0;
    var f := Fingerprint(hash, c);
    Trim(State(st.history + [Entry(c, novelty)],
               if f in st.seen then st.seen else st.seen + [f],
               Some(c), st.totalDiscovered + 1))
  }

  /** The explorer with its state file. */
  class Store {
    const hash: Hash
    var disk: State

    constructor (hash: Hash)
      ensures this.hash == hash && disk == EMPTY_STATE
    {
      this.hash := hash;
      disk := EMPTY_STATE;
    }

    method SaveExplorerState(state: State, writable: bool)
      modifies this
      ensures disk == if writable then Trim(state) else old(disk)
    {
      var s := state;
      if |s.history| > MAX_HISTORY {
        s := s.(history := s.history[|s.history| - MAX_HISTORY..]);
      }
      if |s.seen| > MAX_SEEN {
        s := s.(seen := s.seen[|s.seen| - MAX_SEEN..]);
      }
      if writable {
        disk := s;
      }
    }

    method GenerateUniqueCandidate(state: State, draws: Draws) returns (r: Option<Spec>)
      ensures r == FirstAcceptable(hash, state, draws)
    {
      hide FirstAcceptable, Distance, NormOf, Fingerprint;
      NoMoreDraws(hash, state, draws);
      var attempts := 0;
      while attempts < MAX_ATTEMPTS
        invariant attempts <= MAX_ATTEMPTS
        invariant FirstAcceptable(hash, state, draws) == FirstAcceptable(hash, state, draws[attempts..])
      {
        var candidate := draws[attempts].Candidate();
        NextDraw(hash, state, draws, attempts);
        attempts := attempts + 1;
        var fingerprint := Fingerprint(hash, candidate);
        if fingerprint in state.seen {
          continue;
        }
        if state.last.Some? {
          var dist := ComputeDistance(Some(candidate), state.last);
          if dist < MIN_NOVELTY {
            continue;
          }
        }
        return Some(candidate);
      }
      return None;
    }

    method EvaluateAndRegisterSpec(spec: Spec, writable: bool)
      modifies this
      ensures disk == if writable then Register(hash, old(disk), spec) else old(disk)
    {
      var candidate := Complete(spec);
      var fingerprint := Fingerprint(hash, candidate);
      var state := disk;
      var novelty := 1.0;
      if state.last.Some? {
        novelty := ComputeDistance(Some(candidate), state.last);
      }
      state := state.(history := state.history + [Entry(candidate, novelty)]);
      if fingerprint !in state.seen {
        state := state.(seen := state.seen + [fingerprint]);
      }
      state := state.(last := Some(candidate), totalDiscovered := state.totalDiscovered + 1);
      SaveExplorerState(state, writable);
    }

    /** One discovery cycle; `ok` is false when the attempt limit is reached, and then nothing is saved. */
    method RunExplorationCycle(draws: Draws, writable: bool) returns (ok: bool)
      modifies this
      ensures ok == FirstAcceptable(hash, old(disk), draws).Some?
      ensures disk == if writable then Step(hash, old(disk), Discover(draws)) else old(disk)
    {
      var candidate := GenerateUniqueCandidate(disk, draws);
      if candidate.None? {
        return false;
      }
      EvaluateAndRegisterSpec(candidate.value, writable);
      return true;
    }
  }

  // ---- whole runs ----

  /** A discovery cycle, or a specification registered directly by a caller. */
  datatype Event = Discover(draws: Draws) | Submit(spec: Spec)

  function Registered(hash: Hash, st: State, ev: Event): Option<Spec> {
    match ev
    case Discover(draws) => FirstAcceptable(hash, st, draws)
    case Submit(spec) => Some(spec)
  }

  function Step(hash: Hash, st: State, ev: Event): State {
    var r := Registered(hash, st, ev);
    if r.None? then st else Register(hash, st, r.value)
  }

  /** The fingerprint an event adds to the seen list, if any. */
  function Inserted(hash: Hash, st: State, ev: Event): seq<string> {
    var r := Registered(hash, st, ev);
    if r.None? || Fingerprint(hash, Complete(r.value)) in st.seen then []
    else [Fingerprint(hash, Complete(r.value))]
  }

  function StateAt(hash: Hash, st: State, evs: seq<Event>, k: nat): State
    requires k <= |evs|
  {
    if k == 0 then st else Step(hash, StateAt(hash, st, evs, k - 1), evs[k - 1])
  }

  /** Every insertion made before event k, oldest first, preceded by what the run started with. */
  function LogAt(hash: Hash, st: State, evs: seq<Event>, k: nat): seq<string>
    requires k <= |evs|
  {
    if k == 0 then st.seen
    else LogAt(hash, st, evs, k - 1) + Inserted(hash, StateAt(hash, st, evs, k - 1), evs[k - 1])
  }

  /** The specifications registered before event k, in order, as they were given or drawn. */
  function SpecsAt(hash: Hash, st: State, evs: seq<Event>, k: nat): seq<Spec>
    requires k <= |evs|
  {
    if k == 0 then []
    else
      var r := Registered(hash, StateAt(hash, st, evs, k - 1), evs[k - 1]);
      SpecsAt(hash, st, evs, k - 1) + if r.Some? then [r.value] else []
  }

  /** What is stored for a given specification: what it says, and a default for what it leaves out or empty. */
  ghost predicate Completes(c: Spec, given: Spec) {
    && c.family == given.family && c.model == given.model && c.maxHoldingDays.None?
    && c.timeframe == (if given.timeframe in {None, Some("")} then Some("1h") else given.timeframe)
    && c.universe == (if given.universe in {None, Some([])} then Some(["SPY"]) else given.universe)
    && c.indicators == (if given.indicators.None? then Some(FULL_INDICATORS) else given.indicators)
    && c.threshold == (if given.threshold.None? then Some(0.6) else given.threshold)
    && (if given.maxHoldingDays !in {None, Some(0.0)} then c.horizon == given.maxHoldingDays
        else if given.horizon !in {None, Some(0.0)} then c.horizon == given.horizon
        else c.horizon == Some(5.0))
  }

  /** Every entry carries its distance to the strategy stored just before it; the very first one carries 1. */
  ghost predicate Chained(before: Option<Spec>, entries: seq<Entry>) {
    forall i :: 0 <= i < |entries| ==>
                  entries[i].noveltyDistance == DistanceOrOne(entries[i].strategy, Before(before, entries, i))
  }

  function Before(before: Option<Spec>, entries: seq<Entry>, i: nat): Option<Spec>
    requires i <= |entries|
  {
    if i == 0 then before else Some(entries[i - 1].strategy)
  }

  function DistanceOrOne(s: Spec, before: Option<Spec>): real {
    if before.Some? then Distance(Some(s), before) else 1.0
  }

  predicate NoDuplicates<T(==)>(s: seq<T>) {
    forall i, j :: 0 <= i < j < |s| ==> s[i] != s[j]
  }

  predicate ValidState(st: State) {
    |st.seen| <= MAX_SEEN && NoDuplicates(st.seen) && |st.history| <= MAX_HISTORY
  }

  /** The strategy generated by event k of the run, if event k is a successful discovery. */
  function GeneratedAt(hash: Hash, st: State, evs: seq<Event>, k: nat): Option<Spec>
    requires k < |evs|
  {
    if evs[k].Discover? then Registered(hash, StateAt(hash, st, evs, k), evs[k]) else None
  }

  lemma GeneratedIsComplete(d: Draw)
    requires d.Valid()
    ensures Complete(d.Candidate()) == d.Candidate()
  {
    assert TIMEFRAMES[d.timeframe] != "";
    assert |UNIVERSES[d.universe]| > 0;
    assert HORIZONS[d.horizon] != 0.0;
  }

  /** Registration neither changes a generated strategy nor its fingerprint: what was checked is what is stored. */
  lemma CheckedIsRegistered(hash: Hash, st: State, draws: Draws)
    requires FirstAcceptable(hash, st, draws).Some?
    ensures var c := FirstAcceptable(hash, st, draws).value;
            && Complete(c) == c
            && Fingerprint(hash, c) !in st.seen
            && Inserted(hash, st, Discover(draws)) == [Fingerprint(hash, c)]
            && Fingerprint(hash, c) in Step(hash, st, Discover(draws)).seen
            && Step(hash, st, Discover(draws)).last == Some(c)
  {
    var c := FirstAcceptable(hash, st, draws).value;
    var d :| d in draws && c == d.Candidate();
    GeneratedIsComplete(d);
    var f := Fingerprint(hash, c);
    var all := st.seen + [f];
    assert LastN(all, MAX_SEEN)[|LastN(all, MAX_SEEN)| - 1] == f;
  }

  lemma StepKeepsInvariant(hash: Hash, st: State, ev: Event)
    requires ValidState(st)
    ensures ValidState(Step(hash, st, ev))
    ensures |Inserted(hash, st, ev)| <= 1
    ensures Step(hash, st, ev).seen == LastN(st.seen + Inserted(hash, st, ev), MAX_SEEN)
  {
    hide FirstAcceptable, Complete, Distance, NormOf;
    assert st.seen + [] == st.seen;
  }

  /** Over every run the seen list stays duplicate-free and bounded, and is the tail of the insertion log. */
  lemma {:induction false} SeenInvariant(hash: Hash, st: State, evs: seq<Event>, k: nat)
    requires ValidState(st) && k <= |evs|
    ensures ValidState(StateAt(hash, st, evs, k))
    ensures StateAt(hash, st, evs, k).seen == LastN(LogAt(hash, st, evs, k), MAX_SEEN)
  {
    hide Step, Inserted, LastN;
    if k == 0 {
      NothingTrimmed(st.seen, MAX_SEEN);
    } else {
      SeenInvariant(hash, st, evs, k - 1);
      var s, log := StateAt(hash, st, evs, k - 1), LogAt(hash, st, evs, k - 1);
      StepKeepsInvariant(hash, s, evs[k - 1]);
      TailOfTail(log, Inserted(hash, s, evs[k - 1]), MAX_SEEN);
    }
  }

  lemma NothingTrimmed<T>(s: seq<T>, n: nat)
    requires |s| <= n
    ensures LastN(s, n) == s
  {
  }

  lemma TailOfTail<T>(log: seq<T>, more: seq<T>, n: nat)
    requires |more| <= n
    ensures LastN(LastN(log, n) + more, n) == LastN(log + more, n)
  {
  }

  lemma CompleteFillsGaps(s: Spec)
    ensures Completes(Complete(s), s)
  {
  }

  lemma RegisterAppends(hash: Hash, st: State, s: Spec)
    ensures var next, c := Register(hash, st, s), Complete(s);
            && next.history == LastN(st.history + [Entry(c, DistanceOrOne(c, st.last))], MAX_HISTORY)
            && next.last == Some(c) && next.totalDiscovered == st.totalDiscovered + 1
  {
    hide Complete, Distance, Fingerprint;
  }

  /** Over every run the history is the last 100 of what it started with followed by one entry for each registered
      specification, in order. */
  lemma {:induction false} HistoryLaw(hash: Hash, st: State, evs: seq<Event>, k: nat) returns (added: seq<Entry>)
    requires |st.history| <= MAX_HISTORY && k <= |evs|
    ensures |added| == |SpecsAt(hash, st, evs, k)| && Chained(st.last, added)
    ensures forall i :: 0 <= i < |added| ==> Completes(added[i].strategy, SpecsAt(hash, st, evs, k)[i])
    ensures LastOf(st.history + added, MAX_HISTORY, StateAt(hash, st, evs, k).history)
    ensures StateAt(hash, st, evs, k).last == Before(st.last, added, |added|)
    ensures StateAt(hash, st, evs, k).totalDiscovered == st.totalDiscovered + |added|
  {
    hide Registered, Register, Complete, Completes, DistanceOrOne, Chained, LastOf, LastN;
    if k == 0 {
      added := [];
      NothingAdded(st);
    } else {
      added := HistoryLaw(hash, st, evs, k - 1);
      var s := StateAt(hash, st, evs, k - 1);
      var r := Registered(hash, s, evs[k - 1]);
      if r.Some? {
        RegisterAppends(hash, s, r.value);
        CompleteFillsGaps(r.value);
        AppendedIsChained(st.last, added, Complete(r.value));
        var entry := Entry(Complete(r.value), DistanceOrOne(Complete(r.value), s.last));
        AppendedIsLast(st.history + added, s.history, entry);
        assert (st.history + added) + [entry] == st.history + (added + [entry]);
        added := added + [entry];
      }
    }
  }

  /** `kept` is all of a list of at most n, and otherwise its last n. */
  ghost predicate LastOf<T>(all: seq<T>, n: nat, kept: seq<T>) {
    |kept| == (if |all| < n then |all| else n) && kept == all[|all| - |kept|..]
  }

  lemma NothingAdded(st: State)
    requires |st.history| <= MAX_HISTORY
    ensures Chained(st.last, []) && LastOf(st.history + [], MAX_HISTORY, st.history)
  {
    assert st.history + [] == st.history;
  }

  lemma AppendedIsLast(all: seq<Entry>, kept: seq<Entry>, entry: Entry)
    requires LastOf(all, MAX_HISTORY, kept)
    ensures LastOf(all + [entry], MAX_HISTORY, LastN(kept + [entry], MAX_HISTORY))
  {
  }

  lemma AppendedIsChained(before: Option<Spec>, entries: seq<Entry>, c: Spec)
    requires Chained(before, entries)
    ensures Chained(before, entries + [Entry(c, DistanceOrOne(c, Before(before, entries, |entries|)))])
  {
    hide DistanceOrOne;
    var more := entries + [Entry(c, DistanceOrOne(c, Before(before, entries, |entries|)))];
    forall i | 0 <= i < |more|
      ensures more[i].noveltyDistance == DistanceOrOne(more[i].strategy, Before(before, more, i))
    {
      assert i < |entries| ==> more[i] == entries[i] && Before(before, more, i) == Before(before, entries, i);
    }
  }

  /** A discovery registers the first draw whose fingerprint is not remembered and that is far enough from the last
      strategy; without one it registers nothing. */
  lemma {:induction false} DiscoveryTakesTheFirst(hash: Hash, st: State, draws: seq<Draw>) returns (k: nat)
    requires forall d <- draws :: d.Valid()
    ensures k <= |draws|
    ensures forall j :: 0 <= j < k ==> var c := draws[j].Candidate();
                                       hash(NormOf(c)) in st.seen
                                       || (st.last.Some? && Distance(Some(c), st.last) < 0.5)
    ensures k == |draws| ==> FirstAcceptable(hash, st, draws).None?
    ensures k < |draws| ==> var c := draws[k].Candidate();
                            && FirstAcceptable(hash, st, draws) == Some(c) && hash(NormOf(c)) !in st.seen
                            && (st.last.Some? ==> Distance(Some(c), st.last) >= 0.5)
                            && c.family in FAMILIES && c.model in MODELS && 0.5 <= c.threshold.value <= 0.6
  {
    hide Distance, NormOf;
    k := 0;
    if draws != [] && !Acceptable(hash, st, draws[0].Candidate()) {
      var n := DiscoveryTakesTheFirst(hash, st, draws[1..]);
      k := n + 1;
      forall j | 0 <= j < k
        ensures var c := draws[j].Candidate();
                hash(NormOf(c)) in st.seen || (st.last.Some? && Distance(Some(c), st.last) < 0.5)
      {
        assert j > 0 ==> draws[j] == draws[1..][j - 1];
      }
    }
  }

  /** A fingerprint ignores the order of the symbols, and takes a left-out list for an empty one; nothing else. */
  lemma SameNormExactly(a: Spec, b: Spec)
    ensures NormOf(a) == NormOf(b) <==>
            && a.family == b.family && a.model == b.model && a.timeframe == b.timeframe
            && a.threshold == b.threshold && a.horizon == b.horizon
            && multiset(Listed(a.universe)) == multiset(Listed(b.universe))
            && Named(a.indicators) == Named(b.indicators)
  {
  }

  function Listed(universe: Option<seq<string>>): seq<string> {
    if universe.Some? then universe.value else []
  }

  function Named(indicators: Option<set<string>>): set<string> {
    if indicators.Some? then indicators.value else {}
  }

  lemma {:induction false} LogGrows(hash: Hash, st: State, evs: seq<Event>, i: nat, j: nat)
    requires i <= j <= |evs|
    ensures LogAt(hash, st, evs, i) <= LogAt(hash, st, evs, j)
  {
    hide Inserted, StateAt;
    if i < j {
      LogGrows(hash, st, evs, i, j - 1);
    }
  }

  /** Two generated strategies with the same fingerprint are at least 500 new insertions apart. */
  lemma EqualFingerprintsFarApart(hash: Hash, st: State, evs: seq<Event>, i: nat, j: nat)
    requires ValidState(st) && i < j < |evs|
    requires GeneratedAt(hash, st, evs, i).Some? && GeneratedAt(hash, st, evs, j).Some?
    requires Fingerprint(hash, GeneratedAt(hash, st, evs, i).value)
             == Fingerprint(hash, GeneratedAt(hash, st, evs, j).value)
    ensures |LogAt(hash, st, evs, j)| - |LogAt(hash, st, evs, i + 1)| >= MAX_SEEN
  {
    hide *;
    var f := Fingerprint(hash, GeneratedAt(hash, st, evs, i).value);
    LoggedWhenGenerated(hash, st, evs, i);
    LoggedWhenGenerated(hash, st, evs, j);
    SeenInvariant(hash, st, evs, j);
    LogGrows(hash, st, evs, i + 1, j);
    LastInsertionFarBack(LogAt(hash, st, evs, i + 1), LogAt(hash, st, evs, j), f);
  }

  lemma LoggedWhenGenerated(hash: Hash, st: State, evs: seq<Event>, i: nat)
    requires i < |evs| && GeneratedAt(hash, st, evs, i).Some?
    ensures var f := Fingerprint(hash, GeneratedAt(hash, st, evs, i).value);
            && f !in StateAt(hash, st, evs, i).seen
            && |LogAt(hash, st, evs, i + 1)| > 0
            && LogAt(hash, st, evs, i + 1)[|LogAt(hash, st, evs, i + 1)| - 1] == f
  {
    hide FirstAcceptable, Complete, Inserted, Step;
    CheckedIsRegistered(hash, StateAt(hash, st, evs, i), evs[i].draws);
  }

  lemma LastInsertionFarBack(early: seq<string>, late: seq<string>, f: string)
    requires |early| > 0 && early[|early| - 1] == f && early <= late
    requires f !in LastN(late, MAX_SEEN)
    ensures |late| - |early| >= MAX_SEEN
  {
    assert late[|early| - 1] == f;
  }

  /** Each generated strategy is at distance at least 0.5 from whatever was registered last before it. */
  lemma {:induction false} NovelFromPrevious(hash: Hash, st: State, evs: seq<Event>, i: nat, j: nat)
    requires i < j < |evs|
    requires Registered(hash, StateAt(hash, st, evs, i), evs[i]).Some?
    requires forall k :: i < k < j ==> Registered(hash, StateAt(hash, st, evs, k), evs[k]).None?
    requires GeneratedAt(hash, st, evs, j).Some?
    ensures Distance(GeneratedAt(hash, st, evs, j),
                     Some(Complete(Registered(hash, StateAt(hash, st, evs, i), evs[i]).value))) >= MIN_NOVELTY
  {
    hide Registered, Step, Complete, Distance;
    LastRegistered(hash, StateAt(hash, st, evs, i), evs[i]);
    LastIsUnchanged(hash, st, evs, i + 1, j);
    GeneratedIsNovel(hash, StateAt(hash, st, evs, j), evs[j]);
  }

  lemma LastRegistered(hash: Hash, st: State, ev: Event)
    requires Registered(hash, st, ev).Some?
    ensures Step(hash, st, ev).last == Some(Complete(Registered(hash, st, ev).value))
  {
    hide Registered, Complete, Distance, Fingerprint;
  }

  lemma GeneratedIsNovel(hash: Hash, st: State, ev: Event)
    requires ev.Discover? && Registered(hash, st, ev).Some? && st.last.Some?
    ensures Distance(Registered(hash, st, ev), st.last) >= MIN_NOVELTY
  {
    hide Distance;
  }

  lemma {:induction false} LastIsUnchanged(hash: Hash, st: State, evs: seq<Event>, i: nat, j: nat)
    requires i <= j <= |evs|
    requires forall k :: i <= k < j ==> Registered(hash, StateAt(hash, st, evs, k), evs[k]).None?
    ensures StateAt(hash, st, evs, j) == StateAt(hash, st, evs, i)
  {
    hide Registered, Register;
    if i < j {
      LastIsUnchanged(hash, st, evs, i, j - 1);
    }
  }

  // ---- the search space is never used up ----

  /** 550 draws that share family, model and timeframe and differ pairwise elsewhere. */
  function Variation(family: nat, model: nat, timeframe: nat, k: nat): (d: Draw)
    requires family < |FAMILIES| && model < |MODELS| && timeframe < |TIMEFRAMES| && k < 550
    ensures d.Valid()
  {
    Draw(family, model, timeframe, k % 2, k / 2 % 5, k / 2 / 5 % 11, k / 2 / 5 / 11)
  }

  lemma IndicatorSetsDiffer(i: nat, j: nat)
    requires i < j < 5
    ensures INDICATOR_SETS[i] != INDICATOR_SETS[j]
  {
    var sample := if i == 0 then "return_fast" else if i == 1 then "macd" else if i == 2 then "bollinger" else "stoch";
    if i == 0 && j != 2 {
      assert "bollinger" in INDICATOR_SETS[0] && "bollinger" !in INDICATOR_SETS[j];
    } else {
      assert sample in INDICATOR_SETS[i] && sample !in INDICATOR_SETS[j];
    }
  }

  lemma VariationsDiffer(f: nat, m: nat, t: nat, j: nat, k: nat)
    requires f < |FAMILIES| && m < |MODELS| && t < |TIMEFRAMES| && j < k < 550
    ensures NormOf(Variation(f, m, t, j).Candidate()) != NormOf(Variation(f, m, t, k).Candidate())
  {
    DigitsDiffer(j, k);
    DrawsDiffer(Variation(f, m, t, j), Variation(f, m, t, k));
  }

  lemma DigitsDiffer(j: nat, k: nat)
    requires j != k
    ensures j % 2 != k % 2 || j / 2 % 5 != k / 2 % 5 || j / 2 / 5 % 11 != k / 2 / 5 % 11
            || j / 2 / 5 / 11 != k / 2 / 5 / 11
  {
  }

  lemma DrawsDiffer(d: Draw, e: Draw)
    requires d.Valid() && e.Valid() && d.universe < 2 && e.universe < 2
    requires d.universe != e.universe || d.indicators != e.indicators || d.hundredths != e.hundredths
             || d.horizon != e.horizon
    ensures NormOf(d.Candidate()) != NormOf(e.Candidate())
  {
    var a, b := NormOf(d.Candidate()), NormOf(e.Candidate());
    if d.universe != e.universe {
      assert multiset(UNIVERSES[0]) != multiset(UNIVERSES[1]) by {
        assert "SPY" in multiset(UNIVERSES[0]) && "SPY" !in multiset(UNIVERSES[1]);
      }
      assert a.universe != b.universe;
    } else if d.indicators != e.indicators {
      IndicatorSetsDiffer(if d.indicators < e.indicators then d.indicators else e.indicators,
                          if d.indicators < e.indicators then e.indicators else d.indicators);
      assert a.indicators != b.indicators;
    } else if d.horizon != e.horizon {
      assert HORIZONS[d.horizon] != HORIZONS[e.horizon];
      assert a.horizon != b.horizon;
    } else {
      assert a.threshold != b.threshold;
    }
  }

  lemma {:induction false} Pigeonhole(f: nat -> string, n: nat, seen: seq<string>)
    requires forall j, k :: 0 <= j < k < n ==> f(j) != f(k)
    requires forall k :: 0 <= k < n ==> f(k) in seen
    ensures n <= |seen|
  {
    DistinctValues(f, n);
    SubsetSize(set k: nat | k < n :: f(k), set x | x in seen);
    MembersAtMost(seen);
  }

  lemma {:induction false} DistinctValues(f: nat -> string, n: nat)
    requires forall j, k :: 0 <= j < k < n ==> f(j) != f(k)
    ensures |set k: nat | k < n :: f(k)| == n
  {
    var values := set k: nat | k < n :: f(k);
    if n > 0 {
      DistinctValues(f, n - 1);
      var fewer := set k: nat | k < n - 1 :: f(k);
      assert values == fewer + {f(n - 1)};
      assert f(n - 1) !in fewer;
    } else {
      assert values == {};
    }
  }

  lemma {:induction false} MembersAtMost(s: seq<string>)
    ensures |set x | x in s| <= |s|
  {
    var members := set x | x in s;
    if s == [] {
      assert members == {};
    } else {
      MembersAtMost(s[1..]);
      assert members == {s[0]} + set x | x in s[1..];
    }
  }

  /** Three mismatching dimensions already reach the required novelty. */
  lemma ThreeMismatches(a: Spec, b: Spec)
    requires a.family != b.family && a.model != b.model && a.timeframe != b.timeframe
    ensures Distance(Some(a), Some(b)) >= MIN_NOVELTY
  {
    JaccardBounds(Symbols(a), Symbols(b));
  }

  function Other(choices: seq<string>, taken: string): (i: nat)
    requires |choices| >= 2 && choices[0] != choices[1]
    ensures i < 2 && choices[i] != taken
  {
    if choices[0] != taken then 0 else 1
  }

  /** The hash tells the finitely many generated candidates apart; nothing is asked of it elsewhere. */
  ghost predicate SeparatesCandidates(hash: Hash) {
    forall d: Draw, e: Draw ::
      d.Valid() && e.Valid() && Fingerprint(hash, d.Candidate()) == Fingerprint(hash, e.Candidate()) ==>
        NormOf(d.Candidate()) == NormOf(e.Candidate())
  }

  /** With such a hash, some draw is acceptable in every valid state: discovery never gets stuck for good. */
  lemma AcceptableDrawExists(hash: Hash, st: State) returns (d: Draw)
    requires ValidState(st)
    requires SeparatesCandidates(hash)
    ensures d.Valid() && Acceptable(hash, st, d.Candidate())
  {
    hide Distance, NormOf;
    var family := if st.last.Some? then Other(FAMILIES, st.last.value.family) else 0;
    var model := if st.last.Some? then Other(MODELS, st.last.value.model) else 0;
    var timeframe := if st.last.Some? && st.last.value.timeframe.Some?
                     then Other(TIMEFRAMES, st.last.value.timeframe.value) else 0;
    var f := (k: nat) => if k < 550 then Fingerprint(hash, Variation(family, model, timeframe, k).Candidate()) else "";
    forall j, k | 0 <= j < k < 550 ensures f(j) != f(k) {
      VariationsDiffer(family, model, timeframe, j, k);
    }
    if forall k :: 0 <= k < 550 ==> f(k) in st.seen {
      Pigeonhole(f, 550, st.seen);
      assert false;
    }
    var k: nat :| k < 550 && f(k) !in st.seen;
    d := Variation(family, model, timeframe, k);
    if st.last.Some? {
      ThreeMismatches(d.Candidate(), st.last.value);
    }
  }
}
