/**
 The API's fixed-window rate limiter and its background purge (backend/api/app.js). Times are the
 milliseconds the process clock shows.
 */
module RateLimiter {
  import opened Wrappers

  const LIMIT_WINDOW_MS := 60_000
  const MAX_REQ_PER_WINDOW := 600

  datatype Entry = Entry(count: nat, start: int)
  type Limits = map<string, Entry>

  function Lookup(limits: Limits, ip: string): Option<Entry> {
    if ip in limits then Some(limits[ip]) else None
  }

  /** An address's entry after one more request. */
  function Next(prev: Option<Entry>, now: int): Entry {
    var d := if prev.Some? then prev.value else Entry(0, now);
    if now - d.start > LIMIT_WINDOW_MS then Entry(1, now) else Entry(d.count + 1, d.start)
  }

  predicate Accepts(prev: Option<Entry>, now: int) {
    Next(prev, now).count <= MAX_REQ_PER_WINDOW
  }

  predicate Expired(e: Entry, now: int) {
    now - e.start > LIMIT_WINDOW_MS
  }

  function Purged(limits: Limits, now: int): Limits {
    map ip <- limits | !Expired(limits[ip], now) :: limits[ip]
  }

  class Limiter {
    var limits: Limits

    constructor ()
      ensures limits == map[]
    {
      limits := map[];
    }

    method CheckRate(ip: string, now: int) returns (accepted: bool)
      modifies this
      ensures limits == old(limits)[ip := Next(Lookup(old(limits), ip), now)]
      ensures accepted == Accepts(Lookup(old(limits), ip), now)
    {
      var userData := if ip in limits then limits[ip] else Entry(0, now);
      if now - userData.start > LIMIT_WINDOW_MS {
        userData := userData.(count := 1);
        userData := userData.(start := now);
      } else {
        userData := userData.(count := userData.count + 1);
      }
      limits := limits[ip := userData];
      accepted := !(userData.count > MAX_REQ_PER_WINDOW);
    }

    method Purge(now: int)
      modifies this
      ensures limits == Purged(old(limits), now)
    {
      var rest := limits.Keys;
      while rest != {}
        invariant rest <= limits.Keys <= old(limits).Keys
        invariant forall ip <- limits :: limits[ip] == old(limits)[ip]
        invariant forall ip <- old(limits) ::
                    ip in limits <==> ip in rest || !Expired(old(limits)[ip], now)
        decreases |rest|
      {
        var ip :| ip in rest;
        rest := rest - {ip};
        if now - limits[ip].start > LIMIT_WINDOW_MS {
          limits := limits - {ip};
        }
      }
    }
  }

  // ---- runs ----

  datatype Event = Request(ip: string, ms: int) | PurgeTick(ms: int)

  /** The table after the first k events, with or without acting on purge ticks. */
  function Run(evs: seq<Event>, k: nat, purging: bool): Limits
    requires k <= |evs|
  {
    if k == 0 then map[] else
      var limits := Run(evs, k - 1, purging);
      match evs[k - 1]
      case Request(ip, ms) => limits[ip := Next(Lookup(limits, ip), ms)]
      case PurgeTick(ms) => if purging then Purged(limits, ms) else limits
  }

  /** Event k is an accepted request. */
  predicate AcceptedAt(evs: seq<Event>, k: nat, purging: bool)
    requires k < |evs|
  {
    evs[k].Request? && Accepts(Lookup(Run(evs, k, purging), evs[k].ip), evs[k].ms)
  }

  predicate Monotone(evs: seq<Event>) {
    forall i, j :: 0 <= i < j < |evs| ==> evs[i].ms <= evs[j].ms
  }

  // ---- which requests are accepted, said of the event list alone ----

  predicate IsRequestOf(evs: seq<Event>, i: nat, ip: string)
    requires i < |evs|
  {
    evs[i].Request? && evs[i].ip == ip
  }

  /** The index of the request that opened an address's latest window among the first k events, or -1. A window opens
      with the first request, and then with the first one more than 60000 ms after the opening before it. */
  function LatestOpening(evs: seq<Event>, ip: string, k: nat): (o: int)
    requires k <= |evs|
    ensures -1 <= o < k && (o >= 0 ==> IsRequestOf(evs, o, ip))
  {
    if k == 0 then -1
    else
      var o := LatestOpening(evs, ip, k - 1);
      if IsRequestOf(evs, k - 1, ip) && (o == -1 || evs[k - 1].ms > evs[o].ms + 60_000) then k - 1 else o
  }

  /** How many requests of an address lie from index i up to, not including, index k. */
  function RequestsBetween(evs: seq<Event>, ip: string, i: nat, k: nat): nat
    requires i <= k <= |evs|
  {
    if i == k then 0 else RequestsBetween(evs, ip, i, k - 1) + if IsRequestOf(evs, k - 1, ip) then 1 else 0
  }

  lemma {:induction false} EntryIsLatestWindow(evs: seq<Event>, ip: string, k: nat)
    requires k <= |evs|
    ensures var o := LatestOpening(evs, ip, k);
            Lookup(Run(evs, k, false), ip) ==
            if o == -1 then None else Some(Entry(RequestsBetween(evs, ip, o, k), evs[o].ms))
  {
    if k > 0 {
      EntryIsLatestWindow(evs, ip, k - 1);
    }
  }

  /** Main result: a request is accepted exactly if it is among the first 600 of its address since the latest window
      opened. No clock is assumed, and a rejected request counts but opens nothing. */
  lemma AcceptedExactly(evs: seq<Event>, k: nat)
    requires k < |evs| && evs[k].Request?
    ensures AcceptedAt(evs, k, false) <==>
            RequestsBetween(evs, evs[k].ip, LatestOpening(evs, evs[k].ip, k + 1), k + 1) <= 600
  {
    EntryIsLatestWindow(evs, evs[k].ip, k);
    EntryIsLatestWindow(evs, evs[k].ip, k + 1);
  }

  /** With purges, under a clock that never runs backwards, too. */
  lemma AcceptedWithPurgesExactly(evs: seq<Event>, k: nat)
    requires k < |evs| && evs[k].Request? && Monotone(evs)
    ensures AcceptedAt(evs, k, true) <==>
            RequestsBetween(evs, evs[k].ip, LatestOpening(evs, evs[k].ip, k + 1), k + 1) <= 600
  {
    PurgeUnobservable(evs, k);
    AcceptedExactly(evs, k);
  }

  // ---- the purge is unobservable ----

  /** The purged table misses only entries that have expired by the given time. */
  predicate Hides(purged: Limits, full: Limits, now: int) {
    && (forall ip <- purged :: ip in full && purged[ip] == full[ip])
    && (forall ip <- full :: ip in purged || Expired(full[ip], now))
  }

  lemma {:induction false} PurgeHides(evs: seq<Event>, k: nat)
    requires k <= |evs| && Monotone(evs)
    ensures k > 0 ==> Hides(Run(evs, k, true), Run(evs, k, false), evs[k - 1].ms)
    ensures k == 0 ==> Run(evs, k, true) == Run(evs, k, false) == map[]
  {
    if k > 0 {
      PurgeHides(evs, k - 1);
    }
  }

  /** Main result: under a clock that never runs backwards, every interleaving of requests and purge ticks gets exactly
      the decisions of a limiter that never purges. */
  lemma PurgeUnobservable(evs: seq<Event>, k: nat)
    requires k < |evs| && Monotone(evs)
    ensures AcceptedAt(evs, k, true) <==> AcceptedAt(evs, k, false)
  {
    PurgeHides(evs, k);
  }

  /** When one purge changes the decision on a following request: exactly if the purged entry was full and the clock has
      since run back into its window. */
  lemma PurgeObservableExactly(limits: Limits, ip: string, purgeMs: int, ms: int)
    requires ip in limits ==> limits[ip].count > 0
    ensures Accepts(Lookup(Purged(limits, purgeMs), ip), ms) != Accepts(Lookup(limits, ip), ms) <==>
            && ip in limits && limits[ip].count >= MAX_REQ_PER_WINDOW
            && limits[ip].start + LIMIT_WINDOW_MS < purgeMs && ms <= limits[ip].start + LIMIT_WINDOW_MS
  {
    assert Lookup(Purged(limits, purgeMs), ip) ==
           if ip in limits && !Expired(limits[ip], purgeMs) then Lookup(limits, ip) else None;
  }

  // ---- the sliding-window bound ----

  /** Accepted requests of one address among the first k events whose time lies in [from, to]. */
  function AcceptedWithin(evs: seq<Event>, ip: string, from: int, to: int, k: nat, purging: bool): nat
    requires k <= |evs|
  {
    if k == 0 then 0 else
      AcceptedWithin(evs, ip, from, to, k - 1, purging)
      + if AcceptedAt(evs, k - 1, purging) && evs[k - 1].ip == ip && from <= evs[k - 1].ms <= to then 1 else 0
  }

  function Capped(count: nat): nat {
    if count <= MAX_REQ_PER_WINDOW then count else MAX_REQ_PER_WINDOW
  }

  /** How many accepted requests of the interval there can be, given the address's current window. */
  predicate WindowBound(accepted: nat, e: Option<Entry>, from: int, to: int) {
    match e
    case None => accepted == 0
    case Some(e) =>
      && e.count > 0
      && (e.start < from ==> accepted <= Capped(e.count) - 1)
      && (from <= e.start <= to ==> accepted <= MAX_REQ_PER_WINDOW - 1 + Capped(e.count))
      && accepted <= 2 * MAX_REQ_PER_WINDOW - 1
  }

  lemma {:induction false} WindowInvariant(evs: seq<Event>, ip: string, from: int, to: int, k: nat)
    requires k <= |evs| && Monotone(evs) && to - from <= LIMIT_WINDOW_MS
    ensures var n := AcceptedWithin(evs, ip, from, to, k, false);
            && WindowBound(n, Lookup(Run(evs, k, false), ip), from, to)
            && (k > 0 && evs[k - 1].ms < from ==> n == 0)
    ensures k > 0 && ip in Run(evs, k, false) ==> Run(evs, k, false)[ip].start <= evs[k - 1].ms
  {
    if k > 0 {
      WindowInvariant(evs, ip, from, to, k - 1);
      if k > 1 {
        assert evs[k - 2].ms <= evs[k - 1].ms;
      }
    }
  }

  lemma {:induction false} SameCounts(evs: seq<Event>, ip: string, from: int, to: int, k: nat)
    requires k <= |evs| && Monotone(evs)
    ensures AcceptedWithin(evs, ip, from, to, k, true) == AcceptedWithin(evs, ip, from, to, k, false)
  {
    if k > 0 {
      SameCounts(evs, ip, from, to, k - 1);
      PurgeUnobservable(evs, k - 1);
    }
  }

  /** Main result: no closed interval as long as the window ever holds more than 2 * 600 - 1 accepted requests of one
      address, whatever the requests and purges. */
  lemma SlidingWindowBound(evs: seq<Event>, ip: string, from: int, to: int)
    requires Monotone(evs) && to - from <= LIMIT_WINDOW_MS
    ensures AcceptedWithin(evs, ip, from, to, |evs|, true) <= 2 * MAX_REQ_PER_WINDOW - 1
  {
    SameCounts(evs, ip, from, to, |evs|);
    WindowInvariant(evs, ip, from, to, |evs|);
  }

  // ---- the bound is attained ----

  function Burst(ip: string, ms: int, n: nat): seq<Event> {
    seq(n, _ => Request(ip, ms))
  }

  /** One request opens a window, 599 fill it at its last millisecond, 600 more come a millisecond later. */
  function Worst(ip: string): seq<Event> {
    Burst(ip, 0, 1) + Burst(ip, LIMIT_WINDOW_MS, MAX_REQ_PER_WINDOW - 1)
      + Burst(ip, LIMIT_WINDOW_MS + 1, MAX_REQ_PER_WINDOW)
  }

  lemma {:induction false} WorstState(ip: string, k: nat)
    requires k <= |Worst(ip)|
    ensures Lookup(Run(Worst(ip), k, true), ip) ==
            if k == 0 then None
            else if k <= MAX_REQ_PER_WINDOW then Some(Entry(k, 0))
            else Some(Entry(k - MAX_REQ_PER_WINDOW, LIMIT_WINDOW_MS + 1))
    ensures AcceptedWithin(Worst(ip), ip, 1, LIMIT_WINDOW_MS + 1, k, true) == if k == 0 then 0 else k - 1
  {
    if k > 0 {
      WorstState(ip, k - 1);
      assert Worst(ip)[k - 1] ==
             Request(ip, if k == 1 then 0 else if k <= MAX_REQ_PER_WINDOW then LIMIT_WINDOW_MS
                     else LIMIT_WINDOW_MS + 1);
    }
  }

  lemma SlidingWindowBoundAttained(ip: string)
    ensures Monotone(Worst(ip))
    ensures AcceptedWithin(Worst(ip), ip, 1, 1 + LIMIT_WINDOW_MS, |Worst(ip)|, true) == 2 * MAX_REQ_PER_WINDOW - 1
  {
    WorstState(ip, |Worst(ip)|);
  }
}
