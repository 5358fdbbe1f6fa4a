/**
 What a research capture does with each selected token, lane by lane
 (backend/scripts/data_ops/polymarket_research_scheduler.js): which tokens are visited, what each lane stores, counts
 and reports, and when it is never tried.
 */
module ArchiveVisits {
  import opened Picks
  import opened PriceArchive
  import opened Wrappers
  import opened ArchiveQuota

  // ---- settings ----

  /** An option that is left out has its default; any other value is moved into its range. */
  ghost predicate Settles(requested: int, fallback: nat, max: nat, used: nat) {
    && (requested == 0 ==> used == fallback)
    && (requested < 0 ==> used == 1)
    && (1 <= requested <= max ==> used == requested)
    && (requested > max ==> used == max)
  }

  lemma SettingsExactly(o: Options)
    ensures Settles(o.maxTokens, 20, 100, Limit(o.maxTokens))
    ensures if o.maxArchiveBytes == 0 then Quota(o) == 5_368_709_120
            else Quota(o) == o.maxArchiveBytes || (o.maxArchiveBytes < 1 && Quota(o) == 1)
    ensures exists days: nat :: Settles(o.retentionDays, 30, 3650, days)
                                && Cutoff(o) == o.nowMs - days as real * 86_400_000.0
    ensures Settles(o.maxRowsPerToken, 5000, 100_000, MaxRows(o))
  {
    assert Settles(o.retentionDays, 30, 3650, Clamp(o.retentionDays, 30, 3650));
  }

  function MaxRows(o: Options): nat {
    Clamp(o.maxRowsPerToken, 5000, 100_000)
  }

  /** File names have letters, digits, '_' and '-' only, and a token made of those is its own: such tokens never share a
      file. */
  lemma StemExactly(token: string)
    ensures |Stem(token)| == |token| && forall c <- Stem(token) :: PlainChar(c)
    ensures Stem(token) == token <==> forall c <- token :: PlainChar(c)
    ensures forall i :: 0 <= i < |token| && !PlainChar(token[i]) ==> Stem(token)[i] == '_'
  {
    if Stem(token) == token {
      forall c | c in token ensures PlainChar(c) {
        var i :| 0 <= i < |token| && token[i] == c;
        assert Stem(token)[i] == c;
      }
    }
  }

  // ---- selection ----

  function Pairs(market: Market, tokens: seq<string>): seq<Selected> {
    seq(|tokens|, j requires 0 <= j < |tokens| => Selected(market, tokens[j]))
  }

  /** Every token of every market, in order. */
  function Listed(markets: seq<Market>): seq<Selected> {
    if markets == [] then [] else Pairs(markets[0], markets[0].tokens) + Listed(markets[1..])
  }

  ghost predicate Wanted(x: Selected, allowlist: set<string>) {
    x.market.active && x.token in allowlist
  }

  /** These are the places of the wanted elements. */
  ghost predicate WantedAt(all: seq<Selected>, places: seq<nat>, allowlist: set<string>) {
    forall k: nat :: k < |all| ==> (k in places <==> Wanted(all[k], allowlist))
  }

  lemma WantedInBoth(x: seq<Selected>, y: seq<Selected>, p: seq<nat>, q: seq<nat>, allowlist: set<string>)
    requires WantedAt(x, p, allowlist) && WantedAt(y, q, allowlist) && forall k <- p :: k < |x|
    ensures WantedAt(x + y, p + Behind(|x|, q), allowlist)
  {
    hide Wanted;
    var all, places := x + y, p + Behind(|x|, q);
    forall k: nat | k < |all| ensures k in places <==> Wanted(all[k], allowlist) {
      if k >= |x| {
        assert all[k] == y[k - |x|];
        assert k in places <==> k - |x| in q;
      } else {
        assert all[k] == x[k];
      }
    }
  }

  lemma {:induction false} AllowedExactly(market: Market, tokens: seq<string>, allowlist: set<string>)
    returns (places: seq<nat>)
    requires market.active
    ensures PickedAt(Allowed(market, tokens, allowlist), Pairs(market, tokens), places)
    ensures WantedAt(Pairs(market, tokens), places, allowlist)
  {
    hide PickedAt, Places;
    places := [];
    if tokens == [] {
      assert Pairs(market, tokens) == [];
      NothingPicked<Selected>();
    } else {
      var rest := AllowedExactly(market, tokens[1..], allowlist);
      places := Places(tokens[0] in allowlist, rest);
      assert Pairs(market, tokens)[1..] == Pairs(market, tokens[1..]);
      PickedOneMore(Allowed(market, tokens[1..], allowlist), Pairs(market, tokens), rest, tokens[0] in allowlist);
      WantedOneMore(Pairs(market, tokens), rest, allowlist);
    }
  }

  lemma WantedOneMore(all: seq<Selected>, rest: seq<nat>, allowlist: set<string>)
    requires all != [] && WantedAt(all[1..], rest, allowlist)
    ensures WantedAt(all, Places(Wanted(all[0], allowlist), rest), allowlist)
  {
    hide Wanted;
    forall k: nat | k < |all|
      ensures k in Places(Wanted(all[0], allowlist), rest) <==> Wanted(all[k], allowlist)
    {
      assert k > 0 ==> all[k] == all[1..][k - 1];
    }
  }

  /** The allowed tokens are those of the active markets that the allowlist names, in the order of the scope. */
  lemma {:induction false} AllAllowedExactly(markets: seq<Market>, allowlist: set<string>) returns (places: seq<nat>)
    ensures PickedAt(AllAllowed(markets, allowlist), Listed(markets), places)
    ensures WantedAt(Listed(markets), places, allowlist)
  {
    hide PickedAt, WantedAt, Allowed;
    if markets == [] {
      places := [];
      NothingPicked<Selected>();
      NothingWanted(allowlist);
    } else {
      var market := markets[0];
      var first := FirstAllowed(market, allowlist);
      var rest := AllAllowedExactly(markets[1..], allowlist);
      PickedFromBoth(AllowedIn(market, allowlist), AllAllowed(markets[1..], allowlist), Pairs(market, market.tokens),
                     Listed(markets[1..]), first, rest);
      WantedInBoth(Pairs(market, market.tokens), Listed(markets[1..]), first, rest, allowlist);
      places := first + Behind(|Pairs(market, market.tokens)|, rest);
    }
  }

  lemma NothingWanted(allowlist: set<string>)
    ensures WantedAt([], [], allowlist)
  {
  }

  lemma FirstAllowed(market: Market, allowlist: set<string>) returns (places: seq<nat>)
    ensures PickedAt(AllowedIn(market, allowlist), Pairs(market, market.tokens), places)
    ensures WantedAt(Pairs(market, market.tokens), places, allowlist)
    ensures forall k <- places :: k < |Pairs(market, market.tokens)|
  {
    hide Allowed;
    places := [];
    if market.active {
      places := AllowedExactly(market, market.tokens, allowlist);
    }
  }

  // ---- what pruning keeps ----

  /** Row k has a finite time that is at most this long ago. */
  ghost predicate NewEnough(r: BookRow, cutoff: real) {
    r.timeMs.Some? && r.timeMs.value >= cutoff
  }

  lemma {:induction false} RecentExactly(rows: seq<BookRow>, cutoff: real) returns (places: seq<nat>)
    ensures PickedAt(Recent(rows, cutoff), rows, places)
    ensures forall k: nat :: k < |rows| ==> (k in places <==> NewEnough(rows[k], cutoff))
  {
    hide PickedAt, Places, RecentEnough, NewEnough;
    places := [];
    if rows == [] {
      NothingPicked<BookRow>();
    } else {
      var rest := RecentExactly(rows[1..], cutoff);
      places := Places(RecentEnough(rows[0], cutoff), rest);
      PickedOneMore(Recent(rows[1..], cutoff), rows, rest, RecentEnough(rows[0], cutoff));
      SameRecent(rows[0], cutoff);
      assert forall k: nat :: 0 < k < |rows| ==> rows[1..][k - 1] == rows[k];
    }
  }

  lemma SameRecent(r: BookRow, cutoff: real)
    ensures RecentEnough(r, cutoff) <==> NewEnough(r, cutoff)
  {
  }

  /** Main result: pruning keeps, in order, the last `maxRows` of the rows that are new enough: all of those from some
      row on, and as many as allowed if it drops any. */
  lemma RetainedExactly(rows: seq<BookRow>, cutoff: real, maxRows: nat) returns (places: seq<nat>, from: nat)
    ensures PickedAt(Retained(rows, cutoff, maxRows), rows, places)
    ensures forall k: nat :: k < |rows| ==> (k in places <==> from <= k && NewEnough(rows[k], cutoff))
    ensures |places| <= maxRows && (from > 0 ==> |places| == maxRows)
  {
    hide Recent, NewEnough;
    var all := RecentExactly(rows, cutoff);
    if |all| <= maxRows {
      places, from := all, 0;
    } else if maxRows == 0 {
      places, from := [], |rows| + 1;
    } else {
      var dropped := |all| - maxRows;
      places := all[dropped..];
      from := all[dropped];
      forall k: nat | k < |rows| ensures k in places <==> from <= k && k in all {
        LaterPlaces(all, dropped, k);
      }
    }
  }

  lemma LaterPlaces(all: seq<nat>, dropped: nat, k: nat)
    requires dropped < |all| && forall i, j :: 0 <= i < j < |all| ==> all[i] < all[j]
    ensures k in all[dropped..] <==> k in all && all[dropped] <= k
  {
    if k in all {
      var i :| 0 <= i < |all| && all[i] == k;
      if i >= dropped {
        assert all[dropped..][i - dropped] == k;
      }
    }
  }

  // ---- the two lanes ----

  /** A series that fits replaces the token's file and moves the counter by the change of size it measured; one that
      does not is counted as skipped; a failed fetch is reported. The fetch's own cache file comes first. */
  ghost predicate PriceLane(o: Options, a: State, b: State, v: Visit) {
    match v.history
    case NoHistory => b == a.(errors := a.errors + [PriceFailure(v.token)])
    case History(points, source, cached) =>
      var cache := CacheFile(CacheKey(o, v.token));
      var file := PriceFile(Stem(v.token));
      var rows := Normalize(points, if source == "" then "clob_prices_history" else source);
      var files := if o.cacheInRoot && cached.Some? then a.files[cache := cached.value] else a.files;
      var counter := a.counter + |Json(o.printer, rows)| - if file in a.files then |a.files[file]| else 0;
      if counter > Quota(o) then b == a.(files := files, skipped := a.skipped + 1)
      else
        b == a.(files := files[file := Json(o.printer, Normalize(PointsOf(rows), "clob_prices_history"))],
                counter := counter, pricesWritten := a.pricesWritten + |rows|)
  }

  /** Rows that pruning may leave of these. */
  ghost predicate Leaves(o: Options, rows: seq<BookRow>, kept: seq<BookRow>) {
    exists places: seq<nat>, from: nat, cutoff: real :: LeavesAt(o, rows, kept, places, from, cutoff)
  }

  ghost predicate LeavesAt(o: Options, rows: seq<BookRow>, kept: seq<BookRow>, places: seq<nat>, from: nat,
                           cutoff: real) {
    && cutoff == Cutoff(o) && PickedAt(kept, rows, places)
    && (forall k: nat :: k < |rows| ==> (k in places <==> from <= k && NewEnough(rows[k], cutoff)))
    && |places| <= MaxRows(o) && (from > 0 ==> |places| == MaxRows(o))
  }

  /** New rows go behind the old ones and the file is pruned, which counts even if the result does not fit and the old
      file comes back; a failed fetch is reported. A token without a file or new rows gets none. */
  ghost predicate BookLane(o: Options, a: State, b: State, v: Visit) {
    match v.book
    case NoCapture => b == a.(errors := a.errors + [BookFailure(v.token)])
    case Capture(rows) =>
      var file := BookFile(Stem(v.token));
      var before := if file in a.files then a.files[file] else "";
      if file !in a.files && rows == [] then b == a
      else
        exists kept :: Leaves(o, BookRows(before + Payload(rows), o.parse), kept) &&
          BookKept(o, a, b, file, |before|, |BookRows(before + Payload(rows), o.parse)|, |rows|, kept)
  }

  ghost predicate BookKept(o: Options, a: State, b: State, file: Path, before: nat, held: nat, added: nat,
                           kept: seq<BookRow>) {
    && |kept| <= held
    && var counter := a.counter + |Payload(kept)| - before;
       if counter > Quota(o) then b == a.(skipped := a.skipped + 1, pruned := a.pruned + (held - |kept|))
       else
         b == a.(files := a.files[file := Payload(kept)], counter := counter, snapshots := a.snapshots + added,
                 pruned := a.pruned + (held - |kept|))
  }

  /** A full archive skips the token, once; else the lanes run one after the other. Once the price lane has filled the
      archive the order book lane is not tried, which nothing counts. */
  ghost predicate Visited(o: Options, a: State, b: State, v: Visit) {
    if a.counter >= Quota(o) then b == a.(skipped := a.skipped + 1)
    else
      exists mid :: (if o.capturePrices then PriceLane(o, a, mid, v) else mid == a)
                    && if o.captureOrderbooks && mid.counter < Quota(o) then BookLane(o, mid, b, v) else b == mid
  }

  lemma PriceLaneTaken(o: Options, s: State, v: Visit)
    ensures PriceLane(o, s, PriceStep(o, s, v), v)
  {
    hide Json, Normalize, Stem, CacheKey, Quota;
  }

  lemma KeptRowsAreLeft(o: Options, rows: seq<BookRow>)
    ensures Leaves(o, rows, KeptRows(o, rows))
  {
    hide Retained, PickedAt, Cutoff;
    var places, from := RetainedExactly(rows, Cutoff(o), MaxRows(o));
    assert LeavesAt(o, rows, KeptRows(o, rows), places, from, Cutoff(o));
  }

  lemma BookLaneTaken(o: Options, s: State, v: Visit)
    requires s.counter < Quota(o)
    ensures BookLane(o, s, BookStep(o, s, v), v)
  {
    hide Payload, KeptRows, BookRows, Stem, Quota, Leaves;
    if v.book.Capture? {
      var file := BookFile(Stem(v.token));
      var before := if file in s.files then s.files[file] else "";
      var rows := BookRows(before + Payload(v.book.rows), o.parse);
      if file in s.files || v.book.rows != [] {
        KeptRowsAreLeft(o, rows);
        BookStepKeeps(o, s, v, rows);
      }
    }
  }

  lemma BookStepKeeps(o: Options, s: State, v: Visit, rows: seq<BookRow>)
    requires v.book.Capture?
    requires var file := BookFile(Stem(v.token));
             && (file in s.files || v.book.rows != [])
             && rows == BookRows((if file in s.files then s.files[file] else "") + Payload(v.book.rows), o.parse)
    ensures var file := BookFile(Stem(v.token));
            BookKept(o, s, BookStep(o, s, v), file, SizeAt(s.files, file), |rows|, |v.book.rows|, KeptRows(o, rows))
  {
    hide KeptRows, BookRows, Stem, Quota;
    var file := BookFile(Stem(v.token));
    var grown := Appended(s.files, file, v.book.rows);
    assert v.book.rows == [] ==> Payload(v.book.rows) == "";
    assert grown[file] == (if file in s.files then s.files[file] else "") + Payload(v.book.rows);
    RollbackRestores(o, s.files, file, v.book.rows);
    assert Pruned(o, grown, file) == s.files[file := Payload(KeptRows(o, rows))];
  }

  lemma VisitTaken(o: Options, s: State, v: Visit)
    ensures Visited(o, s, TokenStep(o, s, v), v)
  {
    hide PriceLane, BookLane, PriceStep, BookStep, Quota;
    if s.counter < Quota(o) {
      var mid := if o.capturePrices then PriceStep(o, s, v) else s;
      PriceLaneTaken(o, s, v);
      if mid.counter < Quota(o) {
        BookLaneTaken(o, mid, v);
      }
    }
  }

  /** Main result: a run visits every token once, in order, and takes its lanes as described. */
  lemma {:induction false} RunVisits(o: Options, s: State, visits: seq<Visit>) returns (states: seq<State>)
    ensures |states| == |visits| + 1 && states[0] == s && states[|visits|] == Run(o, s, visits)
    ensures forall i :: 0 <= i < |visits| ==> Visited(o, states[i], states[i + 1], visits[i])
  {
    hide TokenStep, Visited;
    states := [s];
    if visits != [] {
      var n := |visits| - 1;
      var earlier := RunVisits(o, s, visits[..n]);
      states := earlier + [Run(o, s, visits)];
      VisitTaken(o, Run(o, s, visits[..n]), visits[n]);
      forall i | 0 <= i < |visits| ensures Visited(o, states[i], states[i + 1], visits[i]) {
        assert i < n ==> visits[..n][i] == visits[i];
      }
    }
  }
}
