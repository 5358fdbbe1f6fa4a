/**
 The research capture cycle and its running byte counter (backend/scripts/data_ops/polymarket_research_scheduler.js).
 The archive directory is a map from paths to file contents; what the two fetches of a token answer is its `Visit`. A
 capture that fails leaves its file alone. The price fetch keeps a cache of its own, which may lie inside the archive
 directory.
 */
module ArchiveQuota {
  import opened Extrema
  import opened Wrappers
  import opened PriceArchive

  datatype Path = PriceFile(token: string) | BookFile(token: string) | CacheFile(key: string) | OtherFile(name: string)
  type Files = map<Path, string>

  // ---- directory size ----

  ghost function Total(files: Files): nat
    decreases |files|
  {
    if files == map[] then 0 else
      var p :| p in files;
      |files[p]| + Total(files - {p})
  }

  lemma {:induction false} TotalWithout(files: Files, p: Path)
    requires p in files
    ensures Total(files) == |files[p]| + Total(files - {p})
    decreases |files|
  {
    var q :| q in files && Total(files) == |files[q]| + Total(files - {q});
    if q != p {
      TotalWithout(files - {q}, p);
      TotalWithout(files - {p}, q);
      assert files - {q} - {p} == files - {p} - {q};
    }
  }

  function SizeAt(files: Files, p: Path): nat {
    if p in files then |files[p]| else 0
  }

  /** Changing one file changes the total by the difference of its sizes; a missing file has size 0. */
  lemma TotalUpdate(files: Files, p: Path, content: string)
    ensures Total(files[p := content]) == Total(files) - SizeAt(files, p) + |content|
  {
    var after := files[p := content];
    TotalWithout(after, p);
    if p in files {
      TotalWithout(files, p);
      assert after - {p} == files - {p};
    } else {
      assert after - {p} == files;
    }
  }

  /** The loop over the directory's entries. */
  method DirectoryBytes(files: Files) returns (total: nat)
    ensures total == Total(files)
  {
    total := 0;
    var left := files;
    while left != map[]
      invariant total + Total(left) == Total(files)
      decreases |left|
    {
      var p :| p in left;
      TotalWithout(left, p);
      total := total + |left[p]|;
      left := left - {p};
    }
  }

  // ---- choosing tokens ----

  datatype Market = Market(id: string, tokens: seq<string>, active: bool)
  datatype Selected = Selected(market: Market, token: string)

  const MAX_TOKENS := 100

  function Allowed(market: Market, tokens: seq<string>, allowlist: set<string>): seq<Selected> {
    if tokens == [] then []
    else if tokens[0] in allowlist then [Selected(market, tokens[0])] + Allowed(market, tokens[1..], allowlist)
    else Allowed(market, tokens[1..], allowlist)
  }

  function AllowedIn(market: Market, allowlist: set<string>): seq<Selected> {
    if market.active then Allowed(market, market.tokens, allowlist) else []
  }

  function AllAllowed(markets: seq<Market>, allowlist: set<string>): seq<Selected> {
    if markets == [] then [] else AllowedIn(markets[0], allowlist) + AllAllowed(markets[1..], allowlist)
  }

  function Take<T>(s: seq<T>, n: nat): seq<T> {
    if n < |s| then s[..n] else s
  }

  lemma TakeAppend<T>(s: seq<T>, t: seq<T>, u: seq<T>, n: nat)
    requires |s| <= n
    ensures |Take(s + t, n)| < n ==> Take(s + t, n) == s + t
    ensures |Take(s + t, n)| == n ==> Take(s + (t + u), n) == Take(s + t, n)
  {
    assert s + (t + u) == (s + t) + u;
  }

  /** One market's tokens, stopping at the limit. */
  method TakeAllowed(market: Market, allowlist: set<string>, before: seq<Selected>, maxTokens: nat)
    returns (selected: seq<Selected>)
    requires |before| < maxTokens
    ensures selected == Take(before + Allowed(market, market.tokens, allowlist), maxTokens)
  {
    selected := before;
    for j := 0 to |market.tokens|
      invariant |selected| < maxTokens
      invariant before + Allowed(market, market.tokens, allowlist)
                == selected + Allowed(market, market.tokens[j..], allowlist)
    {
      var token := market.tokens[j];
      if token !in allowlist {
        continue;
      }
      ghost var rest := Allowed(market, market.tokens[j + 1..], allowlist);
      assert selected + ([Selected(market, token)] + rest) == (selected + [Selected(market, token)]) + rest;
      selected := selected + [Selected(market, token)];
      if |selected| >= maxTokens {
        return;
      }
    }
  }

  function Limit(requested: int): (limit: nat)
    ensures 1 <= limit <= MAX_TOKENS
  {
    var n := if requested == 0 then 20 else requested;
    if n < 1 then 1 else if n > MAX_TOKENS then MAX_TOKENS else n
  }

  /** The first allowed tokens of the active markets, in order, up to the limit. */
  method SelectScopedActiveTokens(markets: seq<Market>, allowlist: set<string>, requested: int)
    returns (selected: seq<Selected>)
    ensures selected == Take(AllAllowed(markets, allowlist), Limit(requested))
  {
    hide Allowed, Limit;
    var maxTokens := Limit(requested);
    selected := [];
    for i := 0 to |markets|
      invariant |selected| < maxTokens
      invariant AllAllowed(markets, allowlist) == selected + AllAllowed(markets[i..], allowlist)
    {
      ghost var before, later := selected, AllAllowed(markets[i + 1..], allowlist);
      ghost var mine := AllowedIn(markets[i], allowlist);
      assert AllAllowed(markets[i..], allowlist) == mine + later;
      assert before + (mine + later) == (before + mine) + later;
      if !markets[i].active {
        continue;
      }
      selected := TakeAllowed(markets[i], allowlist, selected, maxTokens);
      TakeAppend(before, mine, later, maxTokens);
      if |selected| >= maxTokens {
        return;
      }
    }
  }

  // ---- order book files ----

  /** A parsed order book row: its compact JSON text, and its time when it has a finite one. */
  datatype BookRow = BookRow(text: string, timeMs: Option<real>)
  type Parser = string -> Option<BookRow>

  const DAY_MS := 86_400_000.0

  /** `Math.min(max, Math.max(1, value || fallback))`; 0 stands for an absent option. */
  function Clamp(value: int, fallback: nat, max: nat): (n: nat)
    requires 1 <= fallback <= max
    ensures 1 <= n <= max
  {
    var v := if value == 0 then fallback else value;
    if v < 1 then 1 else if v > max then max else v
  }

  function LineEnd(text: string): (n: nat)
    ensures n <= |text|
    ensures n < |text| ==> text[n] == '\n'
    ensures forall i :: 0 <= i < n ==> text[i] != '\n'
  {
    if text == [] || text[0] == '\n' then 0 else 1 + LineEnd(text[1..])
  }

  function WithoutReturn(line: string): string {
    if line != [] && line[|line| - 1] == '\r' then line[..|line| - 1] else line
  }

  /** The pieces between line ends, a carriage return before a line end being part of it. */
  function SplitLines(text: string): seq<string>
    decreases |text|
  {
    var n := LineEnd(text);
    if n == |text| then [text] else [WithoutReturn(text[..n])] + SplitLines(text[n + 1..])
  }

  function Parsed(lines: seq<string>, parse: Parser): seq<BookRow> {
    if lines == [] then []
    else
      var rest := Parsed(lines[1..], parse);
      if lines[0] != [] && parse(lines[0]).Some? then [parse(lines[0]).value] + rest else rest
  }

  function BookRows(text: string, parse: Parser): seq<BookRow> {
    Parsed(SplitLines(text), parse)
  }

  predicate RecentEnough(r: BookRow, cutoff: real) {
    r.timeMs.Some? && r.timeMs.value >= cutoff
  }

  function Recent(rows: seq<BookRow>, cutoff: real): seq<BookRow> {
    if rows == [] then []
    else if RecentEnough(rows[0], cutoff) then [rows[0]] + Recent(rows[1..], cutoff)
    else Recent(rows[1..], cutoff)
  }

  function LastOf(rows: seq<BookRow>, n: nat): (r: seq<BookRow>)
    ensures |r| <= n && |r| <= |rows|
  {
    if n < |rows| then rows[|rows| - n..] else rows
  }

  function Retained(rows: seq<BookRow>, cutoff: real, maxRows: nat): seq<BookRow> {
    LastOf(Recent(rows, cutoff), maxRows)
  }

  function Payload(rows: seq<BookRow>): string {
    if rows == [] then "" else rows[0].text + "\n" + Payload(rows[1..])
  }

  // Pruning again with the same clock changes nothing.

  /** Rows print as one non-empty line, which reads back as the row. */
  ghost predicate Printable(r: BookRow, parse: Parser) {
    && r.text != [] && r.text[|r.text| - 1] != '\r'
    && (forall i :: 0 <= i < |r.text| ==> r.text[i] != '\n')
    && parse(r.text) == Some(r)
  }

  ghost predicate PrintableAll(rows: seq<BookRow>, parse: Parser) {
    forall i :: 0 <= i < |rows| ==> Printable(rows[i], parse)
  }

  lemma {:induction false} LineEndAt(text: string, n: nat)
    requires n < |text| && text[n] == '\n' && forall i :: 0 <= i < n ==> text[i] != '\n'
    ensures LineEnd(text) == n
  {
    var m := LineEnd(text);
    assert m >= n;
  }

  lemma {:induction false} PayloadReadsBack(rows: seq<BookRow>, parse: Parser)
    requires PrintableAll(rows, parse)
    ensures BookRows(Payload(rows), parse) == rows
  {
    hide LineEnd;
    if rows == [] {
      assert SplitLines("") == [""];
    } else {
      var line, rest := rows[0].text, Payload(rows[1..]);
      var text := line + "\n" + rest;
      assert Printable(rows[0], parse);
      LineEndAt(text, |line|);
      assert text[..|line|] == line && text[|line| + 1..] == rest;
      assert SplitLines(text) == [line] + SplitLines(rest);
      PayloadReadsBack(rows[1..], parse);
    }
  }

  lemma {:induction false} RecentMembers(rows: seq<BookRow>, cutoff: real)
    ensures forall r :: r in Recent(rows, cutoff) <==> r in rows && RecentEnough(r, cutoff)
  {
    if rows != [] {
      RecentMembers(rows[1..], cutoff);
    }
  }

  lemma {:induction false} RecentOfRecent(rows: seq<BookRow>, cutoff: real)
    requires forall i :: 0 <= i < |rows| ==> RecentEnough(rows[i], cutoff)
    ensures Recent(rows, cutoff) == rows
  {
    if rows != [] {
      RecentOfRecent(rows[1..], cutoff);
    }
  }

  lemma RetainedMembers(rows: seq<BookRow>, cutoff: real, maxRows: nat)
    ensures forall r <- Retained(rows, cutoff, maxRows) :: r in rows && RecentEnough(r, cutoff)
  {
    RecentMembers(rows, cutoff);
  }

  /** What one pruning leaves is read back whole, and pruning again keeps all of it. */
  lemma PruneIsIdempotent(rows: seq<BookRow>, parse: Parser, cutoff: real, maxRows: nat)
    requires PrintableAll(rows, parse)
    ensures var once := Retained(rows, cutoff, maxRows);
            BookRows(Payload(once), parse) == once && Retained(once, cutoff, maxRows) == once
  {
    hide Printable, Recent, BookRows, Payload;
    var once := Retained(rows, cutoff, maxRows);
    RetainedMembers(rows, cutoff, maxRows);
    forall i | 0 <= i < |once| ensures Printable(once[i], parse) && RecentEnough(once[i], cutoff) {
      assert once[i] in once;
    }
    PayloadReadsBack(once, parse);
    RecentOfRecent(once, cutoff);
  }

  /** A row goes only when it is too old or when `maxRows` recent rows follow it. */
  lemma PrunedRowsAreOldOrCrowdedOut(rows: seq<BookRow>, cutoff: real, maxRows: nat, k: nat)
    requires k < |rows| && RecentEnough(rows[k], cutoff)
    ensures rows[k] in Retained(rows, cutoff, maxRows) || |Recent(rows[k + 1..], cutoff)| >= maxRows
  {
    hide RecentEnough;
    assert rows == rows[..k] + ([rows[k]] + rows[k + 1..]);
    RecentDistributes(rows[..k], [rows[k]] + rows[k + 1..], cutoff);
    var before, later := Recent(rows[..k], cutoff), Recent(rows[k + 1..], cutoff);
    assert Recent([rows[k]] + rows[k + 1..], cutoff) == [rows[k]] + later;
    assert Recent(rows, cutoff) == before + ([rows[k]] + later);
    if |later| < maxRows {
      var all := Recent(rows, cutoff);
      var kept := LastOf(all, maxRows);
      assert kept[|kept| - |later| - 1] == rows[k];
    }
  }

  lemma {:induction false} RecentDistributes(a: seq<BookRow>, b: seq<BookRow>, cutoff: real)
    ensures Recent(a + b, cutoff) == Recent(a, cutoff) + Recent(b, cutoff)
  {
    if a == [] {
      assert a + b == b;
    } else {
      assert (a + b)[1..] == a[1..] + b;
      RecentDistributes(a[1..], b, cutoff);
    }
  }

  // ---- the capture cycle ----

  /** `cacheInRoot`: the archive root is the fetch's cache directory, as it is by default, or holds it. */
  datatype Options = Options(
    cacheInRoot: bool, historyInterval: string, execute: bool, capturePrices: bool, captureOrderbooks: bool,
      maxArchiveBytes: int, maxTokens: int,
    nowMs: real, retentionDays: int, maxRowsPerToken: int, printer: Printer, parse: Parser)

  /** A fetched series; `cached` is the text the fetch leaves in its cache, if it keeps one. */
  datatype History = NoHistory | History(points: seq<Point>, source: string, cached: Option<string>)
  datatype Capture = NoCapture | Capture(rows: seq<BookRow>)

  /** A selected token with what its two fetches answer. */
  datatype Visit = Visit(token: string, history: History, book: Capture)

  datatype Failure = PriceFailure(token: string) | BookFailure(token: string) | NothingCaptured(limited: bool)

  datatype State = State(
    files: Files, counter: int, pricesWritten: nat, snapshots: nat, pruned: nat, skipped: nat, errors: seq<Failure>)

  function Quota(o: Options): (n: nat)
    ensures n >= 1
  {
    if o.maxArchiveBytes == 0 then 5 * 1024 * 1024 * 1024 else if o.maxArchiveBytes < 1 then 1 else o.maxArchiveBytes
  }

  predicate PlainChar(c: char) {
    'a' <= c <= 'z' || 'A' <= c <= 'Z' || '0' <= c <= '9' || c == '_' || c == '-'
  }

  function Stem(token: string): string {
    seq(|token|, i requires 0 <= i < |token| => if PlainChar(token[i]) then token[i] else '_')
  }

  /** The label a series is measured under: never empty. */
  function Label(h: History): (r: string)
    requires h.History?
    ensures r != ""
  {
    if h.source == "" then DEFAULT_SOURCE else h.source
  }

  function MeasuredRows(h: History): seq<Row>
    requires h.History?
  {
    Normalize(h.points, Label(h))
  }

  function CacheKey(o: Options, token: string): string {
    Stem("clob_hist_" + token + "_" + if o.historyInterval == "" then "5m" else o.historyInterval)
  }

  /** The directory after the price fetch. */
  function Fetched(o: Options, files: Files, v: Visit): Files {
    if o.cacheInRoot && v.history.History? && v.history.cached.Some? then
      files[CacheFile(CacheKey(o, v.token)) := v.history.cached.value]
    else files
  }

  function PriceStep(o: Options, before: State, v: Visit): State {
    var s := before.(files := Fetched(o, before.files, v));
    match v.history
    case NoHistory => s.(errors := s.errors + [PriceFailure(v.token)])
    case History(_, _, _) =>
      var prices := MeasuredRows(v.history);
      var path := PriceFile(Stem(v.token));
      var oldBytes := SizeAt(s.files, path);
      var nextBytes := |Json(o.printer, prices)|;
      if s.counter - oldBytes + nextBytes <= Quota(o) then
        s.(files := s.files[path := Json(o.printer, Written(prices))], counter := s.counter + (nextBytes - oldBytes),
           pricesWritten := s.pricesWritten + |prices|)
      else s.(skipped := s.skipped + 1)
  }

  function Appended(files: Files, path: Path, rows: seq<BookRow>): Files {
    if rows == [] then files
    else files[path := (if path in files then files[path] else "") + Payload(rows)]
  }

  function Cutoff(o: Options): real {
    o.nowMs - Clamp(o.retentionDays, 30, 3650) as real * DAY_MS
  }

  function KeptRows(o: Options, rows: seq<BookRow>): (kept: seq<BookRow>)
    ensures |kept| <= |rows|
  {
    RecentShorter(rows, Cutoff(o));
    Retained(rows, Cutoff(o), Clamp(o.maxRowsPerToken, 5000, 100_000))
  }

  lemma {:induction false} RecentShorter(rows: seq<BookRow>, cutoff: real)
    ensures |Recent(rows, cutoff)| <= |rows|
  {
    if rows != [] {
      RecentShorter(rows[1..], cutoff);
    }
  }

  /** The directory after pruneOrderbookLiteFile. */
  function Pruned(o: Options, files: Files, path: Path): Files {
    if path !in files then files else files[path := Payload(KeptRows(o, BookRows(files[path], o.parse)))]
  }

  function RowsRemoved(o: Options, files: Files, path: Path): nat {
    if path !in files then 0
    else var rows := BookRows(files[path], o.parse); |rows| - |KeptRows(o, rows)|
  }

  function Restored(files: Files, path: Path, previous: Option<string>): Files {
    match previous
    case Some(content) => files[path := content]
    case None => files - {path}
  }

  function ContentAt(files: Files, path: Path): Option<string> {
    if path in files then Some(files[path]) else None
  }

  function BookStep(o: Options, s: State, v: Visit): State {
    match v.book
    case NoCapture => s.(errors := s.errors + [BookFailure(v.token)])
    case Capture(rows) =>
      var path := BookFile(Stem(v.token));
      var previous := ContentAt(s.files, path);
      var grown := Appended(s.files, path, rows);
      var files := Pruned(o, grown, path);
      var delta := SizeAt(files, path) - SizeAt(s.files, path);
      var next := s.(pruned := s.pruned + RowsRemoved(o, grown, path));
      if s.counter + delta > Quota(o) then
        next.(files := Restored(files, path, previous), skipped := s.skipped + 1)
      else
        next.(files := files, counter := s.counter + delta, snapshots := s.snapshots + |rows|)
  }

  function TokenStep(o: Options, s: State, v: Visit): State {
    if s.counter >= Quota(o) then s.(skipped := s.skipped + 1)
    else
      var priced := if o.capturePrices then PriceStep(o, s, v) else s;
      if o.captureOrderbooks && priced.counter < Quota(o) then BookStep(o, priced, v) else priced
  }

  function Run(o: Options, s: State, visits: seq<Visit>): State {
    if visits == [] then s
    else TokenStep(o, Run(o, s, visits[..|visits| - 1]), visits[|visits| - 1])
  }

  // ---- the counter against the directory ----

  /** What the writer stores beyond what was measured: the writer normalizes and labels the rows once more. */
  function Surplus(o: Options, h: History): int
    requires h.History?
  {
    |Json(o.printer, Written(MeasuredRows(h)))| - |Json(o.printer, MeasuredRows(h))|
  }

  /** The price lane's own branch: the series fits. */
  predicate Fits(o: Options, s: State, v: Visit)
    requires v.history.History?
  {
    s.counter - SizeAt(s.files, PriceFile(Stem(v.token))) + |Json(o.printer, MeasuredRows(v.history))| <= Quota(o)
  }

  function PriceSurplus(o: Options, s: State, v: Visit): int {
    if v.history.History? && Fits(o, s, v) then Surplus(o, v.history) else 0
  }

  /** By how much the fetch's cache file grows, if the directory holds it. */
  function CacheGrowth(o: Options, s: State, v: Visit): int {
    if o.cacheInRoot && v.history.History? && v.history.cached.Some? then
      |v.history.cached.value| - SizeAt(s.files, CacheFile(CacheKey(o, v.token)))
    else 0
  }

  /** The growth of the cache over a run. */
  function RunCacheGrowth(o: Options, s: State, visits: seq<Visit>): int {
    if visits == [] then 0
    else
      var n := |visits| - 1;
      var t := Run(o, s, visits[..n]);
      RunCacheGrowth(o, s, visits[..n])
      + if t.counter < Quota(o) && o.capturePrices then CacheGrowth(o, t, visits[n]) else 0
  }

  lemma {:induction false} CacheOutside(o: Options, s: State, visits: seq<Visit>)
    requires !o.cacheInRoot
    ensures RunCacheGrowth(o, s, visits) == 0
  {
    hide Run;
    if visits != [] {
      CacheOutside(o, s, visits[..|visits| - 1]);
    }
  }

  /** The surplus of all series written in a run. */
  function RunSurplus(o: Options, s: State, visits: seq<Visit>): int {
    if visits == [] then 0
    else
      var n := |visits| - 1;
      var t := Run(o, s, visits[..n]);
      RunSurplus(o, s, visits[..n])
      + if t.counter < Quota(o) && o.capturePrices then PriceSurplus(o, t, visits[n]) else 0
  }

  /** What the directory holds beyond what the counter says. */
  ghost function Gap(s: State): int {
    Total(s.files) - s.counter
  }

  lemma PriceStepGap(o: Options, s: State, v: Visit)
    ensures Gap(PriceStep(o, s, v)) == Gap(s) + PriceSurplus(o, s, v) + CacheGrowth(o, s, v)
  {
    hide Json, Written, Total, Stem, CacheKey, MeasuredRows, Quota;
    if v.history.History? {
      if v.history.cached.Some? {
        TotalUpdate(s.files, CacheFile(CacheKey(o, v.token)), v.history.cached.value);
      }
      TotalUpdate(Fetched(o, s.files, v), PriceFile(Stem(v.token)), Json(o.printer, Written(MeasuredRows(v.history))));
    }
  }

  /** Growing and pruning one file changes the total by that file's change of size. */
  lemma BookTotal(o: Options, files: Files, path: Path, rows: seq<BookRow>)
    ensures var after := Pruned(o, Appended(files, path, rows), path);
            Total(after) == Total(files) + SizeAt(after, path) - SizeAt(files, path)
  {
    hide Total, Payload, KeptRows, BookRows;
    var grown := Appended(files, path, rows);
    if path in grown {
      var content := Payload(KeptRows(o, BookRows(grown[path], o.parse)));
      assert Pruned(o, grown, path) == files[path := content];
      TotalUpdate(files, path, content);
    } else {
      assert Pruned(o, grown, path) == files;
    }
  }

  /** Rolling back brings the earlier directory back: the earlier content, or no file. */
  lemma RollbackRestores(o: Options, files: Files, path: Path, rows: seq<BookRow>)
    ensures Restored(Pruned(o, Appended(files, path, rows), path), path, ContentAt(files, path)) == files
  {
    hide Payload, KeptRows, BookRows;
  }

  /** An order book lane never opens the gap, and one that does not fit leaves the whole directory as it was. */
  lemma BookStepGap(o: Options, s: State, v: Visit)
    ensures Gap(BookStep(o, s, v)) == Gap(s)
    ensures BookStep(o, s, v).snapshots == s.snapshots && BookStep(o, s, v).skipped > s.skipped ==>
            BookStep(o, s, v).files == s.files
  {
    hide Total, Pruned, Appended, Restored, RowsRemoved, Stem, Quota;
    if v.book.Capture? {
      BookTotal(o, s.files, BookFile(Stem(v.token)), v.book.rows);
      RollbackRestores(o, s.files, BookFile(Stem(v.token)), v.book.rows);
    }
  }

  /**
   After every token the directory's size is the counter, plus the gap at the start, plus the surplus of the price
   series written so far, plus the growth of the cache inside it: on all inputs, captured, failed, skipped or rolled
   back.
   */
  lemma {:induction false} CounterTracksDirectory(o: Options, s: State, visits: seq<Visit>)
    ensures Gap(Run(o, s, visits)) == Gap(s) + RunSurplus(o, s, visits) + RunCacheGrowth(o, s, visits)
  {
    hide PriceStep, BookStep, PriceSurplus, CacheGrowth, Quota, Gap;
    if visits != [] {
      var n := |visits| - 1;
      CounterTracksDirectory(o, s, visits[..n]);
      var t := Run(o, s, visits[..n]);
      PriceStepGap(o, t, visits[n]);
      BookStepGap(o, if o.capturePrices then PriceStep(o, t, visits[n]) else t, visits[n]);
      SkipGap(t);
    }
  }

  lemma SkipGap(s: State)
    ensures Gap(s.(skipped := s.skipped + 1)) == Gap(s)
  {
  }

  ghost function Start(files: Files): State {
    State(files, Total(files), 0, 0, 0, 0, [])
  }

  /** Every history is measured under this label, and with observations no later than the year 2286. */
  ghost predicate Labelled(v: Visit, source: string) {
    v.history.History? ==>
      Label(v.history) == source && forall i :: 0 <= i < |v.history.points| ==>
        v.history.points[i].t <= 10_000_000_000_000.0
  }

  ghost predicate AllLabelled(visits: seq<Visit>, source: string) {
    forall i :: 0 <= i < |visits| ==> Labelled(visits[i], source)
  }

  function Drift(source: string): int {
    |DEFAULT_SOURCE| - |source|
  }

  lemma SurplusOfLabel(o: Options, v: Visit, source: string)
    requires v.history.History? && Labelled(v, source) && source != ""
    ensures Surplus(o, v.history) == |MeasuredRows(v.history)| * Drift(source)
  {
    hide Json, Written, Normalize, NormalRows, Plausible;
    NormalizeIsNormal(v.history.points, source);
    PlausiblePoints(v.history.points, source);
    StoredSize(o.printer, MeasuredRows(v.history), source);
  }

  lemma PriceSurplusOfLabel(o: Options, s: State, v: Visit, source: string)
    requires Labelled(v, source) && source != ""
    ensures PriceSurplus(o, s, v) == (PriceStep(o, s, v).pricesWritten - s.pricesWritten) * Drift(source)
  {
    hide Json, Written, MeasuredRows, Labelled, Drift, Stem, CacheKey, Quota, Surplus;
    if v.history.History? {
      SurplusOfLabel(o, v, source);
    }
  }

  lemma BooksWriteNoPrices(o: Options, s: State, v: Visit)
    ensures BookStep(o, s, v).pricesWritten == s.pricesWritten
  {
    hide Pruned, Appended, Restored, RowsRemoved, Stem, Quota;
  }

  /** With one label the surplus is the label's drift, once a price row written. */
  lemma {:induction false} RunSurplusOfLabel(o: Options, s: State, visits: seq<Visit>, source: string)
    requires AllLabelled(visits, source) && source != ""
    ensures RunSurplus(o, s, visits) == (Run(o, s, visits).pricesWritten - s.pricesWritten) * Drift(source)
  {
    hide PriceStep, BookStep, PriceSurplus, Quota, Labelled, Drift;
    if visits != [] {
      var n := |visits| - 1;
      RunSurplusOfLabel(o, s, visits[..n], source);
      var t := Run(o, s, visits[..n]);
      var priced := if o.capturePrices then PriceStep(o, t, visits[n]) else t;
      PriceSurplusOfLabel(o, t, visits[n], source);
      BooksWriteNoPrices(o, priced, visits[n]);
      MulDistributes(t.pricesWritten - s.pricesWritten, priced.pricesWritten - t.pricesWritten, Drift(source));
    }
  }

  lemma MulDistributes(a: int, b: int, d: int)
    ensures (a + b) * d == a * d + b * d
  {
  }

  /** So from its start a run keeps the directory's size at the counter, plus the drift of every price row written, plus
      the growth of the cache inside it. */
  lemma DirectoryOfLabel(o: Options, files: Files, visits: seq<Visit>, source: string)
    requires source != "" && AllLabelled(visits, source)
    ensures var end := Run(o, Start(files), visits);
            Total(end.files)
              == end.counter + end.pricesWritten * Drift(source) + RunCacheGrowth(o, Start(files), visits)
  {
    hide Run, AllLabelled, Total, RunSurplus, RunCacheGrowth, Drift;
    CounterTracksDirectory(o, Start(files), visits);
    RunSurplusOfLabel(o, Start(files), visits, source);
  }

  /** The counter is the directory's size exactly when drift and cache growth cancel: with the cache outside the root,
      exactly when no price row was written or the labels have one length. */
  lemma CounterExactly(o: Options, files: Files, visits: seq<Visit>, source: string)
    requires source != "" && AllLabelled(visits, source)
    ensures var end := Run(o, Start(files), visits);
            && (end.counter == Total(end.files) <==>
                end.pricesWritten * Drift(source) + RunCacheGrowth(o, Start(files), visits) == 0)
            && (!o.cacheInRoot ==>
                (end.counter == Total(end.files) <==> end.pricesWritten == 0 || |source| == |DEFAULT_SOURCE|))
  {
    hide Run, AllLabelled, Total, RunCacheGrowth;
    DirectoryOfLabel(o, files, visits, source);
    NonZeroProduct(Run(o, Start(files), visits).pricesWritten, Drift(source));
    if !o.cacheInRoot {
      CacheOutside(o, Start(files), visits);
    }
  }

  lemma NonZeroProduct(a: nat, d: int)
    ensures a * d == 0 <==> a == 0 || d == 0
  {
    if d > 0 && a > 0 { assert a * d >= 1; }
    if d < 0 && a > 0 { assert a * (-d) >= 1; }
  }

  // ---- the quota ----

  lemma TokenStepKeepsQuota(o: Options, s: State, v: Visit)
    ensures TokenStep(o, s, v).counter <= MaxInt(s.counter, Quota(o))
  {
    hide Json, Written, Total, MeasuredRows, Pruned, Appended, Restored, RowsRemoved, Stem, Quota;
  }

  /** The counter never passes the quota, unless it started beyond it. */
  lemma {:induction false} CounterWithinQuota(o: Options, s: State, visits: seq<Visit>)
    ensures Run(o, s, visits).counter <= MaxInt(s.counter, Quota(o))
  {
    hide TokenStep, Quota;
    if visits != [] {
      CounterWithinQuota(o, s, visits[..|visits| - 1]);
      TokenStepKeepsQuota(o, Run(o, s, visits[..|visits| - 1]), visits[|visits| - 1]);
    }
  }

  const API_SOURCE := "api"

  /** So the directory passes its quota by at most sixteen bytes a price row that came from the exchange's own history,
      and the growth of the cache: nothing, unless the root holds it. */
  lemma DirectoryWithinQuota(o: Options, files: Files, visits: seq<Visit>)
    requires AllLabelled(visits, API_SOURCE)
    ensures var end := Run(o, Start(files), visits);
            && Total(end.files) <= MaxInt(Total(files), Quota(o)) + 16 * end.pricesWritten
                 + RunCacheGrowth(o, Start(files), visits)
            && (!o.cacheInRoot ==> Total(end.files) <= MaxInt(Total(files), Quota(o)) + 16 * end.pricesWritten)
  {
    hide Run, AllLabelled, Total, Quota, RunCacheGrowth;
    DirectoryOfLabel(o, files, visits, API_SOURCE);
    CounterWithinQuota(o, Start(files), visits);
    if !o.cacheInRoot {
      CacheOutside(o, Start(files), visits);
    }
  }

  /** And it does pass it: a series of at least one row whose measured size is the whole quota is accepted into an empty
      archive. */
  lemma QuotaIsPassed(o: Options, v: Visit)
    requires v.history.History? && Labelled(v, API_SOURCE) && o.capturePrices
    requires o.maxArchiveBytes == |Json(o.printer, MeasuredRows(v.history))| && MeasuredRows(v.history) != []
    ensures var end := Run(o, Start(map[]), [v]);
            && end.pricesWritten == |MeasuredRows(v.history)| > 0
            && Total(end.files) == Quota(o) + 16 * end.pricesWritten + CacheGrowth(o, Start(map[]), v)
            && Total(end.files) > MaxInt(Total(map[]), Quota(o))
  {
    hide *;
    FullFromEmpty(o, v);
    OneVisit(o, Start(map[]), v);
    assert AllLabelled([v], API_SOURCE) by { OneLabelled(v, API_SOURCE); }
    DriftOfApi();
    DirectoryOfLabel(o, map[], [v], API_SOURCE);
    OneGrowth(o, Start(map[]), v);
    EmptyCacheGrows(o, v);
    Larger(0, Quota(o));
    EmptyTotal();
  }

  lemma EmptyCacheGrows(o: Options, v: Visit)
    ensures CacheGrowth(o, Start(map[]), v) >= 0
  {
  }

  lemma Larger(a: int, b: int)
    ensures a <= b ==> MaxInt(a, b) == b
  {
  }

  lemma OneGrowth(o: Options, s: State, v: Visit)
    requires s.counter < Quota(o) && o.capturePrices
    ensures RunCacheGrowth(o, s, [v]) == CacheGrowth(o, s, v)
  {
    hide CacheGrowth;
    assert [v][..0] == [];
    assert RunCacheGrowth(o, s, []) == 0 && Run(o, s, []) == s;
  }

  /** Under the default root a series that is fetched but does not fit still grows the directory, by its cache file,
      while the counter stays and no row is written: the counter is wrong, and the quota bounds nothing. */
  lemma DefaultRootGrows(o: Options, v: Visit)
    requires o.cacheInRoot && o.capturePrices && !o.captureOrderbooks
    requires v.history.History? && v.history.cached.Some?
    requires Quota(o) < |Json(o.printer, MeasuredRows(v.history))|
    ensures var end := Run(o, Start(map[]), [v]);
            && end.pricesWritten == 0 && end.counter == 0 && end.skipped == 1
            && end.files == map[CacheFile(CacheKey(o, v.token)) := v.history.cached.value]
            && Total(end.files) == |v.history.cached.value|
  {
    hide Run, Json, MeasuredRows, Total, Stem, CacheKey;
    OneVisit(o, Start(map[]), v);
    EmptyTotal();
    TotalUpdate(map[], CacheFile(CacheKey(o, v.token)), v.history.cached.value);
  }

  lemma EmptyTotal()
    ensures Total(map[]) == 0
  {
  }

  lemma OneLabelled(v: Visit, source: string)
    requires Labelled(v, source)
    ensures AllLabelled([v], source)
  {
  }

  lemma DriftOfApi()
    ensures Drift(API_SOURCE) == 16 && API_SOURCE != ""
  {
  }

  lemma OneVisit(o: Options, s: State, v: Visit)
    ensures Run(o, s, [v]) == TokenStep(o, s, v)
  {
    hide TokenStep;
    assert [v][..0] == [];
    assert Run(o, s, []) == s;
  }

  lemma FullFromEmpty(o: Options, v: Visit)
    requires v.history.History? && o.capturePrices && o.maxArchiveBytes == |Json(o.printer, MeasuredRows(v.history))|
    ensures var end := TokenStep(o, Start(map[]), v);
            Start(map[]).counter == 0 && Quota(o) > 0 && end.counter == Quota(o)
              && end.pricesWritten == |MeasuredRows(v.history)|
  {
    hide Json, Written, MeasuredRows, BookStep, Stem, CacheKey;
    JsonNotEmpty(o.printer, MeasuredRows(v.history));
  }

  lemma JsonNotEmpty(pr: Printer, rows: seq<Row>)
    ensures |Json(pr, rows)| >= 2
  {
  }

  // ---- what a cycle leaves alone ----

  /** A visit's own files: its series, its order book, and its cache file if the root holds the cache. */
  predicate Owns(o: Options, v: Visit, p: Path) {
    || p == PriceFile(Stem(v.token)) || p == BookFile(Stem(v.token))
    || (o.cacheInRoot && p == CacheFile(CacheKey(o, v.token)))
  }

  ghost predicate OwnPath(o: Options, p: Path, visits: seq<Visit>) {
    exists i :: 0 <= i < |visits| && Owns(o, visits[i], p)
  }

  lemma TokenStepFrame(o: Options, s: State, v: Visit, p: Path)
    requires !Owns(o, v, p)
    ensures ContentAt(TokenStep(o, s, v).files, p) == ContentAt(s.files, p)
  {
    hide Json, Written, Total, MeasuredRows, KeptRows, BookRows, Payload, Stem, CacheKey, Quota, RowsRemoved;
  }

  /** Every file that is not one of the selected tokens' own keeps its content, or stays missing. */
  lemma {:induction false} OthersUntouched(o: Options, s: State, visits: seq<Visit>, p: Path)
    requires !OwnPath(o, p, visits)
    ensures ContentAt(Run(o, s, visits).files, p) == ContentAt(s.files, p)
  {
    hide TokenStep, Owns;
    if visits != [] {
      var n := |visits| - 1;
      assert forall i :: 0 <= i < n ==> visits[..n][i] == visits[i];
      OthersUntouched(o, s, visits[..n], p);
      TokenStepFrame(o, Run(o, s, visits[..n]), visits[n], p);
    }
  }

  // ---- the cycle itself ----

  datatype Refusal = EmptyAllowlist | NoCaptureLane | NoActiveToken
  datatype Outcome = Refused(why: Refusal) | Plan(selected: seq<Selected>) | Captured(ok: bool, archiveBytes: nat)

  datatype Answer = Answer(history: History, book: Capture)

  function Visits(selected: seq<Selected>, answers: nat -> Answer): seq<Visit> {
    seq(|selected|, i requires 0 <= i < |selected| => Visit(selected[i].token, answers(i).history, answers(i).book))
  }

  class Scheduler {
    var files: Files
    var currentArchiveBytes: int
    var pricesWritten: nat
    var snapshotsWritten: nat
    var rowsPruned: nat
    var skippedStorageLimit: nat
    var errors: seq<Failure>

    function Now(): State reads this {
      State(files, currentArchiveBytes, pricesWritten, snapshotsWritten, rowsPruned, skippedStorageLimit, errors)
    }

    /** What the fetch itself leaves in the directory. */
    method FetchHistory(o: Options, v: Visit)
      modifies this`files
      ensures files == Fetched(o, old(files), v)
    {
      hide CacheKey;
      if o.cacheInRoot && v.history.History? && v.history.cached.Some? {
        files := files[CacheFile(CacheKey(o, v.token)) := v.history.cached.value];
      }
    }

    /** The price lane of one token. */
    method CapturePrices(o: Options, v: Visit)
      modifies this
      ensures Now() == PriceStep(o, old(Now()), v)
    {
      hide Json, Written, Normalize, Stem, CacheKey, Quota;
      FetchHistory(o, v);
      if v.history.NoHistory? {
        errors := errors + [PriceFailure(v.token)];
        return;
      }
      var prices := MeasuredRows(v.history);
      var priceFile := PriceFile(Stem(v.token));
      var oldBytes := SizeAt(files, priceFile);
      var nextBytes := |Json(o.printer, prices)|;
      if currentArchiveBytes - oldBytes + nextBytes <= Quota(o) {
        files := files[priceFile := Json(o.printer, Written(prices))];
        currentArchiveBytes := currentArchiveBytes + (nextBytes - oldBytes);
        pricesWritten := pricesWritten + |prices|;
      } else {
        skippedStorageLimit := skippedStorageLimit + 1;
      }
    }

    /** Rewrites one order book file with the rows kept; returns how many went. */
    method PruneOrderbookLiteFile(o: Options, path: Path) returns (removed: nat)
      modifies this`files
      ensures files == Pruned(o, old(files), path)
      ensures removed == RowsRemoved(o, old(files), path)
    {
      hide Payload, KeptRows, BookRows;
      if path !in files {
        return 0;
      }
      var rows := BookRows(files[path], o.parse);
      var retained := KeptRows(o, rows);
      removed := |rows| - |retained|;
      files := files[path := Payload(retained)];
    }

    /** The order book lane of one token: append, prune, and roll back what does not fit. */
    method CaptureOrderbook(o: Options, v: Visit)
      modifies this
      ensures Now() == BookStep(o, old(Now()), v)
    {
      hide Pruned, RowsRemoved, Appended, Stem, Quota;
      if v.book.NoCapture? {
        errors := errors + [BookFailure(v.token)];
        return;
      }
      var filePath := BookFile(Stem(v.token));
      var previous := ContentAt(files, filePath);
      var prevSize := SizeAt(files, filePath);
      files := Appended(files, filePath, v.book.rows);
      var removed := PruneOrderbookLiteFile(o, filePath);
      rowsPruned := rowsPruned + removed;
      var sizeDelta := SizeAt(files, filePath) - prevSize;
      if currentArchiveBytes + sizeDelta > Quota(o) {
        if previous.Some? {
          files := files[filePath := previous.value];
        } else {
          files := files - {filePath};
        }
        skippedStorageLimit := skippedStorageLimit + 1;
      } else {
        currentArchiveBytes := currentArchiveBytes + sizeDelta;
        snapshotsWritten := snapshotsWritten + |v.book.rows|;
      }
    }

    method CaptureToken(o: Options, v: Visit)
      modifies this
      ensures Now() == TokenStep(o, old(Now()), v)
    {
      hide PriceStep, BookStep, Quota;
      if currentArchiveBytes >= Quota(o) {
        skippedStorageLimit := skippedStorageLimit + 1;
        return;
      }
      if o.capturePrices {
        CapturePrices(o, v);
      }
      if o.captureOrderbooks && currentArchiveBytes < Quota(o) {
        CaptureOrderbook(o, v);
      }
    }

    method CaptureAll(o: Options, visits: seq<Visit>)
      modifies this
      ensures Now() == Run(o, old(Now()), visits)
    {
      hide TokenStep;
      assert visits[..|visits|] == visits;
      for i := 0 to |visits|
        invariant Now() == Run(o, old(Now()), visits[..i])
      {
        assert visits[..i + 1][..i] == visits[..i];
        CaptureToken(o, visits[i]);
      }
    }

    /**
     One cycle. A refused cycle and a dry run leave the archive alone: without an allowlist any cycle is refused, and
     without a lane or a token a capture is. A capture reports the directory's own size and succeeds exactly when no
     lane failed and some record was written; one that wrote nothing says so last, and whether the limit was why.
     */
    method RunPolymarketResearchCycle(o: Options, markets: seq<Market>, allowlist: set<string>, answers: nat -> Answer)
      returns (outcome: Outcome)
      modifies this
      ensures outcome.Refused? || outcome.Plan? ==> Now() == old(Now())
      ensures outcome.Refused? && outcome.why.EmptyAllowlist? <==> allowlist == {}
      ensures outcome.Refused? && outcome.why.NoCaptureLane? <==>
              allowlist != {} && o.execute && !o.capturePrices && !o.captureOrderbooks
      ensures var selected := Take(AllAllowed(markets, allowlist), Limit(o.maxTokens));
              && (outcome.Refused? && outcome.why.NoActiveToken? <==>
                  allowlist != {} && o.execute && (o.capturePrices || o.captureOrderbooks) && selected == [])
              && (outcome.Plan? <==> allowlist != {} && !o.execute) && (outcome.Plan? ==> outcome.selected == selected)
              && (outcome.Captured? ==>
                    var end := Run(o, Start(old(files)), Visits(selected, answers));
                    var nothing := end.pricesWritten == 0 && end.snapshots == 0;
                    && Now() == end.(errors := end.errors + if nothing then [NothingCaptured(end.skipped > 0)] else [])
                    && (outcome.ok <==> end.errors == [] && !nothing) && outcome.archiveBytes == Total(files))
    {
      hide AllAllowed, Run, Limit, Total;
      if allowlist == {} {
        return Refused(EmptyAllowlist);
      }
      var selected := SelectScopedActiveTokens(markets, allowlist, o.maxTokens);
      if o.execute && !o.capturePrices && !o.captureOrderbooks {
        return Refused(NoCaptureLane);
      }
      if o.execute && selected == [] {
        return Refused(NoActiveToken);
      }
      if !o.execute {
        return Plan(selected);
      }
      var bytes := DirectoryBytes(files);
      currentArchiveBytes, errors := bytes, [];
      pricesWritten, snapshotsWritten, rowsPruned, skippedStorageLimit := 0, 0, 0, 0;
      CaptureAll(o, Visits(selected, answers));
      if pricesWritten == 0 && snapshotsWritten == 0 {
        errors := errors + [NothingCaptured(skippedStorageLimit > 0)];
      }
      bytes := DirectoryBytes(files);
      outcome := Captured(errors == [], bytes);
    }
  }
}
