/**
 Which settings of the research capture keep the archive within its quota, and its running counter right, whatever the
 directory holds and the fetches answer (backend/scripts/data_ops/polymarket_research_scheduler.js).
 */
module ArchiveSettings {
  import opened Extrema
  import opened Wrappers
  import opened PriceArchive
  import opened ArchiveQuota

  /** From every directory, every run of histories with this label ends within the quota, or what was there before. */
  ghost predicate QuotaKept(o: Options, source: string) {
    forall files: Files, visits: seq<Visit> :: AllLabelled(visits, source) ==>
      Total(Run(o, Start(files), visits).files) <= MaxInt(Total(files), Quota(o))
  }

  /** From every directory, after every run of such histories the counter is the directory's size. */
  ghost predicate CounterRight(o: Options, source: string) {
    forall files: Files, visits: seq<Visit> :: AllLabelled(visits, source) ==>
      Run(o, Start(files), visits).counter == Total(Run(o, Start(files), visits).files)
  }

  ghost predicate RowFits(o: Options, source: string, t: int, p: real) {
    t <= 10_000_000_000 && 0.0 <= p <= 1.0 && |Json(o.printer, [Row(t, p, source)])| <= Quota(o)
  }

  /** The quota has room for a series of one row. */
  ghost predicate SomeRowFits(o: Options, source: string) {
    exists t: int, p: real :: RowFits(o, source, t, p)
  }

  // ---- safe settings ----

  /** Without the price lane the counter is right. */
  lemma {:induction false} NoPriceLane(o: Options, s: State, visits: seq<Visit>)
    requires !o.capturePrices
    ensures RunSurplus(o, s, visits) == 0 && RunCacheGrowth(o, s, visits) == 0
  {
    hide Run, PriceSurplus, CacheGrowth;
    if visits != [] {
      NoPriceLane(o, s, visits[..|visits| - 1]);
    }
  }

  lemma FirstRowSize(pr: Printer, rows: seq<Row>)
    requires rows != []
    ensures |Json(pr, [rows[0]])| <= |Json(pr, rows)|
  {
    hide RowText;
    assert RowsText(pr, [rows[0]]) == RowText(pr, rows[0]);
  }

  /** A series with rows that fits the quota has a first row that does. */
  lemma FittingSeries(o: Options, v: Visit, source: string)
    requires v.history.History? && Labelled(v, source) && source != ""
    requires MeasuredRows(v.history) != [] && |Json(o.printer, MeasuredRows(v.history))| <= Quota(o)
    ensures SomeRowFits(o, source)
  {
    hide Json, Normalize, Quota;
    var rows := MeasuredRows(v.history);
    NormalizeIsNormal(v.history.points, source);
    PlausiblePoints(v.history.points, source);
    FirstRowSize(o.printer, rows);
    assert rows[0] == Row(rows[0].t, rows[0].p, source);
    assert RowFits(o, source, rows[0].t, rows[0].p);
  }

  lemma FileWithinTotal(files: Files, p: Path)
    ensures SizeAt(files, p) <= Total(files)
  {
    if p in files {
      TotalWithout(files, p);
    }
  }

  lemma StepWritesNothing(o: Options, s: State, v: Visit, source: string)
    requires !o.cacheInRoot && Labelled(v, source) && source != "" && !SomeRowFits(o, source)
    requires s.counter == Total(s.files)
    ensures PriceStep(o, s, v).pricesWritten == s.pricesWritten
  {
    hide Json, Written, MeasuredRows, Labelled, SomeRowFits, Total, Stem, CacheKey, Quota;
    if v.history.History? {
      FileWithinTotal(s.files, PriceFile(Stem(v.token)));
      if MeasuredRows(v.history) != [] && |Json(o.printer, MeasuredRows(v.history))| <= Quota(o) {
        FittingSeries(o, v, source);
      }
    }
  }

  /** If not even one row fits, and the cache lies elsewhere, no run writes a price row. */
  lemma {:induction false} NothingFits(o: Options, files: Files, visits: seq<Visit>, source: string)
    requires !o.cacheInRoot && AllLabelled(visits, source) && source != "" && !SomeRowFits(o, source)
    ensures Run(o, Start(files), visits).pricesWritten == 0
  {
    hide PriceStep, BookStep, Labelled, SomeRowFits, Total, Quota, Drift;
    if visits != [] {
      var n := |visits| - 1;
      NothingFits(o, files, visits[..n], source);
      var t := Run(o, Start(files), visits[..n]);
      DirectoryOfLabel(o, files, visits[..n], source);
      CacheOutside(o, Start(files), visits[..n]);
      StepWritesNothing(o, t, visits[n], source);
      BooksWriteNoPrices(o, if o.capturePrices then PriceStep(o, t, visits[n]) else t, visits[n]);
    }
  }

  // ---- one visit that goes wrong ----

  /** A directory with one file of the given size. */
  function Filler(size: nat): Files {
    map[OtherFile("filler") := seq(size, _ => 'x')]
  }

  lemma FillerTotal(size: nat)
    ensures Total(Filler(size)) == size
  {
    EmptyTotal();
    TotalUpdate(map[], OtherFile("filler"), seq(size, _ => 'x'));
    assert Filler(size) == map[][OtherFile("filler") := seq(size, _ => 'x')];
  }

  /** With the cache in the root, a cache file of two bytes overfills a directory one byte short of the quota. */
  lemma CacheOverflows(o: Options, source: string) returns (files: Files, v: Visit)
    requires source != "" && o.capturePrices && o.cacheInRoot
    ensures Labelled(v, source)
    ensures var end := Run(o, Start(files), [v]);
            Total(files) < Quota(o) && Total(end.files) > Quota(o) && end.counter == Total(files)
  {
    hide Run, Total, Stem, CacheKey, Quota;
    files := Filler(Quota(o) - 1);
    FillerTotal(Quota(o) - 1);
    v := Visit("", History([], source, Some("{}")), NoCapture);
    OneVisit(o, Start(files), v);
    assert MeasuredRows(v.history) == [];
    TotalUpdate(files, CacheFile(CacheKey(o, v.token)), "{}");
  }

  lemma OnePoint(t: int, p: real, source: string)
    requires t <= 10_000_000_000 && 0.0 <= p <= 1.0
    ensures Normalize([Point(t as real, p)], source) == [Row(t, p, source)]
  {
    assert [Point(t as real, p)][..0] == [];
  }

  /** A series of one row that exactly fills the directory is stored with its drift. */
  lemma RowDrifts(o: Options, source: string, t: int, p: real) returns (files: Files, v: Visit)
    requires source != "" && o.capturePrices && !o.cacheInRoot && RowFits(o, source, t, p)
    ensures Labelled(v, source)
    ensures var end := Run(o, Start(files), [v]);
            Total(files) <= Quota(o) && end.counter == Quota(o) && Total(end.files) == Quota(o) + Drift(source)
  {
    hide Run, Json, Written, Normalize, Total, Stem, CacheKey, Quota, Drift, AllLabelled;
    var size := |Json(o.printer, [Row(t, p, source)])|;
    files := Filler(Quota(o) - size);
    FillerTotal(Quota(o) - size);
    v := Visit("", History([Point(t as real, p)], source, None), NoCapture);
    OnePoint(t, p, source);
    JsonNotEmpty(o.printer, [Row(t, p, source)]);
    OneVisit(o, Start(files), v);
    OneLabelled(v, source);
    DirectoryOfLabel(o, files, [v], source);
    CacheOutside(o, Start(files), [v]);
  }

  // ---- exactly the safe settings ----

  /** Main result: the quota is kept from every directory and on every run exactly if the price lane is off, or the
      fetch's cache lies outside the root and either the stored label is no longer than the fetched one or no row fits
      at all. */
  lemma QuotaKeptExactly(o: Options, source: string)
    requires source != ""
    ensures QuotaKept(o, source) <==>
            !o.capturePrices || (!o.cacheInRoot && (Drift(source) <= 0 || !SomeRowFits(o, source)))
  {
    hide Run, AllLabelled, Labelled, Total, RunSurplus, RunCacheGrowth, RowFits, Drift, Quota;
    if !o.capturePrices || (!o.cacheInRoot && (Drift(source) <= 0 || !SomeRowFits(o, source))) {
      forall files: Files, visits: seq<Visit> | AllLabelled(visits, source)
        ensures Total(Run(o, Start(files), visits).files) <= MaxInt(Total(files), Quota(o))
      {
        SafeGap(o, files, visits, source);
        CounterWithinQuota(o, Start(files), visits);
      }
    } else if o.cacheInRoot {
      var files, v := CacheOverflows(o, source);
      OneLabelled(v, source);
      assert !(Total(Run(o, Start(files), [v]).files) <= MaxInt(Total(files), Quota(o)));
    } else {
      var t: int, p: real :| RowFits(o, source, t, p);
      var files, v := RowDrifts(o, source, t, p);
      OneLabelled(v, source);
      assert !(Total(Run(o, Start(files), [v]).files) <= MaxInt(Total(files), Quota(o)));
    }
  }

  /** With such settings the directory never holds more than the counter says. */
  lemma SafeGap(o: Options, files: Files, visits: seq<Visit>, source: string)
    requires source != "" && AllLabelled(visits, source)
    requires !o.capturePrices || (!o.cacheInRoot && (Drift(source) <= 0 || !SomeRowFits(o, source)))
    ensures var end := Run(o, Start(files), visits); Total(end.files) <= end.counter
  {
    hide Run, AllLabelled, Total, RunSurplus, RunCacheGrowth, SomeRowFits, Drift;
    if !o.capturePrices {
      CounterTracksDirectory(o, Start(files), visits);
      NoPriceLane(o, Start(files), visits);
    } else {
      DirectoryOfLabel(o, files, visits, source);
      CacheOutside(o, Start(files), visits);
      if Drift(source) > 0 {
        NothingFits(o, files, visits, source);
      } else {
        NoGain(Run(o, Start(files), visits).pricesWritten, Drift(source));
      }
    }
  }

  lemma NoGain(n: nat, d: int)
    requires d <= 0
    ensures n * d <= 0
  {
  }

  /** Main result: the counter is right from every directory and after every run exactly if the price lane is off, or
      the cache lies outside the root and either both labels have one length or no row fits at all. */
  lemma CounterRightExactly(o: Options, source: string)
    requires source != ""
    ensures CounterRight(o, source) <==>
            !o.capturePrices || (!o.cacheInRoot && (|source| == |DEFAULT_SOURCE| || !SomeRowFits(o, source)))
  {
    hide Run, AllLabelled, Labelled, Total, RunSurplus, RunCacheGrowth, RowFits, Quota;
    if !o.capturePrices || (!o.cacheInRoot && (|source| == |DEFAULT_SOURCE| || !SomeRowFits(o, source))) {
      forall files: Files, visits: seq<Visit> | AllLabelled(visits, source)
        ensures Run(o, Start(files), visits).counter == Total(Run(o, Start(files), visits).files)
      {
        NoGap(o, files, visits, source);
      }
    } else if o.cacheInRoot {
      var files, v := CacheOverflows(o, source);
      OneLabelled(v, source);
      assert !(Run(o, Start(files), [v]).counter == Total(Run(o, Start(files), [v]).files));
    } else {
      var t: int, p: real :| RowFits(o, source, t, p);
      var files, v := RowDrifts(o, source, t, p);
      OneLabelled(v, source);
      assert !(Run(o, Start(files), [v]).counter == Total(Run(o, Start(files), [v]).files));
    }
  }

  lemma NoGap(o: Options, files: Files, visits: seq<Visit>, source: string)
    requires source != "" && AllLabelled(visits, source)
    requires !o.capturePrices || (!o.cacheInRoot && (|source| == |DEFAULT_SOURCE| || !SomeRowFits(o, source)))
    ensures var end := Run(o, Start(files), visits); Total(end.files) == end.counter
  {
    hide Run, AllLabelled, Total, RunSurplus, RunCacheGrowth, SomeRowFits;
    if !o.capturePrices {
      CounterTracksDirectory(o, Start(files), visits);
      NoPriceLane(o, Start(files), visits);
    } else {
      DirectoryOfLabel(o, files, visits, source);
      CacheOutside(o, Start(files), visits);
      if |source| != |DEFAULT_SOURCE| {
        NothingFits(o, files, visits, source);
      }
    }
  }
}
