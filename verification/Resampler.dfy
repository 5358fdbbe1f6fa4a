/**
 Resampling daily bars into calendar weeks or months (resampleDaily in tools/strategies/rsi_reversal_signal.js). The
 input bars are values; the output holds copies, objects that are updated in place while their week or month goes on.
 */
module Resampler {
  import opened Wrappers
  import opened Calendar
  import opened Extrema

  const MS_PER_DAY := 86_400_000

  /** The content of a bar. */
  datatype Ohlcv = Ohlcv(timestamp: int, open: real, high: real, low: real, close: real, volume: real)

  /** How a bar's time is assigned to its week or month. */
  type KeyFn = int -> Key

  function KeyFor(tf: Timeframe): KeyFn {
    (timestamp: int) => KeyOf(timestamp / MS_PER_DAY, tf)
  }


  // ---- what resampling means ----

  /** The bars cut into maximal stretches of one key. */
  function Groups(bars: seq<Ohlcv>, keyFn: KeyFn): (gs: seq<seq<Ohlcv>>)
    ensures bars != [] ==> gs != [] && gs[|gs| - 1] != [] && gs[|gs| - 1][|gs[|gs| - 1]| - 1] == bars[|bars| - 1]
    ensures bars == [] ==> gs == []
  {
    if bars == [] then [] else
      var n := |bars| - 1;
      var gs := Groups(bars[..n], keyFn);
      if n > 0 && keyFn(bars[n - 1].timestamp) == keyFn(bars[n].timestamp)
        then gs[..|gs| - 1] + [gs[|gs| - 1] + [bars[n]]]
      else gs + [[bars[n]]]
  }

  function Highest(g: seq<Ohlcv>): real
    requires g != []
  {
    if |g| == 1 then g[0].high else Max(Highest(g[..|g| - 1]), g[|g| - 1].high)
  }

  function Lowest(g: seq<Ohlcv>): real
    requires g != []
  {
    if |g| == 1 then g[0].low else Min(Lowest(g[..|g| - 1]), g[|g| - 1].low)
  }

  function Volume(g: seq<Ohlcv>): real {
    if g == [] then 0.0 else Volume(g[..|g| - 1]) + g[|g| - 1].volume
  }

  /** First open, highest high, lowest low, last close and time, summed volume. */
  function Merge(g: seq<Ohlcv>): Ohlcv
    requires g != []
  {
    Ohlcv(g[|g| - 1].timestamp, g[0].open, Highest(g), Lowest(g), g[|g| - 1].close, Volume(g))
  }

  ghost predicate NonEmptyGroups(gs: seq<seq<Ohlcv>>) {
    forall i :: 0 <= i < |gs| ==> gs[i] != []
  }

  lemma {:induction false} GroupsNonEmpty(bars: seq<Ohlcv>, keyFn: KeyFn)
    ensures NonEmptyGroups(Groups(bars, keyFn))
  {
    if bars != [] {
      GroupsNonEmpty(bars[..|bars| - 1], keyFn);
    }
  }

  function Merged(gs: seq<seq<Ohlcv>>): seq<Ohlcv>
    requires NonEmptyGroups(gs)
  {
    seq(|gs|, i requires 0 <= i < |gs| => Merge(gs[i]))
  }

  function Resampled(bars: seq<Ohlcv>, keyFn: KeyFn): seq<Ohlcv> {
    GroupsNonEmpty(bars, keyFn);
    Merged(Groups(bars, keyFn))
  }

  // ---- the streaming code ----

  class Bar {
    var timestamp: int
    var open: real
    var high: real
    var low: real
    var close: real
    var volume: real

    ghost function Value(): Ohlcv
      reads this
    {
      Ohlcv(timestamp, open, high, low, close, volume)
    }

    constructor Copy(bar: Ohlcv)
      ensures Value() == bar
    {
      timestamp, open, high, low, close, volume := bar.timestamp, bar.open, bar.high, bar.low, bar.close, bar.volume;
    }

    /** The update of a running group by one more bar of its week or month. */
    method Absorb(bar: Ohlcv)
      modifies this
      ensures Value() == Extended(old(Value()), bar)
    {
      high := Max(high, bar.high);
      low := Min(low, bar.low);
      close := bar.close;
      volume := volume + bar.volume;
      timestamp := bar.timestamp;
    }
  }

  /** The objects are distinct and hold these contents. */
  ghost predicate Hold(out: seq<Bar>, values: seq<Ohlcv>)
    reads out
  {
    && |out| == |values|
    && (forall j :: 0 <= j < |out| ==> out[j].Value() == values[j])
    && (forall j, k :: 0 <= j < k < |out| ==> out[j] != out[k])
  }

  method AppendCopy(out: seq<Bar>, bar: Ohlcv, ghost values: seq<Ohlcv>) returns (more: seq<Bar>)
    requires Hold(out, values)
    ensures Hold(more, values + [bar])
    ensures |more| == |out| + 1 && out <= more && fresh(more[|out|])
  {
    var copy := new Bar.Copy(bar);
    more := out + [copy];
  }

  /** Absorbing into the last output bar leaves the others as they are. */
  method ExtendLast(out: seq<Bar>, bar: Ohlcv, ghost values: seq<Ohlcv>)
    requires out != [] && Hold(out, values)
    modifies out[|out| - 1]
    ensures Hold(out, values[|out| - 1 := Extended(values[|out| - 1], bar)])
  {
    var group := out[|out| - 1];
    group.Absorb(bar);
  }

  /** The in-place resampler computes the group-by. */
  method ResampleDaily(bars: seq<Ohlcv>, tf: Timeframe) returns (out: seq<Bar>)
    ensures Hold(out, Resampled(bars, KeyFor(tf)))
    ensures forall j :: 0 <= j < |out| ==> fresh(out[j])
  {
    var keyFn := KeyFor(tf);
    out := [];
    NothingResampled(keyFn);
    hide Resampled, Extended, KeyFor;
    ghost var done: seq<Ohlcv> := [];
    var currentKey: Option<Key> := None;
    for i := 0 to |bars|
      invariant forall j :: 0 <= j < |out| ==> fresh(out[j])
      invariant Hold(out, done) && done == Resampled(bars[..i], keyFn)
      invariant if i == 0 then currentKey == None else done != [] && currentKey == Some(keyFn(bars[i - 1].timestamp))
    {
      var bar := bars[i];
      var key := keyFn(bar.timestamp);
      ResampleOne(bars, i, keyFn);
      if currentKey != Some(key) {
        out := AppendCopy(out, bar, done);
        currentKey := Some(key);
        done := done + [bar];
      } else {
        ExtendLast(out, bar, done);
        done := done[|done| - 1 := Extended(done[|done| - 1], bar)];
      }
    }
    assert bars[..|bars|] == bars;
  }

  /** The merged group after one more bar. */
  function Extended(m: Ohlcv, b: Ohlcv): Ohlcv {
    Ohlcv(b.timestamp, m.open, Max(m.high, b.high), Min(m.low, b.low), b.close, m.volume + b.volume)
  }

  lemma ResampleOne(bars: seq<Ohlcv>, i: nat, keyFn: KeyFn)
    requires i < |bars|
    ensures var before := Resampled(bars[..i], keyFn);
            && (i > 0 ==> before != [])
            && Resampled(bars[..i + 1], keyFn) ==
               if i > 0 && keyFn(bars[i - 1].timestamp) == keyFn(bars[i].timestamp)
               then before[|before| - 1 := Extended(before[|before| - 1], bars[i])]
               else before + [bars[i]]
  {
    hide Merge;
    assert bars[..i + 1][..i] == bars[..i];
    GroupsNonEmpty(bars[..i], keyFn);
    GroupsNonEmpty(bars[..i + 1], keyFn);
    var gs, more := Groups(bars[..i], keyFn), Groups(bars[..i + 1], keyFn);
    if i > 0 && keyFn(bars[i - 1].timestamp) == keyFn(bars[i].timestamp) {
      var g := gs[|gs| - 1];
      MergeOneMore(g, bars[i]);
    } else {
      MergeSingle(bars[i]);
    }
  }

  lemma MergeOneMore(g: seq<Ohlcv>, b: Ohlcv)
    requires g != []
    ensures Merge(g + [b]) == Extended(Merge(g), b)
  {
    assert (g + [b])[..|g|] == g;
  }

  lemma MergeSingle(b: Ohlcv)
    ensures Merge([b]) == b
  {
    assert [b][..0] == [] && Volume([]) == 0.0;
    assert Volume([b]) == Volume([b][..0]) + b.volume;
  }

  // ---- the group-by ----

  function Concat(gs: seq<seq<Ohlcv>>): seq<Ohlcv> {
    if gs == [] then [] else Concat(gs[..|gs| - 1]) + gs[|gs| - 1]
  }

  ghost predicate OneKey(g: seq<Ohlcv>, keyFn: KeyFn) {
    forall i :: 0 <= i < |g| ==> keyFn(g[i].timestamp) == keyFn(g[|g| - 1].timestamp)
  }

  /** A partition of the bars, in order, into stretches of one key, neighbours having different keys. */
  ghost predicate Stretches(gs: seq<seq<Ohlcv>>, bars: seq<Ohlcv>, keyFn: KeyFn) {
    && NonEmptyGroups(gs)
    && Concat(gs) == bars
    && (forall i :: 0 <= i < |gs| ==> OneKey(gs[i], keyFn))
    && (forall i, j :: 0 <= i < |gs| && j == i + 1 && j < |gs| ==> GroupKey(gs[i], keyFn) != GroupKey(gs[j], keyFn))
  }

  function GroupKey(g: seq<Ohlcv>, keyFn: KeyFn): Key {
    if g == [] then Week(0) else keyFn(g[|g| - 1].timestamp)
  }

  lemma {:induction false} GroupsPartition(bars: seq<Ohlcv>, keyFn: KeyFn)
    ensures Stretches(Groups(bars, keyFn), bars, keyFn)
  {
    hide Stretches;
    if bars == [] {
      NoStretches(keyFn);
    } else {
      var n := |bars| - 1;
      GroupsPartition(bars[..n], keyFn);
      assert bars == bars[..n] + [bars[n]];
      if n > 0 && keyFn(bars[n - 1].timestamp) == keyFn(bars[n].timestamp) {
        LongerStretch(Groups(bars[..n], keyFn), bars[..n], bars[n], keyFn);
      } else {
        NewStretch(Groups(bars[..n], keyFn), bars[..n], bars[n], keyFn);
      }
    }
  }

  lemma NoStretches(keyFn: KeyFn)
    ensures Stretches([], [], keyFn)
  {
  }

  lemma NewStretch(gs: seq<seq<Ohlcv>>, bars: seq<Ohlcv>, b: Ohlcv, keyFn: KeyFn)
    requires Stretches(gs, bars, keyFn)
    requires gs != [] ==> GroupKey(gs[|gs| - 1], keyFn) != keyFn(b.timestamp)
    ensures Stretches(gs + [[b]], bars + [b], keyFn)
  {
    var more := gs + [[b]];
    assert more[..|more| - 1] == gs;
    assert Concat(more) == bars + [b];
  }

  lemma LongerStretch(gs: seq<seq<Ohlcv>>, bars: seq<Ohlcv>, b: Ohlcv, keyFn: KeyFn)
    requires Stretches(gs, bars, keyFn)
    requires gs != [] && GroupKey(gs[|gs| - 1], keyFn) == keyFn(b.timestamp)
    ensures Stretches(gs[..|gs| - 1] + [gs[|gs| - 1] + [b]], bars + [b], keyFn)
  {
    var more := gs[..|gs| - 1] + [gs[|gs| - 1] + [b]];
    assert more[..|more| - 1] == gs[..|gs| - 1];
    var last := more[|more| - 1];
    assert OneKey(last, keyFn);
    assert Concat(more) == bars + [b];
  }

  /** Volume is conserved. */
  lemma VolumeConserved(bars: seq<Ohlcv>, keyFn: KeyFn)
    ensures Volume(Resampled(bars, keyFn)) == Volume(bars)
  {
    GroupsPartition(bars, keyFn);
    MergedVolume(Groups(bars, keyFn));
  }

  lemma {:induction false} MergedVolume(gs: seq<seq<Ohlcv>>)
    requires NonEmptyGroups(gs)
    ensures Volume(Merged(gs)) == Volume(Concat(gs))
  {
    if gs != [] {
      var n := |gs| - 1;
      MergedVolume(gs[..n]);
      VolumeOfConcat(Concat(gs[..n]), gs[n]);
      assert Merged(gs)[..n] == Merged(gs[..n]);
    }
  }

  lemma {:induction false} VolumeOfConcat(a: seq<Ohlcv>, b: seq<Ohlcv>)
    ensures Volume(a + b) == Volume(a) + Volume(b)
  {
    if b == [] {
      assert a + b == a;
    } else {
      VolumeOfConcat(a, b[..|b| - 1]);
      assert (a + b)[..|a + b| - 1] == a + b[..|b| - 1];
    }
  }

  /** A merged bar bounds all bars of its group, and attains the bounds. */
  lemma {:induction false} MergeBounds(g: seq<Ohlcv>)
    requires g != []
    ensures forall b <- g :: Lowest(g) <= b.low && b.high <= Highest(g)
    ensures (exists b <- g :: b.high == Highest(g)) && exists b <- g :: b.low == Lowest(g)
  {
    var n := |g| - 1;
    assert g[n] in g;
    if n > 0 {
      MergeBounds(g[..n]);
      assert g == g[..n] + [g[n]];
      OneMoreBound(g[..n], g[n], Highest(g[..n]), Lowest(g[..n]));
    }
  }

  lemma OneMoreBound(g: seq<Ohlcv>, last: Ohlcv, high: real, low: real)
    requires forall b <- g :: low <= b.low && b.high <= high
    requires (exists b <- g :: b.high == high) && exists b <- g :: b.low == low
    ensures forall b <- g + [last] :: Min(low, last.low) <= b.low && b.high <= Max(high, last.high)
    ensures exists b <- g + [last] :: b.high == Max(high, last.high)
    ensures exists b <- g + [last] :: b.low == Min(low, last.low)
  {
    var h :| h in g && h.high == high;
    var l :| l in g && l.low == low;
    assert h in g + [last] && l in g + [last] && last in g + [last];
  }

  /** A bar that opens with the first bar of a group, closes with and is dated by the last, and spans them all. */
  ghost predicate Summarizes(bar: Ohlcv, g: seq<Ohlcv>) {
    && g != []
    && bar.open == g[0].open && bar.close == g[|g| - 1].close && bar.timestamp == g[|g| - 1].timestamp
    && (forall b <- g :: bar.low <= b.low && b.high <= bar.high)
    && (exists b <- g :: b.high == bar.high) && (exists b <- g :: b.low == bar.low)
    && bar.volume == Volume(g)
  }

  lemma MergeSummarizes(g: seq<Ohlcv>)
    requires g != []
    ensures Summarizes(Merge(g), g)
  {
    hide Highest, Lowest, Volume;
    MergeBounds(g);
  }

  // ---- resampling twice ----

  lemma {:induction false} AlreadyResampled(bars: seq<Ohlcv>, keyFn: KeyFn)
    requires forall i :: 0 < i < |bars| ==> keyFn(bars[i - 1].timestamp) != keyFn(bars[i].timestamp)
    ensures Resampled(bars, keyFn) == bars
  {
    hide Resampled;
    if bars == [] {
      NothingResampled(keyFn);
    } else {
      var n := |bars| - 1;
      AlreadyResampled(bars[..n], keyFn);
      ResampleOne(bars, n, keyFn);
      assert bars[..n + 1] == bars && bars == bars[..n] + [bars[n]];
    }
  }

  lemma NothingResampled(keyFn: KeyFn)
    ensures Resampled([], keyFn) == []
  {
  }

  /** Resampling a resampled series changes nothing. */
  lemma ResampleIsIdempotent(bars: seq<Ohlcv>, keyFn: KeyFn)
    ensures Resampled(Resampled(bars, keyFn), keyFn) == Resampled(bars, keyFn)
  {
    GroupsPartition(bars, keyFn);
    AlreadyResampled(Resampled(bars, keyFn), keyFn);
  }

  // ---- date-ordered bars ----

  ghost predicate DateOrdered(bars: seq<Ohlcv>) {
    forall i, j :: 0 <= i < j < |bars| ==> bars[i].timestamp <= bars[j].timestamp
  }

  /** Keys never go back. */
  ghost predicate Advancing(bars: seq<Ohlcv>, keyFn: KeyFn) {
    forall i, j :: 0 <= i < |bars| && j == i + 1 && j < |bars| ==>
      keyFn(bars[i].timestamp) == keyFn(bars[j].timestamp) || Before(keyFn(bars[i].timestamp), keyFn(bars[j].timestamp))
  }

  /** No weekly bar of a year that the week key moves to another century. */
  ghost predicate Keyable(bars: seq<Ohlcv>, tf: Timeframe) {
    tf.Weekly? ==> forall i :: 0 <= i < |bars| ==> !Early(bars[i].timestamp / MS_PER_DAY)
  }

  lemma DateOrderedAdvances(bars: seq<Ohlcv>, tf: Timeframe)
    requires DateOrdered(bars) && Keyable(bars, tf)
    ensures Advancing(bars, KeyFor(tf))
  {
    hide KeyOf, Before, Early;
    var keyFn := KeyFor(tf);
    forall i, j | 0 <= i < |bars| && j == i + 1 && j < |bars|
      ensures keyFn(bars[i].timestamp) == keyFn(bars[j].timestamp)
           || Before(keyFn(bars[i].timestamp), keyFn(bars[j].timestamp))
    {
      KeyIsMonotone(bars[i].timestamp / MS_PER_DAY, bars[j].timestamp / MS_PER_DAY, tf);
    }
  }

  function WithKey(bars: seq<Ohlcv>, key: Key, keyFn: KeyFn): seq<Ohlcv> {
    if bars == [] then []
    else if keyFn(bars[|bars| - 1].timestamp) == key then WithKey(bars[..|bars| - 1], key, keyFn) + [bars[|bars| - 1]]
    else WithKey(bars[..|bars| - 1], key, keyFn)
  }

  ghost predicate KeysAscend(gs: seq<seq<Ohlcv>>, keyFn: KeyFn) {
    forall i, j :: 0 <= i < j < |gs| ==> Before(GroupKey(gs[i], keyFn), GroupKey(gs[j], keyFn))
  }

  ghost predicate WholeKeys(gs: seq<seq<Ohlcv>>, bars: seq<Ohlcv>, keyFn: KeyFn) {
    forall i :: 0 <= i < |gs| ==> gs[i] == WithKey(bars, GroupKey(gs[i], keyFn), keyFn)
  }

  ghost predicate EveryKey(gs: seq<seq<Ohlcv>>, bars: seq<Ohlcv>, keyFn: KeyFn) {
    forall b <- bars :: exists i :: 0 <= i < |gs| && GroupKey(gs[i], keyFn) == keyFn(b.timestamp)
  }

  /** On date-ordered bars the groups come in strictly ascending key order, and each one holds exactly the bars of its
      key. */
  ghost predicate Grouped(gs: seq<seq<Ohlcv>>, bars: seq<Ohlcv>, keyFn: KeyFn) {
    NonEmptyGroups(gs) && KeysAscend(gs, keyFn) && WholeKeys(gs, bars, keyFn) && EveryKey(gs, bars, keyFn)
  }

  lemma {:induction false} OrderedGroups(bars: seq<Ohlcv>, keyFn: KeyFn)
    requires Advancing(bars, keyFn)
    ensures Grouped(Groups(bars, keyFn), bars, keyFn)
  {
    hide Before, Grouped;
    if bars == [] {
      NothingGrouped(keyFn);
    } else {
      var n := |bars| - 1;
      OrderedGroups(bars[..n], keyFn);
      assert bars == bars[..n] + [bars[n]];
      if n > 0 && keyFn(bars[n - 1].timestamp) == keyFn(bars[n].timestamp) {
        GroupGrows(Groups(bars[..n], keyFn), bars[..n], bars[n], keyFn);
      } else {
        GroupOpens(Groups(bars[..n], keyFn), bars[..n], bars[n], keyFn);
      }
    }
  }

  lemma NothingGrouped(keyFn: KeyFn)
    ensures Grouped([], [], keyFn)
  {
  }

  lemma WithNewKey(bars: seq<Ohlcv>, b: Ohlcv, k: Key, keyFn: KeyFn)
    ensures WithKey(bars + [b], k, keyFn) == if keyFn(b.timestamp) == k then WithKey(bars, k, keyFn) + [b]
            else WithKey(bars, k, keyFn)
  {
    assert (bars + [b])[..|bars|] == bars;
  }

  lemma {:induction false} NoneWithKey(bars: seq<Ohlcv>, k: Key, keyFn: KeyFn)
    requires forall b <- bars :: keyFn(b.timestamp) != k
    ensures WithKey(bars, k, keyFn) == []
  {
    if bars != [] {
      NoneWithKey(bars[..|bars| - 1], k, keyFn);
    }
  }

  /** A key after the last one is new. */
  lemma KeyIsNew(gs: seq<seq<Ohlcv>>, bars: seq<Ohlcv>, key: Key, keyFn: KeyFn)
    requires Grouped(gs, bars, keyFn) && (gs != [] ==> Before(GroupKey(gs[|gs| - 1], keyFn), key))
    ensures forall i :: 0 <= i < |gs| ==> Before(GroupKey(gs[i], keyFn), key) && GroupKey(gs[i], keyFn) != key
    ensures WithKey(bars, key, keyFn) == []
  {
    hide Before, WithKey, GroupKey;
    forall i | 0 <= i < |gs| ensures Before(GroupKey(gs[i], keyFn), key) && GroupKey(gs[i], keyFn) != key {
      BeforeIsStrictOrder(GroupKey(gs[i], keyFn), GroupKey(gs[|gs| - 1], keyFn), key);
      BeforeIsStrictOrder(key, key, key);
    }
    forall x | x in bars ensures keyFn(x.timestamp) != key {
      var i :| 0 <= i < |gs| && GroupKey(gs[i], keyFn) == keyFn(x.timestamp);
    }
    NoneWithKey(bars, key, keyFn);
  }

  /** Groups with the keys of `gs`, and the new bar's key, have every key. */
  lemma EveryKeyGrows(gs: seq<seq<Ohlcv>>, more: seq<seq<Ohlcv>>, bars: seq<Ohlcv>, b: Ohlcv, keyFn: KeyFn)
    requires EveryKey(gs, bars, keyFn) && |gs| <= |more| && more != []
    requires forall i :: 0 <= i < |gs| ==> GroupKey(more[i], keyFn) == GroupKey(gs[i], keyFn)
    requires GroupKey(more[|more| - 1], keyFn) == keyFn(b.timestamp)
    ensures EveryKey(more, bars + [b], keyFn)
  {
    hide GroupKey;
    forall x | x in bars + [b] ensures exists i :: 0 <= i < |more| && GroupKey(more[i], keyFn) == keyFn(x.timestamp) {
      if x in bars {
        var i :| 0 <= i < |gs| && GroupKey(gs[i], keyFn) == keyFn(x.timestamp);
        assert GroupKey(more[i], keyFn) == keyFn(x.timestamp);
      } else {
        assert GroupKey(more[|more| - 1], keyFn) == keyFn(b.timestamp);
      }
    }
  }

  lemma GroupOpens(gs: seq<seq<Ohlcv>>, bars: seq<Ohlcv>, b: Ohlcv, keyFn: KeyFn)
    requires Grouped(gs, bars, keyFn)
    requires gs != [] ==> Before(GroupKey(gs[|gs| - 1], keyFn), keyFn(b.timestamp))
    ensures Grouped(gs + [[b]], bars + [b], keyFn)
  {
    hide Before, WithKey, EveryKey;
    var more, key := gs + [[b]], keyFn(b.timestamp);
    KeyIsNew(gs, bars, key, keyFn);
    forall i | 0 <= i < |more| ensures more[i] == WithKey(bars + [b], GroupKey(more[i], keyFn), keyFn) {
      WithNewKey(bars, b, GroupKey(more[i], keyFn), keyFn);
    }
    EveryKeyGrows(gs, more, bars, b, keyFn);
  }

  lemma GroupGrows(gs: seq<seq<Ohlcv>>, bars: seq<Ohlcv>, b: Ohlcv, keyFn: KeyFn)
    requires Grouped(gs, bars, keyFn)
    requires gs != [] && GroupKey(gs[|gs| - 1], keyFn) == keyFn(b.timestamp)
    ensures Grouped(gs[..|gs| - 1] + [gs[|gs| - 1] + [b]], bars + [b], keyFn)
  {
    hide Before, WithKey, EveryKey;
    var m, key := |gs| - 1, keyFn(b.timestamp);
    var more := gs[..m] + [gs[m] + [b]];
    assert forall i :: 0 <= i < |more| ==> GroupKey(more[i], keyFn) == GroupKey(gs[i], keyFn);
    forall i | 0 <= i < |more| ensures more[i] == WithKey(bars + [b], GroupKey(more[i], keyFn), keyFn) {
      WithNewKey(bars, b, GroupKey(more[i], keyFn), keyFn);
      BeforeIsStrictOrder(key, key, key);
    }
    EveryKeyGrows(gs, more, bars, b, keyFn);
  }

  /** Main result: on date-ordered bars the resampler is the group-by of the calendar: its bars have strictly ascending
      keys, every key of the input appears exactly once, and its bar merges all input bars of that key. */
  lemma ResampleIsGroupBy(bars: seq<Ohlcv>, tf: Timeframe)
    requires DateOrdered(bars) && Keyable(bars, tf)
    ensures var keyFn := KeyFor(tf);
            var out := Resampled(bars, keyFn);
            && (forall i, j :: 0 <= i < j < |out| ==> Before(keyFn(out[i].timestamp), keyFn(out[j].timestamp)))
            && (forall i :: 0 <= i < |out| ==>
                  var same := WithKey(bars, keyFn(out[i].timestamp), keyFn);
                  Summarizes(out[i], same))
            && (forall b <- bars :: exists i :: 0 <= i < |out| && keyFn(out[i].timestamp) == keyFn(b.timestamp))
  {
    DateOrderedAdvances(bars, tf);
    GroupByOfAdvancing(bars, KeyFor(tf));
  }

  lemma KeyOfMerged(g: seq<Ohlcv>, keyFn: KeyFn)
    requires g != []
    ensures keyFn(Merge(g).timestamp) == GroupKey(g, keyFn)
  {
    hide Highest, Lowest, Volume;
  }

  lemma GroupByOfAdvancing(bars: seq<Ohlcv>, keyFn: KeyFn)
    requires Advancing(bars, keyFn)
    ensures var out := Resampled(bars, keyFn);
            && (forall i, j :: 0 <= i < j < |out| ==> Before(keyFn(out[i].timestamp), keyFn(out[j].timestamp)))
            && (forall i :: 0 <= i < |out| ==>
                  var same := WithKey(bars, keyFn(out[i].timestamp), keyFn);
                  Summarizes(out[i], same))
            && (forall b <- bars :: exists i :: 0 <= i < |out| && keyFn(out[i].timestamp) == keyFn(b.timestamp))
  {
    hide Before, Groups, WithKey, Merge, GroupKey, Summarizes;
    OrderedGroups(bars, keyFn);
    var out, gs := Resampled(bars, keyFn), Groups(bars, keyFn);
    forall i | 0 <= i < |gs| ensures keyFn(out[i].timestamp) == GroupKey(gs[i], keyFn) && Summarizes(out[i], gs[i]) {
      KeyOfMerged(gs[i], keyFn);
      MergeSummarizes(gs[i]);
    }
    forall b | b in bars ensures exists i :: 0 <= i < |out| && keyFn(out[i].timestamp) == keyFn(b.timestamp) {
      var i :| 0 <= i < |gs| && GroupKey(gs[i], keyFn) == keyFn(b.timestamp);
      assert keyFn(out[i].timestamp) == keyFn(b.timestamp);
    }
  }
}
