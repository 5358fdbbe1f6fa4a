/**
 The dataset list of the sweep command (parseSweepDatasets in backend/cpp_core/src/main.cpp): comma-separated entries
 FAMILY:SYMBOL@TIMEFRAME#SHA512. Strings are byte strings.
 */
module SweepDatasets {
  import opened Wrappers
  import opened Getline

  const HASH_LENGTH := 128

  datatype Dataset = Dataset(family: string, symbol: string, timeframe: string, fingerprint: string)

  datatype Error = MissingOption | BadShape | BadFingerprint | NoDataset

  datatype Result<T> = Ok(value: T) | Err(error: Error)

  // ---- searching ----

  /** The last position of a character, or -1. */
  function FindLast(s: string, c: char): (i: int)
    ensures -1 <= i < |s|
    ensures i >= 0 ==> s[i] == c && c !in s[i + 1..]
    ensures i == -1 <==> c !in s
  {
    if s == [] then -1
    else
      var n := |s| - 1;
      assert s == s[..n] + [s[n]];
      if s[n] == c then n
      else
        var i := FindLast(s[..n], c);
        assert i >= 0 ==> s[i + 1..] == s[..n][i + 1..] + [s[n]];
        i
  }

  lemma {:induction false} FindLastIs(s: string, c: char, i: nat)
    requires i < |s| && s[i] == c && c !in s[i + 1..]
    ensures FindLast(s, c) == i
  {
    var n := |s| - 1;
    if i < n {
      assert s[i + 1..] == s[..n][i + 1..] + [s[n]];
      FindLastIs(s[..n], c, i);
    }
  }

  // ---- parsing ----

  predicate IsHexDigit(c: char) {
    '0' <= c <= '9' || 'a' <= c <= 'f' || 'A' <= c <= 'F'
  }

  function LowerChar(c: char): char {
    if 'A' <= c <= 'Z' then c - 'A' + 'a' else c
  }

  function Lower(s: string): string {
    seq(|s|, i requires 0 <= i < |s| => LowerChar(s[i]))
  }

  predicate IsHex(s: string) {
    forall i :: 0 <= i < |s| ==> IsHexDigit(s[i])
  }

  predicate IsLowerHex(s: string) {
    forall i :: 0 <= i < |s| ==> '0' <= s[i] <= '9' || 'a' <= s[i] <= 'f'
  }

  function ParseItem(item: string): Result<Dataset> {
    var colon, at, hash := Find(item, ':'), FindLast(item, '@'), FindLast(item, '#');
    if colon == -1 || at == -1 || hash == -1 || colon == 0 || at <= colon + 1 || hash <= at + 1
       || hash + HASH_LENGTH + 1 != |item| then Err(BadShape)
    else if !IsHex(item[hash + 1..]) then Err(BadFingerprint)
    else Ok(Dataset(item[..colon], item[colon + 1..at], item[at + 1..hash], Lower(item[hash + 1..])))
  }

  /** The entries parsed before the first bad one, and that one's error. */
  function ParseItems(items: seq<string>): (seq<Dataset>, Option<Error>) {
    if items == [] then ([], None)
    else
      var first := ParseItem(items[0]);
      if first.Err? then ([], Some(first.error))
      else
        var more := ParseItems(items[1..]);
        ([first.value] + more.0, more.1)
  }

  function Parse(raw: string): Result<seq<Dataset>> {
    if raw == "" then Err(MissingOption)
    else
      var r := ParseItems(Items(raw, ','));
      if r.1.Some? then Err(r.1.value) else Ok(r.0)
  }

  method ParseEntry(item: string) returns (r: Result<Dataset>)
    ensures r == ParseItem(item)
  {
    hide Find, FindLast, IsHex, Lower;
    var colon, at, hash := Find(item, ':'), FindLast(item, '@'), FindLast(item, '#');
    if colon == -1 || at == -1 || hash == -1 || colon == 0 || at <= colon + 1 || hash <= at + 1
      || hash + 129 != |item| {
      return Err(BadShape);
    }
    var fingerprint := item[hash + 1..];
    if !IsHex(fingerprint) {
      return Err(BadFingerprint);
    }
    fingerprint := Lower(fingerprint);
    return Ok(Dataset(item[..colon], item[colon + 1..at], item[at + 1..hash], fingerprint));
  }

  /** The caller's list keeps the entries read before an error. The complaint about an empty list is never made. */
  method ParseSweepDatasets(raw: string) returns (ok: bool, datasets: seq<Dataset>, error: Error)
    ensures ok <==> Parse(raw).Ok?
    ensures ok ==> datasets == Parse(raw).value
    ensures !ok ==> error == Parse(raw).error && error != NoDataset && datasets == ParseItems(Items(raw, ',')).0
  {
    hide FirstPiece, RestOfStream, ParseItem, Items, ParseItems;
    datasets := [];
    error := NoDataset;
    NothingLeft();
    if raw == "" {
      return false, [], MissingOption;
    }
    var stream := raw;
    while stream != ""
      invariant ParseItems(Items(raw, ',')).0 == datasets + ParseItems(Items(stream, ',')).0
      invariant ParseItems(Items(raw, ',')).1 == ParseItems(Items(stream, ',')).1
      invariant stream == "" ==> datasets != []
      decreases |stream|
    {
      var item := FirstPiece(stream, ',');
      NextPiece(stream);
      var entry := ParseEntry(item);
      if entry.Err? {
        ErrorsAreSpecific(item);
        return false, datasets, entry.error;
      }
      stream := RestOfStream(stream, ',');
      datasets := datasets + [entry.value];
    }
    if datasets == [] {
      return false, datasets, NoDataset;
    }
    return true, datasets, error;
  }

  lemma NothingLeft()
    ensures ParseItems(Items("", ',')) == ([], None)
  {
  }

  lemma NextPiece(stream: string)
    requires stream != ""
    ensures var r, first, more := ParseItems(Items(stream, ',')), ParseItem(FirstPiece(stream, ',')),
            ParseItems(Items(RestOfStream(stream, ','), ','));
            if first.Ok? then r.0 == [first.value] + more.0 && r.1 == more.1 else r == ([], Some(first.error))
  {
    hide FirstPiece, RestOfStream, ParseItem;
    var rest := Items(RestOfStream(stream, ','), ',');
    assert Items(stream, ',') == [FirstPiece(stream, ',')] + rest;
    assert ([FirstPiece(stream, ',')] + rest)[1..] == rest;
  }

  lemma ErrorsAreSpecific(item: string)
    ensures ParseItem(item).Err? ==> ParseItem(item).error in {BadFingerprint, BadShape}
  {
  }

  // ---- printing ----

  /** The entries the syntax can express. */
  predicate ValidEntry(d: Dataset) {
    && d.family != "" && ':' !in d.family && ',' !in d.family
    && d.symbol != "" && ',' !in d.symbol
    && d.timeframe != "" && '@' !in d.timeframe && ',' !in d.timeframe
    && |d.fingerprint| == HASH_LENGTH && IsLowerHex(d.fingerprint)
  }

  /** An entry with its fingerprint spelled in a given case. */
  function Print(d: Dataset, fingerprint: string): string {
    d.family + ":" + d.symbol + "@" + d.timeframe + "#" + fingerprint
  }

  /** The text spells the entry, up to the case of the fingerprint. */
  predicate Spells(item: string, d: Dataset) {
    && |item| >= HASH_LENGTH
    && item == Print(d, item[|item| - HASH_LENGTH..])
    && IsHex(item[|item| - HASH_LENGTH..])
    && Lower(item[|item| - HASH_LENGTH..]) == d.fingerprint
  }

  lemma LowerHex(s: string)
    requires IsHex(s)
    ensures |Lower(s)| == |s| && IsLowerHex(Lower(s))
    ensures IsLowerHex(s) ==> Lower(s) == s
  {
  }

  /** An accepted entry is expressible, and printing it gives its text back up to the case of the fingerprint. */
  lemma ParsedItemSpells(item: string)
    requires ',' !in item && ParseItem(item).Ok?
    ensures ValidEntry(ParseItem(item).value) && Spells(item, ParseItem(item).value)
  {
    hide Find, FindLast, IsHex, ValidEntry, Spells;
    var colon, at, hash := Find(item, ':'), FindLast(item, '@'), FindLast(item, '#');
    PartsSpell(item, colon, at, hash);
    PartsAreValid(item, colon, at, hash);
  }

  lemma PartsSpell(item: string, colon: nat, at: nat, hash: nat)
    requires colon < at < hash && |item| == hash + 1 + HASH_LENGTH && item[colon] == ':' && item[at] == '@'
             && item[hash] == '#'
    requires IsHex(item[hash + 1..])
    ensures Spells(item, Dataset(item[..colon], item[colon + 1..at], item[at + 1..hash], Lower(item[hash + 1..])))
  {
    hide IsHex, Lower;
    SplitAtMarks(item, colon, at, hash);
  }

  lemma PartsAreValid(item: string, colon: nat, at: nat, hash: nat)
    requires 0 < colon && colon + 1 < at && at + 1 < hash && |item| == hash + 1 + HASH_LENGTH
    requires ',' !in item && ':' !in item[..colon] && '@' !in item[at + 1..] && IsHex(item[hash + 1..])
    ensures ValidEntry(Dataset(item[..colon], item[colon + 1..at], item[at + 1..hash], Lower(item[hash + 1..])))
  {
    hide IsHex, Lower, IsLowerHex;
    LowerHex(item[hash + 1..]);
    PartOf(item, ',', 0, colon);
    PartOf(item, ',', colon + 1, at);
    PartOf(item, ',', at + 1, hash);
    assert item[at + 1..][0..hash - at - 1] == item[at + 1..hash];
    PartOf(item[at + 1..], '@', 0, hash - at - 1);
  }

  lemma SplitAtMarks(item: string, colon: nat, at: nat, hash: nat)
    requires colon < at < hash < |item| && item[colon] == ':' && item[at] == '@' && item[hash] == '#'
    ensures item == item[..colon] + ":" + item[colon + 1..at] + "@" + item[at + 1..hash] + "#" + item[hash + 1..]
  {
  }

  lemma PartOf(s: string, c: char, i: nat, j: nat)
    requires c !in s && i <= j <= |s|
    ensures c !in s[i..j]
  {
  }

  /** Text that spells an expressible entry is parsed to that entry. */
  lemma SpelledItemParses(item: string, d: Dataset)
    requires ValidEntry(d) && Spells(item, d)
    ensures ParseItem(item) == Ok(d) && ',' !in item
  {
    hide Find, FindLast, IsHex, IsLowerHex, Lower, Print;
    var fp := item[|item| - HASH_LENGTH..];
    MarksFound(d, fp);
    PrintedParts(d, fp);
    NoCommas(d, fp);
  }

  /** A text of the right shape, with anything for a fingerprint that does not move the marks. */
  predicate Shaped(item: string, d: Dataset) {
    && item == Print(d, d.fingerprint)
    && d.family != "" && ':' !in d.family && d.symbol != "" && d.timeframe != "" && '@' !in d.timeframe
    && |d.fingerprint| == HASH_LENGTH && '@' !in d.fingerprint && '#' !in d.fingerprint
  }

  /** Main result: an entry is refused for its fingerprint exactly if its shape is right and the fingerprint is not
      hexadecimal; whatever else is refused is refused for its shape. */
  lemma FingerprintRefusedExactly(item: string)
    ensures ParseItem(item) == Err(BadFingerprint) <==> exists d :: Shaped(item, d) && !IsHex(d.fingerprint)
    ensures ParseItem(item).Err? ==> ParseItem(item).error in {BadFingerprint, BadShape}
  {
    hide ParseItem, Shaped, IsHex;
    if ParseItem(item) == Err(BadFingerprint) {
      var d := RefusedFingerprint(item);
    }
    if d :| Shaped(item, d) && !IsHex(d.fingerprint) {
      ShapedIsParsed(item, d);
    }
    ErrorsAreSpecific(item);
  }

  lemma RefusedFingerprint(item: string) returns (d: Dataset)
    requires ParseItem(item) == Err(BadFingerprint)
    ensures Shaped(item, d) && !IsHex(d.fingerprint)
  {
    hide Find, FindLast, IsHex, Lower, Shaped;
    var colon, at, hash := Find(item, ':'), FindLast(item, '@'), FindLast(item, '#');
    d := Dataset(item[..colon], item[colon + 1..at], item[at + 1..hash], item[hash + 1..]);
    PartsAreShaped(item, colon, at, hash);
  }

  lemma ShapedIsParsed(item: string, d: Dataset)
    requires Shaped(item, d)
    ensures ParseItem(item) == Err(BadFingerprint) <==> !IsHex(d.fingerprint)
  {
    hide Find, FindLast, IsHex, Lower, Print;
    MarksOf(d, d.fingerprint);
    PrintedParts(d, d.fingerprint);
  }

  lemma PartsAreShaped(item: string, colon: nat, at: nat, hash: nat)
    requires 0 < colon && colon + 1 < at && at + 1 < hash && |item| == hash + 1 + HASH_LENGTH
    requires item[colon] == ':' && item[at] == '@' && item[hash] == '#'
    requires ':' !in item[..colon] && '@' !in item[at + 1..] && '#' !in item[hash + 1..]
    ensures Shaped(item, Dataset(item[..colon], item[colon + 1..at], item[at + 1..hash], item[hash + 1..]))
  {
    SplitAtMarks(item, colon, at, hash);
    assert item[at + 1..][0..hash - at - 1] == item[at + 1..hash];
    PartOf(item[at + 1..], '@', 0, hash - at - 1);
    assert item[at + 1..][hash - at..|item| - at - 1] == item[hash + 1..];
    PartOf(item[at + 1..], '@', hash - at, |item| - at - 1);
  }

  lemma MarksOf(d: Dataset, fp: string)
    requires ':' !in d.family && '@' !in d.timeframe && '@' !in fp && '#' !in fp
    ensures var item, colon := Print(d, fp), |d.family|;
            && Find(item, ':') == colon
            && FindLast(item, '@') == colon + 1 + |d.symbol|
            && FindLast(item, '#') == colon + 1 + |d.symbol| + 1 + |d.timeframe|
  {
    hide Find, FindLast, Print;
    var item, colon := Print(d, fp), |d.family|;
    var at := colon + 1 + |d.symbol|;
    var hash := at + 1 + |d.timeframe|;
    PrintedParts(d, fp);
    FindIs(item, ':', colon);
    assert item[at + 1..] == item[at + 1..hash] + [item[hash]] + item[hash + 1..];
    FindLastIs(item, '@', at);
    FindLastIs(item, '#', hash);
  }

  lemma NoCommas(d: Dataset, fp: string)
    requires ValidEntry(d) && IsHex(fp)
    ensures ',' !in Print(d, fp)
  {
    hide IsHex;
    HexHasNoMarks(fp);
  }

  lemma MarksFound(d: Dataset, fp: string)
    requires ValidEntry(d) && IsHex(fp)
    ensures var item, colon := Print(d, fp), |d.family|;
            && Find(item, ':') == colon
            && FindLast(item, '@') == colon + 1 + |d.symbol|
            && FindLast(item, '#') == colon + 1 + |d.symbol| + 1 + |d.timeframe|
  {
    hide Find, FindLast, IsHex, IsLowerHex, Print;
    HexHasNoMarks(fp);
    MarksOf(d, fp);
  }

  lemma PrintedParts(d: Dataset, fp: string)
    ensures var item := Print(d, fp);
            var colon := |d.family|;
            var at := colon + 1 + |d.symbol|;
            var hash := at + 1 + |d.timeframe|;
            && |item| == hash + 1 + |fp|
            && item[..colon] == d.family && item[colon] == ':' && item[colon + 1..at] == d.symbol && item[at] == '@'
            && item[at + 1..hash] == d.timeframe && item[hash] == '#' && item[hash + 1..] == fp
  {
  }

  lemma HexHasNoMarks(fp: string)
    requires IsHex(fp)
    ensures '@' !in fp && '#' !in fp && ',' !in fp
  {
  }

  // ---- lists ----

  lemma {:induction false} ItemsOfJoin(items: seq<string>, end: string)
    requires items != [] && forall i :: 0 <= i < |items| ==> items[i] != "" && ',' !in items[i]
    requires end == "" || end == ","
    ensures Items(Join(items, ',') + end, ',') == items
  {
    hide Items;
    var first := items[0];
    if |items| == 1 {
      if end == "" {
        assert Join(items, ',') + end == first;
        ItemsOfOne(first, ',');
      } else {
        assert Join(items, ',') + end == first + "," + "";
        ItemsCons(first, "", ',');
        NothingIsNoItems(',');
      }
      assert items == [first];
    } else {
      var more := items[1..];
      ItemsOfJoin(more, end);
      assert Join(items, ',') + end == first + "," + (Join(more, ',') + end);
      ItemsCons(first, Join(more, ',') + end, ',');
      assert items == [first] + more;
    }
  }

  lemma {:induction false} JoinOfItems(raw: string)
    requires raw != ""
    ensures Items(raw, ',') != [] && forall i :: 0 <= i < |Items(raw, ',')| ==> ',' !in Items(raw, ',')[i]
    ensures raw == Join(Items(raw, ','), ',') || raw == Join(Items(raw, ','), ',') + ","
    decreases |raw|
  {
    hide Items, Join, FirstPiece, RestOfStream;
    var first, rest := FirstPiece(raw, ','), RestOfStream(raw, ',');
    Pieces(raw, ',');
    NothingIsNoItems(',');
    if raw == first {
      ItemsOfOne(raw, ',');
      JoinOne(raw, ',');
    } else {
      ItemsCons(first, rest, ',');
      if rest == "" {
        JoinOne(first, ',');
        assert Items(raw, ',') == [first];
      } else {
        JoinOfItems(rest);
        JoinCons(first, Items(rest, ','), ',');
      }
    }
  }

  /** The entries before the first refused one are kept, and its complaint is the only one. */
  lemma {:induction false} FirstRefused(items: seq<string>) returns (k: nat)
    ensures k <= |items| && |ParseItems(items).0| == k
    ensures forall i :: 0 <= i < k ==> ParseItem(items[i]) == Ok(ParseItems(items).0[i])
    ensures k == |items| ==> ParseItems(items).1.None?
    ensures k < |items| ==> ParseItem(items[k]).Err? && ParseItems(items).1 == Some(ParseItem(items[k]).error)
  {
    hide ParseItem;
    k := 0;
    if items != [] && ParseItem(items[0]).Ok? {
      var rest := FirstRefused(items[1..]);
      k := rest + 1;
      assert forall i :: 0 < i < |items| ==> items[1..][i - 1] == items[i];
    }
  }

  predicate AllSpell(items: seq<string>, ds: seq<Dataset>) {
    |items| == |ds| && forall i :: 0 <= i < |items| ==> ValidEntry(ds[i]) && Spells(items[i], ds[i])
  }

  lemma {:induction false} ParseItemsExactly(items: seq<string>, ds: seq<Dataset>)
    requires forall i :: 0 <= i < |items| ==> ',' !in items[i]
    ensures ParseItems(items) == (ds, None) <==> AllSpell(items, ds)
  {
    hide ParseItem, ValidEntry, Spells;
    if items == [] {
    } else {
      var first := ParseItem(items[0]);
      if first.Ok? {
        ParsedItemSpells(items[0]);
        if ds != [] {
          ParseItemsExactly(items[1..], ds[1..]);
          if AllSpell(items, ds) {
            SpelledItemParses(items[0], ds[0]);
            assert AllSpell(items[1..], ds[1..]);
            assert ds == [ds[0]] + ds[1..];
          }
        }
        if ParseItems(items) == (ds, None) {
          assert ds[1..] == ParseItems(items[1..]).0;
          assert forall i :: 0 < i < |items| ==> items[i] == items[1..][i - 1] && ds[i] == ds[1..][i - 1];
        }
      } else if AllSpell(items, ds) {
        SpelledItemParses(items[0], ds[0]);
      }
    }
  }

  lemma SpelledIsNotEmpty(item: string, d: Dataset)
    requires Spells(item, d)
    ensures item != ""
  {
  }

  /** The text is the comma-joined list, with or without one trailing comma. */
  predicate Joins(raw: string, items: seq<string>) {
    raw == Join(items, ',') || raw == Join(items, ',') + ","
  }

  /** Main result: an argument is accepted as a list of datasets exactly if the list is not empty, all its entries are
      expressible, and the argument is their comma-joined spelling up to fingerprint case and one trailing comma. */
  lemma AcceptedExactly(raw: string, ds: seq<Dataset>)
    ensures Parse(raw) == Ok(ds) <==>
            exists items: seq<string> :: ds != [] && AllSpell(items, ds) && Joins(raw, items)
  {
    hide ValidEntry, Spells, ParseItem, Items, Join;
    if Parse(raw) == Ok(ds) {
      var items := Items(raw, ',');
      JoinOfItems(raw);
      ParseItemsExactly(items, ds);
      assert ds != [] && AllSpell(items, ds) && Joins(raw, items);
    }
    if items: seq<string> :| ds != [] && AllSpell(items, ds) && Joins(raw, items) {
      forall i | 0 <= i < |items| ensures items[i] != "" && ',' !in items[i] {
        SpelledIsNotEmpty(items[i], ds[i]);
        SpelledItemParses(items[i], ds[i]);
      }
      ItemsOfJoin(items, if raw == Join(items, ',') then "" else ",");
      assert Join(items, ',') + "" == Join(items, ',');
      NothingIsNoItems(',');
      ParseItemsExactly(items, ds);
    }
  }

  function Printed(ds: seq<Dataset>): seq<string> {
    seq(|ds|, i requires 0 <= i < |ds| => Print(ds[i], ds[i].fingerprint))
  }

  /** Printing a non-empty list of expressible entries and parsing it back gives the same list. */
  lemma PrintParse(ds: seq<Dataset>)
    requires ds != [] && forall d <- ds :: ValidEntry(d)
    ensures Parse(Join(Printed(ds), ',')) == Ok(ds)
  {
    var items := Printed(ds);
    forall i | 0 <= i < |ds| ensures Spells(items[i], ds[i]) {
      PrintedSpells(ds[i]);
    }
    assert AllSpell(items, ds);
    AcceptedExactly(Join(items, ','), ds);
  }

  lemma PrintedSpells(d: Dataset)
    requires ValidEntry(d)
    ensures Spells(Print(d, d.fingerprint), d)
  {
    var item := Print(d, d.fingerprint);
    assert item[|item| - HASH_LENGTH..] == d.fingerprint;
    assert IsHex(d.fingerprint);
    LowerHex(d.fingerprint);
  }
}
