/**
 Feature matrices for training and serving: column selection and median fill in tools/ml/train.py, in runMlModel of
 backend/cpp_core/src/main.cpp, and in tools/ml/verify_parity.py. All three end in single precision.
 */
module Imputation {
  import opened Wrappers
  import opened Getline
  import opened Picks
  import opened Rounding
  import opened ServingManifest

  // ---- columns ----

  const NON_FEATURE: set<string> := {"symbol", "as_of", "label_class", "label_fwd_return"}

  predicate IsCrossFamily(c: string) {
    "regime_" <= c || "xf_corr_" <= c
  }

  function FeatureColumns(header: seq<string>): seq<string> {
    if header == [] then []
    else if header[0] in NON_FEATURE then FeatureColumns(header[1..])
    else [header[0]] + FeatureColumns(header[1..])
  }

  function CrossFamily(cols: seq<string>): seq<string> {
    if cols == [] then []
    else if IsCrossFamily(cols[0]) then [cols[0]] + CrossFamily(cols[1..])
    else CrossFamily(cols[1..])
  }

  /** The columns a model is trained on, by its input set. */
  function TrainedColumns(header: seq<string>, inputSet: string): seq<string> {
    ColumnsFor(FeatureColumns(header), inputSet)
  }

  /** The columns of a model with the given input set, out of those in the manifest. */
  function ColumnsFor(columns: seq<string>, inputSet: string): seq<string> {
    if inputSet == "cross_family" then CrossFamily(columns) else columns
  }

  /** The columns a model is served, in the order of the manifest. */
  method ServedColumns(columns: seq<string>, inputSet: string) returns (cols: seq<string>)
    ensures cols == ColumnsFor(columns, inputSet)
  {
    hide IsCrossFamily;
    cols := [];
    for i := 0 to |columns|
      invariant inputSet == "cross_family" ==> cols + CrossFamily(columns[i..]) == CrossFamily(columns)
      invariant inputSet != "cross_family" ==> cols == columns[..i]
    {
      var c := columns[i];
      assert columns[i..][0] == c && columns[i..][1..] == columns[i + 1..];
      if inputSet == "cross_family" {
        if IsCrossFamily(c) {
          cols := cols + [c];
        }
      } else {
        cols := cols + [c];
      }
    }
    assert columns[|columns|..] == [] && columns[..|columns|] == columns;
  }

  predicate StartsWith(c: string, prefix: string) {
    |c| >= |prefix| && c[..|prefix|] == prefix
  }

  /** The cross-family input set is made of the columns whose names start with "regime_" or "xf_corr_", in order. */
  lemma {:induction false} CrossFamilyExactly(cols: seq<string>) returns (places: seq<nat>)
    ensures PickedAt(CrossFamily(cols), cols, places)
    ensures forall j: nat :: j < |cols| ==>
                               (j in places <==> StartsWith(cols[j], "regime_") || StartsWith(cols[j], "xf_corr_"))
  {
    hide StartsWith, IsCrossFamily;
    hide PickedAt, Places;
    places := [];
    if cols == [] {
      NothingPicked<string>();
    } else {
      var rest := CrossFamilyExactly(cols[1..]);
      places := Places(IsCrossFamily(cols[0]), rest);
      PickedOneMore(CrossFamily(cols[1..]), cols, rest, IsCrossFamily(cols[0]));
      CrossFamilyNames(cols[0]);
      assert forall j: nat :: 0 < j < |cols| ==> cols[1..][j - 1] == cols[j];
    }
  }

  lemma CrossFamilyNames(c: string)
    ensures IsCrossFamily(c) <==> StartsWith(c, "regime_") || StartsWith(c, "xf_corr_")
  {
  }

  /** The features are all columns but the symbol, the date and the two targets, in order. */
  lemma {:induction false} FeaturesExactly(header: seq<string>) returns (places: seq<nat>)
    ensures PickedAt(FeatureColumns(header), header, places)
    ensures forall j: nat :: j < |header| ==>
                               (j in places <==> header[j] != "symbol" && header[j] != "as_of"
                                                 && header[j] != "label_class" && header[j] != "label_fwd_return")
  {
    hide PickedAt, Places;
    places := [];
    if header == [] {
      NothingPicked<string>();
    } else {
      var rest := FeaturesExactly(header[1..]);
      var kept := header[0] !in NON_FEATURE;
      places := Places(kept, rest);
      PickedOneMore(FeatureColumns(header[1..]), header, rest, kept);
      assert forall j: nat :: 0 < j < |header| ==> header[1..][j - 1] == header[j];
    }
  }

  // ---- cells ----

  /** The column index of a header; a repeated name stands for its last column. */
  function Index(header: seq<string>): (m: map<string, nat>)
    ensures forall c :: c in m <==> c in header
    ensures forall c <- m :: m[c] < |header| && header[m[c]] == c
    ensures forall c <- m :: forall i :: m[c] < i < |header| ==> header[i] != c
  {
    if header == [] then map[] else Index(header[..|header| - 1])[header[|header| - 1] := |header| - 1]
  }

  /** Python's split: one more piece than there are commas. */
  function Split(line: string): (cells: seq<string>)
    decreases |line|
  {
    if ',' in line then [FirstPiece(line, ',')] + Split(RestOfStream(line, ','))
    else [line]
  }

  /** A cell as the servers read it: its number if it has one, else the median of its column, else 0. */
  function ServedValue(num: Numbers, index: map<string, nat>, medians: map<string, real>, row: seq<string>,
                       col: string): real {
    var v := if col in index && index[col] < |row| && row[index[col]] != "" then num.parse(row[index[col]]) else None;
    if v.Some? then v.value else if col in medians then medians[col] else 0.0
  }

  function Served(num: Numbers, index: map<string, nat>, medians: map<string, real>, row: seq<string>,
                  col: string): Single {
    Narrow(ServedValue(num, index, medians, row, col))
  }

  /** A cell under the last column of a name counts if it is not blank and reads as a number; any other is filled with
      the median of the column in the manifest, or with 0. */
  lemma ServedExactly(num: Numbers, header: seq<string>, medians: map<string, real>, row: seq<string>, col: string)
    ensures forall i :: 0 <= i < |header| && header[i] == col && col !in header[i + 1..] ==>
              if i < |row| && row[i] != "" && num.parse(row[i]).Some?
              then Served(num, Index(header), medians, row, col) == Narrow(num.parse(row[i]).value)
              else Served(num, Index(header), medians, row, col) == Filled(medians, col)
    ensures col !in header ==> Served(num, Index(header), medians, row, col) == Filled(medians, col)
  {
    hide Narrow, Index;
    forall i | 0 <= i < |header| && header[i] == col && col !in header[i + 1..] ensures Index(header)[col] == i {
      LastIsLater(header, i, Index(header)[col]);
    }
  }

  lemma LastIsLater(header: seq<string>, i: nat, last: nat)
    requires i < |header| && last < |header| && header[last] == header[i] && header[i] !in header[i + 1..]
    requires forall j :: last < j < |header| ==> header[j] != header[last]
    ensures last == i
  {
    if last > i {
      LaterNameIsBehind(header, i, last);
    }
  }

  lemma LaterNameIsBehind(header: seq<string>, i: nat, last: nat)
    requires i < last < |header|
    ensures header[last] in header[i + 1..]
  {
    assert header[i + 1..][last - i - 1] == header[last];
  }

  function Filled(medians: map<string, real>, col: string): Single {
    Narrow(if col in medians then medians[col] else 0.0)
  }

  function ServedRow(num: Numbers, index: map<string, nat>, medians: map<string, real>, row: seq<string>,
                     cols: seq<string>): seq<Single> {
    seq(|cols|, c requires 0 <= c < |cols| => Served(num, index, medians, row, cols[c]))
  }

  function ServedFlat(num: Numbers, index: map<string, nat>, medians: map<string, real>, rows: seq<seq<string>>,
                      cols: seq<string>): seq<Single> {
    if rows == [] then []
    else
      var n := |rows| - 1;
      ServedFlat(num, index, medians, rows[..n], cols) + ServedRow(num, index, medians, rows[n], cols)
  }

  /** The place of an entry in a matrix stored row after row. */
  function Place(r: nat, c: nat, width: nat): nat {
    r * width + c
  }

  lemma PlaceWithin(r: nat, c: nat, height: nat, width: nat)
    requires r < height && c < width
    ensures Place(r, c, width) < Place(height, 0, width)
    ensures r + 1 < height ==> Place(r, c, width) < Place(height - 1, 0, width)
  {
    RowsFit(r + 1, height, width);
    if r + 1 < height {
      RowsFit(r + 1, height - 1, width);
    }
    assert (r + 1) * width == r * width + width;
  }

  lemma RowsFit(a: nat, b: nat, width: nat)
    requires a <= b
    ensures a * width <= b * width
  {
    assert (b - a) * width >= 0;
    assert b * width == a * width + (b - a) * width;
  }

  /** Where the flat vector keeps the entry of row r and column c. */
  lemma {:induction false} FlatAt(num: Numbers, index: map<string, nat>, medians: map<string, real>,
                                  rows: seq<seq<string>>, cols: seq<string>)
    ensures |ServedFlat(num, index, medians, rows, cols)| == Place(|rows|, 0, |cols|)
    ensures forall r: nat, c: nat :: r < |rows| && c < |cols| ==>
              Place(r, c, |cols|) < Place(|rows|, 0, |cols|)
              && ServedFlat(num, index, medians, rows, cols)[Place(r, c, |cols|)]
                   == Served(num, index, medians, rows[r], cols[c])
  {
    hide Served, Place;
    var flat := ServedFlat(num, index, medians, rows, cols);
    if rows == [] {
      PlaceZero(|cols|);
    } else {
      var n := |rows| - 1;
      FlatAt(num, index, medians, rows[..n], cols);
      NextRow(n, |cols|);
      forall r: nat, c: nat | r < |rows| && c < |cols|
        ensures Place(r, c, |cols|) < |flat|
                && flat[Place(r, c, |cols|)] == Served(num, index, medians, rows[r], cols[c])
      {
        PlaceWithin(r, c, |rows|, |cols|);
        if r < n {
          assert rows[..n][r] == rows[r];
        } else {
          LastRow(n, c, |cols|);
        }
      }
    }
  }

  lemma PlaceZero(width: nat)
    ensures Place(0, 0, width) == 0
  {
  }

  lemma NextRow(n: nat, width: nat)
    ensures Place(n + 1, 0, width) == Place(n, 0, width) + width
  {
    assert (n + 1) * width == n * width + width;
  }

  lemma LastRow(n: nat, c: nat, width: nat)
    ensures Place(n, c, width) == Place(n, 0, width) + c
  {
  }

  /** The C++ matrix, row after row in one vector. */
  method BuildFlat(num: Numbers, index: map<string, nat>, medians: map<string, real>, rows: seq<seq<string>>,
                   cols: seq<string>)
    returns (flat: seq<Single>)
    ensures flat == ServedFlat(num, index, medians, rows, cols)
    ensures |flat| == |rows| * |cols|
    ensures forall r: nat, c: nat :: r < |rows| && c < |cols| ==>
              Place(r, c, |cols|) < |flat| && flat[Place(r, c, |cols|)] == Served(num, index, medians, rows[r], cols[c])
  {
    hide Narrow;
    flat := [];
    for r := 0 to |rows|
      invariant flat == ServedFlat(num, index, medians, rows[..r], cols)
    {
      var row := rows[r];
      ghost var before := flat;
      for c := 0 to |cols|
        invariant flat == before + ServedRow(num, index, medians, row, cols)[..c]
      {
        var col := cols[c];
        var v := 0.0;
        var have := false;
        if col in index && index[col] < |row| {
          var cell := row[index[col]];
          if cell != "" && num.parse(cell).Some? {
            v := num.parse(cell).value;
            have := true;
          }
        }
        if !have {
          v := if col in medians then medians[col] else 0.0;
        }
        flat := flat + [Narrow(v)];
      }
      assert rows[..r + 1][..r] == rows[..r];
      assert ServedRow(num, index, medians, row, cols)[..|cols|] == ServedRow(num, index, medians, row, cols);
    }
    assert rows[..|rows|] == rows;
    FlatAt(num, index, medians, rows, cols);
  }

  /** The Python matrix. */
  method BuildMatrix(num: Numbers, rows: seq<seq<string>>, index: map<string, nat>, cols: seq<string>,
                     medians: map<string, real>)
    returns (x: array2<Single>)
    ensures x.Length0 == |rows| && x.Length1 == |cols|
    ensures forall r, c :: 0 <= r < |rows| && 0 <= c < |cols| ==>
            x[r, c] == Served(num, index, medians, rows[r], cols[c])
  {
    hide Narrow;
    x := new Single[|rows|, |cols|];
    for r := 0 to |rows|
      invariant forall i, c :: 0 <= i < r && 0 <= c < |cols| ==>
                x[i, c] == Served(num, index, medians, rows[i], cols[c])
    {
      var row := rows[r];
      for c := 0 to |cols|
        invariant forall i, j :: 0 <= i < r && 0 <= j < |cols| ==>
                  x[i, j] == Served(num, index, medians, rows[i], cols[j])
        invariant forall j :: 0 <= j < c ==> x[r, j] == Served(num, index, medians, row, cols[j])
      {
        var col := cols[c];
        var v: Option<real> := None;
        if col in index && index[col] < |row| {
          var cell := row[index[col]];
          if cell != "" {
            v := num.parse(cell);
          }
        }
        x[r, c] := Narrow(if v.Some? then v.value else if col in medians then medians[col] else 0.0);
      }
    }
  }

  // ---- splitting rows ----

  lemma {:induction false} SplitOfJoin(row: seq<string>)
    requires row != [] && forall i :: 0 <= i < |row| ==> ',' !in row[i]
    ensures Split(Join(row, ',')) == row
  {
    if |row| > 1 {
      SplitOfJoin(row[1..]);
      SplitCons(row[0], Join(row[1..], ','));
      assert row == [row[0]] + row[1..];
    } else {
      assert row == [row[0]];
    }
  }

  lemma SplitCons(first: string, rest: string)
    requires ',' !in first
    ensures Split(first + "," + rest) == [first] + Split(rest)
  {
    hide Find;
    var line := first + "," + rest;
    assert line[|first|] == ',';
    assert line[..|first|] == first && line[|first| + 1..] == rest;
    FindIs(line, ',', |first|);
  }

  /** The C++ splitter gives the same cells, except that a blank last one is dropped. */
  lemma {:induction false} PiecesOfJoin(row: seq<string>)
    requires row != [] && forall i :: 0 <= i < |row| ==> ',' !in row[i]
    ensures Items(Join(row, ','), ',') == if row[|row| - 1] == "" then row[..|row| - 1] else row
  {
    hide Items, Find;
    var first, more := row[0], row[1..];
    assert row == [first] + more;
    if more != [] {
      PiecesOfJoin(more);
      JoinCons(first, more, ',');
      ItemsCons(first, Join(more, ','), ',');
      if row[|row| - 1] == "" {
        assert row[..|row| - 1] == [first] + more[..|more| - 1];
      }
    } else {
      JoinOne(first, ',');
      if first == "" {
        NothingIsNoItems(',');
        assert row[..|row| - 1] == [];
      } else {
        ItemsOfOne(first, ',');
      }
    }
  }

  /** Main result: both servers read every cell of a written row alike, also the blank last cell that C++ drops. */
  lemma ServersAgree(num: Numbers, index: map<string, nat>, medians: map<string, real>, row: seq<string>, col: string)
    requires row != [] && forall i :: 0 <= i < |row| ==> ',' !in row[i]
    ensures Served(num, index, medians, Items(Join(row, ','), ','), col)
            == Served(num, index, medians, Split(Join(row, ',')), col)
            == Served(num, index, medians, row, col)
  {
    hide Items, Split, Join, Narrow;
    SplitOfJoin(row);
    PiecesOfJoin(row);
  }

  // ---- training ----

  /** Training renames a repeated column, so a repeated name would mean two columns. */
  ghost predicate DistinctNames(header: seq<string>) {
    forall i, j :: 0 <= i < j < |header| ==> header[i] != header[j]
  }

  /** A cell as training reads it: its number if it has one, else the unrounded median of its column. */
  function Trained(num: Numbers, header: seq<string>, medians: string -> real, row: seq<string>, col: string): Single
    requires col in header && |row| == |header|
  {
    var v := num.parse(row[Index(header)[col]]);
    Narrow(if v.Some? then v.value else medians(col))
  }

  /** The blank text is no number. */
  ghost predicate BlankIsNoNumber(num: Numbers) {
    num.parse("").None?
  }

  /** A median whose ten digits lead to the same single. */
  predicate Survives(median: real) {
    Narrow(RoundTo10Digits(median)) == Narrow(median)
  }

  /** With the manifest that training wrote, serving fills a cell with the training value exactly if the cell has a
      number or the median of its column and its ten digits are the same single. */
  lemma TrainServeParityExactly(num: Numbers, header: seq<string>, medians: string -> real, models: seq<Model>,
                                row: seq<string>, col: string)
    requires BlankIsNoNumber(num) && DistinctNames(header)
    requires col in FeatureColumns(header) && |row| == |header|
    ensures col in header
    ensures var manifest := Expected(FeatureColumns(header), medians, models);
            Served(num, Index(header), manifest.medians, row, col) == Trained(num, header, medians, row, col)
            <==> num.parse(row[Index(header)[col]]).Some? || Survives(medians(col))
  {
    hide RoundTo10Digits, Narrow;
    FeaturesAreColumns(header);
  }

  /** A median of at most ten digits always survives. */
  lemma ShortMedianSurvives(median: real)
    requires RoundTo10Digits(median) == median
    ensures Survives(median)
  {
  }

  /** A median that does not: rows that miss the cell are trained on 1 and served the single after it. */
  lemma LongMedianDrifts()
    ensures !Survives(1.0000000596)
    ensures Narrow(1.0000000596) == Finite(1.0)
            && Narrow(RoundTo10Digits(1.0000000596)) == Finite(8_388_609.0 / 8_388_608.0)
  {
    hide RoundTo10Digits, Narrow;
    TenDigitsDrift();
  }

  lemma {:induction false} FeaturesAreColumns(header: seq<string>)
    ensures forall c <- FeatureColumns(header) :: c in header && c !in NON_FEATURE
  {
    if header != [] {
      FeaturesAreColumns(header[1..]);
    }
  }

  /** From the text training wrote, the C++ reader selects for every model the columns it was trained on, in training
      order, and as many as the model's entry says. */
  lemma ServedAsTrained(num: Numbers, header: seq<string>, medians: string -> real, models: seq<Model>, k: nat)
    requires num.Sane() && k < |models|
    requires forall i :: 0 <= i < |FeatureColumns(header)| ==> IsWord(FeatureColumns(header)[i])
    requires forall i :: 0 <= i < |models| ==>
               GoodModel(models[i]) && models[i].nFeatures == |TrainedColumns(header, models[i].inputSet)|
    ensures var manifest := CppFold(num,
                                    Items(Unlines(ManifestLines(num, FeatureColumns(header), medians, models)), '\n'));
            && |manifest.models| == |models|
            && var m := manifest.models[k];
               var cols := ColumnsFor(manifest.columns, m.inputSet);
               cols == TrainedColumns(header, models[k].inputSet) && |cols| == m.nFeatures
  {
    hide CppFold, ManifestLines, Unlines, Items, RoundTo10Digits;
    ManifestRoundTrip(num, FeatureColumns(header), medians, models);
  }

  // ---- whole matrices, from the texts ----

  /** A table of cells that a comma-separated file can hold, with the feature frame's named columns. */
  ghost predicate Table(header: seq<string>, rows: seq<seq<string>>) {
    && header != [] && DistinctNames(header)
         && (forall i :: 0 <= i < |header| ==> IsWord(header[i]) && ',' !in header[i])
    && (forall r :: 0 <= r < |rows| ==> |rows[r]| == |header| && forall i :: 0 <= i < |rows[r]| ==> ',' !in rows[r][i])
  }

  function CppRows(rows: seq<seq<string>>): seq<seq<string>>
    requires forall r :: 0 <= r < |rows| ==> rows[r] != []
  {
    seq(|rows|, r requires 0 <= r < |rows| => Items(Join(rows[r], ','), ','))
  }

  function PyRows(rows: seq<seq<string>>): seq<seq<string>>
    requires forall r :: 0 <= r < |rows| ==> rows[r] != []
  {
    seq(|rows|, r requires 0 <= r < |rows| => Split(Join(rows[r], ',')))
  }

  /** Both readers index the header's text alike. */
  lemma HeaderIndexed(header: seq<string>)
    requires Table(header, [])
    ensures Index(Items(Join(header, ','), ',')) == Index(Split(Join(header, ','))) == Index(header)
  {
    hide Items, Split, Join, Index;
    SplitOfJoin(header);
    PiecesOfJoin(header);
    assert IsWord(header[|header| - 1]);
  }

  /** The matrix of both servers for one model of the manifest that training wrote, entry by entry, from the texts. */
  ghost predicate SameMatrix(num: Numbers, header: seq<string>, medians: string -> real, models: seq<Model>,
                             rows: seq<seq<string>>, k: nat)
    requires Table(header, rows) && k < |models|
  {
    var lines := Items(Unlines(ManifestLines(num, FeatureColumns(header), medians, models)), '\n');
    var cpp, py := CppFold(num, lines), PyFold(num, lines);
    && py.Some? && cpp == py.value && |cpp.models| == |models|
    && var cols := ColumnsFor(cpp.columns, cpp.models[k].inputSet);
       var flat := ServedFlat(num, Index(Items(Join(header, ','), ',')), cpp.medians, CppRows(rows), cols);
       && |flat| == |rows| * |cols|
       && forall r: nat, c: nat :: r < |rows| && c < |cols| ==>
            Place(r, c, |cols|) < |flat|
            && flat[Place(r, c, |cols|)]
                 == Served(num, Index(Split(Join(header, ','))), py.value.medians, PyRows(rows)[r], cols[c])
  }

  /** Main result: from the written manifest and the written rows both servers build the same matrix. */
  lemma ServersBuildTheSameMatrix(num: Numbers, header: seq<string>, medians: string -> real, models: seq<Model>,
                                  rows: seq<seq<string>>, k: nat)
    requires num.Sane() && Table(header, rows) && k < |models|
    requires forall i :: 0 <= i < |models| ==> GoodModel(models[i])
    ensures SameMatrix(num, header, medians, models, rows, k)
  {
    hide CppFold, PyFold, ManifestLines, Unlines, Items, Split, Join, Index, Narrow, RoundTo10Digits, ServedValue,
      Place, ServedFlat;
    FeatureWords(header, rows);
    ManifestRoundTrip(num, FeatureColumns(header), medians, models);
    var manifest := Expected(FeatureColumns(header), medians, models);
    var cols := ColumnsFor(manifest.columns, models[k].inputSet);
    HeaderIndexed(header);
    FlatAt(num, Index(header), manifest.medians, CppRows(rows), cols);
    PlaceIsProduct(|rows|, |cols|);
    forall r: nat, c: nat | r < |rows| && c < |cols|
      ensures Served(num, Index(header), manifest.medians, CppRows(rows)[r], cols[c])
           == Served(num, Index(header), manifest.medians, PyRows(rows)[r], cols[c])
    {
      ServersAgree(num, Index(header), manifest.medians, rows[r], cols[c]);
    }
  }

  lemma PlaceIsProduct(height: nat, width: nat)
    ensures Place(height, 0, width) == height * width
  {
  }

  lemma FeatureWords(header: seq<string>, rows: seq<seq<string>>)
    requires Table(header, rows)
    ensures forall i :: 0 <= i < |FeatureColumns(header)| ==> IsWord(FeatureColumns(header)[i])
  {
    FeaturesAreColumns(header);
    forall i | 0 <= i < |FeatureColumns(header)| ensures IsWord(FeatureColumns(header)[i]) {
      assert FeatureColumns(header)[i] in FeatureColumns(header);
    }
  }

  /** A cell without a number whose column's median drifts. */
  ghost predicate Drifts(num: Numbers, header: seq<string>, medians: string -> real, row: seq<string>, col: string)
    requires col in header && |row| == |header|
  {
    num.parse(row[Index(header)[col]]).None? && !Survives(medians(col))
  }

  /** Main result: the served matrix of a model is the one it was trained on exactly if no cell without a number stands
      in a column whose median drifts. */
  lemma ServedMatrixIsTrainedExactly(num: Numbers, header: seq<string>, medians: string -> real, models: seq<Model>,
                                     rows: seq<seq<string>>, cols: seq<string>)
    requires BlankIsNoNumber(num) && Table(header, rows)
    requires forall c :: 0 <= c < |cols| ==> cols[c] in FeatureColumns(header)
    ensures forall c :: 0 <= c < |cols| ==> cols[c] in header
    ensures var manifest := Expected(FeatureColumns(header), medians, models);
            (forall r, c :: 0 <= r < |rows| && 0 <= c < |cols| ==>
               Served(num, Index(header), manifest.medians, rows[r], cols[c])
                 == Trained(num, header, medians, rows[r], cols[c]))
            <==> forall r, c :: 0 <= r < |rows| && 0 <= c < |cols| ==> !Drifts(num, header, medians, rows[r], cols[c])
  {
    hide Served, Trained, Survives, Expected, FeatureColumns, Index;
    FeaturesAreColumns(header);
    var manifest := Expected(FeatureColumns(header), medians, models);
    forall r, c | 0 <= r < |rows| && 0 <= c < |cols|
      ensures Served(num, Index(header), manifest.medians, rows[r], cols[c])
              == Trained(num, header, medians, rows[r], cols[c])
        <==> !Drifts(num, header, medians, rows[r], cols[c])
    {
      TrainServeParityExactly(num, header, medians, models, rows[r], cols[c]);
    }
  }
}
