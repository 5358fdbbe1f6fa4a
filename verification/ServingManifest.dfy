/**
 The serving manifest: written by tools/ml/train.py, read by backend/cpp_core/src/main.cpp and
 tools/ml/verify_parity.py. Number formatting and parsing are one `Numbers` value shared by writer and readers.
 */
module ServingManifest {
  import opened Wrappers
  import opened Getline
  import opened Rounding

  /** `show` is the ten-digit text of a real, `showInt` the text of an integer, `parse` the finite number a token
      denotes. */
  datatype Numbers = Numbers(show: real -> string, showInt: int -> string, parse: string -> Option<real>)
  {
    ghost predicate Sane() {
      && (forall x :: IsWord(show(x)) && parse(show(x)) == Some(RoundTo10Digits(x)))
      && (forall n :: IsWord(showInt(n)) && IntegerText(showInt(n)) && parse(showInt(n)) == Some(n as real))
    }
  }

  // ---- words and lines ----

  predicate IsSpace(c: char) {
    c == ' ' || '\t' <= c <= '\r'
  }

  predicate IsWord(s: string) {
    s != "" && forall i :: 0 <= i < |s| ==> !IsSpace(s[i])
  }

  /** Digits after at most one sign: what Python's `int` takes. */
  predicate IntegerText(s: string) {
    var digits := if s != "" && (s[0] == '-' || s[0] == '+') then s[1..] else s;
    digits != "" && forall i :: 0 <= i < |digits| ==> '0' <= digits[i] <= '9'
  }

  /** The length of the word a text starts with. */
  function WordLength(s: string): (n: nat)
    ensures n <= |s|
    ensures s != "" && !IsSpace(s[0]) ==> n > 0
  {
    if s == "" || IsSpace(s[0]) then 0 else 1 + WordLength(s[1..])
  }

  /** Splitting at white space. */
  function Words(s: string): (words: seq<string>)
    ensures forall i :: 0 <= i < |words| ==> words[i] != ""
    decreases |s|
  {
    if s == "" then []
    else if IsSpace(s[0]) then Words(s[1..])
    else [s[..WordLength(s)]] + Words(s[WordLength(s)..])
  }

  function Spaced(words: seq<string>): string {
    Join(words, ' ')
  }

  function Unlines(lines: seq<string>): string {
    if lines == [] then "" else lines[0] + ['\n'] + Unlines(lines[1..])
  }

  lemma {:induction false} WordLengthIs(w: string, rest: string)
    requires IsWord(w) && (rest == "" || IsSpace(rest[0]))
    ensures WordLength(w + rest) == |w|
  {
    if |w| == 1 {
      assert (w + rest)[1..] == rest;
    } else {
      WordLengthIs(w[1..], rest);
      assert (w + rest)[1..] == w[1..] + rest;
    }
  }

  lemma WordsStep(w: string, rest: string)
    requires IsWord(w) && (rest == "" || IsSpace(rest[0]))
    ensures Words(w + rest) == [w] + Words(rest)
  {
    WordLengthIs(w, rest);
    assert (w + rest)[..|w|] == w && (w + rest)[|w|..] == rest;
  }

  lemma {:induction false} WordsOfSpaced(words: seq<string>)
    requires forall i :: 0 <= i < |words| ==> IsWord(words[i])
    ensures Words(Spaced(words)) == words
  {
    if words == [] {
    } else if |words| == 1 {
      WordsStep(words[0], "");
      assert words[0] + "" == words[0] && words == [words[0]];
    } else {
      var rest := " " + Spaced(words[1..]);
      WordsOfSpaced(words[1..]);
      WordsStep(words[0], rest);
      assert Spaced(words) == words[0] + rest;
      assert rest[1..] == Spaced(words[1..]);
      assert words == [words[0]] + words[1..];
    }
  }

  lemma {:induction false} LinesOfUnlines(lines: seq<string>)
    requires forall i :: 0 <= i < |lines| ==> '\n' !in lines[i]
    ensures Items(Unlines(lines), '\n') == lines
  {
    if lines == [] {
      NothingIsNoItems('\n');
    } else {
      LinesOfUnlines(lines[1..]);
      ItemsCons(lines[0], Unlines(lines[1..]), '\n');
      assert lines == [lines[0]] + lines[1..];
    }
  }

  // ---- the manifest ----

  datatype Model = Model(name: string, path: string, inputSet: string, nFeatures: int)
  datatype Manifest = Manifest(columns: seq<string>, medians: map<string, real>, models: seq<Model>)

  const EMPTY := Manifest([], map[], [])

  function ColLine(num: Numbers, c: string, median: real): string {
    Spaced(["COL", c, num.show(median)])
  }

  function ModelLine(num: Numbers, m: Model): string {
    Spaced(["MODEL", m.name, m.path, m.inputSet, num.showInt(m.nFeatures)])
  }

  const TITLE := ["#", "serving", "manifest", "\U{2014}", "generated", "by", "tools/ml/train.py"]
  const LEGEND := ["#", "COL", "<name>", "<median>", ";", "MODEL", "<name>", "<path>", "<input_set>", "<n_features>"]

  function Header(): seq<string> {
    [Spaced(TITLE), Spaced(LEGEND)]
  }

  function ColLines(num: Numbers, cols: seq<string>, medians: string -> real): seq<string> {
    seq(|cols|, i requires 0 <= i < |cols| => ColLine(num, cols[i], medians(cols[i])))
  }

  function ModelLines(num: Numbers, models: seq<Model>): seq<string> {
    seq(|models|, i requires 0 <= i < |models| => ModelLine(num, models[i]))
  }

  function ManifestLines(num: Numbers, cols: seq<string>, medians: string -> real, models: seq<Model>): seq<string> {
    Header() + ColLines(num, cols, medians) + ModelLines(num, models)
  }

  method WriteServingManifest(num: Numbers, cols: seq<string>, medians: string -> real, models: seq<Model>)
    returns (text: string)
    ensures text == Unlines(ManifestLines(num, cols, medians, models))
  {
    hide Header, ColLine, ModelLine;
    var lines := Header();
    for i := 0 to |cols|
      invariant lines == Header() + ColLines(num, cols, medians)[..i]
    {
      lines := lines + [ColLine(num, cols[i], medians(cols[i]))];
    }
    ghost var colLines := lines;
    assert colLines == Header() + ColLines(num, cols, medians);
    for i := 0 to |models|
      invariant lines == colLines + ModelLines(num, models)[..i]
    {
      lines := lines + [ModelLine(num, models[i])];
    }
    assert lines == ManifestLines(num, cols, medians, models);
    text := Unlines(lines);
  }

  // ---- the two readers ----

  function WithColumn(m: Manifest, name: string, median: real): Manifest {
    m.(columns := m.columns + [name], medians := m.medians[name := median])
  }

  function WithModel(m: Manifest, model: Model): Manifest {
    m.(models := m.models + [model])
  }

  function WordAt(words: seq<string>, i: nat): string {
    if i < |words| then words[i] else ""
  }

  function NumberAt(num: Numbers, words: seq<string>, i: nat): real {
    var n := num.parse(WordAt(words, i));
    if n.Some? then n.value else 0.0
  }

  /** One line in C++: a missing word reads as empty, a missing or bad number as 0. */
  function CppLine(num: Numbers, m: Manifest, line: string): Manifest {
    if line == "" || line[0] == '#' then m
    else
      var words := Words(line);
      if WordAt(words, 0) == "COL" then WithColumn(m, WordAt(words, 1), NumberAt(num, words, 2))
      else if WordAt(words, 0) == "MODEL" then
        var n := NumberAt(num, words, 4);
        WithModel(m, Model(WordAt(words, 1), WordAt(words, 2), WordAt(words, 3), if n < 0.0 then 0 else n.Floor))
      else m
  }

  /** One line in Python: a missing word or a bad number raises, here a missing result. */
  function PyLine(num: Numbers, m: Manifest, line: string): Option<Manifest> {
    var words := Words(line);
    if words == [] || words[0][0] == '#' then Some(m)
    else if words[0] == "COL" then
      if |words| < 3 || num.parse(words[2]).None? then None
      else Some(WithColumn(m, words[1], num.parse(words[2]).value))
    else if words[0] == "MODEL" then
      if |words| < 5 || !IntegerText(words[4]) || num.parse(words[4]).None?
        || num.parse(words[4]).value.Floor as real != num.parse(words[4]).value then None
      else Some(WithModel(m, Model(words[1], words[2], words[3], num.parse(words[4]).value.Floor)))
    else Some(m)
  }

  function CppFold(num: Numbers, lines: seq<string>): Manifest {
    if lines == [] then EMPTY else CppLine(num, CppFold(num, lines[..|lines| - 1]), lines[|lines| - 1])
  }

  function PyFold(num: Numbers, lines: seq<string>): Option<Manifest> {
    if lines == [] then Some(EMPTY)
    else
      var m := PyFold(num, lines[..|lines| - 1]);
      if m.None? then None else PyLine(num, m.value, lines[|lines| - 1])
  }

  method LoadServingManifest(num: Numbers, text: string) returns (ok: bool, out: Manifest)
    ensures out == CppFold(num, Items(text, '\n'))
    ensures ok <==> out.columns != [] && out.models != []
  {
    hide CppLine, FirstPiece, RestOfStream;
    out := EMPTY;
    var stream := text;
    ghost var read: seq<string> := [];
    while stream != ""
      invariant out == CppFold(num, read) && Items(text, '\n') == read + Items(stream, '\n')
      decreases |stream|
    {
      var line := FirstPiece(stream, '\n');
      stream := RestOfStream(stream, '\n');
      assert (read + [line])[..|read|] == read;
      out := CppLine(num, out, line);
      read := read + [line];
    }
    assert read + [] == read;
    ok := out.columns != [] && out.models != [];
  }

  method LoadManifest(num: Numbers, text: string) returns (out: Option<Manifest>)
    ensures out == PyFold(num, Items(text, '\n'))
  {
    hide PyLine, FirstPiece, RestOfStream;
    out := Some(EMPTY);
    var stream := text;
    ghost var read: seq<string> := [];
    while stream != ""
      invariant out == PyFold(num, read) && out.Some? && Items(text, '\n') == read + Items(stream, '\n')
      decreases |stream|
    {
      var line := FirstPiece(stream, '\n');
      ghost var rest := Items(RestOfStream(stream, '\n'), '\n');
      stream := RestOfStream(stream, '\n');
      assert (read + [line])[..|read|] == read;
      out := PyLine(num, out.value, line);
      assert read + ([line] + rest) == (read + [line]) + rest;
      read := read + [line];
      if out.None? {
        RaisedForGood(num, read, rest);
        return;
      }
    }
    assert read + [] == read;
  }

  lemma {:induction false} RaisedForGood(num: Numbers, read: seq<string>, rest: seq<string>)
    requires PyFold(num, read).None?
    ensures PyFold(num, read + rest).None?
  {
    if rest == [] {
      assert read + rest == read;
    } else {
      var n := |rest| - 1;
      RaisedForGood(num, read, rest[..n]);
      assert (read + rest)[..|read + rest| - 1] == read + rest[..n];
    }
  }

  // ---- the readers agree ----

  lemma LinesAgree(num: Numbers, m: Manifest, line: string)
    requires PyLine(num, m, line).Some? && forall x <- PyLine(num, m, line).value.models :: x.nFeatures >= 0
    ensures CppLine(num, m, line) == PyLine(num, m, line).value
  {
    if line != "" && line[0] == '#' {
      assert Words(line)[0][0] == '#';
    }
    var words := Words(line);
    if words != [] && words[0][0] != '#' && words[0] == "MODEL" {
      var n := num.parse(words[4]).value;
      var out := PyLine(num, m, line).value;
      assert out.models[|out.models| - 1].nFeatures == n.Floor;
    }
  }

  /** On every text that the Python reader accepts, with counts that are not negative, the C++ reader reads the same. */
  lemma {:induction false} ReadersAgree(num: Numbers, lines: seq<string>)
    requires PyFold(num, lines).Some? && forall x <- PyFold(num, lines).value.models :: x.nFeatures >= 0
    ensures CppFold(num, lines) == PyFold(num, lines).value
  {
    hide PyLine, CppLine;
    if lines != [] {
      var n := |lines| - 1;
      var before := PyFold(num, lines[..n]).value;
      ModelsOnlyGrow(num, before, lines[n]);
      ReadersAgree(num, lines[..n]);
      LinesAgree(num, before, lines[n]);
    }
  }

  lemma ModelsOnlyGrow(num: Numbers, m: Manifest, line: string)
    requires PyLine(num, m, line).Some?
    ensures m.models <= PyLine(num, m, line).value.models
    ensures forall x <- m.models :: x in PyLine(num, m, line).value.models
  {
  }

  predicate Whole(x: real, n: int) {
    x == n as real
  }

  /** The words of a line that the Python reader does not raise on. */
  ghost predicate Readable(num: Numbers, words: seq<string>) {
    || words == [] || "#" <= words[0] || (words[0] != "COL" && words[0] != "MODEL")
    || (words[0] == "COL" && |words| >= 3 && num.parse(words[2]).Some?)
    || (words[0] == "MODEL" && |words| >= 5 && IntegerText(words[4])
        && num.parse(words[4]).Some? && exists n :: Whole(num.parse(words[4]).value, n))
  }

  /** The Python reader raises exactly on a text with an unreadable line, and reads one column or model of every line
      that begins with its word. */
  lemma {:induction false} PyAcceptsExactly(num: Numbers, lines: seq<string>)
    ensures PyFold(num, lines).Some? <==> forall i :: 0 <= i < |lines| ==> Readable(num, Words(lines[i]))
  {
    hide PyLine, Readable, Words;
    if lines != [] {
      var n := |lines| - 1;
      PyAcceptsExactly(num, lines[..n]);
      if PyFold(num, lines[..n]).Some? {
        PyLineReads(num, PyFold(num, lines[..n]).value, lines[n]);
      }
      assert forall i :: 0 <= i < n ==> lines[..n][i] == lines[i];
    }
  }

  lemma PyLineReads(num: Numbers, m: Manifest, line: string)
    ensures PyLine(num, m, line).Some? <==> Readable(num, Words(line))
  {
    hide Words;
    var words := Words(line);
    if |words| >= 5 && num.parse(words[4]).Some? {
      WholeExactly(num.parse(words[4]).value);
    }
  }

  lemma WholeExactly(x: real)
    ensures x.Floor as real == x <==> exists n :: Whole(x, n)
  {
    assert x.Floor as real == x <==> Whole(x, x.Floor);
    forall n | Whole(x, n) ensures n == x.Floor {
    }
  }

  /** The C++ reader raises on nothing: it goes by the first word, takes a missing word as empty, a missing or bad
      number as 0, and a negative count as 0. */
  lemma CppReadsOn(num: Numbers, m: Manifest, words: seq<string>)
    requires num.parse("").None? && (forall i :: 0 <= i < |words| ==> IsWord(words[i]))
    requires words != [] && !("#" <= words[0])
    ensures var t := CppLine(num, m, Spaced(words));
            var name := if |words| > 1 then words[1] else "";
            if words[0] == "COL" then
              && t.columns == m.columns + [name] && t.models == m.models
              && t.medians == m.medians[name := if |words| > 2 && num.parse(words[2]).Some?
                                                then num.parse(words[2]).value else 0.0]
            else if words[0] == "MODEL" then
              && t == m.(models := t.models) && |t.models| == |m.models| + 1 && m.models <= t.models
              && var x := t.models[|m.models|];
                 && x.name == name && x.path == (if |words| > 2 then words[2] else "")
                 && x.inputSet == (if |words| > 3 then words[3] else "")
                 && (|words| <= 4 || num.parse(words[4]).None? || num.parse(words[4]).value < 0.0 ==> x.nFeatures == 0)
                 && (forall n: nat ::
                       |words| > 4 && num.parse(words[4]).Some? && Whole(num.parse(words[4]).value, n) ==>
                                        x.nFeatures == n)
            else t == m
  {
    hide Words;
    WordsOfSpaced(words);
    assert IsWord(words[0]);
    assert Spaced(words) != "" && Spaced(words)[0] == words[0][0] != '#';
  }

  // ---- what the writer wrote is what they read ----

  predicate GoodModel(m: Model) {
    IsWord(m.name) && IsWord(m.path) && IsWord(m.inputSet) && m.nFeatures >= 0
  }

  /** The columns in training order, each with the ten-digit value of its median, and the models. */
  function Expected(cols: seq<string>, medians: string -> real, models: seq<Model>): Manifest {
    Manifest(cols, map c <- (set c <- cols) :: RoundTo10Digits(medians(c)), models)
  }

  lemma ColLineReads(num: Numbers, m: Manifest, c: string, median: real)
    requires num.Sane() && IsWord(c)
    ensures PyLine(num, m, ColLine(num, c, median)) == Some(WithColumn(m, c, RoundTo10Digits(median)))
    ensures '\n' !in ColLine(num, c, median)
  {
    hide RoundTo10Digits, Words;
    var words := ["COL", c, num.show(median)];
    assert IsWord(num.show(median)) && num.parse(num.show(median)) == Some(RoundTo10Digits(median));
    WordsOfSpaced(words);
    NoNewline(words);
  }

  lemma ModelLineReads(num: Numbers, m: Manifest, model: Model)
    requires num.Sane() && GoodModel(model)
    ensures PyLine(num, m, ModelLine(num, model)) == Some(WithModel(m, model))
    ensures '\n' !in ModelLine(num, model)
  {
    hide RoundTo10Digits, Words;
    var words := ["MODEL", model.name, model.path, model.inputSet, num.showInt(model.nFeatures)];
    assert IsWord(num.showInt(model.nFeatures))
      && num.parse(num.showInt(model.nFeatures)) == Some(model.nFeatures as real);
    WordsOfSpaced(words);
    NoNewline(words);
  }

  lemma {:induction false} NoNewline(words: seq<string>)
    requires forall i :: 0 <= i < |words| ==> IsWord(words[i])
    ensures '\n' !in Spaced(words)
  {
    if words != [] {
      NoNewline(words[1..]);
    }
  }

  lemma HeaderReads(num: Numbers)
    ensures PyFold(num, Header()) == Some(EMPTY)
    ensures forall i :: 0 <= i < |Header()| ==> '\n' !in Header()[i]
  {
    hide Words, Spaced;
    HeaderWords();
    WordsOfSpaced(TITLE);
    WordsOfSpaced(LEGEND);
    NoNewline(TITLE);
    NoNewline(LEGEND);
    var one: seq<string> := [Spaced(TITLE)];
    assert Header()[..1] == one && one[..0] == [];
    assert PyFold(num, []) == Some(EMPTY);
    assert PyFold(num, one) == Some(EMPTY);
  }

  lemma HeaderWords()
    ensures forall i :: 0 <= i < |TITLE| ==> IsWord(TITLE[i])
    ensures forall i :: 0 <= i < |LEGEND| ==> IsWord(LEGEND[i])
  {
    assert IsWord("#") && IsWord("serving") && IsWord("manifest") && IsWord("\U{2014}") && IsWord("generated")
      && IsWord("by");
    assert IsWord("tools/ml/train.py");
    assert IsWord("COL") && IsWord("<name>") && IsWord("<median>") && IsWord(";") && IsWord("MODEL")
      && IsWord("<path>");
    assert IsWord("<input_set>") && IsWord("<n_features>");
  }

  lemma FoldStep(num: Numbers, lines: seq<string>, line: string, m: Manifest)
    requires PyFold(num, lines) == Some(m)
    ensures PyFold(num, lines + [line]) == PyLine(num, m, line)
  {
    hide PyLine;
    assert (lines + [line])[..|lines + [line]| - 1] == lines;
  }

  lemma ColLinesSnoc(num: Numbers, cols: seq<string>, medians: string -> real)
    requires cols != []
    ensures var n := |cols| - 1;
            && ColLines(num, cols, medians)
                 == ColLines(num, cols[..n], medians) + [ColLine(num, cols[n], medians(cols[n]))]
            && Expected(cols, medians, []) ==
               WithColumn(Expected(cols[..n], medians, []), cols[n], RoundTo10Digits(medians(cols[n])))
  {
    hide ColLine, RoundTo10Digits;
    var n := |cols| - 1;
    assert cols == cols[..n] + [cols[n]];
    var before := Expected(cols[..n], medians, []);
    assert WithColumn(before, cols[n], RoundTo10Digits(medians(cols[n]))).medians
      == Expected(cols, medians, []).medians;
  }

  lemma {:induction false} ColumnsRead(num: Numbers, cols: seq<string>, medians: string -> real)
    requires num.Sane() && forall i :: 0 <= i < |cols| ==> IsWord(cols[i])
    ensures PyFold(num, Header() + ColLines(num, cols, medians)) == Some(Expected(cols, medians, []))
    ensures forall i :: 0 <= i < |ColLines(num, cols, medians)| ==> '\n' !in ColLines(num, cols, medians)[i]
  {
    hide *;
    if cols == [] {
      NoColumnsRead(num, medians);
    } else {
      var n := |cols| - 1;
      ColumnsRead(num, cols[..n], medians);
      ColLinesSnoc(num, cols, medians);
      var before, lines, line := Expected(cols[..n], medians, []), Header() + ColLines(num, cols[..n], medians),
        ColLine(num, cols[n], medians(cols[n]));
      ColLineReads(num, before, cols[n], medians(cols[n]));
      FoldStep(num, lines, line, before);
      assert Header() + ColLines(num, cols, medians) == lines + [line];
      assert forall i :: 0 <= i < |cols[..n]| ==> IsWord(cols[..n][i]);
    }
  }

  lemma NoColumnsRead(num: Numbers, medians: string -> real)
    ensures PyFold(num, Header() + ColLines(num, [], medians)) == Some(Expected([], medians, []))
    ensures ColLines(num, [], medians) == []
  {
    HeaderReads(num);
    hide Header, PyFold;
    assert Header() + ColLines(num, [], medians) == Header();
    assert Expected([], medians, []) == EMPTY;
  }

  lemma ModelLinesSnoc(num: Numbers, models: seq<Model>)
    requires models != []
    ensures var n := |models| - 1;
            ModelLines(num, models) == ModelLines(num, models[..n]) + [ModelLine(num, models[n])]
  {
    hide ModelLine;
  }

  lemma {:induction false} ModelsRead(num: Numbers, cols: seq<string>, medians: string -> real, models: seq<Model>)
    requires num.Sane() && (forall i :: 0 <= i < |cols| ==> IsWord(cols[i]))
    requires forall i :: 0 <= i < |models| ==> GoodModel(models[i])
    ensures PyFold(num, Header() + ColLines(num, cols, medians) + ModelLines(num, models))
            == Some(Expected(cols, medians, models))
    ensures forall i :: 0 <= i < |ModelLines(num, models)| ==> '\n' !in ModelLines(num, models)[i]
  {
    hide PyFold, PyLine, ColLine, ModelLine, ColLines, Header;
    var lines := Header() + ColLines(num, cols, medians);
    if models == [] {
      ColumnsRead(num, cols, medians);
      assert lines + ModelLines(num, models) == lines;
    } else {
      var n := |models| - 1;
      ModelsRead(num, cols, medians, models[..n]);
      ModelLinesSnoc(num, models);
      ModelLineReads(num, Expected(cols, medians, models[..n]), models[n]);
      FoldStep(num, lines + ModelLines(num, models[..n]), ModelLine(num, models[n]),
               Expected(cols, medians, models[..n]));
      assert lines + ModelLines(num, models) == lines + ModelLines(num, models[..n]) + [ModelLine(num, models[n])];
      assert models == models[..n] + [models[n]];
    }
  }

  /** Main result: both readers get back the written columns in order, the models, and every median as far as ten
      significant digits carry it. */
  lemma ManifestRoundTrip(num: Numbers, cols: seq<string>, medians: string -> real, models: seq<Model>)
    requires num.Sane() && (forall i :: 0 <= i < |cols| ==> IsWord(cols[i]))
    requires forall i :: 0 <= i < |models| ==> GoodModel(models[i])
    ensures var lines := Items(Unlines(ManifestLines(num, cols, medians, models)), '\n');
            && PyFold(num, lines) == Some(Expected(cols, medians, models))
            && CppFold(num, lines) == Expected(cols, medians, models)
  {
    hide PyFold, CppFold, ColLines, ModelLines, Header, Unlines, Items, Expected;
    var lines := ManifestLines(num, cols, medians, models);
    HeaderReads(num);
    ColumnsRead(num, cols, medians);
    ModelsRead(num, cols, medians, models);
    LinesOfUnlines(lines);
    forall x | x in models ensures x.nFeatures >= 0 {
      var i :| 0 <= i < |models| && models[i] == x;
      assert GoodModel(models[i]);
    }
    ModelsOfExpected(cols, medians, models);
    ReadersAgree(num, lines);
  }

  lemma ModelsOfExpected(cols: seq<string>, medians: string -> real, models: seq<Model>)
    ensures Expected(cols, medians, models).models == models
  {
  }
}
