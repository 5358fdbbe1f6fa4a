/**
 The C++ nesting scanner (cppControlCount, updateCppDepth and analyzeCppSource in tools/dev/audit_control_flow.js), on
 lines whose comments and literals are already blanked.
 */
module CppNesting {
  import opened Extrema

  // ---- counting control words ----

  predicate WordChar(c: char) {
    'a' <= c <= 'z' || 'A' <= c <= 'Z' || '0' <= c <= '9' || c == '_'
  }

  predicate Blank(c: char) { c == ' ' || c == '\t' || c == '\r' }

  predicate ControlWord(w: string) {
    w == "if" || w == "for" || w == "while" || w == "switch" || w == "try" || w == "catch"
  }

  /** The length of the word at the front. */
  function WordLength(text: string): (n: nat)
    ensures n <= |text|
    ensures forall i :: 0 <= i < n ==> WordChar(text[i])
    ensures n < |text| ==> !WordChar(text[n])
  {
    if text == "" || !WordChar(text[0]) then 0 else 1 + WordLength(text[1..])
  }

  /** Control words in `text`; an "if" does not count when only blanks part it from an "else". */
  function Count(text: string, afterElse: bool): nat
    decreases |text|
  {
    if text == "" then 0
    else if !WordChar(text[0]) then Count(text[1..], afterElse && Blank(text[0]))
    else
      var n := WordLength(text);
      var w := text[..n];
      (if ControlWord(w) && !(w == "if" && afterElse) then 1 else 0) + Count(text[n..], w == "else")
  }

  function CppControlCount(line: string): nat { Count(line, false) }

  lemma {:induction false} WordLengthIs(text: string, n: nat)
    requires n <= |text| && (n < |text| ==> !WordChar(text[n]))
    requires forall i :: 0 <= i < n ==> WordChar(text[i])
    ensures WordLength(text) == n
  {
    if n > 0 {
      WordLengthIs(text[1..], n - 1);
    }
  }

  lemma {:induction false} NoWords(t: string, afterElse: bool)
    requires forall i :: 0 <= i < |t| ==> !WordChar(t[i])
    ensures Count(t, afterElse) == 0
  {
    if t != "" {
      NoWords(t[1..], afterElse && Blank(t[0]));
    }
  }

  /** Punctuation after a line adds no control word. */
  lemma {:induction false} CountSuffix(text: string, t: string, afterElse: bool)
    requires forall i :: 0 <= i < |t| ==> !WordChar(t[i])
    ensures Count(text + t, afterElse) == Count(text, afterElse)
    decreases |text|
  {
    hide ControlWord;
    if text == "" {
      assert text + t == t;
      NoWords(t, afterElse);
    } else if !WordChar(text[0]) {
      assert (text + t)[1..] == text[1..] + t;
      CountSuffix(text[1..], t, afterElse && Blank(text[0]));
    } else {
      var n := WordLength(text);
      WordLengthIs(text + t, n);
      assert (text + t)[..n] == text[..n] && (text + t)[n..] == text[n..] + t;
      CountSuffix(text[n..], t, text[..n] == "else");
    }
  }

  // What the two patterns of the source mean: whole words, and an "else" parted from its "if" by blanks alone.

  predicate WholeWordAt(line: string, i: nat, w: string) {
    && i + |w| <= |line| && line[i..i + |w|] == w
    && (i > 0 ==> !WordChar(line[i - 1])) && (i + |w| < |line| ==> !WordChar(line[i + |w|]))
  }

  /** Only blanks stand between an "else" and position i. */
  ghost predicate ElseBefore(line: string, i: nat)
    requires i <= |line|
  {
    exists j: nat :: j + 4 <= i && WholeWordAt(line, j, "else") && forall k :: j + 4 <= k < i ==> Blank(line[k])
  }

  ghost predicate ControlAt(line: string, i: nat)
    requires i < |line|
  {
    || (WholeWordAt(line, i, "if") && !ElseBefore(line, i))
    || WholeWordAt(line, i, "for") || WholeWordAt(line, i, "while") || WholeWordAt(line, i, "switch")
    || WholeWordAt(line, i, "try") || WholeWordAt(line, i, "catch")
  }

  /** How many of the first k positions start a control. */
  ghost function Controls(line: string, k: nat): nat
    requires k <= |line|
  {
    if k == 0 then 0 else Controls(line, k - 1) + if ControlAt(line, k - 1) then 1 else 0
  }

  /** No word runs across position k. */
  predicate Cut(line: string, k: nat)
    requires k <= |line|
  {
    0 < k < |line| ==> !WordChar(line[k - 1]) || !WordChar(line[k])
  }

  lemma NoWordAcross(line: string, i: nat, w: string, k: nat)
    requires k <= |line| && Cut(line, k) && WholeWordAt(line, i, w) && forall j :: 0 <= j < |w| ==> WordChar(w[j])
    ensures i >= k || i + |w| <= k
  {
    forall j | i <= j < i + |w| ensures WordChar(line[j]) {
      assert line[j] == line[i..i + |w|][j - i];
    }
  }

  /** The word that starts at a cut is the only whole word there. */
  lemma WordAtCut(line: string, k: nat, w: string)
    requires k < |line| && Cut(line, k) && WordChar(line[k])
    requires w != "" && forall j :: 0 <= j < |w| ==> WordChar(w[j])
    ensures WholeWordAt(line, k, w) <==> line[k..][..WordLength(line[k..])] == w
  {
    var n := WordLength(line[k..]);
    assert line[k..][..n] == line[k..k + n];
    assert n > 0 && (k + n < |line| ==> line[k + n] == line[k..][n]);
    if WholeWordAt(line, k, w) {
      forall j | 0 <= j < |w| ensures WordChar(line[k..][j]) {
        assert line[k..][j] == line[k..k + |w|][j];
      }
      WordLengthIs(line[k..], |w|);
    }
  }

  lemma ControlAtCut(line: string, k: nat)
    requires k < |line| && Cut(line, k) && WordChar(line[k])
    ensures var w := line[k..][..WordLength(line[k..])];
            ControlAt(line, k) <==> ControlWord(w) && !(w == "if" && ElseBefore(line, k))
  {
    hide WordLength, WholeWordAt, ElseBefore;
    WordAtCut(line, k, "if");
    WordAtCut(line, k, "for");
    WordAtCut(line, k, "while");
    WordAtCut(line, k, "switch");
    WordAtCut(line, k, "try");
    WordAtCut(line, k, "catch");
  }

  lemma {:induction false} NoControlsInside(line: string, k: nat, m: nat)
    requires k < m <= |line| && forall i :: k <= i < m ==> WordChar(line[i])
    ensures Controls(line, m) == Controls(line, k + 1)
  {
    if k + 1 < m {
      NoControlsInside(line, k, m - 1);
    }
  }

  lemma ElseAfterWord(line: string, k: nat, n: nat)
    requires k + n <= |line| && n > 0 && Cut(line, k) && n == WordLength(line[k..])
    ensures ElseBefore(line, k + n) <==> line[k..][..n] == "else"
  {
    assert forall i :: k <= i < k + n ==> line[i] == line[k..][i - k];
    WordAtCut(line, k, "else");
    if ElseBefore(line, k + n) {
      var j: nat :| j + 4 <= k + n && WholeWordAt(line, j, "else") && forall i :: j + 4 <= i < k + n ==> Blank(line[i]);
      assert WordChar(line[k + n - 1]);
      NoWordAcross(line, j, "else", k);
    }
  }

  lemma ElseAfterChar(line: string, k: nat)
    requires k < |line| && !WordChar(line[k])
    ensures ElseBefore(line, k + 1) <==> ElseBefore(line, k) && Blank(line[k])
  {
    if ElseBefore(line, k + 1) {
      var j: nat :| j + 4 <= k + 1 && WholeWordAt(line, j, "else") && forall i :: j + 4 <= i < k + 1 ==> Blank(line[i]);
      assert line[j + 3] == "else"[3];
    }
  }

  lemma {:induction false} CountFrom(line: string, k: nat)
    requires k <= |line| && Cut(line, k)
    ensures Controls(line, |line|) == Controls(line, k) + Count(line[k..], ElseBefore(line, k))
    decreases |line| - k
  {
    hide WholeWordAt, ElseBefore, ControlAt, ControlWord;
    if k < |line| {
      var rest := line[k..];
      assert rest[0] == line[k];
      if !WordChar(line[k]) {
        assert rest[1..] == line[k + 1..];
        ElseAfterChar(line, k);
        NoControlAtPunctuation(line, k);
        CountFrom(line, k + 1);
      } else {
        var n := WordLength(rest);
        assert rest[n..] == line[k + n..];
        assert forall i :: k <= i < k + n ==> line[i] == rest[i - k];
        assert k + n < |line| ==> line[k + n] == rest[n];
        ElseAfterWord(line, k, n);
        ControlAtCut(line, k);
        NoControlsInside(line, k, k + n);
        CountFrom(line, k + n);
      }
    }
  }

  lemma NoControlAtPunctuation(line: string, k: nat)
    requires k < |line| && !WordChar(line[k])
    ensures !ControlAt(line, k)
  {
  }

  /** The count is the number of positions where a control word stands, an "if" after an "else" left out. */
  lemma CountsControlWords(line: string)
    ensures CppControlCount(line) == Controls(line, |line|)
  {
    CountFrom(line, 0);
    assert line[0..] == line;
  }

  lemma CountWord(w: string, rest: string, afterElse: bool)
    requires w != "" && (forall i :: 0 <= i < |w| ==> WordChar(w[i]))
    requires rest != "" ==> !WordChar(rest[0])
    ensures Count(w + rest, afterElse)
         == (if ControlWord(w) && !(w == "if" && afterElse) then 1 else 0) + Count(rest, w == "else")
  {
    hide ControlWord;
    WordLengthIs(w + rest, |w|);
    assert (w + rest)[..|w|] == w && (w + rest)[|w|..] == rest;
  }

  /** An "else if" adds nothing where an "if" adds one, however many blanks part the words. */
  lemma ElseIfAddsNothing(blanks: string, rest: string)
    requires blanks != "" && (forall i :: 0 <= i < |blanks| ==> Blank(blanks[i]))
    requires rest != "" ==> !WordChar(rest[0])
    ensures CppControlCount("else" + (blanks + ("if" + rest))) == Count(rest, false)
    ensures CppControlCount("if" + rest) == 1 + Count(rest, false)
  {
    CountWord("else", blanks + ("if" + rest), false);
    CountBlanks(blanks, "if" + rest);
    CountWord("if", rest, true);
    CountWord("if", rest, false);
  }

  lemma {:induction false} CountBlanks(blanks: string, rest: string)
    requires forall i :: 0 <= i < |blanks| ==> Blank(blanks[i])
    ensures Count(blanks + rest, true) == Count(rest, true)
  {
    if blanks == "" {
      assert blanks + rest == rest;
    } else {
      assert (blanks + rest)[1..] == blanks[1..] + rest;
      CountBlanks(blanks[1..], rest);
    }
  }

  // ---- the scanner's state ----

  /** Between characters: the controls each open block introduced, the controls still waiting for a body, the depth. */
  datatype Scan = Scan(blocks: seq<nat>, pending: nat, depth: int, maxDepth: int, deepestLine: nat)

  const START := Scan([], 0, 0, 0, 1)

  function Sum(blocks: seq<nat>): nat {
    if blocks == [] then 0 else Sum(blocks[..|blocks| - 1]) + blocks[|blocks| - 1]
  }

  /** The blocks, pending controls and depth after a character. */
  function Moved(s: Scan, c: char): Scan {
    if c == '{' then s.(depth := s.depth + s.pending, blocks := s.blocks + [s.pending], pending := 0)
    else if c == '}' && s.blocks != [] then
      s.(depth := s.depth - s.blocks[|s.blocks| - 1], blocks := s.blocks[..|s.blocks| - 1])
    else if c == ';' then s.(pending := 0)
    else s
  }

  /** The depth while a character is read: a statement without a block stands inside the pending controls. */
  function Reached(s: Scan, c: char): int {
    Moved(s, c).depth + if c == ';' then s.pending else 0
  }

  function Step(s: Scan, c: char, line: nat): Scan {
    var t := Moved(s, c);
    if Reached(s, c) > s.maxDepth then t.(maxDepth := Reached(s, c), deepestLine := line) else t
  }

  function Chars(s: Scan, text: string, line: nat): Scan {
    if text == "" then s else Step(Chars(s, text[..|text| - 1], line), text[|text| - 1], line)
  }

  function Entered(s: Scan, text: string): Scan {
    s.(pending := s.pending + CppControlCount(text))
  }

  function Line(s: Scan, text: string, line: nat): Scan {
    Chars(Entered(s, text), text, line)
  }

  function Lines(s: Scan, lines: seq<string>, first: nat): Scan {
    if lines == [] then s
    else Line(Lines(s, lines[..|lines| - 1], first), lines[|lines| - 1], first + |lines| - 1)
  }

  // ---- the block stack carries the depth ----

  ghost predicate Balanced(s: Scan) {
    s.depth == Sum(s.blocks) && s.depth <= s.maxDepth
  }

  lemma StepBalanced(s: Scan, c: char, line: nat)
    requires Balanced(s)
    ensures Balanced(Step(s, c, line))
  {
    if c == '{' {
      assert (s.blocks + [s.pending])[..|s.blocks|] == s.blocks;
    }
  }

  /** After every character of a line the depth is the sum of the block stack, so it is never negative. */
  lemma {:induction false} CharsBalanced(s: Scan, text: string, line: nat)
    requires Balanced(s)
    ensures Balanced(Chars(s, text, line)) && Chars(s, text, line).depth >= 0
  {
    hide Step;
    if text != "" {
      CharsBalanced(s, text[..|text| - 1], line);
      StepBalanced(Chars(s, text[..|text| - 1], line), text[|text| - 1], line);
    }
  }

  lemma {:induction false} LinesBalanced(s: Scan, lines: seq<string>, first: nat)
    requires Balanced(s)
    ensures Balanced(Lines(s, lines, first))
  {
    hide Chars;
    if lines != [] {
      var n := |lines| - 1;
      LinesBalanced(s, lines[..n], first);
      CharsBalanced(Entered(Lines(s, lines[..n], first), lines[n]), lines[n], first + n);
    }
  }

  // ---- the maximum is the deepest point reached, and the line is the first that reaches it ----

  /** The depth reached at every character read so far, with its line. */
  datatype Point = Point(depth: int, line: nat)

  function LinePoints(s: Scan, text: string, line: nat): seq<Point> {
    if text == "" then []
    else
      var n := |text| - 1;
      LinePoints(s, text[..n], line) + [Point(Reached(Chars(s, text[..n], line), text[n]), line)]
  }

  function Points(lines: seq<string>): seq<Point> {
    if lines == [] then []
    else
      var n := |lines| - 1;
      Points(lines[..n]) + LinePoints(Entered(Lines(START, lines[..n], 1), lines[n]), lines[n], n + 1)
  }

  /** `depth` and `line` belong to the first of the deepest points; without a point above the ground they are 0 and
      1. */
  ghost predicate FirstDeepest(points: seq<Point>, depth: int, line: nat) {
    && (forall i :: 0 <= i < |points| ==> points[i].depth <= depth)
    && (|| (depth == 0 && line == 1)
        || exists i :: 0 <= i < |points| && points[i] == Point(depth, line) && forall j :: 0 <= j < i ==>
             points[j].depth < depth)
  }

  lemma FirstDeepestGrows(points: seq<Point>, depth: int, line: nat, p: Point)
    requires FirstDeepest(points, depth, line) && depth >= 0
    ensures if p.depth > depth then FirstDeepest(points + [p], p.depth, p.line)
            else FirstDeepest(points + [p], depth, line)
  {
    var all := points + [p];
    if p.depth > depth {
      assert all[|points|] == p;
      assert forall j :: 0 <= j < |points| ==> all[j].depth < p.depth;
    } else if !(depth == 0 && line == 1) {
      var i :| 0 <= i < |points| && points[i] == Point(depth, line) && forall j :: 0 <= j < i ==>
        points[j].depth < depth;
      assert all[i] == Point(depth, line) && forall j :: 0 <= j < i ==> all[j].depth < depth;
    }
  }

  lemma {:induction false} LineFirstDeepest(before: seq<Point>, s: Scan, text: string, line: nat)
    requires FirstDeepest(before, s.maxDepth, s.deepestLine) && s.maxDepth >= 0
    ensures var t := Chars(s, text, line);
            t.maxDepth >= 0 && FirstDeepest(before + LinePoints(s, text, line), t.maxDepth, t.deepestLine)
  {
    hide FirstDeepest, Reached, Moved;
    if text == "" {
      assert before + LinePoints(s, text, line) == before;
    } else {
      var n := |text| - 1;
      LineFirstDeepest(before, s, text[..n], line);
      var t := Chars(s, text[..n], line);
      var p := Point(Reached(t, text[n]), line);
      MovedKeepsMaximum(t, text[n]);
      FirstDeepestGrows(before + LinePoints(s, text[..n], line), t.maxDepth, t.deepestLine, p);
      assert before + LinePoints(s, text, line) == (before + LinePoints(s, text[..n], line)) + [p];
    }
  }

  lemma MovedKeepsMaximum(s: Scan, c: char)
    ensures Moved(s, c).maxDepth == s.maxDepth && Moved(s, c).deepestLine == s.deepestLine
  {
  }

  /** The scan of any lines reports the deepest point reached, and the line where it was first reached. */
  lemma {:induction false} ReportsFirstDeepest(lines: seq<string>)
    ensures var t := Lines(START, lines, 1);
            t.maxDepth >= 0 && FirstDeepest(Points(lines), t.maxDepth, t.deepestLine)
  {
    hide FirstDeepest, Chars, LinePoints, CppControlCount;
    if lines == [] {
      NothingDeepest();
    } else {
      var n := |lines| - 1;
      ReportsFirstDeepest(lines[..n]);
      LineFirstDeepest(Points(lines[..n]), Entered(Lines(START, lines[..n], 1), lines[n]), lines[n], n + 1);
    }
  }

  lemma NothingDeepest()
    ensures FirstDeepest([], 0, 1)
  {
  }

  // ---- programs as trees of brace blocks ----

  /** A run of lines closed by ';', or header lines with a brace block. */
  datatype Item = Simple(text: seq<string>) | Block(header: seq<string>, body: seq<Item>)

  predicate NoBrace(text: string) {
    forall i :: 0 <= i < |text| ==> text[i] != '{' && text[i] != '}'
  }

  predicate Plain(lines: seq<string>) {
    lines != [] && forall i :: 0 <= i < |lines| ==> NoBrace(lines[i])
  }

  predicate Formed(item: Item) {
    match item
    case Simple(text) => Plain(text)
    case Block(header, body) => Plain(header) && AllFormed(body)
  }

  predicate AllFormed(items: seq<Item>) {
    items == [] || (Formed(items[0]) && AllFormed(items[1..]))
  }

  function WithEnd(lines: seq<string>, end: string): seq<string>
    requires lines != []
  {
    lines[..|lines| - 1] + [lines[|lines| - 1] + end]
  }

  function Printed(item: Item): seq<string>
    requires Formed(item)
  {
    match item
    case Simple(text) => WithEnd(text, ";")
    case Block(header, body) => WithEnd(header, " {") + (AllPrinted(body) + ["}"])
  }

  function AllPrinted(items: seq<Item>): seq<string>
    requires AllFormed(items)
  {
    if items == [] then [] else Printed(items[0]) + AllPrinted(items[1..])
  }

  // What the scanner makes of brace-free lines: a ';' uses up the controls of its whole line and of those before it.

  function Carry(pending: nat, lines: seq<string>): nat
    decreases |lines|
  {
    if lines == [] then pending
    else Carry(if ';' in lines[0] then 0 else pending + CppControlCount(lines[0]), lines[1..])
  }

  function Peak(pending: nat, lines: seq<string>): int
    decreases |lines|
  {
    if lines == [] then 0
    else if ';' in lines[0] then MaxInt(pending + CppControlCount(lines[0]), Peak(0, lines[1..]))
    else Peak(pending + CppControlCount(lines[0]), lines[1..])
  }

  function Height(item: Item): int {
    match item
    case Simple(text) => MaxInt(Peak(0, text), Carry(0, text))
    case Block(header, body) => MaxInt(Peak(0, header), Carry(0, header) + AllHeight(body))
  }

  function AllHeight(items: seq<Item>): int {
    if items == [] then 0 else MaxInt(Height(items[0]), AllHeight(items[1..]))
  }

  /** A scan that ends as it began, having reached `height` above its depth. */
  ghost predicate Rose(s: Scan, t: Scan, height: int) {
    t.blocks == s.blocks && t.depth == s.depth && t.pending == 0 && t.maxDepth == MaxInt(s.maxDepth, s.depth + height)
  }

  lemma {:induction false} LinesDistribute(s: Scan, a: seq<string>, b: seq<string>, first: nat)
    ensures Lines(s, a + b, first) == Lines(Lines(s, a, first), b, first + |a|)
  {
    hide Line;
    if b == [] {
      assert a + b == a;
    } else {
      var n := |b| - 1;
      LinesDistribute(s, a, b[..n], first);
      assert (a + b)[..|a + b| - 1] == a + b[..n];
    }
  }

  lemma {:induction false} CharsDistribute(s: Scan, a: string, b: string, line: nat)
    ensures Chars(s, a + b, line) == Chars(Chars(s, a, line), b, line)
  {
    hide Step;
    if b == [] {
      assert a + b == a;
    } else {
      var n := |b| - 1;
      CharsDistribute(s, a, b[..n], line);
      assert (a + b)[..|a + b| - 1] == a + b[..n];
    }
  }

  /** Brace-free text: its first ';' stands inside the pending controls and uses them up. */
  lemma {:induction false} PlainText(s: Scan, text: string, line: nat)
    requires NoBrace(text) && s.depth <= s.maxDepth
    ensures var t := Chars(s, text, line);
            && t.blocks == s.blocks && t.depth == s.depth
            && t.pending == (if ';' in text then 0 else s.pending)
            && t.maxDepth == (if ';' in text then MaxInt(s.maxDepth, s.depth + s.pending) else s.maxDepth)
  {
    if text != "" {
      var n := |text| - 1;
      PlainText(s, text[..n], line);
      assert text == text[..n] + [text[n]];
    }
  }

  lemma {:induction false} PlainLines(s: Scan, lines: seq<string>, first: nat)
    requires (forall i :: 0 <= i < |lines| ==> NoBrace(lines[i])) && s.depth <= s.maxDepth
    ensures var t := Lines(s, lines, first);
            && t.blocks == s.blocks && t.depth == s.depth
            && t.pending == Carry(s.pending, lines)
            && t.maxDepth == MaxInt(s.maxDepth, s.depth + Peak(s.pending, lines))
    decreases |lines|
  {
    hide Chars, CppControlCount, NoBrace;
    if lines != [] {
      assert lines == [lines[0]] + lines[1..];
      LinesDistribute(s, [lines[0]], lines[1..], first);
      assert [lines[0]][..0] == [];
      assert Lines(s, [lines[0]], first) == Line(s, lines[0], first);
      PlainText(Entered(s, lines[0]), lines[0], first);
      PlainLines(Line(s, lines[0], first), lines[1..], first + 1);
    }
  }

  /** The last line's closing punctuation is read after the line. */
  lemma LinesWithEnd(s: Scan, lines: seq<string>, end: string, first: nat)
    requires lines != [] && forall i :: 0 <= i < |end| ==> !WordChar(end[i])
    ensures Lines(s, WithEnd(lines, end), first) == Chars(Lines(s, lines, first), end, first + |lines| - 1)
  {
    hide Chars;
    var n := |lines| - 1;
    CountSuffix(lines[n], end, false);
    CharsDistribute(Entered(Lines(s, lines[..n], first), lines[n]), lines[n], end, first + n);
    assert WithEnd(lines, end)[..n] == lines[..n];
  }

  lemma SimpleRises(s: Scan, text: seq<string>, first: nat)
    requires Plain(text) && s.pending == 0 && s.depth <= s.maxDepth
    ensures Rose(s, Lines(s, WithEnd(text, ";"), first), Height(Simple(text)))
  {
    hide Lines, Peak, Carry;
    LinesWithEnd(s, text, ";", first);
    PlainLines(s, text, first);
    OneChar(Lines(s, text, first), ';', first + |text| - 1);
  }

  lemma OneChar(s: Scan, c: char, line: nat)
    ensures Chars(s, [c], line) == Step(s, c, line)
  {
    assert [c][..0] == [];
    assert Chars(s, [], line) == s;
  }

  lemma OpenBlock(s: Scan, header: seq<string>, first: nat)
    requires Plain(header) && s.pending == 0 && s.depth <= s.maxDepth
    ensures var t := Lines(s, WithEnd(header, " {"), first);
            && t.blocks == s.blocks + [Carry(0, header)] && t.depth == s.depth + Carry(0, header) && t.pending == 0
            && t.maxDepth == MaxInt(s.maxDepth, s.depth + MaxInt(Peak(0, header), Carry(0, header)))
  {
    hide Lines, Peak, Carry;
    LinesWithEnd(s, header, " {", first);
    PlainLines(s, header, first);
    var t, n := Lines(s, header, first), first + |header| - 1;
    assert " {" == [' '] + ['{'];
    CharsDistribute(t, [' '], ['{'], n);
    OneChar(t, ' ', n);
    OneChar(Step(t, ' ', n), '{', n);
  }

  lemma CloseBlock(s: Scan, line: nat)
    requires s.blocks != [] && s.pending == 0 && s.depth <= s.maxDepth
    ensures Lines(s, ["}"], line)
         == s.(depth := s.depth - s.blocks[|s.blocks| - 1], blocks := s.blocks[..|s.blocks| - 1])
  {
    NoWords("}", false);
    assert ["}"][..0] == [];
    assert Lines(s, [], line) == s;
    OneChar(s, '}', line);
  }

  lemma {:induction false} ItemRises(s: Scan, item: Item, first: nat)
    requires Formed(item) && s.pending == 0 && s.depth <= s.maxDepth
    ensures Rose(s, Lines(s, Printed(item), first), Height(item))
    decreases item
  {
    hide Lines, Peak, Carry, WithEnd, NoBrace;
    match item
    case Simple(text) => SimpleRises(s, text, first);
    case Block(header, body) =>
      var opening := WithEnd(header, " {");
      LinesDistribute(s, opening, AllPrinted(body) + ["}"], first);
      var entered := Lines(s, opening, first);
      OpenBlock(s, header, first);
      LinesDistribute(entered, AllPrinted(body), ["}"], first + |opening|);
      var inside := Lines(entered, AllPrinted(body), first + |opening|);
      ItemsRise(entered, body, first + |opening|);
      CloseBlock(inside, first + |opening| + |AllPrinted(body)|);
      HeightNotNegative(body);
  }

  lemma {:induction false} HeightNotNegative(items: seq<Item>)
    ensures AllHeight(items) >= 0
  {
    if items != [] {
      HeightNotNegative(items[1..]);
    }
  }

  lemma {:induction false} ItemsRise(s: Scan, items: seq<Item>, first: nat)
    requires AllFormed(items) && s.pending == 0 && s.depth <= s.maxDepth
    ensures Rose(s, Lines(s, AllPrinted(items), first), AllHeight(items))
    decreases items
  {
    hide Line, Height, Printed;
    if items != [] {
      var one := Printed(items[0]);
      LinesDistribute(s, one, AllPrinted(items[1..]), first);
      ItemRises(s, items[0], first);
      ItemsRise(Lines(s, one, first), items[1..], first + |one|);
    }
  }

  /** On the text of any program tree the scanner reports the tree's height and ends where it began. */
  lemma TreeDepth(items: seq<Item>)
    requires AllFormed(items)
    ensures var t := Lines(START, AllPrinted(items), 1);
            t.maxDepth == AllHeight(items) && t.depth == 0 && t.blocks == [] && t.pending == 0
  {
    hide Lines, AllHeight, AllPrinted;
    ItemsRise(START, items, 1);
    HeightNotNegative(items);
  }

  // ---- the height a reader expects ----

  function Weight(lines: seq<string>): nat {
    if lines == [] then 0 else CppControlCount(lines[0]) + Weight(lines[1..])
  }

  /** Every control word of a block's header counts for the whole block. */
  function Nesting(item: Item): int {
    match item
    case Simple(text) => Height(item)
    case Block(header, body) => Weight(header) + AllNesting(body)
  }

  function AllNesting(items: seq<Item>): int {
    if items == [] then 0 else MaxInt(Nesting(items[0]), AllNesting(items[1..]))
  }

  predicate NoSemicolon(lines: seq<string>) {
    forall i :: 0 <= i < |lines| ==> ';' !in lines[i]
  }

  predicate CleanHeaders(item: Item) {
    match item
    case Simple(_) => true
    case Block(header, body) => NoSemicolon(header) && AllCleanHeaders(body)
  }

  predicate AllCleanHeaders(items: seq<Item>) {
    items == [] || (CleanHeaders(items[0]) && AllCleanHeaders(items[1..]))
  }

  lemma {:induction false} CleanHeader(pending: nat, lines: seq<string>)
    requires NoSemicolon(lines)
    ensures Carry(pending, lines) == pending + Weight(lines) && Peak(pending, lines) == 0
    decreases |lines|
  {
    hide CppControlCount;
    if lines != [] {
      CleanHeader(pending + CppControlCount(lines[0]), lines[1..]);
    }
  }

  lemma {:induction false} ItemNesting(item: Item)
    requires CleanHeaders(item)
    ensures Height(item) == Nesting(item)
    decreases item
  {
    hide Carry, Peak, Weight;
    if item.Block? {
      CleanHeader(0, item.header);
      ItemsNesting(item.body);
      HeightNotNegative(item.body);
    }
  }

  /** Without a ';' in a header the reported height is the nesting. */
  lemma {:induction false} ItemsNesting(items: seq<Item>)
    requires AllCleanHeaders(items)
    ensures AllHeight(items) == AllNesting(items)
    decreases items
  {
    if items != [] {
      ItemNesting(items[0]);
      ItemsNesting(items[1..]);
    }
  }

  function CarriedPart(lines: seq<string>): seq<string> {
    if lines == [] then []
    else if NoSemicolon(lines) then lines
    else CarriedPart(lines[1..])
  }

  /** A header's controls reach its block exactly as far as they stand after the last line with a ';'. */
  lemma {:induction false} CarriedAfterLastSemicolon(pending: nat, header: seq<string>)
    requires !NoSemicolon(header)
    ensures Carry(pending, header) == Weight(CarriedPart(header)) <= Weight(header)
    decreases |header|
  {
    hide CppControlCount;
    var rest := header[1..];
    if NoSemicolon(rest) {
      CleanHeader(0, rest);
      assert ';' in header[0];
      if rest == [] { assert CarriedPart(rest) == []; }
    } else {
      var next := if ';' in header[0] then 0 else pending + CppControlCount(header[0]);
      CarriedAfterLastSemicolon(next, rest);
    }
  }

  /** The lines of a header up to its last one with a ';'. */
  function UsedUpPart(header: seq<string>): seq<string> {
    if header == [] || NoSemicolon(header) then [] else [header[0]] + UsedUpPart(header[1..])
  }

  lemma {:induction false} WeightSplits(pending: nat, header: seq<string>)
    ensures Weight(UsedUpPart(header)) + Weight(CarriedPart(header)) == Weight(header)
    ensures Carry(pending, header) == Weight(CarriedPart(header)) + if NoSemicolon(header) then pending else 0
    decreases |header|
  {
    hide CppControlCount;
    if NoSemicolon(header) {
      CleanHeader(pending, header);
    } else {
      var next := if ';' in header[0] then 0 else pending + CppControlCount(header[0]);
      WeightSplits(next, header[1..]);
      var rest := UsedUpPart(header[1..]);
      assert ([header[0]] + rest)[1..] == rest;
      assert NoSemicolon(header[1..]) ==> ';' in header[0];
    }
  }

  lemma {:induction false} PeakBounded(pending: nat, lines: seq<string>)
    ensures Peak(pending, lines) <= pending + Weight(lines)
    decreases |lines|
  {
    hide CppControlCount;
    if lines != [] {
      PeakBounded(if ';' in lines[0] then 0 else pending + CppControlCount(lines[0]), lines[1..]);
    }
  }

  /** The scanner's report on one block. */
  function Reported(header: seq<string>, body: seq<Item>): int
    requires Plain(header) && AllFormed(body)
  {
    Lines(START, Printed(Block(header, body)), 1).maxDepth
  }

  /** Whatever clean body it has, a block with this header is reported with its full nesting. */
  ghost predicate MeasuredInFull(header: seq<string>)
    requires Plain(header)
  {
    forall body: seq<Item> :: AllFormed(body) && AllCleanHeaders(body) ==>
      Reported(header, body) == Nesting(Block(header, body))
  }

  lemma ReportedIs(header: seq<string>, body: seq<Item>)
    requires Plain(header) && AllFormed(body) && AllCleanHeaders(body)
    ensures Reported(header, body) == MaxInt(Peak(0, header), Carry(0, header) + AllNesting(body))
    ensures Nesting(Block(header, body)) == Weight(header) + AllNesting(body)
    ensures AllNesting(body) >= 0
  {
    hide Lines, Peak, Carry, Printed, AllHeight, AllNesting, Plain, AllFormed, AllCleanHeaders;
    var item := Block(header, body);
    BlockFormed(header, body);
    ItemRises(START, item, 1);
    ItemsNesting(body);
    HeightNotNegative(body);
  }

  lemma BlockFormed(header: seq<string>, body: seq<Item>)
    requires Plain(header) && AllFormed(body)
    ensures Formed(Block(header, body))
  {
  }

  /** n nested `if` blocks. */
  function Deep(n: nat): seq<Item> {
    if n == 0 then [] else [Block(["if"], Deep(n - 1))]
  }

  lemma {:induction false} DeepNests(n: nat)
    ensures AllFormed(Deep(n)) && AllCleanHeaders(Deep(n)) && AllNesting(Deep(n)) == n
  {
    if n > 0 {
      DeepNests(n - 1);
      OneIf();
      var deep := Deep(n);
      assert deep[1..] == [] && ["if"][1..] == [];
      assert Weight([]) == 0 && Weight(["if"]) == 1;
      assert AllNesting([]) == 0 && Nesting(deep[0]) == n;
      assert Plain(["if"]) && NoSemicolon(["if"]);
      assert Formed(deep[0]) && CleanHeaders(deep[0]);
    }
  }

  lemma OneIf()
    ensures CppControlCount("if") == 1
  {
    CountWord("if", "", false);
    assert "if" + "" == "if";
  }

  /** Main result: a header lets its block be measured in full exactly if no control word stands on or before its last
      line with a ';'. */
  lemma HeaderMeasuredExactly(header: seq<string>)
    requires Plain(header)
    ensures MeasuredInFull(header) <==> Weight(UsedUpPart(header)) == 0
  {
    hide Peak, Carry, Weight, UsedUpPart, CarriedPart, Reported, Nesting, AllNesting, AllFormed, AllCleanHeaders,
      NoBrace;
    WeightSplits(0, header);
    PeakBounded(0, header);
    if Weight(UsedUpPart(header)) == 0 {
      forall body: seq<Item> | AllFormed(body) && AllCleanHeaders(body)
        ensures Reported(header, body) == Nesting(Block(header, body))
      {
        ReportedIs(header, body);
      }
    } else {
      var body := Deep(Weight(header));
      DeepNests(Weight(header));
      ReportedIs(header, body);
    }
  }

  /** A one-line header with a ';', as of a counting `for` loop, is forgotten inside its block. */
  lemma CountingLoopLosesItsBody(header: string, body: seq<Item>)
    requires NoBrace(header) && ';' in header && AllFormed(body) && AllCleanHeaders(body)
    ensures var item := Block([header], body);
            && Lines(START, Printed(item), 1).maxDepth == MaxInt(CppControlCount(header), AllNesting(body))
            && Nesting(item) == CppControlCount(header) + AllNesting(body)
  {
    hide Lines, CppControlCount;
    ItemRises(START, Block([header], body), 1);
    ItemsNesting(body);
    HeightNotNegative(body);
    assert [header][1..] == [];
    assert Peak(0, []) == 0 && Carry(0, []) == 0 && Weight([]) == 0;
    assert Peak(0, [header]) == MaxInt(CppControlCount(header), 0);
    assert Carry(0, [header]) == 0;
    assert Weight([header]) == CppControlCount(header);
  }

  // ---- the scanner itself ----

  class CppScanner {
    var blockControlDepths: seq<nat>
    var pendingControls: nat
    var currentDepth: int
    var maxDepth: int
    var deepestLine: nat
    var singleStatementControls: nat

    function Now(): Scan reads this {
      Scan(blockControlDepths, pendingControls, currentDepth, maxDepth, deepestLine)
    }

    constructor ()
      ensures Now() == START && singleStatementControls == 0
    {
      blockControlDepths, pendingControls, currentDepth, maxDepth, deepestLine := [], 0, 0, 0, 1;
      singleStatementControls := 0;
    }

    method UpdateCppDepth(character: char, lineNumber: nat)
      requires singleStatementControls == 0
      modifies this
      ensures Now() == Step(old(Now()), character, lineNumber) && singleStatementControls == 0
    {
      if character == '{' {
        var introduced := pendingControls;
        pendingControls := 0;
        currentDepth := currentDepth + introduced;
        blockControlDepths := blockControlDepths + [introduced];
      } else if character == '}' {
        if blockControlDepths != [] {
          var n := |blockControlDepths| - 1;
          currentDepth := currentDepth - blockControlDepths[n];
          blockControlDepths := blockControlDepths[..n];
        }
      } else if character == ';' && pendingControls > 0 {
        singleStatementControls := pendingControls;
        currentDepth := currentDepth + singleStatementControls;
        pendingControls := 0;
      }
      if currentDepth > maxDepth {
        maxDepth := currentDepth;
        deepestLine := lineNumber;
      }
      if singleStatementControls > 0 {
        currentDepth := currentDepth - singleStatementControls;
        singleStatementControls := 0;
      }
    }

    method ScanLine(text: string, lineNumber: nat)
      requires singleStatementControls == 0
      modifies this
      ensures Now() == Line(old(Now()), text, lineNumber) && singleStatementControls == 0
    {
      hide Step, CppControlCount;
      pendingControls := pendingControls + CppControlCount(text);
      assert text[..|text|] == text;
      for i := 0 to |text|
        invariant singleStatementControls == 0
        invariant Now() == Chars(Entered(old(Now()), text), text[..i], lineNumber)
      {
        assert text[..i + 1][..i] == text[..i];
        UpdateCppDepth(text[i], lineNumber);
      }
    }
  }

  /** The deepest point any line reaches, and the first line that reaches it; on a tree's text, the tree's height. */
  method AnalyzeCppSource(lines: seq<string>) returns (maxDepth: int, deepestLine: nat)
    ensures maxDepth >= 0 && FirstDeepest(Points(lines), maxDepth, deepestLine)
    ensures forall items :: AllFormed(items) && AllPrinted(items) == lines ==> maxDepth == AllHeight(items)
  {
    hide Line, FirstDeepest, Points, AllHeight, AllPrinted, AllFormed;
    var scanner := new CppScanner();
    assert lines[..|lines|] == lines;
    for i := 0 to |lines|
      invariant scanner.singleStatementControls == 0
      invariant scanner.Now() == Lines(START, lines[..i], 1)
    {
      assert lines[..i + 1][..i] == lines[..i];
      scanner.ScanLine(lines[i], i + 1);
    }
    ReportsFirstDeepest(lines);
    forall items | AllFormed(items) && AllPrinted(items) == lines ensures scanner.maxDepth == AllHeight(items) {
      TreeDepth(items);
    }
    return scanner.maxDepth, scanner.deepestLine;
  }
}
