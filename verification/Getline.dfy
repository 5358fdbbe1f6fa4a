/** Splitting text the way `std::getline` does with a delimiter. */
module Getline {

  /** The first position of a character, or -1. */
  function Find(s: string, c: char): (i: int)
    ensures -1 <= i < |s|
    ensures i >= 0 ==> s[i] == c && c !in s[..i]
    ensures i == -1 <==> c !in s
  {
    if s == [] then -1
    else if s[0] == c then 0
    else
      var i := Find(s[1..], c);
      assert s == [s[0]] + s[1..];
      assert i >= 0 ==> s[..i + 1] == [s[0]] + s[1..][..i];
      if i == -1 then -1 else i + 1
  }

  lemma {:induction false} FindIs(s: string, c: char, i: nat)
    requires i < |s| && s[i] == c && c !in s[..i]
    ensures Find(s, c) == i
  {
    if i > 0 {
      assert s[..i] == [s[0]] + s[1..][..i - 1];
      FindIs(s[1..], c, i - 1);
    }
  }

  /** The pieces `getline` yields: what follows the last comma is a piece only if it is not empty. */
  function Items(raw: string, delim: char): seq<string>
    decreases |raw|
  {
    if raw == "" then []
    else [FirstPiece(raw, delim)] + Items(RestOfStream(raw, delim), delim)
  }

  function FirstPiece(stream: string, delim: char): string {
    var c := Find(stream, delim);
    if c == -1 then stream else stream[..c]
  }

  function RestOfStream(stream: string, delim: char): (rest: string)
    ensures stream != "" ==> |rest| < |stream|
  {
    var c := Find(stream, delim);
    if c == -1 then "" else stream[c + 1..]
  }

  lemma ItemsCons(first: string, rest: string, delim: char)
    requires delim !in first
    ensures Items(first + [delim] + rest, delim) == [first] + Items(rest, delim)
  {
    hide Find;
    var raw := first + [delim] + rest;
    assert raw[..|first|] == first && raw[|first| + 1..] == rest;
    FindIs(raw, delim, |first|);
  }

  lemma ItemsOfOne(first: string, delim: char)
    requires delim !in first && first != ""
    ensures Items(first, delim) == [first]
  {
    hide Find;
    assert Find(first, delim) == -1;
    assert Items("", delim) == [];
  }

  lemma NothingIsNoItems(delim: char)
    ensures Items("", delim) == []
  {
  }

  lemma Pieces(raw: string, delim: char)
    requires raw != ""
    ensures delim !in FirstPiece(raw, delim)
    ensures raw == FirstPiece(raw, delim) || raw == FirstPiece(raw, delim) + [delim] + RestOfStream(raw, delim)
    ensures raw != FirstPiece(raw, delim) ==> |RestOfStream(raw, delim)| < |raw|
  {
    hide Find;
  }

  function Join(items: seq<string>, delim: char): string {
    if items == [] then "" else if |items| == 1 then items[0] else items[0] + [delim] + Join(items[1..], delim)
  }

  lemma JoinCons(first: string, items: seq<string>, delim: char)
    requires items != []
    ensures Join([first] + items, delim) == first + [delim] + Join(items, delim)
  {
    assert ([first] + items)[1..] == items;
  }

  lemma JoinOne(item: string, delim: char)
    ensures Join([item], delim) == item
  {
  }
}
