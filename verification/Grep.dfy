// The regular expression matcher of 5/xv6/grep.c.  A pattern or a text is the
// part of a C string before its terminating NUL.
module Grep {

  /** What a pattern asks for, in order. */
  datatype Item =
    | One(c: char)      // one character
    | Star(c: char)     // any number of characters
    | End               // the end of the text

  function Items(re: string): seq<Item> {
    if re == [] then []
    else if |re| >= 2 && re[1] == '*' then [Star(re[0])] + Items(re[2..])
    else if re == "$" then [End]
    else [One(re[0])] + Items(re[1..])
  }

  predicate Accepts(c: char, t: char) {
    c == '.' || c == t
  }

  ghost predicate AllAccepted(c: char, piece: string) {
    forall i :: 0 <= i < |piece| ==> Accepts(c, piece[i])
  }

  ghost predicate Fills(item: Item, piece: string) {
    match item
    case One(c) => |piece| == 1 && Accepts(c, piece[0])
    case Star(c) => AllAccepted(c, piece)
    case End => piece == []
  }

  function Concat(pieces: seq<string>): string {
    if pieces == [] then [] else pieces[0] + Concat(pieces[1..])
  }

  /** The pieces fill the items one by one, and nothing follows if the end was asked for. */
  ghost predicate Reading(items: seq<Item>, pieces: seq<string>, rest: string) {
    && |pieces| == |items|
    && (forall i :: 0 <= i < |items| ==> Fills(items[i], pieces[i]))
    && (End in items ==> rest == [])
  }

  ghost predicate ReadsAs(items: seq<Item>, text: string, pieces: seq<string>, rest: string) {
    text == Concat(pieces) + rest && Reading(items, pieces, rest)
  }

  /** Some beginning of the text is described by the items. */
  ghost predicate Describes(items: seq<Item>, text: string) {
    exists pieces, rest :: ReadsAs(items, text, pieces, rest)
  }

  lemma DescribesNothing(text: string)
    ensures Describes([], text)
  {
    assert ReadsAs([], text, [], text);
  }

  lemma DescribesEnd(text: string)
    ensures Describes([End], text) <==> text == []
  {
    if text == [] {
      assert Concat([[]]) == [];
      assert ReadsAs([End], text, [[]], []);
    }
    if Describes([End], text) {
      var pieces, rest :| ReadsAs([End], text, pieces, rest);
      assert End in [End] && Fills([End][0], pieces[0]);
      assert pieces[1..] == [] && Concat(pieces) == [];
    }
  }

  /** A reading of more items is a first piece and a reading of the text after it. */
  lemma ReadFirst(item: Item, items: seq<Item>, text: string)
    requires Describes([item] + items, text)
    ensures exists n :: 0 <= n <= |text| && Fills(item, text[..n]) && Describes(items, text[n..])
  {
    var all := [item] + items;
    var pieces, rest :| ReadsAs(all, text, pieces, rest);
    var n := |pieces[0]|;
    assert text == pieces[0] + (Concat(pieces[1..]) + rest);
    assert text[..n] == pieces[0] && text[n..] == Concat(pieces[1..]) + rest;
    assert Fills(all[0], pieces[0]);
    forall i | 0 <= i < |items| ensures Fills(items[i], pieces[1..][i]) {
      assert all[i + 1] == items[i] && Fills(all[i + 1], pieces[i + 1]);
    }
    assert ReadsAs(items, text[n..], pieces[1..], rest);
  }

  lemma ReadMore(item: Item, items: seq<Item>, text: string, n: nat)
    requires n <= |text| && Fills(item, text[..n]) && Describes(items, text[n..]) && !item.End?
    ensures Describes([item] + items, text)
  {
    var pieces, rest :| ReadsAs(items, text[n..], pieces, rest);
    var all, more := [item] + items, [text[..n]] + pieces;
    assert more[1..] == pieces;
    assert text == text[..n] + text[n..] == Concat(more) + rest;
    forall i | 0 <= i < |all| ensures Fills(all[i], more[i]) {
      assert i > 0 ==> Fills(items[i - 1], pieces[i - 1]);
    }
    assert ReadsAs(all, text, more, rest);
  }

  lemma DescribesOne(c: char, items: seq<Item>, text: string)
    ensures Describes([One(c)] + items, text)
       <==> text != [] && Accepts(c, text[0]) && Describes(items, text[1..])
  {
    if Describes([One(c)] + items, text) {
      ReadFirst(One(c), items, text);
      var n :| 0 <= n <= |text| && Fills(One(c), text[..n]) && Describes(items, text[n..]);
    }
    if text != [] && Accepts(c, text[0]) && Describes(items, text[1..]) {
      ReadMore(One(c), items, text, 1);
    }
  }

  ghost predicate StarReads(c: char, items: seq<Item>, text: string, n: int) {
    0 <= n <= |text| && AllAccepted(c, text[..n]) && Describes(items, text[n..])
  }

  ghost predicate StarDescribes(c: char, items: seq<Item>, text: string) {
    exists n :: StarReads(c, items, text, n)
  }

  lemma DescribesStar(c: char, items: seq<Item>, text: string)
    ensures Describes([Star(c)] + items, text) <==> StarDescribes(c, items, text)
  {
    if Describes([Star(c)] + items, text) {
      ReadFirst(Star(c), items, text);
      var n :| 0 <= n <= |text| && Fills(Star(c), text[..n]) && Describes(items, text[n..]);
      assert StarReads(c, items, text, n);
    }
    if n :| StarReads(c, items, text, n) {
      ReadMore(Star(c), items, text, n);
    }
  }

  method MatchHere(re: string, text: string) returns (b: bool)
    ensures b <==> Describes(Items(re), text)
    decreases |re|, 0
  {
    if re == [] {
      DescribesNothing(text);
      return true;
    }
    if |re| >= 2 && re[1] == '*' {
      assert Items(re) == [Star(re[0])] + Items(re[2..]);
      DescribesStar(re[0], Items(re[2..]), text);
      b := MatchStar(re[0], re[2..], text);
      return;
    }
    if re[0] == '$' && |re| == 1 {
      assert Items(re) == [End];
      DescribesEnd(text);
      return text == [];
    }
    DescribesOne(re[0], Items(re[1..]), text);
    if text != [] && (re[0] == '.' || re[0] == text[0]) {
      b := MatchHere(re[1..], text[1..]);
      return;
    }
    return false;
  }

  method MatchStar(c: char, re: string, text: string) returns (b: bool)
    ensures b <==> StarDescribes(c, Items(re), text)
    decreases |re|, 1
  {
    var i := 0;
    while true
      invariant 0 <= i <= |text|
      invariant AllAccepted(c, text[..i])
      invariant forall n :: 0 <= n < i ==> !StarReads(c, Items(re), text, n)
      decreases |text| - i
    {
      var here := MatchHere(re, text[i..]);
      assert here <==> StarReads(c, Items(re), text, i);
      if here {
        return true;
      }
      if !(i < |text| && (text[i] == c || c == '.')) {
        forall n | i < n <= |text| ensures !AllAccepted(c, text[..n]) {
          assert text[..n][i] == text[i];
        }
        return false;
      }
      i := i + 1;
    }
  }

  /** `match`: at the start for a leading '^', at some position otherwise. */
  method Match(re: string, text: string) returns (b: bool)
    ensures b <==>
      if re != [] && re[0] == '^' then Describes(Items(re[1..]), text)
      else exists k :: 0 <= k <= |text| && Describes(Items(re), text[k..])
  {
    if re != [] && re[0] == '^' {
      b := MatchHere(re[1..], text);
      return;
    }
    var i := 0;
    while true
      invariant 0 <= i <= |text|
      invariant forall k :: 0 <= k < i ==> !Describes(Items(re), text[k..])
      decreases |text| - i
    {
      var here := MatchHere(re, text[i..]);
      if here {
        return true;
      }
      if i == |text| {
        return false;
      }
      i := i + 1;
    }
  }
}
