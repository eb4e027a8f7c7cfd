/** The regular-expression matcher of grep, against a declarative meaning of patterns.

    Strings are C strings without their terminating NUL: a NUL that the code looks at is the
    end of the sequence. */
module Grep {

  // --- what a pattern means ------------------------------------------------------------------

  datatype Item =
    | One(c: char)   // c, or any character if c is '.'
    | Star(c: char)  // zero or more of them
    | Eot            // the end of the text

  /** A '*' applies to the character before it, wherever there is one; a '$' is special only as
      the last character of the pattern. */
  function Parse(re: string): seq<Item> {
    if re == [] then []
    else if |re| > 1 && re[1] == '*' then [Star(re[0])] + Parse(re[2..])
    else if re == "$" then [Eot]
    else [One(re[0])] + Parse(re[1..])
  }

  predicate Fits(c: char, x: char) {
    c == '.' || c == x
  }

  predicate PieceOk(item: Item, piece: string) {
    match item
    case One(c) => |piece| == 1 && Fits(c, piece[0])
    case Star(c) => forall i :: 0 <= i < |piece| ==> Fits(c, piece[i])
    case Eot => piece == []
  }

  function Join(pieces: seq<string>): string {
    if pieces == [] then [] else pieces[0] + Join(pieces[1..])
  }

  /** Cutting `s` into one piece for each item, each of which that item accepts. */
  predicate Cuts(items: seq<Item>, pieces: seq<string>, s: string) {
    && |pieces| == |items|
    && Join(pieces) == s
    && (forall i :: 0 <= i < |items| ==> PieceOk(items[i], pieces[i]))
  }

  /** The strings that the items describe. */
  ghost predicate Describes(items: seq<Item>, s: string) {
    exists pieces :: Cuts(items, pieces, s)
  }

  predicate Anchored(items: seq<Item>) {
    items != [] && items[|items| - 1].Eot?
  }

  /** The items describe `text[..n]`, and all of the text if they end in `Eot`. */
  ghost predicate MatchesTo(items: seq<Item>, text: string, n: int) {
    && 0 <= n <= |text|
    && Describes(items, text[..n])
    && (Anchored(items) ==> n == |text|)
  }

  ghost predicate MatchesAt(items: seq<Item>, text: string) {
    exists n :: MatchesTo(items, text, n)
  }

  /** A pattern matches a text if it describes some part of it, at the beginning if the
      pattern starts with '^' and at the end if it ends with '$'. */
  ghost predicate Matches(re: string, text: string) {
    if re != [] && re[0] == '^' then MatchesAt(Parse(re[1..]), text)
    else exists i :: 0 <= i <= |text| && MatchesAt(Parse(re), text[i..])
  }

  // --- how the meaning unfolds -------------------------------------------------------------------

  lemma EmptyMatches(text: string)
    ensures MatchesAt([], text)
  {
    assert Cuts([], [], text[..0]);
    assert MatchesTo([], text, 0);
  }

  lemma DescribesCons(item: Item, items: seq<Item>, piece: string, s: string)
    requires PieceOk(item, piece) && Describes(items, s)
    ensures Describes([item] + items, piece + s)
  {
    var pieces :| Cuts(items, pieces, s);
    var all := [piece] + pieces;
    assert all[1..] == pieces;
    assert Cuts([item] + items, all, piece + s);
  }

  lemma DescribesSplit(item: Item, items: seq<Item>, s: string) returns (k: nat)
    requires Describes([item] + items, s)
    ensures k <= |s| && PieceOk(item, s[..k]) && Describes(items, s[k..])
  {
    var all := [item] + items;
    var pieces :| Cuts(all, pieces, s);
    k := |pieces[0]|;
    assert s == pieces[0] + Join(pieces[1..]);
    assert s[..k] == pieces[0] && s[k..] == Join(pieces[1..]);
    assert PieceOk(all[0], pieces[0]);
    forall i | 0 <= i < |items| ensures PieceOk(items[i], pieces[1..][i]) {
      assert PieceOk(all[i + 1], pieces[i + 1]);
    }
    assert Cuts(items, pieces[1..], s[k..]);
  }

  /** The first item takes a prefix that it accepts, and the rest match from there. */
  lemma MatchesUnfold(item: Item, items: seq<Item>, text: string)
    requires items != [] || !item.Eot?
    ensures MatchesAt([item] + items, text)
       <==> exists k :: 0 <= k <= |text| && PieceOk(item, text[..k]) && MatchesAt(items, text[k..])
  {
    if MatchesAt([item] + items, text) {
      var n :| MatchesTo([item] + items, text, n);
      var k := DescribesSplit(item, items, text[..n]);
      assert text[..n][..k] == text[..k];
      assert text[..n][k..] == text[k..][..n - k];
      assert MatchesTo(items, text[k..], n - k);
    }
    if k :| 0 <= k <= |text| && PieceOk(item, text[..k]) && MatchesAt(items, text[k..]) {
      var n :| MatchesTo(items, text[k..], n);
      DescribesCons(item, items, text[..k], text[k..][..n]);
      assert text[..k] + text[k..][..n] == text[..k + n];
      assert MatchesTo([item] + items, text, k + n);
    }
  }

  lemma EotMatches(text: string)
    ensures MatchesAt([Eot], text) <==> text == []
  {
    if MatchesAt([Eot], text) {
      var n :| MatchesTo([Eot], text, n);
      var pieces :| Cuts([Eot], pieces, text[..n]);
      assert PieceOk([Eot][0], pieces[0]);
      assert Join(pieces) == pieces[0] + Join(pieces[1..]);
      assert text[..n] == [];
    }
    if text == [] {
      assert Join([""]) == "" + Join([""][1..]);
      assert Cuts([Eot], [""], text[..0]);
      assert MatchesTo([Eot], text, 0);
    }
  }

  lemma OneMatches(c: char, items: seq<Item>, text: string)
    ensures MatchesAt([One(c)] + items, text)
       <==> text != [] && Fits(c, text[0]) && MatchesAt(items, text[1..])
  {
    MatchesUnfold(One(c), items, text);
    if text != [] && Fits(c, text[0]) && MatchesAt(items, text[1..]) {
      assert PieceOk(One(c), text[..1]);
    }
  }

  // --- the code ----------------------------------------------------------------------------------------

  /** Search for `re` anywhere in `text`. */
  method Match(re: string, text: string) returns (r: bool)
    ensures r <==> Matches(re, text)
  {
    if re != [] && re[0] == '^' {
      r := MatchHere(re[1..], text);
      return;
    }
    var i := 0;
    while true
      invariant 0 <= i <= |text|
      invariant forall j :: 0 <= j < i ==> !MatchesAt(Parse(re), text[j..])
      decreases |text| - i
    {
      r := MatchHere(re, text[i..]);
      if r {
        return;
      }
      if i == |text| {
        break;
      }
      i := i + 1;
    }
    r := false;
  }

  /** Search for `re` at the beginning of `text`. */
  method MatchHere(re: string, text: string) returns (r: bool)
    ensures r <==> MatchesAt(Parse(re), text)
    decreases |re|
  {
    if re == [] {
      EmptyMatches(text);
      return true;
    }
    if |re| > 1 && re[1] == '*' {
      r := MatchStar(re[0], re[2..], text);
      return;
    }
    if re[0] == '$' && |re| == 1 {
      EotMatches(text);
      return text == [];
    }
    OneMatches(re[0], Parse(re[1..]), text);
    if text != [] && (re[0] == '.' || re[0] == text[0]) {
      r := MatchHere(re[1..], text[1..]);
      return;
    }
    r := false;
  }

  /** Search for `c*re` at the beginning of `text`. */
  method MatchStar(c: char, re: string, text: string) returns (r: bool)
    ensures r <==> MatchesAt([Star(c)] + Parse(re), text)
    decreases |re| + 1
  {
    MatchesUnfold(Star(c), Parse(re), text);
    var k := 0;
    while true
      invariant 0 <= k <= |text|
      invariant PieceOk(Star(c), text[..k])
      invariant forall j :: 0 <= j < k ==> !MatchesAt(Parse(re), text[j..])
      decreases |text| - k
    {
      r := MatchHere(re, text[k..]);
      if r {
        return;
      }
      if !(k < |text| && (text[k] == c || c == '.')) {
        break;
      }
      k := k + 1;
    }
    forall j | k < j <= |text| ensures !PieceOk(Star(c), text[..j]) {
      assert text[..j][k] == text[k];
    }
    r := false;
  }

  // --- consequences -------------------------------------------------------------------------------------

  /** An anchored pattern without operators matches exactly the text that it spells. */
  lemma {:induction false} LiteralMatchesOnlyItself(word: string, text: string)
    requires forall i :: 0 <= i < |word| ==> word[i] !in {'^', '.', '*', '$'}
    ensures MatchesAt(Parse(word + "$"), text) <==> text == word
    decreases |word|
  {
    var re := word + "$";
    if word == [] {
      assert re == "$";
      EotMatches(text);
    } else {
      assert re[1..] == word[1..] + "$";
      assert |re| > 1 && re[1] != '*';
      OneMatches(re[0], Parse(re[1..]), text);
      if text != [] {
        LiteralMatchesOnlyItself(word[1..], text[1..]);
      }
    }
  }
}
