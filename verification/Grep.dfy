/**
 The pattern matcher of grep (grep.c), after chapter 9 of The Practice of Programming.

 A pattern means a language: it is a list of items, each one character or a repetition of one,
 and may be anchored at the end. The matcher is proved to find exactly the texts that have a
 piece in that language.
 */
module Grep {
  import opened CStrings

  // ---- What a pattern means ----------------------------------------------------------

  datatype Item = One(c: char) | Many(c: char)

  datatype Pattern = Pattern(items: seq<Item>, atEnd: bool)

  /** A character followed by a star is a repetition, a dollar in the last place is the end of
      the text, and any other character, a star in the first place too, stands for itself. */
  function Parse(re: CString): Pattern {
    if re == "" then Pattern([], false)
    else if |re| >= 2 && re[1] == '*' then var p := Parse(re[2..]); p.(items := [Many(re[0])] + p.items)
    else if re == "$" then Pattern([], true)
    else var p := Parse(re[1..]); p.(items := [One(re[0])] + p.items)
  }

  /** A dot accepts any character. */
  predicate Accepts(c: char, x: char) {
    c == '.' || c == x
  }

  ghost predicate Piece(item: Item, s: string) {
    match item
    case One(c) => |s| == 1 && Accepts(c, s[0])
    case Many(c) => forall i :: 0 <= i < |s| ==> Accepts(c, s[i])
  }

  function Concat(ps: seq<string>): string {
    if ps == [] then "" else ps[0] + Concat(ps[1..])
  }

  /** s is a concatenation of pieces, one for each item. */
  ghost predicate Pieces(items: seq<Item>, s: string, ps: seq<string>) {
    |ps| == |items| && Concat(ps) == s && forall i :: 0 <= i < |items| ==> Piece(items[i], ps[i])
  }

  ghost predicate InLanguage(items: seq<Item>, s: string) {
    exists ps :: Pieces(items, s, ps)
  }

  /** text[i..j] is in the language of the pattern, and reaches the end if the pattern says so. */
  ghost predicate Occurs(p: Pattern, text: string, i: nat, j: nat) {
    i <= j <= |text| && (p.atEnd ==> j == |text|) && InLanguage(p.items, text[i..j])
  }

  ghost predicate Begins(re: CString, text: CString) {
    exists j: nat :: Occurs(Parse(re), text, 0, j)
  }

  /** The pattern occurs in the text: at the start after a caret, anywhere otherwise. */
  ghost predicate Found(re: CString, text: CString) {
    if re != "" && re[0] == '^' then exists j: nat :: Occurs(Parse(re[1..]), text, 0, j)
    else exists i: nat, j: nat :: Occurs(Parse(re), text, i, j)
  }

  // ---- One item at a time --------------------------------------------------------------

  lemma FirstPiece(item: Item, items: seq<Item>, s: string)
    ensures InLanguage([item] + items, s) <==>
              exists k :: 0 <= k <= |s| && Piece(item, s[..k]) && InLanguage(items, s[k..])
  {
    if InLanguage([item] + items, s) {
      var ps :| Pieces([item] + items, s, ps);
      var k := |ps[0]|;
      assert s[..k] == ps[0] && s[k..] == Concat(ps[1..]);
      forall i | 0 <= i < |items|
        ensures Piece(items[i], ps[1..][i])
      {
        assert Piece(([item] + items)[i + 1], ps[i + 1]);
      }
      assert Piece(([item] + items)[0], ps[0]);
      assert Pieces(items, s[k..], ps[1..]);
    }
    if k :| 0 <= k <= |s| && Piece(item, s[..k]) && InLanguage(items, s[k..]) {
      var qs :| Pieces(items, s[k..], qs);
      assert ([s[..k]] + qs)[1..] == qs;
      assert Pieces([item] + items, s, [s[..k]] + qs);
    }
  }

  lemma BeginsEmpty(text: CString)
    ensures Begins("", text)
  {
    assert Pieces([], text[0..0], []);
    assert Occurs(Parse(""), text, 0, 0);
  }

  lemma BeginsEnd(text: CString)
    ensures Begins("$", text) <==> text == ""
  {
    if Begins("$", text) {
      var j: nat :| Occurs(Parse("$"), text, 0, j);
      var ps :| Pieces([], text[0..j], ps);
    }
    if text == "" {
      assert Pieces([], text[0..0], []);
      assert Occurs(Parse("$"), text, 0, 0);
    }
  }

  /** A pattern that starts with item begins text iff its rest begins what is left after a piece. */
  lemma BeginsItem(item: Item, re: CString, rest: CString, text: CString)
    requires Parse(re) == Parse(rest).(items := [item] + Parse(rest).items)
    ensures Begins(re, text) <==> exists k :: 0 <= k <= |text| && Piece(item, text[..k]) && Begins(rest, text[k..])
  {
    hide Parse, InLanguage;
    if Begins(re, text) {
      var j: nat :| Occurs(Parse(re), text, 0, j);
      var k := SplitOccurs(item, Parse(rest), text, j);
      assert Begins(rest, text[k..]);
    }
    if k :| 0 <= k <= |text| && Piece(item, text[..k]) && Begins(rest, text[k..]) {
      var j: nat :| Occurs(Parse(rest), text[k..], 0, j);
      JoinOccurs(item, Parse(rest), text, k, j);
    }
  }

  lemma SplitOccurs(item: Item, p: Pattern, text: string, j: nat) returns (k: nat)
    requires Occurs(p.(items := [item] + p.items), text, 0, j)
    ensures k <= j && Piece(item, text[..k]) && Occurs(p, text[k..], 0, j - k)
  {
    FirstPiece(item, p.items, text[0..j]);
    hide InLanguage;
    k :| 0 <= k <= j && Piece(item, text[0..j][..k]) && InLanguage(p.items, text[0..j][k..]);
    assert text[0..j][..k] == text[..k] && text[0..j][k..] == text[k..][0..j - k];
  }

  lemma JoinOccurs(item: Item, p: Pattern, text: string, k: nat, j: nat)
    requires k <= |text| && Piece(item, text[..k]) && Occurs(p, text[k..], 0, j)
    ensures Occurs(p.(items := [item] + p.items), text, 0, k + j)
  {
    var s := text[0..k + j];
    FirstPiece(item, p.items, s);
    hide InLanguage;
    assert s[..k] == text[..k] && s[k..] == text[k..][0..j];
  }

  lemma BeginsOne(re: CString, text: CString)
    requires re != "" && !(|re| >= 2 && re[1] == '*') && re != "$"
    ensures Begins(re, text) <==> text != "" && Accepts(re[0], text[0]) && Begins(re[1..], text[1..])
  {
    BeginsItem(One(re[0]), re, re[1..], text);
    if text != "" && Accepts(re[0], text[0]) { assert Piece(One(re[0]), text[..1]); }
  }

  lemma BeginsMany(re: CString, text: CString)
    requires |re| >= 2 && re[1] == '*'
    ensures Begins(re, text) <==> Repeats(re[0], re[2..], text)
  {
    BeginsItem(Many(re[0]), re, re[2..], text);
  }

  /** Some number of characters that c accepts, then a text that re begins. */
  ghost predicate Repeats(c: char, re: CString, text: CString) {
    exists k :: 0 <= k <= |text| && Piece(Many(c), text[..k]) && Begins(re, text[k..])
  }

  // ---- The matcher -----------------------------------------------------------------------

  method Match(re: CString, text: CString) returns (r: bool)
    ensures r <==> Found(re, text)
  {
    if At(re, 0) == '^' {
      r := MatchHere(re[1..], text);
      return;
    }
    hide Parse, InLanguage;
    var i := 0;
    while true
      invariant 0 <= i <= |text| && forall k: nat, j: nat :: k < i ==> !Occurs(Parse(re), text, k, j)
      decreases |text| - i
    {
      var here := MatchHere(re, text[i..]);
      BeginsAt(re, text, i);
      if here {
        return true;
      }
      if At(text, i) == '\0' {
        assert forall k: nat, j: nat :: !Occurs(Parse(re), text, k, j);
        break;
      }
      i := i + 1;
    }
    return false;
  }

  lemma BeginsAt(re: CString, text: CString, i: nat)
    requires i <= |text|
    ensures Begins(re, text[i..]) <==> exists j: nat :: Occurs(Parse(re), text, i, j)
  {
    hide Parse, InLanguage;
    var rest: CString := text[i..];
    if Begins(re, rest) {
      var j: nat :| Occurs(Parse(re), rest, 0, j);
      assert rest[0..j] == text[i..i + j];
      assert Occurs(Parse(re), text, i, i + j);
    }
    if j: nat :| Occurs(Parse(re), text, i, j) {
      assert rest[0..j - i] == text[i..j];
      assert Occurs(Parse(re), rest, 0, j - i);
    }
  }

  method MatchHere(re: CString, text: CString) returns (r: bool)
    ensures r <==> Begins(re, text)
    decreases |re|, 0
  {
    if At(re, 0) == '\0' {
      BeginsEmpty(text);
      return true;
    }
    if At(re, 1) == '*' {
      BeginsMany(re, text);
      r := MatchStar(re[0], re[2..], text);
      return;
    }
    if At(re, 0) == '$' && At(re, 1) == '\0' {
      assert re == "$";
      BeginsEnd(text);
      return At(text, 0) == '\0';
    }
    BeginsOne(re, text);
    if At(text, 0) != '\0' && (re[0] == '.' || re[0] == text[0]) {
      r := MatchHere(re[1..], text[1..]);
      return;
    }
    return false;
  }

  method MatchStar(c: char, re: CString, text: CString) returns (r: bool)
    ensures r <==> Repeats(c, re, text)
    decreases |re|, 1
  {
    var i := 0;
    while true
      invariant 0 <= i <= |text| && Piece(Many(c), text[..i])
      invariant forall k :: 0 <= k < i ==> !Begins(re, text[k..])
      decreases |text| - i
    {
      r := MatchHere(re, text[i..]);
      if r {
        return;
      }
      if At(text, i) == '\0' || !(text[i] == c || c == '.') {
        break;
      }
      i := i + 1;
    }
    NoMore(c, re, text, i);
  }

  /** Past a character that c does not accept, or the end, there is nothing more to try. */
  lemma NoMore(c: char, re: CString, text: CString, i: nat)
    requires i <= |text| && (i < |text| ==> !Accepts(c, text[i]))
    requires forall k :: 0 <= k <= i ==> !Begins(re, text[k..])
    ensures !Repeats(c, re, text)
  {
    forall k | i < k <= |text| ensures !Piece(Many(c), text[..k]) {
      assert text[..k][i] == text[i];
    }
  }
}
