/**
 The shell's tokens (sh.c): what gettoken finds in a line, and what the words of a line are.
 A position in the line stands for a pointer into the buffer.
 */
module ShellLex {
  import opened CStrings

  predicate IsSpace(c: char) {
    c == ' ' || c == '\t' || c == '\r' || c == '\n' || c == '\U{B}'
  }

  predicate IsSymbol(c: char) {
    c == '<' || c == '|' || c == '>' || c == '&' || c == ';' || c == '(' || c == ')'
  }

  predicate Ordinary(c: char) {
    !IsSpace(c) && !IsSymbol(c)
  }

  /** A word of the line: where it starts and where it ends. */
  datatype Word = Word(q: nat, eq: nat)

  /** What gettoken reports: the kind ('\0' at the end of the line, 'a' for a word, '+' for >>,
      a symbol otherwise), the token's ends, and the position after it and the blanks. */
  datatype Token = Token(tok: char, q: nat, eq: nat, next: nat)

  function SkipSpace(line: CString, s: nat): (r: nat)
    requires s <= |line|
    ensures s <= r <= |line| && (r < |line| ==> !IsSpace(line[r])) && forall i :: s <= i < r ==> IsSpace(line[i])
    decreases |line| - s
  {
    if s < |line| && IsSpace(line[s]) then SkipSpace(line, s + 1) else s
  }

  function SkipWord(line: CString, s: nat): (r: nat)
    requires s <= |line|
    ensures s <= r <= |line| && (r < |line| ==> !Ordinary(line[r])) && forall i :: s <= i < r ==> Ordinary(line[i])
    decreases |line| - s
  {
    if s < |line| && Ordinary(line[s]) then SkipWord(line, s + 1) else s
  }

  function TokenAt(line: CString, s: nat): (t: Token)
    requires s <= |line|
    ensures s <= t.q <= t.eq <= t.next <= |line| && (t.tok != '\0' ==> t.q < t.eq) && (t.tok == '\0' ==> t.q == |line|)
  {
    var q := SkipSpace(line, s);
    var c := At(line, q);
    if c == '\0' then Token('\0', q, q, q)
    else if c == '>' && At(line, q + 1) == '>' then Token('+', q, q + 2, SkipSpace(line, q + 2))
    else if IsSymbol(c) then Token(c, q, q + 1, SkipSpace(line, q + 1))
    else var eq := SkipWord(line, q); Token('a', q, eq, SkipSpace(line, eq))
  }

  /** A token, with a word of any kind. */
  datatype Tok<W> = Sym(c: char) | Text(w: W)

  /** The tokens from position s on. */
  function Lex(line: CString, s: nat): seq<Tok<Word>>
    requires s <= |line|
    decreases |line| - s
  {
    var t := TokenAt(line, s);
    if t.tok == '\0' then []
    else [if t.tok == 'a' then Text(Word(t.q, t.eq)) else Sym(t.tok)] + Lex(line, t.next)
  }

  function Words(ts: seq<Tok<Word>>): seq<Word> {
    if ts == [] then [] else (if ts[0].Text? then [ts[0].w] else []) + Words(ts[1..])
  }

  /** A longest run of ordinary characters. */
  ghost predicate IsWord(line: CString, w: Word) {
    && w.q < w.eq <= |line|
    && (forall i :: w.q <= i < w.eq ==> Ordinary(line[i]))
    && (w.q > 0 ==> !Ordinary(line[w.q - 1])) && (w.eq < |line| ==> !Ordinary(line[w.eq]))
  }

  ghost predicate Ascending(ws: seq<Word>) {
    forall i, j :: 0 <= i < j < |ws| ==> ws[i].eq <= ws[j].q && ws[i].q < ws[i].eq
  }

  /** A scan from s starts between words. */
  ghost predicate Between(line: CString, s: nat) {
    s <= |line| && (0 < s < |line| && Ordinary(line[s]) ==> !Ordinary(line[s - 1]))
  }

  lemma WordOnce(line: CString, w: Word, v: Word)
    requires IsWord(line, w) && IsWord(line, v) && w.q == v.q
    ensures w == v
  {
    assert w.eq < |line| ==> !Ordinary(line[w.eq]);
    assert v.eq < |line| ==> !Ordinary(line[v.eq]);
  }

  /** No word starts between s and the token after it, nor inside that token unless it is the word. */
  lemma WordAt(line: CString, s: nat, w: Word)
    requires Between(line, s) && IsWord(line, w) && s <= w.q
    ensures var t := TokenAt(line, s); w.q >= t.next || (t.tok == 'a' && w == Word(t.q, t.eq))
  {
    var t := TokenAt(line, s);
    assert Ordinary(line[w.q]);
    assert w.q > 0 ==> !Ordinary(line[w.q - 1]);
    TokenIs(line, s);
    if t.tok == 'a' && w.q == t.q { WordOnce(line, w, Word(t.q, t.eq)); }
  }

  lemma TokenIs(line: CString, s: nat)
    requires Between(line, s)
    ensures var t := TokenAt(line, s); Between(line, t.next) && (t.tok == 'a' ==> IsWord(line, Word(t.q, t.eq)))
  {
  }

  /** The words that Lex finds are the longest runs of ordinary characters, each once and in order. */
  lemma {:induction false} LexFindsWords(line: CString, s: nat)
    requires Between(line, s)
    ensures forall w :: w in Words(Lex(line, s)) <==> IsWord(line, w) && w.q >= s
    ensures Ascending(Words(Lex(line, s)))
    decreases |line| - s
  {
    hide IsWord, Ordinary;
    var t, ts := TokenAt(line, s), Lex(line, s);
    TokenIs(line, s);
    forall w | IsWord(line, w) && w.q >= s ensures w.q >= t.next || (t.tok == 'a' && w == Word(t.q, t.eq)) {
      WordAt(line, s, w);
    }
    if t.tok != '\0' {
      LexFindsWords(line, t.next);
      hide TokenAt, Between;
      assert ts[1..] == Lex(line, t.next);
      AscendingCons(ts[0], Words(ts[1..]), t.next);
      assert Words(ts) == (if ts[0].Text? then [ts[0].w] else []) + Words(ts[1..]);
    } else {
      LastWord(line, s);
    }
  }

  lemma LastWord(line: CString, s: nat)
    requires s <= |line|
    ensures forall w :: IsWord(line, w) ==> w.q < |line|
  {
  }

  lemma AscendingCons(t: Tok<Word>, ws: seq<Word>, next: nat)
    requires Ascending(ws) && (t.Text? ==> t.w.q < t.w.eq <= next) && forall i :: 0 <= i < |ws| ==> next <= ws[i].q
    ensures Ascending((if t.Text? then [t.w] else []) + ws)
  {
    var front := if t.Text? then [t.w] else [];
    var all := front + ws;
    forall i, j | 0 <= i < j < |all| ensures all[i].eq <= all[j].q && all[i].q < all[i].eq {
      assert all[j] == ws[j - |front|];
      if i >= |front| { assert all[i] == ws[i - |front|]; }
    }
  }
}
