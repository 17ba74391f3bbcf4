/**
 Command lines as text (sh.c): however a line is written down in characters, with any blanks, the
 shell reads it as what it means. The grammar does not look into words, so a command over
 positions in a line and the same command over the words themselves are read alike.
 */
module ShellText {
  import opened CStrings
  import opened Options
  import opened ShellLex
  import opened ShellSpec
  import opened ShellGrammar
  import Shell

  // ---- The grammar does not look into words -------------------------------------------------

  function MapTok<V, W>(t: Tok<V>, f: V -> W): Tok<W> {
    if t.Text? then Tok.Text(f(t.w)) else Sym(t.c)
  }

  function MapToks<V, W>(ts: seq<Tok<V>>, f: V -> W): (r: seq<Tok<W>>)
    ensures |r| == |ts| && forall i :: 0 <= i < |ts| ==> r[i] == MapTok(ts[i], f)
  {
    if ts == [] then [] else [MapTok(ts[0], f)] + MapToks(ts[1..], f)
  }

  function MapWords<V, W>(ws: seq<V>, f: V -> W): (r: seq<W>)
    ensures |r| == |ws| && forall i :: 0 <= i < |ws| ==> r[i] == f(ws[i])
  {
    if ws == [] then [] else [f(ws[0])] + MapWords(ws[1..], f)
  }

  function MapRedir<V, W>(r: Redirection<V>, f: V -> W): Redirection<W> {
    Redirection(f(r.file), r.mode, r.fd)
  }

  function MapRedirs<V, W>(rs: seq<Redirection<V>>, f: V -> W): (r: seq<Redirection<W>>)
    ensures |r| == |rs| && forall i :: 0 <= i < |rs| ==> r[i] == MapRedir(rs[i], f)
  {
    if rs == [] then [] else [MapRedir(rs[0], f)] + MapRedirs(rs[1..], f)
  }

  function MapCmd<V, W>(c: Cmd<V>, f: V -> W): Cmd<W> {
    match c
    case Exec(ws) => Exec(MapWords(ws, f))
    case Redir(c1, r) => Redir(MapCmd(c1, f), MapRedir(r, f))
    case Pipe(l, r) => Pipe(MapCmd(l, f), MapCmd(r, f))
    case List(l, r) => List(MapCmd(l, f), MapCmd(r, f))
    case Back(c1) => Back(MapCmd(c1, f))
  }

  function MapParsed<V, W>(p: Parsed<Cmd<V>, V>, f: V -> W): Parsed<Cmd<W>, W> {
    if p.Ok? then Ok(MapCmd(p.value, f), MapToks(p.rest, f)) else Panic
  }

  lemma MapDrop<V, W>(ts: seq<Tok<V>>, f: V -> W, n: nat)
    requires n <= |ts|
    ensures MapToks(ts, f)[n..] == MapToks(ts[n..], f)
  {
  }

  lemma MapFirst<V, W>(ts: seq<Tok<V>>, f: V -> W)
    ensures First(MapToks(ts, f)) == First(ts)
  {
  }

  lemma {:induction false} MapWrap<V, W>(c: Cmd<V>, rs: seq<Redirection<V>>, f: V -> W)
    ensures MapCmd(Wrap(c, rs), f) == Wrap(MapCmd(c, f), MapRedirs(rs, f))
    decreases |rs|
  {
    if rs != [] {
      MapWrap(Redir(c, rs[0]), rs[1..], f);
      assert MapRedirs(rs, f)[1..] == MapRedirs(rs[1..], f);
    }
  }

  lemma {:induction false} RedirsAlike<V, W>(ts: seq<Tok<V>>, f: V -> W)
    ensures Redirs(MapToks(ts, f)) == var p := Redirs(ts);
                                      if p.Ok? then Ok(MapRedirs(p.value, f), MapToks(p.rest, f)) else Panic
    decreases |ts|
  {
    MapFirst(ts, f);
    if IsRedir(First(ts)) && |ts| >= 2 && ts[1].Text? {
      RedirsAlike(ts[2..], f);
      MapDrop(ts, f, 2);
    }
  }

  lemma {:induction false} ArgsAlike<V, W>(ts: seq<Tok<V>>, n: nat, f: V -> W)
    ensures ArgsOf(MapToks(ts, f), n) == var p := ArgsOf(ts, n);
                                         if p.Ok? then Ok(Args(MapWords(p.value.words, f),
                                                               MapRedirs(p.value.redirs, f)),
                                                          MapToks(p.rest, f))
                                         else Panic
    decreases |ts|
  {
    hide Redirs, MapWords, MapRedirs, MapToks;
    MapFirst(ts, f);
    if !IsStop(First(ts)) && ts[0].Text? && n + 1 < MAXARGS {
      MapDrop(ts, f, 1);
      RedirsAlike(ts[1..], f);
      var rs := Redirs(ts[1..]);
      if rs.Ok? {
        ArgsAlike(rs.rest, n + 1, f);
        var a := ArgsOf(rs.rest, n + 1);
        if a.Ok? {
          assert MapWords([ts[0].w] + a.value.words, f) == [f(ts[0].w)] + MapWords(a.value.words, f);
          assert MapRedirs(rs.value + a.value.redirs, f) == MapRedirs(rs.value, f) + MapRedirs(a.value.redirs, f);
        }
      }
    }
  }

  lemma SimpleAlike<V, W>(ts: seq<Tok<V>>, f: V -> W)
    ensures SimpleOf(MapToks(ts, f)) == MapParsed(SimpleOf(ts), f)
  {
    hide Redirs, ArgsOf, MapWords, MapRedirs, MapToks, Wrap;
    RedirsAlike(ts, f);
    var rs := Redirs(ts);
    if rs.Ok? {
      ArgsAlike(rs.rest, 0, f);
      var a := ArgsOf(rs.rest, 0);
      if a.Ok? {
        MapWrap(Exec(a.value.words), rs.value + a.value.redirs, f);
        assert MapRedirs(rs.value + a.value.redirs, f) == MapRedirs(rs.value, f) + MapRedirs(a.value.redirs, f);
      }
    }
  }

  lemma {:induction false} ExecAlike<V, W>(ts: seq<Tok<V>>, f: V -> W)
    ensures ExecOf(MapToks(ts, f)) == MapParsed(ExecOf(ts), f)
    decreases |ts|, 1
  {
    MapFirst(ts, f);
    if First(ts) != '(' {
      SimpleAlike(ts, f);
    } else {
      hide Redirs;
      MapDrop(ts, f, 1);
      LineAlike(ts[1..], f);
      var l := LineOf(ts[1..]);
      if l.Ok? {
        MapFirst(l.rest, f);
        if First(l.rest) == ')' {
          MapDrop(l.rest, f, 1);
          RedirsAlike(l.rest[1..], f);
          if Redirs(l.rest[1..]).Ok? { MapWrap(l.value, Redirs(l.rest[1..]).value, f); }
        }
      }
    }
  }

  lemma {:induction false} PipeAlike<V, W>(ts: seq<Tok<V>>, f: V -> W)
    ensures PipeOf(MapToks(ts, f)) == MapParsed(PipeOf(ts), f)
    decreases |ts|, 2
  {
    hide ExecOf;
    ExecAlike(ts, f);
    var e := ExecOf(ts);
    if e.Ok? {
      MapFirst(e.rest, f);
      if First(e.rest) == '|' {
        MapDrop(e.rest, f, 1);
        PipeAlike(e.rest[1..], f);
      }
    }
  }

  lemma {:induction false} BacksAlike<V, W>(c: Cmd<V>, ts: seq<Tok<V>>, f: V -> W)
    ensures Backs(MapCmd(c, f), MapToks(ts, f)) == var b := Backs(c, ts); (MapCmd(b.0, f), MapToks(b.1, f))
    decreases |ts|
  {
    MapFirst(ts, f);
    if First(ts) == '&' {
      MapDrop(ts, f, 1);
      BacksAlike(Back(c), ts[1..], f);
    }
  }

  /** Reading tokens whose words are replaced gives the command with its words replaced. */
  lemma {:induction false} LineAlike<V, W>(ts: seq<Tok<V>>, f: V -> W)
    ensures LineOf(MapToks(ts, f)) == MapParsed(LineOf(ts), f)
    decreases |ts|, 3
  {
    hide PipeOf;
    PipeAlike(ts, f);
    var p := PipeOf(ts);
    if p.Ok? {
      BacksAlike(p.value, p.rest, f);
      var b := Backs(p.value, p.rest);
      MapFirst(b.1, f);
      if First(b.1) == ';' {
        MapDrop(b.1, f, 1);
        LineAlike(b.1[1..], f);
      }
    }
  }

  // ---- Writing tokens out -----------------------------------------------------------------------

  const BLANKS := {' ', '\t', '\r', '\n', '\U{B}'}
  const SYMBOLS := {'<', '|', '>', '&', ';', '(', ')'}

  predicate AllBlank(g: string) {
    forall i :: 0 <= i < |g| ==> g[i] in BLANKS
  }

  /** A word that can be written on a line. */
  predicate IsText(w: string) {
    w != [] && forall i :: 0 <= i < |w| ==> w[i] !in BLANKS && w[i] !in SYMBOLS && w[i] != '\0'
  }

  /** A token that can be written on a line. */
  predicate IsTok(t: Tok<string>) {
    if t.Text? then IsText(t.w) else t.c in SYMBOLS || t.c == '+'
  }

  function TokText(t: Tok<string>): CString
    requires IsTok(t)
  {
    if t.Text? then t.w else if t.c == '+' then ">>" else [t.c]
  }

  /** Two tokens that run together unless there is a blank between them. */
  predicate RunTogether(t: Tok<string>, u: Tok<string>) {
    (t.Text? && u.Text?) || (t == Sym('>') && (u == Sym('>') || u == Sym('+')))
  }

  predicate AllToks(ts: seq<Tok<string>>) {
    forall i :: 0 <= i < |ts| ==> IsTok(ts[i])
  }

  /** Blanks to go before, between and after the tokens. */
  predicate Spacing(gaps: seq<string>, ts: seq<Tok<string>>) {
    && |gaps| == |ts| + 1 && AllToks(ts) && (forall i :: 0 <= i < |gaps| ==> AllBlank(gaps[i]))
    && (forall i :: 0 < i < |ts| && RunTogether(ts[i - 1], ts[i]) ==> gaps[i] != "")
  }

  /** The tokens with those blanks. */
  function Show(gaps: seq<string>, ts: seq<Tok<string>>): (line: CString)
    requires Spacing(gaps, ts)
    decreases |ts|
  {
    if ts == [] then gaps[0] else gaps[0] + TokText(ts[0]) + Show(gaps[1..], ts[1..])
  }

  /** The characters of a word of the line. */
  function TextOf(line: CString): Word -> string {
    (w: Word) => if w.q <= w.eq <= |line| then line[w.q..w.eq] else ""
  }

  /** Blanks are skipped. */
  lemma {:induction false} SpaceEnds(line: CString, s: nat, q: nat)
    requires s <= q <= |line| && (q < |line| ==> line[q] !in BLANKS) && forall i :: s <= i < q ==> line[i] in BLANKS
    ensures SkipSpace(line, s) == q
    decreases q - s
  {
    if s < q { SpaceEnds(line, s + 1, q); }
  }

  /** A word ends at the first character that cannot be in one. */
  lemma {:induction false} WordEnds(line: CString, s: nat, eq: nat)
    requires s <= eq <= |line| && (eq < |line| ==> line[eq] in BLANKS || line[eq] in SYMBOLS)
    requires forall i :: s <= i < eq ==> line[i] !in BLANKS && line[i] !in SYMBOLS
    ensures SkipWord(line, s) == eq
    decreases eq - s
  {
    if s < eq { WordEnds(line, s + 1, eq); }
  }

  /** A token written from q to e, after blanks, is not run together with what follows. */
  ghost predicate TokenThere(line: CString, s: nat, q: nat, e: nat, t: Tok<string>) {
    && IsTok(t) && s <= q <= e <= |line| && (forall i :: s <= i < q ==> line[i] in BLANKS) && line[q..e] == TokText(t)
    && (t.Text? && e < |line| ==> line[e] in BLANKS || line[e] in SYMBOLS)
    && (t == Sym('>') && e < |line| ==> line[e] != '>')
  }

  /** Then gettoken finds it. */
  lemma TokenFound(line: CString, s: nat, q: nat, e: nat, t: Tok<string>)
    requires TokenThere(line, s, q, e, t)
    ensures q < e && TokenAt(line, s) == Token(if t.Text? then 'a' else t.c, q, e, SkipSpace(line, e))
    ensures t.Text? ==> line[q..e] == t.w
  {
    var x := line[q..e];
    assert line[q] == x[0];
    SpaceEnds(line, s, q);
    hide SkipSpace;
    if t.Text? {
      assert forall i :: q <= i < e ==> line[i] == x[i - q];
      WordEnds(line, q, e);
    } else if t.c == '+' {
      assert line[q + 1] == x[1];
    }
    hide SkipWord;
  }

  lemma LexOne(line: CString, s: nat, q: nat, e: nat, t: Tok<string>)
    requires TokenThere(line, s, q, e, t)
    ensures MapToks(Lex(line, s), TextOf(line)) == [t] + MapToks(Lex(line, e), TextOf(line))
  {
    TokenFound(line, s, q, e, t);
    Shell.PeekTells(line, e);
    hide TokenAt, SkipSpace;
    var ts := Lex(line, s);
    assert ts[1..] == Lex(line, e) && MapTok(ts[0], TextOf(line)) == t;
  }

  /** What a shown list of tokens starts with. */
  lemma ShowStart(gaps: seq<string>, ts: seq<Tok<string>>)
    requires Spacing(gaps, ts) && Show(gaps, ts) != ""
    ensures var c := Show(gaps, ts)[0];
            if gaps[0] != "" then c in BLANKS
            else ts != [] && c == TokText(ts[0])[0] && (!ts[0].Text? ==> c in SYMBOLS)
                 && (c == '>' <==> ts[0] == Sym('>') || ts[0] == Sym('+'))
  {
  }

  lemma TailSpacing(gaps: seq<string>, ts: seq<Tok<string>>)
    requires Spacing(gaps, ts) && ts != []
    ensures Spacing(gaps[1..], ts[1..]) && (ts[1..] != [] && RunTogether(ts[0], ts[1]) ==> gaps[1] != "")
  {
  }

  /** A line with tokens written on it has the first of them, and after it a line with the others. */
  lemma ShowCut(line: CString, s: nat, gaps: seq<string>, ts: seq<Tok<string>>) returns (q: nat, e: nat)
    requires s <= |line| && Spacing(gaps, ts) && ts != [] && line[s..] == Show(gaps, ts)
    ensures TokenThere(line, s, q, e, ts[0]) && Spacing(gaps[1..], ts[1..]) && line[e..] == Show(gaps[1..], ts[1..])
  {
    var g, x := gaps[0], TokText(ts[0]);
    TailSpacing(gaps, ts);
    var rest := Show(gaps[1..], ts[1..]);
    assert AllBlank(g) && line[s..] == g + x + rest;
    if rest != "" { ShowStart(gaps[1..], ts[1..]); }
    hide Show, Spacing;
    q, e := s + |g|, s + |g| + |x|;
    Slices(line, s, g, x, rest);
  }

  lemma Slices(line: string, s: nat, g: string, x: string, rest: string)
    requires s <= |line| && line[s..] == g + x + rest
    ensures var q, e := s + |g|, s + |g| + |x|;
            && e <= |line| && line[q..e] == x && line[e..] == rest && (forall i :: s <= i < q ==> line[i] == g[i - s])
            && (e < |line| ==> rest != "" && line[e] == rest[0])
  {
    var q, e, tail := s + |g|, s + |g| + |x|, line[s..];
    assert |tail| == |line| - s && forall i :: s <= i < |line| ==> line[i] == tail[i - s];
    assert line[q..e] == tail[|g|..|g| + |x|] == x;
    assert line[e..] == tail[|g| + |x|..] == rest;
  }

  lemma LexNothing(line: CString, s: nat)
    requires s <= |line| && forall i :: s <= i < |line| ==> line[i] in BLANKS
    ensures Lex(line, s) == []
  {
    SpaceEnds(line, s, |line|);
  }

  /** The tokens of a line to which tokens have been written are those tokens. */
  lemma {:induction false} LexShown(line: CString, s: nat, gaps: seq<string>, ts: seq<Tok<string>>)
    requires s <= |line| && Spacing(gaps, ts) && line[s..] == Show(gaps, ts)
    ensures MapToks(Lex(line, s), TextOf(line)) == ts
    decreases |ts|
  {
    if ts == [] {
      assert forall i :: s <= i < |line| ==> line[i] == line[s..][i - s];
      LexNothing(line, s);
    } else {
      hide TokenThere, Show, Lex, MapToks, TextOf, Spacing;
      var q, e := ShowCut(line, s, gaps, ts);
      LexOne(line, s, q, e, ts[0]);
      EndIn(line, s, q, e, ts[0]);
      LexShown(line, e, gaps[1..], ts[1..]);
      assert [ts[0]] + ts[1..] == ts;
    }
  }

  lemma EndIn(line: CString, s: nat, q: nat, e: nat, t: Tok<string>)
    requires TokenThere(line, s, q, e, t)
    ensures e <= |line|
  {
  }

  // ---- Every line can be read ------------------------------------------------------------------------

  /**
   However a line is written, with whatever blanks that keep its tokens apart, the shell makes of it
   the command it means: the one it makes has, in place of each word, where the word is on the line.
   */
  lemma ReadsBack(t: Text<string>, gaps: seq<string>)
    requires IsLine(t) && Spacing(gaps, Toks(t))
    ensures var line := Show(gaps, Toks(t));
            var r := Shell.Accepted(line);
            r.Some? && MapCmd(r.value, TextOf(line)) == Meaning(t)
  {
    hide LineOf, Lex, Show, MapToks, MapCmd, Toks, TextOf, Spacing;
    var ts := Toks(t);
    var line := Show(gaps, ts);
    assert line[0..] == line;
    LexShown(line, 0, gaps, ts);
    assert ts + [] == ts;
    ReadLine(t, []);
    LineAlike(Lex(line, 0), TextOf(line));
  }

  /** All words of the command can be written. */
  predicate IsCmdText(c: Cmd<string>) {
    match c
    case Exec(ws) => forall i :: 0 <= i < |ws| ==> IsText(ws[i])
    case Redir(c1, r) => IsCmdText(c1) && IsText(r.file)
    case Pipe(l, r) => IsCmdText(l) && IsCmdText(r)
    case List(l, r) => IsCmdText(l) && IsCmdText(r)
    case Back(c1) => IsCmdText(c1)
  }

  lemma {:induction false} WordsTexts(ws: seq<string>)
    requires forall i :: 0 <= i < |ws| ==> IsText(ws[i])
    ensures AllToks(ItemsToks(ArgItems(ws)))
  {
    if ws != [] {
      WordsTexts(ws[1..]);
      assert ArgItems(ws)[1..] == ArgItems(ws[1..]);
    }
  }

  lemma RedirText(xs: seq<Item<string>>, r: Redirection<string>)
    requires AllToks(ItemsToks(xs)) && IsText(r.file)
    ensures AllToks(ItemsToks(xs + [RedirItem(r)]))
  {
    ToksAdd(xs, [RedirItem(r)]);
    assert ItemsToks([RedirItem(r)]) == ItemToks(RedirItem(r)) + [];
  }

  lemma {:induction false} ExecTexts(c: Cmd<string>)
    requires IsCmdText(c) && Writable(c)
    ensures AllToks(Toks(AsExec(c)))
    decreases c, if c.Exec? || c.Redir? then 0 else 10
  {
    match c
    case Exec(ws) =>
      WordsTexts(ws);
    case Redir(c1, r) =>
      ExecTexts(c1);
      ExecWritten(c1);
      var t := AsExec(c1);
      if t.Block? {
        var n := |Toks(t)| - |ItemsToks(t.items)|;
        assert Toks(t)[n..] == ItemsToks(t.items);
      }
      RedirText(t.items, r);
    case _ =>
      LineTexts(c);
  }

  lemma {:induction false} PipeTexts(c: Cmd<string>)
    requires IsCmdText(c) && Writable(c)
    ensures AllToks(Toks(AsPipe(c)))
    decreases c, if c.List? || c.Back? then 11 else 1
  {
    if c.Pipe? { ExecTexts(c.left); PipeTexts(c.right); } else { ExecTexts(c); }
  }

  lemma {:induction false} BackTexts(c: Cmd<string>)
    requires IsCmdText(c) && Writable(c)
    ensures AllToks(Toks(AsBack(c)))
    decreases c, if c.List? then 12 else 2
  {
    if c.Back? { BackTexts(c.cmd); } else { PipeTexts(c); }
  }

  lemma {:induction false} LineTexts(c: Cmd<string>)
    requires IsCmdText(c) && Writable(c)
    ensures AllToks(Toks(AsLine(c)))
    decreases c, 3
  {
    if c.List? { BackTexts(c.left); LineTexts(c.right); } else { BackTexts(c); }
  }

  /** So every command with words that can be written has a line from which the shell makes it. */
  lemma HasLine(c: Cmd<string>) returns (line: CString)
    requires Writable(c) && IsCmdText(c)
    ensures var r := Shell.Accepted(line); r.Some? && MapCmd(r.value, TextOf(line)) == c
  {
    hide Shell.Accepted, Show, Toks, MapCmd;
    LineTexts(c);
    LineWritten(c);
    var ts := Toks(AsLine(c));
    var gaps := seq(|ts| + 1, _ => " ");
    line := Show(gaps, ts);
    ReadsBack(AsLine(c), gaps);
  }
}
