/**
 The shell's grammar (sh.c) on tokens, and the commands it means. A panic is a result.
 */
module ShellSpec {
  import opened ShellLex

  const MAXARGS := 10

  datatype Mode = ReadOnly | WriteCreate

  datatype Redirection<W> = Redirection(file: W, mode: Mode, fd: nat)

  datatype Cmd<W> =
    | Exec(args: seq<W>)
    | Redir(cmd: Cmd<W>, r: Redirection<W>)
    | Pipe(left: Cmd<W>, right: Cmd<W>)
    | List(left: Cmd<W>, right: Cmd<W>)
    | Back(cmd: Cmd<W>)

  datatype Parsed<T, W> = Ok(value: T, rest: seq<Tok<W>>) | Panic

  /** The kind of the next token, as gettoken reports it. */
  function First<W>(ts: seq<Tok<W>>): char {
    if ts == [] then '\0' else if ts[0].Text? then 'a' else ts[0].c
  }

  predicate IsRedir(c: char) {
    c == '<' || c == '>' || c == '+'
  }

  /** What follows a command. */
  predicate IsStop(c: char) {
    c == '|' || c == ')' || c == '&' || c == ';' || c == '\0'
  }

  function MakeRedir<W>(c: char, w: W): Redirection<W> {
    if c == '<' then Redirection(w, ReadOnly, 0) else Redirection(w, WriteCreate, 1)
  }

  function Redirs<W>(ts: seq<Tok<W>>): (r: Parsed<seq<Redirection<W>>, W>)
    ensures r.Ok? ==> |r.rest| <= |ts| && !IsRedir(First(r.rest))
    decreases |ts|
  {
    if !IsRedir(First(ts)) then Ok([], ts)
    else if |ts| < 2 || !ts[1].Text? then Panic
    else match Redirs(ts[2..])
      case Panic => Panic
      case Ok(rs, rest) => Ok([MakeRedir(First(ts), ts[1].w)] + rs, rest)
  }

  /** The redirections in rs around cmd, the first innermost. */
  function Wrap<W>(cmd: Cmd<W>, rs: seq<Redirection<W>>): Cmd<W>
    decreases |rs|
  {
    if rs == [] then cmd else Wrap(Redir(cmd, rs[0]), rs[1..])
  }

  datatype Args<W> = Args(words: seq<W>, redirs: seq<Redirection<W>>)

  /** The arguments of a command that has n already, and the redirections among them. */
  function ArgsOf<W>(ts: seq<Tok<W>>, n: nat): (r: Parsed<Args<W>, W>)
    ensures r.Ok? ==> |r.rest| <= |ts|
    decreases |ts|
  {
    if IsStop(First(ts)) then Ok(Args([], []), ts)
    else if !ts[0].Text? || n + 1 >= MAXARGS then Panic
    else match Redirs(ts[1..])
      case Panic => Panic
      case Ok(rs, rest) =>
        match ArgsOf(rest, n + 1)
        case Panic => Panic
        case Ok(a, rest2) => Ok(Args([ts[0].w] + a.words, rs + a.redirs), rest2)
  }

  function SimpleOf<W>(ts: seq<Tok<W>>): (r: Parsed<Cmd<W>, W>)
    ensures r.Ok? ==> |r.rest| <= |ts|
  {
    match Redirs(ts)
    case Panic => Panic
    case Ok(rs, rest) =>
      match ArgsOf(rest, 0)
      case Panic => Panic
      case Ok(a, rest2) => Ok(Wrap(Exec(a.words), rs + a.redirs), rest2)
  }

  function BlockOf<W>(ts: seq<Tok<W>>): (r: Parsed<Cmd<W>, W>)
    ensures r.Ok? ==> |r.rest| < |ts|
    decreases |ts|, 0
  {
    if First(ts) != '(' then Panic
    else match LineOf(ts[1..])
    case Panic => Panic
    case Ok(cmd, rest) =>
      if First(rest) != ')' then Panic
      else match Redirs(rest[1..])
        case Panic => Panic
        case Ok(rs, rest2) => Ok(Wrap(cmd, rs), rest2)
  }

  function ExecOf<W>(ts: seq<Tok<W>>): (r: Parsed<Cmd<W>, W>)
    ensures r.Ok? ==> |r.rest| <= |ts|
    decreases |ts|, 1
  {
    if First(ts) == '(' then BlockOf(ts) else SimpleOf(ts)
  }

  function PipeOf<W>(ts: seq<Tok<W>>): (r: Parsed<Cmd<W>, W>)
    ensures r.Ok? ==> |r.rest| <= |ts|
    decreases |ts|, 2
  {
    match ExecOf(ts)
    case Panic => Panic
    case Ok(cmd, rest) =>
      if First(rest) != '|' then Ok(cmd, rest)
      else match PipeOf(rest[1..])
        case Panic => Panic
        case Ok(right, rest2) => Ok(Pipe(cmd, right), rest2)
  }

  function Backs<W>(cmd: Cmd<W>, ts: seq<Tok<W>>): (r: (Cmd<W>, seq<Tok<W>>))
    ensures |r.1| <= |ts| && First(r.1) != '&'
    decreases |ts|
  {
    if First(ts) == '&' then Backs(Back(cmd), ts[1..]) else (cmd, ts)
  }

  function LineOf<W>(ts: seq<Tok<W>>): (r: Parsed<Cmd<W>, W>)
    ensures r.Ok? ==> |r.rest| <= |ts|
    decreases |ts|, 3
  {
    match PipeOf(ts)
    case Panic => Panic
    case Ok(cmd, rest) =>
      var b := Backs(cmd, rest);
      if First(b.1) != ';' then Ok(b.0, b.1)
      else match LineOf(b.1[1..])
        case Panic => Panic
        case Ok(right, rest2) => Ok(List(b.0, right), rest2)
  }

  // ---- No word is lost or doubled ----------------------------------------------------

  function WordsOf(cmd: Cmd<Word>): multiset<Word> {
    match cmd
    case Exec(args) => multiset(args)
    case Redir(c, r) => WordsOf(c) + multiset{r.file}
    case Pipe(l, r) => WordsOf(l) + WordsOf(r)
    case List(l, r) => WordsOf(l) + WordsOf(r)
    case Back(c) => WordsOf(c)
  }

  function Files(rs: seq<Redirection<Word>>): multiset<Word> {
    if rs == [] then multiset{} else multiset{rs[0].file} + Files(rs[1..])
  }

  function Bag(ts: seq<Tok<Word>>): multiset<Word> {
    multiset(Words(ts))
  }

  lemma BagTail(ts: seq<Tok<Word>>)
    requires ts != []
    ensures Bag(ts) == (if ts[0].Text? then multiset{ts[0].w} else multiset{}) + Bag(ts[1..])
  {
  }

  lemma FilesFirst(rs: seq<Redirection<Word>>)
    ensures rs == [] ==> Files(rs) == multiset{}
    ensures rs != [] ==> Files(rs) == multiset{rs[0].file} + Files(rs[1..])
  {
  }

  lemma {:induction false} FilesAdd(rs: seq<Redirection<Word>>, ss: seq<Redirection<Word>>)
    ensures Files(rs + ss) == Files(rs) + Files(ss)
  {
    hide Files;
    FilesFirst(rs);
    FilesFirst(rs + ss);
    if rs == [] {
      assert rs + ss == ss;
    } else {
      FilesAdd(rs[1..], ss);
      assert (rs + ss)[0] == rs[0] && (rs + ss)[1..] == rs[1..] + ss;
    }
  }

  lemma {:induction false} WrapWords(cmd: Cmd<Word>, rs: seq<Redirection<Word>>)
    ensures WordsOf(Wrap(cmd, rs)) == WordsOf(cmd) + Files(rs)
    decreases |rs|
  {
    if rs != [] { WrapWords(Redir(cmd, rs[0]), rs[1..]); }
  }

  lemma {:induction false} RedirsWords(ts: seq<Tok<Word>>)
    ensures var r := Redirs(ts); r.Ok? ==> Bag(ts) == Files(r.value) + Bag(r.rest)
    decreases |ts|
  {
    if IsRedir(First(ts)) && |ts| >= 2 && ts[1].Text? {
      RedirsWords(ts[2..]);
      BagTail(ts);
      BagTail(ts[1..]);
      assert ts[1..][1..] == ts[2..];
    }
  }

  lemma {:induction false} ArgsWords(ts: seq<Tok<Word>>, n: nat)
    ensures var r := ArgsOf(ts, n);
            r.Ok? ==> Bag(ts) == multiset(r.value.words) + Files(r.value.redirs) + Bag(r.rest)
    decreases |ts|
  {
    var r := ArgsOf(ts, n);
    if !IsStop(First(ts)) && r.Ok? {
      BagTail(ts);
      RedirsWords(ts[1..]);
      var rs := Redirs(ts[1..]);
      ArgsWords(rs.rest, n + 1);
      var a := ArgsOf(rs.rest, n + 1).value;
      FilesAdd(rs.value, a.redirs);
      assert multiset([ts[0].w] + a.words) == multiset{ts[0].w} + multiset(a.words);
    }
  }

  lemma SimpleWords(ts: seq<Tok<Word>>)
    ensures var r := SimpleOf(ts); r.Ok? ==> Bag(ts) == WordsOf(r.value) + Bag(r.rest)
  {
    if SimpleOf(ts).Ok? {
      var rs := Redirs(ts);
      var a := ArgsOf(rs.rest, 0).value;
      RedirsWords(ts);
      ArgsWords(rs.rest, 0);
      FilesAdd(rs.value, a.redirs);
      WrapWords(Exec(a.words), rs.value + a.redirs);
    }
  }

  lemma {:induction false} BacksWords(cmd: Cmd<Word>, ts: seq<Tok<Word>>)
    ensures var b := Backs(cmd, ts); WordsOf(cmd) + Bag(ts) == WordsOf(b.0) + Bag(b.1)
    decreases |ts|
  {
    if First(ts) == '&' {
      BacksWords(Back(cmd), ts[1..]);
      BagTail(ts);
    }
  }

  lemma {:induction false} ExecWords(ts: seq<Tok<Word>>)
    ensures var r := ExecOf(ts); r.Ok? ==> Bag(ts) == WordsOf(r.value) + Bag(r.rest)
    decreases |ts|, 1
  {
    if First(ts) != '(' {
      SimpleWords(ts);
    } else if BlockOf(ts).Ok? {
      BagTail(ts);
      LineWords(ts[1..]);
      var l := LineOf(ts[1..]);
      BagTail(l.rest);
      RedirsWords(l.rest[1..]);
      WrapWords(l.value, Redirs(l.rest[1..]).value);
    }
  }

  lemma {:induction false} PipeWords(ts: seq<Tok<Word>>)
    ensures var r := PipeOf(ts); r.Ok? ==> Bag(ts) == WordsOf(r.value) + Bag(r.rest)
    decreases |ts|, 2
  {
    ExecWords(ts);
    var e := ExecOf(ts);
    if e.Ok? && First(e.rest) == '|' {
      BagTail(e.rest);
      PipeWords(e.rest[1..]);
    }
  }

  /** The words of the command are those of the tokens it was made from, each as often. */
  lemma {:induction false} LineWords(ts: seq<Tok<Word>>)
    ensures var r := LineOf(ts); r.Ok? ==> Bag(ts) == WordsOf(r.value) + Bag(r.rest)
    decreases |ts|, 3
  {
    PipeWords(ts);
    var p := PipeOf(ts);
    if p.Ok? {
      BacksWords(p.value, p.rest);
      var b := Backs(p.value, p.rest);
      if First(b.1) == ';' {
        BagTail(b.1);
        LineWords(b.1[1..]);
      }
    }
  }
}
