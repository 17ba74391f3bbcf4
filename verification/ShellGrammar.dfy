/**
 What the shell accepts (sh.c): every way a command line may be written, as a tree that keeps the
 order of words and redirections, the spelling of an output redirection and all parentheses. The
 parser of ShellSpec accepts exactly the token lists of such trees, and gives their commands.
 */
module ShellGrammar {
  import opened ShellLex
  import opened ShellSpec

  /** A word of a simple command, or a redirection: `< file`, `> file` or `>> file`. */
  datatype Item<W> = Arg(w: W) | In(file: W) | Out(file: W, append: bool)

  datatype Text<W> =
    | Simple(items: seq<Item<W>>)              // words and redirections in any order
    | Block(line: Text<W>, items: seq<Item<W>>) // ( line ) and redirections
    | Piped(left: Text<W>, right: Text<W>)
    | Amp(cmd: Text<W>)
    | Then(left: Text<W>, right: Text<W>)

  // ---- Tokens and meaning --------------------------------------------------------------------

  function ItemToks<W>(x: Item<W>): seq<Tok<W>> {
    match x
    case Arg(w) => [Tok.Text(w)]
    case In(f) => [Sym('<'), Tok.Text(f)]
    case Out(f, append) => [Sym(if append then '+' else '>'), Tok.Text(f)]
  }

  function ItemsToks<W>(xs: seq<Item<W>>): seq<Tok<W>> {
    if xs == [] then [] else ItemToks(xs[0]) + ItemsToks(xs[1..])
  }

  function Toks<W>(t: Text<W>): seq<Tok<W>> {
    match t
    case Simple(xs) => ItemsToks(xs)
    case Block(l, xs) => [Sym('(')] + Toks(l) + [Sym(')')] + ItemsToks(xs)
    case Piped(l, r) => Toks(l) + [Sym('|')] + Toks(r)
    case Amp(c) => Toks(c) + [Sym('&')]
    case Then(l, r) => Toks(l) + [Sym(';')] + Toks(r)
  }

  function WordIn<W>(x: Item<W>): seq<W> {
    if x.Arg? then [x.w] else []
  }

  function WordsIn<W>(xs: seq<Item<W>>): seq<W> {
    if xs == [] then [] else WordIn(xs[0]) + WordsIn(xs[1..])
  }

  /** A file is opened for writing on descriptor 1 however that is spelled. */
  function RedirIn<W>(x: Item<W>): seq<Redirection<W>> {
    match x
    case Arg(_) => []
    case In(f) => [Redirection(f, ReadOnly, 0)]
    case Out(f, _) => [Redirection(f, WriteCreate, 1)]
  }

  /** The redirections in order. */
  function RedirsIn<W>(xs: seq<Item<W>>): seq<Redirection<W>> {
    if xs == [] then [] else RedirIn(xs[0]) + RedirsIn(xs[1..])
  }

  function Meaning<W>(t: Text<W>): Cmd<W> {
    match t
    case Simple(xs) => Wrap(Exec(WordsIn(xs)), RedirsIn(xs))
    case Block(l, xs) => Wrap(Meaning(l), RedirsIn(xs))
    case Piped(l, r) => Pipe(Meaning(l), Meaning(r))
    case Amp(c) => Back(Meaning(c))
    case Then(l, r) => List(Meaning(l), Meaning(r))
  }

  // ---- Which trees are lines ------------------------------------------------------------------

  predicate NoArgs<W>(xs: seq<Item<W>>) {
    forall i :: 0 <= i < |xs| ==> !xs[i].Arg?
  }

  predicate IsExec<W>(t: Text<W>)
    decreases t, 0
  {
    match t
    case Simple(xs) => |WordsIn(xs)| < 10
    case Block(l, xs) => IsLine(l) && NoArgs(xs)
    case _ => false
  }

  predicate IsPipe<W>(t: Text<W>)
    decreases t, 1
  {
    if t.Piped? then IsExec(t.left) && IsPipe(t.right) else IsExec(t)
  }

  predicate IsBack<W>(t: Text<W>)
    decreases t, 2
  {
    if t.Amp? then IsBack(t.cmd) else IsPipe(t)
  }

  predicate IsLine<W>(t: Text<W>)
    decreases t, 3
  {
    if t.Then? then IsBack(t.left) && IsLine(t.right) else IsBack(t)
  }

  // ---- What is written is read ------------------------------------------------------------------

  lemma Assoc<T>(a: seq<T>, b: seq<T>, c: seq<T>)
    ensures (a + b) + c == a + (b + c)
  {
  }

  lemma {:induction false} ToksAdd<W>(xs: seq<Item<W>>, ys: seq<Item<W>>)
    ensures ItemsToks(xs + ys) == ItemsToks(xs) + ItemsToks(ys)
  {
    if xs == [] {
      assert xs + ys == ys && [] + ItemsToks(ys) == ItemsToks(ys);
    } else {
      var zs := xs + ys;
      ToksAdd(xs[1..], ys);
      assert zs[0] == xs[0] && zs[1..] == xs[1..] + ys;
      assert ItemsToks(zs) == ItemToks(zs[0]) + ItemsToks(zs[1..]);
      assert ItemsToks(xs) == ItemToks(xs[0]) + ItemsToks(xs[1..]);
      hide ItemsToks, ItemToks;
      Assoc(ItemToks(xs[0]), ItemsToks(xs[1..]), ItemsToks(ys));
    }
  }

  lemma {:induction false} WordsAdd<W>(xs: seq<Item<W>>, ys: seq<Item<W>>)
    ensures WordsIn(xs + ys) == WordsIn(xs) + WordsIn(ys)
  {
    if xs == [] {
      assert xs + ys == ys && [] + WordsIn(ys) == WordsIn(ys);
    } else {
      var zs := xs + ys;
      WordsAdd(xs[1..], ys);
      assert zs[0] == xs[0] && zs[1..] == xs[1..] + ys;
      assert WordsIn(zs) == WordIn(zs[0]) + WordsIn(zs[1..]) && WordsIn(xs) == WordIn(xs[0]) + WordsIn(xs[1..]);
      hide WordsIn, WordIn;
      Assoc(WordIn(xs[0]), WordsIn(xs[1..]), WordsIn(ys));
    }
  }

  lemma {:induction false} RedirsAdd<W>(xs: seq<Item<W>>, ys: seq<Item<W>>)
    ensures RedirsIn(xs + ys) == RedirsIn(xs) + RedirsIn(ys)
  {
    if xs == [] {
      assert xs + ys == ys && [] + RedirsIn(ys) == RedirsIn(ys);
    } else {
      var zs := xs + ys;
      RedirsAdd(xs[1..], ys);
      assert zs[0] == xs[0] && zs[1..] == xs[1..] + ys;
      assert RedirsIn(zs) == RedirIn(zs[0]) + RedirsIn(zs[1..]) && RedirsIn(xs) == RedirIn(xs[0]) + RedirsIn(xs[1..]);
      hide RedirsIn, RedirIn;
      Assoc(RedirIn(xs[0]), RedirsIn(xs[1..]), RedirsIn(ys));
    }
  }

  lemma ItemsAdd<W>(xs: seq<Item<W>>, ys: seq<Item<W>>)
    ensures ItemsToks(xs + ys) == ItemsToks(xs) + ItemsToks(ys)
    ensures WordsIn(xs + ys) == WordsIn(xs) + WordsIn(ys)
    ensures RedirsIn(xs + ys) == RedirsIn(xs) + RedirsIn(ys)
  {
    ToksAdd(xs, ys);
    WordsAdd(xs, ys);
    RedirsAdd(xs, ys);
  }

  lemma ReadOne<W>(x: Item<W>, ts: seq<Tok<W>>)
    requires !x.Arg?
    ensures Redirs(ItemToks(x) + ts) == match Redirs(ts)
                                        case Panic => Panic
                                        case Ok(rs, rest) => Ok(RedirIn(x) + rs, rest)
  {
    var us := ItemToks(x) + ts;
    assert us[2..] == ts && |us| >= 2 && us[1].Text? && IsRedir(First(us));
    assert RedirIn(x) == [MakeRedir(First(us), us[1].w)];
  }

  lemma {:induction false} ReadRedirs<W>(xs: seq<Item<W>>, rest: seq<Tok<W>>)
    requires NoArgs(xs) && !IsRedir(First(rest))
    ensures Redirs(ItemsToks(xs) + rest) == Ok(RedirsIn(xs), rest) && WordsIn(xs) == []
  {
    if xs == [] {
      assert ItemsToks(xs) + rest == rest;
    } else {
      ReadRedirs(xs[1..], rest);
      assert ItemsToks(xs) == ItemToks(xs[0]) + ItemsToks(xs[1..]);
      assert RedirsIn(xs) == RedirIn(xs[0]) + RedirsIn(xs[1..]) && WordsIn(xs) == [] + WordsIn(xs[1..]);
      hide Redirs, ItemToks, ItemsToks, RedirsIn, WordsIn;
      Assoc(ItemToks(xs[0]), ItemsToks(xs[1..]), rest);
      ReadOne(xs[0], ItemsToks(xs[1..]) + rest);
    }
  }

  /** How many redirections come before the first word. */
  function Leading<W>(xs: seq<Item<W>>): (n: nat)
    ensures n <= |xs| && NoArgs(xs[..n]) && (n < |xs| ==> xs[n].Arg?)
  {
    if xs == [] || xs[0].Arg? then 0 else 1 + Leading(xs[1..])
  }

  /** Leading redirections are read up to the first word or the end. */
  lemma ReadLeading<W>(pre: seq<Item<W>>, post: seq<Item<W>>, rest: seq<Tok<W>>)
    requires IsStop(First(rest)) && NoArgs(pre) && (post == [] || post[0].Arg?)
    ensures Redirs(ItemsToks(pre + post) + rest) == Ok(RedirsIn(pre), ItemsToks(post) + rest)
    ensures WordsIn(pre + post) == WordsIn(post) && RedirsIn(pre + post) == RedirsIn(pre) + RedirsIn(post)
  {
    hide ItemsToks, WordsIn, RedirsIn, Redirs;
    AfterLeading(post, rest);
    ItemsAdd(pre, post);
    ReadRedirs(pre, ItemsToks(post) + rest);
    assert (ItemsToks(pre) + ItemsToks(post)) + rest == ItemsToks(pre) + (ItemsToks(post) + rest);
    assert [] + WordsIn(post) == WordsIn(post);
  }

  lemma AfterLeading<W>(xs: seq<Item<W>>, rest: seq<Tok<W>>)
    requires IsStop(First(rest)) && (xs == [] || xs[0].Arg?)
    ensures !IsRedir(First(ItemsToks(xs) + rest))
  {
    assert xs == [] ==> ItemsToks(xs) + rest == rest;
  }

  lemma {:induction false} ReadArgs<W>(xs: seq<Item<W>>, rest: seq<Tok<W>>, n: nat)
    requires (xs == [] || xs[0].Arg?) && n + |WordsIn(xs)| < MAXARGS && IsStop(First(rest))
    ensures ArgsOf(ItemsToks(xs) + rest, n) == Ok(Args(WordsIn(xs), RedirsIn(xs)), rest)
    decreases |xs|
  {
    if xs == [] {
      assert ItemsToks(xs) + rest == rest;
    } else {
      var ys, k := xs[1..], Leading(xs[1..]);
      var pre, post := ys[..k], ys[k..];
      assert [Arg(xs[0].w)] + ys == xs && pre + post == ys;
      hide ArgsOf, Redirs, ItemsToks, WordsIn, RedirsIn;
      ArgFirst(xs[0].w, ys);
      ReadLeading(pre, post, rest);
      ReadArgs(post, rest, n + 1);
      Assoc([Tok.Text(xs[0].w)], ItemsToks(ys), rest);
      OneArg(xs[0].w, ItemsToks(ys) + rest, n, RedirsIn(pre), ItemsToks(post) + rest,
             Args(WordsIn(post), RedirsIn(post)), rest);
    }
  }

  /** One more word in front of arguments. */
  lemma OneArg<W>(w: W, ts: seq<Tok<W>>, n: nat, rs: seq<Redirection<W>>, mid: seq<Tok<W>>, a: Args<W>,
                  rest: seq<Tok<W>>)
    requires n + 1 < MAXARGS && Redirs(ts) == Ok(rs, mid) && ArgsOf(mid, n + 1) == Ok(a, rest)
    ensures ArgsOf([Tok.Text(w)] + ts, n) == Ok(Args([w] + a.words, rs + a.redirs), rest)
  {
    hide Redirs;
    assert ([Tok.Text(w)] + ts)[1..] == ts;
  }

  lemma NotOpen<W>(xs: seq<Item<W>>, rest: seq<Tok<W>>)
    requires IsStop(First(rest))
    ensures First(ItemsToks(xs) + rest) != '('
  {
    if xs == [] {
      assert ItemsToks(xs) + rest == rest;
    } else {
      assert (ItemsToks(xs) + rest)[0] == ItemToks(xs[0])[0];
    }
  }

  lemma ReadSimple<W>(xs: seq<Item<W>>, rest: seq<Tok<W>>)
    requires |WordsIn(xs)| < MAXARGS && IsStop(First(rest))
    ensures First(ItemsToks(xs) + rest) != '('
    ensures SimpleOf(ItemsToks(xs) + rest) == Ok(Wrap(Exec(WordsIn(xs)), RedirsIn(xs)), rest)
  {
    var n := Leading(xs);
    var pre, post := xs[..n], xs[n..];
    assert pre + post == xs;
    hide Redirs, ArgsOf, ItemsToks, WordsIn, RedirsIn, Wrap;
    NotOpen(xs, rest);
    ReadLeading(pre, post, rest);
    ReadArgs(post, rest, 0);
  }

  /** A line in parentheses, with redirections after it. */
  lemma ReadBlock<W>(c: Cmd<W>, line: seq<Tok<W>>, xs: seq<Item<W>>, rest: seq<Tok<W>>)
    requires NoArgs(xs) && IsStop(First(rest))
    requires LineOf(line + ([Sym(')')] + (ItemsToks(xs) + rest))) == Ok(c, [Sym(')')] + (ItemsToks(xs) + rest))
    ensures ExecOf([Sym('(')] + line + [Sym(')')] + (ItemsToks(xs) + rest)) == Ok(Wrap(c, RedirsIn(xs)), rest)
  {
    var tail := ItemsToks(xs) + rest;
    var ts := [Sym('(')] + line + [Sym(')')] + tail;
    assert ts[1..] == line + ([Sym(')')] + tail);
    ReadRedirs(xs, rest);
    assert ([Sym(')')] + tail)[1..] == tail;
  }

  lemma {:induction false} ReadExec<W>(t: Text<W>, rest: seq<Tok<W>>)
    requires IsExec(t) && IsStop(First(rest))
    ensures ExecOf(Toks(t) + rest) == Ok(Meaning(t), rest)
    decreases t, 0
  {
    match t
    case Simple(xs) =>
      ReadSimple(xs, rest);
    case Block(l, xs) =>
      var tail := [Sym(')')] + (ItemsToks(xs) + rest);
      assert First(tail) == ')';
      ReadLine(l, tail);
      ReadBlock(Meaning(l), Toks(l), xs, rest);
      assert Toks(t) + rest == [Sym('(')] + Toks(l) + [Sym(')')] + (ItemsToks(xs) + rest);
  }

  lemma {:induction false} ReadPipe<W>(t: Text<W>, rest: seq<Tok<W>>)
    requires IsPipe(t) && IsStop(First(rest)) && First(rest) != '|'
    ensures PipeOf(Toks(t) + rest) == Ok(Meaning(t), rest)
    decreases t, 1
  {
    if t.Piped? {
      var right := Toks(t.right) + rest;
      assert Toks(t) == Toks(t.left) + [Sym('|')] + Toks(t.right);
      hide ExecOf, Toks, PipeOf;
      Regroup(Toks(t.left), [Sym('|')], Toks(t.right), rest);
      ReadPipe(t.right, rest);
      assert First([Sym('|')] + right) == '|';
      ReadExec(t.left, [Sym('|')] + right);
      PipeLine(Meaning(t.left), Toks(t.left), Meaning(t.right), right, rest);
    } else {
      hide ExecOf, Toks;
      ReadExec(t, rest);
    }
  }

  lemma PipeLine<W>(l: Cmd<W>, ls: seq<Tok<W>>, r: Cmd<W>, right: seq<Tok<W>>, rest: seq<Tok<W>>)
    requires ExecOf(ls + ([Sym('|')] + right)) == Ok(l, [Sym('|')] + right) && PipeOf(right) == Ok(r, rest)
    ensures PipeOf(ls + ([Sym('|')] + right)) == Ok(Pipe(l, r), rest)
  {
    hide ExecOf;
    var tail := [Sym('|')] + right;
    assert First(tail) == '|' && tail[1..] == right;
  }

  /** What parseline has read when it comes to the semicolon or the end. */
  function BackOf<W>(ts: seq<Tok<W>>): (r: Parsed<Cmd<W>, W>)
    ensures r.Ok? ==> |r.rest| <= |ts|
  {
    match PipeOf(ts)
    case Panic => Panic
    case Ok(cmd, rest) => var b := Backs(cmd, rest); Ok(b.0, b.1)
  }

  /** n ampersands. */
  function Amps<W>(n: nat): seq<Tok<W>> {
    if n == 0 then [] else [Sym('&')] + Amps(n - 1)
  }

  function BackTimes<W>(c: Cmd<W>, n: nat): Cmd<W>
    decreases n
  {
    if n == 0 then c else BackTimes(Back(c), n - 1)
  }

  lemma {:induction false} ReadAmps<W>(c: Cmd<W>, n: nat, rest: seq<Tok<W>>)
    requires First(rest) != '&'
    ensures Backs(c, Amps(n) + rest) == (BackTimes(c, n), rest)
    decreases n
  {
    if n == 0 {
      assert Amps(n) + rest == rest;
    } else {
      ReadAmps(Back(c), n - 1, rest);
      assert (Amps(n) + rest)[1..] == Amps(n - 1) + rest;
    }
  }

  lemma FirstAmp<W>(n: nat, rest: seq<Tok<W>>)
    requires First(rest) == ';' || First(rest) == ')' || First(rest) == '\0'
    ensures var c := First(Amps(n) + rest); IsStop(c) && c != '|'
  {
    assert n == 0 ==> Amps(n) + rest == rest;
  }

  lemma MoreAmps<W>(ts: seq<Tok<W>>, n: nat, rest: seq<Tok<W>>)
    ensures (ts + [Sym('&')]) + (Amps(n) + rest) == ts + (Amps(n + 1) + rest)
  {
  }

  lemma {:induction false} ReadBack<W>(t: Text<W>, n: nat, rest: seq<Tok<W>>)
    requires IsBack(t) && (First(rest) == ';' || First(rest) == ')' || First(rest) == '\0')
    ensures BackOf(Toks(t) + (Amps(n) + rest)) == Ok(BackTimes(Meaning(t), n), rest)
    decreases t, 2
  {
    if t.Amp? {
      ReadBack(t.cmd, n + 1, rest);
      MoreAmps(Toks(t.cmd), n, rest);
      hide BackOf, Amps;
    } else {
      hide PipeOf, Backs, Toks, Amps, BackTimes, IsPipe;
      FirstAmp(n, rest);
      ReadPipe(t, Amps(n) + rest);
      ReadAmps(Meaning(t), n, rest);
    }
  }

  lemma BackLine<W>(ts: seq<Tok<W>>)
    ensures LineOf(ts) == match BackOf(ts)
                          case Panic => Panic
                          case Ok(cmd, rest) =>
                            if First(rest) != ';' then Ok(cmd, rest)
                            else match LineOf(rest[1..])
                              case Panic => Panic
                              case Ok(right, rest2) => Ok(List(cmd, right), rest2)
  {
    hide PipeOf, Backs;
  }

  /** However a line is written, it is read as what it means. */
  lemma {:induction false} ReadLine<W>(t: Text<W>, rest: seq<Tok<W>>)
    requires IsLine(t) && (First(rest) == ')' || First(rest) == '\0')
    ensures LineOf(Toks(t) + rest) == Ok(Meaning(t), rest)
    decreases t, 3
  {
    hide LineOf, BackOf, Amps, IsBack;
    NoAmps(Meaning(if t.Then? then t.left else t));
    if t.Then? {
      var right := Toks(t.right) + rest;
      Regroup(Toks(t.left), [Sym(';')], Toks(t.right), rest);
      ReadBack(t.left, 0, [Sym(';')] + right);
      ReadLine(t.right, rest);
      ListLine(Meaning(t.left), Toks(t.left), Meaning(t.right), right, rest);
    } else {
      ReadBack(t, 0, rest);
      assert [] + rest == rest;
      BackLine(Toks(t) + rest);
    }
  }

  lemma NoAmps<W>(c: Cmd<W>)
    ensures Amps<W>(0) == [] && BackTimes(c, 0) == c
  {
  }

  lemma Regroup<W>(a: seq<Tok<W>>, x: seq<Tok<W>>, b: seq<Tok<W>>, rest: seq<Tok<W>>)
    ensures (a + x + b) + rest == a + (x + (b + rest)) && a + ([] + (x + (b + rest))) == a + (x + (b + rest))
  {
  }

  lemma ListLine<W>(l: Cmd<W>, ls: seq<Tok<W>>, r: Cmd<W>, right: seq<Tok<W>>, rest: seq<Tok<W>>)
    requires BackOf(ls + ([Sym(';')] + right)) == Ok(l, [Sym(';')] + right) && LineOf(right) == Ok(r, rest)
    ensures LineOf(ls + ([Sym(';')] + right)) == Ok(List(l, r), rest)
  {
    hide BackOf, LineOf;
    var tail := [Sym(';')] + right;
    assert First(tail) == ';' && tail[1..] == right;
    BackLine(ls + tail);
  }

  // ---- What is read was written -----------------------------------------------------------------

  /** The first redirection of those read. */
  lemma FirstRedir<W>(ts: seq<Tok<W>>) returns (x: Item<W>)
    requires Redirs(ts).Ok? && IsRedir(First(ts))
    ensures |ts| >= 2 && ts == ItemToks(x) + ts[2..] && !x.Arg? && Redirs(ts[2..]).Ok?
    ensures Redirs(ts) == Ok(RedirIn(x) + Redirs(ts[2..]).value, Redirs(ts[2..]).rest)
  {
    var c, f := ts[0].c, ts[1].w;
    x := if c == '<' then In(f) else Out(f, c == '+');
    assert ItemToks(x) == [ts[0], ts[1]] && RedirIn(x) == [MakeRedir(First(ts), f)];
    hide Redirs;
    assert ts == [ts[0], ts[1]] + ts[2..];
  }

  lemma {:induction false} WrittenRedirs<W>(ts: seq<Tok<W>>) returns (xs: seq<Item<W>>)
    requires Redirs(ts).Ok?
    ensures NoArgs(xs) && WordsIn(xs) == []
    ensures ts == ItemsToks(xs) + Redirs(ts).rest && RedirsIn(xs) == Redirs(ts).value
    decreases |ts|
  {
    if !IsRedir(First(ts)) {
      xs := [];
    } else {
      hide Redirs, ItemToks, ItemsToks, RedirIn, RedirsIn, WordsIn;
      var x := FirstRedir(ts);
      var ys := WrittenRedirs(ts[2..]);
      xs := [x] + ys;
      ItemFirst(x, ys);
      Assoc(ItemToks(x), ItemsToks(ys), Redirs(ts[2..]).rest);
    }
  }

  lemma ItemFirst<W>(x: Item<W>, xs: seq<Item<W>>)
    ensures ItemsToks([x] + xs) == ItemToks(x) + ItemsToks(xs)
    ensures WordsIn([x] + xs) == WordIn(x) + WordsIn(xs)
    ensures RedirsIn([x] + xs) == RedirIn(x) + RedirsIn(xs)
  {
    assert ([x] + xs)[0] == x && ([x] + xs)[1..] == xs;
  }

  lemma ArgFirst<W>(w: W, xs: seq<Item<W>>)
    ensures ItemsToks([Arg(w)] + xs) == [Tok.Text(w)] + ItemsToks(xs)
    ensures WordsIn([Arg(w)] + xs) == [w] + WordsIn(xs)
    ensures RedirsIn([Arg(w)] + xs) == RedirsIn(xs)
  {
    hide ItemsToks, WordsIn, RedirsIn;
    ItemFirst(Arg(w), xs);
    assert [] + RedirsIn(xs) == RedirsIn(xs);
  }

  /** A word, the redirections after it, and what follows. */
  lemma ItemsFirst<W>(w: W, ys: seq<Item<W>>, zs: seq<Item<W>>, rest: seq<Tok<W>>)
    requires WordsIn(ys) == []
    ensures var xs := [Arg(w)] + (ys + zs);
            && ItemsToks(xs) + rest == [Tok.Text(w)] + (ItemsToks(ys) + (ItemsToks(zs) + rest))
            && WordsIn(xs) == [w] + WordsIn(zs) && RedirsIn(xs) == RedirsIn(ys) + RedirsIn(zs)
  {
    hide ItemsToks, WordsIn, RedirsIn;
    ItemsAdd(ys, zs);
    ArgFirst(w, ys + zs);
    assert [] + WordsIn(zs) == WordsIn(zs);
  }

  /** The first word of the arguments read. */
  lemma FirstArg<W>(ts: seq<Tok<W>>, n: nat)
    requires ArgsOf(ts, n).Ok? && !IsStop(First(ts))
    ensures ts != [] && ts[0].Text? && n + 1 < MAXARGS && Redirs(ts[1..]).Ok? && ts == [Tok.Text(ts[0].w)] + ts[1..]
    ensures var r := Redirs(ts[1..]);
            var a := ArgsOf(r.rest, n + 1);
            a.Ok? && ArgsOf(ts, n) == Ok(Args([ts[0].w] + a.value.words, r.value + a.value.redirs), a.rest)
  {
    hide Redirs;
  }

  lemma {:induction false} WrittenArgs<W>(ts: seq<Tok<W>>, n: nat) returns (xs: seq<Item<W>>)
    requires ArgsOf(ts, n).Ok?
    ensures var a := ArgsOf(ts, n);
            && ts == ItemsToks(xs) + a.rest && WordsIn(xs) == a.value.words && RedirsIn(xs) == a.value.redirs
            && (xs == [] || n + |WordsIn(xs)| < MAXARGS)
    decreases |ts|
  {
    if IsStop(First(ts)) {
      xs := [];
    } else {
      hide Redirs, ArgsOf, ItemsToks, WordsIn, RedirsIn;
      FirstArg(ts, n);
      var ys := WrittenRedirs(ts[1..]);
      var zs := WrittenArgs(Redirs(ts[1..]).rest, n + 1);
      NoWordsIn(zs);
      xs := [Arg(ts[0].w)] + (ys + zs);
      ItemsFirst(ts[0].w, ys, zs, ArgsOf(ts, n).rest);
    }
  }

  lemma WrittenSimple<W>(ts: seq<Tok<W>>) returns (t: Text<W>)
    requires SimpleOf(ts).Ok?
    ensures IsExec(t) && ts == Toks(t) + SimpleOf(ts).rest && Meaning(t) == SimpleOf(ts).value
  {
    hide Redirs, ArgsOf, ItemsToks, WordsIn, RedirsIn, Wrap;
    var r := Redirs(ts);
    var a := ArgsOf(r.rest, 0);
    var xs := WrittenRedirs(ts);
    var ys := WrittenArgs(r.rest, 0);
    NoWordsIn(ys);
    ItemsAdd(xs, ys);
    assert [] + WordsIn(ys) == WordsIn(ys);
    t := Simple(xs + ys);
    assert (ItemsToks(xs) + ItemsToks(ys)) + a.rest == ItemsToks(xs) + (ItemsToks(ys) + a.rest);
  }

  lemma NoWordsIn<W>(xs: seq<Item<W>>)
    ensures xs == [] ==> WordsIn(xs) == []
  {
  }

  lemma BlockToks<W>(l: Text<W>, xs: seq<Item<W>>, rest: seq<Tok<W>>)
    ensures Toks(Block(l, xs)) + rest == [Sym('(')] + (Toks(l) + ([Sym(')')] + (ItemsToks(xs) + rest)))
  {
    hide ItemsToks;
  }

  lemma {:induction false} WrittenExec<W>(ts: seq<Tok<W>>) returns (t: Text<W>)
    requires ExecOf(ts).Ok?
    ensures IsExec(t) && ts == Toks(t) + ExecOf(ts).rest && Meaning(t) == ExecOf(ts).value
    decreases |ts|, 1
  {
    if First(ts) != '(' {
      t := WrittenSimple(ts);
    } else {
      var l := LineOf(ts[1..]);
      var r := Redirs(l.rest[1..]);
      assert ExecOf(ts) == Ok(Wrap(l.value, r.value), r.rest);
      var line := WrittenLine(ts[1..]);
      hide LineOf, Redirs, ExecOf, Toks;
      var xs := WrittenRedirs(l.rest[1..]);
      t := Block(line, xs);
      BlockToks(line, xs, r.rest);
      assert ts == [Sym('(')] + ts[1..] && l.rest == [Sym(')')] + l.rest[1..];
    }
  }

  /** A pipe that was read is a command, or one with a bar and a pipe after it. */
  lemma FirstOfPipe<W>(ts: seq<Tok<W>>)
    requires PipeOf(ts).Ok?
    ensures var e := ExecOf(ts);
            && e.Ok?
            && if First(e.rest) != '|' then PipeOf(ts) == e
               else
                 && e.rest == [Sym('|')] + e.rest[1..] && PipeOf(e.rest[1..]).Ok?
                 && PipeOf(ts) == Ok(Pipe(e.value, PipeOf(e.rest[1..]).value), PipeOf(e.rest[1..]).rest)
  {
    hide ExecOf;
  }

  lemma TokPiped<W>(l: Text<W>, r: Text<W>, rest: seq<Tok<W>>)
    ensures Toks(Piped(l, r)) + rest == Toks(l) + ([Sym('|')] + (Toks(r) + rest))
    ensures Toks(Then(l, r)) + rest == Toks(l) + ([Sym(';')] + (Toks(r) + rest))
  {
    assert Toks(Piped(l, r)) == Toks(l) + [Sym('|')] + Toks(r) && Toks(Then(l, r)) == Toks(l) + [Sym(';')] + Toks(r);
    hide Toks;
    Regroup(Toks(l), [Sym('|')], Toks(r), rest);
    Regroup(Toks(l), [Sym(';')], Toks(r), rest);
  }

  lemma {:induction false} WrittenPipe<W>(ts: seq<Tok<W>>) returns (t: Text<W>)
    requires PipeOf(ts).Ok?
    ensures IsPipe(t) && ts == Toks(t) + PipeOf(ts).rest && Meaning(t) == PipeOf(ts).value
    decreases |ts|, 2
  {
    hide ExecOf, PipeOf, Toks;
    FirstOfPipe(ts);
    var e := ExecOf(ts);
    t := WrittenExec(ts);
    if First(e.rest) == '|' {
      var r := WrittenPipe(e.rest[1..]);
      TokPiped(t, r, PipeOf(ts).rest);
      t := Piped(t, r);
    }
  }

  lemma {:induction false} WrittenBacks<W>(t: Text<W>, ts: seq<Tok<W>>) returns (u: Text<W>)
    requires IsBack(t)
    ensures var b := Backs(Meaning(t), ts);
            IsBack(u) && Toks(t) + ts == Toks(u) + b.1 && Meaning(u) == b.0
    decreases |ts|
  {
    u := t;
    if First(ts) == '&' {
      u := WrittenBacks(Amp(t), ts[1..]);
      assert ts == [Sym('&')] + ts[1..];
    }
  }

  lemma BackIsLine<W>(t: Text<W>)
    requires IsBack(t)
    ensures IsLine(t)
  {
    assert t.Amp? || IsPipe(t);
    assert t.Amp? || t.Piped? || IsExec(t);
  }

  /** A line that was read is a pipe with ampersands, or that with a semicolon and a line after it. */
  lemma FirstOfLine<W>(ts: seq<Tok<W>>)
    requires LineOf(ts).Ok?
    ensures PipeOf(ts).Ok?
    ensures var b := Backs(PipeOf(ts).value, PipeOf(ts).rest);
            if First(b.1) != ';' then LineOf(ts) == Ok(b.0, b.1)
            else
              && b.1 == [Sym(';')] + b.1[1..] && LineOf(b.1[1..]).Ok?
              && LineOf(ts) == Ok(List(b.0, LineOf(b.1[1..]).value), LineOf(b.1[1..]).rest)
  {
    hide PipeOf, Backs;
  }

  lemma {:induction false} WrittenLine<W>(ts: seq<Tok<W>>) returns (t: Text<W>)
    requires LineOf(ts).Ok?
    ensures IsLine(t) && ts == Toks(t) + LineOf(ts).rest && Meaning(t) == LineOf(ts).value
    decreases |ts|, 3
  {
    hide PipeOf, LineOf, Toks, Backs, IsBack;
    FirstOfLine(ts);
    var p := PipeOf(ts);
    var b := Backs(p.value, p.rest);
    var u := WrittenPipe(ts);
    PipeIsBack(u);
    t := WrittenBacks(u, p.rest);
    if First(b.1) == ';' {
      var r := WrittenLine(b.1[1..]);
      TokPiped(t, r, LineOf(ts).rest);
      t := Then(t, r);
    } else {
      BackIsLine(t);
    }
  }

  /** The shell accepts exactly the lines that can be written, and gives them their meaning. */
  lemma Accepts<W(!new)>(ts: seq<Tok<W>>, c: Cmd<W>)
    ensures LineOf(ts) == Ok(c, []) <==> exists t: Text<W> :: IsLine(t) && Toks(t) == ts && Meaning(t) == c
  {
    if LineOf(ts) == Ok(c, []) {
      var t := WrittenLine(ts);
      assert Toks(t) == ts;
    }
    forall t: Text<W> | IsLine(t) && Toks(t) == ts && Meaning(t) == c ensures LineOf(ts) == Ok(c, []) {
      ReadLine(t, []);
      assert Toks(t) + [] == ts;
    }
  }

  // ---- Every command can be written --------------------------------------------------------------

  /** A command the shell could have built: few enough arguments, and files opened its two ways. */
  predicate Writable<W>(c: Cmd<W>) {
    match c
    case Exec(ws) => |ws| < 10
    case Redir(c1, r) => Writable(c1) && r.fd == if r.mode.ReadOnly? then 0 else 1
    case Pipe(l, r) => Writable(l) && Writable(r)
    case List(l, r) => Writable(l) && Writable(r)
    case Back(c1) => Writable(c1)
  }

  function ArgItems<W>(ws: seq<W>): (xs: seq<Item<W>>)
    ensures WordsIn(xs) == ws && RedirsIn(xs) == []
  {
    if ws == [] then [] else
      var xs := [Arg(ws[0])] + ArgItems(ws[1..]);
      assert xs[1..] == ArgItems(ws[1..]);
      xs
  }

  function RedirItem<W>(r: Redirection<W>): Item<W> {
    if r.mode.ReadOnly? then In(r.file) else Out(r.file, false)
  }

  /** One way to write a command as one end of a pipe, a pipe, and a line. */
  function AsExec<W>(c: Cmd<W>): Text<W>
    decreases c, if c.Exec? || c.Redir? then 0 else 10
  {
    match c
    case Exec(ws) => Simple(ArgItems(ws))
    case Redir(c1, r) =>
      (match AsExec(c1)
       case Simple(xs) => Simple(xs + [RedirItem(r)])
       case Block(l, xs) => Block(l, xs + [RedirItem(r)])
       case t => t)
    case _ => Block(AsLine(c), [])
  }

  function AsPipe<W>(c: Cmd<W>): Text<W>
    decreases c, if c.List? || c.Back? then 11 else 1
  {
    if c.Pipe? then Piped(AsExec(c.left), AsPipe(c.right)) else AsExec(c)
  }

  function AsBack<W>(c: Cmd<W>): Text<W>
    decreases c, if c.List? then 12 else 2
  {
    if c.Back? then Amp(AsBack(c.cmd)) else AsPipe(c)
  }

  function AsLine<W>(c: Cmd<W>): Text<W>
    decreases c, 3
  {
    if c.List? then Then(AsBack(c.left), AsLine(c.right)) else AsBack(c)
  }

  lemma {:induction false} WrapMore<W>(c: Cmd<W>, rs: seq<Redirection<W>>, r: Redirection<W>)
    ensures Wrap(c, rs + [r]) == Redir(Wrap(c, rs), r)
    decreases |rs|
  {
    if rs == [] {
      assert rs + [r] == [r];
    } else {
      WrapMore(Redir(c, rs[0]), rs[1..], r);
      assert (rs + [r])[0] == rs[0] && (rs + [r])[1..] == rs[1..] + [r];
    }
  }

  lemma OneMoreRedir<W>(xs: seq<Item<W>>, r: Redirection<W>)
    requires r.fd == if r.mode.ReadOnly? then 0 else 1
    ensures WordsIn(xs + [RedirItem(r)]) == WordsIn(xs) && RedirsIn(xs + [RedirItem(r)]) == RedirsIn(xs) + [r]
  {
    ItemsAdd(xs, [RedirItem(r)]);
    assert RedirsIn([RedirItem(r)]) == [r] && WordsIn([RedirItem(r)]) == [];
  }

  lemma {:induction false} ExecWritten<W>(c: Cmd<W>)
    requires Writable(c)
    ensures IsExec(AsExec(c)) && Meaning(AsExec(c)) == c
    decreases c, if c.Exec? || c.Redir? then 0 else 10
  {
    match c
    case Exec(ws) =>
    case Redir(c1, r) =>
      ExecWritten(c1);
      var t := AsExec(c1);
      OneMoreRedir(t.items, r);
      WrapMore(if t.Simple? then Exec(WordsIn(t.items)) else Meaning(t.line), RedirsIn(t.items), r);
    case _ =>
      LineWritten(c);
  }

  lemma {:induction false} PipeWritten<W>(c: Cmd<W>)
    requires Writable(c)
    ensures IsPipe(AsPipe(c)) && Meaning(AsPipe(c)) == c
    decreases c, if c.List? || c.Back? then 11 else 1
  {
    if c.Pipe? { ExecWritten(c.left); PipeWritten(c.right); } else { ExecWritten(c); }
  }

  lemma {:induction false} BackWritten<W>(c: Cmd<W>)
    requires Writable(c)
    ensures IsBack(AsBack(c)) && Meaning(AsBack(c)) == c
    decreases c, if c.List? then 12 else 2
  {
    if c.Back? { BackWritten(c.cmd); } else { PipeWritten(c); PipeIsBack(AsPipe(c)); }
  }

  lemma PipeIsBack<W>(t: Text<W>)
    requires IsPipe(t)
    ensures IsBack(t)
  {
    assert t.Piped? || IsExec(t);
  }

  /** Every command the shell can represent can be written. */
  lemma {:induction false} LineWritten<W>(c: Cmd<W>)
    requires Writable(c)
    ensures IsLine(AsLine(c)) && Meaning(AsLine(c)) == c
    decreases c, 3
  {
    if c.List? {
      BackWritten(c.left);
      LineWritten(c.right);
    } else {
      BackWritten(c);
      BackIsLine(AsBack(c));
    }
  }

  // ---- What is rejected, by its tokens ------------------------------------------------------------

  predicate RedirTok<W>(t: Tok<W>) {
    t.Sym? && IsRedir(t.c)
  }

  /** Every redirection has a word after it. */
  predicate RedirsNamed<W>(ts: seq<Tok<W>>) {
    forall i :: 0 <= i < |ts| && RedirTok(ts[i]) ==> i + 1 < |ts| && ts[i + 1].Text?
  }

  function Nests<W>(t: Tok<W>): int {
    if t == Sym('(') then 1 else if t == Sym(')') then -1 else 0
  }

  /** Opening less closing parentheses. */
  function Depth<W>(ts: seq<Tok<W>>): int {
    if ts == [] then 0 else Depth(ts[..|ts| - 1]) + Nests(ts[|ts| - 1])
  }

  /** Parentheses match. */
  ghost predicate Balanced<W>(ts: seq<Tok<W>>) {
    Depth(ts) == 0 && forall k :: 0 <= k <= |ts| ==> Depth(ts[..k]) >= 0
  }

  /** No command has more than nine words: counted from n, a file name is none, and anything but a
      word or a redirection ends the command. */
  predicate FewWords<W>(ts: seq<Tok<W>>, n: nat)
    decreases |ts|
  {
    if ts == [] then true
    else if RedirTok(ts[0]) then |ts| < 2 || FewWords(ts[2..], n)
    else if ts[0].Text? then n + 1 < 10 && FewWords(ts[1..], n + 1)
    else FewWords(ts[1..], 0)
  }

  lemma NamedAdd<W>(a: seq<Tok<W>>, b: seq<Tok<W>>)
    requires RedirsNamed(a) && RedirsNamed(b)
    ensures RedirsNamed(a + b)
  {
  }

  lemma {:induction false} DepthAdd<W>(a: seq<Tok<W>>, b: seq<Tok<W>>)
    ensures Depth(a + b) == Depth(a) + Depth(b)
  {
    if b == [] {
      assert a + b == a;
    } else {
      var n := |b| - 1;
      DepthAdd(a, b[..n]);
      assert (a + b)[..|a + b| - 1] == a + b[..n] && (a + b)[|a + b| - 1] == b[n];
    }
  }

  lemma BalancedAdd<W>(a: seq<Tok<W>>, b: seq<Tok<W>>)
    requires Balanced(a) && Balanced(b)
    ensures Balanced(a + b)
  {
    hide Depth;
    DepthAdd(a, b);
    forall k | 0 <= k <= |a + b| ensures Depth((a + b)[..k]) >= 0 {
      if k <= |a| {
        assert (a + b)[..k] == a[..k];
      } else {
        assert (a + b)[..k] == a + b[..k - |a|];
        DepthAdd(a, b[..k - |a|]);
      }
    }
  }

  lemma BalancedOne<W>(t: Tok<W>)
    requires t != Sym('(') && t != Sym(')')
    ensures Balanced([t]) && Balanced<W>([])
  {
    assert [t][..0] == [] && [t][..1] == [t];
  }

  lemma BalancedBlock<W>(ts: seq<Tok<W>>)
    requires Balanced(ts)
    ensures Balanced([Sym('(')] + ts + [Sym(')')])
  {
    var a, b: seq<Tok<W>> := [Sym('(')], [Sym(')')];
    assert a[..0] == [] && b[..0] == [];
    assert Depth(a) == 1 && Depth(b) == -1;
    hide Depth;
    DepthAdd(a, ts);
    DepthAdd(a + ts, b);
    forall k | 0 <= k <= |a + ts + b| ensures Depth((a + ts + b)[..k]) >= 0 {
      if k == 0 {
        assert (a + ts + b)[..k] == ts[..0];
      } else if k <= |ts| + 1 {
        assert (a + ts + b)[..k] == a + ts[..k - 1];
        DepthAdd(a, ts[..k - 1]);
      } else {
        assert (a + ts + b)[..k] == a + ts + b;
      }
    }
  }

  lemma {:induction false} ItemsGood<W>(xs: seq<Item<W>>)
    ensures RedirsNamed(ItemsToks(xs)) && Balanced(ItemsToks(xs))
  {
    if xs == [] {
      BalancedOne<W>(Sym('|'));
    } else {
      ItemsGood(xs[1..]);
      var ts := ItemToks(xs[0]);
      assert ts == [ts[0]] + ts[1..] && |ts| <= 2;
      BalancedOne(ts[0]);
      if |ts| == 2 {
        BalancedOne(ts[1]);
        assert ts[1..] == [ts[1]];
      }
      BalancedAdd([ts[0]], ts[1..]);
      NamedAdd(ts, ItemsToks(xs[1..]));
      BalancedAdd(ts, ItemsToks(xs[1..]));
    }
  }

  lemma {:induction false} TextGood<W>(t: Text<W>)
    ensures RedirsNamed(Toks(t)) && Balanced(Toks(t))
  {
    hide RedirsNamed, Balanced, ItemsToks;
    match t
    case Simple(xs) => ItemsGood(xs);
    case Block(l, xs) =>
      TextGood(l);
      ItemsGood(xs);
      BalancedBlock(Toks(l));
      NamedBlock(Toks(l));
      JoinGood([Sym('(')] + Toks(l) + [Sym(')')], ItemsToks(xs));
    case Piped(l, r) =>
      TextGood(l);
      TextGood(r);
      SymGood<W>('|');
      JoinGood(Toks(l), [Sym('|')]);
      JoinGood(Toks(l) + [Sym('|')], Toks(r));
    case Amp(c) =>
      TextGood(c);
      SymGood<W>('&');
      JoinGood(Toks(c), [Sym('&')]);
    case Then(l, r) =>
      TextGood(l);
      TextGood(r);
      SymGood<W>(';');
      JoinGood(Toks(l), [Sym(';')]);
      JoinGood(Toks(l) + [Sym(';')], Toks(r));
  }

  lemma JoinGood<W>(a: seq<Tok<W>>, b: seq<Tok<W>>)
    requires RedirsNamed(a) && Balanced(a) && RedirsNamed(b) && Balanced(b)
    ensures RedirsNamed(a + b) && Balanced(a + b)
  {
    hide Balanced;
    NamedAdd(a, b);
    BalancedAdd(a, b);
  }

  lemma SymGood<W>(c: char)
    requires c == '|' || c == '&' || c == ';'
    ensures RedirsNamed<W>([Sym(c)]) && Balanced<W>([Sym(c)])
  {
    BalancedOne<W>(Sym(c));
  }

  lemma NamedBlock<W>(ts: seq<Tok<W>>)
    requires RedirsNamed(ts)
    ensures RedirsNamed([Sym('(')] + ts + [Sym(')')])
  {
  }

  /** Every simple command in the tree has few enough words. */
  predicate Fits<W>(t: Text<W>) {
    match t
    case Simple(xs) => |WordsIn(xs)| < 10
    case Block(l, xs) => Fits(l) && WordsIn(xs) == []
    case Piped(l, r) => Fits(l) && Fits(r)
    case Amp(c) => Fits(c)
    case Then(l, r) => Fits(l) && Fits(r)
  }

  lemma {:induction false} NoArgsNoWords<W>(xs: seq<Item<W>>)
    requires NoArgs(xs)
    ensures WordsIn(xs) == []
  {
    if xs != [] { NoArgsNoWords(xs[1..]); }
  }

  lemma {:induction false} LineFits<W>(t: Text<W>)
    requires IsExec(t) || IsPipe(t) || IsBack(t) || IsLine(t)
    ensures Fits(t)
  {
    match t
    case Simple(xs) =>
      assert IsLine(t) ==> IsBack(t);
      assert IsBack(t) ==> IsPipe(t);
    case Block(l, xs) =>
      assert IsLine(t) ==> IsBack(t);
      assert IsBack(t) ==> IsPipe(t);
      LineFits(l);
      NoArgsNoWords(xs);
    case Piped(l, r) =>
      assert IsLine(t) ==> IsBack(t);
      LineFits(l);
      LineFits(r);
    case Amp(c) =>
      LineFits(c);
    case Then(l, r) =>
      assert IsBack(t) ==> IsPipe(t);
      LineFits(l);
      LineFits(r);
  }

  /** What comes after a command: the end, or something that starts the count again. */
  predicate Ends<W>(ts: seq<Tok<W>>) {
    ts == [] || (ts[0].Sym? && !IsRedir(ts[0].c))
  }

  lemma {:induction false} ItemsFew<W>(xs: seq<Item<W>>, rest: seq<Tok<W>>, n: nat)
    requires n + |WordsIn(xs)| < MAXARGS && Ends(rest) && FewWords(rest, 0)
    ensures FewWords(ItemsToks(xs) + rest, n)
  {
    if xs == [] {
      assert ItemsToks(xs) + rest == rest;
    } else {
      var ts := ItemsToks(xs[1..]) + rest;
      ItemsFew(xs[1..], rest, if xs[0].Arg? then n + 1 else n);
      assert ItemsToks(xs) + rest == ItemToks(xs[0]) + ts;
      assert (ItemToks(xs[0]) + ts)[|ItemToks(xs[0])|..] == ts;
    }
  }

  /** A symbol that ends a command starts the count again. */
  lemma SymFew<W>(c: char, ts: seq<Tok<W>>, n: nat)
    requires !IsRedir(c) && FewWords(ts, 0)
    ensures FewWords([Sym(c)] + ts, n) && Ends([Sym(c)] + ts)
  {
    assert ([Sym(c)] + ts)[1..] == ts;
  }

  lemma {:induction false} TextFew<W>(t: Text<W>, rest: seq<Tok<W>>)
    requires Fits(t) && Ends(rest) && FewWords(rest, 0)
    ensures FewWords(Toks(t) + rest, 0)
  {
    hide FewWords, ItemsToks, Ends;
    match t
    case Simple(xs) => ItemsFew(xs, rest, 0);
    case Block(l, xs) =>
      ItemsFew(xs, rest, 0);
      SymFew(')', ItemsToks(xs) + rest, 0);
      TextFew(l, [Sym(')')] + (ItemsToks(xs) + rest));
      SymFew('(', Toks(l) + ([Sym(')')] + (ItemsToks(xs) + rest)), 0);
      BlockToks(l, xs, rest);
    case Piped(l, r) =>
      TextFew(r, rest);
      SymFew('|', Toks(r) + rest, 0);
      TextFew(l, [Sym('|')] + (Toks(r) + rest));
      Regroup(Toks(l), [Sym('|')], Toks(r), rest);
    case Amp(c) =>
      SymFew('&', rest, 0);
      TextFew(c, [Sym('&')] + rest);
      assert (Toks(c) + [Sym('&')]) + rest == Toks(c) + ([Sym('&')] + rest);
    case Then(l, r) =>
      TextFew(r, rest);
      SymFew(';', Toks(r) + rest, 0);
      TextFew(l, [Sym(';')] + (Toks(r) + rest));
      Regroup(Toks(l), [Sym(';')], Toks(r), rest);
  }

  /** A line is not accepted if a redirection has no word after it, a parenthesis has no partner, or a command
      has a tenth word. */
  lemma Rejects<W>(ts: seq<Tok<W>>)
    requires !RedirsNamed(ts) || !Balanced(ts) || !FewWords(ts, 0)
    ensures LineOf(ts).Ok? ==> LineOf(ts).rest != []
  {
    hide LineOf, RedirsNamed, Balanced, FewWords, Toks;
    if LineOf(ts).Ok? && LineOf(ts).rest == [] {
      var t := WrittenLine(ts);
      assert Toks(t) + [] == Toks(t) && ts == Toks(t);
      TextGood(t);
      LineFits(t);
      NothingFew<W>();
      TextFew(t, []);
    }
  }

  lemma NothingFew<W>()
    ensures FewWords<W>([], 0) && Ends<W>([])
  {
  }
}
