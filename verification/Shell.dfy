/**
 The shell's parser (sh.c). The parsing methods walk the line with a cursor and build the
 command; they are proved against the grammar on tokens. nulterminate then writes into the
 buffer that holds the line.
 */
module Shell {
  import opened CStrings
  import opened Options
  import opened ShellLex
  import opened ShellSpec

  /** The loop over blanks that gettoken and peek share. */
  method PassSpace(line: CString, s: nat) returns (p: nat)
    requires s <= |line|
    ensures p == SkipSpace(line, s)
  {
    p := s;
    while p < |line| && IsSpace(line[p])
      invariant s <= p <= |line| && SkipSpace(line, p) == SkipSpace(line, s)
    {
      p := p + 1;
    }
  }

  method PassWord(line: CString, s: nat) returns (p: nat)
    requires s <= |line|
    ensures p == SkipWord(line, s)
  {
    p := s;
    while p < |line| && !IsSpace(line[p]) && !IsSymbol(line[p])
      invariant s <= p <= |line| && SkipWord(line, p) == SkipWord(line, s)
    {
      p := p + 1;
    }
  }

  method GetToken(line: CString, s: nat) returns (tok: char, q: nat, eq: nat, next: nat)
    requires s <= |line|
    ensures Token(tok, q, eq, next) == TokenAt(line, s)
  {
    q := PassSpace(line, s);
    eq := q;
    tok := At(line, q);
    match tok {
      case '\0' =>
      case '|' | '(' | ')' | ';' | '&' | '<' =>
        eq := eq + 1;
      case '>' =>
        eq := eq + 1;
        if At(line, eq) == '>' {
          tok := '+';
          eq := eq + 1;
        }
      case _ =>
        tok := 'a';
        eq := PassWord(line, q);
    }
    next := PassSpace(line, eq);
  }

  method Peek(line: CString, s: nat, toks: set<char>) returns (found: bool, next: nat)
    requires s <= |line|
    ensures next == SkipSpace(line, s) && (found <==> next < |line| && line[next] in toks)
  {
    next := PassSpace(line, s);
    found := At(line, next) != '\0' && At(line, next) in toks;
  }

  /** What a peek tells of the tokens ahead. */
  lemma PeekTells(line: CString, s: nat)
    requires s <= |line|
    ensures var q, ts := SkipSpace(line, s), Lex(line, s);
            && Lex(line, q) == ts && (q == |line| <==> ts == [])
            && (q < |line| ==>
                  && (line[q] in {'<', '>'} <==> IsRedir(First(ts)))
                  && (line[q] in {'|', ')', '&', ';'} <==> IsStop(First(ts))))
  {
    var q := SkipSpace(line, s);
    assert SkipSpace(line, q) == q;
    assert TokenAt(line, q) == TokenAt(line, s);
  }

  lemma PeekSymbol(line: CString, s: nat, c: char)
    requires s <= |line| && c in {'|', '(', ')', '&', ';'}
    ensures var q := SkipSpace(line, s); q < |line| && line[q] in {c} <==> First(Lex(line, s)) == c
  {
  }

  lemma GetTells(line: CString, s: nat)
    requires s <= |line|
    ensures var t, ts := TokenAt(line, s), Lex(line, s);
            && First(ts) == t.tok
            && (t.tok != '\0' ==>
                 s < t.next && ts[1..] == Lex(line, t.next) && (t.tok == 'a' ==> ts[0] == Text(Word(t.q, t.eq))))
  {
  }

  /** A parsing method that returns r at next has done what the grammar says of the tokens at s. */
  ghost predicate Did<T(!new)>(p: Parsed<T, Word>, r: Option<T>, line: CString, s: nat, next: nat) {
    && s <= next <= |line|
    && p == if r.Some? then Ok(r.value, Lex(line, next)) else Panic
  }

  /** rs, then what the rest of the redirections come to. */
  ghost function Then(rs: seq<Redirection<Word>>, p: Parsed<seq<Redirection<Word>>, Word>)
    : Parsed<seq<Redirection<Word>>, Word>
  {
    if p.Ok? then Ok(rs + p.value, p.rest) else Panic
  }

  /** parseredirs, without the command it wraps: Wrap puts the redirections around it, also where
      parseexec goes on to fill in the arguments of the command inside. */
  method ParseRedirs(line: CString, s: nat) returns (r: Option<seq<Redirection<Word>>>, next: nat)
    requires s <= |line|
    ensures Did(Redirs(Lex(line, s)), r, line, s, next)
  {
    hide TokenAt, Lex, SkipSpace;
    var rs, more := [], false;
    more, next := Peek(line, s, {'<', '>'});
    SkipBounds(line, s);
    PeekTells(line, s);
    ThenNone(Redirs(Lex(line, s)));
    while more
      invariant s <= next <= |line| && Redirs(Lex(line, s)) == Then(rs, Redirs(Lex(line, next)))
      invariant more <==> IsRedir(First(Lex(line, next)))
      decreases |line| - next
    {
      ghost var ts, at := Lex(line, next), next;
      GetTells(line, next);
      TokenBounds(line, next);
      var tok, q, eq;
      tok, q, eq, next := GetToken(line, next);
      GetTells(line, next);
      TokenBounds(line, next);
      var kind;
      kind, q, eq, next := GetToken(line, next);
      RedirStep(rs, ts);
      if kind != 'a' {
        return None, next;
      }
      rs := rs + [MakeRedir(tok, Word(q, eq))];
      assert Redirs(Lex(line, s)) == Then(rs, Redirs(Lex(line, next)));
      PeekTells(line, next);
      SkipBounds(line, next);
      more, next := Peek(line, next, {'<', '>'});
    }
    LastRedir(rs, Lex(line, next));
    r := Some(rs);
  }

  lemma SkipBounds(line: CString, s: nat)
    requires s <= |line|
    ensures s <= SkipSpace(line, s) <= |line|
  {
  }

  lemma TokenBounds(line: CString, s: nat)
    requires s <= |line|
    ensures s <= TokenAt(line, s).next <= |line|
  {
  }

  lemma ThenNone(p: Parsed<seq<Redirection<Word>>, Word>)
    ensures Then([], p) == p
  {
    if p.Ok? { assert [] + p.value == p.value; }
  }

  lemma RedirStep(rs: seq<Redirection<Word>>, ts: seq<Tok<Word>>)
    requires IsRedir(First(ts))
    ensures First(ts[1..]) != 'a' ==> Then(rs, Redirs(ts)) == Panic
    ensures First(ts[1..]) == 'a' && ts[1..][0].Text? ==>
              Then(rs, Redirs(ts)) == Then(rs + [MakeRedir(First(ts), ts[1..][0].w)], Redirs(ts[1..][1..]))
  {
    if First(ts[1..]) == 'a' && ts[1..][0].Text? {
      assert ts[1..][1..] == ts[2..];
      var p, x := Redirs(ts[2..]), MakeRedir(First(ts), ts[1].w);
      if p.Ok? { assert rs + ([x] + p.value) == rs + [x] + p.value; }
    }
  }

  lemma LastRedir(rs: seq<Redirection<Word>>, ts: seq<Tok<Word>>)
    requires !IsRedir(First(ts))
    ensures Then(rs, Redirs(ts)) == Ok(rs, ts)
  {
    assert rs + [] == rs;
  }

  // ---- The recursive descent ---------------------------------------------------------------

  /** Arguments and redirections so far, then what the rest come to. */
  ghost function ThenArgs(ws: seq<Word>, rs: seq<Redirection<Word>>, p: Parsed<Args<Word>, Word>)
    : Parsed<Args<Word>, Word>
  {
    if p.Ok? then Ok(Args(ws + p.value.words, rs + p.value.redirs), p.rest) else Panic
  }

  lemma ThenNoArgs(p: Parsed<Args<Word>, Word>)
    ensures ThenArgs([], [], p) == p
  {
    if p.Ok? { assert [] + p.value.words == p.value.words && [] + p.value.redirs == p.value.redirs; }
  }

  lemma ArgStep(ws: seq<Word>, rs: seq<Redirection<Word>>, ts: seq<Tok<Word>>, n: nat)
    requires !IsStop(First(ts))
    ensures !ts[0].Text? || n + 1 >= MAXARGS || Redirs(ts[1..]).Panic? ==> ThenArgs(ws, rs, ArgsOf(ts, n)) == Panic
    ensures ts[0].Text? && n + 1 < MAXARGS && Redirs(ts[1..]).Ok? ==>
              var p := Redirs(ts[1..]);
              ThenArgs(ws, rs, ArgsOf(ts, n)) == ThenArgs(ws + [ts[0].w], rs + p.value, ArgsOf(p.rest, n + 1))
  {
    hide Redirs;
    if ts[0].Text? && n + 1 < MAXARGS && Redirs(ts[1..]).Ok? {
      var p := Redirs(ts[1..]);
      var a := ArgsOf(p.rest, n + 1);
      if a.Ok? {
        assert ws + ([ts[0].w] + a.value.words) == ws + [ts[0].w] + a.value.words;
        assert rs + (p.value + a.value.redirs) == rs + p.value + a.value.redirs;
      }
    }
  }

  lemma LastArg(ws: seq<Word>, rs: seq<Redirection<Word>>, ts: seq<Tok<Word>>, n: nat)
    requires IsStop(First(ts))
    ensures ThenArgs(ws, rs, ArgsOf(ts, n)) == Ok(Args(ws, rs), ts)
  {
    assert ws + [] == ws && rs + [] == rs;
  }

  /** parseexec's loop over the arguments. */
  method ParseArgs(line: CString, s: nat) returns (r: Option<Args<Word>>, next: nat)
    requires s <= |line|
    ensures Did(ArgsOf(Lex(line, s), 0), r, line, s, next)
  {
    hide TokenAt, Lex, SkipSpace, Redirs, ArgsOf;
    var ws, rs := [], [];
    PeekTells(line, s);
    SkipBounds(line, s);
    ThenNoArgs(ArgsOf(Lex(line, s), 0));
    var stop;
    stop, next := Peek(line, s, {'|', ')', '&', ';'});
    while !stop
      invariant s <= next <= |line| && ArgsOf(Lex(line, s), 0) == ThenArgs(ws, rs, ArgsOf(Lex(line, next), |ws|))
      invariant next == SkipSpace(line, next)
      invariant stop <==> next < |line| && line[next] in {'|', ')', '&', ';'}
      decreases |line| - next
    {
      ghost var ts := Lex(line, next);
      PeekTells(line, next);
      GetTells(line, next);
      TokenBounds(line, next);
      var tok, q, eq, after := GetToken(line, next);
      if tok == '\0' {
        break;
      }
      next := after;
      ArgStep(ws, rs, ts, |ws|);
      if tok != 'a' {
        return None, next;
      }
      ws := ws + [Word(q, eq)];
      if |ws| >= MAXARGS {
        return None, next;
      }
      var more;
      more, next := ParseRedirs(line, next);
      if more.None? {
        return None, next;
      }
      rs := rs + more.value;
      PeekTells(line, next);
      SkipBounds(line, next);
      stop, next := Peek(line, next, {'|', ')', '&', ';'});
    }
    PeekTells(line, next);
    LastArg(ws, rs, Lex(line, next), |ws|);
    r := Some(Args(ws, rs));
  }

  method ParseExec(line: CString, s: nat) returns (r: Option<Cmd<Word>>, next: nat)
    requires s <= |line|
    ensures Did(ExecOf(Lex(line, s)), r, line, s, next)
    decreases |line| - s, 1
  {
    hide TokenAt, Lex, SkipSpace, Redirs, ArgsOf, BlockOf, Wrap;
    PeekTells(line, s);
    PeekSymbol(line, s, '(');
    SkipBounds(line, s);
    var open;
    open, next := Peek(line, s, {'('});
    if open {
      r, next := ParseBlock(line, next);
      return;
    }
    var rs, a;
    rs, next := ParseRedirs(line, next);
    if rs.None? {
      return None, next;
    }
    a, next := ParseArgs(line, next);
    if a.None? {
      return None, next;
    }
    r := Some(Wrap(Exec(a.value.words), rs.value + a.value.redirs));
  }

  method ParseBlock(line: CString, s: nat) returns (r: Option<Cmd<Word>>, next: nat)
    requires s <= |line|
    ensures Did(BlockOf(Lex(line, s)), r, line, s, next)
    decreases |line| - s, 0
  {
    hide TokenAt, Lex, SkipSpace, Redirs, LineOf, Wrap;
    var tok, q, eq, cmd, open, close, rs;
    PeekTells(line, s);
    PeekSymbol(line, s, '(');
    SkipBounds(line, s);
    open, next := Peek(line, s, {'('});
    if !open {
      return None, next;
    }
    GetTells(line, next);
    TokenBounds(line, next);
    tok, q, eq, next := GetToken(line, next);
    cmd, next := ParseLine(line, next);
    if cmd.None? {
      return None, next;
    }
    PeekTells(line, next);
    PeekSymbol(line, next, ')');
    SkipBounds(line, next);
    close, next := Peek(line, next, {')'});
    if !close {
      return None, next;
    }
    GetTells(line, next);
    TokenBounds(line, next);
    tok, q, eq, next := GetToken(line, next);
    rs, next := ParseRedirs(line, next);
    if rs.None? {
      return None, next;
    }
    r := Some(Wrap(cmd.value, rs.value));
  }

  method ParsePipe(line: CString, s: nat) returns (r: Option<Cmd<Word>>, next: nat)
    requires s <= |line|
    ensures Did(PipeOf(Lex(line, s)), r, line, s, next)
    decreases |line| - s, 2
  {
    hide TokenAt, Lex, SkipSpace, ExecOf;
    r, next := ParseExec(line, s);
    if r.None? {
      return;
    }
    PeekTells(line, next);
    PeekSymbol(line, next, '|');
    SkipBounds(line, next);
    var bar, right;
    bar, next := Peek(line, next, {'|'});
    if bar {
      GetTells(line, next);
      TokenBounds(line, next);
      var tok, q, eq;
      tok, q, eq, next := GetToken(line, next);
      right, next := ParsePipe(line, next);
      r := if right.Some? then Some(Pipe(r.value, right.value)) else None;
    }
  }

  method ParseLine(line: CString, s: nat) returns (r: Option<Cmd<Word>>, next: nat)
    requires s <= |line|
    ensures Did(LineOf(Lex(line, s)), r, line, s, next)
    decreases |line| - s, 3
  {
    hide TokenAt, Lex, SkipSpace, PipeOf;
    r, next := ParsePipe(line, s);
    if r.None? {
      return;
    }
    var cmd := r.value;
    ghost var ts := Lex(line, next);
    var tok, q, eq, found;
    PeekTells(line, next);
    PeekSymbol(line, next, '&');
    SkipBounds(line, next);
    found, next := Peek(line, next, {'&'});
    while found
      invariant s <= next <= |line| && Backs(r.value, ts) == Backs(cmd, Lex(line, next))
      invariant found <==> First(Lex(line, next)) == '&'
      decreases |line| - next
    {
      GetTells(line, next);
      TokenBounds(line, next);
      tok, q, eq, next := GetToken(line, next);
      cmd := Back(cmd);
      PeekTells(line, next);
      PeekSymbol(line, next, '&');
      SkipBounds(line, next);
      found, next := Peek(line, next, {'&'});
    }
    PeekTells(line, next);
    PeekSymbol(line, next, ';');
    SkipBounds(line, next);
    found, next := Peek(line, next, {';'});
    if found {
      GetTells(line, next);
      TokenBounds(line, next);
      tok, q, eq, next := GetToken(line, next);
      var right;
      right, next := ParseLine(line, next);
      r := if right.Some? then Some(List(cmd, right.value)) else None;
    } else {
      r := Some(cmd);
    }
  }

  // ---- The buffer ------------------------------------------------------------------------------

  /** A word of cmd ends at i. */
  ghost predicate EndsAt(cmd: Cmd<Word>, i: int) {
    exists w :: w in WordsOf(cmd) && w.eq == i
  }

  ghost predicate Within(cmd: Cmd<Word>, n: nat) {
    forall w :: w in WordsOf(cmd) ==> w.eq < n
  }

  lemma EndsIn(cmd: Cmd<Word>, i: int)
    ensures cmd.Redir? ==> (EndsAt(cmd, i) <==> EndsAt(cmd.cmd, i) || cmd.r.file.eq == i)
    ensures cmd.Pipe? || cmd.List? ==> (EndsAt(cmd, i) <==> EndsAt(cmd.left, i) || EndsAt(cmd.right, i))
    ensures cmd.Back? ==> (EndsAt(cmd, i) <==> EndsAt(cmd.cmd, i))
  {
    if cmd.Redir? {
      assert cmd.r.file in WordsOf(cmd);
      assert forall w :: w in WordsOf(cmd.cmd) ==> w in WordsOf(cmd);
    } else if cmd.Pipe? || cmd.List? {
      assert forall w :: w in WordsOf(cmd.left) || w in WordsOf(cmd.right) ==> w in WordsOf(cmd);
    }
  }

  lemma WithinParts(cmd: Cmd<Word>, n: nat)
    requires Within(cmd, n)
    ensures cmd.Redir? ==> Within(cmd.cmd, n) && cmd.r.file.eq < n
    ensures cmd.Pipe? || cmd.List? ==> Within(cmd.left, n) && Within(cmd.right, n)
    ensures cmd.Back? ==> Within(cmd.cmd, n)
  {
    if cmd.Redir? { assert cmd.r.file in WordsOf(cmd); }
  }

  /** nulterminate writes a NUL where a word of cmd ends, and nowhere else. */
  method NulTerminate(cmd: Cmd<Word>, buf: array<char>)
    requires Within(cmd, buf.Length)
    modifies buf
    ensures forall i :: 0 <= i < buf.Length ==> buf[i] == if EndsAt(cmd, i) then '\0' else old(buf[i])
    decreases cmd
  {
    hide EndsAt, Within;
    WithinParts(cmd, buf.Length);
    forall i ensures cmd.Redir? ==> (EndsAt(cmd, i) <==> EndsAt(cmd.cmd, i) || cmd.r.file.eq == i)
      ensures cmd.Pipe? || cmd.List? ==> (EndsAt(cmd, i) <==> EndsAt(cmd.left, i) || EndsAt(cmd.right, i))
      ensures cmd.Back? ==> (EndsAt(cmd, i) <==> EndsAt(cmd.cmd, i))
    {
      EndsIn(cmd, i);
    }
    match cmd
    case Exec(args) =>
      TerminateArgs(args, buf);
    case Redir(c, r) =>
      NulTerminate(c, buf);
      buf[r.file.eq] := '\0';
    case Pipe(l, r) =>
      NulTerminate(l, buf);
      NulTerminate(r, buf);
    case List(l, r) =>
      NulTerminate(l, buf);
      NulTerminate(r, buf);
    case Back(c) =>
      NulTerminate(c, buf);
  }

  /** nulterminate's loop over the arguments of a command. */
  method TerminateArgs(args: seq<Word>, buf: array<char>)
    requires Within(Exec(args), buf.Length)
    modifies buf
    ensures forall i :: 0 <= i < buf.Length ==> buf[i] == if EndsAt(Exec(args), i) then '\0' else old(buf[i])
  {
    var k := 0;
    while k < |args|
      invariant 0 <= k <= |args|
      invariant forall i :: 0 <= i < buf.Length ==> buf[i] == if ArgEnds(args, k, i) then '\0' else old(buf[i])
    {
      assert args[k] in WordsOf(Exec(args));
      buf[args[k].eq] := '\0';
      k := k + 1;
    }
    forall i ensures ArgEnds(args, k, i) <==> EndsAt(Exec(args), i) {
      if ArgEnds(args, k, i) {
        var j :| 0 <= j < k && args[j].eq == i;
        assert args[j] in WordsOf(Exec(args));
      }
      if EndsAt(Exec(args), i) {
        var w :| w in WordsOf(Exec(args)) && w.eq == i;
        assert w in args;
      }
    }
  }

  /** One of the first k arguments ends at i. */
  ghost predicate ArgEnds(args: seq<Word>, k: int, i: int) {
    exists j :: 0 <= j < k && j < |args| && args[j].eq == i
  }

  /** The C string at position q of the buffer is t. */
  ghost predicate ReadsAs(buf: seq<char>, q: nat, t: string) {
    q + |t| < |buf| && buf[q..q + |t|] == t && buf[q + |t|] == '\0' && '\0' !in t
  }

  /** The buffer holds the line and its NUL. */
  ghost predicate Holds(buf: seq<char>, line: CString) {
    |line| < |buf| && buf[..|line|] == line && buf[|line|] == '\0'
  }

  /** No NUL lands inside a word: a word ends where the line does not go on with an ordinary character. */
  lemma WordsReadBack(line: CString, cmd: Cmd<Word>, buf: seq<char>, buf': seq<char>)
    requires Holds(buf, line) && WordsOf(cmd) == multiset(Words(Lex(line, 0)))
    requires |buf'| == |buf| && forall i :: 0 <= i < |buf| ==> buf'[i] == if EndsAt(cmd, i) then '\0' else buf[i]
    ensures forall w :: w in WordsOf(cmd) ==> IsWord(line, w) && ReadsAs(buf', w.q, line[w.q..w.eq])
  {
    hide Lex, Words, WordsOf, EndsAt, ReadsAs, Holds;
    LexFindsWords(line, 0);
    forall w | w in WordsOf(cmd) ensures IsWord(line, w) { assert w in Words(Lex(line, 0)); }
    forall w | w in WordsOf(cmd) ensures ReadsAs(buf', w.q, line[w.q..w.eq]) { OneReadsBack(line, cmd, buf, buf', w); }
  }

  lemma OneReadsBack(line: CString, cmd: Cmd<Word>, buf: seq<char>, buf': seq<char>, w: Word)
    requires Holds(buf, line) && w in WordsOf(cmd) && forall v :: v in WordsOf(cmd) ==> IsWord(line, v)
    requires |buf'| == |buf| && forall i :: 0 <= i < |buf| ==> buf'[i] == if EndsAt(cmd, i) then '\0' else buf[i]
    ensures w.q <= w.eq <= |line| && ReadsAs(buf', w.q, line[w.q..w.eq])
  {
    hide WordsOf, Ordinary;
    forall i | w.q <= i < w.eq ensures buf'[i] == line[i] {
      InsideWord(line, cmd, w, i);
      assert buf[..|line|][i] == line[i];
    }
    assert EndsAt(cmd, w.eq);
    hide IsWord, EndsAt;
    SliceReads(line, buf', w.q, w.eq);
  }

  lemma SliceReads(line: CString, buf: seq<char>, q: nat, eq: nat)
    requires q <= eq <= |line| < |buf| && buf[eq] == '\0' && forall i :: q <= i < eq ==> buf[i] == line[i]
    ensures ReadsAs(buf, q, line[q..eq])
  {
    assert buf[q..eq] == line[q..eq];
  }

  lemma InsideWord(line: CString, cmd: Cmd<Word>, w: Word, i: nat)
    requires IsWord(line, w) && w.q <= i < w.eq
    requires forall v :: v in WordsOf(cmd) ==> IsWord(line, v)
    ensures !EndsAt(cmd, i)
  {
    hide WordsOf;
  }

  /** What parsecmd accepts, and the command it makes of it. */
  function Accepted(line: CString): Option<Cmd<Word>> {
    match LineOf(Lex(line, 0))
    case Panic => None
    case Ok(cmd, rest) => if rest == [] then Some(cmd) else None
  }

  method StrLen(buf: array<char>) returns (n: nat)
    requires '\0' in buf[..]
    ensures n < buf.Length && buf[n] == '\0' && '\0' !in buf[..n]
  {
    n := 0;
    while buf[n] != '\0'
      invariant n < buf.Length && '\0' !in buf[..n] && '\0' in buf[n..]
      decreases buf.Length - n
    {
      n := n + 1;
    }
  }

  /** parsecmd: the command of the line in the buffer, or a panic. Every word of the line is in the
      command once, and reads back from the buffer as exactly itself. */
  method ParseCmd(buf: array<char>) returns (r: Option<Cmd<Word>>, ghost line: CString)
    requires '\0' in buf[..]
    modifies buf
    ensures Holds(old(buf[..]), line) && r == Accepted(line)
    ensures r.None? ==> buf[..] == old(buf[..])
    ensures r.Some? ==> WordsOf(r.value) == multiset(Words(Lex(line, 0)))
    ensures r.Some? ==> forall w :: w in WordsOf(r.value) ==> IsWord(line, w) && ReadsAs(buf[..], w.q, line[w.q..w.eq])
  {
    hide Lex, TokenAt, SkipSpace, LineOf, Words, ReadsAs, EndsAt;
    var n := StrLen(buf);
    var text: CString := buf[..n];
    line := text;
    var s, leftover;
    r, s := ParseLine(text, 0);
    if r.None? {
      return;
    }
    LineWords(Lex(line, 0));
    PeekTells(line, s);
    SkipBounds(line, s);
    leftover, s := Peek(text, s, {});
    if s != n {
      r := None;
      return;
    }
    assert Words([]) == [] by { NoWords(); }
    ghost var before := buf[..];
    Enclosed(line, r.value, buf.Length);
    NulTerminate(r.value, buf);
    WordsReadBack(line, r.value, before, buf[..]);
  }

  lemma NoWords()
    ensures Words([]) == []
  {
  }

  lemma Enclosed(line: CString, cmd: Cmd<Word>, n: nat)
    requires |line| < n && WordsOf(cmd) == multiset(Words(Lex(line, 0)))
    ensures Within(cmd, n)
  {
    hide Lex, Words, WordsOf;
    LexFindsWords(line, 0);
    forall w | w in WordsOf(cmd) ensures w.eq < n { assert w in Words(Lex(line, 0)); }
  }
}
