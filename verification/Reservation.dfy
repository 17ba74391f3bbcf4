/**
 Admission to the log (begin_op, log_write, end_op in log.c) on its own: which blocks
 are in the log, and what each operation in progress has put there.
 */
module Reservation {
  import opened Blocks
  import opened LogSpec

  datatype State = State(block: seq<uint>, ops: seq<set<uint>>, committing: bool)

  datatype Step =
    | Begin                  // begin_op lets an operation in
    | Write(o: nat, b: uint) // log_write by operation o
    | End(o: nat)            // end_op; the last one starts a commit
    | Commit                 // the commit is over

  /** log_write's first test, which panics when it fails. */
  predicate Fits(n: nat, size: nat) {
    n < LOGSIZE && n < size - 1
  }

  /** Operation o may log block b without exceeding what it was promised. */
  ghost predicate InBudget(s: State, o: nat, b: uint) {
    o < |s.ops| && |s.ops[o] + {b}| <= MAXOPBLOCKS
  }

  ghost predicate Enabled(s: State, size: nat, step: Step) {
    match step
    case Begin => !s.committing && |s.block| + (|s.ops| + 1) * MAXOPBLOCKS <= LOGSIZE
    case Write(o, b) => InBudget(s, o, b) && Fits(|s.block|, size)
    case End(o) => o < |s.ops|
    case Commit => s.committing
  }

  ghost function Next(s: State, step: Step): State
    requires step.Write? || step.End? ==> step.o < |s.ops|
  {
    match step
    case Begin => s.(ops := s.ops + [{}])
    case Write(o, b) => s.(block := if b in s.block then s.block else s.block + [b], ops := s.ops[o := s.ops[o] + {b}])
    case End(o) => s.(ops := s.ops[..o] + s.ops[o + 1..], committing := |s.ops| == 1)
    case Commit => s.(block := [], committing := false)
  }

  ghost predicate CanRun(s: State, size: nat, steps: seq<Step>)
    decreases |steps|, 0
  {
    steps == [] || (CanRun(s, size, steps[..|steps| - 1])
                    && Enabled(Run(s, size, steps[..|steps| - 1]), size, steps[|steps| - 1]))
  }

  ghost function Run(s: State, size: nat, steps: seq<Step>): State
    requires CanRun(s, size, steps)
    decreases |steps|, 1
  {
    if steps == [] then s else Next(Run(s, size, steps[..|steps| - 1]), steps[|steps| - 1])
  }

  /** Blocks that the operations in progress may still add to the log. */
  ghost function Unspent(ops: seq<set<uint>>): int {
    if ops == [] then 0 else MAXOPBLOCKS - |ops[0]| + Unspent(ops[1..])
  }

  ghost predicate Inv(s: State) {
    && |s.block| + Unspent(s.ops) <= LOGSIZE
    && (forall o :: 0 <= o < |s.ops| ==> |s.ops[o]| <= MAXOPBLOCKS)
    && (forall o, b :: 0 <= o < |s.ops| && b in s.ops[o] ==> b in s.block)
    && (forall i, j :: 0 <= i < j < |s.block| ==> s.block[i] != s.block[j])
    && (s.committing ==> s.ops == [])
  }

  lemma {:induction false} UnspentBound(ops: seq<set<uint>>)
    ensures Unspent(ops) <= |ops| * MAXOPBLOCKS
  {
    if ops != [] {
      UnspentBound(ops[1..]);
    }
  }

  lemma {:induction false} UnspentUpdate(ops: seq<set<uint>>, i: nat, s: set<uint>)
    requires i < |ops|
    ensures Unspent(ops[i := s]) == Unspent(ops) + |ops[i]| - |s|
  {
    if i > 0 {
      UnspentUpdate(ops[1..], i - 1, s);
      assert ops[i := s][1..] == ops[1..][i - 1 := s];
    } else {
      assert ops[i := s][1..] == ops[1..];
    }
  }

  lemma {:induction false} UnspentRemove(ops: seq<set<uint>>, i: nat)
    requires i < |ops|
    ensures Unspent(ops[..i] + ops[i + 1..]) == Unspent(ops) - (MAXOPBLOCKS - |ops[i]|)
  {
    var rest := ops[..i] + ops[i + 1..];
    if i > 0 {
      UnspentRemove(ops[1..], i - 1);
      assert rest[1..] == ops[1..][..i - 1] + ops[1..][i..];
    } else {
      assert rest == ops[1..];
    }
  }

  lemma StepKeeps(s: State, size: nat, step: Step)
    requires Inv(s) && Enabled(s, size, step)
    ensures Inv(Next(s, step))
  {
    match step
    case Begin =>
      UnspentBound(s.ops + [{}]);
    case Write(o, b) =>
      UnspentUpdate(s.ops, o, s.ops[o] + {b});
      assert b in s.ops[o] ==> s.ops[o] + {b} == s.ops[o];
    case End(o) =>
      UnspentRemove(s.ops, o);
    case Commit =>
  }

  /**
   At every reachable state the blocks in the log plus the unspent reservations of the
   operations in progress fit in LOGSIZE, and no operation is in progress during a commit.
   */
  lemma {:induction false} ReservationHolds(size: nat, steps: seq<Step>)
    requires CanRun(State([], [], false), size, steps)
    ensures Inv(Run(State([], [], false), size, steps))
  {
    if steps != [] {
      var before := steps[..|steps| - 1];
      ReservationHolds(size, before);
      StepKeeps(Run(State([], [], false), size, before), size, steps[|steps| - 1]);
    }
  }

  // ---- When log_write can panic ---------------------------------------------------

  /** With more log blocks than LOGSIZE, a new block within budget always fits. */
  lemma NewBlockFits(s: State, size: nat, o: nat, b: uint)
    requires Inv(s) && InBudget(s, o, b) && b !in s.block && size > LOGSIZE
    ensures Fits(|s.block|, size)
  {
    UnspentUpdate(s.ops, o, s.ops[o] + {b});
    UnspentNonNegative(s.ops[o := s.ops[o] + {b}]);
  }

  lemma {:induction false} UnspentNonNegative(ops: seq<set<uint>>)
    requires forall o :: 0 <= o < |ops| ==> |ops[o]| <= MAXOPBLOCKS
    ensures Unspent(ops) >= 0
  {
    if ops != [] {
      UnspentNonNegative(ops[1..]);
    }
  }

  /** The blocks lo, lo + 1, ..., hi - 1. */
  ghost function Numbers(lo: nat, hi: nat): (r: set<uint>)
    requires lo <= hi <= LOGSIZE
    ensures |r| == hi - lo && forall b :: b in r ==> b < hi
  {
    if lo == hi then {} else Numbers(lo, hi - 1) + {hi - 1}
  }

  ghost function UpTo(k: nat): (r: seq<uint>)
    requires k <= LOGSIZE
    ensures |r| == k && forall i :: 0 <= i < k ==> r[i] == i
  {
    if k == 0 then [] else UpTo(k - 1) + [(k - 1) as uint]
  }

  /** What operation o has logged once blocks 0 to k - 1 are in, ten to an operation. */
  ghost function Share(o: nat, k: nat): set<uint>
    requires o < 3 && k <= LOGSIZE
  {
    Numbers(10 * o, if k < 10 * o then 10 * o else if k < 10 * o + 10 then k else 10 * o + 10)
  }

  ghost function Filled(k: nat): State
    requires k <= LOGSIZE
  {
    State(UpTo(k), [Share(0, k), Share(1, k), Share(2, k)], false)
  }

  lemma ShareStep(o: nat, k: nat)
    requires o < 3 && k < LOGSIZE
    ensures Share(o, k + 1) == if o == k / 10 then Share(o, k) + {k as uint} else Share(o, k)
  {
  }

  ghost function Filling(k: nat): seq<Step>
    requires k <= LOGSIZE
  {
    if k == 0 then [Begin, Begin, Begin] else Filling(k - 1) + [Write((k - 1) / 10, k - 1)]
  }

  lemma FillStep(size: nat, k: nat)
    requires 0 < k < size && k <= LOGSIZE
    ensures Enabled(Filled(k - 1), size, Write((k - 1) / 10, k - 1))
    ensures Next(Filled(k - 1), Write((k - 1) / 10, k - 1)) == Filled(k)
  {
    hide Share;
    var o, b: uint, s := (k - 1) / 10, k - 1, Filled(k - 1);
    ShareStep(0, k - 1);
    ShareStep(1, k - 1);
    ShareStep(2, k - 1);
    ShareBound(o, k);
    assert s.ops[o] + {b} == Share(o, k);
    assert Filled(k).ops == s.ops[o := Share(o, k)];
  }

  lemma ShareBound(o: nat, k: nat)
    requires o < 3 && k <= LOGSIZE
    ensures |Share(o, k)| <= MAXOPBLOCKS
  {
  }

  lemma {:induction false} FillRuns(size: nat, k: nat)
    requires k < size && k <= LOGSIZE
    ensures CanRun(State([], [], false), size, Filling(k))
    ensures Run(State([], [], false), size, Filling(k)) == Filled(k)
  {
    var s0 := State([], [], false);
    if k == 0 {
      assert [Begin, Begin, Begin][..2] == [Begin, Begin] && [Begin, Begin][..1] == [Begin] && [Begin][..0] == [];
      assert CanRun(s0, size, [Begin]) && Run(s0, size, [Begin]).ops == [{}];
      assert CanRun(s0, size, [Begin, Begin]) && Run(s0, size, [Begin, Begin]).ops == [{}, {}];
    } else {
      FillRuns(size, k - 1);
      FillStep(size, k);
      assert Filling(k)[..|Filling(k)| - 1] == Filling(k - 1);
    }
  }

  /**
   The reservation does not rule out log_write's "too big a transaction" panic when the
   log has at most LOGSIZE blocks, header included, which is how mkfs lays it out: three
   admitted operations, none over budget, can reach it with a block not yet in the log.
   */
  lemma SmallLogPanics(size: nat) returns (steps: seq<Step>, o: nat, b: uint)
    requires 1 <= size <= LOGSIZE
    ensures CanRun(State([], [], false), size, steps)
    ensures var s := Run(State([], [], false), size, steps);
            InBudget(s, o, b) && b !in s.block && !Fits(|s.block|, size)
  {
    var k := size - 1;
    steps, o, b := Filling(k), k / 10, k;
    FillRuns(size, k);
    NextShare(k);
  }

  /**
   Nor with more blocks: the test comes before the search for the block, so once LOGSIZE
   blocks are logged, writing one of them again panics. The log is then as full as the cache.
   */
  lemma FullLogPanics(size: nat) returns (steps: seq<Step>, o: nat, b: uint)
    requires size > LOGSIZE
    ensures CanRun(State([], [], false), size, steps)
    ensures var s := Run(State([], [], false), size, steps);
            InBudget(s, o, b) && b in s.block && |s.block| == LOGSIZE && !Fits(|s.block|, size)
  {
    steps, o, b := Filling(LOGSIZE), 2, 29;
    FillRuns(size, LOGSIZE);
    hide Share;
    ShareStep(2, 29);
    ShareBound(2, 30);
    assert Share(2, 30) + {b} == Share(2, 30);
  }

  lemma NextShare(k: nat)
    requires k < LOGSIZE
    ensures InBudget(Filled(k), k / 10, k) && (k as uint) !in Filled(k).block
  {
    hide Share;
    ShareStep(k / 10, k);
    ShareBound(k / 10, k + 1);
    assert Filled(k).ops[k / 10] == Share(k / 10, k);
  }
}
