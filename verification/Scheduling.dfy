/**
 The scheduler's pass over the table (proc.c): every process gets its turn, a frozen one is put
 back, and one that was left goes on where it was left.
 */
module Scheduling {
  import opened ProcTable
  import opened Options
  import W = Wakeups

  /** CPU c is in the context of process p, which has the processor. */
  ghost predicate Runs(s: State, c: nat, p: nat) {
    c < |s.cpus| && s.cpus[c] == Run(p) && p < |s.procs| && s.procs[p].state.RUNNING?
  }

  /** States of a process that has started and has not called exit. */
  predicate Alive(st: PState) {
    st.RUNNING? || st.RUNNABLE? || st.MINUS_RUNNABLE? || st.SLEEPING? || st.MINUS_SLEEPING?
  }

  // ---- Only its own CPU moves a process on ----------------------------------------

  lemma OthersAdvance(s: State, q: nat, p: nat)
    requires |s.procs| == NPROC && s.init < NPROC && q < NPROC && p < NPROC && q != p
    requires SlotOf(s.procs[q].pc).Some? ==> SlotOf(s.procs[q].pc).value < NPROC
    requires ChildOf(s.procs[q].pc) != Some(p)
    ensures |AdvanceProc(s, q).procs| == NPROC && AdvanceProc(s, q).procs[p].pc == s.procs[p].pc
    ensures Alive(s.procs[p].state) ==> Alive(AdvanceProc(s, q).procs[p].state)
  {
  }

  lemma PcKept(s: State, step: Step, p: nat)
    requires Core(s) && Enabled(s, step) && p < NPROC && !s.procs[p].state.EMBRYO? && s.cpus[step.c] != Run(p)
    ensures |Next(s, step).procs| == NPROC && Next(s, step).procs[p].pc == s.procs[p].pc
    ensures Alive(s.procs[p].state) ==> Alive(Next(s, step).procs[p].state)
  {
    hide AdvanceProc, Exclusive, Located;
    if step.Advance? { OthersAdvance(s, s.cpus[step.c].p, p); }
  }

  // ---- A pass over the table --------------------------------------------------------

  lemma TableSize(states: seq<State>, steps: seq<Step>)
    requires W.IsRun(states, steps) && W.Start(states[0])
    ensures forall k :: 0 <= k < |states| ==> |states[k].procs| == NPROC
  {
    forall k | 0 <= k < |states| ensures |states[k].procs| == NPROC { W.RunKeeps(states, steps, k); }
  }

  /** How far CPU c's pass has come: the slot it tries next, or the one it holds. */
  function Place(cpu: Cpu): nat {
    match cpu
    case Scan(i) => i
    case Picked(p) => p
    case Run(p) => p
    case Settle(p) => p
    case Wake(_, resume) => resume
  }

  predicate AtEnd(cpu: Cpu) {
    cpu.Scan? && cpu.i >= NPROC
  }

  lemma PassStep(s: State, step: Step, c: nat, p: nat)
    requires W.Inv(s) && Enabled(s, step) && c < |s.cpus| && p < NPROC && s.procs[p].state.RUNNABLE?
    requires Place(s.cpus[c]) <= p
    ensures |Next(s, step).cpus| == |s.cpus| && Place(Next(s, step).cpus[c]) <= p
  {
    hide W.NoneLost, W.ChanSet, Located, Reserved, AdvanceProc;
    if Holds(s.cpus[c]) { assert HeldBy(s, s.cpus[c].p, c); }
    if step.Advance? { CpusKept(s, s.cpus[step.c].p); }
  }

  lemma CpusKept(s: State, q: nat)
    requires |s.procs| == NPROC && s.init < NPROC && q < NPROC
    requires SlotOf(s.procs[q].pc).Some? ==> SlotOf(s.procs[q].pc).value < NPROC
    ensures AdvanceProc(s, q).cpus == s.cpus && |AdvanceProc(s, q).procs| == NPROC
  {
  }

  lemma {:induction false} PassReaches(states: seq<State>, steps: seq<Step>, a: nat, b: nat, c: nat, p: nat)
    requires W.IsRun(states, steps) && W.Start(states[0]) && a < b < |states| && p < NPROC
    requires c < |states[a].cpus| && AtEnd(states[a].cpus[c]) && steps[a] == TryPick(c)
    requires forall k :: a < k < b ==> |states[k].procs| == NPROC && states[k].procs[p].state.RUNNABLE?
    ensures c < |states[b].cpus| && Place(states[b].cpus[c]) <= p
    decreases b
  {
    hide W.Inv, W.Start;
    if a + 1 < b {
      hide Next;
      PassReaches(states, steps, a, b - 1, c, p);
      W.RunKeeps(states, steps, b - 1);
      PassStep(states[b - 1], steps[b - 1], c, p);
      assert states[b - 1 + 1] == Next(states[b - 1], steps[b - 1]);
    } else {
      assert states[a + 1] == Next(states[a], steps[a]);
    }
  }

  /**
   In every run, from one end of CPU c's pass over the table to the next, no process is RUNNABLE all
   the while: each one gets picked, by this CPU or another, or was not ready.
   */
  lemma EveryTurn(states: seq<State>, steps: seq<Step>, a: nat, b: nat, c: nat, p: nat)
    requires W.IsRun(states, steps) && W.Start(states[0]) && a < b < |states| && p < NPROC
    requires c < |states[a].cpus| && AtEnd(states[a].cpus[c]) && steps[a] == TryPick(c)
    requires c < |states[b].cpus| && AtEnd(states[b].cpus[c])
    ensures forall k :: 0 <= k < |states| ==> |states[k].procs| == NPROC
    ensures exists k :: a < k < b && !states[k].procs[p].state.RUNNABLE?
  {
    hide W.IsRun, W.Start, Next, W.Inv;
    TableSize(states, steps);
    if forall k :: a < k < b ==> |states[k].procs| == NPROC && states[k].procs[p].state.RUNNABLE? {
      PassReaches(states, steps, a, b, c, p);
    }
  }

  // ---- Dispatch ---------------------------------------------------------------------

  lemma DispatchStep(s: State, step: Step, c: nat, p: nat)
    requires W.Inv(s) && Enabled(s, step) && c < |s.cpus| && p < NPROC
    ensures var s' := Next(s, step);
            && |s'.procs| == NPROC && |s'.cpus| == |s.cpus|
            && (s.cpus[c] != Run(p) && s'.cpus[c] == Run(p) ==>
                  && s.cpus[c] == Picked(p) && step.Dispatch? && step.c == c
                  && (s.procs[p].frozen ==> step.evenIfFrozen) && s'.procs[p] == s.procs[p])
            && (s.cpus[c] == Picked(p) && s'.cpus[c] != Picked(p) ==>
                  || s'.cpus[c] == Run(p)
                  || (&& !Holds(s'.cpus[c]) && s.procs[p].frozen && step == Dispatch(c, false)
                      && s'.procs[p] == s.procs[p].(state := RUNNABLE)))
  {
    hide W.NoneLost, W.ChanSet, Reserved, AdvanceProc;
    if s.cpus[c] == Picked(p) { assert HeldBy(s, p, c); }
    if step.Advance? { CpusKept(s, s.cpus[step.c].p); }
  }

  /**
   In every run a CPU comes to run a process only by dispatching the one it has picked, as that process
   was left, and a frozen one only when it may run all the same; one it picks and does not run is frozen
   and is RUNNABLE again.
   */
  lemma DispatchesRight(states: seq<State>, steps: seq<Step>, i: nat, c: nat, p: nat)
    requires W.IsRun(states, steps) && W.Start(states[0]) && i < |steps| && c < |states[i].cpus| && p < NPROC
    ensures |states[i].procs| == NPROC == |states[i + 1].procs| && |states[i + 1].cpus| == |states[i].cpus|
    ensures var s, s' := states[i], states[i + 1];
            && (s.cpus[c] != Run(p) && s'.cpus[c] == Run(p) ==>
                  && s.cpus[c] == Picked(p) && s'.procs[p] == s.procs[p]
                  && (s.procs[p].frozen ==> steps[i] == Dispatch(c, true)))
            && (s.cpus[c] == Picked(p) && !Holds(s'.cpus[c]) ==>
                  && s.procs[p].frozen && steps[i] == Dispatch(c, false)
                  && s'.procs[p] == s.procs[p].(state := RUNNABLE))
            && (s.cpus[c] == Picked(p) && Holds(s'.cpus[c]) ==> s'.cpus[c] == Picked(p) || s'.cpus[c] == Run(p))
  {
    hide W.Inv, W.Start, Next;
    W.RunKeeps(states, steps, i);
    assert states[i + 1] == Next(states[i], steps[i]);
    DispatchStep(states[i], steps[i], c, p);
  }

  // ---- Left and resumed ---------------------------------------------------------------

  /** Process p is away from the processor, to go on at r. */
  ghost predicate Away(s: State, p: nat, r: Pc)
    requires |s.procs| == NPROC && p < NPROC
  {
    && (s.procs[p].pc == Sched(r) || (s.procs[p].pc == r && forall c: nat :: c < |s.cpus| ==> s.cpus[c] != Run(p)))
    && Alive(s.procs[p].state)
  }

  /** The step takes process p off the processor, to go on at r. */
  predicate Leaves(s: State, step: Step, p: nat, r: Pc) {
    && p < |s.procs| && step.c < |s.cpus| && s.cpus[step.c] == Run(p)
    && ((step.Preempt? && s.procs[p].pc == r) || (step.Advance? && s.procs[p].pc.SleepCas? && r.User?))
  }

  lemma LeavesAway(s: State, step: Step, p: nat, r: Pc)
    requires W.Inv(s) && Enabled(s, step) && Leaves(s, step, p, r)
    ensures |Next(s, step).procs| == NPROC && p < NPROC && Away(Next(s, step), p, r)
  {
    hide W.NoneLost, W.ChanSet, Reserved;
    assert HeldBy(s, p, step.c);
  }

  /** A CPU starts to run p only by dispatching it. */
  lemma RunBegins(s: State, step: Step, p: nat)
    requires W.Inv(s) && Enabled(s, step) && p < NPROC
    requires forall c: nat :: c < |s.cpus| ==> s.cpus[c] != Run(p)
    ensures forall c: nat :: c < |Next(s, step).cpus| && Next(s, step).cpus[c] == Run(p) ==> Runs(Next(s, step), c, p)
  {
    hide W.NoneLost, W.ChanSet, Reserved, AdvanceProc;
    var s' := Next(s, step);
    if step.Advance? { CpusKept(s, s.cpus[step.c].p); }
    forall c: nat | c < |s'.cpus| && s'.cpus[c] == Run(p) ensures Runs(s', c, p) {
      DispatchStep(s, step, c, p);
      assert HeldBy(s, p, c);
    }
  }

  lemma SwitchedAway(s: State, step: Step, p: nat, r: Pc)
    requires W.Inv(s) && Enabled(s, step) && p < NPROC && s.procs[p].pc == Sched(r) && s.cpus[step.c] == Run(p)
    requires Alive(s.procs[p].state)
    ensures |Next(s, step).procs| == NPROC && Away(Next(s, step), p, r)
  {
    hide W.NoneLost, W.ChanSet, Reserved, AdvanceProc;
    assert HeldBy(s, p, step.c);
    assert forall c: nat :: c < |s.cpus| && s.cpus[c] == Run(p) ==> HeldBy(s, p, c);
  }

  lemma AwayStep(s: State, step: Step, p: nat, r: Pc)
    requires W.Inv(s) && Enabled(s, step) && p < NPROC && Away(s, p, r)
    ensures |Next(s, step).procs| == NPROC
    ensures Away(Next(s, step), p, r) || (Next(s, step).procs[p].pc == r && exists c: nat :: Runs(Next(s, step), c, p))
  {
    hide Next, W.NoneLost, W.ChanSet, Exclusive, Located, Reserved;
    if s.procs[p].pc == Sched(r) && s.cpus[step.c] == Run(p) {
      SwitchedAway(s, step, p, r);
    } else {
      PcKept(s, step, p);
      if s.procs[p].pc != Sched(r) { RunBegins(s, step, p); }
    }
  }

  lemma {:induction false} StaysAway(states: seq<State>, steps: seq<Step>, a: nat, b: nat, p: nat, r: Pc)
    requires W.IsRun(states, steps) && W.Start(states[0]) && a < b < |states| && Leaves(states[a], steps[a], p, r)
    requires forall k, c: nat :: a < k < b ==> !Runs(states[k], c, p)
    ensures p < NPROC == |states[b].procs|
    ensures Away(states[b], p, r) || (states[b].procs[p].pc == r && exists c: nat :: Runs(states[b], c, p))
    decreases b
  {
    hide Next, W.Inv, W.Start, Leaves, Away;
    W.RunKeeps(states, steps, b - 1);
    assert states[b - 1 + 1] == Next(states[b - 1], steps[b - 1]);
    if a + 1 < b {
      StaysAway(states, steps, a, b - 1, p, r);
      AwayStep(states[b - 1], steps[b - 1], p, r);
    } else {
      LeavesAway(states[a], steps[a], p, r);
    }
  }

  /**
   In every run, a process that is preempted, or goes to sleep, next has the processor at the point where
   it was preempted, or where sleep returns.
   */
  lemma Resumes(states: seq<State>, steps: seq<Step>, a: nat, b: nat, p: nat, r: Pc, c: nat)
    requires W.IsRun(states, steps) && W.Start(states[0]) && a < b < |states| && Leaves(states[a], steps[a], p, r)
    requires forall k, d: nat :: a < k < b ==> !Runs(states[k], d, p)
    requires Runs(states[b], c, p)
    ensures states[b].procs[p].pc == r
  {
    hide Next, W.NoneLost, W.ChanSet, Exclusive, Reserved, W.Start, W.IsRun, Leaves;
    StaysAway(states, steps, a, b, p, r);
    W.RunKeeps(states, steps, b);
  }
}
