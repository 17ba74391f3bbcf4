/**
 A wakeup on one channel can wake a process that is asleep on another (proc.c): wakeup1 chooses a
 parent that is still on its way to sleep in wait, the parent finds its zombie, returns from wait
 and sleeps on something else, and then wakeup1 finds it SLEEPING.
 */
module SpuriousWakeup {
  import opened ProcTable
  import opened Options
  import W = Wakeups
  import S = Sleepers

  const BLANK := Proc(UNUSED, None, NoChan, false, false, User)

  /** Two processes, init and its child, on two CPUs. */
  function Table(init: Proc, child: Proc, c0: Cpu, c1: Cpu): (s: State)
    ensures |s.procs| == NPROC && s.procs[0] == init && s.procs[1] == child
    ensures forall i :: 2 <= i < NPROC ==> s.procs[i] == BLANK
    ensures s.cpus == [c0, c1] && s.init == 0 && !s.panicked
  {
    State([init, child] + seq(62, _ => BLANK), [c0, c1], 0, false)
  }

  /** A process that has never been killed or frozen. */
  function Plain(state: PState, parent: Option<nat>, chan: Chan, pc: Pc): Proc {
    Proc(state, parent, chan, false, false, pc)
  }

  function Init(state: PState, chan: Chan, pc: Pc): Proc { Plain(state, None, chan, pc) }

  function Child(state: PState, pc: Pc): Proc { Plain(state, Some(0), NoChan, pc) }

  const UP := Init(RUNNING, NoChan, User)
  const SPINNING := Wake(Waker(OnProc(0), 0, Spin), 2)

  /** A run from the start that ends in state t. */
  ghost predicate Reached(states: seq<State>, steps: seq<Step>, t: State) {
    W.IsRun(states, steps) && W.Start(states[0]) && states[|steps|] == t
  }

  /** One more step of a run. */
  lemma Then(states: seq<State>, steps: seq<Step>, s: State, step: Step, t: State)
    returns (states': seq<State>, steps': seq<Step>)
    requires Reached(states, steps, s) && W.CanStep(s, step) && Next(s, step) == t
    ensures Reached(states', steps', t) && steps' == steps + [step] && states' == states + [t]
  {
    states', steps' := states + [t], steps + [step];
    forall i | 0 <= i < |steps'|
      ensures W.CanStep(states'[i], steps'[i]) && states'[i + 1] == Next(states'[i], steps'[i])
    {
      if i < |steps| {
        assert W.CanStep(states[i], steps[i]) && states[i + 1] == Next(states[i], steps[i]);
      }
    }
  }

  /** init forks its child. */
  lemma Forks() returns (states: seq<State>, steps: seq<Step>)
    ensures Reached(states, steps,
                    Table(Init(RUNNING, NoChan, ForkInit(1)), Plain(EMBRYO, None, NoChan, User), Run(0), Scan(0)))
  {
    var s0 := Table(Init(RUNNABLE, NoChan, User), BLANK, Scan(0), Scan(0));
    states, steps := [s0], [];
    var s1 := Table(UP, BLANK, Picked(0), Scan(0));
    states, steps := Then(states, steps, s0, TryPick(0), s1);
    var s2 := Table(UP, BLANK, Run(0), Scan(0));
    states, steps := Then(states, steps, s1, Dispatch(0, false), s2);
    var s3 := Table(Init(RUNNING, NoChan, ForkInit(1)), Plain(EMBRYO, None, NoChan, User), Run(0), Scan(0));
    states, steps := Then(states, steps, s2, Begin(0, CallFork(1)), s3);
  }

  lemma Born(states0: seq<State>, steps0: seq<Step>) returns (states: seq<State>, steps: seq<Step>)
    requires Reached(states0, steps0,
                     Table(Init(RUNNING, NoChan, ForkInit(1)), Plain(EMBRYO, None, NoChan, User), Run(0), Scan(0)))
    ensures Reached(states, steps, Table(UP, Child(RUNNABLE, User), Run(0), Scan(1)))
  {
    hide Reached;
    var s0 := Table(Init(RUNNING, NoChan, ForkInit(1)), Plain(EMBRYO, None, NoChan, User), Run(0), Scan(0));
    states, steps := states0, steps0;
    var s1 := Table(Init(RUNNING, NoChan, ForkReady(1)), Child(EMBRYO, User), Run(0), Scan(0));
    states, steps := Then(states, steps, s0, Advance(0), s1);
    var s2 := Table(UP, Child(RUNNABLE, User), Run(0), Scan(0));
    states, steps := Then(states, steps, s1, Advance(0), s2);
    var s3 := Table(UP, Child(RUNNABLE, User), Run(0), Scan(1));
    states, steps := Then(states, steps, s2, TryPick(1), s3);
  }

  /** The child runs on the other CPU and calls exit. */
  lemma Exits(states0: seq<State>, steps0: seq<Step>) returns (states: seq<State>, steps: seq<Step>)
    requires Reached(states0, steps0, Table(UP, Child(RUNNABLE, User), Run(0), Scan(1)))
    ensures Reached(states, steps, Table(UP, Child(MINUS_ZOMBIE, ExitSlot(0)), Run(0), Run(1)))
  {
    hide Reached;
    var s0 := Table(UP, Child(RUNNABLE, User), Run(0), Scan(1));
    states, steps := states0, steps0;
    var s1 := Table(UP, Child(RUNNING, User), Run(0), Picked(1));
    states, steps := Then(states, steps, s0, TryPick(1), s1);
    var s2 := Table(UP, Child(RUNNING, User), Run(0), Run(1));
    states, steps := Then(states, steps, s1, Dispatch(1, false), s2);
    var s3 := Table(UP, Child(MINUS_ZOMBIE, ExitSlot(0)), Run(0), Run(1));
    states, steps := Then(states, steps, s2, Begin(1, CallExit), s3);
  }

  /** exit's loop: the child has no children. */
  lemma {:induction false} Passes(states0: seq<State>, steps0: seq<Step>, i: nat)
    returns (states: seq<State>, steps: seq<Step>)
    requires i <= NPROC && Reached(states0, steps0, Table(UP, Child(MINUS_ZOMBIE, ExitSlot(i)), Run(0), Run(1)))
    ensures Reached(states, steps, Table(UP, Child(MINUS_ZOMBIE, ExitSlot(NPROC)), Run(0), Run(1)))
    decreases NPROC - i
  {
    states, steps := states0, steps0;
    if i < NPROC {
      hide Reached;
      var s0 := Table(UP, Child(MINUS_ZOMBIE, ExitSlot(i)), Run(0), Run(1));
      var s1 := Table(UP, Child(MINUS_ZOMBIE, ExitSlot(i + 1)), Run(0), Run(1));
      states, steps := Then(states, steps, s0, Advance(1), s1);
      states, steps := Passes(states, steps, i + 1);
    }
  }

  /** init calls wait, and is on its way to sleep when the child leaves its CPU. */
  lemma Leaves(states0: seq<State>, steps0: seq<Step>) returns (states: seq<State>, steps: seq<Step>)
    requires Reached(states0, steps0, Table(UP, Child(MINUS_ZOMBIE, ExitSlot(NPROC)), Run(0), Run(1)))
    ensures Reached(states, steps,
                    Table(Init(MINUS_SLEEPING, OnProc(0), WaitRead(0, false)), Child(MINUS_ZOMBIE, Dead), Run(0),
                          Settle(1)))
  {
    hide Reached;
    var s0 := Table(UP, Child(MINUS_ZOMBIE, ExitSlot(NPROC)), Run(0), Run(1));
    states, steps := states0, steps0;
    var s1 := Table(UP, Child(MINUS_ZOMBIE, Sched(Dead)), Run(0), Run(1));
    states, steps := Then(states, steps, s0, Advance(1), s1);
    var s2 := Table(UP, Child(MINUS_ZOMBIE, Dead), Run(0), Settle(1));
    states, steps := Then(states, steps, s1, Swtch(1), s2);
    var s3 := Table(Init(RUNNING, NoChan, WaitTop), Child(MINUS_ZOMBIE, Dead), Run(0), Settle(1));
    states, steps := Then(states, steps, s2, Begin(0, CallWait), s3);
    var s4 := Table(Init(MINUS_SLEEPING, NoChan, WaitChan), Child(MINUS_ZOMBIE, Dead), Run(0), Settle(1));
    states, steps := Then(states, steps, s3, Advance(0), s4);
    var s5 := Table(Init(MINUS_SLEEPING, OnProc(0), WaitRead(0, false)), Child(MINUS_ZOMBIE, Dead), Run(0), Settle(1));
    states, steps := Then(states, steps, s4, Advance(0), s5);
  }

  /** The child becomes a zombie, and the wakeup on its parent chooses init. */
  lemma Chooses(states0: seq<State>, steps0: seq<Step>) returns (states: seq<State>, steps: seq<Step>)
    requires Reached(states0, steps0,
                     Table(Init(MINUS_SLEEPING, OnProc(0), WaitRead(0, false)), Child(MINUS_ZOMBIE, Dead), Run(0),
                           Settle(1)))
    ensures Reached(states, steps,
                    Table(Init(MINUS_SLEEPING, OnProc(0), WaitRead(0, false)), Child(ZOMBIE, Dead), Run(0), SPINNING))
  {
    hide Reached;
    var s0 := Table(Init(MINUS_SLEEPING, OnProc(0), WaitRead(0, false)), Child(MINUS_ZOMBIE, Dead), Run(0), Settle(1));
    states, steps := states0, steps0;
    var s1 := Table(Init(MINUS_SLEEPING, OnProc(0), WaitRead(0, false)), Child(ZOMBIE, Dead), Run(0),
                    Wake(Waker(OnProc(0), 0, ReadState), 2));
    states, steps := Then(states, steps, s0, SettleStep(1), s1);
    var s2 := Table(Init(MINUS_SLEEPING, OnProc(0), WaitRead(0, false)), Child(ZOMBIE, Dead), Run(0),
                    Wake(Waker(OnProc(0), 0, ReadChan), 2));
    states, steps := Then(states, steps, s1, WakeStep(1), s2);
    var s3 := Table(Init(MINUS_SLEEPING, OnProc(0), WaitRead(0, false)), Child(ZOMBIE, Dead), Run(0), SPINNING);
    states, steps := Then(states, steps, s2, WakeStep(1), s3);
  }

  /** init finds its zombie and returns from wait. */
  lemma Reaps(states0: seq<State>, steps0: seq<Step>) returns (states: seq<State>, steps: seq<Step>)
    requires Reached(states0, steps0,
                     Table(Init(MINUS_SLEEPING, OnProc(0), WaitRead(0, false)), Child(ZOMBIE, Dead), Run(0), SPINNING))
    ensures Reached(states, steps,
                    Table(Init(MINUS_SLEEPING, OnProc(0), ReapParent(1)), Child(MINUS_UNUSED, Dead), Run(0), SPINNING))
  {
    hide Reached;
    var s0 := Table(Init(MINUS_SLEEPING, OnProc(0), WaitRead(0, false)), Child(ZOMBIE, Dead), Run(0), SPINNING);
    states, steps := states0, steps0;
    var s1 := Table(Init(MINUS_SLEEPING, OnProc(0), WaitRead(1, false)), Child(ZOMBIE, Dead), Run(0), SPINNING);
    states, steps := Then(states, steps, s0, Advance(0), s1);
    var s2 := Table(Init(MINUS_SLEEPING, OnProc(0), WaitTry(1)), Child(ZOMBIE, Dead), Run(0), SPINNING);
    states, steps := Then(states, steps, s1, Advance(0), s2);
    var s3 := Table(Init(MINUS_SLEEPING, OnProc(0), ReapParent(1)), Child(MINUS_UNUSED, Dead), Run(0), SPINNING);
    states, steps := Then(states, steps, s2, Advance(0), s3);
  }

  lemma Returns(states0: seq<State>, steps0: seq<Step>) returns (states: seq<State>, steps: seq<Step>)
    requires Reached(states0, steps0,
                     Table(Init(MINUS_SLEEPING, OnProc(0), ReapParent(1)), Child(MINUS_UNUSED, Dead), Run(0), SPINNING))
    ensures Reached(states, steps, Table(UP, Plain(UNUSED, None, NoChan, Dead), Run(0), SPINNING))
  {
    hide Reached;
    var s := Table(Init(MINUS_SLEEPING, OnProc(0), ReapParent(1)), Child(MINUS_UNUSED, Dead), Run(0), SPINNING);
    states, steps := states0, steps0;
    var s0 := Table(Init(MINUS_SLEEPING, OnProc(0), ReapChan(1)), Plain(MINUS_UNUSED, None, NoChan, Dead), Run(0),
                    SPINNING);
    states, steps := Then(states, steps, s, Advance(0), s0);
    var s1 := Table(Init(MINUS_SLEEPING, NoChan, ReapRun(1)), Plain(MINUS_UNUSED, None, NoChan, Dead), Run(0),
                    SPINNING);
    states, steps := Then(states, steps, s0, Advance(0), s1);
    var s2 := Table(Init(RUNNING, NoChan, ReapFree(1)), Plain(MINUS_UNUSED, None, NoChan, Dead), Run(0), SPINNING);
    states, steps := Then(states, steps, s1, Advance(0), s2);
    var s3 := Table(UP, Plain(UNUSED, None, NoChan, Dead), Run(0), SPINNING);
    states, steps := Then(states, steps, s2, Advance(0), s3);
  }

  /** init sleeps on something else. */
  lemma Sleeps(states0: seq<State>, steps0: seq<Step>) returns (states: seq<State>, steps: seq<Step>)
    requires Reached(states0, steps0, Table(UP, Plain(UNUSED, None, NoChan, Dead), Run(0), SPINNING))
    ensures Reached(states, steps,
                    Table(Init(SLEEPING, Other(7), User), Plain(UNUSED, None, NoChan, Dead), Scan(1), SPINNING))
  {
    hide Reached;
    var s0 := Table(UP, Plain(UNUSED, None, NoChan, Dead), Run(0), SPINNING);
    states, steps := states0, steps0;
    var s1 := Table(Init(RUNNING, Other(7), SleepCas), Plain(UNUSED, None, NoChan, Dead), Run(0), SPINNING);
    states, steps := Then(states, steps, s0, Begin(0, CallSleep(7)), s1);
    var s2 := Table(Init(MINUS_SLEEPING, Other(7), Sched(User)), Plain(UNUSED, None, NoChan, Dead), Run(0), SPINNING);
    states, steps := Then(states, steps, s1, Advance(0), s2);
    var s3 := Table(Init(MINUS_SLEEPING, Other(7), User), Plain(UNUSED, None, NoChan, Dead), Settle(0), SPINNING);
    states, steps := Then(states, steps, s2, Swtch(0), s3);
    var s4 := Table(Init(SLEEPING, Other(7), User), Plain(UNUSED, None, NoChan, Dead), Scan(1), SPINNING);
    states, steps := Then(states, steps, s3, SettleStep(0), s4);
  }

  /** There is a run in which a wakeup wakes a process that is asleep on another channel. */
  lemma WakesAnother() returns (states: seq<State>, steps: seq<Step>, i: nat, p: nat)
    ensures W.IsRun(states, steps) && W.Start(states[0]) && i < |steps| && p < NPROC && Shape(states[i])
    ensures Enabled(states[i], steps[i]) && S.WokenBy(states[i], steps[i], p) && S.InSleep(states[i].procs[p])
    ensures S.WakerOf(states[i], steps[i].c).Some?
    ensures S.WakerOf(states[i], steps[i].c).value.chan != states[i].procs[p].chan
  {
    states, steps := Forks();
    states, steps := Born(states, steps);
    states, steps := Exits(states, steps);
    states, steps := Passes(states, steps, 0);
    states, steps := Leaves(states, steps);
    states, steps := Chooses(states, steps);
    states, steps := Reaps(states, steps);
    states, steps := Returns(states, steps);
    states, steps := Sleeps(states, steps);
    var s := Table(Init(SLEEPING, Other(7), User), Plain(UNUSED, None, NoChan, Dead), Scan(1), SPINNING);
    i, p := |steps|, 0;
    states, steps := Then(states, steps, s, WakeStep(1), Next(s, WakeStep(1)));
  }
}
