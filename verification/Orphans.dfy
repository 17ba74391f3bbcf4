/**
 exit gives its children away (proc.c): in every run, whoever is some slot's parent is a process
 that is there and has not got past that slot in exit, so that a process becomes a zombie with no
 child left, and the children it had are init's or have been reaped.
 */
module Orphans {
  import opened ProcTable
  import opened Options
  import F = Family
  import W = Wakeups

  /** How far a process has got in giving its children away. */
  function GivenTo(pc: Pc): nat {
    match pc
    case ExitSlot(i) => i
    case ExitHand(i) => i
    case ExitCheck(i) => i + 1
    case Waking(_, ExitSlot(i)) => i
    case Sched(Dead) => NPROC
    case Dead => NPROC
    case _ => 0
  }

  /** A process that may still have slot i as a child. */
  predicate Tends(me: Proc, i: nat) {
    && !me.state.UNUSED? && !me.state.MINUS_UNUSED? && !me.state.EMBRYO? && !me.state.ZOMBIE?
    && GivenTo(me.pc) <= i
  }

  ghost predicate Tended(s: State) {
    forall i: nat, q: nat :: i < |s.procs| && s.procs[i].parent == Some(q) ==> q < |s.procs| && Tends(s.procs[q], i)
  }

  predicate Exiting(pc: Pc) {
    pc.ExitSlot? || pc.ExitHand? || pc.ExitCheck? || (pc.Waking? && pc.resume.ExitSlot?)
  }

  /** A process that has not called exit has given nothing away. */
  lemma NotExiting(s: State, q: nat)
    requires |s.procs| == NPROC && s.init < NPROC && q < NPROC
    requires SlotOf(s.procs[q].pc).Some? ==> SlotOf(s.procs[q].pc).value < NPROC
    requires RunsAt(s.procs[q].pc, s.procs[q].state) && !s.procs[q].pc.User? && !s.procs[q].pc.Sched?
    requires !Exiting(s.procs[q].pc)
    ensures |AdvanceProc(s, q).procs| == NPROC && GivenTo(AdvanceProc(s, q).procs[q].pc) == 0
  {
  }

  /** exit passes a slot only once it is not the child of the process that exits. */
  lemma GivesAway(s: State, q: nat, i: nat)
    requires |s.procs| == NPROC && s.init < NPROC && q < NPROC && i < NPROC && q != s.init
    requires SlotOf(s.procs[q].pc).Some? ==> SlotOf(s.procs[q].pc).value < NPROC
    requires Exiting(s.procs[q].pc) && s.procs[i].parent == Some(q) && GivenTo(s.procs[q].pc) <= i
    ensures |AdvanceProc(s, q).procs| == NPROC
    ensures AdvanceProc(s, q).procs[i].parent == Some(q) ==> GivenTo(AdvanceProc(s, q).procs[q].pc) <= i
  {
  }

  /** The state of a process that makes an access stays one in which a CPU holds it. */
  lemma StaysHeld(s: State, q: nat)
    requires |s.procs| == NPROC && s.init < NPROC && q < NPROC && F.Relies(s.procs, q)
    requires SlotOf(s.procs[q].pc).Some? ==> SlotOf(s.procs[q].pc).value < NPROC
    requires RunsAt(s.procs[q].pc, s.procs[q].state) && !s.procs[q].pc.User? && !s.procs[q].pc.Sched?
    requires F.Reaping(s.procs[q].pc) != Some(q) && ChildOf(s.procs[q].pc) != Some(q)
    ensures |AdvanceProc(s, q).procs| == NPROC && HeldState(AdvanceProc(s, q).procs[q].state)
  {
    if OnlySelf(s, q) {
      SelfRecord(s, q);
      hide AdvanceProc;
    }
  }

  /** A process that lives is not exiting. */
  lemma LivesTends(s: State, q: nat)
    requires Core(s) && q < NPROC && F.Lives(s.procs[q].state)
    ensures GivenTo(s.procs[q].pc) == 0
  {
    if HeldState(s.procs[q].state) {
      var c: nat :| HeldBy(s, q, c);
      assert HeldWell(s.cpus[c], s.procs[q]);
    } else {
      assert FreeWell(s.procs[q]);
    }
  }

  /** Another process's access does nothing to a process that is there but make it runnable. */
  lemma OthersTend(s: State, p: nat, q: nat, i: nat)
    requires |s.procs| == NPROC && s.init < NPROC && p < NPROC && q < NPROC && q != p && Tends(s.procs[q], i)
    requires SlotOf(s.procs[p].pc).Some? ==> SlotOf(s.procs[p].pc).value < NPROC
    requires F.Relies(s.procs, p)
    requires ChildOf(s.procs[p].pc) == Some(q) ==> s.procs[q].state.EMBRYO?
    ensures |AdvanceProc(s, p).procs| == NPROC && Tends(AdvanceProc(s, p).procs[q], i)
  {
  }

  lemma BeginTends(s: State, c: nat, call: Call, q: nat, i: nat)
    requires Core(s) && Enabled(s, Begin(c, call)) && q < NPROC && i < NPROC && Tends(s.procs[q], i)
    ensures |Next(s, Begin(c, call)).procs| == NPROC && Tends(Next(s, Begin(c, call)).procs[q], i)
  {
    assert HeldWell(s.cpus[c], s.procs[s.cpus[c].p]);
    hide Exclusive, Located, Reserved;
  }

  lemma SchedTends(s: State, step: Step, q: nat, i: nat)
    requires Core(s) && Enabled(s, step) && q < NPROC && i < NPROC && Tends(s.procs[q], i)
    requires step.TryPick? || step.Dispatch? || step.Interrupt? || step.WakeStep? || step.SettleStep?
    ensures |Next(s, step).procs| == NPROC && Tends(Next(s, step).procs[q], i)
  {
    var cpu := s.cpus[step.c];
    if Holds(cpu) { assert HeldWell(cpu, s.procs[cpu.p]); }
    hide Exclusive, Located, Reserved, GivenTo;
    assert GivenTo(Dead) == NPROC;
  }

  lemma LeaveTends(s: State, step: Step, q: nat, i: nat)
    requires Core(s) && Enabled(s, step) && q < NPROC && i < NPROC && Tends(s.procs[q], i)
    requires step.Preempt? || step.Swtch? || step.Abort?
    ensures |Next(s, step).procs| == NPROC && Tends(Next(s, step).procs[q], i)
  {
    var p := s.cpus[step.c].p;
    assert HeldWell(s.cpus[step.c], s.procs[p]);
    if step.Abort? { assert ChildOf(s.procs[p].pc) == Some(s.procs[p].pc.child); }
    hide Exclusive, Located, Reserved;
  }

  lemma OtherSteps(s: State, step: Step, q: nat, i: nat)
    requires Core(s) && Enabled(s, step) && !step.Advance? && q < NPROC && i < NPROC && Tends(s.procs[q], i)
    ensures |Next(s, step).procs| == NPROC && Tends(Next(s, step).procs[q], i)
  {
    hide Next, Exclusive, Located, Reserved, Tends;
    match step
    case Begin(c, call) => BeginTends(s, c, call, q, i);
    case Preempt(_) => LeaveTends(s, step, q, i);
    case Swtch(_) => LeaveTends(s, step, q, i);
    case Abort(_) => LeaveTends(s, step, q, i);
    case _ => SchedTends(s, step, q, i);
  }

  /** The process whose access this is. */
  lemma AdvanceTends(s: State, c: nat, i: nat)
    requires Core(s) && F.Kin(s.procs, s.init) && Enabled(s, Advance(c)) && i < NPROC && s.cpus[c].p != s.init
    requires var q := s.cpus[c].p; s.procs[i].parent == Some(q) ==> Tends(s.procs[q], i)
    ensures var q, procs' := s.cpus[c].p, Next(s, Advance(c)).procs;
            |procs'| == NPROC && (procs'[i].parent == Some(q) ==> Tends(procs'[q], i))
  {
    var q := s.cpus[c].p;
    assert HeldWell(s.cpus[c], s.procs[q]) && F.Relies(s.procs, q);
    F.OtherSlot(s, c);
    if ChildOf(s.procs[q].pc).Some? { F.OwnOrphan(s, q, ChildOf(s.procs[q].pc).value); }
    StaysHeld(s, q);
    F.AdvanceParent(s, q, i);
    if !Exiting(s.procs[q].pc) {
      NotExiting(s, q);
    } else {
      ExitAdopts(s, q, i);
      if s.procs[i].parent == Some(q) { GivesAway(s, q, i); }
    }
    hide AdvanceProc, Exclusive, Located, Reserved, F.Kin;
  }

  /** A process that exits takes no child. */
  lemma ExitAdopts(s: State, q: nat, i: nat)
    requires |s.procs| == NPROC && s.init < NPROC && q < NPROC && i < NPROC && q != s.init
    requires SlotOf(s.procs[q].pc).Some? ==> SlotOf(s.procs[q].pc).value < NPROC
    requires Exiting(s.procs[q].pc)
    ensures |AdvanceProc(s, q).procs| == NPROC
    ensures AdvanceProc(s, q).procs[i].parent == Some(q) ==> s.procs[i].parent == Some(q)
  {
  }

  lemma InitTends(s: State)
    requires Core(s) && F.Kin(s.procs, s.init)
    ensures forall i: nat :: Tends(s.procs[s.init], i)
  {
    LivesTends(s, s.init);
  }

  lemma StepTends(s: State, step: Step, i: nat, q: nat)
    requires Core(s) && F.Kin(s.procs, s.init) && Tended(s) && Enabled(s, step) && i < NPROC
    requires |Next(s, step).procs| == NPROC && Next(s, step).procs[i].parent == Some(q)
    ensures q < NPROC && Tends(Next(s, step).procs[q], i)
  {
    hide Next, Exclusive, Located, Reserved, F.Kin, Tends;
    if q == s.init {
      CoreStep(s, step);
      F.StepKin(s, step);
      F.SameInit(s, step);
      InitTends(Next(s, step));
    } else if !step.Advance? {
      F.OtherParent(s, step, i);
      OtherSteps(s, step, q, i);
    } else if s.cpus[step.c].p == q {
      AdvanceTends(s, step.c, i);
    } else {
      F.StepParent(s, step, i);
      OtherAdvance(s, step.c, q, i);
    }
  }

  lemma OtherAdvance(s: State, c: nat, q: nat, i: nat)
    requires Core(s) && F.Kin(s.procs, s.init) && Enabled(s, Advance(c)) && q < NPROC && q != s.cpus[c].p
             && Tends(s.procs[q], i)
    ensures |Next(s, Advance(c)).procs| == NPROC && Tends(Next(s, Advance(c)).procs[q], i)
  {
    var p := s.cpus[c].p;
    assert F.Relies(s.procs, p);
    OthersTend(s, p, q, i);
  }

  lemma StepTended(s: State, step: Step)
    requires Core(s) && F.Kin(s.procs, s.init) && Tended(s) && Enabled(s, step)
    ensures Tended(Next(s, step))
  {
    hide Next, F.Kin, Exclusive, Located, Reserved, Tends, Enabled, SlotsInRange;
    CoreStep(s, step);
    var s' := Next(s, step);
    forall i: nat, q: nat | i < |s'.procs| && s'.procs[i].parent == Some(q)
      ensures q < |s'.procs| && Tends(s'.procs[q], i) {
      StepTends(s, step, i, q);
    }
  }

  // ---- Whole runs -----------------------------------------------------------------------

  lemma {:induction false} RunTended(states: seq<State>, steps: seq<Step>, k: nat)
    requires W.IsRun(states, steps) && W.Start(states[0]) && k < |states|
    ensures Core(states[k]) && F.Kin(states[k].procs, states[k].init) && Tended(states[k])
  {
    hide F.Kin, Core, Next;
    F.RunKin(states, steps, k);
    if k > 0 {
      RunTended(states, steps, k - 1);
      StepTended(states[k - 1], steps[k - 1]);
    }
  }

  /**
   In every run a slot's parent is a process that is there and, if it is in exit, has not come to that
   slot; so no slot is the child of a process that has become a zombie, or of a free slot.
   */
  lemma ParentThere(states: seq<State>, steps: seq<Step>, k: nat, i: nat, q: nat)
    requires W.IsRun(states, steps) && W.Start(states[0]) && k < |states| && i < NPROC
    requires |states[k].procs| == NPROC && states[k].procs[i].parent == Some(q)
    ensures q < NPROC
    ensures var me := states[k].procs[q];
            && !me.state.UNUSED? && !me.state.MINUS_UNUSED? && !me.state.EMBRYO? && !me.state.ZOMBIE?
            && !me.pc.Dead? && me.pc != Sched(Dead) && (me.pc.ExitSlot? || me.pc.ExitHand? ==> me.pc.i <= i)
  {
    hide F.Kin, Next, Exclusive, Located, Reserved;
    RunTended(states, steps, k);
  }

  /** Slot i was p's, and is init's or still p's unless it has been reaped. */
  lemma {:induction false} StaysOrGoes(states: seq<State>, steps: seq<Step>, a: nat, b: nat, i: nat, p: nat)
    requires W.IsRun(states, steps) && W.Start(states[0]) && a <= b < |states| && i < NPROC
    requires |states[a].procs| == NPROC && states[a].procs[i].parent == Some(p)
    ensures |states[b].procs| == NPROC
    ensures || states[b].procs[i].parent == Some(p) || states[b].procs[i].parent == Some(states[b].init)
            || exists k :: a <= k < b && |states[k].procs| == NPROC && states[k].procs[i].state.MINUS_UNUSED?
    decreases b - a
  {
    hide F.Kin, Next, Exclusive, Located, Reserved;
    if a < b {
      StaysOrGoes(states, steps, a, b - 1, i, p);
      RunTended(states, steps, b - 1);
      F.StepParent(states[b - 1], steps[b - 1], i);
      F.SameInit(states[b - 1], steps[b - 1]);
      ReapedOnly(states[b - 1], steps[b - 1], i);
    }
  }

  /** A slot that loses its parent is being reaped. */
  lemma ReapedOnly(s: State, step: Step, i: nat)
    requires Core(s) && F.Kin(s.procs, s.init) && Enabled(s, step) && i < NPROC
    ensures |Next(s, step).procs| == NPROC
    ensures s.procs[i].parent.Some? && Next(s, step).procs[i].parent.None? ==> s.procs[i].state.MINUS_UNUSED?
  {
    if step.Advance? {
      var p := s.cpus[step.c].p;
      assert F.Relies(s.procs, p);
      LosesParent(s, p, i);
    } else {
      F.OtherParent(s, step, i);
    }
  }

  lemma LosesParent(s: State, p: nat, i: nat)
    requires |s.procs| == NPROC && s.init < NPROC && p < NPROC && i < NPROC && F.Relies(s.procs, p)
    requires SlotOf(s.procs[p].pc).Some? ==> SlotOf(s.procs[p].pc).value < NPROC
    ensures |AdvanceProc(s, p).procs| == NPROC
    ensures s.procs[i].parent.Some? && AdvanceProc(s, p).procs[i].parent.None? ==> s.procs[i].state.MINUS_UNUSED?
  {
  }

  /**
   exit's children are handed over: a slot that was the child of a process is, when that process is a
   zombie, init's, or has been reaped in between.
   */
  lemma HandedOver(states: seq<State>, steps: seq<Step>, a: nat, b: nat, i: nat, p: nat)
    requires W.IsRun(states, steps) && W.Start(states[0]) && a <= b < |states| && i < NPROC && p < NPROC
    requires |states[a].procs| == |states[b].procs| == NPROC
    requires states[a].procs[i].parent == Some(p) && states[b].procs[p].state.ZOMBIE?
    ensures || states[b].procs[i].parent == Some(states[b].init)
            || exists k :: a <= k < b && |states[k].procs| == NPROC && states[k].procs[i].state.MINUS_UNUSED?
  {
    hide F.Kin, Next, Exclusive, Located, Reserved;
    StaysOrGoes(states, steps, a, b, i, p);
    if states[b].procs[i].parent == Some(p) { ParentThere(states, steps, b, i, p); }
  }
}
