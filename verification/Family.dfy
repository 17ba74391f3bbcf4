/**
 Whose child a slot is (proc.c). wait and exit read a slot's parent and only later act on it,
 with no lock held in between; still, wait reaps only children of the process that called it,
 exit gives away only children of the process that is exiting, and a free slot has no parent.
 */
module Family {
  import opened ProcTable
  import opened Options
  import W = Wakeups

  /** The child a process has found and is about to reap or give away. */
  function Found(pc: Pc): Option<nat> {
    match pc
    case WaitTry(i) => Some(i)
    case ReapParent(i) => Some(i)
    case ExitHand(i) => Some(i)
    case _ => None
  }

  /** The slot that wait is reaping. */
  function Reaping(pc: Pc): Option<nat> {
    match pc
    case ReapParent(i) => Some(i)
    case ReapChan(i) => Some(i)
    case ReapRun(i) => Some(i)
    case ReapFree(i) => Some(i)
    case _ => None
  }

  /** The slot that fork has yet to give a parent. */
  function Orphan(pc: Pc): Option<nat> {
    match pc
    case ForkInit(i) => Some(i)
    case Sched(ForkInit(i)) => Some(i)
    case Waking(_, ForkInit(i)) => Some(i)
    case _ => None
  }

  /** What process p relies on about the slot that its pc refers to. */
  predicate Relies(procs: seq<Proc>, p: nat)
    requires p < |procs|
  {
    var pc := procs[p].pc;
    && (Found(pc).Some? ==> Found(pc).value < |procs| && procs[Found(pc).value].parent == Some(p))
    && (Reaping(pc).Some? ==> Reaping(pc).value < |procs| && procs[Reaping(pc).value].state.MINUS_UNUSED?)
    && (Reaping(pc).Some? && !pc.ReapParent? ==> procs[Reaping(pc).value].parent.None?)
    && (Orphan(pc).Some? ==> Orphan(pc).value < |procs| && procs[Orphan(pc).value].parent.None?)
  }

  ghost predicate Kin(procs: seq<Proc>, init: nat) {
    && (forall p: nat :: p < |procs| ==> Relies(procs, p))
    && (forall p: nat, q: nat :: p < |procs| && q < |procs| && p != q && Reaping(procs[p].pc).Some? ==>
          Reaping(procs[p].pc) != Reaping(procs[q].pc))
    && (forall i: nat :: i < |procs| ==> procs[i].parent != Some(i))
    && (forall i: nat :: i < |procs| && procs[i].state.UNUSED? ==> procs[i].parent.None?)
    && init < |procs| && procs[init].parent.None? && Lives(procs[init].state)
  }

  /** A state of a process that has started and is not exiting. */
  predicate Lives(st: PState) {
    st.RUNNABLE? || st.RUNNING? || st.SLEEPING? || st.MINUS_SLEEPING? || st.MINUS_RUNNABLE?
  }

  /** A process moves on without finding or reaping anything new. */
  lemma SelfKin(procs: seq<Proc>, init: nat, p: nat, me: Proc)
    requires Kin(procs, init) && p < |procs| && me.parent == procs[p].parent && (p == init ==> Lives(me.state))
    requires me.state.UNUSED? <==> procs[p].state.UNUSED?
    requires me.state.MINUS_UNUSED? <==> procs[p].state.MINUS_UNUSED?
    requires Found(me.pc).Some? ==> Found(me.pc).value < |procs| && procs[Found(me.pc).value].parent == Some(p)
    requires Reaping(me.pc).None?
             || (Reaping(me.pc) == Reaping(procs[p].pc) && (me.pc.ReapParent? <==> procs[p].pc.ReapParent?))
    requires Orphan(me.pc).None? || Orphan(me.pc) == Orphan(procs[p].pc)
    ensures Kin(procs[p := me], init)
  {
    var procs' := procs[p := me];
    forall q: nat | q < |procs| ensures Relies(procs', q) {
      assert Relies(procs, q) && Relies(procs, p);
    }
  }

  /** What process p at pc relies on about slot i holds of record `it`. */
  predicate Suits(pc: Pc, p: nat, i: nat, it: Proc) {
    && (Found(pc) == Some(i) ==> it.parent == Some(p))
    && (Reaping(pc) == Some(i) ==> it.state.MINUS_UNUSED? && (!pc.ReapParent? ==> it.parent.None?))
    && (Orphan(pc) == Some(i) ==> it.parent.None?)
  }

  /** The pc refers to no slot but i. */
  predicate About(pc: Pc, i: nat) {
    (Found(pc).Some? ==> Found(pc) == Some(i)) && (Reaping(pc).Some? ==> Reaping(pc) == Some(i))
    && (Orphan(pc).Some? ==> Orphan(pc) == Some(i))
  }

  /** A process that may change a slot's parent, or its state, is the only one that relies on it. */
  lemma OthersSuit(procs: seq<Proc>, init: nat, p: nat, q: nat, i: nat, it: Proc)
    requires Kin(procs, init) && p < |procs| && i < |procs| && q < |procs| && q != p
    requires || it.parent == procs[i].parent || procs[i].parent == Some(p)
             || (procs[i].state.EMBRYO? && procs[i].parent.None? && Orphan(procs[q].pc) != Some(i))
    requires procs[i].state.MINUS_UNUSED? ==> it.state.MINUS_UNUSED? || Reaping(procs[p].pc) == Some(i)
    ensures Suits(procs[q].pc, q, i, it)
  {
    assert Relies(procs, q);
  }

  lemma StillRelies(procs: seq<Proc>, q: nat, i: nat, it: Proc, p: nat, me: Proc)
    requires p < |procs| && i < |procs| && q < |procs| && q != p && Relies(procs, q) && Suits(procs[q].pc, q, i, it)
    requires i != p && me.parent == procs[p].parent && me.state == procs[p].state
             && (it.pc == procs[i].pc || it.pc.User?)
    ensures Relies(procs[i := it][p := me], q)
  {
  }

  /** Process p changes slot i, on which the others do not rely, and moves on to pc. */
  lemma SlotKin(procs: seq<Proc>, init: nat, p: nat, i: nat, it: Proc, pc: Pc)
    requires Kin(procs, init) && p < |procs| && i < |procs| && i != p && (it.pc == procs[i].pc || it.pc.User?)
    requires forall q: nat :: q < |procs| && q != p ==> Suits(procs[q].pc, q, i, it)
    requires (it.state.UNUSED? ==> it.parent.None?) && it.parent != Some(i)
             && (i == init ==> it.parent.None? && Lives(it.state))
    requires About(pc, i) && Suits(pc, p, i, it)
    requires Reaping(pc).None? || Reaping(pc) == Reaping(procs[p].pc)
             || (Reaping(pc) == Some(i) && procs[i].state.ZOMBIE?)
    ensures Kin(procs[i := it][p := procs[p].(pc := pc)], init)
  {
    var procs' := procs[i := it][p := procs[p].(pc := pc)];
    forall q: nat | q < |procs| && q != p ensures Relies(procs', q) {
      StillRelies(procs, q, i, it, p, procs[p].(pc := pc));
    }
    assert Relies(procs', p);
    forall q: nat | q < |procs| && q != p && Reaping(pc).Some? ensures Reaping(procs'[q].pc) != Reaping(pc) {
      assert Relies(procs, q);
    }
    hide Relies, Suits;
  }

  /** Process p may change slot i to `it` and move on to pc. */
  lemma ChangeKin(s: State, p: nat, i: nat, it: Proc, pc: Pc)
    requires Kin(s.procs, s.init) && |s.procs| == NPROC && p < NPROC && i < NPROC && i != p && i != s.init
    requires it.pc == s.procs[i].pc || it.pc.User?
    requires || it.parent == s.procs[i].parent || s.procs[i].parent == Some(p)
             || (s.procs[i].state.EMBRYO? && s.procs[i].parent.None?
                 && forall q :: 0 <= q < NPROC && q != p ==> Orphan(s.procs[q].pc) != Some(i))
    requires s.procs[i].state.MINUS_UNUSED? ==> it.state.MINUS_UNUSED? || Reaping(s.procs[p].pc) == Some(i)
    requires (it.state.UNUSED? ==> it.parent.None?) && it.parent != Some(i)
    requires About(pc, i) && Suits(pc, p, i, it)
    requires Reaping(pc).None? || Reaping(pc) == Reaping(s.procs[p].pc)
             || (Reaping(pc) == Some(i) && s.procs[i].state.ZOMBIE?)
    ensures Kin(SetPc(s.(procs := s.procs[i := it]), p, pc).procs, s.init)
  {
    forall q: nat | q < NPROC && q != p ensures Suits(s.procs[q].pc, q, i, it) {
      OthersSuit(s.procs, s.init, p, q, i, it);
    }
    hide Kin;
    SlotKin(s.procs, s.init, p, i, it, pc);
  }

  /** The child of a fork in progress is that fork's alone. */
  lemma OwnOrphan(s: State, p: nat, i: nat)
    requires Core(s) && p < NPROC && ChildOf(s.procs[p].pc) == Some(i)
    ensures i < NPROC && s.procs[i].state.EMBRYO?
    ensures forall q :: 0 <= q < NPROC && q != p ==> Orphan(s.procs[q].pc) != Some(i)
  {
    hide Exclusive, Located;
    forall q | 0 <= q < NPROC && q != p ensures ChildOf(s.procs[q].pc) != Some(i) {
    }
  }

  /** fork takes a slot. */
  lemma ForkKin(s: State, c: nat, i: nat)
    requires Core(s) && Kin(s.procs, s.init) && Enabled(s, Begin(c, CallFork(i)))
    ensures Kin(Next(s, Begin(c, CallFork(i))).procs, s.init)
  {
    var p := s.cpus[c].p;
    assert HeldWell(s.cpus[c], s.procs[p]);
    assert Lives(s.procs[s.init].state) && s.procs[i].parent.None?;
    hide Kin, Exclusive, Located, Reserved;
    ChangeKin(s, p, i, s.procs[i].(state := EMBRYO), ForkInit(i));
  }

  /** fork gives its child a parent, and starts it or gives it back. */
  lemma ChildKin(s: State, step: Step)
    requires Core(s) && Kin(s.procs, s.init) && Enabled(s, step)
    requires step.Abort? || step.Advance?
    requires step.Advance? ==> s.procs[s.cpus[step.c].p].pc.ForkInit? || s.procs[s.cpus[step.c].p].pc.ForkReady?
    ensures Kin(Next(s, step).procs, s.init)
  {
    var p := s.cpus[step.c].p;
    var i := s.procs[p].pc.child;
    assert HeldWell(s.cpus[step.c], s.procs[p]) && Relies(s.procs, p);
    OwnOrphan(s, p, i);
    assert Lives(s.procs[s.init].state) && s.procs[i].parent != Some(i);
    hide Kin, Exclusive, Located, Reserved;
    var it := s.procs[i];
    if step.Abort? {
      ChangeKin(s, p, i, it.(state := UNUSED), User);
    } else if s.procs[p].pc.ForkInit? {
      ChangeKin(s, p, i, it.(parent := Some(p)), ForkReady(i));
    } else {
      ChangeKin(s, p, i, it.(state := RUNNABLE, pc := User), User);
    }
  }

  /** The slot a process has found or is reaping is another's, and not init's. */
  lemma OtherSlot(s: State, c: nat)
    requires Core(s) && Kin(s.procs, s.init) && c < |s.cpus| && s.cpus[c].Run?
    ensures var p := s.cpus[c].p; Relies(s.procs, p)
    ensures var p := s.cpus[c].p; Found(s.procs[p].pc).Some? || Reaping(s.procs[p].pc).Some? ==>
              s.procs[p].pc.i != p && s.procs[p].pc.i != s.init && !s.procs[s.procs[p].pc.i].state.UNUSED?
  {
    var p := s.cpus[c].p;
    assert HeldWell(s.cpus[c], s.procs[p]) && Relies(s.procs, p);
    hide Exclusive, Located, Reserved;
  }

  /** wait reaps a child, or exit gives one to init. */
  lemma ReapKin(s: State, c: nat)
    requires Core(s) && Kin(s.procs, s.init) && Enabled(s, Advance(c)) && !OnlySelf(s, s.cpus[c].p)
    requires var pc := s.procs[s.cpus[c].p].pc; pc.WaitTry? || pc.ReapParent? || pc.ReapFree? || pc.ExitHand?
    ensures Kin(Next(s, Advance(c)).procs, s.init)
  {
    hide Kin, Exclusive, Located, Reserved, RunsAt;
    OtherSlot(s, c);
    var p := s.cpus[c].p;
    var pc := s.procs[p].pc;
    var i := pc.i;
    var it := s.procs[i];
    match pc
    case WaitTry(_) => ChangeKin(s, p, i, it.(state := MINUS_UNUSED), ReapParent(i));
    case ReapParent(_) => ChangeKin(s, p, i, it.(parent := None, killed := false), ReapChan(i));
    case ReapFree(_) => ChangeKin(s, p, i, it.(state := UNUSED), User);
    case ExitHand(_) => ChangeKin(s, p, i, it.(parent := Some(s.init)), ExitCheck(i));
  }

  /** An access that changes the process's own record only. */
  lemma OwnKin(s: State, c: nat)
    requires Core(s) && Kin(s.procs, s.init) && Enabled(s, Advance(c)) && OnlySelf(s, s.cpus[c].p)
    ensures Kin(Next(s, Advance(c)).procs, s.init)
  {
    var p := s.cpus[c].p;
    assert HeldWell(s.cpus[c], s.procs[p]) && Relies(s.procs, p);
    SelfRecord(s, p);
    OwnRecord(s, p);
    OwnPlace(s, p);
    hide Kin, Exclusive, Located, Reserved, AdvanceProc, RunsAt, OnlySelf;
    SelfKin(s.procs, s.init, p, AdvanceProc(s, p).procs[p]);
  }

  lemma OwnRecord(s: State, p: nat)
    requires |s.procs| == NPROC && s.init < NPROC && p < NPROC
    requires SlotOf(s.procs[p].pc).Some? ==> SlotOf(s.procs[p].pc).value < NPROC
    requires OnlySelf(s, p) && RunsAt(s.procs[p].pc, s.procs[p].state) && !s.procs[p].pc.User? && !s.procs[p].pc.Sched?
    ensures var me, me' := s.procs[p], AdvanceProc(s, p).procs[p];
            && me'.parent == me.parent && HeldState(me.state) && HeldState(me'.state)
            && (Lives(me.state) ==> Lives(me'.state))
  {
  }

  lemma OwnPlace(s: State, p: nat)
    requires |s.procs| == NPROC && s.init < NPROC && p < NPROC
    requires SlotOf(s.procs[p].pc).Some? ==> SlotOf(s.procs[p].pc).value < NPROC
    requires OnlySelf(s, p) && RunsAt(s.procs[p].pc, s.procs[p].state) && !s.procs[p].pc.User? && !s.procs[p].pc.Sched?
    ensures var pc, pc' := s.procs[p].pc, AdvanceProc(s, p).procs[p].pc;
            && (Found(pc').Some? ==> Found(pc').value < NPROC && s.procs[Found(pc').value].parent == Some(p))
            && (Reaping(pc').None? || (Reaping(pc') == Reaping(pc) && (pc'.ReapParent? <==> pc.ReapParent?)))
            && (Orphan(pc').None? || Orphan(pc') == Orphan(pc))
  {
  }

  /** wakeup1 makes a sleeper runnable. */
  lemma WakerKin(s: State, w: Waker)
    requires Kin(s.procs, s.init) && |s.procs| == NPROC && WakerEnabled(s.procs, w)
    ensures Kin(WakerProcs(s.procs, w), s.init)
  {
    if WakerProcs(s.procs, w) != s.procs {
      var it := s.procs[w.slot];
      assert Relies(s.procs, w.slot);
      hide Kin;
      SelfKin(s.procs, s.init, w.slot, it.(state := RUNNABLE));
    }
  }

  /** The process in slot p changes state, neither becoming free nor, if it is init, exiting. */
  lemma StateKin(s: State, p: nat, me: Proc)
    requires Kin(s.procs, s.init) && |s.procs| == NPROC && p < NPROC
    requires me.parent == s.procs[p].parent && me.pc == s.procs[p].pc
    requires HeldState(s.procs[p].state) || s.procs[p].state.RUNNABLE?
    requires HeldState(me.state) || me.state.RUNNABLE? || me.state.SLEEPING? || me.state.ZOMBIE?
    requires Lives(s.procs[p].state) ==> Lives(me.state)
    ensures Kin(s.procs[p := me], s.init)
  {
    assert Relies(s.procs, p) && Lives(s.procs[s.init].state);
    hide Kin;
    SelfKin(s.procs, s.init, p, me);
  }

  /** A process is picked or put back. */
  lemma PickKin(s: State, step: Step)
    requires Core(s) && Kin(s.procs, s.init) && Enabled(s, step) && (step.TryPick? || step.Dispatch?)
    ensures Kin(Next(s, step).procs, s.init)
  {
    var cpu := s.cpus[step.c];
    if Holds(cpu) { assert HeldWell(cpu, s.procs[cpu.p]); }
    hide Kin, Exclusive, Located, Reserved;
    var procs' := Next(s, step).procs;
    var p := if step.Dispatch? then cpu.p else cpu.i;
    if p < NPROC && procs' != s.procs { StateKin(s, p, procs'[p]); }
  }

  /** A process is settled. */
  lemma SettleKin(s: State, c: nat)
    requires Core(s) && Kin(s.procs, s.init) && Enabled(s, SettleStep(c))
    ensures Kin(Next(s, SettleStep(c)).procs, s.init)
  {
    var p := s.cpus[c].p;
    assert HeldWell(s.cpus[c], s.procs[p]);
    hide Kin, Exclusive, Located, Reserved;
    StateKin(s, p, Next(s, SettleStep(c)).procs[p]);
  }

  /** A process leaves for the scheduler. */
  lemma LeaveKin(s: State, step: Step)
    requires Core(s) && Kin(s.procs, s.init) && Enabled(s, step) && (step.Preempt? || step.Swtch?)
    ensures Kin(Next(s, step).procs, s.init)
  {
    var p := s.cpus[step.c].p;
    assert HeldWell(s.cpus[step.c], s.procs[p]) && Relies(s.procs, p) && Lives(s.procs[s.init].state);
    hide Kin, Exclusive, Located, Reserved;
    SelfKin(s.procs, s.init, p, Next(s, step).procs[p]);
  }

  lemma BeginKin(s: State, c: nat, call: Call)
    requires Core(s) && Kin(s.procs, s.init) && Enabled(s, Begin(c, call)) && !call.CallFork?
    ensures Kin(Next(s, Begin(c, call)).procs, s.init)
  {
    var p := s.cpus[c].p;
    assert HeldWell(s.cpus[c], s.procs[p]);
    assert s.procs[p].state.RUNNING?;
    hide Kin, Exclusive, Located, Reserved, RunsAt, Relies;
    SelfKin(s.procs, s.init, p, Next(s, Begin(c, call)).procs[p]);
  }

  lemma AdvanceKin(s: State, c: nat)
    requires Core(s) && Kin(s.procs, s.init) && Enabled(s, Advance(c))
    ensures Kin(Next(s, Advance(c)).procs, s.init)
  {
    var p := s.cpus[c].p;
    var pc := s.procs[p].pc;
    hide Kin, Exclusive, Located, Reserved, RunsAt;
    if OnlySelf(s, p) {
      OwnKin(s, c);
    } else if pc.Waking? {
      WakerKin(s, pc.w);
      var procs' := WakerProcs(s.procs, pc.w);
      SelfKin(procs', s.init, p, procs'[p].(pc := Waking(WakerNext(s.procs, pc.w), pc.resume)));
    } else if pc.ForkInit? || pc.ForkReady? {
      ChildKin(s, Advance(c));
    } else {
      ReapKin(s, c);
    }
  }

  lemma StepKin(s: State, step: Step)
    requires Core(s) && Kin(s.procs, s.init) && Enabled(s, step)
    ensures Kin(Next(s, step).procs, s.init)
  {
    hide Kin, Exclusive, Located, Reserved;
    match step
    case Advance(c) => AdvanceKin(s, c);
    case WakeStep(c) => if s.cpus[c].w.slot < NPROC { WakerKin(s, s.cpus[c].w); }
    case Abort(_) => ChildKin(s, step);
    case Begin(c, call) => if call.CallFork? { ForkKin(s, c, call.child); } else { BeginKin(s, c, call); }
    case Preempt(_) => LeaveKin(s, step);
    case Swtch(_) => LeaveKin(s, step);
    case SettleStep(c) => SettleKin(s, c);
    case TryPick(_) => PickKin(s, step);
    case Dispatch(_, _) => PickKin(s, step);
    case Interrupt(_, _) =>
  }

  // ---- Whole runs ------------------------------------------------------------------------

  lemma StartKin(s: State)
    requires W.Start(s)
    ensures Kin(s.procs, s.init)
  {
  }

  lemma {:induction false} RunKin(states: seq<State>, steps: seq<Step>, k: nat)
    requires W.IsRun(states, steps) && W.Start(states[0]) && k < |states|
    ensures Core(states[k]) && Kin(states[k].procs, states[k].init)
  {
    hide Kin, Core, Next, W.NoneLost, W.ChanSet;
    W.RunKeeps(states, steps, k);
    if k == 0 {
      StartKin(states[0]);
    } else {
      RunKin(states, steps, k - 1);
      StepKin(states[k - 1], steps[k - 1]);
      SameInit(states[k - 1], steps[k - 1]);
    }
  }

  lemma SameInit(s: State, step: Step)
    requires W.CanStep(s, step)
    ensures Next(s, step).init == s.init
  {
  }

  /** The process running on c is p. */
  predicate RunsOn(s: State, c: nat, p: nat) {
    c < |s.cpus| && s.cpus[c] == Run(p)
  }

  /** How the parent of slot i may change: fork sets its own child's, exit gives its own child to init, and
      wait clears that of the child it reaps. */
  ghost predicate OwnParent(s: State, c: nat, i: nat, parent: Option<nat>)
    requires i < |s.procs|
  {
    || parent == s.procs[i].parent
    || (s.procs[i].parent.None? && parent.Some? && RunsOn(s, c, parent.value))
    || (s.procs[i].parent.Some? && RunsOn(s, c, s.procs[i].parent.value) && (parent == Some(s.init) || parent.None?))
  }

  /** A zombie that stops being one is being reaped by its parent. */
  ghost predicate OwnZombie(s: State, c: nat, i: nat, st: PState)
    requires i < |s.procs|
  {
    s.procs[i].state.ZOMBIE? && !st.ZOMBIE? ==>
      st.MINUS_UNUSED? && s.procs[i].parent.Some? && RunsOn(s, c, s.procs[i].parent.value)
  }

  lemma AdvanceParent(s: State, p: nat, i: nat)
    requires |s.procs| == NPROC && s.init < NPROC && p < NPROC && i < NPROC && Relies(s.procs, p)
    requires SlotOf(s.procs[p].pc).Some? ==> SlotOf(s.procs[p].pc).value < NPROC
    requires RunsAt(s.procs[p].pc, s.procs[p].state) && !s.procs[p].pc.User? && !s.procs[p].pc.Sched?
    ensures var it, it' := s.procs[i], AdvanceProc(s, p).procs[i];
            || it'.parent == it.parent || (it.parent.None? && it'.parent == Some(p))
            || (it.parent == Some(p) && (it'.parent == Some(s.init) || it'.parent.None?))
  {
    if OnlySelf(s, p) {
      SelfRecord(s, p);
      OwnRecord(s, p);
      hide AdvanceProc;
    } else {
      hide RunsAt;
    }
  }

  lemma AdvanceZombie(s: State, p: nat, i: nat)
    requires |s.procs| == NPROC && s.init < NPROC && p < NPROC && i < NPROC && Relies(s.procs, p)
    requires SlotOf(s.procs[p].pc).Some? ==> SlotOf(s.procs[p].pc).value < NPROC
    requires HeldState(s.procs[p].state)
    ensures var it, it' := s.procs[i], AdvanceProc(s, p).procs[i];
            it.state.ZOMBIE? && !it'.state.ZOMBIE? ==> it'.state.MINUS_UNUSED? && it.parent == Some(p)
  {
  }

  lemma OtherParent(s: State, step: Step, i: nat)
    requires Core(s) && Enabled(s, step) && i < NPROC && !step.Advance?
    ensures var it, it' := s.procs[i], Next(s, step).procs[i];
            it'.parent == it.parent && (it.state.ZOMBIE? ==> it'.state.ZOMBIE?)
  {
    var cpu := s.cpus[step.c];
    if Holds(cpu) { assert HeldWell(cpu, s.procs[cpu.p]); }
    if step.Abort? { assert ChildOf(s.procs[cpu.p].pc) == Some(s.procs[cpu.p].pc.child); }
    hide Exclusive, Located, Reserved;
  }

  lemma StepParent(s: State, step: Step, i: nat)
    requires Core(s) && Kin(s.procs, s.init) && Enabled(s, step) && i < NPROC
    ensures var s' := Next(s, step);
            |s'.procs| == NPROC && OwnParent(s, step.c, i, s'.procs[i].parent)
              && OwnZombie(s, step.c, i, s'.procs[i].state)
  {
    CoreStep(s, step);
    if step.Advance? {
      var p := s.cpus[step.c].p;
      assert HeldWell(s.cpus[step.c], s.procs[p]) && HeldBy(s, p, step.c) && Relies(s.procs, p);
      hide Exclusive, Located, Reserved, Kin, AdvanceProc;
      AdvanceParent(s, p, i);
      AdvanceZombie(s, p, i);
    } else {
      hide Exclusive, Located, Reserved, Kin;
      OtherParent(s, step, i);
    }
  }

  /**
   In every run: a slot's parent changes only as OwnParent says, a zombie leaves the table only when its
   own parent reaps it, and a free slot has no parent.
   */
  lemma OwnChildren(states: seq<State>, steps: seq<Step>, k: nat, i: nat)
    requires W.IsRun(states, steps) && W.Start(states[0]) && k < |steps| && i < NPROC
    ensures |states[k].procs| == |states[k + 1].procs| == NPROC
    ensures OwnParent(states[k], steps[k].c, i, states[k + 1].procs[i].parent)
    ensures OwnZombie(states[k], steps[k].c, i, states[k + 1].procs[i].state)
    ensures states[k].procs[i].state.UNUSED? ==> states[k].procs[i].parent.None?
  {
    hide Next, Exclusive, Located, Reserved;
    RunKin(states, steps, k);
    StepParent(states[k], steps[k], i);
  }
}
