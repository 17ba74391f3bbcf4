/**
 No lost wakeup between exit and wait (proc.c): in every run, a parent asleep in wait, or
 on its way there past a child's slot, does not have that child as a zombie unless some
 CPU still has to reach the parent's slot in wakeup1.
 */
module Wakeups {
  import opened ProcTable
  import opened Options

  /** In wait's scan, or asleep in wait. */
  predicate Waiting(me: Proc) {
    || me.pc.WaitRead? || me.pc.WaitTry? || me.pc == Sched(WaitTop)
    || (me.pc.WaitTop? && (me.state.MINUS_SLEEPING? || me.state.SLEEPING?))
  }

  /** In wait with slot c already behind it. */
  predicate Passed(me: Proc, c: nat) {
    Waiting(me) && (me.pc.WaitRead? || me.pc.WaitTry? ==> c < me.pc.i)
  }

  /** P has missed, so far, that its child c is a zombie. */
  ghost predicate Missed(s: State, P: nat, c: nat) {
    && P < |s.procs| && c < |s.procs|
    && Passed(s.procs[P], c) && s.procs[c].parent == Some(P) && s.procs[c].state.ZOMBIE?
  }

  predicate Reaches(w: Waker, P: nat) {
    w.chan == OnProc(P) && w.slot <= P
  }

  /** CPU k is in a wakeup1 that has yet to deal with P, or is in exit about to start one. */
  ghost predicate PendingOn(s: State, k: nat, P: nat, c: nat) {
    && k < |s.cpus|
    && match s.cpus[k]
       case Wake(w, _) => Reaches(w, P)
       case Run(q) => q < |s.procs| && (match s.procs[q].pc
                                        case Waking(w, _) => Reaches(w, P)
                                        case ExitCheck(i) => i == c && P == s.init
                                        case _ => false)
       case _ => false
  }

  ghost predicate NoneLost(s: State) {
    forall P: nat, c: nat :: Missed(s, P, c) ==> exists k :: PendingOn(s, k, P, c)
  }

  /** A process in wait sleeps on itself. */
  ghost predicate ChanSet(s: State) {
    forall p :: 0 <= p < |s.procs| && Waiting(s.procs[p]) ==> s.procs[p].chan == OnProc(p)
  }

  ghost predicate Inv(s: State) {
    Core(s) && ChanSet(s) && NoneLost(s)
  }

  lemma WaitingAsleep(s: State, p: nat)
    requires Core(s) && p < NPROC && Waiting(s.procs[p])
    ensures s.procs[p].state.MINUS_SLEEPING? || s.procs[p].state.SLEEPING?
  {
    if HeldState(s.procs[p].state) {
      var c: nat :| HeldBy(s, p, c);
      assert HeldWell(s.cpus[c], s.procs[p]);
    } else {
      assert FreeWell(s.procs[p]);
    }
  }

  // ---- Steps that start no wakeup and finish none ----------------------------------

  /** Nothing new is missed and every pending wakeup is still pending. */
  ghost predicate Quietly(s: State, s': State) {
    && (forall P: nat, c: nat :: Missed(s', P, c) ==> Missed(s, P, c))
    && (forall k: nat, P: nat, c: nat :: PendingOn(s, k, P, c) ==> PendingOn(s', k, P, c))
  }

  lemma QuietlyKeeps(s: State, s': State)
    requires NoneLost(s) && Quietly(s, s')
    ensures NoneLost(s')
  {
    forall P: nat, c: nat | Missed(s', P, c) ensures exists k :: PendingOn(s', k, P, c) {
      var k :| PendingOn(s, k, P, c);
      assert PendingOn(s', k, P, c);
    }
  }

  lemma QuietScheduler(s: State, step: Step)
    requires Core(s) && Enabled(s, step) && (step.TryPick? || step.Dispatch? || step.Interrupt?)
    ensures Quietly(s, Next(s, step))
  {
  }

  /** The process on c, which is in no wakeup, changes its own record only. */
  lemma QuietSelf(s: State, c: nat, cpu: Cpu, me: Proc)
    requires Shape(s) && Exclusive(s) && c < |s.cpus| && Holds(s.cpus[c]) && Holds(cpu) && cpu.p == s.cpus[c].p
    requires s.cpus[c].Run? ==> !s.procs[cpu.p].pc.Waking? && !s.procs[cpu.p].pc.ExitCheck?
    requires me.state.ZOMBIE? ==> s.procs[cpu.p].state.ZOMBIE? && me.parent == s.procs[cpu.p].parent
    requires forall i: nat ::
               i < NPROC && Passed(me, i) && s.procs[i].parent == Some(cpu.p) && s.procs[i].state.ZOMBIE? ==>
                 Passed(s.procs[cpu.p], i)
    ensures Quietly(s, s.(procs := s.procs[cpu.p := me], cpus := s.cpus[c := cpu]))
  {
    var s' := s.(procs := s.procs[cpu.p := me], cpus := s.cpus[c := cpu]);
    assert HeldBy(s, cpu.p, c);
    forall k: nat, P: nat, i: nat | PendingOn(s, k, P, i) ensures PendingOn(s', k, P, i) {
      if s.cpus[k].Run? && k != c { assert HeldBy(s, s.cpus[k].p, k); }
    }
  }

  /** A change to a slot that is not running and makes no new zombie child. */
  lemma QuietSlot(s: State, i: nat, it: Proc)
    requires Shape(s) && Exclusive(s) && i < NPROC && (!HeldState(s.procs[i].state) || it.pc == s.procs[i].pc)
    requires it.state.ZOMBIE? ==> s.procs[i].state.ZOMBIE? && (it.parent == s.procs[i].parent || it.parent.None?)
    requires forall c: nat :: Passed(it, c) ==> Passed(s.procs[i], c)
    ensures Quietly(s, s.(procs := s.procs[i := it]))
  {
    var s' := s.(procs := s.procs[i := it]);
    forall k: nat, P: nat, c: nat | PendingOn(s, k, P, c) ensures PendingOn(s', k, P, c) {
      if s.cpus[k].Run? { assert HeldBy(s, s.cpus[k].p, k); }
    }
  }

  lemma QuietTwice(s: State, s1: State, s2: State)
    requires Quietly(s, s1) && Quietly(s1, s2)
    ensures Quietly(s, s2)
  {
  }

  lemma QuietLeave(s: State, step: Step)
    requires Core(s) && Enabled(s, step) && (step.Preempt? || step.Swtch?)
    ensures Quietly(s, Next(s, step))
  {
    var c := step.c;
    var p := s.cpus[c].p;
    assert HeldWell(s.cpus[c], s.procs[p]);
    hide Exclusive, Located, Reserved;
    var s' := Next(s, step);
    QuietSelf(s, c, s'.cpus[c], s'.procs[p]);
    assert s'.cpus == s.cpus[c := s'.cpus[c]];
  }

  lemma QuietBegin(s: State, c: nat, call: Call)
    requires Core(s) && Enabled(s, Begin(c, call)) && !call.CallFork?
    ensures Quietly(s, Next(s, Begin(c, call)))
  {
    var p := s.cpus[c].p;
    assert HeldWell(s.cpus[c], s.procs[p]);
    hide Exclusive, Located, Reserved;
    var s' := Next(s, Begin(c, call));
    QuietSelf(s, c, s'.cpus[c], s'.procs[p]);
    assert s'.cpus == s.cpus[c := s'.cpus[c]];
  }

  /** An access, outside wakeup1 and exit, that changes only the process's own record. */
  lemma QuietAdvanceSelf(s: State, c: nat)
    requires Core(s) && Enabled(s, Advance(c)) && OnlySelf(s, s.cpus[c].p)
    requires var pc := s.procs[s.cpus[c].p].pc; !pc.Waking? && !pc.ExitCheck?
    ensures Quietly(s, Next(s, Advance(c)))
  {
    var p := s.cpus[c].p;
    assert HeldWell(s.cpus[c], s.procs[p]);
    SelfRecord(s, p);
    PassesOnlyOthers(s, p);
    hide Exclusive, Located, Reserved, AdvanceProc, RunsAt, OnlySelf;
    var s' := Next(s, Advance(c));
    QuietSelf(s, c, s.cpus[c], s'.procs[p]);
    assert s'.cpus == s.cpus[c := s.cpus[c]];
  }

  /** wait's scan moves past a slot only if it is not a zombie child. */
  lemma PassesOnlyOthers(s: State, p: nat)
    requires |s.procs| == NPROC && s.init < NPROC && p < NPROC && !s.procs[p].pc.Waking?
    requires SlotOf(s.procs[p].pc).Some? ==> SlotOf(s.procs[p].pc).value < NPROC
    requires OnlySelf(s, p) && RunsAt(s.procs[p].pc, s.procs[p].state) && !s.procs[p].pc.User? && !s.procs[p].pc.Sched?
    ensures var me := AdvanceProc(s, p).procs[p];
            && !me.state.ZOMBIE?
            && forall i: nat ::
                 i < NPROC && Passed(me, i) && s.procs[i].parent == Some(p) && s.procs[i].state.ZOMBIE? ==>
                   Passed(s.procs[p], i)
  {
  }

  lemma SameHeld(s: State, i: nat, it: Proc)
    requires Shape(s) && Exclusive(s) && i < NPROC && HeldState(it.state) == HeldState(s.procs[i].state)
    ensures Shape(s.(procs := s.procs[i := it])) && Exclusive(s.(procs := s.procs[i := it]))
  {
    var s' := s.(procs := s.procs[i := it]);
    assert forall q: nat, d: nat :: HeldBy(s', q, d) <==> HeldBy(s, q, d);
  }

  /** The process changes another slot quietly, then goes on at pc, outside wait's scan. */
  lemma QuietSlotSelf(s: State, c: nat, i: nat, it: Proc, pc: Pc)
    requires Shape(s) && Exclusive(s) && c < |s.cpus| && s.cpus[c].Run? && i < NPROC && i != s.cpus[c].p
    requires HeldState(it.state) == HeldState(s.procs[i].state)
    requires HeldState(it.state) ==> it.pc == s.procs[i].pc
    requires it.state.ZOMBIE? ==> s.procs[i].state.ZOMBIE? && (it.parent == s.procs[i].parent || it.parent.None?)
    requires forall k: nat :: Passed(it, k) ==> Passed(s.procs[i], k)
    requires !s.procs[s.cpus[c].p].pc.Waking? && !s.procs[s.cpus[c].p].pc.ExitCheck?
    requires !pc.WaitRead? && !pc.WaitTry? && pc != Sched(WaitTop) && !pc.WaitTop?
    requires HeldState(s.procs[s.cpus[c].p].state)
    ensures Quietly(s, SetPc(s.(procs := s.procs[i := it]), s.cpus[c].p, pc))
  {
    var p := s.cpus[c].p;
    var s1 := s.(procs := s.procs[i := it]);
    SameHeld(s, i, it);
    hide Exclusive;
    QuietSlot(s, i, it);
    QuietSelf(s1, c, s1.cpus[c], s1.procs[p].(pc := pc));
    assert s1.cpus[c := s1.cpus[c]] == s1.cpus;
    QuietTwice(s, s1, SetPc(s1, p, pc));
  }

  /** fork takes, names, starts or gives back its child. */
  lemma QuietFork(s: State, step: Step)
    requires Core(s) && Enabled(s, step)
    requires (step.Begin? && step.call.CallFork?) || step.Abort?
             || (step.Advance? && (s.procs[s.cpus[step.c].p].pc.ForkInit? || s.procs[s.cpus[step.c].p].pc.ForkReady?))
    ensures Quietly(s, Next(s, step))
  {
    var c := step.c;
    var p := s.cpus[c].p;
    assert HeldWell(s.cpus[c], s.procs[p]);
    var np := if step.Begin? then step.call.child else s.procs[p].pc.child;
    var child := s.procs[np];
    assert !HeldState(child.state) && FreeWell(child);
    hide Exclusive, Located, Reserved;
    match step
    case Begin(_, _) => QuietSlotSelf(s, c, np, child.(state := EMBRYO), ForkInit(np));
    case Abort(_) => QuietSlotSelf(s, c, np, child.(state := UNUSED), User);
    case Advance(_) =>
      if s.procs[p].pc.ForkInit? {
        QuietSlotSelf(s, c, np, child.(parent := Some(p)), ForkReady(np));
      } else {
        QuietSlotSelf(s, c, np, child.(state := RUNNABLE, pc := User), User);
      }
  }

  /** wait reaps a child. */
  lemma QuietReap(s: State, c: nat)
    requires Core(s) && Enabled(s, Advance(c)) && !OnlySelf(s, s.cpus[c].p)
    requires var pc := s.procs[s.cpus[c].p].pc; pc.WaitTry? || pc.ReapParent? || pc.ReapFree?
    ensures Quietly(s, Next(s, Advance(c)))
  {
    var p := s.cpus[c].p;
    var pc := s.procs[p].pc;
    var i := pc.i;
    var it := s.procs[i];
    assert HeldWell(s.cpus[c], s.procs[p]);
    assert !pc.ReapParent? ==> FreeWell(it);
    hide Exclusive, Located, Reserved;
    if pc.WaitTry? {
      QuietSlotSelf(s, c, i, it.(state := MINUS_UNUSED), ReapParent(i));
    } else if pc.ReapFree? {
      QuietSlotSelf(s, c, i, it.(state := UNUSED), User);
    } else if i != p {
      QuietSlotSelf(s, c, i, it.(parent := None, killed := false), ReapChan(i));
    } else {
      var me := it.(parent := None, killed := false, pc := ReapChan(i));
      QuietSelf(s, c, s.cpus[c], me);
      assert s.cpus[c := s.cpus[c]] == s.cpus;
      assert Next(s, Advance(c)).procs == s.procs[p := me];
    }
  }

  // ---- Steps that start a wakeup ----------------------------------------------------

  /** A child becomes a zombie, and its CPU goes on to wake the parent it then has. */
  lemma SettleStarts(s: State, c: nat)
    requires Core(s) && NoneLost(s) && Enabled(s, SettleStep(c))
    ensures NoneLost(Next(s, SettleStep(c)))
  {
    var s' := Next(s, SettleStep(c));
    var p := s.cpus[c].p;
    assert HeldWell(s.cpus[c], s.procs[p]);
    assert HeldBy(s, p, c);
    hide Located, Reserved;
    forall P: nat, i: nat | Missed(s', P, i) ensures exists k :: PendingOn(s', k, P, i) {
      if i == p {
        assert PendingOn(s', c, P, i);
      } else {
        assert Missed(s, P, i);
        var k: nat :| PendingOn(s, k, P, i);
        if s.cpus[k].Run? { assert HeldBy(s, s.cpus[k].p, k); }
        assert PendingOn(s', k, P, i);
      }
    }
  }

  /** exit hands a child to init; it checks for a zombie before anything else. */
  lemma HandOver(s: State, c: nat)
    requires Core(s) && NoneLost(s) && Enabled(s, Advance(c)) && s.procs[s.cpus[c].p].pc.ExitHand?
    ensures NoneLost(Next(s, Advance(c)))
  {
    var s' := Next(s, Advance(c));
    var p := s.cpus[c].p;
    var i := s.procs[p].pc.i;
    assert HeldWell(s.cpus[c], s.procs[p]);
    assert HeldBy(s, p, c);
    hide Located, Reserved;
    forall P: nat, j: nat | Missed(s', P, j) ensures exists k :: PendingOn(s', k, P, j) {
      if i == j {
        assert PendingOn(s', c, P, j);
      } else {
        assert Missed(s, P, j);
        var k: nat :| PendingOn(s, k, P, j);
        if s.cpus[k].Run? { assert HeldBy(s, s.cpus[k].p, k); }
        assert PendingOn(s', k, P, j);
      }
    }
  }

  /** exit looks at the child it has handed over, and starts waking init if it is a zombie. */
  lemma HandOverCheck(s: State, c: nat)
    requires Core(s) && NoneLost(s) && Enabled(s, Advance(c)) && s.procs[s.cpus[c].p].pc.ExitCheck?
    ensures NoneLost(Next(s, Advance(c)))
  {
    var s' := Next(s, Advance(c));
    var p := s.cpus[c].p;
    var i := s.procs[p].pc.i;
    assert HeldWell(s.cpus[c], s.procs[p]);
    assert HeldBy(s, p, c);
    hide Located, Reserved;
    forall P: nat, j: nat | Missed(s', P, j) ensures exists k :: PendingOn(s', k, P, j) {
      assert Missed(s, P, j);
      var k: nat :| PendingOn(s, k, P, j);
      if s.cpus[k].Run? { assert HeldBy(s, s.cpus[k].p, k); }
      assert PendingOn(s', k, P, j);
    }
  }

  // ---- wakeup1 itself ------------------------------------------------------------------

  /** wakeup1 leaves a slot only once the process in it is not asleep in wait. */
  lemma WakerPasses(s: State, w: Waker, c: nat)
    requires Core(s) && ChanSet(s) && WakerEnabled(s.procs, w) && w.chan == OnProc(w.slot)
    requires WakerNext(s.procs, w).slot != w.slot
    ensures !Passed(WakerProcs(s.procs, w)[w.slot], c)
  {
    var me := s.procs[w.slot];
    if Waiting(me) {
      WaitingAsleep(s, w.slot);
      assert w.phase.Spin? && me.state.SLEEPING?;
    }
  }

  /** The waker that CPU c is running. */
  ghost predicate RunsWaker(s: State, c: nat, w: Waker)
    requires Shape(s) && c < |s.cpus|
  {
    match s.cpus[c]
    case Wake(w', _) => w' == w
    case Run(q) => s.procs[q].pc.Waking? && s.procs[q].pc.w == w
    case _ => false
  }

  /** One access of wakeup1 by CPU c takes s to s'. */
  ghost predicate WakerStep(s: State, c: nat, w: Waker, s': State)
    requires Shape(s)
  {
    && Shape(s') && c < |s.cpus| && RunsWaker(s, c, w) && WakerEnabled(s.procs, w)
    && |s'.cpus| == |s.cpus| && s'.init == s.init && RunsWaker(s', c, WakerNext(s.procs, w))
    && (forall k :: 0 <= k < |s.cpus| && k != c ==> s'.cpus[k] == s.cpus[k])
    && (forall p :: 0 <= p < NPROC ==>
          if s.cpus[c].Run? && s.cpus[c].p == p
          then s'.procs[p] == s.procs[p].(pc := s'.procs[p].pc) && s'.procs[p].pc.Waking?
          else s'.procs[p] == WakerProcs(s.procs, w)[p])
  }

  lemma WakerMissed(s: State, c: nat, w: Waker, s': State, P: nat, i: nat)
    requires Shape(s) && WakerStep(s, c, w, s') && Missed(s', P, i)
    ensures Missed(s, P, i)
  {
    assert s'.procs[P].pc == s.procs[P].pc;
    assert s'.procs[i].parent == s.procs[i].parent;
  }

  lemma WakerKeepsOther(s: State, c: nat, w: Waker, s': State, k: nat, P: nat, i: nat)
    requires Shape(s) && Exclusive(s) && WakerStep(s, c, w, s') && PendingOn(s, k, P, i) && k != c
    ensures PendingOn(s', k, P, i)
  {
    if s.cpus[k].Run? {
      assert HeldBy(s, s.cpus[k].p, k);
      assert s.cpus[c].Run? ==> HeldBy(s, s.cpus[c].p, c);
      assert s'.procs[s.cpus[k].p].pc == s.procs[s.cpus[k].p].pc;
    }
  }

  lemma WakerMoves(s: State, c: nat, w: Waker, s': State)
    requires Inv(s) && WakerStep(s, c, w, s')
    ensures NoneLost(s')
  {
    var w' := WakerNext(s.procs, w);
    forall P: nat, i: nat | Missed(s', P, i) ensures exists k :: PendingOn(s', k, P, i) {
      WakerMissed(s, c, w, s', P, i);
      var k: nat :| PendingOn(s, k, P, i);
      if k != c {
        WakerKeepsOther(s, c, w, s', k, P, i);
      } else {
        if w.slot == P && w'.slot != P { WakerPasses(s, w, i); }
        assert PendingOn(s', c, P, i);
      }
    }
  }

  /** A wakeup1 past the last slot has nothing left to reach. */
  lemma WakerEnds(s: State, step: Step)
    requires Inv(s) && Enabled(s, step)
    requires (step.WakeStep? && s.cpus[step.c].w.slot == NPROC)
             || (step.Advance? && s.procs[s.cpus[step.c].p].pc.Waking? && s.procs[s.cpus[step.c].p].pc.w.slot == NPROC)
    ensures NoneLost(Next(s, step))
  {
    var s' := Next(s, step);
    var c := step.c;
    if step.Advance? {
      assert HeldBy(s, s.cpus[c].p, c);
      assert HeldWell(s.cpus[c], s.procs[s.cpus[c].p]);
    }
    hide Located, Reserved;
    forall P: nat, i: nat | Missed(s', P, i) ensures exists k :: PendingOn(s', k, P, i) {
      assert Missed(s, P, i);
      var k: nat :| PendingOn(s, k, P, i);
      if s.cpus[k].Run? { assert HeldBy(s, s.cpus[k].p, k); }
      assert PendingOn(s', k, P, i);
    }
  }

  // ---- All steps -------------------------------------------------------------------------

  lemma SelfChan(s: State, p: nat)
    requires |s.procs| == NPROC && s.init < NPROC && p < NPROC
    requires SlotOf(s.procs[p].pc).Some? ==> SlotOf(s.procs[p].pc).value < NPROC
    requires RunsAt(s.procs[p].pc, s.procs[p].state) && !s.procs[p].pc.User? && !s.procs[p].pc.Sched?
    requires Waiting(s.procs[p]) ==> s.procs[p].chan == OnProc(p)
    ensures var me := AdvanceProc(s, p).procs[p]; Waiting(me) ==> me.chan == OnProc(p)
  {
  }

  /** What one process's access can do to another's record. */
  lemma OthersKept(s: State, p: nat, q: nat)
    requires |s.procs| == NPROC && s.init < NPROC && p < NPROC && q < NPROC && q != p
    requires SlotOf(s.procs[p].pc).Some? ==> SlotOf(s.procs[p].pc).value < NPROC
    ensures |AdvanceProc(s, p).procs| == NPROC
    ensures var it, it' := s.procs[q], AdvanceProc(s, p).procs[q];
            && it'.chan == it.chan && (it'.pc == it.pc || it'.pc.User?)
            && (it'.state == it.state || it'.state.RUNNABLE? || it'.state.UNUSED? || it'.state.MINUS_UNUSED?)
  {
  }

  lemma OthersChan(s: State, p: nat, q: nat)
    requires |s.procs| == NPROC && s.init < NPROC && p < NPROC && q < NPROC && q != p
    requires SlotOf(s.procs[p].pc).Some? ==> SlotOf(s.procs[p].pc).value < NPROC
    ensures |AdvanceProc(s, p).procs| == NPROC
    ensures var it, it' := s.procs[q], AdvanceProc(s, p).procs[q];
            it'.chan == it.chan && (Waiting(it') ==> Waiting(it))
  {
    hide AdvanceProc;
    OthersKept(s, p, q);
  }

  lemma ChanAdvance(s: State, c: nat)
    requires Core(s) && ChanSet(s) && Enabled(s, Advance(c))
    ensures ChanSet(Next(s, Advance(c)))
  {
    var p := s.cpus[c].p;
    assert HeldWell(s.cpus[c], s.procs[p]);
    hide Exclusive, Located, Reserved, AdvanceProc, Waiting, RunsAt;
    SelfChan(s, p);
    forall q | 0 <= q < NPROC && q != p
      ensures Waiting(Next(s, Advance(c)).procs[q]) ==> Next(s, Advance(c)).procs[q].chan == OnProc(q)
    {
      OthersChan(s, p, q);
    }
  }

  lemma ChanOther(s: State, step: Step)
    requires Core(s) && ChanSet(s) && Enabled(s, step) && !step.Advance? && !step.Begin?
    ensures ChanSet(Next(s, step))
  {
    var cpu := s.cpus[step.c];
    if Holds(cpu) { assert HeldWell(cpu, s.procs[cpu.p]); }
    hide Exclusive, Located, Reserved;
  }

  lemma ChanBegin(s: State, c: nat, call: Call)
    requires Core(s) && ChanSet(s) && Enabled(s, Begin(c, call))
    ensures ChanSet(Next(s, Begin(c, call)))
  {
    assert HeldWell(s.cpus[c], s.procs[s.cpus[c].p]);
    hide Exclusive, Located, Reserved;
  }

  lemma LostAdvance(s: State, c: nat)
    requires Inv(s) && Enabled(s, Advance(c))
    ensures NoneLost(Next(s, Advance(c)))
  {
    var s' := Next(s, Advance(c));
    var p := s.cpus[c].p;
    var pc := s.procs[p].pc;
    assert HeldWell(s.cpus[c], s.procs[p]);
    if pc.Waking? {
      if pc.w.slot == NPROC { WakerEnds(s, Advance(c)); } else { WakerMoves(s, c, pc.w, s'); }
    } else if pc.ExitCheck? {
      HandOverCheck(s, c);
    } else if OnlySelf(s, p) {
      QuietAdvanceSelf(s, c);
      QuietlyKeeps(s, s');
    } else if pc.ExitHand? {
      HandOver(s, c);
    } else {
      if pc.ForkInit? || pc.ForkReady? { QuietFork(s, Advance(c)); } else { QuietReap(s, c); }
      QuietlyKeeps(s, s');
    }
  }

  /** Every step keeps the whole invariant. */
  lemma StepKeeps(s: State, step: Step)
    requires Inv(s) && Enabled(s, step)
    ensures Inv(Next(s, step))
  {
    hide Exclusive, Located, Reserved, NoneLost, ChanSet, Quietly;
    CoreStep(s, step);
    match step {
      case Advance(c) => ChanAdvance(s, c);
      case Begin(c, call) => ChanBegin(s, c, call);
      case _ => ChanOther(s, step);
    }
    var s' := Next(s, step);
    match step
    case SettleStep(c) => SettleStarts(s, c);
    case Advance(c) => LostAdvance(s, c);
    case WakeStep(c) => WakeCpu(s, c);
    case Begin(c, call) =>
      if call.CallFork? { QuietFork(s, step); } else { QuietBegin(s, c, call); }
      QuietlyKeeps(s, s');
    case Abort(_) =>
      QuietFork(s, step);
      QuietlyKeeps(s, s');
    case Preempt(_) =>
      QuietLeave(s, step);
      QuietlyKeeps(s, s');
    case Swtch(_) =>
      QuietLeave(s, step);
      QuietlyKeeps(s, s');
    case _ =>
      QuietScheduler(s, step);
      QuietlyKeeps(s, s');
  }

  lemma WakeCpu(s: State, c: nat)
    requires Inv(s) && Enabled(s, WakeStep(c))
    ensures NoneLost(Next(s, WakeStep(c)))
  {
    var w := s.cpus[c].w;
    if w.slot == NPROC { WakerEnds(s, WakeStep(c)); } else { WakerMoves(s, c, w, Next(s, WakeStep(c))); }
  }

  // ---- Whole runs --------------------------------------------------------------------------

  /** After userinit: one process, runnable and parentless; the rest unused; all CPUs scheduling. */
  ghost predicate Start(s: State) {
    && |s.procs| == NPROC && s.init < NPROC && !s.panicked
    && (forall c :: 0 <= c < |s.cpus| ==> s.cpus[c].Scan?)
    && (forall p :: 0 <= p < NPROC ==>
          s.procs[p] == Proc(if p == s.init then RUNNABLE else UNUSED, None, NoChan, false, false, User))
  }

  lemma StartInv(s: State)
    requires Start(s)
    ensures Inv(s)
  {
    assert forall p: nat, c: nat :: !HeldBy(s, p, c);
  }

  /** A run: each state is the one before with one enabled step taken. */
  ghost predicate IsRun(states: seq<State>, steps: seq<Step>) {
    && |states| == |steps| + 1
    && (forall i :: 0 <= i < |steps| ==> CanStep(states[i], steps[i]) && states[i + 1] == Next(states[i], steps[i]))
  }

  ghost predicate CanStep(s: State, step: Step) {
    Shape(s) && SlotsInRange(s) && Enabled(s, step)
  }

  /** The invariant holds throughout every run. */
  lemma {:induction false} RunKeeps(states: seq<State>, steps: seq<Step>, i: nat)
    requires IsRun(states, steps) && Start(states[0]) && i < |states|
    ensures Inv(states[i])
  {
    if i == 0 {
      StartInv(states[0]);
    } else {
      RunKeeps(states, steps, i - 1);
      StepKeeps(states[i - 1], steps[i - 1]);
    }
  }

  /**
   No process is ever held by two CPUs, it is held by one exactly when its state is
   RUNNING, MINUS_SLEEPING, MINUS_RUNNABLE or MINUS_ZOMBIE, and no run panics.
   */
  lemma OneHolder(states: seq<State>, steps: seq<Step>, i: nat, p: nat)
    requires IsRun(states, steps) && Start(states[0]) && i < |states| && p < NPROC
    ensures !states[i].panicked && |states[i].procs| == NPROC
    ensures HeldState(states[i].procs[p].state) <==> exists c: nat :: HeldBy(states[i], p, c)
    ensures forall c: nat, d: nat :: HeldBy(states[i], p, c) && HeldBy(states[i], p, d) ==> c == d
  {
    RunKeeps(states, steps, i);
  }

  /** A process becomes RUNNABLE only when no CPU is in its context any more. */
  lemma RunnableAfterSwitch(states: seq<State>, steps: seq<Step>, i: nat, p: nat, c: nat)
    requires IsRun(states, steps) && Start(states[0]) && i < |steps| && p < NPROC && c < |states[i].cpus|
    requires |states[i].procs| == NPROC && |states[i + 1].procs| == NPROC
    requires !states[i].procs[p].state.RUNNABLE? && states[i + 1].procs[p].state.RUNNABLE?
    ensures states[i].cpus[c] != Run(p)
  {
    RunKeeps(states, steps, i + 1);
    if states[i].cpus[c] == Run(p) {
      RunStaysHeld(states[i], steps[i], c);
    }
  }

  /** A CPU in a process's context still holds that process after any one step. */
  lemma RunStaysHeld(s: State, step: Step, c: nat)
    requires CanStep(s, step) && c < |s.cpus| && s.cpus[c].Run?
    ensures HeldBy(Next(s, step), s.cpus[c].p, c)
  {
  }

  /**
   A parent asleep in wait with a zombie child is about to be woken: some CPU is in a
   wakeup1 for it and has not passed its slot, or is in an exit that handed the child to
   it and is about to start one.
   */
  lemma NoLostWakeup(states: seq<State>, steps: seq<Step>, i: nat, P: nat, c: nat)
    requires IsRun(states, steps) && Start(states[0]) && i < |states| && P < NPROC && c < NPROC
    requires |states[i].procs| == NPROC
    requires states[i].procs[P].state.SLEEPING? && states[i].procs[P].pc.WaitTop?
    requires states[i].procs[c].parent == Some(P) && states[i].procs[c].state.ZOMBIE?
    ensures exists k: nat :: PendingOn(states[i], k, P, c)
  {
    RunKeeps(states, steps, i);
    assert Missed(states[i], P, c);
  }
}
