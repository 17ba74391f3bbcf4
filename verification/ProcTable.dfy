/**
 The process table with its lock replaced by compare-and-swap (proc.c), as a step system.

 A step is one access to shared memory by one CPU, over sequentially consistent memory,
 with two exceptions that are assumptions of this model: the scheduler's settling of the
 process it has just switched away from (proc.c:512-532, up to the wakeup it may start)
 is one step, and so is what wakeup1 does to one slot once it has decided to wake it
 (proc.c:672-687). wakeup1, wait and exit otherwise go through the table slot by slot.
 wakeup1's test for the two sleeping states reads the state once, as it is compiled
 (kernel.asm:6918-6921).
 */
module ProcTable {
  import opened Options

  const NPROC := 64

  datatype PState =
    | UNUSED | MINUS_UNUSED | EMBRYO | SLEEPING | MINUS_SLEEPING
    | RUNNABLE | MINUS_RUNNABLE | RUNNING | ZOMBIE | MINUS_ZOMBIE

  /** What a process can sleep on: nothing, a process (as wait does), or anything else. */
  datatype Chan = NoChan | OnProc(p: nat) | Other(x: nat)

  /** wakeup1(chan) in progress at one slot, at one of its three accesses. */
  datatype Phase = ReadState | ReadChan | Spin
  datatype Waker = Waker(chan: Chan, slot: nat, phase: Phase)

  /** Where a process is in the code that touches the table. */
  datatype Pc =
    | User                                   // outside all of the code below
    | Sched(resume: Pc)                      // in sched(), before swtch
    | Dead                                   // after exit's sched(), never resumed
    | SleepCas                               // sleep: chan set, state not yet
    | Waking(w: Waker, resume: Pc)           // in wakeup1
    | ForkInit(child: nat)                   // fork: child is EMBRYO
    | ForkReady(child: nat)                  // fork: child has its parent
    | WaitTop                                // wait: top of the outer loop
    | WaitChan                               // wait: state set, chan not yet
    | WaitRead(i: nat, havekids: bool)       // wait: about to read slot i's parent
    | WaitTry(i: nat)                        // wait: slot i is a child
    | ReapParent(i: nat) | ReapChan(i: nat) | ReapRun(i: nat) | ReapFree(i: nat)
    | QuitChan | QuitRun                     // wait: about to return -1
    | ExitSlot(i: nat)                       // exit: about to read slot i's parent
    | ExitHand(i: nat)                       // exit: slot i is a child
    | ExitCheck(i: nat)                      // exit: slot i now belongs to init

  datatype Proc = Proc(state: PState, parent: Option<nat>, chan: Chan, killed: bool, frozen: bool, pc: Pc)

  datatype Cpu =
    | Scan(i: nat)                   // scheduler, about to try slot i
    | Picked(p: nat)                 // p's state is RUNNING, not yet switched to
    | Run(p: nat)                    // in p's context
    | Settle(p: nat)                 // back in the scheduler from p
    | Wake(w: Waker, resume: nat)    // scheduler or interrupt handler, in wakeup1

  datatype State = State(procs: seq<Proc>, cpus: seq<Cpu>, init: nat, panicked: bool)

  /** What a process may do from outside this code; an interrupt handler on its CPU may call wakeup
      wherever interrupts are enabled. */
  datatype Call =
    | CallSleep(x: nat) | CallWakeup(x: nat) | CallFork(child: nat) | CallWait | CallExit
    | SetFlags(killed: bool, frozen: bool)

  datatype Step =
    | TryPick(c: nat)
    | Dispatch(c: nat, evenIfFrozen: bool)
    | Begin(c: nat, call: Call)
    | Preempt(c: nat)           // a timer interrupt makes the process yield
    | Advance(c: nat)           // the next access of the process running on c
    | Abort(c: nat)             // fork gives up for lack of memory
    | Swtch(c: nat)
    | SettleStep(c: nat)
    | Interrupt(c: nat, x: nat) // a handler on an idle CPU calls wakeup
    | WakeStep(c: nat)          // the next access of the scheduler's wakeup1

  // ---- One access of wakeup1 -------------------------------------------------

  function NextSlot(w: Waker): Waker { Waker(w.chan, w.slot + 1, ReadState) }

  ghost predicate WakerEnabled(procs: seq<Proc>, w: Waker)
    requires |procs| == NPROC
  {
    w.slot < NPROC && (w.phase.Spin? ==> procs[w.slot].state.SLEEPING? || procs[w.slot].state.RUNNING?)
  }

  ghost function WakerNext(procs: seq<Proc>, w: Waker): Waker
    requires |procs| == NPROC && w.slot < NPROC
  {
    var p := procs[w.slot];
    match w.phase
    case ReadState => if p.state.SLEEPING? || p.state.MINUS_SLEEPING? then w.(phase := ReadChan) else NextSlot(w)
    case ReadChan => if p.chan == w.chan then w.(phase := Spin) else NextSlot(w)
    case Spin => NextSlot(w)
  }

  /** The only change wakeup1 makes: a sleeper it has chosen becomes runnable. */
  ghost function WakerProcs(procs: seq<Proc>, w: Waker): seq<Proc>
    requires |procs| == NPROC && w.slot < NPROC
  {
    if w.phase.Spin? && procs[w.slot].state.SLEEPING?
    then procs[w.slot := procs[w.slot].(state := RUNNABLE)]
    else procs
  }

  // ---- Steps ------------------------------------------------------------------

  /** Kernel code that runs with interrupts enabled. */
  predicate Preemptible(pc: Pc) {
    pc.User? || pc.ForkInit? || pc.ForkReady?
  }

  ghost predicate Shape(s: State) {
    && |s.procs| == NPROC && s.init < NPROC
    && (forall c :: 0 <= c < |s.cpus| && Holds(s.cpus[c]) ==> s.cpus[c].p < NPROC)
  }

  /** A CPU holds a process from picking it until it has settled it. */
  predicate Holds(cpu: Cpu) {
    cpu.Picked? || cpu.Run? || cpu.Settle?
  }

  ghost predicate Enabled(s: State, step: Step)
    requires Shape(s)
  {
    && !s.panicked
    && step.c < |s.cpus|
    && var cpu := s.cpus[step.c];
       match step
       case TryPick(_) => cpu.Scan?
       case Dispatch(_, _) => cpu.Picked?
       case Begin(_, call) =>
         && cpu.Run? && (s.procs[cpu.p].pc.User? || (call.CallWakeup? && Preemptible(s.procs[cpu.p].pc)))
         && (call.CallFork? ==> call.child < NPROC && s.procs[call.child].state.UNUSED?)
         && (call.CallExit? ==> cpu.p != s.init)
       case Preempt(_) => cpu.Run? && Preemptible(s.procs[cpu.p].pc)
       case Advance(_) =>
         && cpu.Run?
         && var pc := s.procs[cpu.p].pc;
            && !pc.User? && !pc.Sched? && !pc.Dead?
            && (pc.Waking? ==> pc.w.slot == NPROC || WakerEnabled(s.procs, pc.w))
       case Abort(_) => cpu.Run? && s.procs[cpu.p].pc.ForkInit?
       case Swtch(_) => cpu.Run? && s.procs[cpu.p].pc.Sched?
       case SettleStep(_) => cpu.Settle?
       case Interrupt(_, _) => cpu.Scan?
       case WakeStep(_) => cpu.Wake? && (cpu.w.slot == NPROC || WakerEnabled(s.procs, cpu.w))
  }

  ghost function SetPc(s: State, p: nat, pc: Pc): State
    requires p < |s.procs|
  {
    s.(procs := s.procs[p := s.procs[p].(pc := pc)])
  }

  /** cas(&procs[p].state, RUNNING, to), with a panic if it fails; then go on at pc. */
  ghost function LeaveRunning(s: State, p: nat, to: PState, pc: Pc): State
    requires p < |s.procs|
  {
    if s.procs[p].state.RUNNING?
    then s.(procs := s.procs[p := s.procs[p].(state := to, pc := pc)])
    else s.(panicked := true)
  }

  ghost function BeginCall(s: State, p: nat, call: Call): State
    requires |s.procs| == NPROC && p < NPROC && (call.CallFork? ==> call.child < NPROC)
  {
    var me := s.procs[p];
    match call
    case CallSleep(x) => s.(procs := s.procs[p := me.(chan := Other(x), pc := SleepCas)])
    case CallWakeup(x) => SetPc(s, p, Waking(Waker(Other(x), 0, ReadState), me.pc))
    case CallFork(np) => SetPc(s.(procs := s.procs[np := s.procs[np].(state := EMBRYO)]), p, ForkInit(np))
    case CallWait => SetPc(s, p, WaitTop)
    case CallExit => LeaveRunning(s, p, MINUS_ZOMBIE, ExitSlot(0))
    case SetFlags(k, f) => s.(procs := s.procs[p := me.(killed := k, frozen := f)])
  }

  /** The next access of process p, which is not at User, Sched or Dead. */
  ghost function AdvanceProc(s: State, p: nat): State
    requires |s.procs| == NPROC && s.init < NPROC && p < NPROC
    requires SlotOf(s.procs[p].pc).Some? ==> SlotOf(s.procs[p].pc).value < NPROC
  {
    var procs, me := s.procs, s.procs[p];
    match me.pc
    case SleepCas => LeaveRunning(s, p, MINUS_SLEEPING, Sched(User))
    case Waking(w, r) =>
      if w.slot >= NPROC then SetPc(s, p, r)
      else SetPc(s.(procs := WakerProcs(procs, w)), p, Waking(WakerNext(procs, w), r))
    case ForkInit(np) => SetPc(s.(procs := procs[np := procs[np].(parent := Some(p))]), p, ForkReady(np))
    case ForkReady(np) =>
      var child := procs[np];
      SetPc(if child.state.EMBRYO? then s.(procs := procs[np := child.(state := RUNNABLE, pc := User)]) else s, p, User)
    case WaitTop => LeaveRunning(s, p, MINUS_SLEEPING, WaitChan)
    case WaitChan => s.(procs := procs[p := me.(chan := OnProc(p), pc := WaitRead(0, false))])
    case WaitRead(i, kids) =>
      if i >= NPROC then
        if !kids || me.killed then SetPc(s, p, QuitChan) else SetPc(s, p, Sched(WaitTop))
      else if procs[i].parent == Some(p) then SetPc(s, p, WaitTry(i))
      else SetPc(s, p, WaitRead(i + 1, kids))
    case WaitTry(i) =>
      if procs[i].state.ZOMBIE?
      then SetPc(s.(procs := procs[i := procs[i].(state := MINUS_UNUSED)]), p, ReapParent(i))
      else SetPc(s, p, WaitRead(i + 1, true))
    case ReapParent(i) => SetPc(s.(procs := procs[i := procs[i].(parent := None, killed := false)]), p, ReapChan(i))
    case ReapChan(i) => s.(procs := procs[p := me.(chan := NoChan, pc := ReapRun(i))])
    case ReapRun(i) =>
      s.(procs := procs[p := me.(state := if me.state.MINUS_SLEEPING? then RUNNING else me.state, pc := ReapFree(i))])
    case ReapFree(i) =>
      SetPc(if procs[i].state.MINUS_UNUSED? then s.(procs := procs[i := procs[i].(state := UNUSED)]) else s, p, User)
    case QuitChan => s.(procs := procs[p := me.(chan := NoChan, pc := QuitRun)])
    case QuitRun =>
      if me.state.MINUS_SLEEPING? then s.(procs := procs[p := me.(state := RUNNING, pc := User)])
      else s.(panicked := true)
    case ExitSlot(i) =>
      if i >= NPROC then SetPc(s, p, Sched(Dead))
      else if procs[i].parent == Some(p) then SetPc(s, p, ExitHand(i))
      else SetPc(s, p, ExitSlot(i + 1))
    case ExitHand(i) => SetPc(s.(procs := procs[i := procs[i].(parent := Some(s.init))]), p, ExitCheck(i))
    case ExitCheck(i) =>
      if procs[i].state.ZOMBIE? then SetPc(s, p, Waking(Waker(OnProc(s.init), 0, ReadState), ExitSlot(i + 1)))
      else SetPc(s, p, ExitSlot(i + 1))
    case User => s
    case Sched(_) => s
    case Dead => s
  }

  /** The slot a pc refers to, if any, other than by a scan that may be past the end. */
  function SlotOf(pc: Pc): Option<nat> {
    match pc
    case ForkInit(i) => Some(i)
    case ForkReady(i) => Some(i)
    case Waking(_, ForkInit(i)) => Some(i)
    case Waking(_, ForkReady(i)) => Some(i)
    case WaitTry(i) => Some(i)
    case ReapParent(i) => Some(i)
    case ReapChan(i) => Some(i)
    case ReapRun(i) => Some(i)
    case ReapFree(i) => Some(i)
    case ExitHand(i) => Some(i)
    case ExitCheck(i) => Some(i)
    case _ => None
  }

  /** The settling block: the process switched away from takes its final state. */
  ghost function SettleProc(s: State, c: nat, p: nat): State
    requires |s.procs| == NPROC && c < |s.cpus| && p < NPROC
  {
    var me := s.procs[p];
    var done := s.(cpus := s.cpus[c := Scan(p + 1)]);
    match me.state
    case MINUS_SLEEPING =>
      done.(procs := s.procs[p := me.(state := if me.killed then RUNNABLE else SLEEPING)])
    case MINUS_RUNNABLE => done.(procs := s.procs[p := me.(state := RUNNABLE)])
    case MINUS_ZOMBIE =>
      var chan := if me.parent.Some? then OnProc(me.parent.value) else NoChan;
      s.(procs := s.procs[p := me.(state := ZOMBIE, chan := NoChan)],
         cpus := s.cpus[c := Wake(Waker(chan, 0, ReadState), p + 1)])
    case _ => done
  }

  ghost predicate SlotsInRange(s: State) {
    forall p :: 0 <= p < |s.procs| && SlotOf(s.procs[p].pc).Some? ==> SlotOf(s.procs[p].pc).value < NPROC
  }

  ghost function Next(s: State, step: Step): State
    requires Shape(s) && SlotsInRange(s) && Enabled(s, step)
  {
    var c := step.c;
    var cpu := s.cpus[c];
    match step
    case TryPick(_) =>
      if cpu.i >= NPROC then s.(cpus := s.cpus[c := Scan(0)])
      else if s.procs[cpu.i].state.RUNNABLE?
      then s.(procs := s.procs[cpu.i := s.procs[cpu.i].(state := RUNNING)], cpus := s.cpus[c := Picked(cpu.i)])
      else s.(cpus := s.cpus[c := Scan(cpu.i + 1)])
    case Dispatch(_, even) =>
      var me := s.procs[cpu.p];
      if me.frozen && !even
      then s.(procs := s.procs[cpu.p := me.(state := if me.state.RUNNING? then RUNNABLE else me.state)],
              cpus := s.cpus[c := Scan(cpu.p + 1)])
      else s.(cpus := s.cpus[c := Run(cpu.p)])
    case Begin(_, call) => BeginCall(s, cpu.p, call)
    case Preempt(_) => LeaveRunning(s, cpu.p, MINUS_RUNNABLE, Sched(s.procs[cpu.p].pc))
    case Advance(_) => AdvanceProc(s, cpu.p)
    case Abort(_) =>
      var np := s.procs[cpu.p].pc.child;
      SetPc(s.(procs := s.procs[np := s.procs[np].(state := UNUSED)]), cpu.p, User)
    case Swtch(_) =>
      if s.procs[cpu.p].state.RUNNING? then s.(panicked := true)
      else SetPc(s.(cpus := s.cpus[c := Settle(cpu.p)]), cpu.p, s.procs[cpu.p].pc.resume)
    case SettleStep(_) => SettleProc(s, c, cpu.p)
    case Interrupt(_, x) => s.(cpus := s.cpus[c := Wake(Waker(Other(x), 0, ReadState), cpu.i)])
    case WakeStep(_) =>
      if cpu.w.slot >= NPROC then s.(cpus := s.cpus[c := Scan(cpu.resume)])
      else s.(procs := WakerProcs(s.procs, cpu.w), cpus := s.cpus[c := Wake(WakerNext(s.procs, cpu.w), cpu.resume)])
  }

  // ---- Who holds a process ----------------------------------------------------

  predicate HeldState(st: PState) {
    st.RUNNING? || st.MINUS_SLEEPING? || st.MINUS_RUNNABLE? || st.MINUS_ZOMBIE?
  }

  ghost predicate HeldBy(s: State, p: nat, c: nat) {
    c < |s.cpus| && Holds(s.cpus[c]) && s.cpus[c].p == p
  }

  /** No process is held by two CPUs, and its state says whether it is held by one. */
  ghost predicate Exclusive(s: State) {
    && (forall c: nat, d: nat, p: nat :: HeldBy(s, p, c) && HeldBy(s, p, d) ==> c == d)
    && (forall p: nat, c: nat :: p < |s.procs| && HeldBy(s, p, c) ==> HeldState(s.procs[p].state))
    && (forall p :: 0 <= p < |s.procs| && HeldState(s.procs[p].state) ==> exists c :: HeldBy(s, p, c))
  }

  // ---- Where a process can be in each state -------------------------------------

  /** Points at which a process may be left and later resumed. */
  predicate Resumable(pc: Pc) {
    Preemptible(pc) || pc.WaitTop?
  }

  predicate RunsAt(pc: Pc, st: PState) {
    match pc
    case User => st.RUNNING?
    case SleepCas => st.RUNNING?
    case ForkInit(_) => st.RUNNING?
    case ForkReady(_) => st.RUNNING?
    case WaitTop => st.RUNNING?
    case ReapFree(_) => st.RUNNING?
    case Waking(_, r) => (Preemptible(r) && st.RUNNING?) || (r.ExitSlot? && st.MINUS_ZOMBIE?)
    case ExitSlot(_) => st.MINUS_ZOMBIE?
    case ExitHand(_) => st.MINUS_ZOMBIE?
    case ExitCheck(_) => st.MINUS_ZOMBIE?
    case Sched(r) => LeftAt(r, st)
    case Dead => false
    case _ => st.MINUS_SLEEPING?
  }

  predicate LeftAt(r: Pc, st: PState) {
    (r.Dead? && st.MINUS_ZOMBIE?) || (Preemptible(r) && st.MINUS_RUNNABLE?)
    || ((r.User? || r.WaitTop?) && st.MINUS_SLEEPING?)
  }

  predicate HeldWell(cpu: Cpu, me: Proc) {
    && (cpu.Run? ==> RunsAt(me.pc, me.state))
    && (cpu.Picked? ==> Resumable(me.pc) && me.state.RUNNING?)
    && (cpu.Settle? ==> LeftAt(me.pc, me.state))
  }

  predicate FreeWell(me: Proc) {
    if me.state.SLEEPING? || me.state.RUNNABLE? then Resumable(me.pc) else me.pc.User? || me.pc.Dead?
  }

  ghost predicate Located(s: State)
    requires Shape(s)
  {
    && (forall c :: 0 <= c < |s.cpus| && Holds(s.cpus[c]) ==> HeldWell(s.cpus[c], s.procs[s.cpus[c].p]))
    && (forall p :: 0 <= p < NPROC && !HeldState(s.procs[p].state) ==> FreeWell(s.procs[p]))
  }

  /** The child a fork in progress has reserved. */
  function ChildOf(pc: Pc): Option<nat> {
    match pc
    case ForkInit(i) => Some(i)
    case ForkReady(i) => Some(i)
    case Sched(ForkInit(i)) => Some(i)
    case Sched(ForkReady(i)) => Some(i)
    case Waking(_, ForkInit(i)) => Some(i)
    case Waking(_, ForkReady(i)) => Some(i)
    case _ => None
  }

  ghost predicate Reserved(s: State) {
    && (forall p :: 0 <= p < |s.procs| && ChildOf(s.procs[p].pc).Some? ==>
          var np := ChildOf(s.procs[p].pc).value;
          np < |s.procs| && s.procs[np].state.EMBRYO?)
    && (forall p, q :: 0 <= p < q < |s.procs| && ChildOf(s.procs[p].pc).Some? ==>
        ChildOf(s.procs[p].pc) != ChildOf(s.procs[q].pc))
  }

  ghost predicate Core(s: State) {
    Shape(s) && !s.panicked && SlotsInRange(s) && Exclusive(s) && Located(s) && Reserved(s)
  }

  // ---- Changes that keep the core invariant ----------------------------------

  /** A fork may go on at pc: it has no child, the one it had, or one newly reserved. */
  ghost predicate MayFork(s: State, p: nat, pc: Pc)
    requires p < |s.procs|
  {
    var np := ChildOf(pc);
    || np.None?
    || np == ChildOf(s.procs[p].pc)
    || (&& np.value < |s.procs| && s.procs[np.value].state.EMBRYO? && np.value != p
        && forall q :: 0 <= q < |s.procs| ==> ChildOf(s.procs[q].pc) != np)
  }

  /** A record change of the process a CPU is running. */
  lemma SelfStep(s: State, c: nat, me: Proc)
    requires Core(s) && c < |s.cpus| && s.cpus[c].Run? && RunsAt(me.pc, me.state)
    requires SlotOf(me.pc).Some? ==> SlotOf(me.pc).value < NPROC
    requires MayFork(s, s.cpus[c].p, me.pc)
    ensures Core(s.(procs := s.procs[s.cpus[c].p := me]))
  {
    HoldStep(s, c, s.cpus[c], me);
    assert s.cpus[c := s.cpus[c]] == s.cpus;
  }

  /** The CPU goes on holding the same process, at a later stage perhaps. */
  lemma HoldStep(s: State, c: nat, cpu: Cpu, me: Proc)
    requires Core(s) && c < |s.cpus| && Holds(s.cpus[c]) && Holds(cpu) && cpu.p == s.cpus[c].p
    requires HeldWell(cpu, me)
    requires SlotOf(me.pc).Some? ==> SlotOf(me.pc).value < NPROC
    requires cpu.p < NPROC && MayFork(s, cpu.p, me.pc)
    ensures Core(s.(procs := s.procs[cpu.p := me], cpus := s.cpus[c := cpu]))
  {
    var p := cpu.p;
    var s' := s.(procs := s.procs[p := me], cpus := s.cpus[c := cpu]);
    assert HeldBy(s, p, c) && HeldState(me.state);
    assert forall q: nat, d: nat :: HeldBy(s', q, d) <==> HeldBy(s, q, d);
    forall d | 0 <= d < |s'.cpus| && Holds(s'.cpus[d])
      ensures HeldWell(s'.cpus[d], s'.procs[s'.cpus[d].p])
    {
      if d != c { assert HeldBy(s, s.cpus[d].p, d); }
    }
  }

  /** The CPU lets go of its process, which is then in a state no CPU holds. */
  lemma ReleaseStep(s: State, c: nat, cpu: Cpu, me: Proc)
    requires Core(s) && c < |s.cpus| && Holds(s.cpus[c]) && !Holds(cpu)
    requires !HeldState(me.state) && FreeWell(me)
    requires SlotOf(me.pc).Some? ==> SlotOf(me.pc).value < NPROC
    requires ChildOf(me.pc).None? || ChildOf(me.pc) == ChildOf(s.procs[s.cpus[c].p].pc)
    ensures Core(s.(procs := s.procs[s.cpus[c].p := me], cpus := s.cpus[c := cpu]))
  {
    var p := s.cpus[c].p;
    var s' := s.(procs := s.procs[p := me], cpus := s.cpus[c := cpu]);
    assert HeldBy(s, p, c);
    assert forall q: nat, d: nat :: HeldBy(s', q, d) <==> HeldBy(s, q, d) && d != c;
    forall d | 0 <= d < |s'.cpus| && Holds(s'.cpus[d])
      ensures HeldWell(s'.cpus[d], s'.procs[s'.cpus[d].p])
    {
      assert HeldBy(s, s.cpus[d].p, d);
    }
    forall q | 0 <= q < NPROC && HeldState(s'.procs[q].state) ensures exists d :: HeldBy(s', q, d) {
      var d :| HeldBy(s, q, d);
      assert HeldBy(s', q, d);
    }
  }

  /** A CPU holding nothing picks a runnable process. */
  lemma PickStep(s: State, c: nat, p: nat)
    requires Core(s) && c < |s.cpus| && !Holds(s.cpus[c]) && p < NPROC && s.procs[p].state.RUNNABLE?
    ensures Core(s.(procs := s.procs[p := s.procs[p].(state := RUNNING)], cpus := s.cpus[c := Picked(p)]))
  {
    var s' := s.(procs := s.procs[p := s.procs[p].(state := RUNNING)], cpus := s.cpus[c := Picked(p)]);
    assert forall q: nat, d: nat :: HeldBy(s', q, d) <==> HeldBy(s, q, d) || (d == c && q == p);
    assert forall d: nat :: !HeldBy(s, p, d);
    forall d | 0 <= d < |s'.cpus| && Holds(s'.cpus[d])
      ensures HeldWell(s'.cpus[d], s'.procs[s'.cpus[d].p])
    {
      if d != c { assert HeldBy(s, s.cpus[d].p, d); }
    }
    forall q | 0 <= q < NPROC && HeldState(s'.procs[q].state) ensures exists d :: HeldBy(s', q, d) {
      if q == p {
        assert HeldBy(s', p, c);
      } else {
        var d :| HeldBy(s, q, d);
        assert HeldBy(s', q, d);
      }
    }
  }

  /** A change to a slot that no CPU holds, before and after. */
  lemma FreeStep(s: State, i: nat, it: Proc)
    requires Core(s) && i < NPROC && !HeldState(s.procs[i].state)
    requires !HeldState(it.state) && FreeWell(it)
    requires ChildOf(it.pc).None? || it.pc == s.procs[i].pc
    requires SlotOf(it.pc).Some? ==> SlotOf(it.pc).value < NPROC
    requires s.procs[i].state.EMBRYO? && !it.state.EMBRYO? ==>
               forall p :: 0 <= p < NPROC ==> ChildOf(s.procs[p].pc) != Some(i)
    ensures Core(s.(procs := s.procs[i := it]))
  {
    var s' := s.(procs := s.procs[i := it]);
    assert forall q: nat, d: nat :: HeldBy(s', q, d) <==> HeldBy(s, q, d);
    forall d | 0 <= d < |s'.cpus| && Holds(s'.cpus[d])
      ensures HeldWell(s'.cpus[d], s'.procs[s'.cpus[d].p])
    {
      assert HeldBy(s, s.cpus[d].p, d);
    }
  }

  /** A change to a slot's parent or flags. */
  lemma FieldStep(s: State, i: nat, it: Proc)
    requires Core(s) && i < NPROC && it.state == s.procs[i].state && it.pc == s.procs[i].pc
    ensures Core(s.(procs := s.procs[i := it]))
  {
    var s' := s.(procs := s.procs[i := it]);
    assert forall q: nat, d: nat :: HeldBy(s', q, d) <==> HeldBy(s, q, d);
  }

  /** A CPU that holds nothing moves on. */
  lemma IdleStep(s: State, c: nat, cpu: Cpu)
    requires Core(s) && c < |s.cpus| && !Holds(s.cpus[c]) && !Holds(cpu)
    ensures Core(s.(cpus := s.cpus[c := cpu]))
  {
    var s' := s.(cpus := s.cpus[c := cpu]);
    assert forall q: nat, d: nat :: HeldBy(s', q, d) <==> HeldBy(s, q, d);
  }

  // ---- Every step keeps the core invariant -------------------------------------

  lemma CoreScheduler(s: State, step: Step)
    requires Core(s) && Enabled(s, step) && (step.TryPick? || step.Dispatch? || step.Interrupt?)
    ensures Core(Next(s, step))
  {
    var c := step.c;
    var cpu := s.cpus[c];
    if Holds(cpu) { assert HeldWell(cpu, s.procs[cpu.p]); }
    hide Exclusive, Located, Reserved;
    match step
    case TryPick(_) =>
      if cpu.i < NPROC && s.procs[cpu.i].state.RUNNABLE? {
        PickStep(s, c, cpu.i);
      } else {
        IdleStep(s, c, Next(s, step).cpus[c]);
      }
    case Dispatch(_, even) =>
      var me := s.procs[cpu.p];
      if me.frozen && !even {
        ReleaseStep(s, c, Scan(cpu.p + 1), me.(state := RUNNABLE));
      } else {
        HoldStep(s, c, Run(cpu.p), me);
        assert s.procs[cpu.p := me] == s.procs;
      }
    case Interrupt(_, x) =>
      IdleStep(s, c, Next(s, step).cpus[c]);
  }

  /** The scheduler gives the process it has left its final state and lets go of it. */
  lemma CoreSettle(s: State, c: nat)
    requires Core(s) && Enabled(s, SettleStep(c))
    ensures Core(Next(s, SettleStep(c)))
  {
    var p := s.cpus[c].p;
    assert HeldWell(s.cpus[c], s.procs[p]);
    hide Exclusive, Located, Reserved;
    var s' := Next(s, SettleStep(c));
    ReleaseStep(s, c, s'.cpus[c], s'.procs[p]);
  }

  /** One access of wakeup1, by whatever CPU. */
  lemma CoreWaker(s: State, w: Waker)
    requires Core(s) && WakerEnabled(s.procs, w)
    ensures Core(s.(procs := WakerProcs(s.procs, w)))
  {
    if WakerProcs(s.procs, w) != s.procs {
      FreeStep(s, w.slot, s.procs[w.slot].(state := RUNNABLE));
    }
  }

  lemma CoreBegin(s: State, c: nat, call: Call)
    requires Core(s) && Enabled(s, Begin(c, call)) && !call.CallFork?
    ensures Core(Next(s, Begin(c, call)))
  {
    var p := s.cpus[c].p;
    assert HeldWell(s.cpus[c], s.procs[p]);
    hide Exclusive, Located, Reserved;
    SelfStep(s, c, Next(s, Begin(c, call)).procs[p]);
  }

  lemma CoreBeginFork(s: State, c: nat, np: nat)
    requires Core(s) && Enabled(s, Begin(c, CallFork(np)))
    ensures Core(Next(s, Begin(c, CallFork(np))))
  {
    var p := s.cpus[c].p;
    assert HeldWell(s.cpus[c], s.procs[p]);
    assert forall q :: 0 <= q < NPROC ==> ChildOf(s.procs[q].pc) != Some(np);
    hide Exclusive, Located, Reserved;
    FreeStep(s, np, s.procs[np].(state := EMBRYO));
    var s1 := s.(procs := s.procs[np := s.procs[np].(state := EMBRYO)]);
    SelfStep(s1, c, s.procs[p].(pc := ForkInit(np)));
  }

  lemma CoreLeave(s: State, step: Step)
    requires Core(s) && Enabled(s, step) && (step.Preempt? || step.Swtch?)
    ensures Core(Next(s, step))
  {
    var c := step.c;
    var p := s.cpus[c].p;
    assert HeldWell(s.cpus[c], s.procs[p]);
    hide Exclusive, Located, Reserved;
    if step.Preempt? {
      SelfStep(s, c, Next(s, step).procs[p]);
    } else {
      HoldStep(s, c, Settle(p), s.procs[p].(pc := s.procs[p].pc.resume));
    }
  }

  /** A fork lets go of its child, which takes the given record. */
  lemma CoreUnfork(s: State, c: nat, it: Proc)
    requires Core(s) && c < |s.cpus| && s.cpus[c].Run? && ChildOf(s.procs[s.cpus[c].p].pc).Some?
    requires s.procs[s.cpus[c].p].state.RUNNING?
    requires it.state.UNUSED? || it.state.RUNNABLE?
    requires it.pc.User? || (it.state.UNUSED? && it.pc == s.procs[ChildOf(s.procs[s.cpus[c].p].pc).value].pc)
    ensures var p := s.cpus[c].p;
            var np := ChildOf(s.procs[p].pc).value;
            && s.procs[np].state.EMBRYO?
            && Core(s.(procs := s.procs[np := it][p := s.procs[p].(pc := User)]))
  {
    var p := s.cpus[c].p;
    var np := ChildOf(s.procs[p].pc).value;
    var s1 := s.(procs := s.procs[p := s.procs[p].(pc := User)]);
    assert s.procs[np].state.EMBRYO? && FreeWell(s.procs[np]);
    assert forall q :: 0 <= q < NPROC ==> ChildOf(s1.procs[q].pc) != Some(np);
    hide Exclusive, Located, Reserved;
    SelfStep(s, c, s.procs[p].(pc := User));
    FreeStep(s1, np, it);
    assert s.procs[np := it][p := s.procs[p].(pc := User)] == s1.procs[np := it];
  }

  /** An access that changes only the record of the process making it. */
  predicate OnlySelf(s: State, p: nat)
    requires |s.procs| == NPROC && p < NPROC && (SlotOf(s.procs[p].pc).Some? ==> SlotOf(s.procs[p].pc).value < NPROC)
  {
    match s.procs[p].pc
    case Waking(w, _) => w.slot >= NPROC
    case ForkInit(_) => false
    case ForkReady(_) => false
    case WaitTry(i) => !s.procs[i].state.ZOMBIE?
    case ReapParent(_) => false
    case ReapFree(i) => !s.procs[i].state.MINUS_UNUSED?
    case ExitHand(_) => false
    case _ => true
  }

  /** Such an access leaves the process at a point that its state allows. */
  lemma SelfRecord(s: State, p: nat)
    requires |s.procs| == NPROC && s.init < NPROC && p < NPROC
    requires SlotOf(s.procs[p].pc).Some? ==> SlotOf(s.procs[p].pc).value < NPROC
    requires OnlySelf(s, p) && RunsAt(s.procs[p].pc, s.procs[p].state) && !s.procs[p].pc.User? && !s.procs[p].pc.Sched?
    ensures var s' := AdvanceProc(s, p);
            s' == s.(procs := s.procs[p := s'.procs[p]]) && RunsAt(s'.procs[p].pc, s'.procs[p].state)
  {
  }

  /** It refers to no slot out of range, and to no child but the one it had. */
  lemma SelfSlots(s: State, p: nat)
    requires |s.procs| == NPROC && s.init < NPROC && p < NPROC
    requires SlotOf(s.procs[p].pc).Some? ==> SlotOf(s.procs[p].pc).value < NPROC
    requires OnlySelf(s, p) && RunsAt(s.procs[p].pc, s.procs[p].state) && !s.procs[p].pc.User? && !s.procs[p].pc.Sched?
    ensures var pc := AdvanceProc(s, p).procs[p].pc;
            && (ChildOf(pc).None? || ChildOf(pc) == ChildOf(s.procs[p].pc))
            && (SlotOf(pc).Some? ==> SlotOf(pc).value < NPROC)
  {
  }

  lemma CoreAdvanceSelf(s: State, c: nat)
    requires Core(s) && Enabled(s, Advance(c)) && OnlySelf(s, s.cpus[c].p)
    ensures Core(Next(s, Advance(c)))
  {
    var p := s.cpus[c].p;
    assert HeldWell(s.cpus[c], s.procs[p]);
    SelfRecord(s, p);
    SelfSlots(s, p);
    hide Exclusive, Located, Reserved, AdvanceProc, RunsAt, OnlySelf;
    SelfStep(s, c, AdvanceProc(s, p).procs[p]);
  }

  /** A process changes another slot, which stays well placed, and moves on to pc. */
  lemma SlotThenSelf(s: State, c: nat, i: nat, it: Proc, pc: Pc)
    requires Core(s) && c < |s.cpus| && s.cpus[c].Run? && i < NPROC && Core(s.(procs := s.procs[i := it]))
    requires i == s.cpus[c].p ==> it.state == s.procs[i].state && it.pc == s.procs[i].pc
    requires RunsAt(pc, s.procs[s.cpus[c].p].state)
    requires SlotOf(pc).Some? ==> SlotOf(pc).value < NPROC
    requires ChildOf(pc).None? || ChildOf(pc) == ChildOf(s.procs[s.cpus[c].p].pc)
    ensures Core(SetPc(s.(procs := s.procs[i := it]), s.cpus[c].p, pc))
  {
    hide Exclusive, Located, Reserved;
    var s1 := s.(procs := s.procs[i := it]);
    SelfStep(s1, c, s1.procs[s.cpus[c].p].(pc := pc));
  }

  lemma CoreAdvanceFork(s: State, c: nat)
    requires Core(s) && Enabled(s, Advance(c))
    requires s.procs[s.cpus[c].p].pc.ForkInit? || s.procs[s.cpus[c].p].pc.ForkReady?
    ensures Core(Next(s, Advance(c)))
  {
    var p, np := s.cpus[c].p, s.procs[s.cpus[c].p].pc.child;
    var me, child := s.procs[p], s.procs[np];
    assert HeldWell(s.cpus[c], me);
    if me.pc.ForkInit? {
      hide Exclusive, Located, Reserved;
      FieldStep(s, np, child.(parent := Some(p)));
      SlotThenSelf(s, c, np, child.(parent := Some(p)), ForkReady(np));
    } else {
      hide Exclusive, Located;
      CoreUnfork(s, c, child.(state := RUNNABLE, pc := User));
    }
  }

  lemma CoreAdvanceWaking(s: State, c: nat)
    requires Core(s) && Enabled(s, Advance(c)) && s.procs[s.cpus[c].p].pc.Waking?
             && s.procs[s.cpus[c].p].pc.w.slot < NPROC
    ensures Core(Next(s, Advance(c)))
  {
    var p := s.cpus[c].p;
    var w := s.procs[p].pc.w;
    assert HeldWell(s.cpus[c], s.procs[p]);
    hide Exclusive, Located, Reserved;
    CoreWaker(s, w);
    var s1 := s.(procs := WakerProcs(s.procs, w));
    SelfStep(s1, c, s1.procs[p].(pc := Waking(WakerNext(s.procs, w), s.procs[p].pc.resume)));
  }

  /** wait reaps a child: takes it, and in the end frees the slot. */
  lemma CoreAdvanceReap(s: State, c: nat)
    requires Core(s) && Enabled(s, Advance(c)) && !OnlySelf(s, s.cpus[c].p)
    requires var pc := s.procs[s.cpus[c].p].pc; pc.WaitTry? || pc.ReapFree?
    ensures Core(Next(s, Advance(c)))
  {
    var p := s.cpus[c].p;
    var i := s.procs[p].pc.i;
    var it, pc := s.procs[i], s.procs[p].pc;
    assert HeldWell(s.cpus[c], s.procs[p]);
    assert FreeWell(it) && !HeldState(it.state);
    hide Exclusive, Located, Reserved;
    if pc.WaitTry? {
      FreeStep(s, i, it.(state := MINUS_UNUSED));
      SlotThenSelf(s, c, i, it.(state := MINUS_UNUSED), ReapParent(i));
    } else {
      FreeStep(s, i, it.(state := UNUSED));
      SlotThenSelf(s, c, i, it.(state := UNUSED), User);
    }
  }

  /** In between it clears the child's fields. */
  lemma CoreAdvanceClear(s: State, c: nat)
    requires Core(s) && Enabled(s, Advance(c)) && s.procs[s.cpus[c].p].pc.ReapParent?
    ensures Core(Next(s, Advance(c)))
  {
    var p := s.cpus[c].p;
    var i := s.procs[p].pc.i;
    var it := s.procs[i].(parent := None, killed := false);
    assert HeldWell(s.cpus[c], s.procs[p]);
    hide Exclusive, Located, Reserved;
    FieldStep(s, i, it);
    SlotThenSelf(s, c, i, it, ReapChan(i));
  }

  /** exit hands a child to init. */
  lemma CoreAdvanceExit(s: State, c: nat)
    requires Core(s) && Enabled(s, Advance(c)) && s.procs[s.cpus[c].p].pc.ExitHand?
    ensures Core(Next(s, Advance(c)))
  {
    var p := s.cpus[c].p;
    var i := s.procs[p].pc.i;
    var it := s.procs[i].(parent := Some(s.init));
    assert HeldWell(s.cpus[c], s.procs[p]);
    hide Exclusive, Located, Reserved;
    FieldStep(s, i, it);
    SlotThenSelf(s, c, i, it, ExitCheck(i));
  }

  /** Every step keeps the core invariant; in particular none panics. */
  lemma CoreStep(s: State, step: Step)
    requires Core(s) && Enabled(s, step)
    ensures Core(Next(s, step))
  {
    match step
    case TryPick(_) => CoreScheduler(s, step);
    case Dispatch(_, _) => CoreScheduler(s, step);
    case SettleStep(c) => CoreSettle(s, c);
    case Interrupt(_, _) => CoreScheduler(s, step);
    case WakeStep(c) =>
      var w := s.cpus[c].w;
      if w.slot >= NPROC {
        IdleStep(s, c, Scan(s.cpus[c].resume));
      } else {
        CoreWaker(s, w);
        IdleStep(s.(procs := WakerProcs(s.procs, w)), c, Next(s, step).cpus[c]);
      }
    case Begin(c, call) =>
      if call.CallFork? { CoreBeginFork(s, c, call.child); } else { CoreBegin(s, c, call); }
    case Preempt(_) => CoreLeave(s, step);
    case Swtch(_) => CoreLeave(s, step);
    case Abort(c) =>
      var np := s.procs[s.cpus[c].p].pc.child;
      assert HeldWell(s.cpus[c], s.procs[s.cpus[c].p]);
      CoreUnfork(s, c, s.procs[np].(state := UNUSED));
    case Advance(c) =>
      var p := s.cpus[c].p;
      if OnlySelf(s, p) { CoreAdvanceSelf(s, c); }
      else if s.procs[p].pc.Waking? { CoreAdvanceWaking(s, c); }
      else if s.procs[p].pc.ExitHand? { CoreAdvanceExit(s, c); }
      else if s.procs[p].pc.ForkInit? || s.procs[p].pc.ForkReady? { CoreAdvanceFork(s, c); }
      else if s.procs[p].pc.ReapParent? { CoreAdvanceClear(s, c); }
      else { CoreAdvanceReap(s, c); }
  }
}
