/**
 sleep and wakeup (proc.c): a wakeup that runs to its end leaves nobody asleep on its channel all the
 while, a process sleeps on the channel it asked for, and it is woken only for a reason.
 */
module Sleepers {
  import opened ProcTable
  import opened Options
  import W = Wakeups
  import S = Scheduling

  predicate AsleepOn(me: Proc, ch: Chan) {
    (me.state.SLEEPING? || me.state.MINUS_SLEEPING?) && me.chan == ch
  }

  /** The wakeup1 that CPU c is in, for its process or for itself. */
  ghost function WakerOf(s: State, c: nat): Option<Waker>
    requires Shape(s) && c < |s.cpus|
  {
    match s.cpus[c]
    case Wake(w, _) => Some(w)
    case Run(p) => if s.procs[p].pc.Waking? then Some(s.procs[p].pc.w) else None
    case _ => None
  }

  /** The channel a step starts a wakeup for: the one asked for, the parent's of a process that becomes
      a zombie, or init's when it inherits a zombie. */
  ghost function Wakes(s: State, step: Step): Option<Chan>
    requires Shape(s) && Enabled(s, step)
  {
    match step
    case Begin(_, CallWakeup(x)) => Some(Other(x))
    case Interrupt(_, x) => Some(Other(x))
    case SettleStep(c) =>
      var me := s.procs[s.cpus[c].p];
      if me.state.MINUS_ZOMBIE? && me.parent.Some? then Some(OnProc(me.parent.value)) else None
    case Advance(c) =>
      var pc := s.procs[s.cpus[c].p].pc;
      if pc.ExitCheck? && pc.i < NPROC && s.procs[pc.i].state.ZOMBIE? then Some(OnProc(s.init)) else None
    case _ => None
  }

  // ---- A wakeup misses nobody ----------------------------------------------------

  lemma WakerStarts(s: State, step: Step)
    requires W.Inv(s) && Enabled(s, step) && Wakes(s, step).Some?
    ensures Shape(Next(s, step)) && step.c < |Next(s, step).cpus|
    ensures WakerOf(Next(s, step), step.c) == Some(Waker(Wakes(s, step).value, 0, ReadState))
  {
    hide W.NoneLost, W.ChanSet, Exclusive, Located, Reserved;
  }

  /** A wakeup1 in progress moves only by its own CPU's steps, and leaves a slot only when it is done. */
  lemma WakerGoes(s: State, step: Step, c: nat, p: nat)
    requires W.Inv(s) && Enabled(s, step) && c < |s.cpus| && p < NPROC
    requires WakerOf(s, c).Some? && WakerOf(s, c).value.slot <= p
    ensures var s', w := Next(s, step), WakerOf(s, c).value;
            && Shape(s') && c < |s'.cpus|
            && (|| !AsleepOn(s.procs[p], w.chan)
                || !AsleepOn(s'.procs[p], w.chan)
                || (WakerOf(s', c).Some? && WakerOf(s', c).value.chan == w.chan && WakerOf(s', c).value.slot <= p))
  {
    hide W.NoneLost, W.ChanSet;
    W.StepKeeps(s, step);
    if step.c == c {
      WakerOwn(s, step, p);
    } else {
      WakerOther(s, step, c);
    }
  }

  lemma WakerOwn(s: State, step: Step, p: nat)
    requires Core(s) && Enabled(s, step) && p < NPROC
    requires WakerOf(s, step.c).Some? && WakerOf(s, step.c).value.slot <= p
    ensures var s', w := Next(s, step), WakerOf(s, step.c).value;
            && |s'.procs| == NPROC && step.c < |s'.cpus|
            && (Shape(s') ==>
                || !AsleepOn(s.procs[p], w.chan)
                || !AsleepOn(s'.procs[p], w.chan)
                || (WakerOf(s', step.c).Some? && WakerOf(s', step.c).value.chan == w.chan
                    && WakerOf(s', step.c).value.slot <= p))
  {
    hide Exclusive, Reserved;
  }

  lemma WakerOther(s: State, step: Step, c: nat)
    requires Core(s) && Enabled(s, step) && c < |s.cpus| && step.c != c
    ensures var s' := Next(s, step); c < |s'.cpus| && (Shape(s') ==> WakerOf(s', c) == WakerOf(s, c))
  {
    hide AdvanceProc, Reserved;
    if s.cpus[c].Run? {
      assert HeldBy(s, s.cpus[c].p, c);
      if Holds(s.cpus[step.c]) { assert HeldBy(s, s.cpus[step.c].p, step.c); }
      S.PcKept(s, step, s.cpus[c].p);
    }
    if step.Advance? { S.CpusKept(s, s.cpus[step.c].p); }
  }

  /** At some time from state a to state b process p is not asleep on ch. */
  ghost predicate AwakeOnce(states: seq<State>, a: nat, b: nat, p: nat, ch: Chan)
    requires b < |states| && p < NPROC && forall k :: 0 <= k < |states| ==> |states[k].procs| == NPROC
  {
    exists k: nat :: a <= k <= b && !AsleepOn(states[k].procs[p], ch)
  }

  lemma {:induction false} WakerArrives(states: seq<State>, steps: seq<Step>, a: nat, b: nat, p: nat, ch: Chan)
    requires W.IsRun(states, steps) && W.Start(states[0]) && a < b < |states| && p < NPROC
    requires W.CanStep(states[a], steps[a]) && Wakes(states[a], steps[a]) == Some(ch)
    requires forall k :: 0 <= k < |states| ==> |states[k].procs| == NPROC && Shape(states[k])
    ensures steps[a].c < |states[b].cpus|
    ensures AwakeOnce(states, a, b, p, ch)
            || (var w := WakerOf(states[b], steps[a].c); w.Some? && w.value.chan == ch && w.value.slot <= p)
    decreases b
  {
    hide Next, W.Inv, W.Start, AsleepOn;
    var s, step, c := states[b - 1], steps[b - 1], steps[a].c;
    W.RunKeeps(states, steps, b - 1);
    assert states[b - 1 + 1] == Next(s, step);
    if a == b - 1 {
      WakerStarts(s, step);
    } else {
      WakerArrives(states, steps, a, b - 1, p, ch);
      if AwakeOnce(states, a, b - 1, p, ch) {
        var k :| a <= k <= b - 1 && !AsleepOn(states[k].procs[p], ch);
        CpuCount(states, steps, a, b);
      } else {
        assert AsleepOn(states[b - 1].procs[p], ch);
        WakerGoes(s, step, c, p);
      }
    }
  }

  lemma {:induction false} CpuCount(states: seq<State>, steps: seq<Step>, a: nat, b: nat)
    requires W.IsRun(states, steps) && W.Start(states[0]) && a <= b < |states|
    ensures |states[a].cpus| == |states[b].cpus|
    decreases b
  {
    if a < b {
      CpuCount(states, steps, a, b - 1);
      assert states[b - 1 + 1] == Next(states[b - 1], steps[b - 1]);
      CpusStay(states[b - 1], steps[b - 1]);
    }
  }

  lemma CpusStay(s: State, step: Step)
    requires W.CanStep(s, step)
    ensures |Next(s, step).cpus| == |s.cpus|
  {
    hide AdvanceProc;
    if step.Advance? { S.CpusKept(s, s.cpus[step.c].p); }
  }

  lemma ShapesKept(states: seq<State>, steps: seq<Step>)
    requires W.IsRun(states, steps) && W.Start(states[0])
    ensures forall k :: 0 <= k < |states| ==> |states[k].procs| == NPROC && Shape(states[k])
  {
    forall k | 0 <= k < |states|
      ensures |states[k].procs| == NPROC && Shape(states[k]) { W.RunKeeps(states, steps, k); }
  }

  /**
   In every run, when a CPU starts a wakeup on ch and later is in none, no process was asleep on ch
   from the one time to the other.
   */
  lemma WakesAll(states: seq<State>, steps: seq<Step>, a: nat, b: nat, p: nat, ch: Chan)
    requires W.IsRun(states, steps) && W.Start(states[0]) && a < b < |states| && p < NPROC
    requires W.CanStep(states[a], steps[a]) && Wakes(states[a], steps[a]) == Some(ch)
    requires Shape(states[b]) && steps[a].c < |states[b].cpus| && WakerOf(states[b], steps[a].c).None?
    ensures forall k :: 0 <= k < |states| ==> |states[k].procs| == NPROC
    ensures AwakeOnce(states, a, b, p, ch)
  {
    ShapesKept(states, steps);
    WakerArrives(states, steps, a, b, p, ch);
  }

  // ---- A process sleeps on what it asked for -----------------------------------------

  /** In sleep(), from the setting of chan until it is woken, or in wait() with the scan behind it. */
  predicate InSleep(me: Proc) {
    || me.pc.SleepCas?
    || (&& (me.pc.User? || me.pc == Sched(User) || me.pc.WaitTop? || me.pc == Sched(WaitTop))
        && (me.state.MINUS_SLEEPING? || me.state.SLEEPING?))
  }

  /** Process p, asleep, is woken by this step: by a wakeup1 that has chosen its slot, or because it
      was killed on the way. */
  ghost predicate WokenBy(s: State, step: Step, p: nat)
    requires Shape(s) && Enabled(s, step) && p < NPROC
  {
    || (&& WakerOf(s, step.c).Some? && WakerOf(s, step.c).value.slot == p && WakerOf(s, step.c).value.phase.Spin?
        && s.procs[p].state.SLEEPING?)
    || (step.SettleStep? && s.cpus[step.c].p == p && s.procs[p].state.MINUS_SLEEPING? && s.procs[p].killed)
  }

  lemma OthersState(s: State, q: nat, p: nat)
    requires |s.procs| == NPROC && s.init < NPROC && q < NPROC && p < NPROC && q != p && !s.procs[q].pc.Waking?
    requires SlotOf(s.procs[q].pc).Some? ==> SlotOf(s.procs[q].pc).value < NPROC
    requires S.Alive(s.procs[p].state)
    ensures |AdvanceProc(s, q).procs| == NPROC && AdvanceProc(s, q).procs[p].state == s.procs[p].state
  {
  }

  lemma WakingState(s: State, q: nat, p: nat)
    requires |s.procs| == NPROC && s.init < NPROC && q < NPROC && p < NPROC && q != p && s.procs[q].pc.Waking?
    requires SlotOf(s.procs[q].pc).Some? ==> SlotOf(s.procs[q].pc).value < NPROC
    ensures |AdvanceProc(s, q).procs| == NPROC
    ensures var me, w := s.procs[p], s.procs[q].pc.w;
            AdvanceProc(s, q).procs[p].state ==
              if w.slot == p && w.phase.Spin? && me.state.SLEEPING? then RUNNABLE else me.state
  {
  }

  /** Where a process asleep, or on its way, can be. */
  lemma WhereAsleep(s: State, p: nat)
    requires Core(s) && p < NPROC && InSleep(s.procs[p])
    ensures S.Alive(s.procs[p].state) && forall q :: 0 <= q < NPROC ==> ChildOf(s.procs[q].pc) != Some(p)
    ensures forall c: nat :: c < |s.cpus| && Holds(s.cpus[c]) && s.cpus[c].p == p ==>
              match s.cpus[c]
              case Run(_) =>
                if s.procs[p].pc.SleepCas? then s.procs[p].state.RUNNING?
                else s.procs[p].pc.Sched? && s.procs[p].state.MINUS_SLEEPING?
              case Settle(_) => (s.procs[p].pc.User? || s.procs[p].pc.WaitTop?) && s.procs[p].state.MINUS_SLEEPING?
              case _ => false
  {
    hide SlotsInRange;
    if HeldState(s.procs[p].state) { var c: nat :| HeldBy(s, p, c); }
    assert forall c: nat :: c < |s.cpus| && Holds(s.cpus[c]) && s.cpus[c].p == p ==> HeldBy(s, p, c);
  }

  /** One step, told for process p: the channel stays, and the sleep ends only by being woken. */
  ghost predicate SleepsOn(s: State, step: Step, p: nat)
    requires Shape(s) && SlotsInRange(s) && Enabled(s, step) && p < NPROC
  {
    var s' := Next(s, step);
    && |s'.procs| == NPROC && s'.procs[p].chan == s.procs[p].chan
    && if WokenBy(s, step, p) then s'.procs[p].state.RUNNABLE? else InSleep(s'.procs[p])
  }

  lemma SleepAdvance(s: State, c: nat, p: nat)
    requires Core(s) && Enabled(s, Advance(c)) && p < NPROC && InSleep(s.procs[p])
    ensures SleepsOn(s, Advance(c), p)
  {
    hide AdvanceProc, Reserved, Exclusive, Located;
    WhereAsleep(s, p);
    if s.cpus[c].p != p {
      S.OthersAdvance(s, s.cpus[c].p, p);
      OthersFields(s, s.cpus[c].p, p);
      if s.procs[s.cpus[c].p].pc.Waking? { WakingState(s, s.cpus[c].p, p); } else { OthersState(s, s.cpus[c].p, p); }
    } else {
      SleepOwn(s, p);
    }
  }

  lemma SleepOwn(s: State, p: nat)
    requires |s.procs| == NPROC && s.init < NPROC && p < NPROC && s.procs[p].pc.SleepCas? && s.procs[p].state.RUNNING?
    ensures AdvanceProc(s, p).procs == s.procs[p := s.procs[p].(state := MINUS_SLEEPING, pc := Sched(User))]
  {
  }

  /** Only a wakeup, or having been killed, ends a sleep, and until then the channel stays. */
  lemma SleepStep(s: State, step: Step, p: nat)
    requires Core(s) && Enabled(s, step) && p < NPROC && InSleep(s.procs[p])
    ensures SleepsOn(s, step, p)
  {
    hide AdvanceProc, Reserved, Exclusive, Located;
    if step.Advance? {
      SleepAdvance(s, step.c, p);
    } else {
      WhereAsleep(s, p);
    }
  }

  /**
   In every run, while a process is asleep, or on its way, its channel stays, and it becomes RUNNABLE
   exactly when a wakeup1 that has chosen it finds it SLEEPING, or it settles after it was killed.
   */
  lemma WokenOnly(states: seq<State>, steps: seq<Step>, i: nat, p: nat)
    requires W.IsRun(states, steps) && W.Start(states[0]) && i < |steps| && p < NPROC
    requires |states[i].procs| == NPROC && InSleep(states[i].procs[p])
    ensures |states[i + 1].procs| == NPROC && W.CanStep(states[i], steps[i])
    ensures states[i + 1].procs[p].chan == states[i].procs[p].chan
    ensures states[i + 1].procs[p].state.RUNNABLE? <==> WokenBy(states[i], steps[i], p)
    ensures InSleep(states[i + 1].procs[p]) <==> !WokenBy(states[i], steps[i], p)
  {
    hide Next, Exclusive, Located, Reserved, W.NoneLost, W.ChanSet, W.Start, WokenBy;
    W.RunKeeps(states, steps, i);
    SleepStep(states[i], steps[i], p);
    assert states[i + 1] == Next(states[i], steps[i]);
    W.RunKeeps(states, steps, i + 1);
    if InSleep(states[i + 1].procs[p]) { WhereAwake(states[i + 1], p); }
  }

  lemma WhereAwake(s: State, p: nat)
    requires Core(s) && p < NPROC && InSleep(s.procs[p])
    ensures !s.procs[p].state.RUNNABLE?
  {
  }

  lemma SleepBegins(s: State, step: Step, x: nat)
    requires Core(s) && Enabled(s, step) && step.Begin? && step.call == CallSleep(x)
    ensures |Next(s, step).procs| == NPROC
    ensures InSleep(Next(s, step).procs[s.cpus[step.c].p]) && Next(s, step).procs[s.cpus[step.c].p].chan == Other(x)
  {
    hide Exclusive, Located, Reserved;
  }

  /** In every run, a process that calls sleep(x) is asleep on x, or on its way, until it is RUNNABLE again. */
  lemma {:induction false} SleepsOnAsked(states: seq<State>, steps: seq<Step>, a: nat, b: nat, p: nat, c: nat, x: nat)
    requires W.IsRun(states, steps) && W.Start(states[0]) && a < b < |states| && p < NPROC
    requires c < |states[a].cpus| && states[a].cpus[c] == Run(p) && steps[a] == Begin(c, CallSleep(x))
    requires forall k :: a < k <= b ==> |states[k].procs| == NPROC && !states[k].procs[p].state.RUNNABLE?
    ensures InSleep(states[b].procs[p]) && states[b].procs[p].chan == Other(x)
    decreases b
  {
    hide Next, Exclusive, Located, Reserved, W.NoneLost, W.ChanSet, W.Start, InSleep, WokenBy;
    if a + 1 < b {
      SleepsOnAsked(states, steps, a, b - 1, p, c, x);
      WokenOnly(states, steps, b - 1, p);
    } else {
      W.RunKeeps(states, steps, a);
      SleepBegins(states[a], steps[a], x);
      assert states[a + 1] == Next(states[a], steps[a]);
    }
  }

  // ---- A process is woken only for its channel ---------------------------------------------

  /** CPU c's wakeup1 w found its slot asleep at state a and on its channel at state b, and has spun since. */
  ghost predicate Chose(states: seq<State>, a: nat, b: nat, k: nat, c: nat, w: Waker)
    requires k < |states| && forall j :: 0 <= j < |states| ==> |states[j].procs| == NPROC && Shape(states[j])
  {
    && a < b < k && w.slot < NPROC && (forall j :: a <= j <= k ==> c < |states[j].cpus|)
    && (states[a].procs[w.slot].state.SLEEPING? || states[a].procs[w.slot].state.MINUS_SLEEPING?)
    && states[b].procs[w.slot].chan == w.chan
    && forall j :: a < j <= k ==> WakerOf(states[j], c) == Some(w.(phase := if j <= b then ReadChan else Spin))
  }

  /** Where a wakeup1 that is now at w' was before it: it has just found its slot asleep, or on its channel. */
  ghost predicate CameFrom(procs: seq<Proc>, w: Option<Waker>, w': Waker)
    requires |procs| == NPROC
  {
    && w.Some? && w.value.slot < NPROC
    && var p := procs[w.value.slot];
       match w'.phase
       case ReadState => true
       case ReadChan => w.value == w'.(phase := ReadState) && (p.state.SLEEPING? || p.state.MINUS_SLEEPING?)
       case Spin => w.value == w'.(phase := ReadChan) && p.chan == w'.chan
  }

  lemma BackOwn(s: State, step: Step)
    requires Core(s) && Enabled(s, step)
    ensures var s' := Next(s, step);
            && step.c < |s'.cpus|
            && (Shape(s') && WakerOf(s', step.c).Some? && !WakerOf(s', step.c).value.phase.ReadState?
                ==> CameFrom(s.procs, WakerOf(s, step.c), WakerOf(s', step.c).value))
  {
    hide AdvanceProc, Exclusive, Reserved;
    if step.Advance? { OwnWaker(s, s.cpus[step.c].p); S.CpusKept(s, s.cpus[step.c].p); }
  }

  lemma OwnWaker(s: State, p: nat)
    requires |s.procs| == NPROC && s.init < NPROC && p < NPROC && RunsAt(s.procs[p].pc, s.procs[p].state)
    requires SlotOf(s.procs[p].pc).Some? ==> SlotOf(s.procs[p].pc).value < NPROC
    ensures |AdvanceProc(s, p).procs| == NPROC
    ensures var pc, pc' := s.procs[p].pc, AdvanceProc(s, p).procs[p].pc;
            pc'.Waking? && !pc'.w.phase.ReadState? ==>
              pc.Waking? && pc.w.slot < NPROC && pc'.w == WakerNext(s.procs, pc.w)
  {
  }

  lemma WakerBack(s: State, step: Step, c: nat)
    requires W.Inv(s) && Enabled(s, step) && c < |s.cpus|
    ensures var s' := Next(s, step);
            && Shape(s') && c < |s'.cpus|
            && (WakerOf(s', c).Some? && !WakerOf(s', c).value.phase.ReadState? ==>
                  WakerOf(s', c) == WakerOf(s, c) || CameFrom(s.procs, WakerOf(s, c), WakerOf(s', c).value))
  {
    hide W.NoneLost, W.ChanSet;
    W.StepKeeps(s, step);
    if step.c != c {
      WakerOther(s, step, c);
    } else {
      BackOwn(s, step);
    }
  }

  /** CPU c's wakeup1 w found its slot asleep at state a and is about to read its channel. */
  ghost predicate Saw(states: seq<State>, a: nat, k: nat, c: nat, w: Waker)
    requires k < |states| && forall j :: 0 <= j < |states| ==> |states[j].procs| == NPROC && Shape(states[j])
  {
    && a < k && w.slot < NPROC && w.phase.ReadChan? && (forall j :: a <= j <= k ==> c < |states[j].cpus|)
    && (states[a].procs[w.slot].state.SLEEPING? || states[a].procs[w.slot].state.MINUS_SLEEPING?)
    && forall j :: a < j <= k ==> WakerOf(states[j], c) == Some(w)
  }

  lemma StepBack(states: seq<State>, steps: seq<Step>, k: nat, c: nat, w: Waker)
    requires W.IsRun(states, steps) && W.Start(states[0]) && k < |states| && Shape(states[k]) && c < |states[k].cpus|
    requires WakerOf(states[k], c) == Some(w) && !w.phase.ReadState?
    ensures k > 0 && Shape(states[k - 1]) && c < |states[k - 1].cpus|
    ensures WakerOf(states[k - 1], c) == Some(w) || CameFrom(states[k - 1].procs, WakerOf(states[k - 1], c), w)
  {
    hide Next;
    W.RunKeeps(states, steps, k - 1);
    CpuCount(states, steps, k - 1, k);
    WakerBack(states[k - 1], steps[k - 1], c);
    assert states[k - 1 + 1] == Next(states[k - 1], steps[k - 1]);
  }

  lemma {:induction false} SawAsleep(states: seq<State>, steps: seq<Step>, k: nat, c: nat, w: Waker) returns (a: nat)
    requires W.IsRun(states, steps) && W.Start(states[0]) && k < |states|
    requires forall j :: 0 <= j < |states| ==> |states[j].procs| == NPROC && Shape(states[j])
    requires c < |states[k].cpus| && WakerOf(states[k], c) == Some(w) && w.phase.ReadChan?
    ensures Saw(states, a, k, c, w)
    decreases k
  {
    hide W.IsRun, W.Start, WakerOf;
    StepBack(states, steps, k, c, w);
    if WakerOf(states[k - 1], c) == Some(w) {
      a := SawAsleep(states, steps, k - 1, c, w);
    } else {
      a := k - 1;
    }
  }

  /** In every run, a wakeup1 spins on a slot only after finding it asleep, and then on its channel. */
  lemma {:induction false} SpinChosen(states: seq<State>, steps: seq<Step>, k: nat, c: nat, w: Waker)
    returns (a: nat, b: nat)
    requires W.IsRun(states, steps) && W.Start(states[0]) && k < |states|
    requires forall j :: 0 <= j < |states| ==> |states[j].procs| == NPROC && Shape(states[j])
    requires c < |states[k].cpus| && WakerOf(states[k], c) == Some(w) && w.phase.Spin?
    ensures Chose(states, a, b, k, c, w)
    decreases k
  {
    hide W.IsRun, W.Start, WakerOf;
    StepBack(states, steps, k, c, w);
    if WakerOf(states[k - 1], c) == Some(w) {
      a, b := SpinChosen(states, steps, k - 1, c, w);
    } else {
      b := k - 1;
      a := SawAsleep(states, steps, k - 1, c, w.(phase := ReadChan));
    }
  }

  /** Asleep, or on its way since its channel was set: in sleep, or in wait. */
  predicate Sleeps(me: Proc) {
    InSleep(me) || me.pc.WaitRead? || me.pc.WaitTry?
  }

  lemma ScanChan(s: State, step: Step, p: nat)
    requires Core(s) && Enabled(s, step) && p < NPROC && (s.procs[p].pc.WaitRead? || s.procs[p].pc.WaitTry?)
    ensures |Next(s, step).procs| == NPROC && Next(s, step).procs[p].chan == s.procs[p].chan
  {
    hide AdvanceProc, Exclusive, Reserved;
    if step.Advance? {
      if s.cpus[step.c].p == p { ScanSelf(s, p); } else { OthersFields(s, s.cpus[step.c].p, p); }
    }
  }

  lemma ScanSelf(s: State, p: nat)
    requires |s.procs| == NPROC && s.init < NPROC && p < NPROC && (s.procs[p].pc.WaitRead? || s.procs[p].pc.WaitTry?)
    requires SlotOf(s.procs[p].pc).Some? ==> SlotOf(s.procs[p].pc).value < NPROC
    ensures |AdvanceProc(s, p).procs| == NPROC && AdvanceProc(s, p).procs[p].chan == s.procs[p].chan
  {
  }

  lemma {:induction false} SameSleep(states: seq<State>, steps: seq<Step>, b: nat, k: nat, p: nat)
    requires W.IsRun(states, steps) && W.Start(states[0]) && b <= k < |states| && p < NPROC
    requires forall j :: b <= j <= k ==> |states[j].procs| == NPROC && Sleeps(states[j].procs[p])
    ensures states[b].procs[p].chan == states[k].procs[p].chan
    decreases k
  {
    hide Next, W.Start, W.Inv, InSleep, WokenBy;
    if b < k {
      SameSleep(states, steps, b, k - 1, p);
      assert Sleeps(states[k - 1].procs[p]);
      if InSleep(states[k - 1].procs[p]) {
        WokenOnly(states, steps, k - 1, p);
      } else {
        ScanRun(states, steps, k - 1, p);
      }
    }
  }

  lemma ScanRun(states: seq<State>, steps: seq<Step>, i: nat, p: nat)
    requires W.IsRun(states, steps) && W.Start(states[0]) && i < |steps| && p < NPROC
    requires |states[i].procs| == NPROC && (states[i].procs[p].pc.WaitRead? || states[i].procs[p].pc.WaitTry?)
    ensures |states[i + 1].procs| == NPROC && states[i + 1].procs[p].chan == states[i].procs[p].chan
  {
    hide Next;
    W.RunKeeps(states, steps, i);
    ScanChan(states[i], steps[i], p);
    assert states[i + 1] == Next(states[i], steps[i]);
  }

  /**
   In every run, a process that a wakeup1 makes RUNNABLE was found asleep, and then with that wakeup's
   channel; if it has been in one sleep since, that is the channel it was asleep on.
   */
  lemma WokenForChannel(states: seq<State>, steps: seq<Step>, i: nat, p: nat) returns (a: nat, b: nat)
    requires W.IsRun(states, steps) && W.Start(states[0]) && i < |steps| && p < NPROC
    requires forall j :: 0 <= j < |states| ==> |states[j].procs| == NPROC && Shape(states[j])
    requires W.CanStep(states[i], steps[i]) && WokenBy(states[i], steps[i], p) && !steps[i].SettleStep?
    ensures WakerOf(states[i], steps[i].c).Some?
    ensures Chose(states, a, b, i, steps[i].c, WakerOf(states[i], steps[i].c).value)
    ensures (forall j :: b <= j <= i ==> Sleeps(states[j].procs[p]))
            ==> WakerOf(states[i], steps[i].c).value.chan == states[i].procs[p].chan
  {
    hide Next, W.Start, Sleeps;
    var w := WakerOf(states[i], steps[i].c).value;
    a, b := SpinChosen(states, steps, i, steps[i].c, w);
    if forall j :: b <= j <= i ==> Sleeps(states[j].procs[p]) {
      SameSleep(states, steps, b, i, p);
    }
  }

  // ---- The channel is cleared -----------------------------------------------------------

  predicate Exited(st: PState) {
    st.UNUSED? || st.MINUS_UNUSED? || st.EMBRYO? || st.ZOMBIE?
  }

  predicate LeavesWait(pc: Pc) {
    pc.QuitRun? || pc.ReapRun? || pc.ReapFree?
  }

  /** A process that has exited, or is leaving wait, has no channel. */
  predicate Cleared(me: Proc) {
    Exited(me.state) || LeavesWait(me.pc) ==> me.chan.NoChan?
  }

  lemma OthersFields(s: State, q: nat, p: nat)
    requires |s.procs| == NPROC && s.init < NPROC && q < NPROC && p < NPROC && q != p
    requires SlotOf(s.procs[q].pc).Some? ==> SlotOf(s.procs[q].pc).value < NPROC
    ensures |AdvanceProc(s, q).procs| == NPROC
    ensures var me, me' := s.procs[p], AdvanceProc(s, q).procs[p];
            me'.chan == me.chan && (me'.pc == me.pc || me'.pc.User?)
  {
  }

  lemma OthersExited(s: State, q: nat, p: nat)
    requires |s.procs| == NPROC && s.init < NPROC && q < NPROC && p < NPROC && q != p && !s.procs[q].pc.Waking?
    requires SlotOf(s.procs[q].pc).Some? ==> SlotOf(s.procs[q].pc).value < NPROC
    ensures |AdvanceProc(s, q).procs| == NPROC
            && (Exited(AdvanceProc(s, q).procs[p].state) ==> Exited(s.procs[p].state))
  {
  }

  lemma SelfFields(s: State, p: nat)
    requires |s.procs| == NPROC && s.init < NPROC && p < NPROC && RunsAt(s.procs[p].pc, s.procs[p].state)
    requires SlotOf(s.procs[p].pc).Some? ==> SlotOf(s.procs[p].pc).value < NPROC
    ensures |AdvanceProc(s, p).procs| == NPROC
    ensures var me, me' := s.procs[p], AdvanceProc(s, p).procs[p];
            && (me.pc.QuitChan? || me.pc.ReapChan? ==> me'.chan.NoChan?)
            && (LeavesWait(me'.pc) ==> me.pc.QuitChan? || me.pc.ReapChan? || LeavesWait(me.pc))
  {
  }

  lemma SelfChan(s: State, p: nat)
    requires |s.procs| == NPROC && s.init < NPROC && p < NPROC
    requires SlotOf(s.procs[p].pc).Some? ==> SlotOf(s.procs[p].pc).value < NPROC
    ensures |AdvanceProc(s, p).procs| == NPROC
    ensures LeavesWait(s.procs[p].pc) ==> AdvanceProc(s, p).procs[p].chan == s.procs[p].chan
  {
  }

  lemma SelfHeld(s: State, c: nat)
    requires Core(s) && Enabled(s, Advance(c))
    ensures |AdvanceProc(s, s.cpus[c].p).procs| == NPROC
            && !Exited(AdvanceProc(s, s.cpus[c].p).procs[s.cpus[c].p].state)
  {
    hide AdvanceProc, Reserved;
    CoreStep(s, Advance(c));
    W.RunStaysHeld(s, Advance(c), c);
  }

  lemma ClearedAdvance(s: State, c: nat, p: nat)
    requires Core(s) && Enabled(s, Advance(c)) && p < NPROC && Cleared(s.procs[p])
    ensures |Next(s, Advance(c)).procs| == NPROC && Cleared(Next(s, Advance(c)).procs[p])
  {
    hide AdvanceProc, Reserved, Exclusive;
    if s.cpus[c].p == p {
      SelfFields(s, p);
      SelfChan(s, p);
      SelfHeld(s, c);
    } else {
      OthersFields(s, s.cpus[c].p, p);
      if s.procs[s.cpus[c].p].pc.Waking? { WakingState(s, s.cpus[c].p, p); } else { OthersExited(s, s.cpus[c].p, p); }
    }
  }

  lemma ClearedStep(s: State, step: Step, p: nat)
    requires Core(s) && Enabled(s, step) && p < NPROC && Cleared(s.procs[p])
    ensures |Next(s, step).procs| == NPROC && Cleared(Next(s, step).procs[p])
  {
    hide Next, AdvanceProc, Exclusive;
    if step.Advance? {
      ClearedAdvance(s, step.c, p);
    } else {
      ClearedOther(s, step, p);
    }
  }

  lemma ClearedOther(s: State, step: Step, p: nat)
    requires Shape(s) && SlotsInRange(s) && Enabled(s, step) && p < NPROC && Cleared(s.procs[p]) && !step.Advance?
    requires Holds(s.cpus[step.c]) ==> HeldWell(s.cpus[step.c], s.procs[s.cpus[step.c].p])
    requires step.Abort? ==> s.procs[s.procs[s.cpus[step.c].p].pc.child].state.EMBRYO?
    ensures |Next(s, step).procs| == NPROC && Cleared(Next(s, step).procs[p])
  {
    hide AdvanceProc;
  }

  /** In every run, an exited or unused process has no channel, and neither has one that is leaving wait. */
  lemma {:induction false} RunCleared(states: seq<State>, steps: seq<Step>, i: nat, p: nat)
    requires W.IsRun(states, steps) && W.Start(states[0]) && i < |states| && p < NPROC
    ensures |states[i].procs| == NPROC && Cleared(states[i].procs[p])
  {
    if i > 0 {
      hide Next;
      RunCleared(states, steps, i - 1, p);
      W.RunKeeps(states, steps, i - 1);
      ClearedStep(states[i - 1], steps[i - 1], p);
      assert states[i - 1 + 1] == Next(states[i - 1], steps[i - 1]);
    }
  }
}
