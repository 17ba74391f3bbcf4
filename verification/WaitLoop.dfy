/**
 What wait decides (proc.c), over one scan of the table: it takes a zombie child, sleeps, or gives
 up, according to the children the process has and whether it has been killed.
 */
module WaitLoop {
  import opened ProcTable
  import opened Options
  import S = Scheduling
  import W = Wakeups

  /** In wait's loop over the table. */
  predicate Scanning(pc: Pc) {
    pc.WaitRead? || pc.WaitTry?
  }

  /** From state a, where the scan starts, to state b, process p is in one scan of the table. */
  ghost predicate OneScan(states: seq<State>, a: nat, b: nat, p: nat) {
    && a < b < |states| && p < NPROC && (forall k :: a <= k <= b ==> |states[k].procs| == NPROC)
    && states[a].procs[p].pc.WaitChan? && forall k :: a < k <= b ==> Scanning(states[k].procs[p].pc)
  }

  /** Slot c is a child of p all the while. */
  ghost predicate ChildThroughout(states: seq<State>, a: nat, b: nat, p: nat, c: nat)
    requires OneScan(states, a, b, p)
  {
    c < NPROC && forall k :: a <= k <= b ==> states[k].procs[c].parent == Some(p)
  }

  /** Slot c is a zombie child of p all the while. */
  ghost predicate ZombieThroughout(states: seq<State>, a: nat, b: nat, p: nat, c: nat)
    requires OneScan(states, a, b, p)
  {
    ChildThroughout(states, a, b, p, c) && forall k :: a <= k <= b ==> states[k].procs[c].state.ZOMBIE?
  }

  /** p has no child at any time. */
  ghost predicate NoChild(states: seq<State>, a: nat, b: nat, p: nat)
    requires OneScan(states, a, b, p)
  {
    forall k, c :: a <= k <= b && 0 <= c < NPROC ==> states[k].procs[c].parent != Some(p)
  }

  lemma StillThere(s: State, step: Step, p: nat)
    requires Core(s) && Enabled(s, step) && p < NPROC && (s.procs[p].pc.WaitChan? || Scanning(s.procs[p].pc))
    requires !step.Advance?
    ensures |Next(s, step).procs| == NPROC && Next(s, step).procs[p].pc == s.procs[p].pc
  {
    hide Exclusive, Located, Reserved;
  }

  /** Only the process itself moves on in wait. */
  lemma PcSteady(s: State, step: Step, p: nat)
    requires Core(s) && Enabled(s, step) && p < NPROC && (s.procs[p].pc.WaitChan? || Scanning(s.procs[p].pc))
    requires !(step.Advance? && s.cpus[step.c].p == p)
    ensures |Next(s, step).procs| == NPROC && Next(s, step).procs[p].pc == s.procs[p].pc
  {
    if step.Advance? {
      hide Next, Exclusive, Reserved;
      S.PcKept(s, step, p);
    } else {
      StillThere(s, step, p);
    }
  }

  /** What the scan knows at state k: the children it has passed have been noticed, and no others. */
  ghost predicate Noticed(states: seq<State>, a: nat, k: nat, p: nat)
    requires OneScan(states, a, k, p)
  {
    var pc := states[k].procs[p].pc;
    && (NoChild(states, a, k, p) ==> pc.WaitRead? && !pc.havekids)
    && (pc.WaitRead? && !pc.havekids ==> forall c: nat :: ChildThroughout(states, a, k, p, c) ==> pc.i <= c)
    && (forall c: nat :: ZombieThroughout(states, a, k, p, c) ==> pc.i <= c)
  }

  lemma Shorter(states: seq<State>, a: nat, k: nat, p: nat)
    requires OneScan(states, a, k + 1, p) && a < k
    ensures OneScan(states, a, k, p)
    ensures NoChild(states, a, k + 1, p) ==> NoChild(states, a, k, p)
    ensures forall c: nat :: ChildThroughout(states, a, k + 1, p, c) ==> ChildThroughout(states, a, k, p, c)
    ensures forall c: nat :: ZombieThroughout(states, a, k + 1, p, c) ==> ZombieThroughout(states, a, k, p, c)
  {
  }

  /** How the scan goes on from state s: past a slot that is no child, or over a child that is no zombie. */
  ghost predicate Goes(s: State, p: nat, pc': Pc)
    requires |s.procs| == NPROC && p < NPROC
  {
    match s.procs[p].pc
    case WaitChan => pc' == WaitRead(0, false)
    case WaitTry(i) => i < NPROC && !s.procs[i].state.ZOMBIE? && pc' == WaitRead(i + 1, true)
    case WaitRead(i, kids) =>
      i < NPROC && pc' == if s.procs[i].parent == Some(p) then WaitTry(i) else WaitRead(i + 1, kids)
    case _ => false
  }

  /** One access of the scan. */
  lemma ScanStep(s: State, p: nat)
    requires |s.procs| == NPROC && s.init < NPROC && p < NPROC && (s.procs[p].pc.WaitChan? || Scanning(s.procs[p].pc))
    requires SlotOf(s.procs[p].pc).Some? ==> SlotOf(s.procs[p].pc).value < NPROC
    ensures |AdvanceProc(s, p).procs| == NPROC
    ensures Scanning(AdvanceProc(s, p).procs[p].pc) ==> Goes(s, p, AdvanceProc(s, p).procs[p].pc)
  {
  }

  lemma NoticesMore(states: seq<State>, a: nat, k: nat, p: nat)
    requires OneScan(states, a, k + 1, p) && a < k && Noticed(states, a, k, p)
    requires states[k + 1].procs[p].pc == states[k].procs[p].pc || Goes(states[k], p, states[k + 1].procs[p].pc)
    ensures Noticed(states, a, k + 1, p)
  {
    Shorter(states, a, k, p);
    var pc, pc' := states[k].procs[p].pc, states[k + 1].procs[p].pc;
    if NoChild(states, a, k + 1, p) && pc' != pc {
      assert states[k].procs[pc.i].parent != Some(p);
    }
    var b := k + 1;
    forall c: nat | pc'.WaitRead? && !pc'.havekids && ChildThroughout(states, a, b, p, c) ensures pc'.i <= c {
      assert ChildThroughout(states, a, k, p, c) && states[k].procs[c].parent == Some(p);
    }
    forall c: nat | ZombieThroughout(states, a, b, p, c) ensures pc'.i <= c {
      assert ZombieThroughout(states, a, k, p, c);
      assert states[k].procs[c].parent == Some(p) && states[k].procs[c].state.ZOMBIE?;
    }
  }

  /** One step of a run in which p is in wait's scan before and after. */
  lemma ScanMoves(s: State, step: Step, p: nat)
    requires W.Inv(s) && Enabled(s, step) && p < NPROC && (s.procs[p].pc.WaitChan? || Scanning(s.procs[p].pc))
    ensures |Next(s, step).procs| == NPROC
    ensures var pc' := Next(s, step).procs[p].pc; pc' == s.procs[p].pc || (Scanning(pc') ==> Goes(s, p, pc'))
  {
    hide AdvanceProc, W.NoneLost, W.ChanSet, Exclusive, Located, Reserved, Goes;
    if step.Advance? && s.cpus[step.c].p == p {
      ScanStep(s, p);
    } else {
      PcSteady(s, step, p);
    }
  }

  lemma {:induction false} ScanNotices(states: seq<State>, steps: seq<Step>, a: nat, k: nat, p: nat)
    requires W.IsRun(states, steps) && W.Start(states[0]) && OneScan(states, a, k, p)
    ensures Noticed(states, a, k, p)
    decreases k
  {
    hide Next, W.Inv, Goes, Noticed, W.Start;
    var s, step := states[k - 1], steps[k - 1];
    assert states[k] == Next(s, step);
    W.RunKeeps(states, steps, k - 1);
    ScanMoves(s, step, p);
    if a < k - 1 {
      Shorter(states, a, k - 1, p);
      ScanNotices(states, steps, a, k - 1, p);
      NoticesMore(states, a, k - 1, p);
    } else {
      NoticesFirst(states, a, p);
    }
  }

  lemma NoticesFirst(states: seq<State>, a: nat, p: nat)
    requires OneScan(states, a, a + 1, p) && Goes(states[a], p, states[a + 1].procs[p].pc)
    ensures Noticed(states, a, a + 1, p)
  {
  }

  /** How the scan ends at state s. */
  lemma ScanEnds(s: State, step: Step, p: nat)
    requires W.Inv(s) && Enabled(s, step) && p < NPROC && Scanning(s.procs[p].pc)
    ensures |Next(s, step).procs| == NPROC
    ensures var me, pc' := s.procs[p], Next(s, step).procs[p].pc;
            !Scanning(pc') ==>
              if me.pc.WaitTry? then pc' == ReapParent(me.pc.i) && me.pc.i < NPROC && s.procs[me.pc.i].state.ZOMBIE?
              else me.pc.i >= NPROC && pc' == if !me.pc.havekids || me.killed then QuitChan else Sched(WaitTop)
  {
    hide W.NoneLost, W.ChanSet, Exclusive, Located, Reserved;
    if !(step.Advance? && s.cpus[step.c].p == p) { PcSteady(s, step, p); }
  }

  /**
   In every run, when process p comes to the end of a scan: it takes a zombie, gives up or sleeps; it takes
   one if some child was a zombie all the while; if it had a child all the while and is not killed it
   does not give up; if it had none it gives up; and if it is killed it does not sleep.
   */
  lemma WaitDecides(states: seq<State>, steps: seq<Step>, a: nat, b: nat, p: nat)
    requires W.IsRun(states, steps) && W.Start(states[0]) && OneScan(states, a, b, p) && b < |steps|
    requires |states[b + 1].procs| == NPROC && !Scanning(states[b + 1].procs[p].pc)
    ensures var pc := states[b + 1].procs[p].pc;
            && (pc == QuitChan || pc == Sched(WaitTop)
                || (pc.ReapParent? && pc.i < NPROC && states[b].procs[pc.i].state.ZOMBIE?))
            && ((exists c: nat :: ZombieThroughout(states, a, b, p, c)) ==> pc.ReapParent?)
            && ((exists c: nat :: ChildThroughout(states, a, b, p, c)) && !states[b].procs[p].killed ==> pc != QuitChan)
            && (NoChild(states, a, b, p) ==> pc == QuitChan)
            && (states[b].procs[p].killed ==> pc != Sched(WaitTop))
  {
    hide Next, W.Inv, W.Start, W.IsRun;
    ScanNotices(states, steps, a, b, p);
    W.RunKeeps(states, steps, b);
    LastStep(states, steps, b);
    ScanEnds(states[b], steps[b], p);
  }

  lemma LastStep(states: seq<State>, steps: seq<Step>, b: nat)
    requires W.IsRun(states, steps) && b < |steps| && W.Inv(states[b])
    ensures Enabled(states[b], steps[b]) && W.CanStep(states[b], steps[b]) && states[b + 1] == Next(states[b], steps[b])
  {
  }
}
