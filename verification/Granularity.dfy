/**
 Why ProcTable takes the scheduler's settling and wakeup1's waking of a slot as single
 steps: if either is taken one compare-and-swap at a time (proc.c:515, 522, 672, 686), a CPU
 delayed inside it lets two CPUs into the context of one process, and if neither is, none
 can. Here a single slot is watched, with each CPU's place in that code.
 */
module Granularity {
  import opened ProcTable

  datatype Place =
    | Idle       // in the scheduler's loop, at proc.c:474, or outside the table code
    | Inside     // in the context of the process, which is RUNNING
    | Leaving    // in its context, in sched(), state already changed
    | Settle1    // switched away, at proc.c:515
    | Settle2    // at proc.c:522
    | Wake1      // in wakeup1, chosen this slot, at proc.c:672
    | Wake2      // at proc.c:684-686

  datatype Slot = Slot(state: PState, cpus: seq<Place>)

  datatype Access =
    | Pick(k: nat) | Sleep(k: nat) | Yield(k: nat) | Switch(k: nat) | SettleNext(k: nat)
    | Choose(k: nat) | WakeNext(k: nat)

  predicate Possible(s: Slot, a: Access) {
    && a.k < |s.cpus|
    && match a
       case Pick(k) => s.cpus[k].Idle? && s.state.RUNNABLE?
       case Sleep(k) => s.cpus[k].Inside? && s.state.RUNNING?
       case Yield(k) => s.cpus[k].Inside? && s.state.RUNNING?
       case Switch(k) => s.cpus[k].Leaving?
       case SettleNext(k) => s.cpus[k].Settle1? || s.cpus[k].Settle2?
       case Choose(k) => s.cpus[k].Idle? && (s.state.SLEEPING? || s.state.MINUS_SLEEPING?)
       case WakeNext(k) => s.cpus[k].Wake1? || s.cpus[k].Wake2?
  }

  function Cas(st: PState, from: PState, to: PState): PState {
    if st == from then to else st
  }

  function After(s: Slot, a: Access): Slot
    requires Possible(s, a)
  {
    match a
    case Pick(k) => Slot(RUNNING, s.cpus[k := Inside])
    case Sleep(k) => Slot(MINUS_SLEEPING, s.cpus[k := Leaving])
    case Yield(k) => Slot(MINUS_RUNNABLE, s.cpus[k := Leaving])
    case Switch(k) => s.(cpus := s.cpus[k := Settle1])
    case SettleNext(k) =>
      if s.cpus[k].Settle1? then Slot(Cas(s.state, MINUS_SLEEPING, SLEEPING), s.cpus[k := Settle2])
      else Slot(Cas(s.state, MINUS_RUNNABLE, RUNNABLE), s.cpus[k := Idle])
    case Choose(k) => s.(cpus := s.cpus[k := Wake1])
    case WakeNext(k) =>
      if s.cpus[k].Wake1? then
        if s.state.SLEEPING? then Slot(MINUS_RUNNABLE, s.cpus[k := Wake2])
        else if s.state.RUNNING? then s.(cpus := s.cpus[k := Wake2])
        else s
      else Slot(if s.state.RUNNING? then s.state else Cas(s.state, MINUS_RUNNABLE, RUNNABLE), s.cpus[k := Idle])
  }

  /** Which of the two blocks other CPUs can come in between. */
  datatype Grain = Grain(settling: bool, waking: bool)

  /** Inside a block that is a single step. */
  predicate Midway(g: Grain, p: Place) {
    (p.Settle2? && !g.settling) || (p.Wake2? && !g.waking)
  }

  /** An access is possible, and no other CPU is inside a block that is a single step. */
  ghost predicate Allowed(g: Grain, s: Slot, a: Access) {
    Possible(s, a) && forall k: nat :: k < |s.cpus| && k != a.k ==> !Midway(g, s.cpus[k])
  }

  ghost predicate Leads(g: Grain, s: Slot, run: seq<Access>, t: Slot)
    decreases |run|
  {
    if run == [] then s == t else Allowed(g, s, run[0]) && Leads(g, After(s, run[0]), run[1..], t)
  }

  predicate InContext(p: Place) {
    p.Inside? || p.Leaving?
  }

  /** Two CPUs are in the context of the process. */
  ghost predicate Shared(s: Slot) {
    exists i, j :: 0 <= i < j < |s.cpus| && InContext(s.cpus[i]) && InContext(s.cpus[j])
  }

  /** The process is running on one CPU; the others are idle. */
  function Start(n: nat): Slot {
    Slot(RUNNING, [Inside] + seq(n, _ => Idle))
  }

  lemma Before(g: Grain, s: Slot, a: Access, s': Slot, run: seq<Access>, t: Slot)
    requires Allowed(g, s, a) && After(s, a) == s' && Leads(g, s', run, t)
    ensures Leads(g, s, [a] + run, t)
  {
    assert ([a] + run)[1..] == run;
  }

  lemma NoSteps(g: Grain, t: Slot)
    ensures Leads(g, t, [], t)
  {
  }

  /** CPU 0 puts the process to sleep and is delayed at proc.c:522; CPU 1 wakes it, CPU 2 runs it and
      yields; CPU 0, settling what it did not leave, makes it RUNNABLE and picks it up. */
  lemma SettlingSplit(g: Grain) returns (run: seq<Access>, t: Slot)
    requires g.settling
    ensures Leads(g, Start(2), run, t) && Shared(t)
  {
    hide Leads;
    run, t := [], Slot(RUNNING, [Inside, Idle, Leaving]);
    NoSteps(g, t);
    assert InContext(t.cpus[0]) && InContext(t.cpus[2]);
    assert Leads(g, Slot(RUNNABLE, [Idle, Idle, Leaving]), [Pick(0)] + run, t) by {
      Before(g, Slot(RUNNABLE, [Idle, Idle, Leaving]), Pick(0), t, run, t);
    }
    run := [Pick(0)] + run;
    assert Leads(g, Slot(MINUS_RUNNABLE, [Settle2, Idle, Leaving]), [SettleNext(0)] + run, t) by {
      Before(g, Slot(MINUS_RUNNABLE, [Settle2, Idle, Leaving]), SettleNext(0),
             Slot(RUNNABLE, [Idle, Idle, Leaving]), run, t);
    }
    run := [SettleNext(0)] + run;
    assert Leads(g, Slot(RUNNING, [Settle2, Idle, Inside]), [Yield(2)] + run, t) by {
      Before(g, Slot(RUNNING, [Settle2, Idle, Inside]), Yield(2),
             Slot(MINUS_RUNNABLE, [Settle2, Idle, Leaving]), run, t);
    }
    run := [Yield(2)] + run;
    assert Leads(g, Slot(RUNNABLE, [Settle2, Idle, Idle]), [Pick(2)] + run, t) by {
      Before(g, Slot(RUNNABLE, [Settle2, Idle, Idle]), Pick(2), Slot(RUNNING, [Settle2, Idle, Inside]), run, t);
    }
    run := [Pick(2)] + run;
    assert Leads(g, Slot(MINUS_RUNNABLE, [Settle2, Wake2, Idle]), [WakeNext(1)] + run, t) by {
      Before(g, Slot(MINUS_RUNNABLE, [Settle2, Wake2, Idle]), WakeNext(1),
             Slot(RUNNABLE, [Settle2, Idle, Idle]), run, t);
    }
    run := [WakeNext(1)] + run;
    assert Leads(g, Slot(SLEEPING, [Settle2, Wake1, Idle]), [WakeNext(1)] + run, t) by {
      Before(g, Slot(SLEEPING, [Settle2, Wake1, Idle]), WakeNext(1),
             Slot(MINUS_RUNNABLE, [Settle2, Wake2, Idle]), run, t);
    }
    run := [WakeNext(1)] + run;
    assert Leads(g, Slot(SLEEPING, [Settle2, Idle, Idle]), [Choose(1)] + run, t) by {
      Before(g, Slot(SLEEPING, [Settle2, Idle, Idle]), Choose(1), Slot(SLEEPING, [Settle2, Wake1, Idle]), run, t);
    }
    run := [Choose(1)] + run;
    assert Leads(g, Slot(MINUS_SLEEPING, [Settle1, Idle, Idle]), [SettleNext(0)] + run, t) by {
      Before(g, Slot(MINUS_SLEEPING, [Settle1, Idle, Idle]), SettleNext(0),
             Slot(SLEEPING, [Settle2, Idle, Idle]), run, t);
    }
    run := [SettleNext(0)] + run;
    assert Leads(g, Slot(MINUS_SLEEPING, [Leaving, Idle, Idle]), [Switch(0)] + run, t) by {
      Before(g, Slot(MINUS_SLEEPING, [Leaving, Idle, Idle]), Switch(0),
             Slot(MINUS_SLEEPING, [Settle1, Idle, Idle]), run, t);
    }
    run := [Switch(0)] + run;
    assert Leads(g, Slot(RUNNING, [Inside, Idle, Idle]), [Sleep(0)] + run, t) by {
      Before(g, Slot(RUNNING, [Inside, Idle, Idle]), Sleep(0), Slot(MINUS_SLEEPING, [Leaving, Idle, Idle]), run, t);
    }
    run := [Sleep(0)] + run;
    assert Start(2) == Slot(RUNNING, [Inside, Idle, Idle]);
  }

  /** CPU 1 chose the process while it was asleep, found it RUNNING on CPU 2, which CPU 3 had let in by
      waking it, and is delayed at proc.c:684; CPU 2 yields, CPU 1 makes the process RUNNABLE, and
      CPU 0 picks it up. */
  lemma WakingOvertaken(g: Grain) returns (run: seq<Access>, t: Slot)
    requires g.waking
    ensures Leads(g, Slot(RUNNABLE, [Idle, Wake1, Idle, Idle]), run, t) && Shared(t)
  {
    hide Leads;
    run, t := [], Slot(RUNNING, [Inside, Idle, Leaving, Idle]);
    NoSteps(g, t);
    assert InContext(t.cpus[0]) && InContext(t.cpus[2]);
    assert Leads(g, Slot(RUNNABLE, [Idle, Idle, Leaving, Idle]), [Pick(0)] + run, t) by {
      Before(g, Slot(RUNNABLE, [Idle, Idle, Leaving, Idle]), Pick(0), t, run, t);
    }
    run := [Pick(0)] + run;
    assert Leads(g, Slot(MINUS_RUNNABLE, [Idle, Wake2, Leaving, Idle]), [WakeNext(1)] + run, t) by {
      Before(g, Slot(MINUS_RUNNABLE, [Idle, Wake2, Leaving, Idle]), WakeNext(1),
             Slot(RUNNABLE, [Idle, Idle, Leaving, Idle]), run, t);
    }
    run := [WakeNext(1)] + run;
    assert Leads(g, Slot(RUNNING, [Idle, Wake2, Inside, Idle]), [Yield(2)] + run, t) by {
      Before(g, Slot(RUNNING, [Idle, Wake2, Inside, Idle]), Yield(2),
             Slot(MINUS_RUNNABLE, [Idle, Wake2, Leaving, Idle]), run, t);
    }
    run := [Yield(2)] + run;
    assert Leads(g, Slot(RUNNING, [Idle, Wake1, Inside, Idle]), [WakeNext(1)] + run, t) by {
      Before(g, Slot(RUNNING, [Idle, Wake1, Inside, Idle]), WakeNext(1),
             Slot(RUNNING, [Idle, Wake2, Inside, Idle]), run, t);
    }
    run := [WakeNext(1)] + run;
    assert Leads(g, Slot(RUNNABLE, [Idle, Wake1, Idle, Idle]), [Pick(2)] + run, t) by {
      Before(g, Slot(RUNNABLE, [Idle, Wake1, Idle, Idle]), Pick(2), Slot(RUNNING, [Idle, Wake1, Inside, Idle]), run, t);
    }
    run := [Pick(2)] + run;
  }

  lemma WakingSplit(g: Grain) returns (run: seq<Access>, t: Slot)
    requires g.waking
    ensures Leads(g, Start(3), run, t) && Shared(t)
  {
    hide Leads;
    run, t := WakingOvertaken(g);
    assert Leads(g, Slot(MINUS_RUNNABLE, [Idle, Wake1, Idle, Wake2]), [WakeNext(3)] + run, t) by {
      Before(g, Slot(MINUS_RUNNABLE, [Idle, Wake1, Idle, Wake2]), WakeNext(3),
             Slot(RUNNABLE, [Idle, Wake1, Idle, Idle]), run, t);
    }
    run := [WakeNext(3)] + run;
    assert Leads(g, Slot(SLEEPING, [Idle, Wake1, Idle, Wake1]), [WakeNext(3)] + run, t) by {
      Before(g, Slot(SLEEPING, [Idle, Wake1, Idle, Wake1]), WakeNext(3),
             Slot(MINUS_RUNNABLE, [Idle, Wake1, Idle, Wake2]), run, t);
    }
    run := [WakeNext(3)] + run;
    assert Leads(g, Slot(SLEEPING, [Idle, Wake1, Idle, Idle]), [Choose(3)] + run, t) by {
      Before(g, Slot(SLEEPING, [Idle, Wake1, Idle, Idle]), Choose(3),
             Slot(SLEEPING, [Idle, Wake1, Idle, Wake1]), run, t);
    }
    run := [Choose(3)] + run;
    assert Leads(g, Slot(SLEEPING, [Settle2, Wake1, Idle, Idle]), [SettleNext(0)] + run, t) by {
      Before(g, Slot(SLEEPING, [Settle2, Wake1, Idle, Idle]), SettleNext(0),
             Slot(SLEEPING, [Idle, Wake1, Idle, Idle]), run, t);
    }
    run := [SettleNext(0)] + run;
    assert Leads(g, Slot(MINUS_SLEEPING, [Settle1, Wake1, Idle, Idle]), [SettleNext(0)] + run, t) by {
      Before(g, Slot(MINUS_SLEEPING, [Settle1, Wake1, Idle, Idle]), SettleNext(0),
             Slot(SLEEPING, [Settle2, Wake1, Idle, Idle]), run, t);
    }
    run := [SettleNext(0)] + run;
    assert Leads(g, Slot(MINUS_SLEEPING, [Leaving, Wake1, Idle, Idle]), [Switch(0)] + run, t) by {
      Before(g, Slot(MINUS_SLEEPING, [Leaving, Wake1, Idle, Idle]), Switch(0),
             Slot(MINUS_SLEEPING, [Settle1, Wake1, Idle, Idle]), run, t);
    }
    run := [Switch(0)] + run;
    assert Leads(g, Slot(MINUS_SLEEPING, [Leaving, Idle, Idle, Idle]), [Choose(1)] + run, t) by {
      Before(g, Slot(MINUS_SLEEPING, [Leaving, Idle, Idle, Idle]), Choose(1),
             Slot(MINUS_SLEEPING, [Leaving, Wake1, Idle, Idle]), run, t);
    }
    run := [Choose(1)] + run;
    assert Leads(g, Slot(RUNNING, [Inside, Idle, Idle, Idle]), [Sleep(0)] + run, t) by {
      Before(g, Slot(RUNNING, [Inside, Idle, Idle, Idle]), Sleep(0),
             Slot(MINUS_SLEEPING, [Leaving, Idle, Idle, Idle]), run, t);
    }
    run := [Sleep(0)] + run;
    assert Start(3) == Slot(RUNNING, [Inside, Idle, Idle, Idle]);
  }

  // ---- With both blocks as single steps -----------------------------------------------

  predicate Busy(p: Place) {
    p.Inside? || p.Leaving? || p.Settle1? || p.Settle2?
  }

  /** Where a CPU can be, given the state of the slot. */
  predicate Fits(st: PState, p: Place) {
    match p
    case Inside => st.RUNNING?
    case Leaving => st.MINUS_SLEEPING? || st.MINUS_RUNNABLE?
    case Settle1 => st.MINUS_SLEEPING? || st.MINUS_RUNNABLE?
    case Settle2 => st.SLEEPING? || st.MINUS_RUNNABLE?
    case Wake2 => st.RUNNING? || st.MINUS_RUNNABLE?
    case _ => true
  }

  ghost predicate Exclusive(s: Slot) {
    && (forall k :: 0 <= k < |s.cpus| ==> Fits(s.state, s.cpus[k]))
    && (forall j, k :: 0 <= j < k < |s.cpus| ==> !(Busy(s.cpus[j]) && Busy(s.cpus[k])))
    && (forall j, k :: 0 <= j < |s.cpus| && 0 <= k < |s.cpus| && s.cpus[j].Wake2? && Busy(s.cpus[k]) ==>
        s.state.RUNNING?)
  }

  /** One CPU moves on and the slot changes state. */
  lemma MoveExclusive(s: Slot, k: nat, st: PState, p: Place)
    requires Exclusive(s) && k < |s.cpus| && Fits(st, p)
    requires forall i :: 0 <= i < |s.cpus| && i != k ==> Fits(st, s.cpus[i])
    requires Busy(p) ==> forall i :: 0 <= i < |s.cpus| && i != k ==> !Busy(s.cpus[i])
    requires st.RUNNING? || (!p.Wake2? && !Busy(p))
             || forall i :: 0 <= i < |s.cpus| && i != k ==> !Busy(s.cpus[i]) && !s.cpus[i].Wake2?
    requires st == s.state || st.RUNNING? || forall i :: 0 <= i < |s.cpus| && i != k ==> !s.cpus[i].Wake2?
    ensures Exclusive(Slot(st, s.cpus[k := p]))
  {
  }

  lemma StepExclusive(s: Slot, a: Access)
    requires Exclusive(s) && Allowed(Grain(false, false), s, a)
    ensures Exclusive(After(s, a))
  {
    var t := After(s, a);
    hide Exclusive, After;
    MoveExclusive(s, a.k, t.state, t.cpus[a.k]);
  }

  lemma {:induction false} RunExclusive(s: Slot, run: seq<Access>, t: Slot)
    requires Exclusive(s) && Leads(Grain(false, false), s, run, t)
    ensures Exclusive(t)
    decreases |run|
  {
    if run != [] {
      StepExclusive(s, run[0]);
      RunExclusive(After(s, run[0]), run[1..], t);
    }
  }

  /** On enough CPUs some run puts two of them in the process if and only if settling or waking is split. */
  lemma TwoHolders(g: Grain)
    ensures g.settling || g.waking <==> exists n: nat, run, t :: Leads(g, Start(n), run, t) && Shared(t)
  {
    if g.settling {
      var run, t := SettlingSplit(g);
    } else if g.waking {
      var run, t := WakingSplit(g);
    } else {
      forall n: nat, run, t | Leads(g, Start(n), run, t) ensures !Shared(t) {
        RunExclusive(Start(n), run, t);
      }
    }
  }
}
