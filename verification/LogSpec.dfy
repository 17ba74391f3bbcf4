/**
 What the on-disk log means (log.c), as functions from disks to disks.

 A transaction is a list of home block numbers and their new contents. Every
 state the disk passes through while a transaction commits, or while the log is
 recovered, is given by a function of the starting disk and the number of block
 writes done so far. The crash theorems below are about those states.
 */
module LogSpec {
  import opened Blocks

  const MAXOPBLOCKS := 10
  const LOGSIZE := MAXOPBLOCKS * 3

  /** Where the log lives: one header block, then size - 1 blocks of contents. */
  datatype Layout = Layout(dev: nat, start: nat, size: nat) {
    function Header(): Name { Name(dev, start) }
    function Slot(i: nat): Name { Name(dev, start + 1 + i) }
    function Home(b: nat): Name { Name(dev, b) }
    predicate InLog(n: Name) { n.dev == dev && start <= n.blockno < start + size }
  }

  /** A list of home blocks that fits the log: outside the log, each listed once. */
  ghost predicate Loggable(l: Layout, bs: seq<uint>) {
    && |bs| <= LOGSIZE
    && |bs| < l.size
    && (forall i :: 0 <= i < |bs| ==> !l.InLog(l.Home(bs[i])))
    && (forall i, j :: 0 <= i < j < |bs| ==> bs[i] != bs[j])
  }

  // ---- The header block -------------------------------------------------

  /** The block list stored in a header: a count, then that many words. */
  function DecodeHead(b: Block): (bs: seq<uint>)
    requires Word(b, 0) < NWORDS
    ensures |bs| == Word(b, 0)
    ensures forall i :: 0 <= i < |bs| ==> bs[i] == Word(b, i + 1)
  {
    TakeWords(b, Word(b, 0))
  }

  function TakeWords(b: Block, k: nat): (bs: seq<uint>)
    requires k < NWORDS
    ensures |bs| == k
    ensures forall i :: 0 <= i < k ==> bs[i] == Word(b, i + 1)
  {
    if k == 0 then [] else TakeWords(b, k - 1) + [Word(b, k)]
  }

  function PutWords(b: Block, bs: seq<uint>, k: nat): (r: Block)
    requires k <= |bs| < NWORDS
    ensures Word(r, 0) == Word(b, 0)
    ensures forall i :: 0 <= i < k ==> Word(r, i + 1) == bs[i]
  {
    if k == 0 then b else SetWord(PutWords(b, bs, k - 1), k, bs[k - 1])
  }

  /** The header block rewritten to list bs; words past the list are left alone. */
  function EncodeHead(b: Block, bs: seq<uint>): (r: Block)
    requires |bs| <= LOGSIZE
    ensures Word(r, 0) == |bs| && DecodeHead(r) == bs
  {
    PutWords(SetWord(b, 0, |bs|), bs, |bs|)
  }

  ghost predicate HasHead(d: Disk, l: Layout) {
    var b := Read(d, l.Header());
    Word(b, 0) < NWORDS && Loggable(l, DecodeHead(b))
  }

  ghost function Head(d: Disk, l: Layout): seq<uint>
    requires HasHead(d, l)
  {
    DecodeHead(Read(d, l.Header()))
  }

  ghost predicate Clear(d: Disk, l: Layout) {
    0 < l.size && Word(Read(d, l.Header()), 0) == 0
  }

  // ---- States of the disk -----------------------------------------------

  /** After the first k contents have been copied into the log. */
  ghost function Logged(d: Disk, l: Layout, cs: seq<Block>, k: nat): Disk
    requires k <= |cs|
  {
    if k == 0 then d else Logged(d, l, cs, k - 1)[l.Slot(k - 1) := cs[k - 1]]
  }

  /** After the header has been rewritten to list bs. */
  ghost function Headed(d: Disk, l: Layout, bs: seq<uint>): Disk
    requires |bs| <= LOGSIZE
  {
    d[l.Header() := EncodeHead(Read(d, l.Header()), bs)]
  }

  /** After the first k logged blocks have been copied to their homes. */
  ghost function Installed(d: Disk, l: Layout, bs: seq<uint>, k: nat): Disk
    requires k <= |bs|
  {
    if k == 0 then d
    else
      var d' := Installed(d, l, bs, k - 1);
      d'[l.Home(bs[k - 1]) := Read(d', l.Slot(k - 1))]
  }

  /** After k of the writes that install bs and then clear the header. */
  ghost function InstallState(d: Disk, l: Layout, bs: seq<uint>, k: nat): Disk
    requires k <= |bs| + 1
  {
    if k <= |bs| then Installed(d, l, bs, k) else Headed(Installed(d, l, bs, |bs|), l, [])
  }

  /** The disk after k of the 2 * |bs| + 2 block writes of a commit. */
  ghost function CommitState(d: Disk, l: Layout, bs: seq<uint>, cs: seq<Block>, k: nat): Disk
    requires |bs| == |cs| <= LOGSIZE && k <= 2 * |bs| + 2
  {
    var n := |bs|;
    if k <= n then Logged(d, l, cs, k)
    else InstallState(Headed(Logged(d, l, cs, n), l, bs), l, bs, k - n - 1)
  }

  /** The disk after k of the block writes of recovery. */
  ghost function RecoveryState(d: Disk, l: Layout, k: nat): Disk
    requires HasHead(d, l) && k <= |Head(d, l)| + 1
  {
    InstallState(d, l, Head(d, l), k)
  }

  /** What a recovery that runs to the end leaves. */
  ghost function Recovered(d: Disk, l: Layout): Disk
    requires HasHead(d, l)
  {
    RecoveryState(d, l, |Head(d, l)| + 1)
  }

  // ---- The block writes, one disk per write ----------------------------------

  ghost function LogTrace(t: History, d: Disk, l: Layout, cs: seq<Block>, k: nat): History
    requires k <= |cs|
  {
    if k == 0 then t else Wrote(LogTrace(t, d, l, cs, k - 1), Logged(d, l, cs, k))
  }

  ghost function InstallTrace(t: History, d: Disk, l: Layout, bs: seq<uint>, k: nat): History
    requires k <= |bs| + 1
  {
    if k == 0 then t else Wrote(InstallTrace(t, d, l, bs, k - 1), InstallState(d, l, bs, k))
  }

  ghost function CommitTrace(t: History, d: Disk, l: Layout, bs: seq<uint>, cs: seq<Block>, k: nat): History
    requires |bs| == |cs| <= LOGSIZE && k <= 2 * |bs| + 2
  {
    if k == 0 then t else Wrote(CommitTrace(t, d, l, bs, cs, k - 1), CommitState(d, l, bs, cs, k))
  }

  lemma {:induction false} CommitTraceLogs(t: History, d: Disk, l: Layout, bs: seq<uint>, cs: seq<Block>, k: nat)
    requires |bs| == |cs| <= LOGSIZE && k <= |bs|
    ensures CommitTrace(t, d, l, bs, cs, k) == LogTrace(t, d, l, cs, k)
  {
    if k > 0 {
      CommitTraceLogs(t, d, l, bs, cs, k - 1);
    }
  }

  lemma CommitStateInstalls(d: Disk, l: Layout, bs: seq<uint>, cs: seq<Block>, k: nat)
    requires |bs| == |cs| <= LOGSIZE && k <= |bs| + 1
    ensures CommitState(d, l, bs, cs, |bs| + 1 + k) == InstallState(CommitState(d, l, bs, cs, |bs| + 1), l, bs, k)
  {
  }

  lemma {:induction false} CommitTraceInstalls(t: History, d: Disk, l: Layout, bs: seq<uint>, cs: seq<Block>, k: nat)
    requires |bs| == |cs| <= LOGSIZE && k <= |bs| + 1
    ensures CommitTrace(t, d, l, bs, cs, |bs| + 1 + k)
         == InstallTrace(CommitTrace(t, d, l, bs, cs, |bs| + 1), CommitState(d, l, bs, cs, |bs| + 1), l, bs, k)
  {
    hide CommitState, InstallState;
    if k > 0 {
      CommitTraceInstalls(t, d, l, bs, cs, k - 1);
      CommitStateInstalls(d, l, bs, cs, k);
    }
  }

  /** Two disks agree everywhere outside the log. */
  ghost predicate SameHome(l: Layout, d: Disk, d': Disk) {
    forall n :: !l.InLog(n) ==> Read(d, n) == Read(d', n)
  }

  /** The effect of a transaction on a flat disk, with no log at all. */
  ghost function Applied(d: Disk, l: Layout, bs: seq<uint>, cs: seq<Block>): Disk
    requires |bs| == |cs|
  {
    if bs == [] then d
    else
      var k := |bs| - 1;
      Applied(d, l, bs[..k], cs[..k])[l.Home(bs[k]) := cs[k]]
  }

  // ---- What each phase leaves where --------------------------------------

  lemma {:induction false} LoggedReads(d: Disk, l: Layout, cs: seq<Block>, k: nat)
    requires k <= |cs| < l.size
    ensures SameHome(l, d, Logged(d, l, cs, k))
    ensures Read(Logged(d, l, cs, k), l.Header()) == Read(d, l.Header())
    ensures forall i :: 0 <= i < k ==> Read(Logged(d, l, cs, k), l.Slot(i)) == cs[i]
  {
    if k > 0 {
      LoggedReads(d, l, cs, k - 1);
    }
  }

  lemma {:induction false} InstalledReads(d: Disk, l: Layout, bs: seq<uint>, k: nat)
    requires Loggable(l, bs) && k <= |bs|
    ensures forall n :: l.InLog(n) ==> Read(Installed(d, l, bs, k), n) == Read(d, n)
    ensures forall i :: 0 <= i < k ==> Read(Installed(d, l, bs, k), l.Home(bs[i])) == Read(d, l.Slot(i))
    ensures forall n :: (forall i :: 0 <= i < k ==> n != l.Home(bs[i])) ==>
              Read(Installed(d, l, bs, k), n) == Read(d, n)
  {
    if k > 0 {
      InstalledReads(d, l, bs, k - 1);
      assert l.InLog(l.Slot(k - 1));
    }
  }

  lemma {:induction false} AppliedReads(d: Disk, l: Layout, bs: seq<uint>, cs: seq<Block>)
    requires Loggable(l, bs) && |bs| == |cs|
    ensures forall i :: 0 <= i < |bs| ==> Read(Applied(d, l, bs, cs), l.Home(bs[i])) == cs[i]
    ensures forall n :: (forall i :: 0 <= i < |bs| ==> n != l.Home(bs[i])) ==>
              Read(Applied(d, l, bs, cs), n) == Read(d, n)
  {
    if bs != [] {
      var k := |bs| - 1;
      AppliedReads(d, l, bs[..k], cs[..k]);
      var prev := Applied(d, l, bs[..k], cs[..k]);
      forall i | 0 <= i < |bs| ensures Read(Applied(d, l, bs, cs), l.Home(bs[i])) == cs[i] {
        if i < k { assert bs[..k][i] == bs[i]; }
      }
      forall n | forall i :: 0 <= i < |bs| ==> n != l.Home(bs[i])
        ensures Read(Applied(d, l, bs, cs), n) == Read(d, n)
      {
        assert n != l.Home(bs[k]);
        assert forall i :: 0 <= i < k ==> bs[..k][i] == bs[i];
      }
    }
  }

  /** Installing a log whose contents are cs does what the transaction does. */
  lemma InstallApplies(d: Disk, l: Layout, bs: seq<uint>, cs: seq<Block>, d0: Disk)
    requires Loggable(l, bs) && |bs| == |cs|
    requires forall i :: 0 <= i < |bs| ==> Read(d, l.Slot(i)) == cs[i]
    requires forall n :: !l.InLog(n) && (forall i :: 0 <= i < |bs| ==> n != l.Home(bs[i])) ==> Read(d, n) == Read(d0, n)
    ensures SameHome(l, Installed(d, l, bs, |bs|), Applied(d0, l, bs, cs))
  {
    InstalledReads(d, l, bs, |bs|);
    AppliedReads(d0, l, bs, cs);
    forall n | !l.InLog(n) ensures Read(Installed(d, l, bs, |bs|), n) == Read(Applied(d0, l, bs, cs), n) {
      if i :| 0 <= i < |bs| && n == l.Home(bs[i]) {
      } else {
      }
    }
  }

  // ---- Crash theorems -----------------------------------------------------

  /** Recovery clears the log and, started on a clear log, changes no home block. */
  lemma RecoveredClear(d: Disk, l: Layout)
    requires HasHead(d, l)
    ensures Clear(Recovered(d, l), l)
    ensures HasHead(Recovered(d, l), l) && Head(Recovered(d, l), l) == []
    ensures Clear(d, l) ==> SameHome(l, d, Recovered(d, l))
    ensures SameHome(l, Recovered(d, l), Installed(d, l, Head(d, l), |Head(d, l)|))
  {
  }

  /** A clear disk is one recovery may be started on. */
  lemma ClearHasHead(d: Disk, l: Layout)
    requires Clear(d, l)
    ensures HasHead(d, l) && Head(d, l) == []
  {
  }

  /**
   Crash during recovery: whatever part of recovery was done, recovering from the
   disk it left reaches the same home blocks as recovering the original disk.
   */
  lemma RecoveryCrash(d: Disk, l: Layout, k: nat)
    requires HasHead(d, l) && k <= |Head(d, l)| + 1
    ensures HasHead(RecoveryState(d, l, k), l)
    ensures SameHome(l, Recovered(RecoveryState(d, l, k), l), Recovered(d, l))
  {
    hide SetWord, PutWords, TakeWords, Word;
    var bs := Head(d, l);
    RecoveredClear(d, l);
    if k <= |bs| {
      var d' := RecoveryState(d, l, k);
      InstalledReads(d, l, bs, k);
      InstalledReads(d, l, bs, |bs|);
      InstalledReads(d', l, bs, |bs|);
      assert l.InLog(l.Header());
      assert forall i :: 0 <= i < |bs| ==> l.InLog(l.Slot(i));
      RecoveredClear(d', l);
      forall n | !l.InLog(n) ensures Read(Recovered(d', l), n) == Read(Recovered(d, l), n) {
        if i :| 0 <= i < |bs| && n == l.Home(bs[i]) {
        } else {
        }
      }
    } else {
      RecoveredClear(Recovered(d, l), l);
    }
  }

  /** The first k writes of a commit include its header write. */
  ghost predicate Committed(bs: seq<uint>, k: nat) {
    |bs| < k
  }

  /** Crash before the header write: the log still reads as empty. */
  lemma CrashBeforeHead(d: Disk, l: Layout, cs: seq<Block>, k: nat)
    requires Clear(d, l) && k <= |cs| < l.size
    ensures HasHead(Logged(d, l, cs, k), l)
    ensures SameHome(l, Recovered(Logged(d, l, cs, k), l), d)
  {
    LoggedReads(d, l, cs, k);
    ClearHasHead(Logged(d, l, cs, k), l);
    RecoveredClear(Logged(d, l, cs, k), l);
  }

  /** The header write makes recovery give the whole transaction. */
  lemma HeadCommits(d: Disk, l: Layout, bs: seq<uint>, cs: seq<Block>)
    requires Loggable(l, bs) && |bs| == |cs|
    ensures var h := Headed(Logged(d, l, cs, |bs|), l, bs);
            && HasHead(h, l)
            && Head(h, l) == bs
            && SameHome(l, Recovered(h, l), Applied(d, l, bs, cs))
  {
    LoggedReads(d, l, cs, |bs|);
    var h := Headed(Logged(d, l, cs, |bs|), l, bs);
    assert l.InLog(l.Header());
    InstallApplies(h, l, bs, cs, d);
    RecoveredClear(h, l);
  }

  /**
   Crash during commit: recovery gives all of the transaction if its header write
   had been done and none of it otherwise.
   */
  lemma CommitCrash(d: Disk, l: Layout, bs: seq<uint>, cs: seq<Block>, k: nat)
    requires Clear(d, l) && Loggable(l, bs) && |bs| == |cs| && k <= 2 * |bs| + 2
    ensures HasHead(CommitState(d, l, bs, cs, k), l)
    ensures !Committed(bs, k) ==> SameHome(l, Recovered(CommitState(d, l, bs, cs, k), l), d)
    ensures Committed(bs, k) ==> SameHome(l, Recovered(CommitState(d, l, bs, cs, k), l), Applied(d, l, bs, cs))
  {
    if k <= |bs| {
      CrashBeforeHead(d, l, cs, k);
    } else {
      HeadCommits(d, l, bs, cs);
      var h := Headed(Logged(d, l, cs, |bs|), l, bs);
      assert CommitState(d, l, bs, cs, k) == RecoveryState(h, l, k - |bs| - 1);
      RecoveryCrash(h, l, k - |bs| - 1);
    }
  }

  /** A commit that is not cut off clears the log and leaves the transaction applied. */
  lemma CommitDone(d: Disk, l: Layout, bs: seq<uint>, cs: seq<Block>)
    requires Clear(d, l) && Loggable(l, bs) && |bs| == |cs|
    ensures Clear(CommitState(d, l, bs, cs, 2 * |bs| + 2), l)
    ensures SameHome(l, CommitState(d, l, bs, cs, 2 * |bs| + 2), Applied(d, l, bs, cs))
  {
    CommitCrash(d, l, bs, cs, 2 * |bs| + 2);
    RecoveredClear(CommitState(d, l, bs, cs, 2 * |bs| + 2), l);
  }

  // ---- Whole runs ----------------------------------------------------------

  /**
   One life of the machine at a time: a commit cut off after `writes` block writes,
   a power failure between transactions, or a recovery cut off after `writes`.
   */
  datatype Event =
    | Commit(bs: seq<uint>, cs: seq<Block>, writes: nat)
    | PowerFailure
    | Recovery(writes: nat)

  /** The disk, and whether the system is up, that is, past recovery. */
  datatype Machine = Machine(disk: Disk, up: bool)

  ghost predicate Enabled(m: Machine, l: Layout, e: Event) {
    match e
    case Commit(bs, cs, k) => m.up && bs != [] && Loggable(l, bs) && |bs| == |cs| && k <= 2 * |bs| + 2
    case PowerFailure => m.up
    case Recovery(k) => !m.up && HasHead(m.disk, l) && k <= |Head(m.disk, l)| + 1
  }

  ghost function Step(m: Machine, l: Layout, e: Event): Machine
    requires Enabled(m, l, e)
  {
    match e
    case Commit(bs, cs, k) => Machine(CommitState(m.disk, l, bs, cs, k), k == 2 * |bs| + 2)
    case PowerFailure => Machine(m.disk, false)
    case Recovery(k) => Machine(RecoveryState(m.disk, l, k), k == |Head(m.disk, l)| + 1)
  }

  ghost predicate CanRun(m: Machine, l: Layout, es: seq<Event>)
    decreases |es|, 0
  {
    es == [] || (CanRun(m, l, es[..|es| - 1]) && Enabled(Run(m, l, es[..|es| - 1]), l, es[|es| - 1]))
  }

  ghost function Run(m: Machine, l: Layout, es: seq<Event>): Machine
    requires CanRun(m, l, es)
    decreases |es|, 1
  {
    if es == [] then m else Step(Run(m, l, es[..|es| - 1]), l, es[|es| - 1])
  }

  /** The same run on a flat disk: each transaction is there, whole, or not at all. */
  ghost function Flat(d: Disk, l: Layout, es: seq<Event>): Disk
    requires forall e :: e in es && e.Commit? ==> |e.bs| == |e.cs|
  {
    if es == [] then d
    else
      var e := es[|es| - 1];
      var d' := Flat(d, l, es[..|es| - 1]);
      if e.Commit? && Committed(e.bs, e.writes) then Applied(d', l, e.bs, e.cs) else d'
  }

  lemma AppliedSameHome(l: Layout, d: Disk, d': Disk, bs: seq<uint>, cs: seq<Block>)
    requires Loggable(l, bs) && |bs| == |cs| && SameHome(l, d, d')
    ensures SameHome(l, Applied(d, l, bs, cs), Applied(d', l, bs, cs))
  {
    AppliedReads(d, l, bs, cs);
    AppliedReads(d', l, bs, cs);
    forall n | !l.InLog(n) ensures Read(Applied(d, l, bs, cs), n) == Read(Applied(d', l, bs, cs), n) {
      if i :| 0 <= i < |bs| && n == l.Home(bs[i]) {
      } else {
      }
    }
  }

  ghost predicate WellPaired(es: seq<Event>) {
    forall e :: e in es && e.Commit? ==> |e.bs| == |e.cs|
  }

  /**
   Crash atomicity over whole runs. Whatever sequence of commits, power failures and
   cut-off recoveries has happened, recovering now gives exactly the home blocks of
   the flat disk to which the committed transactions were applied, in order; and
   whenever the system is up the disk already holds them and the log is clear.
   */
  lemma {:induction false} CrashAtomicity(m: Machine, l: Layout, es: seq<Event>)
    requires m.up && Clear(m.disk, l) && CanRun(m, l, es)
    ensures WellPaired(es)
    ensures HasHead(Run(m, l, es).disk, l)
    ensures SameHome(l, Recovered(Run(m, l, es).disk, l), Flat(m.disk, l, es))
    ensures Run(m, l, es).up ==>
              Clear(Run(m, l, es).disk, l) && SameHome(l, Run(m, l, es).disk, Flat(m.disk, l, es))
  {
    if es == [] {
      RecoveredClear(m.disk, l);
    } else {
      var before, e := es[..|es| - 1], es[|es| - 1];
      CrashAtomicity(m, l, before);
      assert es == before + [e];
      StepAtomicity(Run(m, l, before), l, e, Flat(m.disk, l, before));
    }
  }

  /** One event of a run, against the flat disk f reached so far. */
  lemma StepAtomicity(m: Machine, l: Layout, e: Event, f: Disk)
    requires HasHead(m.disk, l) && Enabled(m, l, e)
    requires SameHome(l, Recovered(m.disk, l), f)
    requires m.up ==> Clear(m.disk, l) && SameHome(l, m.disk, f)
    ensures var f' := if e.Commit? && Committed(e.bs, e.writes) then Applied(f, l, e.bs, e.cs) else f;
            var m' := Step(m, l, e);
            && HasHead(m'.disk, l)
            && SameHome(l, Recovered(m'.disk, l), f')
            && (m'.up ==> Clear(m'.disk, l) && SameHome(l, m'.disk, f'))
  {
    var m' := Step(m, l, e);
    match e
    case Commit(bs, cs, k) =>
      CommitCrash(m.disk, l, bs, cs, k);
      AppliedSameHome(l, m.disk, f, bs, cs);
      if m'.up {
        RecoveredClear(m'.disk, l);
      }
    case PowerFailure =>
    case Recovery(k) =>
      RecoveryCrash(m.disk, l, k);
      RecoveredClear(m.disk, l);
  }

  /** Recovering twice changes nothing more than recovering once. */
  lemma RecoveryIdempotent(d: Disk, l: Layout)
    requires HasHead(d, l)
    ensures HasHead(Recovered(d, l), l)
    ensures SameHome(l, Recovered(Recovered(d, l), l), Recovered(d, l))
  {
    RecoveredClear(d, l);
    RecoveredClear(Recovered(d, l), l);
  }
}
