/**
 The link buffer drives the snapshot tail of the commit protocol.

 The two machines run side by side: publishing a timestamp adds its link, and the
 tail moves only where some thread inside advance_tail stores it. Publishing never asks
 whether there is space. As long as every published timestamp is less than a lap ahead of
 the tail, a joint run is a run of the commit protocol, so what is proved there holds of
 the tail the buffer really reports.
*/
module SnapshotRefinement {
  import opened Common
  import opened Versions
  import Occ
  import OccInv
  import OccPages
  import OccTheorems
  import LinkBuf

  datatype Joint = Joint(db: Occ.State, buf: LinkBuf.State)

  datatype Step =
    | Protocol(step: Occ.Step)      // anything that does not touch the snapshot tracker
    | Publish(step: Occ.Step)       // CommitTs of a read or a commit timestamp
    | Buffer(access: LinkBuf.Step)  // one access of a thread inside advance_tail

  /** The timestamp a publishing step hands to the tracker. */
  function Published(s: Occ.State, step: Occ.Step): Option<nat> {
    match step
    case PublishRead(r) => Some(r)
    case PublishCommit(r) => if r in s.txns then s.txns[r].commitTs else None
    case _ => None
  }

  /** The timestamp a step publishes, if any, is less than a lap ahead of the tail. */
  predicate InWindow(j: Joint, step: Step) {
    step.Publish? && Published(j.db, step.step).Some? ==> Published(j.db, step.step).value < j.buf.tail + j.buf.cap
  }

  ghost predicate Enabled(j: Joint, step: Step) {
    match step
    case Protocol(p) => !p.PublishRead? && !p.PublishCommit? && !p.AdvanceTail? && Occ.Enabled(j.db, p)
    case Publish(p) =>
      && (p.PublishRead? || p.PublishCommit?) && Occ.Enabled(j.db, p)
      && Published(j.db, p).Some? && LinkBuf.Shape(j.buf)
    case Buffer(b) => !b.AddLink? && LinkBuf.Shape(j.buf) && LinkBuf.Enabled(j.buf, b)
  }

  /** What the step is to the commit protocol; buffer steps short of the store leave its tail alone. */
  function Projected(j: Joint, step: Step): Occ.Step {
    match step
    case Protocol(p) => p
    case Publish(p) => p
    case Buffer(b) =>
      if b.StoreTail? && b.i in j.buf.threads && j.buf.threads[b.i].pc.Storing?
      then Occ.AdvanceTail(j.buf.threads[b.i].pc.pos)
      else Occ.AdvanceTail(j.db.tail)
  }

  /** One joint step. The protocol's tail is wherever the buffer's tail went. */
  ghost function Apply(j: Joint, step: Step): Joint
    requires Enabled(j, step)
  {
    match step
    case Protocol(p) => j.(db := Occ.Apply(j.db, p))
    case Publish(p) => Joint(Occ.Apply(j.db, p), LinkBuf.WithLink(j.buf, Published(j.db, p).value))
    case Buffer(b) =>
      var buf := LinkBuf.Apply(j.buf, b);
      Joint(j.db.(tail := buf.tail), buf)
  }

  /** The buffer as its constructor leaves it: position 0 linked and passed. */
  ghost predicate Ready(b: LinkBuf.State) {
    LinkBuf.Inv(b) && b.tail == 1 && b.linked == {0}
  }

  function LinkZero(i: nat, maxRetry: nat): seq<LinkBuf.Step> {
    [LinkBuf.AddLink(0), LinkBuf.Start(i, maxRetry), LinkBuf.LoadSlot(i), LinkBuf.Swap(i)]
  }

  function PassZero(i: nat): seq<LinkBuf.Step> {
    [LinkBuf.Confirm(i), LinkBuf.Walk(i), LinkBuf.StoreTail(i)]
  }

  /** The constructor links position 0 and one thread advances the tail over it. */
  lemma ConstructorReady(b: LinkBuf.State, i: nat, maxRetry: nat)
    requires LinkBuf.Init(b) && i in b.threads
    ensures LinkBuf.TakeAll(b, LinkZero(i, maxRetry) + PassZero(i)).Some?
    ensures Ready(LinkBuf.TakeAll(b, LinkZero(i, maxRetry) + PassZero(i)).value)
  {
    assert LinkBuf.Inv(b);
    hide LinkBuf.Inv, LinkBuf.TakeAll, LinkZero, PassZero;
    ConstructorLinks(b, i, maxRetry);
    ConstructorAdvances(LinkBuf.TakeAll(b, LinkZero(i, maxRetry)).value, i);
    LinkBuf.TakeAllConcat(b, LinkZero(i, maxRetry), PassZero(i));
    LinkBuf.TakeAllKeeps(b, LinkZero(i, maxRetry) + PassZero(i));
  }

  /** Zero is linked and locked by the thread, the next slot is empty. */
  ghost predicate ZeroLocked(s: LinkBuf.State, i: nat) {
    && LinkBuf.Shape(s) && i in s.threads && s.threads[i].pc == LinkBuf.Won(0, 1)
    && s.tail == 0 && s.linked == {0} && s.slots[1] == LinkBuf.Empty
  }

  lemma ConstructorLinks(b: LinkBuf.State, i: nat, maxRetry: nat)
    requires LinkBuf.Init(b) && i in b.threads
    ensures LinkBuf.TakeAll(b, LinkZero(i, maxRetry)).Some?
    ensures ZeroLocked(LinkBuf.TakeAll(b, LinkZero(i, maxRetry)).value, i)
  {
    var s1 := LinkBuf.Apply(b, LinkBuf.AddLink(0));
    var s2 := LinkBuf.Apply(s1, LinkBuf.Start(i, maxRetry));
    var s3 := LinkBuf.Apply(s2, LinkBuf.LoadSlot(i));
    var s4 := LinkBuf.Apply(s3, LinkBuf.Swap(i));
    assert s3.threads[i].pc == LinkBuf.Ready(0, 1) && ZeroLocked(s4, i);
    hide LinkBuf.Apply, LinkBuf.Enabled, LinkBuf.TakeAll, ZeroLocked;
    LinkBuf.TakeNone(s4);
    LinkBuf.TakeOne(s3, LinkBuf.Swap(i), []);
    LinkBuf.TakeOne(s2, LinkBuf.LoadSlot(i), [LinkBuf.Swap(i)]);
    LinkBuf.TakeOne(s1, LinkBuf.Start(i, maxRetry), [LinkBuf.LoadSlot(i), LinkBuf.Swap(i)]);
    LinkBuf.TakeOne(b, LinkBuf.AddLink(0), [LinkBuf.Start(i, maxRetry), LinkBuf.LoadSlot(i), LinkBuf.Swap(i)]);
  }

  lemma ConstructorAdvances(s: LinkBuf.State, i: nat)
    requires ZeroLocked(s, i)
    ensures var end := LinkBuf.TakeAll(s, PassZero(i));
            end.Some? && end.value.tail == 1 && end.value.linked == {0}
  {
    var s1 := LinkBuf.Apply(s, LinkBuf.Confirm(i));
    var s2 := LinkBuf.Apply(s1, LinkBuf.Walk(i));
    assert s2.threads[i].pc == LinkBuf.Storing(0, 1);
    var s3 := LinkBuf.Apply(s2, LinkBuf.StoreTail(i));
    hide LinkBuf.Apply, LinkBuf.Enabled, LinkBuf.TakeAll;
    LinkBuf.TakeNone(s3);
    LinkBuf.TakeOne(s2, LinkBuf.StoreTail(i), []);
    LinkBuf.TakeOne(s1, LinkBuf.Walk(i), [LinkBuf.StoreTail(i)]);
    LinkBuf.TakeOne(s, LinkBuf.Confirm(i), [LinkBuf.Walk(i), LinkBuf.StoreTail(i)]);
  }

  ghost predicate IsRun(mode: Occ.LockManager, run: seq<Joint>, steps: seq<Step>) {
    && |run| == |steps| + 1
    && run[0].db == Occ.Init(mode) && Ready(run[0].buf)
    && forall i :: 0 <= i < |steps| ==> Enabled(run[i], steps[i]) && run[i + 1] == Apply(run[i], steps[i])
  }

  /** The first `n` steps publish only inside the window. */
  ghost predicate Windowed(run: seq<Joint>, steps: seq<Step>, n: nat) {
    n <= |run| && n <= |steps| && forall m :: 0 <= m < n ==> InWindow(run[m], steps[m])
  }

  // ----- Which timestamps the tracker has been given -----

  /** `p` was handed out as the read timestamp that names its transaction, or as that transaction's commit timestamp. */
  ghost predicate Handed(s: Occ.State, p: nat)
    requires p in s.issued
  {
    var r := s.issued[p];
    r in s.txns && r <= p && (r != p ==> s.txns[r].commitTs == Some(p))
  }

  /** The transaction that was handed `p` is past the point where it publishes it. */
  ghost predicate Done(s: Occ.State, p: nat)
    requires p in s.issued && Handed(s, p)
  {
    var t := s.txns[s.issued[p]];
    if s.issued[p] == p then !t.phase.Starting? else t.phase == Occ.Releasing(true)
  }

  /** Exactly the timestamps that are done are published. */
  ghost predicate PublishedExactly(s: Occ.State) {
    forall p :: p in s.issued ==> Handed(s, p) && (p in s.published <==> Done(s, p))
  }

  /** Validation failed, or is about to have failed for good: the commit timestamp is lost. */
  predicate Doomed(t: Occ.Txn) {
    t.commitTs.Some? && (t.phase.Aborting? || t.phase == Occ.Releasing(false))
  }

  /** What any step but a publishing one keeps of a transaction. */
  ghost predicate SameProgress(s: Occ.State, t: Occ.Txn, t': Occ.Txn) {
    && t.phase.Starting? == t'.phase.Starting?
    && (t.phase == Occ.Releasing(true)) == (t'.phase == Occ.Releasing(true))
    && (t'.commitTs == t.commitTs || (t.commitTs.None? && t'.commitTs == Some(s.tso) && t'.phase.Validating?))
    && (Doomed(t) ==> Doomed(t'))
  }

  /** Nothing is published, and a timestamp issued now is not done. */
  ghost predicate Untracked(s: Occ.State, s': Occ.State) {
    && s'.tail == s.tail && s'.published == s.published
    && (forall r :: r in s.txns ==> r in s'.txns && SameProgress(s, s.txns[r], s'.txns[r]))
    && (forall p :: p in s.issued ==> p in s'.issued && s'.issued[p] == s.issued[p])
    && (forall p :: p in s'.issued && p !in s.issued ==>
          p == s.tso && Handed(s', p) && !Done(s', p))
  }

  /** A step that moves one transaction and hands out no timestamp. */
  lemma MoveUntracked(s: Occ.State, s': Occ.State, r: nat)
    requires r in s.txns && r in s'.txns && s'.txns == s.txns[r := s'.txns[r]]
    requires SameProgress(s, s.txns[r], s'.txns[r])
    requires s'.tail == s.tail && s'.published == s.published && s'.issued == s.issued
    ensures Untracked(s, s')
  {
  }

  lemma UserUntracked(s: Occ.State, p: Occ.Step)
    requires p.Write? || p.Read? || p.StartCommit? || p.Unlock? || p.Compact?
    requires Occ.Enabled(s, p)
    ensures Untracked(s, Occ.Apply(s, p))
  {
    hide Occ.At, VisibleAt, Blocked, Occ.CanCompact;
    if p.Write? || p.Read? || p.StartCommit? {
      MoveUntracked(s, Occ.Apply(s, p), p.r);
    }
  }

  lemma BeginUntracked(s: Occ.State)
    requires OccInv.Clock(s) && OccInv.Txns(s) && Occ.CanBegin(s)
    ensures Untracked(s, Occ.DoBegin(s))
  {
    assert s.tso in s.txns ==> OccInv.TxnShape(s, s.tso, s.txns[s.tso]);
  }

  lemma TakeCommitTsUntracked(s: Occ.State, r: nat)
    requires OccInv.Clock(s) && OccInv.Txns(s) && Occ.CanTakeCommitTs(s, r)
    ensures Untracked(s, Occ.DoTakeCommitTs(s, r))
  {
    var s' := Occ.DoTakeCommitTs(s, r);
    assert OccInv.TxnShape(s, r, s.txns[r]);
    assert s.tso !in s.issued && r < s.tso && s.txns[r].commitTs.None?;
    hide OccInv.Txns, OccInv.Clock;
    assert SameProgress(s, s.txns[r], s'.txns[r]);
    assert Handed(s', s.tso) && !Done(s', s.tso);
  }

  lemma InstallUntracked(s: Occ.State, r: nat, k: Occ.Key)
    requires Occ.CanInstall(s, r, k)
    ensures Untracked(s, Occ.DoInstall(s, r, k))
  {
    hide Occ.At, Occ.Conflicts, Untracked;
    MoveUntracked(s, Occ.DoInstall(s, r, k), r);
  }

  lemma ValidateUntracked(s: Occ.State, r: nat, k: Occ.Key)
    requires Occ.CanValidate(s, r, k)
    ensures Untracked(s, Occ.DoValidate(s, r, k))
  {
    hide Occ.At, Blocked, Occ.Agrees, Untracked;
    MoveUntracked(s, Occ.DoValidate(s, r, k), r);
  }

  lemma DecideUntracked(s: Occ.State, r: nat)
    requires Occ.CanDecide(s, r)
    ensures Untracked(s, Occ.DoDecide(s, r))
  {
    hide Untracked;
    MoveUntracked(s, Occ.DoDecide(s, r), r);
  }

  lemma ResolveUntracked(s: Occ.State, p: Occ.Step)
    requires p.Stamp? || p.Abort? || p.FinishAbort?
    requires Occ.Enabled(s, p)
    ensures Untracked(s, Occ.Apply(s, p))
  {
    hide Occ.At, Occ.Stamped, Untracked;
    MoveUntracked(s, Occ.Apply(s, p), p.r);
  }

  lemma ProtocolUntracked(s: Occ.State, p: Occ.Step)
    requires OccInv.Clock(s) && OccInv.Txns(s)
    requires !p.PublishRead? && !p.PublishCommit? && !p.AdvanceTail? && Occ.Enabled(s, p)
    ensures Untracked(s, Occ.Apply(s, p))
  {
    hide Untracked, OccInv.Txns, OccInv.Clock;
    match p
    case Begin => BeginUntracked(s);
    case TakeCommitTs(r) => TakeCommitTsUntracked(s, r);
    case Install(r, k) => InstallUntracked(s, r, k);
    case Validate(r, k) => ValidateUntracked(s, r, k);
    case Decide(r) => DecideUntracked(s, r);
    case _ =>
      hide Occ.Enabled, Occ.Apply;
      if p.Stamp? || p.Abort? || p.FinishAbort? {
        ResolveUntracked(s, p);
      } else {
        UserUntracked(s, p);
      }
  }

  lemma UntrackedKeepsExact(s: Occ.State, s': Occ.State)
    requires OccInv.Clock(s) && OccInv.Snapshots(s) && Untracked(s, s') && PublishedExactly(s)
    ensures PublishedExactly(s')
  {
    forall p | p in s'.issued
      ensures Handed(s', p) && (p in s'.published <==> Done(s', p))
    {
      if p in s.issued {
        var r := s.issued[p];
        assert SameProgress(s, s.txns[r], s'.txns[r]);
      }
    }
  }

  lemma PublishReadKeepsExact(s: Occ.State, r: nat)
    requires OccInv.Txns(s) && PublishedExactly(s) && Occ.CanPublishRead(s, r)
    ensures PublishedExactly(Occ.DoPublishRead(s, r))
  {
    var s' := Occ.DoPublishRead(s, r);
    assert OccInv.TxnShape(s, r, s.txns[r]);
    forall p | p in s'.issued
      ensures Handed(s', p) && (p in s'.published <==> Done(s', p))
    {
      assert p in s.published <==> Done(s, p);
    }
  }

  lemma PublishCommitKeepsExact(s: Occ.State, r: nat)
    requires OccInv.Txns(s) && PublishedExactly(s) && Occ.CanPublishCommit(s, r)
    ensures PublishedExactly(Occ.DoPublishCommit(s, r))
  {
    var s' := Occ.DoPublishCommit(s, r);
    assert OccInv.TxnShape(s, r, s.txns[r]);
    forall p | p in s'.issued
      ensures Handed(s', p) && (p in s'.published <==> Done(s', p))
    {
      assert p in s.published <==> Done(s, p);
    }
  }

  lemma ExactKept(s: Occ.State, step: Occ.Step)
    requires OccInv.Clock(s) && OccInv.Txns(s) && OccInv.Snapshots(s) && PublishedExactly(s)
    requires Occ.Enabled(s, step)
    ensures PublishedExactly(Occ.Apply(s, step))
  {
    if step.PublishRead? {
      PublishReadKeepsExact(s, step.r);
    } else if step.PublishCommit? {
      PublishCommitKeepsExact(s, step.r);
    } else if step.AdvanceTail? {
      assert forall p :: p in s.issued && Handed(s, p) ==> Handed(Occ.Apply(s, step), p);
    } else {
      hide Occ.Apply, Occ.Enabled, OccInv.Txns;
      ProtocolUntracked(s, step);
      UntrackedKeepsExact(s, Occ.Apply(s, step));
    }
  }

  /** A timestamp is never handed to the tracker twice. */
  lemma PublishedOnce(s: Occ.State, step: Occ.Step)
    requires OccInv.Clock(s) && OccInv.Txns(s) && OccInv.Snapshots(s) && PublishedExactly(s)
    requires (step.PublishRead? || step.PublishCommit?) && Occ.Enabled(s, step)
    ensures Published(s, step).Some?
    ensures 0 < Published(s, step).value && Published(s, step).value !in s.published
    ensures Occ.Apply(s, step).published == s.published + {Published(s, step).value}
    ensures Occ.Apply(s, step).tail == s.tail
  {
    assert OccInv.TxnShape(s, step.r, s.txns[step.r]);
  }

  // ----- The joint invariant -----

  ghost predicate Related(j: Joint) {
    && OccInv.Inv(j.db) && PublishedExactly(j.db) && LinkBuf.Inv(j.buf)
    && j.buf.tail == j.db.tail
    && j.buf.linked == j.db.published + {0}
  }

  lemma PublishKeeps(j: Joint, step: Step)
    requires Related(j) && Enabled(j, step) && step.Publish? && InWindow(j, step)
    ensures Related(Apply(j, step))
  {
    hide OccInv.Keys, OccInv.Intents, OccInv.Owners, OccInv.Locks, OccInv.Ledger, OccInv.Contents,
         OccInv.Reads, OccInv.Validated, LinkBuf.Inv, Occ.Apply, Occ.Enabled, OccInv.Txns, PublishedExactly;
    var ts := Published(j.db, step.step).value;
    OccPages.StepKeeps(j.db, step.step);
    ExactKept(j.db, step.step);
    PublishedOnce(j.db, step.step);
    assert LinkBuf.HasSpace(j.buf, ts);
    LinkBuf.StepKeeps(j.buf, LinkBuf.AddLink(ts));
  }

  /** Storing the tail is a legal move of the protocol's tail: every position passed was published. */
  lemma BufferStep(j: Joint, b: LinkBuf.Step)
    requires LinkBuf.Inv(j.buf) && !b.AddLink? && LinkBuf.Enabled(j.buf, b)
    requires j.buf.tail == j.db.tail && j.buf.linked == j.db.published + {0} && 1 <= j.db.tail
    ensures Occ.Enabled(j.db, Projected(j, Buffer(b)))
    ensures Occ.Apply(j.db, Projected(j, Buffer(b))) == j.db.(tail := LinkBuf.Apply(j.buf, b).tail)
    ensures LinkBuf.Apply(j.buf, b).linked == j.buf.linked
  {
    if b.StoreTail? {
      var pc := j.buf.threads[b.i].pc;
      assert LinkBuf.ThreadOk(j.buf, pc);
      forall p | j.db.tail <= p < pc.pos ensures p in j.db.published { assert p in j.buf.linked; }
    }
  }

  lemma BufferKeeps(j: Joint, step: Step)
    requires Related(j) && Enabled(j, step) && step.Buffer?
    ensures Related(Apply(j, step))
  {
    hide OccInv.Keys, OccInv.Intents, OccInv.Owners, OccInv.Locks, OccInv.Ledger, OccInv.Contents,
         OccInv.Reads, OccInv.Validated, LinkBuf.Inv, Occ.Apply, Occ.Enabled, OccInv.Txns, PublishedExactly,
         LinkBuf.Apply, LinkBuf.Enabled;
    BufferStep(j, step.access);
    LinkBuf.StepKeeps(j.buf, step.access);
    OccPages.StepKeeps(j.db, Projected(j, step));
    ExactKept(j.db, Projected(j, step));
  }

  lemma ProtocolKeeps(j: Joint, step: Step)
    requires Related(j) && Enabled(j, step) && step.Protocol?
    ensures Related(Apply(j, step))
  {
    hide OccInv.Keys, OccInv.Intents, OccInv.Owners, OccInv.Locks, OccInv.Ledger, OccInv.Contents,
         OccInv.Reads, OccInv.Validated, LinkBuf.Inv, Occ.Apply, Occ.Enabled, OccInv.Txns, PublishedExactly;
    OccPages.StepKeeps(j.db, step.step);
    ExactKept(j.db, step.step);
    ProtocolUntracked(j.db, step.step);
  }

  lemma {:induction false} RunRelated(mode: Occ.LockManager, run: seq<Joint>, steps: seq<Step>, n: nat)
    requires IsRun(mode, run, steps) && n < |run| && Windowed(run, steps, n)
    ensures Related(run[n])
  {
    hide OccInv.Inv, LinkBuf.Inv, Occ.Apply, Occ.Enabled, LinkBuf.Apply, LinkBuf.Enabled;
    if n == 0 {
      OccPages.InitHolds(mode);
    } else {
      RunRelated(mode, run, steps, n - 1);
      var j, step := run[n - 1], steps[n - 1];
      hide Related, Apply, Enabled, InWindow;
      match step
      case Protocol(_) => ProtocolKeeps(j, step);
      case Publish(_) => PublishKeeps(j, step);
      case Buffer(_) => BufferKeeps(j, step);
    }
  }

  // ----- Every joint run is a run of the protocol -----

  ghost function States(run: seq<Joint>): seq<Occ.State> {
    seq(|run|, i requires 0 <= i < |run| => run[i].db)
  }

  ghost function Steps(run: seq<Joint>, steps: seq<Step>): seq<Occ.Step>
    requires |run| == |steps| + 1
  {
    seq(|steps|, i requires 0 <= i < |steps| => Projected(run[i], steps[i]))
  }

  lemma StepProjects(j: Joint, step: Step)
    requires Related(j) && Enabled(j, step)
    ensures Occ.Enabled(j.db, Projected(j, step))
    ensures Apply(j, step).db == Occ.Apply(j.db, Projected(j, step))
  {
    hide OccInv.Keys, OccInv.Intents, OccInv.Owners, OccInv.Locks, OccInv.Ledger, OccInv.Contents,
         OccInv.Reads, OccInv.Validated, LinkBuf.Inv, Occ.Apply, Occ.Enabled, OccInv.Txns, PublishedExactly,
         LinkBuf.Apply, LinkBuf.Enabled;
    if step.Buffer? {
      BufferStep(j, step.access);
    }
  }

  lemma RunProjects(mode: Occ.LockManager, run: seq<Joint>, steps: seq<Step>)
    requires IsRun(mode, run, steps) && Windowed(run, steps, |steps|)
    ensures Occ.IsRun(mode, States(run), Steps(run, steps))
  {
    hide Related, Apply, Enabled, Projected, Occ.Apply, Occ.Enabled;
    var os, ps := States(run), Steps(run, steps);
    forall i | 0 <= i < |ps| ensures Occ.Enabled(os[i], ps[i]) && os[i + 1] == Occ.Apply(os[i], ps[i]) {
      RunRelated(mode, run, steps, i);
      StepProjects(run[i], steps[i]);
    }
  }

  /** The first `n` steps of a run. */
  lemma RunPrefix(mode: Occ.LockManager, run: seq<Joint>, steps: seq<Step>, n: nat)
    requires IsRun(mode, run, steps) && n < |run| && Windowed(run, steps, n)
    ensures IsRun(mode, run[..n + 1], steps[..n]) && Windowed(run[..n + 1], steps[..n], n)
  {
    hide Apply, Enabled, Ready, InWindow;
  }

  /**
   GetSnapshotTs returns the buffer's tail minus one. A read-only transaction that took it in
   `run[i]`, reading in any later state whatever the threads in the buffer and the protocol
   have done since, sees the serial execution of the commits up to its snapshot, provided
   every timestamp published so far was less than a lap ahead of the tail.
  */
  lemma TrackedSnapshotReads(
    mode: Occ.LockManager, run: seq<Joint>, steps: seq<Step>, i: nat, n: nat, k: Occ.Key, ignoreLock: bool)
    requires IsRun(mode, run, steps) && i <= n < |run| && Windowed(run, steps, n)
    ensures 1 <= run[i].buf.tail <= run[n].buf.tail
    ensures OccTheorems.SerialRun(run[n].db.commits, run[i].buf.tail).Some?
    ensures var result := ReadOnce(Occ.At(run[n].db, k), run[i].buf.tail - 1, ignoreLock, None);
            && (ignoreLock ==> !result.Retry?)
            && (!result.Retry? ==>
                  (if result.Found? then result.version.value else None)
                  == OccTheorems.Load(OccTheorems.SerialRun(run[n].db.commits, run[i].buf.tail).value, k))
  {
    assert |run| == |steps| + 1;
    hide OccInv.Inv, LinkBuf.Inv, IsRun, Occ.IsRun, PublishedExactly, InWindow;
    RunPrefix(mode, run, steps, n);
    var done, taken := run[..n + 1], steps[..n];
    RunProjects(mode, done, taken);
    assert run[i].buf.tail == run[i].db.tail by { RunRelated(mode, run, steps, i); }
    hide OccTheorems.SerialRun, OccTheorems.Load, ReadOnce, VisibleAt, Occ.At, Steps;
    assert States(done)[i] == run[i].db && States(done)[n] == run[n].db;
    OccTheorems.SnapshotReads(mode, States(done), Steps(done, taken), i, n, k, ignoreLock);
    TailOnlyGrows(mode, run, steps, i, n);
  }

  lemma {:induction false} TailOnlyGrows(mode: Occ.LockManager, run: seq<Joint>, steps: seq<Step>, i: nat, n: nat)
    requires IsRun(mode, run, steps) && i <= n < |run| && Windowed(run, steps, n)
    ensures run[i].buf.tail <= run[n].buf.tail && run[i].buf.cap == run[n].buf.cap
    decreases n - i
  {
    hide OccInv.Inv, Occ.Apply, Occ.Enabled;
    if i < n {
      RunRelated(mode, run, steps, i);
      if steps[i].Buffer? && steps[i].access.StoreTail? {
        assert LinkBuf.ThreadOk(run[i].buf, run[i].buf.threads[steps[i].access.i].pc);
      }
      TailOnlyGrows(mode, run, steps, i + 1, n);
    }
  }

  // ----- When the snapshot can move on -----

  /** The tail can reach the oracle's clock exactly when no timestamp from the tail on is still owed. */
  lemma TailReachesClock(mode: Occ.LockManager, run: seq<Joint>, steps: seq<Step>, n: nat)
    requires IsRun(mode, run, steps) && n < |run| && Windowed(run, steps, n)
    ensures Occ.CanAdvanceTail(run[n].db, run[n].db.tso) <==> NothingOwed(run[n].db)
  {
    hide OccInv.Inv, Occ.CanAdvanceTail, NothingOwed;
    RunRelated(mode, run, steps, n);
    TailReachesClockFrom(run[n].db);
  }

  /** No read timestamp from the tail on awaits publication, and no commit timestamp was lost or is in flight. */
  ghost predicate NothingOwed(s: Occ.State) {
    forall r :: r in s.txns ==>
      && (s.txns[r].phase.Starting? ==> r < s.tail)
      && (s.txns[r].commitTs.Some? && s.txns[r].phase != Occ.Releasing(true) ==> s.txns[r].commitTs.value < s.tail)
  }

  lemma TailReachesClockFrom(s: Occ.State)
    requires OccInv.Inv(s) && PublishedExactly(s)
    ensures Occ.CanAdvanceTail(s, s.tso) <==> NothingOwed(s)
  {
    hide OccInv.Keys, OccInv.Intents, OccInv.Owners, OccInv.Locks, OccInv.Ledger, OccInv.Contents,
         OccInv.Reads, OccInv.Validated;
    if Occ.CanAdvanceTail(s, s.tso) {
      forall r | r in s.txns
        ensures s.txns[r].phase.Starting? ==> r < s.tail
        ensures s.txns[r].commitTs.Some? && s.txns[r].phase != Occ.Releasing(true) ==>
                  s.txns[r].commitTs.value < s.tail
      {
        assert OccInv.TxnShape(s, r, s.txns[r]);
        assert r in s.published <==> Done(s, r);
      }
    } else {
      var p :| s.tail <= p < s.tso && p !in s.published;
      assert p in s.issued && !Done(s, p);
    }
  }
}
