/**
 The snapshot tail and the window of one lap: how a lost or slow commit timestamp holds the
 tail back, and what happens to it once timestamps run a lap ahead.
*/
module SnapshotWindow {
  import opened Common
  import opened LinkRing
  import opened SnapshotRefinement
  import Occ
  import OccInv
  import LinkBuf

  // ----- A commit timestamp that will never be published -----

  lemma DoomedStays(s: Occ.State, step: Occ.Step, r: nat)
    requires OccInv.Clock(s) && OccInv.Txns(s) && Occ.Enabled(s, step) && r in s.txns && Doomed(s.txns[r])
    ensures var s' := Occ.Apply(s, step);
            r in s'.txns && Doomed(s'.txns[r]) && s'.txns[r].commitTs == s.txns[r].commitTs
  {
    hide Occ.Enabled, Occ.Apply, OccInv.Txns, OccInv.Clock;
    if step.PublishRead? || step.PublishCommit? || step.AdvanceTail? {
      PublishKeepsDoomed(s, step, r);
    } else {
      ProtocolUntracked(s, step);
      assert SameProgress(s, s.txns[r], Occ.Apply(s, step).txns[r]);
    }
  }

  lemma PublishKeepsDoomed(s: Occ.State, step: Occ.Step, r: nat)
    requires step.PublishRead? || step.PublishCommit? || step.AdvanceTail?
    requires Occ.Enabled(s, step) && r in s.txns && Doomed(s.txns[r])
    ensures r in Occ.Apply(s, step).txns && Occ.Apply(s, step).txns[r] == s.txns[r]
  {
  }

  lemma RelatedParts(j: Joint)
    requires Related(j)
    ensures OccInv.Clock(j.db) && OccInv.Txns(j.db) && OccInv.Snapshots(j.db) && PublishedExactly(j.db)
    ensures LinkBuf.Shape(j.buf) && 1 <= j.db.tail == j.buf.tail && j.buf.linked == j.db.published + {0}
  {
    hide OccInv.Keys, OccInv.Intents, OccInv.Owners, OccInv.Locks, OccInv.Ledger, OccInv.Contents,
         OccInv.Reads, OccInv.Validated, OccInv.Clock, OccInv.Txns, PublishedExactly;
  }

  /** Transaction `r` has lost the commit timestamp `d`. */
  ghost predicate Lost(s: Occ.State, r: nat, d: nat) {
    r in s.txns && Doomed(s.txns[r]) && s.txns[r].commitTs == Some(d)
  }

  lemma StepKeepsLost(j: Joint, step: Step, r: nat, d: nat)
    requires Related(j) && Enabled(j, step) && Lost(j.db, r, d)
    ensures Lost(Apply(j, step).db, r, d)
  {
    hide Related, OccInv.Clock, OccInv.Txns, OccInv.Snapshots, PublishedExactly, Occ.Apply, Occ.Enabled, Projected,
         Apply, Enabled, Doomed;
    StepProjects(j, step);
    RelatedParts(j);
    DoomedStays(j.db, Projected(j, step), r);
  }

  /** In a run inside the window what is lost stays lost. */
  lemma {:induction false} LostThroughout(
    mode: Occ.LockManager, run: seq<Joint>, steps: seq<Step>, i: nat, n: nat, r: nat, d: nat)
    requires IsRun(mode, run, steps) && i <= n < |run| && Windowed(run, steps, n) && Lost(run[i].db, r, d)
    ensures Lost(run[n].db, r, d)
    decreases n
  {
    hide Related, Apply, Enabled, Lost, Ready, InWindow, Occ.Init;
    if i < n {
      LostThroughout(mode, run, steps, i, n - 1, r, d);
      RunRelated(mode, run, steps, n - 1);
      StepKeepsLost(run[n - 1], steps[n - 1], r, d);
    }
  }

  /** A lost commit timestamp has not been published, and the tail is not past it. */
  lemma LostBoundsTail(j: Joint, r: nat, d: nat)
    requires Related(j) && Lost(j.db, r, d)
    ensures d !in j.db.published && d !in j.buf.linked && j.buf.tail <= d && LinkBuf.Shape(j.buf)
  {
    hide Related, OccInv.Clock, PublishedExactly;
    RelatedParts(j);
    assert OccInv.TxnShape(j.db, r, j.db.txns[r]);
  }

  /**
   A transaction that fails validation never publishes its commit timestamp `d`. While publishing
   stays inside the window, the tail stops at `d`, so the window closes: nothing from `d` plus
   a lap on can be published inside it any more.
  */
  lemma WindowCloses(mode: Occ.LockManager, run: seq<Joint>, steps: seq<Step>, i: nat, n: nat, r: nat, d: nat)
    requires IsRun(mode, run, steps) && i <= n < |run| && Windowed(run, steps, n) && Lost(run[i].db, r, d)
    ensures run[n].buf.tail <= d && d !in run[n].db.published
    ensures n < |steps| && InWindow(run[n], steps[n]) && steps[n].Publish? ==>
              && Published(run[n].db, steps[n].step).Some?
              && Published(run[n].db, steps[n].step).value < d + run[i].buf.cap
  {
    if n < |steps| { assert Enabled(run[n], steps[n]); }
    hide Related, Apply, Lost, Ready, Windowed, IsRun, Occ.Enabled;
    LostThroughout(mode, run, steps, i, n, r, d);
    RunRelated(mode, run, steps, n);
    TailOnlyGrows(mode, run, steps, i, n);
    LostBoundsTail(run[n], r, d);
  }

  /** A step publishes nothing from `bound` on. */
  predicate PublishesBelow(j: Joint, step: Step, bound: nat) {
    step.Publish? && Published(j.db, step.step).Some? ==> Published(j.db, step.step).value < bound
  }

  /**
   Once the tail stands at a lost commit timestamp `d`, it stays there while every published
   timestamp is below `d` plus a lap.
  */
  lemma {:induction false} LostCommitHoldsTail(
    mode: Occ.LockManager, run: seq<Joint>, steps: seq<Step>, i: nat, n: nat, r: nat)
    requires IsRun(mode, run, steps) && i <= n < |run| && Windowed(run, steps, i)
    requires Lost(run[i].db, r, run[i].buf.tail)
    requires forall m :: i <= m < n ==> PublishesBelow(run[m], steps[m], run[i].buf.tail + run[i].buf.cap)
    ensures Windowed(run, steps, n) && run[n].buf.tail == run[i].buf.tail
    decreases n
  {
    hide Apply, Enabled, Lost, Ready, Published;
    if i < n {
      LostCommitHoldsTail(mode, run, steps, i, n - 1, r);
      TailOnlyGrows(mode, run, steps, i, n - 1);
      assert PublishesBelow(run[n - 1], steps[n - 1], run[i].buf.tail + run[i].buf.cap);
      WindowCloses(mode, run, steps, i, n, r, run[i].buf.tail);
      TailOnlyGrows(mode, run, steps, i, n);
    }
  }

  // ----- Running on from a state -----

  /** Take the steps in order, if each is enabled. */
  ghost function TakeAll(j: Joint, steps: seq<Step>): Option<Joint>
    decreases |steps|
  {
    if steps == [] then Some(j)
    else if Enabled(j, steps[0]) then TakeAll(Apply(j, steps[0]), steps[1..])
    else None
  }

  function Accesses(steps: seq<LinkBuf.Step>): seq<Step> {
    seq(|steps|, k requires 0 <= k < |steps| => Buffer(steps[k]))
  }

  lemma TakeOne(j: Joint, step: Step, rest: seq<Step>)
    requires Enabled(j, step)
    ensures TakeAll(j, [step] + rest) == TakeAll(Apply(j, step), rest)
  {
    assert ([step] + rest)[1..] == rest;
  }

  /** Steps of one thread in the buffer are joint steps. */
  lemma {:induction false} AccessesTake(j: Joint, i: nat, steps: seq<LinkBuf.Step>)
    requires j.db.tail == j.buf.tail && LinkBuf.TakeAll(j.buf, steps).Some?
    requires forall k :: 0 <= k < |steps| ==> LinkBuf.By(i, steps[k])
    ensures var end := LinkBuf.TakeAll(j.buf, steps).value;
            TakeAll(j, Accesses(steps)) == Some(Joint(j.db.(tail := end.tail), end))
    decreases |steps|
  {
    hide LinkBuf.Apply, LinkBuf.Enabled;
    if steps != [] {
      assert LinkBuf.By(i, steps[0]);
      AccessesTake(Apply(j, Buffer(steps[0])), i, steps[1..]);
      assert Accesses(steps)[1..] == Accesses(steps[1..]);
    }
  }

  // ----- Reaching the clock -----

  /** With no timestamp owed and no lock held, any idle thread alone brings the snapshot up to the clock. */
  lemma SnapshotReachesClock(
    mode: Occ.LockManager, run: seq<Joint>, steps: seq<Step>, n: nat, i: nat, maxRetry: nat)
    returns (accesses: seq<LinkBuf.Step>)
    requires IsRun(mode, run, steps) && n < |run| && Windowed(run, steps, n)
    requires NothingOwed(run[n].db) && !LinkBuf.Held(run[n].buf)
    requires i in run[n].buf.threads && run[n].buf.threads[i].pc.Idle?
    ensures forall k :: 0 <= k < |accesses| ==> LinkBuf.By(i, accesses[k])
    ensures var end := TakeAll(run[n], Accesses(accesses));
            end.Some? && end.value.buf.tail == run[n].db.tso == end.value.db.tso
  {
    hide OccInv.Inv, LinkBuf.Inv, LinkBuf.Held, TakeAll, LinkBuf.TakeAll, PublishedExactly;
    RunRelated(mode, run, steps, n);
    TailReachesClockFrom(run[n].db);
    ClockIsHole(run[n].db);
    accesses := LinkBuf.AloneReachesHole(run[n].buf, i, maxRetry, run[n].db.tso);
    AccessesTake(run[n], i, accesses);
  }

  lemma ClockIsHole(s: Occ.State)
    requires OccInv.Inv(s) && Occ.CanAdvanceTail(s, s.tso)
    ensures FirstHole(s.published + {0}, s.tail, s.tso)
  {
    assert OccInv.Clock(s) && OccInv.Snapshots(s);
    hide OccInv.Inv;
  }

  // ----- Publishing a lap ahead -----

  lemma BelowZeroAside(published: set<nat>, tail: nat)
    ensures (forall x :: 0 <= x < tail ==> x in published + {0}) <==> (forall x :: 1 <= x < tail ==> x in published)
  {
    assert forall x :: x in published + {0} <==> x == 0 || x in published;
    assert forall x :: x in published ==> x in published + {0};
  }

  /**
   Publishing `ts` outside the window, exactly: then a thread alone brings the tail to the
   first unpublished timestamp if `ts` overwrote a slot behind it, and to just past `ts`
   otherwise; every timestamp below the tail is published exactly in the first case, or if
   the window was full and `ts` next.
  */
  lemma PublishOutsideWindow(j: Joint, p: Occ.Step, q: nat, hole: nat, i: nat, maxRetry: nat)
    returns (accesses: seq<LinkBuf.Step>)
    requires Related(j) && Enabled(j, Publish(p)) && !InWindow(j, Publish(p)) && !LinkBuf.Held(j.buf)
    requires i in j.buf.threads && j.buf.threads[i].pc.Idle?
    requires SharesSlot(j.buf.tail, j.buf.cap, Published(j.db, p).value, q)
    requires FirstHole(j.buf.linked, j.buf.tail, hole)
    ensures forall k :: 0 <= k < |accesses| ==> LinkBuf.By(i, accesses[k])
    ensures var ts, end := Published(j.db, p).value, TakeAll(j, [Publish(p)] + Accesses(accesses));
            && end.Some? && end.value.db == Occ.Apply(j.db, p).(tail := end.value.buf.tail)
            && end.value.db.published == j.db.published + {ts}
            && end.value.buf.tail == (if q > hole then hole else ts + 1)
            && ((forall x :: 1 <= x < end.value.buf.tail ==> x in end.value.db.published)
                <==> q > hole || (ts == hole == j.buf.tail + j.buf.cap))
  {
    hide Related, LinkBuf.Inv, LinkBuf.Held, TakeAll, LinkBuf.TakeAll, Occ.Apply, Apply, LinkBuf.WithLink, SharesSlot;
    var ts := Published(j.db, p).value;
    PublishAlone(j, p);
    accesses := LinkBuf.LinkOutsideWindow(j.buf, i, maxRetry, ts, q, hole);
    hide Enabled, LinkBuf.By, FirstHole;
    TakeOne(j, Publish(p), Accesses(accesses));
    AccessesTake(Apply(j, Publish(p)), i, accesses);
    var end := LinkBuf.TakeAll(LinkBuf.WithLink(j.buf, ts), accesses).value;
    BelowZeroAside(j.db.published + {ts}, end.tail);
  }

  /** What publishing alone comes to. */
  lemma PublishAlone(j: Joint, p: Occ.Step)
    requires Related(j) && Enabled(j, Publish(p))
    ensures LinkBuf.Inv(j.buf) && LinkBuf.Shape(j.buf) && Published(j.db, p).Some?
    ensures var ts, j' := Published(j.db, p).value, Apply(j, Publish(p));
            && j'.db == Occ.Apply(j.db, p) && j'.buf == LinkBuf.WithLink(j.buf, ts) && j'.db.tail == j'.buf.tail
            && j'.db.published == j.db.published + {ts} && j.buf.linked + {ts} == j.db.published + {ts} + {0}
  {
    assert LinkBuf.Inv(j.buf);
    hide Related, LinkBuf.Inv, PublishedExactly, OccInv.Clock, OccInv.Txns, OccInv.Snapshots, Occ.Apply, Occ.Enabled;
    RelatedParts(j);
    PublishedOnce(j.db, p);
    assert j.db.published + {0} + {Published(j.db, p).value} == j.db.published + {Published(j.db, p).value} + {0};
  }

  /** With the tail at a lost commit timestamp `d`, publishing `d` plus a lap sends the next advance past `d`. */
  lemma LapPassesLostCommit(
    mode: Occ.LockManager, run: seq<Joint>, steps: seq<Step>, n: nat, r: nat, p: Occ.Step, i: nat, maxRetry: nat)
    returns (accesses: seq<LinkBuf.Step>)
    requires IsRun(mode, run, steps) && n < |run| && Windowed(run, steps, n)
    requires Lost(run[n].db, r, run[n].buf.tail)
    requires Enabled(run[n], Publish(p)) && Published(run[n].db, p) == Some(run[n].buf.tail + run[n].buf.cap)
    requires !LinkBuf.Held(run[n].buf) && i in run[n].buf.threads && run[n].buf.threads[i].pc.Idle?
    ensures forall k :: 0 <= k < |accesses| ==> LinkBuf.By(i, accesses[k])
    ensures var d, end := run[n].buf.tail, TakeAll(run[n], [Publish(p)] + Accesses(accesses));
            && end.Some? && end.value.buf.tail == d + run[n].buf.cap + 1
            && d !in end.value.db.published
  {
    hide Related, LinkBuf.Held, TakeAll, IsRun, Windowed, Enabled, Lost, Published;
    RunRelated(mode, run, steps, n);
    LostBoundsTail(run[n], r, run[n].buf.tail);
    NextLap(run[n].buf.tail, run[n].buf.cap);
    accesses := PublishOutsideWindow(run[n], p, run[n].buf.tail, run[n].buf.tail, i, maxRetry);
  }
}
