/** A small run in which the snapshot passes a commit that is still in flight. */
module SnapshotInput {
  import opened Common
  import opened LinkRing
  import opened SnapshotRefinement
  import opened SnapshotWindow
  import Occ
  import OccInv
  import OccPages
  import LinkBuf

  lemma {:induction false} TakeAllConcat(j: Joint, a: seq<Step>, b: seq<Step>)
    requires TakeAll(j, a).Some?
    ensures TakeAll(j, a + b) == TakeAll(TakeAll(j, a).value, b)
    decreases |a|
  {
    hide Apply, Enabled;
    if a == [] {
      assert a + b == b;
    } else {
      TakeAllConcat(Apply(j, a[0]), a[1..], b);
      assert (a + b)[1..] == a[1..] + b;
    }
  }

  lemma TakeTwo(j: Joint, a: Step, b: Step)
    requires Enabled(j, a) && Enabled(Apply(j, a), b)
    ensures TakeAll(j, [a, b]) == Some(Apply(Apply(j, a), b))
  {
    hide Apply, Enabled;
    assert [a, b] == [a] + [b] && [b] == [b] + [];
    TakeOne(j, a, [b]);
    TakeOne(Apply(j, a), b, []);
  }

  // ----- A transaction begins and its read timestamp is published -----

  function BeginAndPublish(ts: nat): seq<Step> {
    [Protocol(Occ.Begin), Publish(Occ.PublishRead(ts))]
  }

  /** The new transaction is about to publish its read timestamp. */
  ghost predicate Begun(j: Joint, j': Joint) {
    && j'.buf == j.buf && j'.db == Occ.DoBegin(j.db)
    && forall r :: r in j.db.txns ==> r != j.db.tso
  }

  lemma Begins(j: Joint)
    requires Related(j) && Occ.CanBegin(j.db)
    ensures Enabled(j, Protocol(Occ.Begin))
    ensures Begun(j, Apply(j, Protocol(Occ.Begin))) && Related(Apply(j, Protocol(Occ.Begin)))
  {
    hide Related, OccInv.Snapshots, PublishedExactly;
    RelatedParts(j);
    forall r | r in j.db.txns ensures r != j.db.tso { assert OccInv.TxnShape(j.db, r, j.db.txns[r]); }
    hide OccInv.Txns, OccInv.Clock;
    ProtocolKeeps(j, Protocol(Occ.Begin));
  }

  /** What publishing the read timestamp of a new transaction does. */
  ghost predicate ReadPublished(j: Joint, ts: nat, j': Joint) {
    && LinkBuf.Shape(j.buf) && j'.buf == LinkBuf.WithLink(j.buf, ts)
    && Occ.CanPublishRead(j.db, ts) && j'.db == Occ.DoPublishRead(j.db, ts)
  }

  lemma PublishesRead(j: Joint, ts: nat)
    requires Related(j) && Occ.CanPublishRead(j.db, ts) && ts < j.buf.tail + j.buf.cap
    ensures Enabled(j, Publish(Occ.PublishRead(ts)))
    ensures var j' := Apply(j, Publish(Occ.PublishRead(ts))); ReadPublished(j, ts, j') && Related(j')
  {
    hide Related, OccInv.Clock, OccInv.Txns, OccInv.Snapshots, PublishedExactly;
    RelatedParts(j);
    PublishKeeps(j, Publish(Occ.PublishRead(ts)));
  }

  lemma BeginsAndPublishes(j: Joint)
    requires Related(j) && Occ.CanBegin(j.db) && j.db.tso < j.buf.tail + j.buf.cap
    ensures var end := TakeAll(j, BeginAndPublish(j.db.tso));
            && end.Some? && Related(end.value)
            && Begun(j, j.(db := Occ.DoBegin(j.db)))
            && ReadPublished(j.(db := Occ.DoBegin(j.db)), j.db.tso, end.value)
  {
    hide Related, TakeAll;
    Begins(j);
    var j1 := Apply(j, Protocol(Occ.Begin));
    PublishesRead(j1, j.db.tso);
    hide Apply, Enabled;
    TakeTwo(j, Protocol(Occ.Begin), Publish(Occ.PublishRead(j.db.tso)));
  }

  // ----- A commit that stays open -----

  /** Transaction 1 has taken commit timestamp 2 and not published it; `done` is published. */
  ghost predicate CommitOpen(j: Joint, buf: LinkBuf.State, tso: nat, done: set<nat>) {
    && j.db.tso == tso && j.db.published == done && (2 in j.db.issued)
    && j.buf.tail == 1 && j.buf.cap == 4 == |j.buf.slots| && j.buf.threads == buf.threads
    && 1 in j.db.txns && j.db.txns[1].commitTs == Some(2) && j.db.txns[1].phase.Validating?
  }

  /** Transaction 1 runs, and its read timestamp is published. */
  ghost predicate FirstRuns(j: Joint, buf: LinkBuf.State) {
    && j.db.tso == 2 && j.db.published == {1}
    && j.buf.tail == 1 && j.buf.cap == 4 == |j.buf.slots| && j.buf.threads == buf.threads
    && 1 in j.db.txns && j.db.txns[1].phase.Running? && j.db.txns[1].writes == map[]
  }

  lemma InitRelated(mode: Occ.LockManager, buf: LinkBuf.State)
    requires Ready(buf)
    ensures Related(Joint(Occ.Init(mode), buf)) && LinkBuf.Shape(buf) && buf.tail == 1
  {
    hide OccInv.Inv;
    OccPages.InitHolds(mode);
  }

  lemma FirstBegins(mode: Occ.LockManager, buf: LinkBuf.State)
    requires Ready(buf) && buf.cap == 4
    ensures var end := TakeAll(Joint(Occ.Init(mode), buf), BeginAndPublish(1));
            end.Some? && Related(end.value) && FirstRuns(end.value, buf)
  {
    var j := Joint(Occ.Init(mode), buf);
    InitRelated(mode, buf);
    hide Related, TakeAll, Ready;
    BeginsAndPublishes(j);
  }

  function OpenCommit(): seq<Step> {
    [Protocol(Occ.StartCommit(1)), Protocol(Occ.TakeCommitTs(1))]
  }

  lemma OpensCommit(j: Joint, buf: LinkBuf.State)
    requires Related(j) && FirstRuns(j, buf)
    ensures var end := TakeAll(j, OpenCommit());
            end.Some? && Related(end.value) && CommitOpen(end.value, buf, 3, {1})
  {
    hide Related, TakeAll;
    var a, b := OpenCommit()[0], OpenCommit()[1];
    var j1 := Apply(j, a);
    var j2 := Apply(j1, b);
    assert CommitOpen(j2, buf, 3, {1});
    ProtocolKeeps(j, a);
    ProtocolKeeps(j1, b);
    hide Apply, Enabled;
    TakeTwo(j, a, b);
  }

  lemma KeepsOpen(j: Joint, buf: LinkBuf.State, tso: nat, done: set<nat>)
    requires Related(j) && CommitOpen(j, buf, tso, done) && 2 < tso < 5
    ensures var end := TakeAll(j, BeginAndPublish(tso));
            end.Some? && Related(end.value) && CommitOpen(end.value, buf, tso + 1, done + {tso})
  {
    hide Related, TakeAll;
    BeginsAndPublishes(j);
  }

  /** Ten steps that hand out timestamps 1 to 5 and publish all but 2, the open commit's. */
  function SlowCommit(): seq<Step> {
    BeginAndPublish(1) + (OpenCommit() + (BeginAndPublish(3) + (BeginAndPublish(4) + BeginAndPublish(5))))
  }

  /** In a fresh buffer of four slots, one commit in flight while three others begin is passed by the tail. */
  lemma SlowCommitPassed(mode: Occ.LockManager, buf: LinkBuf.State, i: nat, maxRetry: nat)
    returns (accesses: seq<LinkBuf.Step>)
    requires Ready(buf) && buf.cap == 4 && !LinkBuf.Held(buf) && i in buf.threads && buf.threads[i].pc.Idle?
    ensures forall k :: 0 <= k < |accesses| ==> LinkBuf.By(i, accesses[k])
    ensures var end := TakeAll(Joint(Occ.Init(mode), buf), SlowCommit() + Accesses(accesses));
            && end.Some? && end.value.buf.tail == 6
            && 2 in end.value.db.issued && end.value.db.published == {1, 3, 4, 5}
  {
    hide Related, TakeAll, Ready, LinkBuf.Held, CommitOpen, FirstRuns, Accesses;
    var j0 := Joint(Occ.Init(mode), buf);
    FirstBegins(mode, buf);
    var j1 := TakeAll(j0, BeginAndPublish(1)).value;
    OpensCommit(j1, buf);
    var j2 := TakeAll(j1, OpenCommit()).value;
    KeepsOpen(j2, buf, 3, {1});
    var j3 := TakeAll(j2, BeginAndPublish(3)).value;
    KeepsOpen(j3, buf, 4, {1} + {3});
    var j4 := TakeAll(j3, BeginAndPublish(4)).value;
    assert {1} + {3} + {4} == {1, 3, 4};
    accesses := LastPublishJumps(j4, buf, i, maxRetry);
    hide BeginAndPublish, OpenCommit;
    Chain(j0, j1, j2, j3, j4, BeginAndPublish(5) + Accesses(accesses));
    assert SlowCommit() + Accesses(accesses)
        == BeginAndPublish(1) + (OpenCommit() + (BeginAndPublish(3) + (BeginAndPublish(4)
           + (BeginAndPublish(5) + Accesses(accesses)))));
  }

  lemma Chain(j0: Joint, j1: Joint, j2: Joint, j3: Joint, j4: Joint, rest: seq<Step>)
    requires TakeAll(j0, BeginAndPublish(1)) == Some(j1) && TakeAll(j1, OpenCommit()) == Some(j2)
    requires TakeAll(j2, BeginAndPublish(3)) == Some(j3) && TakeAll(j3, BeginAndPublish(4)) == Some(j4)
    ensures TakeAll(j0, BeginAndPublish(1) + (OpenCommit() + (BeginAndPublish(3) + (BeginAndPublish(4) + rest))))
         == TakeAll(j4, rest)
  {
    hide TakeAll, BeginAndPublish, OpenCommit;
    TakeAllConcat(j3, BeginAndPublish(4), rest);
    TakeAllConcat(j2, BeginAndPublish(3), BeginAndPublish(4) + rest);
    TakeAllConcat(j1, OpenCommit(), BeginAndPublish(3) + (BeginAndPublish(4) + rest));
    TakeAllConcat(j0, BeginAndPublish(1), OpenCommit() + (BeginAndPublish(3) + (BeginAndPublish(4) + rest)));
  }

  lemma LastPublishJumps(j: Joint, buf: LinkBuf.State, i: nat, maxRetry: nat) returns (accesses: seq<LinkBuf.Step>)
    requires Related(j) && CommitOpen(j, buf, 5, {1, 3, 4})
    requires !LinkBuf.Held(buf) && i in buf.threads && buf.threads[i].pc.Idle?
    ensures forall k :: 0 <= k < |accesses| ==> LinkBuf.By(i, accesses[k])
    ensures var end := TakeAll(j, BeginAndPublish(5) + Accesses(accesses));
            && end.Some? && end.value.buf.tail == 6
            && 2 in end.value.db.issued && end.value.db.published == {1, 3, 4, 5}
  {
    hide Related, TakeAll, LinkBuf.Held, Accesses;
    var begin, p := Protocol(Occ.Begin), Occ.PublishRead(5);
    var j1 := Apply(j, begin);
    OnlyTwoMissing(j, buf);
    FiveIsOut(j, j1, buf);
    accesses := PublishOutsideWindow(j1, p, 1, 2, i, maxRetry);
    hide Apply, Enabled;
    TakeOne(j, begin, [Publish(p)] + Accesses(accesses));
    assert [begin] + ([Publish(p)] + Accesses(accesses)) == BeginAndPublish(5) + Accesses(accesses);
  }

  /** The new transaction can publish 5, which is a lap ahead of the tail. */
  lemma FiveIsOut(j: Joint, j': Joint, buf: LinkBuf.State)
    requires CommitOpen(j, buf, 5, {1, 3, 4}) && Begun(j, j')
    ensures Enabled(j', Publish(Occ.PublishRead(5))) && !InWindow(j', Publish(Occ.PublishRead(5)))
    ensures Published(j'.db, Occ.PublishRead(5)) == Some(5)
    ensures Occ.CanPublishRead(j'.db, 5) && 2 in Occ.DoPublishRead(j'.db, 5).issued
  {
  }

  /** Before 5 is published, 1 shares its slot and 2 is the first hole. */
  lemma OnlyTwoMissing(j: Joint, buf: LinkBuf.State)
    requires Related(j) && CommitOpen(j, buf, 5, {1, 3, 4}) && !LinkBuf.Held(buf)
    ensures Enabled(j, Protocol(Occ.Begin))
    ensures var j' := Apply(j, Protocol(Occ.Begin));
            && Related(j') && Begun(j, j') && !LinkBuf.Held(j'.buf)
            && SharesSlot(j'.buf.tail, j'.buf.cap, 5, 1) && FirstHole(j'.buf.linked, j'.buf.tail, 2)
  {
    hide Related, LinkBuf.Held, SharesSlot, FirstHole;
    SameThreads(j.buf, buf);
    Begins(j);
    RelatedBuffer(j);
    TwoIsHole();
  }

  lemma SameThreads(a: LinkBuf.State, b: LinkBuf.State)
    requires a.threads == b.threads
    ensures LinkBuf.Held(a) == LinkBuf.Held(b)
  {
  }

  lemma RelatedBuffer(j: Joint)
    requires Related(j)
    ensures LinkBuf.Shape(j.buf) && j.buf.linked == j.db.published + {0}
  {
    hide OccInv.Inv, PublishedExactly;
  }

  lemma TwoIsHole()
    ensures SharesSlot(1, 4, 5, 1) && FirstHole({1, 3, 4} + {0}, 1, 2)
  {
    assert SlotIndex(5, 4) == SlotIndex(1, 4);
  }
}
