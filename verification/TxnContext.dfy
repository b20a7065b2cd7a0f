/**
 CommitOrAbort as the program runs it: loops over the write set and the read set, each round one
 step of the commit protocol, here with no other transaction stepping in between.
*/
module TxnContext {
  import opened Common
  import opened TxnTs
  import opened Versions
  import opened Occ
  import opened OccInv
  import opened OccSteps
  import opened OccPages

  /** Every list is the one in `base`, under the transaction's own version where `top` has a timestamp for it. */
  ghost predicate Layered(s: State, base: State, writes: map<Key, Option<Row>>, top: map<Key, nat>) {
    forall k: Key ::
      At(s, k) == if k in top && k in writes then [Version(top[k], writes[k])] + At(base, k) else At(base, k)
  }

  /** The transaction is in `phase`, with nothing else about it changed, and the pages are `base` under `top`. */
  ghost predicate During(s: State, base: State, r: nat, t: Txn, top: map<Key, nat>) {
    Inv(s) && r in s.txns && s.txns[r] == t && Layered(s, base, t.writes, top)
  }

  /** No intent makes a read of the transaction wait. */
  ghost predicate Uncontended(base: State, t: Txn) {
    forall k :: k in t.readSet ==> !HeadLocked(At(base, k))
  }

  /** No intent is in the way of a write. */
  ghost predicate Writable(base: State, writes: map<Key, Option<Row>>) {
    forall k :: k in writes ==> !HeadLocked(At(base, k))
  }

  /** What every validation compares: the read set still names the newest versions at the commit timestamp. */
  ghost predicate Current(base: State, t: Txn, c: nat) {
    forall k :: k in t.readSet ==> StampOf(VisibleAt(At(base, k), c)) == t.readSet[k]
  }

  // ----- One round of each loop -----

  lemma InstallRound(s: State, base: State, r: nat, t: Txn, top: map<Key, nat>, k: Key)
    requires During(s, base, r, t, top) && t.phase.Installing? && t.phase.installed == top.Keys
    requires k in t.writes && k !in top && !HeadLocked(At(base, k))
    ensures CanInstall(s, r, k) && !Conflicts(s, r, k)
    ensures During(DoInstall(s, r, k), base, r, t.(phase := Installing(t.phase.installed + {k})),
                   top[k := MarkLocked(r)])
    ensures DoInstall(s, r, k).tso == s.tso
  {
    hide Inv;
    assert At(s, k) == At(base, k);
    assert !Conflicts(s, r, k);
    InstallKeeps(s, r, k);
  }

  /** An intent under a write is somebody else's, and the locks of other modes would have kept it away. */
  lemma ConflictRound(s: State, base: State, r: nat, t: Txn, top: map<Key, nat>, k: Key)
    requires During(s, base, r, t, top) && t.phase.Installing? && t.phase.installed == top.Keys
    requires k in t.writes && k !in top && HeadLocked(At(base, k))
    ensures CanInstall(s, r, k) && Conflicts(s, r, k)
    ensures During(DoInstall(s, r, k), base, r, t.(phase := Undoing(t.phase.installed)), top)
    ensures DoInstall(s, r, k).tso == s.tso
  {
    hide Inv;
    assert At(s, k) == At(base, k);
    ForeignIntent(s, r, k);
    ConflictKeeps(s, r, k);
  }

  lemma ForeignIntent(s: State, r: nat, k: Key)
    requires Inv(s) && CanInstall(s, r, k) && HeadLocked(At(s, k))
    ensures Conflicts(s, r, k)
  {
    hide Keys, Intents, Ledger, Contents, Reads, Validated, Snapshots;
    assert Owned(s, k);
    if !Conflicts(s, r, k) {
      assert s.mode != Inlined;
      InstallFindsUnlocked(s, r, k);
    }
  }

  lemma StampRound(s: State, base: State, r: nat, t: Txn, top: map<Key, nat>, k: Key)
    requires During(s, base, r, t, top) && t.phase.Stamping? && t.commitTs.Some? && top.Keys == t.writes.Keys
    requires k in t.writes && k !in t.phase.stamped && IsLocked(top[k])
    ensures CanStamp(s, r, k)
    ensures During(DoStamp(s, r, k), base, r, t.(phase := Stamping(t.phase.stamped + {k})),
                   top[k := t.commitTs.value])
  {
    hide Inv;
    StampKeeps(s, r, k);
    RestampTop(At(s, k), top[k], t.writes[k], At(base, k), t.commitTs.value);
  }

  lemma AbortRound(s: State, base: State, r: nat, t: Txn, top: map<Key, nat>, k: Key)
    requires During(s, base, r, t, top) && (t.phase.Undoing? || t.phase.Aborting?)
    requires k in t.writes && k in top && k in t.phase.left && IsLocked(top[k])
    ensures CanAbort(s, r, k)
    ensures During(DoAbort(s, r, k), base, r, t.(phase := WithLeft(t.phase, t.phase.left - {k})),
                   top[k := ABORTED_TXN_TS])
    ensures DoAbort(s, r, k).tso == s.tso
  {
    hide Inv;
    AbortKeeps(s, r, k);
    RestampTop(At(s, k), top[k], t.writes[k], At(base, k), ABORTED_TXN_TS);
  }

  /** An undoing or aborting phase with other intents left. */
  function WithLeft(phase: Phase, left: set<Key>): Phase {
    if phase.Undoing? then Undoing(left) else Aborting(left)
  }

  lemma RestampTop(vs: seq<Version>, raw: nat, v: Option<Row>, below: seq<Version>, ts: nat)
    requires vs == [Version(raw, v)] + below && IsLocked(raw)
    ensures Stamped(vs, ts) == [Version(ts, v)] + below
  {
    assert vs[1..] == below;
  }

  /** Validation sees through the transaction's own intent. */
  lemma ValidateRound(s: State, base: State, r: nat, t: Txn, top: map<Key, nat>, k: Key)
    requires During(s, base, r, t, top) && t.phase.Validating? && t.commitTs.Some?
    requires top.Keys == t.writes.Keys && (forall j :: j in top ==> top[j] == MarkLocked(r))
    requires k in t.readSet && k !in t.phase.validated && !HeadLocked(At(base, k))
    ensures CanValidate(s, r, k)
    ensures Agrees(s, r, k) <==> StampOf(VisibleAt(At(base, k), t.commitTs.value)) == t.readSet[k]
  {
    TimestampsFit(s, r);
    hide Inv, VisibleAt;
    var vs, below, c := At(s, k), At(base, k), t.commitTs.value;
    assert vs == if k in t.writes then [Version(MarkLocked(r), t.writes[k])] + below else below;
    OwnIntent(vs, below, if k in t.writes then Some(t.writes[k]) else None, r, c);
    hide Layered, Agrees, Blocked, At;
    AgreesMeans(s, r, k);
  }

  /** Validation waits for a foreign intent on a key that was read. */
  lemma WaitRound(s: State, base: State, r: nat, t: Txn, top: map<Key, nat>, k: Key)
    requires During(s, base, r, t, top) && t.phase.Validating? && Writable(base, t.writes)
    requires k in t.readSet && HeadLocked(At(base, k))
    ensures Blocked(At(s, k), false, Some(r))
  {
    assert k !in t.writes && At(s, k) == At(base, k);
    hide Keys, Intents, Locks, Ledger, Contents, Reads, Validated, Snapshots;
    assert Owned(s, k);
  }

  lemma OwnIntent(vs: seq<Version>, below: seq<Version>, own: Option<Option<Row>>, r: nat, c: nat)
    requires r <= MAX_TXN_TS && c <= MAX_TXN_TS && !HeadLocked(below)
    requires vs == if own.Some? then [Version(MarkLocked(r), own.value)] + below else below
    ensures !Blocked(vs, false, Some(r)) && VisibleAt(vs, c) == VisibleAt(below, c)
  {
    LockRoundTrip(r);
    if own.Some? { VisiblePastIntent(Version(MarkLocked(r), own.value), below, c); }
  }

  lemma TimestampsFit(s: State, r: nat)
    requires Inv(s) && r in s.txns
    ensures r <= MAX_TXN_TS && (s.txns[r].commitTs.Some? ==> s.txns[r].commitTs.value <= MAX_TXN_TS)
  {
    hide Keys, Intents, Owners, Locks, Ledger, Contents, Reads, Validated, Snapshots;
    assert TxnShape(s, r, s.txns[r]);
  }

  lemma ValidateOkRound(s: State, base: State, r: nat, t: Txn, top: map<Key, nat>, k: Key)
    requires During(s, base, r, t, top) && CanValidate(s, r, k) && Agrees(s, r, k)
    ensures During(DoValidate(s, r, k), base, r, t.(phase := Validating(t.phase.validated + {k})), top)
  {
    hide Inv, Agrees;
    ValidateOkKeeps(s, r, k);
  }

  lemma ValidateFailRound(s: State, base: State, r: nat, t: Txn, top: map<Key, nat>, k: Key)
    requires During(s, base, r, t, top) && CanValidate(s, r, k) && !Agrees(s, r, k)
    ensures During(DoValidate(s, r, k), base, r, t.(phase := Aborting(t.writes.Keys)), top)
  {
    hide Inv, Agrees;
    ValidateFailKeeps(s, r, k);
  }

  // ----- The steps in between -----

  lemma StartRound(s: State, r: nat)
    requires Inv(s) && CanStartCommit(s, r)
    ensures During(DoStartCommit(s, r), s, r, s.txns[r].(phase := Installing({})), map[])
  {
    hide Inv;
    StartCommitKeeps(s, r);
  }

  lemma TakeRound(s: State, base: State, r: nat, t: Txn, top: map<Key, nat>)
    requires During(s, base, r, t, top) && CanTakeCommitTs(s, r)
    ensures During(DoTakeCommitTs(s, r), base, r, t.(phase := Validating({}), commitTs := Some(s.tso)), top)
  {
    hide Inv;
    TakeCommitTsKeeps(s, r);
  }

  lemma DecideRound(s: State, base: State, r: nat, t: Txn, top: map<Key, nat>)
    requires During(s, base, r, t, top) && CanDecide(s, r)
    ensures During(DoDecide(s, r), base, r, t.(phase := Stamping({})), top)
  {
    hide Inv;
    DecideKeeps(s, r);
  }

  lemma PublishRound(s: State, base: State, r: nat, t: Txn, top: map<Key, nat>)
    requires During(s, base, r, t, top) && CanPublishCommit(s, r)
    ensures During(DoPublishCommit(s, r), base, r, t.(phase := Releasing(true)), top)
  {
    hide Inv;
    PublishCommitKeeps(s, r);
  }

  lemma FinishRound(s: State, base: State, r: nat, t: Txn, top: map<Key, nat>)
    requires During(s, base, r, t, top) && CanFinishAbort(s, r)
    ensures During(DoFinishAbort(s, r), base, r, t.(phase := Releasing(false)), top)
  {
    hide Inv;
    FinishAbortKeeps(s, r);
  }

  /** All of `keys` under one timestamp. */
  function AllAt(keys: set<Key>, ts: nat): map<Key, nat> {
    map k | k in keys :: ts
  }

  datatype Verdict = Passed | Failed | Waiting

  /** How CommitOrAbort ends when the transaction runs alone; `Stuck` is a validation that waits for ever. */
  datatype Outcome = Committed | Aborted | Stuck

  predicate InOutcome(phase: Phase, outcome: Outcome) {
    match outcome
    case Committed => phase == Releasing(true)
    case Aborted => phase == Releasing(false)
    case Stuck => phase.Validating?
  }

  /** The timestamp the transaction's own versions carry in the end. */
  function FinalTs(outcome: Outcome, c: nat, r: nat): nat {
    match outcome
    case Committed => c
    case Aborted => ABORTED_TXN_TS
    case Stuck => MarkLocked(r)
  }

  /** A round that is not enabled meets an intent. */
  lemma NotBlocked(s: State, r: nat, k: Key)
    ensures CanValidate(s, r, k) ==> !Blocked(At(s, k), false, Some(r))
  {
  }

  class TxnContextOCC {
    const readTs: nat
    var db: State

    constructor (r: nat, s: State)
      ensures readTs == r && db == s
    {
      readTs, db := r, s;
    }

    /** WriteIntents_: one locked version per buffered write, undone at the first foreign intent. */
    method WriteIntents(ghost base: State, ghost t: Txn) returns (ok: bool, ghost done: set<Key>)
      requires During(db, base, readTs, t, map[]) && t.phase == Installing({}) && readTs <= MAX_TXN_TS
      modifies this`db
      ensures ok <==> Writable(base, t.writes)
      ensures done <= t.writes.Keys && db.tso == old(db.tso)
      ensures ok ==> done == t.writes.Keys
                     && During(db, base, readTs, t.(phase := Installing(done)), AllAt(done, MarkLocked(readTs)))
      ensures !ok ==> During(db, base, readTs, t.(phase := Undoing({})), AllAt(done, ABORTED_TXN_TS))
    {
      hide During, CanInstall, DoInstall, Conflicts, HeadLocked;
      var left := WriteSet(base, t);
      done := {};
      ghost var now := t;
      assert AllAt({}, MarkLocked(readTs)) == map[];
      while left != {}
        invariant left + done == t.writes.Keys && left !! done && db.tso == old(db.tso)
        invariant now == t.(phase := Installing(done)) && During(db, base, readTs, now, AllAt(done, MarkLocked(readTs)))
        invariant forall k :: k in done ==> !HeadLocked(At(base, k))
        decreases left
      {
        var k :| k in left;
        ghost var top := AllAt(done, MarkLocked(readTs));
        if HeadLocked(At(base, k)) {
          ConflictRound(db, base, readTs, now, top, k);
        } else {
          InstallRound(db, base, readTs, now, top, k);
        }
        if IsConflict(k) {
          db := DoInstall(db, readTs, k);
          ResolveIntents(base, t.(phase := Undoing(done)), done);
          return false, done;
        }
        assert top[k := MarkLocked(readTs)] == AllAt(done + {k}, MarkLocked(readTs));
        db := DoInstall(db, readTs, k);
        left, done := left - {k}, done + {k};
        now := t.(phase := Installing(done));
      }
      assert done == t.writes.Keys;
      ok := true;
    }

    /** The intent check of one round of WriteIntents_. */
    predicate IsConflict(k: Key)
      reads this
    {
      Conflicts(db, readTs, k)
    }

    /**
     ValidateRead_: stop at the first key whose newest version is not the one that was read, and wait
     at the first one with a foreign intent, which nobody resolves as long as this transaction runs alone.
    */
    method ValidateRead(ghost base: State, ghost t: Txn) returns (verdict: Verdict, ghost done: set<Key>)
      requires During(db, base, readTs, t, AllAt(t.writes.Keys, MarkLocked(readTs)))
      requires t.phase == Validating({}) && t.commitTs.Some? && Writable(base, t.writes)
      modifies this`db
      ensures verdict == Passed <==> Uncontended(base, t) && Current(base, t, t.commitTs.value)
      ensures verdict == Failed ==> !Current(base, t, t.commitTs.value)
      ensures verdict == Waiting ==> !Uncontended(base, t)
      ensures verdict == Passed ==> done == t.readSet.Keys
      ensures During(db, base, readTs,
                     t.(phase := if verdict == Failed then Aborting(t.writes.Keys) else Validating(done)),
                     AllAt(t.writes.Keys, MarkLocked(readTs)))
    {
      hide During, CanValidate, DoValidate, Agrees, HeadLocked, Writable, Blocked;
      ghost var top := AllAt(t.writes.Keys, MarkLocked(readTs));
      var left := ReadSet(base, t);
      done := {};
      ghost var now := t;
      while left != {}
        invariant left + done == t.readSet.Keys && left !! done
        invariant now == t.(phase := Validating(done)) && During(db, base, readTs, now, top)
        invariant forall k :: k in done ==> !HeadLocked(At(base, k))
        invariant forall k :: k in done ==> StampOf(VisibleAt(At(base, k), t.commitTs.value)) == t.readSet[k]
        decreases left
      {
        var k :| k in left;
        if HeadLocked(At(base, k)) {
          WaitRound(db, base, readTs, now, top, k);
        } else {
          ValidateRound(db, base, readTs, now, top, k);
        }
        if MustWait(k) {
          NotBlocked(db, readTs, k);
          return Waiting, done;
        }
        if !Checks(k) {
          ValidateFailRound(db, base, readTs, now, top, k);
          db := DoValidate(db, readTs, k);
          return Failed, done;
        }
        ValidateOkRound(db, base, readTs, now, top, k);
        db := DoValidate(db, readTs, k);
        left, done := left - {k}, done + {k};
        now := t.(phase := Validating(done));
      }
      assert done == t.readSet.Keys;
      verdict := Passed;
    }

    /** A foreign intent is in the way of one round of ValidateRead_. */
    predicate MustWait(k: Key)
      reads this
    {
      Blocked(At(db, k), false, Some(readTs))
    }

    /** The comparison of one round of ValidateRead_. */
    predicate Checks(k: Key)
      requires CanValidate(db, readTs, k)
      reads this
    {
      Agrees(db, readTs, k)
    }

    /** CommitIntents_: stamp every intent. */
    method CommitIntents(ghost base: State, ghost t: Txn)
      requires During(db, base, readTs, t, AllAt(t.writes.Keys, MarkLocked(readTs)))
      requires t.phase == Stamping({}) && t.commitTs.Some? && readTs <= MAX_TXN_TS
      modifies this`db
      ensures During(db, base, readTs, t.(phase := Stamping(t.writes.Keys)), AllAt(t.writes.Keys, t.commitTs.value))
    {
      hide During, CanStamp, DoStamp;
      LockRoundTrip(readTs);
      var left := WriteSet(base, t);
      ghost var done: set<Key>, now, top := {}, t, AllAt(t.writes.Keys, MarkLocked(readTs));
      while left != {}
        invariant left + done == t.writes.Keys && left !! done
        invariant now == t.(phase := Stamping(done)) && During(db, base, readTs, now, top)
        invariant top.Keys == t.writes.Keys
        invariant forall k :: k in top ==> top[k] == if k in done then t.commitTs.value else MarkLocked(readTs)
        decreases left
      {
        var k :| k in left;
        StampRound(db, base, readTs, now, top, k);
        db := DoStamp(db, readTs, k);
        left, done, top := left - {k}, done + {k}, top[k := t.commitTs.value];
        now := t.(phase := Stamping(done));
      }
      assert done == t.writes.Keys;
      assert top == AllAt(t.writes.Keys, t.commitTs.value);
    }

    /** The loop of UndoWriteIntents_ and AbortIntents_: mark every intent aborted. */
    method ResolveIntents(ghost base: State, ghost t: Txn, ghost keys: set<Key>)
      requires During(db, base, readTs, t, AllAt(keys, MarkLocked(readTs))) && keys <= t.writes.Keys
      requires (t.phase == Undoing(keys) || t.phase == Aborting(keys)) && readTs <= MAX_TXN_TS
      modifies this`db
      ensures During(db, base, readTs, t.(phase := WithLeft(t.phase, {})), AllAt(keys, ABORTED_TXN_TS))
      ensures db.tso == old(db.tso)
    {
      hide During, CanAbort, DoAbort;
      LockRoundTrip(readTs);
      var left := Left(base, t);
      ghost var now, top := t, AllAt(keys, MarkLocked(readTs));
      while left != {}
        invariant left <= keys && db.tso == old(db.tso)
        invariant now == t.(phase := WithLeft(t.phase, left)) && During(db, base, readTs, now, top)
        invariant top.Keys == keys
        invariant forall k :: k in top ==> top[k] == if k in left then MarkLocked(readTs) else ABORTED_TXN_TS
        decreases left
      {
        var k :| k in left;
        AbortRound(db, base, readTs, now, top, k);
        db := DoAbort(db, readTs, k);
        left, top := left - {k}, top[k := ABORTED_TXN_TS];
        now := t.(phase := WithLeft(t.phase, left));
      }
      assert top == AllAt(keys, ABORTED_TXN_TS);
    }

    /**
     CommitOrAbort: it commits exactly if no foreign intent is on a key it writes or read and every
     version it read is still the newest at its commit timestamp. Committed, its writes are the newest
     versions of their keys; aborted, the intents it wrote are marked aborted; waiting for a foreign
     intent on a key it read, its intents stand. Nothing else in any list changes.
    */
    method CommitOrAbort() returns (outcome: Outcome, ghost done: set<Key>)
      requires Inv(db) && readTs in db.txns && db.txns[readTs].phase.Running? && db.tso <= MAX_TXN_TS
      modifies this`db
      ensures var base, t := old(db), old(db).txns[readTs];
              && (outcome == Committed <==>
                    Writable(base, t.writes) && Uncontended(base, t) && Current(base, t, base.tso))
              && (outcome == Stuck ==> Writable(base, t.writes) && !Uncontended(base, t))
              && (outcome == Aborted ==> !Writable(base, t.writes) || !Current(base, t, base.tso))
              && done <= t.writes.Keys && (outcome != Aborted ==> done == t.writes.Keys)
              && Inv(db) && readTs in db.txns && InOutcome(db.txns[readTs].phase, outcome)
              && Layered(db, base, t.writes, AllAt(done, FinalTs(outcome, base.tso, readTs)))
    {
      ghost var base, t := db, db.txns[readTs];
      var c := db.tso;
      TimestampsFit(db, readTs);
      hide Inv, Layered, Current, Writable, Uncontended;
      StartRound(db, readTs);
      SameReads(base, t, t.(phase := Installing(t.writes.Keys)), c);
      db := DoStartCommit(db, readTs);
      t := t.(phase := Installing({}));
      var ok;
      ok, done := WriteIntents(base, t);
      if !ok {
        FinishRound(db, base, readTs, t.(phase := Undoing({})), AllAt(done, ABORTED_TXN_TS));
        db := DoFinishAbort(db, readTs);
        return Aborted, done;
      }
      outcome := ValidateAndResolve(base, t.(phase := Installing(t.writes.Keys)));
    }

    /** The rest of CommitOrAbort, once all intents are written. */
    method ValidateAndResolve(ghost base: State, ghost t: Txn) returns (outcome: Outcome)
      requires During(db, base, readTs, t, AllAt(t.writes.Keys, MarkLocked(readTs)))
      requires t.phase == Installing(t.writes.Keys) && db.tso <= MAX_TXN_TS && Writable(base, t.writes)
      requires readTs <= MAX_TXN_TS
      modifies this`db
      ensures outcome == Committed <==> Uncontended(base, t) && Current(base, t, old(db.tso))
      ensures outcome == Stuck ==> !Uncontended(base, t)
      ensures outcome == Aborted ==> !Current(base, t, old(db.tso))
      ensures exists phase :: InOutcome(phase, outcome)
                && During(db, base, readTs, t.(phase := phase, commitTs := Some(old(db.tso))),
                          AllAt(t.writes.Keys, FinalTs(outcome, old(db.tso), readTs)))
    {
      hide Inv, Layered, Current, Uncontended, Writable, DoTakeCommitTs, DoDecide, DoPublishCommit, DoFinishAbort;
      var c := db.tso;
      ghost var top := AllAt(t.writes.Keys, MarkLocked(readTs));
      TakeRound(db, base, readTs, t, top);
      db := DoTakeCommitTs(db, readTs);
      ghost var u := t.(phase := Validating({}), commitTs := Some(c));
      SameReads(base, t, u, c);
      var verdict;
      ghost var done;
      verdict, done := ValidateRead(base, u);
      match verdict
      case Passed =>
        DecideRound(db, base, readTs, u.(phase := Validating(u.readSet.Keys)), top);
        db := DoDecide(db, readTs);
        CommitIntents(base, u.(phase := Stamping({})));
        PublishRound(db, base, readTs, u.(phase := Stamping(u.writes.Keys)), AllAt(u.writes.Keys, c));
        db := DoPublishCommit(db, readTs);
        assert InOutcome(Releasing(true), Committed);
        outcome := Committed;
      case Failed =>
        ResolveIntents(base, u.(phase := Aborting(u.writes.Keys)), u.writes.Keys);
        FinishRound(db, base, readTs, u.(phase := Aborting({})), AllAt(u.writes.Keys, ABORTED_TXN_TS));
        db := DoFinishAbort(db, readTs);
        assert InOutcome(Releasing(false), Aborted);
        outcome := Aborted;
      case Waiting =>
        assert InOutcome(Validating(done), Stuck);
        outcome := Stuck;
    }

    /** The keys of the write set, from the transaction's own record. */
    method WriteSet(ghost base: State, ghost t: Txn) returns (keys: set<Key>)
      requires exists top :: During(db, base, readTs, t, top)
      ensures keys == t.writes.Keys
    {
      keys := db.txns[readTs].writes.Keys;
    }

    /** The intents still to be resolved. */
    method Left(ghost base: State, ghost t: Txn) returns (keys: set<Key>)
      requires (exists top :: During(db, base, readTs, t, top)) && (t.phase.Undoing? || t.phase.Aborting?)
      ensures keys == t.phase.left
    {
      keys := db.txns[readTs].phase.left;
    }

    /** The keys of the read set. */
    method ReadSet(ghost base: State, ghost t: Txn) returns (keys: set<Key>)
      requires exists top :: During(db, base, readTs, t, top)
      ensures keys == t.readSet.Keys
    {
      keys := db.txns[readTs].readSet.Keys;
    }
  }

  lemma SameReads(base: State, t: Txn, t': Txn, c: nat)
    requires t'.readSet == t.readSet
    ensures Current(base, t', c) <==> Current(base, t, c)
    ensures Uncontended(base, t') <==> Uncontended(base, t)
  {
  }
}
