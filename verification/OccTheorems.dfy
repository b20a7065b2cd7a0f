/** What the commit protocol guarantees, in every reachable state of every interleaving. */
module OccTheorems {
  import opened Common
  import opened TxnTs
  import opened Versions
  import opened Occ
  import opened OccInv
  import opened OccSteps
  import opened OccPages
  import OccRequests

  // ----- The reference: transactions executed one after the other on a plain map -----

  type Database = map<Key, Row>

  function Load(db: Database, k: Key): Option<Row> {
    if k in db then Some(db[k]) else None
  }

  function Store(db: Database, k: Key, v: Option<Row>): Database {
    if v.Some? then db[k := v.value] else db - {k}
  }

  /** Execute the operations in order; fail if a read does not return what the transaction saw. */
  function Exec(db: Database, ops: seq<Op>): Option<Database> {
    if ops == [] then Some(db)
    else
      var before := Exec(db, ops[..|ops| - 1]);
      if before.None? then None
      else
        match ops[|ops| - 1]
        case Put(k, v) => Some(Store(before.value, k, v))
        case Get(k, result) => if Load(before.value, k) == result then before else None
  }

  /** Execute the committed transactions with timestamps below `n` in the order of their commit timestamps. */
  function SerialRun(commits: map<nat, Commit>, n: nat): Option<Database> {
    if n == 0 then Some(map[])
    else
      var before := SerialRun(commits, n - 1);
      if before.None? || n - 1 !in commits then before
      else Exec(before.value, commits[n - 1].ops)
  }

  // ----- A transaction's own execution -----

  function Overlay(db: Database, writes: map<Key, Option<Row>>): Database {
    map k | k in db.Keys + writes.Keys && (k in writes ==> writes[k].Some?) ::
      if k in writes then writes[k].value else db[k]
  }

  lemma {:induction false} ExecExplained(db: Database, ops: seq<Op>, seen: map<Key, Option<Row>>)
    requires Explained(ops, seen) && forall k :: k in seen ==> Load(db, k) == seen[k]
    ensures Exec(db, ops) == Some(Overlay(db, Buffer(ops)))
    decreases |ops|
  {
    if ops == [] {
      assert Overlay(db, map[]) == db;
    } else {
      var init := ops[..|ops| - 1];
      ExecExplained(db, init, seen);
      match ops[|ops| - 1]
      case Put(k, v) =>
        assert Store(Overlay(db, Buffer(init)), k, v) == Overlay(db, Buffer(init)[k := v]);
      case Get(k, result) =>
    }
  }

  // ----- Serializability -----

  function SerialDb(commits: map<nat, Commit>, n: nat): Database {
    if n == 0 then map[]
    else if n - 1 in commits then Overlay(SerialDb(commits, n - 1), commits[n - 1].writes)
    else SerialDb(commits, n - 1)
  }

  /** An unstamped write at or below a settled point cannot exist. */
  lemma SettledIsStamped(s: State, k: Key, t: nat)
    requires Inv(s) && Settled(s, k, t) && t in s.commits && k in s.commits[t].writes
    ensures HasTs(At(s, k), t)
  {
    assert Backed(s, t);
    var r := s.issued[t];
    assert Recorded(s, r);
    if k in Holds(s.txns[r]) {
      HolderAlone(s, r, k);
      assert false;
    }
  }

  lemma {:induction false} SettledValue(s: State, k: Key, t: nat)
    requires Inv(s) && Settled(s, k, t)
    ensures Load(SerialDb(s.commits, t + 1), k) == ValueOf(VisibleAt(At(s, k), t))
  {
    var vs := At(s, k);
    assert KeyShape(s, k);
    if t == 0 {
      VisibleIsMember(vs, 0);
      assert 0 in s.commits ==> Backed(s, 0);
    } else {
      SettledValue(s, k, t - 1);
      VisibleStep(vs, t);
      if HasTs(vs, t) {
        assert Written(s, k, VisibleAt(vs, t).value);
      } else if t in s.commits && k in s.commits[t].writes {
        SettledIsStamped(s, k, t);
      }
    }
  }

  lemma CommitExplained(s: State, c: nat)
    requires Txns(s) && Ledger(s) && c in s.commits
    ensures Explained(s.commits[c].ops, s.commits[c].seen) && Buffer(s.commits[c].ops) == s.commits[c].writes
  {
    assert Backed(s, c);
    assert Recorded(s, s.issued[c]) && TxnShape(s, s.issued[c], s.txns[s.issued[c]]);
  }

  /** Replaying a commit on what came before it reproduces its reads and leaves its writes. */
  lemma CommitReplays(s: State, c: nat)
    requires Inv(s) && c in s.commits
    ensures Exec(SerialDb(s.commits, c), s.commits[c].ops) == Some(SerialDb(s.commits, c + 1))
  {
    var commit, db := s.commits[c], SerialDb(s.commits, c);
    CommitExplained(s, c);
    hide Clock, Txns, Keys, Intents, Owners, Locks, Ledger, Contents, Reads, Snapshots, Explained, Exec;
    forall k | k in commit.seen ensures Load(db, k) == commit.seen[k] {
      assert Valid(s, k, c, commit.seen[k]);
      SettledValue(s, k, c - 1);
    }
    ExecExplained(db, commit.ops, commit.seen);
  }

  lemma {:induction false} SerialRunIs(s: State, n: nat)
    requires Inv(s)
    ensures SerialRun(s.commits, n) == Some(SerialDb(s.commits, n))
  {
    if n > 0 {
      SerialRunIs(s, n - 1);
      if n - 1 in s.commits {
        CommitReplays(s, n - 1);
      }
    }
  }

  /**
   Every reachable state is serializable: executing the committed transactions one
   after the other, in commit timestamp order, reproduces every read they made,
   and at every settled point the table holds what that serial execution left.
   Every transaction that returned Commit is among them, and the operations that are
   executed are the ones their users asked for.
  */
  lemma Serializable(mode: LockManager, states: seq<State>, steps: seq<Step>, i: nat, c: nat)
    requires IsRun(mode, states, steps) && i < |states|
    ensures SerialRun(states[i].commits, c).Some?
    ensures forall k: Key :: 0 < c && Settled(states[i], k, c - 1) ==>
              ValueOf(VisibleAt(At(states[i], k), c - 1)) == Load(SerialRun(states[i].commits, c).value, k)
    ensures forall r :: r in states[i].txns && states[i].txns[r].phase == Releasing(true) ==>
              var t := states[i].txns[r];
              && t.commitTs.Some? && r < t.commitTs.value && t.commitTs.value in states[i].commits
              && states[i].commits[t.commitTs.value].ops == t.ops
    ensures OccRequests.CommitsAsRequested(states[i], steps[..i])
  {
    hide IsRun, Inv, SerialRun, Load, Settled, VisibleAt, At, OccRequests.CommitsAsRequested;
    OccRequests.CommitsAreRequests(mode, states, steps, i);
    RunHolds(mode, states, steps, i);
    StateSerializable(states[i], c);
    CommittedAreRecorded(states[i]);
  }

  lemma StateSerializable(s: State, c: nat)
    requires Inv(s)
    ensures SerialRun(s.commits, c).Some?
    ensures forall k: Key :: 0 < c && Settled(s, k, c - 1) ==>
              ValueOf(VisibleAt(At(s, k), c - 1)) == Load(SerialRun(s.commits, c).value, k)
  {
    hide Inv, SerialRun, SerialDb, Load, Settled, VisibleAt, At;
    SerialRunIs(s, c);
    forall k: Key | 0 < c && Settled(s, k, c - 1)
      ensures ValueOf(VisibleAt(At(s, k), c - 1)) == Load(SerialRun(s.commits, c).value, k)
    {
      SettledValue(s, k, c - 1);
    }
  }

  lemma CommittedAreRecorded(s: State)
    requires Inv(s)
    ensures forall r :: r in s.txns && s.txns[r].phase == Releasing(true) ==>
              var t := s.txns[r];
              && t.commitTs.Some? && r < t.commitTs.value && t.commitTs.value in s.commits
              && s.commits[t.commitTs.value].ops == t.ops
  {
    assert Txns(s) && Ledger(s);
    hide Inv, Txns, Ledger;
    forall r | r in s.txns && s.txns[r].phase == Releasing(true)
      ensures s.txns[r].commitTs.Some? && r < s.txns[r].commitTs.value && s.txns[r].commitTs.value in s.commits
              && s.commits[s.txns[r].commitTs.value].ops == s.txns[r].ops
    {
      CommittedIsRecorded(s, r);
    }
  }

  lemma CommittedIsRecorded(s: State, r: nat)
    requires Txns(s) && Ledger(s) && r in s.txns && s.txns[r].phase == Releasing(true)
    ensures var t := s.txns[r];
            && t.commitTs.Some? && r < t.commitTs.value && t.commitTs.value in s.commits
            && s.commits[t.commitTs.value].ops == t.ops
  {
    assert TxnShape(s, r, s.txns[r]) && Recorded(s, r);
  }

  lemma {:induction false} ClockOnlyGrows(mode: LockManager, states: seq<State>, steps: seq<Step>, i: nat, j: nat)
    requires IsRun(mode, states, steps) && i <= j < |states|
    ensures states[i].tso <= states[j].tso
    decreases j
  {
    hide Apply, Enabled, Inv, Init;
    if i < j {
      ClockOnlyGrows(mode, states, steps, i, j - 1);
      RunHolds(mode, states, steps, j - 1);
      StepMovesClock(states[j - 1], steps[j - 1]);
    }
  }

  lemma StepMovesClock(s: State, step: Step)
    requires Inv(s) && Enabled(s, step)
    ensures s.tso <= Apply(s, step).tso
  {
    hide Apply, Enabled, Inv, KeyEvolves;
    StepKeeps(s, step);
  }

  /**
   The serial order extends real time: a transaction that begins in step `j`, after `q` was given
   its commit timestamp, and so after `q` returned Commit, gets a larger one whenever it commits.
  */
  lemma SerialOrderIsRealTime(
    mode: LockManager, states: seq<State>, steps: seq<Step>, i: nat, j: nat, n: nat, q: nat)
    requires IsRun(mode, states, steps) && i <= j < n < |states| && steps[j] == Begin
    requires q in states[i].txns && states[i].txns[q].commitTs.Some?
    ensures var r := states[j].tso;
            && states[i].txns[q].commitTs.value < r
            && (r in states[n].txns && states[n].txns[r].commitTs.Some? ==>
                  states[i].txns[q].commitTs.value < states[n].txns[r].commitTs.value)
  {
    hide Keys, Intents, Owners, Locks, Ledger, Contents, Reads, Validated, Snapshots;
    var r := states[j].tso;
    RunHolds(mode, states, steps, i);
    RunHolds(mode, states, steps, n);
    ClockOnlyGrows(mode, states, steps, i, j);
    assert TxnShape(states[i], q, states[i].txns[q]);
    if r in states[n].txns { assert TxnShape(states[n], r, states[n].txns[r]); }
  }

  // ----- Settled points stay settled for ever -----

  lemma {:induction false} SettledForever(
    mode: LockManager, states: seq<State>, steps: seq<Step>, i: nat, j: nat, k: Key, t: nat)
    requires IsRun(mode, states, steps) && i <= j < |states| && Settled(states[i], k, t)
    ensures Settled(states[j], k, t) && VisibleAt(At(states[j], k), t) == VisibleAt(At(states[i], k), t)
    decreases j - i
  {
    if i < j {
      RunHolds(mode, states, steps, i);
      StepKeeps(states[i], steps[i]);
      assert KeyShape(states[i], k) && Owned(states[i], k);
      SettledStays(states[i], states[i + 1], k, t);
      SettledForever(mode, states, steps, i + 1, j, k, t);
    }
  }

  // ----- Read-only snapshots -----

  /** Everything below the tail is stamped everywhere. */
  lemma SnapshotSettled(s: State, k: Key)
    requires Inv(s)
    ensures Settled(s, k, s.tail - 1)
  {
    if HeadLocked(At(s, k)) {
      LockedKeyHasWriter(s, k);
      var r := GetTs(At(s, k)[0].ts);
      assert TxnShape(s, r, s.txns[r]);
    }
  }

  /**
   A read-only transaction that took its snapshot in `states[i]` reads, in any later
   state and at any key, the result of the serial execution up to the snapshot.
   Ignoring locks it never waits; respecting them it waits or reads the same.
  */
  lemma SnapshotReads(
    mode: LockManager, states: seq<State>, steps: seq<Step>, i: nat, j: nat, k: Key, ignoreLock: bool)
    requires IsRun(mode, states, steps) && i <= j < |states|
    ensures 1 <= states[i].tail && SerialRun(states[j].commits, states[i].tail).Some?
    ensures var snapshot := states[i].tail - 1;
            var result := ReadOnce(At(states[j], k), snapshot, ignoreLock, None);
            && VisibleAt(At(states[j], k), snapshot) == VisibleAt(At(states[i], k), snapshot)
            && (ignoreLock ==> !result.Retry?)
            && (!result.Retry? ==>
                  (if result.Found? then result.version.value else None)
                  == Load(SerialRun(states[j].commits, states[i].tail).value, k))
  {
    hide Keys, Intents, Owners, Locks, Ledger, Contents, Reads, Validated, Txns;
    var snapshot := states[i].tail - 1;
    RunHolds(mode, states, steps, i);
    RunHolds(mode, states, steps, j);
    SnapshotSettled(states[i], k);
    SettledForever(mode, states, steps, i, j, k, snapshot);
    SettledValue(states[j], k, snapshot);
    SerialRunIs(states[j], states[i].tail);
  }

  // ----- Version lists, repeatable reads, resolution, aborts -----

  /**
   In every reachable state the list of any key falls strictly from newest to oldest, aborted
   versions aside; only its newest version can be locked, and then by the intent of the one
   transaction in flight that still has to resolve it.
  */
  lemma VersionLists(mode: LockManager, states: seq<State>, steps: seq<Step>, i: nat, k: Key)
    requires IsRun(mode, states, steps) && i < |states|
    ensures Descending(At(states[i], k))
    ensures HeadLocked(At(states[i], k)) ==>
              var s, r := states[i], GetTs(At(states[i], k)[0].ts);
              && r in s.txns && k in Holds(s.txns[r]) && k in s.txns[r].writes
              && At(s, k)[0] == Intent(r, s.txns[r].writes[k])
              && forall q :: q in s.txns && q != r ==> k !in Holds(s.txns[q])
  {
    hide IsRun, Ledger, Contents, Reads, Validated, Snapshots, Locks;
    var s := states[i];
    RunHolds(mode, states, steps, i);
    assert KeyShape(s, k);
    if HeadLocked(At(s, k)) {
      LockedKeyHasWriter(s, k);
      HolderAlone(s, GetTs(At(s, k)[0].ts), k);
      assert Held(s, GetTs(At(s, k)[0].ts), k);
    }
  }

  /** The value the last operation of a transaction read. */
  ghost predicate LastRead(t: Txn, k: Key, value: Option<Row>) {
    t.ops != [] && t.ops[|t.ops| - 1] == Get(k, value)
  }

  /** A read of a key that the transaction has written gives its own buffered write. */
  lemma ReadOwnWrite(s: State, r: nat, k: Key)
    requires CanRead(s, r, k) && k in s.txns[r].writes
    ensures r in DoRead(s, r, k).txns && LastRead(DoRead(s, r, k).txns[r], k, s.txns[r].writes[k])
  {
  }

  lemma PageRead(s: State, r: nat, k: Key)
    requires CanRead(s, r, k) && k !in s.txns[r].writes
    ensures var s', v := DoRead(s, r, k), VisibleAt(At(s, k), r);
            && r in s'.txns && LastRead(s'.txns[r], k, ValueOf(v)) && At(s', k) == At(s, k)
            && k in s'.txns[r].readSet && k in s'.txns[r].seen && s'.txns[r].readSet[k] == StampOf(v)
  {
    hide VisibleAt, Blocked;
  }

  /**
   Two reads of a key by one transaction, at any steps of any run: each gives the transaction's own
   buffered write if there is one; if there is none, both give the same version and the same
   value, whoever commits in between.
  */
  lemma RepeatableRead(
    mode: LockManager, states: seq<State>, steps: seq<Step>, i: nat, j: nat, r: nat, k: Key)
    requires IsRun(mode, states, steps) && i < j < |steps| && steps[i] == Read(r, k) == steps[j]
    ensures r in states[i].txns && r in states[i + 1].txns && r in states[j].txns && r in states[j + 1].txns
    ensures k in states[i].txns[r].writes ==> LastRead(states[i + 1].txns[r], k, states[i].txns[r].writes[k])
    ensures k in states[j].txns[r].writes ==> LastRead(states[j + 1].txns[r], k, states[j].txns[r].writes[k])
    ensures k !in states[i].txns[r].writes && k !in states[j].txns[r].writes ==>
              var v := VisibleAt(At(states[i], k), r);
              && LastRead(states[i + 1].txns[r], k, ValueOf(v)) && LastRead(states[j + 1].txns[r], k, ValueOf(v))
              && k in states[i + 1].txns[r].readSet && states[i + 1].txns[r].readSet[k] == StampOf(v)
              && k in states[j + 1].txns[r].readSet && states[j + 1].txns[r].readSet[k] == StampOf(v)
  {
    hide Keys, Intents, Owners, Locks, Ledger, Contents, Validated, Snapshots, Txns, VisibleAt, LastRead;
    if k in states[i].txns[r].writes { ReadOwnWrite(states[i], r, k); } else { PageRead(states[i], r, k); }
    if k in states[j].txns[r].writes { ReadOwnWrite(states[j], r, k); } else { PageRead(states[j], r, k); }
    if k !in states[i].txns[r].writes && k !in states[j].txns[r].writes {
      RunHolds(mode, states, steps, i + 1);
      assert ReadHolds(states[i + 1], r, k);
      SettledForever(mode, states, steps, i + 1, j, k, r);
    }
  }

  predicate IsLive(v: Option<Version>) {
    v.Some? && v.value.value.Some?
  }

  /** A reader notices no difference: the same version, or no row either time. */
  predicate SameRow(a: Option<Version>, b: Option<Version>) {
    (IsLive(a) || IsLive(b)) ==> a == b
  }

  lemma SameStampSameRow(vs: seq<Version>, t: nat, u: nat)
    requires Descending(vs)
    ensures StampOf(VisibleAt(vs, t)) == StampOf(VisibleAt(vs, u)) <==> SameRow(VisibleAt(vs, t), VisibleAt(vs, u))
  {
    VisibleIsMember(vs, t);
    VisibleIsMember(vs, u);
    hide VisibleAt, Descending;
    var a, b := VisibleAt(vs, t), VisibleAt(vs, u);
    if IsLive(a) && IsLive(b) && a.value.ts == b.value.ts { StampNamesVersion(vs, a.value, b.value); }
  }

  lemma ReadSetIs(s: State, r: nat, k: Key)
    requires Txns(s) && Keys(s) && Reads(s) && r in s.txns && k in s.txns[r].readSet
    ensures s.txns[r].readSet[k] == StampOf(VisibleAt(At(s, k), r)) && Descending(At(s, k))
  {
    hide VisibleAt, Descending, StampOf;
    assert TxnShape(s, r, s.txns[r]);
    assert ReadHolds(s, r, k) && KeyShape(s, k);
  }

  /**
   Validating a key passes exactly if a read at the commit timestamp gives the version that a read at
   the read timestamp gives, or neither gives a row.
  */
  lemma ValidationExact(mode: LockManager, states: seq<State>, steps: seq<Step>, i: nat, r: nat, k: Key)
    requires IsRun(mode, states, steps) && i < |states| && CanValidate(states[i], r, k)
    ensures var vs, c := At(states[i], k), states[i].txns[r].commitTs.value;
            Agrees(states[i], r, k) <==> SameRow(VisibleAt(vs, r), VisibleAt(vs, c))
  {
    var s := states[i];
    RunHolds(mode, states, steps, i);
    assert Txns(s) && Keys(s) && Reads(s);
    hide IsRun, Inv, Txns, Keys, Reads, At, VisibleAt, Agrees, StampOf, SameRow, Blocked;
    ReadSetIs(s, r, k);
    SameStampSameRow(At(s, k), r, s.txns[r].commitTs.value);
    AgreesMeans(s, r, k);
  }

  /** Stamping or aborting an intent always finds it locked, newest, and its own: SetTs never fails. */
  lemma ResolutionFindsIntent(s: State, r: nat, k: Key)
    requires Inv(s) && (CanStamp(s, r, k) || CanAbort(s, r, k))
    ensures k in s.txns[r].writes && At(s, k) != [] && At(s, k)[0] == Intent(r, s.txns[r].writes[k])
    ensures IsLocked(At(s, k)[0].ts) && GetTs(At(s, k)[0].ts) == r
    ensures forall q, j :: q in s.txns && q != r && j == k ==> j !in Holds(s.txns[q])
  {
    HolderAlone(s, r, k);
  }

  lemma {:induction false} DropAbortedPrunes(vs: seq<Version>)
    ensures Pruned(vs, DropAborted(vs))
    decreases |vs|
  {
    if vs != [] {
      DropAbortedPrunes(vs[1..]);
      if vs[0].ts != ABORTED_TXN_TS {
        assert DropAborted(vs)[1..] == DropAborted(vs[1..]);
      }
    }
  }

  /**
   After a transaction has ended in Abort, none of its versions is locked or committed
   anywhere, and removing the aborted versions changes no read by anybody.
  */
  lemma AbortLeavesNoTrace(s: State, r: nat, k: Key, t: nat, ignoreLock: bool, owner: Option<nat>)
    requires Inv(s) && r in s.txns && s.txns[r].phase == Releasing(false)
    ensures forall v :: v in At(s, k) ==> v.ts != MarkLocked(r)
    ensures s.txns[r].commitTs.Some? ==> !HasTs(At(s, k), s.txns[r].commitTs.value)
    ensures ReadOnce(DropAborted(At(s, k)), t, ignoreLock, owner) == ReadOnce(At(s, k), t, ignoreLock, owner)
  {
    var vs := At(s, k);
    assert KeyShape(s, k) && TxnShape(s, r, s.txns[r]);
    NoIntentAfterEnd(s, r, k);
    if s.txns[r].commitTs.Some? {
      UndecidedTsUnused(s, r, k);
    }
    DropAbortedPrunes(vs);
    PrunedVisible(vs, DropAborted(vs), t);
    PrunedHead(vs, DropAborted(vs));
  }

  lemma NoIntentAfterEnd(s: State, r: nat, k: Key)
    requires Clock(s) && Txns(s) && Owners(s) && KeyShape(s, k) && r in s.txns && s.txns[r].phase.Releasing?
    ensures forall v :: v in At(s, k) ==> v.ts != MarkLocked(r)
  {
    assert TxnShape(s, r, s.txns[r]) && Owned(s, k);
    forall v | v in At(s, k) ensures v.ts != MarkLocked(r) {
      var i :| 0 <= i < |At(s, k)| && At(s, k)[i] == v;
      assert 0 < i ==> !IsLocked(v.ts);
    }
  }
}
