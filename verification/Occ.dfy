/**
 The optimistic commit protocol as a step machine over shared pages.

 Each step is one atomic access of a read-write transaction to shared state: a
 page under its write lock, the timestamp oracle, the lock table, the snapshot
 tracker or the log. Any interleaving of the steps of any number of
 transactions is a run. A transaction is named by its read timestamp, which the
 oracle hands out once.
*/
module Occ {
  import opened Common
  import opened TxnTs
  import opened Versions

  datatype Key = Key(table: string, sortKey: Bytes)

  datatype LockManager = Centralized | Decentralized | Inlined

  /** What the user of a transaction did and saw, in program order. */
  datatype Op =
    | Put(key: Key, value: Option<Row>)
    | Get(key: Key, result: Option<Row>)

  datatype Phase =
    | Starting                            // read timestamp taken, not yet published
    | Running                             // reads and buffered writes
    | Installing(installed: set<Key>)     // WriteIntents_
    | Undoing(left: set<Key>)             // UndoWriteIntents_ after a conflict
    | Validating(validated: set<Key>)     // commit timestamp taken, ValidateRead_
    | Aborting(left: set<Key>)            // AbortIntents_ after a failed validation
    | Stamping(stamped: set<Key>)         // CommitIntents_
    | Releasing(committed: bool)          // ReleaseLock_, outcome fixed

  /**
   `writes` is write_set_ and `readSet` is read_set_. `ops` and `seen` record, for
   the statements only, the user's operations and the values its table reads gave.
  */
  datatype Txn = Txn(
    phase: Phase,
    writes: map<Key, Option<Row>>,
    readSet: map<Key, Option<nat>>,
    commitTs: Option<nat>,
    ops: seq<Op>,
    seen: map<Key, Option<Row>>)

  datatype Record =
    | LogBegin(txn: nat)
    | LogWrite(txn: nat, key: Key, version: Version)
    | LogSetTs(txn: nat, key: Key, ts: nat)
    | LogCommit(txn: nat, ts: nat)
    | LogAbort(txn: nat)

  /** A transaction that passed validation. */
  datatype Commit = Commit(ops: seq<Op>, writes: map<Key, Option<Row>>, seen: map<Key, Option<Row>>)

  datatype State = State(
    mode: LockManager,
    tso: nat,                        // next timestamp
    pages: map<Key, seq<Version>>,
    txns: map<nat, Txn>,
    locks: map<Key, nat>,            // lock table: key to holder
    issued: map<nat, nat>,           // timestamp to the transaction it was handed to
    commits: map<nat, Commit>,       // by commit timestamp
    published: set<nat>,             // timestamps passed to the snapshot tracker
    tail: nat,                       // the tracker's tail
    log: seq<Record>)

  function At(s: State, k: Key): seq<Version> {
    if k in s.pages then s.pages[k] else []
  }

  /** The keys on which a transaction has an intent that is neither stamped nor aborted. */
  function Holds(t: Txn): set<Key> {
    match t.phase
    case Starting => {}
    case Running => {}
    case Installing(installed) => installed
    case Undoing(left) => left
    case Validating(_) => t.writes.Keys
    case Aborting(left) => left
    case Stamping(stamped) => t.writes.Keys - stamped
    case Releasing(_) => {}
  }

  function Intent(r: nat, v: Option<Row>): Version {
    Version(MarkLocked(r), v)
  }

  /** VersionedBwTreePage::SetTs on the version list of one key. */
  function Stamped(vs: seq<Version>, ts: nat): seq<Version> {
    if HeadLocked(vs) then Restamped(vs, ts) else vs
  }

  function Init(mode: LockManager): State {
    State(mode, 1, map[], map[], map[], map[], map[], {}, 1, [])
  }

  datatype Step =
    | Begin
    | PublishRead(r: nat)
    | Write(r: nat, k: Key, v: Option<Row>)
    | Read(r: nat, k: Key)
    | StartCommit(r: nat)
    | Install(r: nat, k: Key)
    | TakeCommitTs(r: nat)
    | Validate(r: nat, k: Key)
    | Decide(r: nat)
    | Stamp(r: nat, k: Key)
    | PublishCommit(r: nat)
    | Abort(r: nat, k: Key)
    | FinishAbort(r: nat)
    | Unlock(r: nat, k: Key)
    | AdvanceTail(to: nat)
    | Compact(pages: map<Key, seq<Version>>)


  function WithTxn(s: State, r: nat, t: Txn): State {
    s.(txns := s.txns[r := t])
  }

  /** The intent check of SetRow and DeleteRow; made only by the inlined lock manager. */
  predicate Conflicts(s: State, r: nat, k: Key) {
    s.mode == Inlined && Blocked(At(s, k), false, Some(r))
  }

  /** Does the read of `k` at the commit timestamp agree with the read set? */
  predicate Agrees(s: State, r: nat, k: Key)
    requires r in s.txns && k in s.txns[r].readSet && s.txns[r].commitTs.Some?
  {
    var t := s.txns[r];
    match ReadOnce(At(s, k), t.commitTs.value, false, Some(r))
    case Found(v) => t.readSet[k] == Some(v.ts)
    case NotFound => t.readSet[k] == None
    case Retry => false
  }

  // ----- The steps: when each may be taken, and what it does -----

  predicate CanBegin(s: State) {
    s.tso <= MAX_TXN_TS
  }

  /** TxnManagerOCC::BeginRwTxn takes a read timestamp from the oracle. */
  function DoBegin(s: State): State {
    s.(tso := s.tso + 1,
       txns := s.txns[s.tso := Txn(Starting, map[], map[], None, [], map[])],
       issued := s.issued[s.tso := s.tso])
  }

  predicate CanPublishRead(s: State, r: nat) {
    r in s.txns && s.txns[r].phase.Starting?
  }

  /** ... and hands it to the snapshot tracker at once. */
  function DoPublishRead(s: State, r: nat): State
    requires CanPublishRead(s, r)
  {
    WithTxn(s, r, s.txns[r].(phase := Running)).(published := s.published + {r})
  }

  predicate CanWrite(s: State, r: nat, k: Key) {
    && r in s.txns && s.txns[r].phase.Running?
    && (s.mode != Inlined && k in s.locks ==> s.locks[k] == r)
  }

  /** SetRow or DeleteRow: lock the key, unless locks are inlined, and buffer the write. */
  function DoWrite(s: State, r: nat, k: Key, v: Option<Row>): State
    requires CanWrite(s, r, k)
  {
    var t := s.txns[r];
    WithTxn(s, r, t.(writes := t.writes[k := v], ops := t.ops + [Put(k, v)]))
      .(locks := if s.mode == Inlined then s.locks else s.locks[k := r])
  }

  predicate CanRead(s: State, r: nat, k: Key) {
    && r in s.txns && s.txns[r].phase.Running?
    && (k !in s.txns[r].writes ==> !Blocked(At(s, k), false, None))
  }

  /** GetRow: the transaction's own write if there is one, else a page read at the read timestamp. */
  function DoRead(s: State, r: nat, k: Key): State
    requires CanRead(s, r, k)
  {
    var t := s.txns[r];
    if k in t.writes then
      WithTxn(s, r, t.(ops := t.ops + [Get(k, t.writes[k])]))
    else
      var v := VisibleAt(At(s, k), r);
      WithTxn(s, r, t.(readSet := t.readSet[k := StampOf(v)],
                       seen := t.seen[k := ValueOf(v)],
                       ops := t.ops + [Get(k, ValueOf(v))]))
  }

  predicate CanStartCommit(s: State, r: nat) {
    r in s.txns && s.txns[r].phase.Running?
  }

  function DoStartCommit(s: State, r: nat): State
    requires CanStartCommit(s, r)
  {
    WithTxn(s, r, s.txns[r].(phase := Installing({}))).(log := s.log + [LogBegin(r)])
  }

  predicate CanInstall(s: State, r: nat, k: Key) {
    && r in s.txns && s.txns[r].phase.Installing?
    && k in s.txns[r].writes && k !in s.txns[r].phase.installed
  }

  /** One round of WriteIntents_: prepend a locked version, or turn back on a conflict. */
  function DoInstall(s: State, r: nat, k: Key): State
    requires CanInstall(s, r, k)
  {
    var t := s.txns[r];
    if Conflicts(s, r, k) then
      WithTxn(s, r, t.(phase := Undoing(t.phase.installed))).(log := s.log + [LogAbort(r)])
    else
      var v := Intent(r, t.writes[k]);
      WithTxn(s, r, t.(phase := Installing(t.phase.installed + {k})))
        .(pages := s.pages[k := [v] + At(s, k)], log := s.log + [LogWrite(r, k, v)])
  }

  predicate CanTakeCommitTs(s: State, r: nat) {
    && s.tso <= MAX_TXN_TS
    && r in s.txns && s.txns[r].phase == Installing(s.txns[r].writes.Keys)
  }

  function DoTakeCommitTs(s: State, r: nat): State
    requires CanTakeCommitTs(s, r)
  {
    WithTxn(s, r, s.txns[r].(phase := Validating({}), commitTs := Some(s.tso)))
      .(tso := s.tso + 1, issued := s.issued[s.tso := r])
  }

  predicate CanValidate(s: State, r: nat, k: Key) {
    && r in s.txns && s.txns[r].phase.Validating? && s.txns[r].commitTs.Some?
    && k in s.txns[r].readSet && k !in s.txns[r].phase.validated
    && !Blocked(At(s, k), false, Some(r))
  }

  /** One round of ValidateRead_, taken once no foreign intent is in the way. */
  function DoValidate(s: State, r: nat, k: Key): State
    requires CanValidate(s, r, k)
  {
    var t := s.txns[r];
    if Agrees(s, r, k) then
      WithTxn(s, r, t.(phase := Validating(t.phase.validated + {k})))
    else
      WithTxn(s, r, t.(phase := Aborting(t.writes.Keys))).(log := s.log + [LogAbort(r)])
  }

  predicate CanDecide(s: State, r: nat) {
    && r in s.txns && s.txns[r].phase == Validating(s.txns[r].readSet.Keys)
    && s.txns[r].commitTs.Some?
  }

  /** The whole read set is validated: the commit record is logged. */
  function DoDecide(s: State, r: nat): State
    requires CanDecide(s, r)
  {
    var t := s.txns[r];
    WithTxn(s, r, t.(phase := Stamping({})))
      .(commits := s.commits[t.commitTs.value := Commit(t.ops, t.writes, t.seen)],
        log := s.log + [LogCommit(r, t.commitTs.value)])
  }

  predicate CanStamp(s: State, r: nat, k: Key) {
    && r in s.txns && s.txns[r].phase.Stamping? && s.txns[r].commitTs.Some?
    && k in s.txns[r].writes && k !in s.txns[r].phase.stamped
  }

  /** One round of CommitIntents_. */
  function DoStamp(s: State, r: nat, k: Key): State
    requires CanStamp(s, r, k)
  {
    var t := s.txns[r];
    WithTxn(s, r, t.(phase := Stamping(t.phase.stamped + {k})))
      .(pages := s.pages[k := Stamped(At(s, k), t.commitTs.value)],
        log := s.log + [LogSetTs(r, k, t.commitTs.value)])
  }

  predicate CanPublishCommit(s: State, r: nat) {
    && r in s.txns && s.txns[r].phase == Stamping(s.txns[r].writes.Keys)
    && s.txns[r].commitTs.Some?
  }

  function DoPublishCommit(s: State, r: nat): State
    requires CanPublishCommit(s, r)
  {
    WithTxn(s, r, s.txns[r].(phase := Releasing(true)))
      .(published := s.published + {s.txns[r].commitTs.value})
  }

  predicate CanAbort(s: State, r: nat, k: Key) {
    && r in s.txns && (s.txns[r].phase.Undoing? || s.txns[r].phase.Aborting?)
    && k in s.txns[r].phase.left
  }

  /** One round of UndoWriteIntents_ or AbortIntents_. */
  function DoAbort(s: State, r: nat, k: Key): State
    requires CanAbort(s, r, k)
  {
    var t := s.txns[r];
    var left := t.phase.left - {k};
    WithTxn(s, r, t.(phase := if t.phase.Undoing? then Undoing(left) else Aborting(left)))
      .(pages := s.pages[k := Stamped(At(s, k), ABORTED_TXN_TS)],
        log := s.log + [LogSetTs(r, k, ABORTED_TXN_TS)])
  }

  predicate CanFinishAbort(s: State, r: nat) {
    r in s.txns && (s.txns[r].phase == Undoing({}) || s.txns[r].phase == Aborting({}))
  }

  function DoFinishAbort(s: State, r: nat): State
    requires CanFinishAbort(s, r)
  {
    WithTxn(s, r, s.txns[r].(phase := Releasing(false)))
  }

  predicate CanUnlock(s: State, r: nat, k: Key) {
    && r in s.txns && s.txns[r].phase.Releasing?
    && k in s.locks && s.locks[k] == r
  }

  function DoUnlock(s: State, r: nat, k: Key): State {
    s.(locks := s.locks - {k})
  }

  /** The snapshot tracker may move its tail over published timestamps only. */
  predicate CanAdvanceTail(s: State, to: nat) {
    s.tail <= to && forall p :: s.tail <= p < to ==> p in s.published
  }

  function DoAdvanceTail(s: State, to: nat): State {
    s.(tail := to)
  }

  function InPages(pages: map<Key, seq<Version>>, k: Key): seq<Version> {
    if k in pages then pages[k] else []
  }

  /** Compaction of any pages drops some aborted versions. */
  ghost predicate CanCompact(s: State, pages: map<Key, seq<Version>>) {
    forall k: Key :: Pruned(At(s, k), InPages(pages, k))
  }

  function DoCompact(s: State, pages: map<Key, seq<Version>>): State {
    s.(pages := pages)
  }

  ghost predicate Enabled(s: State, step: Step) {
    match step
    case Begin => CanBegin(s)
    case PublishRead(r) => CanPublishRead(s, r)
    case Write(r, k, v) => CanWrite(s, r, k)
    case Read(r, k) => CanRead(s, r, k)
    case StartCommit(r) => CanStartCommit(s, r)
    case Install(r, k) => CanInstall(s, r, k)
    case TakeCommitTs(r) => CanTakeCommitTs(s, r)
    case Validate(r, k) => CanValidate(s, r, k)
    case Decide(r) => CanDecide(s, r)
    case Stamp(r, k) => CanStamp(s, r, k)
    case PublishCommit(r) => CanPublishCommit(s, r)
    case Abort(r, k) => CanAbort(s, r, k)
    case FinishAbort(r) => CanFinishAbort(s, r)
    case Unlock(r, k) => CanUnlock(s, r, k)
    case AdvanceTail(to) => CanAdvanceTail(s, to)
    case Compact(pages) => CanCompact(s, pages)
  }

  ghost function Apply(s: State, step: Step): State
    requires Enabled(s, step)
  {
    match step
    case Begin => DoBegin(s)
    case PublishRead(r) => DoPublishRead(s, r)
    case Write(r, k, v) => DoWrite(s, r, k, v)
    case Read(r, k) => DoRead(s, r, k)
    case StartCommit(r) => DoStartCommit(s, r)
    case Install(r, k) => DoInstall(s, r, k)
    case TakeCommitTs(r) => DoTakeCommitTs(s, r)
    case Validate(r, k) => DoValidate(s, r, k)
    case Decide(r) => DoDecide(s, r)
    case Stamp(r, k) => DoStamp(s, r, k)
    case PublishCommit(r) => DoPublishCommit(s, r)
    case Abort(r, k) => DoAbort(s, r, k)
    case FinishAbort(r) => DoFinishAbort(s, r)
    case Unlock(r, k) => DoUnlock(s, r, k)
    case AdvanceTail(to) => DoAdvanceTail(s, to)
    case Compact(pages) => DoCompact(s, pages)
  }

  /** `states` is a run: it starts empty and each state follows from the one before by some step. */
  ghost predicate IsRun(mode: LockManager, states: seq<State>, steps: seq<Step>) {
    && |states| == |steps| + 1
    && states[0] == Init(mode)
    && forall i :: 0 <= i < |steps| ==> Enabled(states[i], steps[i]) && states[i + 1] == Apply(states[i], steps[i])
  }
}
