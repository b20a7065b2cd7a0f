/** The invariant of the commit protocol, and that every step keeps it. */
module OccInv {
  import opened Common
  import opened TxnTs
  import opened Versions
  import opened Occ

  // ----- The parts of the invariant -----

  /** The buffered writes after `ops`. */
  function Buffer(ops: seq<Op>): map<Key, Option<Row>> {
    if ops == [] then map[]
    else
      var before := Buffer(ops[..|ops| - 1]);
      match ops[|ops| - 1]
      case Put(k, v) => before[k := v]
      case Get(_, _) => before
  }

  /** Every read of `ops` gave the transaction's own last write, or else what `seen` holds for the key. */
  ghost predicate Explained(ops: seq<Op>, seen: map<Key, Option<Row>>) {
    ops == [] ||
    (var init := ops[..|ops| - 1];
     && Explained(init, seen)
     && match ops[|ops| - 1]
        case Put(_, _) => true
        case Get(k, result) =>
          if k in Buffer(init) then result == Buffer(init)[k] else k in seen && result == seen[k])
  }

  ghost predicate Clock(s: State) {
    && 1 <= s.tso <= MAX_TXN_TS + 1
    && (forall t :: t in s.issued ==> 1 <= t < s.tso)
    && (forall t :: 1 <= t < s.tso ==> t in s.issued)
  }

  ghost predicate TxnShape(s: State, r: nat, t: Txn) {
    && r in s.issued && s.issued[r] == r
    && Holds(t) <= t.writes.Keys
    && t.seen.Keys == t.readSet.Keys
    && Buffer(t.ops) == t.writes
    && Explained(t.ops, t.seen)
    && (t.phase.Validating? ==> t.phase.validated <= t.readSet.Keys)
    && (t.phase.Stamping? ==> t.phase.stamped <= t.writes.Keys)
    && (t.phase.Validating? || t.phase.Stamping? || t.phase == Releasing(true) ==> t.commitTs.Some?)
    && (t.phase.Starting? || t.phase.Running? || t.phase.Installing? || t.phase.Undoing? ==> t.commitTs.None?)
    && (t.phase.Starting? ==> t.writes == map[])
    && (t.commitTs.Some? ==>
          var c := t.commitTs.value;
          c in s.issued && s.issued[c] == r && r < c)
  }

  ghost predicate Txns(s: State) {
    forall r :: r in s.txns ==> TxnShape(s, r, s.txns[r])
  }

  /** The list of one key: descending, with every commit timestamp already handed out. */
  ghost predicate KeyShape(s: State, k: Key) {
    && Descending(At(s, k))
    && (forall v :: v in At(s, k) && !IsLocked(v.ts) ==> v.ts < s.tso)
  }

  ghost predicate Keys(s: State) {
    forall k: Key :: KeyShape(s, k)
  }

  /** A transaction's unresolved intent is the newest version of its key, older than its commit timestamp. */
  ghost predicate Held(s: State, r: nat, k: Key)
    requires r in s.txns && k in s.txns[r].writes
  {
    && At(s, k) != []
    && At(s, k)[0] == Intent(r, s.txns[r].writes[k])
    && (s.txns[r].commitTs.Some? ==>
          forall i :: 1 <= i < |At(s, k)| ==> At(s, k)[i].ts < s.txns[r].commitTs.value)
  }

  ghost predicate Intents(s: State) {
    forall r, k :: r in s.txns && k in s.txns[r].writes && k in Holds(s.txns[r]) ==> Held(s, r, k)
  }

  /** A locked newest version belongs to a transaction that still has to resolve it. */
  ghost predicate Owned(s: State, k: Key) {
    HeadLocked(At(s, k)) ==>
      var r := GetTs(At(s, k)[0].ts);
      r in s.txns && k in Holds(s.txns[r])
  }

  ghost predicate Owners(s: State) {
    forall k: Key :: Owned(s, k)
  }

  /** A locking lock manager keeps writers of a key apart from the buffered write to the release. */
  ghost predicate Locks(s: State) {
    s.mode != Inlined ==>
      forall r, k :: r in s.txns && k in s.txns[r].writes && !s.txns[r].phase.Releasing? ==>
                       k in s.locks && s.locks[k] == r
  }

  ghost predicate Decided(t: Txn) {
    t.phase.Stamping? || t.phase == Releasing(true)
  }

  ghost predicate Recorded(s: State, r: nat)
    requires r in s.txns
  {
    var t := s.txns[r];
    Decided(t) && t.commitTs.Some? ==>
      t.commitTs.value in s.commits && s.commits[t.commitTs.value] == Commit(t.ops, t.writes, t.seen)
  }

  ghost predicate Backed(s: State, c: nat) {
    && c in s.issued && s.issued[c] in s.txns
    && s.txns[s.issued[c]].commitTs == Some(c) && Decided(s.txns[s.issued[c]])
  }

  /** `commits` holds exactly the transactions that passed validation. */
  ghost predicate Ledger(s: State) {
    && (forall r :: r in s.txns ==> Recorded(s, r))
    && (forall c :: c in s.commits ==> Backed(s, c))
  }

  /** A commit timestamp in a list is the write of that commit. */
  ghost predicate Written(s: State, k: Key, v: Version) {
    v.ts in s.commits && k in s.commits[v.ts].writes && s.commits[v.ts].writes[k] == v.value
  }

  ghost predicate Contents(s: State) {
    && (forall k: Key, v :: v in At(s, k) && !IsLocked(v.ts) && v.ts != ABORTED_TXN_TS ==> Written(s, k, v))
    && (forall r, k :: r in s.txns && Decided(s.txns[r]) && s.txns[r].commitTs.Some? && k in s.txns[r].writes ==>
          k in Holds(s.txns[r]) || HasTs(At(s, k), s.txns[r].commitTs.value))
  }

  /**
   A point in time `t` is settled at `k`: no transaction can still put a version
   of `k` at or below it.
  */
  ghost predicate Settled(s: State, k: Key, t: nat) {
    && t < s.tso
    && (HeadLocked(At(s, k)) && GetTs(At(s, k)[0].ts) in s.txns ==>
          var owner := s.txns[GetTs(At(s, k)[0].ts)];
          owner.commitTs.Some? ==> t < owner.commitTs.value)
  }

  ghost predicate ReadHolds(s: State, r: nat, k: Key)
    requires r in s.txns && k in s.txns[r].readSet && k in s.txns[r].seen
  {
    var v := VisibleAt(At(s, k), r);
    Settled(s, k, r) && s.txns[r].readSet[k] == StampOf(v) && s.txns[r].seen[k] == ValueOf(v)
  }

  /** Everything a transaction read from the table is still what a read at its timestamp gives. */
  ghost predicate Reads(s: State) {
    forall r, k :: r in s.txns && k in s.txns[r].readSet && k in s.txns[r].seen ==> ReadHolds(s, r, k)
  }

  ghost predicate Valid(s: State, k: Key, c: nat, seen: Option<Row>) {
    0 < c && Settled(s, k, c - 1) && ValueOf(VisibleAt(At(s, k), c - 1)) == seen
  }

  /** What was validated stays valid just below the commit timestamp. */
  ghost predicate Validated(s: State) {
    && (forall r, k ::
          r in s.txns && s.txns[r].phase.Validating? && k in s.txns[r].phase.validated
          && s.txns[r].commitTs.Some? && k in s.txns[r].seen ==>
            Valid(s, k, s.txns[r].commitTs.value, s.txns[r].seen[k]))
    && (forall c, k :: c in s.commits && k in s.commits[c].seen ==> Valid(s, k, c, s.commits[c].seen[k]))
  }

  /** Publishing a commit timestamp comes after stamping; the tail never passes an unpublished timestamp. */
  ghost predicate Snapshots(s: State) {
    && 1 <= s.tail <= s.tso
    && (forall p :: p in s.published ==> p in s.issued)
    && (forall p :: 1 <= p < s.tail ==> p in s.published)
    && (forall r :: r in s.txns && s.txns[r].commitTs.Some? && s.txns[r].commitTs.value in s.published ==>
          s.txns[r].phase == Releasing(true))
  }

  ghost predicate Inv(s: State) {
    && Clock(s) && Txns(s) && Keys(s) && Intents(s) && Owners(s) && Locks(s)
    && Ledger(s) && Contents(s) && Reads(s) && Validated(s) && Snapshots(s)
  }

  // ----- What any step may do to one key, and why settled points stay put -----

  /** The list of `k` is the same, gained an intent, had its intent resolved, or lost aborted versions. */
  ghost predicate KeyEvolves(s: State, s': State, k: Key) {
    var vs, vs' := At(s, k), At(s', k);
    || vs' == vs
    || (HeadLocked(vs') && vs'[1..] == vs && !HeadLocked(vs)
        && (GetTs(vs'[0].ts) in s'.txns ==> s'.txns[GetTs(vs'[0].ts)].commitTs.None?))
    || (HeadLocked(vs) && vs' == Stamped(vs, ABORTED_TXN_TS))
    || (HeadLocked(vs) && GetTs(vs[0].ts) in s.txns && s.txns[GetTs(vs[0].ts)].commitTs.Some?
        && vs' == Stamped(vs, s.txns[GetTs(vs[0].ts)].commitTs.value))
    || Pruned(vs, vs')
  }

  /** Commit timestamps are only given out fresh, and never taken back. */
  ghost predicate ClockEvolves(s: State, s': State) {
    && s.tso <= s'.tso
    && (forall r :: r in s.txns ==>
          && r in s'.txns
          && (s.txns[r].commitTs.Some? ==> s'.txns[r].commitTs == s.txns[r].commitTs)
          && (s.txns[r].commitTs.None? && s'.txns[r].commitTs.Some? ==> s'.txns[r].commitTs.value >= s.tso))
  }

  lemma SettledStays(s: State, s': State, k: Key, t: nat)
    requires Clock(s) && Txns(s) && KeyShape(s, k) && Owned(s, k)
    requires ClockEvolves(s, s') && KeyEvolves(s, s', k)
    requires Settled(s, k, t)
    ensures Settled(s', k, t) && VisibleAt(At(s', k), t) == VisibleAt(At(s, k), t)
  {
    var vs, vs' := At(s, k), At(s', k);
    if vs' == vs {
    } else if HeadLocked(vs') && vs'[1..] == vs && !HeadLocked(vs)
              && (GetTs(vs'[0].ts) in s'.txns ==> s'.txns[GetTs(vs'[0].ts)].commitTs.None?) {
      assert vs' == [vs'[0]] + vs;
      VisiblePastIntent(vs'[0], vs, t);
    } else if Pruned(vs, vs') {
      PrunedVisible(vs, vs', t);
      PrunedHead(vs, vs');
    } else if vs' == Stamped(vs, ABORTED_TXN_TS) {
      VisibleBelowStamp(vs, ABORTED_TXN_TS, t);
    } else {
      var c := s.txns[GetTs(vs[0].ts)].commitTs.value;
      VisibleBelowStamp(vs, c, t);
      assert vs'[0].ts == c;
    }
  }
}
