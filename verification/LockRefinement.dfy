/**
 The commit protocol run against real lock tables, one for each table name: what the protocol
 sees as a map from keys to holders is, in every reachable state, what the entries hold.
*/
module LockRefinement {
  import opened Common
  import opened Versions
  import Occ
  import LockTable

  datatype Joint = Joint(db: Occ.State, tables: map<string, LockTable.State>)

  datatype Step =
    | Protocol(step: Occ.Step)                                           // touches no lock entry
    | Lock(table: string, access: LockTable.Step, value: Option<Row>)    // one access of a lock table

  function TableOf(j: Joint, table: string): LockTable.State {
    if table in j.tables then j.tables[table] else LockTable.Init()
  }

  /** The sort key a lock access is about. */
  function KeyOf(lt: LockTable.State, access: LockTable.Step): Bytes {
    match access
    case TryLock(key, _) => key
    case Wake(txn) => if txn in lt.waiting then lt.waiting[txn] else []
    case Unlock(key, _) => key
  }

  /** The access leaves its transaction holding the lock. */
  predicate Takes(lt: LockTable.State, access: LockTable.Step) {
    access.Wake? || (access.TryLock? && access.key !in lt.entries)
  }

  /** A protocol step that needs no lock access: a write only under a lock already held. */
  predicate Lockless(s: Occ.State, step: Occ.Step) {
    match step
    case Write(r, k, _) => s.mode == Occ.Inlined || (k in s.locks && s.locks[k] == r)
    case Unlock(_, _) => false
    case _ => true
  }

  /**
   The write that follows a lock taken is one step with it. A lock access comes from a running
   transaction that writes the key, or from one that releases it.
  */
  ghost predicate Enabled(j: Joint, step: Step) {
    match step
    case Protocol(p) => Occ.Enabled(j.db, p) && Lockless(j.db, p)
    case Lock(table, access, _) =>
      && j.db.mode != Occ.Inlined && LockTable.Enabled(TableOf(j, table), access) && access.txn in j.db.txns
      && (if access.Unlock? then j.db.txns[access.txn].phase.Releasing? else j.db.txns[access.txn].phase.Running?)
  }

  ghost function Apply(j: Joint, step: Step): Joint
    requires Enabled(j, step)
  {
    match step
    case Protocol(p) => j.(db := Occ.Apply(j.db, p))
    case Lock(table, access, value) =>
      var lt := TableOf(j, table);
      var k := Occ.Key(table, KeyOf(lt, access));
      Joint(if Takes(lt, access) then Written(j.db, access.txn, k, value)
            else if access.Unlock? then Occ.DoUnlock(j.db, access.txn, k) else j.db,
            j.tables[table := LockTable.Apply(lt, access)])
  }

  /** A write under a lock just taken, as the protocol does it if it may. */
  function Written(s: Occ.State, r: nat, k: Occ.Key, value: Option<Row>): Occ.State {
    if Occ.CanWrite(s, r, k) then Occ.DoWrite(s, r, k, value) else s
  }

  ghost predicate IsRun(mode: Occ.LockManager, run: seq<Joint>, steps: seq<Step>) {
    && |run| == |steps| + 1 && run[0] == Joint(Occ.Init(mode), map[])
    && forall i :: 0 <= i < |steps| ==> Enabled(run[i], steps[i]) && run[i + 1] == Apply(run[i], steps[i])
  }

  /** The protocol's lock map, seen by one lock table. */
  ghost predicate Agree(s: Occ.State, table: string, lt: LockTable.State) {
    && LockTable.Inv(lt)
    && forall key: Bytes ::
         && (Occ.Key(table, key) in s.locks <==> key in LockTable.Holders(lt))
         && (key in LockTable.Holders(lt) && Occ.Key(table, key) in s.locks ==>
               s.locks[Occ.Key(table, key)] == LockTable.Holders(lt)[key])
  }

  ghost predicate AllAgree(j: Joint) {
    forall table: string :: Agree(j.db, table, TableOf(j, table))
  }

  lemma InitAgrees(mode: Occ.LockManager)
    ensures AllAgree(Joint(Occ.Init(mode), map[]))
  {
  }

  lemma InstallLocks(s: Occ.State, r: nat, k: Occ.Key)
    requires Occ.CanInstall(s, r, k)
    ensures Occ.DoInstall(s, r, k).locks == s.locks
  {
    hide Occ.At, Occ.Conflicts;
  }

  lemma ValidateLocks(s: Occ.State, r: nat, k: Occ.Key)
    requires Occ.CanValidate(s, r, k)
    ensures Occ.DoValidate(s, r, k).locks == s.locks
  {
    hide Occ.At, Blocked, Occ.Agrees;
  }

  lemma ReadLocks(s: Occ.State, r: nat, k: Occ.Key)
    requires Occ.CanRead(s, r, k)
    ensures Occ.DoRead(s, r, k).locks == s.locks
  {
    hide Occ.At, VisibleAt, Blocked;
  }

  lemma LocklessKeeps(s: Occ.State, step: Occ.Step)
    requires Occ.Enabled(s, step) && Lockless(s, step)
    ensures Occ.Apply(s, step).locks == s.locks
  {
    hide Occ.At, VisibleAt, Blocked, Occ.Conflicts, Occ.Agrees, Occ.Stamped, Occ.CanCompact, Occ.CanAdvanceTail,
         Occ.DoInstall, Occ.DoValidate, Occ.DoRead;
    match step
    case Install(r, k) => InstallLocks(s, r, k);
    case Validate(r, k) => ValidateLocks(s, r, k);
    case Read(r, k) => ReadLocks(s, r, k);
    case _ =>
  }

  /** What a lock access does is a step of the protocol, or nothing to it. */
  ghost predicate Matches(s: Occ.State, table: string, lt: LockTable.State, access: LockTable.Step) {
    var r, k := access.txn, Occ.Key(table, KeyOf(lt, access));
    && (Takes(lt, access) ==> Occ.CanWrite(s, r, k))
    && (access.TryLock? && !Takes(lt, access) && k in s.locks ==> !Occ.CanWrite(s, r, k))
    && (access.Unlock? ==> Occ.CanUnlock(s, r, k))
  }

  lemma AccessMatches(s: Occ.State, table: string, lt: LockTable.State, access: LockTable.Step)
    requires Agree(s, table, lt) && s.mode != Occ.Inlined && LockTable.Enabled(lt, access) && access.txn in s.txns
    requires if access.Unlock? then s.txns[access.txn].phase.Releasing? else s.txns[access.txn].phase.Running?
    ensures Matches(s, table, lt, access)
  {
    hide LockTable.Inv;
    assert LockTable.Inv(lt);
    LockTable.StepRefines(lt, access);
  }

  lemma TakeAgrees(s: Occ.State, table: string, lt: LockTable.State, access: LockTable.Step, value: Option<Row>)
    requires Agree(s, table, lt) && s.mode != Occ.Inlined && LockTable.Enabled(lt, access) && Takes(lt, access)
    requires Occ.CanWrite(s, access.txn, Occ.Key(table, KeyOf(lt, access)))
    ensures Agree(Occ.DoWrite(s, access.txn, Occ.Key(table, KeyOf(lt, access)), value), table,
                  LockTable.Apply(lt, access))
  {
    LockTable.StepKeeps(lt, access);
    LockTable.StepRefines(lt, access);
    hide LockTable.Inv, LockTable.Holders;
  }

  lemma OtherAgrees(s: Occ.State, table: string, lt: LockTable.State, access: LockTable.Step)
    requires Agree(s, table, lt) && LockTable.Enabled(lt, access) && !Takes(lt, access)
    ensures var s' := if access.Unlock? then Occ.DoUnlock(s, access.txn, Occ.Key(table, access.key)) else s;
            Agree(s', table, LockTable.Apply(lt, access))
  {
    LockTable.StepKeeps(lt, access);
    LockTable.StepRefines(lt, access);
    hide LockTable.Inv, LockTable.Holders;
  }

  /** Agreement at one table depends on that table's keys only. */
  lemma SameLocksAgree(s: Occ.State, s': Occ.State, table: string, lt: LockTable.State)
    requires Agree(s, table, lt)
    requires forall key: Bytes :: SameLock(s, s', Occ.Key(table, key))
    ensures Agree(s', table, lt)
  {
    hide LockTable.Inv, LockTable.Holders;
    forall key: Bytes
      ensures Occ.Key(table, key) in s'.locks <==> key in LockTable.Holders(lt)
      ensures key in LockTable.Holders(lt) && Occ.Key(table, key) in s'.locks ==>
                s'.locks[Occ.Key(table, key)] == LockTable.Holders(lt)[key]
    {
      assert SameLock(s, s', Occ.Key(table, key));
    }
  }

  ghost predicate SameLock(s: Occ.State, s': Occ.State, k: Occ.Key) {
    (k in s.locks <==> k in s'.locks) && (k in s.locks && k in s'.locks ==> s'.locks[k] == s.locks[k])
  }

  lemma ProtocolAgrees(j: Joint, p: Occ.Step)
    requires AllAgree(j) && Enabled(j, Protocol(p))
    ensures AllAgree(Apply(j, Protocol(p)))
  {
    LocklessKeeps(j.db, p);
    hide Occ.Apply, Occ.Enabled, Agree;
    var j' := Apply(j, Protocol(p));
    forall table: string ensures Agree(j'.db, table, TableOf(j', table)) {
      assert Agree(j.db, table, TableOf(j, table));
      SameLocksAgree(j.db, j'.db, table, TableOf(j, table));
    }
  }

  lemma LockAgrees(j: Joint, table: string, access: LockTable.Step, value: Option<Row>)
    requires AllAgree(j) && Enabled(j, Lock(table, access, value))
    ensures AllAgree(Apply(j, Lock(table, access, value)))
  {
    hide Agree, LockTable.Apply, LockTable.Enabled;
    var j', lt := Apply(j, Lock(table, access, value)), TableOf(j, table);
    assert Agree(j.db, table, lt);
    AccessMatches(j.db, table, lt, access);
    if Takes(lt, access) { TakeAgrees(j.db, table, lt, access, value); } else { OtherAgrees(j.db, table, lt, access); }
    forall other: string ensures Agree(j'.db, other, TableOf(j', other)) {
      if other != table {
        assert Agree(j.db, other, TableOf(j, other));
        SameLocksAgree(j.db, j'.db, other, TableOf(j, other));
      }
    }
  }

  lemma StepAgrees(j: Joint, step: Step)
    requires AllAgree(j) && Enabled(j, step)
    ensures AllAgree(Apply(j, step))
  {
    hide AllAgree, Apply, Enabled;
    match step
    case Protocol(p) => ProtocolAgrees(j, p);
    case Lock(table, access, value) => LockAgrees(j, table, access, value);
  }

  /** In every reachable state the lock entries and the protocol's lock map agree on every key of every table. */
  lemma {:induction false} RunAgrees(mode: Occ.LockManager, run: seq<Joint>, steps: seq<Step>, n: nat)
    requires IsRun(mode, run, steps) && n < |run|
    ensures AllAgree(run[n])
  {
    hide AllAgree, Apply, Enabled;
    if n == 0 {
      InitAgrees(mode);
    } else {
      RunAgrees(mode, run, steps, n - 1);
      StepAgrees(run[n - 1], steps[n - 1]);
    }
  }

  /** Every lock access of a run is a step of the protocol, or leaves it where it is. */
  lemma LockAccessIsProtocolStep(mode: Occ.LockManager, run: seq<Joint>, steps: seq<Step>, n: nat)
    requires IsRun(mode, run, steps) && n < |steps| && steps[n].Lock?
    ensures var s, step, lt := run[n].db, steps[n], TableOf(run[n], steps[n].table);
            var r, k := step.access.txn, Occ.Key(step.table, KeyOf(lt, step.access));
            if Takes(lt, step.access) then Occ.CanWrite(s, r, k) && run[n + 1].db == Occ.DoWrite(s, r, k, step.value)
            else if step.access.Unlock? then Occ.CanUnlock(s, r, k) && run[n + 1].db == Occ.DoUnlock(s, r, k)
            else run[n + 1].db == s
  {
    RunAgrees(mode, run, steps, n);
    var step := steps[n];
    assert Agree(run[n].db, step.table, TableOf(run[n], step.table));
    hide AllAgree, LockTable.Inv, LockTable.Holders;
    AccessMatches(run[n].db, step.table, TableOf(run[n], step.table), step.access);
  }
}
