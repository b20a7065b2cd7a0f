/**
 The lock table as a step machine: transactions that emplace an entry, wait on one, are woken, and
 unlock. It refines a plain map from keys to holders, which is what the commit protocol uses.
*/
module LockTable {
  import opened Common

  const MAX_WAITERS: nat := 255

  datatype Entry = Entry(txn: nat, waiters: nat, isLocked: bool)

  /** `waiting` records, for each transaction inside Lock past its first try, the key it waits for. */
  datatype State = State(entries: map<Bytes, Entry>, waiting: map<nat, Bytes>)

  datatype Step =
    | TryLock(key: Bytes, txn: nat)    // emplace the entry, or join its waiters
    | Wake(txn: nat)                   // the wait loop finds the entry unlocked and takes it
    | Unlock(key: Bytes, txn: nat)

  function Init(): State {
    State(map[], map[])
  }

  /** A transaction is in one call at a time, and the CHECKs: not its own entry, and a waiter to spare. */
  predicate Enabled(s: State, step: Step) {
    match step
    case TryLock(key, txn) =>
      txn !in s.waiting && (key in s.entries ==> s.entries[key].txn != txn && s.entries[key].waiters < MAX_WAITERS)
    case Wake(txn) =>
      txn in s.waiting && s.waiting[txn] in s.entries && !s.entries[s.waiting[txn]].isLocked
      && s.entries[s.waiting[txn]].waiters > 0
    case Unlock(key, txn) =>
      txn !in s.waiting && key in s.entries && s.entries[key].txn == txn && s.entries[key].isLocked
  }

  function Apply(s: State, step: Step): State
    requires Enabled(s, step)
  {
    match step
    case TryLock(key, txn) =>
      if key !in s.entries then s.(entries := s.entries[key := Entry(txn, 0, true)])
      else
        var e := s.entries[key];
        State(s.entries[key := e.(waiters := e.waiters + 1)], s.waiting[txn := key])
    case Wake(txn) =>
      var key := s.waiting[txn];
      State(s.entries[key := Entry(txn, s.entries[key].waiters - 1, true)], s.waiting - {txn})
    case Unlock(key, txn) =>
      var e := s.entries[key].(isLocked := false);
      s.(entries := if e.waiters == 0 then s.entries - {key} else s.entries[key := e])
  }

  /** The transactions waiting for a key. */
  function Waiters(waiting: map<nat, Bytes>, key: Bytes): set<nat> {
    set t | t in waiting && waiting[t] == key
  }

  /** An entry counts its waiters, stays while it has any, and is otherwise locked. */
  ghost predicate Inv(s: State) {
    && (forall key :: key in s.entries ==>
          s.entries[key].waiters == |Waiters(s.waiting, key)| <= MAX_WAITERS
          && (s.entries[key].waiters == 0 ==> s.entries[key].isLocked))
    && (forall t :: t in s.waiting ==> s.waiting[t] in s.entries)
  }

  /** The map the commit protocol sees: keys to holders. */
  function Holders(s: State): map<Bytes, nat> {
    map key | key in s.entries && s.entries[key].isLocked :: s.entries[key].txn
  }

  lemma StepKeeps(s: State, step: Step)
    requires Inv(s) && Enabled(s, step)
    ensures Inv(Apply(s, step))
  {
    var s' := Apply(s, step);
    forall key | key in s'.entries
      ensures s'.entries[key].waiters == |Waiters(s'.waiting, key)| <= MAX_WAITERS
      ensures s'.entries[key].waiters == 0 ==> s'.entries[key].isLocked
    {
      WaitersAfter(s, step, key);
    }
    forall t | t in s'.waiting ensures s'.waiting[t] in s'.entries {
      if step.Unlock? && s.waiting[t] == step.key {
        assert t in Waiters(s.waiting, step.key);
      }
    }
  }

  lemma WaitersJoin(waiting: map<nat, Bytes>, t: nat, joined: Bytes, key: Bytes)
    requires t !in waiting
    ensures |Waiters(waiting[t := joined], key)| == |Waiters(waiting, key)| + if key == joined then 1 else 0
  {
    assert Waiters(waiting[t := joined], key)
           == if key == joined then Waiters(waiting, key) + {t} else Waiters(waiting, key);
  }

  lemma WaitersLeave(waiting: map<nat, Bytes>, t: nat, key: Bytes)
    requires t in waiting
    ensures |Waiters(waiting - {t}, key)| == |Waiters(waiting, key)| - if key == waiting[t] then 1 else 0
  {
    assert Waiters(waiting - {t}, key) == Waiters(waiting, key) - {t};
    assert t in Waiters(waiting, key) <==> key == waiting[t];
  }

  lemma WaitersAfter(s: State, step: Step, key: Bytes)
    requires Inv(s) && Enabled(s, step)
    ensures |Waiters(Apply(s, step).waiting, key)| == |Waiters(s.waiting, key)|
              + (if step.TryLock? && step.key == key && key in s.entries then 1 else 0)
              - (if step.Wake? && s.waiting[step.txn] == key then 1 else 0)
    ensures key !in s.entries ==> Waiters(s.waiting, key) == {}
  {
    assert key !in s.entries ==> Waiters(s.waiting, key) == {};
    hide Waiters, Inv;
    if step.TryLock? {
      if step.key in s.entries { WaitersJoin(s.waiting, step.txn, step.key, key); }
    } else if step.Wake? {
      WaitersLeave(s.waiting, step.txn, key);
    }
  }

  lemma TakeRefines(s: State, s': State, key: Bytes, e: Entry)
    requires key in s.entries ==> !s.entries[key].isLocked
    requires s'.entries == s.entries[key := e] && e.isLocked
    ensures key !in Holders(s) && Holders(s') == Holders(s)[key := e.txn]
  {
  }

  lemma QueueRefines(s: State, s': State, key: Bytes, waiters: nat)
    requires key in s.entries && s'.entries == s.entries[key := s.entries[key].(waiters := waiters)]
    ensures Holders(s') == Holders(s)
  {
  }

  lemma ReleaseRefines(s: State, s': State, key: Bytes)
    requires key in s.entries && s.entries[key].isLocked
    requires s'.entries == s.entries - {key} || s'.entries == s.entries[key := s.entries[key].(isLocked := false)]
    ensures key in Holders(s) && Holders(s)[key] == s.entries[key].txn && Holders(s') == Holders(s) - {key}
  {
  }

  /**
   Every step is a step of the plain lock map: a lock is taken only when nobody holds it, released
   only by its holder, and queueing changes nothing.
  */
  lemma StepRefines(s: State, step: Step)
    requires Inv(s) && Enabled(s, step)
    ensures var h, h' := Holders(s), Holders(Apply(s, step));
            match step
            case TryLock(key, txn) => if key in s.entries then h' == h else key !in h && h' == h[key := txn]
            case Wake(txn) => s.waiting[txn] !in h && h' == h[s.waiting[txn] := txn]
            case Unlock(key, txn) => key in h && h[key] == txn && h' == h - {key}
  {
    hide Holders, Inv;
    var s' := Apply(s, step);
    match step
    case TryLock(key, txn) =>
      if key in s.entries {
        QueueRefines(s, s', key, s.entries[key].waiters + 1);
      } else {
        TakeRefines(s, s', key, Entry(txn, 0, true));
      }
    case Wake(txn) => TakeRefines(s, s', s.waiting[txn], s'.entries[s.waiting[txn]]);
    case Unlock(key, txn) => ReleaseRefines(s, s', key);
  }

  ghost predicate IsRun(states: seq<State>, steps: seq<Step>) {
    && |states| == |steps| + 1 && states[0] == Init()
    && forall i :: 0 <= i < |steps| ==> Enabled(states[i], steps[i]) && states[i + 1] == Apply(states[i], steps[i])
  }

  lemma {:induction false} RunHolds(states: seq<State>, steps: seq<Step>, n: nat)
    requires IsRun(states, steps) && n < |states|
    ensures Inv(states[n])
  {
    if n > 0 {
      RunHolds(states, steps, n - 1);
      StepKeeps(states[n - 1], steps[n - 1]);
    }
  }

  /** A waiter never finds its entry gone, and once the holder unlocks some waiter can take the key. */
  lemma WaiterHasEntry(states: seq<State>, steps: seq<Step>, n: nat, txn: nat)
    requires IsRun(states, steps) && n < |states| && txn in states[n].waiting
    ensures states[n].waiting[txn] in states[n].entries
    ensures states[n].waiting[txn] !in Holders(states[n]) ==> Enabled(states[n], Wake(txn))
  {
    RunHolds(states, steps, n);
    var s, key := states[n], states[n].waiting[txn];
    assert txn in Waiters(s.waiting, key);
  }

  // ----- The CHECKs -----

  ghost predicate Tried(steps: seq<Step>, n: nat, key: Bytes, txn: nat) {
    n <= |steps| && exists m :: 0 <= m < n && steps[m] == TryLock(key, txn)
  }

  /** Whoever an entry names, and whoever waits for it, has called Lock on it. */
  lemma {:induction false} NamedHasTried(states: seq<State>, steps: seq<Step>, n: nat, key: Bytes)
    requires IsRun(states, steps) && n < |states|
    ensures key in states[n].entries ==> Tried(steps, n, key, states[n].entries[key].txn)
    ensures forall t :: t in states[n].waiting && states[n].waiting[t] == key ==> Tried(steps, n, key, t)
  {
    if n > 0 {
      var s, step := states[n - 1], steps[n - 1];
      NamedHasTried(states, steps, n - 1, key);
      assert forall t :: Tried(steps, n - 1, key, t) ==> Tried(steps, n, key, t);
      assert step.TryLock? && step.key == key ==> Tried(steps, n, key, step.txn);
    }
  }

  /**
   A transaction that calls Lock once for each key at most, as the transaction context does,
   never meets its own entry. The other CHECK, on the waiter count, then holds exactly if fewer than
   255 transactions wait for the key.
  */
  lemma LockChecks(states: seq<State>, steps: seq<Step>, n: nat, key: Bytes, txn: nat)
    requires IsRun(states, steps) && n < |states| && txn !in states[n].waiting && !Tried(steps, n, key, txn)
    ensures key in states[n].entries ==> states[n].entries[key].txn != txn
    ensures Enabled(states[n], TryLock(key, txn)) <==>
              key !in states[n].entries || |Waiters(states[n].waiting, key)| < MAX_WAITERS
  {
    RunHolds(states, steps, n);
    NamedHasTried(states, steps, n, key);
  }
}
