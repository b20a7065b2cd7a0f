/** What a read timestamp covers: every commit below it was on the pages when it was handed out. */
module OccReads {
  import opened Common
  import opened TxnTs
  import opened Versions
  import opened Occ
  import opened OccInv
  import opened OccPages
  import opened SnapshotRefinement
  import opened SnapshotWindow
  import OccTheorems

  // ----- What every step keeps of a transaction that has its commit timestamp -----

  /** Writes stay as they are, and a transaction that comes in has no commit timestamp. */
  ghost predicate WritesFixed(s: Occ.State, s': Occ.State) {
    && (forall q :: q in s.txns && s.txns[q].commitTs.Some? ==> q in s'.txns && s'.txns[q].writes == s.txns[q].writes)
    && (forall q :: q in s'.txns && q !in s.txns ==> s'.txns[q].commitTs.None?)
  }

  lemma MoveFixed(s: Occ.State, s': Occ.State, r: nat)
    requires r in s.txns && r in s'.txns && s'.txns == s.txns[r := s'.txns[r]]
    requires s.txns[r].commitTs.Some? ==> s'.txns[r].writes == s.txns[r].writes
    ensures WritesFixed(s, s')
  {
  }

  lemma BeginFixed(s: Occ.State)
    requires Clock(s) && Txns(s) && CanBegin(s)
    ensures WritesFixed(s, DoBegin(s))
  {
    assert s.tso in s.txns ==> TxnShape(s, s.tso, s.txns[s.tso]);
  }

  lemma UserFixed(s: Occ.State, step: Occ.Step)
    requires Txns(s) && Occ.Enabled(s, step)
    requires step.Write? || step.Read? || step.StartCommit? || step.PublishRead?
    ensures WritesFixed(s, Occ.Apply(s, step))
  {
    assert TxnShape(s, step.r, s.txns[step.r]);
    hide At, VisibleAt, Blocked, Txns, WritesFixed;
    MoveFixed(s, Occ.Apply(s, step), step.r);
  }

  lemma InstallFixed(s: Occ.State, r: nat, k: Key)
    requires CanInstall(s, r, k)
    ensures WritesFixed(s, DoInstall(s, r, k))
  {
    hide At, Conflicts, WritesFixed;
    MoveFixed(s, DoInstall(s, r, k), r);
  }

  lemma ValidateFixed(s: Occ.State, r: nat, k: Key)
    requires CanValidate(s, r, k)
    ensures WritesFixed(s, DoValidate(s, r, k))
  {
    hide At, Blocked, Agrees, WritesFixed;
    MoveFixed(s, DoValidate(s, r, k), r);
  }

  lemma ResolveFixed(s: Occ.State, step: Occ.Step)
    requires Occ.Enabled(s, step)
    requires || step.TakeCommitTs? || step.Decide? || step.Stamp? || step.PublishCommit?
             || step.Abort? || step.FinishAbort?
    ensures WritesFixed(s, Occ.Apply(s, step))
  {
    hide At, Occ.Stamped, WritesFixed;
    MoveFixed(s, Occ.Apply(s, step), step.r);
  }

  lemma QuietFixed(s: Occ.State, step: Occ.Step)
    requires Occ.Enabled(s, step) && (step.Unlock? || step.AdvanceTail? || step.Compact?)
    ensures WritesFixed(s, Occ.Apply(s, step))
  {
    hide CanCompact, CanAdvanceTail;
    assert Occ.Apply(s, step).txns == s.txns;
  }

  lemma StepFixed(s: Occ.State, step: Occ.Step)
    requires Clock(s) && Txns(s) && Occ.Enabled(s, step)
    ensures WritesFixed(s, Occ.Apply(s, step))
  {
    hide Clock, Txns, WritesFixed, At, Blocked, VisibleAt, Conflicts, Agrees, CanCompact, CanAdvanceTail;
    match step
    case Begin => BeginFixed(s);
    case Install(r, k) => InstallFixed(s, r, k);
    case Validate(r, k) => ValidateFixed(s, r, k);
    case _ =>
      hide Occ.Enabled, Occ.Apply;
      if step.Unlock? || step.AdvanceTail? || step.Compact? {
        QuietFixed(s, step);
      } else if step.Write? || step.Read? || step.StartCommit? || step.PublishRead? {
        UserFixed(s, step);
      } else {
        ResolveFixed(s, step);
      }
  }

  // ----- Commits below the clock -----

  /** `q` has commit timestamp `c`, has these writes, and has not failed. */
  ghost predicate Committing(s: Occ.State, q: nat, c: nat, writes: map<Key, Option<Row>>) {
    q in s.txns && s.txns[q].commitTs == Some(c) && s.txns[q].writes == writes && !Doomed(s.txns[q])
  }

  lemma CommittingBefore(s: Occ.State, step: Occ.Step, q: nat, c: nat, writes: map<Key, Option<Row>>)
    requires OccInv.Inv(s) && Occ.Enabled(s, step) && Committing(Occ.Apply(s, step), q, c, writes) && c < s.tso
    ensures Committing(s, q, c, writes)
  {
    hide Occ.Apply, Occ.Enabled, Keys, Intents, Owners, Locks, Ledger, Contents, Reads, Validated, Snapshots,
         OccInv.KeyEvolves, Doomed, Txns;
    OccPages.StepKeeps(s, step);
    StepFixed(s, step);
    if Doomed(s.txns[q]) { DoomedStays(s, step, q); }
  }

  /** Whoever commits with a timestamp below the clock had it, and all its writes, already, and had not failed. */
  lemma {:induction false} CommitKnown(
    mode: LockManager, states: seq<Occ.State>, steps: seq<Occ.Step>, j: nat, n: nat, q: nat, c: nat,
    writes: map<Key, Option<Row>>)
    requires Occ.IsRun(mode, states, steps) && j <= n < |states|
    requires Committing(states[n], q, c, writes) && c < states[j].tso
    ensures Committing(states[j], q, c, writes)
    decreases n
  {
    hide Occ.Apply, Occ.Enabled, OccInv.Inv, Occ.Init, Committing;
    if j < n {
      RunHolds(mode, states, steps, n - 1);
      OccTheorems.ClockOnlyGrows(mode, states, steps, j, n - 1);
      CommittingBefore(states[n - 1], steps[n - 1], q, c, writes);
      CommitKnown(mode, states, steps, j, n - 1, q, c, writes);
    }
  }

  /**
   When a transaction is handed its read timestamp, every write of every commit below it is on
   its page: stamped, or as the newest version, an intent that makes a reader wait.
  */
  lemma CommitsBelowReadAreInstalled(
    mode: LockManager, states: seq<Occ.State>, steps: seq<Occ.Step>, j: nat, n: nat, c: nat, k: Key)
    requires Occ.IsRun(mode, states, steps) && j < n < |states| && steps[j] == Begin
    requires c in states[n].commits && c < states[j].tso && k in states[n].commits[c].writes
    ensures var vs := At(states[j], k);
            || HasTs(vs, c)
            || (HeadLocked(vs) && c in states[n].issued && GetTs(vs[0].ts) == states[n].issued[c])
  {
    hide Locks, Reads, Validated, Snapshots, Owners, Keys;
    RunHolds(mode, states, steps, n);
    RunHolds(mode, states, steps, j);
    assert Backed(states[n], c);
    var q := states[n].issued[c];
    assert Recorded(states[n], q);
    CommitKnown(mode, states, steps, j, n, q, c, states[n].commits[c].writes);
    assert TxnShape(states[j], q, states[j].txns[q]);
    hide Occ.IsRun;
    if k in Holds(states[j].txns[q]) {
      HolderAlone(states[j], q, k);
    }
  }
}
