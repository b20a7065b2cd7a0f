/**
 Progress of commits: who can go on, who waits for whom, that every commit ends after a bounded number
 of its own steps, and exactly when some never end.
*/
module OccProgress {
  import opened Common
  import opened TxnTs
  import opened Versions
  import opened Occ
  import opened OccInv
  import opened OccSteps
  import opened OccPages

  lemma InvParts(s: State)
    requires Inv(s)
    ensures Clock(s) && Txns(s) && Intents(s) && Owners(s)
  {
    hide Clock, Txns, Keys, Intents, Owners, Locks, Ledger, Contents, Reads, Validated, Snapshots;
  }

  /** Inside CommitOrAbort, before the locks are released. */
  predicate Committing(t: Txn) {
    !t.phase.Starting? && !t.phase.Running? && !t.phase.Releasing?
  }

  /** From the start of CommitOrAbort on. */
  predicate Ending(t: Txn) {
    Committing(t) || t.phase.Releasing?
  }

  /** The transaction whose step it is. */
  function Owner(step: Step): Option<nat> {
    match step
    case Begin => None
    case AdvanceTail(_) => None
    case Compact(_) => None
    case PublishRead(r) => Some(r)
    case Write(r, _, _) => Some(r)
    case Read(r, _) => Some(r)
    case StartCommit(r) => Some(r)
    case Install(r, _) => Some(r)
    case TakeCommitTs(r) => Some(r)
    case Validate(r, _) => Some(r)
    case Decide(r) => Some(r)
    case Stamp(r, _) => Some(r)
    case PublishCommit(r) => Some(r)
    case Abort(r, _) => Some(r)
    case FinishAbort(r) => Some(r)
    case Unlock(r, _) => Some(r)
  }

  /** Every key still to be validated carries somebody else's intent: GetRow spins. */
  predicate Waiting(s: State, r: nat)
    requires r in s.txns
  {
    var t := s.txns[r];
    && t.phase.Validating? && t.readSet.Keys - t.phase.validated != {}
    && forall k :: k in t.readSet.Keys - t.phase.validated ==> Blocked(At(s, k), false, Some(r))
  }

  // ----- A bound on a commit's own steps -----

  function Work(t: Txn): nat {
    match t.phase
    case Installing(installed) => |t.writes.Keys - installed| + |t.readSet| + |t.writes| + 3
    case Undoing(left) => |left| + 1
    case Validating(validated) => |t.readSet.Keys - validated| + |t.writes| + 2
    case Aborting(left) => |left| + 1
    case Stamping(stamped) => |t.writes.Keys - stamped| + 1
    case _ => 0
  }

  /** A step of `r` alone, which leaves it less to do. */
  ghost predicate WorksOn(s: State, s': State, r: nat) {
    && r in s.txns && r in s'.txns && s'.txns == s.txns[r := s'.txns[r]]
    && s.tso <= s'.tso <= s.tso + 1 && Work(s'.txns[r]) < Work(s.txns[r]) && Ending(s'.txns[r])
  }

  lemma SetLess<T>(s: set<T>, t: set<T>, x: T)
    requires x in s && x !in t
    ensures |s - (t + {x})| < |s - t|
  {
    assert s - (t + {x}) == (s - t) - {x};
  }

  lemma {:induction false} SubsetSize<T>(a: set<T>, b: set<T>)
    requires a <= b
    ensures |a| <= |b|
    decreases |a|
  {
    if a != {} {
      var x :| x in a;
      SubsetSize(a - {x}, b - {x});
    }
  }

  lemma NoneLeft<T>(a: set<T>, b: set<T>)
    requires b <= a && a - b == {}
    ensures a == b
  {
    assert a == (a - b) + b;
  }

  lemma WorkInstalled(t: Txn, k: Key)
    requires t.phase.Installing? && k in t.writes && k !in t.phase.installed && t.phase.installed <= t.writes.Keys
    ensures Work(t.(phase := Installing(t.phase.installed + {k}))) < Work(t)
    ensures Work(t.(phase := Undoing(t.phase.installed))) < Work(t)
  {
    SetLess(t.writes.Keys, t.phase.installed, k);
    SubsetSize(t.phase.installed, t.writes.Keys);
    assert |t.writes| == |t.writes.Keys|;
  }

  lemma WorkValidated(t: Txn, k: Key)
    requires t.phase.Validating? && k in t.readSet && k !in t.phase.validated
    ensures Work(t.(phase := Validating(t.phase.validated + {k}))) < Work(t)
    ensures Work(t.(phase := Aborting(t.writes.Keys))) < Work(t)
  {
    SetLess(t.readSet.Keys, t.phase.validated, k);
    assert |t.writes| == |t.writes.Keys|;
  }

  lemma WorkStamped(t: Txn, k: Key)
    requires t.phase.Stamping? && k in t.writes && k !in t.phase.stamped
    ensures Work(t.(phase := Stamping(t.phase.stamped + {k}))) < Work(t)
  {
    SetLess(t.writes.Keys, t.phase.stamped, k);
  }

  lemma WorkTaken(t: Txn, c: nat)
    requires t.phase == Installing(t.writes.Keys)
    ensures Work(t.(phase := Validating({}), commitTs := Some(c))) < Work(t)
  {
    assert t.readSet.Keys - {} == t.readSet.Keys && |t.readSet| == |t.readSet.Keys|;
  }

  lemma WorkDecided(t: Txn)
    requires t.phase.Validating?
    ensures Work(t.(phase := Stamping({}))) < Work(t)
  {
    assert t.writes.Keys - {} == t.writes.Keys && |t.writes| == |t.writes.Keys|;
  }

  lemma InstallWorks(s: State, r: nat, k: Key)
    requires CanInstall(s, r, k) && s.txns[r].phase.installed <= s.txns[r].writes.Keys
    ensures WorksOn(s, DoInstall(s, r, k), r)
  {
    hide At, Conflicts, Work;
    WorkInstalled(s.txns[r], k);
  }

  lemma ValidateWorks(s: State, r: nat, k: Key)
    requires CanValidate(s, r, k)
    ensures WorksOn(s, DoValidate(s, r, k), r)
  {
    hide At, Blocked, Agrees, Work;
    WorkValidated(s.txns[r], k);
  }

  lemma TimestampWorks(s: State, step: Step)
    requires Enabled(s, step) && (step.TakeCommitTs? || step.Decide?)
    ensures WorksOn(s, Apply(s, step), step.r)
  {
    hide Work;
    if step.TakeCommitTs? { WorkTaken(s.txns[step.r], s.tso); } else { WorkDecided(s.txns[step.r]); }
  }

  lemma StampWorks(s: State, r: nat, k: Key)
    requires CanStamp(s, r, k)
    ensures WorksOn(s, DoStamp(s, r, k), r)
  {
    hide At, Stamped, Work;
    WorkStamped(s.txns[r], k);
  }

  lemma AbortWorks(s: State, r: nat, k: Key)
    requires CanAbort(s, r, k)
    ensures WorksOn(s, DoAbort(s, r, k), r)
  {
    hide At, Stamped;
  }

  lemma FinishWorks(s: State, step: Step)
    requires Enabled(s, step) && (step.PublishCommit? || step.FinishAbort?)
    ensures WorksOn(s, Apply(s, step), step.r)
  {
  }

  predicate CommitStep(step: Step) {
    || step.Install? || step.Validate? || step.TakeCommitTs? || step.Decide?
    || step.Stamp? || step.Abort? || step.PublishCommit? || step.FinishAbort?
  }

  lemma OwnIsCommitStep(s: State, step: Step, r: nat)
    requires Enabled(s, step) && Owner(step) == Some(r) && r in s.txns && Committing(s.txns[r])
    ensures CommitStep(step)
  {
    hide At, Blocked, VisibleAt, CanCompact, CanAdvanceTail;
  }

  /** Every step of a committing transaction leaves it less to do. */
  lemma OwnStepWorks(s: State, step: Step, r: nat)
    requires Txns(s) && Enabled(s, step) && Owner(step) == Some(r) && r in s.txns && Committing(s.txns[r])
    ensures WorksOn(s, Apply(s, step), r)
  {
    assert TxnShape(s, r, s.txns[r]);
    hide Txns, TxnShape, Enabled, Apply, WorksOn;
    OwnIsCommitStep(s, step, r);
    if step.Install? {
      InstallStepWorks(s, r, step.k);
    } else if step.Validate? {
      ValidateStepWorks(s, r, step.k);
    } else if step.TakeCommitTs? || step.Decide? {
      TimestampWorks(s, step);
    } else if step.Stamp? || step.Abort? {
      ResolveWorks(s, step);
    } else {
      FinishWorks(s, step);
    }
  }

  lemma InstallStepWorks(s: State, r: nat, k: Key)
    requires Enabled(s, Install(r, k)) && s.txns[r].phase.installed <= s.txns[r].writes.Keys
    ensures WorksOn(s, Apply(s, Install(r, k)), r)
  {
    hide WorksOn, At, Conflicts;
    InstallWorks(s, r, k);
  }

  lemma ValidateStepWorks(s: State, r: nat, k: Key)
    requires Enabled(s, Validate(r, k))
    ensures WorksOn(s, Apply(s, Validate(r, k)), r)
  {
    hide WorksOn, At, Blocked, Agrees;
    ValidateWorks(s, r, k);
  }

  lemma ResolveWorks(s: State, step: Step)
    requires Enabled(s, step) && (step.Stamp? || step.Abort?)
    ensures WorksOn(s, Apply(s, step), step.r)
  {
    hide WorksOn, At, Stamped;
    if step.Stamp? { StampWorks(s, step.r, step.k); } else { AbortWorks(s, step.r, step.k); }
  }

  // ----- Who can go on -----

  lemma NextInstall(s: State, r: nat) returns (step: Step)
    requires s.tso <= MAX_TXN_TS && r in s.txns && s.txns[r].phase.Installing?
    requires s.txns[r].phase.installed <= s.txns[r].writes.Keys
    ensures Enabled(s, step) && Owner(step) == Some(r)
  {
    var t := s.txns[r];
    if t.writes.Keys - t.phase.installed == {} {
      NoneLeft(t.writes.Keys, t.phase.installed);
      step := TakeCommitTs(r);
    } else {
      var k :| k in t.writes.Keys - t.phase.installed;
      step := Install(r, k);
    }
  }

  lemma NextValidate(s: State, r: nat) returns (step: Step)
    requires r in s.txns && s.txns[r].phase.Validating? && s.txns[r].commitTs.Some? && !Waiting(s, r)
    requires s.txns[r].phase.validated <= s.txns[r].readSet.Keys
    ensures Enabled(s, step) && Owner(step) == Some(r)
  {
    hide At, Blocked;
    var t := s.txns[r];
    if t.readSet.Keys - t.phase.validated == {} {
      NoneLeft(t.readSet.Keys, t.phase.validated);
      step := Decide(r);
    } else {
      var k :| k in t.readSet.Keys - t.phase.validated && !Blocked(At(s, k), false, Some(r));
      step := Validate(r, k);
    }
  }

  lemma NextStamp(s: State, r: nat) returns (step: Step)
    requires r in s.txns && s.txns[r].phase.Stamping? && s.txns[r].commitTs.Some?
    requires s.txns[r].phase.stamped <= s.txns[r].writes.Keys
    ensures Enabled(s, step) && Owner(step) == Some(r)
  {
    var t := s.txns[r];
    if t.writes.Keys - t.phase.stamped == {} {
      NoneLeft(t.writes.Keys, t.phase.stamped);
      step := PublishCommit(r);
    } else {
      var k :| k in t.writes.Keys - t.phase.stamped;
      step := Stamp(r, k);
    }
  }

  lemma NextAbort(s: State, r: nat) returns (step: Step)
    requires r in s.txns && (s.txns[r].phase.Undoing? || s.txns[r].phase.Aborting?)
    ensures Enabled(s, step) && Owner(step) == Some(r)
  {
    if s.txns[r].phase.left == {} {
      step := FinishAbort(r);
    } else {
      var k :| k in s.txns[r].phase.left;
      step := Abort(r, k);
    }
  }

  /** A committing transaction that is not waiting has a step to take. */
  lemma NextStep(s: State, r: nat) returns (step: Step)
    requires Txns(s) && s.tso <= MAX_TXN_TS && r in s.txns && Committing(s.txns[r]) && !Waiting(s, r)
    ensures Enabled(s, step) && Owner(step) == Some(r)
  {
    assert TxnShape(s, r, s.txns[r]);
    hide Txns, Enabled, Waiting;
    match s.txns[r].phase
    case Installing(_) => step := NextInstall(s, r);
    case Validating(_) => step := NextValidate(s, r);
    case Stamping(_) => step := NextStamp(s, r);
    case _ => step := NextAbort(s, r);
  }

  lemma WaitingHasNoStep(s: State, r: nat, step: Step)
    requires r in s.txns && Waiting(s, r) && Owner(step) == Some(r)
    ensures !Enabled(s, step)
  {
    hide At, Blocked, CanCompact;
  }

  /** A committing transaction has a step of its own to take exactly if it is not waiting. */
  lemma CanGoOn(s: State, r: nat)
    requires Inv(s) && s.tso <= MAX_TXN_TS && r in s.txns && Committing(s.txns[r])
    ensures (exists step :: Owner(step) == Some(r) && Enabled(s, step)) <==> !Waiting(s, r)
  {
    hide Inv, Clock, Txns, Intents, Owners, Waiting, Enabled;
    InvParts(s);
    if !Waiting(s, r) {
      var step := NextStep(s, r);
    } else if step :| Owner(step) == Some(r) && Enabled(s, step) {
      WaitingHasNoStep(s, r, step);
    }
  }

  /** Whoever waits waits for transactions that are committing themselves. */
  lemma WaitsForCommitting(s: State, r: nat, k: Key)
    requires Inv(s) && r in s.txns && Waiting(s, r) && k in s.txns[r].readSet.Keys - s.txns[r].phase.validated
    ensures var q := GetTs(At(s, k)[0].ts);
            q != r && q in s.txns && Committing(s.txns[q]) && k in Holds(s.txns[q])
  {
    InvParts(s);
    hide Inv, Clock, Txns, Intents, At;
    assert Owned(s, k);
    assert Blocked(At(s, k), false, Some(r));
  }

  // ----- Nobody else moves a transaction -----

  ghost predicate Untouched(s: State, s': State, q: nat) {
    q in s.txns ==> q in s'.txns && s'.txns[q] == s.txns[q]
  }

  lemma PageStepLeaves(s: State, step: Step, q: nat)
    requires Enabled(s, step) && (step.Install? || step.Validate? || step.Read?) && step.r != q
    ensures Untouched(s, Apply(s, step), q)
  {
    hide At, VisibleAt, Blocked, Conflicts, Agrees;
  }

  lemma PlainStepLeaves(s: State, step: Step, q: nat)
    requires Enabled(s, step) && Owner(step) != Some(q)
    requires !step.Begin? && !step.Install? && !step.Validate? && !step.Read?
    ensures Untouched(s, Apply(s, step), q)
  {
    hide At, Stamped, CanCompact, CanAdvanceTail;
  }

  /** A step of somebody else leaves a transaction as it is. */
  lemma OthersLeave(s: State, step: Step, q: nat)
    requires Clock(s) && Txns(s) && Enabled(s, step) && Owner(step) != Some(q)
    ensures Untouched(s, Apply(s, step), q)
  {
    if step.Begin? {
      assert q in s.txns ==> TxnShape(s, q, s.txns[q]);
    } else {
      hide Clock, Txns, Enabled, Apply, Untouched;
      if step.Install? || step.Validate? || step.Read? {
        PageStepLeaves(s, step, q);
      } else {
        PlainStepLeaves(s, step, q);
      }
    }
  }

  // ----- The bound, over runs -----

  /** How many of the steps from `i` to `n` are steps of `r` inside CommitOrAbort. */
  function OwnSteps(states: seq<State>, steps: seq<Step>, i: nat, n: nat, r: nat): nat
    requires i <= n <= |steps| <= |states|
  {
    if i == n then 0
    else
      OwnSteps(states, steps, i, n - 1, r)
      + if Owner(steps[n - 1]) == Some(r) && r in states[n - 1].txns && Committing(states[n - 1].txns[r]) then 1 else 0
  }

  lemma StepWork(s: State, step: Step, r: nat)
    requires Inv(s) && Enabled(s, step) && r in s.txns && Ending(s.txns[r])
    ensures r in Apply(s, step).txns && Ending(Apply(s, step).txns[r])
    ensures Work(Apply(s, step).txns[r]) + (if Owner(step) == Some(r) && Committing(s.txns[r]) then 1 else 0)
            <= Work(s.txns[r])
  {
    hide Inv, Clock, Txns, Intents, Owners, Work, Enabled, Apply;
    InvParts(s);
    if Owner(step) != Some(r) {
      OthersLeave(s, step, r);
    } else if Committing(s.txns[r]) {
      OwnStepWorks(s, step, r);
    } else {
      ReleaseLeaves(s, step, r);
    }
  }

  lemma ReleaseLeaves(s: State, step: Step, r: nat)
    requires Enabled(s, step) && Owner(step) == Some(r) && r in s.txns && s.txns[r].phase.Releasing?
    ensures Apply(s, step).txns == s.txns
  {
    hide At, Blocked, VisibleAt, Conflicts, Agrees, CanCompact, CanAdvanceTail;
  }

  lemma {:induction false} WorkRunsOut(
    mode: LockManager, states: seq<State>, steps: seq<Step>, i: nat, n: nat, r: nat)
    requires IsRun(mode, states, steps) && i <= n < |states| && r in states[i].txns && Ending(states[i].txns[r])
    ensures r in states[n].txns && Ending(states[n].txns[r])
    ensures OwnSteps(states, steps, i, n, r) + Work(states[n].txns[r]) <= Work(states[i].txns[r])
    decreases n
  {
    hide Inv, Apply, Enabled, Work, Init, Ending, Committing, Owner;
    if i < n {
      WorkRunsOut(mode, states, steps, i, n - 1, r);
      RunHolds(mode, states, steps, n - 1);
      StepWork(states[n - 1], steps[n - 1], r);
    }
  }

  /**
   In every run, CommitOrAbort takes at most twice its writes, once its reads and three steps of its own,
   whatever the others do in between.
  */
  lemma CommitIsBounded(mode: LockManager, states: seq<State>, steps: seq<Step>, i: nat, n: nat, r: nat)
    requires IsRun(mode, states, steps) && i <= n < |states|
    requires r in states[i].txns && states[i].txns[r].phase == Installing({})
    ensures OwnSteps(states, steps, i, n, r) <= 2 * |states[i].txns[r].writes| + |states[i].txns[r].readSet| + 3
    ensures r in states[n].txns && Ending(states[n].txns[r])
  {
    hide IsRun, Work;
    WorkRunsOut(mode, states, steps, i, n, r);
    WorkAtStart(states[i].txns[r]);
  }

  lemma WorkAtStart(t: Txn)
    ensures t.phase == Installing({}) ==> Work(t) == 2 * |t.writes| + |t.readSet| + 3
  {
    assert t.writes.Keys - {} == t.writes.Keys && |t.writes| == |t.writes.Keys|;
  }

  // ----- Waiting in a circle -----

  function AllCommitting(s: State): set<nat> {
    set r | r in s.txns && Committing(s.txns[r])
  }

  /** Each of them waits, on every key it has left, for another of them. */
  ghost predicate Deadlocked(s: State, who: set<nat>) {
    forall r :: r in who ==> r in s.txns && Waiting(s, r) && WaitsInside(s, r, who)
  }

  ghost predicate WaitsInside(s: State, r: nat, who: set<nat>)
    requires r in s.txns && Waiting(s, r)
  {
    forall k :: k in s.txns[r].readSet.Keys - s.txns[r].phase.validated ==>
      HeadLocked(At(s, k)) && GetTs(At(s, k)[0].ts) in who
  }

  /** No committing transaction has a step of its own to take exactly if they all wait for one another. */
  lemma NobodyCanGoOn(mode: LockManager, states: seq<State>, steps: seq<Step>, n: nat)
    requires IsRun(mode, states, steps) && n < |states| && states[n].tso <= MAX_TXN_TS
    ensures (forall r, step :: r in AllCommitting(states[n]) && Owner(step) == Some(r) ==> !Enabled(states[n], step))
            <==> Deadlocked(states[n], AllCommitting(states[n]))
  {
    var s := states[n];
    RunHolds(mode, states, steps, n);
    hide IsRun, Inv, Enabled, Waiting, WaitsInside;
    if Deadlocked(s, AllCommitting(s)) {
      forall r, step | r in AllCommitting(s) && Owner(step) == Some(r) ensures !Enabled(s, step) {
        WaitingHasNoStep(s, r, step);
      }
    }
    if forall r, step :: r in AllCommitting(s) && Owner(step) == Some(r) ==> !Enabled(s, step) {
      forall r | r in AllCommitting(s) ensures Waiting(s, r) && WaitsInside(s, r, AllCommitting(s)) {
        CanGoOn(s, r);
        WaitersAreInside(s, r);
      }
    }
  }

  lemma WaitersAreInside(s: State, r: nat)
    requires Inv(s) && r in s.txns && Waiting(s, r)
    ensures WaitsInside(s, r, AllCommitting(s))
  {
    hide Inv;
    forall k | k in s.txns[r].readSet.Keys - s.txns[r].phase.validated
      ensures HeadLocked(At(s, k)) && GetTs(At(s, k)[0].ts) in AllCommitting(s)
    {
      WaitsForCommitting(s, r, k);
    }
  }

  /** A waiting transaction is left alone. */
  lemma WaiterLeft(s: State, step: Step, r: nat)
    requires Clock(s) && Txns(s) && Enabled(s, step) && r in s.txns && Waiting(s, r)
    ensures r in Apply(s, step).txns && Apply(s, step).txns[r] == s.txns[r]
  {
    hide Clock, Txns, Apply, Enabled, Waiting;
    if Owner(step) == Some(r) { WaitingHasNoStep(s, r, step); }
    OthersLeave(s, step, r);
  }

  /** Whoever waits in a circle waits for ever: no step of anybody breaks it. */
  lemma DeadlockStays(s: State, step: Step, who: set<nat>)
    requires Inv(s) && Deadlocked(s, who) && Enabled(s, step)
    ensures Deadlocked(Apply(s, step), who)
  {
    var s' := Apply(s, step);
    hide Inv, Clock, Txns, Intents, Owners, Apply, Enabled, Evolves, Waiting, WaitsInside;
    InvParts(s);
    StepKeeps(s, step);
    InvParts(s');
    forall r | r in who ensures r in s'.txns && s'.txns[r] == s.txns[r] { WaiterLeft(s, step, r); }
    DeadlockCarried(s, s', who);
  }

  lemma DeadlockCarried(s: State, s': State, who: set<nat>)
    requires Inv(s) && Deadlocked(s, who) && Clock(s') && Txns(s') && Intents(s')
    requires forall q :: q in who ==> q in s.txns && q in s'.txns && s'.txns[q] == s.txns[q]
    ensures Deadlocked(s', who)
  {
    hide Inv, Clock, Txns, Intents, Waiting, WaitsInside;
    forall r | r in who ensures Waiting(s', r) && WaitsInside(s', r, who) {
      StillWaits(s, s', r, who);
    }
  }

  lemma StillWaits(s: State, s': State, r: nat, who: set<nat>)
    requires Inv(s) && Deadlocked(s, who) && r in who && Clock(s') && Txns(s') && Intents(s')
    requires forall q :: q in who ==> q in s.txns && q in s'.txns && s'.txns[q] == s.txns[q]
    ensures Waiting(s', r) && WaitsInside(s', r, who)
  {
    hide Inv, Clock, Txns, Intents, At;
    forall k | k in s.txns[r].readSet.Keys - s.txns[r].phase.validated
      ensures Blocked(At(s', k), false, Some(r)) && HeadLocked(At(s', k)) && GetTs(At(s', k)[0].ts) in who
    {
      var q := GetTs(At(s, k)[0].ts);
      WaitsForCommitting(s, r, k);
      assert q in who;
      HolderAlone(s', q, k);
    }
  }

  lemma {:induction false} DeadlockForever(
    mode: LockManager, states: seq<State>, steps: seq<Step>, i: nat, n: nat, who: set<nat>)
    requires IsRun(mode, states, steps) && i <= n < |states| && Deadlocked(states[i], who)
    ensures Deadlocked(states[n], who)
    ensures forall r :: r in who ==> r in states[n].txns && states[n].txns[r].phase.Validating?
    decreases n
  {
    hide Inv, Apply, Enabled, Deadlocked, Init;
    if i < n {
      DeadlockForever(mode, states, steps, i, n - 1, who);
      RunHolds(mode, states, steps, n - 1);
      DeadlockStays(states[n - 1], steps[n - 1], who);
    }
    DeadlockedValidate(states[n], who);
  }

  lemma DeadlockedValidate(s: State, who: set<nat>)
    requires Deadlocked(s, who)
    ensures forall r :: r in who ==> r in s.txns && s.txns[r].phase.Validating?
  {
    hide WaitsInside;
  }

  // ----- Draining -----

  /** All the work that is left to transactions below `n`. */
  function TotalWork(s: State, n: nat): nat {
    if n == 0 then 0 else TotalWork(s, n - 1) + if n - 1 in s.txns then Work(s.txns[n - 1]) else 0
  }

  lemma {:induction false} TotalWorkLess(s: State, s': State, r: nat, n: nat)
    requires WorksOn(s, s', r)
    ensures if r < n then TotalWork(s', n) < TotalWork(s, n) else TotalWork(s', n) == TotalWork(s, n)
    decreases n
  {
    hide Work;
    if n > 0 { TotalWorkLess(s, s', r, n - 1); }
  }

  /** Steps of committing transactions, each enabled, lead from `s` to `end`. */
  ghost predicate Drain(s: State, steps: seq<Step>, end: State)
    decreases |steps|
  {
    if steps == [] then end == s
    else Enabled(s, steps[0]) && CommitStep(steps[0]) && Drain(Apply(s, steps[0]), steps[1..], end)
  }

  /**
   From every reachable state, with timestamps to spare, the committing transactions can run on by
   themselves until all have ended but those that wait for one another for ever.
  */
  lemma {:induction false} Drains(s: State, n: nat) returns (steps: seq<Step>, end: State)
    requires Inv(s) && s.tso + TotalWork(s, n) <= MAX_TXN_TS && forall r :: r in s.txns ==> r < n
    ensures Drain(s, steps, end) && Inv(end) && Deadlocked(end, AllCommitting(end))
    ensures end.txns.Keys == s.txns.Keys
    decreases TotalWork(s, n)
  {
    hide Inv, Enabled, Apply, Work, TotalWork, Waiting, WaitsInside, Clock, Txns, Intents, Owners;
    InvParts(s);
    if r :| r in s.txns && Committing(s.txns[r]) && !Waiting(s, r) {
      var step := NextStep(s, r);
      OwnStepWorks(s, step, r);
      OwnIsCommitStep(s, step, r);
      StepKeeps(s, step);
      var s' := Apply(s, step);
      TotalWorkLess(s, s', r, n);
      var rest;
      rest, end := Drains(s', n);
      steps := [step] + rest;
      assert steps[1..] == rest;
    } else {
      steps, end := [], s;
      forall r | r in AllCommitting(s) ensures Waiting(s, r) && WaitsInside(s, r, AllCommitting(s)) {
        WaitersAreInside(s, r);
      }
    }
  }
}
