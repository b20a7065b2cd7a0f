/** A transaction's recorded operations are the ones its user asked for, and the log has its outcome. */
module OccRequests {
  import opened Common
  import opened TxnTs
  import opened Versions
  import opened Occ
  import opened OccInv
  import opened OccPages

  /** The step is a call by the user of `r`. */
  predicate Asks(step: Step, r: nat) {
    (step.Write? || step.Read?) && step.r == r
  }

  /** What the call leaves in the transaction's record: the write as it was asked for, or a read of that key. */
  predicate Records(op: Op, step: Step) {
    match step
    case Write(_, k, v) => op == Put(k, v)
    case Read(_, k) => op.Get? && op.key == k
    case _ => false
  }

  /** `ops` has one operation for each call of `r` among the steps, in order. */
  ghost predicate Requested(ops: seq<Op>, steps: seq<Step>, r: nat) {
    if steps == [] then ops == []
    else
      var last, before := steps[|steps| - 1], steps[..|steps| - 1];
      if Asks(last, r) then
        ops != [] && Records(ops[|ops| - 1], last) && Requested(ops[..|ops| - 1], before, r)
      else Requested(ops, before, r)
  }

  function OpsOf(s: State, r: nat): seq<Op> {
    if r in s.txns then s.txns[r].ops else []
  }

  // ----- One step -----

  ghost predicate OpsKept(s: State, s': State) {
    forall q: nat :: OpsOf(s', q) == OpsOf(s, q)
  }

  lemma MoveKeepsOps(s: State, s': State, r: nat)
    requires r in s.txns && r in s'.txns && s'.txns == s.txns[r := s'.txns[r]] && s'.txns[r].ops == s.txns[r].ops
    ensures OpsKept(s, s')
  {
  }

  lemma BeginKeepsOps(s: State)
    requires Clock(s) && Txns(s) && CanBegin(s)
    ensures OpsKept(s, DoBegin(s))
  {
    assert s.tso in s.txns ==> TxnShape(s, s.tso, s.txns[s.tso]);
  }

  lemma InstallKeepsOps(s: State, r: nat, k: Key)
    requires CanInstall(s, r, k)
    ensures OpsKept(s, DoInstall(s, r, k))
  {
    hide At, Conflicts, OpsKept;
    MoveKeepsOps(s, DoInstall(s, r, k), r);
  }

  lemma ValidateKeepsOps(s: State, r: nat, k: Key)
    requires CanValidate(s, r, k)
    ensures OpsKept(s, DoValidate(s, r, k))
  {
    hide At, Blocked, Agrees, OpsKept;
    MoveKeepsOps(s, DoValidate(s, r, k), r);
  }

  lemma TxnStepKeepsOps(s: State, step: Step)
    requires Enabled(s, step)
    requires || step.PublishRead? || step.StartCommit? || step.TakeCommitTs? || step.Decide? || step.Stamp?
             || step.PublishCommit? || step.Abort? || step.FinishAbort?
    ensures OpsKept(s, Apply(s, step))
  {
    hide At, Stamped, OpsKept;
    MoveKeepsOps(s, Apply(s, step), step.r);
  }

  lemma QuietKeepsOps(s: State, step: Step)
    requires Enabled(s, step) && (step.Unlock? || step.AdvanceTail? || step.Compact?)
    ensures OpsKept(s, Apply(s, step))
  {
    hide CanCompact, CanAdvanceTail;
  }

  lemma OtherKeepsOps(s: State, step: Step)
    requires Clock(s) && Txns(s) && Enabled(s, step) && !step.Write? && !step.Read?
    ensures OpsKept(s, Apply(s, step))
  {
    hide Clock, Txns, OpsKept, At, Blocked, VisibleAt, Conflicts, Agrees, CanCompact, CanAdvanceTail;
    match step
    case Begin => BeginKeepsOps(s);
    case Install(r, k) => InstallKeepsOps(s, r, k);
    case Validate(r, k) => ValidateKeepsOps(s, r, k);
    case _ =>
      hide Enabled, Apply;
      if step.Unlock? || step.AdvanceTail? || step.Compact? {
        QuietKeepsOps(s, step);
      } else {
        TxnStepKeepsOps(s, step);
      }
  }

  /** The call of `r` is recorded, and nobody else's record changes. */
  ghost predicate Recording(s: State, s': State, step: Step, r: nat) {
    && (exists op :: Records(op, step) && OpsOf(s', r) == OpsOf(s, r) + [op])
    && forall q: nat :: q != r ==> OpsOf(s', q) == OpsOf(s, q)
  }

  lemma WriteRecords(s: State, r: nat, k: Key, v: Option<Row>)
    requires CanWrite(s, r, k)
    ensures Recording(s, DoWrite(s, r, k, v), Write(r, k, v), r)
  {
    assert Records(Put(k, v), Write(r, k, v));
  }

  lemma ReadRecords(s: State, r: nat, k: Key)
    requires CanRead(s, r, k)
    ensures Recording(s, DoRead(s, r, k), Read(r, k), r)
  {
    hide At, VisibleAt, Blocked;
    var s' := DoRead(s, r, k);
    var op := s'.txns[r].ops[|s'.txns[r].ops| - 1];
    assert Records(op, Read(r, k)) && OpsOf(s', r) == OpsOf(s, r) + [op];
  }

  lemma StepRecords(s: State, step: Step)
    requires Clock(s) && Txns(s) && Enabled(s, step)
    ensures if step.Write? || step.Read? then Recording(s, Apply(s, step), step, step.r)
            else OpsKept(s, Apply(s, step))
  {
    hide Clock, Txns, Recording, OpsKept;
    match step
    case Write(r, k, v) => WriteRecords(s, r, k, v);
    case Read(r, k) => ReadRecords(s, r, k);
    case _ => OtherKeepsOps(s, step);
  }

  // ----- Every run -----

  /** One more step, and the record that goes with it. */
  ghost predicate OpsNext(ops: seq<Op>, ops': seq<Op>, step: Step, r: nat) {
    if Asks(step, r) then exists op :: Records(op, step) && ops' == ops + [op] else ops' == ops
  }

  lemma RequestedNext(ops: seq<Op>, ops': seq<Op>, steps: seq<Step>, step: Step, r: nat)
    requires Requested(ops, steps, r) && OpsNext(ops, ops', step, r)
    ensures Requested(ops', steps + [step], r)
  {
    assert (steps + [step])[..|steps|] == steps;
    if Asks(step, r) {
      var op :| Records(op, step) && ops' == ops + [op];
      assert ops'[..|ops'| - 1] == ops;
    }
  }

  lemma StepOps(s: State, step: Step, r: nat)
    requires Inv(s) && Enabled(s, step)
    ensures OpsNext(OpsOf(s, r), OpsOf(Apply(s, step), r), step, r)
  {
    assert Clock(s) && Txns(s);
    hide Inv, Apply, Enabled, Clock, Txns;
    StepRecords(s, step);
  }

  /**
   In every state of every run a transaction's record has one operation for each call of its user so
   far, in order: a write as it was asked for, a read of the key that was asked for.
  */
  lemma {:induction false} OpsAreRequests(
    mode: LockManager, states: seq<State>, steps: seq<Step>, n: nat, r: nat)
    requires IsRun(mode, states, steps) && n < |states|
    ensures Requested(OpsOf(states[n], r), steps[..n], r)
    decreases n
  {
    hide Inv, Apply, Enabled;
    if n > 0 {
      hide Init, Requested, OpsOf, OpsNext;
      OpsAreRequests(mode, states, steps, n - 1, r);
      RunHolds(mode, states, steps, n - 1);
      StepOps(states[n - 1], steps[n - 1], r);
      RequestedNext(OpsOf(states[n - 1], r), OpsOf(states[n], r), steps[..n - 1], steps[n - 1], r);
      assert steps[..n] == steps[..n - 1] + [steps[n - 1]];
    }
  }

  /**
   What is executed serially is what was asked for: each commit stands for one transaction, which took
   that commit timestamp and passed validation, and its operations are those its user asked for.
  */
  ghost predicate CommitAsRequested(s: State, steps: seq<Step>, c: nat)
    requires c in s.commits
  {
    && c in s.issued && s.issued[c] in s.txns
    && s.txns[s.issued[c]].commitTs == Some(c) && Decided(s.txns[s.issued[c]])
    && s.commits[c].ops == s.txns[s.issued[c]].ops && Requested(s.commits[c].ops, steps, s.issued[c])
  }

  ghost predicate CommitsAsRequested(s: State, steps: seq<Step>) {
    forall c :: c in s.commits ==> CommitAsRequested(s, steps, c)
  }

  lemma CommitsAreRequests(mode: LockManager, states: seq<State>, steps: seq<Step>, n: nat)
    requires IsRun(mode, states, steps) && n < |states|
    ensures CommitsAsRequested(states[n], steps[..n])
  {
    var s := states[n];
    RunHolds(mode, states, steps, n);
    hide Keys, Intents, Owners, Locks, Contents, Reads, Validated, Snapshots, Txns, Clock, Requested;
    assert Ledger(s);
    assert n <= |steps|;
    hide IsRun, Inv;
    forall c | c in s.commits ensures CommitAsRequested(s, steps[..n], c) {
      assert Backed(s, c);
      assert OccInv.Recorded(s, s.issued[c]);
      OpsAreRequests(mode, states, steps, n, s.issued[c]);
    }
  }

  // ----- The outcome in the log -----

  /** A conflict or a failed validation has been met. */
  predicate TurnedBack(t: Txn) {
    t.phase.Undoing? || t.phase.Aborting? || t.phase == Releasing(false)
  }

  predicate IsOutcome(x: Record) {
    x.LogCommit? || x.LogAbort?
  }

  ghost predicate OneOutcome(log: seq<Record>) {
    forall i, j :: 0 <= i < j < |log| && IsOutcome(log[i]) && IsOutcome(log[j]) ==> log[i].txn != log[j].txn
  }

  ghost predicate CommitsLogged(s: State) {
    forall r: nat, c: nat :: LogCommit(r, c) in s.log <==> c in s.commits && c in s.issued && s.issued[c] == r
  }

  ghost predicate AbortsLogged(s: State) {
    forall r: nat :: LogAbort(r) in s.log <==> BackAt(s, r)
  }

  /** A commit record for each commit, an abort record for each transaction that turned back, and no second one. */
  ghost predicate Outcomes(s: State) {
    CommitsLogged(s) && AbortsLogged(s) && OneOutcome(s.log)
  }

  predicate BackAt(s: State, r: nat) {
    r in s.txns && TurnedBack(s.txns[r])
  }

  /** A step that decides nothing: the log gains at most a record that is no outcome. */
  ghost predicate Undecided(s: State, s': State) {
    && s'.commits == s.commits
    && (forall r: nat :: BackAt(s', r) <==> BackAt(s, r))
    && (forall c :: c in s.commits ==> (c in s'.issued <==> c in s.issued))
    && (forall c :: c in s.commits && c in s.issued && c in s'.issued ==> s'.issued[c] == s.issued[c])
    && (s'.log == s.log || exists x :: !IsOutcome(x) && s'.log == s.log + [x])
  }

  lemma UndecidedKeeps(s: State, s': State)
    requires Outcomes(s) && Undecided(s, s')
    ensures Outcomes(s')
  {
    if s'.log != s.log {
      var x :| !IsOutcome(x) && s'.log == s.log + [x];
      assert forall y :: y in s'.log <==> y in s.log || y == x;
    }
    hide OneOutcome;
    forall r: nat, c: nat
      ensures LogCommit(r, c) in s'.log <==> c in s'.commits && c in s'.issued && s'.issued[c] == r
    {
      assert LogCommit(r, c) in s'.log <==> LogCommit(r, c) in s.log;
    }
    forall r: nat ensures LogAbort(r) in s'.log <==> BackAt(s', r) {
      assert LogAbort(r) in s'.log <==> LogAbort(r) in s.log;
    }
    OutcomesSame(s.log, s'.log);
  }

  lemma OutcomesSame(log: seq<Record>, log': seq<Record>)
    requires OneOutcome(log) && (log' == log || exists x :: !IsOutcome(x) && log' == log + [x])
    ensures OneOutcome(log')
  {
  }

  /** Nothing has been decided about a transaction that is still installing or validating. */
  lemma NoOutcomeYet(s: State, r: nat)
    requires Outcomes(s) && Ledger(s) && r in s.txns && (s.txns[r].phase.Installing? || s.txns[r].phase.Validating?)
    ensures forall i :: 0 <= i < |s.log| && IsOutcome(s.log[i]) ==> s.log[i].txn != r
  {
    forall i | 0 <= i < |s.log| && IsOutcome(s.log[i]) ensures s.log[i].txn != r {
      assert s.log[i] in s.log;
      if s.log[i].LogCommit? {
        assert Backed(s, s.log[i].ts);
      }
    }
  }

  /** A first outcome record of a transaction at the end of the log. */
  lemma OutcomeAppended(log: seq<Record>, x: Record)
    requires OneOutcome(log) && IsOutcome(x)
    requires forall i :: 0 <= i < |log| && IsOutcome(log[i]) ==> log[i].txn != x.txn
    ensures OneOutcome(log + [x]) && forall y :: y in log + [x] <==> y in log || y == x
  {
  }

  lemma TurnBackKeeps(s: State, s': State, r: nat)
    requires Outcomes(s) && Ledger(s) && r in s.txns && (s.txns[r].phase.Installing? || s.txns[r].phase.Validating?)
    requires r in s'.txns && s'.txns == s.txns[r := s'.txns[r]] && TurnedBack(s'.txns[r])
    requires s'.commits == s.commits && s'.issued == s.issued && s'.log == s.log + [LogAbort(r)]
    ensures Outcomes(s')
  {
    NoOutcomeYet(s, r);
    hide Ledger, OneOutcome;
    OutcomeAppended(s.log, LogAbort(r));
    assert CommitsLogged(s') by {
      forall q: nat, c: nat
        ensures LogCommit(q, c) in s'.log <==> c in s'.commits && c in s'.issued && s'.issued[c] == q
      {
        assert LogCommit(q, c) in s'.log <==> LogCommit(q, c) in s.log;
      }
    }
    hide CommitsLogged;
    forall q: nat ensures LogAbort(q) in s'.log <==> BackAt(s', q) {
      assert LogAbort(q) in s.log <==> BackAt(s, q);
    }
  }

  lemma CommitKeepsOutcomes(s: State, s': State, r: nat, c: nat)
    requires Outcomes(s) && Ledger(s) && r in s.txns && s.txns[r].phase.Validating? && c in s.issued && s.issued[c] == r
    requires r in s'.txns && s'.txns == s.txns[r := s'.txns[r]] && !TurnedBack(s'.txns[r])
    requires s'.commits.Keys == s.commits.Keys + {c} && s'.issued == s.issued && s'.log == s.log + [LogCommit(r, c)]
    ensures Outcomes(s')
  {
    NoOutcomeYet(s, r);
    hide Ledger, OneOutcome;
    OutcomeAppended(s.log, LogCommit(r, c));
    assert AbortsLogged(s') by {
      hide CommitsLogged;
      forall q: nat ensures LogAbort(q) in s'.log <==> BackAt(s', q) {
        assert LogAbort(q) in s'.log <==> LogAbort(q) in s.log;
      }
    }
    hide AbortsLogged;
    forall q: nat, d: nat
      ensures LogCommit(q, d) in s'.log <==> d in s'.commits && d in s'.issued && s'.issued[d] == q
    {
      assert d in s'.commits.Keys <==> d in s.commits.Keys || d == c;
      assert LogCommit(q, d) in s.log <==> d in s.commits && d in s.issued && s.issued[d] == q;
    }
  }

  lemma DecideKeepsOutcomes(s: State, r: nat)
    requires Outcomes(s) && Txns(s) && Ledger(s) && CanDecide(s, r)
    ensures Outcomes(DoDecide(s, r))
  {
    assert TxnShape(s, r, s.txns[r]);
    hide Outcomes, Ledger, Txns;
    CommitKeepsOutcomes(s, DoDecide(s, r), r, s.txns[r].commitTs.value);
  }

  // ----- Which steps decide nothing -----

  lemma MoveUndecided(s: State, s': State, r: nat)
    requires r in s.txns && r in s'.txns && s'.txns == s.txns[r := s'.txns[r]]
    requires TurnedBack(s'.txns[r]) == TurnedBack(s.txns[r])
    requires s'.commits == s.commits && s'.issued == s.issued
    requires s'.log == s.log || exists x :: !IsOutcome(x) && s'.log == s.log + [x]
    ensures Undecided(s, s')
  {
  }

  /** A timestamp not handed out yet belongs to no commit. */
  lemma NewTimestamp(s: State)
    requires Clock(s) && Txns(s) && Ledger(s)
    ensures s.tso !in s.issued && s.tso !in s.commits && s.tso !in s.txns
  {
    assert s.tso in s.txns ==> TxnShape(s, s.tso, s.txns[s.tso]);
    assert s.tso in s.commits ==> Backed(s, s.tso);
  }

  lemma ClockUndecided(s: State, step: Step)
    requires Clock(s) && Txns(s) && Ledger(s) && Enabled(s, step) && (step.Begin? || step.TakeCommitTs?)
    ensures Undecided(s, Apply(s, step))
  {
    hide Clock, Txns, Ledger;
    NewTimestamp(s);
  }

  lemma UserUndecided(s: State, step: Step)
    requires Enabled(s, step) && (step.PublishRead? || step.Write? || step.Read?)
    ensures Undecided(s, Apply(s, step))
  {
    hide At, VisibleAt, Blocked, Undecided;
    MoveUndecided(s, Apply(s, step), step.r);
  }

  lemma StartUndecided(s: State, r: nat)
    requires CanStartCommit(s, r)
    ensures Undecided(s, DoStartCommit(s, r))
  {
    hide Undecided;
    assert !IsOutcome(LogBegin(r));
    MoveUndecided(s, DoStartCommit(s, r), r);
  }

  lemma InstallUndecided(s: State, r: nat, k: Key)
    requires CanInstall(s, r, k) && !Conflicts(s, r, k)
    ensures Undecided(s, DoInstall(s, r, k))
  {
    hide At, Conflicts, Undecided;
    var s' := DoInstall(s, r, k);
    var x := LogWrite(r, k, Intent(r, s.txns[r].writes[k]));
    assert !IsOutcome(x) && s'.log == s.log + [x];
    MoveUndecided(s, s', r);
  }

  lemma ValidateUndecided(s: State, r: nat, k: Key)
    requires CanValidate(s, r, k) && Agrees(s, r, k)
    ensures Undecided(s, DoValidate(s, r, k))
  {
    hide At, Blocked, Agrees, Undecided;
    MoveUndecided(s, DoValidate(s, r, k), r);
  }

  lemma ResolveUndecided(s: State, step: Step)
    requires Enabled(s, step) && (step.Stamp? || step.Abort?)
    ensures Undecided(s, Apply(s, step))
  {
    hide At, Stamped, Undecided;
    var ts := if step.Stamp? then s.txns[step.r].commitTs.value else ABORTED_TXN_TS;
    var x := LogSetTs(step.r, step.k, ts);
    assert !IsOutcome(x) && Apply(s, step).log == s.log + [x];
    MoveUndecided(s, Apply(s, step), step.r);
  }

  lemma FinishUndecided(s: State, step: Step)
    requires Enabled(s, step) && (step.PublishCommit? || step.FinishAbort?)
    ensures Undecided(s, Apply(s, step))
  {
    hide Undecided;
    MoveUndecided(s, Apply(s, step), step.r);
  }

  lemma QuietUndecided(s: State, step: Step)
    requires Enabled(s, step) && (step.Unlock? || step.AdvanceTail? || step.Compact?)
    ensures Undecided(s, Apply(s, step))
  {
    hide CanCompact, CanAdvanceTail;
  }

  predicate Decides(s: State, step: Step)
    requires Enabled(s, step)
  {
    match step
    case Install(r, k) => Conflicts(s, r, k)
    case Validate(r, k) => !Agrees(s, r, k)
    case Decide(_) => true
    case _ => false
  }

  lemma OtherUndecided(s: State, step: Step)
    requires Clock(s) && Txns(s) && Ledger(s) && Enabled(s, step) && !Decides(s, step)
    ensures Undecided(s, Apply(s, step))
  {
    hide Clock, Txns, Ledger, Undecided, At, Blocked, VisibleAt, Conflicts, Agrees, CanCompact, CanAdvanceTail;
    match step
    case StartCommit(r) => StartUndecided(s, r);
    case Install(r, k) => InstallUndecided(s, r, k);
    case Validate(r, k) => ValidateUndecided(s, r, k);
    case _ =>
      hide Enabled, Apply;
      if step.Begin? || step.TakeCommitTs? {
        ClockUndecided(s, step);
      } else if step.PublishRead? || step.Write? || step.Read? {
        UserUndecided(s, step);
      } else if step.Stamp? || step.Abort? {
        ResolveUndecided(s, step);
      } else if step.PublishCommit? || step.FinishAbort? {
        FinishUndecided(s, step);
      } else {
        QuietUndecided(s, step);
      }
  }

  lemma ConflictKeepsOutcomes(s: State, r: nat, k: Key)
    requires Outcomes(s) && Ledger(s) && CanInstall(s, r, k) && Conflicts(s, r, k)
    ensures Outcomes(DoInstall(s, r, k))
  {
    hide Outcomes, Ledger, At, Conflicts;
    TurnBackKeeps(s, DoInstall(s, r, k), r);
  }

  lemma FailKeepsOutcomes(s: State, r: nat, k: Key)
    requires Outcomes(s) && Ledger(s) && CanValidate(s, r, k) && !Agrees(s, r, k)
    ensures Outcomes(DoValidate(s, r, k))
  {
    hide Outcomes, Ledger, At, Blocked, Agrees;
    TurnBackKeeps(s, DoValidate(s, r, k), r);
  }

  lemma StepKeepsOutcomes(s: State, step: Step)
    requires Clock(s) && Txns(s) && Ledger(s) && Outcomes(s) && Enabled(s, step)
    ensures Outcomes(Apply(s, step))
  {
    hide Clock, Txns, Ledger, Outcomes, At, Blocked, Conflicts, Agrees;
    if Decides(s, step) {
      match step
      case Install(r, k) => ConflictKeepsOutcomes(s, r, k);
      case Validate(r, k) => FailKeepsOutcomes(s, r, k);
      case Decide(r) => DecideKeepsOutcomes(s, r);
      case _ =>
    } else {
      hide Enabled, Apply;
      OtherUndecided(s, step);
      UndecidedKeeps(s, Apply(s, step));
    }
  }

  /**
   In every state of every run the log has a commit record of `r` with timestamp `c` exactly if `r` is
   among the commits under `c`, an abort record of `r` exactly if it met a conflict or failed
   validation, and no two outcome records of one transaction.
  */
  lemma {:induction false} LogHasOutcomes(mode: LockManager, states: seq<State>, steps: seq<Step>, n: nat)
    requires IsRun(mode, states, steps) && n < |states|
    ensures Outcomes(states[n])
    decreases n
  {
    if n > 0 {
      LogHasOutcomes(mode, states, steps, n - 1);
      RunHolds(mode, states, steps, n - 1);
      assert Clock(states[n - 1]) && Txns(states[n - 1]) && Ledger(states[n - 1]);
      hide Inv, Apply, Enabled, Clock, Txns, Ledger, Outcomes;
      StepKeepsOutcomes(states[n - 1], steps[n - 1]);
    }
  }
}
