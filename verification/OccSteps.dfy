/** Every step of the commit protocol keeps its invariant. */
module OccSteps {
  import opened Common
  import opened TxnTs
  import opened Versions
  import opened Occ
  import opened OccInv

  // ----- Two-state frames -----

  function HoldsOf(s: State, r: nat): set<Key> {
    if r in s.txns then Holds(s.txns[r]) else {}
  }

  /** Only transaction `r` may change; timestamps once issued stay issued. */
  ghost predicate OnlyTxn(s: State, s': State, r: nat) {
    && s'.mode == s.mode
    && s.tso <= s'.tso
    && s'.txns.Keys == s.txns.Keys + {r}
    && (forall q :: q in s.txns && q != r ==> s'.txns[q] == s.txns[q])
    && s.issued.Keys <= s'.issued.Keys
    && (forall t :: t in s.issued ==> s'.issued[t] == s.issued[t])
  }

  /** The pages stay, and so do the intents that `r` has to resolve. */
  ghost predicate Quiet(s: State, s': State, r: nat) {
    && OnlyTxn(s, s', r)
    && (forall k: Key :: At(s', k) == At(s, k))
    && HoldsOf(s', r) == HoldsOf(s, r)
  }

  /** Only the list of `k` may change, `r` keeps its sets, and gains or loses only the intent on `k`. */
  ghost predicate Touches(s: State, s': State, r: nat, k: Key) {
    && OnlyTxn(s, s', r)
    && s'.tso == s.tso && s'.issued == s.issued && s'.commits == s.commits && s'.locks == s.locks
    && s'.published == s.published && s'.tail == s.tail
    && (forall j: Key :: j != k ==> At(s', j) == At(s, j))
    && r in s.txns && s'.txns[r].(phase := s.txns[r].phase) == s.txns[r]
    && (forall j :: j != k ==> (j in Holds(s'.txns[r]) <==> j in Holds(s.txns[r])))
  }

  // ----- Quiet steps, one part of the invariant at a time -----

  lemma QuietKeys(s: State, s': State, r: nat)
    requires Quiet(s, s', r) && Keys(s)
    ensures Keys(s')
  {
    forall k: Key ensures KeyShape(s', k) { assert KeyShape(s, k); }
  }

  lemma QuietOwners(s: State, s': State, r: nat)
    requires Quiet(s, s', r) && Owners(s)
    ensures Owners(s')
  {
    forall k: Key ensures Owned(s', k) { assert Owned(s, k); }
  }

  lemma QuietIntents(s: State, s': State, r: nat)
    requires Quiet(s, s', r) && Intents(s) && Keys(s)
    requires forall k :: k in HoldsOf(s, r) && k in s'.txns[r].writes ==>
                           k in s.txns[r].writes && s'.txns[r].writes[k] == s.txns[r].writes[k]
    requires r in s.txns ==>
               s'.txns[r].commitTs == s.txns[r].commitTs || s'.txns[r].commitTs == Some(s.tso)
    ensures Intents(s')
  {
    forall q, k | q in s'.txns && k in s'.txns[q].writes && k in Holds(s'.txns[q])
      ensures Held(s', q, k)
    {
      assert q == r ==> k in HoldsOf(s, r);
      assert Held(s, q, k);
      assert KeyShape(s, k);
    }
  }

  lemma QuietTxns(s: State, s': State, r: nat)
    requires OnlyTxn(s, s', r) && Txns(s)
    requires TxnShape(s', r, s'.txns[r])
    ensures Txns(s')
  {
    forall q | q in s'.txns ensures TxnShape(s', q, s'.txns[q]) {
      if q != r { assert TxnShape(s, q, s.txns[q]); }
    }
  }

  lemma QuietLocks(s: State, s': State, r: nat)
    requires OnlyTxn(s, s', r) && Locks(s)
    requires forall k :: k in s.locks && s.locks[k] != r ==> k in s'.locks && s'.locks[k] == s.locks[k]
    requires s.mode != Inlined && !s'.txns[r].phase.Releasing? ==>
               forall k :: k in s'.txns[r].writes ==> k in s'.locks && s'.locks[k] == r
    ensures Locks(s')
  {
  }

  lemma QuietLedger(s: State, s': State, r: nat)
    requires OnlyTxn(s, s', r) && Ledger(s) && Txns(s)
    requires s'.commits == s.commits
    requires r in s.txns && Decided(s'.txns[r]) == Decided(s.txns[r])
    requires Decided(s.txns[r]) ==> s'.txns[r].(phase := s.txns[r].phase) == s.txns[r]
    ensures Ledger(s')
  {
    forall q | q in s'.txns ensures Recorded(s', q) { assert Recorded(s, q); }
    forall c | c in s'.commits ensures Backed(s', c) { assert Backed(s, c); }
  }

  lemma QuietContents(s: State, s': State, r: nat)
    requires Quiet(s, s', r) && Contents(s)
    requires s.commits.Keys <= s'.commits.Keys && forall c :: c in s.commits ==> s'.commits[c] == s.commits[c]
    requires Decided(s'.txns[r]) ==>
               || s'.txns[r].writes.Keys <= Holds(s'.txns[r])
               || (r in s.txns && Decided(s.txns[r]) && s'.txns[r].(phase := s.txns[r].phase) == s.txns[r])
    ensures Contents(s')
  {
    forall k: Key, v | v in At(s', k) && !IsLocked(v.ts) && v.ts != ABORTED_TXN_TS
      ensures Written(s', k, v)
    {
      assert v in At(s, k) && Written(s, k, v);
    }
    forall q, k | q in s'.txns && Decided(s'.txns[q]) && s'.txns[q].commitTs.Some? && k in s'.txns[q].writes
      ensures k in Holds(s'.txns[q]) || HasTs(At(s', k), s'.txns[q].commitTs.value)
    {
      assert q == r ==> Holds(s'.txns[r]) == HoldsOf(s, r);
    }
  }

  // ----- Any step: what was read or validated stays so -----

  ghost predicate Evolves(s: State, s': State) {
    ClockEvolves(s, s') && forall k: Key :: KeyEvolves(s, s', k)
  }

  lemma EvolveReads(s: State, s': State, r: nat)
    requires Clock(s) && Txns(s) && Keys(s) && Owners(s) && Reads(s)
    requires OnlyTxn(s, s', r) && Evolves(s, s')
    requires forall k :: k in s'.txns[r].readSet && k in s'.txns[r].seen ==>
               || ReadHolds(s', r, k)
               || (r in s.txns && k in s.txns[r].readSet && k in s.txns[r].seen
                   && s'.txns[r].readSet[k] == s.txns[r].readSet[k] && s'.txns[r].seen[k] == s.txns[r].seen[k])
    ensures Reads(s')
  {
    forall q, k | q in s'.txns && k in s'.txns[q].readSet && k in s'.txns[q].seen
      ensures ReadHolds(s', q, k)
    {
      if q != r || !ReadHolds(s', q, k) {
        assert ReadHolds(s, q, k);
        assert KeyShape(s, k) && Owned(s, k);
        SettledStays(s, s', k, q);
      }
    }
  }

  lemma ValidStays(s: State, s': State, k: Key, c: nat, seen: Option<Row>)
    requires Clock(s) && Txns(s) && Keys(s) && Owners(s) && Evolves(s, s')
    requires Valid(s, k, c, seen)
    ensures Valid(s', k, c, seen)
  {
    assert KeyShape(s, k) && Owned(s, k);
    SettledStays(s, s', k, c - 1);
  }

  lemma EvolveValidated(s: State, s': State, r: nat)
    requires Clock(s) && Txns(s) && Keys(s) && Owners(s) && Validated(s)
    requires OnlyTxn(s, s', r) && Evolves(s, s')
    requires s'.txns[r].phase.Validating? ==>
               forall k :: k in s'.txns[r].phase.validated && s'.txns[r].commitTs.Some? && k in s'.txns[r].seen ==>
                             Valid(s, k, s'.txns[r].commitTs.value, s'.txns[r].seen[k])
    requires forall c, k :: c in s'.commits && k in s'.commits[c].seen ==>
               Valid(s, k, c, s'.commits[c].seen[k])
    ensures Validated(s')
  {
    forall q, k | q in s'.txns && s'.txns[q].phase.Validating? && k in s'.txns[q].phase.validated
                  && s'.txns[q].commitTs.Some? && k in s'.txns[q].seen
      ensures Valid(s', k, s'.txns[q].commitTs.value, s'.txns[q].seen[k])
    {
      assert Valid(s, k, s'.txns[q].commitTs.value, s'.txns[q].seen[k]);
      ValidStays(s, s', k, s'.txns[q].commitTs.value, s'.txns[q].seen[k]);
    }
    forall c, k | c in s'.commits && k in s'.commits[c].seen
      ensures Valid(s', k, c, s'.commits[c].seen[k])
    {
      ValidStays(s, s', k, c, s'.commits[c].seen[k]);
    }
  }

  /** The parts a quiet step keeps when it leaves `r`'s sets, commit timestamp and decision alone. */
  ghost predicate SameSets(t: Txn, t': Txn) {
    && t'.(phase := t.phase) == t
    && Decided(t') == Decided(t)
    && Holds(t') == Holds(t)
    && (t'.phase.Validating? ==> t.phase.Validating? && t'.phase.validated == t.phase.validated)
  }

  lemma QuietEvolves(s: State, s': State, r: nat)
    requires Quiet(s, s', r)
    requires r in s.txns ==>
               || s'.txns[r].commitTs == s.txns[r].commitTs
               || (s.txns[r].commitTs.None? && s'.txns[r].commitTs == Some(s.tso))
    ensures Evolves(s, s')
  {
    forall k: Key ensures KeyEvolves(s, s', k) { assert At(s', k) == At(s, k); }
  }

  lemma QuietPhase(s: State, s': State, r: nat)
    requires Inv(s) && Quiet(s, s', r) && r in s.txns && SameSets(s.txns[r], s'.txns[r])
    requires s'.commits == s.commits && s'.issued == s.issued && s'.tso == s.tso && s'.locks == s.locks
    requires TxnShape(s', r, s'.txns[r])
    requires s.txns[r].phase.Releasing? ==> s'.txns[r].phase.Releasing?
    ensures Clock(s') && Txns(s') && Keys(s') && Owners(s') && Locks(s')
  {
    hide Txns, Keys, Intents, Owners, Ledger, Contents, Reads, Snapshots;
    QuietTxns(s, s', r);
    QuietKeys(s, s', r);
    QuietOwners(s, s', r);
    QuietLocks(s, s', r);
  }

  lemma QuietPhaseWrites(s: State, s': State, r: nat)
    requires Inv(s) && Quiet(s, s', r) && r in s.txns && SameSets(s.txns[r], s'.txns[r])
    requires s'.commits == s.commits
    ensures Intents(s') && Ledger(s') && Contents(s')
  {
    hide Txns, Keys, Intents, Owners, Ledger, Contents, Reads, Snapshots;
    QuietIntents(s, s', r);
    QuietLedger(s, s', r);
    QuietContents(s, s', r);
  }

  lemma QuietPhaseReads(s: State, s': State, r: nat)
    requires Inv(s) && Quiet(s, s', r) && r in s.txns && SameSets(s.txns[r], s'.txns[r])
    requires s'.commits == s.commits
    ensures Reads(s') && Validated(s') && Evolves(s, s')
  {
    hide Txns, Keys, Intents, Owners, Ledger, Contents, Reads, Snapshots;
    QuietEvolves(s, s', r);
    EvolveReads(s, s', r);
    EvolveValidated(s, s', r);
  }

  lemma QuietSnapshots(s: State, s': State, r: nat)
    requires Clock(s) && Txns(s) && Snapshots(s) && OnlyTxn(s, s', r)
    requires s.tail == s'.tail && s.published <= s'.published
    requires forall p :: p in s'.published && p !in s.published ==> p in s.issued && s.issued[p] == r
    requires r in s.txns && s'.txns[r].commitTs == s.txns[r].commitTs
    requires s'.txns[r].commitTs.Some? && s'.txns[r].commitTs.value in s'.published ==>
               s'.txns[r].phase == Releasing(true)
    ensures Snapshots(s')
  {
    forall q | q in s'.txns && s'.txns[q].commitTs.Some? && s'.txns[q].commitTs.value in s'.published
      ensures s'.txns[q].phase == Releasing(true)
    {
      if q != r { assert TxnShape(s, q, s.txns[q]); }
    }
  }

  /** `r` moves to phase `p`; nothing else changes but the log and what is published. */
  function Rephased(s: State, r: nat, p: Phase, published: set<nat>, log: seq<Record>): State
    requires r in s.txns
  {
    s.(txns := s.txns[r := s.txns[r].(phase := p)], published := published, log := log)
  }

  lemma RephasedQuiet(s: State, r: nat, p: Phase, published: set<nat>, log: seq<Record>)
    requires r in s.txns && Holds(s.txns[r].(phase := p)) == Holds(s.txns[r])
    ensures Quiet(s, Rephased(s, r, p, published, log), r)
  {
  }

  lemma PhaseStep(s: State, r: nat, p: Phase, published: set<nat>, log: seq<Record>)
    requires Inv(s) && r in s.txns && SameSets(s.txns[r], s.txns[r].(phase := p))
    requires TxnShape(s, r, s.txns[r].(phase := p))
    requires s.txns[r].phase.Releasing? ==> p.Releasing?
    requires s.published <= published
    requires forall q :: q in published && q !in s.published ==> q in s.issued && s.issued[q] == r
    requires s.txns[r].commitTs.Some? && s.txns[r].commitTs.value in published ==> p == Releasing(true)
    ensures Inv(Rephased(s, r, p, published, log)) && Evolves(s, Rephased(s, r, p, published, log))
  {
    hide Txns, Keys, Intents, Owners, Locks, Ledger, Contents, Reads, Validated, Snapshots;
    var s' := Rephased(s, r, p, published, log);
    RephasedQuiet(s, r, p, published, log);
    QuietPhase(s, s', r);
    QuietPhaseWrites(s, s', r);
    QuietPhaseReads(s, s', r);
    QuietSnapshots(s, s', r);
  }

  lemma PublishReadKeeps(s: State, r: nat)
    requires Inv(s) && CanPublishRead(s, r)
    ensures Inv(DoPublishRead(s, r)) && Evolves(s, DoPublishRead(s, r))
  {
    hide Keys, Intents, Owners, Locks, Ledger, Contents, Reads, Validated;
    assert TxnShape(s, r, s.txns[r]);
    PhaseStep(s, r, Running, s.published + {r}, s.log);
  }

  lemma StartCommitKeeps(s: State, r: nat)
    requires Inv(s) && CanStartCommit(s, r)
    ensures Inv(DoStartCommit(s, r)) && Evolves(s, DoStartCommit(s, r))
  {
    hide Keys, Intents, Owners, Locks, Ledger, Contents, Reads, Validated;
    assert TxnShape(s, r, s.txns[r]);
    PhaseStep(s, r, Installing({}), s.published, s.log + [LogBegin(r)]);
  }

  lemma ConflictKeeps(s: State, r: nat, k: Key)
    requires Inv(s) && CanInstall(s, r, k) && Conflicts(s, r, k)
    ensures Inv(DoInstall(s, r, k)) && Evolves(s, DoInstall(s, r, k))
  {
    hide Keys, Intents, Owners, Locks, Ledger, Contents, Reads, Validated;
    assert TxnShape(s, r, s.txns[r]);
    PhaseStep(s, r, Undoing(s.txns[r].phase.installed), s.published, s.log + [LogAbort(r)]);
  }

  lemma ValidateFailKeeps(s: State, r: nat, k: Key)
    requires Inv(s) && CanValidate(s, r, k) && !Agrees(s, r, k)
    ensures Inv(DoValidate(s, r, k)) && Evolves(s, DoValidate(s, r, k))
  {
    hide Keys, Intents, Owners, Locks, Ledger, Contents, Reads, Validated;
    assert TxnShape(s, r, s.txns[r]);
    PhaseStep(s, r, Aborting(s.txns[r].writes.Keys), s.published, s.log + [LogAbort(r)]);
  }

  lemma PublishCommitKeeps(s: State, r: nat)
    requires Inv(s) && CanPublishCommit(s, r)
    ensures Inv(DoPublishCommit(s, r)) && Evolves(s, DoPublishCommit(s, r))
  {
    hide Keys, Intents, Owners, Locks, Ledger, Contents, Reads, Validated;
    assert TxnShape(s, r, s.txns[r]);
    PhaseStep(s, r, Releasing(true), s.published + {s.txns[r].commitTs.value}, s.log);
  }

  lemma FinishAbortKeeps(s: State, r: nat)
    requires Inv(s) && CanFinishAbort(s, r)
    ensures Inv(DoFinishAbort(s, r)) && Evolves(s, DoFinishAbort(s, r))
  {
    hide Keys, Intents, Owners, Locks, Ledger, Contents, Reads, Validated;
    assert TxnShape(s, r, s.txns[r]);
    PhaseStep(s, r, Releasing(false), s.published, s.log);
  }

  // ----- Begin -----

  lemma BeginKeeps(s: State)
    requires Inv(s) && CanBegin(s)
    ensures Inv(DoBegin(s)) && Evolves(s, DoBegin(s))
  {
    hide Txns, Keys, Intents, Owners, Locks, Ledger, Contents, Reads, Validated, Snapshots;
    var s', r := DoBegin(s), s.tso;
    BeginFrame(s, s', r);
    BeginTxns(s, s', r);
    BeginParts(s, s', r);
    BeginRest(s, s', r);
  }

  lemma BeginFrame(s: State, s': State, r: nat)
    requires Clock(s) && Txns(s) && CanBegin(s) && s' == DoBegin(s) && r == s.tso
    ensures r !in s.txns && Quiet(s, s', r)
  {
    forall q | q in s.txns ensures q < s.tso { assert TxnShape(s, q, s.txns[q]); }
  }

  lemma BeginTxns(s: State, s': State, r: nat)
    requires Clock(s) && Txns(s) && CanBegin(s) && s' == DoBegin(s) && r == s.tso && Quiet(s, s', r)
    ensures Clock(s') && Txns(s')
  {
    QuietTxns(s, s', r);
  }

  lemma BeginParts(s: State, s': State, r: nat)
    requires Inv(s) && CanBegin(s) && s' == DoBegin(s) && r == s.tso && r !in s.txns && Quiet(s, s', r)
    ensures Keys(s') && Intents(s') && Owners(s') && Locks(s') && Contents(s')
  {
    QuietKeys(s, s', r);
    QuietIntents(s, s', r);
    QuietOwners(s, s', r);
    QuietLocks(s, s', r);
    QuietContents(s, s', r);
  }

  lemma BeginRest(s: State, s': State, r: nat)
    requires Inv(s) && CanBegin(s) && s' == DoBegin(s) && r == s.tso && r !in s.txns && Quiet(s, s', r)
    ensures Ledger(s') && Reads(s') && Validated(s') && Snapshots(s') && Evolves(s, s')
  {
    QuietEvolves(s, s', r);
    EvolveReads(s, s', r);
    EvolveValidated(s, s', r);
    forall q | q in s'.txns ensures Recorded(s', q) {
      if q != r { assert Recorded(s, q); }
    }
    forall c | c in s'.commits ensures Backed(s', c) { assert Backed(s, c); }
  }

  // ----- Running: buffered writes and reads -----

  lemma WriteKeeps(s: State, r: nat, k: Key, v: Option<Row>)
    requires Inv(s) && CanWrite(s, r, k)
    ensures Inv(DoWrite(s, r, k, v)) && Evolves(s, DoWrite(s, r, k, v))
  {
    hide Keys, Intents, Owners, Ledger, Contents, Reads, Validated, Snapshots, Txns;
    WriteShape(s, r, k, v);
    UserStep(s, DoWrite(s, r, k, v), r);
  }

  lemma WriteShape(s: State, r: nat, k: Key, v: Option<Row>)
    requires Txns(s) && CanWrite(s, r, k)
    ensures TxnShape(DoWrite(s, r, k, v), r, DoWrite(s, r, k, v).txns[r])
    ensures Quiet(s, DoWrite(s, r, k, v), r)
  {
    var t' := DoWrite(s, r, k, v).txns[r];
    assert TxnShape(s, r, s.txns[r]);
    assert t'.ops[..|t'.ops| - 1] == s.txns[r].ops;
  }

  /** A running transaction extends its log of operations and its sets. */
  lemma UserStep(s: State, s': State, r: nat)
    requires Inv(s) && Quiet(s, s', r) && r in s.txns && s.txns[r].phase.Running?
    requires s'.txns[r].phase.Running? && s'.txns[r].commitTs == s.txns[r].commitTs
    requires s'.tso == s.tso && s'.issued == s.issued && s'.commits == s.commits
    requires s'.published == s.published && s'.tail == s.tail
    requires TxnShape(s', r, s'.txns[r])
    requires forall k :: k in s.locks && s.locks[k] != r ==> k in s'.locks && s'.locks[k] == s.locks[k]
    requires s.mode != Inlined ==> forall k :: k in s'.txns[r].writes ==> k in s'.locks && s'.locks[k] == r
    requires forall k :: k in s'.txns[r].readSet && k in s'.txns[r].seen ==>
               || ReadHolds(s', r, k)
               || (k in s.txns[r].readSet && k in s.txns[r].seen
                   && s'.txns[r].readSet[k] == s.txns[r].readSet[k] && s'.txns[r].seen[k] == s.txns[r].seen[k])
    ensures Inv(s') && Evolves(s, s')
  {
    hide Txns, Keys, Intents, Owners, Locks, Ledger, Contents, Reads, Snapshots;
    QuietTxns(s, s', r);
    QuietKeys(s, s', r);
    QuietOwners(s, s', r);
    QuietLocks(s, s', r);
    UserStepWrites(s, s', r);
    QuietEvolves(s, s', r);
    EvolveReads(s, s', r);
    EvolveValidated(s, s', r);
    QuietSnapshots(s, s', r);
  }

  lemma UserStepWrites(s: State, s': State, r: nat)
    requires Inv(s) && Quiet(s, s', r) && r in s.txns && s.txns[r].phase.Running?
    requires s'.txns[r].phase.Running? && s'.txns[r].commitTs == s.txns[r].commitTs
    requires s'.commits == s.commits
    ensures Intents(s') && Ledger(s') && Contents(s')
  {
    QuietIntents(s, s', r);
    QuietLedger(s, s', r);
    QuietContents(s, s', r);
  }

  lemma {:induction false} ExplainedMore(ops: seq<Op>, seen: map<Key, Option<Row>>, k: Key, v: Option<Row>)
    requires Explained(ops, seen) && (k in seen ==> seen[k] == v)
    ensures Explained(ops, seen[k := v])
    decreases |ops|
  {
    if ops != [] {
      ExplainedMore(ops[..|ops| - 1], seen, k, v);
    }
  }

  lemma ReadOwnKeeps(s: State, r: nat, k: Key)
    requires Inv(s) && CanRead(s, r, k) && k in s.txns[r].writes
    ensures Inv(DoRead(s, r, k)) && Evolves(s, DoRead(s, r, k))
  {
    hide Keys, Intents, Owners, Ledger, Contents, Reads, Validated, Snapshots;
    ReadOwnShape(s, r, k);
    ReadQuiet(s, r, k);
    UserStep(s, DoRead(s, r, k), r);
  }

  lemma ReadTableKeeps(s: State, r: nat, k: Key)
    requires Inv(s) && CanRead(s, r, k) && k !in s.txns[r].writes
    ensures Inv(DoRead(s, r, k)) && Evolves(s, DoRead(s, r, k))
  {
    hide Keys, Intents, Owners, Ledger, Contents, Reads, Validated, Snapshots;
    assert TxnShape(s, r, s.txns[r]);
    ReadTableShape(s, r, k);
    ReadQuiet(s, r, k);
    UserStep(s, DoRead(s, r, k), r);
  }

  lemma ReadOwnShape(s: State, r: nat, k: Key)
    requires Txns(s) && CanRead(s, r, k) && k in s.txns[r].writes
    ensures TxnShape(DoRead(s, r, k), r, DoRead(s, r, k).txns[r])
  {
    var t' := DoRead(s, r, k).txns[r];
    assert TxnShape(s, r, s.txns[r]);
    assert t'.ops[..|t'.ops| - 1] == s.txns[r].ops;
  }

  /** A table read extends an explained log. */
  lemma ExplainedGet(ops: seq<Op>, seen: map<Key, Option<Row>>, k: Key, v: Option<Row>)
    requires Explained(ops, seen) && k !in Buffer(ops) && (k in seen ==> seen[k] == v)
    ensures Explained(ops + [Get(k, v)], seen[k := v]) && Buffer(ops + [Get(k, v)]) == Buffer(ops)
  {
    var more := ops + [Get(k, v)];
    assert more[..|more| - 1] == ops;
    ExplainedMore(ops, seen, k, v);
  }

  lemma ReadTableShape(s: State, r: nat, k: Key)
    requires Clock(s) && Reads(s) && CanRead(s, r, k) && k !in s.txns[r].writes
    requires TxnShape(s, r, s.txns[r])
    ensures TxnShape(DoRead(s, r, k), r, DoRead(s, r, k).txns[r])
    ensures ReadHolds(DoRead(s, r, k), r, k)
  {
    var t := s.txns[r];
    assert k in t.readSet ==> ReadHolds(s, r, k);
    hide Reads, Explained, Buffer;
    ExplainedGet(t.ops, t.seen, k, ValueOf(VisibleAt(At(s, k), r)));
  }

  lemma ReadQuiet(s: State, r: nat, k: Key)
    requires CanRead(s, r, k)
    ensures Quiet(s, DoRead(s, r, k), r)
  {
  }

  // ----- Commit timestamp, validation, decision -----

  /** What a quiet step of `r` must respect. */
  ghost predicate Proper(s: State, s': State, r: nat)
    requires r in s.txns && r in s'.txns
  {
    var t, t' := s.txns[r], s'.txns[r];
    && t'.writes == t.writes && t'.readSet == t.readSet && t'.seen == t.seen && t'.ops == t.ops
    && (t'.commitTs == t.commitTs || (t.commitTs.None? && t'.commitTs == Some(s.tso)))
    && s'.locks == s.locks && !t.phase.Releasing? && !t'.phase.Releasing?
    && s.commits.Keys <= s'.commits.Keys && (forall c :: c in s.commits ==> s'.commits[c] == s.commits[c])
    && !Decided(t) && (Decided(t') ==> t'.writes.Keys <= Holds(t'))
    && s'.published == s.published && s'.tail == s.tail
  }

  /** New validations and commits are valid in the state before. */
  ghost predicate Checked(s: State, s': State, r: nat)
    requires r in s'.txns
  {
    && (s'.txns[r].phase.Validating? ==>
          forall k :: k in s'.txns[r].phase.validated && s'.txns[r].commitTs.Some? && k in s'.txns[r].seen ==>
                        Valid(s, k, s'.txns[r].commitTs.value, s'.txns[r].seen[k]))
    && (forall c, k :: c in s'.commits && k in s'.commits[c].seen ==> Valid(s, k, c, s'.commits[c].seen[k]))
  }

  lemma QuietStep(s: State, s': State, r: nat)
    requires Inv(s) && Quiet(s, s', r) && r in s.txns && Proper(s, s', r) && Checked(s, s', r)
    requires Clock(s') && TxnShape(s', r, s'.txns[r]) && Ledger(s')
    ensures Inv(s') && Evolves(s, s')
  {
    hide Txns, Keys, Intents, Owners, Ledger, Contents, Reads, Validated, Snapshots;
    QuietTxns(s, s', r);
    QuietKeys(s, s', r);
    QuietIntents(s, s', r);
    QuietOwners(s, s', r);
    QuietLocks(s, s', r);
    QuietContents(s, s', r);
    QuietStepRest(s, s', r);
  }

  lemma QuietStepRest(s: State, s': State, r: nat)
    requires Inv(s) && Quiet(s, s', r) && r in s.txns && Proper(s, s', r) && Checked(s, s', r)
    ensures Reads(s') && Validated(s') && Snapshots(s') && Evolves(s, s')
  {
    QuietEvolves(s, s', r);
    EvolveReads(s, s', r);
    EvolveValidated(s, s', r);
    forall q | q in s'.txns && s'.txns[q].commitTs.Some? && s'.txns[q].commitTs.value in s'.published
      ensures s'.txns[q].phase == Releasing(true)
    {
      assert q in s.txns;
    }
  }

  lemma TakeCommitTsKeeps(s: State, r: nat)
    requires Inv(s) && CanTakeCommitTs(s, r)
    ensures Inv(DoTakeCommitTs(s, r)) && Evolves(s, DoTakeCommitTs(s, r))
  {
    hide Keys, Intents, Owners, Locks, Ledger, Contents, Reads, Validated, Snapshots;
    var s' := DoTakeCommitTs(s, r);
    TakeCommitTsFrame(s, s', r);
    TakeCommitTsLedger(s, s', r);
    QuietStep(s, s', r);
  }

  lemma TakeCommitTsFrame(s: State, s': State, r: nat)
    requires Clock(s) && CanTakeCommitTs(s, r) && s' == DoTakeCommitTs(s, r)
    requires TxnShape(s, r, s.txns[r])
    ensures Quiet(s, s', r) && Proper(s, s', r) && Clock(s') && TxnShape(s', r, s'.txns[r])
  {
    TakeCommitTsQuiet(s, s', r);
    hide Explained, Buffer, Quiet;
  }

  lemma TakeCommitTsQuiet(s: State, s': State, r: nat)
    requires Clock(s) && CanTakeCommitTs(s, r) && s' == DoTakeCommitTs(s, r)
    ensures Quiet(s, s', r)
  {
  }

  lemma TakeCommitTsLedger(s: State, s': State, r: nat)
    requires Txns(s) && Ledger(s) && Validated(s) && CanTakeCommitTs(s, r) && s' == DoTakeCommitTs(s, r)
    requires OnlyTxn(s, s', r)
    ensures Ledger(s') && Checked(s, s', r)
  {
    QuietLedger(s, s', r);
  }

  /** Two reads that remember the same stamp saw the same value. */
  lemma StampDeterminesValue(vs: seq<Version>, t: nat, u: nat)
    requires Descending(vs) && StampOf(VisibleAt(vs, t)) == StampOf(VisibleAt(vs, u))
    ensures ValueOf(VisibleAt(vs, t)) == ValueOf(VisibleAt(vs, u))
  {
    VisibleIsMember(vs, t);
    VisibleIsMember(vs, u);
    if StampOf(VisibleAt(vs, t)).Some? {
      StampNamesVersion(vs, VisibleAt(vs, t).value, VisibleAt(vs, u).value);
    }
  }

  /** Nobody has written at the commit timestamp of a transaction that has not passed validation. */
  lemma UndecidedTsUnused(s: State, r: nat, k: Key)
    requires Clock(s) && Txns(s) && Ledger(s) && Contents(s)
    requires r in s.txns && s.txns[r].commitTs.Some? && !Decided(s.txns[r])
    ensures !HasTs(At(s, k), s.txns[r].commitTs.value)
  {
    var c := s.txns[r].commitTs.value;
    assert TxnShape(s, r, s.txns[r]);
    assert c in s.commits ==> Backed(s, c);
    forall i | 0 <= i < |At(s, k)| ensures At(s, k)[i].ts != c {
      var v := At(s, k)[i];
      assert v in At(s, k);
      assert v.ts == c ==> Written(s, k, v);
    }
  }

  lemma AgreesMeans(s: State, r: nat, k: Key)
    requires r in s.txns && k in s.txns[r].readSet && s.txns[r].commitTs.Some?
    requires !Blocked(At(s, k), false, Some(r))
    ensures Agrees(s, r, k) <==> StampOf(VisibleAt(At(s, k), s.txns[r].commitTs.value)) == s.txns[r].readSet[k]
  {
    hide At, VisibleAt, Blocked;
  }

  /** A successful validation read returns what the first read returned, and nothing can change it below the commit. */
  lemma AgreementIsValid(s: State, r: nat, k: Key)
    requires Inv(s) && CanValidate(s, r, k) && Agrees(s, r, k)
    ensures k in s.txns[r].seen && Valid(s, k, s.txns[r].commitTs.value, s.txns[r].seen[k])
  {
    hide Intents, Owners, Locks, Ledger, Contents, Validated, Snapshots;
    var t, vs := s.txns[r], At(s, k);
    var c := t.commitTs.value;
    assert TxnShape(s, r, t);
    assert ReadHolds(s, r, k);
    assert KeyShape(s, k);
    UndecidedTsUnused(s, r, k);
    VisibleStep(vs, c);
    assert t.readSet[k] == StampOf(VisibleAt(vs, c));
    StampDeterminesValue(vs, r, c - 1);
    if HeadLocked(vs) {
      assert GetTs(vs[0].ts) == r;
    }
  }

  lemma ValidateOkKeeps(s: State, r: nat, k: Key)
    requires Inv(s) && CanValidate(s, r, k) && Agrees(s, r, k)
    ensures Inv(DoValidate(s, r, k)) && Evolves(s, DoValidate(s, r, k))
  {
    hide Keys, Intents, Owners, Locks, Ledger, Contents, Reads, Validated, Snapshots;
    var s' := DoValidate(s, r, k);
    ValidateOkFrame(s, s', r, k);
    AgreementIsValid(s, r, k);
    ValidateOkLedger(s, s', r, k);
    QuietStep(s, s', r);
  }

  lemma ValidateOkFrame(s: State, s': State, r: nat, k: Key)
    requires Clock(s) && CanValidate(s, r, k) && Agrees(s, r, k) && s' == DoValidate(s, r, k)
    requires TxnShape(s, r, s.txns[r])
    ensures Quiet(s, s', r) && Proper(s, s', r) && Clock(s') && TxnShape(s', r, s'.txns[r])
  {
    ValidateOkQuiet(s, s', r, k);
    hide Explained, Buffer, Quiet, Agrees, Blocked, At;
  }

  lemma ValidateOkQuiet(s: State, s': State, r: nat, k: Key)
    requires CanValidate(s, r, k) && Agrees(s, r, k) && s' == DoValidate(s, r, k)
    ensures Quiet(s, s', r)
  {
    hide Agrees, Blocked;
  }

  lemma ValidateOkLedger(s: State, s': State, r: nat, k: Key)
    requires Txns(s) && Ledger(s) && Validated(s)
    requires CanValidate(s, r, k) && Agrees(s, r, k) && s' == DoValidate(s, r, k)
    requires OnlyTxn(s, s', r)
    requires k in s.txns[r].seen && Valid(s, k, s.txns[r].commitTs.value, s.txns[r].seen[k])
    ensures Ledger(s') && Checked(s, s', r)
  {
    QuietLedger(s, s', r);
  }

  lemma DecideKeeps(s: State, r: nat)
    requires Inv(s) && CanDecide(s, r)
    ensures Inv(DoDecide(s, r)) && Evolves(s, DoDecide(s, r))
  {
    hide Keys, Intents, Owners, Locks, Ledger, Contents, Reads, Validated, Snapshots;
    var s' := DoDecide(s, r);
    DecideFrame(s, s', r);
    DecideLedger(s, s', r);
    DecideChecked(s, s', r);
    QuietStep(s, s', r);
  }

  lemma DecideFrame(s: State, s': State, r: nat)
    requires Clock(s) && Ledger(s) && CanDecide(s, r) && s' == DoDecide(s, r)
    requires TxnShape(s, r, s.txns[r])
    ensures Quiet(s, s', r) && Proper(s, s', r) && Clock(s') && TxnShape(s', r, s'.txns[r])
    ensures s.txns[r].commitTs.value !in s.commits
  {
    DecideQuiet(s, s', r);
    hide Explained, Buffer, Quiet;
    var c := s.txns[r].commitTs.value;
    assert c in s.commits ==> Backed(s, c);
  }

  lemma DecideQuiet(s: State, s': State, r: nat)
    requires CanDecide(s, r) && s' == DoDecide(s, r)
    ensures Quiet(s, s', r)
  {
  }

  lemma DecideLedger(s: State, s': State, r: nat)
    requires Txns(s) && Ledger(s) && CanDecide(s, r) && s' == DoDecide(s, r)
    requires OnlyTxn(s, s', r) && s.txns[r].commitTs.value !in s.commits
    ensures Ledger(s')
  {
    assert TxnShape(s, r, s.txns[r]);
    forall q | q in s'.txns ensures Recorded(s', q) {
      if q != r {
        assert Recorded(s, q);
        assert TxnShape(s, q, s.txns[q]);
      }
    }
    forall c | c in s'.commits ensures Backed(s', c) {
      if c in s.commits { assert Backed(s, c); }
    }
  }

  lemma DecideChecked(s: State, s': State, r: nat)
    requires Txns(s) && Validated(s) && CanDecide(s, r) && s' == DoDecide(s, r)
    ensures Checked(s, s', r)
  {
    assert TxnShape(s, r, s.txns[r]);
  }
}
