/** The steps of the commit protocol that write pages keep its invariant. */
module OccPages {
  import opened Common
  import opened TxnTs
  import opened Versions
  import opened Occ
  import opened OccInv
  import opened OccSteps

  // ----- One key changes, one part of the invariant at a time -----

  lemma TouchTxns(s: State, s': State, r: nat, k: Key)
    requires Touches(s, s', r, k) && Txns(s) && TxnShape(s', r, s'.txns[r])
    ensures Txns(s')
  {
    QuietTxns(s, s', r);
  }

  lemma TouchKeys(s: State, s': State, r: nat, k: Key)
    requires Touches(s, s', r, k) && Keys(s) && KeyShape(s', k)
    ensures Keys(s')
  {
    forall j: Key ensures KeyShape(s', j) { assert KeyShape(s, j); }
  }

  lemma TouchOwners(s: State, s': State, r: nat, k: Key)
    requires Touches(s, s', r, k) && Owners(s) && Owned(s', k)
    ensures Owners(s')
  {
    forall j: Key ensures Owned(s', j) { assert Owned(s, j); }
  }

  /** No other transaction has an intent to resolve on the key. */
  ghost predicate Alone(s: State, r: nat, k: Key) {
    forall q :: q in s.txns && q != r ==> k !in Holds(s.txns[q])
  }

  lemma TouchIntents(s: State, s': State, r: nat, k: Key)
    requires Touches(s, s', r, k) && Intents(s) && Alone(s, r, k)
    requires k in s'.txns[r].writes && k in Holds(s'.txns[r]) ==> Held(s', r, k)
    ensures Intents(s')
  {
    forall q, j | q in s'.txns && j in s'.txns[q].writes && j in Holds(s'.txns[q])
      ensures Held(s', q, j)
    {
      if j != k { assert Held(s, q, j); }
    }
  }

  lemma TouchLocks(s: State, s': State, r: nat, k: Key)
    requires Touches(s, s', r, k) && Locks(s)
    requires !s.txns[r].phase.Releasing?
    ensures Locks(s')
  {
    QuietLocks(s, s', r);
  }

  lemma TouchLedger(s: State, s': State, r: nat, k: Key)
    requires Touches(s, s', r, k) && Ledger(s) && Txns(s) && Decided(s'.txns[r]) == Decided(s.txns[r])
    ensures Ledger(s')
  {
    QuietLedger(s, s', r);
  }

  lemma TouchContents(s: State, s': State, r: nat, k: Key)
    requires Touches(s, s', r, k) && Contents(s) && Decided(s'.txns[r]) == Decided(s.txns[r])
    requires forall v :: v in At(s', k) && !IsLocked(v.ts) && v.ts != ABORTED_TXN_TS ==> Written(s, k, v)
    requires forall c :: 0 < c <= MAX_TXN_TS && HasTs(At(s, k), c) ==> HasTs(At(s', k), c)
    requires Txns(s) && Clock(s)
    requires Decided(s.txns[r]) && s.txns[r].commitTs.Some? && k in s.txns[r].writes ==>
               k in Holds(s'.txns[r]) || HasTs(At(s', k), s.txns[r].commitTs.value)
    ensures Contents(s')
  {
    forall j: Key, v | v in At(s', j) && !IsLocked(v.ts) && v.ts != ABORTED_TXN_TS
      ensures Written(s', j, v)
    {
      if j != k { assert v in At(s, j); }
      assert Written(s, j, v);
    }
    forall q, j | q in s'.txns && Decided(s'.txns[q]) && s'.txns[q].commitTs.Some? && j in s'.txns[q].writes
      ensures j in Holds(s'.txns[q]) || HasTs(At(s', j), s'.txns[q].commitTs.value)
    {
      assert TxnShape(s, q, s.txns[q]);
      assert q != r || j != k ==> j in Holds(s.txns[q]) || HasTs(At(s, j), s.txns[q].commitTs.value);
    }
  }

  lemma TouchSnapshots(s: State, s': State, r: nat, k: Key)
    requires Touches(s, s', r, k) && Snapshots(s)
    requires !s.txns[r].phase.Releasing?
    ensures Snapshots(s')
  {
    forall q | q in s'.txns && s'.txns[q].commitTs.Some? && s'.txns[q].commitTs.value in s'.published
      ensures s'.txns[q].phase == Releasing(true)
    {
      assert q in s.txns;
    }
  }

  lemma TouchReads(s: State, s': State, r: nat, k: Key)
    requires Touches(s, s', r, k) && Clock(s) && Txns(s) && Keys(s) && Owners(s)
    requires Reads(s) && Validated(s) && KeyEvolves(s, s', k)
    requires s'.txns[r].phase.Validating? ==> s'.txns[r].phase == s.txns[r].phase
    ensures Reads(s') && Validated(s') && Evolves(s, s')
  {
    forall j: Key ensures KeyEvolves(s, s', j) { assert j != k ==> At(s', j) == At(s, j); }
    EvolveReads(s, s', r);
    EvolveValidated(s, s', r);
  }

  /** What a page write by `r` on `k` must respect. */
  ghost predicate Fair(s: State, s': State, r: nat, k: Key)
    requires r in s.txns && r in s'.txns
  {
    && Alone(s, r, k) && KeyEvolves(s, s', k)
    && KeyShape(s', k) && Owned(s', k)
    && (k in s'.txns[r].writes && k in Holds(s'.txns[r]) ==> Held(s', r, k))
    && !s.txns[r].phase.Releasing? && Decided(s'.txns[r]) == Decided(s.txns[r])
    && !s'.txns[r].phase.Validating?
    && (forall v :: v in At(s', k) && !IsLocked(v.ts) && v.ts != ABORTED_TXN_TS ==> Written(s, k, v))
    && (forall c :: 0 < c <= MAX_TXN_TS && HasTs(At(s, k), c) ==> HasTs(At(s', k), c))
    && (Decided(s.txns[r]) && s.txns[r].commitTs.Some? && k in s.txns[r].writes ==>
          k in Holds(s'.txns[r]) || HasTs(At(s', k), s.txns[r].commitTs.value))
  }

  lemma TouchStep(s: State, s': State, r: nat, k: Key)
    requires Inv(s) && Touches(s, s', r, k) && TxnShape(s', r, s'.txns[r]) && Fair(s, s', r, k)
    ensures Inv(s') && Evolves(s, s')
  {
    hide Txns, Keys, Intents, Owners, Locks, Ledger, Contents, Reads, Validated, Snapshots;
    TouchTxns(s, s', r, k);
    TouchKeys(s, s', r, k);
    TouchOwners(s, s', r, k);
    TouchIntents(s, s', r, k);
    TouchLocks(s, s', r, k);
    TouchLedger(s, s', r, k);
    TouchContents(s, s', r, k);
    TouchSnapshots(s, s', r, k);
    TouchReads(s, s', r, k);
  }

  // ----- Installing an intent -----

  /** Nobody has an unresolved intent on a key that `r` is about to install one on. */
  lemma InstallFindsUnlocked(s: State, r: nat, k: Key)
    requires Txns(s) && Owners(s) && Locks(s) && CanInstall(s, r, k) && !Conflicts(s, r, k)
    ensures !HeadLocked(At(s, k))
  {
    assert s.mode != Inlined ==> s.locks[k] == r;
    if HeadLocked(At(s, k)) {
      LockedKeyHasWriter(s, k);
      assert false;
    }
  }

  lemma LockedKeyHasWriter(s: State, k: Key)
    requires Txns(s) && Owners(s) && HeadLocked(At(s, k))
    ensures var q := GetTs(At(s, k)[0].ts);
            q in s.txns && k in Holds(s.txns[q]) && k in s.txns[q].writes && !s.txns[q].phase.Releasing?
  {
    var q := GetTs(At(s, k)[0].ts);
    assert Owned(s, k);
    assert TxnShape(s, q, s.txns[q]);
  }

  lemma UnlockedAlone(s: State, r: nat, k: Key)
    requires Clock(s) && Txns(s) && Intents(s) && !HeadLocked(At(s, k))
    ensures Alone(s, r, k)
  {
    forall q | q in s.txns ensures k !in Holds(s.txns[q]) {
      assert TxnShape(s, q, s.txns[q]);
      assert k in Holds(s.txns[q]) ==> Held(s, q, k);
    }
  }

  lemma InstallKeeps(s: State, r: nat, k: Key)
    requires Inv(s) && CanInstall(s, r, k) && !Conflicts(s, r, k)
    ensures Inv(DoInstall(s, r, k)) && Evolves(s, DoInstall(s, r, k))
  {
    hide Intents, Owners, Locks, Contents, Reads, Validated, Snapshots;
    var s' := DoInstall(s, r, k);
    InstallFindsUnlocked(s, r, k);
    UnlockedAlone(s, r, k);
    InstallTouches(s, s', r, k);
    InstallFair(s, s', r, k);
    TouchStep(s, s', r, k);
  }

  lemma InstallTouches(s: State, s': State, r: nat, k: Key)
    requires CanInstall(s, r, k) && !Conflicts(s, r, k) && s' == DoInstall(s, r, k)
    requires TxnShape(s, r, s.txns[r])
    ensures Touches(s, s', r, k) && TxnShape(s', r, s'.txns[r])
  {
  }

  lemma InstallFair(s: State, s': State, r: nat, k: Key)
    requires Clock(s) && CanInstall(s, r, k) && !Conflicts(s, r, k) && s' == DoInstall(s, r, k)
    requires TxnShape(s, r, s.txns[r]) && KeyShape(s, k) && Contents(s)
    requires !HeadLocked(At(s, k)) && Alone(s, r, k)
    ensures Fair(s, s', r, k)
  {
    var vs, vs' := At(s, k), At(s', k);
    var v := vs'[0];
    assert vs' == [v] + vs && vs'[1..] == vs;
    forall w | w in vs ensures !IsLocked(w.ts) {
      var i :| 0 <= i < |vs| && vs[i] == w;
    }
    ConsDescending(v, vs);
    forall c | HasTs(vs, c) ensures HasTs(vs', c) { HasTsCons(vs', c); }
  }

  // ----- Resolving an intent -----

  lemma HolderAlone(s: State, r: nat, k: Key)
    requires Clock(s) && Txns(s) && Intents(s) && r in s.txns && k in Holds(s.txns[r])
    ensures k in s.txns[r].writes && Held(s, r, k) && HeadLocked(At(s, k)) && GetTs(At(s, k)[0].ts) == r
    ensures Alone(s, r, k)
  {
    assert TxnShape(s, r, s.txns[r]);
    assert Held(s, r, k);
    forall q | q in s.txns && q != r ensures k !in Holds(s.txns[q]) {
      assert TxnShape(s, q, s.txns[q]);
      assert k in Holds(s.txns[q]) ==> Held(s, q, k);
    }
  }

  lemma StampedDescending(vs: seq<Version>, ts: nat)
    requires Descending(vs) && HeadLocked(vs) && ts <= MAX_TXN_TS
    requires ts == ABORTED_TXN_TS || forall i :: 1 <= i < |vs| ==> vs[i].ts < ts
    ensures Descending(Stamped(vs, ts))
    ensures forall c :: 0 < c <= MAX_TXN_TS && HasTs(vs, c) ==> HasTs(Stamped(vs, ts), c)
    ensures HasTs(Stamped(vs, ts), ts)
  {
    UnconsDescending(vs);
    var v, rest := vs[0].(ts := ts), vs[1..];
    assert Stamped(vs, ts) == [v] + rest && ([v] + rest)[1..] == rest;
    ConsDescending(v, rest);
    HasTsCons([v] + rest, ts);
    forall c | 0 < c <= MAX_TXN_TS && HasTs(vs, c) ensures HasTs(Stamped(vs, ts), c) {
      HasTsCons(vs, c);
      HasTsCons([v] + rest, c);
    }
  }

  lemma StampKeeps(s: State, r: nat, k: Key)
    requires Inv(s) && CanStamp(s, r, k)
    ensures Inv(DoStamp(s, r, k)) && Evolves(s, DoStamp(s, r, k))
  {
    hide Intents, Owners, Locks, Contents, Reads, Validated, Snapshots;
    var s' := DoStamp(s, r, k);
    HolderAlone(s, r, k);
    StampTouches(s, s', r, k);
    StampFair(s, s', r, k);
    TouchStep(s, s', r, k);
  }

  lemma StampTouches(s: State, s': State, r: nat, k: Key)
    requires CanStamp(s, r, k) && s' == DoStamp(s, r, k) && TxnShape(s, r, s.txns[r])
    ensures Touches(s, s', r, k) && TxnShape(s', r, s'.txns[r])
  {
  }

  lemma StampFair(s: State, s': State, r: nat, k: Key)
    requires Clock(s) && CanStamp(s, r, k) && s' == DoStamp(s, r, k)
    requires TxnShape(s, r, s.txns[r]) && KeyShape(s, k) && Recorded(s, r) && Contents(s)
    requires Held(s, r, k) && HeadLocked(At(s, k)) && GetTs(At(s, k)[0].ts) == r && Alone(s, r, k)
    ensures Fair(s, s', r, k)
  {
    var vs, c := At(s, k), s.txns[r].commitTs.value;
    StampedDescending(vs, c);
    forall v | v in At(s', k) && !IsLocked(v.ts) && v.ts != ABORTED_TXN_TS ensures Written(s, k, v) {
      if v != At(s', k)[0] { assert v in vs; }
    }
    StampedShape(s, s', k, c);
  }

  lemma StampedShape(s: State, s': State, k: Key, ts: nat)
    requires KeyShape(s, k) && HeadLocked(At(s, k)) && At(s', k) == Stamped(At(s, k), ts)
    requires s'.tso == s.tso && ts < s.tso <= MAX_TXN_TS + 1 && Descending(At(s', k))
    ensures KeyShape(s', k) && Owned(s', k)
  {
    forall v | v in At(s', k) && !IsLocked(v.ts) ensures v.ts < s'.tso {
      if v != At(s', k)[0] { assert v in At(s, k); }
    }
  }

  lemma AbortKeeps(s: State, r: nat, k: Key)
    requires Inv(s) && CanAbort(s, r, k)
    ensures Inv(DoAbort(s, r, k)) && Evolves(s, DoAbort(s, r, k))
  {
    hide Intents, Owners, Locks, Contents, Reads, Validated, Snapshots;
    var s' := DoAbort(s, r, k);
    HolderAlone(s, r, k);
    AbortTouches(s, s', r, k);
    AbortFair(s, s', r, k);
    TouchStep(s, s', r, k);
  }

  lemma AbortTouches(s: State, s': State, r: nat, k: Key)
    requires CanAbort(s, r, k) && s' == DoAbort(s, r, k) && TxnShape(s, r, s.txns[r])
    ensures Touches(s, s', r, k) && TxnShape(s', r, s'.txns[r])
  {
  }

  lemma AbortFair(s: State, s': State, r: nat, k: Key)
    requires Clock(s) && CanAbort(s, r, k) && s' == DoAbort(s, r, k)
    requires TxnShape(s, r, s.txns[r]) && KeyShape(s, k) && Contents(s)
    requires HeadLocked(At(s, k)) && GetTs(At(s, k)[0].ts) == r && Alone(s, r, k)
    ensures Fair(s, s', r, k)
  {
    StampedDescending(At(s, k), ABORTED_TXN_TS);
    forall v | v in At(s', k) && !IsLocked(v.ts) && v.ts != ABORTED_TXN_TS ensures Written(s, k, v) {
      assert v in At(s, k);
    }
    StampedShape(s, s', k, ABORTED_TXN_TS);
  }

  // ----- Steps of no transaction -----

  lemma AdvanceTailKeeps(s: State, to: nat)
    requires Inv(s) && CanAdvanceTail(s, to)
    ensures Inv(DoAdvanceTail(s, to)) && Evolves(s, DoAdvanceTail(s, to))
  {
    hide Ledger, Contents, Reads, Validated, Txns;
    var s' := DoAdvanceTail(s, to);
    SameTxnsFrame(s, s');
    forall k: Key ensures KeyShape(s', k) && Owned(s', k) && KeyEvolves(s, s', k) {
      assert KeyShape(s, k) && Owned(s, k) && At(s', k) == At(s, k);
    }
    forall r, k | r in s'.txns && k in s'.txns[r].writes && k in Holds(s'.txns[r]) ensures Held(s', r, k) {
      assert Held(s, r, k);
    }
    SameTxnsReads(s, s');
    AdvanceTailContents(s, s');
    assert to <= s.tso by {
      if s.tail < to { assert to - 1 in s.published; }
    }
  }

  lemma AdvanceTailContents(s: State, s': State)
    requires Contents(s) && s' == s.(tail := s'.tail)
    ensures Contents(s')
  {
    forall k: Key, v | v in At(s', k) && !IsLocked(v.ts) && v.ts != ABORTED_TXN_TS ensures Written(s', k, v) {
      assert v in At(s, k) && Written(s, k, v);
    }
    forall r, k | r in s'.txns && Decided(s'.txns[r]) && s'.txns[r].commitTs.Some? && k in s'.txns[r].writes
      ensures k in Holds(s'.txns[r]) || HasTs(At(s', k), s'.txns[r].commitTs.value)
    {
      assert At(s', k) == At(s, k);
    }
  }

  lemma SameTxnsFrame(s: State, s': State)
    requires Txns(s) && Ledger(s)
    requires s'.txns == s.txns && s'.issued == s.issued && s'.commits == s.commits
    ensures Txns(s') && Ledger(s')
  {
    forall r | r in s'.txns ensures TxnShape(s', r, s'.txns[r]) && Recorded(s', r) {
      assert TxnShape(s, r, s.txns[r]) && Recorded(s, r);
    }
    forall c | c in s'.commits ensures Backed(s', c) { assert Backed(s, c); }
  }

  lemma SameTxnsReads(s: State, s': State)
    requires Clock(s) && Txns(s) && Keys(s) && Owners(s) && Reads(s) && Validated(s)
    requires s'.txns == s.txns && s'.commits == s.commits && s'.tso == s.tso
    requires forall k: Key :: KeyEvolves(s, s', k)
    ensures Reads(s') && Validated(s') && Evolves(s, s')
  {
    forall r, k | r in s'.txns && k in s'.txns[r].readSet && k in s'.txns[r].seen ensures ReadHolds(s', r, k) {
      assert ReadHolds(s, r, k) && KeyShape(s, k) && Owned(s, k);
      SettledStays(s, s', k, r);
    }
    forall r, k | r in s'.txns && s'.txns[r].phase.Validating? && k in s'.txns[r].phase.validated
                  && s'.txns[r].commitTs.Some? && k in s'.txns[r].seen
      ensures Valid(s', k, s'.txns[r].commitTs.value, s'.txns[r].seen[k])
    {
      ValidStays(s, s', k, s'.txns[r].commitTs.value, s'.txns[r].seen[k]);
    }
    forall c, k | c in s'.commits && k in s'.commits[c].seen ensures Valid(s', k, c, s'.commits[c].seen[k]) {
      ValidStays(s, s', k, c, s'.commits[c].seen[k]);
    }
  }

  lemma UnlockKeeps(s: State, r: nat, k: Key)
    requires Inv(s) && CanUnlock(s, r, k)
    ensures Inv(DoUnlock(s, r, k)) && Evolves(s, DoUnlock(s, r, k))
  {
    hide Keys, Intents, Owners, Ledger, Contents, Reads, Validated, Txns;
    var s' := DoUnlock(s, r, k);
    assert Quiet(s, s', r);
    SameTxnsFrame(s, s');
    QuietKeys(s, s', r);
    QuietOwners(s, s', r);
    QuietIntents(s, s', r);
    QuietLocks(s, s', r);
    QuietContents(s, s', r);
    QuietPhaseReads(s, s', r);
  }

  lemma CompactKeeps(s: State, pages: map<Key, seq<Version>>)
    requires Inv(s) && CanCompact(s, pages)
    ensures Inv(DoCompact(s, pages)) && Evolves(s, DoCompact(s, pages))
  {
    hide Keys, Intents, Owners, Ledger, Contents, Reads, Validated, Txns;
    var s' := DoCompact(s, pages);
    SameTxnsFrame(s, s');
    CompactKeys(s, s');
    SameTxnsReads(s, s');
    CompactContents(s, s');
  }

  lemma CompactKeys(s: State, s': State)
    requires Keys(s) && Owners(s) && Intents(s)
    requires s' == s.(pages := s'.pages) && forall k: Key :: Pruned(At(s, k), At(s', k))
    ensures Keys(s') && Owners(s') && Intents(s')
    ensures forall k: Key :: KeyEvolves(s, s', k)
  {
    forall k: Key ensures KeyShape(s', k) && Owned(s', k) && KeyEvolves(s, s', k) {
      assert KeyShape(s, k) && Owned(s, k);
      PrunedDescending(At(s, k), At(s', k));
      PrunedSameLive(At(s, k), At(s', k));
      PrunedHead(At(s, k), At(s', k));
    }
    forall r, k | r in s'.txns && k in s'.txns[r].writes && k in Holds(s'.txns[r]) ensures Held(s', r, k) {
      assert Held(s, r, k) && KeyShape(s, k);
      CompactHeld(s, s', r, k);
    }
  }

  lemma CompactHeld(s: State, s': State, r: nat, k: Key)
    requires s'.txns == s.txns && r in s.txns && k in s.txns[r].writes && Held(s, r, k)
    requires KeyShape(s, k) && Pruned(At(s, k), At(s', k))
    ensures Held(s', r, k)
  {
    PrunedHead(At(s, k), At(s', k));
    PrunedSameLive(At(s, k)[1..], At(s', k)[1..]);
    forall i | 1 <= i < |At(s', k)| && s.txns[r].commitTs.Some?
      ensures At(s', k)[i].ts < s.txns[r].commitTs.value
    {
      assert At(s', k)[1..][i - 1] in At(s, k)[1..];
    }
  }

  lemma CompactContents(s: State, s': State)
    requires Clock(s) && Txns(s) && Contents(s)
    requires s' == s.(pages := s'.pages) && forall k: Key :: Pruned(At(s, k), At(s', k))
    ensures Contents(s')
  {
    forall k: Key, v | v in At(s', k) && !IsLocked(v.ts) && v.ts != ABORTED_TXN_TS ensures Written(s', k, v) {
      PrunedSameLive(At(s, k), At(s', k));
      assert Written(s, k, v);
    }
    forall r, k | r in s'.txns && Decided(s'.txns[r]) && s'.txns[r].commitTs.Some? && k in s'.txns[r].writes
      ensures k in Holds(s'.txns[r]) || HasTs(At(s', k), s'.txns[r].commitTs.value)
    {
      assert TxnShape(s, r, s.txns[r]);
      PrunedHasTs(At(s, k), At(s', k), s.txns[r].commitTs.value);
    }
  }

  lemma PrunedHasTs(vs: seq<Version>, pruned: seq<Version>, c: nat)
    requires Pruned(vs, pruned) && c != ABORTED_TXN_TS
    ensures HasTs(vs, c) ==> HasTs(pruned, c)
  {
    PrunedSameLive(vs, pruned);
    if HasTs(vs, c) {
      var i :| 0 <= i < |vs| && vs[i].ts == c;
      assert vs[i] in pruned;
    }
  }

  // ----- Every step, every run -----

  lemma InitHolds(mode: LockManager)
    ensures Inv(Init(mode))
  {
  }

  lemma StepKeeps(s: State, step: Step)
    requires Inv(s) && Enabled(s, step)
    ensures Inv(Apply(s, step)) && Evolves(s, Apply(s, step))
  {
    hide Inv, Evolves;
    match step
    case Begin => BeginKeeps(s);
    case PublishRead(r) => PublishReadKeeps(s, r);
    case Write(r, k, v) => WriteKeeps(s, r, k, v);
    case Read(r, k) => if k in s.txns[r].writes { ReadOwnKeeps(s, r, k); } else { ReadTableKeeps(s, r, k); }
    case StartCommit(r) => StartCommitKeeps(s, r);
    case Install(r, k) => if Conflicts(s, r, k) { ConflictKeeps(s, r, k); } else { InstallKeeps(s, r, k); }
    case TakeCommitTs(r) => TakeCommitTsKeeps(s, r);
    case Validate(r, k) => if Agrees(s, r, k) { ValidateOkKeeps(s, r, k); } else { ValidateFailKeeps(s, r, k); }
    case Decide(r) => DecideKeeps(s, r);
    case Stamp(r, k) => StampKeeps(s, r, k);
    case PublishCommit(r) => PublishCommitKeeps(s, r);
    case Abort(r, k) => AbortKeeps(s, r, k);
    case FinishAbort(r) => FinishAbortKeeps(s, r);
    case Unlock(r, k) => UnlockKeeps(s, r, k);
    case AdvanceTail(to) => AdvanceTailKeeps(s, to);
    case Compact(pages) => CompactKeeps(s, pages);
  }

  lemma {:induction false} RunHolds(mode: LockManager, states: seq<State>, steps: seq<Step>, n: nat)
    requires IsRun(mode, states, steps) && n < |states|
    ensures Inv(states[n])
  {
    if n == 0 {
      InitHolds(mode);
    } else {
      RunHolds(mode, states, steps, n - 1);
      StepKeeps(states[n - 1], steps[n - 1]);
    }
  }
}
