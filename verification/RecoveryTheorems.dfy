/** In every run, at every crash point, redo recovery rebuilds what was there. */
module RecoveryTheorems {
  import opened Common
  import opened TxnTs
  import opened Versions
  import opened Occ
  import opened OccInv
  import opened OccPages
  import opened Recovery

  // ----- The books: what the log and the transaction map say of each transaction -----

  predicate Began(t: Txn) {
    !t.phase.Starting? && !t.phase.Running?
  }

  /** Some intent may have been logged. */
  predicate Writing(t: Txn) {
    match t.phase
    case Starting => false
    case Running => false
    case Installing(installed) => installed != {}
    case _ => t.writes != map[]
  }

  ghost predicate Wrote(log: seq<Record>, r: nat) {
    exists i :: 0 <= i < |log| && log[i].LogWrite? && log[i].txn == r
  }

  /**
   A transaction is open from its begin record until its last intent is resolved, for ever
   if it has none, and its counter is the number of intents it still holds.
  */
  ghost predicate Book(open: map<nat, nat>, log: seq<Record>, txns: map<nat, Txn>, r: nat) {
    && (r in open <==> r in txns && Began(txns[r]) && (Holds(txns[r]) != {} || !Wrote(log, r)))
    && (r in open && r in txns ==> open[r] == |Holds(txns[r])|)
    && (Wrote(log, r) ==> r in txns && Writing(txns[r]))
    && (r in txns && Holds(txns[r]) != {} ==> Wrote(log, r))
    && (LogBegin(r) in log <==> r in txns && Began(txns[r]))
  }

  ghost predicate Books(open: map<nat, nat>, log: seq<Record>, txns: map<nat, Txn>) {
    forall r: nat :: Book(open, log, txns, r)
  }

  lemma WroteMore(log: seq<Record>, x: Record, r: nat)
    ensures Wrote(log + [x], r) <==> Wrote(log, r) || (x.LogWrite? && x.txn == r)
  {
    if Wrote(log, r) {
      var i :| 0 <= i < |log| && log[i].LogWrite? && log[i].txn == r;
      assert (log + [x])[i] == log[i];
    }
    if x.LogWrite? && x.txn == r {
      assert (log + [x])[|log|] == x;
    }
  }

  /** Two maps agree everywhere but at `r`. */
  ghost predicate OnlyAt<T(!new)>(m: map<nat, T>, m': map<nat, T>, r: nat) {
    forall q: nat :: q != r ==> (q in m <==> q in m') && (q in m && q in m' ==> m'[q] == m[q])
  }

  lemma BooksStep(open: map<nat, nat>, log: seq<Record>, txns: map<nat, Txn>, x: Record,
                  open': map<nat, nat>, txns': map<nat, Txn>)
    requires Books(open, log, txns)
    requires OnlyAt(open, open', x.txn) && OnlyAt(txns, txns', x.txn)
    requires Book(open', log + [x], txns', x.txn)
    ensures Books(open', log + [x], txns')
  {
    forall r: nat ensures Book(open', log + [x], txns', r) {
      if r != x.txn {
        assert Book(open, log, txns, r);
        WroteMore(log, x, r);
      }
    }
  }

  /** A step without a record keeps what the books speak of. */
  ghost predicate Steady(txns: map<nat, Txn>, txns': map<nat, Txn>) {
    && (forall r :: r in txns ==>
          && r in txns' && Began(txns'[r]) == Began(txns[r]) && Holds(txns'[r]) == Holds(txns[r])
          && (Writing(txns[r]) ==> Writing(txns'[r])))
    && (forall r :: r in txns' && r !in txns ==> !Began(txns'[r]))
  }

  lemma SteadyBooks(open: map<nat, nat>, log: seq<Record>, txns: map<nat, Txn>, txns': map<nat, Txn>)
    requires Books(open, log, txns) && Steady(txns, txns')
    ensures Books(open, log, txns')
  {
    forall r: nat ensures Book(open, log, txns', r) {
      assert Book(open, log, txns, r);
    }
  }

  // ----- The pages -----

  /** The replayed list of a key holds the live one and perhaps more aborted versions. */
  ghost predicate Rebuilt(replayed: seq<Version>, live: seq<Version>) {
    Pruned(replayed, live) && LockedAtHead(replayed)
  }

  ghost predicate PagesRebuilt(pages: map<Key, seq<Version>>, s: State) {
    forall k: Key :: Rebuilt(InPages(pages, k), At(s, k))
  }

  lemma {:induction false} PrunedTransitive(a: seq<Version>, b: seq<Version>, c: seq<Version>)
    requires Pruned(a, b) && Pruned(b, c)
    ensures Pruned(a, c)
    decreases |a|
  {
    if a != [] {
      if b != [] && b[0] == a[0] && Pruned(a[1..], b[1..]) {
        if c != [] && c[0] == b[0] && Pruned(b[1..], c[1..]) {
          PrunedTransitive(a[1..], b[1..], c[1..]);
        } else {
          PrunedTransitive(a[1..], b[1..], c);
        }
      } else {
        PrunedTransitive(a[1..], b, c);
      }
    }
  }

  lemma RebuiltMore(replayed: seq<Version>, live: seq<Version>, live': seq<Version>)
    requires Rebuilt(replayed, live) && Pruned(live, live')
    ensures Rebuilt(replayed, live')
  {
    PrunedTransitive(replayed, live, live');
  }

  lemma RebuiltIntent(replayed: seq<Version>, live: seq<Version>, v: Version)
    requires Rebuilt(replayed, live) && !HeadLocked(live)
    ensures Rebuilt([v] + replayed, [v] + live)
  {
    PrunedHead(replayed, live);
    var a, b := [v] + replayed, [v] + live;
    assert a[1..] == replayed && b[1..] == live;
  }

  lemma RebuiltStamp(replayed: seq<Version>, live: seq<Version>, ts: nat)
    requires Rebuilt(replayed, live)
    ensures Rebuilt(Stamped(replayed, ts), Stamped(live, ts))
  {
    PrunedHead(replayed, live);
    if HeadLocked(live) {
      var a, b := Stamped(replayed, ts), Stamped(live, ts);
      assert a[1..] == replayed[1..] && b[1..] == live[1..];
    }
  }

  // ----- Every step keeps the log in step with the state -----

  ghost predicate Tracks(s: State) {
    var d := Replay(s.log);
    d.Some? && PagesRebuilt(d.value.pages, s) && Books(d.value.open, s.log, s.txns)
  }

  lemma SteadyTracks(s: State, s': State)
    requires Tracks(s) && s'.log == s.log && Steady(s.txns, s'.txns)
    requires forall k: Key :: Pruned(At(s, k), At(s', k))
    ensures Tracks(s')
  {
    var d := Replay(s.log).value;
    SteadyBooks(d.open, s.log, s.txns, s'.txns);
    forall k: Key ensures Rebuilt(InPages(d.pages, k), At(s', k)) {
      RebuiltMore(InPages(d.pages, k), At(s, k), At(s', k));
    }
  }

  lemma SamePagesTracks(s: State, s': State)
    requires Tracks(s) && s'.log == s.log && Steady(s.txns, s'.txns) && s'.pages == s.pages
    ensures Tracks(s')
  {
    forall k: Key ensures Pruned(At(s, k), At(s', k)) { PrunedRefl(At(s, k)); }
    SteadyTracks(s, s');
  }

  lemma ReplayMore(log: seq<Record>, x: Record)
    ensures Replay(log + [x]) == if Replay(log).None? then None else Redo(Replay(log).value, x)
  {
    assert (log + [x])[..|log|] == log;
  }

  /** A step of one transaction that appends the record `x`. */
  lemma RecordTracks(s: State, s': State, x: Record, d': Recovered)
    requires Tracks(s) && s'.log == s.log + [x] && Redo(Replay(s.log).value, x) == Some(d')
    requires PagesRebuilt(d'.pages, s')
    requires OnlyAt(Replay(s.log).value.open, d'.open, x.txn) && OnlyAt(s.txns, s'.txns, x.txn)
    requires Book(d'.open, s'.log, s'.txns, x.txn)
    ensures Tracks(s')
  {
    ReplayMore(s.log, x);
    BooksStep(Replay(s.log).value.open, s.log, s.txns, x, d'.open, s'.txns);
  }

  lemma StartCommitTracks(s: State, r: nat)
    requires Tracks(s) && CanStartCommit(s, r)
    ensures Tracks(DoStartCommit(s, r))
  {
    var s', d := DoStartCommit(s, r), Replay(s.log).value;
    assert Book(d.open, s.log, s.txns, r);
    WroteMore(s.log, LogBegin(r), r);
    forall k: Key ensures Rebuilt(InPages(d.pages, k), At(s', k)) { assert Rebuilt(InPages(d.pages, k), At(s, k)); }
    RecordTracks(s, s', LogBegin(r), d.(open := d.open[r := 0]));
  }

  /** Logging the outcome finds the transaction open, and changes no book. */
  lemma OutcomeTracks(s: State, s': State, r: nat, x: Record)
    requires Tracks(s) && r in s.txns && (s.txns[r].phase.Installing? || s.txns[r].phase.Validating?)
    requires (x.LogAbort? || x.LogCommit?) && x.txn == r
    requires s'.log == s.log + [x] && s'.pages == s.pages && r in s'.txns && OnlyAt(s.txns, s'.txns, r)
    requires Began(s'.txns[r]) && Holds(s'.txns[r]) == Holds(s.txns[r]) && (Writing(s.txns[r]) ==> Writing(s'.txns[r]))
    ensures Tracks(s')
  {
    var d := Replay(s.log).value;
    assert Book(d.open, s.log, s.txns, r);
    WroteMore(s.log, x, r);
    forall k: Key ensures Rebuilt(InPages(d.pages, k), At(s', k)) { assert Rebuilt(InPages(d.pages, k), At(s, k)); }
    RecordTracks(s, s', x, d);
  }

  lemma WriteTracks(s: State, s': State, r: nat, k: Key, v: Version)
    requires Tracks(s) && r in s.txns && r in s'.txns && k !in Holds(s.txns[r]) && !HeadLocked(At(s, k))
    requires s'.log == s.log + [LogWrite(r, k, v)] && s'.pages == s.pages[k := [v] + At(s, k)]
    requires OnlyAt(s.txns, s'.txns, r) && s.txns[r].phase.Installing?
    requires Began(s'.txns[r]) && Holds(s'.txns[r]) == Holds(s.txns[r]) + {k} && Writing(s'.txns[r])
    ensures Tracks(s')
  {
    var d, x := Replay(s.log).value, LogWrite(r, k, v);
    assert Book(d.open, s.log, s.txns, r);
    var d' := Redo(d, x).value;
    WroteMore(s.log, x, r);
    forall j: Key ensures Rebuilt(InPages(d'.pages, j), At(s', j)) {
      assert Rebuilt(InPages(d.pages, j), At(s, j));
      RebuiltIntent(InPages(d.pages, k), At(s, k), v);
    }
    RecordTracks(s, s', x, d');
  }

  lemma InstallTracks(s: State, r: nat, k: Key)
    requires Txns(s) && Owners(s) && Locks(s) && Tracks(s) && CanInstall(s, r, k) && !Conflicts(s, r, k)
    ensures Tracks(DoInstall(s, r, k))
  {
    InstallFindsUnlocked(s, r, k);
    hide Txns, Owners, Locks, Tracks, HeadLocked, At;
    WriteTracks(s, DoInstall(s, r, k), r, k, Intent(r, s.txns[r].writes[k]));
  }

  /** Resolving an intent, with a commit timestamp or the aborted mark. */
  lemma ResolveTracks(s: State, s': State, r: nat, k: Key, ts: nat)
    requires Tracks(s) && r in s.txns && r in s'.txns && k in Holds(s.txns[r]) && HeadLocked(At(s, k))
    requires s'.log == s.log + [LogSetTs(r, k, ts)] && s'.pages == s.pages[k := Stamped(At(s, k), ts)]
    requires OnlyAt(s.txns, s'.txns, r)
    requires Began(s'.txns[r]) && Holds(s'.txns[r]) == Holds(s.txns[r]) - {k} && Writing(s'.txns[r])
    ensures Tracks(s')
  {
    var d, x := Replay(s.log).value, LogSetTs(r, k, ts);
    var d' := Redo(d, x);
    assert Book(d.open, s.log, s.txns, r);
    WroteMore(s.log, x, r);
    assert Rebuilt(InPages(d.pages, k), At(s, k));
    PrunedHead(InPages(d.pages, k), At(s, k));
    assert d'.Some?;
    assert |Holds(s'.txns[r])| == |Holds(s.txns[r])| - 1;
    assert Holds(s'.txns[r]) == {} <==> |Holds(s.txns[r])| == 1;
    forall j: Key ensures Rebuilt(InPages(d'.value.pages, j), At(s', j)) {
      assert Rebuilt(InPages(d.pages, j), At(s, j));
      RebuiltStamp(InPages(d.pages, k), At(s, k), ts);
    }
    RecordTracks(s, s', x, d'.value);
  }

  lemma QuietTracks(s: State, step: Step)
    requires Tracks(s) && Enabled(s, step)
    requires step.Begin? || step.PublishRead? || step.Unlock? || step.AdvanceTail?
    requires step.Begin? ==> s.tso !in s.txns
    ensures Tracks(Apply(s, step))
  {
    hide Tracks;
    SamePagesTracks(s, Apply(s, step));
  }

  lemma WriteStepTracks(s: State, r: nat, k: Key, v: Option<Row>)
    requires Tracks(s) && CanWrite(s, r, k)
    ensures Tracks(DoWrite(s, r, k, v))
  {
    hide Tracks;
    SamePagesTracks(s, DoWrite(s, r, k, v));
  }

  lemma ReadStepTracks(s: State, r: nat, k: Key)
    requires Tracks(s) && CanRead(s, r, k)
    ensures Tracks(DoRead(s, r, k))
  {
    hide Tracks, At, VisibleAt, Blocked, StampOf, ValueOf;
    var s' := DoRead(s, r, k);
    assert s'.pages == s.pages && s'.log == s.log && s'.txns == s.txns[r := s'.txns[r]];
    assert s'.txns[r].phase == s.txns[r].phase;
    hide DoRead, CanRead;
    SamePagesTracks(s, s');
  }

  lemma TakeCommitTsTracks(s: State, r: nat)
    requires Tracks(s) && CanTakeCommitTs(s, r)
    ensures Tracks(DoTakeCommitTs(s, r))
  {
    hide Tracks;
    SamePagesTracks(s, DoTakeCommitTs(s, r));
  }

  lemma PublishCommitTracks(s: State, r: nat)
    requires Tracks(s) && CanPublishCommit(s, r)
    ensures Tracks(DoPublishCommit(s, r))
  {
    hide Tracks;
    SamePagesTracks(s, DoPublishCommit(s, r));
  }

  lemma FinishAbortTracks(s: State, r: nat)
    requires Tracks(s) && CanFinishAbort(s, r)
    ensures Tracks(DoFinishAbort(s, r))
  {
    hide Tracks;
    SamePagesTracks(s, DoFinishAbort(s, r));
  }

  lemma CompactTracks(s: State, pages: map<Key, seq<Version>>)
    requires Tracks(s) && CanCompact(s, pages)
    ensures Tracks(DoCompact(s, pages))
  {
    hide Tracks;
    SteadyTracks(s, DoCompact(s, pages));
  }

  lemma ConflictTracks(s: State, r: nat, k: Key)
    requires Tracks(s) && CanInstall(s, r, k) && Conflicts(s, r, k)
    requires s.txns[r].phase.installed <= s.txns[r].writes.Keys
    ensures Tracks(DoInstall(s, r, k))
  {
    hide Tracks;
    OutcomeTracks(s, DoInstall(s, r, k), r, LogAbort(r));
  }

  lemma ValidateOkTracks(s: State, r: nat, k: Key)
    requires Tracks(s) && CanValidate(s, r, k) && Agrees(s, r, k)
    ensures Tracks(DoValidate(s, r, k))
  {
    hide Tracks, At, Blocked, Agrees;
    SamePagesTracks(s, DoValidate(s, r, k));
  }

  lemma ValidateFailTracks(s: State, r: nat, k: Key)
    requires Tracks(s) && CanValidate(s, r, k) && !Agrees(s, r, k)
    ensures Tracks(DoValidate(s, r, k))
  {
    hide Tracks, At, Blocked, Agrees;
    OutcomeTracks(s, DoValidate(s, r, k), r, LogAbort(r));
  }

  lemma DecideTracks(s: State, r: nat)
    requires Tracks(s) && CanDecide(s, r)
    ensures Tracks(DoDecide(s, r))
  {
    hide Tracks;
    OutcomeTracks(s, DoDecide(s, r), r, LogCommit(r, s.txns[r].commitTs.value));
  }

  lemma StampTracks(s: State, r: nat, k: Key)
    requires Tracks(s) && CanStamp(s, r, k) && HeadLocked(At(s, k))
    ensures Tracks(DoStamp(s, r, k))
  {
    hide Tracks, At, HeadLocked;
    ResolveTracks(s, DoStamp(s, r, k), r, k, s.txns[r].commitTs.value);
  }

  lemma AbortTracks(s: State, r: nat, k: Key)
    requires Tracks(s) && CanAbort(s, r, k) && k in s.txns[r].writes && HeadLocked(At(s, k))
    ensures Tracks(DoAbort(s, r, k))
  {
    hide Tracks, At, HeadLocked;
    ResolveTracks(s, DoAbort(s, r, k), r, k, ABORTED_TXN_TS);
  }

  lemma StepTracks(s: State, step: Step)
    requires Inv(s) && Tracks(s) && Enabled(s, step)
    ensures Tracks(Apply(s, step))
  {
    hide Tracks, Txns, Keys, Intents, Owners, Locks, Ledger, Contents, Reads, Validated, Snapshots;
    match step
    case StartCommit(r) => StartCommitTracks(s, r);
    case Install(r, k) =>
      InTxn(s, r);
      if Conflicts(s, r, k) { ConflictTracks(s, r, k); } else { InstallTracks(s, r, k); }
    case Validate(r, k) =>
      if Agrees(s, r, k) { ValidateOkTracks(s, r, k); } else { ValidateFailTracks(s, r, k); }
    case Write(r, k, v) => WriteStepTracks(s, r, k, v);
    case Read(r, k) => ReadStepTracks(s, r, k);
    case Decide(r) => DecideTracks(s, r);
    case Stamp(r, k) => HolderAlone(s, r, k); StampTracks(s, r, k);
    case Abort(r, k) => HolderAlone(s, r, k); AbortTracks(s, r, k);
    case Compact(pages) => CompactTracks(s, pages);
    case TakeCommitTs(r) => TakeCommitTsTracks(s, r);
    case PublishCommit(r) => PublishCommitTracks(s, r);
    case FinishAbort(r) => FinishAbortTracks(s, r);
    case _ =>
      if s.tso in s.txns { InTxn(s, s.tso); }
      QuietTracks(s, step);
  }

  lemma InTxn(s: State, r: nat)
    requires Txns(s) && r in s.txns
    ensures Holds(s.txns[r]) <= s.txns[r].writes.Keys && r in s.issued
  {
    assert TxnShape(s, r, s.txns[r]);
  }

  lemma {:induction false} RunTracks(mode: LockManager, states: seq<State>, steps: seq<Step>, n: nat)
    requires IsRun(mode, states, steps) && n < |states|
    ensures Tracks(states[n])
  {
    hide Apply, Enabled, Inv;
    if n > 0 {
      hide Tracks;
      RunTracks(mode, states, steps, n - 1);
      RunHolds(mode, states, steps, n - 1);
      StepTracks(states[n - 1], steps[n - 1]);
    }
  }

  // ----- What recovery finds -----

  /** The keys whose recovered newest version is an intent of `r`. */
  function OpenIntents(pages: map<Key, seq<Version>>, r: nat): set<Key> {
    set k | k in pages && HeadLocked(pages[k]) && GetTs(pages[k][0].ts) == r
  }

  lemma OpenIntentsAreHeld(s: State, pages: map<Key, seq<Version>>, r: nat)
    requires Inv(s) && PagesRebuilt(pages, s)
    ensures OpenIntents(pages, r) == if r in s.txns then Holds(s.txns[r]) else {}
  {
    hide Keys, Locks, Ledger, Contents, Reads, Validated, Snapshots, Pruned;
    forall k: Key
      ensures k in OpenIntents(pages, r) <==> r in s.txns && k in Holds(s.txns[r])
    {
      var vs := InPages(pages, k);
      assert Rebuilt(vs, At(s, k));
      PrunedHead(vs, At(s, k));
      if HeadLocked(vs) {
        LockedKeyHasWriter(s, k);
      }
      if r in s.txns && k in Holds(s.txns[r]) {
        HolderAlone(s, r, k);
      }
    }
  }

  /** Every page read gives the same status and version on the recovered and on the live list. */
  ghost predicate SameReads(a: seq<Version>, b: seq<Version>) {
    forall t: nat, ignoreLock: bool, owner: Option<nat> ::
      ReadOnce(a, t, ignoreLock, owner) == ReadOnce(b, t, ignoreLock, owner)
  }

  lemma RebuiltReads(replayed: seq<Version>, live: seq<Version>)
    requires Rebuilt(replayed, live)
    ensures SameReads(replayed, live) && DropAborted(replayed) == DropAborted(live)
  {
    PrunedSameLive(replayed, live);
    PrunedHead(replayed, live);
    forall t: nat, ignoreLock: bool, owner: Option<nat>
      ensures ReadOnce(replayed, t, ignoreLock, owner) == ReadOnce(live, t, ignoreLock, owner)
    {
      PrunedVisible(replayed, live, t);
    }
  }

  /**
   What replaying the log of `s` must give: no CHECK fails, at every key the live versions are
   back in order and every read agrees, a transaction's counter is the number of its intents that
   are still locked, and it is in the map exactly if it has begun and has not resolved all of
   the intents it wrote.
  */
  ghost predicate Recovers(s: State, d: Recovered) {
    && Replay(s.log) == Some(d)
    && (forall k: Key ::
          && DropAborted(InPages(d.pages, k)) == DropAborted(At(s, k))
          && SameReads(InPages(d.pages, k), At(s, k)))
    && (forall r: nat ::
          && (r in d.open <==>
                LogBegin(r) in s.log && (OpenIntents(d.pages, r) != {} || !Wrote(s.log, r)))
          && (r in d.open ==> d.open[r] == |OpenIntents(d.pages, r)|)
          && (r in s.txns ==> OpenIntents(d.pages, r) == Holds(s.txns[r])))
  }

  lemma StateRecovers(s: State)
    requires Inv(s) && Tracks(s)
    ensures Replay(s.log).Some? && Recovers(s, Replay(s.log).value)
  {
    hide Inv, Wrote, OpenIntents, SameReads, DropAborted, Rebuilt, Replay;
    var d := Replay(s.log).value;
    forall k: Key
      ensures DropAborted(InPages(d.pages, k)) == DropAborted(At(s, k)) && SameReads(InPages(d.pages, k), At(s, k))
    {
      RebuiltReads(InPages(d.pages, k), At(s, k));
    }
    forall r: nat
      ensures r in d.open <==> LogBegin(r) in s.log && (OpenIntents(d.pages, r) != {} || !Wrote(s.log, r))
      ensures r in d.open ==> d.open[r] == |OpenIntents(d.pages, r)|
      ensures r in s.txns ==> OpenIntents(d.pages, r) == Holds(s.txns[r])
    {
      assert Book(d.open, s.log, s.txns, r);
      OpenIntentsAreHeld(s, d.pages, r);
    }
  }

  /** A step appends at most one record. */
  lemma LogGrows(s: State, step: Step)
    requires Enabled(s, step)
    ensures Apply(s, step).log == s.log
            || (|Apply(s, step).log| == |s.log| + 1 && Apply(s, step).log[..|s.log|] == s.log)
  {
    hide At, VisibleAt, Blocked, Conflicts, Agrees, Stamped, CanCompact;
  }

  /** Every prefix of a log is the log of an earlier state of the run. */
  lemma {:induction false} PrefixIsEarlierLog(
    mode: LockManager, states: seq<State>, steps: seq<Step>, i: nat, n: nat) returns (j: nat)
    requires IsRun(mode, states, steps) && i < |states| && n <= |states[i].log|
    ensures j <= i && states[j].log == states[i].log[..n]
    decreases i
  {
    hide Apply, Enabled;
    if n == |states[i].log| {
      j := i;
      assert states[i].log[..n] == states[i].log;
    } else {
      assert i > 0;
      LogGrows(states[i - 1], steps[i - 1]);
      assert states[i - 1].log[..n] == states[i].log[..n];
      j := PrefixIsEarlierLog(mode, states, steps, i - 1, n);
    }
  }

  /**
   Crash anywhere: the first `n` records of the log of any reachable state rebuild some earlier
   state of the same run, with exactly the intents then open.
  */
  lemma CrashRecovery(mode: LockManager, states: seq<State>, steps: seq<Step>, i: nat, n: nat)
    returns (j: nat)
    requires IsRun(mode, states, steps) && i < |states| && n <= |states[i].log|
    ensures j <= i && states[j].log == states[i].log[..n]
    ensures Replay(states[i].log[..n]).Some? && Recovers(states[j], Replay(states[i].log[..n]).value)
  {
    hide Inv, Tracks, Recovers, Replay, IsRun;
    j := PrefixIsEarlierLog(mode, states, steps, i, n);
    RunHolds(mode, states, steps, j);
    RunTracks(mode, states, steps, j);
    StateRecovers(states[j]);
  }

  // ----- Recovery that compacts pages as it goes -----

  /** Redo one record, then compact some pages. */
  ghost predicate RedoneCompacting(d: Recovered, x: Record, d': Recovered) {
    Redo(d, x).Some? ==>
      var redone := Redo(d, x).value;
      && d'.open == redone.open
      && forall k: Key :: Pruned(InPages(redone.pages, k), InPages(d'.pages, k))
  }

  ghost predicate CompactingReplay(log: seq<Record>, ds: seq<Recovered>) {
    && |ds| == |log| + 1 && ds[0] == Empty()
    && forall i :: 0 <= i < |log| ==> RedoneCompacting(ds[i], log[i], ds[i + 1])
  }

  /** `d` is the plain recovery `plain` with some aborted versions gone. */
  ghost predicate Compacts(plain: Recovered, d: Recovered) {
    d.open == plain.open && forall k: Key :: Rebuilt(InPages(plain.pages, k), InPages(d.pages, k))
  }

  lemma RedoCompacts(plain: Recovered, d: Recovered, x: Record, d': Recovered)
    requires Compacts(plain, d) && Redo(plain, x).Some? && RedoneCompacting(d, x, d')
    requires forall k: Key :: LockedAtHead(InPages(Redo(plain, x).value.pages, k))
    ensures Redo(d, x).Some? && Compacts(Redo(plain, x).value, d')
  {
    if x.LogSetTs? {
      assert Rebuilt(InPages(plain.pages, x.key), InPages(d.pages, x.key));
      PrunedHead(InPages(plain.pages, x.key), InPages(d.pages, x.key));
    }
    var p', r' := Redo(plain, x).value, Redo(d, x).value;
    forall k: Key ensures Rebuilt(InPages(p'.pages, k), InPages(d'.pages, k)) {
      var a, b := InPages(plain.pages, k), InPages(d.pages, k);
      assert Rebuilt(a, b);
      assert Pruned(InPages(p'.pages, k), InPages(r'.pages, k)) by {
        if x.LogWrite? && x.key == k {
          assert ([x.version] + a)[1..] == a && ([x.version] + b)[1..] == b;
        } else if x.LogSetTs? && x.key == k {
          RebuiltStamp(a, b, x.ts);
        }
      }
      PrunedTransitive(InPages(p'.pages, k), InPages(r'.pages, k), InPages(d'.pages, k));
    }
  }

  /**
   Pages that compact while the log is replayed make no difference: no CHECK fails on the way,
   the map is the same, and every read agrees with the state the log prefix stands for.
  */
  lemma {:induction false} CompactingRecovery(
    mode: LockManager, states: seq<State>, steps: seq<Step>, i: nat, n: nat, ds: seq<Recovered>)
    returns (j: nat)
    requires IsRun(mode, states, steps) && i < |states| && n <= |states[i].log|
    requires CompactingReplay(states[i].log, ds)
    ensures j <= i && states[j].log == states[i].log[..n]
    ensures n > 0 ==> Redo(ds[n - 1], states[i].log[n - 1]).Some?
    ensures Replay(states[i].log[..n]).Some? && Compacts(Replay(states[i].log[..n]).value, ds[n])
    ensures forall k: Key :: SameReads(InPages(ds[n].pages, k), At(states[j], k))
  {
    hide Inv, Tracks, Recovers, IsRun, RedoneCompacting, Redo, SameReads, Compacts;
    var log := states[i].log;
    j := CrashRecovery(mode, states, steps, i, n);
    if n > 0 {
      var _ := CompactingRecovery(mode, states, steps, i, n - 1, ds);
      assert log[..n][..n - 1] == log[..n - 1];
      PrefixLockedAtHead(mode, states, steps, j);
      RedoCompacts(Replay(log[..n - 1]).value, ds[n - 1], log[n - 1], ds[n]);
    } else {
      EmptyCompacts();
    }
    var plain := Replay(log[..n]).value;
    forall k: Key ensures SameReads(InPages(ds[n].pages, k), At(states[j], k)) {
      RecoveredReads(states[j], plain, k);
      CompactedReads(plain, ds[n], k, At(states[j], k));
    }
  }

  lemma EmptyCompacts()
    ensures Compacts(Empty(), Empty())
  {
  }

  lemma RecoveredReads(s: State, d: Recovered, k: Key)
    requires Recovers(s, d)
    ensures SameReads(InPages(d.pages, k), At(s, k))
  {
  }

  lemma CompactedReads(plain: Recovered, d: Recovered, k: Key, live: seq<Version>)
    requires Compacts(plain, d) && SameReads(InPages(plain.pages, k), live)
    ensures SameReads(InPages(d.pages, k), live)
  {
    var a, b := InPages(plain.pages, k), InPages(d.pages, k);
    assert Rebuilt(a, b);
    RebuiltReads(a, b);
    forall t: nat, ignoreLock: bool, owner: Option<nat>
      ensures ReadOnce(b, t, ignoreLock, owner) == ReadOnce(live, t, ignoreLock, owner)
    {
      assert ReadOnce(a, t, ignoreLock, owner) == ReadOnce(live, t, ignoreLock, owner);
    }
  }

  lemma PrefixLockedAtHead(mode: LockManager, states: seq<State>, steps: seq<Step>, j: nat)
    requires IsRun(mode, states, steps) && j < |states|
    ensures Replay(states[j].log).Some?
    ensures forall k: Key :: LockedAtHead(InPages(Replay(states[j].log).value.pages, k))
  {
    hide IsRun, Replay;
    RunTracks(mode, states, steps, j);
    var d := Replay(states[j].log).value;
    forall k: Key ensures LockedAtHead(InPages(d.pages, k)) { assert Rebuilt(InPages(d.pages, k), At(states[j], k)); }
  }
}
