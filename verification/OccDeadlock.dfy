/** Write skew: two transactions, each of which read what the other writes, wait for each other for ever. */
module OccDeadlock {
  import opened Common
  import opened TxnTs
  import opened Versions
  import opened Occ
  import opened OccProgress

  /** Take the steps in order, if each is enabled. */
  ghost function TakeAll(s: State, steps: seq<Step>): Option<State>
    decreases |steps|
  {
    if steps == [] then Some(s)
    else if Enabled(s, steps[0]) then TakeAll(Apply(s, steps[0]), steps[1..])
    else None
  }

  lemma TakeOne(s: State, step: Step, rest: seq<Step>)
    requires Enabled(s, step)
    ensures TakeAll(s, [step] + rest) == TakeAll(Apply(s, step), rest)
  {
    assert ([step] + rest)[1..] == rest;
  }

  lemma TakeTwo(s: State, a: Step, b: Step)
    requires Enabled(s, a) && Enabled(Apply(s, a), b)
    ensures TakeAll(s, [a, b]) == Some(Apply(Apply(s, a), b))
  {
    hide Apply, Enabled;
    assert [a, b] == [a] + [b] && [b] == [b] + [];
    TakeOne(s, a, [b]);
    TakeOne(Apply(s, a), b, []);
  }

  lemma {:induction false} TakeAllConcat(s: State, a: seq<Step>, b: seq<Step>)
    requires TakeAll(s, a).Some?
    ensures TakeAll(s, a + b) == TakeAll(TakeAll(s, a).value, b)
    decreases |a|
  {
    hide Apply, Enabled;
    if a == [] {
      assert a + b == b;
    } else {
      TakeAllConcat(Apply(s, a[0]), a[1..], b);
      assert (a + b)[1..] == a[1..] + b;
    }
  }

  // ----- The run, two steps at a time -----

  /** Transaction `r` begins. */
  function Begins(r: nat): seq<Step> {
    [Begin, PublishRead(r)]
  }

  /** It reads one key and writes the other. */
  function ReadsAndWrites(r: nat, from: Key, to: Key, v: Option<Row>): seq<Step> {
    [Read(r, from), Write(r, to, v)]
  }

  /** It starts to commit and puts its intent on the page. */
  function Installs(r: nat, to: Key): seq<Step> {
    [StartCommit(r), Install(r, to)]
  }

  function TakeTimestamps(): seq<Step> {
    [TakeCommitTs(1), TakeCommitTs(2)]
  }

  function WriteSkew(x: Key, y: Key, v: Option<Row>, w: Option<Row>): seq<Step> {
    Begins(1) + (Begins(2) + (ReadsAndWrites(1, x, y, v) + (ReadsAndWrites(2, y, x, w)
      + (Installs(1, y) + (Installs(2, x) + TakeTimestamps())))))
  }

  /** What the run needs to know of a transaction. */
  ghost predicate Is(s: State, r: nat, phase: Phase, writes: map<Key, Option<Row>>, readSet: map<Key, Option<nat>>) {
    r in s.txns && s.txns[r].phase == phase && s.txns[r].writes == writes && s.txns[r].readSet == readSet
  }

  /** What stays while `r` takes a step. */
  ghost predicate SameButFor(s: State, s': State, r: nat) {
    s'.mode == s.mode && forall q :: q in s.txns && q != r ==> q in s'.txns && s'.txns[q] == s.txns[q]
  }

  lemma BeginsRuns(s: State, r: nat)
    requires s.tso == r <= MAX_TXN_TS && r !in s.txns
    ensures var end := TakeAll(s, Begins(r));
            && end.Some? && Is(end.value, r, Running, map[], map[]) && SameButFor(s, end.value, r)
            && end.value.tso == r + 1 && end.value.pages == s.pages && end.value.locks == s.locks
            && end.value.txns.Keys == s.txns.Keys + {r}
  {
    hide TakeAll;
    assert Enabled(Apply(s, Begin), PublishRead(r));
    TakeTwo(s, Begin, PublishRead(r));
  }

  lemma ReadsAndWritesRuns(s: State, r: nat, from: Key, to: Key, v: Option<Row>)
    requires Is(s, r, Running, map[], map[]) && s.pages == map[] && to !in s.locks
    ensures var end := TakeAll(s, ReadsAndWrites(r, from, to, v));
            && end.Some? && Is(end.value, r, Running, map[to := v], map[from := None]) && SameButFor(s, end.value, r)
            && end.value.tso == s.tso && end.value.pages == map[]
            && end.value.locks == (if s.mode == Inlined then s.locks else s.locks[to := r])
  {
    hide TakeAll;
    var s1 := Apply(s, Read(r, from));
    assert Is(s1, r, Running, map[], map[from := None]) && s1.locks == s.locks && s1.pages == s.pages;
    var s2 := Apply(s1, Write(r, to, v));
    assert Is(s2, r, Running, map[to := v], map[from := None]);
    assert SameButFor(s, s2, r);
    hide Apply, Enabled;
    TakeTwo(s, Read(r, from), Write(r, to, v));
  }

  lemma InstallsRuns(s: State, r: nat, to: Key, v: Option<Row>, readSet: map<Key, Option<nat>>)
    requires Is(s, r, Running, map[to := v], readSet) && to !in s.pages
    ensures var end := TakeAll(s, Installs(r, to));
            && end.Some? && Is(end.value, r, Installing({to}), map[to := v], readSet) && SameButFor(s, end.value, r)
            && end.value.tso == s.tso && end.value.pages == s.pages[to := [Intent(r, v)]]
  {
    hide TakeAll;
    var s1 := Apply(s, StartCommit(r));
    assert Is(s1, r, Installing({}), map[to := v], readSet) && s1.pages == s.pages && SameButFor(s, s1, r);
    assert s1.tso == s.tso;
    InstallRuns(s1, r, to, v, readSet);
    var s2 := Apply(s1, Install(r, to));
    hide Apply;
    TakeTwo(s, StartCommit(r), Install(r, to));
  }

  lemma InstallRuns(s: State, r: nat, to: Key, v: Option<Row>, readSet: map<Key, Option<nat>>)
    requires Is(s, r, Installing({}), map[to := v], readSet) && to !in s.pages
    ensures Enabled(s, Install(r, to))
    ensures var end := Apply(s, Install(r, to));
            && Is(end, r, Installing({to}), map[to := v], readSet) && SameButFor(s, end, r)
            && end.tso == s.tso && end.pages == s.pages[to := [Intent(r, v)]]
  {
    assert At(s, to) == [] && !Conflicts(s, r, to);
    assert {} + {to} == {to} && [Intent(r, v)] + [] == [Intent(r, v)];
  }

  lemma TakeTimestampsRuns(s: State, x: Key, y: Key, v: Option<Row>, w: Option<Row>)
    requires s.tso + 1 <= MAX_TXN_TS
    requires Is(s, 1, Installing({y}), map[y := v], map[x := None])
    requires Is(s, 2, Installing({x}), map[x := w], map[y := None])
    ensures var end := TakeAll(s, TakeTimestamps());
            && end.Some? && end.value.pages == s.pages
            && Is(end.value, 1, Validating({}), map[y := v], map[x := None])
            && Is(end.value, 2, Validating({}), map[x := w], map[y := None])
  {
    hide TakeAll;
    assert map[y := v].Keys == {y} && map[x := w].Keys == {x};
    var s1 := Apply(s, TakeCommitTs(1));
    assert Is(s1, 1, Validating({}), map[y := v], map[x := None]);
    assert Is(s1, 2, Installing({x}), map[x := w], map[y := None]);
    var s2 := Apply(s1, TakeCommitTs(2));
    assert Is(s2, 1, Validating({}), map[y := v], map[x := None]);
    assert Is(s2, 2, Validating({}), map[x := w], map[y := None]);
    hide Apply, Enabled;
    TakeTwo(s, TakeCommitTs(1), TakeCommitTs(2));
  }

  lemma CrossedIntentsDeadlock(s: State, x: Key, y: Key, v: Option<Row>, w: Option<Row>)
    requires x != y && s.pages == map[y := [Intent(1, v)]][x := [Intent(2, w)]]
    requires Is(s, 1, Validating({}), map[y := v], map[x := None])
    requires Is(s, 2, Validating({}), map[x := w], map[y := None])
    ensures Deadlocked(s, {1, 2})
  {
    LockRoundTrip(1);
    LockRoundTrip(2);
    assert s.txns[1].readSet.Keys - {} == {x} && s.txns[2].readSet.Keys - {} == {y};
    assert At(s, x) == [Intent(2, w)] && At(s, y) == [Intent(1, v)];
  }

  /**
   Under each lock manager and for any two keys: transaction 1 reads `x` and writes `y`, transaction 2 reads
   `y` and writes `x`, both install their intents and take their commit timestamps. From then on neither
   validation ever ends.
  */
  lemma WriteSkewDeadlocks(mode: LockManager, x: Key, y: Key, v: Option<Row>, w: Option<Row>)
    requires x != y
    ensures var end := TakeAll(Init(mode), WriteSkew(x, y, v, w)); end.Some? && Deadlocked(end.value, {1, 2})
  {
    hide TakeAll, Deadlocked, Begins, ReadsAndWrites, Installs, TakeTimestamps;
    var s0 := Init(mode);
    BeginsRuns(s0, 1);
    var s1 := TakeAll(s0, Begins(1)).value;
    SecondBegins(s1);
    var s2 := TakeAll(s1, Begins(2)).value;
    ReadsAndWritesRuns(s2, 1, x, y, v);
    var s3 := TakeAll(s2, ReadsAndWrites(1, x, y, v)).value;
    ReadsAndWritesRuns(s3, 2, y, x, w);
    var s4 := TakeAll(s3, ReadsAndWrites(2, y, x, w)).value;
    InstallsRuns(s4, 1, y, v, map[x := None]);
    var s5 := TakeAll(s4, Installs(1, y)).value;
    InstallsRuns(s5, 2, x, w, map[y := None]);
    var s6 := TakeAll(s5, Installs(2, x)).value;
    TakeTimestampsRuns(s6, x, y, v, w);
    var s7 := TakeAll(s6, TakeTimestamps()).value;
    CrossedIntentsDeadlock(s7, x, y, v, w);
    hide Is, SameButFor, Init;
    Chain(s0, s1, s2, s3, Begins(1), Begins(2), ReadsAndWrites(1, x, y, v),
          ReadsAndWrites(2, y, x, w) + (Installs(1, y) + (Installs(2, x) + TakeTimestamps())));
    Chain(s3, s4, s5, s6, ReadsAndWrites(2, y, x, w), Installs(1, y), Installs(2, x), TakeTimestamps());
  }

  lemma SecondBegins(s: State)
    requires s.tso == 2 && Is(s, 1, Running, map[], map[]) && s.txns.Keys == {1}
    ensures var end := TakeAll(s, Begins(2));
            && end.Some? && Is(end.value, 1, Running, map[], map[]) && Is(end.value, 2, Running, map[], map[])
            && end.value.tso == 3 && end.value.pages == s.pages && end.value.locks == s.locks
            && end.value.mode == s.mode
  {
    hide TakeAll;
    BeginsRuns(s, 2);
  }

  lemma Chain(s0: State, s1: State, s2: State, s3: State, a: seq<Step>, b: seq<Step>, c: seq<Step>, rest: seq<Step>)
    requires TakeAll(s0, a) == Some(s1) && TakeAll(s1, b) == Some(s2) && TakeAll(s2, c) == Some(s3)
    ensures TakeAll(s0, a + (b + (c + rest))) == TakeAll(s3, rest)
  {
    hide TakeAll;
    TakeAllConcat(s2, c, rest);
    TakeAllConcat(s1, b, c + rest);
    TakeAllConcat(s0, a, b + (c + rest));
  }
}
