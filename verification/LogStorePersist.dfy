/** The persistent LSN: which value each flush stores, and when it goes backwards. */
module LogStorePersist {
  import opened Common
  import opened LogRecords
  import opened LogSegments
  import opened LogStore
  import opened LogStoreInv
  import opened LogStoreSteps

  // ----- The start LSNs left over in free segments -----

  /** The start LSN that the segment of lap `j` still has from the lap before in the same segment. */
  function Stale(starts: seq<nat>, n: nat, j: nat): nat
    requires j < |starts| + n
  {
    if j < n then 0 else starts[j - n]
  }

  predicate Restarting(s: State, j: nat) {
    s.opener.Starting? && j == |s.starts|
  }

  /** A lap that will come next in a free segment: that segment's start LSN is a lap old. */
  ghost predicate LeftOver(s: State, j: nat)
    requires Shape(s) && j < |s.starts| + |s.segments|
  {
    SegmentOf(s, j).start == Stale(s.starts, |s.segments|, j)
  }

  ghost predicate Leftovers(s: State) {
    && Laps(s)
    && forall j: nat :: |s.starts| <= j < s.freed + |s.segments| && !Restarting(s, j) ==> LeftOver(s, j)
  }

  /** How many flushes have stored the persistent LSN. */
  function Stores(s: State): nat {
    if s.ioPc.Released? && s.freed > 0 then s.freed - 1 else s.freed
  }

  /** The last flush stored the start LSN of the next lap, or what was left of it from the lap before. */
  ghost predicate LastStore(s: State)
    requires Laps(s)
  {
    var j := Stores(s);
    || s.persistent == Stale(s.starts, |s.segments|, j)
    || (j < |s.starts| && s.persistent == s.starts[j])
    || (Restarting(s, j) && s.persistent == s.opener.lsn)
  }

  ghost predicate Stored(s: State) {
    Leftovers(s) && LastStore(s)
  }

  // ----- Every step keeps them -----

  /** Steps that touch no start LSN, no lap and not the persistent LSN. */
  ghost predicate SameStarts(s: State, s': State) {
    && |s'.segments| == |s.segments|
    && (forall i :: 0 <= i < |s.segments| ==> s'.segments[i].start == s.segments[i].start)
    && s'.starts == s.starts && s'.freed == s.freed && s'.persistent == s.persistent
    && s'.ioPc.Released? == s.ioPc.Released? && s'.opener.Starting? == s.opener.Starting?
    && (s.opener.Starting? ==> s'.opener.lsn == s.opener.lsn)
  }

  lemma SameStartsStored(s: State, s': State)
    requires Stored(s) && Laps(s') && SameStarts(s, s')
    ensures Stored(s')
  {
    hide SlotIndex, Ordered;
    forall j: nat | |s'.starts| <= j < s'.freed + |s'.segments| && !Restarting(s', j) ensures LeftOver(s', j) {
      assert LeftOver(s, j);
    }
  }

  lemma WriterStepStored(s: State, step: Step)
    requires Stored(s) && Enabled(s, step) && Laps(Apply(s, step))
    requires step.Reserve? || step.Fill? || step.Exit? || step.Append? || step.Advance?
    requires step.Reserve? ==> s.opener.NoOpener?
    ensures Stored(Apply(s, step))
  {
    hide Stored, FrameAll, SizeOf, Laps;
    SameStartsStored(s, Apply(s, step));
  }

  lemma SealStored(s: State, i: nat)
    requires Stored(s) && CanSeal(s, i) && s.opener.NoOpener? && Laps(DoSeal(s, i))
    ensures Stored(DoSeal(s, i))
  {
    hide Stored, Laps;
    SameStartsStored(s, DoSeal(s, i));
  }

  lemma SetStartStored(s: State)
    requires Stored(s) && Indexes(s) && CanSetStart(s) && Laps(DoSetStart(s))
    ensures Stored(DoSetStart(s))
  {
    hide SlotIndex, Ordered;
    var s', n := DoSetStart(s), |s.segments|;
    forall j: nat | |s'.starts| <= j < s'.freed + n && !Restarting(s', j) ensures LeftOver(s', j) {
      assert LeftOver(s, j);
      if SlotIndex(j, n) == s.current { SameIndex(|s.starts|, j, n); }
    }
  }

  lemma OpenStored(s: State)
    requires Stored(s) && Indexes(s) && CanOpenNext(s) && Laps(DoOpenNext(s))
    ensures Stored(DoOpenNext(s))
  {
    hide SlotIndex, Ordered;
    var s', n := DoOpenNext(s), |s.segments|;
    forall j: nat | |s'.starts| <= j < s'.freed + n && !Restarting(s', j) ensures LeftOver(s', j) {
      assert LeftOver(s, j);
      if SlotIndex(j, n) == s.current { SameIndex(|s.starts|, j, n); }
    }
  }

  lemma ReleaseStored(s: State)
    requires Stored(s) && Indexes(s) && LivesOk(s) && FileOk(s) && CanRelease(s) && Laps(DoRelease(s))
    ensures Stored(DoRelease(s))
  {
    hide SlotIndex, Ordered, Buffered;
    var s', n := DoRelease(s), |s.segments|;
    assert LiveOk(s, s.freed);
    NextLap(s.freed, n);
    forall j: nat | |s'.starts| <= j < s'.freed + n && !Restarting(s', j) ensures LeftOver(s', j) {
      if j < s.freed + n { assert LeftOver(s, j); }
    }
  }

  /** The value a flush stores. */
  lemma StoredValue(s: State)
    requires Leftovers(s) && Indexes(s) && LivesOk(s)
    ensures s.segments[s.io].start
            == if s.freed < |s.starts| then s.starts[s.freed]
               else if s.opener.Starting? then s.opener.lsn else Stale(s.starts, |s.segments|, s.freed)
  {
    hide SlotIndex, Ordered, Buffered;
    if s.freed < |s.starts| { assert LiveOk(s, s.freed); }
    else if !s.opener.Starting? { assert LeftOver(s, s.freed); }
  }

  lemma PersistStored(s: State)
    requires Stored(s) && Indexes(s) && LivesOk(s) && CanPersist(s) && Laps(DoPersist(s))
    ensures Stored(DoPersist(s))
  {
    hide SlotIndex, Ordered, LivesOk;
    StoredValue(s);
    var s' := DoPersist(s);
    forall j: nat | |s'.starts| <= j < s'.freed + |s'.segments| && !Restarting(s', j) ensures LeftOver(s', j) {
      assert LeftOver(s, j);
    }
  }

  lemma StepStored(s: State, step: Step)
    requires Inv(s) && Stored(s) && Enabled(s, step)
    ensures Stored(Apply(s, step))
  {
    StepKeeps(s, step);
    assert Laps(Apply(s, step));
    hide Stored, Laps, LivesOk, DeadsOk, WritersOk, Counts, FrameAll, FileOk, Indexes;
    match step
    case SealAt(i) => OpenIsLast(s, i); SealStored(s, i);
    case SetStart => SetStartStored(s);
    case OpenNext => OpenStored(s);
    case Release => ReleaseStored(s);
    case Persist => PersistStored(s);
    case Reserve(_, i, _) => OpenIsLast(s, i); WriterStepStored(s, step);
    case _ => WriterStepStored(s, step);
  }

  lemma InitStored(n: nat, size: nat)
    requires 2 <= n && size < LogSegments.TWO48
    ensures Stored(Init(n, size))
  {
    InitHolds(n, size);
    var s := Init(n, size);
    forall j: nat | 1 <= j < n ensures LeftOver(s, j) { }
  }

  lemma {:induction false} RunStored(n: nat, size: nat, states: seq<State>, steps: seq<Step>, k: nat)
    requires IsRun(n, size, states, steps) && k < |states|
    ensures Stored(states[k])
  {
    hide Inv, Enabled, Apply, Init, Stored;
    if k == 0 {
      InitStored(n, size);
    } else {
      RunHolds(n, size, states, steps, k - 1);
      RunStored(n, size, states, steps, k - 1);
      StepStored(states[k - 1], steps[k - 1]);
    }
  }

  // ----- Going backwards -----

  /**
   A flush moves the persistent LSN backwards exactly if the next segment has not been given its
   new start LSN yet and the persistent LSN is the start LSN, other than zero, of the segment
   just flushed.
  */
  lemma PersistMovesBack(n: nat, size: nat, states: seq<State>, steps: seq<Step>, k: nat)
    requires IsRun(n, size, states, steps) && k < |steps| && steps[k] == Persist
    ensures states[k].freed >= 1 && states[k].freed <= |states[k].starts|
    ensures states[k + 1].persistent < states[k].persistent <==>
              && states[k].freed == |states[k].starts| && !states[k].opener.Starting?
              && 0 < states[k].persistent == states[k].starts[states[k].freed - 1]
  {
    var s := states[k];
    RunHolds(n, size, states, steps, k);
    RunStored(n, size, states, steps, k);
    RunReleased(n, size, states, steps, k);
    assert states[k + 1] == DoPersist(s);
    hide IsRun, DeadsOk, WritersOk, Counts, FileOk, FrameAll;
    StoredValue(s);
    hide LivesOk, Indexes, Leftovers, Stored;
    MovesBack(s);
  }

  lemma MovesBack(s: State)
    requires Laps(s) && LastStore(s) && s.ioPc.Released? && s.freed >= 1
    ensures var value := if s.freed < |s.starts| then s.starts[s.freed]
                         else if s.opener.Starting? then s.opener.lsn else Stale(s.starts, |s.segments|, s.freed);
            value < s.persistent <==>
              s.freed == |s.starts| && !s.opener.Starting? && 0 < s.persistent == s.starts[s.freed - 1]
  {
  }

  lemma {:induction false} RunReleased(n: nat, size: nat, states: seq<State>, steps: seq<Step>, k: nat)
    requires IsRun(n, size, states, steps) && k < |states|
    ensures states[k].ioPc.Released? ==> states[k].freed >= 1
  {
    if k > 0 { RunReleased(n, size, states, steps, k - 1); }
  }

  // ----- It does happen -----

  /** Take the steps in order, if each is enabled. */
  function TakeAll(s: State, steps: seq<Step>): Option<State>
    decreases |steps|
  {
    if steps == [] then Some(s)
    else if Enabled(s, steps[0]) then TakeAll(Apply(s, steps[0]), steps[1..])
    else None
  }

  lemma TakeOne(s: State, step: Step, rest: seq<Step>)
    requires Enabled(s, step)
    ensures TakeAll(s, [step] + rest) == TakeAll(Apply(s, step), rest)
  {
    assert ([step] + rest)[1..] == rest;
  }

  lemma TakeNone(s: State)
    ensures TakeAll(s, []) == Some(s)
  {
  }

  lemma {:induction false} TakeAllConcat(s: State, a: seq<Step>, b: seq<Step>)
    requires TakeAll(s, a).Some?
    ensures TakeAll(s, a + b) == TakeAll(TakeAll(s, a).value, b)
    decreases |a|
  {
    hide Apply, Enabled;
    if a == [] {
      assert a + b == b;
    } else {
      TakeAllConcat(Apply(s, a[0]), a[1..], b);
      assert (a + b)[1..] == a[1..] + b;
    }
  }

  lemma TakeThree(s: State, a: Step, b: Step, c: Step)
    requires Enabled(s, a) && Enabled(Apply(s, a), b) && Enabled(Apply(Apply(s, a), b), c)
    ensures TakeAll(s, [a, b, c]) == Some(Apply(Apply(Apply(s, a), b), c))
  {
    hide Apply, Enabled, TakeAll;
    var s1 := Apply(s, a);
    var s2 := Apply(s1, b);
    assert [a, b, c] == [a] + [b, c] && [b, c] == [b] + [c] && [c] == [c] + [];
    TakeOne(s, a, [b, c]);
    TakeOne(s1, b, [c]);
    TakeOne(s2, c, []);
    TakeNone(Apply(s2, c));
  }

  lemma TakeFour(s: State, a: Step, b: Step, c: Step, d: Step)
    requires Enabled(s, a) && Enabled(Apply(s, a), b) && Enabled(Apply(Apply(s, a), b), c)
    requires Enabled(Apply(Apply(Apply(s, a), b), c), d)
    ensures TakeAll(s, [a, b, c, d]) == Some(Apply(Apply(Apply(Apply(s, a), b), c), d))
  {
    hide Apply, Enabled, TakeAll;
    assert [a, b, c, d] == [a] + [b, c, d];
    TakeOne(s, a, [b, c, d]);
    TakeThree(Apply(s, a), b, c, d);
  }

  /** What the example follows of a segment. */
  datatype Sketch = Sketch(control: Control, start: nat)

  /** A store of two segments with no appender inside, between two rounds of the io thread. */
  ghost predicate Looks(
    s: State, a: Sketch, b: Sketch, current: nat, opener: Opener, io: nat, starts: seq<nat>, freed: nat,
    persistent: nat)
  {
    && Shape(s) && |s.segments| == 2 && s.writers == map[] && s.ioPc == Watching
    && Sketch(s.segments[0].control, s.segments[0].start) == a
    && Sketch(s.segments[1].control, s.segments[1].start) == b
    && s.current == current && s.opener == opener && s.io == io
    && s.starts == starts && s.freed == freed && s.persistent == persistent
  }

  function FillSegment(i: nat, records: seq<Bytes>): seq<Step> {
    [Reserve(0, i, records), Fill(0), Exit(0)]
  }

  lemma Fills(s: State, i: nat, records: seq<Bytes>)
    requires Shape(s) && |s.segments| == 2 && i < 2 && s.writers == map[]
    requires s.segments[i].control == Control(Open, 0, 0)
    requires Framable(records) && SizeOf(records) <= s.size
    ensures var end := TakeAll(s, FillSegment(i, records));
            && end.Some? && Shape(end.value) && end.value.writers == map[] && end.value.size == s.size
            && end.value.segments == s.segments[i := end.value.segments[i]]
            && end.value.segments[i].control == Control(Open, 0, SizeOf(records))
            && end.value.segments[i].start == s.segments[i].start
            && end.value.current == s.current && end.value.opener == s.opener && end.value.io == s.io
            && end.value.ioPc == s.ioPc && end.value.starts == s.starts && end.value.freed == s.freed
            && end.value.persistent == s.persistent
  {
    hide TakeAll, FrameAll, SizeOf;
    FrameAllSize(records, s.segments[i].start);
    var s1 := Apply(s, Reserve(0, i, records));
    assert s1.writers[0].index == i && s1.writers[0].offset == 0;
    var s2 := Apply(s1, Fill(0));
    var s3 := Apply(s2, Exit(0));
    assert s3.segments == s.segments[i := s3.segments[i]];
    assert s3.writers == map[];
    hide Apply, Enabled;
    TakeThree(s, Reserve(0, i, records), Fill(0), Exit(0));
  }

  /** The first segment is sealed and the second opened. */
  function OpenSecond(): seq<Step> {
    [SealAt(0), Advance, SetStart, OpenNext]
  }

  lemma OpensSecond(s: State, l: nat)
    requires 0 < l
    requires Looks(s, Sketch(Control(Open, 0, l), 0), Sketch(Control(Free, 0, 0), 0), 0, NoOpener, 0, [0], 0, 0)
    ensures var end := TakeAll(s, OpenSecond());
            && end.Some? && end.value.size == s.size && end.value.segments[0].validSize == l
            && Looks(end.value, Sketch(Control(Io, 0, l), 0), Sketch(Control(Open, 0, 0), l), 1, NoOpener, 0,
                     [0, l], 0, 0)
  {
    hide TakeAll;
    var s1 := Apply(s, SealAt(0));
    var s2 := Apply(s1, Advance);
    var s3 := Apply(s2, SetStart);
    var s4 := Apply(s3, OpenNext);
    assert s4.starts == [0, l];
    hide Apply, Enabled;
    TakeFour(s, SealAt(0), Advance, SetStart, OpenNext);
  }

  /** The io thread flushes the first segment and stores the second one's start LSN. */
  function FlushFirst(): seq<Step> {
    [Append, Release, Persist]
  }

  lemma FlushesFirst(s: State, l: nat)
    requires s.segments != [] && s.segments[0].validSize <= s.size
    requires Looks(s, Sketch(Control(Io, 0, l), 0), Sketch(Control(Open, 0, 0), l), 1, NoOpener, 0, [0, l], 0, 0)
    ensures var end := TakeAll(s, FlushFirst());
            && end.Some? && end.value.size == s.size
            && Looks(end.value, Sketch(Control(Free, 0, l), 0), Sketch(Control(Open, 0, 0), l), 1, NoOpener, 1,
                     [0, l], 1, l)
  {
    hide TakeAll;
    var s1 := Apply(s, Append);
    var s2 := Apply(s1, Release);
    var s3 := Apply(s2, Persist);
    assert s3.persistent == l;
    hide Apply, Enabled;
    TakeThree(s, Append, Release, Persist);
  }

  /** The second segment is sealed and flushed before the first is given its new start LSN. */
  function FlushSecond(): seq<Step> {
    [SealAt(1), Append, Release, Persist]
  }

  lemma FlushesSecond(s: State, l: nat)
    requires 0 < l <= s.size
    requires Looks(s, Sketch(Control(Free, 0, l), 0), Sketch(Control(Open, 0, l), l), 1, NoOpener, 1, [0, l], 1, l)
    ensures var end := TakeAll(s, FlushSecond());
            end.Some? && end.value.persistent == 0 && |end.value.file| == |s.file| + l
  {
    hide TakeAll;
    var s1 := Apply(s, SealAt(1));
    var s2 := Apply(s1, Append);
    var s3 := Apply(s2, Release);
    assert s3.io == 0;
    var s4 := Apply(s3, Persist);
    assert s4.persistent == 0 && |s4.file| == |s.file| + l;
    hide Apply, Enabled;
    TakeFour(s, SealAt(1), Append, Release, Persist);
  }

  /** Two batches through two segments. */
  function TwoBatches(records: seq<Bytes>): seq<Step> {
    FillSegment(0, records) + (OpenSecond() + (FlushFirst() + FillSegment(1, records)))
  }

  /**
   With two segments, any batch written twice: the persistent LSN reaches the end of the first
   batch, and the flush of the second takes it back to zero.
  */
  lemma PersistFallsBack(size: nat, records: seq<Bytes>)
    requires size < LogSegments.TWO48 && records != [] && Framable(records) && SizeOf(records) <= size
    ensures var mid := TakeAll(Init(2, size), TwoBatches(records));
            && mid.Some? && mid.value.persistent == SizeOf(records) > 0
            && var end := TakeAll(mid.value, FlushSecond());
               end.Some? && end.value.persistent == 0 && |end.value.file| == |mid.value.file| + SizeOf(records)
  {
    hide TakeAll, Framable, FillSegment, OpenSecond, FlushFirst, FlushSecond;
    var s0, l := Init(2, size), SizeOf(records);
    Fills(s0, 0, records);
    var s1 := TakeAll(s0, FillSegment(0, records)).value;
    OpensSecond(s1, l);
    var s2 := TakeAll(s1, OpenSecond()).value;
    FlushesFirst(s2, l);
    var s3 := TakeAll(s2, FlushFirst()).value;
    Fills(s3, 1, records);
    var s4 := TakeAll(s3, FillSegment(1, records)).value;
    FlushesSecond(s4, l);
    hide Looks, Init;
    TakeAllConcat(s2, FlushFirst(), FillSegment(1, records));
    TakeAllConcat(s1, OpenSecond(), FlushFirst() + FillSegment(1, records));
    TakeAllConcat(s0, FillSegment(0, records), OpenSecond() + (FlushFirst() + FillSegment(1, records)));
  }
}
