/** What the log store guarantees in every reachable state, whatever the interleaving. */
module LogStoreTheorems {
  import opened Common
  import opened LogRecords
  import opened LogSegments
  import opened LogStore
  import opened LogStoreInv
  import opened LogStoreSteps

  // ----- Segments -----

  /** At most one segment is open, and none while the next one is being opened. */
  lemma OneOpenSegment(n: nat, size: nat, states: seq<State>, steps: seq<Step>, k: nat, a: nat, b: nat)
    requires IsRun(n, size, states, steps) && k < |states|
    requires a < |states[k].segments| && states[k].segments[a].control.state == Open
    ensures states[k].opener.NoOpener?
    ensures b < |states[k].segments| && states[k].segments[b].control.state == Open ==> a == b
  {
    hide IsRun, LivesOk, DeadsOk, WritersOk, Counts, FileOk, FrameAll;
    RunHolds(n, size, states, steps, k);
    OpenIsLast(states[k], a);
    if b < |states[k].segments| && states[k].segments[b].control.state == Open { OpenIsLast(states[k], b); }
  }

  /** A segment in the io thread's hands has no appender inside, and holds exactly the next bytes of the log. */
  lemma IoSegmentIsComplete(n: nat, size: nat, states: seq<State>, steps: seq<Step>, k: nat)
    requires IsRun(n, size, states, steps) && k < |states|
    requires Shape(states[k]) && states[k].segments[states[k].io].control.state == Io
    ensures forall id :: id in states[k].writers ==> states[k].writers[id].index != states[k].io
    ensures var s := states[k];
            var seg := s.segments[s.io];
            && 0 < seg.validSize <= |seg.buffer| && Head(s) + seg.validSize <= |FrameAll(s.records, 0)|
            && seg.buffer[..seg.validSize] == FrameAll(s.records, 0)[Head(s)..Head(s) + seg.validSize]
  {
    hide IsRun, LivesOk, DeadsOk, WritersOk, Counts, FileOk, FrameAll, SlotIndex;
    var s := states[k];
    RunHolds(n, size, states, steps, k);
    IoSegmentIsNext(s);
    Nobody(s, s.io);
    IoLapSealed(s);
  }

  lemma IoLapSealed(s: State)
    requires Laps(s) && Indexes(s) && LivesOk(s) && Live(s, s.freed) && s.segments[s.io].control.state == Io
    ensures s.starts[s.freed] < End(s, s.freed)
  {
    hide Buffered;
    assert LiveOk(s, s.freed);
  }

  /** The packed control word never overflows one field into another. */
  lemma ControlsFit(n: nat, size: nat, states: seq<State>, steps: seq<Step>, k: nat, i: nat)
    requires IsRun(n, size, states, steps) && k < |states| && i < |states[k].segments|
    ensures Fits(states[k].segments[i].control)
    ensures Unpack(Pack(states[k].segments[i].control)) == states[k].segments[i].control
  {
    hide IsRun, Laps, LivesOk, DeadsOk, WritersOk, FileOk, FrameAll, Pack, Unpack;
    RunHolds(n, size, states, steps, k);
    SizesFit(states[k]);
    UnpackPack(states[k].segments[i].control);
  }

  lemma SizesFit(s: State)
    requires Laps(s) && Counts(s)
    ensures forall i :: 0 <= i < |s.segments| ==> Fits(s.segments[i].control)
  {
  }

  /**
   No CHECK fails: an appender's batch fits its reserved bytes, whoever leaves was counted, the
   segment the io thread frees is its own, and the segment being opened is free.
  */
  lemma ChecksHold(n: nat, size: nat, states: seq<State>, steps: seq<Step>, k: nat)
    requires IsRun(n, size, states, steps) && k < |states|
    ensures Shape(states[k])
    ensures forall id :: id in states[k].writers ==>
              if states[k].writers[id].filled then CanExit(states[k], id) else CanFill(states[k], id)
    ensures states[k].ioPc.Appended? ==> states[k].segments[states[k].io].control.state == Io
    ensures states[k].opener.Starting? ==> states[k].segments[states[k].current].control.state == Free
  {
    hide IsRun, LivesOk, DeadsOk, WritersOk, Counts, FrameAll, SizeOf, CanExit, CanFill;
    var s := states[k];
    RunHolds(n, size, states, steps, k);
    forall id | id in s.writers ensures if s.writers[id].filled then CanExit(s, id) else CanFill(s, id) {
      AppenderCanGoOn(s, id);
    }
    if s.opener.Starting? { StartingIsFree(s); }
  }

  lemma AppenderCanGoOn(s: State, id: nat)
    requires Laps(s) && LivesOk(s) && WritersOk(s) && Counts(s) && id in s.writers
    ensures if s.writers[id].filled then CanExit(s, id) else CanFill(s, id)
  {
    hide FrameAll, SizeOf, SlotIndex, Ordered, Buffered;
    FillWritesLog(s, id);
    assert id in Inside(s.writers, s.writers[id].index);
  }

  lemma StartingIsFree(s: State)
    requires Laps(s) && Indexes(s) && DeadsOk(s) && s.opener.Starting?
    ensures s.segments[s.current].control.state == Free
  {
    StartingIsDead(s);
    assert DeadOk(s, s.current);
  }

  // ----- The log -----

  /** Every reservation takes the next LSNs, and nothing else moves the end of the log: the ranges tile it. */
  lemma ReservationsTile(n: nat, size: nat, states: seq<State>, steps: seq<Step>, k: nat)
    requires IsRun(n, size, states, steps) && k < |steps|
    ensures var s, s' := states[k], states[k + 1];
            match steps[k]
            case Reserve(id, i, records) =>
              && i < |s.segments| && id in s'.writers && s'.writers[id].index == i
              && s.segments[i].start + s'.writers[id].offset == SizeOf(s.records)
              && s'.writers[id].offset + SizeOf(records) <= size
              && SizeOf(s'.records) == SizeOf(s.records) + SizeOf(records)
            case _ => s'.records == s.records
  {
    RunHolds(n, size, states, steps, k);
    RunSize(n, size, states, steps, k);
    if steps[k].Reserve? {
      var s, step := states[k], steps[k];
      hide IsRun, LivesOk, DeadsOk, WritersOk, Counts, FileOk, FrameAll, SizeOf;
      ReserveTakesEnd(s, step.index, SizeOf(step.records));
      FrameAllSize(s.records, 0);
      SizeOfConcat(s.records, step.records);
    }
  }

  lemma {:induction false} SizeOfConcat(a: seq<Bytes>, b: seq<Bytes>)
    ensures SizeOf(a + b) == SizeOf(a) + SizeOf(b)
  {
    if a == [] {
      assert a + b == b;
    } else {
      assert (a + b)[1..] == a[1..] + b;
      SizeOfConcat(a[1..], b);
    }
  }

  lemma {:induction false} RunSize(n: nat, size: nat, states: seq<State>, steps: seq<Step>, k: nat)
    requires IsRun(n, size, states, steps) && k < |states|
    ensures states[k].size == size
  {
    if k > 0 { RunSize(n, size, states, steps, k - 1); }
  }

  /** The file is a beginning of the serialized log, in LSN order, and the persistent LSN lies within it. */
  lemma FileIsPrefix(n: nat, size: nat, states: seq<State>, steps: seq<Step>, k: nat)
    requires IsRun(n, size, states, steps) && k < |states|
    ensures states[k].file <= FrameAll(states[k].records, 0)
    ensures states[k].persistent <= |states[k].file|
    ensures Framable(states[k].records)
  {
    hide IsRun, LivesOk, DeadsOk, WritersOk, Counts, FrameAll;
    RunHolds(n, size, states, steps, k);
    if states[k].ioPc.Appended? { IoLapEnd(states[k]); }
  }

  lemma IoLapEnd(s: State)
    requires Laps(s) && Live(s, s.freed)
    ensures End(s, s.freed) <= |s.hist|
  {
  }

  /** Whatever beginning of the file survives, the reader finds exactly the records that lie whole in it. */
  lemma CrashRead(n: nat, size: nat, states: seq<State>, steps: seq<Step>, k: nat, cut: nat)
    requires IsRun(n, size, states, steps) && k < |states| && cut <= |states[k].file|
    ensures ReadAll(states[k].file[..cut]) == Whole(states[k].records, 0, cut)
  {
    hide IsRun, FrameAll, ReadAll, Whole, Framable;
    FileIsPrefix(n, size, states, steps, k);
    var all := FrameAll(states[k].records, 0);
    assert states[k].file[..cut] == all[..cut];
    TornTail(states[k].records, 0, cut);
  }

  /** Records and file only grow, at their ends. */
  lemma {:induction false} LogOnlyGrows(n: nat, size: nat, states: seq<State>, steps: seq<Step>, i: nat, k: nat)
    requires IsRun(n, size, states, steps) && i <= k < |states|
    ensures states[i].records <= states[k].records && states[i].file <= states[k].file
    decreases k
  {
    if i < k {
      hide Apply, Enabled, Init;
      LogOnlyGrows(n, size, states, steps, i, k - 1);
      StepGrows(states[k - 1], steps[k - 1]);
    }
  }

  lemma StepGrows(s: State, step: Step)
    requires Enabled(s, step)
    ensures s.records <= Apply(s, step).records && s.file <= Apply(s, step).file
  {
    hide FrameAll, SizeOf;
  }

  /**
   Durability: a record whose end LSN the persistent LSN had reached in some state is read back
   after any crash from then on, with its data and its LSN, from any cut of the file at or after
   that persistent LSN.
  */
  lemma DurableRecord(
    n: nat, size: nat, states: seq<State>, steps: seq<Step>, i: nat, k: nat, cut: nat, r: nat)
    requires IsRun(n, size, states, steps) && i <= k < |states|
    requires states[i].persistent <= cut <= |states[k].file|
    requires r < |states[i].records| && SizeOf(states[i].records[..r + 1]) <= states[i].persistent
    requires forall m :: 0 <= m <= r ==> states[i].records[m] != []
    ensures states[i].persistent <= |states[k].file| && r < |ReadAll(states[k].file[..cut])|
    ensures ReadAll(states[k].file[..cut])[r]
            == Entry(SizeOf(states[i].records[..r]) % LogRecords.TWO64, states[i].records[r])
  {
    hide IsRun, FrameAll, ReadAll, Whole;
    CrashRead(n, size, states, steps, k, cut);
    LogOnlyGrows(n, size, states, steps, i, k);
    var was, records := states[i].records, states[k].records;
    assert records[..r + 1] == was[..r + 1] && records[..r] == was[..r];
    WholeReaches(records, 0, cut, r);
    WholeEntries(records, 0, cut, r);
  }

  /** What the io thread publishes after a flush is the whole file exactly if the next start LSN is already set. */
  lemma PersistExact(n: nat, size: nat, states: seq<State>, steps: seq<Step>, k: nat)
    requires IsRun(n, size, states, steps) && k < |steps| && steps[k] == Persist
    ensures states[k + 1].persistent <= |states[k + 1].file|
    ensures states[k + 1].persistent == |states[k + 1].file| <==>
              states[k].freed < |states[k].starts| || states[k].opener.Starting?
  {
    RunHolds(n, size, states, steps, k);
    hide LivesOk, DeadsOk, WritersOk, Counts, FileOk, FrameAll, Laps;
    PersistValue(states[k]);
  }

  // ----- Moving the segment index on -----

  /** One round of the loop in AdvanceSegmentIndex_: the shared index, the local copy, and whether to go round again. */
  function IndexRound(index: nat, current: nat, n: nat): (nat, nat, bool)
    requires n > 0
  {
    if index == current then ((current + 1) % n, current, true) else (index, index, false)
  }

  /** With two segments or more the second round fails and ends the loop: one increment. */
  method AdvanceSegmentIndex(index: nat, n: nat) returns (now: nat)
    requires n >= 2 && index < n
    ensures now == (index + 1) % n && now != index && now < n
  {
    Remainder(index + 1, n, if index + 1 < n then 0 else 1, if index + 1 < n then index + 1 else 0);
    now := index;
    var current, again := index, true;
    while again
      invariant now == index || now == (index + 1) % n
      invariant if again then current == index else now == (index + 1) % n
      decreases again, now == index
    {
      var round := IndexRound(now, current, n);
      now, current, again := round.0, round.1, round.2;
    }
  }

  /** With a single segment every round succeeds and the loop never ends. */
  lemma OneSegmentSpins()
    ensures IndexRound(0, 0, 1) == (0, 0, true)
  {
  }
}
