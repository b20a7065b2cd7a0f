/** What an appender asks for and gets: its records, in order, at the LSNs it was told, and room for them. */
module LogStoreAppend {
  import opened Common
  import opened LogRecords
  import opened LogSegments
  import opened LogStore
  import opened LogStoreInv
  import opened LogStoreSteps
  import opened LogStoreTheorems

  // ----- The log is what was appended -----

  /** The batches of the first `n` steps, one after the other. */
  function Requested(steps: seq<Step>, n: nat): seq<Bytes>
    requires n <= |steps|
  {
    if n == 0 then []
    else Requested(steps, n - 1) + (if steps[n - 1].Reserve? then steps[n - 1].records else [])
  }

  /** The records of the log are those of the appenders, batch by batch in the order of their reservations. */
  lemma {:induction false} RecordsAreRequests(n: nat, size: nat, states: seq<State>, steps: seq<Step>, k: nat)
    requires IsRun(n, size, states, steps) && k < |states|
    ensures states[k].records == Requested(steps, k)
    decreases k
  {
    if k > 0 {
      RecordsAreRequests(n, size, states, steps, k - 1);
      StepRecords(states[k - 1], steps[k - 1]);
    }
  }

  lemma StepRecords(s: State, step: Step)
    requires Enabled(s, step)
    ensures Apply(s, step).records == s.records + (if step.Reserve? then step.records else [])
  {
    hide FrameAll, SizeOf;
  }

  /** The LSN at which a reservation starts: the reserved offset, counted from the segment's start LSN. */
  function FirstLsn(s: State, step: Step): nat
    requires step.Reserve? && step.index < |s.segments|
  {
    s.segments[step.index].start + s.segments[step.index].control.offset
  }

  /** Record `m` of the batch of step `a` lies in every later log where its appender was told. */
  lemma BatchInLog(n: nat, size: nat, states: seq<State>, steps: seq<Step>, a: nat, i: nat, m: nat)
    requires IsRun(n, size, states, steps) && a < i < |states| && steps[a].Reserve? && m < |steps[a].records|
    ensures steps[a].index < |states[a].segments|
    ensures var batch, all, r := steps[a].records, states[i].records, |states[a].records| + m;
            && r < |all| && all[r] == batch[m]
            && SizeOf(all[..r]) == FirstLsn(states[a], steps[a]) + SizeOf(batch[..m])
            && SizeOf(all[..r + 1]) == FirstLsn(states[a], steps[a]) + SizeOf(batch[..m + 1])
  {
    ReservationsTile(n, size, states, steps, a);
    RunStep(n, size, states, steps, a);
    hide IsRun, SizeOf, Enabled, Apply;
    StepRecords(states[a], steps[a]);
    ReservedAtOffset(states[a], steps[a]);
    LogOnlyGrows(n, size, states, steps, a + 1, i);
    BatchPart(states[a].records, steps[a].records, states[i].records, m);
  }

  lemma RunStep(n: nat, size: nat, states: seq<State>, steps: seq<Step>, a: nat)
    requires IsRun(n, size, states, steps) && a < |steps|
    ensures |states| == |steps| + 1 && Enabled(states[a], steps[a]) && states[a + 1] == Apply(states[a], steps[a])
  {
    hide Enabled, Apply;
  }

  lemma BatchPart(before: seq<Bytes>, batch: seq<Bytes>, all: seq<Bytes>, m: nat)
    requires before + batch <= all && m < |batch|
    ensures var r := |before| + m;
            && all[r] == batch[m]
            && SizeOf(all[..r]) == SizeOf(before) + SizeOf(batch[..m])
            && SizeOf(all[..r + 1]) == SizeOf(before) + SizeOf(batch[..m + 1])
  {
    hide SizeOf;
    var r := |before| + m;
    assert all[..r] == before + batch[..m] && all[..r + 1] == before + batch[..m + 1];
    SizeOfConcat(before, batch[..m]);
    SizeOfConcat(before, batch[..m + 1]);
  }

  /**
   AppendLogRecord tells the start and end LSN of every record of its batch, counted on from the
   first LSN of its reservation. Once the persistent LSN has reached the end LSN of record `m`,
   every later crash leaves that record to be read, with its data, at that start LSN.
  */
  lemma AppendedIsRead(
    n: nat, size: nat, states: seq<State>, steps: seq<Step>, a: nat, i: nat, k: nat, cut: nat, m: nat)
    requires IsRun(n, size, states, steps) && a < i <= k < |states| && steps[a].Reserve? && m < |steps[a].records|
    requires steps[a].index < |states[a].segments|
    requires FirstLsn(states[a], steps[a]) + SizeOf(steps[a].records[..m + 1]) <= states[i].persistent
    requires states[i].persistent <= cut <= |states[k].file|
    requires forall x :: 0 <= x < |states[i].records| && x <= |states[a].records| + m ==> states[i].records[x] != []
    ensures var r, read := |states[a].records| + m, ReadAll(states[k].file[..cut]);
            && r < |read|
            && read[r] == Entry((FirstLsn(states[a], steps[a]) + SizeOf(steps[a].records[..m])) % LogRecords.TWO64,
                                steps[a].records[m])
  {
    hide IsRun, SizeOf, ReadAll, FirstLsn;
    BatchInLog(n, size, states, steps, a, i, m);
    DurableRecord(n, size, states, steps, i, k, cut, |states[a].records| + m);
  }

  lemma ReservedAtOffset(s: State, step: Step)
    requires Enabled(s, step) && step.Reserve?
    ensures step.id in Apply(s, step).writers
    ensures Apply(s, step).writers[step.id].offset == s.segments[step.index].control.offset
  {
    hide FrameAll, SizeOf;
  }

  // ----- Room -----

  /**
   The reply to an appender, in any reachable state: it may start exactly if the segment is open, a
   writer is to spare and the batch fits. Told to seal, it can, exactly if the segment is
   not empty; so a batch that fits an empty segment never waits on a full one.
  */
  lemma ReplyMeans(
    n: nat, size: nat, states: seq<State>, steps: seq<Step>, k: nat, id: nat, i: nat, records: seq<Bytes>)
    requires IsRun(n, size, states, steps) && k < |states|
    requires id !in states[k].writers && i < |states[k].segments| && Framable(records)
    ensures var s, seg := states[k], states[k].segments[i];
            var reply := TryReserve(seg, SizeOf(records));
            && (CanReserve(s, id, i, records) <==>
                  seg.control.state == Open && seg.control.writers < MAX_WRITERS
                  && seg.control.offset + SizeOf(records) <= size)
            && (reply.shouldSeal ==> (CanSeal(s, i) <==> seg.control.offset > 0))
            && (reply.shouldSeal && SizeOf(records) <= size ==> CanSeal(s, i))
  {
    RunHolds(n, size, states, steps, k);
    RunSize(n, size, states, steps, k);
    hide IsRun, LivesOk, DeadsOk, WritersOk, Counts, FileOk, FrameAll, SizeOf;
  }

  /**
   A batch longer than a segment is never accepted by any segment in any state, and an open empty
   segment tells its appender to seal what cannot be sealed: the appender tries for ever.
  */
  lemma OversizeNeverFits(
    n: nat, size: nat, states: seq<State>, steps: seq<Step>, k: nat, id: nat, i: nat, records: seq<Bytes>)
    requires IsRun(n, size, states, steps) && k < |states| && i < |states[k].segments| && SizeOf(records) > size
    ensures !CanReserve(states[k], id, i, records)
    ensures states[k].segments[i].control.state == Open && states[k].segments[i].control.offset == 0 ==>
              TryReserve(states[k].segments[i], SizeOf(records)).shouldSeal && !CanSeal(states[k], i)
  {
    RunHolds(n, size, states, steps, k);
    RunSize(n, size, states, steps, k);
    hide IsRun, LivesOk, DeadsOk, WritersOk, Counts, FileOk, FrameAll, SizeOf;
  }
}
