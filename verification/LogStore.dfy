/**
 The log store as a step machine: appenders that reserve, fill and leave a segment, sealers that
 open the next one, and the io thread that appends full segments to the file.
*/
module LogStore {
  import opened Common
  import opened LogRecords
  import opened LogSegments

  /** An appender between its reservation and its exit. `lap` counts segments from the first one opened. */
  datatype Writer = Writer(lap: nat, index: nat, offset: nat, records: seq<Bytes>, filled: bool)

  /** Where the thread that sealed the last segment is in OpenNewLogSegment_. */
  datatype Opener =
    | NoOpener
    | Advancing(lsn: nat)    // sealed; the index is about to move on
    | Waiting(lsn: nat)      // until the next segment is free
    | Starting(lsn: nat)     // its start LSN is set, its state not yet

  /** Where the io thread is in ThreadJob_. */
  datatype IoPc = Watching | Appended | Released

  /**
   `records`, `hist`, `starts` and `freed` are for the statements: all records appended in LSN
   order, their serialization, the start LSN of every segment opened, and how many were freed.
  */
  datatype State = State(
    size: nat,
    segments: seq<Segment>,
    current: nat,
    writers: map<nat, Writer>,
    opener: Opener,
    io: nat,
    ioPc: IoPc,
    file: Bytes,
    persistent: nat,
    records: seq<Bytes>,
    hist: Bytes,
    starts: seq<nat>,
    freed: nat)

  function NewSegment(size: nat): Segment {
    Segment(Control(Free, 0, 0), 0, 0, seq(size, _ => 0))
  }

  function Init(n: nat, size: nat): State
    requires n >= 2
  {
    State(size, seq(n, _ => NewSegment(size))[0 := Opened(NewSegment(size), 0)], 0, map[], NoOpener,
          0, Watching, [], 0, [], [], [0], 0)
  }

  predicate Shape(s: State) {
    && 2 <= |s.segments| && s.size < TWO48 && s.starts != []
    && s.current < |s.segments| && s.io < |s.segments|
    && (forall i :: 0 <= i < |s.segments| ==> |s.segments[i].buffer| == s.size)
    && (forall id :: id in s.writers ==> s.writers[id].index < |s.segments|)
  }

  datatype Step =
    | Reserve(id: nat, index: nat, records: seq<Bytes>)
    | Fill(id: nat)
    | Exit(id: nat)
    | SealAt(index: nat)
    | Advance
    | SetStart
    | OpenNext
    | Append
    | Release
    | Persist

  // ----- The steps -----

  predicate CanReserve(s: State, id: nat, i: nat, records: seq<Bytes>) {
    Shape(s) && id !in s.writers && i < |s.segments| && Framable(records)
    && TryReserve(s.segments[i], SizeOf(records)).succeed
  }

  /** TryReserveLogBuffer succeeds. */
  function DoReserve(s: State, id: nat, i: nat, records: seq<Bytes>): State
    requires CanReserve(s, id, i, records)
  {
    var seg := s.segments[i];
    s.(segments := s.segments[i := Reserved(seg, SizeOf(records))],
       writers := s.writers[id := Writer(|s.starts| - 1, i, seg.control.offset, records, false)],
       records := s.records + records,
       hist := s.hist + FrameAll(records, |s.hist|))
  }

  /** `bytes` written into `buffer` at `at`. */
  function Overwrite(buffer: Bytes, at: nat, bytes: Bytes): (r: Bytes)
    requires at + |bytes| <= |buffer|
    ensures |r| == |buffer|
    ensures forall p :: 0 <= p < |r| ==> r[p] == if at <= p < at + |bytes| then bytes[p - at] else buffer[p]
  {
    buffer[..at] + bytes + buffer[at + |bytes|..]
  }

  predicate CanFill(s: State, id: nat) {
    Shape(s) && id in s.writers && !s.writers[id].filled
    && var w := s.writers[id];
       w.offset + |FrameAll(w.records, s.segments[w.index].start + w.offset)| <= s.size
  }

  /** Serialize the batch into the reserved bytes, with LSNs from the segment's start. */
  function DoFill(s: State, id: nat): State
    requires CanFill(s, id)
  {
    var w := s.writers[id];
    var seg := s.segments[w.index];
    s.(segments := s.segments[w.index := seg.(buffer :=
           Overwrite(seg.buffer, w.offset, FrameAll(w.records, seg.start + w.offset)))],
       writers := s.writers[id := w.(filled := true)])
  }

  predicate CanExit(s: State, id: nat) {
    Shape(s) && id in s.writers && s.writers[id].filled && s.segments[s.writers[id].index].control.writers > 0
  }

  function DoExit(s: State, id: nat): State
    requires CanExit(s, id)
  {
    var i := s.writers[id].index;
    s.(segments := s.segments[i := Exited(s.segments[i])], writers := s.writers - {id})
  }

  predicate CanSeal(s: State, i: nat) {
    Shape(s) && i < |s.segments| && Sealable(s.segments[i])
  }

  /** TrySealLogSegment, by an appender that found no room or by the io thread. */
  function DoSeal(s: State, i: nat): State
    requires CanSeal(s, i)
  {
    var seg := s.segments[i];
    s.(segments := s.segments[i := Sealed(seg)], opener := Advancing(seg.start + seg.control.offset))
  }

  predicate CanAdvance(s: State) {
    Shape(s) && s.opener.Advancing?
  }

  function DoAdvance(s: State): State
    requires CanAdvance(s)
  {
    s.(current := (s.current + 1) % |s.segments|, opener := Waiting(s.opener.lsn))
  }

  predicate CanSetStart(s: State) {
    Shape(s) && s.opener.Waiting? && s.segments[s.current].control.state == Free
  }

  function DoSetStart(s: State): State
    requires CanSetStart(s)
  {
    s.(segments := s.segments[s.current := s.segments[s.current].(start := s.opener.lsn)],
       opener := Starting(s.opener.lsn))
  }

  predicate CanOpenNext(s: State) {
    Shape(s) && s.opener.Starting?
  }

  function DoOpenNext(s: State): State
    requires CanOpenNext(s)
  {
    s.(segments := s.segments[s.current := Opened(s.segments[s.current], s.opener.lsn)],
       opener := NoOpener,
       starts := s.starts + [s.opener.lsn])
  }

  predicate CanAppend(s: State) {
    Shape(s) && s.ioPc == Watching && s.segments[s.io].control.state == Io
    && s.segments[s.io].validSize <= s.size
  }

  /** The io thread appends the segment's valid bytes to the file. */
  function DoAppend(s: State): State
    requires CanAppend(s)
  {
    var seg := s.segments[s.io];
    s.(file := s.file + seg.buffer[..seg.validSize], ioPc := Appended)
  }

  predicate CanRelease(s: State) {
    Shape(s) && s.ioPc == Appended
  }

  function DoRelease(s: State): State
    requires CanRelease(s)
  {
    s.(segments := s.segments[s.io := Freed(s.segments[s.io])],
       io := (s.io + 1) % |s.segments|,
       ioPc := Released,
       freed := s.freed + 1)
  }

  predicate CanPersist(s: State) {
    Shape(s) && s.ioPc == Released
  }

  /** The persistent LSN becomes the next segment's start LSN, whether or not that has been set yet. */
  function DoPersist(s: State): State
    requires CanPersist(s)
  {
    s.(persistent := s.segments[s.io].start, ioPc := Watching)
  }

  predicate Enabled(s: State, step: Step) {
    match step
    case Reserve(id, i, records) => CanReserve(s, id, i, records)
    case Fill(id) => CanFill(s, id)
    case Exit(id) => CanExit(s, id)
    case SealAt(i) => CanSeal(s, i)
    case Advance => CanAdvance(s)
    case SetStart => CanSetStart(s)
    case OpenNext => CanOpenNext(s)
    case Append => CanAppend(s)
    case Release => CanRelease(s)
    case Persist => CanPersist(s)
  }

  function Apply(s: State, step: Step): State
    requires Enabled(s, step)
  {
    match step
    case Reserve(id, i, records) => DoReserve(s, id, i, records)
    case Fill(id) => DoFill(s, id)
    case Exit(id) => DoExit(s, id)
    case SealAt(i) => DoSeal(s, i)
    case Advance => DoAdvance(s)
    case SetStart => DoSetStart(s)
    case OpenNext => DoOpenNext(s)
    case Append => DoAppend(s)
    case Release => DoRelease(s)
    case Persist => DoPersist(s)
  }

  ghost predicate IsRun(n: nat, size: nat, states: seq<State>, steps: seq<Step>) {
    && 2 <= n && size < TWO48
    && |states| == |steps| + 1
    && states[0] == Init(n, size)
    && forall i :: 0 <= i < |steps| ==> Enabled(states[i], steps[i]) && states[i + 1] == Apply(states[i], steps[i])
  }
}
