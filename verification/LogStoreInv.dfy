/** What every step of the log store keeps. */
module LogStoreInv {
  import opened Common
  import opened LogRecords
  import opened LogSegments
  import opened LogStore

  // ----- The segments in use, by lap -----

  predicate Live(s: State, j: nat) {
    s.freed <= j < |s.starts|
  }

  function SegmentOf(s: State, j: nat): Segment
    requires Shape(s)
  {
    s.segments[SlotIndex(j, |s.segments|)]
  }

  /** Where the bytes of lap `j` end in the log. */
  function End(s: State, j: nat): nat
    requires j < |s.starts|
  {
    if j + 1 < |s.starts| then s.starts[j + 1] else |s.hist|
  }

  /** Where the bytes not yet released begin. */
  function Head(s: State): nat {
    if s.freed < |s.starts| then s.starts[s.freed] else |s.hist|
  }

  predicate Ordered(starts: seq<nat>) {
    forall i, j :: 0 <= i < j < |starts| ==> starts[i] < starts[j]
  }

  predicate Within(starts: seq<nat>, limit: nat) {
    forall j :: 0 <= j < |starts| ==> starts[j] <= limit
  }

  /** The LSN ranges of the laps tile the log, and fewer laps than segments are in use. */
  ghost predicate Laps(s: State) {
    && Shape(s) && s.starts[0] == 0 && Ordered(s.starts) && Within(s.starts, |s.hist|)
    && s.freed <= |s.starts| <= s.freed + |s.segments|
    && (s.opener.NoOpener? ==> s.freed < |s.starts|)
    && (!s.opener.NoOpener? ==> s.opener.lsn == |s.hist| && s.starts[|s.starts| - 1] < |s.hist|)
    && (s.opener.Starting? ==> |s.starts| < s.freed + |s.segments| && s.segments[s.current].start == s.opener.lsn)
  }

  ghost predicate Indexes(s: State) {
    && Shape(s)
    && s.io == SlotIndex(s.freed, |s.segments|)
    && s.current == SlotIndex(if s.opener.NoOpener? || s.opener.Advancing? then |s.starts| - 1 else |s.starts|,
                              |s.segments|)
  }

  /** A byte of lap `j` that some appender has reserved and not yet filled. */
  ghost predicate Pending(writers: map<nat, Writer>, j: nat, p: nat) {
    exists id :: id in writers && Owes(writers[id], j, p)
  }

  predicate Owes(w: Writer, j: nat, p: nat) {
    w.lap == j && !w.filled && w.offset <= p < w.offset + SizeOf(w.records)
  }

  /** Every byte of the lap is in the buffer, or some appender still owes it. */
  ghost predicate Buffered(s: State, j: nat)
    requires Laps(s) && Live(s, j)
  {
    forall p :: 0 <= p < End(s, j) - s.starts[j] && p < s.size ==>
      SegmentOf(s, j).buffer[p] == s.hist[s.starts[j] + p] || Pending(s.writers, j, p)
  }

  /** The last lap is open until somebody seals it to open another. */
  predicate IsOpenLap(s: State, j: nat) {
    j == |s.starts| - 1 && s.opener.NoOpener?
  }

  ghost predicate LiveOk(s: State, j: nat)
    requires Laps(s) && Live(s, j)
  {
    var seg := SegmentOf(s, j);
    && seg.start == s.starts[j]
    && seg.control.offset == End(s, j) - s.starts[j] <= s.size
    && (if IsOpenLap(s, j) then seg.control.state == Open
        else seg.control.state == (if seg.control.writers == 0 then Io else Seal)
             && seg.validSize == seg.control.offset)
    && Buffered(s, j)
  }

  ghost predicate LivesOk(s: State)
    requires Laps(s)
  {
    forall j: nat :: Live(s, j) ==> LiveOk(s, j)
  }

  ghost predicate Dead(s: State, i: nat)
    requires Shape(s)
  {
    forall j: nat :: Live(s, j) ==> SlotIndex(j, |s.segments|) != i
  }

  /** A segment out of use is free; its start LSN is left over from an earlier lap unless it is being opened. */
  ghost predicate DeadOk(s: State, i: nat)
    requires Laps(s) && i < |s.segments|
  {
    && s.segments[i].control.state == Free
    && (s.segments[i].start <= (if s.freed == 0 then 0 else s.starts[s.freed - 1])
        || (s.opener.Starting? && i == s.current))
  }

  ghost predicate DeadsOk(s: State)
    requires Laps(s)
  {
    forall i :: 0 <= i < |s.segments| && Dead(s, i) ==> DeadOk(s, i)
  }

  /** An appender's reserved bytes are its batch, at its place in the log. */
  ghost predicate WriterOk(s: State, w: Writer)
    requires Laps(s)
  {
    && Live(s, w.lap) && w.index == SlotIndex(w.lap, |s.segments|)
    && var seg := s.segments[w.index];
       && w.offset + SizeOf(w.records) <= seg.control.offset
       && (seg.control.state == Open || seg.control.state == Seal)
       && s.starts[w.lap] + w.offset + SizeOf(w.records) <= |s.hist|
       && s.hist[s.starts[w.lap] + w.offset..s.starts[w.lap] + w.offset + SizeOf(w.records)]
          == FrameAll(w.records, s.starts[w.lap] + w.offset)
  }

  ghost predicate WritersOk(s: State)
    requires Laps(s)
  {
    forall id :: id in s.writers ==> WriterOk(s, s.writers[id])
  }

  function Inside(writers: map<nat, Writer>, i: nat): set<nat> {
    set id | id in writers && writers[id].index == i
  }

  /** The writer count of a segment is the number of appenders inside it. */
  ghost predicate Counts(s: State)
    requires Shape(s)
  {
    forall i :: 0 <= i < |s.segments| ==>
      s.segments[i].control.writers == |Inside(s.writers, i)| <= MAX_WRITERS && s.segments[i].control.offset <= s.size
  }

  /** The file is a beginning of the log, cut where a segment ends. */
  ghost predicate FileOk(s: State)
    requires Laps(s)
  {
    && (s.ioPc.Appended? ==> Live(s, s.freed) && s.segments[s.io].control.state == Io)
    && (var upto := if s.ioPc.Appended? then End(s, s.freed) else Head(s); s.file == s.hist[..upto])
    && s.persistent <= |s.file|
  }

  ghost predicate Inv(s: State) {
    && Laps(s) && Indexes(s) && LivesOk(s) && DeadsOk(s) && WritersOk(s) && Counts(s) && FileOk(s)
    && s.hist == FrameAll(s.records, 0) && Framable(s.records)
  }

  // ----- Finding laps -----

  lemma SameLap(s: State, j: nat, l: nat)
    requires Laps(s) && Live(s, j) && Live(s, l) && SlotIndex(j, |s.segments|) == SlotIndex(l, |s.segments|)
    ensures j == l
  {
    var n: nat := |s.segments|;
    if j <= l { SameIndex(j, l, n); } else { SameIndex(l, j, n); }
  }

  /** A segment that is not free is in use. */
  lemma InUse(s: State, i: nat) returns (j: nat)
    requires Laps(s) && DeadsOk(s) && i < |s.segments| && s.segments[i].control.state != Free
    ensures Live(s, j) && SlotIndex(j, |s.segments|) == i
  {
    hide SlotIndex;
    assert !Dead(s, i);
    j :| Live(s, j) && SlotIndex(j, |s.segments|) == i;
  }

  /** At most one segment is open: the last lap's, while nobody is opening another. */
  lemma OpenIsLast(s: State, i: nat)
    requires Laps(s) && LivesOk(s) && DeadsOk(s) && i < |s.segments| && s.segments[i].control.state == Open
    ensures s.opener.NoOpener? && i == SlotIndex(|s.starts| - 1, |s.segments|) && Live(s, |s.starts| - 1)
  {
    hide SlotIndex, Buffered;
    var j := InUse(s, i);
    assert LiveOk(s, j);
  }

  lemma Nobody(s: State, i: nat)
    requires Shape(s) && Counts(s) && i < |s.segments| && s.segments[i].control.writers == 0
    ensures forall id :: id in s.writers ==> s.writers[id].index != i
  {
    assert Inside(s.writers, i) == {};
    forall id | id in s.writers ensures s.writers[id].index != i { assert id !in Inside(s.writers, i); }
  }
}
