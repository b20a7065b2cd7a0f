/** Every step of the log store keeps its invariant. */
module LogStoreSteps {
  import opened Common
  import opened LogRecords
  import opened LogSegments
  import opened LogStore
  import opened LogStoreInv

  // ----- Frames: one lap, one appender, one free segment -----

  /** The log only gains bytes at its end. */
  ghost predicate Extends(s: State, s': State) {
    |s.hist| <= |s'.hist| && s'.hist[..|s.hist|] == s.hist
  }

  lemma LiveFrame(s: State, s': State, j: nat)
    requires Laps(s) && Laps(s') && Live(s, j) && Live(s', j) && LiveOk(s, j) && Extends(s, s')
    requires s'.size == s.size && s'.starts[j] == s.starts[j] && End(s', j) == End(s, j)
    requires SegmentOf(s', j) == SegmentOf(s, j) && IsOpenLap(s', j) == IsOpenLap(s, j)
    requires forall p :: Pending(s.writers, j, p) ==> Pending(s'.writers, j, p)
    ensures LiveOk(s', j)
  {
    hide SlotIndex, Ordered, Pending;
    forall p | 0 <= p < End(s', j) - s'.starts[j] && p < s'.size
      ensures SegmentOf(s', j).buffer[p] == s'.hist[s'.starts[j] + p] || Pending(s'.writers, j, p)
    {
      assert s'.hist[..|s.hist|][s.starts[j] + p] == s.hist[s.starts[j] + p];
    }
  }

  lemma WriterFrame(s: State, s': State, w: Writer, w': Writer)
    requires Laps(s) && Laps(s') && WriterOk(s, w) && Extends(s, s')
    requires w' == w.(filled := w'.filled)
    requires Live(s', w.lap) && s'.starts[w.lap] == s.starts[w.lap] && |s'.segments| == |s.segments|
    requires var c, c' := s.segments[w.index].control, s'.segments[w.index].control;
             c.offset <= c'.offset && (c'.state == Open || c'.state == Seal)
    ensures WriterOk(s', w')
  {
    hide SlotIndex, Ordered, FrameAll, SizeOf;
    var from, to := s.starts[w.lap] + w.offset, s.starts[w.lap] + w.offset + SizeOf(w.records);
    SliceOfPrefix(s'.hist, |s.hist|, from, to);
  }

  lemma SliceOfPrefix(bytes: Bytes, n: nat, from: nat, to: nat)
    requires from <= to <= n <= |bytes|
    ensures bytes[..n][from..to] == bytes[from..to]
  {
  }

  // ----- Steps that leave the segments alone -----

  ghost predicate SameSegments(s: State, s': State) {
    && s'.size == s.size && s'.segments == s.segments && s'.writers == s.writers
    && s'.hist == s.hist && s'.starts == s.starts && s'.freed == s.freed
    && s'.opener.NoOpener? == s.opener.NoOpener? && s'.opener.Starting? == s.opener.Starting?
    && (s.opener.Starting? ==> s'.current == s.current)
  }

  lemma SameSegmentsLives(s: State, s': State)
    requires Laps(s) && Laps(s') && LivesOk(s) && SameSegments(s, s')
    ensures LivesOk(s')
  {
    hide SlotIndex, Ordered, FrameAll, SizeOf, Shape, Pending;
    forall j: nat | Live(s', j) ensures LiveOk(s', j) {
      assert LiveOk(s, j);
      LiveFrame(s, s', j);
    }
  }

  lemma SameSegmentsDeads(s: State, s': State)
    requires Laps(s) && Laps(s') && DeadsOk(s) && SameSegments(s, s')
    ensures DeadsOk(s')
  {
    hide SlotIndex, Ordered, Shape;
    forall i | 0 <= i < |s'.segments| && Dead(s', i) ensures DeadOk(s', i) {
      assert Dead(s, i);
      assert DeadOk(s, i);
    }
  }

  lemma SameSegmentsWriters(s: State, s': State)
    requires Laps(s) && Laps(s') && WritersOk(s) && Counts(s) && SameSegments(s, s')
    ensures WritersOk(s') && Counts(s')
  {
    hide SlotIndex, Ordered, FrameAll, SizeOf, Shape;
    forall id | id in s'.writers ensures WriterOk(s', s'.writers[id]) { assert WriterOk(s, s.writers[id]); }
  }

  lemma SameSegmentsKeep(s: State, s': State)
    requires Laps(s) && Laps(s') && LivesOk(s) && DeadsOk(s) && WritersOk(s) && Counts(s) && SameSegments(s, s')
    ensures LivesOk(s') && DeadsOk(s') && WritersOk(s') && Counts(s')
  {
    hide LivesOk, DeadsOk, WritersOk, Counts, Laps, SameSegments;
    SameSegmentsLives(s, s');
    SameSegmentsDeads(s, s');
    SameSegmentsWriters(s, s');
  }

  lemma AdvanceFrame(s: State, s': State)
    requires Laps(s) && Indexes(s) && CanAdvance(s) && s' == DoAdvance(s)
    ensures Laps(s') && Indexes(s') && SameSegments(s, s')
  {
    NextIndex(|s.starts| - 1, |s.segments|);
  }

  lemma AdvanceKeeps(s: State)
    requires Inv(s) && CanAdvance(s)
    ensures Inv(DoAdvance(s))
  {
    hide SlotIndex, Ordered, FrameAll, SizeOf, LivesOk, DeadsOk, WritersOk, Counts;
    AdvanceFrame(s, DoAdvance(s));
    SameSegmentsKeep(s, DoAdvance(s));
  }

  /** The io thread's segment, once handed over, is complete and is the next stretch of the log. */
  lemma IoSegmentIsNext(s: State)
    requires Laps(s) && Indexes(s) && LivesOk(s) && DeadsOk(s) && WritersOk(s) && Counts(s)
    requires s.segments[s.io].control.state == Io
    ensures Live(s, s.freed)
    ensures var seg := s.segments[s.io];
            && seg.control.writers == 0 && seg.validSize == End(s, s.freed) - s.starts[s.freed] <= s.size
            && seg.buffer[..seg.validSize] == s.hist[s.starts[s.freed]..End(s, s.freed)]
  {
    hide SlotIndex, Ordered, FrameAll, SizeOf;
    var j := InUse(s, s.io);
    SameLap(s, j, s.freed);
    assert LiveOk(s, s.freed);
    Nobody(s, s.io);
    var seg := s.segments[s.io];
    forall p | 0 <= p < seg.validSize ensures seg.buffer[p] == s.hist[s.starts[s.freed] + p] {
      forall id | id in s.writers ensures s.writers[id].lap != s.freed { assert WriterOk(s, s.writers[id]); }
    }
  }

  lemma AppendKeeps(s: State)
    requires Inv(s) && CanAppend(s)
    ensures Inv(DoAppend(s))
  {
    hide SlotIndex, Ordered, FrameAll, SizeOf, LivesOk, DeadsOk, WritersOk, Counts;
    IoSegmentIsNext(s);
    SameSegmentsKeep(s, DoAppend(s));
    assert s.hist[..s.starts[s.freed]] + s.hist[s.starts[s.freed]..End(s, s.freed)] == s.hist[..End(s, s.freed)];
  }

  /**
   The persistent LSN that is stored: the length of the file if the next segment has its start
   LSN set, and otherwise the start LSN of some earlier lap, which is smaller.
  */
  lemma PersistValue(s: State)
    requires Laps(s) && Indexes(s) && LivesOk(s) && DeadsOk(s) && FileOk(s) && CanPersist(s)
    ensures s.segments[s.io].start <= |s.file|
    ensures s.segments[s.io].start == |s.file| <==> s.freed < |s.starts| || s.opener.Starting?
  {
    hide SlotIndex, Ordered, Buffered;
    if s.freed < |s.starts| {
      assert LiveOk(s, s.freed);
    } else {
      assert Dead(s, s.io);
      assert DeadOk(s, s.io);
    }
  }

  lemma PersistKeeps(s: State)
    requires Inv(s) && CanPersist(s)
    ensures Inv(DoPersist(s))
  {
    hide SlotIndex, Ordered, FrameAll, SizeOf, LivesOk, DeadsOk, WritersOk, Counts;
    PersistValue(s);
    SameSegmentsKeep(s, DoPersist(s));
  }

  // ----- Steps inside one segment in use -----

  /** Only the segment of the lap `l`, its appenders and the opener may change. */
  ghost predicate OnlyLap(s: State, s': State, l: nat)
    requires Laps(s) && Live(s, l) && Laps(s')
  {
    && s'.size == s.size && |s'.segments| == |s.segments| && s'.current == s.current
    && s'.starts == s.starts && s'.freed == s.freed && s'.hist == s.hist
    && (forall k :: 0 <= k < |s.segments| && k != SlotIndex(l, |s.segments|) ==> s'.segments[k] == s.segments[k])
    && s'.opener.Starting? == s.opener.Starting?
    && (s'.opener.NoOpener? == s.opener.NoOpener? || l == |s.starts| - 1)
    && (forall j, p :: j != l && Pending(s.writers, j, p) ==> Pending(s'.writers, j, p))
  }

  lemma OnlyLapLives(s: State, s': State, l: nat)
    requires Laps(s) && Laps(s') && Live(s, l) && OnlyLap(s, s', l)
    requires LivesOk(s) && LiveOk(s', l)
    ensures LivesOk(s')
  {
    hide SlotIndex, Ordered, FrameAll, SizeOf, Shape, Pending;
    forall j: nat | Live(s', j) ensures LiveOk(s', j) {
      if j != l {
        assert LiveOk(s, j);
        if SlotIndex(j, |s.segments|) == SlotIndex(l, |s.segments|) { SameLap(s, j, l); }
        LiveFrame(s, s', j);
      }
    }
  }

  lemma OnlyLapDeads(s: State, s': State, l: nat)
    requires Laps(s) && Laps(s') && Live(s, l) && OnlyLap(s, s', l) && DeadsOk(s)
    ensures DeadsOk(s')
  {
    hide SlotIndex, Ordered, FrameAll, SizeOf, Shape, Pending;
    forall i | 0 <= i < |s'.segments| && Dead(s', i) ensures DeadOk(s', i) {
      assert Live(s', l);
      assert Dead(s, i);
      assert DeadOk(s, i);
    }
  }

  /** Appenders keep their reservations, and those of lap `l` are still let in. */
  ghost predicate Guests(s: State, s': State, l: nat)
    requires Shape(s) && Shape(s')
  {
    && |s'.segments| == |s.segments|
    && (forall id :: id in s'.writers ==>
          id in s.writers && s'.writers[id] == s.writers[id].(filled := s'.writers[id].filled))
    && (var c, c' := SegmentOf(s, l).control, SegmentOf(s', l).control;
        && c.offset <= c'.offset
        && (c'.state == Open || c'.state == Seal
            || forall id :: id in s'.writers ==> s'.writers[id].index != SlotIndex(l, |s.segments|)))
  }

  lemma OnlyLapWriters(s: State, s': State, l: nat)
    requires Laps(s) && Laps(s') && Live(s, l) && OnlyLap(s, s', l) && WritersOk(s) && Guests(s, s', l)
    ensures WritersOk(s')
  {
    hide SlotIndex, Ordered, FrameAll, SizeOf, Shape, Pending;
    forall id | id in s'.writers ensures WriterOk(s', s'.writers[id]) {
      assert WriterOk(s, s.writers[id]);
      WriterFrame(s, s', s.writers[id], s'.writers[id]);
    }
  }

  // ----- Who is inside a segment -----

  lemma InsideAfterReserve(writers: map<nat, Writer>, id: nat, w: Writer, k: nat)
    requires id !in writers
    ensures Inside(writers[id := w], k) == if w.index == k then Inside(writers, k) + {id} else Inside(writers, k)
  {
  }

  lemma InsideLacks(writers: map<nat, Writer>, id: nat, k: nat)
    requires id !in writers
    ensures id !in Inside(writers, k)
  {
  }

  lemma InsideAfterFill(writers: map<nat, Writer>, id: nat, k: nat)
    requires id in writers
    ensures Inside(writers[id := writers[id].(filled := true)], k) == Inside(writers, k)
  {
  }

  lemma InsideAfterExit(writers: map<nat, Writer>, id: nat, k: nat)
    requires id in writers
    ensures Inside(writers - {id}, k) == Inside(writers, k) - {id}
    ensures id in Inside(writers, k) <==> writers[id].index == k
  {
  }

  // ----- Filling -----

  /** The bytes an appender writes are the ones the log has at its place, and they fit. */
  lemma FillWritesLog(s: State, id: nat)
    requires Laps(s) && LivesOk(s) && WritersOk(s) && id in s.writers
    ensures var w := s.writers[id];
            && Live(s, w.lap) && w.index == SlotIndex(w.lap, |s.segments|)
            && s.segments[w.index].start == s.starts[w.lap]
            && |FrameAll(w.records, s.starts[w.lap] + w.offset)| == SizeOf(w.records)
            && w.offset + SizeOf(w.records) <= s.size
  {
    hide SlotIndex, Ordered, FrameAll, SizeOf, Buffered;
    var w := s.writers[id];
    assert WriterOk(s, w) && LiveOk(s, w.lap);
    FrameAllSize(w.records, s.starts[w.lap] + w.offset);
  }

  lemma PendingAfterFill(writers: map<nat, Writer>, id: nat, j: nat, p: nat)
    requires id in writers && Pending(writers, j, p) && !Owes(writers[id], j, p)
    ensures Pending(writers[id := writers[id].(filled := true)], j, p)
  {
    hide SizeOf;
    var q :| q in writers && Owes(writers[q], j, p);
    assert Owes(writers[id := writers[id].(filled := true)][q], j, p);
  }

  lemma FillByte(buffer: Bytes, bytes: Bytes, writers: map<nat, Writer>, id: nat, hist: Bytes, start: nat, p: nat)
    requires id in writers && |bytes| == SizeOf(writers[id].records)
    requires writers[id].offset + |bytes| <= |buffer| && start + writers[id].offset + |bytes| <= |hist|
    requires hist[start + writers[id].offset..start + writers[id].offset + |bytes|] == bytes
    requires p < |buffer| && start + p < |hist|
    requires buffer[p] == hist[start + p] || Pending(writers, writers[id].lap, p)
    ensures Overwrite(buffer, writers[id].offset, bytes)[p] == hist[start + p]
            || Pending(writers[id := writers[id].(filled := true)], writers[id].lap, p)
  {
    hide SizeOf, Pending;
    var w := writers[id];
    if !(w.offset <= p < w.offset + |bytes|) && Pending(writers, w.lap, p) {
      PendingAfterFill(writers, id, w.lap, p);
    } else {
      OverwriteByte(buffer, w.offset, bytes, hist, start, p);
    }
  }

  /** Writing the log's own bytes into a buffer gives the log's byte wherever it did before, and where it writes. */
  lemma OverwriteByte(buffer: Bytes, at: nat, bytes: Bytes, hist: Bytes, start: nat, p: nat)
    requires at + |bytes| <= |buffer| && start + at + |bytes| <= |hist| && start + p < |hist| && p < |buffer|
    requires hist[start + at..start + at + |bytes|] == bytes
    requires at <= p < at + |bytes| || buffer[p] == hist[start + p]
    ensures Overwrite(buffer, at, bytes)[p] == hist[start + p]
  {
    if at <= p < at + |bytes| {
      assert hist[start + at..start + at + |bytes|][p - at] == hist[start + p];
    }
  }

  lemma FillFrame(s: State, s': State, id: nat)
    requires Laps(s) && Laps(s') && CanFill(s, id) && s' == DoFill(s, id) && Live(s, s.writers[id].lap)
    requires s.writers[id].index == SlotIndex(s.writers[id].lap, |s.segments|)
    requires var c := s.segments[s.writers[id].index].control; c.state == Open || c.state == Seal
    ensures OnlyLap(s, s', s.writers[id].lap) && Guests(s, s', s.writers[id].lap)
  {
    hide SlotIndex, Ordered, FrameAll, SizeOf, Pending;
    var w := s.writers[id];
    forall j, p | j != w.lap && Pending(s.writers, j, p) ensures Pending(s'.writers, j, p) {
      PendingAfterFill(s.writers, id, j, p);
    }
  }

  lemma FillBuffered(s: State, s': State, id: nat)
    requires Laps(s) && Laps(s') && CanFill(s, id) && s' == DoFill(s, id)
    requires Live(s, s.writers[id].lap) && Live(s', s.writers[id].lap)
    requires WriterOk(s, s.writers[id]) && LiveOk(s, s.writers[id].lap)
    ensures Buffered(s', s.writers[id].lap)
  {
    hide SlotIndex, Ordered, FrameAll, SizeOf, Pending;
    var w := s.writers[id];
    var start, buffer := s.starts[w.lap], SegmentOf(s, w.lap).buffer;
    var bytes := FrameAll(w.records, start + w.offset);
    FrameAllSize(w.records, start + w.offset);
    assert SegmentOf(s', w.lap).buffer == Overwrite(buffer, w.offset, bytes);
    assert s'.writers == s.writers[id := w.(filled := true)];
    hide DoFill, CanFill, Shape;
    forall p: nat | p < End(s', w.lap) - s'.starts[w.lap] && p < s'.size
      ensures SegmentOf(s', w.lap).buffer[p] == s'.hist[s'.starts[w.lap] + p] || Pending(s'.writers, w.lap, p)
    {
      FillByte(buffer, bytes, s.writers, id, s.hist, start, p);
    }
  }

  lemma FillLap(s: State, s': State, id: nat)
    requires Laps(s) && Laps(s') && LivesOk(s) && WritersOk(s) && CanFill(s, id) && s' == DoFill(s, id)
    requires Live(s, s.writers[id].lap) && Live(s', s.writers[id].lap)
    ensures LiveOk(s', s.writers[id].lap)
  {
    hide SlotIndex, Ordered, FrameAll, SizeOf, Pending, Buffered;
    var w := s.writers[id];
    assert WriterOk(s, w) && LiveOk(s, w.lap);
    FillBuffered(s, s', id);
  }

  lemma FillKeeps(s: State, id: nat)
    requires Inv(s) && CanFill(s, id)
    ensures Inv(DoFill(s, id))
  {
    hide SlotIndex, Ordered, FrameAll, SizeOf, LivesOk, DeadsOk, WritersOk, Counts;
    var s', w := DoFill(s, id), s.writers[id];
    FillWritesLog(s, id);
    FillStays(s, id);
    FillFrame(s, s', id);
    FillLap(s, s', id);
    OnlyLapLives(s, s', w.lap);
    OnlyLapDeads(s, s', w.lap);
    OnlyLapWriters(s, s', w.lap);
  }

  lemma FillStays(s: State, id: nat)
    requires Laps(s) && WritersOk(s) && Counts(s) && CanFill(s, id)
    ensures Laps(DoFill(s, id)) && Counts(DoFill(s, id))
    ensures var c := s.segments[s.writers[id].index].control; c.state == Open || c.state == Seal
  {
    hide SlotIndex, Ordered, FrameAll, SizeOf;
    var s' := DoFill(s, id);
    assert WriterOk(s, s.writers[id]);
    hide Inside, WritersOk, WriterOk;
    forall k | 0 <= k < |s'.segments|
      ensures s'.segments[k].control.writers == |Inside(s'.writers, k)| <= MAX_WRITERS
      ensures s'.segments[k].control.offset <= s'.size
    {
      InsideAfterFill(s.writers, id, k);
    }
  }

  // ----- Leaving -----

  lemma PendingAfterExit(writers: map<nat, Writer>, id: nat, j: nat, p: nat)
    requires id in writers && writers[id].filled && Pending(writers, j, p)
    ensures Pending(writers - {id}, j, p)
  {
    hide SizeOf;
    var q :| q in writers && Owes(writers[q], j, p);
    assert q in writers - {id} && Owes((writers - {id})[q], j, p);
  }

  lemma ExitStays(s: State, id: nat)
    requires Laps(s) && Counts(s) && CanExit(s, id)
    ensures Laps(DoExit(s, id)) && Counts(DoExit(s, id))
  {
    hide SlotIndex, Ordered, FrameAll, SizeOf;
    var s', i := DoExit(s, id), s.writers[id].index;
    hide Inside;
    InsideAfterExit(s.writers, id, i);
    forall k | 0 <= k < |s'.segments|
      ensures s'.segments[k].control.writers == |Inside(s'.writers, k)| <= MAX_WRITERS
      ensures s'.segments[k].control.offset <= s'.size
    {
      InsideAfterExit(s.writers, id, k);
    }
  }

  lemma ExitFrame(s: State, s': State, id: nat)
    requires Laps(s) && Laps(s') && Counts(s') && WritersOk(s) && CanExit(s, id) && s' == DoExit(s, id)
    ensures Live(s, s.writers[id].lap)
    ensures OnlyLap(s, s', s.writers[id].lap) && Guests(s, s', s.writers[id].lap)
  {
    hide SlotIndex, Ordered, FrameAll, SizeOf, Pending;
    var w := s.writers[id];
    assert WriterOk(s, w);
    forall j, p | j != w.lap && Pending(s.writers, j, p) ensures Pending(s'.writers, j, p) {
      PendingAfterExit(s.writers, id, j, p);
    }
    if s'.segments[w.index].control.writers == 0 { Nobody(s', w.index); }
  }

  lemma ExitBuffered(s: State, s': State, id: nat)
    requires Laps(s) && Laps(s') && CanExit(s, id) && s' == DoExit(s, id)
    requires Live(s, s.writers[id].lap) && Live(s', s.writers[id].lap) && Buffered(s, s.writers[id].lap)
    ensures Buffered(s', s.writers[id].lap)
  {
    hide SlotIndex, Ordered, FrameAll, SizeOf, Pending;
    var l := s.writers[id].lap;
    assert SegmentOf(s', l).buffer == SegmentOf(s, l).buffer;
    forall p: nat | p < End(s', l) - s'.starts[l] && p < s'.size
      ensures SegmentOf(s', l).buffer[p] == s'.hist[s'.starts[l] + p] || Pending(s'.writers, l, p)
    {
      if Pending(s.writers, l, p) { PendingAfterExit(s.writers, id, l, p); }
    }
  }

  lemma ExitLap(s: State, s': State, id: nat)
    requires Laps(s) && Laps(s') && LivesOk(s) && WritersOk(s) && CanExit(s, id) && s' == DoExit(s, id)
    requires Live(s, s.writers[id].lap) && Live(s', s.writers[id].lap)
    ensures LiveOk(s', s.writers[id].lap)
  {
    hide SlotIndex, Ordered, FrameAll, SizeOf, Buffered;
    var w := s.writers[id];
    assert WriterOk(s, w) && LiveOk(s, w.lap);
    ExitBuffered(s, s', id);
  }

  lemma ExitKeeps(s: State, id: nat)
    requires Inv(s) && CanExit(s, id)
    ensures Inv(DoExit(s, id))
  {
    hide SlotIndex, Ordered, FrameAll, SizeOf, LivesOk, DeadsOk, WritersOk, Counts;
    var s', w := DoExit(s, id), s.writers[id];
    ExitStays(s, id);
    ExitFrame(s, s', id);
    ExitLap(s, s', id);
    OnlyLapLives(s, s', w.lap);
    OnlyLapDeads(s, s', w.lap);
    OnlyLapWriters(s, s', w.lap);
    ExitFile(s, s', id);
  }

  lemma ExitFile(s: State, s': State, id: nat)
    requires Laps(s) && Laps(s') && WritersOk(s) && FileOk(s) && CanExit(s, id) && s' == DoExit(s, id)
    ensures FileOk(s')
  {
    hide SlotIndex, Ordered, FrameAll, SizeOf;
    assert WriterOk(s, s.writers[id]);
  }

  // ----- Sealing -----

  lemma SealFrame(s: State, s': State, i: nat)
    requires Laps(s) && LivesOk(s) && DeadsOk(s) && Counts(s) && CanSeal(s, i) && s' == DoSeal(s, i)
    ensures Laps(s') && Counts(s')
    ensures s.opener.NoOpener? && Live(s, |s.starts| - 1) && i == SlotIndex(|s.starts| - 1, |s.segments|)
    ensures OnlyLap(s, s', |s.starts| - 1) && Guests(s, s', |s.starts| - 1)
  {
    hide SlotIndex, Ordered, Buffered, Pending;
    OpenIsLast(s, i);
    assert LiveOk(s, |s.starts| - 1);
    if s.segments[i].control.writers == 0 { Nobody(s, i); }
  }

  lemma SealLap(s: State, s': State, i: nat)
    requires Laps(s) && Laps(s') && LivesOk(s) && CanSeal(s, i) && s' == DoSeal(s, i)
    requires s.opener.NoOpener? && Live(s, |s.starts| - 1) && i == SlotIndex(|s.starts| - 1, |s.segments|)
    ensures LiveOk(s', |s.starts| - 1)
  {
    hide SlotIndex, Ordered, Pending;
    assert LiveOk(s, |s.starts| - 1);
  }

  lemma SealKeeps(s: State, i: nat)
    requires Inv(s) && CanSeal(s, i)
    ensures Inv(DoSeal(s, i))
  {
    hide SlotIndex, Ordered, FrameAll, SizeOf, LivesOk, DeadsOk, WritersOk, Counts, OnlyLap, Guests;
    var s', last := DoSeal(s, i), |s.starts| - 1;
    SealFrame(s, s', i);
    SealLap(s, s', i);
    OnlyLapLives(s, s', last);
    OnlyLapDeads(s, s', last);
    OnlyLapWriters(s, s', last);
  }

  // ----- Opening the next segment -----

  /** A free segment is out of use, so there is room for one more lap. */
  lemma FreeIsDead(s: State)
    requires Laps(s) && Indexes(s) && LivesOk(s) && s.opener.Waiting?
    requires s.segments[s.current].control.state == Free
    ensures Dead(s, s.current) && |s.starts| < s.freed + |s.segments|
  {
    hide Buffered;
    forall j: nat | Live(s, j) ensures SlotIndex(j, |s.segments|) != s.current { assert LiveOk(s, j); }
    NextLap(s.freed, |s.segments|);
  }

  lemma SetStartFrame(s: State, s': State)
    requires Laps(s) && Indexes(s) && LivesOk(s) && CanSetStart(s) && s' == DoSetStart(s)
    ensures Laps(s') && Indexes(s') && Dead(s, s.current)
  {
    hide SlotIndex, Ordered, Buffered;
    FreeIsDead(s);
  }

  lemma SetStartLives(s: State, s': State)
    requires Laps(s) && Laps(s') && LivesOk(s) && CanSetStart(s) && s' == DoSetStart(s) && Dead(s, s.current)
    ensures LivesOk(s')
  {
    hide SlotIndex, Ordered, Pending;
    forall j: nat | Live(s', j) ensures LiveOk(s', j) {
      assert LiveOk(s, j);
      LiveFrame(s, s', j);
    }
  }

  lemma SetStartRest(s: State, s': State)
    requires Laps(s) && Laps(s') && CanSetStart(s) && s' == DoSetStart(s) && Dead(s, s.current)
    requires DeadsOk(s) && WritersOk(s) && Counts(s)
    ensures DeadsOk(s') && WritersOk(s') && Counts(s')
  {
    hide SlotIndex, Ordered, FrameAll, SizeOf;
    forall k | 0 <= k < |s'.segments| && Dead(s', k) ensures DeadOk(s', k) {
      assert Dead(s, k);
      assert DeadOk(s, k);
    }
    forall id | id in s'.writers ensures WriterOk(s', s'.writers[id]) {
      assert WriterOk(s, s.writers[id]);
      WriterFrame(s, s', s.writers[id], s.writers[id]);
    }
  }

  lemma SetStartKeeps(s: State)
    requires Inv(s) && CanSetStart(s)
    ensures Inv(DoSetStart(s))
  {
    hide SlotIndex, Ordered, FrameAll, SizeOf, LivesOk, DeadsOk, WritersOk, Counts, Dead;
    var s' := DoSetStart(s);
    SetStartFrame(s, s');
    SetStartLives(s, s');
    SetStartRest(s, s');
    SetStartFile(s, s');
  }

  lemma SetStartFile(s: State, s': State)
    requires Laps(s) && Laps(s') && FileOk(s) && CanSetStart(s) && s' == DoSetStart(s)
    ensures FileOk(s')
  {
  }

  lemma StartingIsDead(s: State)
    requires Laps(s) && Indexes(s) && s.opener.Starting?
    ensures Dead(s, s.current)
  {
    forall j: nat | Live(s, j) ensures SlotIndex(j, |s.segments|) != s.current {
      if SlotIndex(j, |s.segments|) == s.current { SameIndex(j, |s.starts|, |s.segments|); }
    }
  }

  lemma OpenFrame(s: State, s': State)
    requires Laps(s) && Indexes(s) && CanOpenNext(s) && s' == DoOpenNext(s)
    ensures Laps(s') && Indexes(s') && Extends(s, s')
    ensures forall j: nat :: Live(s, j) ==> Live(s', j) && End(s', j) == End(s, j) && s'.starts[j] == s.starts[j]
  {
    hide SlotIndex;
  }

  lemma OpenLives(s: State, s': State)
    requires Laps(s) && Laps(s') && Indexes(s) && LivesOk(s) && CanOpenNext(s) && s' == DoOpenNext(s)
    requires Dead(s, s.current)
    ensures LivesOk(s')
  {
    hide SlotIndex, Ordered, Pending;
    OpenFrame(s, s');
    forall j: nat | Live(s', j) ensures LiveOk(s', j) {
      if j < |s.starts| {
        assert LiveOk(s, j);
        LiveFrame(s, s', j);
      }
    }
  }

  lemma OpenDeads(s: State, s': State)
    requires Laps(s) && Laps(s') && Indexes(s) && DeadsOk(s) && CanOpenNext(s) && s' == DoOpenNext(s)
    ensures DeadsOk(s')
  {
    hide SlotIndex, Ordered;
    forall k | 0 <= k < |s'.segments| && Dead(s', k) ensures DeadOk(s', k) {
      assert Live(s', |s.starts|);
      assert forall j: nat :: Live(s, j) ==> Live(s', j);
      assert Dead(s, k);
      assert DeadOk(s, k);
    }
  }

  lemma OpenWriters(s: State, s': State)
    requires Laps(s) && Laps(s') && Indexes(s) && WritersOk(s) && Counts(s) && Dead(s, s.current)
    requires CanOpenNext(s) && s' == DoOpenNext(s)
    ensures WritersOk(s') && Counts(s')
  {
    hide SlotIndex, Ordered, FrameAll, SizeOf;
    OpenFrame(s, s');
    forall id | id in s'.writers ensures WriterOk(s', s'.writers[id]) && s.writers[id].index != s.current {
      assert WriterOk(s, s.writers[id]);
      WriterFrame(s, s', s.writers[id], s.writers[id]);
    }
    assert Inside(s.writers, s.current) == {};
  }

  lemma OpenKeeps(s: State)
    requires Inv(s) && CanOpenNext(s)
    ensures Inv(DoOpenNext(s))
  {
    hide SlotIndex, Ordered, FrameAll, SizeOf, LivesOk, DeadsOk, WritersOk, Counts, Dead;
    var s' := DoOpenNext(s);
    StartingIsDead(s);
    OpenFrame(s, s');
    OpenLives(s, s');
    OpenDeads(s, s');
    OpenWriters(s, s');
    OpenFile(s, s');
  }

  lemma OpenFile(s: State, s': State)
    requires Laps(s) && Laps(s') && Indexes(s) && FileOk(s) && Dead(s, s.current)
    requires CanOpenNext(s) && s' == DoOpenNext(s)
    ensures FileOk(s')
  {
    hide SlotIndex, Ordered;
  }

  // ----- Releasing -----

  lemma ReleaseFrame(s: State, s': State)
    requires Laps(s) && Indexes(s) && LivesOk(s) && FileOk(s) && CanRelease(s) && s' == DoRelease(s)
    ensures Laps(s') && Indexes(s') && FileOk(s') && Live(s, s.freed) && s.io == SlotIndex(s.freed, |s.segments|)
    ensures SegmentOf(s, s.freed).control.state == Io && SegmentOf(s, s.freed).start == s.starts[s.freed]
    ensures SegmentOf(s, s.freed).control.writers == 0
  {
    hide Buffered;
    assert LiveOk(s, s.freed);
    NextIndex(s.freed, |s.segments|);
  }

  lemma ReleaseLives(s: State, s': State)
    requires Laps(s) && Laps(s') && LivesOk(s) && CanRelease(s) && s' == DoRelease(s)
    requires Live(s, s.freed) && s.io == SlotIndex(s.freed, |s.segments|)
    ensures LivesOk(s')
  {
    hide SlotIndex, Ordered, Pending;
    forall j: nat | Live(s', j) ensures LiveOk(s', j) {
      assert LiveOk(s, j);
      if SlotIndex(j, |s.segments|) == s.io { SameLap(s, j, s.freed); }
      LiveFrame(s, s', j);
    }
  }

  lemma ReleaseDeads(s: State, s': State)
    requires Laps(s) && Laps(s') && DeadsOk(s) && CanRelease(s) && s' == DoRelease(s)
    requires Live(s, s.freed) && s.io == SlotIndex(s.freed, |s.segments|)
    requires SegmentOf(s, s.freed).start == s.starts[s.freed]
    ensures DeadsOk(s')
  {
    hide SlotIndex;
    forall k | 0 <= k < |s'.segments| && Dead(s', k) ensures DeadOk(s', k) {
      if k != s.io {
        forall j: nat | Live(s, j) ensures SlotIndex(j, |s.segments|) != k { assert j != s.freed ==> Live(s', j); }
        assert Dead(s, k);
        assert DeadOk(s, k);
      }
    }
  }

  lemma ReleaseWriters(s: State, s': State)
    requires Laps(s) && Laps(s') && WritersOk(s) && CanRelease(s) && s' == DoRelease(s)
    requires Live(s, s.freed) && s.io == SlotIndex(s.freed, |s.segments|)
    requires SegmentOf(s, s.freed).control.state == Io
    ensures WritersOk(s')
  {
    hide SlotIndex, Ordered, FrameAll, SizeOf, Shape;
    forall id | id in s'.writers ensures WriterOk(s', s'.writers[id]) {
      assert WriterOk(s, s.writers[id]);
      WriterFrame(s, s', s.writers[id], s.writers[id]);
    }
  }

  lemma ReleaseCounts(s: State, s': State)
    requires Shape(s) && Shape(s') && Counts(s) && CanRelease(s) && s' == DoRelease(s)
    ensures Counts(s')
  {
    hide Inside;
  }

  lemma ReleaseKeeps(s: State)
    requires Inv(s) && CanRelease(s)
    ensures Inv(DoRelease(s))
  {
    hide SlotIndex, Ordered, FrameAll, SizeOf, LivesOk, DeadsOk, WritersOk, Counts;
    var s' := DoRelease(s);
    ReleaseFrame(s, s');
    ReleaseLives(s, s');
    ReleaseDeads(s, s');
    ReleaseWriters(s, s');
    ReleaseCounts(s, s');
  }

  // ----- Reserving -----

  /** The reservation takes the next bytes of the log. */
  lemma ReserveTakesEnd(s: State, i: nat, length: nat)
    requires Laps(s) && LivesOk(s) && DeadsOk(s) && i < |s.segments| && TryReserve(s.segments[i], length).succeed
    ensures s.opener.NoOpener? && Live(s, |s.starts| - 1) && i == SlotIndex(|s.starts| - 1, |s.segments|)
    ensures s.segments[i].start + s.segments[i].control.offset == |s.hist|
    ensures s.segments[i].start == s.starts[|s.starts| - 1]
  {
    hide SlotIndex, Ordered, Buffered;
    OpenIsLast(s, i);
    assert LiveOk(s, |s.starts| - 1);
  }

  lemma ReserveFrame(s: State, s': State, id: nat, i: nat, records: seq<Bytes>)
    requires Laps(s) && Indexes(s) && LivesOk(s) && DeadsOk(s) && CanReserve(s, id, i, records)
    requires s' == DoReserve(s, id, i, records)
    ensures Laps(s') && Indexes(s') && Extends(s, s') && |s'.hist| == |s.hist| + SizeOf(records)
    ensures s'.hist[|s.hist|..] == FrameAll(records, |s.hist|)
  {
    hide SlotIndex, Ordered, Buffered, FrameAll, SizeOf;
    ReserveTakesEnd(s, i, SizeOf(records));
    FrameAllSize(records, |s.hist|);
  }

  lemma PendingAfterReserve(writers: map<nat, Writer>, id: nat, w: Writer, j: nat, p: nat)
    requires id !in writers && (Pending(writers, j, p) || Owes(w, j, p))
    ensures Pending(writers[id := w], j, p)
  {
    hide SizeOf;
    if Owes(w, j, p) {
      assert Owes(writers[id := w][id], j, p);
    } else {
      var q :| q in writers && Owes(writers[q], j, p);
      assert Owes(writers[id := w][q], j, p);
    }
  }

  lemma ReserveLap(s: State, s': State, id: nat, i: nat, records: seq<Bytes>)
    requires Laps(s) && Laps(s') && Indexes(s) && LivesOk(s) && DeadsOk(s) && CanReserve(s, id, i, records)
    requires s' == DoReserve(s, id, i, records)
    ensures Live(s', |s.starts| - 1) && LiveOk(s', |s.starts| - 1)
  {
    hide SlotIndex, Ordered, FrameAll, SizeOf, Pending;
    ReserveTakesEnd(s, i, SizeOf(records));
    ReserveFrame(s, s', id, i, records);
    var last, w := |s.starts| - 1, s'.writers[id];
    assert LiveOk(s, last);
    hide LivesOk, DeadsOk;
    forall p: nat | p < End(s', last) - s'.starts[last] && p < s'.size
      ensures SegmentOf(s', last).buffer[p] == s'.hist[s'.starts[last] + p] || Pending(s'.writers, last, p)
    {
      if p >= w.offset || Pending(s.writers, last, p) {
        PendingAfterReserve(s.writers, id, w, last, p);
      } else {
        assert s'.hist[..|s.hist|][s.starts[last] + p] == s.hist[s.starts[last] + p];
      }
    }
  }

  lemma ReserveLives(s: State, s': State, id: nat, i: nat, records: seq<Bytes>)
    requires Laps(s) && Laps(s') && Indexes(s) && LivesOk(s) && DeadsOk(s) && CanReserve(s, id, i, records)
    requires s' == DoReserve(s, id, i, records)
    ensures LivesOk(s')
  {
    hide SlotIndex, Ordered, FrameAll, SizeOf, Pending;
    ReserveTakesEnd(s, i, SizeOf(records));
    ReserveFrame(s, s', id, i, records);
    ReserveLap(s, s', id, i, records);
    hide DeadsOk;
    var last: nat := |s.starts| - 1;
    forall j: nat | Live(s', j) ensures LiveOk(s', j) {
      if j != last {
        assert LiveOk(s, j);
        if SlotIndex(j, |s.segments|) == i { SameLap(s, j, last); }
        forall p | Pending(s.writers, j, p) ensures Pending(s'.writers, j, p) {
          PendingAfterReserve(s.writers, id, s'.writers[id], j, p);
        }
        LiveFrame(s, s', j);
      }
    }
  }

  lemma ReserveDeads(s: State, s': State, id: nat, i: nat, records: seq<Bytes>)
    requires Laps(s) && Laps(s') && Indexes(s) && LivesOk(s) && DeadsOk(s) && CanReserve(s, id, i, records)
    requires s' == DoReserve(s, id, i, records)
    ensures DeadsOk(s')
  {
    hide SlotIndex, Ordered, FrameAll, SizeOf, Buffered;
    ReserveTakesEnd(s, i, SizeOf(records));
    hide LivesOk;
    forall k | 0 <= k < |s'.segments| && Dead(s', k) ensures DeadOk(s', k) {
      assert Live(s', |s.starts| - 1);
      assert Dead(s, k);
      assert DeadOk(s, k);
    }
  }

  lemma ReserveFile(s: State, s': State, id: nat, i: nat, records: seq<Bytes>)
    requires Laps(s) && Laps(s') && Indexes(s) && LivesOk(s) && DeadsOk(s) && FileOk(s)
    requires CanReserve(s, id, i, records) && s' == DoReserve(s, id, i, records)
    ensures FileOk(s')
  {
    hide SlotIndex, Ordered, FrameAll, SizeOf, Buffered;
    ReserveTakesEnd(s, i, SizeOf(records));
    ReserveFrame(s, s', id, i, records);
    assert s.ioPc.Appended? ==> LiveOk(s, s.freed);
    hide LivesOk, DeadsOk;
    var upto := |s.file|;
    assert s'.hist[..upto] == s'.hist[..|s.hist|][..upto];
  }

  lemma ReserveWriters(s: State, s': State, id: nat, i: nat, records: seq<Bytes>)
    requires Laps(s) && Laps(s') && Indexes(s) && LivesOk(s) && DeadsOk(s) && WritersOk(s)
    requires CanReserve(s, id, i, records) && s' == DoReserve(s, id, i, records)
    ensures WritersOk(s')
  {
    hide SlotIndex, Ordered, FrameAll, SizeOf, Buffered;
    ReserveTakesEnd(s, i, SizeOf(records));
    ReserveFrame(s, s', id, i, records);
    hide LivesOk, DeadsOk;
    forall q | q in s'.writers ensures WriterOk(s', s'.writers[q]) {
      if q != id {
        assert WriterOk(s, s.writers[q]);
        WriterFrame(s, s', s.writers[q], s.writers[q]);
      } else {
        assert s'.hist[|s.hist|..] == s'.hist[|s.hist|..|s.hist| + SizeOf(records)];
      }
    }
  }

  lemma ReserveCounts(s: State, s': State, id: nat, i: nat, records: seq<Bytes>)
    requires Shape(s) && Shape(s') && Counts(s) && CanReserve(s, id, i, records)
    requires s' == DoReserve(s, id, i, records)
    ensures Counts(s')
  {
    hide FrameAll, SizeOf, Inside;
    forall k | 0 <= k < |s'.segments|
      ensures s'.segments[k].control.writers == |Inside(s'.writers, k)| <= MAX_WRITERS
      ensures s'.segments[k].control.offset <= s'.size
    {
      InsideAfterReserve(s.writers, id, s'.writers[id], k);
      InsideLacks(s.writers, id, k);
    }
  }

  lemma ReserveKeeps(s: State, id: nat, i: nat, records: seq<Bytes>)
    requires Inv(s) && CanReserve(s, id, i, records)
    ensures Inv(DoReserve(s, id, i, records))
  {
    hide SlotIndex, Ordered, FrameAll, SizeOf, LivesOk, DeadsOk, WritersOk, Counts, FileOk;
    var s' := DoReserve(s, id, i, records);
    ReserveFrame(s, s', id, i, records);
    ReserveLives(s, s', id, i, records);
    ReserveDeads(s, s', id, i, records);
    ReserveWriters(s, s', id, i, records);
    ReserveCounts(s, s', id, i, records);
    ReserveFile(s, s', id, i, records);
    FrameAllConcat(s.records, records, 0);
  }

  // ----- Every run -----

  lemma InitHolds(n: nat, size: nat)
    requires 2 <= n && size < TWO48
    ensures Inv(Init(n, size))
  {
    hide SlotIndex;
    var s := Init(n, size);
    SlotZero(n);
    assert Laps(s) && Indexes(s);
    forall j: nat | Live(s, j) ensures LiveOk(s, j) { assert j == 0; }
    forall i | 0 <= i < |s.segments| && Dead(s, i) ensures DeadOk(s, i) { assert Live(s, 0); }
    forall i | 0 <= i < |s.segments| ensures Inside(s.writers, i) == {} {}
  }

  lemma SlotZero(n: nat)
    requires n > 0
    ensures SlotIndex(0, n) == 0
  {
  }

  lemma StepKeeps(s: State, step: Step)
    requires Inv(s) && Enabled(s, step)
    ensures Inv(Apply(s, step))
  {
    hide Inv;
    match step
    case Reserve(id, i, records) => ReserveKeeps(s, id, i, records);
    case Fill(id) => FillKeeps(s, id);
    case Exit(id) => ExitKeeps(s, id);
    case SealAt(i) => SealKeeps(s, i);
    case Advance => AdvanceKeeps(s);
    case SetStart => SetStartKeeps(s);
    case OpenNext => OpenKeeps(s);
    case Append => AppendKeeps(s);
    case Release => ReleaseKeeps(s);
    case Persist => PersistKeeps(s);
  }

  lemma {:induction false} RunHolds(n: nat, size: nat, states: seq<State>, steps: seq<Step>, k: nat)
    requires IsRun(n, size, states, steps) && k < |states|
    ensures Inv(states[k])
  {
    hide Inv, Enabled, Apply, Init;
    if k == 0 {
      InitHolds(n, size);
    } else {
      RunHolds(n, size, states, steps, k - 1);
      StepKeeps(states[k - 1], steps[k - 1]);
    }
  }
}
