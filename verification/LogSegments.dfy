/** One segment of the write-ahead log: its packed control word and what each operation does to it. */
module LogSegments {
  import opened Common

  datatype SegmentState = Free | Open | Seal | Io

  /** What the control word stands for. */
  datatype Control = Control(state: SegmentState, writers: nat, offset: nat)

  const TWO48: nat := 0x1_0000_0000_0000
  const TWO62: nat := 0x4000_0000_0000_0000
  const TWO64: nat := 0x1_0000_0000_0000_0000
  const MAX_WRITERS: nat := 0x3FFF

  type Word = w: int | 0 <= w < TWO64

  predicate Fits(c: Control) {
    c.writers <= MAX_WRITERS && c.offset < TWO48
  }

  // ----- The word: state in the top 2 bits, writers in the next 14, offset in the low 48 -----

  function Code(state: SegmentState): (c: nat)
    ensures c < 4
  {
    match state
    case Free => 0
    case Open => 1
    case Seal => 2
    case Io => 3
  }

  function FromCode(c: nat): SegmentState {
    if c == 0 then Free else if c == 1 then Open else if c == 2 then Seal else Io
  }

  function GetState(w: Word): SegmentState {
    FromCode(w / TWO62 % 4)
  }

  function SetState(w: Word, state: SegmentState): (r: Word) {
    w % TWO62 + Code(state) * TWO62
  }

  function GetWriterNum(w: Word): nat {
    w / TWO48 % (MAX_WRITERS + 1)
  }

  function IncrWriterNum(w: Word): Word {
    (w + TWO48) % TWO64
  }

  function DecrWriterNum(w: Word): Word {
    (w - TWO48) % TWO64
  }

  function GetLsn(w: Word): nat {
    w % TWO48
  }

  function BumpLsn(w: Word, length: nat): Word {
    (w + length) % TWO64
  }

  function Pack(c: Control): (w: Word)
    requires Fits(c)
  {
    Code(c.state) * TWO62 + c.writers * TWO48 + c.offset
  }

  function Unpack(w: Word): (c: Control)
    ensures Fits(c)
  {
    Control(GetState(w), GetWriterNum(w), GetLsn(w))
  }

  lemma UnpackPack(c: Control)
    requires Fits(c)
    ensures Unpack(Pack(c)) == c
  {
    var w := Pack(c);
    Remainder(w, TWO62, Code(c.state), c.writers * TWO48 + c.offset);
    Remainder(w, TWO48, Code(c.state) * (MAX_WRITERS + 1) + c.writers, c.offset);
    Remainder(w / TWO48, MAX_WRITERS + 1, Code(c.state), c.writers);
  }

  lemma PackUnpack(w: Word)
    ensures Pack(Unpack(w)) == w
  {
    assert Code(GetState(w)) == w / TWO62;
    assert w % TWO62 == w / TWO48 % (MAX_WRITERS + 1) * TWO48 + w % TWO48;
  }

  /** Each word operation does to the fields what its name says, as long as its field does not overflow. */
  lemma WordOps(c: Control, state: SegmentState, length: nat)
    requires Fits(c)
    ensures SetState(Pack(c), state) == Pack(c.(state := state))
    ensures c.writers < MAX_WRITERS ==> IncrWriterNum(Pack(c)) == Pack(c.(writers := c.writers + 1))
    ensures c.writers > 0 ==> DecrWriterNum(Pack(c)) == Pack(c.(writers := c.writers - 1))
    ensures c.offset + length < TWO48 ==> BumpLsn(Pack(c), length) == Pack(c.(offset := c.offset + length))
  {
    Remainder(Pack(c), TWO62, Code(c.state), c.writers * TWO48 + c.offset);
  }

  /** At the limit the increment spills into the state: a full open segment would read as sealed. */
  lemma IncrSpills(offset: nat)
    requires offset < TWO48
    ensures Unpack(IncrWriterNum(Pack(Control(Open, MAX_WRITERS, offset)))) == Control(Seal, 0, offset)
  {
    assert IncrWriterNum(Pack(Control(Open, MAX_WRITERS, offset))) == Pack(Control(Seal, 0, offset));
    UnpackPack(Control(Seal, 0, offset));
  }

  // ----- A segment as a value, and the operations on it -----

  datatype Segment = Segment(control: Control, start: nat, validSize: nat, buffer: Bytes)

  /** The reply of TryReserveLogBuffer. */
  datatype Reservation = Reservation(succeed: bool, shouldSeal: bool, offset: nat)

  function TryReserve(s: Segment, length: nat): (r: Reservation)
    ensures r.succeed <==>
              s.control.state == Open && s.control.offset + length <= |s.buffer| && s.control.writers < MAX_WRITERS
    ensures r.shouldSeal <==> s.control.state == Open && s.control.offset + length > |s.buffer|
    ensures r.succeed ==> r.offset == s.control.offset
  {
    var c := s.control;
    if c.state != Open then Reservation(false, false, 0)
    else if c.offset + length > |s.buffer| then Reservation(false, true, 0)
    else if c.writers + 1 > MAX_WRITERS then Reservation(false, false, 0)
    else Reservation(true, false, c.offset)
  }

  function Reserved(s: Segment, length: nat): Segment {
    if TryReserve(s, length).succeed
    then s.(control := Control(Open, s.control.writers + 1, s.control.offset + length))
    else s
  }

  /** A writer leaves; the last one out of a sealed segment hands it to the io thread. */
  function Exited(s: Segment): Segment
    requires s.control.writers > 0
  {
    var c := s.control.(writers := s.control.writers - 1);
    s.(control := if c.writers == 0 && c.state == Seal then c.(state := Io) else c)
  }

  predicate Sealable(s: Segment) {
    s.control.state == Open && s.control.offset != 0
  }

  /** The seal, as one step: without writers the segment goes straight to the io thread. */
  function Sealed(s: Segment): Segment {
    s.(control := s.control.(state := if s.control.writers == 0 then Io else Seal), validSize := s.control.offset)
  }

  function Freed(s: Segment): Segment {
    s.(control := s.control.(state := Free), validSize := 0)
  }

  function Opened(s: Segment, start: nat): Segment {
    s.(control := Control(Open, 0, 0), start := start)
  }

  // ----- The class, on the packed word -----

  class LogSegment {
    const size: nat
    var startLsn: nat
    var validSize: nat
    var controlBits: Word
    const buffer: array<Byte>

    ghost predicate Valid()
      reads this
    {
      size == buffer.Length < TWO48
    }

    ghost function View(): Segment
      reads this, buffer
    {
      Segment(Unpack(controlBits), startLsn, validSize, buffer[..])
    }

    constructor (segmentSize: nat)
      requires segmentSize < TWO48
      ensures Valid() && size == segmentSize && fresh(buffer)
      ensures View().control == Control(Free, 0, 0) && startLsn == 0 && validSize == 0
    {
      size := segmentSize;
      buffer := new Byte[segmentSize](i => 0);
      startLsn, validSize, controlBits := 0, 0, 0;
    }

    /** The successful round of the compare-and-swap loop, or its refusal. */
    method TryReserveLogBuffer(length: nat) returns (reply: Reservation)
      requires Valid() && Unpack(controlBits).offset <= size
      modifies this`controlBits
      ensures View() == Reserved(old(View()), length)
      ensures var c := Unpack(old(controlBits));
              && (reply.succeed <==> c.state == Open && c.offset + length <= size && c.writers < MAX_WRITERS)
              && (reply.shouldSeal <==> c.state == Open && c.offset + length > size)
              && (reply.succeed ==> reply.offset == c.offset)
              && Unpack(controlBits)
                 == (if reply.succeed then Control(Open, c.writers + 1, c.offset + length) else c)
    {
      hide Pack, Unpack, IncrWriterNum, BumpLsn;
      ghost var c := Unpack(controlBits);
      PackUnpack(controlBits);
      Fields(controlBits);
      if GetState(controlBits) != Open { return Reservation(false, false, 0); }
      var offset := GetLsn(controlBits);
      if offset + length > size { return Reservation(false, true, 0); }
      if GetWriterNum(controlBits) + 1 > MAX_WRITERS { return Reservation(false, false, 0); }
      WordOps(c, Open, length);
      WordOps(c.(writers := c.writers + 1), Open, length);
      UnpackPack(Control(Open, c.writers + 1, c.offset + length));
      var word := IncrWriterNum(controlBits);
      controlBits := BumpLsn(word, length);
      reply := Reservation(true, false, offset);
    }

    method OnWriterExit()
      requires Valid() && Unpack(controlBits).writers > 0
      modifies this`controlBits
      ensures View() == Exited(old(View()))
      ensures var c, c' := Unpack(old(controlBits)), Unpack(controlBits);
              && c'.writers == c.writers - 1 && c'.offset == c.offset
              && c'.state == (if c.writers == 1 && c.state == Seal then Io else c.state)
    {
      hide Pack, Unpack, DecrWriterNum, SetState;
      ghost var c := Unpack(controlBits);
      PackUnpack(controlBits);
      Fields(controlBits);
      WordOps(c, c.state, 0);
      ghost var left := c.(writers := c.writers - 1);
      UnpackPack(left);
      var isSealed := GetState(controlBits) == Seal;
      var word := DecrWriterNum(controlBits);
      Fields(word);
      var isLast := GetWriterNum(word) == 0;
      controlBits := word;
      if isLast && isSealed {
        WordOps(left, Io, 0);
        UnpackPack(left.(state := Io));
        controlBits := SetState(controlBits, Io);
      }
    }

    /** FreeSegment; its CHECK is the precondition. */
    method FreeSegment()
      requires Valid() && Unpack(controlBits).state == Io
      modifies this`controlBits, this`validSize
      ensures View() == Freed(old(View()))
      ensures Unpack(controlBits) == Unpack(old(controlBits)).(state := Free) && validSize == 0
    {
      hide Pack, Unpack, SetState;
      PackUnpack(controlBits);
      WordOps(Unpack(controlBits), Free, 0);
      UnpackPack(Unpack(controlBits).(state := Free));
      validSize := 0;
      controlBits := SetState(controlBits, Free);
    }

    method OpenLogSegment(lsn: nat)
      requires Valid()
      modifies this`controlBits, this`startLsn
      ensures View() == Opened(old(View()), lsn)
      ensures Unpack(controlBits) == Control(Open, 0, 0) && startLsn == lsn
    {
      hide Pack, SetState;
      startLsn := lsn;
      controlBits := 0;
      PackUnpack(0);
      WordOps(Control(Free, 0, 0), Open, 0);
      UnpackPack(Control(Open, 0, 0));
      controlBits := SetState(controlBits, Open);
    }

    /** TrySealLogSegment when nobody interferes: the end LSN, or nothing if not open or still empty. */
    method TrySealLogSegment() returns (end: Option<nat>)
      requires Valid()
      modifies this`controlBits, this`validSize
      ensures end.None? ==> View() == old(View())
      ensures end.Some? ==> View() == Sealed(old(View()))
      ensures var c := Unpack(old(controlBits));
              && (end.Some? <==> c.state == Open && c.offset != 0)
              && (end.Some? ==>
                    && end.value == old(startLsn) + c.offset && validSize == c.offset
                    && Unpack(controlBits) == c.(state := if c.writers == 0 then Io else Seal))
    {
      hide Pack, Unpack, SetState;
      ghost var c := Unpack(controlBits);
      PackUnpack(controlBits);
      Fields(controlBits);
      if GetState(controlBits) != Open || GetLsn(controlBits) == 0 { return None; }
      var schedule := GetWriterNum(controlBits) == 0;
      WordOps(c, Seal, 0);
      UnpackPack(c.(state := Seal));
      controlBits := SetState(controlBits, Seal);
      Fields(controlBits);
      var newLsn := GetLsn(controlBits);
      if schedule {
        WordOps(c.(state := Seal), Io, 0);
        UnpackPack(c.(state := Io));
        controlBits := SetState(controlBits, Io);
      }
      validSize := newLsn;
      end := Some(newLsn + startLsn);
    }
  }

  lemma Fields(w: Word)
    ensures Unpack(w) == Control(GetState(w), GetWriterNum(w), GetLsn(w))
  {
  }

  // ----- Sealing under contention -----

  /**
   The compare-and-swap loop of TrySealLogSegment over the words it loads: every swap but the last
   fails because somebody changed the word. The flag that decides to schedule io is not reset
   between rounds.
  */
  method SealLoop(observed: seq<Word>) returns (sealed: Option<Word>, schedule: bool)
    requires observed != []
    ensures sealed.Some? <==>
              forall i :: 0 <= i < |observed| ==> GetState(observed[i]) == Open && GetLsn(observed[i]) != 0
    ensures sealed.Some? ==> sealed.value == SetState(observed[|observed| - 1], Seal)
    ensures sealed.Some? ==> schedule == SawNoWriter(observed)
  {
    schedule := false;
    var i, word := 0, 0;
    while i < |observed|
      invariant 0 <= i <= |observed|
      invariant forall j :: 0 <= j < i ==> GetState(observed[j]) == Open && GetLsn(observed[j]) != 0
      invariant schedule == SawNoWriter(observed[..i])
      invariant i > 0 ==> word == SetState(observed[i - 1], Seal)
    {
      if GetState(observed[i]) != Open { return None, schedule; }
      if GetLsn(observed[i]) == 0 { return None, schedule; }
      SawMore(observed, i);
      if GetWriterNum(observed[i]) == 0 { schedule := true; }
      word := SetState(observed[i], Seal);
      i := i + 1;
    }
    assert observed[..i] == observed;
    sealed := Some(word);
  }

  ghost predicate SawNoWriter(observed: seq<Word>) {
    exists i :: 0 <= i < |observed| && GetWriterNum(observed[i]) == 0
  }

  lemma SawMore(observed: seq<Word>, i: nat)
    requires i < |observed|
    ensures SawNoWriter(observed[..i + 1]) <==> SawNoWriter(observed[..i]) || GetWriterNum(observed[i]) == 0
  {
    if SawNoWriter(observed[..i]) {
      var j :| 0 <= j < i && GetWriterNum(observed[..i][j]) == 0;
      assert observed[..i + 1][j] == observed[j];
    }
    if GetWriterNum(observed[i]) == 0 {
      assert observed[..i + 1][i] == observed[i];
    }
  }

  /** A writer that enters between two rounds is still writing when the segment is handed to the io thread. */
  lemma StaleFlagSchedulesIo(offset: nat, length: nat)
    requires 0 < offset && 0 < length && offset + length < TWO48
    ensures var before, after := Pack(Control(Open, 0, offset)), Pack(Control(Open, 1, offset + length));
            && after == BumpLsn(IncrWriterNum(before), length)
            && SawNoWriter([before, after])
            && Unpack(SetState(SetState(after, Seal), Io)) == Control(Io, 1, offset + length)
  {
    hide Pack, Unpack, IncrWriterNum, BumpLsn, SetState;
    var before, after := Control(Open, 0, offset), Control(Open, 1, offset + length);
    WordOps(before, Open, length);
    WordOps(Control(Open, 1, offset), Open, length);
    WordOps(after, Seal, 0);
    WordOps(after.(state := Seal), Io, 0);
    UnpackPack(after.(state := Io));
    UnpackPack(before);
    Fields(Pack(before));
    assert [Pack(before), Pack(after)][0] == Pack(before);
  }
}
