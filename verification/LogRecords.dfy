/** Framing of log records, and a reader that meets a torn tail. */
module LogRecords {
  import opened Common
  import opened Words

  const HEADER: nat := 10
  const MAX_DATA: nat := 65535     // a record's data must be shorter
  const TWO64: nat := 0x1_0000_0000_0000_0000

  /** LogRecord::SerializeTo and GetSerializeSize. */
  function Frame(lsn: nat, data: Bytes): (r: Bytes)
    ensures |r| == HEADER + |data|
  {
    LittleEndian(lsn, 8) + LittleEndian(|data|, 2) + data
  }

  /** The records of a batch, the first at `lsn`, each at the byte after the one before. */
  function FrameAll(records: seq<Bytes>, lsn: nat): Bytes {
    if records == [] then []
    else Frame(lsn, records[0]) + FrameAll(records[1..], lsn + HEADER + |records[0]|)
  }

  lemma FrameAllCons(records: seq<Bytes>, lsn: nat)
    requires records != []
    ensures FrameAll(records, lsn)
            == Frame(lsn, records[0]) + FrameAll(records[1..], lsn + HEADER + |records[0]|)
  {
    hide LittleEndian, Frame;
  }

  /** What SerializeTo demands of a record's data. */
  predicate Framable(records: seq<Bytes>) {
    forall i :: 0 <= i < |records| ==> |records[i]| < MAX_DATA
  }

  // ----- The reader as a function of the bytes ahead of it -----

  datatype Entry = Entry(lsn: nat, data: Bytes)

  /** The record at the front, if it is whole and not empty. */
  function Peek(bs: Bytes): Option<Entry> {
    if |bs| < HEADER then None
    else
      var size := FromLittleEndian(bs[8..HEADER]);
      if size == 0 || |bs| - HEADER < size then None
      else Some(Entry(FromLittleEndian(bs[..8]), bs[HEADER..HEADER + size]))
  }

  function ReadAll(bs: Bytes): seq<Entry>
    decreases |bs|
  {
    var e := Peek(bs);
    if e.None? then [] else [e.value] + ReadAll(bs[HEADER + |e.value.data|..])
  }

  // ----- Framing is undone by reading -----

  /** At the front of any bytes, a framed record is found whole, unless it is empty. */
  lemma PeekFrame(lsn: nat, data: Bytes, rest: Bytes)
    requires |data| < MAX_DATA
    ensures Peek(Frame(lsn, data) + rest) == if data == [] then None else Some(Entry(lsn % TWO64, data))
  {
    hide LittleEndian, FromLittleEndian;
    Pow256Values();
    LittleEndianInverse(lsn, 8);
    LittleEndianInverse(|data|, 2);
    var bs := Frame(lsn, data) + rest;
    assert bs[..8] == LittleEndian(lsn, 8);
    assert bs[8..HEADER] == LittleEndian(|data|, 2);
    assert bs[HEADER..HEADER + |data|] == data;
  }

  /** A proper beginning of a framed record shows no record. */
  lemma PeekTorn(lsn: nat, data: Bytes, n: nat)
    requires |data| < MAX_DATA && n < HEADER + |data|
    ensures Peek(Frame(lsn, data)[..n]).None?
  {
    hide LittleEndian, FromLittleEndian;
    Pow256Values();
    LittleEndianInverse(|data|, 2);
    var bs := Frame(lsn, data)[..n];
    if n >= HEADER {
      assert bs[8..HEADER] == LittleEndian(|data|, 2);
    }
  }

  // ----- Torn tails -----

  /** The entries of the records that lie whole in the first `n` bytes, up to the first empty record. */
  function Whole(records: seq<Bytes>, lsn: nat, n: nat): seq<Entry> {
    if records == [] || records[0] == [] || n < HEADER + |records[0]| then []
    else [Entry(lsn % TWO64, records[0])]
         + Whole(records[1..], lsn + HEADER + |records[0]|, n - HEADER - |records[0]|)
  }

  /** Any beginning of a framed log reads back as exactly the records that lie whole in it. */
  lemma {:induction false} TornTail(records: seq<Bytes>, lsn: nat, n: nat)
    requires Framable(records) && n <= |FrameAll(records, lsn)|
    ensures ReadAll(FrameAll(records, lsn)[..n]) == Whole(records, lsn, n)
    decreases |records|
  {
    hide LittleEndian, Frame;
    if records != [] {
      var data, next := records[0], lsn + HEADER + |records[0]|;
      var rest := FrameAll(records[1..], next);
      FrameAllCons(records, lsn);
      hide Peek, FrameAll, ReadAll;
      if n < HEADER + |data| {
        TornFirst(lsn, data, rest, n);
      } else {
        WholeFirst(lsn, data, rest, n);
        if data != [] {
          assert Framable(records[1..]);
          TornTail(records[1..], next, n - HEADER - |data|);
        }
      }
    }
  }

  lemma TornFirst(lsn: nat, data: Bytes, rest: Bytes, n: nat)
    requires |data| < MAX_DATA && n < HEADER + |data|
    ensures ReadAll((Frame(lsn, data) + rest)[..n]) == []
  {
    hide LittleEndian, Frame, Peek;
    assert (Frame(lsn, data) + rest)[..n] == Frame(lsn, data)[..n];
    PeekTorn(lsn, data, n);
  }

  lemma WholeFirst(lsn: nat, data: Bytes, rest: Bytes, n: nat)
    requires |data| < MAX_DATA && HEADER + |data| <= n <= HEADER + |data| + |rest|
    ensures ReadAll((Frame(lsn, data) + rest)[..n])
            == if data == [] then [] else [Entry(lsn % TWO64, data)] + ReadAll(rest[..n - HEADER - |data|])
  {
    hide LittleEndian, Frame, Peek;
    var bs, size := (Frame(lsn, data) + rest)[..n], HEADER + |data|;
    assert bs == Frame(lsn, data) + rest[..n - size];
    PeekFrame(lsn, data, rest[..n - size]);
    assert bs[size..] == rest[..n - size];
  }

  /** How many bytes the first `m` records take. */
  function SizeOf(records: seq<Bytes>): nat {
    if records == [] then 0 else HEADER + |records[0]| + SizeOf(records[1..])
  }

  lemma {:induction false} FrameAllSize(records: seq<Bytes>, lsn: nat)
    ensures |FrameAll(records, lsn)| == SizeOf(records)
  {
    hide LittleEndian, Frame;
    if records != [] { FrameAllSize(records[1..], lsn + HEADER + |records[0]|); }
  }

  /**
   For non-empty records `Whole` is the longest run of records that fits in `n` bytes.
  */
  lemma {:induction false} WholeIsLongest(records: seq<Bytes>, lsn: nat, n: nat)
    requires forall i :: 0 <= i < |records| ==> records[i] != []
    ensures |Whole(records, lsn, n)| <= |records|
    ensures SizeOf(records[..|Whole(records, lsn, n)|]) <= n
    ensures |Whole(records, lsn, n)| < |records| ==> n < SizeOf(records[..|Whole(records, lsn, n)| + 1])
    decreases |records|
  {
    if records != [] {
      PrefixSize(records, 1);
      if n >= HEADER + |records[0]| {
        var next := lsn + HEADER + |records[0]|;
        WholeIsLongest(records[1..], next, n - HEADER - |records[0]|);
        var m := |Whole(records, lsn, n)|;
        PrefixSize(records, m);
        if m < |records| { PrefixSize(records, m + 1); }
      }
    }
  }

  /** Each entry has the data of its record and its LSN: the byte position at which it starts. */
  lemma {:induction false} WholeEntries(records: seq<Bytes>, lsn: nat, n: nat, i: nat)
    requires i < |Whole(records, lsn, n)|
    ensures |Whole(records, lsn, n)| <= |records|
    ensures Whole(records, lsn, n)[i] == Entry((lsn + SizeOf(records[..i])) % TWO64, records[i])
    decreases |records|
  {
    var next := lsn + HEADER + |records[0]|;
    var rest := Whole(records[1..], next, n - HEADER - |records[0]|);
    assert Whole(records, lsn, n) == [Entry(lsn % TWO64, records[0])] + rest;
    if rest != [] {
      WholeEntries(records[1..], next, n - HEADER - |records[0]|, if i > 0 then i - 1 else 0);
    }
    if i > 0 {
      PrefixSize(records, i);
    }
  }

  /** A record that ends within the first `n` bytes is read, if no record up to it is empty. */
  lemma {:induction false} WholeReaches(records: seq<Bytes>, lsn: nat, n: nat, r: nat)
    requires r < |records| && SizeOf(records[..r + 1]) <= n
    requires forall i :: 0 <= i <= r ==> records[i] != []
    ensures r < |Whole(records, lsn, n)|
    decreases r
  {
    PrefixSize(records, r + 1);
    if r > 0 { WholeReaches(records[1..], lsn + HEADER + |records[0]|, n - HEADER - |records[0]|, r - 1); }
  }

  lemma PrefixSize(records: seq<Bytes>, m: nat)
    requires 0 < m <= |records|
    ensures SizeOf(records[..m]) == HEADER + |records[0]| + SizeOf(records[1..][..m - 1])
  {
    assert records[..m][1..] == records[1..][..m - 1];
  }

  // ----- Batches follow one another -----

  lemma {:induction false} FrameAllConcat(a: seq<Bytes>, b: seq<Bytes>, lsn: nat)
    ensures FrameAll(a + b, lsn) == FrameAll(a, lsn) + FrameAll(b, lsn + |FrameAll(a, lsn)|)
    decreases |a|
  {
    hide LittleEndian, Frame;
    if a == [] {
      assert a + b == b;
    } else {
      var next := lsn + HEADER + |a[0]|;
      FrameAllConcat(a[1..], b, next);
      FrameAllCons(a, lsn);
      FrameAllCons(a + b, lsn);
      assert (a + b)[1..] == a[1..] + b && (a + b)[0] == a[0];
      hide FrameAll;
      var tail := FrameAll(a[1..], next);
      assert lsn + |FrameAll(a, lsn)| == next + |tail|;
      AppendOnce(Frame(lsn, a[0]), tail, FrameAll(b, next + |tail|));
    }
  }

  // ----- The reader -----

  class PosixLogReader {
    const file: Bytes
    var pos: nat
    var hasNext: bool
    var currentLsn: nat
    var data: Bytes

    /** The reader stands after the record it has peeked at, if there is one. */
    ghost predicate Valid()
      reads this
    {
      && pos <= |file|
      && (hasNext ==> HEADER + |data| <= pos
                      && Peek(file[pos - HEADER - |data|..]) == Some(Entry(currentLsn, data)))
    }

    /** The records still to come. */
    ghost function Ahead(): seq<Entry>
      requires Valid()
      reads this
    {
      if hasNext then [Entry(currentLsn, data)] + ReadAll(file[pos..]) else []
    }

    constructor (bytes: Bytes)
      ensures file == bytes && Valid() && Ahead() == ReadAll(bytes)
    {
      file, pos := bytes, 0;
      hasNext, currentLsn, data := false, 0, [];
      new;
      assert file[0..] == file;
      PeekNext();
    }

    /** Read up to `n` bytes. */
    method Read(n: nat) returns (piece: Bytes)
      requires pos <= |file|
      modifies this`pos
      ensures old(pos) <= pos <= |file| && piece == file[old(pos)..pos]
      ensures |piece| == if |file| - old(pos) < n then |file| - old(pos) else n
    {
      var end := if |file| - pos < n then |file| else pos + n;
      piece := file[pos..end];
      pos := end;
    }

    method PeekNext()
      requires pos <= |file|
      modifies this
      ensures Valid() && Ahead() == ReadAll(file[old(pos)..])
    {
      hide FromLittleEndian;
      ghost var ahead := file[pos..];
      hasNext := false;
      var header := Read(HEADER);
      if |header| < HEADER { return; }
      assert header == ahead[..HEADER];
      assert header[..8] == ahead[..8] && header[8..HEADER] == ahead[8..HEADER];
      currentLsn := FromLittleEndian(header[..8]);
      var size := FromLittleEndian(header[8..HEADER]);
      if size == 0 { return; }
      data := Read(size);
      if |data| < size { return; }
      assert data == ahead[HEADER..HEADER + size];
      assert file[pos..] == ahead[HEADER + size..];
      hasNext := true;
    }

    method GetNextLogRecord() returns (lsn: nat, bytes: Bytes)
      requires Valid() && hasNext
      modifies this
      ensures Valid() && old(Ahead()) == [Entry(lsn, bytes)] + Ahead()
    {
      bytes := data;
      lsn := currentLsn;
      PeekNext();
    }
  }

  /** The loop of a client: read until there is no next record. */
  method ReadLog(file: Bytes) returns (entries: seq<Entry>)
    ensures entries == ReadAll(file)
  {
    entries := [];
    var reader := new PosixLogReader(file);
    while reader.hasNext
      invariant reader.Valid() && fresh(reader)
      invariant entries + reader.Ahead() == ReadAll(file)
      decreases |reader.Ahead()|
    {
      var lsn, bytes := reader.GetNextLogRecord();
      AppendOnce(entries, [Entry(lsn, bytes)], reader.Ahead());
      entries := entries + [Entry(lsn, bytes)];
    }
  }
}
