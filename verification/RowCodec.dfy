/**
 Rows: a total length, the encoded sort key, a fixed-width area with one slot per other column,
 and the bytes of the string columns.
*/
module RowCodec {
  import opened Common
  import opened Words
  import opened Lex
  import opened SortKey
  import opened SortKeyCodec

  const HEADER: nat := 4
  const TWO16: nat := 0x1_0000

  // ----- The layout -----

  /** GetTypeLength_, by type tag. */
  function Width(tag: Byte): nat {
    if tag == 1 || tag == 3 then 8 else if tag == 5 then 1 else 4
  }

  /** The schema's offset of the column after `tags`. */
  function Offset(tags: seq<Byte>): nat {
    if tags == [] then 0 else Offset(tags[..|tags| - 1]) + Width(tags[|tags| - 1])
  }

  function TwosComplement(i: int, half: nat): (w: nat)
    requires 0 - half <= i < half
    ensures w < 2 * half
  {
    if i < 0 then i + 2 * half else i
  }

  function FromTwosComplement(w: nat, half: nat): (i: int)
    requires w < 2 * half
    ensures 0 - half <= i < half
  {
    if w < half then w else w - 2 * half
  }

  /** A column's slot; a string's slot says where its bytes start and how many there are. */
  function SlotOf(v: Value, at: nat): (r: Bytes)
    ensures |r| == Width(Tag(v))
  {
    match v
    case I32(i) => LittleEndian(TwosComplement(i, TWO31), 4)
    case I64(i) => LittleEndian(TwosComplement(i, TWO63), 8)
    case F32(w) => LittleEndian(w, 4)
    case F64(w) => LittleEndian(w, 8)
    case Boolean(b) => [if b then 1 else 0]
    case Str(s) => LittleEndian(at, 2) + LittleEndian(|s|, 2)
  }

  function StringOf(v: Value): Bytes {
    if v.Str? then v.bytes else []
  }

  /** The bytes of all string columns, in column order. */
  function Strings(vs: seq<Value>): Bytes {
    if vs == [] then [] else Strings(vs[..|vs| - 1]) + StringOf(vs[|vs| - 1])
  }

  /** The fixed-width area, when the string bytes start at `at`. */
  function Slots(vs: seq<Value>, at: nat): Bytes {
    if vs == [] then []
    else
      var init := vs[..|vs| - 1];
      Slots(init, at) + SlotOf(vs[|vs| - 1], at + |Strings(init)|)
  }

  function Tags(vs: seq<Value>): (tags: seq<Byte>)
    ensures |tags| == |vs|
  {
    seq(|vs|, i requires 0 <= i < |vs| => Tag(vs[i]))
  }

  /** The row without its leading total length. */
  function Body(values: seq<Value>, keys: nat): Bytes
    requires keys <= |values|
  {
    var key, rest := Encode(values[..keys]), values[keys..];
    LittleEndian(|key|, 2) + key + Slots(rest, HEADER + |key| + Offset(Tags(rest))) + Strings(rest)
  }

  /** The bytes Serialize writes; the length field keeps the low 16 bits of the length. */
  function RowBytes(values: seq<Value>, keys: nat): Bytes
    requires keys <= |values|
  {
    LittleEndian(2 + |Body(values, keys)|, 2) + Body(values, keys)
  }

  // ----- Where things are -----

  lemma TagsPrefix(vs: seq<Value>, j: nat)
    requires j <= |vs|
    ensures Tags(vs)[..j] == Tags(vs[..j])
  {
  }

  lemma {:induction false} SlotsLength(vs: seq<Value>, at: nat)
    ensures |Slots(vs, at)| == Offset(Tags(vs))
    decreases |vs|
  {
    hide SlotOf, StringOf;
    if vs != [] {
      var n := |vs| - 1;
      SlotsLength(vs[..n], at);
      TagsPrefix(vs, n);
    }
  }

  /** The slot of column `j` starts at the schema's offset for it. */
  lemma {:induction false} SlotAt(vs: seq<Value>, at: nat, j: nat)
    requires j < |vs|
    ensures Offset(Tags(vs)[..j]) + Width(Tag(vs[j])) <= |Slots(vs, at)|
    ensures Slots(vs, at)[Offset(Tags(vs)[..j])..Offset(Tags(vs)[..j]) + Width(Tag(vs[j]))]
            == SlotOf(vs[j], at + |Strings(vs[..j])|)
    decreases |vs|
  {
    hide SlotOf, StringOf, Width;
    var n := |vs| - 1;
    var init := vs[..n];
    TagsPrefix(vs, j);
    SlotsLength(init, at);
    if j < n {
      SlotAt(init, at, j);
      TagsPrefix(init, j);
      assert init[..j] == vs[..j];
      FrontSlice(Slots(init, at), SlotOf(vs[n], at + |Strings(init)|), Offset(Tags(vs)[..j]),
                 Offset(Tags(vs)[..j]) + Width(Tag(vs[j])));
    }
  }

  lemma FrontSlice(a: Bytes, b: Bytes, from: nat, to: nat)
    requires from <= to <= |a|
    ensures (a + b)[from..to] == a[from..to]
  {
  }

  /** The bytes of column `j` start after those of the string columns before it. */
  lemma {:induction false} StringAt(vs: seq<Value>, j: nat)
    requires j < |vs|
    ensures |Strings(vs[..j])| + |StringOf(vs[j])| <= |Strings(vs)|
    ensures Strings(vs)[|Strings(vs[..j])|..|Strings(vs[..j])| + |StringOf(vs[j])|] == StringOf(vs[j])
    decreases |vs|
  {
    hide StringOf;
    var n := |vs| - 1;
    if j < n {
      StringAt(vs[..n], j);
      assert vs[..n][..j] == vs[..j];
      var from := |Strings(vs[..j])|;
      assert Strings(vs)[from..from + |StringOf(vs[j])|] == Strings(vs[..n])[from..from + |StringOf(vs[j])|];
    }
  }

  // ----- Reading a column -----

  /** A slot read by type, with string bytes taken from the row. */
  function ReadSlot(tag: Byte, slot: Bytes, row: Bytes): Option<Value>
    requires |slot| == Width(tag)
  {
    WordsBound();
    LittleEndianBound(slot);
    if tag == 0 then Some(I32(FromTwosComplement(FromLittleEndian(slot), TWO31)))
    else if tag == 1 then Some(I64(FromTwosComplement(FromLittleEndian(slot), TWO63)))
    else if tag == 2 then Some(F32(FromLittleEndian(slot)))
    else if tag == 3 then Some(F64(FromLittleEndian(slot)))
    else if tag == 5 then Some(Boolean(slot[0] != 0))
    else if tag == 4 then
      var from, length := FromLittleEndian(slot[..2]), FromLittleEndian(slot[2..4]);
      if from + length > |row| then None else Some(Str(row[from..from + length]))
    else None
  }

  lemma WordsBound()
    ensures Pow256(4) == 2 * TWO31 && Pow256(8) == 2 * TWO63
  {
    Pow256Values();
  }

  /** GetPropNormalValue_ of a column at offset `offset` in the fixed-width area. */
  function GetNormal(row: Bytes, tag: Byte, offset: nat): Option<Value> {
    if |row| < HEADER then None
    else
      var from := offset + FromLittleEndian(row[2..4]) + HEADER;
      if from + Width(tag) > |row| then None
      else ReadSlot(tag, row[from..from + Width(tag)], row)
  }

  /** GetSortKeys. */
  function SortKeysOf(row: Bytes): Option<Bytes> {
    if |row| < HEADER || HEADER + FromLittleEndian(row[2..4]) > |row| then None
    else Some(row[HEADER..HEADER + FromLittleEndian(row[2..4])])
  }

  /** GetPropSortKey_: skip to the column and read it; its type must be the schema's. */
  function GetSortKey(row: Bytes, tag: Byte, index: nat): Option<Value> {
    var key := SortKeysOf(row);
    if key.None? then None
    else
      var rest := SkipValues(key.value, index);
      if rest.None? then None
      else
        var r := ReadValue(rest.value);
        if r.None? || Tag(r.value.0) != tag then None else Some(r.value.0)
  }

  /** as_slice. */
  function AsSlice(row: Bytes): Option<Bytes> {
    if |row| < 2 || FromLittleEndian(row[..2]) > |row| then None else Some(row[..FromLittleEndian(row[..2])])
  }

  // ----- Reading back what was written -----

  lemma WordFits(v: nat, n: nat)
    requires v < Pow256(n)
    ensures FromLittleEndian(LittleEndian(v, n)) == v
  {
    LittleEndianInverse(v, n);
    Remainder(v, Pow256(n), 0, v);
  }

  lemma SlotRoundTrip(v: Value, at: nat, row: Bytes)
    requires at < TWO16 && |StringOf(v)| < TWO16
    requires at + |StringOf(v)| <= |row| && row[at..at + |StringOf(v)|] == StringOf(v)
    ensures ReadSlot(Tag(v), SlotOf(v, at), row) == Some(v)
  {
    hide LittleEndian, FromLittleEndian, Pow256;
    WordsBound();
    Pow256Values();
    match v
    case I32(i) => WordFits(TwosComplement(i, TWO31), 4);
    case I64(i) => WordFits(TwosComplement(i, TWO63), 8);
    case F32(w) => WordFits(w, 4);
    case F64(w) => WordFits(w, 8);
    case Boolean(b) =>
    case Str(s) =>
      WordFits(at, 2);
      WordFits(|s|, 2);
      var slot := SlotOf(v, at);
      assert slot[..2] == LittleEndian(at, 2) && slot[2..4] == LittleEndian(|s|, 2);
  }

  /** The parts of a row, at their places, whatever follows the row in the buffer. */
  lemma RowParts(values: seq<Value>, keys: nat, tail: Bytes)
    requires keys <= |values| && |RowBytes(values, keys)| < TWO16
    ensures var key, rest := Encode(values[..keys]), values[keys..];
            var row := RowBytes(values, keys) + tail;
            var fixed := HEADER + |key|;
            var at := fixed + Offset(Tags(rest));
            && at + |Strings(rest)| == |RowBytes(values, keys)|
            && FromLittleEndian(row[..2]) == |RowBytes(values, keys)| && FromLittleEndian(row[2..4]) == |key|
            && row[HEADER..fixed] == key
            && row[fixed..at] == Slots(rest, at)
            && row[at..at + |Strings(rest)|] == Strings(rest)
  {
    hide LittleEndian, FromLittleEndian, Pow256, Slots, Strings, Encode, Offset;
    var key, rest := Encode(values[..keys]), values[keys..];
    var at := HEADER + |key| + Offset(Tags(rest));
    SlotsLength(rest, at);
    Pow256Values();
    WordFits(2 + |Body(values, keys)|, 2);
    WordFits(|key|, 2);
    var a, b, s, t := LittleEndian(2 + |Body(values, keys)|, 2), LittleEndian(|key|, 2), Slots(rest, at), Strings(rest);
    PartsAt(a, b, key, s, t, tail);
    assert RowBytes(values, keys) + tail == a + b + key + s + t + tail;
  }

  lemma PartsAt(a: Bytes, b: Bytes, key: Bytes, s: Bytes, t: Bytes, tail: Bytes)
    requires |a| == 2 && |b| == 2
    ensures var row := a + b + key + s + t + tail;
            && row[..2] == a && row[2..4] == b && row[HEADER..HEADER + |key|] == key
            && row[HEADER + |key|..HEADER + |key| + |s|] == s
            && row[HEADER + |key| + |s|..HEADER + |key| + |s| + |t|] == t
  {
  }

  lemma SubSlice(row: Bytes, a: nat, b: nat, from: nat, to: nat)
    requires a <= b <= |row| && from <= to <= b - a
    ensures row[a..b][from..to] == row[a + from..a + to]
  {
    var part := row[a..b];
    forall i | 0 <= i < to - from ensures part[from..to][i] == row[a + from..a + to][i] {
      assert part[from + i] == row[a + from + i];
    }
  }

  /** Every column of a row reads back as it was written. */
  lemma NormalRoundTrip(values: seq<Value>, keys: nat, tail: Bytes, index: nat)
    requires keys <= index < |values| && |RowBytes(values, keys)| < TWO16
    ensures GetNormal(RowBytes(values, keys) + tail, Tag(values[index]), Offset(Tags(values)[keys..index]))
            == Some(values[index])
  {
    hide LittleEndian, FromLittleEndian, Slots, Strings, Encode, Offset, RowBytes, SlotOf, ReadSlot, Width;
    var key, rest, j := Encode(values[..keys]), values[keys..], index - keys;
    var row, fixed := RowBytes(values, keys) + tail, HEADER + |key|;
    var at := fixed + Offset(Tags(rest));
    RowParts(values, keys, tail);
    SlotAt(rest, at, j);
    StringAt(rest, j);
    assert Tags(values)[keys..index] == Tags(rest)[..j];
    var from, width := Offset(Tags(rest)[..j]), Width(Tag(values[index]));
    SubSlice(row, fixed, at, from, from + width);
    var here, length := |Strings(rest[..j])|, |StringOf(rest[j])|;
    SubSlice(row, at, at + |Strings(rest)|, here, here + length);
    SlotRoundTrip(rest[j], at + here, row);
  }

  /**
   GetSortKeys is the encoded key and nothing after it, whatever follows in the row and the
   buffer, if and only if the key is shorter than 2^16 bytes.
  */
  lemma SortKeysExact(values: seq<Value>, keys: nat, tail: Bytes)
    requires keys <= |values|
    ensures SortKeysOf(RowBytes(values, keys) + tail) == Some(Encode(values[..keys])) <==>
              |Encode(values[..keys])| < TWO16
  {
    hide LittleEndian, FromLittleEndian, Slots, Strings, Encode, Offset, Pow256;
    Pow256Values();
    var key, rest := Encode(values[..keys]), values[keys..];
    var s := Slots(rest, HEADER + |key| + Offset(Tags(rest)));
    PartsAt(LittleEndian(2 + |Body(values, keys)|, 2), LittleEndian(|key|, 2), key, s, Strings(rest), tail);
    var row := RowBytes(values, keys) + tail;
    assert row == LittleEndian(2 + |Body(values, keys)|, 2) + LittleEndian(|key|, 2) + key + s + Strings(rest) + tail;
    LittleEndianInverse(|key|, 2);
    if |key| < TWO16 { Remainder(|key|, TWO16, 0, |key|); }
  }

  /**
   Two rows have the same sort key exactly if their key columns are equal, and with key columns of
   the same types it orders the rows as those columns do, whatever the other columns are.
  */
  lemma RowsBySortKey(a: seq<Value>, b: seq<Value>, m: nat, n: nat, tailA: Bytes, tailB: Bytes)
    requires m <= |a| && |Encode(a[..m])| < TWO16 && n <= |b| && |Encode(b[..n])| < TWO16
    requires AllComparable(a[..m]) && AllComparable(b[..n])
    ensures var x, y := SortKeysOf(RowBytes(a, m) + tailA), SortKeysOf(RowBytes(b, n) + tailB);
            && x.Some? && y.Some? && (x.value == y.value <==> a[..m] == b[..n])
            && (SameTypes(a[..m], b[..n]) ==> (Less(x.value, y.value) <==> TupleLess(a[..m], b[..n])))
  {
    hide RowBytes, Encode, SortKeysOf, AllComparable, SameTypes, TupleLess, Less;
    SortKeysExact(a, m, tailA);
    SortKeysExact(b, n, tailB);
    EncodeInjective(a[..m], b[..n]);
    if SameTypes(a[..m], b[..n]) { OrderEmbedding(a[..m], b[..n]); }
  }

  lemma KeyInRow(values: seq<Value>, keys: nat)
    requires keys <= |values|
    ensures |Encode(values[..keys])| < |RowBytes(values, keys)|
  {
    hide LittleEndian, Slots, Strings, Encode, Offset;
  }

  /** A sort key column reads back exactly if its encoding does. */
  lemma SortKeyRoundTrip(values: seq<Value>, keys: nat, tail: Bytes, index: nat)
    requires index < keys <= |values| && |Encode(values[..keys])| < TWO16
    ensures GetSortKey(RowBytes(values, keys) + tail, Tag(values[index]), index).Some?
    ensures GetSortKey(RowBytes(values, keys) + tail, Tag(values[index]), index) == Some(values[index])
            <==> Comparable(values[index])
  {
    hide LittleEndian, FromLittleEndian, Slots, Strings, Encode, Offset, RowBytes, SkipValues, ReadValue, SortKeysOf;
    SortKeysExact(values, keys, tail);
    var vs := values[..keys];
    SkipExact(vs, index);
    EncodeCons(vs[index..]);
    assert vs[index..][0] == values[index];
    ValueRoundTrip(values[index], Encode(vs[index..][1..]));
    ReadKeepsTag(values[index], Encode(vs[index..][1..]));
  }

  lemma EncodeCons(vs: seq<Value>)
    requires vs != []
    ensures Encode(vs) == EncodeValue(vs[0]) + Encode(vs[1..])
  {
  }

  lemma ReadKeepsTag(v: Value, rest: Bytes)
    ensures ReadValue(EncodeValue(v) + rest).Some? ==> Tag(ReadValue(EncodeValue(v) + rest).value.0) == Tag(v)
  {
    hide ReadString, ReadWord, UnflipSign, FloatBits;
  }

  /** The row's own slice is exactly what was written if and only if that is shorter than 2^16 bytes. */
  lemma AsSliceExact(values: seq<Value>, keys: nat, tail: Bytes)
    requires keys <= |values|
    ensures AsSlice(RowBytes(values, keys) + tail) == Some(RowBytes(values, keys)) <==>
              |RowBytes(values, keys)| < TWO16
  {
    hide LittleEndian, FromLittleEndian, Body, Pow256;
    Pow256Values();
    var bytes := RowBytes(values, keys);
    var row := bytes + tail;
    LittleEndianInverse(2 + |Body(values, keys)|, 2);
    assert row[..2] == LittleEndian(2 + |Body(values, keys)|, 2);
    assert row[..|bytes|] == bytes;
  }
}
