/** Schemas and rows as the program builds and reads them. */
module Rows {
  import opened Common
  import opened Words
  import opened SortKey
  import opened SortKeyCodec
  import opened RowCodec

  datatype Column = Column(id: nat, tag: Byte)

  function ColumnTags(columns: seq<Column>): (tags: seq<Byte>)
    ensures |tags| == |columns|
  {
    seq(|columns|, i requires 0 <= i < |columns| => columns[i].tag)
  }

  predicate DistinctIds(columns: seq<Column>) {
    forall i, j :: 0 <= i < j < |columns| ==> columns[i].id != columns[j].id
  }

  class Schema {
    const columns: seq<Column>
    const sortKeyCount: nat
    var columnIndex: map<nat, nat>
    const offsetCacheRow: array<nat>

    /** The caches hold what they cache. */
    ghost predicate Valid()
      reads this, offsetCacheRow
    {
      && sortKeyCount <= |columns| && offsetCacheRow.Length == |columns| + 1
      && (forall c :: c in columns ==> c.tag <= 5)
      && (forall i :: 0 <= i < |columns| ==> columns[i].id in columnIndex && columnIndex[columns[i].id] == i)
      && (forall id :: id in columnIndex ==> columnIndex[id] < |columns| && columns[columnIndex[id]].id == id)
      && (forall i :: sortKeyCount <= i <= |columns| ==>
            offsetCacheRow[i] == Offset(ColumnTags(columns)[sortKeyCount..i]))
    }

    /** Two columns with one id are a CHECK failure, hence the precondition. */
    constructor (cols: seq<Column>, sortKeys: nat)
      requires sortKeys <= |cols| && DistinctIds(cols) && forall c :: c in cols ==> c.tag <= 5
      ensures Valid() && columns == cols && sortKeyCount == sortKeys
    {
      columns, sortKeyCount, columnIndex := cols, sortKeys, map[];
      offsetCacheRow := new nat[|cols| + 1](_ => 0);
      new;
      BuildColumnIndex();
      BuildOffsetCacheForRow();
    }

    method BuildColumnIndex()
      requires DistinctIds(columns) && columnIndex == map[]
      modifies this`columnIndex
      ensures forall i :: 0 <= i < |columns| ==> columns[i].id in columnIndex && columnIndex[columns[i].id] == i
      ensures forall id :: id in columnIndex ==> columnIndex[id] < |columns| && columns[columnIndex[id]].id == id
    {
      var i := 0;
      while i < |columns|
        invariant 0 <= i <= |columns|
        invariant forall id :: id in columnIndex ==> columnIndex[id] < i && columns[columnIndex[id]].id == id
        invariant forall k :: 0 <= k < i ==> columns[k].id in columnIndex && columnIndex[columns[k].id] == k
      {
        columnIndex := columnIndex[columns[i].id := i];
        i := i + 1;
      }
    }

    method BuildOffsetCacheForRow()
      requires sortKeyCount <= |columns| && offsetCacheRow.Length == |columns| + 1
      modifies offsetCacheRow
      ensures forall i :: sortKeyCount <= i <= |columns| ==>
                offsetCacheRow[i] == Offset(ColumnTags(columns)[sortKeyCount..i])
    {
      hide Width, ColumnTags;
      ghost var tags := ColumnTags(columns);
      var offset, i := 0, sortKeyCount;
      assert tags[i..i] == [];
      while i < |columns|
        invariant sortKeyCount <= i <= |columns|
        invariant offset == Offset(tags[sortKeyCount..i])
        invariant forall k :: sortKeyCount <= k < i ==> offsetCacheRow[k] == Offset(tags[sortKeyCount..k])
      {
        offsetCacheRow[i] := offset;
        OffsetNext(tags, sortKeyCount, i);
        TagOf(columns, i);
        offset := offset + Width(columns[i].tag);
        i := i + 1;
      }
      offsetCacheRow[|columns|] := offset;
    }

    /** GetColumnIndex; a column that is not there is a CHECK failure. */
    function GetColumnIndex(id: nat): Option<nat>
      reads this
    {
      if id in columnIndex then Some(columnIndex[id]) else None
    }
  }

  lemma OffsetNext(tags: seq<Byte>, from: nat, i: nat)
    requires from <= i < |tags|
    ensures Offset(tags[from..i + 1]) == Offset(tags[from..i]) + Width(tags[i])
  {
    assert tags[from..i + 1][..i - from] == tags[from..i];
  }

  lemma TagOf(columns: seq<Column>, i: nat)
    requires i < |columns|
    ensures ColumnTags(columns)[i] == columns[i].tag
  {
  }

  /** The values Serialize accepts for a schema. */
  predicate WellTyped(values: seq<Value>, columns: seq<Column>) {
    |values| == |columns| && forall i :: 0 <= i < |values| ==> Tag(values[i]) == columns[i].tag
  }

  lemma WellTypedTags(values: seq<Value>, columns: seq<Column>)
    requires WellTyped(values, columns)
    ensures Tags(values) == ColumnTags(columns)
  {
  }

  /** The loop of Row::Serialize: slots with running string offsets from `at` on, and the strings. */
  method SerializeColumns(values: seq<Value>, keys: nat, at: nat)
    returns (slots: Bytes, strings: Bytes, length: nat)
    requires keys <= |values|
    ensures slots == Slots(values[keys..], at) && strings == Strings(values[keys..])
    ensures length == |slots| + |strings|
  {
    hide Slots, Strings, SlotOf, StringOf;
    slots, strings, length := [], [], 0;
    var i, stringOffset := keys, at;
    assert values[keys..keys] == [];
    NoColumns(at);
    while i < |values|
      invariant keys <= i <= |values|
      invariant slots == Slots(values[keys..i], at) && strings == Strings(values[keys..i])
      invariant stringOffset == at + |strings| && length == |slots| + |strings|
    {
      ColumnNext(values, keys, i, at);
      slots := slots + SlotOf(values[i], stringOffset);
      strings := strings + StringOf(values[i]);
      stringOffset := stringOffset + |StringOf(values[i])|;
      length := length + Width(Tag(values[i])) + |StringOf(values[i])|;
      i := i + 1;
    }
    assert values[keys..|values|] == values[keys..];
  }

  /**
   Row::Serialize: the sort key, the columns, and the total length in the reserved header. Lengths
   and offsets are kept in sixteen bits.
  */
  method Serialize(values: seq<Value>, schema: Schema) returns (row: Bytes)
    requires schema.Valid() && WellTyped(values, schema.columns)
    ensures row == RowBytes(values, schema.sortKeyCount)
  {
    hide LittleEndian, Offset, SlotOf, Encode, Slots, Strings;
    var keys, n := schema.sortKeyCount, |schema.columns|;
    var key := MakeSortKeys(values[..keys]);
    var stringOffset := HEADER + |key| + schema.offsetCacheRow[n];
    var slots, strings, length := SerializeColumns(values, keys, stringOffset);
    assert schema.offsetCacheRow[n] == Offset(Tags(values[keys..])) by {
      WellTypedTags(values, schema.columns);
      assert Tags(values[keys..]) == ColumnTags(schema.columns)[keys..n];
    }
    var body := LittleEndian(|key|, 2) + key + slots + strings;
    row := LittleEndian(HEADER + |key| + length, 2) + body;
  }

  lemma NoColumns(at: nat)
    ensures Slots([], at) == [] && Strings([]) == []
  {
  }

  lemma ColumnNext(values: seq<Value>, keys: nat, i: nat, at: nat)
    requires keys <= i < |values|
    ensures Slots(values[keys..i + 1], at)
            == Slots(values[keys..i], at) + SlotOf(values[i], at + |Strings(values[keys..i])|)
    ensures Strings(values[keys..i + 1]) == Strings(values[keys..i]) + StringOf(values[i])
  {
    hide SlotOf;
    assert values[keys..i + 1][..i - keys] == values[keys..i];
  }

  /** GetProp by column id; `None` is a failed CHECK. */
  method GetProp(row: Bytes, id: nat, schema: Schema) returns (value: Option<Value>)
    requires schema.Valid()
    ensures (forall i :: 0 <= i < |schema.columns| ==> schema.columns[i].id != id) ==> value.None?
    ensures forall i :: 0 <= i < |schema.columns| && schema.columns[i].id == id ==>
              value == if i < schema.sortKeyCount then GetSortKey(row, schema.columns[i].tag, i)
                       else GetNormal(row, schema.columns[i].tag,
                                      Offset(ColumnTags(schema.columns)[schema.sortKeyCount..i]))
  {
    hide GetSortKey, GetNormal, Offset, ColumnTags;
    var index := schema.GetColumnIndex(id);
    if index.None? { return None; }
    var i := index.value;
    if i < schema.sortKeyCount {
      value := GetSortKey(row, schema.columns[i].tag, i);
    } else {
      value := GetNormal(row, schema.columns[i].tag, schema.offsetCacheRow[i]);
    }
  }

  /**
   Serialize and GetProp together: every column of a row shorter than 2^16 bytes reads back as
   written, wherever the row lies in a larger buffer; a sort key column does so exactly if it is
   not a float with its sign bit set.
  */
  method SerializeThenGet(values: seq<Value>, schema: Schema, tail: Bytes, i: nat)
    returns (row: Bytes, value: Option<Value>)
    requires schema.Valid() && WellTyped(values, schema.columns) && i < |values|
    requires |RowBytes(values, schema.sortKeyCount)| < TWO16
    ensures AsSlice(row + tail) == Some(row)
    ensures value == Some(values[i]) <==> i >= schema.sortKeyCount || Comparable(values[i])
  {
    hide LittleEndian, Offset, SlotOf, Encode, RowBytes, AsSlice, GetSortKey, GetNormal;
    row := Serialize(values, schema);
    value := GetProp(row + tail, schema.columns[i].id, schema);
    AsSliceExact(values, schema.sortKeyCount, tail);
    WellTypedTags(values, schema.columns);
    if i < schema.sortKeyCount {
      KeyInRow(values, schema.sortKeyCount);
      SortKeyRoundTrip(values, schema.sortKeyCount, tail, i);
    } else {
      NormalRoundTrip(values, schema.sortKeyCount, tail, i);
    }
  }
}
