/** Writing and reading sort keys, byte by byte, and that reading undoes writing. */
module SortKeyCodec {
  import opened Common
  import opened SortKey
  import opened Words

  // ----- Reading, as functions of the bytes left -----

  /** The string at the front and what follows; `None` where the reader would run off the buffer. */
  function ReadString(bs: Bytes): Option<(Bytes, Bytes)>
    decreases |bs|
  {
    if |bs| < GROUP + 1 then None
    else if bs[GROUP] as int == GROUP + 1 then
      After(bs[..GROUP], ReadString(bs[GROUP + 1..]))
    else if bs[GROUP] as int > |bs| then None
    else Some((bs[..bs[GROUP]], bs[GROUP + 1..]))
  }

  function ReadWord(bs: Bytes, n: nat): (w: nat)
    requires n <= |bs|
    ensures w < Pow256(n)
  {
    WordBound(bs[..n]);
    FromBigEndian(bs[..n])
  }

  lemma {:induction false} WordBound(bs: Bytes)
    ensures FromBigEndian(bs) < Pow256(|bs|)
    decreases |bs|
  {
    if bs != [] { WordBound(bs[..|bs| - 1]); }
  }

  /** ReadValue on the bytes after the type tag. */
  function ReadPayload(tag: Byte, bs: Bytes): Option<(Value, Bytes)> {
    Pow256Values();
    if tag == 0 && |bs| >= 4 then Some((I32(UnflipSign(ReadWord(bs, 4), TWO31)), bs[4..]))
    else if tag == 1 && |bs| >= 8 then Some((I64(UnflipSign(ReadWord(bs, 8), TWO63)), bs[8..]))
    else if tag == 2 && |bs| >= 4 then Some((F32(FloatBits(ReadWord(bs, 4), TWO31)), bs[4..]))
    else if tag == 3 && |bs| >= 8 then Some((F64(FloatBits(ReadWord(bs, 8), TWO63)), bs[8..]))
    else if tag == 4 then
      var r := ReadString(bs);
      if r.None? then None else Some((Str(r.value.0), r.value.1))
    else if tag == 5 && |bs| >= 1 then Some((Boolean(bs[0] != 0), bs[1..]))
    else None
  }

  function ReadValue(bs: Bytes): Option<(Value, Bytes)> {
    if bs == [] then None else ReadPayload(bs[0], bs[1..])
  }

  /** BufReaderBase::Skip: past the end it does nothing, and SkipK does not look at its answer. */
  function Skip(bs: Bytes, n: nat): Bytes {
    if n > |bs| then bs else bs[n..]
  }

  function SkipValue(bs: Bytes): Option<Bytes> {
    if bs == [] then None
    else if bs[0] == 5 then Some(Skip(bs[1..], 1))
    else if bs[0] == 0 || bs[0] == 2 then Some(Skip(bs[1..], 4))
    else if bs[0] == 1 || bs[0] == 3 then Some(Skip(bs[1..], 8))
    else if bs[0] == 4 then
      var r := ReadString(bs[1..]);
      if r.None? then None else Some(r.value.1)
    else None
  }

  function SkipValues(bs: Bytes, k: nat): Option<Bytes>
    decreases k
  {
    if k == 0 then Some(bs)
    else
      var rest := SkipValue(bs);
      if rest.None? then None else SkipValues(rest.value, k - 1)
  }

  /** All the values of a key, as TraverseSK_ visits them. */
  function Decode(bs: Bytes): Option<seq<Value>>
    decreases |bs|
  {
    if bs == [] then Some([])
    else
      var r := ReadValue(bs);
      if r.None? || |r.value.1| >= |bs| then None
      else
        var rest := Decode(r.value.1);
        if rest.None? then None else Some([r.value.0] + rest.value)
  }

  // ----- Reading undoes writing -----

  function Zeros(n: nat): Bytes {
    seq(n, _ => 0)
  }

  lemma {:induction false} WholeGroup(s: Bytes, n: nat, c: nat)
    requires c + n <= GROUP && |s| >= n
    ensures Group(s, n, c) == s[..n] + [Marker(c + n)]
    decreases n
  {
    if n > 0 {
      WholeGroup(s[1..], n - 1, c + 1);
      assert s[..n] == [s[0]] + s[1..][..n - 1];
    }
  }

  lemma {:induction false} EndedGroup(n: nat, c: nat)
    requires c + n <= GROUP
    ensures Group([], n, c) == Zeros(n) + [Marker(c)]
  {
    if n > 0 {
      EndedGroup(n - 1, c);
      assert Zeros(n) == [0] + Zeros(n - 1);
    }
  }

  lemma {:induction false} PartGroup(s: Bytes, n: nat, c: nat)
    requires c + n <= GROUP && |s| < n
    ensures Group(s, n, c) == s + Zeros(n - |s|) + [Marker(c + |s|)]
    decreases n
  {
    hide Zeros;
    if s == [] {
      EndedGroup(n, c);
      assert s + Zeros(n) == Zeros(n);
    } else {
      PartGroup(s[1..], n - 1, c + 1);
      assert s == [s[0]] + s[1..];
      AppendTwice([s[0]], s[1..], Zeros(n - |s|), [Marker(c + |s|)]);
    }
  }

  lemma {:induction false} StringRoundTrip(s: Bytes, rest: Bytes)
    ensures ReadString(EncodeString(s) + rest) == Some((s, rest))
    decreases |s|
  {
    hide EncodeString, Group;
    var bs := EncodeString(s) + rest;
    if |s| >= GROUP {
      FullGroup(s);
      StringRoundTrip(s[GROUP..], rest);
      AppendTwice(s[..GROUP], [(GROUP + 1) as Byte], EncodeString(s[GROUP..]), rest);
      assert bs[GROUP + 1..] == EncodeString(s[GROUP..]) + rest;
      assert bs[..GROUP] == s[..GROUP] && bs[GROUP] as int == GROUP + 1;
      assert s[..GROUP] + s[GROUP..] == s;
    } else {
      LastGroup(s);
      assert bs[GROUP] as int == |s|;
      assert bs[..|s|] == s && bs[GROUP + 1..] == rest;
    }
  }

  lemma WordRoundTrip(w: nat, n: nat, rest: Bytes)
    requires w < Pow256(n)
    ensures ReadWord(BigEndian(w, n) + rest, n) == w && (BigEndian(w, n) + rest)[n..] == rest
  {
    assert (BigEndian(w, n) + rest)[..n] == BigEndian(w, n);
    BigEndianInverse(w, n);
  }

  /** A value is read back as it was written exactly if it is not a float with its sign bit set. */
  lemma ValueRoundTrip(v: Value, rest: Bytes)
    ensures ReadValue(EncodeValue(v) + rest).Some?
    ensures ReadValue(EncodeValue(v) + rest).value.1 == rest
    ensures ReadValue(EncodeValue(v) + rest).value.0 == v <==> Comparable(v)
  {
    Pow256Values();
    assert (EncodeValue(v) + rest)[1..] == Payload(v) + rest;
    match v
    case I32(i) => WordRoundTrip(FlipSign(i, TWO31), 4, rest);
    case I64(i) => WordRoundTrip(FlipSign(i, TWO63), 8, rest);
    case F32(w) => WordRoundTrip(FloatWord(w, TWO31), 4, rest);
    case F64(w) => WordRoundTrip(FloatWord(w, TWO63), 8, rest);
    case Str(s) => StringRoundTrip(s, rest);
    case Boolean(b) => assert (Payload(v) + rest)[1..] == rest;
  }

  /** Skipping a value passes exactly its encoding, negative floats included. */
  lemma SkipPassesValue(v: Value, rest: Bytes)
    ensures SkipValue(EncodeValue(v) + rest) == Some(rest)
  {
    hide EncodeString, BigEndian, ReadString, FlipSign, FloatWord;
    assert (EncodeValue(v) + rest)[1..] == Payload(v) + rest;
    if v.Str? {
      StringRoundTrip(v.bytes, rest);
    } else {
      assert (Payload(v) + rest)[|Payload(v)|..] == rest;
    }
  }

  /** Skipping `k` values of an encoded tuple leaves the encoding of the others; skipping too many fails. */
  lemma {:induction false} SkipExact(vs: seq<Value>, k: nat)
    ensures SkipValues(Encode(vs), k) == if k <= |vs| then Some(Encode(vs[k..])) else None
  {
    hide EncodeValue, SkipValue;
    if k == 0 {
      assert vs[0..] == vs;
    } else if vs == [] {
      NothingToSkip();
    } else {
      SkipPassesValue(vs[0], Encode(vs[1..]));
      SkipExact(vs[1..], k - 1);
      assert k <= |vs| ==> vs[1..][k - 1..] == vs[k..];
    }
  }

  lemma NothingToSkip()
    ensures SkipValue([]).None?
  {
  }

  lemma {:induction false} RoundTrip(vs: seq<Value>)
    requires AllComparable(vs)
    ensures Decode(Encode(vs)) == Some(vs)
  {
    if vs != [] {
      ValueRoundTrip(vs[0], Encode(vs[1..]));
      RoundTrip(vs[1..]);
      assert vs == [vs[0]] + vs[1..];
    }
  }

  /** Keys are equal as bytes exactly if they are equal as tuples. */
  lemma EncodeInjective(vs: seq<Value>, ws: seq<Value>)
    requires AllComparable(vs) && AllComparable(ws)
    ensures Encode(vs) == Encode(ws) <==> vs == ws
  {
    RoundTrip(vs);
    RoundTrip(ws);
  }

  // ----- The writer -----

  /** PutComparableString, appending to `buf`. */
  method PutComparableString(buf: Bytes, sp: Bytes) returns (out: Bytes)
    ensures out == buf + EncodeString(sp)
  {
    out := buf;
    hide Group, EncodeString;
    var length: nat, current: nat := |sp|, 0;
    while length >= GROUP
      invariant current + length == |sp|
      invariant out + EncodeString(sp[current..]) == buf + EncodeString(sp)
    {
      FullGroup(sp[current..]);
      assert sp[current..][..GROUP] == sp[current..current + GROUP];
      assert sp[current..][GROUP..] == sp[current + GROUP..];
      AppendTwice(out, sp[current..current + GROUP], [(GROUP + 1) as Byte], EncodeString(sp[current + GROUP..]));
      out := out + sp[current..current + GROUP];
      out := out + [(GROUP + 1) as Byte];
      length, current := length - GROUP, current + GROUP;
    }
    LastGroup(sp[current..]);
    AppendTwice(out, sp[current..], Zeros(GROUP - length), [Marker(length)]);
    if length != 0 {
      out := out + sp[current..current + length];
    }
    out := out + Zeros(GROUP - length);
    out := out + [length as Byte];
  }

  lemma FullGroup(s: Bytes)
    requires |s| >= GROUP
    ensures EncodeString(s) == s[..GROUP] + [(GROUP + 1) as Byte] + EncodeString(s[GROUP..])
  {
    hide Group;
    WholeGroup(s, GROUP, 0);
  }

  lemma LastGroup(s: Bytes)
    requires |s| < GROUP
    ensures EncodeString(s) == s + Zeros(GROUP - |s|) + [Marker(|s|)]
  {
    hide Group, Zeros;
    PartGroup(s, GROUP, 0);
  }

  class ComparableBufWriter {
    var buf: Bytes

    constructor ()
      ensures buf == []
    {
      buf := [];
    }

    method WriteValue(value: Value)
      modifies this
      ensures buf == old(buf) + EncodeValue(value)
    {
      hide BigEndian, EncodeString, FlipSign, FloatWord;
      buf := buf + [Tag(value)];
      var tagged := buf;
      match value {
        case I32(i) => buf := buf + BigEndian(FlipSign(i, TWO31), 4);
        case I64(i) => buf := buf + BigEndian(FlipSign(i, TWO63), 8);
        case F32(w) => buf := buf + BigEndian(FloatWord(w, TWO31), 4);
        case F64(w) => buf := buf + BigEndian(FloatWord(w, TWO63), 8);
        case Str(s) => buf := PutComparableString(buf, s);
        case Boolean(b) => buf := buf + [if b then 1 else 0];
      }
      assert buf == tagged + Payload(value);
      AppendOnce(old(buf), [Tag(value)], Payload(value));
    }
  }

  /** The SortKeys constructor. */
  method MakeSortKeys(values: seq<Value>) returns (bytes: Bytes)
    ensures bytes == Encode(values)
  {
    var writer := new ComparableBufWriter();
    var i := 0;
    while i < |values|
      invariant 0 <= i <= |values|
      invariant writer.buf + Encode(values[i..]) == Encode(values)
    {
      hide EncodeValue;
      assert values[i..][1..] == values[i + 1..];
      AppendOnce(writer.buf, EncodeValue(values[i]), Encode(values[i + 1..]));
      writer.WriteValue(values[i]);
      i := i + 1;
    }
    bytes := writer.buf;
  }

  // ----- The reader -----

  /** GetComparableString: the string at the front of `sp`, and where it ends. */
  method GetComparableString(sp: Bytes) returns (result: Option<(Bytes, Bytes)>)
    ensures result == ReadString(sp)
  {
    var s: Bytes, view, hasRemaining := [], sp, true;
    assert ReadString(sp).Some? ==> s + ReadString(sp).value.0 == ReadString(sp).value.0;
    while hasRemaining
      invariant hasRemaining ==> ReadString(sp) == After(s, ReadString(view))
      invariant !hasRemaining ==> ReadString(sp) == Some((s, view))
      decreases hasRemaining, |view|
    {
      if |view| < GROUP + 1 { return None; }
      var remaining: nat;
      if view[GROUP] as int == GROUP + 1 {
        hasRemaining := true;
        remaining := GROUP;
        AfterTwice(s, view[..GROUP], ReadString(view[GROUP + 1..]));
      } else {
        hasRemaining := false;
        remaining := view[GROUP] as nat;
      }
      if remaining > |view| { return None; }
      assert s + view[..0] == s;
      if remaining != 0 {
        s := s + view[..remaining];
      }
      view := view[GROUP + 1..];
    }
    result := Some((s, view));
  }

  /** A read whose string comes after `s`. */
  function After(s: Bytes, r: Option<(Bytes, Bytes)>): Option<(Bytes, Bytes)> {
    if r.None? then None else Some((s + r.value.0, r.value.1))
  }

  lemma AfterTwice(a: Bytes, b: Bytes, r: Option<(Bytes, Bytes)>)
    ensures After(a, After(b, r)) == After(a + b, r)
  {
    if r.Some? { AppendOnce(a, b, r.value.0); }
  }

  class ComparableBufReader {
    const buffer: Bytes
    var ptr: nat

    ghost predicate Valid()
      reads this
    {
      ptr <= |buffer|
    }

    function Rest(): Bytes
      requires Valid()
      reads this
    {
      buffer[ptr..]
    }

    constructor (bytes: Bytes)
      ensures Valid() && Rest() == bytes
    {
      buffer := bytes;
      ptr := 0;
    }

    /** SkipK: pass `k` values; `ok` says that no CHECK failed. */
    method SkipK(k: nat) returns (ok: bool)
      requires Valid()
      modifies this
      ensures Valid()
      ensures ok == SkipValues(old(Rest()), k).Some?
      ensures ok ==> SkipValues(old(Rest()), k) == Some(Rest())
    {
      hide ReadString;
      var i := 0;
      while i < k
        invariant 0 <= i <= k && Valid()
        invariant SkipValues(old(Rest()), k) == SkipValues(Rest(), k - i)
      {
        if ptr == |buffer| { return false; }
        var tag := buffer[ptr];
        assert Rest()[1..] == buffer[ptr + 1..];
        label Tagged:
        ptr := ptr + 1;
        if tag == 5 { SkipBytes(1); }
        else if tag == 0 || tag == 2 { SkipBytes(4); }
        else if tag == 1 || tag == 3 { SkipBytes(8); }
        else if tag == 4 {
          var r := GetComparableString(Rest());
          if r.None? { return false; }
          ReadStringSuffix(Rest());
          ptr := |buffer| - |r.value.1|;
        } else { return false; }
        i := i + 1;
      }
      ok := true;
    }

    method SkipBytes(n: nat)
      requires Valid()
      modifies this
      ensures Valid() && Rest() == Skip(old(Rest()), n)
    {
      if ptr + n <= |buffer| {
        ptr := ptr + n;
      }
    }
  }

  /** What a string read leaves is the end of what it was given. */
  lemma {:induction false} ReadStringSuffix(bs: Bytes)
    ensures ReadString(bs).Some? ==>
              var rest := ReadString(bs).value.1; |rest| <= |bs| && rest == bs[|bs| - |rest|..]
    decreases |bs|
  {
    if |bs| >= GROUP + 1 && bs[GROUP] as int == GROUP + 1 {
      ReadStringSuffix(bs[GROUP + 1..]);
    }
  }
}
