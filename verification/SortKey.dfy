/**
 Sort keys: tuples of values encoded so that byte order is value order.

 A value is a type tag and a payload. Floats are carried as their bit patterns.
*/
module SortKey {
  import opened Common
  import opened Lex
  import opened Words

  const TWO31 := 0x8000_0000
  const TWO63 := 0x8000_0000_0000_0000
  const GROUP: nat := 8

  type Int32 = x: int | -TWO31 <= x < TWO31
  type Int64 = x: int | -TWO63 <= x < TWO63
  type Word32 = x: int | 0 <= x < 2 * TWO31
  type Word64 = x: int | 0 <= x < 2 * TWO63

  datatype Value =
    | I32(i32: Int32)
    | I64(i64: Int64)
    | F32(f32: Word32)
    | F64(f64: Word64)
    | Str(bytes: Bytes)
    | Boolean(b: bool)

  // ----- Fixed-width payloads -----

  /** The two's complement word of `v`, its sign bit flipped; `half` is the sign bit. */
  function FlipSign(v: int, half: nat): (w: int)
    requires 0 - half <= v < half
    ensures 0 <= w < 2 * half
  {
    var word := if v < 0 then v + 2 * half else v;
    if word < half then word + half else word - half
  }

  function UnflipSign(w: int, half: nat): (v: int)
    requires 0 <= w < 2 * half
    ensures 0 - half <= v < half
  {
    var word := if w < half then w + half else w - half;
    if word < half then word else word - 2 * half
  }

  /** A float's word: the comparison with zero is made on an unsigned word, so the sign bit is always set. */
  function FloatWord(bits: int, half: nat): (w: int)
    requires 0 <= bits < 2 * half
    ensures 0 <= w < 2 * half
  {
    if bits < half then bits + half else bits
  }

  function FloatBits(w: int, half: nat): (bits: int)
    requires 0 <= w < 2 * half
    ensures 0 <= bits < 2 * half
  {
    if w >= half then w - half else 2 * half - 1 - w
  }

  // ----- Strings in groups of eight -----

  /** The marker of a group that holds `c` bytes. */
  function Marker(c: nat): Byte
    requires c <= GROUP
  {
    if c == GROUP then (GROUP + 1) as Byte else c as Byte
  }

  /** One group: up to `n` more bytes of `s`, zeros after its end, then the marker for all the bytes put in. */
  function Group(s: Bytes, n: nat, c: nat): (g: Bytes)
    requires c + n <= GROUP
    ensures |g| == n + 1
    decreases n
  {
    if n == 0 then [Marker(c)]
    else if s == [] then [0] + Group([], n - 1, c)
    else [s[0]] + Group(s[1..], n - 1, c + 1)
  }

  function EncodeString(s: Bytes): (r: Bytes)
    ensures |r| >= GROUP + 1
    decreases |s|
  {
    if |s| >= GROUP then Group(s, GROUP, 0) + EncodeString(s[GROUP..]) else Group(s, GROUP, 0)
  }

  function Payload(v: Value): Bytes {
    match v
    case I32(i) => BigEndian(FlipSign(i, TWO31), 4)
    case I64(i) => BigEndian(FlipSign(i, TWO63), 8)
    case F32(w) => BigEndian(FloatWord(w, TWO31), 4)
    case F64(w) => BigEndian(FloatWord(w, TWO63), 8)
    case Str(s) => EncodeString(s)
    case Boolean(b) => [if b then 1 else 0]
  }

  function Tag(v: Value): Byte {
    match v
    case I32(_) => 0
    case I64(_) => 1
    case F32(_) => 2
    case F64(_) => 3
    case Str(_) => 4
    case Boolean(_) => 5
  }

  function EncodeValue(v: Value): Bytes {
    [Tag(v)] + Payload(v)
  }

  function Encode(vs: seq<Value>): Bytes {
    if vs == [] then [] else EncodeValue(vs[0]) + Encode(vs[1..])
  }

  // ----- The order the encoding must reproduce -----

  /** A float's value as a sign and a magnitude. */
  function SignMagnitude(bits: int, half: nat): int
    requires 0 <= bits < 2 * half
  {
    if bits < half then bits else -(bits - half)
  }

  predicate ValueLess(v: Value, w: Value) {
    match (v, w)
    case (I32(a), I32(b)) => a < b
    case (I64(a), I64(b)) => a < b
    case (F32(a), F32(b)) => SignMagnitude(a, TWO31) < SignMagnitude(b, TWO31)
    case (F64(a), F64(b)) => SignMagnitude(a, TWO63) < SignMagnitude(b, TWO63)
    case (Str(a), Str(b)) => Less(a, b)
    case (Boolean(a), Boolean(b)) => !a && b
    case _ => false
  }

  predicate TupleLess(vs: seq<Value>, ws: seq<Value>) {
    ws != [] && (vs == [] || ValueLess(vs[0], ws[0]) || (vs[0] == ws[0] && TupleLess(vs[1..], ws[1..])))
  }

  /** Columns agree in type as far as both tuples go. */
  predicate SameTypes(vs: seq<Value>, ws: seq<Value>) {
    forall i :: 0 <= i < |vs| && i < |ws| ==> Tag(vs[i]) == Tag(ws[i])
  }

  /** Floats with a clear sign bit; every other value. */
  predicate Comparable(v: Value) {
    match v
    case F32(w) => w < TWO31
    case F64(w) => w < TWO63
    case _ => true
  }

  predicate AllComparable(vs: seq<Value>) {
    forall i :: 0 <= i < |vs| ==> Comparable(vs[i])
  }

  // ----- Byte strings that differ before either ends -----

  predicate Differ(a: Bytes, b: Bytes) {
    a != [] && b != [] && (a[0] != b[0] || Differ(a[1..], b[1..]))
  }

  lemma {:induction false} DifferDecides(a: Bytes, b: Bytes, x: Bytes, y: Bytes)
    requires Differ(a, b)
    ensures Differ(a + x, b + y) && (Less(a + x, b + y) <==> Less(a, b)) && a + x != b + y
  {
    assert (a + x)[1..] == a[1..] + x && (b + y)[1..] == b[1..] + y;
    if a[0] == b[0] {
      DifferDecides(a[1..], b[1..], x, y);
    }
  }

  lemma {:induction false} SamePrefix(p: Bytes, a: Bytes, b: Bytes)
    ensures Less(p + a, p + b) <==> Less(a, b)
    ensures Differ(a, b) ==> Differ(p + a, p + b)
  {
    if p == [] {
      assert p + a == a && p + b == b;
    } else {
      assert (p + a)[1..] == p[1..] + a && (p + b)[1..] == p[1..] + b;
      SamePrefix(p[1..], a, b);
    }
  }

  lemma {:induction false} SameLengthDiffer(a: Bytes, b: Bytes)
    requires |a| == |b| && a != b
    ensures Differ(a, b)
  {
    if a[0] == b[0] {
      assert a == [a[0]] + a[1..] && b == [b[0]] + b[1..];
      SameLengthDiffer(a[1..], b[1..]);
    }
  }

  // ----- Fixed width: order and inverse -----

  lemma {:induction false} LessAppend(a: Bytes, b: Bytes, x: Byte, y: Byte)
    requires |a| == |b|
    ensures Less(a + [x], b + [y]) <==> Less(a, b) || (a == b && x < y)
  {
    if a == [] {
    } else {
      assert (a + [x])[1..] == a[1..] + [x] && (b + [y])[1..] == b[1..] + [y];
      assert a == [a[0]] + a[1..] && b == [b[0]] + b[1..];
      LessAppend(a[1..], b[1..], x, y);
    }
  }

  lemma {:induction false} BigEndianOrder(v: nat, w: nat, n: nat)
    requires v < Pow256(n) && w < Pow256(n)
    ensures Less(BigEndian(v, n), BigEndian(w, n)) <==> v < w
    ensures BigEndian(v, n) == BigEndian(w, n) <==> v == w
  {
    BigEndianInverse(v, n);
    BigEndianInverse(w, n);
    if n > 0 {
      BigEndianOrder(v / 256, w / 256, n - 1);
      LessAppend(BigEndian(v / 256, n - 1), BigEndian(w / 256, n - 1), (v % 256) as Byte, (w % 256) as Byte);
    }
  }

  /** Two words of the same width are apart, and in order, exactly as numbers. */
  lemma WordsInOrder(v: nat, w: nat, n: nat)
    requires v < Pow256(n) && w < Pow256(n) && v != w
    ensures Differ(BigEndian(v, n), BigEndian(w, n))
    ensures Less(BigEndian(v, n), BigEndian(w, n)) <==> v < w
  {
    BigEndianOrder(v, w, n);
    SameLengthDiffer(BigEndian(v, n), BigEndian(w, n));
  }

  // ----- Groups: order and injectivity -----

  /** A string that has ended, with fewer bytes in its group, comes first whatever the other holds. */
  lemma {:induction false} EndedFirst(b: Bytes, n: nat, ca: nat, cb: nat)
    requires ca < cb && cb + n <= GROUP
    ensures Less(Group([], n, ca), Group(b, n, cb))
    decreases n
  {
    if n > 0 {
      var a', b' := Group([], n, ca), Group(b, n, cb);
      if b == [] {
        EndedFirst([], n - 1, ca, cb);
        assert a'[1..] == Group([], n - 1, ca) && b'[1..] == Group([], n - 1, cb);
      } else {
        EndedFirst(b[1..], n - 1, ca, cb + 1);
        assert a'[1..] == Group([], n - 1, ca) && b'[1..] == Group(b[1..], n - 1, cb + 1);
      }
    }
  }

  lemma GroupCons(s: Bytes, n: nat, c: nat)
    requires 0 < n && c + n <= GROUP
    ensures Group(s, n, c)[0] == if s == [] then 0 else s[0]
    ensures Group(s, n, c)[1..] == if s == [] then Group([], n - 1, c) else Group(s[1..], n - 1, c + 1)
  {
  }

  /** Unequal groups are ordered as the strings they begin. */
  lemma {:induction false} GroupOrder(a: Bytes, b: Bytes, n: nat, c: nat)
    requires c + n <= GROUP && Group(a, n, c) != Group(b, n, c)
    ensures Less(Group(a, n, c), Group(b, n, c)) <==> Less(a, b)
    decreases n
  {
    assert n > 0;
    GroupCons(a, n, c);
    GroupCons(b, n, c);
    hide Group;
    var ga, gb := Group(a, n, c), Group(b, n, c);
    assert ga == [ga[0]] + ga[1..] && gb == [gb[0]] + gb[1..];
    if a == [] && b != [] {
      EndedFirst(b[1..], n - 1, c, c + 1);
    } else if a != [] && b == [] {
      EndedFirst(a[1..], n - 1, c, c + 1);
      LessAsymmetric(gb, ga);
    } else if a[0] == b[0] {
      GroupOrder(a[1..], b[1..], n - 1, c + 1);
    }
  }

  /** A group of a string that has ended is no group of one that goes on. */
  lemma EndedDiffers(b: Bytes, n: nat, c: nat)
    requires n > 0 && c + n <= GROUP && b != []
    ensures Group([], n, c) != Group(b, n, c)
  {
    GroupCons([], n, c);
    GroupCons(b, n, c);
    hide Group;
    EndedFirst(b[1..], n - 1, c, c + 1);
    LessIrreflexive(Group([], n - 1, c));
  }

  /** Equal groups come from strings that agree on their first `n` bytes. */
  lemma {:induction false} GroupInjective(a: Bytes, b: Bytes, n: nat, c: nat)
    requires c + n <= GROUP && Group(a, n, c) == Group(b, n, c)
    ensures (|a| >= n <==> |b| >= n) && (|a| >= n ==> a[..n] == b[..n]) && (|a| < n ==> a == b)
    decreases n
  {
    if n > 0 {
      if a == [] {
        if b != [] { EndedDiffers(b, n, c); }
      } else if b == [] {
        EndedDiffers(a, n, c);
      } else {
        GroupCons(a, n, c);
        GroupCons(b, n, c);
        hide Group;
        GroupInjective(a[1..], b[1..], n - 1, c + 1);
        assert a == [a[0]] + a[1..] && b == [b[0]] + b[1..];
        assert |a| >= n ==> a[..n] == [a[0]] + a[1..][..n - 1];
        assert |b| >= n ==> b[..n] == [b[0]] + b[1..][..n - 1];
      }
    }
  }

  // ----- Values and tuples: order -----

  lemma {:induction false} StringOrder(a: Bytes, b: Bytes)
    requires a != b
    ensures Differ(EncodeString(a), EncodeString(b))
    ensures Less(EncodeString(a), EncodeString(b)) <==> Less(a, b)
    decreases |a|
  {
    var ga, gb := Group(a, GROUP, 0), Group(b, GROUP, 0);
    var ra := if |a| >= GROUP then EncodeString(a[GROUP..]) else [];
    var rb := if |b| >= GROUP then EncodeString(b[GROUP..]) else [];
    assert EncodeString(a) == ga + ra && EncodeString(b) == gb + rb;
    if ga == gb {
      GroupInjective(a, b, GROUP, 0);
      assert a == a[..GROUP] + a[GROUP..] && b == b[..GROUP] + b[GROUP..];
      StringOrder(a[GROUP..], b[GROUP..]);
      SamePrefix(ga, ra, rb);
      SamePrefix(a[..GROUP], a[GROUP..], b[GROUP..]);
    } else {
      GroupOrder(a, b, GROUP, 0);
      SameLengthDiffer(ga, gb);
      DifferDecides(ga, gb, ra, rb);
    }
  }

  lemma PayloadOrder(v: Value, w: Value)
    requires Tag(v) == Tag(w) && Comparable(v) && Comparable(w) && v != w
    ensures Differ(Payload(v), Payload(w))
    ensures Less(Payload(v), Payload(w)) <==> ValueLess(v, w)
  {
    Pow256Values();
    match v
    case I32(a) => WordsInOrder(FlipSign(a, TWO31), FlipSign(w.i32, TWO31), 4);
    case I64(a) => WordsInOrder(FlipSign(a, TWO63), FlipSign(w.i64, TWO63), 8);
    case F32(a) => WordsInOrder(FloatWord(a, TWO31), FloatWord(w.f32, TWO31), 4);
    case F64(a) => WordsInOrder(FloatWord(a, TWO63), FloatWord(w.f64, TWO63), 8);
    case Str(a) => StringOrder(a, w.bytes);
    case Boolean(a) =>
  }

  /** One column: unequal values of a type have encodings that are apart before either ends, in value order. */
  lemma ValueOrder(v: Value, w: Value)
    requires Tag(v) == Tag(w) && Comparable(v) && Comparable(w) && v != w
    ensures Differ(EncodeValue(v), EncodeValue(w))
    ensures Less(EncodeValue(v), EncodeValue(w)) <==> ValueLess(v, w)
  {
    PayloadOrder(v, w);
    SamePrefix([Tag(v)], Payload(v), Payload(w));
  }

  lemma ValueLessIrreflexive(v: Value)
    ensures !ValueLess(v, v)
  {
    if v.Str? { LessIrreflexive(v.bytes); }
  }

  /** Byte order of encoded tuples is the lexicographic order of the tuples. */
  lemma {:induction false} OrderEmbedding(vs: seq<Value>, ws: seq<Value>)
    requires SameTypes(vs, ws) && AllComparable(vs) && AllComparable(ws)
    ensures Less(Encode(vs), Encode(ws)) <==> TupleLess(vs, ws)
  {
    if vs != [] && ws != [] {
      if vs[0] == ws[0] {
        ValueLessIrreflexive(vs[0]);
        OrderEmbedding(vs[1..], ws[1..]);
        SamePrefix(EncodeValue(vs[0]), Encode(vs[1..]), Encode(ws[1..]));
      } else {
        assert Tag(vs[0]) == Tag(ws[0]);
        ValueOrder(vs[0], ws[0]);
        DifferDecides(EncodeValue(vs[0]), EncodeValue(ws[0]), Encode(vs[1..]), Encode(ws[1..]));
      }
    }
  }

  /** No encoded value is the beginning of another. */
  lemma PrefixFree(v: Value, w: Value, x: Bytes, y: Bytes)
    requires Comparable(v) && Comparable(w) && EncodeValue(v) + x == EncodeValue(w) + y
    ensures v == w && x == y
  {
    assert (EncodeValue(v) + x)[0] == Tag(v) && (EncodeValue(w) + y)[0] == Tag(w);
    if v != w {
      ValueOrder(v, w);
      DifferDecides(EncodeValue(v), EncodeValue(w), x, y);
      assert false;
    }
    var n := |EncodeValue(v)|;
    assert x == (EncodeValue(v) + x)[n..] && y == (EncodeValue(w) + y)[n..];
  }

  // ----- Floats: exactly when order and value survive -----

  /** A pair of floats is encoded in order, both ways round, exactly if the two are equal or their sum is positive. */
  lemma FloatOrderExact(a: int, b: int, half: nat)
    requires 0 <= a < 2 * half && 0 <= b < 2 * half
    ensures (&& (FloatWord(a, half) < FloatWord(b, half) <==> SignMagnitude(a, half) < SignMagnitude(b, half))
             && (FloatWord(b, half) < FloatWord(a, half) <==> SignMagnitude(b, half) < SignMagnitude(a, half)))
            <==> (SignMagnitude(a, half) == SignMagnitude(b, half)
                  || SignMagnitude(a, half) + SignMagnitude(b, half) > 0)
  {
  }

  /** The same on encoded columns, for both widths. */
  lemma FloatColumnExact(v: Value, w: Value)
    requires (v.F32? && w.F32?) || (v.F64? && w.F64?)
    ensures (&& (Less(EncodeValue(v), EncodeValue(w)) <==> ValueLess(v, w))
             && (Less(EncodeValue(w), EncodeValue(v)) <==> ValueLess(w, v)))
            <==> (FloatOf(v) == FloatOf(w) || FloatOf(v) + FloatOf(w) > 0)
  {
    Pow256Values();
    SamePrefix([Tag(v)], Payload(v), Payload(w));
    SamePrefix([Tag(v)], Payload(w), Payload(v));
    if v.F32? {
      BigEndianOrder(FloatWord(v.f32, TWO31), FloatWord(w.f32, TWO31), 4);
      BigEndianOrder(FloatWord(w.f32, TWO31), FloatWord(v.f32, TWO31), 4);
      FloatOrderExact(v.f32, w.f32, TWO31);
    } else {
      BigEndianOrder(FloatWord(v.f64, TWO63), FloatWord(w.f64, TWO63), 8);
      BigEndianOrder(FloatWord(w.f64, TWO63), FloatWord(v.f64, TWO63), 8);
      FloatOrderExact(v.f64, w.f64, TWO63);
    }
  }

  function FloatOf(v: Value): int
    requires v.F32? || v.F64?
  {
    if v.F32? then SignMagnitude(v.f32, TWO31) else SignMagnitude(v.f64, TWO63)
  }

  /** A float and its negation have the same encoding. */
  lemma NegationCollides(w: Word32)
    requires w < TWO31
    ensures EncodeValue(F32(w)) == EncodeValue(F32(w + TWO31))
  {
  }
}
