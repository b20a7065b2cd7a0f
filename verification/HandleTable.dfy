/** The cache's hash table: chained buckets that double when they get crowded, as a finite map. */
module HandleTable {
  import opened Common

  /** What a lookup compares: the hash and the key. */
  datatype Name = Name(key: Bytes, hash: nat)

  /** A chain link: a cached handle under its name. */
  datatype Item = Item(name: Name, id: nat)

  /** Bitwise and. */
  function BitAnd(a: nat, b: nat): (c: nat)
    ensures c <= b
  {
    if b == 0 then 0 else 2 * BitAnd(a / 2, b / 2) + (a % 2) * (b % 2)
  }

  predicate PowerOfTwo(n: nat) {
    n == 1 || (n > 1 && n % 2 == 0 && PowerOfTwo(n / 2))
  }

  /** The bucket of a name. */
  function BucketOf(name: Name, length: nat): (i: nat)
    requires length > 0
    ensures i < length
  {
    BitAnd(name.hash, length - 1)
  }

  /** Masking with a power of two less one is the remainder, so every bucket is the bucket of some hash. */
  lemma {:induction false} MaskIsRemainder(hash: nat, length: nat)
    requires PowerOfTwo(length)
    ensures BitAnd(hash, length - 1) == hash % length
  {
    if length > 1 {
      var half := length / 2;
      MaskIsRemainder(hash / 2, half);
      assert (length - 1) / 2 == half - 1 && (length - 1) % 2 == 1;
      Halved(hash, half);
    }
  }

  lemma Halved(hash: nat, half: nat)
    requires half > 0
    ensures hash % (2 * half) == 2 * (hash / 2 % half) + hash % 2
  {
    var h := hash / 2;
    assert h == half * (h / half) + h % half;
    Remainder(hash, 2 * half, h / half, 2 * (h % half) + hash % 2);
  }

  /** No name occurs twice in a chain. */
  ghost predicate Distinct(chain: seq<Item>) {
    forall a, b :: 0 <= a < b < |chain| ==> chain[a].name != chain[b].name
  }

  /** The chains hold exactly the items of `contents`, each in its bucket, once. */
  ghost predicate Holds(list: seq<seq<Item>>, contents: map<Name, nat>) {
    && 0 < |list|
    && (forall i :: 0 <= i < |list| ==> Distinct(list[i]))
    && (forall i, x :: 0 <= i < |list| && x in list[i] ==>
          BucketOf(x.name, |list|) == i && x.name in contents && contents[x.name] == x.id)
    && (forall name :: name in contents ==> Item(name, contents[name]) in list[BucketOf(name, |list|)])
  }

  /** FindPointer: where in its chain a name is, or the chain's end. */
  method FindPointer(chain: seq<Item>, name: Name) returns (p: nat)
    ensures p <= |chain|
    ensures p < |chain| ==> chain[p].name == name
    ensures forall a :: 0 <= a < p ==> chain[a].name != name
  {
    p := 0;
    while p < |chain| && chain[p].name != name
      invariant 0 <= p <= |chain|
      invariant forall a :: 0 <= a < p ==> chain[a].name != name
    {
      p := p + 1;
    }
  }

  // ----- What changing one chain does to the whole -----

  lemma MissingName(list: seq<seq<Item>>, contents: map<Name, nat>, name: Name)
    requires Holds(list, contents)
    requires forall a :: 0 <= a < |list[BucketOf(name, |list|)]| ==> list[BucketOf(name, |list|)][a].name != name
    ensures name !in contents
  {
    hide BucketOf;
  }

  lemma FoundName(list: seq<seq<Item>>, contents: map<Name, nat>, name: Name, p: nat)
    requires Holds(list, contents)
    requires p < |list[BucketOf(name, |list|)]| && list[BucketOf(name, |list|)][p].name == name
    ensures name in contents && list[BucketOf(name, |list|)][p] == Item(name, contents[name])
  {
    hide BucketOf;
    var chain := list[BucketOf(name, |list|)];
    assert chain[p] in chain;
  }

  /** Appending a new name to its chain, as Insert does, or putting it at the head, as Resize does. */
  lemma PutNew(list: seq<seq<Item>>, contents: map<Name, nat>, name: Name, id: nat, chain: seq<Item>)
    requires Holds(list, contents) && name !in contents
    requires var was := list[BucketOf(name, |list|)];
             chain == was + [Item(name, id)] || chain == [Item(name, id)] + was
    ensures Holds(list[BucketOf(name, |list|) := chain], contents[name := id])
  {
    hide BucketOf;
    var i := BucketOf(name, |list|);
    assert Distinct(list[i]);
    assert forall x :: x in list[i] ==> x.name != name;
    assert Distinct(chain);
    assert forall x :: x in chain <==> x in list[i] || x == Item(name, id);
    hide Distinct;
  }

  lemma PutOver(list: seq<seq<Item>>, contents: map<Name, nat>, name: Name, id: nat, p: nat)
    requires Holds(list, contents)
    requires p < |list[BucketOf(name, |list|)]| && list[BucketOf(name, |list|)][p].name == name
    ensures Holds(list[BucketOf(name, |list|) := list[BucketOf(name, |list|)][p := Item(name, id)]],
                  contents[name := id])
  {
    hide BucketOf;
    FoundName(list, contents, name, p);
    var i := BucketOf(name, |list|);
    var chain' := list[i][p := Item(name, id)];
    ReplaceInChain(list[i], p, id);
    var list' := list[i := chain'];
    hide Distinct;
    forall q | q in contents[name := id] ensures Item(q, contents[name := id][q]) in list'[BucketOf(q, |list|)] {
      if q != name { assert Item(q, contents[q]) in list[BucketOf(q, |list|)]; }
    }
  }

  lemma ReplaceInChain(chain: seq<Item>, p: nat, id: nat)
    requires Distinct(chain) && p < |chain|
    ensures var chain' := chain[p := Item(chain[p].name, id)];
            && Distinct(chain') && Item(chain[p].name, id) in chain'
            && (forall x :: x in chain' ==> x == Item(chain[p].name, id) || (x in chain && x.name != chain[p].name))
            && (forall x :: x in chain && x.name != chain[p].name ==> x in chain')
  {
    var chain' := chain[p := Item(chain[p].name, id)];
    assert chain'[p] == Item(chain[p].name, id);
    forall x | x in chain && x.name != chain[p].name ensures x in chain' {
      var a :| 0 <= a < |chain| && chain[a] == x;
      assert chain'[a] == x;
    }
  }

  lemma TakeOut(list: seq<seq<Item>>, contents: map<Name, nat>, name: Name, p: nat)
    requires Holds(list, contents)
    requires p < |list[BucketOf(name, |list|)]| && list[BucketOf(name, |list|)][p].name == name
    ensures var chain := list[BucketOf(name, |list|)];
            Holds(list[BucketOf(name, |list|) := chain[..p] + chain[p + 1..]], contents - {name})
  {
    hide BucketOf;
    FoundName(list, contents, name, p);
    var i := BucketOf(name, |list|);
    var rest := list[i][..p] + list[i][p + 1..];
    RemoveFromChain(list[i], p);
    var list' := list[i := rest];
    hide Distinct;
    forall q | q in contents - {name} ensures Item(q, contents[q]) in list'[BucketOf(q, |list|)] {
      assert Item(q, contents[q]) in list[BucketOf(q, |list|)];
    }
  }

  lemma RemoveFromChain(chain: seq<Item>, p: nat)
    requires Distinct(chain) && p < |chain|
    ensures var rest := chain[..p] + chain[p + 1..];
            && Distinct(rest)
            && (forall x :: x in rest <==> x in chain && x.name != chain[p].name)
  {
    var rest := chain[..p] + chain[p + 1..];
    forall x | x in chain && x.name != chain[p].name ensures x in rest {
      var a :| 0 <= a < |chain| && chain[a] == x;
      assert rest[if a < p then a else a - 1] == x;
    }
  }

  /** The least power of two, from four on, that is not below the number of items. */
  method NewLength(elems: nat) returns (n: nat)
    ensures n >= 4 && PowerOfTwo(n) && n >= elems && (n > 4 ==> n < 2 * elems)
  {
    n := 4;
    while n < elems
      invariant 4 <= n && PowerOfTwo(n) && (n > 4 ==> n < 2 * elems)
    {
      n := n * 2;
    }
  }

  class HandleTable {
    var elems: nat
    var list: seq<seq<Item>>
    ghost var contents: map<Name, nat>

    ghost predicate Valid()
      reads this
    {
      PowerOfTwo(|list|) && Holds(list, contents) && elems == |contents| && elems <= |list|
    }

    constructor ()
      ensures Valid() && contents == map[]
    {
      elems, list, contents := 0, [[], [], [], []], map[];
    }

    method Lookup(name: Name) returns (found: Option<nat>)
      requires Valid()
      ensures found == if name in contents then Some(contents[name]) else None
    {
      hide Holds, BucketOf;
      var chain := list[BucketOf(name, |list|)];
      var p := FindPointer(chain, name);
      if p < |chain| {
        FoundName(list, contents, name, p);
        found := Some(chain[p].id);
      } else {
        MissingName(list, contents, name);
        found := None;
      }
    }

    /** Insert a handle, replacing and returning one of the same name. */
    method Insert(name: Name, id: nat) returns (replaced: Option<nat>)
      requires Valid()
      modifies this
      ensures Valid() && contents == old(contents)[name := id]
      ensures replaced == if name in old(contents) then Some(old(contents)[name]) else None
    {
      hide Holds, BucketOf;
      var i := BucketOf(name, |list|);
      var chain := list[i];
      var p := FindPointer(chain, name);
      if p < |chain| {
        FoundName(list, contents, name, p);
        PutOver(list, contents, name, id, p);
        replaced := Some(chain[p].id);
        list := list[i := chain[p := Item(name, id)]];
        assert contents[name := id].Keys == contents.Keys;
        contents := contents[name := id];
      } else {
        MissingName(list, contents, name);
        PutNew(list, contents, name, id, chain + [Item(name, id)]);
        replaced := None;
        list := list[i := chain + [Item(name, id)]];
        contents := contents[name := id];
        elems := elems + 1;
        if elems > |list| { Resize(); }
      }
    }

    method Remove(name: Name) returns (removed: Option<nat>)
      requires Valid()
      modifies this
      ensures Valid() && contents == old(contents) - {name}
      ensures removed == if name in old(contents) then Some(old(contents)[name]) else None
    {
      hide Holds, BucketOf;
      var i := BucketOf(name, |list|);
      var chain := list[i];
      var p := FindPointer(chain, name);
      if p < |chain| {
        FoundName(list, contents, name, p);
        TakeOut(list, contents, name, p);
        removed := Some(chain[p].id);
        list := list[i := chain[..p] + chain[p + 1..]];
        RemoveCounts(contents, name);
        contents := contents - {name};
        elems := elems - 1;
      } else {
        MissingName(list, contents, name);
        assert contents - {name} == contents;
        removed := None;
      }
    }

    /** Move every item to the head of its chain in a table at least as long as the number of items. */
    method Resize()
      requires PowerOfTwo(|list|) && Holds(list, contents) && elems == |contents|
      modifies this
      ensures Valid() && contents == old(contents) && elems == old(elems)
      ensures |list| >= 4 && (|list| > 4 ==> |list| < 2 * elems)
    {
      hide Holds, BucketOf, Part, PowerOfTwo;
      var newLength := NewLength(elems);
      ghost var moved: map<Name, nat> := map[];
      var newList: seq<seq<Item>> := seq(newLength, _ => []);
      var count := 0;
      EmptyHolds(newList);
      PartNone(list, contents);
      var i: nat := 0;
      while i < |list|
        invariant unchanged(this)
        invariant i <= |list| && |newList| == newLength >= 4
        invariant Holds(newList, moved) && Part(list, contents, moved, i, 0) && count == |moved|
      {
        var h: nat := 0;
        while h < |list[i]|
          invariant unchanged(this)
          invariant i < |list| && h <= |list[i]| && |newList| == newLength >= 4
          invariant Holds(newList, moved) && Part(list, contents, moved, i, h) && count == |moved|
        {
          var x := list[i][h];
          PartNext(list, contents, moved, i, h);
          var b := BucketOf(x.name, newLength);
          PutNew(newList, moved, x.name, x.id, [x] + newList[b]);
          newList := newList[b := [x] + newList[b]];
          moved := moved[x.name := x.id];
          h := h + 1;
          count := count + 1;
        }
        PartChain(list, contents, moved, i);
        i := i + 1;
      }
      PartAll(list, contents, moved);
      assert elems == count;
      list := newList;
    }
  }

  lemma RemoveCounts(contents: map<Name, nat>, name: Name)
    requires name in contents
    ensures |contents - {name}| == |contents| - 1
  {
    assert contents == (contents - {name})[name := contents[name]];
  }

  lemma EmptyHolds(list: seq<seq<Item>>)
    requires 0 < |list| && forall i :: 0 <= i < |list| ==> list[i] == []
    ensures Holds(list, map[])
  {
  }

  // ----- Moving items one by one -----

  /** `moved` holds the items of the first `i` chains and the first `h` links of the next. */
  ghost predicate Part(list: seq<seq<Item>>, contents: map<Name, nat>, moved: map<Name, nat>, i: nat, h: nat) {
    && Holds(list, contents) && i <= |list| && (i < |list| ==> h <= |list[i]|) && (i == |list| ==> h == 0)
    && (forall name :: name in moved ==> name in contents && moved[name] == contents[name])
    && (forall name :: name in contents ==>
          (name in moved <==> BucketOf(name, |list|) < i
                              || (BucketOf(name, |list|) == i && i < |list|
                                  && exists a :: 0 <= a < h && list[i][a].name == name)))
  }

  lemma PartNone(list: seq<seq<Item>>, contents: map<Name, nat>)
    requires Holds(list, contents)
    ensures Part(list, contents, map[], 0, 0)
  {
  }

  lemma PartNext(list: seq<seq<Item>>, contents: map<Name, nat>, moved: map<Name, nat>, i: nat, h: nat)
    requires Part(list, contents, moved, i, h) && i < |list| && h < |list[i]|
    ensures list[i][h].name !in moved
    ensures Part(list, contents, moved[list[i][h].name := list[i][h].id], i, h + 1)
  {
    hide BucketOf;
    var x := list[i][h];
    assert x in list[i];
    assert Distinct(list[i]);
    var moved' := moved[x.name := x.id];
    forall name | name in contents
      ensures name in moved' <==> BucketOf(name, |list|) < i
                                  || (BucketOf(name, |list|) == i
                                      && exists a :: 0 <= a < h + 1 && list[i][a].name == name)
    {
      if name == x.name { assert list[i][h].name == name; }
      if exists a :: 0 <= a < h && list[i][a].name == name {
        var a :| 0 <= a < h && list[i][a].name == name;
        assert list[i][a].name == name;
      }
    }
  }

  lemma PartChain(list: seq<seq<Item>>, contents: map<Name, nat>, moved: map<Name, nat>, i: nat)
    requires i < |list| && Part(list, contents, moved, i, |list[i]|)
    ensures Part(list, contents, moved, i + 1, 0)
  {
    hide BucketOf;
    forall name | name in contents && BucketOf(name, |list|) == i
      ensures exists a :: 0 <= a < |list[i]| && list[i][a].name == name
    {
      var a :| 0 <= a < |list[i]| && list[i][a] == Item(name, contents[name]);
      assert list[i][a].name == name;
    }
  }

  lemma PartAll(list: seq<seq<Item>>, contents: map<Name, nat>, moved: map<Name, nat>)
    requires Part(list, contents, moved, |list|, 0)
    ensures moved == contents
  {
  }
}
