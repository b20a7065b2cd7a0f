/**
 One shard of the LRU cache: a hash table, a list of unreferenced entries from oldest to newest, a
 list of entries in use, reference counts and the sum of charges.
*/
module LruCache {
  import opened Common
  import opened HandleTable

  datatype Handle = Handle(name: Name, charge: nat, inCache: bool, refs: nat)

  /** The state of a shard as a value; `held` counts the references clients have. */
  datatype View = View(
    handles: map<nat, Handle>,
    contents: map<Name, nat>,
    lru: seq<nat>,
    inUse: seq<nat>,
    usage: int,
    held: multiset<nat>)

  // ----- Lists -----

  ghost predicate NoDup(s: seq<nat>) {
    forall i, j :: 0 <= i < j < |s| ==> s[i] != s[j]
  }

  /** LRU_Remove. */
  function Without(s: seq<nat>, id: nat): seq<nat> {
    if s == [] then [] else if s[0] == id then s[1..] else [s[0]] + Without(s[1..], id)
  }

  lemma {:induction false} WithoutSpec(s: seq<nat>, id: nat)
    requires NoDup(s)
    ensures NoDup(Without(s, id))
    ensures forall x :: x in Without(s, id) <==> x in s && x != id
    decreases |s|
  {
    if s != [] {
      assert s == [s[0]] + s[1..];
      assert s[0] !in s[1..];
      if s[0] != id {
        WithoutSpec(s[1..], id);
      }
    }
  }

  /** `s'` is `s` with `id` unlinked: everything else stays where it was. */
  ghost predicate Unlinked(s: seq<nat>, id: nat, s': seq<nat>) {
    (id !in s && s' == s) || exists a, b :: id !in a && s == a + [id] + b && s' == a + b
  }

  lemma {:induction false} WithoutMiddle(a: seq<nat>, id: nat, b: seq<nat>)
    requires id !in a
    ensures Without(a + [id] + b, id) == a + b
    decreases |a|
  {
    if a == [] {
      assert [id] + b == a + [id] + b && ([id] + b)[1..] == b && a + b == b;
    } else {
      WithoutMiddle(a[1..], id, b);
      assert (a + [id] + b)[1..] == a[1..] + [id] + b && (a + b) == [a[0]] + (a[1..] + b);
    }
  }

  /** LRU_Remove unlinks one entry, if it is there, and moves no other. */
  lemma WithoutUnlinks(s: seq<nat>, id: nat)
    ensures Unlinked(s, id, Without(s, id))
  {
    if id in s {
      var k := FirstAt(s, id);
      assert s == s[..k] + [id] + s[k + 1..];
      WithoutMiddle(s[..k], id, s[k + 1..]);
    } else {
      WithoutMissing(s, id);
    }
  }

  lemma {:induction false} FirstAt(s: seq<nat>, id: nat) returns (k: nat)
    requires id in s
    ensures k < |s| && s[k] == id && id !in s[..k]
    decreases |s|
  {
    if s[0] == id {
      k := 0;
    } else {
      var j := FirstAt(s[1..], id);
      k := j + 1;
      assert s[..k] == [s[0]] + s[1..][..j];
    }
  }

  // ----- Oldest first -----

  /** The list is in the order of the entries' last releases, all before `now`. */
  ghost predicate ByRelease(s: seq<nat>, released: map<nat, nat>, now: nat) {
    && (forall i :: 0 <= i < |s| ==> s[i] in released && released[s[i]] < now)
    && (forall i, j :: 0 <= i < j < |s| ==> released[s[i]] < released[s[j]])
  }

  lemma ByReleaseUnlinked(s: seq<nat>, id: nat, s': seq<nat>, released: map<nat, nat>, now: nat)
    requires ByRelease(s, released, now) && Unlinked(s, id, s')
    ensures ByRelease(s', released, now)
  {
    if id in s {
      var a, b :| id !in a && s == a + [id] + b && s' == a + b;
      forall i | 0 <= i < |s'| ensures s'[i] == s[if i < |a| then i else i + 1] { }
    }
  }

  /** A release puts the entry last, or changes the list not at all. */
  lemma ByReleaseReleased(s: seq<nat>, id: nat, s': seq<nat>, released: map<nat, nat>, now: nat)
    requires ByRelease(s, released, now) && id !in s && (s' == s || s' == s + [id])
    ensures ByRelease(s', released[id := now], now + 1)
  {
    forall i | 0 <= i < |s| ensures s[i] != id { }
  }

  lemma ByReleaseTail(s: seq<nat>, released: map<nat, nat>, now: nat)
    requires ByRelease(s, released, now) && s != []
    ensures ByRelease(s[1..], released, now)
    ensures forall x :: x in s ==> x in released && s[0] in released && released[s[0]] <= released[x]
  {
  }

  lemma AppendSpec(s: seq<nat>, id: nat)
    requires NoDup(s) && id !in s
    ensures NoDup(s + [id]) && forall x :: x in s + [id] <==> x in s || x == id
  {
  }

  function Charges(handles: map<nat, Handle>, s: seq<nat>): nat {
    if s == [] then 0
    else Charges(handles, s[..|s| - 1])
         + (if s[|s| - 1] in handles then handles[s[|s| - 1]].charge else 0)
  }

  function ChargeOf(handles: map<nat, Handle>, id: nat): nat {
    if id in handles then handles[id].charge else 0
  }

  lemma {:induction false} ChargesSame(h: map<nat, Handle>, h': map<nat, Handle>, s: seq<nat>)
    requires forall x :: x in s ==> ChargeOf(h', x) == ChargeOf(h, x)
    ensures Charges(h', s) == Charges(h, s)
    decreases |s|
  {
    if s != [] {
      assert s[|s| - 1] in s;
      ChargesSame(h, h', s[..|s| - 1]);
    }
  }

  lemma ChargesAppend(h: map<nat, Handle>, s: seq<nat>, id: nat)
    ensures Charges(h, s + [id]) == Charges(h, s) + ChargeOf(h, id)
  {
    assert (s + [id])[..|s|] == s;
  }

  lemma {:induction false} ChargesConcat(h: map<nat, Handle>, a: seq<nat>, b: seq<nat>)
    ensures Charges(h, a + b) == Charges(h, a) + Charges(h, b)
    decreases |b|
  {
    if b == [] {
      assert a + b == a;
    } else {
      ChargesConcat(h, a, b[..|b| - 1]);
      assert (a + b)[..|a + b| - 1] == a + b[..|b| - 1];
    }
  }

  lemma {:induction false} ChargesWithout(h: map<nat, Handle>, s: seq<nat>, id: nat)
    requires id in s
    ensures Charges(h, Without(s, id)) + ChargeOf(h, id) == Charges(h, s)
    decreases |s|
  {
    assert s == [s[0]] + s[1..];
    ChargesConcat(h, [s[0]], s[1..]);
    assert [s[0]][..0] == [];
    if s[0] != id {
      ChargesWithout(h, s[1..], id);
      ChargesConcat(h, [s[0]], Without(s[1..], id));
    }
  }

  // ----- The invariant -----

  /** The table maps exactly the cached entries, each under its own name. */
  ghost predicate Named(v: View) {
    && (forall n :: n in v.contents ==>
          v.contents[n] in v.handles && v.handles[v.contents[n]].inCache && v.handles[v.contents[n]].name == n)
    && (forall id :: id in v.handles && v.handles[id].inCache ==>
          v.handles[id].name in v.contents && v.contents[v.handles[id].name] == id)
  }

  predicate Evictable(v: View, id: nat) {
    id in v.handles && v.handles[id].inCache && v.handles[id].refs == 1
  }

  predicate InUse(v: View, id: nat) {
    id in v.handles && v.handles[id].inCache && v.handles[id].refs >= 2
  }

  /** Each cached entry is in exactly one list, which its reference count decides. */
  ghost predicate Listed(v: View) {
    && NoDup(v.lru) && NoDup(v.inUse)
    && (forall id :: id in v.lru <==> Evictable(v, id))
    && (forall id :: id in v.inUse <==> InUse(v, id))
  }

  /** Every reference is a client's or the cache's. */
  ghost predicate Counted(v: View) {
    && (forall id :: id in v.handles ==>
          v.handles[id].refs >= 1 && v.handles[id].refs == v.held[id] + if v.handles[id].inCache then 1 else 0)
    && (forall id :: id in v.held ==> id in v.handles)
  }

  /** The usage is the sum of the cached charges. */
  ghost predicate Summed(v: View) {
    v.usage == Charges(v.handles, v.lru) + Charges(v.handles, v.inUse)
  }

  ghost predicate Good(v: View) {
    Named(v) && Listed(v) && Counted(v) && Summed(v)
  }

  // ----- Taking and dropping references -----

  function Referenced(v: View, id: nat): View
    requires id in v.handles
  {
    var h := v.handles[id];
    v.(handles := v.handles[id := h.(refs := h.refs + 1)],
       lru := if h.refs == 1 && h.inCache then Without(v.lru, id) else v.lru,
       inUse := if h.refs == 1 && h.inCache then v.inUse + [id] else v.inUse,
       held := v.held + multiset{id})
  }

  lemma ReferencedListed(v: View, id: nat)
    requires Listed(v) && id in v.handles && v.handles[id].refs >= 1
    ensures Listed(Referenced(v, id))
  {
    hide NoDup, Without;
    WithoutSpec(v.lru, id);
    if Evictable(v, id) { AppendSpec(v.inUse, id); }
  }

  lemma ReferencedSummed(v: View, id: nat)
    requires Listed(v) && Summed(v) && id in v.handles
    ensures Summed(Referenced(v, id))
  {
    hide NoDup, Without, Charges;
    var v' := Referenced(v, id);
    ChargesSame(v.handles, v'.handles, v.lru);
    ChargesSame(v.handles, v'.handles, v.inUse);
    if Evictable(v, id) {
      ChargesWithout(v'.handles, v.lru, id);
      ChargesAppend(v'.handles, v.inUse, id);
    }
  }

  lemma ReferencedNamed(v: View, id: nat)
    requires Named(v) && id in v.handles
    ensures Named(Referenced(v, id))
  {
    hide Without;
  }

  lemma ReferencedCounted(v: View, id: nat)
    requires Counted(v) && id in v.handles
    ensures Counted(Referenced(v, id))
  {
    hide Without;
  }

  lemma ReferencedGood(v: View, id: nat)
    requires Good(v) && id in v.handles
    ensures Good(Referenced(v, id))
  {
    assert v.handles[id].refs >= 1;
    hide Named, Listed, Counted, Summed;
    ReferencedListed(v, id);
    ReferencedSummed(v, id);
    ReferencedNamed(v, id);
    ReferencedCounted(v, id);
  }

  /** Unref of a client's reference: free the entry, or let it go back to the old list. */
  function Released(v: View, id: nat): View
    requires id in v.handles && v.handles[id].refs >= 1
  {
    var h := v.handles[id];
    var v' := v.(held := v.held - multiset{id});
    if h.refs == 1 then v'.(handles := v.handles - {id})
    else v'.(handles := v.handles[id := h.(refs := h.refs - 1)],
             inUse := if h.inCache && h.refs == 2 then Without(v.inUse, id) else v.inUse,
             lru := if h.inCache && h.refs == 2 then v.lru + [id] else v.lru)
  }

  lemma ReleasedListed(v: View, id: nat)
    requires Listed(v) && id in v.handles && v.handles[id].refs >= (if v.handles[id].inCache then 2 else 1)
    ensures Listed(Released(v, id))
  {
    hide NoDup, Without;
    WithoutSpec(v.inUse, id);
    if InUse(v, id) { AppendSpec(v.lru, id); }
  }

  lemma ReleasedSummed(v: View, id: nat)
    requires Listed(v) && Summed(v) && id in v.handles && v.handles[id].refs >= (if v.handles[id].inCache then 2 else 1)
    ensures Summed(Released(v, id))
  {
    hide NoDup, Without, Charges;
    var v' := Released(v, id);
    ChargesSame(v.handles, v'.handles, v.lru);
    ChargesSame(v.handles, v'.handles, v.inUse);
    if InUse(v, id) && v.handles[id].refs == 2 {
      ChargesWithout(v'.handles, v.inUse, id);
      ChargesAppend(v'.handles, v.lru, id);
    }
  }

  lemma ReleasedNamed(v: View, id: nat)
    requires Named(v) && id in v.handles && v.handles[id].refs >= (if v.handles[id].inCache then 2 else 1)
    ensures Named(Released(v, id))
  {
    hide Without;
  }

  lemma ReleasedCounted(v: View, id: nat)
    requires Counted(v) && id in v.held
    ensures id in v.handles && v.handles[id].refs >= (if v.handles[id].inCache then 2 else 1)
    ensures Counted(Released(v, id))
  {
    hide Without;
  }

  /** A release frees the entry exactly if it was the last reference of all. */
  lemma ReleasedGood(v: View, id: nat)
    requires Good(v) && id in v.held
    ensures id in v.handles && v.handles[id].refs >= 1 && Good(Released(v, id))
    ensures v.handles[id].refs == 1 <==> v.held[id] == 1 && !v.handles[id].inCache
    ensures id !in Released(v, id).handles <==> v.held[id] == 1 && !v.handles[id].inCache
  {
    ReleasedCounted(v, id);
    assert v.handles[id].refs == v.held[id] + if v.handles[id].inCache then 1 else 0;
    hide Named, Listed, Counted, Summed, Without;
    ReleasedNamed(v, id);
    ReleasedListed(v, id);
    ReleasedSummed(v, id);
  }

  /** FinishErase of a cached entry, its table entry gone: out of its list, and the cache's reference dropped. */
  function Erased(v: View, id: nat): View
    requires id in v.handles && v.handles[id].refs >= 1
  {
    var h := v.handles[id];
    v.(contents := v.contents - {h.name},
       lru := Without(v.lru, id),
       inUse := Without(v.inUse, id),
       usage := v.usage - h.charge,
       handles := if h.refs == 1 then v.handles - {id}
                  else v.handles[id := h.(inCache := false, refs := h.refs - 1)])
  }

  lemma {:induction false} WithoutMissing(s: seq<nat>, id: nat)
    requires id !in s
    ensures Without(s, id) == s
    decreases |s|
  {
    if s != [] { WithoutMissing(s[1..], id); }
  }

  lemma ErasedListed(v: View, id: nat)
    requires Listed(v) && id in v.handles && v.handles[id].refs >= 1
    ensures Listed(Erased(v, id))
  {
    hide NoDup, Without;
    WithoutSpec(v.lru, id);
    WithoutSpec(v.inUse, id);
  }

  lemma ErasedSummed(v: View, id: nat)
    requires Listed(v) && Summed(v) && id in v.handles && v.handles[id].inCache && v.handles[id].refs >= 1
    ensures Summed(Erased(v, id))
  {
    hide NoDup, Without, Charges;
    var v' := Erased(v, id);
    WithoutSpec(v.lru, id);
    WithoutSpec(v.inUse, id);
    if Evictable(v, id) {
      ChargesWithout(v.handles, v.lru, id);
      WithoutMissing(v.inUse, id);
    } else {
      assert InUse(v, id);
      ChargesWithout(v.handles, v.inUse, id);
      WithoutMissing(v.lru, id);
    }
    ChargesSame(v.handles, v'.handles, v'.lru);
    ChargesSame(v.handles, v'.handles, v'.inUse);
  }

  lemma ErasedCounted(v: View, id: nat)
    requires Named(v) && Counted(v) && id in v.handles && v.handles[id].inCache
    ensures v.handles[id].refs >= 1 && Named(Erased(v, id)) && Counted(Erased(v, id))
    ensures id !in Erased(v, id).handles <==> v.held[id] == 0
  {
    hide Without;
  }

  /** An entry taken out of the cache is freed exactly if no client holds it. */
  lemma ErasedGood(v: View, id: nat)
    requires Good(v) && id in v.handles && v.handles[id].inCache
    ensures v.handles[id].refs >= 1 && Good(Erased(v, id))
    ensures id !in Erased(v, id).handles <==> v.held[id] == 0
  {
    hide Named, Listed, Counted, Summed, Without;
    ErasedCounted(v, id);
    ErasedListed(v, id);
    ErasedSummed(v, id);
  }

  // ----- Inserting -----

  /** A new entry that nobody had under its name, referenced by the cache and by the caller. */
  function Added(v: View, id: nat, name: Name, charge: nat): View {
    v.(handles := v.handles[id := Handle(name, charge, true, 2)],
       contents := v.contents[name := id],
       inUse := v.inUse + [id],
       usage := v.usage + charge,
       held := v.held + multiset{id})
  }

  lemma AddedListed(v: View, id: nat, name: Name, charge: nat)
    requires Listed(v) && id !in v.handles
    ensures Listed(Added(v, id, name, charge))
  {
    hide NoDup;
    assert !InUse(v, id) && !Evictable(v, id);
    AppendSpec(v.inUse, id);
  }

  lemma AddedSummed(v: View, id: nat, name: Name, charge: nat)
    requires Listed(v) && Summed(v) && id !in v.handles
    ensures Summed(Added(v, id, name, charge))
  {
    hide NoDup, Charges;
    assert !InUse(v, id) && !Evictable(v, id);
    var v' := Added(v, id, name, charge);
    ChargesSame(v.handles, v'.handles, v.lru);
    ChargesSame(v.handles, v'.handles, v.inUse);
    ChargesAppend(v'.handles, v.inUse, id);
  }

  lemma AddedNamed(v: View, id: nat, name: Name, charge: nat)
    requires Named(v) && id !in v.handles && name !in v.contents
    ensures Named(Added(v, id, name, charge))
  {
  }

  lemma AddedCounted(v: View, id: nat, name: Name, charge: nat)
    requires Counted(v) && id !in v.handles
    ensures Counted(Added(v, id, name, charge))
  {
    assert id !in v.held;
  }

  lemma AddedGood(v: View, id: nat, name: Name, charge: nat)
    requires Good(v) && id !in v.handles && name !in v.contents
    ensures Good(Added(v, id, name, charge))
  {
    hide Named, Listed, Counted, Summed;
    AddedListed(v, id, name, charge);
    AddedSummed(v, id, name, charge);
    AddedNamed(v, id, name, charge);
    AddedCounted(v, id, name, charge);
  }

  /** With no capacity the entry is the caller's alone. */
  function Uncached(v: View, id: nat, name: Name, charge: nat): View {
    v.(handles := v.handles[id := Handle(name, charge, false, 1)], held := v.held + multiset{id})
  }

  lemma UncachedGood(v: View, id: nat, name: Name, charge: nat)
    requires Good(v) && id !in v.handles
    ensures Good(Uncached(v, id, name, charge))
  {
    hide NoDup, Charges, Named, Counted;
    var v' := Uncached(v, id, name, charge);
    assert !InUse(v, id) && !Evictable(v, id);
    ChargesSame(v.handles, v'.handles, v.lru);
    ChargesSame(v.handles, v'.handles, v.inUse);
    UncachedCounted(v, id, name, charge);
  }

  lemma UncachedCounted(v: View, id: nat, name: Name, charge: nat)
    requires Named(v) && Counted(v) && id !in v.handles
    ensures Named(Uncached(v, id, name, charge)) && Counted(Uncached(v, id, name, charge))
  {
    assert id !in v.held;
  }

  /** The entry that a name had before, if any, gone. */
  function Cleared(v: View, name: Name): View {
    if name in v.contents && v.contents[name] in v.handles && v.handles[v.contents[name]].refs >= 1
    then Erased(v, v.contents[name]) else v
  }

  lemma ClearedGood(v: View, name: Name)
    requires Good(v)
    ensures Good(Cleared(v, name)) && name !in Cleared(v, name).contents
    ensures name in v.contents ==>
              && v.contents[name] in v.handles && v.handles[v.contents[name]].refs >= 1
              && v.handles[v.contents[name]].inCache && v.handles[v.contents[name]].name == name
    ensures forall id :: id in Cleared(v, name).handles ==> id in v.handles
  {
    hide Listed, Summed, Without;
    if name in v.contents {
      ErasedGood(v, v.contents[name]);
    }
  }

  /** Adding first and erasing the replaced entry after, as Insert does, comes to the same. */
  lemma InsertedView(v: View, e: nat, name: Name, charge: nat)
    requires Good(v) && e !in v.handles
    ensures Good(Added(Cleared(v, name), e, name, charge))
    ensures name in v.contents ==>
              var x := v.contents[name]; x in v.handles && v.handles[x].refs >= 1 && v.handles[x].inCache
    ensures var v' := Added(Cleared(v, name), e, name, charge);
            var handles := v.handles[e := Handle(name, charge, true, 2)];
            && v'.contents == v.contents[name := e] && v'.held == v.held + multiset{e}
            && (if name in v.contents then
                  var x := v.contents[name];
                  var h := v.handles[x];
                  && x != e
                  && v'.handles == (if h.refs == 1 then handles - {x}
                                    else handles[x := h.(inCache := false, refs := h.refs - 1)])
                  && v'.lru == Without(v.lru, x) && v'.inUse == Without(v.inUse + [e], x)
                  && v'.usage == v.usage + charge - h.charge
                else
                  v'.handles == handles && v'.lru == v.lru && v'.inUse == v.inUse + [e] && v'.usage == v.usage + charge)
  {
    hide Good, Without;
    ClearedGood(v, name);
    AddedGood(Cleared(v, name), e, name, charge);
    if name in v.contents {
      WithoutAppend(v.inUse, e, v.contents[name]);
    }
  }

  /** A cached entry is the one its name finds. */
  lemma NamedEntry(v: View, e: nat)
    requires Good(v) && e in v.handles && v.handles[e].inCache
    ensures v.handles[e].name in v.contents && v.contents[v.handles[e].name] == e
  {
  }

  // ----- Changing a charge -----

  function Recharged(v: View, id: nat, charge: nat): View
    requires id in v.handles
  {
    v.(handles := v.handles[id := v.handles[id].(charge := charge)],
       usage := v.usage - v.handles[id].charge + charge)
  }

  /** UpdateCharge keeps the usage right exactly on entries that are still cached, unless nothing changes. */
  lemma RechargedExact(v: View, id: nat, charge: nat)
    requires Good(v) && id in v.handles
    ensures Good(Recharged(v, id, charge)) <==> v.handles[id].inCache || charge == v.handles[id].charge
  {
    hide NoDup, Charges, Without;
    var v' := Recharged(v, id, charge);
    assert Named(v') && Listed(v') && Counted(v');
    if Evictable(v, id) {
      RechargedList(v, id, charge, v.lru);
      assert !InUse(v, id);
      ChargesSame(v.handles, v'.handles, v.inUse);
    } else if InUse(v, id) {
      RechargedList(v, id, charge, v.inUse);
      ChargesSame(v.handles, v'.handles, v.lru);
    } else {
      ChargesSame(v.handles, v'.handles, v.lru);
      ChargesSame(v.handles, v'.handles, v.inUse);
    }
  }

  lemma RechargedList(v: View, id: nat, charge: nat, s: seq<nat>)
    requires id in v.handles && id in s && NoDup(s)
    ensures Charges(Recharged(v, id, charge).handles, s) == Charges(v.handles, s) - v.handles[id].charge + charge
  {
    hide NoDup, Charges, Without;
    var h' := Recharged(v, id, charge).handles;
    WithoutSpec(s, id);
    ChargesWithout(v.handles, s, id);
    ChargesWithout(h', s, id);
    ChargesSame(v.handles, h', Without(s, id));
  }

  // ----- Evicting -----

  /** The `k` oldest unreferenced entries are erased, one after the other. */
  function Evicted(v: View, k: nat): View
    decreases k
  {
    if k == 0 || v.lru == [] || v.lru[0] !in v.handles || v.handles[v.lru[0]].refs == 0 then v
    else Evicted(Erased(v, v.lru[0]), k - 1)
  }

  lemma WithoutHead(s: seq<nat>)
    requires s != []
    ensures Without(s, s[0]) == s[1..]
  {
  }

  /** Eviction takes from the old end, leaves entries in use alone, and frees exactly what it takes. */
  lemma {:induction false} EvictedGood(v: View, k: nat)
    requires Good(v) && k <= |v.lru|
    ensures Good(Evicted(v, k))
    ensures Evicted(v, k).lru == v.lru[k..] && Evicted(v, k).inUse == v.inUse && Evicted(v, k).held == v.held
    ensures Evicted(v, k).handles == v.handles - Elements(v.lru[..k])
    decreases k
  {
    hide Good, Erased, Elements;
    if k > 0 {
      EvictOne(v);
      var v' := Erased(v, v.lru[0]);
      EvictedGood(v', k - 1);
      assert v'.lru[k - 1..] == v.lru[k..];
      assert v.lru[..k] == [v.lru[0]] + v'.lru[..k - 1];
      ElementsCons(v.lru[0], v'.lru[..k - 1]);
      MinusTwice(v.handles, {v.lru[0]}, Elements(v'.lru[..k - 1]));
    } else {
      MinusNone(v.handles, v.lru);
    }
  }

  lemma ElementsCons(x: nat, s: seq<nat>)
    ensures Elements([x] + s) == {x} + Elements(s)
  {
  }

  lemma MinusTwice(m: map<nat, Handle>, a: set<nat>, b: set<nat>)
    ensures m - a - b == m - (a + b)
  {
  }

  lemma MinusNone(m: map<nat, Handle>, s: seq<nat>)
    ensures m - Elements(s[..0]) == m
  {
    assert Elements(s[..0]) == {};
  }

  function Elements(s: seq<nat>): set<nat> {
    set x | x in s
  }

  lemma EvictOne(v: View)
    requires Good(v) && v.lru != []
    ensures v.lru[0] in v.handles && v.handles[v.lru[0]].refs == 1 && v.handles[v.lru[0]].inCache
    ensures Good(Erased(v, v.lru[0]))
    ensures var v' := Erased(v, v.lru[0]);
            && v'.lru == v.lru[1..] && v'.inUse == v.inUse && v'.held == v.held
            && v'.handles == v.handles - {v.lru[0]}
  {
    var id := v.lru[0];
    assert Evictable(v, id);
    ErasedGood(v, id);
    WithoutHead(v.lru);
    assert !InUse(v, id);
    WithoutMissing(v.inUse, id);
  }

  // ----- What the operations mean, entry by entry -----

  /** No entry changes its name or its charge. */
  ghost predicate Kept(h: map<nat, Handle>, h': map<nat, Handle>) {
    forall id :: id in h && id in h' ==> h'[id].name == h[id].name && h'[id].charge == h[id].charge
  }

  /** A client takes a reference: an entry that could be evicted leaves the list, the others keep their order. */
  ghost predicate TookReference(v: View, id: nat, v': View) {
    && v'.contents == v.contents && v'.usage == v.usage && v'.held == v.held + multiset{id}
    && v'.handles.Keys == v.handles.Keys && Kept(v.handles, v'.handles)
    && Unlinked(v.lru, id, v'.lru)
  }

  /** A client drops a reference: the last one frees the entry or, if it is cached, makes it the newest to evict. */
  ghost predicate DroppedReference(v: View, id: nat, v': View) {
    && id in v.handles
    && v'.contents == v.contents && v'.usage == v.usage && v'.held == v.held - multiset{id}
    && Kept(v.handles, v'.handles)
    && (forall x :: x in v'.handles <==>
          x in v.handles && !(x == id && v.held[id] == 1 && !v.handles[id].inCache))
    && v'.lru == (if v.held[id] == 1 && v.handles[id].inCache then v.lru + [id] else v.lru)
  }

  /** An entry leaves the cache; it stays with the clients that hold it. */
  ghost predicate LeftCache(v: View, id: nat, v': View) {
    && id in v.handles
    && v'.contents == v.contents - {v.handles[id].name} && v'.held == v.held
    && v'.usage == v.usage - v.handles[id].charge && Kept(v.handles, v'.handles)
    && (forall x :: x in v'.handles <==> x in v.handles && !(x == id && v.held[id] == 0))
    && Unlinked(v.lru, id, v'.lru)
  }

  /** The entries `gone`, the oldest of the list, are out of the cache and freed. */
  ghost predicate LostOldest(v: View, gone: seq<nat>, v': View) {
    && v.lru == gone + v'.lru && v'.held == v.held && Kept(v.handles, v'.handles)
    && (forall x :: x in v'.handles <==> x in v.handles && x !in gone)
    && LostNames(v.contents, gone, v'.contents)
  }

  ghost predicate LostNames(c: map<Name, nat>, gone: seq<nat>, c': map<Name, nat>) {
    && (forall n :: n in c' <==> n in c && c[n] !in gone)
    && (forall n :: n in c' && n in c ==> c'[n] == c[n])
  }

  /**
   A new entry with the given name and charge is held by the caller and, if there is a capacity, cached
   in place of the one that had its name; then the entries `gone` were evicted from the old end.
  */
  ghost predicate GotEntry(
    v: View, e: nat, name: Name, charge: nat, cached: bool, gone: seq<nat>, v': View)
  {
    && e !in v.handles && e in v'.handles && v'.handles[e] == Handle(name, charge, cached, if cached then 2 else 1)
    && v'.held == v.held + multiset{e} && Kept(v.handles, v'.handles)
    && (if cached && name in v.contents then Unlinked(v.lru, v.contents[name], gone + v'.lru)
        else gone + v'.lru == v.lru)
    && LostNames(if cached then v.contents[name := e] else v.contents, gone, v'.contents)
  }

  lemma ReferencedMeans(v: View, id: nat)
    requires Good(v) && id in v.handles
    ensures TookReference(v, id, Referenced(v, id))
  {
    WithoutUnlinks(v.lru, id);
    assert v.handles[id].refs >= 1;
    hide Unlinked, Without;
    if !Evictable(v, id) {
      assert id !in v.lru;
      NotListedUnlinked(v.lru, id);
    }
  }

  lemma NotListedUnlinked(s: seq<nat>, id: nat)
    requires id !in s
    ensures Unlinked(s, id, s)
  {
  }

  lemma ReleasedMeans(v: View, id: nat)
    requires Good(v) && id in v.held
    ensures id in v.handles && v.handles[id].refs >= 1 && id !in v.lru
    ensures DroppedReference(v, id, Released(v, id))
  {
    hide Summed, Named, Without, NoDup;
    assert v.held[id] >= 1;
    assert !Evictable(v, id);
  }

  /** Field by field, as Unref leaves them. */
  lemma ReleasedFields(v: View, id: nat)
    requires id in v.handles && v.handles[id].refs >= 1
    ensures var h := v.handles[id].(refs := v.handles[id].refs - 1);
            Released(v, id) == View(
              if h.refs == 0 then v.handles - {id} else v.handles[id := h],
              v.contents,
              if h.refs == 1 && h.inCache then v.lru + [id] else v.lru,
              if h.refs == 1 && h.inCache then Without(v.inUse, id) else v.inUse,
              v.usage,
              v.held - multiset{id})
  {
    hide Without;
  }

  lemma ReleasedOrder(v: View, id: nat, released: map<nat, nat>, now: nat)
    requires Good(v) && id in v.held && ByRelease(v.lru, released, now)
    ensures id in v.handles && v.handles[id].refs >= 1
    ensures ByRelease(Released(v, id).lru, released[id := now], now + 1)
  {
    ReleasedMeans(v, id);
    hide Good, DroppedReference, ByRelease;
    ByReleaseReleased(v.lru, id, Released(v, id).lru, released, now);
  }

  lemma ErasedMeans(v: View, id: nat)
    requires Good(v) && id in v.handles && v.handles[id].inCache
    ensures v.handles[id].refs >= 1 && LeftCache(v, id, Erased(v, id))
  {
    hide Summed, Named, Listed, Unlinked, Without;
    WithoutUnlinks(v.lru, id);
  }

  /** Whoever loses entries loses their names, since a name finds one cached entry. */
  lemma NamesFollow(v: View, gone: seq<nat>, v': View)
    requires Named(v) && Named(v') && v'.handles == v.handles - Elements(gone)
    ensures LostNames(v.contents, gone, v'.contents)
  {
    forall n ensures n in v'.contents <==> n in v.contents && v.contents[n] !in gone {
      if n in v'.contents {
        assert v'.contents[n] in v'.handles;
      }
      if n in v.contents && v.contents[n] !in gone {
        assert v.contents[n] in v'.handles;
      }
    }
  }

  lemma EvictedMeans(v: View, k: nat)
    requires Good(v) && k <= |v.lru|
    ensures LostOldest(v, v.lru[..k], Evicted(v, k))
  {
    hide Listed, Counted, Summed, Evicted;
    EvictedGood(v, k);
    NamesFollow(v, v.lru[..k], Evicted(v, k));
    hide Named;
    assert v.lru == v.lru[..k] + v.lru[k..];
    assert forall x :: x in Elements(v.lru[..k]) <==> x in v.lru[..k];
  }

  lemma AddedMeans(v: View, e: nat, name: Name, charge: nat)
    requires Good(v) && e !in v.handles
    ensures GotEntry(v, e, name, charge, true, [], Added(Cleared(v, name), e, name, charge))
  {
    hide Good, Without, Unlinked;
    InsertedView(v, e, name, charge);
    hide Added, Cleared;
    if name in v.contents { WithoutUnlinks(v.lru, v.contents[name]); }
    var v' := Added(Cleared(v, name), e, name, charge);
    assert [] + v'.lru == v'.lru;
  }

  lemma UncachedMeans(v: View, e: nat, name: Name, charge: nat)
    requires e !in v.handles
    ensures GotEntry(v, e, name, charge, false, [], Uncached(v, e, name, charge))
  {
    hide Unlinked;
    assert [] + v.lru == v.lru;
  }

  /** An entry that a client holds is not evicted. */
  lemma NewIsSpared(v: View, e: nat, k: nat)
    requires Good(v) && e in v.held && k <= |v.lru|
    ensures e !in v.lru[..k]
    ensures LostOldest(v, v.lru[..k], Evicted(v, k)) && Evicted(v, k).handles == v.handles - Elements(v.lru[..k])
  {
    EvictedMeans(v, k);
    EvictedGood(v, k);
    hide LostOldest, Evicted, Summed, Named;
    assert !Evictable(v, e);
    assert forall x :: x in v.lru[..k] ==> x in v.lru;
  }

  /** A new entry, then evictions that leave it alone. */
  lemma GotThenLost(
    v: View, e: nat, name: Name, charge: nat, cached: bool, with: View, gone: seq<nat>, v': View)
    requires GotEntry(v, e, name, charge, cached, [], with) && LostOldest(with, gone, v')
    requires e !in gone && v'.handles == with.handles - Elements(gone)
    ensures GotEntry(v, e, name, charge, cached, gone, v')
  {
    hide Unlinked;
    assert [] + with.lru == with.lru;
  }

  // ----- The shard -----

  /** Handles are never reused, and the deleter has run exactly once for each that is gone. */
  ghost predicate Disposed(live: set<nat>, deleted: seq<nat>, nextId: nat) {
    && NoDup(deleted)
    && (forall id: nat :: id < nextId <==> id in live || id in deleted)
    && (forall id :: id in deleted ==> id !in live)
  }

  lemma NextIsFresh(live: set<nat>, deleted: seq<nat>, nextId: nat)
    requires Disposed(live, deleted, nextId)
    ensures nextId !in live && Disposed(live + {nextId}, deleted, nextId + 1)
  {
    hide NoDup;
  }

  lemma DisposeOne(live: set<nat>, deleted: seq<nat>, nextId: nat, id: nat)
    requires Disposed(live, deleted, nextId) && id in live
    ensures Disposed(live - {id}, deleted + [id], nextId)
  {
    AppendSpec(deleted, id);
    hide NoDup;
  }

  lemma CacheNewOrder(s: seq<nat>, contents: map<Name, nat>, name: Name, released: map<nat, nat>, now: nat)
    requires ByRelease(s, released, now)
    ensures name in contents ==> ByRelease(Without(s, contents[name]), released, now)
  {
    hide ByRelease, Unlinked, Without;
    if name in contents {
      WithoutUnlinks(s, contents[name]);
      ByReleaseUnlinked(s, contents[name], Without(s, contents[name]), released, now);
    }
  }

  class LRUCache {
    const table: HandleTable
    var capacity: nat
    var usage: int
    var lru: seq<nat>
    var inUse: seq<nat>
    var handles: map<nat, Handle>
    var nextId: nat
    ghost var held: multiset<nat>
    ghost var deleted: seq<nat>
    ghost var released: map<nat, nat>    // when each entry was last released
    ghost var now: nat                   // how many releases there have been

    ghost function V(): View
      reads this, table
    {
      View(handles, table.contents, lru, inUse, usage, held)
    }

    ghost predicate Valid()
      reads this, table
    {
      table.Valid() && Good(V()) && Disposed(handles.Keys, deleted, nextId) && ByRelease(lru, released, now)
    }

    constructor (cap: nat)
      ensures Valid() && fresh(table) && capacity == cap && handles == map[] && held == multiset{}
    {
      table := new HandleTable();
      capacity, usage, lru, inUse, handles, nextId := cap, 0, [], [], map[], 0;
      held, deleted, released, now := multiset{}, [], map[], 0;
    }

    method Ref(e: nat)
      requires Valid() && e in handles
      modifies this`lru, this`inUse, this`handles, this`held
      ensures Valid() && V() == Referenced(old(V()), e) && TookReference(old(V()), e, V())
    {
      hide Holds, Good, Without, Disposed, ByRelease, Kept, Unlinked;
      ReferencedGood(V(), e);
      ReferencedMeans(V(), e);
      ByReleaseUnlinked(lru, e, Referenced(V(), e).lru, released, now);
      assert handles[e := handles[e].(refs := handles[e].refs + 1)].Keys == handles.Keys;
      if handles[e].refs == 1 && handles[e].inCache {
        lru := Without(lru, e);
        inUse := inUse + [e];
      }
      handles := handles[e := handles[e].(refs := handles[e].refs + 1)];
      held := held + multiset{e};
    }

    method Lookup(name: Name) returns (e: Option<nat>)
      requires Valid()
      modifies this`lru, this`inUse, this`handles, this`held
      ensures Valid()
      ensures e == if name in table.contents then Some(table.contents[name]) else None
      ensures e.Some? ==> e.value in old(handles) && V() == Referenced(old(V()), e.value)
      ensures e.Some? ==> TookReference(old(V()), e.value, V())
      ensures e.None? ==> V() == old(V())
    {
      e := table.Lookup(name);
      if e.Some? {
        Ref(e.value);
      }
    }

    /** Unref: the last reference gone disposes of the entry; the client's last one makes it evictable. */
    method Unref(e: nat)
      requires e in handles && handles[e].refs >= 1 && Disposed(handles.Keys, deleted, nextId)
      modifies this`lru, this`inUse, this`handles, this`deleted
      ensures Disposed(handles.Keys, deleted, nextId)
      ensures var h := old(handles)[e].(refs := old(handles)[e].refs - 1);
              && handles == (if h.refs == 0 then old(handles) - {e} else old(handles)[e := h])
              && deleted == (if h.refs == 0 then old(deleted) + [e] else old(deleted))
              && inUse == (if h.refs == 1 && h.inCache then Without(old(inUse), e) else old(inUse))
              && lru == (if h.refs == 1 && h.inCache then old(lru) + [e] else old(lru))
    {
      hide Without, Disposed;
      var h := handles[e].(refs := handles[e].refs - 1);
      if h.refs == 0 {
        DisposeOne(handles.Keys, deleted, nextId, e);
        handles := handles - {e};
        deleted := deleted + [e];
      } else {
        assert handles[e := h].Keys == handles.Keys;
        handles := handles[e := h];
        if h.inCache && h.refs == 1 {
          inUse := Without(inUse, e);
          lru := lru + [e];
        }
      }
    }

    /** Release a client's handle. */
    method Release(e: nat)
      requires Valid() && e in held
      modifies this`lru, this`inUse, this`handles, this`held, this`deleted, this`released, this`now
      ensures Valid() && e in old(handles) && old(handles)[e].refs >= 1 && V() == Released(old(V()), e)
      ensures DroppedReference(old(V()), e, V())
      ensures released == old(released)[e := old(now)] && now == old(now) + 1
      ensures deleted == if old(held)[e] == 1 && !old(handles)[e].inCache then old(deleted) + [e] else old(deleted)
    {
      hide Holds, Without, Good, Disposed, ByRelease, DroppedReference, Released;
      ReleasedGood(V(), e);
      ReleasedFields(V(), e);
      ReleasedMeans(V(), e);
      ReleasedOrder(V(), e, released, now);
      Unref(e);
      held := held - multiset{e};
      released, now := released[e := now], now + 1;
    }

    /** FinishErase of an entry whose table entry is gone already; the deleter runs if nobody else holds it. */
    method FinishErase(x: nat)
      requires x in handles && handles[x].inCache && handles[x].refs >= 1 && Disposed(handles.Keys, deleted, nextId)
      modifies this`usage, this`lru, this`inUse, this`handles, this`deleted
      ensures Disposed(handles.Keys, deleted, nextId)
      ensures lru == Without(old(lru), x) && inUse == Without(old(inUse), x)
      ensures Unlinked(old(lru), x, lru) && Unlinked(old(inUse), x, inUse)
      ensures usage == old(usage) - old(handles)[x].charge
      ensures var h := old(handles)[x];
              handles == if h.refs == 1 then old(handles) - {x}
                         else old(handles)[x := h.(inCache := false, refs := h.refs - 1)]
      ensures deleted == if old(handles)[x].refs == 1 then old(deleted) + [x] else old(deleted)
    {
      hide Without, Disposed, Unlinked;
      WithoutUnlinks(lru, x);
      WithoutUnlinks(inUse, x);
      ghost var was := handles;
      lru, inUse := Without(lru, x), Without(inUse, x);
      usage := usage - handles[x].charge;
      assert handles[x := handles[x].(inCache := false)].Keys == handles.Keys;
      handles := handles[x := handles[x].(inCache := false)];
      assert handles - {x} == was - {x};
      Unref(x);
    }

    /** Take a cached entry out of the table and finish its removal from the cache. */
    method EraseEntry(e: nat)
      requires Valid() && e in handles && handles[e].inCache
      modifies this`usage, this`lru, this`inUse, this`handles, this`deleted, table
      ensures Valid() && old(handles)[e].refs >= 1 && V() == Erased(old(V()), e) && LeftCache(old(V()), e, V())
      ensures deleted == if old(held)[e] == 0 then old(deleted) + [e] else old(deleted)
    {
      hide Holds, Without, Good, Disposed, ByRelease, Kept, Unlinked;
      ErasedGood(V(), e);
      ErasedMeans(V(), e);
      ByReleaseUnlinked(lru, e, Erased(V(), e).lru, released, now);
      NamedEntry(V(), e);
      var erased := table.Remove(handles[e].name);
      assert erased == Some(e);
      FinishErase(erased.value);
    }

    /** A new handle, which the caller will hold. */
    method Allocate(e: nat, h: Handle)
      requires e == nextId && Disposed(handles.Keys, deleted, nextId)
      modifies this`handles, this`nextId, this`held
      ensures handles == old(handles)[e := h] && held == old(held) + multiset{e} && nextId == e + 1
      ensures Disposed(handles.Keys, deleted, nextId)
    {
      NextIsFresh(handles.Keys, deleted, nextId);
      hide Disposed;
      assert handles[e := h].Keys == handles.Keys + {e};
      handles := handles[e := h];
      held := held + multiset{e};
      nextId := nextId + 1;
    }

    /** The caching half of Insert: put the new entry in, then finish erasing the one it replaced. */
    method CacheNew(e: nat, name: Name, charge: nat)
      requires Valid() && e == nextId
      modifies this`usage, this`lru, this`inUse, this`handles, this`nextId, this`held, this`deleted, table
      ensures Valid() && nextId == e + 1 && V() == Added(Cleared(old(V()), name), e, name, charge)
    {
      hide Holds, Good, Without, Disposed, Cleared, Added, ByRelease, Unlinked;
      ghost var v := V();
      NextIsFresh(handles.Keys, deleted, nextId);
      InsertedView(v, e, name, charge);
      CacheNewOrder(lru, v.contents, name, released, now);
      Allocate(e, Handle(name, charge, true, 2));
      inUse := inUse + [e];
      usage := usage + charge;
      var was := table.Insert(name, e);
      if was.Some? {
        FinishErase(was.value);
      }
    }

    /** Insert: the new handle is referenced by the caller, and afterwards the usage fits or nothing can be evicted. */
    method Insert(name: Name, charge: nat) returns (e: nat, ghost k: nat, ghost gone: seq<nat>)
      requires Valid()
      modifies this`usage, this`lru, this`inUse, this`handles, this`nextId, this`held, this`deleted, table
      ensures Valid() && e == old(nextId) && k == |gone|
      ensures GotEntry(old(V()), e, name, charge, capacity > 0, gone, V())
      ensures usage <= capacity || lru == []
      ensures var v := old(V());
              var with := if capacity > 0 then Added(Cleared(v, name), e, name, charge)
                          else Uncached(v, e, name, charge);
              && V() == Evicted(with, k)
              && (with.usage <= capacity ==> k == 0) && StillOver(with, k, capacity)
    {
      hide Holds, Good, Without, Disposed, Evicted, StillOver, Cleared, ByRelease, GotEntry, LostOldest;
      e, k, gone := nextId, 0, [];
      ghost var v := V();
      NextIsFresh(handles.Keys, deleted, nextId);
      if capacity > 0 {
        AddedMeans(v, e, name, charge);
        CacheNew(e, name, charge);
      } else {
        UncachedMeans(v, e, name, charge);
        UncachedGood(v, e, name, charge);
        Allocate(e, Handle(name, charge, false, 1));
      }
      ghost var with := V();
      EvictNone(with, capacity);
      if usage > capacity {
        k := DoPrune(false);
        gone := with.lru[..k];
        NewIsSpared(with, e, k);
        GotThenLost(v, e, name, charge, capacity > 0, with, gone, V());
      }
    }

    /** UpdateCharge: the cache's books stay right exactly if the handle is still cached or nothing changes. */
    method UpdateCharge(e: nat, charge: nat)
      requires Valid() && e in handles
      modifies this`usage, this`handles
      ensures V() == Recharged(old(V()), e, charge)
      ensures handles.Keys == old(handles).Keys && handles[e] == old(handles)[e].(charge := charge)
      ensures usage == old(usage) + charge - old(handles)[e].charge
      ensures forall x :: x in handles && x != e ==> handles[x] == old(handles)[x]
      ensures Valid() <==> old(handles)[e].inCache || charge == old(handles)[e].charge
    {
      hide Holds, Good, Disposed, ByRelease;
      RechargedExact(V(), e, charge);
      assert handles[e := handles[e].(charge := charge)].Keys == handles.Keys;
      usage := usage - handles[e].charge + charge;
      handles := handles[e := handles[e].(charge := charge)];
    }

    /** One round of DoPrune: the oldest unreferenced entry goes. */
    method EvictOldest()
      requires Valid() && lru != []
      modifies this`usage, this`lru, this`inUse, this`handles, this`deleted, table
      ensures Valid() && lru == old(lru)[1..]
      ensures old(lru)[0] in old(handles) && old(handles)[old(lru)[0]].refs >= 1
      ensures V() == Erased(old(V()), old(lru)[0]) && LeftCache(old(V()), old(lru)[0], V())
      ensures forall x :: x in old(lru) ==>
                x in released && old(lru)[0] in released && released[old(lru)[0]] <= released[x]
    {
      hide Holds, Good, Erased, Disposed, ByRelease, LeftCache;
      EvictOne(V());
      ByReleaseTail(lru, released, now);
      EraseEntry(lru[0]);
    }

    /**
     DoPrune: evict from the old end, at least one entry if there is any, until the usage fits;
     `all` never stops early.
    */
    method DoPrune(all: bool) returns (ghost k: nat)
      requires Valid()
      modifies this`usage, this`lru, this`inUse, this`handles, this`deleted, table
      ensures Valid() && k <= |old(lru)| && V() == Evicted(old(V()), k)
      ensures LostOldest(old(V()), old(lru)[..k], V())
      ensures lru == [] || (!all && usage <= capacity)
      ensures !all ==> StillOver(old(V()), k, capacity)
    {
      hide Holds, Good, Erased, Disposed, Evicted, StillOver, ByRelease, LostOldest, LeftCache;
      k := 0;
      ghost var v := V();
      EvictNone(v, capacity);
      while lru != []
        invariant Valid() && k <= |v.lru| && V() == Evicted(v, k) && lru == v.lru[k..]
        invariant !all ==> StillOver(v, k, capacity) && (0 < k ==> usage > capacity)
        decreases |lru|
      {
        EvictNext(v, k);
        if !all { StillOverNext(v, k, capacity); }
        EvictOldest();
        k := k + 1;
        if !all && usage <= capacity { break; }
      }
      EvictedMeans(v, k);
    }
  }

  lemma {:induction false} WithoutAppend(s: seq<nat>, e: nat, id: nat)
    requires e != id
    ensures Without(s + [e], id) == Without(s, id) + [e]
    decreases |s|
  {
    if s == [] {
      assert [e][1..] == [];
      assert s + [e] == [e];
    } else {
      assert (s + [e])[1..] == s[1..] + [e] && (s + [e])[0] == s[0];
      WithoutAppend(s[1..], e, id);
    }
  }

  /** The usage was over the capacity after each eviction before the last. */
  ghost predicate StillOver(v: View, k: nat, capacity: nat) {
    forall j :: 0 < j < k ==> Evicted(v, j).usage > capacity
  }

  lemma StillOverNext(v: View, k: nat, capacity: nat)
    requires StillOver(v, k, capacity) && (0 < k ==> Evicted(v, k).usage > capacity)
    ensures StillOver(v, k + 1, capacity)
  {
    hide Evicted;
  }

  lemma EvictNone(v: View, capacity: nat)
    ensures Evicted(v, 0) == v && StillOver(v, 0, capacity)
  {
  }

  /** Evicting one more is erasing the oldest entry left. */
  lemma {:induction false} EvictNext(v: View, k: nat)
    requires Good(v) && k < |v.lru|
    ensures Good(Evicted(v, k)) && Evicted(v, k).lru != []
    ensures var w := Evicted(v, k);
            w.lru[0] in w.handles && w.handles[w.lru[0]].refs >= 1 && Evicted(v, k + 1) == Erased(w, w.lru[0])
    decreases k
  {
    hide Good, Erased;
    EvictedGood(v, k);
    EvictOne(Evicted(v, k));
    if k > 0 {
      EvictOne(v);
      EvictNext(Erased(v, v.lru[0]), k - 1);
    }
  }
}
