/** Compaction changes no read, and keeps the chain short. */
module DeltaTheorems {
  import opened Common
  import opened TxnTs
  import opened Versions
  import opened DeltaNode
  import opened DeltaPage

  // ----- Compaction preserves meaning -----

  /** The newest `n` nodes are merged into one, without their aborted versions. */
  ghost predicate Merges(before: seq<Node>, after: seq<Node>, n: nat) {
    && ValidNodes(before) && ValidNodes(after) && n <= |before| && after != []
    && after[1..] == before[n..]
    && forall k :: NodeVersions(after[0], k) == Merged(before, n, k)
  }

  /**
   Whatever part of the chain is merged, every read gives the same result before and
   after, provided only the newest version of the key may be locked.
  */
  lemma CompactionPreservesReads(
    before: seq<Node>, after: seq<Node>, n: nat, k: Bytes, readTs: nat, ignoreLock: bool, owner: Option<nat>)
    requires Merges(before, after, n) && LockedAtHead(Flatten(before, k))
    ensures ChainRead(after, k, readTs, ignoreLock, owner) == ChainRead(before, k, readTs, ignoreLock, owner)
    ensures LockedAtHead(Flatten(after, k))
  {
    var vs, pruned := Flatten(before, k), Flatten(after, k);
    ReplacedPrunes(before, n, after, k);
    PrunedVisible(vs, pruned, readTs);
    PrunedHead(vs, pruned);
    PrunedLockedAtHead(vs, pruned);
    ChainReadIsListRead(before, k, readTs, ignoreLock, owner);
    ChainReadIsListRead(after, k, readTs, ignoreLock, owner);
  }

  lemma {:induction false} PrunedLockedAtHead(vs: seq<Version>, pruned: seq<Version>)
    requires Pruned(vs, pruned) && LockedAtHead(vs)
    ensures LockedAtHead(pruned)
  {
    if vs != [] {
      var rest := if pruned != [] && pruned[0] == vs[0] && Pruned(vs[1..], pruned[1..]) then pruned[1..] else pruned;
      PrunedSameLive(vs[1..], rest);
      forall i | 0 <= i < |rest| ensures !IsLocked(rest[i].ts) {
        assert rest[i] in vs[1..];
      }
    }
  }

  /** The proviso is needed: merging uncovers a lock below the newest version as a plain old version. */
  lemma BuriedLockChangesReads(k: Bytes, row: Row)
    ensures var newest := Node([Entry(k, Version(5, Some(row)))], [], 2);
            var older := Node([Entry(k, Version(MarkLocked(3), Some(row)))], [], 1);
            var merged := Node([Entry(k, Version(5, Some(row)))], [[Version(MarkLocked(3), Some(row))]], 1);
            && Merges([newest, older], [merged], 2)
            && ChainRead([newest, older], k, 4, false, None) == Retry
            && ChainRead([merged], k, 4, false, None) == NotFound
  {
    var a, b := Version(5, Some(row)), Version(MarkLocked(3), Some(row));
    var newest, older := Node([Entry(k, a)], [], 2), Node([Entry(k, b)], [], 1);
    var merged := Node([Entry(k, a)], [[b]], 1);
    BuriedLockMerges(k, a, b, newest, older, merged);
    BuriedLockReads(k, a, b, newest, older, merged);
  }

  lemma BuriedLockMerges(k: Bytes, a: Version, b: Version, newest: Node, older: Node, merged: Node)
    requires newest == Node([Entry(k, a)], [], 2) && older == Node([Entry(k, b)], [], 1)
    requires merged == Node([Entry(k, a)], [[b]], 1)
    requires a.ts != ABORTED_TXN_TS && b.ts != ABORTED_TXN_TS
    ensures Merges([newest, older], [merged], 2)
  {
    var before := [newest, older];
    SingleVersions(newest, k, a);
    SingleVersions(older, k, b);
    NodeVersionsAt(merged, 0);
    assert before[..2] == before && before[1..] == [older] && [merged][1..] == before[2..];
    forall j ensures NodeVersions(merged, j) == Merged(before, 2, j) {
      FlattenSingle(older, j);
      assert Flatten(before, j) == NodeVersions(newest, j) + NodeVersions(older, j);
      if j == k {
        DropAbortedConcat([a], [b]);
        assert DropAborted([a]) == [a] && DropAborted([b]) == [b];
      }
    }
  }

  lemma BuriedLockReads(k: Bytes, a: Version, b: Version, newest: Node, older: Node, merged: Node)
    requires newest == Node([Entry(k, a)], [], 2) && older == Node([Entry(k, b)], [], 1)
    requires merged == Node([Entry(k, a)], [[b]], 1)
    requires a.ts == 5 && b.ts == MarkLocked(3)
    ensures ValidNodes([newest, older]) && ChainRead([newest, older], k, 4, false, None) == Retry
    ensures ValidNodes([merged]) && ChainRead([merged], k, 4, false, None) == NotFound
  {
    SingleVersions(newest, k, a);
    SingleVersions(older, k, b);
    NodeVersionsAt(merged, 0);
    assert NodeVersions(merged, k) == [a, b];
    VisibleConcat([a], [b], 4);
    assert [a] + [b] == [a, b];
    assert NodeRead([a], 4, false, None) == Missing;
    assert NodeRead([b], 4, false, None) == RowLocked;
    assert NodeRead([a, b], 4, false, None) == Missing;
    assert [newest, older][1..] == [older];
    assert ChainRead([older], k, 4, false, None) == Retry;
    assert [merged][1..] == [];
  }

  // ----- The chain stays short -----

  function Size(n: Node): nat {
    |n.rows|
  }

  /** Going down the chain, every node is at least twice as big as the one before. */
  ghost predicate Doubling(chain: seq<Node>) {
    && (chain != [] ==> Size(chain[0]) >= 1)
    && forall i :: 0 <= i < |chain| - 1 ==> Size(chain[i + 1]) >= 2 * Size(chain[i])
  }

  /** Single-row nodes above doubling ones. */
  ghost predicate Layered(chain: seq<Node>) {
    Doubling(chain) || (chain != [] && Size(chain[0]) == 1 && Layered(chain[1..]))
  }

  /** Single-row nodes above doubling ones, and doubling throughout once there are more than sixteen. */
  ghost predicate Short(chain: seq<Node>) {
    Layered(chain) && (|chain| <= DELTA_CHAIN_LENGTH || Doubling(chain))
  }

  lemma {:induction false} DoublingSuffix(chain: seq<Node>, n: nat)
    requires Doubling(chain) && n <= |chain|
    ensures Doubling(chain[n..])
  {
    if 0 < n {
      DoublingSuffix(chain, n - 1);
      var rest := chain[n - 1..];
      assert chain[n..] == rest[1..];
      assert |rest| > 1 ==> Size(rest[1]) >= 2 * Size(rest[0]);
    }
  }

  lemma {:induction false} LayeredSuffix(chain: seq<Node>, n: nat)
    requires Layered(chain) && n < |chain| && Size(chain[n]) != 1
    ensures Doubling(chain[n..])
  {
    if Doubling(chain) {
      DoublingSuffix(chain, n);
    } else {
      LayeredSuffix(chain[1..], n - 1);
      assert chain[1..][n - 1..] == chain[n..];
    }
  }

  lemma CompactedDoubles(before: seq<Node>, after: seq<Node>, force: bool)
    requires Layered(before) && Compacted(before, after, force) && Size(after[0]) >= 1
    ensures Doubling(after)
  {
    var n := |before| - |after| + 1;
    hide NodeVersions, Merged;
    if n < |before| {
      LayeredSuffix(before, n);
      forall i | 0 <= i < |after| - 1 ensures Size(after[i + 1]) >= 2 * Size(after[i]) {
        assert after[i + 1] == after[1..][i] == before[n..][i];
        assert i > 0 ==> after[i] == after[1..][i - 1] == before[n..][i - 1];
      }
    }
  }

  /** The new version survives compaction, so the merged node is not empty. */
  lemma NewVersionSurvives(before: seq<Node>, after: seq<Node>, key: Bytes, v: Version, force: bool)
    requires ValidChain(before) && v.ts != ABORTED_TXN_TS
    requires Compacted([SingleRow(before, key, v)] + before, after, force)
    ensures Size(after[0]) >= 1
  {
    var middle := [SingleRow(before, key, v)] + before;
    var n := |middle| - |after| + 1;
    SingleVersions(middle[0], key, v);
    assert middle[..n][0] == middle[0];
    assert NodeVersions(after[0], key) == Merged(middle, n, key);
    assert Flatten(middle[..n], key)[0] == v;
    assert HasKey(after[0], key);
  }

  /** Every write keeps the chain layered and short. */
  lemma WriteKeepsShort(before: seq<Node>, after: seq<Node>, key: Bytes, v: Version, opts: Options)
    requires Short(before) && ValidChain(before) && v.ts != ABORTED_TXN_TS && !opts.disableCompaction
    requires Prepended(before, after, key, v, opts)
    ensures Short(after)
  {
    var middle := [SingleRow(before, key, v)] + before;
    assert middle[1..] == before && Layered(middle);
    if Compacts(before, opts) {
      NewVersionSurvives(before, after, key, v, opts.forceCompaction);
      CompactedDoubles(middle, after, opts.forceCompaction);
    }
  }

  /** Stamping changes no sizes. */
  lemma {:induction false} SameSizesKeepLayered(before: seq<Node>, after: seq<Node>)
    requires |after| == |before| && forall i :: 0 <= i < |before| ==> Size(after[i]) == Size(before[i])
    requires Layered(before)
    ensures Layered(after) && (Doubling(before) ==> Doubling(after))
    decreases |before|
  {
    if !Doubling(before) {
      SameSizesKeepLayered(before[1..], after[1..]);
    }
  }

  function Pow2(n: nat): nat {
    if n == 0 then 1 else 2 * Pow2(n - 1)
  }

  ghost function KeysOf(rows: seq<Entry>): set<Bytes> {
    set i | 0 <= i < |rows| :: rows[i].key
  }

  ghost function DistinctKeys(chain: seq<Node>): set<Bytes> {
    set i, j | 0 <= i < |chain| && 0 <= j < |chain[i].rows| :: chain[i].rows[j].key
  }

  lemma {:induction false} SortedRowsCount(rows: seq<Entry>)
    requires Sorted(rows)
    ensures |KeysOf(rows)| == |rows|
    decreases |rows|
  {
    if rows != [] {
      var last := |rows| - 1;
      var init := rows[..last];
      SortedRowsCount(init);
      assert rows[last].key !in KeysOf(init) by {
        forall i | 0 <= i < |init| ensures init[i].key != rows[last].key {
          if init[i].key == rows[last].key { SortedUnique(rows, i, last); }
        }
      }
      assert KeysOf(rows) == KeysOf(init) + {rows[last].key};
    }
  }

  lemma {:induction false} DoublingGrows(chain: seq<Node>, i: nat)
    requires Doubling(chain) && i < |chain|
    ensures Size(chain[i]) >= Pow2(i)
  {
    if i > 0 {
      DoublingGrows(chain, i - 1);
      assert Size(chain[i - 1 + 1]) >= 2 * Size(chain[i - 1]);
    }
  }

  lemma SubsetCount(a: set<Bytes>, b: set<Bytes>)
    requires a <= b
    ensures |a| <= |b|
  {
    assert b == a + (b - a);
  }

  /** The chain has at most 16 nodes, or at most 1 + log2 of the page's distinct keys. */
  lemma ShortChainBound(chain: seq<Node>)
    requires Short(chain) && ValidNodes(chain)
    ensures |chain| <= DELTA_CHAIN_LENGTH || Pow2(|chain| - 1) <= |DistinctKeys(chain)|
  {
    if |chain| > DELTA_CHAIN_LENGTH {
      var last := |chain| - 1;
      DoublingGrows(chain, last);
      SortedRowsCount(chain[last].rows);
      SubsetCount(KeysOf(chain[last].rows), DistinctKeys(chain));
    }
  }

  /**
   When a write compacts, and how far: not below seventeen nodes unless forced, and never with compaction
   disabled unless forced; unforced, each node merged after the first has a single row or fewer than
   twice as many rows as keys were merged before it, and the node left in front of the rest has at least
   twice as many as the merged one.
  */
  lemma CompactionRule(before: seq<Node>, after: seq<Node>, key: Bytes, v: Version, opts: Options)
    requires ValidChain(before) && Prepended(before, after, key, v, opts) && !opts.forceCompaction
    ensures var middle := [SingleRow(before, key, v)] + before;
            if |middle| <= 16 || opts.disableCompaction then after == middle
            else
              var n := |middle| - |after| + 1;
              && 1 <= n <= |middle| && after != [] && after[1..] == middle[n..]
              && (n < |middle| ==> |middle[n].rows| != 1 && 2 * |after[0].rows| <= |middle[n].rows|)
              && ValidNodes(middle)
              && forall j, keys: set<Bytes> :: 1 <= j < n && LiveKeys(middle, j, keys) ==>
                   |middle[j].rows| == 1 || |middle[j].rows| < 2 * |keys|
  {
    hide ValidNodes, NodeVersions, LiveKeys;
    PrependMeaning(before, key, v);
  }

  lemma {:induction false} DropAbortedExact(vs: seq<Version>)
    ensures forall v :: v in DropAborted(vs) <==> v in vs && v.ts != ABORTED_TXN_TS
    decreases |vs|
  {
    if vs != [] {
      DropAbortedExact(vs[1..]);
      assert vs == [vs[0]] + vs[1..];
    }
  }

  /** The merged node has exactly the versions of the merged nodes that are not aborted. */
  lemma CompactedIsClean(before: seq<Node>, after: seq<Node>, force: bool, k: Bytes, v: Version)
    requires Compacted(before, after, force)
    ensures var n := |before| - |after| + 1;
            && ValidNodes(before) && ValidNodes(before[..n]) && ValidNodes(after)
            && (v in NodeVersions(after[0], k) <==> v in Flatten(before[..n], k) && v.ts != ABORTED_TXN_TS)
  {
    hide ValidNode, NodeVersions, StopsNowhereBefore, DropAborted;
    DropAbortedExact(Flatten(before[..|before| - |after| + 1], k));
  }

  /** A forced compaction leaves one node, with every live version of every key in order. */
  lemma ForcedIsOneNode(before: seq<Node>, after: seq<Node>)
    requires Compacted(before, after, true)
    ensures |after| == 1 && forall k :: NodeVersions(after[0], k) == DropAborted(Flatten(before, k))
  {
    hide NodeVersions, ValidNodes;
    assert before[..|before|] == before;
  }

  /** So does a write with compaction forced, on the list that the write leaves. */
  lemma ForcedWriteIsOneNode(before: seq<Node>, after: seq<Node>, key: Bytes, v: Version, opts: Options)
    requires ValidChain(before) && opts.forceCompaction && Prepended(before, after, key, v, opts)
    ensures ValidNodes(after) && |after| == 1
    ensures forall k ::
              NodeVersions(after[0], k) == DropAborted((if k == key then [v] else []) + Flatten(before, k))
  {
    hide NodeVersions, DropAborted, Compacted;
    PrependMeaning(before, key, v);
    var middle := [SingleRow(before, key, v)] + before;
    CompactedValid(middle, after, true);
    ForcedIsOneNode(middle, after);
    forall k ensures NodeVersions(after[0], k) == DropAborted((if k == key then [v] else []) + Flatten(before, k)) {
      assert Flatten(middle, k) == (if k == key then [v] else []) + Flatten(before, k);
    }
  }

  lemma CompactedValid(before: seq<Node>, after: seq<Node>, force: bool)
    requires Compacted(before, after, force)
    ensures ValidNodes(before) && ValidNodes(after)
  {
    hide ValidNodes, NodeVersions, StopsNowhereBefore;
  }

  // ----- Pages built from empty -----

  datatype Change =
    | Write(key: Bytes, version: Version, opts: Options)
    | Stamp(key: Bytes, ts: nat)

  /** One call of SetRow, DeleteRow or SetTs that took effect, with compaction enabled. */
  ghost predicate Changes(before: seq<Node>, after: seq<Node>, change: Change) {
    match change
    case Write(key, v, opts) =>
      && ValidChain(after) && !opts.disableCompaction && v.ts != ABORTED_TXN_TS
      && Prepended(before, after, key, v, opts)
    case Stamp(key, ts) => Restamps(before, after, key, ts)
  }

  ghost predicate IsHistory(chains: seq<seq<Node>>, changes: seq<Change>) {
    && |chains| == |changes| + 1 && chains[0] == []
    && forall i :: 0 <= i < |changes| ==> Changes(chains[i], chains[i + 1], changes[i])
  }

  lemma ChangeKeepsShort(before: seq<Node>, after: seq<Node>, change: Change)
    requires Short(before) && ValidChain(before) && Changes(before, after, change)
    ensures Short(after) && ValidChain(after)
  {
    match change
    case Write(key, v, opts) => WriteKeepsShort(before, after, key, v, opts);
    case Stamp(_, _) => SameSizesKeepLayered(before, after);
  }

  /**
   A page built from empty by any writes and stamps, with compaction enabled: after every call the
   chain is single-row nodes above doubling ones, and has at most sixteen nodes or at most one more
   than the binary logarithm of the page's distinct keys.
  */
  lemma {:induction false} ChainStaysShort(chains: seq<seq<Node>>, changes: seq<Change>, n: nat)
    requires IsHistory(chains, changes) && n < |chains|
    ensures ValidChain(chains[n]) && Short(chains[n])
    ensures |chains[n]| <= DELTA_CHAIN_LENGTH || Pow2(|chains[n]| - 1) <= |DistinctKeys(chains[n])|
  {
    hide Changes, ValidNodes, DistinctKeys;
    if n > 0 {
      ChainStaysShort(chains, changes, n - 1);
      ChangeKeepsShort(chains[n - 1], chains[n], changes[n - 1]);
      ShortChainBound(chains[n]);
    } else {
      EmptyIsValid();
    }
  }

  lemma EmptyIsValid()
    ensures ValidChain([])
  {
  }
}
