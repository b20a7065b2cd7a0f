/** A versioned page: a chain of delta nodes, newest first, with compaction. */
module DeltaPage {
  import opened Common
  import opened TxnTs
  import opened Versions
  import opened Lex
  import opened DeltaNode

  const DELTA_CHAIN_LENGTH: nat := 16
  const COMPACTION_FACTOR: nat := 2

  ghost predicate ValidNodes(chain: seq<Node>) {
    forall i :: 0 <= i < |chain| ==> ValidNode(chain[i])
  }

  /** All versions of `k` along a chain, newest first: what the page means at `k`. */
  ghost function Flatten(chain: seq<Node>, k: Bytes): seq<Version>
    requires ValidNodes(chain)
  {
    if chain == [] then [] else NodeVersions(chain[0], k) + Flatten(chain[1..], k)
  }

  lemma {:induction false} FlattenConcat(a: seq<Node>, b: seq<Node>, k: Bytes)
    requires ValidNodes(a) && ValidNodes(b) && ValidNodes(a + b)
    ensures Flatten(a + b, k) == Flatten(a, k) + Flatten(b, k)
    decreases |a|
  {
    hide NodeVersions, ValidNode;
    if a == [] {
      assert a + b == b;
    } else {
      assert (a + b)[1..] == a[1..] + b;
      FlattenConcat(a[1..], b, k);
      assert (a + b)[0] == a[0];
    }
  }

  lemma {:induction false} DropAbortedConcat(a: seq<Version>, b: seq<Version>)
    ensures DropAborted(a + b) == DropAborted(a) + DropAborted(b)
    decreases |a|
  {
    if a == [] {
      assert a + b == b;
    } else {
      DropAbortedConcat(a[1..], b);
      assert (a + b)[1..] == a[1..] + b;
    }
  }

  /** Dropping the aborted versions of the newer part of a list prunes the list. */
  lemma {:induction false} PrunedPrefix(a: seq<Version>, b: seq<Version>)
    ensures Pruned(a + b, DropAborted(a) + b)
    decreases |a|
  {
    if a == [] {
      assert a + b == b && DropAborted(a) + b == b;
      PrunedRefl(b);
    } else {
      PrunedPrefix(a[1..], b);
      assert (a + b)[1..] == a[1..] + b;
      if a[0].ts != ABORTED_TXN_TS {
        assert (DropAborted(a) + b)[1..] == DropAborted(a[1..]) + b;
      }
    }
  }

  // ----- The builder -----

  function Collected(m: map<Bytes, seq<Version>>, k: Bytes): seq<Version> {
    if k in m then m[k] else []
  }

  /** The visitor of AddDeltaNode: aborted versions are skipped. */
  function Collect(m: map<Bytes, seq<Version>>, k: Bytes, v: Version): map<Bytes, seq<Version>> {
    if v.ts == ABORTED_TXN_TS then m else m[k := Collected(m, k) + [v]]
  }

  lemma CollectOne(m: map<Bytes, seq<Version>>, k: Bytes, v: Version, base: seq<Version>, vs: seq<Version>)
    requires Collected(m, k) == base + DropAborted(vs)
    ensures Collected(Collect(m, k, v), k) == base + DropAborted(vs + [v])
  {
    DropAbortedConcat(vs, [v]);
    assert DropAborted([v]) == if v.ts == ABORTED_TXN_TS then [] else [v];
  }

  class Builder {
    var entries: map<Bytes, seq<Version>>

    ghost predicate Valid()
      reads this
    {
      forall k :: k in entries ==> entries[k] != []
    }

    constructor ()
      ensures Valid() && entries == map[]
    {
      entries := map[];
    }

    /** AddDeltaNode: every live version of the node goes behind those of newer nodes. */
    method AddDeltaNode(n: Node)
      requires Valid() && ValidNode(n)
      modifies this
      ensures Valid()
      ensures forall k :: Collected(entries, k) == old(Collected(entries, k)) + DropAborted(NodeVersions(n, k))
    {
      var m := entries;
      for i := 0 to |n.rows|
        invariant entries == old(entries)
        invariant forall k :: k in m ==> m[k] != []
        invariant forall j :: 0 <= j < i ==>
                                Collected(m, n.rows[j].key)
                                == Collected(entries, n.rows[j].key) + DropAborted(RowVersions(n, j))
        invariant forall k :: (forall j :: 0 <= j < i ==> n.rows[j].key != k) ==>
                    Collected(m, k) == Collected(entries, k)
      {
        forall j | 0 <= j < |n.rows| && n.rows[j].key == n.rows[i].key ensures j == i {
          SortedUnique(n.rows, i, j);
        }
        m := AddRow(m, n, i);
      }
      forall k ensures Collected(m, k) == Collected(entries, k) + DropAborted(NodeVersions(n, k)) {
        if HasKey(n, k) {
          var j :| 0 <= j < |n.rows| && n.rows[j].key == k;
          NodeVersionsAt(n, j);
        }
      }
      entries := m;
    }

    /** Traverse at one row: the newest version, then the older ones. */
    static method AddRow(m0: map<Bytes, seq<Version>>, n: Node, i: nat) returns (m: map<Bytes, seq<Version>>)
      requires ValidNode(n) && i < |n.rows| && forall k :: k in m0 ==> m0[k] != []
      ensures forall k :: k in m ==> m[k] != []
      ensures Collected(m, n.rows[i].key) == Collected(m0, n.rows[i].key) + DropAborted(RowVersions(n, i))
      ensures forall k :: k != n.rows[i].key ==> Collected(m, k) == Collected(m0, k)
    {
      m := AddVersions(m0, n.rows[i].key, [n.rows[i].version]);
      if n.versions != [] {
        m := AddVersions(m, n.rows[i].key, n.versions[i]);
        DropAbortedConcat([n.rows[i].version], n.versions[i]);
      }
    }

    static method AddVersions(m0: map<Bytes, seq<Version>>, key: Bytes, vs: seq<Version>)
      returns (m: map<Bytes, seq<Version>>)
      requires forall k :: k in m0 ==> m0[k] != []
      ensures forall k :: k in m ==> m[k] != []
      ensures Collected(m, key) == Collected(m0, key) + DropAborted(vs)
      ensures forall k :: k != key ==> Collected(m, k) == Collected(m0, k)
    {
      m := m0;
      for j := 0 to |vs|
        invariant forall k :: k in m ==> m[k] != []
        invariant Collected(m, key) == Collected(m0, key) + DropAborted(vs[..j])
        invariant forall k :: k != key ==> Collected(m, k) == Collected(m0, k)
      {
        CollectOne(m, key, vs[j], Collected(m0, key), vs[..j]);
        assert vs[..j] + [vs[j]] == vs[..j + 1];
        m := Collect(m, key, vs[j]);
      }
      assert vs[..|vs|] == vs;
    }

    /** GenerateDeltaNode: one sorted row per key, with its older versions beside it. */
    method GenerateDeltaNode() returns (n: Node)
      requires Valid()
      ensures ValidNode(n) && |n.rows| == |entries|
      ensures forall k :: NodeVersions(n, k) == Collected(entries, k)
    {
      var keys := InOrder(entries.Keys);
      n := LayOut(entries, keys);
    }

    static method LayOut(m: map<Bytes, seq<Version>>, keys: seq<Bytes>) returns (n: Node)
      requires forall k :: k in m ==> m[k] != []
      requires forall k :: k in m <==> k in keys
      requires forall i, j :: 0 <= i < j < |keys| ==> Less(keys[i], keys[j])
      ensures ValidNode(n) && |n.rows| == |keys| && forall k :: NodeVersions(n, k) == Collected(m, k)
    {
      var rows: seq<Entry>, versions: seq<seq<Version>> := [], [];
      var hasVersion := false;
      for i := 0 to |keys|
        invariant |rows| == |versions| == i
        invariant forall j :: 0 <= j < i ==>
                                rows[j].key == keys[j] && m[keys[j]] == [rows[j].version] + versions[j]
        invariant !hasVersion ==> forall j :: 0 <= j < i ==> versions[j] == []
      {
        var vec := m[keys[i]];
        rows := rows + [Entry(keys[i], vec[0])];
        versions := versions + [vec[1..]];
        hasVersion := hasVersion || |vec| > 1;
      }
      n := Node(rows, if hasVersion then versions else [], 0);
      LaidOut(m, keys, rows, versions, n);
    }

    /** The iteration order of std::map. */
    static method InOrder(keys: set<Bytes>) returns (ks: seq<Bytes>)
      ensures |ks| == |keys| && forall k :: k in keys <==> k in ks
      ensures forall i, j :: 0 <= i < j < |ks| ==> Less(ks[i], ks[j])
    {
      ks := [];
      var left := keys;
      while left != {}
        invariant left <= keys && |ks| + |left| == |keys|
        invariant forall k :: k in keys <==> k in ks || k in left
        invariant forall i, k :: 0 <= i < |ks| && k in left ==> Less(ks[i], k)
        invariant forall i, j :: 0 <= i < j < |ks| ==> Less(ks[i], ks[j])
        decreases |left|
      {
        LeastExists(left);
        var k :| k in left && forall b :: b in left && b != k ==> Less(k, b);
        ks := ks + [k];
        left := left - {k};
      }
    }
  }

  lemma LaidOut(m: map<Bytes, seq<Version>>, keys: seq<Bytes>, rows: seq<Entry>, versions: seq<seq<Version>>, n: Node)
    requires |keys| == |versions| == |rows| && n.rows == rows
    requires n.versions == versions || (n.versions == [] && forall i :: 0 <= i < |versions| ==> versions[i] == [])
    requires forall k :: k in m <==> k in keys
    requires forall i, j :: 0 <= i < j < |keys| ==> Less(keys[i], keys[j])
    requires forall i :: 0 <= i < |rows| ==> rows[i].key == keys[i] && m[keys[i]] == [rows[i].version] + versions[i]
    ensures ValidNode(n) && forall k :: NodeVersions(n, k) == Collected(m, k)
  {
    forall k ensures NodeVersions(n, k) == Collected(m, k) {
      if k in m {
        var i :| 0 <= i < |keys| && keys[i] == k;
        assert rows[i].key == k;
        NodeVersionsAt(n, i);
      } else {
        assert forall i :: 0 <= i < |rows| ==> rows[i].key in keys;
      }
    }
  }

  // ----- The chain as a whole: reference meanings -----

  /** GetRowOnce_ on a chain: node by node until one node decides. */
  ghost function ChainRead(chain: seq<Node>, k: Bytes, readTs: nat, ignoreLock: bool, owner: Option<nat>): ReadStatus
    requires ValidNodes(chain)
  {
    if chain == [] then NotFound
    else OrElse(NodeRead(NodeVersions(chain[0], k), readTs, ignoreLock, owner),
                ChainRead(chain[1..], k, readTs, ignoreLock, owner))
  }

  /** The answer of a node, or that of the rest of the chain if the node has none. */
  function OrElse(r: NodeStatus, rest: ReadStatus): ReadStatus {
    match r
    case Ok(v) => Found(v)
    case Deleted => NotFound
    case RowLocked => Retry
    case Missing => rest
  }

  lemma {:induction false} VisibleConcat(a: seq<Version>, b: seq<Version>, t: nat)
    ensures VisibleAt(a + b, t) == if VisibleAt(a, t).Some? then VisibleAt(a, t) else VisibleAt(b, t)
    decreases |a|
  {
    if a == [] {
      assert a + b == b;
    } else {
      VisibleConcat(a[1..], b, t);
      assert (a + b)[1..] == a[1..] + b;
    }
  }

  lemma ChainReadFrom(chain: seq<Node>, i: nat, k: Bytes, readTs: nat, ignoreLock: bool, owner: Option<nat>)
    requires ValidNodes(chain) && i < |chain|
    ensures ChainRead(chain[i..], k, readTs, ignoreLock, owner)
            == OrElse(NodeRead(NodeVersions(chain[i], k), readTs, ignoreLock, owner),
                      ChainRead(chain[i + 1..], k, readTs, ignoreLock, owner))
  {
    hide NodeVersions, NodeRead, OrElse;
    assert chain[i..][1..] == chain[i + 1..];
  }

  lemma ChainReadEnd(chain: seq<Node>, k: Bytes, readTs: nat, ignoreLock: bool, owner: Option<nat>)
    requires ValidNodes(chain)
    ensures ChainRead(chain[|chain|..], k, readTs, ignoreLock, owner) == NotFound
  {
  }

  lemma ReadConcat(a: seq<Version>, b: seq<Version>, readTs: nat, ignoreLock: bool, owner: Option<nat>)
    requires LockedAtHead(a + b)
    ensures OrElse(NodeRead(a, readTs, ignoreLock, owner), ReadOnce(b, readTs, ignoreLock, owner))
            == ReadOnce(a + b, readTs, ignoreLock, owner)
    ensures LockedAtHead(b)
  {
    VisibleConcat(a, b, readTs);
    assert forall i :: 0 <= i < |b| ==> (a + b)[|a| + i] == b[i];
    if a == [] {
      assert a + b == b;
    } else {
      assert (a + b)[0] == a[0];
      assert b != [] ==> (a + b)[|a|] == b[0];
    }
  }

  /** The node-by-node read is the read of the flattened list, as long as only its newest version may be locked. */
  lemma {:induction false} ChainReadIsListRead(
    chain: seq<Node>, k: Bytes, readTs: nat, ignoreLock: bool, owner: Option<nat>)
    requires ValidNodes(chain) && LockedAtHead(Flatten(chain, k))
    ensures ChainRead(chain, k, readTs, ignoreLock, owner) == ReadOnce(Flatten(chain, k), readTs, ignoreLock, owner)
    decreases |chain|
  {
    if chain != [] {
      hide NodeVersions, ValidNode, ReadOnce, NodeRead, OrElse, LockedAtHead;
      ReadConcat(NodeVersions(chain[0], k), Flatten(chain[1..], k), readTs, ignoreLock, owner);
      ChainReadIsListRead(chain[1..], k, readTs, ignoreLock, owner);
    }
  }

  // ----- The page -----

  datatype Options = Options(
    ignoreLock: bool, owner: Option<nat>, checkIntentLocked: bool, disableCompaction: bool, forceCompaction: bool)

  /** Does compaction stop in front of this node? */
  predicate StopsAt(n: Node, built: nat, force: bool) {
    |n.rows| != 1 && built * COMPACTION_FACTOR <= |n.rows| && !force
  }

  /** Each node knows the length of the chain from it on. */
  ghost predicate ValidChain(chain: seq<Node>) {
    ValidNodes(chain) && forall i :: 0 <= i < |chain| ==> chain[i].totalLength == |chain| - i
  }

  /** How compaction changes a chain: a new node in place of the newest ones. */
  ghost predicate Compacted(before: seq<Node>, after: seq<Node>, force: bool) {
    && 1 <= |after| <= |before|
    && ValidNodes(before) && ValidNodes(after)
    && var n := |before| - |after| + 1;
    && after[1..] == before[n..]
    && (n < |before| ==> StopsAt(before[n], |after[0].rows|, force))
    && StopsNowhereBefore(before, n, force)
    && forall k :: NodeVersions(after[0], k) == Merged(before, n, k)
  }

  /** The keys with live versions in the first `n` nodes. */
  ghost predicate LiveKeys(chain: seq<Node>, n: nat, keys: set<Bytes>)
    requires ValidNodes(chain) && n <= |chain|
  {
    forall k :: k in keys <==> Merged(chain, n, k) != []
  }

  /** Each node merged after the first was too small to stop at, for the keys merged so far. */
  ghost predicate StopsNowhereBefore(chain: seq<Node>, n: nat, force: bool)
    requires ValidNodes(chain) && n <= |chain|
  {
    forall j, keys: set<Bytes> :: 1 <= j < n && LiveKeys(chain, j, keys) ==> !StopsAt(chain[j], |keys|, force)
  }

  lemma GoesOn(chain: seq<Node>, n: nat, force: bool, keys: set<Bytes>)
    requires ValidNodes(chain) && 1 <= n < |chain| && StopsNowhereBefore(chain, n, force)
    requires LiveKeys(chain, n, keys) && !StopsAt(chain[n], |keys|, force)
    ensures StopsNowhereBefore(chain, n + 1, force)
  {
    hide Merged, StopsAt;
    forall j, others: set<Bytes> | 1 <= j < n + 1 && LiveKeys(chain, j, others)
      ensures !StopsAt(chain[j], |others|, force)
    {
      if j == n { assert others == keys; }
    }
  }

  function SingleRow(chain: seq<Node>, key: Bytes, v: Version): Node {
    Node([Entry(key, v)], [], |chain| + 1)
  }

  predicate Compacts(chain: seq<Node>, opts: Options) {
    (!opts.disableCompaction && |chain| + 1 > DELTA_CHAIN_LENGTH) || opts.forceCompaction
  }

  /** How a write changes a chain: a single-row node on top, then compaction if it is due. */
  ghost predicate Prepended(before: seq<Node>, after: seq<Node>, key: Bytes, v: Version, opts: Options) {
    var middle := [SingleRow(before, key, v)] + before;
    if Compacts(before, opts) then Compacted(middle, after, opts.forceCompaction) else after == middle
  }

  /** How stamping changes a chain: the newest version of the key gets the timestamp, no node changes its size. */
  ghost predicate Restamps(before: seq<Node>, after: seq<Node>, key: Bytes, ts: nat) {
    && ValidChain(before) && ValidChain(after)
    && |after| == |before| && (forall i :: 0 <= i < |before| ==> |after[i].rows| == |before[i].rows|)
    && Flatten(after, key) == Restamped(Flatten(before, key), ts)
    && forall k :: k != key ==> Flatten(after, k) == Flatten(before, k)
  }

  lemma SingleVersions(n: Node, key: Bytes, v: Version)
    requires n.rows == [Entry(key, v)] && n.versions == []
    ensures ValidNode(n) && forall k :: NodeVersions(n, k) == if k == key then [v] else []
  {
    NodeVersionsAt(n, 0);
  }

  lemma PrependMeaning(chain: seq<Node>, key: Bytes, v: Version)
    requires ValidChain(chain)
    ensures ValidChain([SingleRow(chain, key, v)] + chain)
    ensures forall k :: Flatten([SingleRow(chain, key, v)] + chain, k)
                        == (if k == key then [v] else []) + Flatten(chain, k)
  {
    var n := SingleRow(chain, key, v);
    SingleVersions(n, key, v);
    hide NodeVersions, ValidNode;
    assert ([n] + chain)[1..] == chain;
  }

  lemma SameRows(n: Node, n': Node)
    requires ValidNode(n) && n'.rows == n.rows && n'.versions == n.versions
    ensures ValidNode(n') && forall k :: NodeVersions(n', k) == NodeVersions(n, k)
  {
    forall k ensures NodeVersions(n', k) == NodeVersions(n, k) {
      if HasKey(n, k) {
        var i :| 0 <= i < |n.rows| && n.rows[i].key == k;
        NodeVersionsAt(n, i);
        NodeVersionsAt(n', i);
      }
    }
  }

  /** The live versions of `k` in the first `n` nodes. */
  ghost function Merged(chain: seq<Node>, n: nat, k: Bytes): seq<Version>
    requires ValidNodes(chain) && n <= |chain|
  {
    DropAborted(Flatten(chain[..n], k))
  }

  lemma CompactStart(chain: seq<Node>)
    requires ValidNodes(chain) && chain != []
    ensures forall k :: Merged(chain, 1, k) == DropAborted(NodeVersions(chain[0], k))
  {
    hide NodeVersions;
    assert chain[..1] == [chain[0]];
    forall k ensures Merged(chain, 1, k) == DropAborted(NodeVersions(chain[0], k)) { FlattenSingle(chain[0], k); }
  }

  lemma CompactNext(chain: seq<Node>, n: nat)
    requires ValidNodes(chain) && n < |chain|
    ensures forall k :: Merged(chain, n + 1, k)
                        == Merged(chain, n, k) + DropAborted(NodeVersions(chain[n], k))
  {
    hide NodeVersions;
    forall k ensures Merged(chain, n + 1, k)
                     == Merged(chain, n, k) + DropAborted(NodeVersions(chain[n], k))
    {
      assert chain[..n + 1] == chain[..n] + [chain[n]];
      FlattenConcat(chain[..n], [chain[n]], k);
      FlattenSingle(chain[n], k);
      DropAbortedConcat(Flatten(chain[..n], k), NodeVersions(chain[n], k));
    }
  }

  lemma FlattenSingle(n: Node, k: Bytes)
    requires ValidNode(n)
    ensures Flatten([n], k) == NodeVersions(n, k)
  {
    hide NodeVersions;
    assert [n][1..] == [];
  }

  /** The chain after compaction of its first `n` nodes into `node`. */
  function Replaced(chain: seq<Node>, n: nat, node: Node): seq<Node>
    requires n <= |chain|
  {
    [node.(totalLength := |chain| - n + 1)] + chain[n..]
  }

  lemma CompactDone(chain: seq<Node>, n: nat, node: Node, force: bool)
    requires ValidChain(chain) && 1 <= n <= |chain| && ValidNode(node)
    requires forall k :: NodeVersions(node, k) == Merged(chain, n, k)
    requires StopsNowhereBefore(chain, n, force) && (n < |chain| ==> StopsAt(chain[n], |node.rows|, force))
    ensures ValidChain(Replaced(chain, n, node)) && Compacted(chain, Replaced(chain, n, node), force)
  {
    ReplacedValid(chain, n, node);
    hide NodeVersions, ValidNode, ValidNodes, Merged, Replaced, ValidChain, StopsAt, StopsNowhereBefore;
    var after := Replaced(chain, n, node);
    forall k ensures NodeVersions(after[0], k) == Merged(chain, n, k) {
      assert NodeVersions(node, k) == Merged(chain, n, k);
    }
    assert |chain| - |after| + 1 == n;
  }

  lemma CompactMeaning(chain: seq<Node>, n: nat, node: Node)
    requires ValidChain(chain) && 1 <= n <= |chain| && ValidNode(node)
    requires forall k :: NodeVersions(node, k) == Merged(chain, n, k)
    ensures ValidNodes(Replaced(chain, n, node))
    ensures forall k :: Pruned(Flatten(chain, k), Flatten(Replaced(chain, n, node), k))
  {
    var after := Replaced(chain, n, node);
    ReplacedValid(chain, n, node);
    hide NodeVersions, ValidNode, ValidNodes, Merged, Flatten, Pruned, Replaced, ValidChain;
    forall k ensures Pruned(Flatten(chain, k), Flatten(after, k)) {
      assert NodeVersions(node, k) == Merged(chain, n, k);
      ReplacedPrunes(chain, n, after, k);
    }
  }

  lemma ReplacedValid(chain: seq<Node>, n: nat, node: Node)
    requires ValidChain(chain) && 1 <= n <= |chain| && ValidNode(node)
    ensures ValidNodes(chain) && ValidNodes(Replaced(chain, n, node)) && ValidChain(Replaced(chain, n, node))
    ensures |Replaced(chain, n, node)| == |chain| - n + 1 && Replaced(chain, n, node)[1..] == chain[n..]
    ensures |Replaced(chain, n, node)[0].rows| == |node.rows|
    ensures forall k :: NodeVersions(Replaced(chain, n, node)[0], k) == NodeVersions(node, k)
  {
    var after := Replaced(chain, n, node);
    SameRows(node, after[0]);
    hide NodeVersions, ValidNode;
    assert after[1..] == chain[n..];
  }

  lemma ReplacedPrunes(chain: seq<Node>, n: nat, after: seq<Node>, k: Bytes)
    requires ValidNodes(chain) && n <= |chain| && ValidNodes(after) && after != [] && after[1..] == chain[n..]
    requires NodeVersions(after[0], k) == Merged(chain, n, k)
    ensures Pruned(Flatten(chain, k), Flatten(after, k))
  {
    hide NodeVersions, ValidNode;
    assert chain == chain[..n] + chain[n..];
    FlattenConcat(chain[..n], chain[n..], k);
    PrunedPrefix(Flatten(chain[..n], k), Flatten(chain[n..], k));
  }

  lemma {:induction false} FlattenMissing(chain: seq<Node>, k: Bytes)
    requires ValidNodes(chain) && forall i :: 0 <= i < |chain| ==> !HasKey(chain[i], k)
    ensures Flatten(chain, k) == []
    decreases |chain|
  {
    if chain != [] {
      FlattenMissing(chain[1..], k);
    }
  }

  lemma FlattenSplit(chain: seq<Node>, i: nat, k: Bytes)
    requires ValidNodes(chain) && i < |chain|
    ensures Flatten(chain, k) == Flatten(chain[..i], k) + (NodeVersions(chain[i], k) + Flatten(chain[i + 1..], k))
  {
    hide NodeVersions;
    var lower := chain[i..];
    assert chain == chain[..i] + lower && lower[1..] == chain[i + 1..];
    FlattenConcat(chain[..i], lower, k);
  }

  lemma FlattenReplace(chain: seq<Node>, i: nat, n': Node, k: Bytes)
    requires ValidNodes(chain) && i < |chain| && ValidNode(n')
    ensures ValidNodes(chain[i := n'])
    ensures Flatten(chain[i := n'], k) == Flatten(chain[..i], k) + (NodeVersions(n', k) + Flatten(chain[i + 1..], k))
  {
    hide NodeVersions;
    var chain' := chain[i := n'];
    assert chain'[..i] == chain[..i] && chain'[i + 1..] == chain[i + 1..];
    FlattenSplit(chain', i, k);
  }

  lemma RestampedConcat(a: seq<Version>, b: seq<Version>, ts: nat)
    requires a != []
    ensures Restamped(a, ts) + b == Restamped(a + b, ts)
  {
    assert (a + b)[1..] == a[1..] + b;
  }

  lemma SetTsInChain(chain: seq<Node>, i: nat, n': Node, key: Bytes, ts: nat)
    requires ValidNodes(chain) && i < |chain| && ValidNode(n')
    requires forall j :: 0 <= j < i ==> !HasKey(chain[j], key)
    requires HasKey(chain[i], key)
    requires NodeVersions(n', key) == Restamped(NodeVersions(chain[i], key), ts)
    requires forall k :: k != key ==> NodeVersions(n', k) == NodeVersions(chain[i], k)
    ensures ValidNodes(chain[i := n'])
    ensures Flatten(chain[i := n'], key) == Restamped(Flatten(chain, key), ts)
    ensures forall k :: k != key ==> Flatten(chain[i := n'], k) == Flatten(chain, k)
  {
    assert NodeVersions(chain[i], key) != [];
    FlattenMissing(chain[..i], key);
    hide NodeVersions, HasKey;
    FlattenSplit(chain, i, key);
    FlattenReplace(chain, i, n', key);
    RestampedConcat(NodeVersions(chain[i], key), Flatten(chain[i + 1..], key), ts);
    forall k | k != key ensures Flatten(chain[i := n'], k) == Flatten(chain, k) {
      FlattenSplit(chain, i, k);
      FlattenReplace(chain, i, n', k);
    }
  }

  /** The first node that has the key decides whether its newest version is locked. */
  lemma FlattenFrom(chain: seq<Node>, i: nat, key: Bytes)
    requires ValidNodes(chain) && i < |chain|
    requires forall j :: 0 <= j < i ==> !HasKey(chain[j], key)
    requires HasKey(chain[i], key)
    ensures HeadLocked(Flatten(chain, key)) == HeadLocked(NodeVersions(chain[i], key))
  {
    assert NodeVersions(chain[i], key) != [];
    FlattenMissing(chain[..i], key);
    FlattenSplit(chain, i, key);
  }

  class Page {
    /** ptr_ and the nodes behind it. */
    var chain: seq<Node>

    ghost predicate Valid()
      reads this
    {
      ValidChain(chain)
    }

    constructor ()
      ensures Valid() && chain == [] && forall k :: Flatten(chain, k) == []
    {
      chain := [];
    }

    /** GetRowOnce_ */
    method GetRowOnce(key: Bytes, readTs: nat, opts: Options) returns (s: ReadStatus)
      requires Valid()
      ensures s == ChainRead(chain, key, readTs, opts.ignoreLock, opts.owner)
      ensures LockedAtHead(Flatten(chain, key)) ==>
                s == ReadOnce(Flatten(chain, key), readTs, opts.ignoreLock, opts.owner)
    {
      var c := chain;
      if LockedAtHead(Flatten(chain, key)) {
        ChainReadIsListRead(c, key, readTs, opts.ignoreLock, opts.owner);
      }
      hide NodeVersions, ValidNode, NodeRead, ReadOnce, Flatten, LockedAtHead, ChainRead;
      ChainReadEnd(c, key, readTs, opts.ignoreLock, opts.owner);
      var i := 0;
      assert c[0..] == c;
      while i < |c|
        invariant i <= |c|
        invariant ChainRead(c[i..], key, readTs, opts.ignoreLock, opts.owner)
                  == ChainRead(c, key, readTs, opts.ignoreLock, opts.owner)
      {
        ChainReadFrom(c, i, key, readTs, opts.ignoreLock, opts.owner);
        var r := GetRow(c[i], key, readTs, opts.ignoreLock, opts.owner);
        match r
        case Ok(v) => return Found(v);
        case Deleted => return NotFound;
        case RowLocked => return Retry;
        case Missing =>
        i := i + 1;
      }
      return NotFound;
    }

    /** CheckRowLocked_: is the newest version an intent of somebody else? */
    method CheckRowLocked(key: Bytes, opts: Options) returns (locked: bool)
      requires Valid()
      ensures LockedAtHead(Flatten(chain, key)) ==> locked == Blocked(Flatten(chain, key), opts.ignoreLock, opts.owner)
    {
      var c := chain;
      if LockedAtHead(Flatten(chain, key)) {
        ChainReadIsListRead(c, key, MAX_TXN_TS, opts.ignoreLock, opts.owner);
        assert Blocked(Flatten(chain, key), opts.ignoreLock, opts.owner)
            <==> ChainRead(c, key, MAX_TXN_TS, opts.ignoreLock, opts.owner).Retry?;
      }
      hide NodeVersions, ValidNode, NodeRead, ReadOnce, Blocked, Flatten, LockedAtHead;
      var i := 0;
      while i < |c|
        invariant i <= |c|
        invariant ChainRead(c[i..], key, MAX_TXN_TS, opts.ignoreLock, opts.owner)
                  == ChainRead(c, key, MAX_TXN_TS, opts.ignoreLock, opts.owner)
      {
        assert c[i..][1..] == c[i + 1..];
        var r := GetRow(c[i], key, MAX_TXN_TS, opts.ignoreLock, opts.owner);
        if r.RowLocked? {
          return true;
        } else if r.Deleted? || r.Ok? {
          return false;
        }
        i := i + 1;
      }
      return false;
    }

    /** SetRow: refuse on a foreign intent if asked to check, else prepend the version and maybe compact. */
    method SetRow(key: Bytes, row: Row, writeTs: nat, opts: Options) returns (ok: bool)
      requires Valid() && LockedAtHead(Flatten(chain, key))
      modifies this
      ensures Valid()
      ensures ok == !(opts.checkIntentLocked && Blocked(Flatten(old(chain), key), opts.ignoreLock, opts.owner))
      ensures !ok ==> chain == old(chain)
      ensures ok ==> forall k ::
                Pruned((if k == key then [Version(writeTs, Some(row))] else []) + Flatten(old(chain), k),
                       Flatten(chain, k))
      ensures ok ==> Prepended(old(chain), chain, key, Version(writeTs, Some(row)), opts)
    {
      if opts.checkIntentLocked {
        var locked := CheckRowLocked(key, opts);
        if locked { return false; }
      }
      Prepend(key, Version(writeTs, Some(row)), opts);
      return true;
    }

    /** DeleteRow: the same with a deletion marker. */
    method DeleteRow(key: Bytes, writeTs: nat, opts: Options) returns (ok: bool)
      requires Valid() && LockedAtHead(Flatten(chain, key))
      modifies this
      ensures Valid()
      ensures ok == !(opts.checkIntentLocked && Blocked(Flatten(old(chain), key), opts.ignoreLock, opts.owner))
      ensures !ok ==> chain == old(chain)
      ensures ok ==> forall k ::
                Pruned((if k == key then [Version(writeTs, None)] else []) + Flatten(old(chain), k), Flatten(chain, k))
      ensures ok ==> Prepended(old(chain), chain, key, Version(writeTs, None), opts)
    {
      if opts.checkIntentLocked {
        var locked := CheckRowLocked(key, opts);
        if locked { return false; }
      }
      Prepend(key, Version(writeTs, None), opts);
      return true;
    }

    method Prepend(key: Bytes, v: Version, opts: Options)
      requires Valid()
      modifies this
      ensures Valid()
      ensures forall k :: Pruned((if k == key then [v] else []) + Flatten(old(chain), k), Flatten(chain, k))
      ensures Prepended(old(chain), chain, key, v, opts)
    {
      var delta := Node([Entry(key, v)], [], |chain| + 1);
      PrependMeaning(chain, key, v);
      hide NodeVersions, HasKey, ValidNode, Flatten, Pruned, Compacted;
      chain := [delta] + chain;
      if (!opts.disableCompaction && delta.totalLength > DELTA_CHAIN_LENGTH) || opts.forceCompaction {
        Compaction(opts.forceCompaction);
      } else {
        forall k ensures Pruned(Flatten(chain, k), Flatten(chain, k)) { PrunedRefl(Flatten(chain, k)); }
      }
    }

    /** Compaction_: merge the newest nodes, dropping aborted versions, until a node is big enough to be left alone. */
    method Compaction(force: bool)
      requires Valid() && chain != []
      modifies this
      ensures Valid()
      ensures forall k :: Pruned(Flatten(old(chain), k), Flatten(chain, k))
      ensures Compacted(old(chain), chain, force)
    {
      var c := chain;
      var b := new Builder();
      b.AddDeltaNode(c[0]);
      CompactStart(c);
      hide NodeVersions, HasKey, ValidNode, DropAborted;
      var n := 1;
      while n < |c| && !StopsAt(c[n], |b.entries|, force)
        invariant 1 <= n <= |c| && b.Valid()
        invariant forall k :: Collected(b.entries, k) == Merged(c, n, k)
        invariant StopsNowhereBefore(c, n, force)
      {
        assert LiveKeys(c, n, b.entries.Keys);
        GoesOn(c, n, force, b.entries.Keys);
        b.AddDeltaNode(c[n]);
        CompactNext(c, n);
        n := n + 1;
      }
      var node := b.GenerateDeltaNode();
      CompactDone(c, n, node, force);
      CompactMeaning(c, n, node);
      chain := Replaced(c, n, node);
    }

    /** SetTs: the newest version of the key gets the timestamp; `ok` says that it is there and locked. */
    method SetTs(key: Bytes, ts: nat) returns (ok: bool)
      requires Valid()
      modifies this
      ensures Valid() && ok == HeadLocked(Flatten(old(chain), key))
      ensures if ok then Restamps(old(chain), chain, key, ts) else chain == old(chain)
    {
      var c := chain;
      hide ValidNode;
      var i := 0;
      while i < |c|
        invariant i <= |c| && chain == c
        invariant forall j :: 0 <= j < i ==> !HasKey(c[j], key)
      {
        var n', status := DeltaNode.SetTs(c[i], key, ts);
        if status == Set {
          FlattenFrom(c, i, key);
          SetTsInChain(c, i, n', key, ts);
          chain := c[i := n'];
          return true;
        }
        if status == Unreachable {
          FlattenFrom(c, i, key);
          return false;
        }
        i := i + 1;
      }
      FlattenMissing(c, key);
      return false;
    }
  }
}
