/** One node of a page's delta chain: sorted rows, each with its older versions. */
module DeltaNode {
  import opened Common
  import opened TxnTs
  import opened Versions
  import opened Lex

  datatype Entry = Entry(key: Bytes, version: Version)

  /** `versions` is empty when no row has an older version. */
  datatype Node = Node(rows: seq<Entry>, versions: seq<seq<Version>>, totalLength: nat)

  ghost predicate Sorted(rows: seq<Entry>) {
    forall i, j :: 0 <= i < j < |rows| ==> Less(rows[i].key, rows[j].key)
  }

  ghost predicate ValidNode(n: Node) {
    Sorted(n.rows) && (n.versions == [] || |n.versions| == |n.rows|)
  }

  /** The versions at row `i`, newest first. */
  function RowVersions(n: Node, i: nat): seq<Version>
    requires i < |n.rows| && (n.versions == [] || |n.versions| == |n.rows|)
  {
    [n.rows[i].version] + if n.versions == [] then [] else n.versions[i]
  }

  ghost predicate HasKey(n: Node, k: Bytes) {
    exists i :: 0 <= i < |n.rows| && n.rows[i].key == k
  }

  /** The node's versions of `k`, newest first. */
  ghost function NodeVersions(n: Node, k: Bytes): seq<Version>
    requires ValidNode(n)
  {
    if HasKey(n, k) then
      var i :| 0 <= i < |n.rows| && n.rows[i].key == k;
      RowVersions(n, i)
    else []
  }

  lemma SortedUnique(rows: seq<Entry>, i: nat, j: nat)
    requires Sorted(rows) && i < |rows| && j < |rows| && rows[i].key == rows[j].key
    ensures i == j
  {
    LessIrreflexive(rows[i].key);
  }

  lemma NodeVersionsAt(n: Node, i: nat)
    requires ValidNode(n) && i < |n.rows|
    ensures NodeVersions(n, n.rows[i].key) == RowVersions(n, i)
  {
    var k := n.rows[i].key;
    assert HasKey(n, k);
    forall j | 0 <= j < |n.rows| && n.rows[j].key == k ensures j == i {
      SortedUnique(n.rows, i, j);
    }
  }

  /** The outcome of a point read in one node. */
  datatype NodeStatus = Ok(version: Version) | Deleted | RowLocked | Missing

  /** The reference for a node read, on the node's versions of the key. */
  function NodeRead(vs: seq<Version>, readTs: nat, ignoreLock: bool, owner: Option<nat>): NodeStatus {
    if Blocked(vs, ignoreLock, owner) then RowLocked
    else
      var v := VisibleAt(vs, readTs);
      if v.None? then Missing else if v.value.value.None? then Deleted else Ok(v.value)
  }

  /** std::lower_bound over the rows. */
  method LowerBound(rows: seq<Entry>, key: Bytes) returns (lo: nat)
    requires Sorted(rows)
    ensures lo <= |rows|
    ensures forall j :: 0 <= j < lo ==> Less(rows[j].key, key)
    ensures forall j :: lo <= j < |rows| ==> !Less(rows[j].key, key)
  {
    lo := 0;
    var hi := |rows|;
    while lo < hi
      invariant lo <= hi <= |rows|
      invariant forall j :: 0 <= j < lo ==> Less(rows[j].key, key)
      invariant forall j :: hi <= j < |rows| ==> !Less(rows[j].key, key)
    {
      var mid := (lo + hi) / 2;
      if Less(rows[mid].key, key) {
        forall j | 0 <= j < mid ensures Less(rows[j].key, key) {
          LessTransitive(rows[j].key, rows[mid].key, key);
        }
        lo := mid + 1;
      } else {
        forall j | mid < j < |rows| ensures !Less(rows[j].key, key) {
          if Less(rows[j].key, key) {
            LessTransitive(rows[mid].key, rows[j].key, key);
          }
        }
        hi := mid;
      }
    }
  }

  /** Where the row of `key` is, or the number of rows. */
  method Find(n: Node, key: Bytes) returns (i: nat)
    requires ValidNode(n)
    ensures i <= |n.rows|
    ensures i < |n.rows| ==> n.rows[i].key == key && NodeVersions(n, key) == RowVersions(n, i)
    ensures i == |n.rows| ==> !HasKey(n, key) && NodeVersions(n, key) == []
  {
    i := LowerBound(n.rows, key);
    if i < |n.rows| && n.rows[i].key == key {
      NodeVersionsAt(n, i);
    } else {
      LessIrreflexive(key);
      i := |n.rows|;
    }
  }

  /** VersionedDeltaNode::GetRow: the newest version first, then the older ones. */
  method GetRow(n: Node, key: Bytes, readTs: nat, ignoreLock: bool, owner: Option<nat>) returns (s: NodeStatus)
    requires ValidNode(n)
    ensures s == NodeRead(NodeVersions(n, key), readTs, ignoreLock, owner)
  {
    var i := Find(n, key);
    if i == |n.rows| {
      return Missing;
    }
    var entry := n.rows[i].version;
    if IsLocked(entry.ts) {
      if ignoreLock {
      } else if owner.Some? && owner.value == GetTs(entry.ts) {
      } else {
        return RowLocked;
      }
    }
    if IsVisible(readTs, entry.ts) {
      return if entry.value.None? then Deleted else Ok(entry);
    }
    if n.versions == [] {
      assert RowVersions(n, i)[1..] == [] && VisibleAt(RowVersions(n, i)[1..], readTs) == None;
      return Missing;
    }
    var older := n.versions[i];
    assert RowVersions(n, i)[1..] == older;
    for j := 0 to |older|
      invariant VisibleAt(older[j..], readTs) == VisibleAt(older, readTs)
    {
      assert older[j..][1..] == older[j + 1..];
      if IsVisible(readTs, older[j].ts) {
        return if older[j].value.None? then Deleted else Ok(older[j]);
      }
    }
    return Missing;
  }

  /** The outcome of SetTs in one node; `Unreachable` is the branch the source marks so. */
  datatype SetTsStatus = Set | NotHere | Unreachable

  /** VersionedDeltaNode::SetTs: the newest version of the key gets the timestamp, if it is here and locked. */
  method SetTs(n: Node, key: Bytes, ts: nat) returns (n': Node, status: SetTsStatus)
    requires ValidNode(n)
    ensures status == if !HasKey(n, key) then NotHere else if HeadLocked(NodeVersions(n, key)) then Set else Unreachable
    ensures ValidNode(n') && |n'.rows| == |n.rows| && n'.totalLength == n.totalLength
    ensures status != Set ==> n' == n
    ensures status == Set ==> NodeVersions(n', key) == Restamped(NodeVersions(n, key), ts)
    ensures forall k :: k != key ==> NodeVersions(n', k) == NodeVersions(n, k)
  {
    var i := Find(n, key);
    if i == |n.rows| {
      return n, NotHere;
    }
    if !IsLocked(n.rows[i].version.ts) {
      return n, Unreachable;
    }
    n' := n.(rows := n.rows[i := Entry(key, n.rows[i].version.(ts := ts))]);
    status := Set;
    SetTsEffect(n, n', i, ts);
  }

  lemma SetTsEffect(n: Node, n': Node, i: nat, ts: nat)
    requires ValidNode(n) && i < |n.rows|
    requires n' == n.(rows := n.rows[i := Entry(n.rows[i].key, n.rows[i].version.(ts := ts))])
    ensures ValidNode(n')
    ensures forall k :: HasKey(n', k) <==> HasKey(n, k)
    ensures NodeVersions(n', n.rows[i].key) == Restamped(NodeVersions(n, n.rows[i].key), ts)
    ensures forall k :: k != n.rows[i].key ==> NodeVersions(n', k) == NodeVersions(n, k)
  {
    forall k
      ensures HasKey(n', k) <==> HasKey(n, k)
      ensures NodeVersions(n', k) ==
                if k == n.rows[i].key then Restamped(NodeVersions(n, k), ts) else NodeVersions(n, k)
    {
      if HasKey(n, k) {
        var j :| 0 <= j < |n.rows| && n.rows[j].key == k;
        assert n'.rows[j].key == k;
        NodeVersionsAt(n, j);
        NodeVersionsAt(n', j);
        if k == n.rows[i].key {
          SortedUnique(n.rows, i, j);
        }
      }
    }
  }
}
