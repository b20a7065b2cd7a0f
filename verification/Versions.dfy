/**
 The meaning of a versioned page at one key: a newest-first list of versions.

 A version's raw timestamp is a commit timestamp, the aborted mark 0, or a
 locked word carrying the read timestamp of the transaction whose intent it is.
*/
module Versions {
  import opened Common
  import opened TxnTs

  type Row = Bytes

  /** `value.None?` is a deletion marker. */
  datatype Version = Version(ts: nat, value: Option<Row>)

  /** VersionedDeltaNode::IsVisible_ */
  predicate IsVisible(readTs: nat, writeTs: nat) {
    writeTs != ABORTED_TXN_TS && readTs >= writeTs
  }

  /** The newest version visible at `t`. */
  function VisibleAt(vs: seq<Version>, t: nat): Option<Version> {
    if vs == [] then None
    else if IsVisible(t, vs[0].ts) then Some(vs[0])
    else VisibleAt(vs[1..], t)
  }

  function ValueOf(v: Option<Version>): Option<Row> {
    if v.None? then None else v.value.value
  }

  /** What a read set remembers of a read: the timestamp of a live row, nothing for an absent one. */
  function StampOf(v: Option<Version>): Option<nat> {
    if v.None? || v.value.value.None? then None else Some(v.value.ts)
  }

  datatype ReadStatus = Found(version: Version) | NotFound | Retry

  predicate HeadLocked(vs: seq<Version>) {
    vs != [] && IsLocked(vs[0].ts)
  }

  /** An intent of somebody else at the head makes a locking reader wait. */
  predicate Blocked(vs: seq<Version>, ignoreLock: bool, owner: Option<nat>) {
    HeadLocked(vs) && !ignoreLock && owner != Some(GetTs(vs[0].ts))
  }

  /** One attempt of a page read, on the version list of its key. */
  function ReadOnce(vs: seq<Version>, readTs: nat, ignoreLock: bool, owner: Option<nat>): ReadStatus {
    if Blocked(vs, ignoreLock, owner) then Retry
    else
      var v := VisibleAt(vs, readTs);
      if v.None? || v.value.value.None? then NotFound else Found(v.value)
  }

  /** Only the newest version may be locked. */
  ghost predicate LockedAtHead(vs: seq<Version>) {
    forall i :: 1 <= i < |vs| ==> !IsLocked(vs[i].ts)
  }

  /** Newest to oldest the timestamps fall, aborted versions aside, and only the newest may be locked. */
  ghost predicate Descending(vs: seq<Version>) {
    && LockedAtHead(vs)
    && (forall i, j :: 0 <= i < j < |vs| && vs[i].ts != ABORTED_TXN_TS && vs[j].ts != ABORTED_TXN_TS ==>
          vs[i].ts > vs[j].ts)
  }

  ghost predicate HasTs(vs: seq<Version>, c: nat) {
    exists i :: 0 <= i < |vs| && vs[i].ts == c
  }

  /** `pruned` is `vs` with some aborted versions removed. */
  ghost predicate Pruned(vs: seq<Version>, pruned: seq<Version>) {
    if vs == [] then pruned == []
    else
      || (pruned != [] && pruned[0] == vs[0] && Pruned(vs[1..], pruned[1..]))
      || (vs[0].ts == ABORTED_TXN_TS && Pruned(vs[1..], pruned))
  }

  function DropAborted(vs: seq<Version>): seq<Version> {
    if vs == [] then []
    else if vs[0].ts == ABORTED_TXN_TS then DropAborted(vs[1..])
    else [vs[0]] + DropAborted(vs[1..])
  }

  /** The newest version gets a new timestamp. */
  function Restamped(vs: seq<Version>, ts: nat): seq<Version> {
    if vs == [] then [] else [vs[0].(ts := ts)] + vs[1..]
  }

  // ----- What the three page writes do to visibility -----

  /** An intent on top is invisible at every timestamp. */
  lemma VisiblePastIntent(v: Version, vs: seq<Version>, t: nat)
    requires IsLocked(v.ts) && t <= MAX_TXN_TS
    ensures VisibleAt([v] + vs, t) == VisibleAt(vs, t)
  {
    assert ([v] + vs)[1..] == vs;
  }

  /** Replacing a locked head by a commit timestamp or the aborted mark changes nothing below that timestamp. */
  lemma VisibleBelowStamp(vs: seq<Version>, ts: nat, t: nat)
    requires HeadLocked(vs) && t <= MAX_TXN_TS
    requires ts == ABORTED_TXN_TS || t < ts
    ensures VisibleAt(Restamped(vs, ts), t) == VisibleAt(vs, t)
  {
    assert Restamped(vs, ts)[1..] == vs[1..];
  }

  lemma {:induction false} PrunedVisible(vs: seq<Version>, pruned: seq<Version>, t: nat)
    requires Pruned(vs, pruned)
    ensures VisibleAt(pruned, t) == VisibleAt(vs, t)
    decreases |vs|
  {
    if vs != [] {
      if pruned != [] && pruned[0] == vs[0] && Pruned(vs[1..], pruned[1..]) {
        PrunedVisible(vs[1..], pruned[1..], t);
      } else {
        PrunedVisible(vs[1..], pruned, t);
      }
    }
  }

  // ----- Pruning keeps everything but aborted versions -----

  lemma {:induction false} PrunedRefl(vs: seq<Version>)
    ensures Pruned(vs, vs)
    decreases |vs|
  {
    if vs != [] {
      PrunedRefl(vs[1..]);
    }
  }

  lemma {:induction false} PrunedSameLive(vs: seq<Version>, pruned: seq<Version>)
    requires Pruned(vs, pruned)
    ensures DropAborted(pruned) == DropAborted(vs)
    ensures forall v :: v in pruned ==> v in vs
    ensures forall v :: v in vs && v.ts != ABORTED_TXN_TS ==> v in pruned
    decreases |vs|
  {
    if vs != [] {
      assert vs == [vs[0]] + vs[1..];
      if pruned != [] && pruned[0] == vs[0] && Pruned(vs[1..], pruned[1..]) {
        PrunedSameLive(vs[1..], pruned[1..]);
        assert pruned == [pruned[0]] + pruned[1..];
      } else {
        PrunedSameLive(vs[1..], pruned);
      }
    }
  }

  lemma {:induction false} PrunedHead(vs: seq<Version>, pruned: seq<Version>)
    requires Pruned(vs, pruned) && LockedAtHead(vs)
    ensures HeadLocked(vs) <==> HeadLocked(pruned)
    ensures HeadLocked(vs) ==> pruned[0] == vs[0] && Pruned(vs[1..], pruned[1..])
  {
    if vs != [] {
      assert vs[0].ts != ABORTED_TXN_TS ==> pruned != [] && pruned[0] == vs[0] && Pruned(vs[1..], pruned[1..]);
      if !HeadLocked(vs) && pruned != [] {
        PrunedSameLive(vs, pruned);
        var v := pruned[0];
        assert v in vs;
      }
    }
  }

  /** What a version must satisfy to stand above a descending list. */
  ghost predicate Tops(v: Version, rest: seq<Version>) {
    && !HeadLocked(rest)
    && forall w :: w in rest && v.ts != ABORTED_TXN_TS && w.ts != ABORTED_TXN_TS ==> v.ts > w.ts
  }

  lemma ConsDescending(v: Version, rest: seq<Version>)
    requires Descending(rest) && Tops(v, rest)
    ensures Descending([v] + rest)
  {
    var vs := [v] + rest;
    forall i, j | 0 <= i < j < |vs| && vs[i].ts != ABORTED_TXN_TS && vs[j].ts != ABORTED_TXN_TS
      ensures vs[i].ts > vs[j].ts
    {
      assert vs[j] == rest[j - 1];
    }
  }

  lemma UnconsDescending(vs: seq<Version>)
    requires Descending(vs) && vs != []
    ensures Descending(vs[1..]) && Tops(vs[0], vs[1..])
  {
    forall w | w in vs[1..] && vs[0].ts != ABORTED_TXN_TS && w.ts != ABORTED_TXN_TS
      ensures vs[0].ts > w.ts
    {
      var i :| 0 <= i < |vs[1..]| && vs[1..][i] == w;
      assert vs[i + 1] == w;
    }
  }

  lemma {:induction false} PrunedDescending(vs: seq<Version>, pruned: seq<Version>)
    requires Pruned(vs, pruned) && Descending(vs)
    ensures Descending(pruned)
    decreases |vs|
  {
    if vs != [] {
      UnconsDescending(vs);
      if pruned != [] && pruned[0] == vs[0] && Pruned(vs[1..], pruned[1..]) {
        PrunedDescending(vs[1..], pruned[1..]);
        PrunedSameLive(vs[1..], pruned[1..]);
        PrunedHead(vs[1..], pruned[1..]);
        ConsDescending(pruned[0], pruned[1..]);
        assert pruned == [pruned[0]] + pruned[1..];
      } else {
        PrunedDescending(vs[1..], pruned);
      }
    }
  }

  lemma HasTsCons(vs: seq<Version>, c: nat)
    requires vs != []
    ensures HasTs(vs, c) <==> vs[0].ts == c || HasTs(vs[1..], c)
  {
    assert vs == [vs[0]] + vs[1..];
    if HasTs(vs[1..], c) {
      var i :| 0 <= i < |vs[1..]| && vs[1..][i].ts == c;
      assert vs[i + 1].ts == c;
    }
    if HasTs(vs, c) && vs[0].ts != c {
      var i :| 0 <= i < |vs| && vs[i].ts == c;
      assert vs[1..][i - 1].ts == c;
    }
  }

  /** In a descending list, the version visible at `t` is the one stamped `t` or the one visible just below. */
  lemma {:induction false} VisibleStep(vs: seq<Version>, t: nat)
    requires Descending(vs) && 0 < t
    ensures HasTs(vs, t) ==>
              VisibleAt(vs, t).Some? && VisibleAt(vs, t).value.ts == t && VisibleAt(vs, t).value in vs
    ensures !HasTs(vs, t) ==> VisibleAt(vs, t) == VisibleAt(vs, t - 1)
    decreases |vs|
  {
    if vs != [] {
      UnconsDescending(vs);
      VisibleStep(vs[1..], t);
      HasTsCons(vs, t);
    }
  }

  /** The visible version, if any, is a version of the list whose timestamp is live and at most `t`. */
  lemma {:induction false} VisibleIsMember(vs: seq<Version>, t: nat)
    ensures VisibleAt(vs, t).Some? ==>
              VisibleAt(vs, t).value in vs && IsVisible(t, VisibleAt(vs, t).value.ts)
    decreases |vs|
  {
    if vs != [] {
      VisibleIsMember(vs[1..], t);
    }
  }

  /** A live timestamp names one version of a descending list. */
  lemma StampNamesVersion(vs: seq<Version>, v: Version, w: Version)
    requires Descending(vs) && v in vs && w in vs
    requires v.ts == w.ts != ABORTED_TXN_TS
    ensures v == w
  {
    var i :| 0 <= i < |vs| && vs[i] == v;
    var j :| 0 <= j < |vs| && vs[j] == w;
  }
}
