/**
 Redo recovery: the log of any run, cut anywhere, rebuilds the version lists of the
 live pages and knows exactly which intents were still open.
*/
module Recovery {
  import opened Common
  import opened Versions
  import opened Occ

  /** The recovering pages and txn_map_. */
  datatype Recovered = Recovered(pages: map<Key, seq<Version>>, open: map<nat, nat>)

  function Empty(): Recovered {
    Recovered(map[], map[])
  }

  /**
   What each kind of record does; `None` where a CHECK would fail, a counter fall below zero, or
   a timestamp be set on a key without an intent.
  */
  function Redo(d: Recovered, record: Record): Option<Recovered> {
    match record
    case LogBegin(r) => if r in d.open then None else Some(d.(open := d.open[r := 0]))
    case LogCommit(r, _) => if r in d.open then Some(d) else None
    case LogAbort(r) => if r in d.open then Some(d) else None
    case LogWrite(r, k, v) =>
      if r !in d.open then None
      else Some(Recovered(d.pages[k := [v] + InPages(d.pages, k)], d.open[r := d.open[r] + 1]))
    case LogSetTs(r, k, ts) =>
      if !HeadLocked(InPages(d.pages, k)) || r !in d.open || d.open[r] == 0 then None
      else Some(Recovered(d.pages[k := Stamped(InPages(d.pages, k), ts)],
                          if d.open[r] == 1 then d.open - {r} else d.open[r := d.open[r] - 1]))
  }

  function Replay(log: seq<Record>): Option<Recovered> {
    if log == [] then Some(Empty())
    else
      var before := Replay(log[..|log| - 1]);
      if before.None? then None else Redo(before.value, log[|log| - 1])
  }

  /** OccRecovery: the fields and the loop over the log. */
  class OccRecovery {
    var pages: map<Key, seq<Version>>
    var txnMap: map<nat, nat>

    constructor ()
      ensures pages == map[] && txnMap == map[]
    {
      pages, txnMap := map[], map[];
    }

    method SetRow(r: nat, k: Key, v: Version) returns (ok: bool)
      modifies this
      ensures ok == (r in old(txnMap))
      ensures ok ==> Redo(old(Recovered(pages, txnMap)), LogWrite(r, k, v)) == Some(Recovered(pages, txnMap))
    {
      pages := pages[k := [v] + InPages(pages, k)];
      ok := AddPrepare(r);
    }

    method AddPrepare(r: nat) returns (ok: bool)
      modifies this`txnMap
      ensures ok == (r in old(txnMap))
      ensures txnMap == if ok then old(txnMap)[r := old(txnMap)[r] + 1] else old(txnMap)
    {
      if r !in txnMap { return false; }
      txnMap := txnMap[r := txnMap[r] + 1];
      ok := true;
    }

    method AddCommit(r: nat) returns (ok: bool)
      modifies this`txnMap
      ensures ok == (r in old(txnMap) && old(txnMap)[r] > 0)
      ensures txnMap == if !ok then old(txnMap)
                        else if old(txnMap)[r] == 1 then old(txnMap) - {r} else old(txnMap)[r := old(txnMap)[r] - 1]
    {
      if r !in txnMap || txnMap[r] == 0 { return false; }
      txnMap := txnMap[r := txnMap[r] - 1];
      if txnMap[r] == 0 {
        txnMap := txnMap - {r};
      }
      ok := true;
    }

    method SetTs(r: nat, k: Key, ts: nat) returns (ok: bool)
      modifies this
      ensures ok == Redo(old(Recovered(pages, txnMap)), LogSetTs(r, k, ts)).Some?
      ensures ok ==> Redo(old(Recovered(pages, txnMap)), LogSetTs(r, k, ts)) == Some(Recovered(pages, txnMap))
    {
      if !HeadLocked(InPages(pages, k)) { return false; }
      pages := pages[k := Stamped(InPages(pages, k), ts)];
      ok := AddCommit(r);
    }

    /** Recover the log into empty pages; `ok` says that no CHECK failed. */
    method Recover(log: seq<Record>) returns (ok: bool)
      requires pages == map[] && txnMap == map[]
      modifies this
      ensures ok == Replay(log).Some?
      ensures ok ==> Replay(log) == Some(Recovered(pages, txnMap))
    {
      var i := 0;
      while i < |log|
        invariant 0 <= i <= |log|
        invariant Replay(log[..i]) == Some(Recovered(pages, txnMap))
      {
        assert log[..i + 1][..i] == log[..i];
        match log[i] {
          case LogBegin(r) =>
            ok := r !in txnMap;
            if ok { txnMap := txnMap[r := 0]; }
          case LogCommit(r, _) => ok := r in txnMap;
          case LogAbort(r) => ok := r in txnMap;
          case LogWrite(r, k, v) => ok := SetRow(r, k, v);
          case LogSetTs(r, k, ts) => ok := SetTs(r, k, ts);
        }
        i := i + 1;
        if !ok {
          ReplayStops(log, i);
          return false;
        }
      }
      assert log[..|log|] == log;
      ok := true;
    }
  }

  /** Once a CHECK has failed, no longer log recovers. */
  lemma {:induction false} ReplayStops(log: seq<Record>, i: nat)
    requires i <= |log| && Replay(log[..i]).None?
    ensures Replay(log).None?
    decreases |log|
  {
    if i < |log| {
      assert log[..|log| - 1][..i] == log[..i];
      ReplayStops(log[..|log| - 1], i);
    } else {
      assert log[..i] == log;
    }
  }
}
