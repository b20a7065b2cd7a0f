/** The delta-chain page implements the pages of the commit protocol. */
module PageRefinement {
  import opened Common
  import opened TxnTs
  import opened Versions
  import opened DeltaNode
  import opened DeltaPage
  import opened Occ
  import opened OccInv
  import opened OccPages

  /** The chain holds, key by key, what the protocol state has for the table. */
  ghost predicate Shows(s: State, table: string, chain: seq<Node>) {
    ValidNodes(chain) && forall sk :: Flatten(chain, sk) == Occ.At(s, Key(table, sk))
  }

  /** The options CommitOrAbort passes down: check for foreign intents only if locks are inlined. */
  function CommitOptions(mode: LockManager, r: nat, disable: bool, force: bool): Options {
    Options(false, Some(r), mode == Inlined, disable, force)
  }

  /** The protocol's pages with those of `table` read off a chain. */
  ghost function WithChain(s: State, table: string, chain: seq<Node>): map<Key, seq<Version>>
    requires ValidNodes(chain)
  {
    map k | k in s.pages :: if k.table == table then Flatten(chain, k.sortKey) else s.pages[k]
  }

  lemma PrunedChainCompacts(s: State, table: string, chain: seq<Node>)
    requires ValidNodes(chain)
    requires forall sk :: Pruned(Occ.At(s, Key(table, sk)), Flatten(chain, sk))
    ensures CanCompact(s, WithChain(s, table, chain))
    ensures Shows(DoCompact(s, WithChain(s, table, chain)), table, chain)
  {
    var pages := WithChain(s, table, chain);
    forall k: Key ensures Pruned(Occ.At(s, k), InPages(pages, k)) {
      if k.table == table {
        assert k == Key(table, k.sortKey);
      } else {
        PrunedRefl(Occ.At(s, k));
      }
    }
    forall sk ensures Flatten(chain, sk) == Occ.At(DoCompact(s, pages), Key(table, sk)) {
      assert Pruned(Occ.At(s, Key(table, sk)), Flatten(chain, sk));
    }
  }

  /** Two steps of the protocol in a row. */
  ghost predicate InstalledThenCompacted(s: State, r: nat, k: Key, s': State) {
    && CanInstall(s, r, k)
    && CanCompact(DoInstall(s, r, k), s'.pages)
    && s' == DoCompact(DoInstall(s, r, k), s'.pages)
  }

  /**
   Writing an intent through the page, as WriteIntents_ does, is the protocol's install
   step followed by a compaction step; the page refuses exactly when the protocol turns back.
  */
  method WriteIntent(page: Page, ghost s: State, r: nat, k: Key, v: Option<Row>, opts: Options)
    returns (ok: bool, ghost s': State)
    requires page.Valid() && Inv(s) && CanInstall(s, r, k) && s.txns[r].writes[k] == v
    requires Shows(s, k.table, page.chain)
    requires opts == CommitOptions(s.mode, r, opts.disableCompaction, opts.forceCompaction)
    modifies page
    ensures page.Valid() && Shows(s', k.table, page.chain)
    ensures ok == !Conflicts(s, r, k)
    ensures if ok then InstalledThenCompacted(s, r, k, s') else s' == DoInstall(s, r, k)
  {
    hide Clock, Txns, Intents, Owners, Locks, Ledger, Contents, Reads, Validated, Snapshots;
    ghost var vs := Occ.At(s, k);
    assert k == Key(k.table, k.sortKey);
    assert Flatten(page.chain, k.sortKey) == vs;
    assert KeyShape(s, k);
    if v.Some? {
      ok := page.SetRow(k.sortKey, v.value, MarkLocked(r), opts);
    } else {
      ok := page.DeleteRow(k.sortKey, MarkLocked(r), opts);
    }
    ghost var s1 := DoInstall(s, r, k);
    if ok {
      InstallShows(s, r, k);
      forall sk ensures Pruned(Occ.At(s1, Key(k.table, sk)), Flatten(page.chain, sk)) {
        assert Flatten(old(page.chain), sk) == Occ.At(s, Key(k.table, sk));
        assert sk != k.sortKey ==> [] + Flatten(old(page.chain), sk) == Flatten(old(page.chain), sk);
      }
      PrunedChainCompacts(s1, k.table, page.chain);
      s' := DoCompact(s1, WithChain(s1, k.table, page.chain));
    } else {
      s' := s1;
    }
  }

  lemma InstallShows(s: State, r: nat, k: Key)
    requires CanInstall(s, r, k) && !Conflicts(s, r, k)
    ensures Occ.At(DoInstall(s, r, k), k) == [Intent(r, s.txns[r].writes[k])] + Occ.At(s, k)
    ensures forall j: Key :: j != k ==> Occ.At(DoInstall(s, r, k), j) == Occ.At(s, j)
  {
  }

  /** Stamping through the page, as CommitIntents_ does, is the protocol's stamp step. */
  method StampIntent(page: Page, ghost s: State, r: nat, k: Key, commitTs: nat)
    returns (ok: bool, ghost s': State)
    requires page.Valid() && Inv(s) && CanStamp(s, r, k) && s.txns[r].commitTs == Some(commitTs)
    requires Shows(s, k.table, page.chain)
    modifies page
    ensures ok && page.Valid() && s' == DoStamp(s, r, k) && Shows(s', k.table, page.chain)
  {
    HolderAlone(s, r, k);
    hide Inv, Flatten, ValidNodes;
    assert Flatten(page.chain, k.sortKey) == Occ.At(s, Key(k.table, k.sortKey));
    ok := page.SetTs(k.sortKey, commitTs);
    s' := DoStamp(s, r, k);
    StampedShows(s, s', k, commitTs, old(page.chain), page.chain);
  }

  /** Aborting an intent through the page, as AbortIntents_ and UndoWriteIntents_ do, is the protocol's abort step. */
  method AbortIntent(page: Page, ghost s: State, r: nat, k: Key) returns (ok: bool, ghost s': State)
    requires page.Valid() && Inv(s) && CanAbort(s, r, k)
    requires Shows(s, k.table, page.chain)
    modifies page
    ensures ok && page.Valid() && s' == DoAbort(s, r, k) && Shows(s', k.table, page.chain)
  {
    HolderAlone(s, r, k);
    hide Inv, Flatten, ValidNodes;
    assert Flatten(page.chain, k.sortKey) == Occ.At(s, Key(k.table, k.sortKey));
    ok := page.SetTs(k.sortKey, ABORTED_TXN_TS);
    s' := DoAbort(s, r, k);
    StampedShows(s, s', k, ABORTED_TXN_TS, old(page.chain), page.chain);
  }

  lemma StampedShows(s: State, s': State, k: Key, ts: nat, before: seq<Node>, after: seq<Node>)
    requires Shows(s, k.table, before) && ValidNodes(after) && HeadLocked(Occ.At(s, k))
    requires s'.pages == s.pages[k := Stamped(Occ.At(s, k), ts)]
    requires Flatten(after, k.sortKey) == Restamped(Flatten(before, k.sortKey), ts)
    requires forall sk :: sk != k.sortKey ==> Flatten(after, sk) == Flatten(before, sk)
    ensures Shows(s', k.table, after)
  {
    assert k == Key(k.table, k.sortKey);
    forall sk ensures Flatten(after, sk) == Occ.At(s', Key(k.table, sk)) {
      assert Flatten(before, sk) == Occ.At(s, Key(k.table, sk));
    }
  }

  /** A page read is the protocol's read of the key. */
  method ReadThroughPage(page: Page, ghost s: State, k: Key, readTs: nat, opts: Options) returns (status: ReadStatus)
    requires page.Valid() && Inv(s) && Shows(s, k.table, page.chain)
    ensures status == ReadOnce(Occ.At(s, k), readTs, opts.ignoreLock, opts.owner)
  {
    hide Clock, Txns, Intents, Owners, Locks, Ledger, Contents, Reads, Validated, Snapshots;
    assert k == Key(k.table, k.sortKey);
    assert KeyShape(s, k);
    assert Flatten(page.chain, k.sortKey) == Occ.At(s, Key(k.table, k.sortKey));
    status := page.GetRowOnce(k.sortKey, readTs, opts);
  }
}
