/** Routing of sort keys to pages in an internal page, and how a split changes it. */
module InternalPage {
  import opened Common
  import opened Lex

  datatype InternalRow = InternalRow(sortKey: Bytes, pageId: Bytes)

  ghost predicate Ascending(rows: seq<InternalRow>) {
    forall i, j :: 0 <= i < j < |rows| ==> Less(rows[i].sortKey, rows[j].sortKey)
  }

  /** `key` falls to row `i`: at or after its sort key, and before the next row's. */
  ghost predicate RoutesTo(rows: seq<InternalRow>, key: Bytes, i: nat) {
    && i < |rows| && !Less(key, rows[i].sortKey)
    && (i + 1 < |rows| ==> Less(key, rows[i + 1].sortKey))
  }

  /** In an ascending page a key routes to at most one row. */
  lemma RouteUnique(rows: seq<InternalRow>, key: Bytes, i: nat, j: nat)
    requires Ascending(rows) && RoutesTo(rows, key, i) && RoutesTo(rows, key, j)
    ensures i == j
  {
    if i < j {
      LessBefore(rows, key, i + 1, j);
    } else if j < i {
      LessBefore(rows, key, j + 1, i);
    }
  }

  /** Every key from the first row's on routes somewhere, and no other. */
  lemma {:induction false} RouteExists(rows: seq<InternalRow>, key: Bytes)
    requires Ascending(rows)
    ensures (exists i: nat :: RoutesTo(rows, key, i)) <==> rows != [] && !Less(key, rows[0].sortKey)
    decreases |rows|
  {
    hide Less;
    if i: nat :| RoutesTo(rows, key, i) {
      if Less(key, rows[0].sortKey) { LessBefore(rows, key, 0, i); }
    } else if rows != [] {
      var n := |rows| - 1;
      if Less(key, rows[n].sortKey) && n > 0 {
        RouteExists(rows[..n], key);
        if i: nat :| RoutesTo(rows[..n], key, i) { assert RoutesTo(rows, key, i); }
      } else if !Less(key, rows[n].sortKey) {
        assert RoutesTo(rows, key, n);
      }
    }
  }

  lemma LessBefore(rows: seq<InternalRow>, key: Bytes, i: nat, j: nat)
    requires Ascending(rows) && i <= j < |rows| && Less(key, rows[i].sortKey)
    ensures Less(key, rows[j].sortKey)
  {
    if i < j { LessTransitive(key, rows[i].sortKey, rows[j].sortKey); }
  }

  /** upper_bound: the number of rows at or before `key`. */
  method UpperBound(rows: seq<InternalRow>, key: Bytes) returns (n: nat)
    requires Ascending(rows)
    ensures n <= |rows|
    ensures forall i :: 0 <= i < n ==> !Less(key, rows[i].sortKey)
    ensures forall i :: n <= i < |rows| ==> Less(key, rows[i].sortKey)
  {
    hide Less;
    var lo, hi: nat := 0, |rows|;
    while lo < hi
      invariant 0 <= lo <= hi <= |rows|
      invariant forall i :: 0 <= i < lo ==> !Less(key, rows[i].sortKey)
      invariant forall i :: hi <= i < |rows| ==> Less(key, rows[i].sortKey)
    {
      var mid := (lo + hi) / 2;
      if Less(key, rows[mid].sortKey) {
        forall i | mid <= i < |rows| ensures Less(key, rows[i].sortKey) { LessBefore(rows, key, mid, i); }
        hi := mid;
      } else {
        forall i | 0 <= i <= mid ensures !Less(key, rows[i].sortKey) {
          if Less(key, rows[i].sortKey) { LessBefore(rows, key, i, mid); }
        }
        lo := mid + 1;
      }
    }
    n := lo;
  }

  /** lower_bound: the number of rows before `key`. */
  method LowerBound(rows: seq<InternalRow>, key: Bytes) returns (n: nat)
    requires Ascending(rows)
    ensures n <= |rows|
    ensures forall i :: 0 <= i < n ==> Less(rows[i].sortKey, key)
    ensures forall i :: n <= i < |rows| ==> !Less(rows[i].sortKey, key)
  {
    hide Less;
    var lo, hi: nat := 0, |rows|;
    while lo < hi
      invariant 0 <= lo <= hi <= |rows|
      invariant forall i :: 0 <= i < lo ==> Less(rows[i].sortKey, key)
      invariant forall i :: hi <= i < |rows| ==> !Less(rows[i].sortKey, key)
    {
      var mid := (lo + hi) / 2;
      if Less(rows[mid].sortKey, key) {
        forall i | 0 <= i <= mid ensures Less(rows[i].sortKey, key) {
          if i < mid { LessTransitive(rows[i].sortKey, rows[mid].sortKey, key); }
        }
        lo := mid + 1;
      } else {
        forall i | mid <= i < |rows| ensures !Less(rows[i].sortKey, key) {
          if i > mid && Less(rows[i].sortKey, key) {
            LessTransitive(rows[mid].sortKey, rows[i].sortKey, key);
          }
        }
        hi := mid;
      }
    }
    n := lo;
  }

  // ----- Splits -----

  /** The new rows, the first keeping the old lower bound. */
  function Renamed(rows: seq<InternalRow>, i: nat, added: seq<InternalRow>): seq<InternalRow>
    requires i < |rows| && added != []
  {
    [added[0].(sortKey := rows[i].sortKey)] + added[1..]
  }

  function AfterSplit(rows: seq<InternalRow>, i: nat, added: seq<InternalRow>): seq<InternalRow>
    requires i < |rows| && added != []
  {
    rows[..i] + Renamed(rows, i, added) + rows[i + 1..]
  }

  /** New separators ascend inside the interval of the row that is split. */
  ghost predicate ProperSplit(rows: seq<InternalRow>, i: nat, added: seq<InternalRow>)
    requires i < |rows| && added != []
  {
    && Ascending(Renamed(rows, i, added))
    && (i + 1 < |rows| ==> Less(Renamed(rows, i, added)[|added| - 1].sortKey, rows[i + 1].sortKey))
  }

  /**
   `after` is the page `before` with the rows `added` in place of row `i`: the new rows bring their
   page ids and their sort keys, except that the first keeps the sort key of the row it replaces.
  */
  ghost predicate Replaced(before: seq<InternalRow>, i: nat, added: seq<InternalRow>, after: seq<InternalRow>) {
    && i < |before| && added != [] && |after| == |before| + |added| - 1
    && (forall j :: 0 <= j < i ==> after[j] == before[j])
    && (forall m :: 0 <= m < |added| ==> after[i + m].pageId == added[m].pageId)
    && after[i].sortKey == before[i].sortKey
    && (forall m :: 0 < m < |added| ==> after[i + m].sortKey == added[m].sortKey)
    && (forall j :: i < j < |before| ==> after[j + |added| - 1] == before[j])
  }

  lemma SplitReplaces(rows: seq<InternalRow>, i: nat, added: seq<InternalRow>)
    requires i < |rows| && added != []
    ensures Replaced(rows, i, added, AfterSplit(rows, i, added))
  {
    var after := AfterSplit(rows, i, added);
    forall m | 0 <= m < |added|
      ensures after[i + m].pageId == added[m].pageId && (m > 0 ==> after[i + m].sortKey == added[m].sortKey)
    {
      assert after[i + m] == Renamed(rows, i, added)[m];
    }
  }

  /** Row `j` of the split page, in terms of the old page and the new rows. */
  lemma SplitRow(rows: seq<InternalRow>, i: nat, added: seq<InternalRow>, j: nat)
    requires i < |rows| && added != [] && j < |AfterSplit(rows, i, added)|
    ensures |AfterSplit(rows, i, added)| == |rows| + |added| - 1
    ensures AfterSplit(rows, i, added)[j]
            == if j < i then rows[j] else if j < i + |added| then Renamed(rows, i, added)[j - i]
               else rows[j - |added| + 1]
  {
  }

  /** The page stays ascending exactly if the split is proper. */
  lemma SplitAscending(rows: seq<InternalRow>, i: nat, added: seq<InternalRow>)
    requires Ascending(rows) && i < |rows| && added != []
    ensures Ascending(AfterSplit(rows, i, added)) <==> ProperSplit(rows, i, added)
  {
    hide Less;
    var after, mid := AfterSplit(rows, i, added), Renamed(rows, i, added);
    if ProperSplit(rows, i, added) {
      forall a, b | 0 <= a < b < |after| ensures Less(after[a].sortKey, after[b].sortKey) {
        SplitPair(rows, i, added, a, b);
      }
    }
    if Ascending(after) {
      forall a, b | 0 <= a < b < |mid| ensures Less(mid[a].sortKey, mid[b].sortKey) {
        assert after[i + a] == mid[a] && after[i + b] == mid[b];
      }
      if i + 1 < |rows| {
        assert after[i + |added| - 1] == mid[|added| - 1] && after[i + |added|] == rows[i + 1];
      }
    }
  }

  lemma SplitPair(rows: seq<InternalRow>, i: nat, added: seq<InternalRow>, a: nat, b: nat)
    requires Ascending(rows) && i < |rows| && added != [] && ProperSplit(rows, i, added)
    requires a < b < |AfterSplit(rows, i, added)|
    ensures Less(AfterSplit(rows, i, added)[a].sortKey, AfterSplit(rows, i, added)[b].sortKey)
  {
    hide Less;
    SplitRow(rows, i, added, a);
    SplitRow(rows, i, added, b);
    var mid, n := Renamed(rows, i, added), |added|;
    if a < i <= b < i + n && b > i {
      LessTransitive(rows[a].sortKey, mid[0].sortKey, mid[b - i].sortKey);
    } else if i <= a < i + n <= b {
      var last, next := mid[n - 1].sortKey, rows[i + 1].sortKey;
      if a < i + n - 1 { LessTransitive(mid[a - i].sortKey, last, next); }
      if b > i + n { LessTransitive(mid[a - i].sortKey, next, rows[b - n + 1].sortKey); }
    }
  }

  /** Among the new rows, `m` is the one for `key`: the last whose sort key is not above it, or else the first. */
  ghost predicate NewRowFor(added: seq<InternalRow>, key: Bytes, m: nat) {
    && m < |added| && (m > 0 ==> !Less(key, added[m].sortKey))
    && (m + 1 < |added| ==> Less(key, added[m + 1].sortKey))
  }

  /**
   A proper split of row `i` changes routing only inside the interval of that row, where the page
   of the new row for the key takes over.
  */
  lemma SplitRoutes(rows: seq<InternalRow>, i: nat, added: seq<InternalRow>, key: Bytes, j: nat)
    requires Ascending(rows) && i < |rows| && added != [] && ProperSplit(rows, i, added) && RoutesTo(rows, key, j)
    ensures var after := AfterSplit(rows, i, added);
            && (j < i ==> RoutesTo(after, key, j) && after[j] == rows[j])
            && (j > i ==> RoutesTo(after, key, j + |added| - 1) && after[j + |added| - 1] == rows[j])
            && (j == i ==> exists m: nat ::
                  NewRowFor(added, key, m) && RoutesTo(after, key, i + m) && after[i + m].pageId == added[m].pageId)
  {
    hide Less;
    var after, n := AfterSplit(rows, i, added), |added|;
    SplitReplaces(rows, i, added);
    if j < i {
      SplitRow(rows, i, added, j);
      SplitRow(rows, i, added, j + 1);
    } else if j > i {
      SplitRow(rows, i, added, j + n - 1);
      if j + 1 < |rows| { SplitRow(rows, i, added, j + n); }
    } else {
      RouteExists(Renamed(rows, i, added), key);
      var m: nat :| RoutesTo(Renamed(rows, i, added), key, m);
      SplitRow(rows, i, added, i + m);
      if i + m + 1 < |after| { SplitRow(rows, i, added, i + m + 1); }
      assert NewRowFor(added, key, m) && RoutesTo(after, key, i + m);
    }
  }

  datatype SplitStatus = Ok | NotFound | CheckFailed

  ghost predicate KeyAt(rows: seq<InternalRow>, key: Bytes, i: nat) {
    i < |rows| && rows[i].sortKey == key
  }

  /** What one call of Split does: the first rows of an empty page, or a split of the row at `oldKey`. */
  ghost predicate SplitTo(
    before: seq<InternalRow>, oldKey: Bytes, added: seq<InternalRow>, status: SplitStatus, after: seq<InternalRow>)
  {
    if oldKey == [] then
      if before == [] then status == Ok && after == added else status == CheckFailed && after == before
    else if |added| <= 1 then status == CheckFailed && after == before
    else if exists i: nat :: KeyAt(before, oldKey, i) then
      status == Ok && exists i: nat :: KeyAt(before, oldKey, i) && after == AfterSplit(before, i, added)
    else status == NotFound && after == before
  }

  /** The rows given to a call fit: they ascend, inside the interval of the row they replace. */
  ghost predicate ProperCall(before: seq<InternalRow>, oldKey: Bytes, added: seq<InternalRow>) {
    if oldKey == [] then before == [] ==> Ascending(added)
    else |added| > 1 ==> forall i: nat :: KeyAt(before, oldKey, i) ==> ProperSplit(before, i, added)
  }

  lemma KeyUnique(rows: seq<InternalRow>, key: Bytes, i: nat, j: nat)
    requires Ascending(rows) && KeyAt(rows, key, i) && KeyAt(rows, key, j)
    ensures i == j
  {
    LessIrreflexive(key);
  }

  /** A call leaves the page ascending exactly if the rows it was given fit, and keeps the first sort key. */
  lemma CallAscending(
    before: seq<InternalRow>, oldKey: Bytes, added: seq<InternalRow>, status: SplitStatus, after: seq<InternalRow>)
    requires Ascending(before) && SplitTo(before, oldKey, added, status, after)
    ensures Ascending(after) <==> ProperCall(before, oldKey, added)
    ensures before != [] ==> after != [] && after[0].sortKey == before[0].sortKey
  {
    hide Ascending, Less, ProperSplit;
    if oldKey != [] && |added| > 1 && exists i: nat :: KeyAt(before, oldKey, i) {
      var i: nat :| KeyAt(before, oldKey, i) && after == AfterSplit(before, i, added);
      SplitAscending(before, i, added);
      SplitRow(before, i, added, 0);
      forall j: nat | KeyAt(before, oldKey, j) ensures j == i { KeyUnique(before, oldKey, i, j); }
    }
  }

  /** What a call that fits does to the routing of one key. */
  lemma CallRoutes(
    before: seq<InternalRow>, oldKey: Bytes, added: seq<InternalRow>, status: SplitStatus, after: seq<InternalRow>,
    key: Bytes, i: nat)
    requires Ascending(before) && SplitTo(before, oldKey, added, status, after) && ProperCall(before, oldKey, added)
    requires RoutesTo(before, key, i)
    ensures if status == Ok && before[i].sortKey == oldKey
            then exists m: nat, j: nat ::
                   && NewRowFor(added, key, m) && RoutesTo(after, key, j) && after[j].pageId == added[m].pageId
                   && after[j].sortKey == if m == 0 then oldKey else added[m].sortKey
            else exists j: nat :: RoutesTo(after, key, j) && after[j] == before[i]
  {
    hide Ascending, Less, ProperSplit;
    if oldKey != [] && |added| > 1 && exists k: nat :: KeyAt(before, oldKey, k) {
      var k: nat :| KeyAt(before, oldKey, k) && after == AfterSplit(before, k, added);
      SplitRoutes(before, k, added, key, i);
      SplitReplaces(before, k, added);
      if i == k {
        var m: nat :| NewRowFor(added, key, m) && RoutesTo(after, key, k + m) && after[k + m].pageId == added[m].pageId;
        assert RoutesTo(after, key, k + m);
      } else if before[i].sortKey == oldKey {
        KeyUnique(before, oldKey, i, k);
      }
    }
  }

  class InternalRows {
    var rows: seq<InternalRow>

    ghost predicate Valid()
      reads this
    {
      Ascending(rows)
    }

    constructor ()
      ensures Valid() && rows == []
    {
      rows := [];
    }

    /** GetPageId; a key below the first row is a CHECK failure. */
    method GetPageId(key: Bytes) returns (page: Option<Bytes>)
      requires Valid()
      ensures page.None? <==> rows == [] || Less(key, rows[0].sortKey)
      ensures page.Some? ==> exists i: nat :: RoutesTo(rows, key, i) && page.value == rows[i].pageId
      ensures forall i: nat :: RoutesTo(rows, key, i) ==> page == Some(rows[i].pageId)
    {
      hide Less;
      var n := UpperBound(rows, key);
      if n == 0 {
        RouteExists(rows, key);
        return None;
      }
      assert RoutesTo(rows, key, n - 1);
      forall i: nat | RoutesTo(rows, key, i) ensures i == n - 1 { RouteUnique(rows, key, i, n - 1); }
      page := Some(rows[n - 1].pageId);
    }

    /** Split of the row at `oldKey`, or the first rows of an empty page. */
    method Split(oldKey: Bytes, added: seq<InternalRow>) returns (status: SplitStatus)
      requires Valid()
      modifies this
      ensures SplitTo(old(rows), oldKey, added, status, rows)
      ensures status == Ok && oldKey != [] ==>
                exists i: nat :: KeyAt(old(rows), oldKey, i) && Replaced(old(rows), i, added, rows)
      ensures Valid() <==> ProperCall(old(rows), oldKey, added)
    {
      hide Less;
      ghost var before := rows;
      status := Overwrite(oldKey, added);
      CallAscending(before, oldKey, added, status, rows);
      if status == Ok && oldKey != [] {
        ghost var i: nat :| KeyAt(before, oldKey, i) && rows == AfterSplit(before, i, added);
        SplitReplaces(before, i, added);
      }
    }

    /** A split and then a lookup: a key of the split interval is answered with the page of the new row for it. */
    method SplitThenGet(oldKey: Bytes, added: seq<InternalRow>, key: Bytes)
      returns (status: SplitStatus, page: Option<Bytes>)
      requires Valid() && ProperCall(rows, oldKey, added)
      modifies this
      ensures forall i: nat :: RoutesTo(old(rows), key, i) ==>
                if status == Ok && old(rows)[i].sortKey == oldKey
                then exists m: nat :: NewRowFor(added, key, m) && page == Some(added[m].pageId)
                else page == Some(old(rows)[i].pageId)
    {
      hide Less, ProperSplit, Ascending;
      ghost var before := rows;
      status := Split(oldKey, added);
      page := GetPageId(key);
      forall i: nat | RoutesTo(before, key, i)
        ensures if status == Ok && before[i].sortKey == oldKey
                then exists m: nat :: NewRowFor(added, key, m) && page == Some(added[m].pageId)
                else page == Some(before[i].pageId)
      {
        CallRoutes(before, oldKey, added, status, rows, key, i);
      }
    }

    /** The rows change; whether they still ascend is up to the caller. */
    method Overwrite(oldKey: Bytes, added: seq<InternalRow>) returns (status: SplitStatus)
      requires Valid()
      modifies this
      ensures SplitTo(old(rows), oldKey, added, status, rows)
    {
      hide Less;
      if oldKey == [] {
        if rows != [] { return CheckFailed; }
        rows := added;
        return Ok;
      }
      if |added| <= 1 { return CheckFailed; }
      var i := LowerBound(rows, oldKey);
      KeyAtBound(rows, oldKey, i);
      if i == |rows| || rows[i].sortKey != oldKey { return NotFound; }
      assert KeyAt(rows, oldKey, i);
      rows := rows[..i] + [added[0].(sortKey := rows[i].sortKey)] + added[1..] + rows[i + 1..];
      assert rows == AfterSplit(old(rows), i, added);
      status := Ok;
    }
  }

  /** A key that occurs occurs at its lower bound. */
  lemma KeyAtBound(rows: seq<InternalRow>, key: Bytes, n: nat)
    requires Ascending(rows) && n <= |rows|
    requires forall i :: 0 <= i < n ==> Less(rows[i].sortKey, key)
    requires forall i :: n <= i < |rows| ==> !Less(rows[i].sortKey, key)
    ensures (exists i: nat :: KeyAt(rows, key, i)) <==> KeyAt(rows, key, n)
  {
    hide Less;
    if i: nat :| KeyAt(rows, key, i) {
      LessIrreflexive(key);
    }
  }

  // ----- Every sequence of splits -----

  datatype Call = Call(oldKey: Bytes, added: seq<InternalRow>, status: SplitStatus)

  /** Calls of Split on a new page, each with rows that fit. */
  ghost predicate IsHistory(pages: seq<seq<InternalRow>>, calls: seq<Call>) {
    && |pages| == |calls| + 1 && pages[0] == []
    && forall i :: 0 <= i < |calls| ==>
         && SplitTo(pages[i], calls[i].oldKey, calls[i].added, calls[i].status, pages[i + 1])
         && ProperCall(pages[i], calls[i].oldKey, calls[i].added)
  }

  lemma {:induction false} HistoryAscends(pages: seq<seq<InternalRow>>, calls: seq<Call>, n: nat)
    requires IsHistory(pages, calls) && n < |pages|
    ensures Ascending(pages[n])
  {
    if n > 0 {
      hide Ascending, SplitTo, ProperCall;
      HistoryAscends(pages, calls, n - 1);
      var c := calls[n - 1];
      CallAscending(pages[n - 1], c.oldKey, c.added, c.status, pages[n]);
    }
  }

  /** The first rows fix the smallest key for good. */
  lemma {:induction false} MinimumKept(pages: seq<seq<InternalRow>>, calls: seq<Call>, m: nat, n: nat)
    requires IsHistory(pages, calls) && m <= n < |pages| && pages[m] != []
    ensures pages[n] != [] && pages[n][0].sortKey == pages[m][0].sortKey
    decreases n
  {
    if m < n {
      hide Ascending, SplitTo, ProperCall;
      MinimumKept(pages, calls, m, n - 1);
      HistoryAscends(pages, calls, n - 1);
      var c := calls[n - 1];
      CallAscending(pages[n - 1], c.oldKey, c.added, c.status, pages[n]);
    }
  }

  /**
   After any sequence of splits the rows ascend, and a key routes to exactly one of them if it
   is at least the smallest key the page was first given, and to none otherwise.
  */
  lemma EveryKeyRoutesOnce(pages: seq<seq<InternalRow>>, calls: seq<Call>, m: nat, n: nat, key: Bytes)
    requires IsHistory(pages, calls) && m <= n < |pages| && pages[m] != []
    ensures Ascending(pages[n])
    ensures (exists i: nat :: RoutesTo(pages[n], key, i)) <==> !Less(key, pages[m][0].sortKey)
    ensures forall i: nat, j: nat :: RoutesTo(pages[n], key, i) && RoutesTo(pages[n], key, j) ==> i == j
  {
    hide IsHistory, Less;
    HistoryAscends(pages, calls, n);
    MinimumKept(pages, calls, m, n);
    RouteExists(pages[n], key);
    forall i: nat, j: nat | RoutesTo(pages[n], key, i) && RoutesTo(pages[n], key, j) ensures i == j {
      RouteUnique(pages[n], key, i, j);
    }
  }

  // ----- A reference for routing: the last call that covered the key -----

  /** The last of some ascending rows that is not above `key`. */
  function LastAt(rows: seq<InternalRow>, key: Bytes): Option<InternalRow> {
    if rows == [] then None
    else if !Less(key, rows[|rows| - 1].sortKey) then Some(rows[|rows| - 1])
    else LastAt(rows[..|rows| - 1], key)
  }

  /** Where `key` goes after a call, from where it went before: lower bound and page. */
  function Reroute(row: Option<InternalRow>, call: Call, key: Bytes): Option<InternalRow> {
    if call.status != Ok || call.added == [] then row
    else if call.oldKey == [] then LastAt(call.added, key)
    else if row.None? || row.value.sortKey != call.oldKey then row
    else
      var later := LastAt(call.added[1..], key);
      if later.Some? then later else Some(InternalRow(call.oldKey, call.added[0].pageId))
  }

  function RouteAfter(calls: seq<Call>, key: Bytes): Option<InternalRow> {
    if calls == [] then None else Reroute(RouteAfter(calls[..|calls| - 1], key), calls[|calls| - 1], key)
  }

  lemma {:induction false} LastAtIs(rows: seq<InternalRow>, key: Bytes, i: nat)
    requires Ascending(rows) && RoutesTo(rows, key, i)
    ensures LastAt(rows, key) == Some(rows[i])
    decreases |rows|
  {
    hide Less;
    var n := |rows| - 1;
    if i < n {
      LessBefore(rows, key, i + 1, n);
      LastAtIs(rows[..n], key, i);
    }
  }

  lemma {:induction false} LastAtNone(rows: seq<InternalRow>, key: Bytes)
    requires Ascending(rows) && (rows != [] ==> Less(key, rows[0].sortKey))
    ensures LastAt(rows, key) == None
    decreases |rows|
  {
    hide Less;
    if rows != [] {
      LessBefore(rows, key, 0, |rows| - 1);
      LastAtNone(rows[..|rows| - 1], key);
    }
  }

  /** The new row for a key, found by the reference. */
  lemma NewRowIsLast(added: seq<InternalRow>, key: Bytes, m: nat)
    requires added != [] && Ascending(added[1..]) && NewRowFor(added, key, m)
    ensures LastAt(added[1..], key) == if m == 0 then None else Some(added[m])
  {
    hide Less;
    if m == 0 {
      LastAtNone(added[1..], key);
    } else {
      LastAtIs(added[1..], key, m - 1);
    }
  }

  lemma ProperTailAscends(rows: seq<InternalRow>, i: nat, added: seq<InternalRow>)
    requires i < |rows| && added != [] && ProperSplit(rows, i, added)
    ensures Ascending(added[1..])
  {
    var mid := Renamed(rows, i, added);
    forall a, b | 0 <= a < b < |added[1..]| ensures Less(added[1..][a].sortKey, added[1..][b].sortKey) {
      assert mid[a + 1] == added[1..][a] && mid[b + 1] == added[1..][b];
    }
  }

  lemma CallReroutes(before: seq<InternalRow>, call: Call, after: seq<InternalRow>, key: Bytes, i: nat)
    requires Ascending(before) && SplitTo(before, call.oldKey, call.added, call.status, after)
    requires ProperCall(before, call.oldKey, call.added) && RoutesTo(before, key, i)
    ensures exists j: nat :: RoutesTo(after, key, j) && Reroute(Some(before[i]), call, key) == Some(after[j])
  {
    hide Ascending, Less, ProperSplit;
    CallRoutes(before, call.oldKey, call.added, call.status, after, key, i);
    if call.status == Ok && before[i].sortKey == call.oldKey && call.oldKey != [] {
      assert KeyAt(before, call.oldKey, i);
      ProperTailAscends(before, i, call.added);
      var m: nat, j: nat :|
        && NewRowFor(call.added, key, m) && RoutesTo(after, key, j) && after[j].pageId == call.added[m].pageId
        && after[j].sortKey == if m == 0 then call.oldKey else call.added[m].sortKey;
      NewRowIsLast(call.added, key, m);
    }
  }

  /**
   After any sequence of proper splits, every key from the smallest on goes to the page, and from
   the lower bound, that the last call to cover the key gave it.
  */
  lemma {:induction false} RouteIsLastAssigned(
    pages: seq<seq<InternalRow>>, calls: seq<Call>, n: nat, key: Bytes, i: nat)
    requires IsHistory(pages, calls) && n < |pages| && RoutesTo(pages[n], key, i)
    ensures RouteAfter(calls[..n], key) == Some(pages[n][i])
    decreases n
  {
    hide Ascending, Less, ProperSplit, RouteAfter, Reroute, LastAt;
    var before, call := pages[n - 1], calls[n - 1];
    HistoryAscends(pages, calls, n - 1);
    HistoryAscends(pages, calls, n);
    RouteAfterNext(calls, n, key);
    RouteExists(before, key);
    if j: nat :| RoutesTo(before, key, j) {
      RouteIsLastAssigned(pages, calls, n - 1, key, j);
      CallReroutes(before, call, pages[n], key, j);
      var k: nat :| RoutesTo(pages[n], key, k) && Reroute(Some(before[j]), call, key) == Some(pages[n][k]);
      RouteUnique(pages[n], key, i, k);
    } else if before == [] {
      FirstRows(call, pages[n], key, i, RouteAfter(calls[..n - 1], key));
    } else {
      CallAscending(before, call.oldKey, call.added, call.status, pages[n]);
      RouteExists(pages[n], key);
      assert false;
    }
  }

  lemma FirstRows(call: Call, after: seq<InternalRow>, key: Bytes, i: nat, row: Option<InternalRow>)
    requires SplitTo([], call.oldKey, call.added, call.status, after) && Ascending(after) && RoutesTo(after, key, i)
    ensures Reroute(row, call, key) == Some(after[i])
  {
    hide Less;
    assert call.oldKey == [];
    LastAtIs(after, key, i);
  }

  lemma RouteAfterNext(calls: seq<Call>, n: nat, key: Bytes)
    requires 0 < n <= |calls|
    ensures RouteAfter(calls[..n], key) == Reroute(RouteAfter(calls[..n - 1], key), calls[n - 1], key)
  {
    assert calls[..n][..n - 1] == calls[..n - 1];
  }
}
