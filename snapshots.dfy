/** Rules over the inventory_snapshots table (internal/db/sqlite.go): which row is a
    machine's latest, which rows are its history, and how the per-machine row lists
    change when a row is appended or a machine's rows are deleted. The table is a
    sequence in insertion order. */
module Snapshots {
  import opened Wrappers
  import opened Models
  import opened Ordering

  /** The number of history rows returned when the caller asks for none or fewer. */
  const DefaultHistoryLimit: int := 50

  /** Machine `mid` has at least one snapshot row. */
  predicate HasSnapshot(snaps: seq<InventorySnapshot>, mid: string) {
    exists i :: 0 <= i < |snaps| && snaps[i].machineId == mid
  }

  /** `s` is a row of machine `mid` that no other row of `mid` was collected after:
      one of the rows `ORDER BY collected_at DESC LIMIT 1` may return. */
  predicate IsLatest(snaps: seq<InventorySnapshot>, mid: string, s: InventorySnapshot) {
    s in snaps && s.machineId == mid &&
    forall i :: 0 <= i < |snaps| && snaps[i].machineId == mid ==> snaps[i].collectedAt <= s.collectedAt
  }

  /** The single-machine lookup: absent exactly when the machine has no row, and
      otherwise some latest row (ties on `collected_at` may resolve either way). */
  ghost predicate IsLatestResult(snaps: seq<InventorySnapshot>, mid: string, r: Option<InventorySnapshot>) {
    (r.None? <==> !HasSnapshot(snaps, mid)) &&
    (r.Some? ==> IsLatest(snaps, mid, r.value))
  }

  /** A row as the joined listings read it: they do not select `raw_data`. */
  function Unraw(s: InventorySnapshot): InventorySnapshot {
    s.(rawData := "")
  }

  /** The bulk listings' `Latest`: set only when the machine has a row, and then some
      latest row of that machine without its raw payload. */
  ghost predicate IsBulkLatest(snaps: seq<InventorySnapshot>, mid: string, r: Option<InventorySnapshot>) {
    (r.None? <==> !HasSnapshot(snaps, mid)) &&
    (r.Some? ==> exists s :: IsLatest(snaps, mid, s) && r.value == Unraw(s))
  }

  /** Every latest row of `mid` is that row: ties on `collected_at` do not arise. */
  ghost predicate LatestUnique(snaps: seq<InventorySnapshot>, mid: string) {
    forall s, t :: IsLatest(snaps, mid, s) && IsLatest(snaps, mid, t) ==> s == t
  }

  /** Rows of `mid` collected at pairwise distinct times leave no tie: the latest row is
      the one with the greatest time. */
  lemma DistinctTimesMakeLatestUnique(snaps: seq<InventorySnapshot>, mid: string)
    requires forall i, j :: 0 <= i < j < |snaps| && snaps[i].machineId == mid && snaps[j].machineId == mid ==>
      snaps[i].collectedAt != snaps[j].collectedAt
    ensures LatestUnique(snaps, mid)
  {
    forall s, t | IsLatest(snaps, mid, s) && IsLatest(snaps, mid, t)
      ensures s == t
    {
      var i :| 0 <= i < |snaps| && snaps[i] == s;
      var j :| 0 <= j < |snaps| && snaps[j] == t;
      assert s.collectedAt == t.collectedAt;
    }
  }

  /** Scans the table for a latest row of `mid`. */
  method ResolveLatest(snaps: seq<InventorySnapshot>, mid: string) returns (r: Option<InventorySnapshot>)
    ensures IsLatestResult(snaps, mid, r)
  {
    r := None;
    for i := 0 to |snaps|
      invariant r.None? <==> forall k :: 0 <= k < i ==> snaps[k].machineId != mid
      invariant r.Some? ==> r.value in snaps[..i] && r.value.machineId == mid
      invariant r.Some? ==> forall k :: 0 <= k < i && snaps[k].machineId == mid ==> snaps[k].collectedAt <= r.value.collectedAt
    {
      if snaps[i].machineId == mid && (r.None? || r.value.collectedAt < snaps[i].collectedAt) {
        r := Some(snaps[i]);
      }
    }
  }

  /** The latest row of `mid` as a joined listing reports it. */
  method ResolveBulkLatest(snaps: seq<InventorySnapshot>, mid: string) returns (r: Option<InventorySnapshot>)
    ensures IsBulkLatest(snaps, mid, r)
  {
    var full := ResolveLatest(snaps, mid);
    r := if full.Some? then Some(Unraw(full.value)) else None;
  }

  /** `MAX(collected_at)` over the rows of `mid`; absent when it has none. */
  function MaxCollected(snaps: seq<InventorySnapshot>, mid: string): (r: Option<int>)
    ensures r.None? <==> !HasSnapshot(snaps, mid)
    ensures r.Some? ==> exists i :: 0 <= i < |snaps| && snaps[i].machineId == mid && snaps[i].collectedAt == r.value
    ensures r.Some? ==> forall i :: 0 <= i < |snaps| && snaps[i].machineId == mid ==> snaps[i].collectedAt <= r.value
  {
    if snaps == [] then None
    else
      var rest := MaxCollected(snaps[1..], mid);
      assert forall i :: 1 <= i < |snaps| ==> snaps[i] == snaps[1..][i - 1];
      if snaps[0].machineId != mid then
        assert forall i :: 0 <= i < |snaps[1..]| ==> snaps[1..][i] == snaps[i + 1];
        rest
      else if rest.Some? && rest.value >= snaps[0].collectedAt then
        assert forall i :: 0 <= i < |snaps[1..]| ==> snaps[1..][i] == snaps[i + 1];
        rest
      else Some(snaps[0].collectedAt)
  }

  /** A machine with rows has a latest row. */
  lemma LatestExists(snaps: seq<InventorySnapshot>, mid: string)
    requires HasSnapshot(snaps, mid)
    ensures exists s :: IsLatest(snaps, mid, s)
  {
    var t := MaxCollected(snaps, mid).value;
    var i :| 0 <= i < |snaps| && snaps[i].machineId == mid && snaps[i].collectedAt == t;
    assert IsLatest(snaps, mid, snaps[i]);
  }

  /** Every latest row carries the machine's maximal collection time, so the bulk
      listings' `COALESCE(s.collected_at, …)` and `MAX(collected_at)` agree. */
  lemma LatestIsMax(snaps: seq<InventorySnapshot>, mid: string, s: InventorySnapshot)
    requires IsLatest(snaps, mid, s)
    ensures MaxCollected(snaps, mid) == Some(s.collectedAt)
  {
    var k :| 0 <= k < |snaps| && snaps[k] == s;
    assert HasSnapshot(snaps, mid);
  }

  /** The single-machine lookup and the bulk listings follow one rule: dropping the raw
      payload from a single-machine result gives an admissible bulk result. */
  lemma SingleAndBulkAgree(snaps: seq<InventorySnapshot>, mid: string, r: Option<InventorySnapshot>)
    requires IsLatestResult(snaps, mid, r)
    ensures IsBulkLatest(snaps, mid, if r.Some? then Some(Unraw(r.value)) else None)
  {
  }

  /** The rows of machine `mid`, in table order (`WHERE machine_id = ?`). */
  function SnapshotsOf(snaps: seq<InventorySnapshot>, mid: string): (r: seq<InventorySnapshot>)
    ensures |r| <= |snaps|
    ensures forall s :: s in r <==> s in snaps && s.machineId == mid
  {
    if snaps == [] then []
    else if snaps[0].machineId == mid then [snaps[0]] + SnapshotsOf(snaps[1..], mid)
    else SnapshotsOf(snaps[1..], mid)
  }

  /** Row ids strictly increase along the table, as AUTOINCREMENT hands them out. */
  predicate IdsIncreasing(snaps: seq<InventorySnapshot>) {
    forall i, j :: 0 <= i < j < |snaps| ==> snaps[i].id < snaps[j].id
  }

  /** The table after `DELETE FROM inventory_snapshots WHERE machine_id = ?`. */
  function SnapshotsNotOf(snaps: seq<InventorySnapshot>, mid: string): (r: seq<InventorySnapshot>)
    ensures |r| <= |snaps|
    ensures forall s :: s in r <==> s in snaps && s.machineId != mid
    ensures IdsIncreasing(snaps) ==> IdsIncreasing(r)
  {
    if snaps == [] then []
    else if snaps[0].machineId != mid then [snaps[0]] + SnapshotsNotOf(snaps[1..], mid)
    else SnapshotsNotOf(snaps[1..], mid)
  }

  /** Appending one row adds it to its own machine's rows, at the end, and leaves every
      other machine's rows as they were. */
  lemma {:induction false} AppendOne(snaps: seq<InventorySnapshot>, s: InventorySnapshot, mid: string)
    ensures SnapshotsOf(snaps + [s], mid) == SnapshotsOf(snaps, mid) + (if s.machineId == mid then [s] else [])
  {
    if snaps == [] {
      assert [s][1..] == [];
    } else {
      assert (snaps + [s])[1..] == snaps[1..] + [s];
      AppendOne(snaps[1..], s, mid);
    }
  }

  /** A row appended with a collection time no earlier than its machine's other rows is
      that machine's latest row, as the server clock makes it for each new submission. */
  lemma AppendedIsLatest(snaps: seq<InventorySnapshot>, s: InventorySnapshot)
    requires forall i :: 0 <= i < |snaps| && snaps[i].machineId == s.machineId ==> snaps[i].collectedAt <= s.collectedAt
    ensures IsLatest(snaps + [s], s.machineId, s)
    ensures MaxCollected(snaps + [s], s.machineId) == Some(s.collectedAt)
  {
    var t := snaps + [s];
    assert t[|snaps|] == s;
    forall i | 0 <= i < |t| && t[i].machineId == s.machineId
      ensures t[i].collectedAt <= s.collectedAt
    {
      if i < |snaps| {
        assert t[i] == snaps[i];
      }
    }
    LatestIsMax(t, s.machineId, s);
  }

  /** Deleting one machine's rows empties its row list and keeps every other machine's
      rows, in order. */
  lemma {:induction false} DeleteKeepsOthers(snaps: seq<InventorySnapshot>, mid: string, other: string)
    ensures SnapshotsOf(SnapshotsNotOf(snaps, mid), mid) == []
    ensures other != mid ==> SnapshotsOf(SnapshotsNotOf(snaps, mid), other) == SnapshotsOf(snaps, other)
  {
    if snaps != [] {
      DeleteKeepsOthers(snaps[1..], mid, other);
    }
  }

  /** `COALESCE(MAX(collected_at), created_at)`: the listing key of a machine. */
  function LastActivity(snaps: seq<InventorySnapshot>, m: Machine): int {
    match MaxCollected(snaps, m.id)
    case Some(t) => t
    case None => m.createdAt
  }

  /** `COALESCE(s.collected_at, m.created_at)` over a listed machine and its latest row. */
  function RowActivity(r: MachineWithLatest): int {
    if r.latest.Some? then r.latest.value.collectedAt else r.machine.createdAt
  }

  /** Both listing keys agree: ordering by the latest row's time is ordering by the
      machine's newest collection time. */
  lemma RowActivityIsLastActivity(snaps: seq<InventorySnapshot>, r: MachineWithLatest)
    requires IsBulkLatest(snaps, r.machine.id, r.latest)
    ensures RowActivity(r) == LastActivity(snaps, r.machine)
  {
    if r.latest.Some? {
      var s :| IsLatest(snaps, r.machine.id, s) && r.latest.value == Unraw(s);
      LatestIsMax(snaps, r.machine.id, s);
    }
  }

  /** The key of `ORDER BY collected_at`. */
  function CollectedAt(s: InventorySnapshot): int {
    s.collectedAt
  }

  /** The `LIMIT` actually applied for a requested `limit`. */
  function EffectiveLimit(limit: int): (n: nat)
    ensures n > 0
    ensures limit <= 0 ==> n == DefaultHistoryLimit
    ensures limit > 0 ==> n == limit
  {
    if limit <= 0 then DefaultHistoryLimit else limit
  }

  /** `rows` is an admissible answer to `WHERE machine_id = mid ORDER BY collected_at DESC
      LIMIT cap`: as many rows as the cap and the machine allow, all of them the machine's,
      newest first, none newer left out. */
  ghost predicate IsHistory(snaps: seq<InventorySnapshot>, mid: string, cap: nat, rows: seq<InventorySnapshot>) {
    IsTop(SnapshotsOf(snaps, mid), CollectedAt, cap, rows)
  }

  /** History rows are rows of the requested machine, at most `cap` of them, newest first. */
  lemma HistoryRows(snaps: seq<InventorySnapshot>, mid: string, cap: nat, rows: seq<InventorySnapshot>)
    requires IsHistory(snaps, mid, cap, rows)
    ensures |rows| <= cap
    ensures forall s :: s in rows ==> s in snaps && s.machineId == mid
    ensures forall i, j :: 0 <= i < j < |rows| ==> rows[i].collectedAt >= rows[j].collectedAt
  {
    forall s | s in rows
      ensures s in snaps && s.machineId == mid
    {
      assert s in multiset(rows);
    }
    forall i, j | 0 <= i < j < |rows|
      ensures rows[i].collectedAt >= rows[j].collectedAt
    {
      assert CollectedAt(rows[i]) >= CollectedAt(rows[j]);
    }
  }

  /** The rows of a machine in two stretches of the table, one after the other. */
  lemma {:induction false} SnapshotsOfConcat(a: seq<InventorySnapshot>, b: seq<InventorySnapshot>, mid: string)
    ensures SnapshotsOf(a + b, mid) == SnapshotsOf(a, mid) + SnapshotsOf(b, mid)
  {
    if a != [] {
      assert (a + b)[1..] == a[1..] + b;
      SnapshotsOfConcat(a[1..], b, mid);
    } else {
      assert a + b == b;
    }
  }

  /** Appending rows that all belong to `mid`, one insert after another, extends that
      machine's rows by exactly those rows, in order. */
  lemma {:induction false} AppendMany(snaps: seq<InventorySnapshot>, news: seq<InventorySnapshot>, mid: string)
    requires forall i :: 0 <= i < |news| ==> news[i].machineId == mid
    ensures SnapshotsOf(snaps + news, mid) == SnapshotsOf(snaps, mid) + news
  {
    SnapshotsOfConcat(snaps, news, mid);
    OnlyOwnRows(news, mid);
  }

  /** A stretch of rows that all belong to `mid` is its own selection. */
  lemma {:induction false} OnlyOwnRows(news: seq<InventorySnapshot>, mid: string)
    requires forall i :: 0 <= i < |news| ==> news[i].machineId == mid
    ensures SnapshotsOf(news, mid) == news
  {
    if news != [] {
      assert news[0].machineId == mid;
      OnlyOwnRows(news[1..], mid);
      assert [news[0]] + news[1..] == news;
    }
  }

  /** N submissions for a machine that had no rows, with N within the cap, give exactly
      those N rows as its history. */
  lemma {:induction false} HistoryCountsSubmissions(snaps: seq<InventorySnapshot>, news: seq<InventorySnapshot>,
                                                   mid: string, cap: nat, rows: seq<InventorySnapshot>)
    requires SnapshotsOf(snaps, mid) == []
    requires forall i :: 0 <= i < |news| ==> news[i].machineId == mid
    requires |news| <= cap
    requires IsHistory(snaps + news, mid, cap, rows)
    ensures |rows| == |news|
    ensures multiset(rows) == multiset(news)
  {
    AppendMany(snaps, news, mid);
    assert [] + news == news;
  }

  /** The latest row of a machine is the first history row, up to ties. */
  lemma HistoryStartsWithLatest(snaps: seq<InventorySnapshot>, mid: string, cap: nat, rows: seq<InventorySnapshot>)
    requires IsHistory(snaps, mid, cap, rows)
    requires rows != []
    ensures IsLatest(snaps, mid, rows[0])
  {
    var pool := SnapshotsOf(snaps, mid);
    assert rows[0] in multiset(rows);
    forall i | 0 <= i < |snaps| && snaps[i].machineId == mid
      ensures snaps[i].collectedAt <= rows[0].collectedAt
    {
      var x := snaps[i];
      assert x in pool;
      if x in multiset(rows) {
        var j :| 0 <= j < |rows| && rows[j] == x;
        if j > 0 {
          assert CollectedAt(rows[0]) >= CollectedAt(rows[j]);
        }
      } else {
        assert x in multiset(pool) - multiset(rows);
      }
    }
  }
}
