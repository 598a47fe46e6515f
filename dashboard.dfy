/** The per-user dashboard counters of GetUserDashboardStats (internal/db/sqlite.go):
    machines counted, latest rows classified by disk encryption and antivirus, and the
    most recent collection time. */
module Dashboard {
  import opened Wrappers
  import opened Models
  import opened Snapshots

  /** The counters; `lastChecked == None` is the nil time. */
  datatype DashboardStats = DashboardStats(
    totalMachines: int,
    encryptedCount: int,
    unencryptedCount: int,
    protectedCount: int,
    unprotectedCount: int,
    lastChecked: Option<int>)

  /** The two compliance flags the dashboard classifies machines by. */
  datatype Flag = DiskEncrypted | AntivirusEnabled

  function FlagOf(f: Flag, s: InventorySnapshot): bool {
    match f
    case DiskEncrypted => s.diskEncrypted
    case AntivirusEnabled => s.antivirusEnabled
  }

  /** Every latest row of machine `k` has the flag set (and there is one). */
  ghost predicate SurelyFlag(snaps: seq<InventorySnapshot>, k: string, f: Flag) {
    HasSnapshot(snaps, k) && forall s :: IsLatest(snaps, k, s) ==> FlagOf(f, s)
  }

  /** Some latest row of machine `k` has the flag set. */
  ghost predicate PossiblyFlag(snaps: seq<InventorySnapshot>, k: string, f: Flag) {
    exists s :: IsLatest(snaps, k, s) && FlagOf(f, s)
  }

  /** The machines among `ids` that have a latest row at all. */
  ghost function Reporting(snaps: seq<InventorySnapshot>, ids: set<string>): set<string> {
    set k | k in ids && HasSnapshot(snaps, k)
  }

  ghost function Surely(snaps: seq<InventorySnapshot>, ids: set<string>, f: Flag): set<string> {
    set k | k in ids && SurelyFlag(snaps, k, f)
  }

  ghost function Possibly(snaps: seq<InventorySnapshot>, ids: set<string>, f: Flag): set<string> {
    set k | k in ids && PossiblyFlag(snaps, k, f)
  }

  /** `t` is the newest collection time over the rows of the machines in `ids`. */
  ghost predicate IsNewest(snaps: seq<InventorySnapshot>, ids: set<string>, t: int) {
    (exists i :: 0 <= i < |snaps| && snaps[i].machineId in ids && snaps[i].collectedAt == t) &&
    (forall i :: 0 <= i < |snaps| && snaps[i].machineId in ids ==> snaps[i].collectedAt <= t)
  }

  /** What the counters promise for the machines `owned` by one user, whichever latest row
      each tie resolves to: a count per owned machine, each reporting machine counted once
      on one side of each flag, between the machines whose every latest row has the flag and
      those with some latest row that has it, and the newest collection time or nil. */
  ghost predicate StatsFor(snaps: seq<InventorySnapshot>, owned: set<string>, st: DashboardStats) {
    st.totalMachines == |owned| &&
    st.encryptedCount + st.unencryptedCount == |Reporting(snaps, owned)| &&
    st.protectedCount + st.unprotectedCount == |Reporting(snaps, owned)| &&
    |Surely(snaps, owned, DiskEncrypted)| <= st.encryptedCount <= |Possibly(snaps, owned, DiskEncrypted)| &&
    |Surely(snaps, owned, AntivirusEnabled)| <= st.protectedCount <= |Possibly(snaps, owned, AntivirusEnabled)| &&
    (st.lastChecked.None? <==> Reporting(snaps, owned) == {}) &&
    (st.lastChecked.Some? ==> IsNewest(snaps, owned, st.lastChecked.value))
  }

  /** Adding one machine to the processed set grows the reporting set by that machine
      exactly when it has a row. */
  lemma GrowReporting(snaps: seq<InventorySnapshot>, done: set<string>, k: string)
    requires k !in done
    ensures Reporting(snaps, done + {k}) == Reporting(snaps, done) + (if HasSnapshot(snaps, k) then {k} else {})
    ensures |Reporting(snaps, done + {k})| == |Reporting(snaps, done)| + (if HasSnapshot(snaps, k) then 1 else 0)
  {
    var a, b := Reporting(snaps, done + {k}), Reporting(snaps, done);
    assert k !in b;
    assert a == b + (if HasSnapshot(snaps, k) then {k} else {});
  }

  lemma GrowSurely(snaps: seq<InventorySnapshot>, done: set<string>, k: string, f: Flag)
    requires k !in done
    ensures |Surely(snaps, done + {k}, f)| == |Surely(snaps, done, f)| + (if SurelyFlag(snaps, k, f) then 1 else 0)
  {
    var a, b := Surely(snaps, done + {k}, f), Surely(snaps, done, f);
    assert k !in b;
    assert a == b + (if SurelyFlag(snaps, k, f) then {k} else {});
  }

  lemma GrowPossibly(snaps: seq<InventorySnapshot>, done: set<string>, k: string, f: Flag)
    requires k !in done
    ensures |Possibly(snaps, done + {k}, f)| == |Possibly(snaps, done, f)| + (if PossiblyFlag(snaps, k, f) then 1 else 0)
  {
    var a, b := Possibly(snaps, done + {k}, f), Possibly(snaps, done, f);
    assert k !in b;
    assert a == b + (if PossiblyFlag(snaps, k, f) then {k} else {});
  }

  /** The counters of one flag over the machines `ids`: every reporting machine on exactly
      one side, and the flagged side between the sure and the possible machines. */
  ghost predicate Within(snaps: seq<InventorySnapshot>, ids: set<string>, f: Flag, yes: int, no: int) {
    yes + no == |Reporting(snaps, ids)| &&
    |Surely(snaps, ids, f)| <= yes <= |Possibly(snaps, ids, f)|
  }

  /** The newest-time register over the machines `ids`. */
  ghost predicate NewestSoFar(snaps: seq<InventorySnapshot>, ids: set<string>, last: Option<int>) {
    (last.None? <==> Reporting(snaps, ids) == {}) &&
    (last.Some? ==> IsNewest(snaps, ids, last.value))
  }

  /** Counting machine `k` by the latest row chosen for it keeps a flag's counters right. */
  lemma CountStep(snaps: seq<InventorySnapshot>, done: set<string>, k: string, f: Flag,
                  r: Option<InventorySnapshot>, yes: int, no: int)
    requires k !in done
    requires IsLatestResult(snaps, k, r)
    requires Within(snaps, done, f, yes, no)
    ensures Within(snaps, done + {k}, f,
                   yes + (if r.Some? && FlagOf(f, r.value) then 1 else 0),
                   no + (if r.Some? && !FlagOf(f, r.value) then 1 else 0))
  {
    GrowReporting(snaps, done, k);
    GrowSurely(snaps, done, k, f);
    GrowPossibly(snaps, done, k, f);
    if r.None? {
      assert !HasSnapshot(snaps, k);
    }
  }

  /** The `LastChecked` update: replaced only by a strictly later time. */
  function Later(last: Option<int>, r: Option<InventorySnapshot>): Option<int> {
    if r.Some? && (last.None? || r.value.collectedAt > last.value) then Some(r.value.collectedAt) else last
  }

  /** The update keeps the register equal to the newest time of the machines seen. */
  lemma LaterStep(snaps: seq<InventorySnapshot>, done: set<string>, k: string,
                  r: Option<InventorySnapshot>, last: Option<int>)
    requires k !in done
    requires IsLatestResult(snaps, k, r)
    requires NewestSoFar(snaps, done, last)
    ensures NewestSoFar(snaps, done + {k}, Later(last, r))
  {
    GrowReporting(snaps, done, k);
    if r.Some? {
      var j :| 0 <= j < |snaps| && snaps[j] == r.value;
      assert k in Reporting(snaps, done + {k});
    } else {
      assert forall i :: 0 <= i < |snaps| ==> snaps[i].machineId != k;
    }
  }

  /** Walks the user's machines once, resolving each one's latest row, and counts. */
  method Tally(snaps: seq<InventorySnapshot>, owned: set<string>) returns (st: DashboardStats)
    ensures StatsFor(snaps, owned, st)
  {
    var enc, unenc, prot, unprot := 0, 0, 0, 0;
    var last: Option<int> := None;
    var todo := owned;
    ghost var done: set<string> := {};
    while todo != {}
      invariant done == owned - todo && todo <= owned
      invariant Within(snaps, done, DiskEncrypted, enc, unenc)
      invariant Within(snaps, done, AntivirusEnabled, prot, unprot)
      invariant NewestSoFar(snaps, done, last)
      decreases todo
    {
      var k :| k in todo;
      var r := ResolveLatest(snaps, k);
      CountStep(snaps, done, k, DiskEncrypted, r, enc, unenc);
      CountStep(snaps, done, k, AntivirusEnabled, r, prot, unprot);
      LaterStep(snaps, done, k, r, last);
      if r.Some? {
        if r.value.diskEncrypted { enc := enc + 1; } else { unenc := unenc + 1; }
        if r.value.antivirusEnabled { prot := prot + 1; } else { unprot := unprot + 1; }
        if last.None? || r.value.collectedAt > last.value {
          last := Some(r.value.collectedAt);
        }
      }
      done := done + {k};
      todo := todo - {k};
    }
    assert done == owned;
    st := DashboardStats(|owned|, enc, unenc, prot, unprot, last);
  }

  /** When no machine's latest row is tied, the counters are exact: the flagged count is the
      number of reporting machines whose latest row has the flag. */
  lemma {:induction false} ExactWithoutTies(snaps: seq<InventorySnapshot>, ids: set<string>, f: Flag)
    requires forall k :: k in ids ==> LatestUnique(snaps, k)
    ensures Surely(snaps, ids, f) == Possibly(snaps, ids, f)
  {
    forall k | k in Surely(snaps, ids, f)
      ensures k in Possibly(snaps, ids, f)
    {
      LatestExists(snaps, k);
    }
    forall k | k in Possibly(snaps, ids, f)
      ensures k in Surely(snaps, ids, f)
    {
      var s :| IsLatest(snaps, k, s) && FlagOf(f, s);
      assert HasSnapshot(snaps, k) by {
        var i :| 0 <= i < |snaps| && snaps[i] == s;
      }
    }
  }
}
