/** Deployment records, their status updates and the archiving of completed ones. */
module Deployments {
  import opened Common

  datatype StrategyType = DollarCostAveraging | ValueAveraging | FixedBalance | LimitOrder | SelfHedging

  datatype DeploymentStatus =
    | PendingPayment
    | AuthorizationConfirmed
    | PaymentReceived
    | CanisterCreated
    | CodeInstalled
    | Initialized
    | Deployed
    | DeploymentCancelled
    | DeploymentFailed
    | Refunding
    | Refunded

  /** Why a record carries an error message. */
  datatype Message =
    | CanisterCreationFailed
    | ModuleNotFound
    | CodeInstallationFailed
    | InitializationFailed
    | MetadataError
    | FeeRefunded

  /** The serialized strategy configuration is opaque and left out. */
  datatype DeploymentRecord = DeploymentRecord(
    deploymentId: string,
    strategyType: StrategyType,
    owner: Principal,
    feeAmount: u64,
    requestTime: u64,
    status: DeploymentStatus,
    canisterId: Option<Principal>,
    errorMessage: Option<Message>,
    lastUpdated: u64)

  type Records = map<string, DeploymentRecord>

  const RETENTION_PERIOD_NS: u64 := 90 * 24 * 60 * 60 * 1_000_000_000
  const MAX_COMPLETED_RECORDS := 10000

  function WithStatus(r: DeploymentRecord, status: DeploymentStatus, canisterId: Option<Principal>,
                      errorMessage: Option<Message>, now: u64): DeploymentRecord {
    r.(status := status,
       lastUpdated := now,
       canisterId := if canisterId.Some? then canisterId else r.canisterId,
       errorMessage := if errorMessage.Some? then errorMessage else r.errorMessage)
  }

  function UpdateDeploymentStatus(rs: Records, id: string, status: DeploymentStatus, canisterId: Option<Principal>,
                                  errorMessage: Option<Message>, now: u64): Result<Records, ()> {
    if id in rs then Ok(rs[id := WithStatus(rs[id], status, canisterId, errorMessage, now)]) else Err(())
  }

  // ---------- Archiving ----------

  predicate Completed(r: DeploymentRecord) { r.status.Deployed? || r.status.Refunded? }

  /** `order` is the order in which the stable map iterates over its keys. */
  ghost predicate Enumerates(order: seq<string>, rs: Records) {
    && (forall i :: 0 <= i < |order| ==> order[i] in rs)
    && (forall id :: id in rs ==> id in order)
    && (forall i, j :: 0 <= i < j < |order| ==> order[i] != order[j])
  }

  function CompletedIds(rs: Records, order: seq<string>): seq<string> {
    if order == [] then [] else
      var id := order[|order| - 1];
      CompletedIds(rs, order[..|order| - 1]) + (if id in rs && Completed(rs[id]) then [id] else [])
  }

  function Updated(rs: Records, id: string): u64 { if id in rs then rs[id].lastUpdated else 0 }

  /** Insertion behind every entry that is not younger keeps equal times in their old order. */
  function InsertByTime(rs: Records, id: string, sorted: seq<string>): seq<string> {
    if sorted == [] || Updated(rs, sorted[|sorted| - 1]) <= Updated(rs, id) then sorted + [id]
    else InsertByTime(rs, id, sorted[..|sorted| - 1]) + [sorted[|sorted| - 1]]
  }

  /** The stable sort by `last_updated`. */
  function SortByTime(rs: Records, ids: seq<string>): seq<string> {
    if ids == [] then [] else InsertByTime(rs, ids[|ids| - 1], SortByTime(rs, ids[..|ids| - 1]))
  }

  function Excess(n: nat): nat { if n > MAX_COMPLETED_RECORDS then n - MAX_COMPLETED_RECORDS else 0 }

  function RetentionThreshold(now: u64): u64 { SatSub64(now, RETENTION_PERIOD_NS) }

  /** The entries of `sorted` up to position `upTo` that are surplus or too old. */
  function Selected(rs: Records, sorted: seq<string>, upTo: nat, excess: nat, threshold: u64): seq<string>
    requires upTo <= |sorted|
  {
    if upTo == 0 then [] else
      Selected(rs, sorted, upTo - 1, excess, threshold) +
      (if upTo - 1 < excess || Updated(rs, sorted[upTo - 1]) < threshold then [sorted[upTo - 1]] else [])
  }

  function ToArchive(rs: Records, order: seq<string>, now: u64): seq<string> {
    var sorted := SortByTime(rs, CompletedIds(rs, order));
    Selected(rs, sorted, |sorted|, Excess(|sorted|), RetentionThreshold(now))
  }

  /** Removal one by one, counting the keys that were present. */
  function RemoveAll(rs: Records, ids: seq<string>): (Records, nat) {
    if ids == [] then (rs, 0) else
      var (kept, n) := RemoveAll(rs, ids[..|ids| - 1]);
      var id := ids[|ids| - 1];
      if id in kept then (kept - {id}, n + 1) else (kept, n)
  }

  function ArchiveOldDeploymentRecords(rs: Records, order: seq<string>, now: u64): (Records, nat) {
    RemoveAll(rs, ToArchive(rs, order, now))
  }

  // ---------- What archiving achieves ----------

  ghost predicate Distinct<T>(s: seq<T>) { forall i, j :: 0 <= i < j < |s| ==> s[i] != s[j] }

  ghost function SetOf<T>(s: seq<T>): set<T> { set x | x in s }

  lemma SetOfAppend<T>(s: seq<T>)
    requires s != []
    ensures SetOf(s) == SetOf(s[..|s| - 1]) + {s[|s| - 1]}
    ensures Distinct(s) ==> Distinct(s[..|s| - 1]) && s[|s| - 1] !in SetOf(s[..|s| - 1])
  {
    assert s == s[..|s| - 1] + [s[|s| - 1]];
  }

  ghost predicate SortedByTime(rs: Records, s: seq<string>) {
    forall i, j :: 0 <= i < j < |s| ==> Updated(rs, s[i]) <= Updated(rs, s[j])
  }

  ghost function CompletedIn(rs: Records): set<string> { set id | id in rs && Completed(rs[id]) }

  /** Completed records last updated more than ninety days ago. */
  ghost function TooOld(rs: Records, now: u64): set<string> {
    set id | id in rs && Completed(rs[id]) && rs[id].lastUpdated + 7_776_000_000_000_000 < now
  }

  /** How many of `n` completed records are beyond the ten thousand that may stay. */
  function Surplus(n: nat): nat { Max(0, n - 10_000) }

  lemma LimitsMean(n: nat, updated: u64, now: u64)
    ensures Excess(n) == Surplus(n)
    ensures updated < RetentionThreshold(now) <==> updated + 7_776_000_000_000_000 < now
  {
  }

  /** `a` comes before `b` in `s`. */
  ghost predicate Before<T>(s: seq<T>, a: T, b: T) { exists i, j :: 0 <= i < j < |s| && s[i] == a && s[j] == b }

  /** Entries of `s` with equal times are in the order of `ids`. */
  ghost predicate StableIn(rs: Records, s: seq<string>, ids: seq<string>) {
    forall i, j :: 0 <= i < j < |s| && Updated(rs, s[i]) == Updated(rs, s[j]) ==> Before(ids, s[i], s[j])
  }

  lemma {:induction false} CompletedIdsContent(rs: Records, order: seq<string>)
    requires Distinct(order)
    ensures Distinct(CompletedIds(rs, order))
    ensures forall id :: id in CompletedIds(rs, order) <==> id in order && id in rs && Completed(rs[id])
  {
    if order != [] {
      var front, last := order[..|order| - 1], order[|order| - 1];
      CompletedIdsContent(rs, front);
      assert order == front + [last];
    }
  }

  lemma {:induction false} InsertByTimeContent(rs: Records, id: string, sorted: seq<string>)
    requires SortedByTime(rs, sorted)
    ensures SortedByTime(rs, InsertByTime(rs, id, sorted))
    ensures multiset(InsertByTime(rs, id, sorted)) == multiset(sorted) + multiset{id}
    ensures |InsertByTime(rs, id, sorted)| == |sorted| + 1
  {
    if !(sorted == [] || Updated(rs, sorted[|sorted| - 1]) <= Updated(rs, id)) {
      var front, last := sorted[..|sorted| - 1], sorted[|sorted| - 1];
      assert sorted == front + [last];
      InsertByTimeContent(rs, id, front);
      LastStaysLast(rs, InsertByTime(rs, id, front), front, id, last);
    }
  }

  lemma LastStaysLast(rs: Records, r: seq<string>, front: seq<string>, id: string, last: string)
    requires SortedByTime(rs, r) && multiset(r) == multiset(front) + multiset{id}
    requires Updated(rs, id) <= Updated(rs, last) && SortedByTime(rs, front + [last])
    ensures SortedByTime(rs, r + [last])
  {
    forall i | 0 <= i < |r| ensures Updated(rs, r[i]) <= Updated(rs, last) {
      assert r[i] in multiset(r);
      if r[i] != id {
        assert r[i] in multiset(front);
        var j :| 0 <= j < |front| && front[j] == r[i];
        assert (front + [last])[j] == r[i] && (front + [last])[|front|] == last;
      }
    }
  }

  lemma {:induction false} SortByTimeContent(rs: Records, ids: seq<string>)
    ensures SortedByTime(rs, SortByTime(rs, ids))
    ensures multiset(SortByTime(rs, ids)) == multiset(ids)
    ensures |SortByTime(rs, ids)| == |ids|
  {
    if ids != [] {
      var front, last := ids[..|ids| - 1], ids[|ids| - 1];
      SortByTimeContent(rs, front);
      InsertByTimeContent(rs, last, SortByTime(rs, front));
      assert ids == front + [last];
    }
  }

  lemma BeforeAppend(ids: seq<string>, id: string)
    ensures forall a, b :: Before(ids, a, b) ==> Before(ids + [id], a, b)
    ensures forall a :: a in ids ==> Before(ids + [id], a, id)
  {
    forall a, b | Before(ids, a, b) ensures Before(ids + [id], a, b) {
      var i, j :| 0 <= i < j < |ids| && ids[i] == a && ids[j] == b;
      assert (ids + [id])[i] == a && (ids + [id])[j] == b;
    }
    forall a | a in ids ensures Before(ids + [id], a, id) {
      var i :| 0 <= i < |ids| && ids[i] == a;
      assert (ids + [id])[i] == a && (ids + [id])[|ids|] == id;
    }
  }

  lemma {:induction false} InsertKeepsStable(rs: Records, id: string, sorted: seq<string>, ids: seq<string>)
    requires SortedByTime(rs, sorted) && StableIn(rs, sorted, ids) && forall x :: x in sorted ==> x in ids
    ensures StableIn(rs, InsertByTime(rs, id, sorted), ids + [id])
  {
    BeforeAppend(ids, id);
    var r := InsertByTime(rs, id, sorted);
    if !(sorted == [] || Updated(rs, sorted[|sorted| - 1]) <= Updated(rs, id)) {
      var front, last := sorted[..|sorted| - 1], sorted[|sorted| - 1];
      InsertKeepsStable(rs, id, front, ids);
      InsertByTimeContent(rs, id, front);
      var r' := InsertByTime(rs, id, front);
      forall i | 0 <= i < |r'| && Updated(rs, r'[i]) == Updated(rs, last) ensures Before(ids + [id], r'[i], last) {
        assert r'[i] in multiset(r');
        assert r'[i] in multiset(front);
        var j :| 0 <= j < |front| && front[j] == r'[i];
        assert sorted[j] == r'[i] && sorted[|sorted| - 1] == last;
      }
    }
  }

  lemma {:induction false} SortByTimeStable(rs: Records, ids: seq<string>)
    ensures StableIn(rs, SortByTime(rs, ids), ids)
  {
    if ids != [] {
      hide StableIn, SortedByTime, InsertByTime;
      var front, last := ids[..|ids| - 1], ids[|ids| - 1];
      SortByTimeStable(rs, front);
      SortByTimeContent(rs, front);
      SamePermutation(SortByTime(rs, front), front);
      InsertKeepsStable(rs, last, SortByTime(rs, front), front);
      assert ids == front + [last];
    }
  }

  lemma {:induction false} CompletedIdsInOrder(rs: Records, order: seq<string>)
    ensures forall a :: a in CompletedIds(rs, order) ==> a in order
    ensures forall a, b :: Before(CompletedIds(rs, order), a, b) ==> Before(order, a, b)
  {
    if order != [] {
      var front, last := order[..|order| - 1], order[|order| - 1];
      CompletedIdsInOrder(rs, front);
      assert order == front + [last];
      BeforeAppend(front, last);
      var ids := CompletedIds(rs, front);
      if last in rs && Completed(rs[last]) {
        forall a, b | Before(ids + [last], a, b) ensures Before(order, a, b) {
          var i, j :| 0 <= i < j < |ids| + 1 && (ids + [last])[i] == a && (ids + [last])[j] == b;
          if j < |ids| {
            assert ids[i] == a && ids[j] == b;
          }
        }
      } else {
        assert ids + [] == ids;
      }
    }
  }

  lemma {:induction false} DistinctMultiset<T>(s: seq<T>)
    ensures Distinct(s) <==> forall x :: multiset(s)[x] <= 1
  {
    if s != [] {
      var front, last := s[..|s| - 1], s[|s| - 1];
      assert s == front + [last];
      DistinctMultiset(front);
      if Distinct(s) {
        assert last !in front;
        assert multiset(front)[last] == 0;
      } else if Distinct(front) {
        var i, j :| 0 <= i < j < |s| && s[i] == s[j];
        assert front[i] == last;
        assert multiset(front)[last] >= 1;
        assert multiset(s)[last] >= 2;
      } else {
        var x :| multiset(front)[x] > 1;
        assert multiset(s)[x] > 1;
      }
    }
  }

  /** How many leading entries of `s` are below `threshold`. */
  function OldPrefix(rs: Records, s: seq<string>, threshold: u64): nat {
    if s == [] || Updated(rs, s[0]) >= threshold then 0 else 1 + OldPrefix(rs, s[1..], threshold)
  }

  lemma {:induction false} OldPrefixSplits(rs: Records, s: seq<string>, threshold: u64)
    requires SortedByTime(rs, s)
    ensures OldPrefix(rs, s, threshold) <= |s|
    ensures forall i :: 0 <= i < |s| ==> (Updated(rs, s[i]) < threshold <==> i < OldPrefix(rs, s, threshold))
  {
    if s != [] && Updated(rs, s[0]) < threshold {
      OldPrefixSplits(rs, s[1..], threshold);
      forall i | 0 < i < |s| ensures Updated(rs, s[i]) < threshold <==> i < OldPrefix(rs, s, threshold) {
        assert s[i] == s[1..][i - 1];
      }
    }
  }

  lemma {:induction false} SelectedIsPrefix(rs: Records, s: seq<string>, upTo: nat, excess: nat, threshold: u64)
    requires upTo <= |s| && SortedByTime(rs, s)
    ensures Selected(rs, s, upTo, excess, threshold) == s[..Min(upTo, Max(excess, OldPrefix(rs, s, threshold)))]
  {
    OldPrefixSplits(rs, s, threshold);
    if upTo > 0 {
      SelectedIsPrefix(rs, s, upTo - 1, excess, threshold);
    }
  }

  lemma {:induction false} RemoveAllContent(rs: Records, ids: seq<string>)
    requires Distinct(ids) && SetOf(ids) <= rs.Keys
    ensures RemoveAll(rs, ids) == (rs - SetOf(ids), |ids|)
  {
    if ids == [] {
      assert rs - SetOf(ids) == rs;
    } else {
      var front, last := ids[..|ids| - 1], ids[|ids| - 1];
      SetOfAppend(ids);
      RemoveAllContent(rs, front);
      assert last in SetOf(ids);
      assert (rs - SetOf(front)) - {last} == rs - SetOf(ids);
    }
  }

  lemma {:induction false} DistinctCardinality<T>(s: seq<T>)
    requires Distinct(s)
    ensures |SetOf(s)| == |s|
  {
    if s != [] {
      SetOfAppend(s);
      DistinctCardinality(s[..|s| - 1]);
    }
  }

  /** The completed ids in sorted order: each exactly once. */
  lemma SortedCompleted(rs: Records, order: seq<string>) returns (sorted: seq<string>)
    requires Enumerates(order, rs)
    ensures sorted == SortByTime(rs, CompletedIds(rs, order))
    ensures SortedByTime(rs, sorted) && Distinct(sorted) && SetOf(sorted) == CompletedIn(rs)
    ensures |sorted| == |CompletedIn(rs)| && StableIn(rs, sorted, order)
  {
    hide StableIn, SortByTime, CompletedIds, SortedByTime;
    var ids := CompletedIds(rs, order);
    CompletedIdsContent(rs, order);
    sorted := SortByTime(rs, ids);
    SortByTimeContent(rs, ids);
    CompletedStable(rs, order);
    SamePermutation(sorted, ids);
    DistinctCardinality(sorted);
  }

  /** A permutation has the same members, each as often. */
  lemma SamePermutation(s: seq<string>, t: seq<string>)
    requires multiset(s) == multiset(t)
    ensures forall x :: x in s <==> x in t
    ensures Distinct(s) <==> Distinct(t)
  {
    DistinctMultiset(s);
    DistinctMultiset(t);
    forall x ensures x in s <==> x in t {
      assert x in s <==> x in multiset(s);
      assert x in t <==> x in multiset(t);
    }
  }

  lemma CompletedStable(rs: Records, order: seq<string>)
    ensures StableIn(rs, SortByTime(rs, CompletedIds(rs, order)), order)
  {
    SortByTimeStable(rs, CompletedIds(rs, order));
    CompletedIdsInOrder(rs, order);
  }

  lemma OldPrefixIsTooOld(rs: Records, sorted: seq<string>, now: u64)
    requires SortedByTime(rs, sorted) && Distinct(sorted) && SetOf(sorted) == CompletedIn(rs)
    ensures var n := OldPrefix(rs, sorted, RetentionThreshold(now));
            n <= |sorted| && SetOf(sorted[..n]) == TooOld(rs, now) && n == |TooOld(rs, now)|
  {
    var threshold := RetentionThreshold(now);
    OldPrefixSplits(rs, sorted, threshold);
    forall id | id in rs ensures rs[id].lastUpdated < threshold <==> rs[id].lastUpdated + 7_776_000_000_000_000 < now {
      LimitsMean(0, rs[id].lastUpdated, now);
    }
    hide RetentionThreshold;
    var front := sorted[..OldPrefix(rs, sorted, threshold)];
    forall x | x in TooOld(rs, now) ensures x in front {
      assert x in SetOf(sorted);
      var i :| 0 <= i < |sorted| && sorted[i] == x;
      assert front[i] == x;
    }
    forall x | x in front ensures x in TooOld(rs, now) {
      assert x in SetOf(sorted);
    }
    DistinctCardinality(front);
  }

  /** The archived ids are the oldest completed records, as many as needed. */
  lemma ToArchiveContent(rs: Records, order: seq<string>, now: u64) returns (sorted: seq<string>, k: nat)
    requires Enumerates(order, rs)
    ensures SortedByTime(rs, sorted) && Distinct(sorted) && SetOf(sorted) == CompletedIn(rs) && StableIn(rs, sorted, order)
    ensures k == Max(Surplus(|CompletedIn(rs)|), |TooOld(rs, now)|) <= |sorted| == |CompletedIn(rs)|
    ensures ToArchive(rs, order, now) == sorted[..k]
    ensures TooOld(rs, now) <= SetOf(sorted[..k])
  {
    sorted := SortedCompleted(rs, order);
    OldPrefixIsTooOld(rs, sorted, now);
    LimitsMean(|sorted|, 0, now);
    SelectedIsPrefix(rs, sorted, |sorted|, Excess(|sorted|), RetentionThreshold(now));
    var stale := OldPrefix(rs, sorted, RetentionThreshold(now));
    k := Max(Excess(|sorted|), stale);
    assert sorted[..stale] <= sorted[..k];
    PrefixSubset(sorted[..stale], sorted[..k]);
  }

  lemma PrefixSubset<T>(s: seq<T>, t: seq<T>)
    requires s <= t
    ensures SetOf(s) <= SetOf(t)
  {
    forall x | x in s ensures x in t {
      var i :| 0 <= i < |s| && s[i] == x;
      assert t[i] == x;
    }
  }

  /** A prefix of the sorted ids is older than everything behind it. */
  lemma PrefixIsOldest(rs: Records, sorted: seq<string>, k: nat, a: string, b: string)
    requires SortedByTime(rs, sorted) && k <= |sorted|
    requires a in SetOf(sorted[..k]) && b in SetOf(sorted) - SetOf(sorted[..k])
    ensures Updated(rs, a) <= Updated(rs, b)
    ensures Before(sorted, a, b)
  {
    var i :| 0 <= i < k && sorted[..k][i] == a;
    var j :| 0 <= j < |sorted| && sorted[j] == b;
    assert forall n :: 0 <= n < k ==> sorted[n] == sorted[..k][n] && sorted[n] in SetOf(sorted[..k]);
  }

  /** The records in `removed` are older than the other completed ones, or as old and earlier in `order`. */
  ghost predicate Oldest(rs: Records, order: seq<string>, removed: set<string>)
    requires removed <= CompletedIn(rs)
  {
    forall a, b :: a in removed && b in CompletedIn(rs) - removed ==>
      rs[a].lastUpdated < rs[b].lastUpdated || (rs[a].lastUpdated == rs[b].lastUpdated && Before(order, a, b))
  }

  /** Archiving removes completed records only, the oldest ones and among equally old ones the first
      in iteration order, exactly as many as the limit of ten thousand records and the ninety days
      require, and reports their number. */
  lemma ArchiveCorrect(rs: Records, order: seq<string>, now: u64) returns (removed: set<string>)
    requires Enumerates(order, rs)
    ensures var (kept, n) := ArchiveOldDeploymentRecords(rs, order, now);
            && kept == rs - removed
            && n == |removed| == Max(Surplus(|CompletedIn(rs)|), |TooOld(rs, now)|)
            && removed <= CompletedIn(rs)
            && Oldest(rs, order, removed)
            && |CompletedIn(kept)| <= 10_000
            && TooOld(kept, now) == {}
  {
    hide ToArchive, RemoveAll, Enumerates, SortedByTime, StableIn, Before, Oldest;
    var sorted, k := ToArchiveContent(rs, order, now);
    var ids := ToArchive(rs, order, now);
    removed := SetOf(ids);
    PrefixSubset(ids, sorted);
    RemoveAllContent(rs, ids);
    DistinctCardinality(ids);
    OldestPrefix(rs, order, sorted, k);
    assert CompletedIn(rs - removed) == CompletedIn(rs) - removed;
    assert TooOld(rs - removed, now) == TooOld(rs, now) - removed;
  }

  lemma OldestPrefix(rs: Records, order: seq<string>, sorted: seq<string>, k: nat)
    requires SortedByTime(rs, sorted) && StableIn(rs, sorted, order) && SetOf(sorted) == CompletedIn(rs) && k <= |sorted|
    ensures SetOf(sorted[..k]) <= CompletedIn(rs) && Oldest(rs, order, SetOf(sorted[..k]))
  {
    PrefixSubset(sorted[..k], sorted);
    forall a, b | a in SetOf(sorted[..k]) && b in CompletedIn(rs) - SetOf(sorted[..k])
      ensures rs[a].lastUpdated < rs[b].lastUpdated || (rs[a].lastUpdated == rs[b].lastUpdated && Before(order, a, b))
    {
      PrefixIsOldest(rs, sorted, k, a, b);
      var i, j :| 0 <= i < j < |sorted| && sorted[i] == a && sorted[j] == b;
    }
  }

  /** A second run at the same time finds nothing to do. */
  lemma ArchiveTwice(rs: Records, order: seq<string>, order': seq<string>, now: u64)
    requires Enumerates(order, rs)
    requires Enumerates(order', ArchiveOldDeploymentRecords(rs, order, now).0)
    ensures var kept := ArchiveOldDeploymentRecords(rs, order, now).0;
            ArchiveOldDeploymentRecords(kept, order', now) == (kept, 0)
  {
    var first := ArchiveCorrect(rs, order, now);
    var kept := ArchiveOldDeploymentRecords(rs, order, now).0;
    var second := ArchiveCorrect(kept, order', now);
    assert second == {};
    assert kept - second == kept;
  }
}
