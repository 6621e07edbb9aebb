/** The in-memory deployment records: ID generation, pruning and clearing. */
module DeploymentRecords {
  import opened DeploymentStatus
  import opened Sorting
  import opened Decimal

  /** A stored deployment; timestamps are abstract numbers. */
  datatype Record = Record(id: string, appID: string, status: Status, createdAt: int)

  type Records = map<string, Record>

  /** Records are filed under their own ID. */
  ghost predicate Filed(rs: Records) {
    forall k :: k in rs ==> rs[k].id == k
  }

  /* ---- IDs ---- */

  /** The largest number scanned from the application's IDs, and 0 if none is positive. */
  ghost predicate IsHighest(rs: Records, appID: string, m: int) {
    && 0 <= m <= MAX_INT
    && (forall k :: k in rs && rs[k].appID == appID ==> Scan(rs[k].id) <= m)
    && (m == 0 || exists k :: k in rs && rs[k].appID == appID && Scan(rs[k].id) == m)
  }

  function IDFor(m: int): string {
    Format(Increment(m), 4)
  }

  ghost predicate Taken(rs: Records, appID: string, id: string) {
    exists k :: k in rs && rs[k].appID == appID && rs[k].id == id
  }

  /** The next ID is new for the application in every state, whatever was pruned or cleared before,
      except when the 64-bit counter wraps around onto an ID that is already there. */
  lemma NextIDIsFresh(rs: Records, appID: string, m: int)
    requires IsHighest(rs, appID, m)
    ensures Taken(rs, appID, IDFor(m)) <==> m == MAX_INT && Taken(rs, appID, Format(MIN_INT, 4))
  {
    if m < MAX_INT {
      ScanUndoesFormat(m + 1, 4);
    }
  }

  /** IDs count up from "0001". */
  lemma FirstIDs()
    ensures IDFor(0) == "0001" && IsHighest(map[], "app-001", 0)
  {
    PaddedSamples();
  }

  /** The wrap-around does collide. */
  lemma WrappedIDCollides(appID: string) returns (rs: Records)
    ensures Filed(rs) && IsHighest(rs, appID, MAX_INT) && Taken(rs, appID, IDFor(MAX_INT))
  {
    var top, wrapped := Format(MAX_INT, 4), Format(MIN_INT, 4);
    ScanUndoesFormat(MAX_INT, 4);
    ScanUndoesFormat(MIN_INT, 4);
    rs := map[top := Record(top, appID, Success, 0), wrapped := Record(wrapped, appID, Success, 1)];
    assert top in rs && wrapped in rs && rs[wrapped].id == wrapped;
  }

  /** The ID is not new across applications: two idle applications are given the same first ID. */
  lemma IDsAreSharedAcrossApps(rs: Records, appID: string, other: string, m: int)
    requires IsHighest(rs, appID, m) && IsHighest(rs, other, m)
    requires appID != other && m < MAX_INT
    ensures var r := Record(IDFor(m), other, Queued, 0);
            !Taken(rs, other, r.id) && Taken(rs[r.id := r], other, IDFor(m)) && IsHighest(rs[r.id := r], other, m + 1)
  {
    NextIDIsFresh(rs, other, m);
    ScanUndoesFormat(m + 1, 4);
    var r := Record(IDFor(m), other, Queued, 0);
    var t := rs[r.id := r];
    assert r.id in t && t[r.id] == r;
  }

  /* ---- the sorted listing ---- */

  predicate Newer(a: Record, b: Record) {
    a.createdAt > b.createdAt
  }

  ghost predicate Member(rs: Records, appID: string, r: Record) {
    r.id in rs && rs[r.id] == r && r.appID == appID
  }

  /** Exactly the application's records, each once. */
  ghost predicate ListsApp(list: seq<Record>, rs: Records, appID: string) {
    && (forall r :: r in list <==> Member(rs, appID, r))
    && (forall i, j :: 0 <= i < j < |list| ==> list[i] != list[j])
  }

  function IDsOf(list: seq<Record>): (ids: set<string>)
    ensures forall k :: k in ids <==> exists r :: r in list && r.id == k
  {
    set r | r in list :: r.id
  }

  ghost function AppIDs(rs: Records, appID: string): set<string> {
    set k | k in rs && rs[k].appID == appID
  }

  lemma {:induction false} DistinctIDs(list: seq<Record>)
    requires forall i, j :: 0 <= i < j < |list| ==> list[i].id != list[j].id
    ensures |IDsOf(list)| == |list|
  {
    if list != [] {
      var n := |list| - 1;
      DistinctIDs(list[..n]);
      assert IDsOf(list) == IDsOf(list[..n]) + {list[n].id} by {
        assert list == list[..n] + [list[n]];
      }
      assert list[n].id !in IDsOf(list[..n]);
    }
  }

  lemma SortedListing(list: seq<Record>, rs: Records, appID: string)
    requires ListsApp(list, rs, appID)
    ensures SortedBy(Newer, Sort(Newer, list)) && ListsApp(Sort(Newer, list), rs, appID)
  {
    var s := Sort(Newer, list);
    SortSorts(Newer, list);
    forall r ensures r in s <==> r in list {
      assert r in s <==> r in multiset(s);
      assert r in list <==> r in multiset(list);
    }
    DistinctFromBag(list, s);
  }

  lemma DistinctFromBag(list: seq<Record>, s: seq<Record>)
    requires multiset(list) == multiset(s)
    requires forall i, j :: 0 <= i < j < |list| ==> list[i] != list[j]
    ensures forall i, j :: 0 <= i < j < |s| ==> s[i] != s[j]
  {
    forall i, j | 0 <= i < j < |s| ensures s[i] != s[j] {
      AtMostOnce(list, s[i]);
      assert s == s[..j] + [s[j]] + s[j + 1..];
      assert s[i] in s[..j];
      assert s[i] in multiset(s[..j]);
    }
  }

  lemma {:induction false} AtMostOnce(list: seq<Record>, r: Record)
    requires forall i, j :: 0 <= i < j < |list| ==> list[i] != list[j]
    ensures multiset(list)[r] <= 1
  {
    if list != [] {
      var n := |list| - 1;
      AtMostOnce(list[..n], r);
      assert list == list[..n] + [list[n]];
      if list[n] == r {
        assert r !in list[..n];
      }
    }
  }

  /* ---- the store ---- */

  class Store {
    var deployments: Records

    ghost predicate Valid()
      reads this
    {
      Filed(deployments)
    }

    constructor ()
      ensures Valid() && deployments == map[]
    {
      deployments := map[];
    }

    method NextDeploymentID(appID: string) returns (id: string)
      ensures exists m :: IsHighest(deployments, appID, m) && id == IDFor(m)
    {
      var max := 0;
      var todo := deployments.Keys;
      while todo != {}
        invariant todo <= deployments.Keys
        invariant 0 <= max <= MAX_INT
        invariant forall k :: k in deployments && k !in todo && deployments[k].appID == appID ==> Scan(deployments[k].id) <= max
        invariant max == 0 || exists k :: k in deployments && deployments[k].appID == appID && Scan(deployments[k].id) == max
        decreases todo
      {
        var k :| k in todo;
        todo := todo - {k};
        var dep := deployments[k];
        if dep.appID != appID {
          continue;
        }
        var n := Scan(dep.id);
        if n > max {
          max := n;
        }
      }
      assert IsHighest(deployments, appID, max);
      id := IDFor(max);
    }

    method ListByApp(appID: string) returns (list: seq<Record>)
      requires Valid()
      ensures SortedBy(Newer, list) && ListsApp(list, deployments, appID)
    {
      list := [];
      var todo := deployments.Keys;
      while todo != {}
        invariant todo <= deployments.Keys
        invariant forall r :: r in list <==> Member(deployments, appID, r) && r.id !in todo
        invariant forall i, j :: 0 <= i < j < |list| ==> list[i] != list[j]
        decreases todo
      {
        var k :| k in todo;
        todo := todo - {k};
        var dep := deployments[k];
        if dep.appID == appID {
          assert dep !in list;
          list := list + [dep];
        }
      }
      SortedListing(list, deployments, appID);
      list := Sort(Newer, list);
    }

    /** Exactly `min(n, maxKeep)` of the application's records stay, none older than a removed one; other
        applications' records stay as they are. A limit of zero or less prunes nothing. */
    method PruneOldDeployments(appID: string, maxKeep: int)
      requires Valid()
      modifies this
      ensures Valid()
      ensures forall k :: k in deployments ==> k in old(deployments) && deployments[k] == old(deployments)[k]
      ensures forall k :: k in old(deployments) && old(deployments)[k].appID != appID ==> k in deployments
      ensures maxKeep <= 0 ==> deployments == old(deployments)
      ensures maxKeep > 0 ==>
                var n := |AppIDs(old(deployments), appID)|;
                |AppIDs(deployments, appID)| == if n <= maxKeep then n else maxKeep
      ensures forall k, d :: k in AppIDs(deployments, appID) && d in old(deployments).Keys - deployments.Keys
                ==> old(deployments)[d].createdAt <= deployments[k].createdAt
    {
      if maxKeep <= 0 {
        return;
      }
      var list := ListByApp(appID);
      ListCount(list, deployments, appID);
      if |list| <= maxKeep {
        return;
      }
      for i := maxKeep to |list|
        invariant deployments == old(deployments) - IDsOf(list[maxKeep..i])
      {
        assert list[maxKeep..i + 1] == list[maxKeep..i] + [list[i]];
        assert IDsOf(list[maxKeep..i + 1]) == IDsOf(list[maxKeep..i]) + {list[i].id};
        deployments := deployments - {list[i].id};
      }
      assert list[maxKeep..|list|] == list[maxKeep..];
      PruneEffect(old(deployments), deployments, appID, list, maxKeep);
    }

    /** Exactly the application's failed and cancelled records go, and their number is returned. */
    method ClearFailedDeployments(appID: string) returns (deleted: nat)
      requires Valid()
      modifies this
      ensures Valid()
      ensures deployments == old(deployments) - FailedIDs(old(deployments), appID)
      ensures deleted == |FailedIDs(old(deployments), appID)|
      ensures forall k :: k in deployments <==> (
        k in old(deployments)
        && !(old(deployments)[k].appID == appID && (old(deployments)[k].status == Failed || old(deployments)[k].status == Cancelled)))
      ensures forall k :: k in deployments ==> deployments[k] == old(deployments)[k]
    {
      hide SortedBy, ListsApp, AppIDs, IDsOf, FailedIDs, FailedOf;
      var list := ListByApp(appID);
      ListCount(list, deployments, appID);
      ghost var before := deployments;
      NoneFailed();
      assert list[..0] == [];
      deleted := 0;
      for i := 0 to |list|
        invariant deployments == before - FailedOf(list[..i])
        invariant deleted == |FailedOf(list[..i])|
      {
        var dep := list[i];
        FailedOfNext(list, i);
        assert before - FailedOf(list[..i]) - {dep.id} == before - (FailedOf(list[..i]) + {dep.id});
        if dep.status == Failed || dep.status == Cancelled {
          deployments := deployments - {dep.id};
          deleted := deleted + 1;
        }
      }
      assert list[..|list|] == list;
      FailedOfAll(list, before, appID);
      FailedIDsIff(before, appID);
    }
  }

  function FailedOf(list: seq<Record>): set<string> {
    set r | r in list && r.status in {Failed, Cancelled} :: r.id
  }

  lemma NoneFailed()
    ensures FailedOf([]) == {}
  {
  }

  lemma FailedOfNext(list: seq<Record>, i: nat)
    requires i < |list|
    requires forall i, j :: 0 <= i < j < |list| ==> list[i].id != list[j].id
    ensures list[i].status in {Failed, Cancelled} ==>
              list[i].id !in FailedOf(list[..i]) && FailedOf(list[..i + 1]) == FailedOf(list[..i]) + {list[i].id}
    ensures list[i].status !in {Failed, Cancelled} ==> FailedOf(list[..i + 1]) == FailedOf(list[..i])
  {
    assert list[..i + 1] == list[..i] + [list[i]];
  }

  lemma FailedOfAll(list: seq<Record>, rs: Records, appID: string)
    requires Filed(rs) && ListsApp(list, rs, appID)
    ensures FailedOf(list) == FailedIDs(rs, appID)
  {
    forall k | k in FailedIDs(rs, appID) ensures k in FailedOf(list) {
      assert Member(rs, appID, rs[k]);
      assert rs[k] in list;
    }
  }

  ghost function FailedIDs(rs: Records, appID: string): set<string> {
    set k | k in rs && rs[k].appID == appID && rs[k].status in {Failed, Cancelled}
  }

  lemma FailedIDsIff(rs: Records, appID: string)
    ensures forall k :: k in FailedIDs(rs, appID) <==> (
      k in rs && rs[k].appID == appID && (rs[k].status == Failed || rs[k].status == Cancelled))
  {
  }

  lemma ListCount(list: seq<Record>, rs: Records, appID: string)
    requires Filed(rs) && ListsApp(list, rs, appID)
    ensures IDsOf(list) == AppIDs(rs, appID) && |list| == |AppIDs(rs, appID)|
    ensures forall i, j :: 0 <= i < j < |list| ==> list[i].id != list[j].id
  {
    forall i, j | 0 <= i < j < |list| ensures list[i].id != list[j].id {
      assert list[i] in list && list[j] in list;
    }
    DistinctIDs(list);
    forall k | k in AppIDs(rs, appID) ensures k in IDsOf(list) {
      assert Member(rs, appID, rs[k]);
      assert rs[k] in list;
    }
  }

  lemma PruneEffect(before: Records, after: Records, appID: string, list: seq<Record>, keep: nat)
    requires Filed(before) && ListsApp(list, before, appID) && SortedBy(Newer, list)
    requires keep <= |list| && after == before - IDsOf(list[keep..])
    ensures AppIDs(after, appID) == IDsOf(list[..keep]) && |AppIDs(after, appID)| == keep
    ensures forall k :: k in before && before[k].appID != appID ==> k in after
    ensures forall k, d :: k in AppIDs(after, appID) && d in before.Keys - after.Keys ==> before[d].createdAt <= after[k].createdAt
  {
    hide SortedBy;
    ListCount(list, before, appID);
    var kept, dropped := list[..keep], list[keep..];
    assert list == kept + dropped;
    DistinctIDs(kept);
    forall k ensures k in AppIDs(after, appID) <==> k in IDsOf(kept) {
      if k in IDsOf(kept) {
        var i :| 0 <= i < keep && list[i].id == k;
        assert list[i] in list;
      }
      if k in AppIDs(after, appID) {
        assert k in IDsOf(list);
      }
    }
    forall k | k in before && before[k].appID != appID ensures k in after {
      forall r | r in dropped ensures r.id != k {
        assert r in list;
      }
    }
    forall k, d | k in AppIDs(after, appID) && d in before.Keys - after.Keys ensures before[d].createdAt <= after[k].createdAt {
      KeptIsNewer(before, appID, list, keep, k, d);
    }
  }

  lemma KeptIsNewer(before: Records, appID: string, list: seq<Record>, keep: nat, k: string, d: string)
    requires Filed(before) && ListsApp(list, before, appID) && SortedBy(Newer, list)
    requires keep <= |list| && k in IDsOf(list[..keep]) && d in IDsOf(list[keep..])
    ensures k in before && d in before && before[d].createdAt <= before[k].createdAt
  {
    var i :| 0 <= i < keep && list[i].id == k;
    var j :| keep <= j < |list| && list[j].id == d;
    assert list[i] in list && list[j] in list;
    assert !Newer(list[j], list[i]);
  }
}
