/** The application service: an in-memory map of applications with a record per application on disk. */
module AppService {
  import opened Options
  import opened Text
  import opened Applications
  import opened CrashDisk
  import Decimal
  import RouteTable

  type Apps = map<string, Application>

  const RECORD := "application.json"

  /** Every application has its own directory, named by its ID. */
  function RecordPath(id: string): Path {
    Path(id, RECORD)
  }

  lemma RecordIsNotTemp(id: string)
    ensures !IsTemp(RecordPath(id))
  {
    PrefixAt(RECORD, TEMP_PREFIX, 0);
  }

  /** The store refuses paths that contain two dots in a row. */
  predicate HasDots(id: string) {
    exists i :: 0 <= i < |id| - 1 && id[i] == '.' && id[i + 1] == '.'
  }

  /** The ID stands for one directory below "applications". */
  predicate FileName(id: string) {
    '/' !in id && id != "."
  }

  /** Directory entries that start with a dot are skipped on loading. */
  predicate Hidden(id: string) {
    HasPrefix(id, ".")
  }

  function ManagedLabels(a: Application): map<string, string> {
    map["liteploy.app_id" := a.id, "liteploy.app_name" := a.name, "liteploy.managed" := "true"]
  }

  /** ASCII case folding, which is all that valid names need. */
  predicate EqualFold(a: string, b: string) {
    ToLower(a) == ToLower(b)
  }

  predicate SameService(a: Application, b: Application) {
    a.projectID != "" && a.projectID == b.projectID && EqualFold(a.name, b.name)
  }

  /* ---- what the map promises ---- */

  predicate HasLabel(a: Application, key: string, value: string) {
    key in a.labels && a.labels[key] == value
  }

  ghost predicate IDLabelled(a: Application) {
    HasLabel(a, "liteploy.app_id", a.id) && HasLabel(a, "liteploy.managed", "true")
  }

  /** The label for the name can go wrong; see `CallKeepsLabels`. */
  ghost predicate NameLabelled(a: Application) {
    HasLabel(a, "liteploy.app_name", a.name)
  }

  ghost predicate WellLabelled(m: Apps) {
    forall id :: id in m ==> NameLabelled(m[id])
  }

  ghost predicate GoodRecord(id: string, a: Application) {
    a.id == id && FileName(id) && !HasDots(id) && a.serviceType != "" && ValidApplication(a) && IDLabelled(a)
  }

  ghost predicate UniqueNames(m: Apps) {
    forall i, j :: i in m && j in m && i != j ==> !SameService(m[i], m[j])
  }

  ghost predicate WellKept(m: Apps) {
    (forall id :: id in m ==> GoodRecord(id, m[id])) && UniqueNames(m)
  }

  /** Worker and internal applications have no domains, names are unique within a project, and the labels
      by which containers are found again name the application. */
  lemma WellKeptMeans(m: Apps)
    requires WellKept(m)
    ensures forall id :: id in m && m[id].serviceType in {"worker", "internal"} ==> m[id].domains == []
    ensures forall i, j :: i in m && j in m && i != j && m[i].projectID == m[j].projectID != "" ==> ToLower(m[i].name) != ToLower(m[j].name)
    ensures forall id :: id in m ==> HasLabel(m[id], "liteploy.app_id", id) && HasLabel(m[id], "liteploy.managed", "true")
  {
    hide ValidApplication, ToLower, HasDots, FileName, HasLabel;
    forall id | id in m
      ensures m[id].serviceType in {"worker", "internal"} ==> m[id].domains == []
      ensures HasLabel(m[id], "liteploy.app_id", id) && HasLabel(m[id], "liteploy.managed", "true")
    {
      RecordMeans(id, m[id]);
    }
    forall i, j | i in m && j in m && i != j && m[i].projectID == m[j].projectID != ""
      ensures ToLower(m[i].name) != ToLower(m[j].name)
    {
      assert !SameService(m[i], m[j]);
    }
  }

  lemma RecordMeans(id: string, a: Application)
    requires GoodRecord(id, a)
    ensures a.serviceType in {"worker", "internal"} ==> a.domains == []
    ensures HasLabel(a, "liteploy.app_id", id) && HasLabel(a, "liteploy.managed", "true")
  {
    hide ValidName, ValidEntry, HasDots, FileName, HasLabel;
  }

  predicate NameTaken(m: Apps, a: Application) {
    exists id :: id in m && id != a.id && SameService(m[id], a)
  }

  /** A name is taken by another application of the same project, in any letter case. */
  lemma NameTakenIff(m: Apps, a: Application)
    ensures NameTaken(m, a) <==>
              && |a.projectID| > 0
              && exists id :: id in m.Keys - {a.id} && m[id].projectID == a.projectID && ToLower(m[id].name) == ToLower(a.name)
  {
    hide ToLower;
    if NameTaken(m, a) {
      var id :| id in m && id != a.id && SameService(m[id], a);
      assert id in m.Keys - {a.id};
    }
    forall id | id in m.Keys - {a.id} && m[id].projectID == a.projectID && ToLower(m[id].name) == ToLower(a.name)
      ensures SameService(m[id], a) <==> a.projectID != ""
    {
    }
  }

  lemma HasDotsIff(id: string)
    ensures HasDots(id) <==> exists x, y :: id == x + ".." + y
  {
    if HasDots(id) {
      var i :| 0 <= i < |id| - 1 && id[i] == '.' && id[i + 1] == '.';
      assert id == id[..i] + ".." + id[i + 2..];
    }
    forall x, y | id == x + ".." + y ensures HasDots(id) {
      assert id[|x|] == '.' && id[|x| + 1] == '.';
    }
  }

  lemma AddedStaysWellKept(m: Apps, a: Application)
    requires WellKept(m) && GoodRecord(a.id, a) && !NameTaken(m, a)
    ensures WellKept(m[a.id := a])
  {
    hide GoodRecord;
  }

  /* ---- the map on disk ---- */

  function SightOf(m: Apps, id: string): Sight<Application> {
    if id in m then Contents(Some(m[id])) else Absent
  }

  /** With `k` directory changes kept, the records on the disk are exactly those of the map. */
  ghost predicate Holds(img: Image<Application>, k: nat, m: Apps)
    requires k <= |img.pending|
  {
    forall id :: Sees(img, k, RecordPath(id)) == SightOf(m, id)
  }

  /** What a restart can see of a map. */
  function Visible(m: Apps): Apps {
    map id | id in m && !Hidden(id) :: m[id]
  }

  /** `saved` is the history of the disk: one map for every number of directory changes a crash may keep. */
  ghost predicate Tracks(img: Image<Application>, saved: seq<Apps>) {
    && |saved| == |img.pending| + 1
    && (forall k :: 0 <= k < |saved| ==> Holds(img, k, saved[k]))
    && (forall k :: 0 <= k < |saved| ==> WellKept(Visible(saved[k])))
  }

  function Last(saved: seq<Apps>): Apps
    requires saved != []
  {
    saved[|saved| - 1]
  }

  /** The history after some more directory changes, the last of which may have put `next` on the disk. */
  function Grown(saved: seq<Apps>, n: nat, next: Apps): (r: seq<Apps>)
    requires 0 < |saved| <= n
    ensures |r| == n
  {
    seq(n, k requires 0 <= k < n => if k < |saved| then saved[k] else if k < n - 1 then Last(saved) else next)
  }

  function Before(saved: seq<Apps>, k: nat): Apps
    requires saved != []
  {
    if k < |saved| then saved[k] else Last(saved)
  }

  /** After a crash the disk holds an earlier map, or the one that the interrupted call was saving. */
  ghost predicate CrashRecovers(img: Image<Application>, saved: seq<Apps>, next: Apps)
    requires saved != []
  {
    && Sound(img) && WellKept(Visible(next))
    && forall k: nat :: k <= |img.pending| ==> Holds(img, k, Before(saved, k)) || (k >= |saved| && Holds(img, k, next))
  }

  lemma HoldsFromSights(img: Image<Application>, k: nat, m: Apps, was: Image<Application>, j: nat, before: Apps, target: string)
    requires k <= |img.pending| && j <= |was.pending| && Holds(was, j, before)
    requires forall id :: id != target ==> SightOf(m, id) == SightOf(before, id)
    requires forall id :: id != target ==> Sees(img, k, RecordPath(id)) == Sees(was, j, RecordPath(id))
    requires Sees(img, k, RecordPath(target)) == SightOf(m, target)
    ensures Holds(img, k, m)
  {
    hide Sees, SightOf, RecordPath;
  }

  /** One write seen as a change of the map. */
  lemma ShownHolds(start: Image<Application>, now: Image<Application>, saved: seq<Apps>, a: Application, landed: bool, k: nat)
    requires Tracks(start, saved) && Shows(start, now, RecordPath(a.id), a, landed) && k <= |now.pending|
    ensures Holds(now, k, if landed && k == |now.pending| then Last(saved)[a.id := a] else Before(saved, k))
  {
    hide Sees, WellKept;
    var m := if landed && k == |now.pending| then Last(saved)[a.id := a] else Before(saved, k);
    var j := Min(k, |start.pending|);
    assert Holds(start, j, Before(saved, k));
    RecordIsNotTemp(a.id);
    forall id | id != a.id ensures Sees(now, k, RecordPath(id)) == Sees(start, j, RecordPath(id)) {
      RecordIsNotTemp(id);
      assert RecordPath(id) != RecordPath(a.id);
    }
    HoldsFromSights(now, k, m, start, j, Before(saved, k), a.id);
  }

  lemma CrashSafeRecovers(start: Image<Application>, now: Image<Application>, saved: seq<Apps>, a: Application)
    requires Tracks(start, saved) && CrashSafe(start, now, RecordPath(a.id), a)
    requires Sound(now) && WellKept(Visible(Last(saved)[a.id := a]))
    ensures CrashRecovers(now, saved, Last(saved)[a.id := a])
  {
    hide Holds, Shows, Sound, Visible, WellKept;
    var landed := !Shows(start, now, RecordPath(a.id), a, false);
    ShowsGrows(start, now, a, landed);
    forall k: nat | k <= |now.pending|
      ensures Holds(now, k, Before(saved, k)) || (k >= |saved| && Holds(now, k, Last(saved)[a.id := a]))
    {
      ShownHolds(start, now, saved, a, landed, k);
    }
  }

  lemma ShowsGrows(start: Image<Application>, now: Image<Application>, a: Application, landed: bool)
    requires Shows(start, now, RecordPath(a.id), a, landed)
    ensures |start.pending| <= |now.pending| && (landed ==> |start.pending| < |now.pending|)
  {
  }

  /** The history is kept up by a write, whether or not it succeeds. */
  lemma WriteTracks(start: Image<Application>, now: Image<Application>, saved: seq<Apps>, a: Application, ok: bool)
    requires Tracks(start, saved) && Shows(start, now, RecordPath(a.id), a, ok)
    requires ok ==> WellKept(Visible(Last(saved)[a.id := a]))
    ensures |saved| <= |now.pending| + 1
    ensures var r := Grown(saved, |now.pending| + 1, if ok then Last(saved)[a.id := a] else Last(saved));
      Tracks(now, r) && Last(r) == if ok then Last(saved)[a.id := a] else Last(saved)
  {
    hide Holds, Shows, WellKept, Visible;
    ShowsGrows(start, now, a, ok);
    var r := Grown(saved, |now.pending| + 1, if ok then Last(saved)[a.id := a] else Last(saved));
    forall k: nat | k < |r| ensures Holds(now, k, r[k]) {
      ShownHolds(start, now, saved, a, ok, k);
    }
  }

  /** A crash leaves a disk that holds one map of the history, or the one being saved. */
  lemma CrashLandsOnSavedMap(img: Image<Application>, saved: seq<Apps>, next: Apps, k: nat) returns (m: Apps)
    requires saved != [] && CrashRecovers(img, saved, next) && k <= |img.pending|
    requires forall i :: 0 <= i < |saved| ==> WellKept(Visible(saved[i]))
    ensures m == next || m in saved
    ensures k < |saved| ==> m == saved[k]
    ensures k >= |saved| ==> m in {Last(saved), next}
    ensures Sound(Rebooted(img, k)) && Tracks(Rebooted(img, k), [m])
  {
    hide WellKept, Visible;
    m := if Holds(img, k, Before(saved, k)) then Before(saved, k) else next;
    RebootSight(img, k);
    assert Holds(Rebooted(img, k), 0, m);
  }

  /* ---- the map and the disk together ---- */

  /** What no operation changes while an application exists. */
  predicate SameIdentity(a: Application, b: Application) {
    a.id == b.id && a.name == b.name && a.projectID == b.projectID && a.createdAt == b.createdAt
  }

  /** The disk may lag behind in status fields, and in applications whose removal was interrupted. */
  ghost predicate Behind(m: Apps, apps: Apps) {
    forall id :: id in m ==> id in apps && SameIdentity(m[id], apps[id])
  }

  /** An application keeps its creation time for as long as it exists. */
  ghost predicate Lasting(was: Apps, now: Apps) {
    forall id :: id in was && id in now ==> was[id].createdAt == now[id].createdAt
  }

  lemma VisibleUpdate(m: Apps, a: Application)
    ensures Visible(m[a.id := a]) == if Hidden(a.id) then Visible(m) else Visible(m)[a.id := a]
  {
  }

  /** An application that can be stored and is not seen again. */
  lemma HiddenApplicationIsLost() returns (m: Apps)
    ensures WellKept(m) && m != map[] && Visible(m) == map[]
  {
    var id := ".cron";
    var a := Application(id, "cron", "", "worker", Source(SourceKind.Image, "cron:1", true), [], 0, Created, "", "", "", "",
                         map[], 0, 0);
    m := map[id := WithManagedLabels(a)];
    assert ValidName("cron");
    assert !HasDots(id) && FileName(id);
    assert GoodRecord(id, m[id]);
    assert id in m && Hidden(id);
  }

  /** Saving what is now in the map keeps both sides well-kept and in step. */
  lemma SaveKeeps(apps: Apps, m: Apps, a: Application)
    requires WellKept(apps[a.id := a]) && WellKept(Visible(m))
    requires Behind(Visible(m), apps)
    ensures WellKept(Visible(m[a.id := a])) && Behind(Visible(m[a.id := a]), apps[a.id := a])
  {
    hide GoodRecord, Hidden, EqualFold;
    var t := apps[a.id := a];
    VisibleUpdate(m, a);
    var v := Visible(m[a.id := a]);
    forall id | id in v ensures GoodRecord(id, v[id]) && id in t && SameIdentity(v[id], t[id]) {
      assert id == a.id ==> GoodRecord(id, t[id]) && v[id] == t[id];
      assert id != a.id ==> id in Visible(m) && v[id] == Visible(m)[id];
    }
    forall i, j | i in v && j in v && i != j ensures !SameService(v[i], v[j]) {
      assert !SameService(t[i], t[j]);
    }
  }

  /* ---- the service ---- */

  /** What the environment decides during one call. */
  datatype Env = Env(now: int, suffix: string, faults: Faults)

  /** How far the removal of a directory gets. */
  datatype Removal = Removal(unlinked: bool, complete: bool)

  function TempPath(id: string, env: Env): Path {
    Path(id, TEMP_PREFIX + env.suffix)
  }

  /** The record can be written. */
  predicate Writable(img: Image<Application>, id: string, env: Env) {
    var f := env.faults;
    !HasDots(id) && TempPath(id, env) !in Live(img) && f.create && f.write && f.chmod && f.sync && f.close && f.rename
  }

  function WithManagedLabels(a: Application): Application {
    a.(labels := a.labels + ManagedLabels(a))
  }

  function CreatedFrom(a: Application, now: int): Application {
    WithManagedLabels(Defaulted(a).(createdAt := now, updatedAt := now, status := Created))
  }

  function UpdatedFrom(a: Application, existing: Application, now: int): Application {
    WithManagedLabels(Defaulted(a).(createdAt := existing.createdAt, updatedAt := now))
  }

  function WithStatus(a: Application, status: AppStatus, containerID: string, now: int): Application {
    a.(status := status, containerID := if containerID != "" then containerID else a.containerID, updatedAt := now)
  }

  /** The record as the call sees it: a copy made by `Get` holds the stored record's own label map. */
  function Given(m: Apps, a: Application, shared: bool): Application {
    if shared && a.id in m then a.(labels := m[a.id].labels) else a
  }

  /** An update gets as far as writing the managed labels. */
  predicate Reaches(m: Apps, a: Application) {
    ValidApplication(a) && a.id in m && !NameTaken(m, a)
  }

  /** The stored record after the update's labels were written into its own label map. */
  function Relabelled(m: Apps, a: Application): Apps
    requires a.id in m
  {
    m[a.id := m[a.id].(labels := m[a.id].labels + ManagedLabels(a))]
  }

  predicate SameLabels(was: Application, a: Application) {
    forall l :: l in ManagedLabels(a) ==> HasLabel(was, l, ManagedLabels(a)[l])
  }

  lemma RelabelledKeeps(apps: Apps, m: Apps, a: Application)
    requires WellKept(apps) && a.id in apps && Behind(Visible(m), apps)
    ensures var t := Relabelled(apps, a);
      WellKept(t) && Behind(Visible(m), t) && Lasting(apps, t)
  {
    hide ValidName, ValidEntry, HasDots, FileName, EqualFold, Visible;
    var t := Relabelled(apps, a);
    IDsMatch(apps);
    assert GoodRecord(a.id, t[a.id]) by {
      assert GoodRecord(a.id, apps[a.id]);
    }
    forall i, j | i in t && j in t && i != j ensures !SameService(t[i], t[j]) {
      assert !SameService(apps[i], apps[j]);
    }
    forall i | i in t ensures GoodRecord(i, t[i]) {
      assert GoodRecord(i, apps[i]);
    }
  }

  lemma RelabelledThenSet(m: Apps, a: Application, b: Application)
    requires a.id in m && b.id == a.id && b.createdAt == m[a.id].createdAt
    ensures Relabelled(m, a)[b.id := b] == m[b.id := b] && Lasting(m, m[b.id := b])
  {
  }

  lemma SameLasting(m: Apps)
    ensures Lasting(m, m)
  {
  }

  lemma SameValidity(a: Application, b: Application)
    requires b == a.(labels := b.labels)
    ensures ValidApplication(a) <==> ValidApplication(b)
  {
    hide ValidName, ValidEntry;
  }

  lemma RelabelledIsSame(m: Apps, a: Application)
    requires a.id in m
    ensures Relabelled(m, a) == m <==> SameLabels(m[a.id], a)
  {
    var was, now := m[a.id].labels, m[a.id].labels + ManagedLabels(a);
    if SameLabels(m[a.id], a) {
      assert was == now;
    }
    if Relabelled(m, a) == m {
      assert Relabelled(m, a)[a.id] == m[a.id];
      forall l | l in ManagedLabels(a) ensures HasLabel(m[a.id], l, ManagedLabels(a)[l]) {
        assert now[l] == ManagedLabels(a)[l];
      }
    }
  }

  /** Of the managed labels only the name can differ. */
  lemma SameLabelsIff(was: Application, a: Application)
    requires was.id == a.id && IDLabelled(was)
    ensures SameLabels(was, a) <==> HasLabel(was, "liteploy.app_name", a.name)
    ensures NameLabelled(was) ==> (SameLabels(was, a) <==> was.name == a.name)
  {
    var ls := ManagedLabels(a);
    assert |"liteploy.app_id"| == 15 && |"liteploy.managed"| == 16 && |"liteploy.app_name"| == 17;
    assert ls["liteploy.app_id"] == a.id && ls["liteploy.managed"] == "true" && ls["liteploy.app_name"] == a.name;
    assert forall l :: l in ls <==> l in {"liteploy.app_id", "liteploy.app_name", "liteploy.managed"};
    assert SameLabels(was, a) ==> HasLabel(was, "liteploy.app_name", ls["liteploy.app_name"]);
  }

  /** The managed labels win over the caller's, which are otherwise kept. */
  lemma LabelsOverlaid(a: Application, l: string)
    ensures var b := WithManagedLabels(a);
      && b == a.(labels := b.labels)
      && HasLabel(b, "liteploy.app_id", a.id) && HasLabel(b, "liteploy.app_name", a.name) && HasLabel(b, "liteploy.managed", "true")
      && (l !in {"liteploy.app_id", "liteploy.app_name", "liteploy.managed"} ==>
            (l in b.labels <==> l in a.labels) && (l in a.labels ==> b.labels[l] == a.labels[l]))
  {
    assert |"liteploy.app_id"| == 15 && |"liteploy.managed"| == 16 && |"liteploy.app_name"| == 17;
  }

  /** A new record is the caller's, with the kind of service filled in and the labels overlaid, created and
      updated now. */
  lemma CreatedFields(a: Application, now: int)
    ensures var b := CreatedFrom(a, now);
      && b == a.(serviceType := b.serviceType, labels := b.labels, status := b.status, createdAt := b.createdAt, updatedAt := b.updatedAt)
      && b.serviceType == (if a.serviceType == "" then "web" else a.serviceType)
      && b.labels == WithManagedLabels(a).labels && b.createdAt == now && b.updatedAt == now && b.status == Created
  {
  }

  /** An updated record is the caller's, with the kind of service filled in and the labels overlaid, created
      when the old one was and updated now. */
  lemma UpdatedFields(m: Apps, a: Application, shared: bool, now: int)
    requires a.id in m
    ensures var b := UpdatedFrom(Given(m, a, shared), m[a.id], now);
      && b == a.(serviceType := b.serviceType, labels := b.labels, createdAt := b.createdAt, updatedAt := b.updatedAt)
      && b.serviceType == (if a.serviceType == "" then "web" else a.serviceType)
      && b.labels == WithManagedLabels(if shared then a.(labels := m[a.id].labels) else a).labels
      && b.createdAt == m[a.id].createdAt && b.updatedAt == now
  {
  }

  lemma StoredIsGood(a: Application)
    requires ValidApplication(a) && FileName(a.id) && !HasDots(a.id)
    ensures forall now :: GoodRecord(a.id, CreatedFrom(a, now))
    ensures forall now, e :: GoodRecord(a.id, UpdatedFrom(a, e, now))
  {
    hide ValidName, ValidEntry, HasDots, FileName;
  }

  /** The largest number in an "app-N" ID. */
  function ScanAppID(id: string): int {
    if HasPrefix(id, "app-") then Decimal.Scan(id[4..]) else 0
  }

  ghost predicate IsHighestApp(ids: set<string>, m: int) {
    && 0 <= m <= Decimal.MAX_INT
    && (forall id :: id in ids ==> ScanAppID(id) <= m)
    && (m == 0 || exists id :: id in ids && ScanAppID(id) == m)
  }

  function AppIDFor(m: int): string {
    "app-" + Decimal.Format(Decimal.Increment(m), 3)
  }

  lemma ScanAppIDOf(n: int)
    requires Decimal.Int64(n)
    ensures ScanAppID("app-" + Decimal.Format(n, 3)) == n
  {
    var s := "app-" + Decimal.Format(n, 3);
    Decimal.ScanUndoesFormat(n, 3);
    assert s[4..] == Decimal.Format(n, 3) && s[..4] == "app-";
  }

  /** A generated ID names no existing application, whatever was deleted before, except when the 64-bit
      counter wraps around onto an ID that is already there. */
  lemma GeneratedIDIsFresh(ids: set<string>, m: int)
    requires IsHighestApp(ids, m)
    ensures AppIDFor(m) in ids <==> m == Decimal.MAX_INT && "app-" + Decimal.Format(Decimal.MIN_INT, 3) in ids
  {
    hide ScanAppID, Decimal.Format;
    if m < Decimal.MAX_INT {
      ScanAppIDOf(m + 1);
    }
  }

  /** IDs count up from "app-001". */
  lemma FirstAppID()
    ensures IsHighestApp({}, 0) && AppIDFor(0) == "app-001" && AppIDFor(26) == "app-027"
  {
    Decimal.PaddedSamples();
  }

  /** An ID of any other form does not move the counter. */
  lemma OtherIDsDoNotCount(ids: set<string>, id: string, m: int)
    requires !HasPrefix(id, "app-")
    ensures IsHighestApp(ids + {id}, m) <==> IsHighestApp(ids, m)
  {
    hide HasPrefix, Decimal.Scan;
    assert ScanAppID(id) == 0;
    if IsHighestApp(ids, m) && m != 0 {
      var k :| k in ids && ScanAppID(k) == m;
      assert k in ids + {id};
    }
  }

  /** A generated ID can be stored, survives a restart and gives a dialable address. */
  lemma GeneratedIDIsUsable(ids: set<string>, m: int)
    requires IsHighestApp(ids, m)
    ensures var id := AppIDFor(m); FileName(id) && !HasDots(id) && !Hidden(id) && RouteTable.AddressText(id)
  {
    hide Decimal.Format;
    var n := Decimal.Increment(m);
    var d := Decimal.Format(n, 3);
    FormatChars(n, 3);
    var id := AppIDFor(m);
    assert id == "app-" + d;
    assert forall c :: c in id ==> c in "app-" || c in d;
    assert '.' !in id && id[0] == 'a';
  }

  lemma FormatChars(n: int, width: int)
    ensures forall c :: c in Decimal.Format(n, width) ==> IsDigit(c) || c == '-'
  {
    hide Decimal.Padded;
    if n < 0 {
      Decimal.PaddedValue(-n, width - 1);
    } else {
      Decimal.PaddedValue(n, width);
    }
  }

  /** A record that is new or replaces one with the same creation time may be saved. */
  lemma SavePlan(apps: Apps, m: Apps, a: Application)
    requires WellKept(apps) && WellKept(Visible(m)) && Behind(Visible(m), apps)
    requires GoodRecord(a.id, a) && !NameTaken(apps, a)
    ensures WellKept(apps[a.id := a])
    ensures WellKept(Visible(m[a.id := a])) && Behind(Visible(m[a.id := a]), apps[a.id := a])
  {
    AddedStaysWellKept(apps, a);
    SaveKeeps(apps, m, a);
  }

  lemma SameNameTaken(apps: Apps, a: Application, b: Application)
    requires a.id == b.id && a.name == b.name && a.projectID == b.projectID
    ensures NameTaken(apps, a) == NameTaken(apps, b)
  {
    hide EqualFold;
    if NameTaken(apps, a) {
      var id :| id in apps && id != a.id && SameService(apps[id], a);
      assert SameService(apps[id], b);
    }
    if NameTaken(apps, b) {
      var id :| id in apps && id != a.id && SameService(apps[id], b);
      assert SameService(apps[id], a);
    }
  }

  lemma IDsMatch(apps: Apps)
    requires WellKept(apps)
    ensures forall id :: id in apps ==> apps[id].id == id
  {
  }

  lemma IDIsUsable(apps: Apps, id: string)
    requires WellKept(apps) && id in apps
    ensures FileName(id) && !HasDots(id)
  {
    assert GoodRecord(id, apps[id]);
  }

  lemma SkippedSaveKeeps(apps: Apps, m: Apps, a: Application)
    requires Behind(Visible(m), apps) && a.id in apps && SameIdentity(apps[a.id], a)
    ensures Behind(Visible(m), apps[a.id := a])
  {
  }

  lemma DottedIsNotWritable(img: Image<Application>, id: string, env: Env)
    ensures HasDots(id) ==> !Writable(img, id, env)
  {
  }

  lemma TracksLength(img: Image<Application>, saved: seq<Apps>)
    requires Tracks(img, saved)
    ensures |saved| == |img.pending| + 1 && WellKept(Visible(Last(saved)))
  {
  }

  /** A record is written exactly when its path is acceptable, its temporary name is free, and no call fails. */
  lemma WritableIff(img: Image<Application>, id: string, env: Env)
    ensures Writable(img, id, env) <==>
              && !(exists x, y :: id == x + ".." + y)
              && Path(id, ".liteploy-tmp-" + env.suffix) !in Live(img)
              && env.faults == Faults(true, true, true, true, true, true, env.faults.cleanup)
  {
    HasDotsIff(id);
  }

  lemma TempIsTemp(id: string, env: Env)
    ensures IsTemp(TempPath(id, env))
  {
  }

  lemma StatusKeeps(apps: Apps, id: string, status: AppStatus, containerID: string, now: int)
    requires WellKept(apps) && id in apps
    ensures WellKept(apps[id := WithStatus(apps[id], status, containerID, now)])
  {
    hide ValidName, ValidEntry, HasDots, FileName, EqualFold;
    var b := WithStatus(apps[id], status, containerID, now);
    assert GoodRecord(id, b) by {
      assert GoodRecord(id, apps[id]);
    }
    var t := apps[id := b];
    forall i, j | i in t && j in t && i != j ensures !SameService(t[i], t[j]) {
      assert !SameService(apps[i], apps[j]);
    }
    forall i | i in t ensures GoodRecord(i, t[i]) {
      assert GoodRecord(i, apps[i]);
    }
  }

  lemma RemovalKeeps(apps: Apps, m: Apps, id: string)
    requires WellKept(apps) && WellKept(Visible(m)) && Behind(Visible(m), apps)
    ensures WellKept(apps - {id}) && WellKept(Visible(m - {id}))
    ensures Behind(Visible(m - {id}), apps - {id}) && Behind(Visible(m - {id}), apps)
  {
    hide GoodRecord, Hidden, SameService;
    assert Visible(m - {id}) == Visible(m) - {id};
  }

  lemma RemovalTracks(img: Image<Application>, done: Image<Application>, saved: seq<Apps>, id: string)
    requires Sound(img) && Tracks(img, saved) && WellKept(Visible(Last(saved) - {id}))
    requires done == img.(pending := img.pending + [Unlink(RecordPath(id))])
    ensures Sound(done) && Tracks(done, saved + [Last(saved) - {id}])
  {
    hide WellKept, Sees, Visible, Sound;
    UnlinkedSight(img, done, RecordPath(id));
    var r := saved + [Last(saved) - {id}];
    forall k: nat | k < |r| ensures Holds(done, k, r[k]) {
      if k < |saved| {
        assert Holds(img, k, saved[k]);
      } else {
        assert Holds(img, |img.pending|, Last(saved));
        forall i ensures Sees(done, k, RecordPath(i)) == SightOf(r[k], i) {
          assert Sees(img, |img.pending|, RecordPath(i)) == SightOf(Last(saved), i);
          assert i != id ==> RecordPath(i) != RecordPath(id);
        }
      }
    }
  }

  lemma TracksRecovers(img: Image<Application>, saved: seq<Apps>, next: Apps)
    requires Sound(img) && saved != [] && Tracks(img, saved + [next])
    ensures CrashRecovers(img, saved, next)
  {
    hide Sound, Holds, WellKept, Visible;
    var r := saved + [next];
    assert r[|saved|] == next;
    forall k: nat | k <= |img.pending| ensures Holds(img, k, Before(saved, k)) || (k >= |saved| && Holds(img, k, next)) {
      assert Holds(img, k, r[k]);
    }
  }

  /** Loading over a map that the disk lags behind changes no identity. */
  lemma MergeKeeps(apps: Apps, v: Apps)
    requires WellKept(apps) && WellKept(v) && Behind(v, apps)
    ensures WellKept(apps + v) && Behind(v, apps + v) && Lasting(apps, apps + v)
  {
    hide GoodRecord, EqualFold;
    var t := apps + v;
    assert t.Keys == apps.Keys;
    forall i, j | i in t && j in t && i != j ensures !SameService(t[i], t[j]) {
      assert !SameService(apps[i], apps[j]);
    }
  }

  function Restrict(m: Apps, ids: set<string>): Apps {
    map id | id in m && id in ids :: m[id]
  }

  lemma NoneRestricted(m: Apps)
    ensures Restrict(m, {}) == map[]
  {
  }

  lemma LoadedID(m: Apps, id: string)
    requires WellKept(Visible(m)) && id in m && !Hidden(id)
    ensures m[id].id == id
  {
    IDsMatch(Visible(m));
    assert Visible(m)[id] == m[id];
  }

  lemma EntryLoaded(img: Image<Application>, m: Apps, was: Apps, seen: set<string>, entry: string)
    requires Holds(img, |img.pending|, m) && WellKept(Visible(m))
    ensures Sees(img, |img.pending|, RecordPath(entry)) == SightOf(m, entry)
    ensures var v, t := Restrict(Visible(m), seen), Restrict(Visible(m), seen + {entry});
      if entry in m && !Hidden(entry) then m[entry].id == entry && was + t == (was + v)[entry := m[entry]] else t == v
  {
    hide Sees, WellKept, Hidden;
    if entry in m && !Hidden(entry) {
      LoadedID(m, entry);
    }
  }

  /** Every record lies in a directory that the listing shows. */
  lemma AllSeen(img: Image<Application>, m: Apps, entries: set<string>)
    requires Holds(img, |img.pending|, m)
    requires entries == set p | p in Live(img) :: p.dir
    ensures Restrict(Visible(m), entries) == Visible(m)
  {
    forall id | id in m ensures id in entries {
      assert Sees(img, |img.pending|, RecordPath(id)) == SightOf(m, id);
      assert RecordPath(id) in Live(img);
    }
  }

  lemma HiddenIff(id: string)
    ensures Hidden(id) <==> id != "" && id[0] == '.'
  {
    assert id != "" ==> id[..1] == [id[0]];
  }

  lemma ScanFits(id: string)
    ensures ScanAppID(id) <= Decimal.MAX_INT
  {
  }

  class Service {
    var apps: Apps
    const disk: Disk<Application>
    ghost var saved: seq<Apps>

    ghost predicate Valid()
      reads this, disk
    {
      && disk.Valid() && Tracks(disk.image, saved)
      && WellKept(apps) && Behind(Visible(Last(saved)), apps)
    }

    /** The disk holds exactly the map in memory. */
    ghost predicate InSync()
      requires saved != []
      reads this
    {
      Last(saved) == apps
    }

    constructor (disk: Disk<Application>, ghost saved: seq<Apps>)
      ensures this.disk == disk && this.saved == saved && apps == map[]
    {
      this.disk, this.saved, this.apps := disk, saved, map[];
    }

    /** Two dots in a row are refused before the disk is touched. */
    method Persist(a: Application, env: Env) returns (ok: bool)
      requires disk.Valid() && Tracks(disk.image, saved)
      requires !HasDots(a.id) ==> WellKept(Visible(Last(saved)[a.id := a]))
      modifies disk, `saved
      ensures disk.Valid() && Tracks(disk.image, saved)
      ensures ok <==> Writable(old(disk.image), a.id, env)
      ensures old(disk.trail) <= disk.trail
      ensures forall i :: |old(disk.trail)| <= i < |disk.trail| ==> CrashRecovers(disk.trail[i], old(saved), Last(old(saved))[a.id := a])
      ensures Last(saved) == if ok then Last(old(saved))[a.id := a] else Last(old(saved))
    {
      hide Sound, CrashSafe, CrashRecovers, Tracks, WellKept, Shows, Visible, Behind, IsTemp, HasPrefix;
      TracksLength(disk.image, saved);
      if HasDots(a.id) {
        return false;
      }
      ghost var start, past := disk.image, disk.trail;
      RecordIsNotTemp(a.id);
      TempIsTemp(a.id, env);
      ok := disk.AtomicWrite(RecordPath(a.id), TempPath(a.id, env), a, env.faults);
      forall i | |past| <= i < |disk.trail| ensures CrashRecovers(disk.trail[i], saved, Last(saved)[a.id := a]) {
        CrashSafeRecovers(start, disk.trail[i], saved, a);
      }
      ShowsGrows(start, disk.image, a, ok);
      WriteTracks(start, disk.image, saved, a, ok);
      saved := Grown(saved, |disk.image.pending| + 1, if ok then Last(saved)[a.id := a] else Last(saved));
    }

    method FindNameClash(a: Application) returns (taken: bool)
      requires forall id :: id in apps ==> apps[id].id == id
      ensures taken <==> NameTaken(apps, a)
    {
      taken := false;
      if a.projectID == "" {
        return;
      }
      var todo := apps.Keys;
      while todo != {}
        invariant todo <= apps.Keys
        invariant forall id :: id in apps.Keys - todo && id != a.id ==> !SameService(apps[id], a)
        decreases todo
      {
        var id :| id in todo;
        todo := todo - {id};
        var other := apps[id];
        if other.id != a.id && other.projectID == a.projectID && EqualFold(other.name, a.name) {
          return true;
        }
      }
    }

    /** An error leaves map and disk as they were. Whenever a crash strikes, the disk holds an earlier map or
        the new one. */
    method Create(a: Application, env: Env) returns (ok: bool)
      requires Valid() && FileName(a.id)
      modifies this`apps, this`saved, disk
      ensures Valid() && Lasting(old(apps), apps)
      ensures ok <==> (ValidApplication(a) && a.id !in old(apps) && !NameTaken(old(apps), a) && Writable(old(disk.image), a.id, env))
      ensures apps == if ok then old(apps)[a.id := CreatedFrom(a, env.now)] else old(apps)
      ensures Last(saved) == if ok then Last(old(saved))[a.id := CreatedFrom(a, env.now)] else Last(old(saved))
      ensures ok ==> a.id in apps
      ensures ok ==> (
        var b := apps[a.id];
        && b == a.(serviceType := b.serviceType, labels := b.labels, status := Created, createdAt := env.now, updatedAt := env.now)
        && b.serviceType == (if a.serviceType == "" then "web" else a.serviceType))
      ensures forall i :: |old(disk.trail)| <= i < |disk.trail| ==> (
        CrashRecovers(disk.trail[i], old(saved), Last(old(saved))[a.id := CreatedFrom(a, env.now)]))
    {
      hide Sound, CrashRecovers, Tracks, WellKept, Visible, Behind, Writable, ValidApplication, NameTaken, GoodRecord;
      hide HasDots, FileName;
      TracksLength(disk.image, saved);
      IDsMatch(apps);
      ok := false;
      if !ValidApplication(a) || a.id in apps {
        return;
      }
      var taken := FindNameClash(a);
      if taken {
        return;
      }
      var b := CreatedFrom(a, env.now);
      SameNameTaken(apps, a, b);
      DottedIsNotWritable(disk.image, a.id, env);
      if !HasDots(a.id) {
        StoredIsGood(a);
        SavePlan(apps, Last(saved), b);
      }
      ok := Persist(b, env);
      if ok {
        apps := apps[b.id := b];
      }
    }

    /** The creation time stays; otherwise as for creation. `shared` says that the caller's label map is the
        stored record's: then an update that cannot be written has already changed the stored labels. */
    method Update(a: Application, shared: bool, env: Env) returns (ok: bool)
      requires Valid()
      modifies this`apps, this`saved, disk
      ensures Valid() && Lasting(old(apps), apps)
      ensures ok <==> Reaches(old(apps), a) && Writable(old(disk.image), a.id, env)
      ensures !ok ==> Last(saved) == Last(old(saved))
      ensures !ok ==> apps == if shared && Reaches(old(apps), a) then Relabelled(old(apps), a) else old(apps)
      ensures ok ==> (
        var b := UpdatedFrom(Given(old(apps), a, shared), old(apps)[a.id], env.now);
        apps == old(apps)[a.id := b] && Last(saved) == Last(old(saved))[a.id := b])
      ensures ok ==> a.id in apps
      ensures ok ==> (
        var b := apps[a.id];
        && b == a.(serviceType := b.serviceType, labels := b.labels, createdAt := old(apps)[a.id].createdAt, updatedAt := env.now)
        && b.serviceType == (if a.serviceType == "" then "web" else a.serviceType))
      ensures a.id !in old(apps) ==> disk.trail == old(disk.trail)
      ensures a.id in old(apps) ==> (
        var next := Last(old(saved))[a.id := UpdatedFrom(Given(old(apps), a, shared), old(apps)[a.id], env.now)];
        forall i :: |old(disk.trail)| <= i < |disk.trail| ==> CrashRecovers(disk.trail[i], old(saved), next))
    {
      hide Sound, CrashRecovers, Tracks, WellKept, Visible, Behind, Writable, ValidApplication, NameTaken, GoodRecord;
      hide HasDots, FileName, Relabelled, Lasting;
      TracksLength(disk.image, saved);
      IDsMatch(apps);
      ok := false;
      if !ValidApplication(a) || a.id !in apps {
        SameLasting(apps);
        return;
      }
      var taken := FindNameClash(a);
      if taken {
        SameLasting(apps);
        return;
      }
      var existing := apps[a.id];
      var given := Given(apps, a, shared);
      var b := UpdatedFrom(given, existing, env.now);
      SameNameTaken(apps, a, b);
      IDIsUsable(apps, a.id);
      SameValidity(a, given);
      StoredIsGood(given);
      SavePlan(apps, Last(saved), b);
      RelabelledKeeps(apps, Last(saved), a);
      RelabelledThenSet(apps, a, b);
      SameLasting(apps);
      if shared {
        apps := Relabelled(apps, a);
      }
      ok := Persist(b, env);
      if ok {
        apps := apps[b.id := b];
      }
    }

    /** The map changes even when the record cannot be written: the disk then lags behind. */
    method UpdateStatus(id: string, status: AppStatus, containerID: string, env: Env) returns (ok: bool)
      requires Valid()
      modifies this`apps, this`saved, disk
      ensures Valid() && Lasting(old(apps), apps)
      ensures ok <==> id in old(apps) && Writable(old(disk.image), id, env)
      ensures id !in old(apps) ==> apps == old(apps)
      ensures id in old(apps) ==> apps == old(apps)[id := WithStatus(old(apps)[id], status, containerID, env.now)]
      ensures id in old(apps) ==> (
        var b := apps[id];
        && b == old(apps)[id].(status := status, containerID := b.containerID, updatedAt := env.now)
        && b.containerID == (if |containerID| > 0 then containerID else old(apps)[id].containerID))
      ensures Last(saved) == if ok then Last(old(saved))[id := apps[id]] else Last(old(saved))
      ensures id !in apps ==> disk.trail == old(disk.trail)
      ensures id in apps ==> (
        var next := Last(old(saved))[id := apps[id]];
        forall i :: |old(disk.trail)| <= i < |disk.trail| ==> CrashRecovers(disk.trail[i], old(saved), next))
    {
      hide Sound, CrashRecovers, Tracks, WellKept, Visible, Behind, Writable, GoodRecord, HasDots;
      TracksLength(disk.image, saved);
      IDsMatch(apps);
      if id !in apps {
        return false;
      }
      var a := WithStatus(apps[id], status, containerID, env.now);
      StatusKeeps(apps, id, status, containerID, env.now);
      SaveKeeps(apps, Last(saved), a);
      SkippedSaveKeeps(apps, Last(saved), a);
      apps := apps[id := a];
      ok := Persist(a, env);
    }

    /** An interrupted removal keeps the application in the map; its record may be gone. */
    method Delete(id: string, removal: Removal) returns (ok: bool)
      requires Valid()
      modifies this`apps, this`saved, disk
      ensures Valid() && Lasting(old(apps), apps)
      ensures ok <==> id in old(apps) && removal.unlinked && removal.complete
      ensures apps == if ok then old(apps) - {id} else old(apps)
      ensures Last(saved) == if id in old(apps) && removal.unlinked then Last(old(saved)) - {id} else Last(old(saved))
      ensures forall i :: |old(disk.trail)| <= i < |disk.trail| ==> CrashRecovers(disk.trail[i], old(saved), Last(old(saved)) - {id})
    {
      hide Sound, Tracks, WellKept, Visible, Behind, HasDots, CrashRecovers;
      TracksLength(disk.image, saved);
      if id !in apps {
        return false;
      }
      IDIsUsable(apps, id);
      if HasDots(id) {
        return false;
      }
      if removal.unlinked {
        RemovalKeeps(apps, Last(saved), id);
        ghost var was := disk.image;
        disk.Remove(RecordPath(id));
        RemovalTracks(was, disk.image, saved, id);
        TracksRecovers(disk.image, saved, Last(saved) - {id});
        saved := saved + [Last(saved) - {id}];
      }
      ok := removal.unlinked && removal.complete;
      if ok {
        apps := apps - {id};
      }
    }

    /** Merges the records on the disk into the map; nothing is removed from it first. */
    method LoadAll() returns (ok: bool)
      requires disk.Valid() && Tracks(disk.image, saved)
      modifies this`apps
      ensures ok && apps == old(apps) + Visible(Last(saved))
    {
      hide WellKept, Sees, Sound, Visible, Restrict, Hidden, Holds, RecordPath, Live;
      TracksLength(disk.image, saved);
      ghost var m, was := Last(saved), apps;
      var n := |disk.image.pending|;
      assert Holds(disk.image, n, m);
      var entries := set p | p in Live(disk.image) :: p.dir;
      var todo := entries;
      NoneRestricted(Visible(m));
      assert entries - todo == {};
      while todo != {}
        invariant todo <= entries
        invariant apps == was + Restrict(Visible(m), entries - todo)
        decreases todo
      {
        var entry :| entry in todo;
        EntryLoaded(disk.image, m, was, entries - todo, entry);
        assert entries - todo + {entry} == entries - (todo - {entry});
        todo := todo - {entry};
        if Hidden(entry) {
          continue;
        }
        var record := Sees(disk.image, n, RecordPath(entry));
        if record == Absent {
          continue;
        }
        if !record.Contents? || record.data.None? {
          return false;
        }
        var a := record.data.value;
        apps := apps[a.id := a];
      }
      ok := true;
      assert entries - todo == entries;
      AllSeen(disk.image, m, entries);
    }

    /** Re-reading the disk changes no identity; a map in step with the disk stays as it is. */
    method Reload() returns (ok: bool)
      requires Valid()
      modifies this`apps
      ensures Valid() && Lasting(old(apps), apps)
      ensures ok && apps == old(apps) + Visible(Last(saved))
      ensures Last(saved) == old(apps) ==> apps == old(apps)
    {
      hide Tracks, Sound, WellKept, Behind;
      TracksLength(disk.image, saved);
      MergeKeeps(apps, Visible(Last(saved)));
      ok := LoadAll();
    }

    /** A restart on a disk that tracks a history finds its last map, except for IDs with a leading dot. */
    static method NewService(disk: Disk<Application>, ghost saved: seq<Apps>) returns (s: Service, ok: bool)
      requires disk.Valid() && Tracks(disk.image, saved)
      ensures ok && fresh(s) && s.disk == disk && s.saved == saved && s.Valid()
      ensures s.apps == Visible(Last(saved))
      ensures forall id :: id in s.apps <==> id in Last(saved) && (id == "" || id[0] != '.')
      ensures s.apps == Last(saved) <==> forall id :: id in Last(saved) ==> id == "" || id[0] != '.'
    {
      hide Tracks, Sound, WellKept;
      TracksLength(disk.image, saved);
      s := new Service(disk, saved);
      ok := s.LoadAll();
      assert s.apps == Visible(Last(saved));
      forall id ensures Hidden(id) <==> id != "" && id[0] == '.' {
        HiddenIff(id);
      }
    }

    method GenerateID() returns (id: string)
      ensures exists m :: IsHighestApp(apps.Keys, m) && id == AppIDFor(m)
    {
      hide ScanAppID;
      var max := 0;
      var todo := apps.Keys;
      while todo != {}
        invariant todo <= apps.Keys
        invariant 0 <= max <= Decimal.MAX_INT
        invariant forall k :: k in apps.Keys - todo ==> ScanAppID(k) <= max
        invariant max == 0 || exists k :: k in apps.Keys && ScanAppID(k) == max
        decreases todo
      {
        var k :| k in todo;
        todo := todo - {k};
        ScanFits(k);
        var n := ScanAppID(k);
        if n > max {
          max := n;
        }
      }
      assert IsHighestApp(apps.Keys, max);
      id := AppIDFor(max);
    }
  }
  /** A restart after a crash at any point of a call loads a map of the history, or the one being saved. */
  method RestartAfterCrash(img: Image<Application>, k: nat, ghost saved: seq<Apps>, ghost next: Apps)
    returns (s: Service, ok: bool, ghost m: Apps)
    requires saved != [] && CrashRecovers(img, saved, next) && k <= |img.pending|
    requires forall i :: 0 <= i < |saved| ==> WellKept(Visible(saved[i]))
    ensures ok && s.Valid() && s.apps == Visible(m)
    ensures k < |saved| ==> m == saved[k]
    ensures k >= |saved| ==> m in {Last(saved), next}
  {
    hide CrashRecovers, Sound, Tracks, WellKept;
    m := CrashLandsOnSavedMap(img, saved, next, k);
    var disk := new Disk(Rebooted(img, k));
    s, ok := Service.NewService(disk, [m]);
  }

  /** The calls the program makes: a new application is always given a generated ID. */
  datatype Call =
    | CreateCall(draft: Application, env: Env)
    | UpdateCall(app: Application, shared: bool, env: Env)
    | StatusCall(id: string, status: AppStatus, containerID: string, env: Env)
    | DeleteCall(id: string, removal: Removal)

  /** The map in memory and the map that the records on the disk make up. */
  datatype View = View(apps: Apps, stored: Apps)

  ghost predicate Creates(s: View, a: Application, now: int, ok: bool, t: View) {
    && (ok ==> ValidApplication(a) && a.id !in s.apps && !NameTaken(s.apps, a))
    && t == if ok then View(s.apps[a.id := CreatedFrom(a, now)], s.stored[a.id := CreatedFrom(a, now)]) else s
  }

  /** What one call does to both, given whether it reports success. */
  ghost predicate Does(s: View, c: Call, ok: bool, t: View) {
    match c
    case CreateCall(draft, env) =>
      exists m :: IsHighestApp(s.apps.Keys, m) && Creates(s, draft.(id := AppIDFor(m)), env.now, ok, t)
    case UpdateCall(a, shared, env) =>
      if !Reaches(s.apps, a) then !ok && t == s
      else if !ok then t == if shared then View(Relabelled(s.apps, a), s.stored) else s
      else
        var b := UpdatedFrom(Given(s.apps, a, shared), s.apps[a.id], env.now);
        t == View(s.apps[a.id := b], s.stored[a.id := b])
    case StatusCall(id, status, containerID, env) =>
      if id !in s.apps then !ok && t == s
      else
        var b := WithStatus(s.apps[id], status, containerID, env.now);
        t == View(s.apps[id := b], if ok then s.stored[id := b] else s.stored)
    case DeleteCall(id, removal) =>
      if id !in s.apps then !ok && t == s
      else
        && (ok <==> removal.unlinked && removal.complete)
        && t == View(if ok then s.apps - {id} else s.apps, if removal.unlinked then s.stored - {id} else s.stored)
  }

  /** A view that a crash-free service may be in. */
  ghost predicate GoodView(v: View) {
    WellKept(v.apps) && WellKept(Visible(v.stored)) && Behind(Visible(v.stored), v.apps)
  }

  /** An update that writes labels into the stored record's own map, and then fails. */
  predicate LeavesLabels(s: View, c: Call, ok: bool) {
    c.UpdateCall? && c.shared && !ok && Reaches(s.apps, c.app)
  }

  /** A status change is stored or changes nothing, a removal that takes the record away completes, and an
      update that leaves labels behind leaves those that were there. */
  predicate StaysTogether(s: View, c: Call, ok: bool) {
    && (c.StatusCall? && c.id in s.apps ==> ok || WithStatus(s.apps[c.id], c.status, c.containerID, c.env.now) == s.apps[c.id])
    && (c.DeleteCall? && c.id in s.apps && c.removal.unlinked ==> c.removal.complete)
    && (LeavesLabels(s, c, ok) ==> SameLabels(s.apps[c.app.id], c.app))
  }

  /** This is exactly when a call keeps disk and map the same. */
  lemma CallKeepsStep(s: View, c: Call, ok: bool, t: View)
    requires Does(s, c, ok, t) && s.stored == s.apps
    ensures t.stored == t.apps <==> StaysTogether(s, c, ok)
  {
    hide ValidApplication, NameTaken, CreatedFrom, UpdatedFrom, WithStatus, IsHighestApp, AppIDFor, Relabelled, SameLabels;
    if c.StatusCall? && c.id in s.apps && !ok {
      var b := WithStatus(s.apps[c.id], c.status, c.containerID, c.env.now);
      assert t.apps[c.id] == b && t.stored[c.id] == s.apps[c.id];
      assert b == s.apps[c.id] ==> t.apps == s.apps;
    }
    if c.DeleteCall? && c.id in s.apps {
      assert c.id in t.stored <==> !c.removal.unlinked;
      assert c.id in t.apps <==> !ok;
    }
    if LeavesLabels(s, c, ok) {
      RelabelledIsSame(s.apps, c.app);
    }
  }

  ghost predicate LabelledView(v: View) {
    WellLabelled(v.apps) && WellLabelled(v.stored)
  }

  /** No update that renames an application leaves its labels behind. */
  predicate KeepsNames(s: View, c: Call, ok: bool) {
    LeavesLabels(s, c, ok) ==> c.app.name == s.apps[c.app.id].name
  }

  /** This is exactly when a call keeps the name labels right, in the map and on the disk. */
  lemma CallKeepsLabels(s: View, c: Call, ok: bool, t: View)
    requires Does(s, c, ok, t) && GoodView(s) && LabelledView(s)
    ensures LabelledView(t) <==> KeepsNames(s, c, ok)
  {
    hide ValidApplication, NameTaken, IsHighestApp, AppIDFor, Behind, Visible, GoodRecord, UniqueNames;
    if LeavesLabels(s, c, ok) {
      var id := c.app.id;
      IDsMatch(s.apps);
      assert t.apps[id].labels["liteploy.app_name"] == c.app.name;
      assert NameLabelled(t.apps[id]) <==> c.app.name == s.apps[id].name;
      assert forall i :: i in t.apps && i != id ==> t.apps[i] == s.apps[i];
    } else {
      OtherCallsLabel(s, c, ok, t);
    }
  }

  lemma OtherCallsLabel(s: View, c: Call, ok: bool, t: View)
    requires Does(s, c, ok, t) && LabelledView(s) && !LeavesLabels(s, c, ok)
    ensures LabelledView(t)
  {
    hide ValidApplication, NameTaken, IsHighestApp, AppIDFor, Relabelled;
  }

  function Shop(name: string): Application {
    WithManagedLabels(
      Application("app-001", name, "", "worker", Source(SourceKind.Image, "shop:1", true), [], 0, Created, "", "", "", "",
                  map[], 0, 0))
  }

  lemma ShopIsGood(name: string)
    requires ValidName(name)
    ensures GoodRecord("app-001", Shop(name)) && NameLabelled(Shop(name)) && ValidApplication(Shop(name))
  {
    hide ValidName;
    assert FileName("app-001") && !HasDots("app-001");
  }

  /** "shop" is renamed to "store", and the record cannot be written: the map keeps the name and has the new
      label. */
  lemma RenameFailsHalfway(env: Env) returns (s: View, c: Call, t: View)
    ensures GoodView(s) && LabelledView(s) && s.stored == s.apps
    ensures Does(s, c, false, t) && t.stored == s.stored
    ensures "app-001" in t.apps && t.apps["app-001"].name == "shop"
    ensures HasLabel(t.apps["app-001"], "liteploy.app_name", "store")
  {
    hide GoodView, LabelledView, ValidApplication, HasLabel, Shop, SameService;
    var m := map["app-001" := Shop("shop")];
    s := View(m, m);
    OneShop();
    var a := Shop("shop").(name := "store");
    Renamed();
    c := UpdateCall(a, true, env);
    t := View(Relabelled(m, a), m);
    LabelWritten(m, a);
  }

  lemma OneShop()
    ensures var m := map["app-001" := Shop("shop")]; GoodView(View(m, m)) && LabelledView(View(m, m))
  {
    hide GoodRecord, NameLabelled, Shop, Hidden;
    assert ValidName("shop");
    ShopIsGood("shop");
  }

  lemma Renamed()
    ensures Shop("shop").id == "app-001" && Shop("shop").name == "shop"
    ensures ValidApplication(Shop("shop").(name := "store"))
  {
    ShopIsGood("store");
    assert ValidName("store");
  }

  lemma LabelWritten(m: Apps, a: Application)
    requires a.id in m
    ensures HasLabel(Relabelled(m, a)[a.id], "liteploy.app_name", a.name)
  {
  }

  /** A container that stopped is shown as stopped and stored as running. */
  lemma StatusLagsBehind(a: Application, env: Env) returns (t: View)
    requires a.status == Running
    ensures Does(View(map[a.id := a], map[a.id := a]), StatusCall(a.id, Stopped, "", env), false, t)
    ensures t.apps[a.id].status == Stopped && t.stored[a.id].status == Running
  {
    t := View(map[a.id := WithStatus(a, Stopped, "", env.now)], map[a.id := a]);
    assert map[a.id := a][a.id := WithStatus(a, Stopped, "", env.now)] == t.apps;
  }

  ghost predicate IsHistory(views: seq<View>, calls: seq<Call>, oks: seq<bool>) {
    && |views| == |calls| + 1 && |oks| == |calls|
    && forall i :: 0 <= i < |calls| ==> Does(views[i], calls[i], oks[i], views[i + 1])
  }

  /** Disk and map stay the same along a history whose calls each keep them so. */
  lemma {:induction false} StaysInStep(views: seq<View>, calls: seq<Call>, oks: seq<bool>, n: nat)
    requires IsHistory(views, calls, oks) && n <= |calls|
    requires views[0].stored == views[0].apps
    requires forall i :: 0 <= i < |calls| ==> StaysTogether(views[i], calls[i], oks[i])
    ensures views[n].stored == views[n].apps
  {
    hide Does, StaysTogether;
    if n > 0 {
      StaysInStep(views, calls, oks, n - 1);
      CallKeepsStep(views[n - 1], calls[n - 1], oks[n - 1], views[n]);
    }
  }

  /** The name labels stay right along a history without such updates. */
  lemma {:induction false} LabelsStay(views: seq<View>, calls: seq<Call>, oks: seq<bool>, n: nat)
    requires IsHistory(views, calls, oks) && n <= |calls|
    requires LabelledView(views[0]) && forall i :: 0 <= i < |views| ==> GoodView(views[i])
    requires forall i :: 0 <= i < |calls| ==> KeepsNames(views[i], calls[i], oks[i])
    ensures LabelledView(views[n])
  {
    hide Does, KeepsNames, GoodView, LabelledView;
    if n > 0 {
      LabelsStay(views, calls, oks, n - 1);
      CallKeepsLabels(views[n - 1], calls[n - 1], oks[n - 1], views[n]);
    }
  }

  lemma OneMoreView(views: seq<View>, calls: seq<Call>, oks: seq<bool>, n: nat, ok: bool, t: View)
    requires n < |calls| && IsHistory(views, calls[..n], oks) && Does(views[n], calls[n], ok, t)
    ensures IsHistory(views + [t], calls[..n + 1], oks + [ok])
  {
    hide Does;
    var v, o := views + [t], oks + [ok];
    forall i | 0 <= i < n + 1 ensures Does(v[i], calls[..n + 1][i], o[i], v[i + 1]) {
      assert i < n ==> calls[..n][i] == calls[i];
    }
  }

  ghost function ViewOf(s: Service): View
    requires s.saved != []
    reads s
  {
    View(s.apps, Last(s.saved))
  }

  method Serve(s: Service, c: Call) returns (ok: bool)
    requires s.Valid()
    modifies s`apps, s`saved, s.disk
    ensures s.Valid() && Lasting(old(s.apps), s.apps)
    ensures Does(old(ViewOf(s)), c, ok, ViewOf(s))
  {
    hide Tracks, WellKept, Behind, Visible, Writable, ValidApplication, NameTaken, CrashRecovers, FileName, Lasting;
    hide IsHighestApp, AppIDFor;
    TracksLength(s.disk.image, s.saved);
    match c
    case CreateCall(draft, env) =>
      var id := s.GenerateID();
      ghost var m :| IsHighestApp(s.apps.Keys, m) && id == AppIDFor(m);
      GeneratedIDIsUsable(s.apps.Keys, m);
      ghost var before := ViewOf(s);
      ok := s.Create(draft.(id := id), env);
      TracksLength(s.disk.image, s.saved);
      assert Creates(before, draft.(id := AppIDFor(m)), env.now, ok, ViewOf(s));
    case UpdateCall(a, shared, env) => ok := s.Update(a, shared, env);
    case StatusCall(id, status, containerID, env) => ok := s.UpdateStatus(id, status, containerID, env);
    case DeleteCall(id, removal) => ok := s.Delete(id, removal);
  }

  /** Over every sequence of calls the promises hold in every state passed through; disk and map stay the
      same, and the name labels right, as long as each call keeps them so. */
  method ServeAll(s: Service, calls: seq<Call>) returns (oks: seq<bool>, ghost views: seq<View>)
    requires s.Valid()
    modifies s`apps, s`saved, s.disk
    ensures s.Valid() && IsHistory(views, calls, oks)
    ensures forall i :: 0 <= i < |views| ==> GoodView(views[i])
    ensures forall i :: 0 <= i < |calls| ==> Lasting(views[i].apps, views[i + 1].apps)
    ensures views[0] == old(ViewOf(s)) && views[|calls|] == ViewOf(s)
    ensures old(s.InSync()) && (forall i :: 0 <= i < |calls| ==> StaysTogether(views[i], calls[i], oks[i])) ==> s.InSync()
    ensures LabelledView(views[0]) && (forall i :: 0 <= i < |calls| ==> KeepsNames(views[i], calls[i], oks[i])) ==>
              forall i :: 0 <= i < |views| ==> LabelledView(views[i])
  {
    hide Tracks, WellKept, Behind, Visible, Does, StaysTogether, KeepsNames, LabelledView, Lasting;
    TracksLength(s.disk.image, s.saved);
    oks, views := [], [ViewOf(s)];
    assert IsHistory(views, calls[..0], oks);
    for n := 0 to |calls|
      invariant s.Valid() && s.saved != []
      invariant IsHistory(views, calls[..n], oks) && views[0] == old(ViewOf(s)) && views[n] == ViewOf(s)
      invariant forall i :: 0 <= i < |views| ==> GoodView(views[i])
      invariant forall i :: 0 <= i < n ==> Lasting(views[i].apps, views[i + 1].apps)
    {
      var ok := Serve(s, calls[n]);
      TracksLength(s.disk.image, s.saved);
      OneMoreView(views, calls, oks, n, ok, ViewOf(s));
      oks, views := oks + [ok], views + [ViewOf(s)];
    }
    assert calls[..|calls|] == calls;
    if old(s.InSync()) && forall i :: 0 <= i < |calls| ==> StaysTogether(views[i], calls[i], oks[i]) {
      StaysInStep(views, calls, oks, |calls|);
    }
    if LabelledView(views[0]) && forall i :: 0 <= i < |calls| ==> KeepsNames(views[i], calls[i], oks[i]) {
      forall i | 0 <= i < |views| ensures LabelledView(views[i]) {
        LabelsStay(views, calls, oks, i);
      }
    }
  }
}
