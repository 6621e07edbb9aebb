/** Startup reconciliation of application states with what Docker reports. */
module Reconcile {
  import opened Options
  import opened Applications
  import opened AppService

  const APP_LABEL := "liteploy.app_id"

  datatype Container = Container(id: string, labels: map<string, string>)

  datatype Info = Info(id: string, status: string)

  /** Docker's answers during one pass: the listing, or an error, and the result of each inspection that
      succeeds. */
  datatype Docker = NoClient | Docker(listing: Option<seq<Container>>, inspections: map<string, Info>)

  function AppOf(c: Container): string {
    if APP_LABEL in c.labels then c.labels[APP_LABEL] else ""
  }

  /** A container that carries the managed labels of an application stands for it. */
  lemma ManagedContainerIsFound(a: Application, id: string, extra: map<string, string>)
    requires "liteploy.app_id" !in extra
    ensures AppOf(Container(id, ManagedLabels(a) + extra)) == a.id
  {
  }

  /* ---- which container stands for an application ---- */

  ghost predicate IsChosen(cs: seq<Container>, appID: string, i: int) {
    0 <= i < |cs| && AppOf(cs[i]) == appID && forall j :: i < j < |cs| ==> AppOf(cs[j]) != appID
  }

  ghost predicate Unlabelled(cs: seq<Container>, appID: string) {
    forall c :: c in cs ==> AppOf(c) != appID
  }

  /** Applications to their containers; a container without a label stands for none. */
  ghost predicate IsIndex(byApp: map<string, Container>, cs: seq<Container>) {
    && (forall a :: a in byApp ==> a != "" && exists i :: IsChosen(cs, a, i) && byApp[a] == cs[i])
    && (forall a :: a !in byApp && a != "" ==> Unlabelled(cs, a))
  }

  /** The last container with the application's label wins. */
  method IndexByApp(cs: seq<Container>) returns (byApp: map<string, Container>)
    ensures IsIndex(byApp, cs)
  {
    hide IsIndex, AppOf;
    byApp := map[];
    EmptyIndex();
    assert cs[..0] == [];
    for n := 0 to |cs|
      invariant IsIndex(byApp, cs[..n])
    {
      var c := cs[n];
      var appID := AppOf(c);
      assert cs[..n + 1] == cs[..n] + [c];
      IndexGrows(byApp, cs[..n], c);
      if appID != "" {
        byApp := byApp[appID := c];
      }
    }
    assert cs[..|cs|] == cs;
  }

  lemma EmptyIndex()
    ensures IsIndex(map[], [])
  {
  }

  lemma IndexGrows(byApp: map<string, Container>, before: seq<Container>, c: Container)
    requires IsIndex(byApp, before)
    ensures IsIndex(if AppOf(c) != "" then byApp[AppOf(c) := c] else byApp, before + [c])
  {
    hide AppOf;
    var now, appID := before + [c], AppOf(c);
    if appID != "" {
      assert IsChosen(now, appID, |before|);
    }
    forall a | a in byApp && a != appID ensures exists i :: IsChosen(now, a, i) && byApp[a] == now[i] {
      var i :| IsChosen(before, a, i) && byApp[a] == before[i];
      assert IsChosen(now, a, i);
    }
  }

  /* ---- what a pass does to one application ---- */

  ghost predicate Inspected(d: Docker, appID: string, info: Info) {
    d.Docker? && d.listing.Some? &&
    exists i :: IsChosen(d.listing.value, appID, i) && d.listing.value[i].id in d.inspections && info == d.inspections[d.listing.value[i].id]
  }

  ghost predicate Uninspected(d: Docker, appID: string) {
    d.Docker? && d.listing.Some? && exists i :: IsChosen(d.listing.value, appID, i) && d.listing.value[i].id !in d.inspections
  }

  ghost predicate Containerless(d: Docker, appID: string) {
    d.Docker? && d.listing.Some? && Unlabelled(d.listing.value, appID)
  }

  /** Nothing but status, container ID and update time differs. */
  ghost predicate OnlyRuntime(was: Application, now: Application) {
    now == was.(status := now.status, containerID := now.containerID, updatedAt := now.updatedAt)
  }

  /** The record agrees with Docker as far as Docker was seen. */
  ghost predicate Agrees(d: Docker, id: string, a: Application) {
    && (Containerless(d, id) ==> a.status != Running)
    && (forall info :: Inspected(d, id, info) ==>
          a.containerID == info.id && a.status == if info.status == "running" then Running else Stopped)
  }

  ghost predicate Outcome(d: Docker, id: string, was: Application, now: Application) {
    && Agrees(d, id, now) && OnlyRuntime(was, now)
    && (Agrees(d, id, was) ==> now == was)
    && (Containerless(d, id) && was.status == Running ==> now.status == Stopped && now.containerID == was.containerID)
  }

  /** The log shortens the container's ID to twelve characters, which stops the program for a shorter one;
      it does so only when the record has to change. */
  ghost predicate Trips(d: Docker, id: string, a: Application) {
    !Agrees(d, id, a) && exists info :: Inspected(d, id, info) && |info.id| < 12
  }

  ghost predicate SomeTrip(d: Docker, apps: Apps) {
    exists id :: id in apps && Trips(d, id, apps[id])
  }

  ghost predicate AllAgree(d: Docker, apps: Apps) {
    forall id :: id in apps ==> Agrees(d, id, apps[id])
  }

  /** One container was chosen, so the inspections of an application agree. */
  lemma ChosenIsUnique(cs: seq<Container>, appID: string, i: int, j: int)
    requires IsChosen(cs, appID, i) && IsChosen(cs, appID, j)
    ensures i == j
  {
  }

  lemma ChosenIsLabelled(cs: seq<Container>, appID: string, i: int)
    requires IsChosen(cs, appID, i)
    ensures !Unlabelled(cs, appID)
  {
    assert cs[i] in cs;
  }

  lemma AbsentIsUninspected(d: Docker, id: string)
    requires Containerless(d, id)
    ensures forall info :: !Inspected(d, id, info)
  {
    forall info ensures !Inspected(d, id, info) {
      forall i | IsChosen(d.listing.value, id, i) ensures false {
        ChosenIsLabelled(d.listing.value, id, i);
      }
    }
  }

  lemma AbsentOutcome(d: Docker, id: string, was: Application, now: Application, updated: int)
    requires Containerless(d, id)
    requires now == if was.status == Running then WithStatus(was, Stopped, "", updated) else was
    ensures Outcome(d, id, was, now)
  {
    AbsentIsUninspected(d, id);
  }

  lemma UnseenOutcome(d: Docker, id: string, was: Application)
    requires Uninspected(d, id)
    ensures Outcome(d, id, was, was)
  {
    var i :| IsChosen(d.listing.value, id, i) && d.listing.value[i].id !in d.inspections;
    ChosenIsLabelled(d.listing.value, id, i);
    forall info ensures !Inspected(d, id, info) {
      forall j | IsChosen(d.listing.value, id, j) ensures j == i {
        ChosenIsUnique(d.listing.value, id, i, j);
      }
    }
  }

  lemma SeenOutcome(d: Docker, id: string, was: Application, now: Application, info: Info, updated: int)
    requires Inspected(d, id, info)
    requires info.id != "" || (was.containerID == "" && was.status == if info.status == "running" then Running else Stopped)
    requires var target := if info.status == "running" then Running else Stopped;
      now == if was.status != target || was.containerID != info.id then WithStatus(was, target, info.id, updated) else was
    ensures Outcome(d, id, was, now)
  {
    var cs := d.listing.value;
    var i :| IsChosen(cs, id, i) && cs[i].id in d.inspections && info == d.inspections[cs[i].id];
    ChosenIsLabelled(cs, id, i);
    forall other | Inspected(d, id, other) ensures other == info {
      var j :| IsChosen(cs, id, j) && cs[j].id in d.inspections && other == d.inspections[cs[j].id];
      ChosenIsUnique(cs, id, i, j);
    }
  }

  lemma SeenTrips(d: Docker, id: string, a: Application, info: Info)
    requires Inspected(d, id, info)
    ensures var target := if info.status == "running" then Running else Stopped;
      && (Agrees(d, id, a) <==> a.status == target && a.containerID == info.id)
      && (Trips(d, id, a) <==> (a.status != target || a.containerID != info.id) && |info.id| < 12)
  {
    var target := if info.status == "running" then Running else Stopped;
    if a.status == target && a.containerID == info.id {
      SeenOutcome(d, id, a, a, info, 0);
    }
    var cs := d.listing.value;
    var i :| IsChosen(cs, id, i) && cs[i].id in d.inspections && info == d.inspections[cs[i].id];
    forall other | Inspected(d, id, other) ensures other == info {
      var j :| IsChosen(cs, id, j) && cs[j].id in d.inspections && other == d.inspections[cs[j].id];
      ChosenIsUnique(cs, id, i, j);
    }
  }

  /** What an outcome says of the record: it names the last container with the application's label and is
      running exactly when that container is; without a container it is not running and names the one it
      named; and a container that cannot be inspected leaves it alone. */
  lemma OutcomeMeans(d: Docker, id: string, was: Application, now: Application, i: nat)
    requires d.Docker? && d.listing.Some? && Outcome(d, id, was, now)
    ensures var cs := d.listing.value;
      && (IsChosen(cs, id, i) && cs[i].id in d.inspections ==>
            var info := d.inspections[cs[i].id];
            && now.containerID == info.id && now.status in {Running, Stopped}
            && (now.status == Running <==> info.status == "running"))
      && (IsChosen(cs, id, i) && cs[i].id !in d.inspections ==> now == was)
      && (Unlabelled(cs, id) ==>
            && now.containerID == was.containerID
            && (was.status == Running ==> now.status == Stopped) && (was.status != Running ==> now == was))
  {
    var cs := d.listing.value;
    if IsChosen(cs, id, i) && cs[i].id in d.inspections {
      assert Inspected(d, id, d.inspections[cs[i].id]);
    } else if IsChosen(cs, id, i) {
      UnseenAgrees(d, id, was);
    } else if Unlabelled(cs, id) {
      AbsentAgrees(d, id, was);
    }
  }

  /** A stopped container with a short ID, and a record that says it runs. */
  lemma ShortIDTrips(a: Application) returns (d: Docker)
    requires a.status == Running && a.id != ""
    ensures Trips(d, a.id, a)
  {
    var c := Container("c1", map[APP_LABEL := a.id]);
    var info := Info("c1", "exited");
    d := Docker(Some([c]), map["c1" := info]);
    assert IsChosen([c], a.id, 0);
    assert Inspected(d, a.id, info);
    SeenTrips(d, a.id, a, info);
  }

  lemma NonEmptyID(apps: Apps, id: string)
    requires WellKept(apps) && id in apps
    ensures id != ""
  {
    assert GoodRecord(id, apps[id]);
  }

  lemma AgreedNeverTrips(d: Docker, id: string, a: Application)
    ensures Agrees(d, id, a) ==> !Trips(d, id, a)
  {
  }

  method ReconcileApp(s: Service, d: Docker, byApp: map<string, Container>, id: string, env: Env) returns (panicked: bool)
    requires s.Valid() && id in s.apps && id != ""
    requires d.Docker? && d.listing.Some? && IsIndex(byApp, d.listing.value)
    modifies s`apps, s`saved, s.disk
    ensures s.Valid() && Lasting(old(s.apps), s.apps)
    ensures panicked <==> Trips(d, id, old(s.apps)[id])
    ensures id in s.apps && s.apps == old(s.apps)[id := s.apps[id]]
    ensures if panicked then s.apps == old(s.apps) else Outcome(d, id, old(s.apps)[id], s.apps[id])
    ensures panicked || Agrees(d, id, old(s.apps)[id]) ==> s.disk.image == old(s.disk.image)
  {
    hide Outcome, Unlabelled, Tracks, WellKept, Behind, Writable, CrashRecovers, Agrees, Trips, Visible;
    var app := s.apps[id];
    panicked := false;
    if id !in byApp {
      if app.status == Running {
        var _ := s.UpdateStatus(id, Stopped, "", env);
      }
      AbsentOutcome(d, id, app, s.apps[id], env.now);
      AbsentAgrees(d, id, app);
      return;
    }
    var ctr := byApp[id];
    if ctr.id !in d.inspections {
      UnseenOutcome(d, id, app);
      UnseenAgrees(d, id, app);
      return;
    }
    var info := d.inspections[ctr.id];
    assert Inspected(d, id, info);
    SeenTrips(d, id, app, info);
    var target := if info.status == "running" then Running else Stopped;
    if app.status != target || app.containerID != info.id {
      if |info.id| < 12 {
        return true;
      }
      var _ := s.UpdateStatus(id, target, info.id, env);
    }
    SeenOutcome(d, id, app, s.apps[id], info, env.now);
  }

  lemma AbsentAgrees(d: Docker, id: string, a: Application)
    requires Containerless(d, id)
    ensures Agrees(d, id, a) <==> a.status != Running
    ensures !Trips(d, id, a)
  {
    AbsentIsUninspected(d, id);
  }

  lemma UnseenAgrees(d: Docker, id: string, a: Application)
    requires Uninspected(d, id)
    ensures Agrees(d, id, a) && !Trips(d, id, a)
  {
    UnseenOutcome(d, id, a);
  }

  datatype Pass = NothingToDo | ListingFailed | Panicked | Done

  /** Afterwards every application agrees with Docker, and one that agreed before is untouched; without a
      listing nothing happens. The pass breaks off exactly when some record that has to change belongs to a
      container with a short ID; the other records are then done or untouched. */
  method ReconcileApps(s: Service, d: Docker, envs: string -> Env) returns (o: Pass)
    requires s.Valid()
    modifies s`apps, s`saved, s.disk
    ensures s.Valid() && s.apps.Keys == old(s.apps).Keys && Lasting(old(s.apps), s.apps)
    ensures o == NothingToDo <==> d.NoClient?
    ensures o == ListingFailed <==> d.Docker? && d.listing.None?
    ensures o == Panicked <==> d.Docker? && d.listing.Some? && SomeTrip(d, old(s.apps))
    ensures d.NoClient? || d.listing.None? ==> s.apps == old(s.apps)
    ensures o == Done ==> forall id :: id in s.apps ==> Outcome(d, id, old(s.apps)[id], s.apps[id])
    ensures o == Panicked ==> forall id :: id in s.apps ==>
                s.apps[id] == old(s.apps)[id] || Outcome(d, id, old(s.apps)[id], s.apps[id])
    ensures AllAgree(d, old(s.apps)) ==> s.disk.image == old(s.disk.image)
  {
    hide Outcome, Agrees, Trips, IsIndex, WellKept, Tracks, Behind, Visible;
    if d.NoClient? {
      return NothingToDo;
    }
    if d.listing.None? {
      return ListingFailed;
    }
    var apps := s.apps;
    var byApp := IndexByApp(d.listing.value);
    var todo := apps.Keys;
    while todo != {}
      invariant s.Valid() && todo <= apps.Keys == s.apps.Keys
      invariant forall id :: id in todo ==> s.apps[id] == apps[id]
      invariant forall id :: id in apps.Keys - todo ==> !Trips(d, id, apps[id]) && Outcome(d, id, apps[id], s.apps[id])
      invariant Lasting(apps, s.apps)
      invariant AllAgree(d, apps) ==> s.disk.image == old(s.disk.image)
      decreases todo
    {
      var id :| id in todo;
      NonEmptyID(s.apps, id);
      var panicked := ReconcileApp(s, d, byApp, id, envs(id));
      if panicked {
        return Panicked;
      }
      todo := todo - {id};
    }
    return Done;
  }

  /** A second pass with the same answers does not break off and changes neither the map nor the disk. */
  method ReconcileTwice(s: Service, d: Docker, envs: string -> Env, later: string -> Env)
      returns (o: Pass, again: Pass, ghost settled: Apps)
    requires s.Valid() && d.Docker? && d.listing.Some?
    modifies s`apps, s`saved, s.disk
    ensures s.Valid() && (o == Panicked <==> SomeTrip(d, old(s.apps)))
    ensures o != Panicked ==> o == again == Done && s.apps == settled && AllAgree(d, settled)
    ensures o != Panicked ==> forall id :: id in settled ==> id in old(s.apps) && Outcome(d, id, old(s.apps)[id], settled[id])
  {
    hide Agrees, Tracks, WellKept, Behind, Visible;
    o := ReconcileApps(s, d, envs);
    settled := s.apps;
    again := o;
    if o == Panicked {
      return;
    }
    forall id | id in settled ensures !Trips(d, id, settled[id]) {
      AgreedNeverTrips(d, id, settled[id]);
    }
    ghost var image := s.disk.image;
    again := ReconcileApps(s, d, later);
    assert s.disk.image == image;
  }
}
