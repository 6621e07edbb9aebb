/** Sequences of deployments of one application, and the job around each run. */
module ZeroDowntime {
  import opened DeploymentStatus
  import opened Deployments
  import opened Options
  import opened Applications
  import opened Pipeline
  import ProxyManager
  import RouteCompiler
  import RouteTable

  /** The application's containers are exactly the recorded one, up, or none. */
  ghost predicate Settled(w: World) {
    && w.record.Some?
    && w.containers == if w.record.value.containerID == "" then map[] else map[w.record.value.containerID := Up]
  }

  /** Docker gives a new container an ID of its own. */
  ghost predicate FreshID(w: World, r: Replies) {
    r.created.Some? ==> r.created.value !in w.containers && r.created.value != ""
  }

  /** The calls whose errors the pipeline ignores succeeded, as far as the run made them. */
  ghost predicate CleanedUp(w: World, rollbackTo: string, r: Replies, ok: bool)
    requires w.record.Some?
  {
    if ok then r.updated && (w.record.value.containerID == "" || r.removeOld)
    else HasImage(w, rollbackTo, r) && r.created.Some? ==> r.removeNew
  }

  /* ---- what the acts of a run do ---- */

  predicate Touches(a: Act, id: string) {
    !a.Passed? && !a.Routed? && a.id == id
  }

  lemma {:induction false} UntouchedStays(c: Containers, acts: seq<Act>, id: string)
    requires forall a :: a in acts ==> !Touches(a, id)
    ensures id in Replay(c, acts) <==> id in c
    ensures id in c ==> Replay(c, acts)[id] == c[id]
  {
    if acts != [] {
      var n := |acts| - 1;
      assert forall a :: a in acts[..n] ==> a in acts;
      UntouchedStays(c, acts[..n], id);
      assert !Touches(acts[n], id);
    }
  }

  lemma ReplayOne(c: Containers, a: Act)
    ensures Replay(c, [a]) == After(c, a)
  {
    assert [a][..0] == [];
  }

  lemma ReplayTwo(c: Containers, a: Act, b: Act)
    ensures Replay(c, [a, b]) == After(After(c, a), b)
  {
    ReplayOne(c, a);
    assert [a, b][..1] == [a];
  }

  /** Only the new container is touched on the way up. */
  lemma UpTouchesOnlyNew(s: ProxyManager.State, app: Application, name: string, r: Replies)
    ensures forall a, id :: a in UpActs(s, app, name, r) && Touches(a, id) ==> r.created.Some? && id == r.created.value
  {
    hide BecomesHealthy, RouteGoesLive, Routable;
  }

  /** A discarded container leaves the others, and itself only if it could not be removed. */
  ghost predicate Discarded(before: Containers, after: Containers, new_: string, removed: bool) {
    if removed then after == before
    else new_ in after && after - {new_} == before
  }

  lemma DiscardResult(c: Containers, id: string, r: Replies)
    requires id !in c
    ensures Discarded(c, Replay(c[id := Up], DiscardActs(id, r)), id, r.removeNew)
  {
    ReplayTwo(c[id := Up], DidStop(id, r.stopNew), DidRemove(id, r.removeNew));
    assert c[id := Up] - {id} == c && c[id := Down] - {id} == c;
  }

  lemma StartResult(c: Containers, name: string, r: Replies)
    requires r.created.Some? && r.created.value !in c
    ensures r.started ==> Replay(c, StartActs(name, r)) == c[r.created.value := Up]
    ensures !r.started ==> Discarded(c, Replay(c, StartActs(name, r)), r.created.value, r.removeNew)
  {
    var id := r.created.value;
    ReplayTwo(c, DidCreate(id, name), DidStart(id, r.started));
    assert c[id := Made][id := Up] == c[id := Up];
    if !r.started {
      var two := [DidCreate(id, name), DidStart(id, false)];
      ReplayAppend(c, two, [DidRemove(id, r.removeNew)]);
      ReplayOne(c[id := Made], DidRemove(id, r.removeNew));
      assert StartActs(name, r) == two + [DidRemove(id, r.removeNew)];
      assert c[id := Made] - {id} == c;
    }
  }

  lemma CheckResult(c: Containers, s: ProxyManager.State, app: Application, id: string, r: Replies)
    requires id !in c
    ensures var ok := BecomesHealthy(r.ticks, app.healthcheckPath, app.port) && RouteGoesLive(s, app, r);
      var acts := CheckActs(s, app, id, r);
      && (ok ==> Replay(c[id := Up], acts) == c[id := Up] && Passed(id) in acts && (Routable(app) ==> Routed in acts))
      && (!ok ==> Discarded(c, Replay(c[id := Up], acts), id, r.removeNew))
  {
    hide BecomesHealthy, RouteGoesLive, Routable, Discarded, DiscardActs;
    DiscardResult(c, id, r);
    if BecomesHealthy(r.ticks, app.healthcheckPath, app.port) {
      ReplayAppend(c[id := Up], [Passed(id)], RouteActs(s, app, id, r));
      ReplayOne(c[id := Up], Passed(id));
      ReplayOne(c[id := Up], Routed);
      assert CheckActs(s, app, id, r) == [Passed(id)] + RouteActs(s, app, id, r);
    } else {
      assert DiscardActs(id, r) + [] == DiscardActs(id, r);
    }
  }

  /** Coming up adds the new container, passed and routed; failing leaves the old ones as they were. */
  lemma UpResult(c: Containers, s: ProxyManager.State, app: Application, name: string, r: Replies)
    requires r.created.Some? && r.created.value !in c
    ensures var id, acts := r.created.value, UpActs(s, app, name, r);
      && (ComesUp(s, app, r) ==> Replay(c, acts) == c[id := Up] && Passed(id) in acts && (Routable(app) ==> Routed in acts))
      && (!ComesUp(s, app, r) ==> Discarded(c, Replay(c, acts), id, r.removeNew))
  {
    hide BecomesHealthy, RouteGoesLive, Routable, Discarded, CheckActs, StartActs;
    var id := r.created.value;
    StartResult(c, name, r);
    if r.started {
      ReplayAppend(c, StartActs(name, r), CheckActs(s, app, id, r));
      CheckResult(c, s, app, id, r);
    } else {
      assert StartActs(name, r) + [] == StartActs(name, r);
    }
  }

  /** What is left of the previous container. */
  function WithoutOld(c: Containers, oldID: string, r: Replies): Containers {
    if r.removeOld then c - {oldID}
    else if r.stopOld && oldID in c then c[oldID := Down]
    else c
  }

  lemma SwitchResult(c: Containers, oldID: string, id: string, r: Replies)
    ensures Replay(c, SwitchActs(oldID, id, r)) == if oldID == "" || oldID == id then c else WithoutOld(c, oldID, r)
  {
    if oldID != "" && oldID != id {
      ReplayTwo(c, DidStop(oldID, r.stopOld), DidRemove(oldID, r.removeOld));
      assert c[oldID := Down] - {oldID} == c - {oldID};
    }
  }

  /* ---- one run ---- */

  /** A run succeeds exactly when there is an application, its source is at hand, its image is built or pulled
      unless this is a rollback, the container is created, started and healthy, and a public application's
      route passes both checks and is accepted. */
  lemma RunSucceedsIff(w: World, depID: string, rollbackTo: string, r: Replies, ok: bool, t: World)
    requires Runs(w, depID, rollbackTo, r, ok, t)
    ensures ok <==>
              && w.record.Some?
              && (var app := w.record.value;
                  && (|| rollbackTo != ""
                      || (app.source.kind == Git && r.sourceReady && r.dockerfileFound && r.built.Some?)
                      || (app.source.kind == Image && r.pulled))
                  && r.created.Some? && r.started && BecomesHealthy(r.ticks, app.healthcheckPath, app.port)
                  && (Routable(app) ==>
                        && RouteTable.ValidRoute(RouteOf(app)) && r.load == ProxyManager.Accept
                        && RouteTable.ValidRoutes(w.proxy.routes[app.id := RouteOf(app)])))
  {
    hide BecomesHealthy, RouteTable.ValidRoute, RouteTable.ValidRoutes, RouteOf, Routable, LandActs, Replay, Proxied;
    if w.record.Some? {
      RouteOwner(w.record.value);
    }
  }

  /** What a run is about to do when it has an image: the container is created from the rollback target, the
      build's tag, or the application's reference, in that order of precedence. */
  lemma CreatedFirst(w: World, depID: string, rollbackTo: string, r: Replies)
    requires HasImage(w, rollbackTo, r) && r.created.Some?
    ensures var app, acts := w.record.value, ActsOf(w, depID, rollbackTo, r);
      && |acts| >= 2 && acts[0].DidCreate? && acts[0].id == r.created.value
      && acts[1] == DidStart(r.created.value, r.started)
      && acts[0].image == if rollbackTo != "" then rollbackTo
                          else if app.source.kind == Git then "liteploy-" + app.id + ":" + depID else app.source.imageRef
  {
    hide ComesUp, CheckActs, SwitchActs;
  }

  /** A container that was started is stopped before it is removed. */
  lemma StoppedBeforeRemoved(w: World, depID: string, rollbackTo: string, r: Replies, k: nat)
    requires k < |ActsOf(w, depID, rollbackTo, r)| && ActsOf(w, depID, rollbackTo, r)[k].DidRemove?
    ensures var acts := ActsOf(w, depID, rollbackTo, r);
      k > 0 && acts[k - 1].id == acts[k].id && (acts[k - 1].DidStop? || acts[k - 1] == DidStart(acts[k].id, false))
  {
    hide RouteGoesLive, BecomesHealthy, ComesUp;
    var app := w.record.value;
    var name := RunName(app, depID, rollbackTo);
    var up := UpActs(w.proxy, app, name, r);
    var acts := ActsOf(w, depID, rollbackTo, r);
    if k < |up| {
      assert up[k].DidRemove?;
      UpStopsFirst(w.proxy, app, name, r, k);
      assert acts[k - 1] == up[k - 1];
    }
  }

  lemma UpStopsFirst(s: ProxyManager.State, app: Application, name: string, r: Replies, k: nat)
    requires k < |UpActs(s, app, name, r)| && UpActs(s, app, name, r)[k].DidRemove?
    ensures var acts := UpActs(s, app, name, r);
      k > 0 && !acts[k - 1].Routed? && acts[k - 1].id == acts[k].id
      && (acts[k - 1].DidStop? || acts[k - 1] == DidStart(acts[k].id, false))
  {
    hide RouteGoesLive, BecomesHealthy, Routable;
  }

  lemma FailureLeavesAll(w: World, depID: string, rollbackTo: string, r: Replies, t: World)
    requires Settled(w) && FreshID(w, r) && Runs(w, depID, rollbackTo, r, false, t)
    ensures t.record == w.record && t.proxy.active == w.proxy.active
    ensures w.containers.Keys <= t.containers.Keys && forall c :: c in w.containers ==> t.containers[c] == w.containers[c]
    ensures CleanedUp(w, rollbackTo, r, false) <==> t.containers == w.containers
  {
    hide HasImage, ImageAvailable, ImageFor, SourceResolves, ComesUp, UpActs, Switched, Proxied;
    if HasImage(w, rollbackTo, r) {
      var name := RunName(w.record.value, depID, rollbackTo);
      var acts := UpActs(w.proxy, w.record.value, name, r);
      assert acts + [] == acts;
      if r.created.Some? {
        var id := r.created.value;
        UpResult(w.containers, w.proxy, w.record.value, name, r);
        forall c | c in w.containers ensures c in t.containers && t.containers[c] == w.containers[c] {
          assert c in t.containers - {id} || r.removeNew;
        }
      } else {
        NothingCreated(w.proxy, w.record.value, name, r);
      }
    }
  }

  lemma NothingCreated(s: ProxyManager.State, app: Application, name: string, r: Replies)
    requires r.created.None?
    ensures UpActs(s, app, name, r) == []
  {
  }

  lemma SuccessSwitches(w: World, depID: string, rollbackTo: string, r: Replies, t: World)
    requires Settled(w) && FreshID(w, r) && Runs(w, depID, rollbackTo, r, true, t)
    ensures r.created.Some? && r.created.value in t.containers && t.containers[r.created.value] == Up
    ensures BecomesHealthy(r.ticks, w.record.value.healthcheckPath, w.record.value.port)
    ensures CleanedUp(w, rollbackTo, r, true) <==> Settled(t)
    ensures CleanedUp(w, rollbackTo, r, true) ==>
              t.containers == map[r.created.value := Up] && t.record.value.lastDeploymentID == depID
              && t.record.value.containerID == r.created.value
  {
    hide HasImage, ImageAvailable, ImageFor, SourceResolves, Proxied, BecomesHealthy, RouteGoesLive, UpActs, SwitchActs;
    var app := w.record.value;
    var id, oldID := r.created.value, app.containerID;
    var name := RunName(app, depID, rollbackTo);
    var both := w.containers[id := Up];
    UpResult(w.containers, w.proxy, app, name, r);
    ReplayAppend(w.containers, UpActs(w.proxy, app, name, r), SwitchActs(oldID, id, r));
    SwitchResult(both, oldID, id, r);
    if oldID == "" {
      assert t.containers == map[id := Up];
    } else if r.removeOld {
      assert both - {oldID} == map[id := Up];
    } else {
      assert oldID in t.containers && id in t.containers && oldID != id;
    }
  }

  /** The record after a successful run: running, on the new container, under this deployment, with the image
      that was rolled back to, built or pulled, and otherwise as before. */
  lemma SuccessRecords(w: World, depID: string, rollbackTo: string, r: Replies, t: World)
    requires Runs(w, depID, rollbackTo, r, true, t) && r.updated
    ensures t.record.Some? && w.record.Some? && r.created.Some?
    ensures var a, b := w.record.value, t.record.value;
      && b == a.(status := b.status, containerID := b.containerID, lastDeploymentID := b.lastDeploymentID, imageID := b.imageID)
      && b.status == Applications.Running && b.containerID == r.created.value && b.lastDeploymentID == depID
      && (rollbackTo != "" ==> b.imageID == rollbackTo)
      && (rollbackTo == "" && a.source.kind == Image && a.source.imageRef != "" ==> b.imageID == a.source.imageRef)
      && (rollbackTo == "" && a.source.kind == Git && r.built != Some("") ==> Some(b.imageID) == r.built)
  {
    hide BecomesHealthy, RouteGoesLive, LandActs, Replay, Proxied;
  }

  /** After a successful run of a routed application the server's configuration is compiled from a table
      that holds the application's route. */
  lemma SuccessRoutesTraffic(w: World, depID: string, rollbackTo: string, r: Replies, t: World)
    requires Runs(w, depID, rollbackTo, r, true, t) && RoutedApp(w)
    ensures var app := w.record.value;
      && t.proxy.active.Some? && RouteCompiler.IsCompilation(t.proxy.active.value, t.proxy.routes, t.proxy.dash)
      && app.id in t.proxy.routes && t.proxy.routes[app.id] == RouteOf(app)
  {
    hide RouteCompiler.IsCompilation, RouteOf, BecomesHealthy, LandActs, Replay, Routable;
    RouteOwner(w.record.value);
  }

  /** Between runs the containers are exactly the recorded one if and only if every ignored call of the
      run succeeded. */
  lemma RunSettlesIff(w: World, depID: string, rollbackTo: string, r: Replies, ok: bool, t: World)
    requires Settled(w) && FreshID(w, r) && Runs(w, depID, rollbackTo, r, ok, t)
    ensures Settled(t) <==> CleanedUp(w, rollbackTo, r, ok)
  {
    hide Runs, CleanedUp;
    if ok {
      SuccessSwitches(w, depID, rollbackTo, r, t);
    } else {
      FailureLeavesAll(w, depID, rollbackTo, r, t);
    }
  }

  /** A dropped update error after a removed container leaves a record that names no container. */
  lemma DroppedUpdateDangles(w: World, depID: string, rollbackTo: string, r: Replies, t: World)
    requires Settled(w) && FreshID(w, r) && Runs(w, depID, rollbackTo, r, true, t)
    requires w.record.value.containerID != "" && r.removeOld && !r.updated
    ensures t.record.Some? && t.record.value.containerID != "" && t.record.value.containerID !in t.containers
  {
    hide ImageAvailable, ImageFor, SourceResolves, Proxied, RouteGoesLive, BecomesHealthy, Switched;
  }

  /** Such a run: a worker's image is pulled and its container comes up, but the record cannot be stored. */
  lemma DroppedUpdateHappens() returns (w: World, r: Replies, t: World)
    ensures Settled(w) && FreshID(w, r) && Runs(w, "0002", "", r, true, t) && !r.updated
    ensures t.record == w.record && t.record.value.containerID == "old" && t.containers == map["new" := Up]
  {
    var app := Application("app-001", "mailer", "", "worker", Source(Image, "mail:2", true), [], 0,
                           Applications.Running, "old", "mail:1", "0001", "", map[], 0, 0);
    var proxy := ProxyManager.State(map[], RouteCompiler.Dashboard("", ""), None, None);
    r := Replies(true, true, None, true, Some("new"), true, [Report("running", "healthy", "", false)],
                 ProxyManager.Accept, ProxyManager.Accept, true, true, false, true, true);
    w := World(map["old" := Up], Some(app), proxy);
    t := World(map["new" := Up], Some(app), proxy);
    assert BecomesHealthy(r.ticks, "", 0) by {
      assert Judge(r.ticks[0], "", 0) == Pass;
    }
    var name := "mail:2";
    UpResult(w.containers, proxy, app, name, r);
    ReplayAppend(w.containers, UpActs(proxy, app, name, r), SwitchActs("old", "new", r));
    SwitchResult(w.containers["new" := Up], "old", "new", r);
    assert w.containers["new" := Up] - {"old"} == t.containers;
  }

  /* ---- any number of runs ---- */

  datatype Deploy = Deploy(depID: string, rollbackTo: string, replies: Replies, ok: bool)

  ghost predicate History(worlds: seq<World>, runs: seq<Deploy>) {
    && |worlds| == |runs| + 1
    && forall i :: 0 <= i < |runs| ==>
         FreshID(worlds[i], runs[i].replies)
         && Runs(worlds[i], runs[i].depID, runs[i].rollbackTo, runs[i].replies, runs[i].ok, worlds[i + 1])
  }

  ghost predicate AllCleanedUp(worlds: seq<World>, runs: seq<Deploy>)
    requires History(worlds, runs)
  {
    forall i :: 0 <= i < |runs| && worlds[i].record.Some? ==> CleanedUp(worlds[i], runs[i].rollbackTo, runs[i].replies, runs[i].ok)
  }

  /** The container of the latest successful run among the first `n`, or the initial one. */
  ghost function Serving(worlds: seq<World>, runs: seq<Deploy>, n: nat): string
    requires History(worlds, runs) && n <= |runs| && worlds[0].record.Some?
  {
    if n == 0 then worlds[0].record.value.containerID
    else if runs[n - 1].ok && runs[n - 1].replies.created.Some? then runs[n - 1].replies.created.value
    else Serving(worlds, runs, n - 1)
  }

  /** Over any sequence of runs with failures anywhere, after each run exactly the container of the latest
      successful run is there and recorded. */
  lemma {:induction false} ServesAcrossRuns(worlds: seq<World>, runs: seq<Deploy>, n: nat)
    requires History(worlds, runs) && Settled(worlds[0]) && AllCleanedUp(worlds, runs) && n <= |runs|
    ensures Settled(worlds[n]) && worlds[n].record.value.containerID == Serving(worlds, runs, n)
  {
    hide Runs, CleanedUp, Settled, FreshID;
    if n > 0 {
      ServesAcrossRuns(worlds, runs, n - 1);
      SettledHasRecord(worlds[n - 1]);
      OneMoreRun(worlds[n - 1], runs[n - 1], worlds[n]);
    } else {
      SettledHasRecord(worlds[0]);
    }
  }

  lemma SettledHasRecord(w: World)
    requires Settled(w)
    ensures w.record.Some?
  {
  }

  lemma OneMoreRun(w: World, d: Deploy, t: World)
    requires Settled(w) && FreshID(w, d.replies) && Runs(w, d.depID, d.rollbackTo, d.replies, d.ok, t)
    requires CleanedUp(w, d.rollbackTo, d.replies, d.ok)
    ensures Settled(t)
    ensures t.record.value.containerID == if d.ok && d.replies.created.Some? then d.replies.created.value else w.record.value.containerID
  {
    hide Runs, CleanedUp;
    if d.ok {
      SuccessSwitches(w, d.depID, d.rollbackTo, d.replies, t);
    } else {
      FailureLeavesAll(w, d.depID, d.rollbackTo, d.replies, t);
    }
  }

  /* ---- no gap ---- */

  /** Somebody serves: the old container is up, or the new one is, has passed its health check and, where
      the application is routed, its route has been accepted. */
  ghost predicate Serves(c: Containers, done: seq<Act>, oldID: string, new_: string, routed: bool) {
    || (oldID in c && c[oldID] == Up)
    || (new_ in c && c[new_] == Up && Passed(new_) in done && (routed ==> Routed in done))
  }

  ghost predicate RoutedApp(w: World) {
    w.record.Some? && Routable(w.record.value)
  }

  /** `done` are the acts of a run so far, and `c` is the container set they have led to. */
  ghost predicate Moment(w: World, depID: string, rollbackTo: string, r: Replies, k: nat, done: seq<Act>, c: Containers) {
    && k <= |ActsOf(w, depID, rollbackTo, r)|
    && done == ActsOf(w, depID, rollbackTo, r)[..k]
    && c == if k == 0 then w.containers else Trail(w.containers, ActsOf(w, depID, rollbackTo, r))[k - 1]
  }

  lemma MomentIsReplay(w: World, depID: string, rollbackTo: string, r: Replies, k: nat, done: seq<Act>, c: Containers)
    requires Moment(w, depID, rollbackTo, r, k, done, c)
    ensures c == Replay(w.containers, done)
  {
    hide ActsOf;
    if k > 0 {
      TrailAt(w.containers, ActsOf(w, depID, rollbackTo, r), k - 1);
    }
  }

  /** At every moment of a run, failing or not, somebody serves, if somebody did at its start. */
  lemma NoGapDuringRun(w: World, depID: string, rollbackTo: string, r: Replies, k: nat, done: seq<Act>, c: Containers)
    requires Settled(w) && FreshID(w, r) && w.record.value.containerID != ""
    requires Moment(w, depID, rollbackTo, r, k, done, c)
    ensures Serves(c, done, w.record.value.containerID, if r.created.Some? then r.created.value else "", RoutedApp(w))
  {
    hide HasImage, ComesUp, UpActs, SwitchActs, Routable, Trail;
    var app, oldID := w.record.value, w.record.value.containerID;
    MomentIsReplay(w, depID, rollbackTo, r, k, done, c);
    var name := RunName(app, depID, rollbackTo);
    var up := UpActs(w.proxy, app, name, r);
    if !HasImage(w, rollbackTo, r) {
      UntouchedStays(w.containers, done, oldID);
    } else if k <= |up| {
      assert done == up[..k];
      UpTouchesOnlyNew(w.proxy, app, name, r);
      assert forall a :: a in done ==> a in up;
      UntouchedStays(w.containers, done, oldID);
    } else {
      ComesUpCreated(w.proxy, app, r);
      NewServesThroughSwitch(w, app, name, r, done, k - |up|);
    }
  }

  lemma NewServesThroughSwitch(w: World, app: Application, name: string, r: Replies, done: seq<Act>, k: nat)
    requires ComesUp(w.proxy, app, r) && r.created.Some? && r.created.value !in w.containers
    requires k <= |SwitchActs(app.containerID, r.created.value, r)|
    requires done == UpActs(w.proxy, app, name, r) + SwitchActs(app.containerID, r.created.value, r)[..k]
    ensures var id, c := r.created.value, Replay(w.containers, done);
      id in c && c[id] == Up && Passed(id) in done && (Routable(app) ==> Routed in done)
  {
    hide ComesUp, UpActs, Routable;
    var id := r.created.value;
    var up, sw := UpActs(w.proxy, app, name, r), SwitchActs(app.containerID, id, r)[..k];
    UpResult(w.containers, w.proxy, app, name, r);
    ReplayAppend(w.containers, up, sw);
    assert forall a :: a in sw ==> !Touches(a, id);
    UntouchedStays(w.containers[id := Up], sw, id);
  }

  /** Nothing but the new container is stopped or removed before the new one has passed its health check
      and, where routed, its route has been accepted. */
  lemma OldIsTouchedLast(w: World, depID: string, rollbackTo: string, r: Replies, k: nat, id: string)
    requires FreshID(w, r) && k < |ActsOf(w, depID, rollbackTo, r)|
    requires var a := ActsOf(w, depID, rollbackTo, r)[k]; (a.DidStop? || a.DidRemove?) && a.id == id
    ensures r.created.Some?
    ensures var done := ActsOf(w, depID, rollbackTo, r)[..k];
      id == r.created.value || (Passed(r.created.value) in done && (RoutedApp(w) ==> Routed in done))
  {
    hide ComesUp, UpActs, SwitchActs, Routable;
    var app := w.record.value;
    var name := RunName(app, depID, rollbackTo);
    var up := UpActs(w.proxy, app, name, r);
    UpTouchesOnlyNew(w.proxy, app, name, r);
    var acts := ActsOf(w, depID, rollbackTo, r);
    if k < |up| {
      assert acts[k] == up[k] && Touches(up[k], id);
    } else {
      ComesUpCreated(w.proxy, app, r);
      NewServesThroughSwitch(w, app, name, r, acts[..k], k - |up|);
    }
  }

  /** Over any sequence of runs: at every moment of every run, the container of the latest successful run
      before it is up, or the run's own container is and has passed and been routed. */
  lemma ServedAtEveryMoment(worlds: seq<World>, runs: seq<Deploy>, i: nat, k: nat, done: seq<Act>, c: Containers)
    requires History(worlds, runs) && Settled(worlds[0]) && AllCleanedUp(worlds, runs) && i < |runs|
    requires Serving(worlds, runs, i) != ""
    requires Moment(worlds[i], runs[i].depID, runs[i].rollbackTo, runs[i].replies, k, done, c)
    ensures var r := runs[i].replies;
      Serves(c, done, Serving(worlds, runs, i), if r.created.Some? then r.created.value else "", RoutedApp(worlds[i]))
  {
    hide Runs, CleanedUp, FreshID, Moment, Serves;
    ServesAcrossRuns(worlds, runs, i);
    NoGapDuringRun(worlds[i], runs[i].depID, runs[i].rollbackTo, runs[i].replies, k, done, c);
  }

  /* ---- the job ---- */

  /** The statuses a job shows: queued, preparing, the stages it entered, and one terminal status. */
  function JobHistory(rollbackTo: string, n: nat, end: Status): seq<Status>
    requires n <= 4
  {
    [Queued, Preparing] + (if rollbackTo != "" then [] else STAGES[..n]) + [end]
  }

  ghost predicate Climbs(h: seq<Status>) {
    forall i, j :: 0 <= i < j < |h| ==> Rank(h[i]) < Rank(h[j])
  }

  /** Ranks rise strictly, so only the last status is terminal. */
  lemma JobHistoryClimbs(rollbackTo: string, n: nat, end: Status)
    requires n <= 4 && IsTerminal(end)
    ensures var h := JobHistory(rollbackTo, n, end);
      Climbs(h) && forall i :: 0 <= i < |h| ==> (IsTerminal(h[i]) <==> i == |h| - 1)
  {
    var stages := if rollbackTo != "" then [] else STAGES[..n];
    assert forall i :: 0 <= i < |stages| ==> Rank(stages[i]) == i + 2 && !IsTerminal(stages[i]);
    var h := JobHistory(rollbackTo, n, end);
    assert forall i :: 0 <= i < |h| - 1 ==> Rank(h[i]) == i && !IsTerminal(h[i]);
  }

  class JobRunner {
    const pipeline: Pipeline
    var held: set<string>
    var cancelFns: set<string>
    var records: map<string, Deployment>

    constructor (pipeline: Pipeline)
      ensures this.pipeline == pipeline && held == {} && cancelFns == {} && records == map[]
    {
      this.pipeline := pipeline;
      held, cancelFns, records := {}, {}, map[];
    }

    /** The executor's part of a job, under the lock and with the log open. */
    method RunExecutor(dep: Deployment, r: Replies, hasExecutor: bool, cancelled: bool, now: int) returns (ghost n: nat)
      requires dep.Valid() && dep.history == [Queued]
      requires pipeline.proxy.Valid()
      modifies dep, pipeline.docker, pipeline.apps, pipeline.proxy, pipeline.proxy.caddy
      ensures dep.Valid() && IsTerminal(dep.status) && pipeline.proxy.Valid()
      ensures n <= 4 && dep.history == JobHistory(dep.rollbackTo, n, dep.status)
      ensures hasExecutor ==>
                Runs(old(pipeline.Abstract()), dep.id, dep.rollbackTo, r, dep.status == Success, pipeline.Abstract())
      ensures hasExecutor ==>
                pipeline.docker.View() == Logged(old(pipeline.docker.View()), ActsOf(old(pipeline.Abstract()), dep.id, dep.rollbackTo, r))
      ensures hasExecutor && dep.status == Success ==> n == 4
      ensures hasExecutor && dep.status != Success ==> dep.status == if cancelled then Cancelled else Status.Failed
    {
      hide Runs, ActsOf, Logged, ProxyManager.Good, Routable;
      dep.Start(now);
      dep.Assign(Preparing);
      n := 0;
      if hasExecutor {
        assert pipeline.Abstract() == old(pipeline.Abstract());
        var ok;
        ok, n := pipeline.Execute(dep, r, now);
        if !ok {
          if cancelled {
            dep.Cancel(now);
          } else {
            dep.Fail("execute", "pipeline error", now);
          }
        }
      } else {
        assert [Queued] + [Preparing] + [Success] == JobHistory(dep.rollbackTo, 0, Success);
        dep.Succeed(now);
      }
      assert hasExecutor ==> dep.history == [Queued] + [Preparing] + StagesUpTo(dep, n) + [dep.status];
    }

    /** One job from its lock to its release. The worker has waited for the lock to be free; `cancelled`
        says whether the job's context was cancelled by the time the executor returned. */
    method RunJob(dep: Deployment, r: Replies, logOpens: bool, hasExecutor: bool, cancelled: bool, now: int) returns (ghost n: nat)
      requires dep.Valid() && dep.history == [Queued] && dep.appID !in held
      requires pipeline.proxy.Valid()
      modifies this, dep, pipeline.docker, pipeline.apps, pipeline.proxy, pipeline.proxy.caddy
      ensures dep.Valid() && IsTerminal(dep.status) && dep.finishedAt.Some?
      ensures held == old(held) && cancelFns == old(cancelFns) - {dep.id}
      ensures records == old(records)[dep.id := dep]
      ensures !logOpens ==> dep.history == [Queued, Status.Failed] && pipeline.Abstract() == old(pipeline.Abstract())
      ensures logOpens ==> n <= 4 && dep.history == JobHistory(dep.rollbackTo, n, dep.status)
      ensures logOpens && hasExecutor ==>
                Runs(old(pipeline.Abstract()), dep.id, dep.rollbackTo, r, dep.status == Success, pipeline.Abstract())
      ensures logOpens && hasExecutor ==>
                pipeline.docker.View() == Logged(old(pipeline.docker.View()), ActsOf(old(pipeline.Abstract()), dep.id, dep.rollbackTo, r))
      ensures logOpens && hasExecutor && dep.status == Success ==> n == 4
      ensures logOpens && hasExecutor && dep.status != Success ==> dep.status == if cancelled then Cancelled else Status.Failed
      ensures pipeline.proxy.Valid()
    {
      hide Runs, ActsOf, Logged, ProxyManager.Good, JobHistory;
      held := held + {dep.appID};
      cancelFns := cancelFns + {dep.id};
      n := 0;
      assert pipeline.Abstract() == old(pipeline.Abstract());
      if !logOpens {
        dep.Fail("prepare", "failed to open log file", now);
      } else {
        n := RunExecutor(dep, r, hasExecutor, cancelled, now);
      }
      records := records[dep.id := dep];
      cancelFns := cancelFns - {dep.id};
      held := held - {dep.appID};
    }
  }
}
