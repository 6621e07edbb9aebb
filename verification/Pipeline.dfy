/** One deployment run: prepare, build, start, health-check, route, switch over. */
module Pipeline {
  import opened DeploymentStatus
  import opened Deployments
  import opened Options
  import opened Applications
  import opened ProxyManager
  import RouteTable
  import RouteCompiler

  /* ---- the world outside ---- */

  datatype ContainerState = Made | Up | Down

  /** What happened, in order: container calls with their outcome, and the two verdicts that traffic
      depends on. */
  datatype Act =
    | DidCreate(id: string, image: string)
    | DidStart(id: string, ok: bool)
    | Passed(id: string)
    | Routed
    | DidStop(id: string, ok: bool)
    | DidRemove(id: string, ok: bool)

  type Containers = map<string, ContainerState>

  function After(c: Containers, a: Act): Containers {
    match a
    case DidCreate(id, _) => c[id := Made]
    case DidStart(id, ok) => if ok then c[id := Up] else c
    case DidStop(id, ok) => if ok && id in c then c[id := Down] else c
    case DidRemove(id, ok) => if ok then c - {id} else c
    case _ => c
  }

  function Replay(c: Containers, acts: seq<Act>): Containers {
    if acts == [] then c else After(Replay(c, acts[..|acts| - 1]), acts[|acts| - 1])
  }

  /** The container set after each act. */
  function Trail(c: Containers, acts: seq<Act>): (t: seq<Containers>)
    ensures |t| == |acts|
  {
    if acts == [] then [] else Trail(c, acts[..|acts| - 1]) + [Replay(c, acts)]
  }

  datatype Log = Log(containers: Containers, journal: seq<Act>, trail: seq<Containers>)

  function Logged(l: Log, acts: seq<Act>): Log {
    Log(Replay(l.containers, acts), l.journal + acts, l.trail + Trail(l.containers, acts))
  }

  lemma {:induction false} TrailAt(c: Containers, acts: seq<Act>, k: nat)
    requires k < |acts|
    ensures Trail(c, acts)[k] == Replay(c, acts[..k + 1])
  {
    var init := acts[..|acts| - 1];
    if k < |init| {
      TrailAt(c, init, k);
      assert init[..k + 1] == acts[..k + 1];
    } else {
      assert acts[..k + 1] == acts;
    }
  }

  lemma {:induction false} ReplayAppend(c: Containers, a: seq<Act>, b: seq<Act>)
    ensures Replay(c, a + b) == Replay(Replay(c, a), b)
    ensures Trail(c, a + b) == Trail(c, a) + Trail(Replay(c, a), b)
  {
    if b == [] {
      assert a + b == a;
    } else {
      var n := |b| - 1;
      ReplayAppend(c, a, b[..n]);
      assert (a + b)[..|a + b| - 1] == a + b[..n];
      assert (a + b)[|a + b| - 1] == b[n];
    }
  }

  lemma LoggedAppend(l: Log, a: seq<Act>, b: seq<Act>)
    ensures Logged(Logged(l, a), b) == Logged(l, a + b)
  {
    ReplayAppend(l.containers, a, b);
    assert l.journal + a + b == l.journal + (a + b);
    assert l.trail + Trail(l.containers, a) + Trail(Replay(l.containers, a), b)
        == l.trail + (Trail(l.containers, a) + Trail(Replay(l.containers, a), b));
  }

  lemma LoggedNothing(l: Log)
    ensures Logged(l, []) == l
  {
  }

  /** The containers of one application. `trail` is every container set there has been. */
  class Docker {
    var containers: Containers
    ghost var journal: seq<Act>
    ghost var trail: seq<Containers>

    ghost function View(): Log
      reads this
    {
      Log(containers, journal, trail)
    }

    ghost method Note(a: Act)
      requires a.Passed? || a.Routed?
      modifies this`journal, this`trail
      ensures View() == Logged(old(View()), [a])
    {
      journal, trail := journal + [a], trail + [containers];
      LoggedOne(old(View()), a);
    }

    method Create(id: string, name: string)
      modifies this
      ensures View() == Logged(old(View()), [DidCreate(id, name)])
    {
      containers := containers[id := Made];
      journal, trail := journal + [DidCreate(id, name)], trail + [containers];
      LoggedOne(old(View()), DidCreate(id, name));
    }

    method Start(id: string, ok: bool)
      modifies this
      ensures View() == Logged(old(View()), [DidStart(id, ok)])
    {
      if ok {
        containers := containers[id := Up];
      }
      journal, trail := journal + [DidStart(id, ok)], trail + [containers];
      LoggedOne(old(View()), DidStart(id, ok));
    }

    /** Stopping and removing are best effort: the caller ignores a failure. */
    method Stop(id: string, ok: bool)
      modifies this
      ensures View() == Logged(old(View()), [DidStop(id, ok)])
    {
      if ok && id in containers {
        containers := containers[id := Down];
      }
      journal, trail := journal + [DidStop(id, ok)], trail + [containers];
      LoggedOne(old(View()), DidStop(id, ok));
    }

    method Remove(id: string, ok: bool)
      modifies this
      ensures View() == Logged(old(View()), [DidRemove(id, ok)])
    {
      if ok {
        containers := containers - {id};
      }
      journal, trail := journal + [DidRemove(id, ok)], trail + [containers];
      LoggedOne(old(View()), DidRemove(id, ok));
    }
  }

  lemma LoggedOne(l: Log, a: Act)
    ensures Logged(l, [a]) == Log(After(l.containers, a), l.journal + [a], l.trail + [After(l.containers, a)])
  {
    assert [a][..0] == [];
    assert Trail(l.containers, [a]) == [] + [Replay(l.containers, [a])];
  }

  /** The stored application record; an update may fail, and the pipeline drops that error. */
  class AppStore {
    var record: Option<Application>

    method Update(app: Application, ok: bool)
      modifies this
      ensures record == if ok then Some(app) else old(record)
    {
      if ok {
        record := Some(app);
      }
    }
  }

  /** Everything the outside world answers during one run. */
  datatype Replies = Replies(
    sourceReady: bool,
    dockerfileFound: bool,
    built: Option<string>,
    pulled: bool,
    created: Option<string>,
    started: bool,
    ticks: seq<Tick>,
    load: Reply,
    rollback: Reply,
    stopNew: bool,
    removeNew: bool,
    updated: bool,
    stopOld: bool,
    removeOld: bool)

  const STAGES := [Building, Starting, HealthCheck, Routing]

  /** The statuses a run adds before its terminal one: a prefix of the stages, none for a rollback. */
  function StagesUpTo(dep: Deployment, n: nat): seq<Status>
    requires n <= 4
  {
    if dep.rollbackTo != "" then [] else STAGES[..n]
  }

  /* ---- the stages ---- */

  /** The source can be prepared. */
  predicate SourceResolves(app: Application, rollbackTo: string, r: Replies) {
    rollbackTo != "" || (app.source.kind == Git && r.sourceReady) || app.source.kind == Image
  }

  predicate ImageAvailable(app: Application, rollbackTo: string, r: Replies) {
    rollbackTo != "" || (if app.source.kind == Git then r.dockerfileFound && r.built.Some? else r.pulled)
  }

  /** The image the run deploys. */
  function ImageFor(app: Application, rollbackTo: string, r: Replies): string
    requires ImageAvailable(app, rollbackTo, r)
  {
    if rollbackTo != "" then rollbackTo
    else if app.source.kind == Git then r.built.value
    else app.source.imageRef
  }

  /** The image that the container is created from: a build is referred to by its tag. */
  function RunName(app: Application, depID: string, rollbackTo: string): string {
    if rollbackTo != "" then rollbackTo
    else if app.source.kind == Git then "liteploy-" + app.id + ":" + depID
    else app.source.imageRef
  }

  /** The route is accepted by the checks and by the server. */
  ghost predicate RouteGoesLive(s: ProxyManager.State, app: Application, r: Replies) {
    Routable(app) ==>
      RouteTable.ValidRoute(RouteOf(app)) && !Refused(s, Upsert(RouteOf(app))) && r.load.Accept?
  }

  /* ---- what a run does to containers ---- */

  function DiscardActs(id: string, r: Replies): seq<Act> {
    [DidStop(id, r.stopNew), DidRemove(id, r.removeNew)]
  }

  /** Creates and starts the new container; one that does not start is removed. */
  function StartActs(name: string, r: Replies): seq<Act> {
    if r.created.None? then []
    else if r.started then [DidCreate(r.created.value, name), DidStart(r.created.value, true)]
    else [DidCreate(r.created.value, name), DidStart(r.created.value, false), DidRemove(r.created.value, r.removeNew)]
  }

  ghost function HealthActs(app: Application, id: string, r: Replies): seq<Act> {
    if BecomesHealthy(r.ticks, app.healthcheckPath, app.port) then [Passed(id)] else DiscardActs(id, r)
  }

  ghost function RouteActs(s: ProxyManager.State, app: Application, id: string, r: Replies): seq<Act> {
    if !RouteGoesLive(s, app, r) then DiscardActs(id, r) else if Routable(app) then [Routed] else []
  }

  /** The verdicts a running new container still has to get. */
  ghost function CheckActs(s: ProxyManager.State, app: Application, id: string, r: Replies): seq<Act> {
    HealthActs(app, id, r)
    + if BecomesHealthy(r.ticks, app.healthcheckPath, app.port) then RouteActs(s, app, id, r) else []
  }

  /** From container creation to accepted route, or to the new container's removal. */
  ghost function UpActs(s: ProxyManager.State, app: Application, name: string, r: Replies): seq<Act> {
    StartActs(name, r) + if r.created.Some? && r.started then CheckActs(s, app, r.created.value, r) else []
  }

  /** The previous container is stopped and removed. */
  function SwitchActs(oldID: string, id: string, r: Replies): seq<Act> {
    if oldID == "" || oldID == id then [] else [DidStop(oldID, r.stopOld), DidRemove(oldID, r.removeOld)]
  }

  ghost function LandActs(s: ProxyManager.State, app: Application, name: string, r: Replies): seq<Act> {
    UpActs(s, app, name, r) + if ComesUp(s, app, r) then SwitchActs(app.containerID, r.created.value, r) else []
  }

  /** Everything one run does, in order. */
  ghost function ActsOf(w: World, depID: string, rollbackTo: string, r: Replies): seq<Act> {
    if HasImage(w, rollbackTo, r) then LandActs(w.proxy, w.record.value, RunName(w.record.value, depID, rollbackTo), r) else []
  }

  /** Enters a stage; the error for an undeclared edge is ignored, as on rollbacks. */
  method Enter(dep: Deployment, n: nat, stage: string, ghost history0: seq<Status>)
    requires dep.Valid() && n < 4
    requires dep.history == history0 + StagesUpTo(dep, n)
    requires dep.rollbackTo == "" ==> dep.status == if n == 0 then Preparing else STAGES[n - 1]
    requires dep.rollbackTo != "" ==> dep.status == Preparing && n > 0
    modifies dep`status, dep`history, dep`stage
    ensures dep.Valid()
    ensures dep.history == history0 + StagesUpTo(dep, n + 1)
    ensures dep.status == if dep.rollbackTo == "" then STAGES[n] else Preparing
  {
    var ok := dep.Transition(STAGES[n]);
    dep.stage := stage;
    assert STAGES[..n + 1] == STAGES[..n] + [STAGES[n]];
  }

  class Pipeline {
    const docker: Docker
    const apps: AppStore
    const proxy: Manager

    constructor (docker: Docker, apps: AppStore, proxy: Manager)
      ensures this.docker == docker && this.apps == apps && this.proxy == proxy
    {
      this.docker, this.apps, this.proxy := docker, apps, proxy;
    }

    /** The image to run: the rollback target, a build, or a pull. */
    method BuildImage(app: Application, dep: Deployment, r: Replies, ghost history0: seq<Status>) returns (image: Option<string>)
      requires dep.Valid() && dep.status == Preparing && dep.history == history0
      requires dep.rollbackTo != "" || app.source.kind in {Git, Image}
      modifies dep`status, dep`history, dep`stage, dep`imageID
      ensures dep.Valid()
      ensures image == if ImageAvailable(app, dep.rollbackTo, r) then Some(ImageFor(app, dep.rollbackTo, r)) else None
      ensures image.Some? ==> dep.imageID == image.value
      ensures dep.history == history0 + StagesUpTo(dep, 1)
      ensures dep.status == if dep.rollbackTo != "" then Preparing else Building
    {
      assert history0 == history0 + StagesUpTo(dep, 0);
      if dep.rollbackTo != "" {
        dep.imageID := dep.rollbackTo;
        return Some(dep.rollbackTo);
      }
      Enter(dep, 0, "building", history0);
      if app.source.kind == Git {
        if !r.dockerfileFound || r.built.None? {
          return None;
        }
        dep.imageID := r.built.value;
        return r.built;
      }
      if !r.pulled {
        return None;
      }
      dep.imageID := app.source.imageRef;
      return Some(app.source.imageRef);
    }

    /** Creates and starts the new container; one that does not start is removed. */
    method StartContainer(dep: Deployment, name: string, r: Replies) returns (ok: bool)
      modifies docker, dep`containerID
      ensures ok <==> r.created.Some? && r.started
      ensures r.created.Some? ==> dep.containerID == r.created.value
      ensures docker.View() == Logged(old(docker.View()), StartActs(name, r))
    {
      hide Logged;
      ghost var v := docker.View();
      if r.created.None? {
        LoggedNothing(v);
        return false;
      }
      var id := r.created.value;
      docker.Create(id, name);
      dep.containerID := id;
      docker.Start(id, r.started);
      LoggedAppend(v, [DidCreate(id, name)], [DidStart(id, r.started)]);
      assert [DidCreate(id, name)] + [DidStart(id, r.started)] == [DidCreate(id, name), DidStart(id, r.started)];
      if !r.started {
        docker.Remove(id, r.removeNew);
        LoggedAppend(v, [DidCreate(id, name), DidStart(id, false)], [DidRemove(id, r.removeNew)]);
        assert [DidCreate(id, name), DidStart(id, false)] + [DidRemove(id, r.removeNew)] == StartActs(name, r);
        return false;
      }
      return true;
    }

    /** Stops and removes the new container after a failure. */
    method Discard(id: string, r: Replies)
      modifies docker
      ensures docker.View() == Logged(old(docker.View()), DiscardActs(id, r))
    {
      hide Logged;
      docker.Stop(id, r.stopNew);
      docker.Remove(id, r.removeNew);
      LoggedAppend(old(docker.View()), [DidStop(id, r.stopNew)], [DidRemove(id, r.removeNew)]);
      assert [DidStop(id, r.stopNew)] + [DidRemove(id, r.removeNew)] == DiscardActs(id, r);
    }

    method CheckHealth(app: Application, id: string, r: Replies) returns (ok: bool)
      modifies docker
      ensures ok <==> BecomesHealthy(r.ticks, app.healthcheckPath, app.port)
      ensures docker.View() == Logged(old(docker.View()), HealthActs(app, id, r))
    {
      hide Logged, DiscardActs, BecomesHealthy;
      ok := WaitForHealth(r.ticks, app.healthcheckPath, app.port);
      if ok {
        docker.Note(Passed(id));
      } else {
        Discard(id, r);
      }
    }

    /** Points Caddy at the application when it has public routes. */
    method RouteTraffic(app: Application, id: string, r: Replies) returns (ok: bool)
      requires proxy.Valid()
      modifies docker, proxy, proxy.caddy
      ensures proxy.Valid()
      ensures ok <==> RouteGoesLive(old(proxy.Abstract()), app, r)
      ensures !ok ==> proxy.caddy.active == old(proxy.caddy.active)
      ensures !Routable(app) ==> proxy.Abstract() == old(proxy.Abstract())
      ensures Routable(app) && ok ==> Step(old(proxy.Abstract()), Upsert(RouteOf(app)), Accept, proxy.Abstract())
      ensures docker.View() == Logged(old(docker.View()), RouteActs(old(proxy.Abstract()), app, id, r))
    {
      hide RouteTable.ValidRoute, RouteTable.ValidRoutes, RouteCompiler.IsCompilation, RouteOf, Logged, DiscardActs;
      if !Routable(app) {
        LoggedNothing(docker.View());
        return true;
      }
      var route := RouteOf(app);
      assert route.appID == app.id by { RouteOwner(app); }
      var valid := RouteTable.ValidateRoute(route);
      if !valid {
        Discard(id, r);
        return false;
      }
      var o := proxy.UpsertRoute(route, r.load, r.rollback);
      if o != Done {
        Discard(id, r);
        return false;
      }
      docker.Note(Routed);
      return true;
    }

    /** From container creation to accepted route. Whatever fails, the server's configuration is not changed,
        and the new container is discarded. */
    method BringUp(app: Application, dep: Deployment, name: string, r: Replies, ghost history0: seq<Status>)
        returns (ok: bool, ghost n: nat)
      requires dep.Valid() && proxy.Valid()
      requires dep.history == history0 + StagesUpTo(dep, 1)
      requires dep.status == if dep.rollbackTo != "" then Preparing else Building
      modifies docker, proxy, proxy.caddy
      modifies dep`status, dep`history, dep`stage, dep`containerID
      ensures dep.Valid() && proxy.Valid()
      ensures ok <==> ComesUp(old(proxy.Abstract()), app, r)
      ensures !ok ==> proxy.caddy.active == old(proxy.caddy.active)
      ensures ok ==> Proxied(old(proxy.Abstract()), app, proxy.Abstract())
      ensures docker.View() == Logged(old(docker.View()), UpActs(old(proxy.Abstract()), app, name, r))
      ensures r.created.Some? ==> dep.containerID == r.created.value
      ensures 1 <= n <= 4 && (ok ==> n == 4) && dep.history == history0 + StagesUpTo(dep, n)
      ensures !IsTerminal(dep.status)
    {
      hide Step, Refused, RouteOf, RouteGoesLive, ProxyManager.Good, BecomesHealthy, Routable, Proxied;
      hide Logged, StartActs, CheckActs;
      ghost var v, s := docker.View(), proxy.Abstract();
      Enter(dep, 1, "starting", history0);
      n := 2;
      ok := StartContainer(dep, name, r);
      if !ok {
        assert StartActs(name, r) + [] == StartActs(name, r);
        return;
      }
      ok, n := CheckAndRoute(app, dep, r.created.value, r, history0);
      LoggedAppend(v, StartActs(name, r), CheckActs(s, app, r.created.value, r));
    }

    /** The verdicts a running new container still has to get. */
    method CheckAndRoute(app: Application, dep: Deployment, id: string, r: Replies, ghost history0: seq<Status>)
        returns (ok: bool, ghost n: nat)
      requires dep.Valid() && proxy.Valid()
      requires dep.history == history0 + StagesUpTo(dep, 2)
      requires dep.status == if dep.rollbackTo != "" then Preparing else Starting
      modifies docker, proxy, proxy.caddy
      modifies dep`status, dep`history, dep`stage
      ensures dep.Valid() && proxy.Valid()
      ensures ok <==> BecomesHealthy(r.ticks, app.healthcheckPath, app.port) && RouteGoesLive(old(proxy.Abstract()), app, r)
      ensures !ok ==> proxy.caddy.active == old(proxy.caddy.active)
      ensures ok ==> Proxied(old(proxy.Abstract()), app, proxy.Abstract())
      ensures docker.View() == Logged(old(docker.View()), CheckActs(old(proxy.Abstract()), app, id, r))
      ensures 3 <= n <= 4 && (ok ==> n == 4) && dep.history == history0 + StagesUpTo(dep, n)
      ensures !IsTerminal(dep.status)
    {
      hide Step, Refused, RouteOf, RouteGoesLive, ProxyManager.Good, BecomesHealthy, Routable;
      hide Logged, HealthActs, RouteActs;
      ghost var v, s := docker.View(), proxy.Abstract();
      Enter(dep, 2, "health_check", history0);
      n := 3;
      ok := CheckHealth(app, id, r);
      if !ok {
        assert HealthActs(app, id, r) + [] == HealthActs(app, id, r);
        return;
      }
      Enter(dep, 3, "routing", history0);
      n := 4;
      ok := RouteTraffic(app, id, r);
      LoggedAppend(v, HealthActs(app, id, r), RouteActs(s, app, id, r));
    }

    /** Records the new container as the application's and removes the previous one. */
    method SwitchOver(app: Application, dep: Deployment, image: string, id: string, r: Replies, now: int)
      requires dep.Valid()
      modifies docker, apps, dep
      ensures dep.Valid() && dep.history == old(dep.history) + [Success]
      ensures dep.imageID == old(dep.imageID) && dep.containerID == old(dep.containerID) && dep.oldContainerID == app.containerID
      ensures apps.record == if r.updated then Some(Switched(app, dep.id, image, id)) else old(apps.record)
      ensures docker.View() == Logged(old(docker.View()), SwitchActs(app.containerID, id, r))
    {
      hide Logged;
      ghost var v := docker.View();
      var oldID := app.containerID;
      dep.oldContainerID := oldID;
      apps.Update(Switched(app, dep.id, image, id), r.updated);
      LoggedNothing(v);
      if oldID != "" && oldID != id {
        docker.Stop(oldID, r.stopOld);
        docker.Remove(oldID, r.removeOld);
        LoggedAppend(v, [DidStop(oldID, r.stopOld)], [DidRemove(oldID, r.removeOld)]);
        assert [DidStop(oldID, r.stopOld)] + [DidRemove(oldID, r.removeOld)] == SwitchActs(oldID, id, r);
      }
      dep.Succeed(now);
    }

    ghost function Abstract(): World
      reads this, docker, apps, proxy, proxy.caddy
    {
      World(docker.containers, apps.record, proxy.Abstract())
    }

    /** The run once there is an image: bring the new container up, then switch over. */
    method Deploy(app: Application, dep: Deployment, name: string, image: string, r: Replies, now: int, ghost history0: seq<Status>)
        returns (ok: bool, ghost n: nat)
      requires dep.Valid() && proxy.Valid()
      requires dep.history == history0 + StagesUpTo(dep, 1)
      requires dep.status == if dep.rollbackTo != "" then Preparing else Building
      modifies docker, apps, proxy, proxy.caddy, dep
      ensures dep.Valid() && proxy.Valid()
      ensures Lands(old(Abstract()), app, dep.id, name, image, r, ok, Abstract())
      ensures docker.View() == Logged(old(docker.View()), LandActs(old(proxy.Abstract()), app, name, r))
      ensures dep.imageID == old(dep.imageID)
      ensures ok ==> r.created.Some? && dep.containerID == r.created.value && dep.oldContainerID == app.containerID
      ensures n <= 4 && dep.history == history0 + StagesUpTo(dep, n) + (if ok then [Success] else [])
      ensures ok ==> n == 4
      ensures !ok ==> !IsTerminal(dep.status)
    {
      hide Step, Refused, RouteOf, ComesUp, ProxyManager.Good, Proxied, Switched, UpActs, SwitchActs, Replay, Trail;
      ghost var v, s := docker.View(), proxy.Abstract();
      ok, n := BringUp(app, dep, name, r, history0);
      if !ok {
        assert UpActs(s, app, name, r) + [] == UpActs(s, app, name, r);
        return;
      }
      assert r.created.Some? by { ComesUpCreated(s, app, r); }
      ghost var mid := Abstract();
      SwitchOver(app, dep, image, r.created.value, r, now);
      LoggedAppend(v, UpActs(s, app, name, r), SwitchActs(app.containerID, r.created.value, r));
      assert Abstract().proxy == mid.proxy;
    }

    /** The whole run. `ok` is the absence of an error return; `n` stages are entered. */
    method Execute(dep: Deployment, r: Replies, now: int) returns (ok: bool, ghost n: nat)
      requires dep.Valid() && proxy.Valid() && dep.status == Preparing
      modifies docker, apps, proxy, proxy.caddy, dep
      ensures dep.Valid() && proxy.Valid()
      ensures Runs(old(Abstract()), dep.id, dep.rollbackTo, r, ok, Abstract())
      ensures docker.View() == Logged(old(docker.View()), ActsOf(old(Abstract()), dep.id, dep.rollbackTo, r))
      ensures n <= 4 && dep.history == old(dep.history) + StagesUpTo(dep, n) + (if ok then [Success] else [])
      ensures ok ==> n == 4
      ensures !ok ==> !IsTerminal(dep.status)
      ensures HasImage(old(Abstract()), dep.rollbackTo, r) ==> dep.imageID == ImageFor(old(apps.record).value, dep.rollbackTo, r)
      ensures ok ==> r.created.Some? && old(apps.record).Some?
      ensures ok ==> dep.containerID == r.created.value && dep.oldContainerID == old(apps.record).value.containerID
    {
      hide Lands, LandActs, Logged, ImageAvailable, ImageFor, ProxyManager.Good, Routable;
      ghost var history0 := dep.history;
      ok, n := false, 0;
      LoggedNothing(docker.View());
      assert history0 == history0 + StagesUpTo(dep, 0);
      if apps.record.None? {
        return;
      }
      var app := apps.record.value;
      var again := dep.Transition(Preparing);
      dep.stage := "preparing";
      var name := RunName(app, dep.id, dep.rollbackTo);
      if !SourceResolves(app, dep.rollbackTo, r) {
        return;
      }
      var image := BuildImage(app, dep, r, history0);
      n := 1;
      if image.None? {
        return;
      }
      assert Abstract() == old(Abstract()) && docker.View() == old(docker.View());
      ok, n := Deploy(app, dep, name, image.value, r, now, history0);
    }
  }

  lemma ComesUpCreated(s: ProxyManager.State, app: Application, r: Replies)
    requires ComesUp(s, app, r)
    ensures r.created.Some?
  {
  }

  /* ---- a run as a relation ---- */

  datatype World = World(containers: Containers, record: Option<Application>, proxy: ProxyManager.State)

  ghost predicate ComesUp(s: ProxyManager.State, app: Application, r: Replies) {
    r.created.Some? && r.started && BecomesHealthy(r.ticks, app.healthcheckPath, app.port) && RouteGoesLive(s, app, r)
  }

  /** The proxy took the application's route, or was not asked to. */
  ghost predicate Proxied(s: ProxyManager.State, app: Application, t: ProxyManager.State) {
    if Routable(app) then Step(s, Upsert(RouteOf(app)), Accept, t) else t == s
  }

  function Switched(app: Application, depID: string, image: string, id: string): Application {
    app.(status := Applications.Running, containerID := id, imageID := if image != "" then image else app.imageID,
         lastDeploymentID := depID)
  }

  /** With an image at hand: what bringing up and switching over do to containers, record and proxy. */
  ghost predicate Lands(w: World, app: Application, depID: string, name: string, image: string, r: Replies, ok: bool, t: World) {
    && (ok <==> ComesUp(w.proxy, app, r))
    && t.containers == Replay(w.containers, LandActs(w.proxy, app, name, r))
    && (!ok ==> t.record == w.record && t.proxy.active == w.proxy.active)
    && (ok ==>
         && t.record == (if r.updated then Some(Switched(app, depID, image, r.created.value)) else w.record)
         && Proxied(w.proxy, app, t.proxy))
  }

  /** The run gets as far as creating a container. */
  ghost predicate HasImage(w: World, rollbackTo: string, r: Replies) {
    && w.record.Some?
    && SourceResolves(w.record.value, rollbackTo, r) && ImageAvailable(w.record.value, rollbackTo, r)
  }

  /** What one run does: without an image nothing at all, otherwise as the new container fares. */
  ghost predicate Runs(w: World, depID: string, rollbackTo: string, r: Replies, ok: bool, t: World) {
    if !HasImage(w, rollbackTo, r) then !ok && t == w
    else Lands(w, w.record.value, depID, RunName(w.record.value, depID, rollbackTo), ImageFor(w.record.value, rollbackTo, r), r, ok, t)
  }

  lemma RouteOwner(app: Application)
    ensures RouteOf(app).appID == app.id
  {
  }
}
