/** The transaction manager around Caddy's `/load` endpoint: routes, dashboard and last known good. */
module ProxyManager {
  import opened RouteTable
  import opened RouteCompiler
  import opened RouterMeaning
  import opened Options

  /** The answer to one `/load` request. A load takes effect as a whole or not at all. */
  datatype Reply = Accept | Reject | Unreachable

  /** The server side: the active configuration, if it has any, and every request received. It outlives the
      manager: a server that is still running keeps what an earlier process loaded. */
  class Caddy {
    var active: Option<Config>
    var received: seq<Config>

    constructor (active: Option<Config>)
      ensures this.active == active && received == []
    {
      this.active := active;
      received := [];
    }

    method Load(cfg: Config, reply: Reply)
      modifies this
      ensures active == if reply.Accept? then Some(cfg) else old(active)
      ensures received == old(received) + [cfg]
    {
      received := received + [cfg];
      if reply.Accept? {
        active := Some(cfg);
      }
    }
  }

  /* ---- the specification ---- */

  datatype State = State(routes: Routes, dash: Dashboard, lastKnownGood: Option<Config>, active: Option<Config>)

  datatype Op =
    | Upsert(route: Route)
    | Remove(appID: string)
    | SetDashboard(domain: string, target: string)
    | RemoveDashboard

  /** A new manager beside a server that may already hold a configuration. */
  function Started(found: Option<Config>): State {
    State(map[], Dashboard("", ""), None, found)
  }

  /** An upsert is refused before anything is sent when the route or the resulting table is invalid. */
  ghost predicate Refused(s: State, op: Op) {
    op.Upsert? && !(ValidRoute(op.route) && ValidRoutes(s.routes[op.route.appID := op.route]))
  }

  function NextRoutes(routes: Routes, op: Op): Routes {
    match op
    case Upsert(r) => routes[r.appID := r]
    case Remove(a) => routes - {a}
    case _ => routes
  }

  function NextDashboard(dash: Dashboard, op: Op): Dashboard {
    match op
    case SetDashboard(d, t) => Dashboard(d, t)
    case RemoveDashboard => Dashboard("", "")
    case _ => dash
  }

  /** One operation against one reply: a refusal changes nothing; otherwise routes and dashboard change
      whatever the server says, and what the server holds changes only by an accepted load of the
      configuration compiled from them. */
  ghost predicate Step(s: State, op: Op, reply: Reply, t: State) {
    if Refused(s, op) then t == s
    else
      && t.routes == NextRoutes(s.routes, op)
      && t.dash == NextDashboard(s.dash, op)
      && t.lastKnownGood == (if reply.Accept? then t.active else s.lastKnownGood)
      && if reply.Accept? then t.active.Some? && IsCompilation(t.active.value, t.routes, t.dash)
         else t.active == s.active
  }

  /** Routes are valid and filed under their own application; once something was accepted the server holds
      the last known good, and before that what it was found with. */
  ghost predicate Good(s: State, found: Option<Config>) {
    && ValidRoutes(s.routes)
    && (forall a :: a in s.routes ==> s.routes[a].appID == a)
    && s.active == if s.lastKnownGood.Some? then s.lastKnownGood else found
  }

  lemma StepKeepsGood(s: State, op: Op, reply: Reply, t: State, found: Option<Config>)
    requires Good(s, found) && Step(s, op, reply, t)
    ensures Good(t, found)
  {
    hide ValidRoutes, IsCompilation;
    if op.Remove? {
      ValidityIsMonotone(s.routes, t.routes);
    }
  }

  /* ---- runs ---- */

  datatype Event = Event(op: Op, reply: Reply)

  ghost predicate IsRun(states: seq<State>, events: seq<Event>) {
    && |states| == |events| + 1
    && states[0] == Started(states[0].active)
    && forall i :: 0 <= i < |events| ==> Step(states[i], events[i].op, events[i].reply, states[i + 1])
  }

  lemma {:induction false} RunStaysGood(states: seq<State>, events: seq<Event>, n: nat)
    requires IsRun(states, events) && n <= |events|
    ensures Good(states[n], states[0].active)
  {
    if n > 0 {
      RunStaysGood(states, events, n - 1);
      StepKeepsGood(states[n - 1], events[n - 1].op, events[n - 1].reply, states[n], states[0].active);
    }
  }

  /** The event was not refused and the server accepted its load. */
  ghost predicate Landed(states: seq<State>, events: seq<Event>, i: nat)
    requires IsRun(states, events) && i < |events|
  {
    events[i].reply.Accept? && !Refused(states[i], events[i].op)
  }

  /** In every reachable state the server runs the compilation of the routes and dashboard as they were
      right after the last accepted load, whatever was rejected, rolled back or unreachable since. */
  lemma {:induction false} ActiveIsLastLanded(states: seq<State>, events: seq<Event>, k: nat, n: nat)
    requires IsRun(states, events) && k < n <= |events|
    requires Landed(states, events, k)
    requires forall i :: k < i < n ==> !Landed(states, events, i)
    ensures states[n].active.Some?
    ensures IsCompilation(states[n].active.value, states[k + 1].routes, states[k + 1].dash)
    ensures states[n].active == states[n].lastKnownGood == states[k + 1].active
  {
    hide IsCompilation, Refused;
    assert Step(states[n - 1], events[n - 1].op, events[n - 1].reply, states[n]);
    if n > k + 1 {
      assert !Landed(states, events, n - 1);
      ActiveIsLastLanded(states, events, k, n - 1);
    }
  }

  /** Until a load is accepted the server keeps what it was found with: after a restart, the configuration
      of the process before. */
  lemma {:induction false} NothingLandedNothingChanged(states: seq<State>, events: seq<Event>, n: nat)
    requires IsRun(states, events) && n <= |events|
    requires forall i :: 0 <= i < n ==> !Landed(states, events, i)
    ensures states[n].active == states[0].active && states[n].lastKnownGood == None
  {
    hide IsCompilation, Refused;
    if n > 0 {
      NothingLandedNothingChanged(states, events, n - 1);
      assert Step(states[n - 1], events[n - 1].op, events[n - 1].reply, states[n]);
      assert !Landed(states, events, n - 1);
    }
  }

  /** After an accepted load, every request off the dashboard host is routed by the longest-prefix lookup
      in the current table, as long as no configured prefix has a sign in it. */
  lemma LiveRoutingMeansTable(m: Reader, states: seq<State>, events: seq<Event>, host: string, path: string)
    requires Reads(m) && IsRun(states, events) && events != [] && Landed(states, events, |events| - 1)
    requires var s := states[|events|]; WildOnly(s.routes, s.dash) && StarFree(s.routes, s.dash) && !DashboardHost(s.dash, host)
    ensures var s := states[|events|]; s.active.Some? && Agrees(m, s.active.value, s.routes, host, path)
  {
    hide IsCompilation, Agrees, StarFree, WildOnly, DashboardHost, Reads;
    var n := |events|;
    ActiveIsLastLanded(states, events, n - 1, n);
    CompilationMeansLookup(m, states[n].active.value, states[n].routes, states[n].dash);
  }

  /** After an accepted load of a dashboard route every request for its host reaches the dashboard. */
  lemma DashboardIsLive(m: Reader, states: seq<State>, events: seq<Event>, domain: string, target: string, path: string)
    requires IsRun(states, events) && events != [] && Landed(states, events, |events| - 1)
    requires events[|events| - 1].op == SetDashboard(domain, target) && domain != "" && target != ""
    ensures var s := states[|events|];
      && s.active.Some? && FirstMatch(m, s.active.value, domain, path).Some?
      && FirstMatch(m, s.active.value, domain, path).value.upstream == target
  {
    hide IsCompilation, FirstMatch;
    var n := |events|;
    ActiveIsLastLanded(states, events, n - 1, n);
    assert Step(states[n - 1], events[n - 1].op, events[n - 1].reply, states[n]);
    DashboardFirst(m, states[n].active.value, states[n].routes, states[n].dash, path);
  }

  /** After an accepted removal the server routes nothing to the application: every route of it is the
      dashboard's or stands for an entry of another one, and the others' routes are as before. */
  lemma RemovedIsGone(states: seq<State>, events: seq<Event>, appID: string, r: CaddyRoute)
    requires IsRun(states, events) && events != [] && Landed(states, events, |events| - 1)
    requires events[|events| - 1].op == Remove(appID)
    ensures var s, t := states[|events| - 1], states[|events|];
      && t.routes.Keys == s.routes.Keys - {appID} && (forall a :: a in t.routes ==> t.routes[a] == s.routes[a])
      && t.active.Some? && t.dash == s.dash
      && (r in t.active.value ==>
            || (t.dash.domain != "" && t.dash.target != "" && r == CaddyRoute(t.dash.domain, [], t.dash.target))
            || exists x :: StandsFor(r, s.routes, x) && x.appID != appID)
  {
    hide IsCompilation, IsConfigured;
    var n := |events|;
    ActiveIsLastLanded(states, events, n - 1, n);
    assert Step(states[n - 1], events[n - 1].op, events[n - 1].reply, states[n]);
    var s, t := states[n - 1], states[n];
    if r in t.active.value {
      OnlyConfiguredIsRouted(t.active.value, t.routes, t.dash, r);
    }
    if exists x :: StandsFor(r, t.routes, x) {
      var x :| StandsFor(r, t.routes, x);
      ConfiguredIff(t.routes, x);
      ConfiguredIff(s.routes, x);
      assert StandsFor(r, s.routes, x);
    }
  }

  /** After the dashboard's removal every route of the server stands for an entry. */
  lemma DashboardIsGone(states: seq<State>, events: seq<Event>, r: CaddyRoute)
    requires IsRun(states, events) && events != [] && Landed(states, events, |events| - 1)
    requires events[|events| - 1].op == RemoveDashboard
    ensures states[|events|].active.Some?
    ensures r in states[|events|].active.value ==> exists x :: StandsFor(r, states[|events|].routes, x)
  {
    hide IsCompilation, IsConfigured;
    var n := |events|;
    ActiveIsLastLanded(states, events, n - 1, n);
    assert Step(states[n - 1], events[n - 1].op, events[n - 1].reply, states[n]);
    if r in states[n].active.value {
      OnlyConfiguredIsRouted(states[n].active.value, states[n].routes, states[n].dash, r);
    }
  }

  /* ---- the manager ---- */

  datatype Outcome = RouteInvalid | TableInvalid | NotAccepted | Done

  class Manager {
    var routes: Routes
    var dash: Dashboard
    var lastKnownGood: Option<Config>
    const caddy: Caddy
    ghost const found: Option<Config>

    ghost function Abstract(): State
      reads this, caddy
    {
      State(routes, dash, lastKnownGood, caddy.active)
    }

    ghost predicate Valid()
      reads this, caddy
    {
      Good(Abstract(), found)
    }

    constructor (caddy: Caddy)
      ensures Valid() && this.caddy == caddy && found == caddy.active && Abstract() == Started(caddy.active)
    {
      routes := map[];
      dash := Dashboard("", "");
      lastKnownGood := None;
      this.caddy := caddy;
      found := caddy.active;
    }

    /** Compiles and loads the current state; on a rejection the last known good is loaded again. Its own
        validation cannot fail. */
    method Apply(reply: Reply, rollback: Reply) returns (o: Outcome)
      requires Valid()
      modifies this`lastKnownGood, caddy
      ensures Valid()
      ensures o == if reply.Accept? then Done else NotAccepted
      ensures if reply.Accept? then lastKnownGood == caddy.active && caddy.active.Some? && IsCompilation(caddy.active.value, routes, dash)
              else lastKnownGood == old(lastKnownGood) && caddy.active == old(caddy.active)
      ensures exists cfg :: IsCompilation(cfg, routes, dash)
                && caddy.received == old(caddy.received) + [cfg]
                     + (if reply.Reject? && old(lastKnownGood).Some? then [old(lastKnownGood).value] else [])
    {
      hide ValidRoutes, IsCompilation;
      var v := ValidateRoutes(routes);
      assert v.Accepted?;
      var cfg := BuildCaddyConfig(routes, dash);
      caddy.Load(cfg, reply);
      if reply.Unreachable? {
        return NotAccepted;
      }
      if !reply.Accept? {
        if lastKnownGood.Some? {
          caddy.Load(lastKnownGood.value, rollback);
        }
        return NotAccepted;
      }
      lastKnownGood := Some(cfg);
      return Done;
    }

    method UpsertRoute(route: Route, reply: Reply, rollback: Reply) returns (o: Outcome)
      requires Valid()
      modifies this, caddy
      ensures Valid() && Step(old(Abstract()), Upsert(route), reply, Abstract())
      ensures o == Done <==> !Refused(old(Abstract()), Upsert(route)) && reply.Accept?
      ensures o == NotAccepted ==> caddy.active == old(caddy.active) && lastKnownGood == old(lastKnownGood)
      ensures Refused(old(Abstract()), Upsert(route)) <==> o in {RouteInvalid, TableInvalid}
      ensures Refused(old(Abstract()), Upsert(route)) ==> caddy.received == old(caddy.received)
      ensures o in {RouteInvalid, TableInvalid} <==> !ValidRoute(route) || !ValidRoutes(old(routes)[route.appID := route])
      ensures dash == old(dash)
      ensures routes == if o in {RouteInvalid, TableInvalid} then old(routes) else old(routes)[route.appID := route]
    {
      hide ValidRoutes, IsCompilation, ValidRoute;
      var ok := ValidateRoute(route);
      if !ok {
        return RouteInvalid;
      }
      var had := route.appID in routes;
      var oldRoute := if had then routes[route.appID] else route;
      ghost var before := routes;
      routes := routes[route.appID := route];
      var v := ValidateRoutes(routes);
      if !v.Accepted? {
        if had {
          routes := routes[route.appID := oldRoute];
        } else {
          routes := routes - {route.appID};
        }
        assert routes == before;
        return TableInvalid;
      }
      o := Apply(reply, rollback);
    }

    method RemoveRoute(appID: string, reply: Reply, rollback: Reply) returns (o: Outcome)
      requires Valid()
      modifies this, caddy
      ensures Valid() && Step(old(Abstract()), Remove(appID), reply, Abstract())
      ensures o == if reply.Accept? then Done else NotAccepted
      ensures routes.Keys == old(routes).Keys - {appID} && dash == old(dash)
      ensures forall a :: a in routes ==> routes[a] == old(routes)[a]
    {
      hide ValidRoutes, IsCompilation;
      ghost var before := routes;
      routes := routes - {appID};
      ValidityIsMonotone(before, routes);
      o := Apply(reply, rollback);
    }

    method SetDashboardRoute(domain: string, target: string, reply: Reply, rollback: Reply) returns (o: Outcome)
      requires Valid()
      modifies this, caddy
      ensures Valid() && Step(old(Abstract()), SetDashboard(domain, target), reply, Abstract())
      ensures o == if reply.Accept? then Done else NotAccepted
      ensures routes == old(routes) && dash.domain == domain && dash.target == target
    {
      hide ValidRoutes, IsCompilation;
      dash := Dashboard(domain, target);
      o := Apply(reply, rollback);
    }

    method RemoveDashboardRoute(reply: Reply, rollback: Reply) returns (o: Outcome)
      requires Valid()
      modifies this, caddy
      ensures Valid() && Step(old(Abstract()), RemoveDashboard, reply, Abstract())
      ensures o == if reply.Accept? then Done else NotAccepted
      ensures routes == old(routes) && dash.domain == "" && dash.target == ""
    {
      hide ValidRoutes, IsCompilation;
      dash := Dashboard("", "");
      o := Apply(reply, rollback);
    }
  }
}
