/** From the route table to the ordered list of routes that Caddy evaluates first-match. */
module RouteCompiler {
  import opened Text
  import opened DomainRoute
  import opened RouteTable
  import opened Sorting

  datatype Item = Item(appID: string, host: string, path: string, upstream: string)

  /** One terminal Caddy route: a host matcher, path patterns (none for a route without a path matcher)
      and the address to dial. */
  datatype CaddyRoute = CaddyRoute(host: string, paths: seq<string>, upstream: string)

  type Config = seq<CaddyRoute>

  datatype Dashboard = Dashboard(domain: string, target: string) {
    predicate IsSet() {
      domain != "" && target != ""
    }
  }

  /* ---- items ---- */

  function EntryItems(appID: string, upstream: string, d: string): (items: seq<Item>)
    ensures forall x :: x in items ==> x.appID == appID && x.upstream == upstream && NormalPath(x.path)
  {
    var t := ParseDomainRoute(d);
    if t.EmptyEntry? || t.host == "" then []
    else
      ParsedShape(d);
      [Item(appID, t.host, t.path, upstream)]
  }

  function DomainItems(appID: string, upstream: string, domains: seq<string>): (items: seq<Item>)
    ensures forall x :: x in items ==> x.appID == appID && x.upstream == upstream && NormalPath(x.path)
  {
    if domains == [] then []
    else
      DomainItems(appID, upstream, domains[..|domains| - 1])
      + EntryItems(appID, upstream, domains[|domains| - 1])
  }

  function RouteItems(appID: string, r: Route): (items: seq<Item>)
    ensures forall x :: x in items ==> x.appID == appID && x.upstream == r.upstream && NormalPath(x.path)
  {
    if r.upstream == "" then [] else DomainItems(appID, r.upstream, r.domains)
  }

  /** How often an item is configured; no enumeration of the map is involved. */
  ghost function Occurrences(routes: Routes, x: Item): nat {
    if x.appID in routes then multiset(RouteItems(x.appID, routes[x.appID]))[x] else 0
  }

  ghost predicate IsConfigured(routes: Routes, x: Item) {
    x.appID in routes && x in RouteItems(x.appID, routes[x.appID])
  }

  ghost predicate Lists(items: seq<Item>, routes: Routes) {
    forall x :: multiset(items)[x] == Occurrences(routes, x)
  }

  lemma ListedIsConfigured(items: seq<Item>, routes: Routes, x: Item)
    requires Lists(items, routes)
    ensures x in items <==> IsConfigured(routes, x)
  {
    hide RouteItems;
    assert x in items <==> multiset(items)[x] > 0;
    if x.appID in routes {
      var r := RouteItems(x.appID, routes[x.appID]);
      assert x in r <==> multiset(r)[x] > 0;
    }
  }

  lemma {:induction false} DomainItemsIff(appID: string, upstream: string, ds: seq<string>, x: Item)
    ensures x in DomainItems(appID, upstream, ds) <==>
              && x.appID == appID && x.upstream == upstream && x.host != ""
              && exists i :: 0 <= i < |ds| && ParseDomainRoute(ds[i]) == Parsed(x.host, x.path)
    ensures |DomainItems(appID, upstream, ds)| <= |ds|
  {
    hide ParseDomainRoute;
    if ds != [] {
      var n := |ds| - 1;
      DomainItemsIff(appID, upstream, ds[..n], x);
      assert forall i :: 0 <= i < n ==> ds[..n][i] == ds[i];
      assert x in EntryItems(appID, upstream, ds[n]) <==>
        x.appID == appID && x.upstream == upstream && x.host != "" && ParseDomainRoute(ds[n]) == Parsed(x.host, x.path);
    }
  }

  /** An application's entries are what its domains parse to, under its own ID and address, as long as they
      parse to a host and the address is not empty. */
  lemma ConfiguredIff(routes: Routes, x: Item)
    ensures IsConfigured(routes, x) <==>
              && x.appID in routes && x.host != "" && x.upstream == routes[x.appID].upstream != ""
              && exists i :: 0 <= i < |routes[x.appID].domains| && ParseDomainRoute(routes[x.appID].domains[i]) == Parsed(x.host, x.path)
  {
    hide ParseDomainRoute, DomainItems;
    if x.appID in routes {
      DomainItemsIff(x.appID, routes[x.appID].upstream, routes[x.appID].domains, x);
    }
  }

  /* ---- the two orders ---- */

  predicate IsCatchAll(x: Item) {
    x.path == CATCH_ALL || x.path == ""
  }

  /** Longest path first, then host, path, application. */
  predicate SpecificLess(a: Item, b: Item) {
    if |a.path| != |b.path| then |a.path| > |b.path|
    else if a.host != b.host then StrLess(a.host, b.host)
    else if a.path != b.path then StrLess(a.path, b.path)
    else StrLess(a.appID, b.appID)
  }

  /** Host, then application. */
  predicate CatchAllLess(a: Item, b: Item) {
    if a.host != b.host then StrLess(a.host, b.host) else StrLess(a.appID, b.appID)
  }

  lemma StrLeqTransitive(a: string, b: string, c: string)
    requires !StrLess(b, a) && !StrLess(c, b)
    ensures !StrLess(c, a)
  {
    StrLessTotal(a, b);
    StrLessTotal(b, c);
    if StrLess(c, a) {
      if a == b {
      } else {
        StrLessTransitive(c, a, b);
      }
    }
  }

  lemma SpecificLessIsOrder()
    ensures StrictWeak(SpecificLess)
  {
    forall x, y | SpecificLess(x, y) ensures !SpecificLess(y, x) {
      StrLessTotal(x.host, y.host);
      StrLessTotal(x.path, y.path);
      StrLessTotal(x.appID, y.appID);
    }
    forall x, y, z | !SpecificLess(y, x) && !SpecificLess(z, y) ensures !SpecificLess(z, x) {
      SpecificLeqTransitive(x, y, z);
    }
  }

  lemma SpecificLeqTransitive(x: Item, y: Item, z: Item)
    requires !SpecificLess(y, x) && !SpecificLess(z, y)
    ensures !SpecificLess(z, x)
  {
    if |x.path| == |y.path| == |z.path| {
      TieBreak(x.host, y.host, z.host);
      TieBreak(x.path, y.path, z.path);
      if x.host == y.host == z.host && x.path == y.path == z.path {
        StrLeqTransitive(x.appID, y.appID, z.appID);
      }
    }
  }

  /** Descending a chain of keys never returns to an earlier one. */
  lemma TieBreak(a: string, b: string, c: string)
    ensures (a == b || !StrLess(b, a)) && (b == c || !StrLess(c, b)) ==> a == c || !StrLess(c, a)
    ensures !StrLess(b, a) && !StrLess(c, b) && a == c ==> a == b
  {
    StrLessTotal(a, b);
    StrLessTotal(b, c);
    StrLessTotal(a, c);
    if !StrLess(b, a) && !StrLess(c, b) {
      StrLeqTransitive(a, b, c);
    }
  }

  lemma CatchAllLessIsOrder()
    ensures StrictWeak(CatchAllLess)
  {
    forall x, y | CatchAllLess(x, y) ensures !CatchAllLess(y, x) {
      StrLessTotal(x.host, y.host);
      StrLessTotal(x.appID, y.appID);
    }
    forall x, y, z | !CatchAllLess(y, x) && !CatchAllLess(z, y) ensures !CatchAllLess(z, x) {
      TieBreak(x.host, y.host, z.host);
      if x.host == y.host == z.host {
        StrLeqTransitive(x.appID, y.appID, z.appID);
      }
    }
  }

  /* ---- emission ---- */

  function Emit(x: Item): CaddyRoute {
    if IsCatchAll(x) then CaddyRoute(x.host, [], x.upstream)
    else
      var prefix := if EndsWild(x.path) then x.path[..|x.path| - 2] else x.path;
      CaddyRoute(x.host, if prefix != "" && prefix != "/" then [x.path, prefix] else [x.path], x.upstream)
  }

  function EmitAll(items: seq<Item>): (cfg: Config)
    ensures |cfg| == |items|
    ensures forall i :: 0 <= i < |items| ==> cfg[i] == Emit(items[i])
  {
    seq(|items|, i requires 0 <= i < |items| => Emit(items[i]))
  }

  function DashboardRoutes(dash: Dashboard): Config {
    if dash.IsSet() then [CaddyRoute(dash.domain, [], dash.target)] else []
  }

  /** The items in the order their routes are emitted: sorted specific items, then sorted catch-alls. */
  ghost predicate Arranged(specific: seq<Item>, catchAll: seq<Item>, routes: Routes) {
    && (forall x :: x in specific ==> !IsCatchAll(x))
    && (forall x :: x in catchAll ==> IsCatchAll(x))
    && Lists(specific + catchAll, routes)
    && SortedBy(SpecificLess, specific)
    && SortedBy(CatchAllLess, catchAll)
  }

  /** Specific entries stand longest path first, then by host, path and application; catch-alls by host and
      application. */
  lemma ArrangedInOrder(specific: seq<Item>, catchAll: seq<Item>, routes: Routes, i: nat, j: nat)
    requires Arranged(specific, catchAll, routes) && i < j
    ensures j < |specific| ==>
              var x, y := specific[i], specific[j];
              || |x.path| > |y.path|
              || (|x.path| == |y.path| && StrLess(x.host, y.host))
              || (|x.path| == |y.path| && x.host == y.host && StrLess(x.path, y.path))
              || (x.host == y.host && x.path == y.path && !StrLess(y.appID, x.appID))
    ensures j < |catchAll| ==>
              var x, y := catchAll[i], catchAll[j];
              StrLess(x.host, y.host) || (x.host == y.host && !StrLess(y.appID, x.appID))
  {
    hide Lists, IsCatchAll;
    if j < |specific| {
      assert !SpecificLess(specific[j], specific[i]);
      StrLessTotal(specific[i].host, specific[j].host);
      StrLessTotal(specific[i].path, specific[j].path);
    }
    if j < |catchAll| {
      assert !CatchAllLess(catchAll[j], catchAll[i]);
      StrLessTotal(catchAll[i].host, catchAll[j].host);
    }
  }

  /** A configuration that some enumeration of the map and some correct sorts can produce. */
  ghost predicate IsCompilation(cfg: Config, routes: Routes, dash: Dashboard) {
    exists specific, catchAll ::
      Arranged(specific, catchAll, routes)
      && cfg == DashboardRoutes(dash) + EmitAll(specific) + EmitAll(catchAll)
  }

  /** The inner loop of the compiler: one application's entries go to the two slices. */
  method AppendItems(appID: string, route: Route, specific0: seq<Item>, catchAll0: seq<Item>)
      returns (specific: seq<Item>, catchAll: seq<Item>)
    requires Split2(specific0, catchAll0)
    ensures Split2(specific, catchAll)
    ensures Bag(specific, catchAll) == Bag(specific0, catchAll0) + multiset(RouteItems(appID, route))
  {
    hide ParseDomainRoute, EntryItems, DomainItems, IsCatchAll, Split2, Bag;
    specific, catchAll := specific0, catchAll0;
    NoDomainsNoItems(appID, route.upstream);
    if |route.domains| == 0 || route.upstream == "" {
      return;
    }
    for i := 0 to |route.domains|
      invariant Split2(specific, catchAll)
      invariant i == 0 ==> route.domains[..i] == []
      invariant Bag(specific, catchAll)
                == Bag(specific0, catchAll0) + multiset(DomainItems(appID, route.upstream, route.domains[..i]))
    {
      DomainItemsSnoc(appID, route.upstream, route.domains, i);
      var items := EntryItems(appID, route.upstream, route.domains[i]);
      Placed(specific, catchAll, items);
      if items != [] {
        if IsCatchAll(items[0]) {
          catchAll := catchAll + items;
        } else {
          specific := specific + items;
        }
      }
    }
    assert route.domains[..|route.domains|] == route.domains;
  }

  ghost function Bag(specific: seq<Item>, catchAll: seq<Item>): multiset<Item> {
    multiset(specific) + multiset(catchAll)
  }

  lemma Placed(a: seq<Item>, b: seq<Item>, items: seq<Item>)
    requires |items| <= 1 && Split2(a, b)
    ensures items == [] ==> Bag(a, b) == Bag(a, b) + multiset(items)
    ensures items != [] && IsCatchAll(items[0]) ==> Split2(a, b + items) && Bag(a, b + items) == Bag(a, b) + multiset(items)
    ensures items != [] && !IsCatchAll(items[0]) ==> Split2(a + items, b) && Bag(a + items, b) == Bag(a, b) + multiset(items)
  {
    hide IsCatchAll;
  }

  /** The configuration built from the current routes; the map may be walked in any order. */
  method BuildCaddyConfig(routes: Routes, dash: Dashboard) returns (cfg: Config)
    ensures IsCompilation(cfg, routes, dash)
  {
    hide SpecificLess, CatchAllLess, RouteItems, Occurrences, IsCatchAll;
    var specific: seq<Item> := [];
    var catchAll: seq<Item> := [];
    var todo := routes.Keys;
    while todo != {}
      invariant todo <= routes.Keys
      invariant Collected(specific, catchAll, routes, routes.Keys - todo)
      decreases todo
    {
      var appID :| appID in todo;
      ghost var done := routes.Keys - todo;
      var specific1, catchAll1 := AppendItems(appID, routes[appID], specific, catchAll);
      CollectedExtends(specific, catchAll, specific1, catchAll1, routes, done, appID);
      assert routes.Keys - (todo - {appID}) == done + {appID};
      todo := todo - {appID};
      specific, catchAll := specific1, catchAll1;
    }
    assert routes.Keys - todo == routes.Keys;
    var s, c := Sort(SpecificLess, specific), Sort(CatchAllLess, catchAll);
    ArrangedBySorting(specific, catchAll, routes);
    cfg := DashboardRoutes(dash) + EmitAll(s) + EmitAll(c);
  }

  lemma NoDomainsNoItems(appID: string, upstream: string)
    ensures DomainItems(appID, upstream, []) == []
  {
  }

  lemma DomainItemsSnoc(appID: string, upstream: string, ds: seq<string>, i: nat)
    requires i < |ds|
    ensures DomainItems(appID, upstream, ds[..i + 1])
            == DomainItems(appID, upstream, ds[..i]) + EntryItems(appID, upstream, ds[i])
    ensures |EntryItems(appID, upstream, ds[i])| <= 1
  {
    assert ds[..i + 1][..i] == ds[..i];
  }

  ghost predicate Split2(specific: seq<Item>, catchAll: seq<Item>) {
    && (forall x :: x in specific ==> !IsCatchAll(x))
    && (forall x :: x in catchAll ==> IsCatchAll(x))
  }

  /** The two slices hold exactly the items of the applications walked so far. */
  ghost predicate Collected(specific: seq<Item>, catchAll: seq<Item>, routes: Routes, done: set<string>)
    requires done <= routes.Keys
  {
    && Split2(specific, catchAll)
    && forall x :: Bag(specific, catchAll)[x] == if x.appID in done then Occurrences(routes, x) else 0
  }

  lemma CollectedExtends(specific0: seq<Item>, catchAll0: seq<Item>, specific: seq<Item>, catchAll: seq<Item>,
                         routes: Routes, done: set<string>, appID: string)
    requires done <= routes.Keys && appID in routes.Keys - done
    requires Collected(specific0, catchAll0, routes, done)
    requires Split2(specific, catchAll)
    requires Bag(specific, catchAll)
             == Bag(specific0, catchAll0) + multiset(RouteItems(appID, routes[appID]))
    ensures Collected(specific, catchAll, routes, done + {appID})
  {
    hide RouteItems;
    var items := RouteItems(appID, routes[appID]);
    forall x ensures Bag(specific, catchAll)[x] == if x.appID in done + {appID} then Occurrences(routes, x) else 0 {
      assert x in multiset(items) ==> x in items;
    }
  }

  lemma ArrangedBySorting(specific: seq<Item>, catchAll: seq<Item>, routes: Routes)
    requires Collected(specific, catchAll, routes, routes.Keys)
    ensures Arranged(Sort(SpecificLess, specific), Sort(CatchAllLess, catchAll), routes)
  {
    hide SpecificLess, CatchAllLess, RouteItems;
    SpecificLessIsOrder();
    CatchAllLessIsOrder();
    SortSorts(SpecificLess, specific);
    SortSorts(CatchAllLess, catchAll);
    var s, c := Sort(SpecificLess, specific), Sort(CatchAllLess, catchAll);
    assert multiset(s + c) == Bag(specific, catchAll);
    forall x | x in s ensures !IsCatchAll(x) {
      assert x in multiset(s);
    }
    forall x | x in c ensures IsCatchAll(x) {
      assert x in multiset(c);
    }
  }
}
