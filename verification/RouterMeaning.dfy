/** What a compiled configuration means to a first-match router, against a declarative lookup. */
module RouterMeaning {
  import opened Text
  import opened DomainRoute
  import opened RouteTable
  import opened Sorting
  import opened RouteCompiler
  import opened Options

  /* ---- the router ---- */

  /** How the server reads a path pattern: pattern, request path, verdict. */
  type Reader = (string, string) -> bool

  /** The text has no sign other than asterisks. */
  predicate WildText(s: string) {
    '?' !in s && '[' !in s && '\\' !in s
  }

  predicate PlainText(s: string) {
    WildText(s) && '*' !in s
  }

  function Filler(n: nat): (s: string)
    ensures |s| == n && forall i :: 0 <= i < n ==> s[i] == '#'
  {
    seq(n, i => '#')
  }

  predicate ReadsText(m: Reader, p: string, path: string) {
    && (m(p, path) <==> p == path)
    && (m(p + ['*'], path) <==> HasPrefix(path, p))
  }

  predicate ReadsStar(m: Reader, p: string, i: nat, n: nat)
    requires i < |p|
  {
    m(p, p) && (p[i] == '*' ==> m(p, p[..i] + Filler(n) + p[i + 1..]))
  }

  /** What is known of the reader: text without signs stands for itself, with an asterisk at its end for
      everything that starts so; and an asterisk anywhere matches filler, or itself. */
  ghost predicate Reads(m: Reader) {
    && (forall p, path :: PlainText(p) ==> ReadsText(m, p, path))
    && (forall p, i: nat, n: nat :: WildText(p) && i < |p| ==> ReadsStar(m, p, i, n))
  }

  predicate Matches(m: Reader, r: CaddyRoute, host: string, path: string) {
    r.host == host && (r.paths == [] || exists p :: p in r.paths && m(p, path))
  }

  /** Routes are tried in order and are terminal. */
  function FirstMatch(m: Reader, cfg: Config, host: string, path: string): Option<CaddyRoute> {
    if cfg == [] then None
    else if Matches(m, cfg[0], host, path) then Some(cfg[0])
    else FirstMatch(m, cfg[1..], host, path)
  }

  /* ---- such readers exist ---- */

  /** An asterisk matches any text without a slash, a question mark one character that is no slash. */
  predicate Glob(p: string, path: string) {
    if p == "" then path == ""
    else if p[0] == '*' then exists k :: 0 <= k <= |path| && '/' !in path[..k] && Glob(p[1..], path[k..])
    else if p[0] == '?' then path != "" && path[0] != '/' && Glob(p[1..], path[1..])
    else path != "" && path[0] == p[0] && Glob(p[1..], path[1..])
  }

  /** A single asterisk at the end reads as a prefix, everything else as a glob. */
  predicate GlobReads(p: string, path: string) {
    if p != "" && p[|p| - 1] == '*' && '*' !in p[..|p| - 1] then HasPrefix(path, p[..|p| - 1]) else Glob(p, path)
  }

  lemma {:induction false} GlobPlain(p: string, path: string)
    requires '*' !in p && '?' !in p
    ensures Glob(p, path) <==> p == path
  {
    if p != "" && path != "" {
      GlobPlain(p[1..], path[1..]);
      assert p == [p[0]] + p[1..] && path == [path[0]] + path[1..];
    }
  }

  lemma {:induction false} GlobItself(p: string)
    ensures Glob(p, p)
  {
    if p != "" {
      GlobItself(p[1..]);
      assert p[0] == '*' ==> '/' !in p[..1] && Glob(p[1..], p[1..]);
    }
  }

  lemma {:induction false} GlobFilled(p: string, i: nat, n: nat)
    requires i < |p| && p[i] == '*'
    ensures Glob(p, p[..i] + Filler(n) + p[i + 1..])
  {
    var path := p[..i] + Filler(n) + p[i + 1..];
    if i == 0 {
      GlobItself(p[1..]);
      assert path[..n] == Filler(n) && path[n..] == p[1..];
      assert '/' !in path[..n] && Glob(p[1..], path[n..]);
    } else {
      GlobFilled(p[1..], i - 1, n);
      assert path[1..] == p[1..][..i - 1] + Filler(n) + p[1..][i..];
      assert path[0] == p[0];
      assert p[0] == '*' ==> '/' !in path[..1] && Glob(p[1..], path[1..]);
    }
  }

  lemma GlobReadsSo()
    ensures Reads(GlobReads)
  {
    forall p, path | PlainText(p) ensures ReadsText(GlobReads, p, path) {
      GlobPlain(p, path);
      var q := p + ['*'];
      assert q[..|q| - 1] == p;
    }
    forall p, i: nat, n: nat | WildText(p) && i < |p| ensures ReadsStar(GlobReads, p, i, n) {
      GlobItself(p);
      if p[i] == '*' {
        GlobFilled(p, i, n);
        var path := p[..i] + Filler(n) + p[i + 1..];
        if p[|p| - 1] == '*' && '*' !in p[..|p| - 1] {
          assert i == |p| - 1;
          assert path[..|p| - 1] == p[..|p| - 1];
        }
      }
    }
  }

  /* ---- the declarative lookup ---- */

  function Prefix(x: Item): string {
    if x.path == CATCH_ALL || |x.path| < 2 then "" else x.path[..|x.path| - 2]
  }

  /** The prefix is the whole path or is followed by a slash in it. */
  predicate SegmentPrefix(prefix: string, path: string) {
    path == prefix || HasPrefix(path, prefix + ['/'])
  }

  predicate Covers(x: Item, path: string) {
    x.path == CATCH_ALL || SegmentPrefix(Prefix(x), path)
  }

  ghost predicate Candidate(routes: Routes, x: Item, host: string, path: string) {
    IsConfigured(routes, x) && x.host == host && Covers(x, path)
  }

  /** The configured entry with the longest prefix covering the path on this host, if any entry does. */
  ghost predicate IsLookup(routes: Routes, host: string, path: string, r: Option<Item>) {
    match r
    case Some(x) =>
      && Candidate(routes, x, host, path)
      && forall y :: Candidate(routes, y, host, path) ==> |y.path| <= |x.path|
    case None => forall y :: !Candidate(routes, y, host, path)
  }

  /** The dashboard route comes first and takes its whole host. */
  predicate DashboardHost(dash: Dashboard, host: string) {
    dash.IsSet() && dash.domain == host
  }

  /** The router's choice is the route emitted for the looked-up entry. */
  ghost predicate Agrees(m: Reader, cfg: Config, routes: Routes, host: string, path: string) {
    match FirstMatch(m, cfg, host, path)
    case None => IsLookup(routes, host, path, None)
    case Some(r) => exists x :: IsLookup(routes, host, path, Some(x)) && r == Emit(x)
  }

  /** A prefix with an asterisk in it, such as that of the entry `host/api*`. */
  predicate Starred(x: Item) {
    '*' in Prefix(x)
  }

  ghost predicate StarFree(routes: Routes, dash: Dashboard) {
    forall x :: IsConfigured(routes, x) && !DashboardHost(dash, x.host) ==> !Starred(x)
  }

  /** No configured prefix has a sign other than asterisks. */
  ghost predicate WildOnly(routes: Routes, dash: Dashboard) {
    forall x :: IsConfigured(routes, x) && !DashboardHost(dash, x.host) ==> WildText(Prefix(x))
  }

  /* ---- items ---- */

  lemma ConfiguredShape(routes: Routes, x: Item)
    requires IsConfigured(routes, x)
    ensures NormalPath(x.path) && x.upstream == routes[x.appID].upstream
    ensures IsCatchAll(x) <==> x.path == CATCH_ALL
    ensures !IsCatchAll(x) ==> ProperStem(Prefix(x)) && x.path == Prefix(x) + ['/', '*']
  {
    hide RouteItems;
    if x.path != CATCH_ALL {
      assert x.path == x.path[..|x.path| - 2] + ['/', '*'];
    }
  }

  /** In a valid table, host and path determine the configured entry. */
  lemma EntryIsUnique(routes: Routes, x: Item, y: Item)
    requires ConflictFree(routes)
    requires IsConfigured(routes, x) && IsConfigured(routes, y)
    requires x.host == y.host && x.path == y.path
    ensures x == y
  {
    hide ParseDomainRoute;
    var t := Parsed(x.host, x.path);
    ConfiguredIff(routes, x);
    ConfiguredIff(routes, y);
    assert Claims(routes[x.appID], t) && Claims(routes[y.appID], t);
  }

  /** The lookup is a function of table, host and path. */
  lemma LookupIsUnique(routes: Routes, host: string, path: string, a: Option<Item>, b: Option<Item>)
    requires ConflictFree(routes)
    requires IsLookup(routes, host, path, a) && IsLookup(routes, host, path, b)
    ensures a == b
  {
    hide IsConfigured, ConflictFree;
    if a.Some? && b.Some? {
      ConfiguredShape(routes, a.value);
      ConfiguredShape(routes, b.value);
      SamePrefix(a.value, b.value, path);
      EntryIsUnique(routes, a.value, b.value);
    }
  }

  lemma SamePrefix(x: Item, y: Item, path: string)
    requires Covers(x, path) && Covers(y, path) && |x.path| == |y.path|
    requires NormalPath(x.path) && NormalPath(y.path)
    ensures x.path == y.path
  {
    if |x.path| > 2 {
      assert Prefix(x) == path[..|Prefix(x)|] by { CoveredPrefix(Prefix(x), path); }
      assert Prefix(y) == path[..|Prefix(y)|] by { CoveredPrefix(Prefix(y), path); }
      assert x.path == Prefix(x) + ['/', '*'] && y.path == Prefix(y) + ['/', '*'];
    }
  }

  lemma CoveredPrefix(prefix: string, path: string)
    requires SegmentPrefix(prefix, path)
    ensures |prefix| <= |path| && path[..|prefix|] == prefix
  {
    if path != prefix {
      assert path[..|prefix|] == path[..|prefix| + 1][..|prefix|];
    }
  }

  /* ---- one emitted route ---- */

  /** Without signs, the emitted matcher is the segment-prefix test. */
  lemma EmitMatches(m: Reader, x: Item, host: string, path: string)
    requires Reads(m) && NormalPath(x.path) && PlainText(Prefix(x))
    ensures Matches(m, Emit(x), host, path) <==> x.host == host && Covers(x, path)
  {
    if x.path != CATCH_ALL {
      PatternsOf(x);
      var prefix := Prefix(x);
      assert x.path == (prefix + ['/']) + ['*'];
      assert ReadsText(m, prefix, path) && ReadsText(m, prefix + ['/'], path);
      assert x.path in Emit(x).paths && prefix in Emit(x).paths;
    }
  }

  /** The path that an entry is for: its own prefix, or the root for a catch-all. */
  function Own(x: Item): string {
    if IsCatchAll(x) then "/" else Prefix(x)
  }

  lemma EmitMatchesOwn(m: Reader, x: Item)
    requires Reads(m) && NormalPath(x.path) && WildText(Prefix(x))
    ensures Matches(m, Emit(x), x.host, Own(x))
  {
    if x.path != CATCH_ALL {
      PatternsOf(x);
      assert ReadsStar(m, Prefix(x), 0, 0);
      assert Prefix(x) in Emit(x).paths;
    }
  }

  lemma PatternsOf(x: Item)
    requires NormalPath(x.path) && x.path != CATCH_ALL
    ensures Emit(x) == CaddyRoute(x.host, [x.path, Prefix(x)], x.upstream)
    ensures ProperStem(Prefix(x)) && x.path == Prefix(x) + ['/', '*']
  {
    assert x.path == x.path[..|x.path| - 2] + ['/', '*'];
    assert Prefix(x) != "/";
  }

  /** A starred prefix also matches paths with filler for an asterisk. */
  lemma StarredTakesFilled(m: Reader, x: Item, i: nat, n: nat)
    requires Reads(m) && NormalPath(x.path) && WildText(Prefix(x)) && i < |Prefix(x)| && Prefix(x)[i] == '*'
    ensures Matches(m, Emit(x), x.host, Prefix(x)[..i] + Filler(n) + Prefix(x)[i + 1..])
  {
    PatternsOf(x);
    assert ReadsStar(m, Prefix(x), i, n);
    assert Prefix(x) in Emit(x).paths;
  }

  lemma EmitDeterminesPath(x: Item, y: Item)
    requires NormalPath(x.path) && NormalPath(y.path) && Emit(x) == Emit(y)
    ensures x.host == y.host && x.path == y.path && x.upstream == y.upstream
  {
    if x.path != CATCH_ALL {
      PatternsOf(x);
    }
    if y.path != CATCH_ALL {
      PatternsOf(y);
    }
  }

  /* ---- the list ---- */

  ghost predicate FirstAt(m: Reader, cfg: Config, host: string, path: string, i: nat) {
    i < |cfg| && Matches(m, cfg[i], host, path) && forall j :: 0 <= j < i ==> !Matches(m, cfg[j], host, path)
  }

  lemma {:induction false} FirstMatchPosition(m: Reader, cfg: Config, host: string, path: string)
    ensures FirstMatch(m, cfg, host, path).None? ==> forall i :: 0 <= i < |cfg| ==> !Matches(m, cfg[i], host, path)
    ensures FirstMatch(m, cfg, host, path).Some? ==>
              exists i: nat :: FirstAt(m, cfg, host, path, i) && FirstMatch(m, cfg, host, path).value == cfg[i]
  {
    hide Matches;
    if cfg != [] {
      if Matches(m, cfg[0], host, path) {
        assert FirstAt(m, cfg, host, path, 0);
      } else {
        FirstMatchPosition(m, cfg[1..], host, path);
        if FirstMatch(m, cfg, host, path).Some? {
          var i: nat :| FirstAt(m, cfg[1..], host, path, i) && FirstMatch(m, cfg[1..], host, path).value == cfg[1..][i];
          assert forall j :: 1 <= j < |cfg| ==> cfg[j] == cfg[1..][j - 1];
          assert FirstAt(m, cfg, host, path, i + 1);
        }
      }
    }
  }

  /** Off the dashboard host the dashboard route is transparent. */
  lemma SkipDashboard(m: Reader, items: seq<Item>, dash: Dashboard, host: string, path: string)
    requires !DashboardHost(dash, host)
    ensures FirstMatch(m, DashboardRoutes(dash) + EmitAll(items), host, path) == FirstMatch(m, EmitAll(items), host, path)
  {
    hide Emit;
    var cfg := DashboardRoutes(dash) + EmitAll(items);
    if dash.IsSet() {
      assert cfg[1..] == EmitAll(items);
    } else {
      assert cfg == EmitAll(items);
    }
  }

  /** Emission follows the order of the items, and earlier specific items are never shorter. */
  ghost predicate LongestFirst(items: seq<Item>) {
    forall i, j :: 0 <= i < j < |items| ==> |items[j].path| <= |items[i].path|
  }

  lemma ArrangedLongestFirst(specific: seq<Item>, catchAll: seq<Item>, routes: Routes)
    requires Arranged(specific, catchAll, routes)
    ensures LongestFirst(specific + catchAll)
  {
    hide IsConfigured, Lists;
    var items := specific + catchAll;
    forall x | x in items ensures NormalPath(x.path) && (IsCatchAll(x) <==> x.path == CATCH_ALL) {
      ListedIsConfigured(items, routes, x);
      ConfiguredShape(routes, x);
    }
    forall i, j | 0 <= i < j < |items| ensures |items[j].path| <= |items[i].path| {
      assert items[i] in items && items[j] in items;
      if j < |specific| {
        assert !SpecificLess(specific[j], specific[i]);
      } else {
        assert items[j] == catchAll[j - |specific|];
      }
    }
  }

  lemma ArrangedLists(specific: seq<Item>, catchAll: seq<Item>, routes: Routes)
    requires Arranged(specific, catchAll, routes)
    ensures Lists(specific + catchAll, routes)
  {
    hide Lists;
  }

  lemma CompilationItems(cfg: Config, routes: Routes, dash: Dashboard) returns (specific: seq<Item>, catchAll: seq<Item>)
    requires IsCompilation(cfg, routes, dash)
    ensures Arranged(specific, catchAll, routes)
    ensures cfg == DashboardRoutes(dash) + EmitAll(specific + catchAll)
    ensures Lists(specific + catchAll, routes) && LongestFirst(specific + catchAll)
  {
    hide Emit, SpecificLess, CatchAllLess, Lists, IsCatchAll, DashboardRoutes;
    specific, catchAll :|
      Arranged(specific, catchAll, routes)
      && cfg == DashboardRoutes(dash) + EmitAll(specific) + EmitAll(catchAll);
    ArrangedLongestFirst(specific, catchAll, routes);
    assert Lists(specific + catchAll, routes) by { ArrangedLists(specific, catchAll, routes); }
    assert EmitAll(specific + catchAll) == EmitAll(specific) + EmitAll(catchAll);
  }

  /* ---- the dashboard ---- */

  /** Whatever reads the patterns, every request for the dashboard's host reaches its target. */
  lemma DashboardFirst(m: Reader, cfg: Config, routes: Routes, dash: Dashboard, path: string)
    requires IsCompilation(cfg, routes, dash) && dash.domain != "" && dash.target != ""
    ensures FirstMatch(m, cfg, dash.domain, path).Some? && FirstMatch(m, cfg, dash.domain, path).value.upstream == dash.target
  {
    hide Arranged, Emit;
    var specific, catchAll := CompilationItems(cfg, routes, dash);
    assert cfg[0] == CaddyRoute(dash.domain, [], dash.target);
  }

  /** The route leads from a configured entry's host to its application. */
  ghost predicate StandsFor(r: CaddyRoute, routes: Routes, x: Item) {
    IsConfigured(routes, x) && r.host == x.host && r.upstream == routes[x.appID].upstream
  }

  /** Nothing else is routed. */
  lemma OnlyConfiguredIsRouted(cfg: Config, routes: Routes, dash: Dashboard, r: CaddyRoute)
    requires IsCompilation(cfg, routes, dash) && r in cfg
    ensures (dash.domain != "" && dash.target != "" && r == CaddyRoute(dash.domain, [], dash.target))
            || exists x :: StandsFor(r, routes, x)
  {
    hide Arranged, Emit, IsConfigured, Lists, LongestFirst;
    var specific, catchAll := CompilationItems(cfg, routes, dash);
    var items := specific + catchAll;
    if r !in DashboardRoutes(dash) {
      var i :| 0 <= i < |EmitAll(items)| && EmitAll(items)[i] == r;
      ListedIsConfigured(items, routes, items[i]);
      ConfiguredShape(routes, items[i]);
      HostOfEmit(items[i]);
      assert StandsFor(r, routes, items[i]);
    }
  }

  /* ---- meaning preserved ---- */

  /** One request: the first match is the longest prefix, when no configured prefix on the host has a sign. */
  lemma FirstMatchIsLookup(m: Reader, items: seq<Item>, routes: Routes, host: string, path: string)
    requires Reads(m) && Lists(items, routes) && LongestFirst(items)
    requires forall x :: IsConfigured(routes, x) && x.host == host ==> PlainText(Prefix(x))
    ensures Agrees(m, EmitAll(items), routes, host, path)
  {
    hide IsConfigured, Lists, Emit, Matches, Covers, PlainText, Reads;
    var cfg := EmitAll(items);
    forall x ensures Candidate(routes, x, host, path) <==> x in items && Matches(m, Emit(x), host, path) {
      CandidateMatches(m, items, routes, host, path, x);
    }
    FirstMatchPosition(m, cfg, host, path);
    if FirstMatch(m, cfg, host, path).Some? {
      var i: nat :| FirstAt(m, cfg, host, path, i) && FirstMatch(m, cfg, host, path).value == cfg[i];
      var x := items[i];
      forall y | Candidate(routes, y, host, path) ensures |y.path| <= |x.path| {
        var j :| 0 <= j < |items| && items[j] == y;
        assert Matches(m, cfg[j], host, path);
      }
      assert IsLookup(routes, host, path, Some(x));
    } else {
      forall y ensures !Candidate(routes, y, host, path) {
        if y in items {
          var j :| 0 <= j < |items| && items[j] == y;
          assert !Matches(m, cfg[j], host, path);
        }
      }
    }
  }

  lemma CandidateMatches(m: Reader, items: seq<Item>, routes: Routes, host: string, path: string, x: Item)
    requires Reads(m) && Lists(items, routes)
    requires forall y :: IsConfigured(routes, y) && y.host == host ==> PlainText(Prefix(y))
    ensures Candidate(routes, x, host, path) <==> x in items && Matches(m, Emit(x), host, path)
  {
    hide IsConfigured, Lists, Emit, Covers, PlainText, Reads;
    ListedIsConfigured(items, routes, x);
    if IsConfigured(routes, x) {
      ConfiguredShape(routes, x);
      if x.host == host {
        EmitMatches(m, x, host, path);
      } else {
        assert Emit(x).host == x.host by { HostOfEmit(x); }
      }
    }
  }

  lemma HostOfEmit(x: Item)
    ensures Emit(x).host == x.host && Emit(x).upstream == x.upstream
  {
  }

  /** Routing by a compiled configuration means the longest-prefix lookup, for every request off the
      dashboard host and whatever reads the patterns, if and only if no configured prefix off the dashboard
      host has an asterisk in it. */
  lemma CompilationMeansLookup(m: Reader, cfg: Config, routes: Routes, dash: Dashboard)
    requires Reads(m) && IsCompilation(cfg, routes, dash) && WildOnly(routes, dash)
    ensures (forall host, path :: !DashboardHost(dash, host) ==> Agrees(m, cfg, routes, host, path))
            <==> StarFree(routes, dash)
  {
    hide IsConfigured, Lists, Emit, Matches, Agrees, Starred, IsCompilation, DashboardRoutes, Reads, Arranged;
    var specific, catchAll := CompilationItems(cfg, routes, dash);
    var items := specific + catchAll;
    if StarFree(routes, dash) {
      forall host, path | !DashboardHost(dash, host) ensures Agrees(m, cfg, routes, host, path) {
        forall x | IsConfigured(routes, x) && x.host == host ensures PlainText(Prefix(x)) {
          PlainIsUnstarred(x);
        }
        FirstMatchIsLookup(m, items, routes, host, path);
        SkipDashboard(m, items, dash, host, path);
        AgreesBySameMatch(m, cfg, EmitAll(items), routes, host, path);
      }
    } else {
      var x :| IsConfigured(routes, x) && !DashboardHost(dash, x.host) && Starred(x);
      var path := StarMisroutes(m, items, routes, x);
      SkipDashboard(m, items, dash, x.host, path);
      AgreesBySameMatch(m, cfg, EmitAll(items), routes, x.host, path);
    }
  }

  lemma PlainIsUnstarred(x: Item)
    ensures PlainText(Prefix(x)) <==> WildText(Prefix(x)) && !Starred(x)
  {
  }

  lemma AgreesBySameMatch(m: Reader, a: Config, b: Config, routes: Routes, host: string, path: string)
    requires FirstMatch(m, a, host, path) == FirstMatch(m, b, host, path)
    ensures Agrees(m, a, routes, host, path) <==> Agrees(m, b, routes, host, path)
  {
    hide IsConfigured, Emit, Matches, FirstMatch, IsLookup;
  }

  /* ---- the starred family ---- */

  ghost function Longest(items: seq<Item>): (n: nat)
    ensures forall x :: x in items ==> |x.path| <= n
  {
    if items == [] then 0
    else
      var m := Longest(items[1..]);
      assert items == [items[0]] + items[1..];
      if |items[0].path| > m then |items[0].path| else m
  }

  /** Every starred prefix captures some request whose longest covering prefix is another one. */
  lemma StarMisroutes(m: Reader, items: seq<Item>, routes: Routes, x: Item) returns (path: string)
    requires Reads(m) && Lists(items, routes) && LongestFirst(items)
    requires IsConfigured(routes, x) && Starred(x) && WildText(Prefix(x))
    ensures !Agrees(m, EmitAll(items), routes, x.host, path)
  {
    hide IsConfigured, Lists, Emit, Matches, Reads, FirstMatch, Agrees, LongestFirst, WildText;
    ConfiguredShape(routes, x);
    ListedIsConfigured(items, routes, x);
    var at :| 0 <= at < |Prefix(x)| && Prefix(x)[at] == '*';
    var n := Longest(items) + 1;
    var base, rest := Prefix(x)[..at], Prefix(x)[at + 1..];
    path := base + Filler(n) + rest;
    StarredTakesFilled(m, x, at, n);
    var k :| 0 <= k < |items| && items[k] == x;
    FirstIsLong(m, items, k, path);
    forall w | IsConfigured(routes, w) && Candidate(routes, w, x.host, path) ensures |w.path| < |x.path| {
      ConfiguredShape(routes, w);
      ListedIsConfigured(items, routes, w);
      if w.path != CATCH_ALL {
        CoverIsShort(w, base, Filler(n), rest);
      }
    }
    LongIsWrong(m, items, routes, x, path);
  }

  lemma FirstIsLong(m: Reader, items: seq<Item>, k: nat, path: string)
    requires LongestFirst(items) && k < |items| && Matches(m, Emit(items[k]), items[k].host, path)
    ensures var r := FirstMatch(m, EmitAll(items), items[k].host, path);
      r.Some? && exists i :: 0 <= i < |items| && r.value == Emit(items[i]) && |items[i].path| >= |items[k].path|
  {
    hide Emit, Matches;
    var cfg, host := EmitAll(items), items[k].host;
    FirstMatchPosition(m, cfg, host, path);
    assert Matches(m, cfg[k], host, path);
    var i: nat :| FirstAt(m, cfg, host, path, i) && FirstMatch(m, cfg, host, path).value == cfg[i];
    assert |items[i].path| >= |items[k].path|;
  }

  lemma LongIsWrong(m: Reader, items: seq<Item>, routes: Routes, x: Item, path: string)
    requires Lists(items, routes)
    requires forall w :: IsConfigured(routes, w) && Candidate(routes, w, x.host, path) ==> |w.path| < |x.path|
    requires var r := FirstMatch(m, EmitAll(items), x.host, path);
      r.Some? && exists i :: 0 <= i < |items| && r.value == Emit(items[i]) && |items[i].path| >= |x.path|
    ensures !Agrees(m, EmitAll(items), routes, x.host, path)
  {
    hide IsConfigured, Lists, Emit, Matches, Covers, FirstMatch;
    var r := FirstMatch(m, EmitAll(items), x.host, path);
    var i :| 0 <= i < |items| && r.value == Emit(items[i]) && |items[i].path| >= |x.path|;
    ListedIsConfigured(items, routes, items[i]);
    ConfiguredShape(routes, items[i]);
    forall w | IsLookup(routes, x.host, path, Some(w)) ensures r.value != Emit(w) {
      ConfiguredShape(routes, w);
      if r.value == Emit(w) {
        EmitDeterminesPath(w, items[i]);
      }
    }
  }

  /** Filler holds no slash, so an entry that covers the filled path has a prefix inside the base. */
  lemma CoverIsShort(w: Item, base: string, filler: string, rest: string)
    requires NormalPath(w.path) && w.path != CATCH_ALL
    requires |w.path| <= |filler| && forall i :: 0 <= i < |filler| ==> filler[i] == '#'
    requires Covers(w, base + filler + rest)
    ensures |Prefix(w)| < |base|
  {
    var prefix := Prefix(w);
    var path := base + filler + rest;
    assert path != prefix;
    PrefixAt(path, prefix + ['/'], |prefix|);
    assert path[|prefix|] == '/';
  }

  lemma StarredPath(p: string)
    requires p == "/v*"
    ensures NormalizePath(p) == p + ['/', '*']
  {
    assert Trimmed(p);
    TrimSpaceFixed(p);
    assert Rooted(p) == p && Stem(p) == p;
  }

  /** Such entries are accepted input: they parse, and their route passes the route check. */
  lemma StarredEntryIsAccepted(host: string, upstream: string)
    requires ValidDomain(host) && NoUpper(host)
    ensures EntryItems("app", upstream, host + "/v*") == [Item("app", host, "/v*/*", upstream)]
    ensures Starred(Item("app", host, "/v*/*", upstream))
    ensures ValidUpstream(upstream) ==> ValidRoute(Route("app", [host + "/v*"], upstream))
  {
    hide NormalizePath, ValidDomain, ValidUpstream;
    var p := "/v*";
    ParseOfHostAndPath(host, p);
    StarredPath(p);
    LastHostChar(host);
    assert p + ['/', '*'] == "/v*/*";
    hide ParseDomainRoute;
    assert Prefix(Item("app", host, "/v*/*", upstream)) == p;
    assert p[2] == '*';
  }

  /* ---- shadowing ---- */

  /** The entry's route is emitted before the other's. */
  predicate Before(y: Item, x: Item) {
    !IsCatchAll(y) && (IsCatchAll(x) || SpecificLess(y, x))
  }

  /** An earlier entry of the same host takes the path. */
  ghost predicate Takes(m: Reader, routes: Routes, y: Item, x: Item, path: string) {
    IsConfigured(routes, y) && y.host == x.host && Before(y, x) && Matches(m, Emit(y), x.host, path)
  }

  lemma EarlierIsBefore(specific: seq<Item>, catchAll: seq<Item>, routes: Routes, i: nat, j: nat)
    requires Arranged(specific, catchAll, routes) && i < j < |specific + catchAll|
    ensures var items := specific + catchAll;
      items[i] == items[j] || Before(items[i], items[j]) || (IsCatchAll(items[i]) && IsCatchAll(items[j]))
  {
    hide IsConfigured, Lists, SpecificLess, CatchAllLess, IsCatchAll;
    var items := specific + catchAll;
    if j < |specific| {
      assert items[i] == specific[i] && items[j] == specific[j];
      assert specific[i] in specific && specific[j] in specific;
      assert !SpecificLess(specific[j], specific[i]);
      TiesAreEqual(specific, catchAll, routes);
    } else {
      assert items[j] == catchAll[j - |specific|] && items[j] in catchAll;
      assert items[i] in specific || items[i] in catchAll;
    }
  }

  lemma BeforeIsEarlier(specific: seq<Item>, catchAll: seq<Item>, routes: Routes, i: nat, j: nat)
    requires Arranged(specific, catchAll, routes) && i < |specific + catchAll| && j < |specific + catchAll|
    requires Before((specific + catchAll)[i], (specific + catchAll)[j])
    ensures i < j
  {
    hide IsConfigured, Lists, SpecificLess, CatchAllLess, IsCatchAll;
    SpecificLessIsOrder();
    var items := specific + catchAll;
    assert forall n :: |specific| <= n < |items| ==> items[n] in catchAll;
    assert forall n :: 0 <= n < |specific| ==> items[n] in specific;
  }

  /** For any reader of patterns whatever: a request is answered by an entry if and only if the entry's own
      patterns take it and those of no earlier entry of the host do. */
  lemma ServedIff(m: Reader, cfg: Config, routes: Routes, dash: Dashboard, x: Item, path: string)
    requires IsCompilation(cfg, routes, dash) && ConflictFree(routes)
    requires IsConfigured(routes, x) && !DashboardHost(dash, x.host)
    ensures FirstMatch(m, cfg, x.host, path) == Some(Emit(x))
            <==> Matches(m, Emit(x), x.host, path) && !exists y :: Takes(m, routes, y, x, path)
  {
    hide IsConfigured, Emit, Matches, IsCompilation, ConflictFree, Arranged, DashboardRoutes, Lists, Before, LongestFirst;
    hide FirstMatch;
    var specific, catchAll := CompilationItems(cfg, routes, dash);
    var items := specific + catchAll;
    ListedIsConfigured(items, routes, x);
    var k :| 0 <= k < |items| && items[k] == x;
    var list := EmitAll(items);
    SkipDashboard(m, items, dash, x.host, path);
    FirstMatchPosition(m, list, x.host, path);
    if FirstMatch(m, list, x.host, path).Some? {
      var i: nat :| FirstAt(m, list, x.host, path, i) && FirstMatch(m, list, x.host, path).value == list[i];
      FirstIsServed(m, specific, catchAll, routes, x, path, i);
      assert i <= k || !Matches(m, list[k], x.host, path);
      if items[i] != x && i < k {
        EarlierTakes(m, specific, catchAll, routes, x, path, i, k);
      }
      if items[i] == x {
        forall y ensures !Takes(m, routes, y, x, path) {
          NoneEarlier(m, specific, catchAll, routes, x, path, i, y);
        }
      }
    } else {
      assert !Matches(m, list[k], x.host, path);
    }
  }

  /** The first match is the entry's route if and only if it stands where the entry does. */
  lemma FirstIsServed(m: Reader, specific: seq<Item>, catchAll: seq<Item>, routes: Routes, x: Item, path: string, i: nat)
    requires Arranged(specific, catchAll, routes) && Lists(specific + catchAll, routes) && ConflictFree(routes)
    requires IsConfigured(routes, x) && FirstAt(m, EmitAll(specific + catchAll), x.host, path, i)
    ensures IsConfigured(routes, (specific + catchAll)[i]) && (specific + catchAll)[i].host == x.host
    ensures Emit((specific + catchAll)[i]) == Emit(x) <==> (specific + catchAll)[i] == x
    ensures Matches(m, Emit((specific + catchAll)[i]), x.host, path)
  {
    hide IsConfigured, Emit, Matches, ConflictFree, Arranged, Lists;
    var items := specific + catchAll;
    ListedIsConfigured(items, routes, items[i]);
    MatchHasHost(m, items[i], x.host, path);
    if items[i] != x {
      EmitIsUnique(routes, items[i], x);
    }
  }

  lemma EarlierTakes(m: Reader, specific: seq<Item>, catchAll: seq<Item>, routes: Routes, x: Item, path: string, i: nat, k: nat)
    requires Arranged(specific, catchAll, routes) && ConflictFree(routes) && i < k < |specific + catchAll|
    requires var z := (specific + catchAll)[i];
      (specific + catchAll)[k] == x && z != x && IsConfigured(routes, z) && IsConfigured(routes, x) && z.host == x.host
      && Matches(m, Emit(z), x.host, path)
    ensures Takes(m, routes, (specific + catchAll)[i], x, path)
  {
    hide IsConfigured, Emit, Matches, ConflictFree, Arranged, Before;
    var z := (specific + catchAll)[i];
    EarlierIsBefore(specific, catchAll, routes, i, k);
    ConfiguredShape(routes, z);
    ConfiguredShape(routes, x);
    if IsCatchAll(z) && IsCatchAll(x) {
      EntryIsUnique(routes, z, x);
    }
  }

  lemma NoneEarlier(m: Reader, specific: seq<Item>, catchAll: seq<Item>, routes: Routes, x: Item, path: string, i: nat, y: Item)
    requires Arranged(specific, catchAll, routes) && Lists(specific + catchAll, routes)
    requires FirstAt(m, EmitAll(specific + catchAll), x.host, path, i) && (specific + catchAll)[i] == x
    ensures !Takes(m, routes, y, x, path)
  {
    hide IsConfigured, Emit, Matches, Arranged, Lists, Before;
    var items := specific + catchAll;
    ListedIsConfigured(items, routes, y);
    if IsConfigured(routes, y) && Before(y, x) {
      var j :| 0 <= j < |items| && items[j] == y;
      BeforeIsEarlier(specific, catchAll, routes, j, i);
      assert !Matches(m, EmitAll(items)[j], x.host, path);
    }
  }

  /** Requesting the path that an entry is for reaches its application if and only if its own patterns take
      that path and no earlier entry of its host does. */
  lemma ShadowedIff(m: Reader, cfg: Config, routes: Routes, dash: Dashboard, x: Item)
    requires IsCompilation(cfg, routes, dash) && ConflictFree(routes)
    requires IsConfigured(routes, x) && !DashboardHost(dash, x.host)
    ensures FirstMatch(m, cfg, x.host, Own(x)) == Some(Emit(x))
            <==> Matches(m, Emit(x), x.host, Own(x)) && !exists y :: Takes(m, routes, y, x, Own(x))
    ensures Emit(x).upstream == routes[x.appID].upstream
  {
    hide IsConfigured, Emit, Matches, IsCompilation, ConflictFree, Own;
    ServedIff(m, cfg, routes, dash, x, Own(x));
    ConfiguredShape(routes, x);
    HostOfEmit(x);
  }

  lemma MatchHasHost(m: Reader, x: Item, host: string, path: string)
    requires Matches(m, Emit(x), host, path)
    ensures x.host == host
  {
  }

  lemma EmitIsUnique(routes: Routes, x: Item, y: Item)
    requires ConflictFree(routes) && IsConfigured(routes, x) && IsConfigured(routes, y) && x != y
    ensures Emit(x) != Emit(y)
  {
    hide IsConfigured, ConflictFree, Emit;
    ConfiguredShape(routes, x);
    ConfiguredShape(routes, y);
    if Emit(x) == Emit(y) {
      EmitDeterminesPath(x, y);
      EntryIsUnique(routes, x, y);
    }
  }

  /** Without other signs, only entries with an asterisk shadow others. */
  lemma OnlyStarredShadow(m: Reader, routes: Routes, dash: Dashboard, z: Item, x: Item)
    requires Reads(m) && WildOnly(routes, dash) && ConflictFree(routes) && !DashboardHost(dash, x.host)
    requires IsConfigured(routes, x) && Takes(m, routes, z, x, Own(x))
    ensures Starred(z)
  {
    hide IsConfigured, Emit, Matches, ConflictFree, Reads, DashboardHost;
    SpecificLessIsOrder();
    assert !SpecificLess(x, x);
    ConfiguredShape(routes, z);
    ConfiguredShape(routes, x);
    if !Starred(z) {
      EmitMatches(m, z, x.host, Own(x));
      CoveredPrefix(Prefix(z), Own(x));
      if !IsCatchAll(x) {
        assert Prefix(z) == Prefix(x);
        EntryIsUnique(routes, z, x);
      }
    }
  }

  /** Without any signs no entry is shadowed. */
  lemma NoRouteShadowed(m: Reader, cfg: Config, routes: Routes, dash: Dashboard, x: Item)
    requires Reads(m) && IsCompilation(cfg, routes, dash) && WildOnly(routes, dash) && StarFree(routes, dash)
    requires ConflictFree(routes) && IsConfigured(routes, x) && !DashboardHost(dash, x.host)
    ensures FirstMatch(m, cfg, x.host, Own(x)) == Some(Emit(x)) && Emit(x).upstream == routes[x.appID].upstream
  {
    hide IsConfigured, Emit, Matches, Starred, IsCompilation, ConflictFree, Reads, Before, Own;
    ShadowedIff(m, cfg, routes, dash, x);
    ConfiguredShape(routes, x);
    EmitMatchesOwn(m, x);
    forall y ensures !Takes(m, routes, y, x, Own(x)) {
      if Takes(m, routes, y, x, Own(x)) {
        OnlyStarredShadow(m, routes, dash, y, x);
      }
    }
  }

  /* ---- any reader, any table ---- */

  /** Nobody takes the request from the entry that the lookup names, or where it names none. */
  ghost predicate Unstolen(m: Reader, routes: Routes, host: string, path: string) {
    && (forall x :: IsLookup(routes, host, path, Some(x)) ==>
          Matches(m, Emit(x), host, path) && !exists y :: Takes(m, routes, y, x, path))
    && (IsLookup(routes, host, path, None) ==>
          forall y :: IsConfigured(routes, y) && y.host == host ==> !Matches(m, Emit(y), host, path))
  }

  ghost predicate FirstCover(items: seq<Item>, host: string, path: string, i: nat) {
    i < |items| && items[i].host == host && Covers(items[i], path)
    && forall j :: 0 <= j < i ==> !(items[j].host == host && Covers(items[j], path))
  }

  lemma {:induction false} CoverOrNone(items: seq<Item>, host: string, path: string)
    ensures (exists i: nat :: FirstCover(items, host, path, i)) || forall x :: x in items ==> !(x.host == host && Covers(x, path))
  {
    hide Covers;
    if items != [] {
      var n := |items| - 1;
      CoverOrNone(items[..n], host, path);
      if exists i: nat :: FirstCover(items[..n], host, path, i) {
        var i: nat :| FirstCover(items[..n], host, path, i);
        assert forall j :: 0 <= j <= i ==> items[..n][j] == items[j];
        assert FirstCover(items, host, path, i);
      } else if items[n].host == host && Covers(items[n], path) {
        assert forall j :: 0 <= j < n ==> items[j] in items[..n];
        assert FirstCover(items, host, path, n);
      }
    }
  }

  /** Every request has a lookup, if only the empty one. */
  lemma LookupExists(items: seq<Item>, routes: Routes, host: string, path: string) returns (r: Option<Item>)
    requires Lists(items, routes) && LongestFirst(items)
    ensures IsLookup(routes, host, path, r)
  {
    hide IsConfigured, Lists, Covers;
    CoverOrNone(items, host, path);
    forall x ensures Candidate(routes, x, host, path) <==> x in items && x.host == host && Covers(x, path) {
      ListedIsConfigured(items, routes, x);
    }
    if exists i: nat :: FirstCover(items, host, path, i) {
      var i: nat :| FirstCover(items, host, path, i);
      assert items[i] in items;
      r := Some(items[i]);
    } else {
      r := None;
    }
  }

  /** For any reader and any table without conflicts: a request is routed by the lookup if and only if
      nobody takes it away. */
  lemma AgreesIff(m: Reader, cfg: Config, routes: Routes, dash: Dashboard, host: string, path: string)
    requires IsCompilation(cfg, routes, dash) && ConflictFree(routes) && !DashboardHost(dash, host)
    ensures Agrees(m, cfg, routes, host, path) <==> Unstolen(m, routes, host, path)
  {
    hide IsConfigured, Emit, Matches, IsCompilation, ConflictFree, Arranged, Lists, LongestFirst, Takes, FirstMatch, IsLookup;
    var specific, catchAll := CompilationItems(cfg, routes, dash);
    var items := specific + catchAll;
    var r := LookupExists(items, routes, host, path);
    if r.Some? {
      LookupNames(routes, host, path, r.value);
      ServedIff(m, cfg, routes, dash, r.value, path);
    } else {
      NoneMatches(m, cfg, items, routes, dash, host, path);
    }
    forall o | IsLookup(routes, host, path, o) ensures o == r {
      LookupIsUnique(routes, host, path, o, r);
    }
  }

  lemma LookupNames(routes: Routes, host: string, path: string, x: Item)
    requires IsLookup(routes, host, path, Some(x))
    ensures IsConfigured(routes, x) && x.host == host
  {
  }

  lemma NoneMatches(m: Reader, cfg: Config, items: seq<Item>, routes: Routes, dash: Dashboard, host: string, path: string)
    requires cfg == DashboardRoutes(dash) + EmitAll(items) && Lists(items, routes) && !DashboardHost(dash, host)
    ensures FirstMatch(m, cfg, host, path).None?
            <==> forall y :: IsConfigured(routes, y) && y.host == host ==> !Matches(m, Emit(y), host, path)
  {
    hide IsConfigured, Emit, Matches, Lists, FirstMatch, DashboardRoutes;
    SkipDashboard(m, items, dash, host, path);
    var list := EmitAll(items);
    FirstMatchPosition(m, list, host, path);
    if FirstMatch(m, list, host, path).Some? {
      var i: nat :| FirstAt(m, list, host, path, i) && FirstMatch(m, list, host, path).value == list[i];
      ListedIsConfigured(items, routes, items[i]);
      MatchHasHost(m, items[i], host, path);
    } else {
      forall y | IsConfigured(routes, y) && y.host == host ensures !Matches(m, Emit(y), host, path) {
        ListedIsConfigured(items, routes, y);
        var j :| 0 <= j < |items| && items[j] == y;
        assert !Matches(m, list[j], host, path);
      }
    }
  }

  /** A request for nobody that an entry takes. */
  lemma TakenFromNobody(m: Reader, routes: Routes, x: Item, path: string)
    requires IsConfigured(routes, x) && Matches(m, Emit(x), x.host, path)
    requires forall y :: IsConfigured(routes, y) ==> !Covers(y, path)
    ensures !Unstolen(m, routes, x.host, path)
  {
    hide IsConfigured, Matches, Emit, Covers, Takes;
    assert IsLookup(routes, x.host, path, None);
  }

  function QuestionMarkTable(host: string, upstream: string): Routes {
    map["app" := Route("app", [host + "/a?b"], upstream)]
  }

  /** The one entry `host/a?b`, read with single-character wildcards, takes `/axb`, which it is not for. */
  lemma QuestionMarkMisroutes(host: string, upstream: string, cfg: Config)
    requires ValidDomain(host) && NoUpper(host) && upstream != ""
    requires IsCompilation(cfg, QuestionMarkTable(host, upstream), Dashboard("", ""))
    ensures !Agrees(GlobReads, cfg, QuestionMarkTable(host, upstream), host, "/axb")
  {
    hide IsCompilation, Emit, Matches, ValidDomain, Unstolen, Agrees, GlobReads, IsConfigured, ConflictFree, Covers;
    hide QuestionMarkTable;
    var x := Item("app", host, "/a?b/*", upstream);
    QuestionMarkItem(host, upstream);
    QuestionMarkTakes(x);
    AgreesIff(GlobReads, cfg, QuestionMarkTable(host, upstream), Dashboard("", ""), host, "/axb");
    TakenFromNobody(GlobReads, QuestionMarkTable(host, upstream), x, "/axb");
  }

  lemma QuestionMarkItem(host: string, upstream: string)
    requires ValidDomain(host) && NoUpper(host) && upstream != ""
    ensures var routes := QuestionMarkTable(host, upstream);
      ConflictFree(routes) && forall x :: IsConfigured(routes, x) <==> x == Item("app", host, "/a?b/*", upstream)
  {
    hide ValidDomain, NormalizePath;
    var p := "/a?b";
    ParseOfHostAndPath(host, p);
    assert NormalizePath(p) == "/a?b/*" by { QuestionMarkPath(); }
    LastHostChar(host);
    hide ParseDomainRoute;
    var ds := [host + p];
    assert ds[..0] == [];
    assert DomainItems("app", upstream, ds) == [] + EntryItems("app", upstream, host + p);
  }

  lemma QuestionMarkPath()
    ensures NormalizePath("/a?b") == "/a?b/*"
  {
    var p := "/a?b";
    assert Trimmed(p);
    TrimSpaceFixed(p);
    assert Rooted(p) == p && Stem(p) == p;
  }

  lemma QuestionMarkTakes(x: Item)
    requires x.path == "/a?b/*"
    ensures Matches(GlobReads, Emit(x), x.host, "/axb") && !Covers(x, "/axb")
  {
    assert Prefix(x) == "/a?b";
    assert Prefix(x) in Emit(x).paths;
    GlobItself("b");
    assert "/a?b"[1..] == "a?b" && "a?b"[1..] == "?b" && "?b"[1..] == "b";
    assert "/axb"[1..] == "axb" && "axb"[1..] == "xb" && "xb"[1..] == "b";
    assert Glob("?b", "xb") && Glob("a?b", "axb");
  }

  /** Any two enumerations of the map, sorted by any correct sorts, give the same list. */
  lemma CompilationIsDeterministic(a: Config, b: Config, routes: Routes, dash: Dashboard)
    requires IsCompilation(a, routes, dash) && IsCompilation(b, routes, dash)
    ensures a == b
  {
    hide Emit, SpecificLess, CatchAllLess, IsCatchAll, IsConfigured, Lists;
    var s1, c1 :| Arranged(s1, c1, routes) && a == DashboardRoutes(dash) + EmitAll(s1) + EmitAll(c1);
    var s2, c2 :| Arranged(s2, c2, routes) && b == DashboardRoutes(dash) + EmitAll(s2) + EmitAll(c2);
    SameParts(s1, c1, s2, c2, routes);
    TiesAreEqual(s1, c1, routes);
    SpecificLessIsOrder();
    CatchAllLessIsOrder();
    SortedUnique(SpecificLess, s1, s2);
    SortedUnique(CatchAllLess, c1, c2);
  }

  lemma SameParts(s1: seq<Item>, c1: seq<Item>, s2: seq<Item>, c2: seq<Item>, routes: Routes)
    requires Arranged(s1, c1, routes) && Arranged(s2, c2, routes)
    ensures multiset(s1) == multiset(s2) && multiset(c1) == multiset(c2)
  {
    hide SpecificLess, CatchAllLess, Occurrences, IsCatchAll;
    assert multiset(s1 + c1) == multiset(s1) + multiset(c1);
    assert multiset(s2 + c2) == multiset(s2) + multiset(c2);
    forall x ensures multiset(s1)[x] == multiset(s2)[x] && multiset(c1)[x] == multiset(c2)[x] {
      assert multiset(s1)[x] + multiset(c1)[x] == Occurrences(routes, x) == multiset(s2)[x] + multiset(c2)[x];
      if IsCatchAll(x) {
        assert x !in s1 && x !in s2;
      } else {
        assert x !in c1 && x !in c2;
      }
    }
  }

  /** Items tied under either order are equal in every field. */
  lemma TiesAreEqual(specific: seq<Item>, catchAll: seq<Item>, routes: Routes)
    requires Arranged(specific, catchAll, routes)
    ensures forall x, y :: x in specific && y in specific && !SpecificLess(x, y) && !SpecificLess(y, x) ==> x == y
    ensures forall x, y :: x in catchAll && y in catchAll && !CatchAllLess(x, y) && !CatchAllLess(y, x) ==> x == y
  {
    hide IsConfigured, Lists;
    var items := specific + catchAll;
    forall x | x in items ensures IsConfigured(routes, x) {
      ListedIsConfigured(items, routes, x);
    }
    forall x, y | x in specific && y in specific && !SpecificLess(x, y) && !SpecificLess(y, x) ensures x == y {
      assert x in items && y in items;
      StrLessTotal(x.host, y.host);
      StrLessTotal(x.path, y.path);
      StrLessTotal(x.appID, y.appID);
      ConfiguredShape(routes, x);
      ConfiguredShape(routes, y);
    }
    forall x, y | x in catchAll && y in catchAll && !CatchAllLess(x, y) && !CatchAllLess(y, x) ensures x == y {
      assert x in items && y in items;
      StrLessTotal(x.host, y.host);
      StrLessTotal(x.appID, y.appID);
      ConfiguredShape(routes, x);
      ConfiguredShape(routes, y);
    }
  }
}
