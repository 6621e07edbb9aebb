/** Application routes and the checks every route table has to pass before it is compiled. */
module RouteTable {
  import opened Text
  import opened DomainRoute
  import Decimal

  datatype Route = Route(appID: string, domains: seq<string>, upstream: string)

  type Routes = map<string, Route>

  /* ---- upstream addresses ---- */

  datatype HostPort = BadAddress | HostPort(host: string, port: string)

  function LastIndexOf(s: string, c: char): (i: int)
    ensures -1 <= i < |s|
    ensures i == -1 <==> c !in s
    ensures i != -1 ==> s[i] == c && c !in s[i + 1..]
  {
    if s == "" then -1
    else if s[|s| - 1] == c then |s| - 1
    else
      var i := LastIndexOf(s[..|s| - 1], c);
      assert s == s[..|s| - 1] + [s[|s| - 1]];
      assert i != -1 ==> s[i + 1..] == s[..|s| - 1][i + 1..] + [s[|s| - 1]];
      i
  }

  /** Go's `net.SplitHostPort`. */
  function SplitHostPort(s: string): HostPort {
    var i := LastIndexOf(s, ':');
    if i == -1 then BadAddress
    else if s[0] == '[' then
      var end := IndexOf(s, ']');
      if end == -1 || end + 1 != i || '[' in s[1..] || ']' in s[end + 1..] then BadAddress
      else HostPort(s[1..end], s[i + 1..])
    else if ':' in s[..i] || '[' in s || ']' in s then BadAddress
    else HostPort(s[..i], s[i + 1..])
  }

  /** `strconv.Atoi` accepts the text and the number is a TCP port. */
  predicate ValidPort(s: string) {
    var digits := if s != "" && (s[0] == '+' || s[0] == '-') then s[1..] else s;
    && digits != "" && Decimal.AllDigits(digits)
    && 1 <= Decimal.Value(digits) <= 65535
    && s[0] != '-'
  }

  predicate Loopback(host: string) {
    host == "localhost" || host == "127.0.0.1" || host == "0.0.0.0"
  }

  predicate ValidUpstream(upstream: string) {
    var parsed := SplitHostPort(TrimSpace(upstream));
    && parsed.HostPort?
    && parsed.host != "" && !Loopback(parsed.host)
    && ValidPort(parsed.port)
  }

  /** Text without the signs that structure an address. */
  predicate AddressText(s: string) {
    ':' !in s && '[' !in s && ']' !in s
  }

  lemma {:induction false} LastColon(host: string, port: string)
    requires ':' !in port
    ensures LastIndexOf(host + [':'] + port, ':') == |host|
  {
    var s := host + [':'] + port;
    if port != "" {
      var n := |port| - 1;
      assert s[|s| - 1] == port[n];
      assert s[..|s| - 1] == host + [':'] + port[..n];
      LastColon(host, port[..n]);
    }
  }

  /** A host without brackets around it may hold none of the signs. */
  lemma AddressSplits(host: string, port: string)
    requires (host == "" || host[0] != '[') && AddressText(port)
    ensures SplitHostPort(host + [':'] + port) == if AddressText(host) then HostPort(host, port) else BadAddress
  {
    hide LastIndexOf;
    var s := host + [':'] + port;
    LastColon(host, port);
    assert s[..|host|] == host && s[|host| + 1..] == port;
    assert s[0] == (host + [':'])[0];
    assert ('[' in s <==> '[' in host) && (']' in s <==> ']' in host);
  }

  /** A host in brackets may hold colons. */
  lemma BracketsSplit(host: string, port: string)
    requires '[' !in host && ']' !in host && AddressText(port)
    ensures SplitHostPort("[" + host + "]:" + port) == HostPort(host, port)
  {
    hide LastIndexOf, IndexOf;
    var b := "[" + host + "]";
    var s := b + [':'] + port;
    assert "[" + host + "]:" + port == s;
    LastColon(b, port);
    assert s == ("[" + host) + [']'] + (":" + port);
    IndexOfAfter("[" + host, ']', ":" + port);
    assert s[1..|host| + 1] == host && s[|b| + 1..] == port;
    assert '[' !in s[1..] by {
      assert s[1..] == host + "]:" + port;
    }
    assert ']' !in s[|host| + 2..] by {
      assert s[|host| + 2..] == ":" + port;
    }
  }

  lemma DigitsAreText(p: string)
    requires Decimal.AllDigits(p) && p != ""
    ensures !IsSpace(p[|p| - 1]) && AddressText(p) && IsDigit(p[0])
  {
  }

  lemma PortText(n: int)
    ensures var p := Decimal.Format(n, 1);
      p != "" && !IsSpace(p[|p| - 1]) && AddressText(p) && (ValidPort(p) <==> 1 <= n <= 65535)
  {
    hide Decimal.Padded, Decimal.Value, AddressText;
    if n < 0 {
      var body := Decimal.Padded(-n, 0);
      Decimal.PaddedValue(-n, 0);
      DigitsAreText(body);
      SignedText(body);
    } else {
      Decimal.PaddedValue(n, 1);
      DigitsAreText(Decimal.Padded(n, 1));
    }
  }

  lemma SignedText(body: string)
    requires body != "" && AddressText(body) && !IsSpace(body[|body| - 1])
    ensures var p := ['-'] + body; AddressText(p) && !IsSpace(p[|p| - 1]) && !ValidPort(p)
  {
  }

  /** An address of plain text is accepted if and only if its host is not empty and no loopback, and its port
      is between 1 and 65535. */
  lemma UpstreamIff(host: string, n: int)
    requires AddressText(host) && (host == "" || !IsSpace(host[0]))
    ensures ValidUpstream(host + [':'] + Decimal.Format(n, 1))
            <==> host !in {"", "localhost", "127.0.0.1", "0.0.0.0"} && 1 <= n <= 65535
  {
    hide SplitHostPort, ValidPort, Decimal.Format;
    var port := Decimal.Format(n, 1);
    var up := host + [':'] + port;
    PortText(n);
    AddressSplits(host, port);
    assert up[|up| - 1] == port[|port| - 1] && up[0] == (host + [':'])[0];
    TrimSpaceFixed(up);
  }

  lemma OtherSignsRefused(host: string, n: int)
    requires !AddressText(host) && host != "" && host[0] != '[' && !IsSpace(host[0])
    ensures !ValidUpstream(host + [':'] + Decimal.Format(n, 1))
  {
    hide SplitHostPort, ValidPort, Decimal.Format, AddressText;
    var port := Decimal.Format(n, 1);
    var up := host + [':'] + port;
    PortText(n);
    AddressSplits(host, port);
    assert up[|up| - 1] == port[|port| - 1] && up[0] == host[0];
    TrimSpaceFixed(up);
  }

  /* ---- single routes ---- */

  predicate RoutableEntry(d: string) {
    ParseDomainRoute(d).Parsed? && ParseDomainRoute(d).host != ""
  }

  lemma RoutableIff(d: string)
    ensures RoutableEntry(d) <==> exists h, p :: h != "" && ParseDomainRoute(d) == Parsed(h, p)
  {
    hide ParseDomainRoute;
    assert ParseDomainRoute(d).Parsed? ==> ParseDomainRoute(d) == Parsed(ParseDomainRoute(d).host, ParseDomainRoute(d).path);
  }

  predicate ValidRoute(r: Route) {
    && r.appID != ""
    && r.domains != []
    && ValidUpstream(r.upstream)
    && forall d :: d in r.domains ==> RoutableEntry(d)
  }

  /** A valid route names its application and an address, and has domains, each of which parses to a host. */
  lemma ValidRouteIff(r: Route)
    ensures ValidRoute(r) <==>
              && |r.appID| > 0 && |r.domains| > 0 && ValidUpstream(r.upstream)
              && forall d :: d in r.domains ==> exists h, p :: h != "" && ParseDomainRoute(d) == Parsed(h, p)
  {
    hide ValidUpstream, RoutableEntry, ParseDomainRoute;
    forall d ensures RoutableEntry(d) <==> exists h, p :: h != "" && ParseDomainRoute(d) == Parsed(h, p) {
      RoutableIff(d);
    }
  }

  /* ---- route tables ---- */

  /** The application asks for this host and normalised path. */
  ghost predicate Claims(r: Route, target: Parsed) {
    exists d :: d in r.domains && ParseDomainRoute(d) == target
  }

  /** No host and path is claimed under two different keys. */
  ghost predicate ConflictFree(routes: Routes) {
    forall a, b, t :: a in routes && b in routes && Claims(routes[a], t) && Claims(routes[b], t) ==> a == b
  }

  ghost predicate ValidRoutes(routes: Routes) {
    && (forall a :: a in routes ==> ValidRoute(routes[a]))
    && ConflictFree(routes)
  }

  datatype Verdict = Accepted | InvalidRoute(app: string) | Conflict(target: Parsed, holder: string, rival: string)

  /** What a refusal says is true of the table. */
  ghost predicate Justified(v: Verdict, routes: Routes) {
    match v
    case Accepted => true
    case InvalidRoute(a) => a in routes && !ValidRoute(routes[a])
    case Conflict(t, a, b) =>
      a in routes && b in routes && a != b && Claims(routes[a], t) && Claims(routes[b], t)
  }

  /** The claims seen so far: exactly those of the finished applications and of the first `n` entries
      of the current one. */
  ghost predicate SeenUpTo(seen: map<Parsed, string>, routes: Routes, done: set<string>, app: string, n: nat)
    requires done <= routes.Keys && app in routes && n <= |routes[app].domains|
  {
    && (forall t :: t in seen ==>
         || (seen[t] in done && Claims(routes[seen[t]], t))
         || (seen[t] == app && exists i :: 0 <= i < n && ParseDomainRoute(routes[app].domains[i]) == t))
    && (forall a, t :: a in done && Claims(routes[a], t) ==> t in seen && seen[t] == a)
    && (forall i :: 0 <= i < n ==> var t := ParseDomainRoute(routes[app].domains[i]); t in seen && seen[t] == app)
  }

  ghost predicate Seen(seen: map<Parsed, string>, routes: Routes, done: set<string>)
    requires done <= routes.Keys
  {
    && (forall t :: t in seen ==> seen[t] in done && Claims(routes[seen[t]], t))
    && (forall a, t :: a in done && Claims(routes[a], t) ==> t in seen && seen[t] == a)
  }

  method ValidateRoute(r: Route) returns (ok: bool)
    ensures ok <==> ValidRoute(r)
  {
    hide ValidUpstream, RoutableEntry;
    if r.appID == "" || |r.domains| == 0 || !ValidUpstream(r.upstream) {
      return false;
    }
    for i := 0 to |r.domains|
      invariant forall j :: 0 <= j < i ==> RoutableEntry(r.domains[j])
    {
      if !RoutableEntry(r.domains[i]) {
        assert r.domains[i] in r.domains;
        return false;
      }
    }
    return true;
  }

  /** Walks the table in whatever order the map yields. The verdict is `Accepted` exactly for valid
      tables, so acceptance does not depend on that order. */
  method ValidateRoutes(routes: Routes) returns (v: Verdict)
    ensures v.Accepted? <==> ValidRoutes(routes)
    ensures Justified(v, routes)
  {
    hide ValidRoute, ParseDomainRoute;
    var seen: map<Parsed, string> := map[];
    var todo := routes.Keys;
    ghost var done: set<string> := {};
    while todo != {}
      invariant todo !! done && done <= routes.Keys && todo == routes.Keys - done
      invariant forall a :: a in done ==> ValidRoute(routes[a])
      invariant Seen(seen, routes, done)
      decreases todo
    {
      var appID :| appID in todo;
      var r := routes[appID];
      var valid := ValidateRoute(r);
      if !valid {
        return InvalidRoute(appID);
      }
      for i := 0 to |r.domains|
        invariant SeenUpTo(seen, routes, done, appID, i)
      {
        var k := ParseDomainRoute(r.domains[i]);
        assert r.domains[i] in r.domains;
        if k in seen && seen[k] != appID {
          return Conflict(k, seen[k], appID);
        }
        seen := seen[k := appID];
      }
      SeenAll(seen, routes, done, appID);
      todo := todo - {appID};
      done := done + {appID};
    }
    assert done == routes.Keys;
    SeenMeansConflictFree(seen, routes);
    return Accepted;
  }

  lemma SeenMeansConflictFree(seen: map<Parsed, string>, routes: Routes)
    requires Seen(seen, routes, routes.Keys)
    ensures ConflictFree(routes)
  {
    hide Claims;
    forall a, b, t | a in routes && b in routes && Claims(routes[a], t) && Claims(routes[b], t) ensures a == b {
      assert seen[t] == a && seen[t] == b;
    }
  }

  lemma SeenAll(seen: map<Parsed, string>, routes: Routes, done: set<string>, app: string)
    requires done <= routes.Keys && app in routes
    requires SeenUpTo(seen, routes, done, app, |routes[app].domains|)
    ensures Seen(seen, routes, done + {app})
  {
    hide ParseDomainRoute;
    var ds := routes[app].domains;
    forall t | t in seen ensures seen[t] in done + {app} && Claims(routes[seen[t]], t) {
      if !(seen[t] in done && Claims(routes[seen[t]], t)) {
        var i :| 0 <= i < |ds| && ParseDomainRoute(ds[i]) == t;
        assert ds[i] in ds;
      }
    }
    forall t | Claims(routes[app], t) ensures t in seen && seen[t] == app {
      var d :| d in ds && ParseDomainRoute(d) == t;
      var i :| 0 <= i < |ds| && ds[i] == d;
    }
  }

  /** Dropping routes keeps a table valid. */
  lemma ValidityIsMonotone(routes: Routes, fewer: Routes)
    requires ValidRoutes(routes)
    requires forall a :: a in fewer ==> a in routes && fewer[a] == routes[a]
    ensures ValidRoutes(fewer)
  {
  }
}
