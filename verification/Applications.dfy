/** The application record and the checks it passes before it is stored. */
module Applications {
  import opened Text
  import opened DomainRoute
  import RouteTable
  import Decimal

  datatype AppStatus = Unknown | Created | Running | Stopped | Deploying | Failed

  datatype SourceKind = Git | Image | Compose | OtherSource

  /** `accepted` stands for the verdict of the source checks on URLs, image references and sub-paths. */
  datatype Source = Source(kind: SourceKind, imageRef: string, accepted: bool)

  datatype Application = Application(
    id: string,
    name: string,
    projectID: string,
    serviceType: string,
    source: Source,
    domains: seq<string>,
    port: int,
    status: AppStatus,
    containerID: string,
    imageID: string,
    lastDeploymentID: string,
    healthcheckPath: string,
    labels: map<string, string>,
    createdAt: int,
    updatedAt: int)

  predicate NameChar(c: char) {
    IsAlnum(c) || c == '_' || c == '-'
  }

  predicate ValidName(s: string) {
    && 1 <= |s| <= 64
    && IsAlnum(s[0]) && IsAlnum(s[|s| - 1])
    && forall c :: c in s ==> NameChar(c)
  }

  /** An empty service type is stored as "web". */
  function Defaulted(a: Application): Application {
    if a.serviceType == "" then a.(serviceType := "web") else a
  }

  predicate KnownServiceType(t: string) {
    t == "web" || t == "api" || t == "worker" || t == "internal"
  }

  /** Worker and internal services have no public routes. */
  predicate Private(t: string) {
    t == "worker" || t == "internal"
  }

  predicate ValidEntry(d: string) {
    ParseDomainRoute(d).Parsed? && ValidDomain(ParseDomainRoute(d).host)
  }

  predicate ValidApplication(a: Application) {
    var t := Defaulted(a).serviceType;
    && a.id != ""
    && ValidName(a.name)
    && a.source.kind != OtherSource && a.source.accepted
    && 0 <= a.port <= 65535
    && KnownServiceType(t)
    && (Private(t) ==> a.domains == [])
    && forall d :: d in a.domains ==> ValidEntry(d)
  }

  /** The address Caddy dials: the container's network alias and port. */
  function UpstreamOf(a: Application): string {
    ALIAS + a.id + [':'] + Decimal.Format(a.port, 1)
  }

  function RouteOf(a: Application): RouteTable.Route {
    RouteTable.Route(a.id, a.domains, UpstreamOf(a))
  }

  /** The pipeline configures routing for this application. */
  predicate Routable(a: Application) {
    !Private(a.serviceType) && a.domains != [] && a.port > 0
  }

  /** The route of a valid application passes the route check, so that it cannot be what fails the
      deployment, exactly when the ID can stand in an address. */
  lemma ValidApplicationRouteIsValid(a: Application)
    requires ValidApplication(a) && Routable(a)
    ensures RouteTable.ValidRoute(RouteOf(a)) <==> RouteTable.AddressText(a.id)
  {
    hide ParseDomainRoute, ValidDomain, RouteTable.ValidUpstream, UpstreamOf;
    forall d | d in a.domains ensures RouteTable.RoutableEntry(d) {
      assert ValidEntry(d);
      LastHostChar(ParseDomainRoute(d).host);
    }
    UpstreamIsValid(a);
  }

  /** A valid application on a public domain that cannot be routed. */
  lemma ColonCannotBeRouted() returns (a: Application)
    ensures ValidApplication(a) && Routable(a) && !RouteTable.ValidRoute(RouteOf(a))
  {
    hide ValidDomain, ParseDomainRoute, UpstreamOf;
    a := Application("a:b", "web", "", "web", Source(Image, "web:1", true), ["b.co"], 80, Created, "", "", "", "",
                     map[], 0, 0);
    ShortDomain();
    ParseOfHostAndPath("b.co", "");
    assert "b.co" + "" == "b.co";
    assert ValidEntry("b.co") && a.domains[0] == "b.co";
    assert a.id[1] == ':';
    ValidApplicationRouteIsValid(a);
  }

  const ALIAS := "liteploy-app-"

  /** Public kinds of service with a domain and a port are routed, to the alias of their container. */
  lemma RoutedHow(a: Application)
    ensures Routable(a) <==> a.serviceType !in {"worker", "internal"} && |a.domains| > 0 && a.port >= 1
    ensures RouteOf(a) == RouteTable.Route(a.id, a.domains, "liteploy-app-" + a.id + ":" + Decimal.Format(a.port, 1))
  {
    var p := Decimal.Format(a.port, 1);
    assert "liteploy-app-" + a.id + ":" + p == "liteploy-app-" + a.id + [':'] + p;
  }

  lemma ValidNameIff(s: string)
    ensures ValidName(s) <==>
              && 1 <= |s| <= 64 && s[0] !in {'-', '_'} && s[|s| - 1] !in {'-', '_'}
              && forall c :: c in s ==> 'a' <= c <= 'z' || 'A' <= c <= 'Z' || '0' <= c <= '9' || c in {'-', '_'}
  {
    assert s != "" ==> s[0] in s && s[|s| - 1] in s;
  }

  /** What a stored application is known to be, and which of the four kinds may have domains. */
  lemma ValidApplicationIff(a: Application)
    ensures ValidApplication(a) <==>
              && a.id != "" && ValidName(a.name) && a.port >= 0 && a.port < 65536
              && a.source.accepted && a.source.kind in {Git, Image, Compose}
              && (a.serviceType in {"", "web", "api"} || (a.serviceType in {"worker", "internal"} && a.domains == []))
              && forall d :: d in a.domains ==> exists h, p :: ParseDomainRoute(d) == Parsed(h, p) && ValidDomain(h)
  {
    hide ValidName, ParseDomainRoute, ValidDomain;
    assert a.serviceType == "" ==> Defaulted(a).serviceType == "web";
    forall d ensures ValidEntry(d) <==> exists h, p :: ParseDomainRoute(d) == Parsed(h, p) && ValidDomain(h) {
      assert ParseDomainRoute(d).Parsed? ==> ParseDomainRoute(d) == Parsed(ParseDomainRoute(d).host, ParseDomainRoute(d).path);
    }
  }

  lemma AliasIsPlain(id: string)
    ensures var host := ALIAS + id; host[0] == 'l' && (RouteTable.AddressText(host) <==> RouteTable.AddressText(id))
  {
    assert RouteTable.AddressText(ALIAS);
  }

  lemma UpstreamIsValid(a: Application)
    requires a.id != "" && 0 < a.port <= 65535
    ensures RouteTable.ValidUpstream(UpstreamOf(a)) <==> RouteTable.AddressText(a.id)
  {
    hide RouteTable.ValidUpstream, RouteTable.Loopback, RouteTable.AddressText, Decimal.Format;
    var host := ALIAS + a.id;
    AliasIsPlain(a.id);
    if RouteTable.AddressText(host) {
      assert UpstreamOf(a) == host + [':'] + Decimal.Format(a.port, 1);
      AliasIsNoLoopback(a.id);
      RouteTable.UpstreamIff(host, a.port);
    } else {
      RouteTable.OtherSignsRefused(host, a.port);
    }
  }

  lemma AliasIsNoLoopback(id: string)
    ensures ALIAS + id !in {"", "localhost", "127.0.0.1", "0.0.0.0"}
  {
    var host := ALIAS + id;
    assert ALIAS[1] == host[1] == 'i' && host[0] == 'l';
    assert "localhost"[1] == 'o';
  }
}
