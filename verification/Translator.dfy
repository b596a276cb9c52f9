/** One ingress as Envoy configuration: a cluster, and a virtual host that routes to it. */
module Translator {
  import opened Wrappers
  import opened Model
  import Text

  const ENDPOINT_PORT := 80

  /** `Unset` is the empty endpoint of an entry with neither a host name nor an address. */
  datatype Endpoint = Socket(address: string, port: nat) | Unset

  datatype Cluster = Cluster(name: string, endpoints: seq<Endpoint>)

  datatype Route = Route(name: string, prefix: string, cluster: string)

  datatype VirtualHost = VirtualHost(name: string, domains: seq<string>, routes: seq<Route>)

  function Digit(n: nat): char
    requires n < 10
  {
    "0123456789"[n]
  }

  function Decimal(n: nat): string {
    if n < 10 then [Digit(n)] else Decimal(n / 10) + [Digit(n % 10)]
  }

  function EndpointFor(lb: LoadBalancer): Endpoint {
    if lb.hostname != "" then Socket(lb.hostname, ENDPOINT_PORT)
    else if lb.ip != "" then Socket(lb.ip, ENDPOINT_PORT)
    else Unset
  }

  function ClusterFor(ingress: Ingress): Cluster {
    Cluster(
      IngressKey(ingress),
      seq(|ingress.status|, i requires 0 <= i < |ingress.status| => EndpointFor(ingress.status[i])))
  }

  /** One endpoint per entry, in order: at its name if it has one, else at its address, both on port 80, else unset. */
  ghost predicate HasEndpointsOf(c: Cluster, status: seq<LoadBalancer>) {
    && |c.endpoints| == |status|
    && forall i :: 0 <= i < |status| ==>
         && (status[i].hostname != "" ==> c.endpoints[i] == Socket(status[i].hostname, 80))
         && (status[i].hostname == "" && status[i].ip != "" ==> c.endpoints[i] == Socket(status[i].ip, 80))
         && (c.endpoints[i] == Unset <==> status[i].hostname == "" && status[i].ip == "")
  }

  /** The translation stops at the first such rule. */
  predicate Hidden(rule: Rule) {
    rule.paths.None? || rule.host == ""
  }

  function RouteFor(ingress: Ingress, i: nat, path: Path): Route {
    Route(ingress.name + ingress.namespace + Decimal(i), path.path, IngressKey(ingress))
  }

  function PathRoutes(ingress: Ingress, i: nat, paths: seq<Path>): seq<Route> {
    seq(|paths|, j requires 0 <= j < |paths| => RouteFor(ingress, i, paths[j]))
  }

  function RoutesFrom(ingress: Ingress, i: nat): seq<Route>
    requires i <= |ingress.rules|
    decreases |ingress.rules| - i
  {
    if i == |ingress.rules| || Hidden(ingress.rules[i]) then []
    else PathRoutes(ingress, i, ingress.rules[i].paths.value) + RoutesFrom(ingress, i + 1)
  }

  function DomainsFrom(rules: seq<Rule>, i: nat): seq<string>
    requires i <= |rules|
    decreases |rules| - i
  {
    if i == |rules| || Hidden(rules[i]) then []
    else [rules[i].host, rules[i].host + ":*"] + DomainsFrom(rules, i + 1)
  }

  function VirtualHostFor(ingress: Ingress): VirtualHost {
    VirtualHost(IngressKey(ingress), DomainsFrom(ingress.rules, 0), RoutesFrom(ingress, 0))
  }

  method TranslateIngress(ingress: Ingress) returns (clusters: seq<Cluster>, virtualHosts: seq<VirtualHost>)
    ensures clusters == [ClusterFor(ingress)] && HasEndpointsOf(clusters[0], ingress.status)
    ensures virtualHosts == [VirtualHostFor(ingress)]
  {
    var endpoints := TranslateEndpoints(ingress);
    clusters := [Cluster(IngressKey(ingress), endpoints)];
    var domains, routes := TranslateRules(ingress);
    virtualHosts := [VirtualHost(IngressKey(ingress), domains, routes)];
  }

  method TranslateEndpoints(ingress: Ingress) returns (endpoints: seq<Endpoint>)
    ensures endpoints == ClusterFor(ingress).endpoints
  {
    endpoints := [];
    for i := 0 to |ingress.status|
      invariant endpoints == ClusterFor(ingress).endpoints[..i]
    {
      var lb := ingress.status[i];
      var endpoint := Unset;
      if lb.hostname != "" {
        endpoint := Socket(lb.hostname, ENDPOINT_PORT);
      } else if lb.ip != "" {
        endpoint := Socket(lb.ip, ENDPOINT_PORT);
      }
      endpoints := endpoints + [endpoint];
    }
  }

  method TranslateRules(ingress: Ingress) returns (domains: seq<string>, routes: seq<Route>)
    ensures domains == DomainsFrom(ingress.rules, 0)
    ensures routes == RoutesFrom(ingress, 0)
  {
    routes, domains := [], [];
    var i := 0;
    while i < |ingress.rules|
      invariant 0 <= i <= |ingress.rules|
      invariant RoutesFrom(ingress, 0) == routes + RoutesFrom(ingress, i)
      invariant DomainsFrom(ingress.rules, 0) == domains + DomainsFrom(ingress.rules, i)
    {
      var rule := ingress.rules[i];
      if rule.paths.None? || rule.host == "" {
        break;
      }
      var more := TranslatePaths(ingress, i, rule.paths.value);
      assert routes + RoutesFrom(ingress, i) == (routes + more) + RoutesFrom(ingress, i + 1);
      routes := routes + more;
      domains := domains + [rule.host, rule.host + ":*"];
      i := i + 1;
    }
  }

  method TranslatePaths(ingress: Ingress, i: nat, paths: seq<Path>) returns (routes: seq<Route>)
    ensures routes == PathRoutes(ingress, i, paths)
  {
    routes := [];
    for j := 0 to |paths|
      invariant routes == PathRoutes(ingress, i, paths)[..j]
    {
      routes := routes + [Route(ingress.name + ingress.namespace + Decimal(i), paths[j].path, IngressKey(ingress))];
    }
  }

  /** The first `i + 1` rules all have a host and paths, if only an empty list of them. */
  predicate Unbroken(rules: seq<Rule>, i: int) {
    0 <= i < |rules| && forall j :: 0 <= j <= i ==> rules[j].host != "" && rules[j].paths.Some?
  }

  predicate DomainComesFrom(rules: seq<Rule>, d: string, i: int) {
    Unbroken(rules, i) && (d == rules[i].host || d == rules[i].host + ":*")
  }

  predicate RouteComesFrom(ingress: Ingress, r: Route, i: int, j: int) {
    && Unbroken(ingress.rules, i) && 0 <= j < |ingress.rules[i].paths.value|
    && r.name == ingress.name + ingress.namespace + Decimal(i)
    && r.prefix == ingress.rules[i].paths.value[j].path && r.cluster == IngressKey(ingress)
  }

  /**
   The virtual host has exactly the hosts, bare and with any port, and the routes of the rules up to the first one
   without a host or with nil paths.
   */
  lemma TranslationMeaning(ingress: Ingress, d: string, r: Route)
    ensures d in VirtualHostFor(ingress).domains <==>
              exists i :: DomainComesFrom(ingress.rules, d, i)
    ensures r in VirtualHostFor(ingress).routes <==> exists i, j :: RouteComesFrom(ingress, r, i, j)
  {
    DomainsFromRules(ingress.rules, 0, d);
    RoutesFromRules(ingress, 0, r);
  }

  lemma {:induction false} DomainsFromRules(rules: seq<Rule>, n: nat, d: string)
    requires n <= |rules| && (n > 0 ==> Unbroken(rules, n - 1))
    ensures d in DomainsFrom(rules, n) <==> exists i :: n <= i && DomainComesFrom(rules, d, i)
    decreases |rules| - n
  {
    if n == |rules| || Hidden(rules[n]) {
      assert forall i :: n <= i ==> !Unbroken(rules, i);
    } else {
      assert Unbroken(rules, n);
      DomainsFromRules(rules, n + 1, d);
      DomainsOfOne(rules[n].host, DomainsFrom(rules, n + 1), d);
      if i :| n <= i && DomainComesFrom(rules, d, i) {
        assert i == n || n + 1 <= i;
      }
      if d in DomainsFrom(rules, n) && d !in DomainsFrom(rules, n + 1) {
        assert DomainComesFrom(rules, d, n);
      }
    }
  }

  lemma DomainsOfOne(host: string, rest: seq<string>, d: string)
    ensures d in [host, host + ":*"] + rest <==> d == host || d == host + ":*" || d in rest
  {
    var here := [host, host + ":*"];
    assert here[0] == host && here[1] == host + ":*";
  }

  lemma {:induction false} RoutesFromRules(ingress: Ingress, n: nat, r: Route)
    requires n <= |ingress.rules| && (n > 0 ==> Unbroken(ingress.rules, n - 1))
    ensures r in RoutesFrom(ingress, n) <==> exists i, j :: n <= i && RouteComesFrom(ingress, r, i, j)
    decreases |ingress.rules| - n
  {
    var rules := ingress.rules;
    if n == |rules| || Hidden(rules[n]) {
      assert forall i :: n <= i ==> !Unbroken(rules, i);
    } else {
      assert Unbroken(rules, n);
      RoutesFromRules(ingress, n + 1, r);
      RoutesOfRule(ingress, n, r);
      if i, j :| n <= i && RouteComesFrom(ingress, r, i, j) {
        assert i == n || n + 1 <= i;
      }
    }
  }

  lemma RoutesOfRule(ingress: Ingress, n: nat, r: Route)
    requires Unbroken(ingress.rules, n)
    ensures r in PathRoutes(ingress, n, ingress.rules[n].paths.value) <==> exists j :: RouteComesFrom(ingress, r, n, j)
  {
    var paths := ingress.rules[n].paths.value;
    if r in PathRoutes(ingress, n, paths) {
      var j :| 0 <= j < |paths| && PathRoutes(ingress, n, paths)[j] == r;
      assert RouteComesFrom(ingress, r, n, j);
    }
    if j :| RouteComesFrom(ingress, r, n, j) {
      assert PathRoutes(ingress, n, paths)[j] == r;
    }
  }

  function DigitValue(c: char): nat {
    if '0' <= c <= '9' then (c - '0') as nat else 0
  }

  function DecimalValue(s: string): nat {
    if s == "" then 0 else 10 * DecimalValue(s[..|s| - 1]) + DigitValue(s[|s| - 1])
  }

  /** A decimal text reads back as the number it was written from. */
  lemma {:induction false} DecimalReadsBack(n: nat)
    ensures DecimalValue(Decimal(n)) == n
  {
    if n < 10 {
      assert [Digit(n)][..0] == "";
    } else {
      DecimalReadsBack(n / 10);
      var s := Decimal(n);
      assert s[..|s| - 1] == Decimal(n / 10) && s[|s| - 1] == Digit(n % 10);
      assert DecimalValue(s) == 10 * (n / 10) + n % 10;
    }
  }

  /** The name of a route tells which rule of the ingress it comes from. */
  lemma RouteNamesTellTheRule(ingress: Ingress, i: nat, p: Path, j: nat, q: Path)
    ensures RouteFor(ingress, i, p).name == RouteFor(ingress, j, q).name <==> i == j
  {
    var prefix := ingress.name + ingress.namespace;
    assert (prefix + Decimal(i))[|prefix|..] == Decimal(i) && (prefix + Decimal(j))[|prefix|..] == Decimal(j);
    DecimalReadsBack(i);
    DecimalReadsBack(j);
  }

  /****** What the virtual host means to Envoy ******/

  /** Envoy's matching of a request host against one domain: exact, suffix wildcard, prefix wildcard, any. */
  predicate DomainMatches(domain: string, host: string) {
    if domain == "*" then true
    else if domain != "" && domain[0] == '*' then |domain| <= |host| && Text.EndsWith(host, domain[1..])
    else if domain != "" && domain[|domain| - 1] == '*' then
      |domain| <= |host| && Text.StartsWith(host, domain[..|domain| - 1])
    else domain == host
  }

  predicate Accepts(vh: VirtualHost, host: string, path: string) {
    SomeDomainMatches(vh.domains, host) && SomeRouteMatches(vh.routes, path)
  }

  predicate SomeDomainMatches(domains: seq<string>, host: string) {
    exists i :: 0 <= i < |domains| && DomainMatches(domains[i], host)
  }

  predicate SomeRouteMatches(routes: seq<Route>, path: string) {
    exists i :: 0 <= i < |routes| && routes[i].prefix <= path
  }

  /** Envoy takes the first route whose prefix matches. */
  function FirstMatch(routes: seq<Route>, path: string): Option<string> {
    if routes == [] then None
    else if routes[0].prefix <= path then Some(routes[0].cluster)
    else FirstMatch(routes[1..], path)
  }

  /****** What the translated rules come to ******/

  /** Rule `i` and all before it are translated. */
  ghost predicate VisibleAt(rules: seq<Rule>, i: int) {
    0 <= i < |rules| && forall j :: 0 <= j <= i ==> !Hidden(rules[j])
  }

  /** A rule host as an ingress may have it: any '*' is its first character. */
  predicate HostPattern(h: string) {
    forall i :: 0 < i < |h| ==> h[i] != '*'
  }

  /** The host of a translated rule to Envoy: bare or with any port; a wildcard covers bare hosts only, at any depth. */
  predicate HostMatches(h: string, host: string) {
    if h == "*" then true
    else if h != "" && h[0] == '*' then |h| <= |host| && Text.EndsWith(host, h[1..])
    else host == h || (h + ":" <= host && |h| + 1 < |host|)
  }

  /** Every path is a text prefix to Envoy, whatever its type. */
  predicate PathPrefixMatches(rule: Rule, path: string) {
    exists j :: 0 <= j < |PathsOf(rule)| && PathsOf(rule)[j].path <= path
  }

  ghost predicate SomeHostMatches(rules: seq<Rule>, from: nat, host: string) {
    exists i :: from <= i && VisibleAt(rules, i) && HostMatches(rules[i].host, host)
  }

  ghost predicate SomePathMatches(rules: seq<Rule>, from: nat, path: string) {
    exists i :: from <= i && VisibleAt(rules, i) && PathPrefixMatches(rules[i], path)
  }

  lemma DomainsOfRule(h: string, host: string)
    requires HostPattern(h) && h != "" && '*' !in host
    ensures DomainMatches(h, host) || DomainMatches(h + ":*", host) <==> HostMatches(h, host)
  {
    var d := h + ":*";
    assert d[|d| - 1] == '*' && d[..|d| - 1] == h + ":";
    if h[0] == '*' {
      var tail := d[1..];
      assert tail[|tail| - 1] == '*';
      Text.NotASuffix(host, tail);
    } else {
      assert h[|h| - 1] != '*';
    }
  }

  lemma SomeDomainSplit(a: seq<string>, b: seq<string>, host: string)
    ensures SomeDomainMatches(a + b, host) <==> SomeDomainMatches(a, host) || SomeDomainMatches(b, host)
  {
    var c := a + b;
    assert forall i :: 0 <= i < |a| ==> a[i] == c[i];
    assert forall i :: 0 <= i < |b| ==> b[i] == c[|a| + i];
    assert forall i :: |a| <= i < |c| ==> c[i] == b[i - |a|];
  }

  lemma SomeRouteSplit(a: seq<Route>, b: seq<Route>, path: string)
    ensures SomeRouteMatches(a + b, path) <==> SomeRouteMatches(a, path) || SomeRouteMatches(b, path)
  {
    var c := a + b;
    assert forall i :: 0 <= i < |a| ==> a[i] == c[i];
    assert forall i :: 0 <= i < |b| ==> b[i] == c[|a| + i];
    assert forall i :: |a| <= i < |c| ==> c[i] == b[i - |a|];
  }

  lemma {:induction false} DomainsMeaning(rules: seq<Rule>, n: nat, host: string)
    requires n <= |rules| && forall j :: 0 <= j < n ==> !Hidden(rules[j])
    requires forall j :: 0 <= j < |rules| ==> HostPattern(rules[j].host)
    requires '*' !in host
    ensures SomeDomainMatches(DomainsFrom(rules, n), host) <==> SomeHostMatches(rules, n, host)
    decreases |rules| - n
  {
    if n == |rules| || Hidden(rules[n]) {
      assert forall i :: n <= i ==> !VisibleAt(rules, i);
    } else {
      DomainsMeaning(rules, n + 1, host);
      DomainsOfRule(rules[n].host, host);
      var here := [rules[n].host, rules[n].host + ":*"];
      SomeDomainSplit(here, DomainsFrom(rules, n + 1), host);
      assert SomeDomainMatches(here, host) <==> HostMatches(rules[n].host, host) by {
        assert here[0] == rules[n].host && here[1] == rules[n].host + ":*";
      }
      assert VisibleAt(rules, n);
    }
  }

  lemma PathRoutesMeaning(ingress: Ingress, n: nat, rule: Rule, path: string)
    requires rule.paths.Some?
    ensures SomeRouteMatches(PathRoutes(ingress, n, rule.paths.value), path) <==> PathPrefixMatches(rule, path)
  {
    var here := PathRoutes(ingress, n, rule.paths.value);
    assert forall j :: 0 <= j < |here| ==> here[j].prefix == PathsOf(rule)[j].path;
  }

  lemma {:induction false} RoutesMeaning(ingress: Ingress, n: nat, path: string)
    requires n <= |ingress.rules| && forall j :: 0 <= j < n ==> !Hidden(ingress.rules[j])
    ensures forall r :: r in RoutesFrom(ingress, n) ==> r.cluster == IngressKey(ingress)
    ensures SomeRouteMatches(RoutesFrom(ingress, n), path) <==> SomePathMatches(ingress.rules, n, path)
    decreases |ingress.rules| - n
  {
    var rules := ingress.rules;
    if n == |rules| || Hidden(rules[n]) {
      assert forall i :: n <= i ==> !VisibleAt(rules, i);
    } else {
      RoutesMeaning(ingress, n + 1, path);
      var paths := rules[n].paths.value;
      var here := PathRoutes(ingress, n, paths);
      SomeRouteSplit(here, RoutesFrom(ingress, n + 1), path);
      PathRoutesMeaning(ingress, n, rules[n], path);
      assert VisibleAt(rules, n);
    }
  }

  /**
   The virtual host takes a request exactly when some translated rule has its host and some translated rule
   has a prefix of its path. Whichever route comes first, the request goes to the ingress's own cluster.
   */
  lemma RoutingMeaning(ingress: Ingress, host: string, path: string)
    requires forall j :: 0 <= j < |ingress.rules| ==> HostPattern(ingress.rules[j].host)
    requires '*' !in host
    ensures var vh := VirtualHostFor(ingress);
            && (Accepts(vh, host, path) <==>
                SomeHostMatches(ingress.rules, 0, host) && SomePathMatches(ingress.rules, 0, path))
            && FirstMatch(vh.routes, path)
               == if SomePathMatches(ingress.rules, 0, path) then Some(IngressKey(ingress)) else None
  {
    DomainsMeaning(ingress.rules, 0, host);
    RoutesMeaning(ingress, 0, path);
    FirstMatchOfOneCluster(RoutesFrom(ingress, 0), path, IngressKey(ingress));
  }

  lemma {:induction false} FirstMatchOfOneCluster(routes: seq<Route>, path: string, cluster: string)
    requires forall r :: r in routes ==> r.cluster == cluster
    ensures FirstMatch(routes, path) == if SomeRouteMatches(routes, path) then Some(cluster) else None
  {
    if routes == [] {
    } else {
      FirstMatchOfOneCluster(routes[1..], path, cluster);
      SomeRouteSplit(routes[..1], routes[1..], path);
      assert routes == routes[..1] + routes[1..];
    }
  }
}
