/** What the rules of an ingress mean by the Ingress API, and when Envoy serves just that. */
module Faithfulness {
  import opened Wrappers
  import opened Model
  import opened Translator
  import Text

  /****** What the rules mean ******/

  predicate LiteralHost(h: string) {
    '*' !in h && ':' !in h
  }

  predicate WildcardHost(h: string) {
    |h| > 2 && h[..2] == "*." && LiteralHost(h[1..])
  }

  /** The hosts the API admits: none, a name, or a name with a first label that is "*". */
  ghost predicate ValidHosts(rules: seq<Rule>) {
    forall j :: 0 <= j < |rules| ==> LiteralHost(rules[j].host) || WildcardHost(rules[j].host)
  }

  /** The name `h`, bare or with a port. */
  predicate IsHost(h: string, host: string) {
    host == h || (h + ":" <= host && |h| + 1 < |host|)
  }

  /** One label in front of the name. */
  ghost predicate UnderWildcard(h: string, host: string)
    requires h != ""
  {
    exists front :: front != "" && '.' !in front && IsHost(front + h[1..], host)
  }

  /** No host means any host. A wildcard stands for one label. */
  ghost predicate RuleHostMatches(h: string, host: string) {
    if h == "" then true
    else if h[0] == '*' then UnderWildcard(h, host)
    else IsHost(h, host)
  }

  /** A trailing separator is no path element. */
  function Stem(p: string): string {
    if p != "" && p[|p| - 1] == '/' then p[..|p| - 1] else p
  }

  /** An exact path is that path, a prefix is one of whole elements, and the rest is left to Envoy: a text prefix. */
  predicate Takes(p: Path, path: string) {
    match p.pathType
    case Exact => path == p.path
    case Prefix => path == Stem(p.path) || Stem(p.path) + "/" <= path
    case ImplementationSpecific => p.path <= path
  }

  predicate RuleTakes(rule: Rule, path: string) {
    exists j :: 0 <= j < |PathsOf(rule)| && Takes(PathsOf(rule)[j], path)
  }

  ghost predicate RuleAccepts(rule: Rule, host: string, path: string) {
    RuleHostMatches(rule.host, host) && RuleTakes(rule, path)
  }

  /** All rules count, and host and path come from one rule. */
  ghost predicate RulesAccept(rules: seq<Rule>, host: string, path: string) {
    exists r :: 0 <= r < |rules| && RuleAccepts(rules[r], host, path)
  }

  /** A host a client asks for. */
  predicate RequestHost(host: string) {
    host != "" && '*' !in host
  }

  predicate RequestPath(path: string) {
    path != "" && path[0] == '/'
  }

  /** Envoy accepts what the rules accept, and nothing else. */
  ghost predicate Faithful(ingress: Ingress) {
    forall host, path :: RequestHost(host) && RequestPath(path)
      ==> (Accepts(VirtualHostFor(ingress), host, path) <==> RulesAccept(ingress.rules, host, path))
  }

  /****** When Envoy serves just that ******/

  /** The requests with this text prefix are the ones that extend `Reach(p)`. */
  function Reach(p: string): string {
    if p == "" then "/" else p
  }

  /** The shortest request of a path; if it is no request, there is none. */
  function Shortest(p: Path): string {
    match p.pathType
    case Exact => p.path
    case Prefix => Reach(Stem(p.path))
    case ImplementationSpecific => Reach(p.path)
  }

  /** The path takes every request that has the text prefix `p`. An exact path never does. */
  predicate Covers(q: Path, p: string) {
    match q.pathType
    case Exact => false
    case Prefix => Stem(q.path) + "/" <= Reach(p)
    case ImplementationSpecific => Reach(q.path) <= Reach(p)
  }

  predicate RuleCovers(rule: Rule, p: string) {
    exists j :: 0 <= j < |PathsOf(rule)| && Covers(PathsOf(rule)[j], p)
  }

  /** Some rule with this very host takes every request that has the text prefix `p`. */
  ghost predicate HostCovers(rules: seq<Rule>, host: string, p: string) {
    exists r :: 0 <= r < |rules| && rules[r].host == host && RuleCovers(rules[r], p)
  }

  ghost predicate Translated(rules: seq<Rule>, p: string) {
    exists k :: VisibleAt(rules, k) && Offers(rules[k], p)
  }

  predicate Offers(rule: Rule, p: string) {
    exists j :: 0 <= j < |PathsOf(rule)| && PathsOf(rule)[j].path == p
  }

  /** Under every translated host all that Envoy takes for a translated path is taken by the rules. */
  ghost predicate PathsShared(rules: seq<Rule>) {
    forall i, p :: VisibleAt(rules, i) && Translated(rules, p) && RequestPath(Reach(p)) ==>
      Shares(rules, rules[i].host, p)
  }

  ghost predicate Shares(rules: seq<Rule>, host: string, p: string) {
    LiteralHost(host) && HostCovers(rules, host, p)
  }

  ghost predicate HostVisible(rules: seq<Rule>, host: string) {
    exists i :: VisibleAt(rules, i) && rules[i].host == host
  }

  /** Every path of every rule, dropped or not: its host is translated, and so is a prefix of its shortest request. */
  ghost predicate NothingMissed(rules: seq<Rule>) {
    forall r :: 0 <= r < |rules| ==> NotMissed(rules, rules[r])
  }

  ghost predicate NotMissed(rules: seq<Rule>, rule: Rule) {
    forall j :: 0 <= j < |PathsOf(rule)| && RequestPath(Shortest(PathsOf(rule)[j]))
      ==> IsServed(rules, rule.host, PathsOf(rule)[j])
  }

  ghost predicate IsServed(rules: seq<Rule>, host: string, p: Path) {
    LiteralHost(host) && HostVisible(rules, host) && SomePathMatches(rules, 0, Shortest(p))
  }

  /** The character is in no path of the rules, and separates no elements. */
  ghost predicate Spare(rules: seq<Rule>, c: char) {
    c != '/' && forall r, j :: 0 <= r < |rules| && 0 <= j < |PathsOf(rules[r])| ==> c !in PathsOf(rules[r])[j].path
  }

  /**
   The configuration is faithful exactly when every translated host covers every translated path and no path is missed.
   For the one half some character has to be in no path of the ingress.
   */
  lemma FaithfulIff(ingress: Ingress, spare: char)
    requires ValidHosts(ingress.rules) && Spare(ingress.rules, spare)
    ensures Faithful(ingress) <==> PathsShared(ingress.rules) && NothingMissed(ingress.rules)
  {
    var rules := ingress.rules;
    if PathsShared(rules) && NothingMissed(rules) {
      SharedAndServedIsFaithful(ingress);
    }
    if Faithful(ingress) {
      forall i, p | VisibleAt(rules, i) && Translated(rules, p) && RequestPath(Reach(p))
        ensures Shares(rules, rules[i].host, p)
      {
        FaithfulShares(ingress, i, p, spare);
      }
      forall r | 0 <= r < |rules|
        ensures NotMissed(rules, rules[r])
      {
        FaithfulMissesNothing(ingress, r);
      }
    }
  }

  /****** Paths ******/

  lemma ReachOfRequest(p: string, path: string)
    requires RequestPath(path)
    ensures p <= path <==> Reach(p) <= path
  {
  }

  /** A path takes its shortest request, and only requests that extend it. */
  lemma ShortestIsTaken(p: Path)
    requires RequestPath(Shortest(p))
    ensures Takes(p, Shortest(p))
  {
    if p.pathType == Prefix && Stem(p.path) == "" {
      assert "" + "/" == "/";
    }
  }

  lemma TakenExtendsShortest(p: Path, path: string)
    requires RequestPath(path) && Takes(p, path)
    ensures Shortest(p) <= path && RequestPath(Shortest(p))
  {
    if p.pathType == Prefix {
      assert Stem(p.path) <= path;
      ReachOfRequest(Stem(p.path), path);
    } else if p.pathType == ImplementationSpecific {
      ReachOfRequest(p.path, path);
    }
  }

  lemma CoveringTakes(q: Path, p: string, path: string)
    requires Covers(q, p) && p <= path && RequestPath(path)
    ensures Takes(q, path)
  {
    ReachOfRequest(p, path);
  }

  /** What takes an extension of `p` by a character it lacks takes all extensions. */
  lemma SpareExtensionIsCovered(q: Path, p: string, spare: char)
    requires spare != '/' && spare !in q.path && RequestPath(Reach(p)) && Takes(q, Reach(p) + [spare])
    ensures Covers(q, p)
  {
    var longer := Reach(p) + [spare];
    assert longer[|longer| - 1] == spare;
    match q.pathType {
      case Exact =>
      case Prefix =>
        var stem := Stem(q.path);
        assert spare !in stem && spare !in stem + "/";
        assert stem + "/" <= longer && (stem + "/")[|stem|] == '/';
        assert |stem + "/"| < |longer|;
        assert longer[..|stem + "/"|] == Reach(p)[..|stem + "/"|];
      case ImplementationSpecific =>
        assert |q.path| < |longer|;
        assert longer[..|q.path|] == Reach(p)[..|q.path|];
        ReachOfRequest(q.path, Reach(p));
    }
  }

  /****** Hosts ******/

  lemma LiteralHostsMatchThemselves(h: string, host: string)
    requires LiteralHost(h) && LiteralHost(host) && h != "" && IsHost(h, host)
    ensures h == host
  {
    assert ':' in h + ":";
    Text.NotAPrefix(host, h + ":", ':');
  }

  /** To a literal host the rules and Envoy agree. */
  lemma LiteralHostsAgree(h: string, host: string)
    requires LiteralHost(h) && h != ""
    ensures HostMatches(h, host) <==> IsHost(h, host)
    ensures RuleHostMatches(h, host) <==> IsHost(h, host)
  {
    assert h[0] != '*';
  }

  lemma LongerThanAllHosts(rules: seq<Rule>) returns (front: string)
    ensures front != "" && '*' !in front && '.' !in front && ':' !in front
    ensures forall j :: 0 <= j < |rules| ==> |rules[j].host| < |front|
  {
    var n := 1;
    for i := 0 to |rules|
      invariant n >= 1 && forall j :: 0 <= j < i ==> |rules[j].host| < n
    {
      if n <= |rules[i].host| {
        n := |rules[i].host| + 1;
      }
    }
    front := seq(n, _ => 'x');
  }

  /** No shorter literal host is a text without ports, or one with its only ':' after that host's length. */
  lemma LongHostIsOther(h: string, bare: string, port: string)
    requires LiteralHost(h) && LiteralHost(bare) && |h| < |bare|
    ensures !IsHost(h, bare) && !IsHost(h, bare + ":" + port)
  {
    var host := bare + ":" + port;
    assert forall i :: 0 <= i < |bare| ==> host[i] == bare[i];
    assert (h + ":")[|h|] == ':';
    Text.PrefixAgrees(host, h + ":", |h|);
    Text.PrefixAgrees(bare, h + ":", |h|);
  }

  /** A wildcard host never matches with a port, to Envoy. */
  lemma WildcardHasNoPort(h: string, bare: string)
    requires WildcardHost(h)
    ensures !HostMatches(h, bare + ":1")
  {
    var host, tail := bare + ":1", h[1..];
    assert h[0] == '*' && |tail| >= 2;
    assert host[|host| - 2] == ':';
    Text.SuffixAgrees(host, tail, |tail| - 2);
  }

  lemma WildcardMatches(h: string, front: string)
    requires WildcardHost(h) && front != "" && '.' !in front
    ensures RuleHostMatches(h, front + h[1..] + ":1")
    ensures HostMatches(h, front + h[1..])
  {
    assert h[0] == '*';
    var bare := front + h[1..];
    assert bare + ":" <= bare + ":1";
    assert IsHost(front + h[1..], bare + ":1");
    assert bare[|bare| - |h[1..]|..] == h[1..];
  }

  lemma TailIsLiteral(h: string, front: string)
    requires WildcardHost(h) && '*' !in front && ':' !in front && front != ""
    ensures LiteralHost(front + h[1..]) && RequestHost(front + h[1..]) && RequestHost(front + h[1..] + ":1")
  {
    var bare := front + h[1..];
    assert forall c :: c in bare ==> c in front || c in h[1..];
    assert forall c :: c in bare + ":1" ==> c in bare || c in ":1";
  }

  /****** Faithful configurations ******/

  lemma HostPatterns(rules: seq<Rule>)
    requires ValidHosts(rules)
    ensures forall j :: 0 <= j < |rules| ==> HostPattern(rules[j].host)
  {
    forall j | 0 <= j < |rules|
      ensures HostPattern(rules[j].host)
    {
      var h := rules[j].host;
      if WildcardHost(h) {
        assert forall i :: 0 < i < |h| ==> h[i] == h[1..][i - 1];
      }
    }
  }

  /** Envoy's side at a request, as far as the rules go. */
  lemma AcceptsMeaning(ingress: Ingress, host: string, path: string)
    requires ValidHosts(ingress.rules) && RequestHost(host)
    ensures Accepts(VirtualHostFor(ingress), host, path)
       <==> SomeHostMatches(ingress.rules, 0, host) && SomePathMatches(ingress.rules, 0, path)
  {
    HostPatterns(ingress.rules);
    RoutingMeaning(ingress, host, path);
  }

  lemma NothingVisibleMatches(rules: seq<Rule>, host: string)
    requires forall j :: 0 <= j < |rules| && rules[j].host != "" ==> !HostMatches(rules[j].host, host)
    ensures !SomeHostMatches(rules, 0, host)
  {
    forall i | VisibleAt(rules, i)
      ensures !HostMatches(rules[i].host, host)
    {
      assert !Hidden(rules[i]);
    }
  }

  /** A rule that matches a host no translated rule has takes no path. */
  lemma UnseenHostTakesNothing(ingress: Ingress, r: nat, host: string, path: string)
    requires ValidHosts(ingress.rules) && Faithful(ingress) && r < |ingress.rules|
    requires RequestHost(host) && RequestPath(path) && RuleHostMatches(ingress.rules[r].host, host)
    requires forall j :: 0 <= j < |ingress.rules| && ingress.rules[j].host != "" ==>
               !HostMatches(ingress.rules[j].host, host)
    ensures !RuleTakes(ingress.rules[r], path)
  {
    AcceptsMeaning(ingress, host, path);
    NothingVisibleMatches(ingress.rules, host);
    var rule := ingress.rules[r];
    assert RuleTakes(rule, path) ==> RuleAccepts(rule, host, path);
  }

  /** Neither a rule without a host nor one with a wildcard host takes any request. */
  lemma OnlyLiteralHostsTake(ingress: Ingress, r: nat, path: string)
    requires ValidHosts(ingress.rules) && Faithful(ingress) && r < |ingress.rules| && RequestPath(path)
    requires RuleTakes(ingress.rules[r], path)
    ensures LiteralHost(ingress.rules[r].host) && ingress.rules[r].host != ""
  {
    var rules, h := ingress.rules, ingress.rules[r].host;
    var front := LongerThanAllHosts(rules);
    if h == "" {
      LabelIsUnseen(rules, front);
      UnseenHostTakesNothing(ingress, r, front, path);
    } else if WildcardHost(h) {
      TailIsLiteral(h, front);
      WildcardMatches(h, front);
      PortIsUnseen(rules, front + h[1..], front);
      UnseenHostTakesNothing(ingress, r, front + h[1..] + ":1", path);
    }
  }

  lemma LabelIsUnseen(rules: seq<Rule>, front: string)
    requires ValidHosts(rules) && front != "" && '*' !in front && '.' !in front && ':' !in front
    requires forall j :: 0 <= j < |rules| ==> |rules[j].host| < |front|
    ensures forall j :: 0 <= j < |rules| && rules[j].host != "" ==> !HostMatches(rules[j].host, front)
  {
    forall j | 0 <= j < |rules| && rules[j].host != ""
      ensures !HostMatches(rules[j].host, front)
    {
      var h := rules[j].host;
      if LiteralHost(h) {
        LiteralHostsAgree(h, front);
        LongHostIsOther(h, front, "");
      } else {
        assert h[0] == '*' && h[1..][0] == '.';
        Text.SuffixAgrees(front, h[1..], 0);
      }
    }
  }

  lemma PortIsUnseen(rules: seq<Rule>, bare: string, front: string)
    requires ValidHosts(rules) && LiteralHost(bare) && |front| <= |bare|
    requires forall j :: 0 <= j < |rules| ==> |rules[j].host| < |front|
    ensures forall j :: 0 <= j < |rules| && rules[j].host != "" ==> !HostMatches(rules[j].host, bare + ":1")
  {
    forall j | 0 <= j < |rules| && rules[j].host != ""
      ensures !HostMatches(rules[j].host, bare + ":1")
    {
      var h := rules[j].host;
      if LiteralHost(h) {
        LiteralHostsAgree(h, bare + ":1");
        LongHostIsOther(h, bare, "1");
        assert bare + ":" + "1" == bare + ":1";
      } else {
        WildcardHasNoPort(h, bare);
      }
    }
  }

  /** What Envoy accepts under a literal host, a rule of some literal host takes. */
  lemma AcceptedIsTaken(ingress: Ingress, i: nat, host: string, path: string) returns (r: nat)
    requires ValidHosts(ingress.rules) && Faithful(ingress) && VisibleAt(ingress.rules, i)
    requires RequestHost(host) && RequestPath(path) && HostMatches(ingress.rules[i].host, host)
    requires SomePathMatches(ingress.rules, 0, path)
    ensures r < |ingress.rules| && RuleTakes(ingress.rules[r], path)
    ensures LiteralHost(ingress.rules[r].host) && ingress.rules[r].host != "" && IsHost(ingress.rules[r].host, host)
  {
    AcceptsMeaning(ingress, host, path);
    assert SomeHostMatches(ingress.rules, 0, host);
    var r' :| 0 <= r' < |ingress.rules| && RuleAccepts(ingress.rules[r'], host, path);
    OnlyLiteralHostsTake(ingress, r', path);
    LiteralHostsAgree(ingress.rules[r'].host, host);
    r := r';
  }

  lemma TranslatedMatches(rules: seq<Rule>, p: string, path: string)
    requires Translated(rules, p) && p <= path
    ensures SomePathMatches(rules, 0, path)
  {
    var k :| VisibleAt(rules, k) && Offers(rules[k], p);
    assert PathPrefixMatches(rules[k], path);
  }

  lemma FaithfulShares(ingress: Ingress, i: nat, p: string, spare: char)
    requires ValidHosts(ingress.rules) && Faithful(ingress) && Spare(ingress.rules, spare)
    requires VisibleAt(ingress.rules, i) && Translated(ingress.rules, p) && RequestPath(Reach(p))
    ensures Shares(ingress.rules, ingress.rules[i].host, p)
  {
    var rules, h := ingress.rules, ingress.rules[i].host;
    assert !Hidden(rules[i]);
    var longer := Reach(p) + [spare];
    assert longer[0] == '/' && p <= longer;
    TranslatedMatches(rules, p, longer);
    if WildcardHost(h) {
      var front := LongerThanAllHosts(rules);
      TailIsLiteral(h, front);
      WildcardMatches(h, front);
      var r := AcceptedIsTaken(ingress, i, front + h[1..], longer);
      LongHostIsOther(rules[r].host, front + h[1..], "");
      assert false;
    } else {
      LiteralHostsAgree(h, h);
      var r := AcceptedIsTaken(ingress, i, h, longer);
      LiteralHostsMatchThemselves(rules[r].host, h);
      var j :| 0 <= j < |PathsOf(rules[r])| && Takes(PathsOf(rules[r])[j], longer);
      SpareExtensionIsCovered(PathsOf(rules[r])[j], p, spare);
      assert RuleCovers(rules[r], p);
    }
  }

  lemma FaithfulMissesNothing(ingress: Ingress, r: nat)
    requires ValidHosts(ingress.rules) && Faithful(ingress) && r < |ingress.rules|
    ensures NotMissed(ingress.rules, ingress.rules[r])
  {
    var rules, rule := ingress.rules, ingress.rules[r];
    forall j | 0 <= j < |PathsOf(rule)| && RequestPath(Shortest(PathsOf(rule)[j]))
      ensures IsServed(rules, rule.host, PathsOf(rule)[j])
    {
      var path := Shortest(PathsOf(rule)[j]);
      ShortestIsTaken(PathsOf(rule)[j]);
      OnlyLiteralHostsTake(ingress, r, path);
      TakenIsServed(ingress, r, path);
    }
  }

  lemma TakenIsServed(ingress: Ingress, r: nat, path: string)
    requires ValidHosts(ingress.rules) && Faithful(ingress) && r < |ingress.rules|
    requires RequestPath(path) && RuleTakes(ingress.rules[r], path)
    requires LiteralHost(ingress.rules[r].host) && ingress.rules[r].host != ""
    ensures HostVisible(ingress.rules, ingress.rules[r].host) && SomePathMatches(ingress.rules, 0, path)
  {
    var rules, host := ingress.rules, ingress.rules[r].host;
    LiteralHostsAgree(host, host);
    assert RuleAccepts(rules[r], host, path);
    AcceptsMeaning(ingress, host, path);
    var i :| 0 <= i && VisibleAt(rules, i) && HostMatches(rules[i].host, host);
    assert !Hidden(rules[i]);
    if WildcardHost(rules[i].host) {
      WildcardIsNotTranslated(ingress, i, path);
    } else {
      LiteralHostsAgree(rules[i].host, host);
      LiteralHostsMatchThemselves(rules[i].host, host);
    }
  }

  /** With a translated wildcard host Envoy would accept hosts that no rule has. */
  lemma WildcardIsNotTranslated(ingress: Ingress, i: nat, path: string)
    requires ValidHosts(ingress.rules) && Faithful(ingress) && VisibleAt(ingress.rules, i)
    requires WildcardHost(ingress.rules[i].host) && RequestPath(path)
    ensures !SomePathMatches(ingress.rules, 0, path)
  {
    var rules, h := ingress.rules, ingress.rules[i].host;
    if SomePathMatches(rules, 0, path) {
      var front := LongerThanAllHosts(rules);
      TailIsLiteral(h, front);
      WildcardMatches(h, front);
      var r := AcceptedIsTaken(ingress, i, front + h[1..], path);
      LongHostIsOther(rules[r].host, front + h[1..], "");
      assert false;
    }
  }

  /****** The condition suffices ******/

  lemma SharedAndServedIsFaithful(ingress: Ingress)
    requires ValidHosts(ingress.rules) && PathsShared(ingress.rules) && NothingMissed(ingress.rules)
    ensures Faithful(ingress)
  {
    var rules := ingress.rules;
    forall host, path | RequestHost(host) && RequestPath(path)
      ensures Accepts(VirtualHostFor(ingress), host, path) <==> RulesAccept(rules, host, path)
    {
      AcceptsMeaning(ingress, host, path);
      if SomeHostMatches(rules, 0, host) && SomePathMatches(rules, 0, path) {
        SharedIsAccepted(rules, host, path);
      }
      if RulesAccept(rules, host, path) {
        var r :| 0 <= r < |rules| && RuleAccepts(rules[r], host, path);
        assert NotMissed(rules, rules[r]);
        ServedIsVisible(rules, rules[r], host, path);
      }
    }
  }

  lemma SharedIsAccepted(rules: seq<Rule>, host: string, path: string)
    requires PathsShared(rules) && RequestPath(path)
    requires SomeHostMatches(rules, 0, host) && SomePathMatches(rules, 0, path)
    ensures RulesAccept(rules, host, path)
  {
    var i :| 0 <= i && VisibleAt(rules, i) && HostMatches(rules[i].host, host);
    var k :| 0 <= k && VisibleAt(rules, k) && PathPrefixMatches(rules[k], path);
    var j :| 0 <= j < |PathsOf(rules[k])| && PathsOf(rules[k])[j].path <= path;
    var h, p := rules[i].host, PathsOf(rules[k])[j].path;
    assert Offers(rules[k], p) && Translated(rules, p) && !Hidden(rules[i]);
    ReachOfRequest(p, path);
    assert Shares(rules, h, p);
    LiteralHostsAgree(h, host);
    CoveredIsAccepted(rules, h, p, host, path);
  }

  lemma CoveredIsAccepted(rules: seq<Rule>, h: string, p: string, host: string, path: string)
    requires HostCovers(rules, h, p) && p <= path && RequestPath(path) && RuleHostMatches(h, host)
    ensures RulesAccept(rules, host, path)
  {
    var r :| 0 <= r < |rules| && rules[r].host == h && RuleCovers(rules[r], p);
    var j :| 0 <= j < |PathsOf(rules[r])| && Covers(PathsOf(rules[r])[j], p);
    CoveringTakes(PathsOf(rules[r])[j], p, path);
    assert RuleTakes(rules[r], path) && RuleAccepts(rules[r], host, path);
  }

  lemma ServedIsVisible(rules: seq<Rule>, rule: Rule, host: string, path: string)
    requires NotMissed(rules, rule) && RuleAccepts(rule, host, path) && RequestPath(path)
    ensures SomeHostMatches(rules, 0, host) && SomePathMatches(rules, 0, path)
  {
    var j :| 0 <= j < |PathsOf(rule)| && Takes(PathsOf(rule)[j], path);
    var p := PathsOf(rule)[j];
    TakenExtendsShortest(p, path);
    assert IsServed(rules, rule.host, p);
    var i :| VisibleAt(rules, i) && rules[i].host == rule.host;
    assert !Hidden(rules[i]);
    LiteralHostsAgree(rule.host, host);
    var k :| 0 <= k && VisibleAt(rules, k) && PathPrefixMatches(rules[k], Shortest(p));
    var m :| 0 <= m < |PathsOf(rules[k])| && PathsOf(rules[k])[m].path <= Shortest(p);
    assert PathPrefixMatches(rules[k], path);
  }

  /****** Configurations that are not faithful ******/

  predicate TwoHosts(rules: seq<Rule>) {
    rules == [
      Rule("a.com", Some([Path("/x", ImplementationSpecific, "s")])),
      Rule("b.com", Some([Path("/y", ImplementationSpecific, "t")]))]
  }

  /** Two hosts with a path each: Envoy also serves the path of the second under the first. */
  lemma PooledExample(ingress: Ingress)
    requires TwoHosts(ingress.rules)
    ensures Accepts(VirtualHostFor(ingress), "a.com", "/y") && !RulesAccept(ingress.rules, "a.com", "/y")
    ensures NothingMissed(ingress.rules) && !PathsShared(ingress.rules)
  {
    TwoHostsAreServed(ingress.rules);
    TwoHostsAccept(ingress);
    TwoHostsRefuse(ingress.rules);
    UncoveredIsNotShared(ingress.rules, "a.com", "/y");
  }

  lemma UncoveredIsNotShared(rules: seq<Rule>, host: string, p: string)
    requires HostVisible(rules, host) && Translated(rules, p) && RequestPath(Reach(p)) && !HostCovers(rules, host, p)
    ensures !PathsShared(rules)
  {
    var i :| VisibleAt(rules, i) && rules[i].host == host;
    assert !Shares(rules, rules[i].host, p);
  }

  lemma TwoHostsAccept(ingress: Ingress)
    requires TwoHosts(ingress.rules)
    ensures Accepts(VirtualHostFor(ingress), "a.com", "/y")
  {
    var rules := ingress.rules;
    assert VisibleAt(rules, 0) && VisibleAt(rules, 1) && PathsOf(rules[1])[0].path == "/y";
    assert HostMatches(rules[0].host, "a.com") && PathPrefixMatches(rules[1], "/y");
    RoutingMeaning(ingress, "a.com", "/y");
  }

  lemma TwoHostsAreServed(rules: seq<Rule>)
    requires TwoHosts(rules)
    ensures NothingMissed(rules) && HostVisible(rules, "a.com") && HostVisible(rules, "b.com")
    ensures Translated(rules, "/y")
  {
    assert VisibleAt(rules, 0) && VisibleAt(rules, 1);
    assert PathsOf(rules[0])[0].path == "/x" && PathsOf(rules[1])[0].path == "/y";
    assert PathPrefixMatches(rules[0], "/x") && PathPrefixMatches(rules[1], "/y") && Offers(rules[1], "/y");
  }

  lemma TwoHostsRefuse(rules: seq<Rule>)
    requires TwoHosts(rules)
    ensures !RulesAccept(rules, "a.com", "/y") && !HostCovers(rules, "a.com", "/y")
  {
    assert "/y"[1] != "/x"[1] && "a.com"[0] != "b.com"[0] && "a.com"[0] != ("b.com" + ":")[0];
  }

  /** One host and path, with the type of the path ignored: Envoy also serves what merely begins with the path. */
  lemma PathTypeExample(ingress: Ingress, pathType: PathType)
    requires pathType != ImplementationSpecific
    requires ingress.rules == [Rule("a.com", Some([Path("/x", pathType, "s")]))]
    ensures Accepts(VirtualHostFor(ingress), "a.com", "/xy") && !RulesAccept(ingress.rules, "a.com", "/xy")
    ensures NothingMissed(ingress.rules) && !PathsShared(ingress.rules)
  {
    var rules := ingress.rules;
    assert VisibleAt(rules, 0) && PathsOf(rules[0])[0].path == "/x" && "/x" <= "/xy";
    assert PathPrefixMatches(rules[0], "/x") && PathPrefixMatches(rules[0], "/xy");
    LiteralHostsAgree("a.com", "a.com");
    RoutingMeaning(ingress, "a.com", "/xy");
    assert Stem("/x") == "/x" && ("/x" + "/")[2] != "/xy"[2];
    assert Offers(rules[0], "/x") && !Shares(rules, "a.com", "/x");
    assert HostVisible(rules, "a.com");
  }

  /** A prefix with a trailing separator also means the path without it, which Envoy refuses. */
  lemma TrailingSeparatorExample(ingress: Ingress)
    requires ingress.rules == [Rule("a.com", Some([Path("/x/", Prefix, "s")]))]
    ensures RulesAccept(ingress.rules, "a.com", "/x") && !Accepts(VirtualHostFor(ingress), "a.com", "/x")
    ensures PathsShared(ingress.rules) && !NothingMissed(ingress.rules)
  {
    var rules := ingress.rules;
    assert VisibleAt(rules, 0) && PathsOf(rules[0])[0].path == "/x/" && Stem("/x/") == "/x";
    assert RuleTakes(rules[0], "/x") && RuleAccepts(rules[0], "a.com", "/x");
    RoutingMeaning(ingress, "a.com", "/x");
    assert "/x" + "/" == "/x/";
    assert RuleCovers(rules[0], "/x/") && HostCovers(rules, "a.com", "/x/");
    assert !IsServed(rules, "a.com", PathsOf(rules[0])[0]);
  }

  /** A rule without a host comes first: Envoy serves neither it nor the rule after it. */
  lemma DroppedExample(ingress: Ingress)
    requires ingress.rules == [
               Rule("", Some([Path("/h", ImplementationSpecific, "s")])),
               Rule("a.com", Some([Path("/x", ImplementationSpecific, "t")]))]
    ensures RulesAccept(ingress.rules, "a.com", "/x") && !Accepts(VirtualHostFor(ingress), "a.com", "/x")
    ensures PathsShared(ingress.rules) && !NothingMissed(ingress.rules)
  {
    var rules := ingress.rules;
    assert Hidden(rules[0]) && forall i :: !VisibleAt(rules, i);
    assert PathsOf(rules[1])[0].path == "/x";
    assert RuleTakes(rules[1], "/x") && RuleAccepts(rules[1], "a.com", "/x");
    RoutingMeaning(ingress, "a.com", "/x");
    assert NotMissed(rules, rules[1]) ==> IsServed(rules, "a.com", PathsOf(rules[1])[0]);
  }

  /** A wildcard host stands for one label to the rules, and for any number of them to Envoy. */
  lemma WildcardExample(ingress: Ingress)
    requires ingress.rules == [Rule("*.a.com", Some([Path("/", ImplementationSpecific, "s")]))]
    ensures Accepts(VirtualHostFor(ingress), "x.y.a.com", "/") && !RulesAccept(ingress.rules, "x.y.a.com", "/")
  {
    var rules, host := ingress.rules, "x.y.a.com";
    assert VisibleAt(rules, 0) && PathsOf(rules[0])[0].path == "/";
    assert "*.a.com"[1..] == ".a.com" && host[|host| - 6..] == ".a.com";
    RoutingMeaning(ingress, host, "/");
    assert HostMatches("*.a.com", host) && PathPrefixMatches(rules[0], "/");
    if UnderWildcard("*.a.com", host) {
      var front :| front != "" && '.' !in front && IsHost(front + "*.a.com"[1..], host);
      assert host[1] == '.' && host[3] == '.' && host[5] == '.';
      TwoLabels(front, host);
    }
  }

  lemma TwoLabels(front: string, host: string)
    requires host == "x.y.a.com" && front != "" && '.' !in front
    ensures !IsHost(front + ".a.com", host)
  {
    var h := front + ".a.com";
    assert |h| == |front| + 6 && h[|front|] == '.';
    assert |front| > 1 ==> h[1] == front[1];
    assert (h + ":")[|h|] == ':' && ':' !in host;
    Text.PrefixAgrees(host, h + ":", |h|);
  }
}
