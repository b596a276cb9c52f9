/** What a leaf pass computes: the root's aggregated status, its advertised host, and the leaf's DNS record. */
module LeafPass {
  import opened Wrappers
  import opened Model
  import opened ApiServer
  import Text

  /****** Status ******/

  function Aggregate(leaves: seq<Ingress>): seq<LoadBalancer> {
    if leaves == [] then [] else Aggregate(leaves[..|leaves| - 1]) + leaves[|leaves| - 1].status
  }

  method AggregateStatus(leaves: seq<Ingress>) returns (status: seq<LoadBalancer>)
    ensures status == Aggregate(leaves)
  {
    status := [];
    for i := 0 to |leaves|
      invariant status == Aggregate(leaves[..i])
    {
      assert leaves[..i + 1][..i] == leaves[..i];
      status := status + leaves[i].status;
    }
    assert leaves[..|leaves|] == leaves;
  }

  lemma {:induction false} AggregateAppend(a: seq<Ingress>, b: seq<Ingress>)
    ensures Aggregate(a + b) == Aggregate(a) + Aggregate(b)
  {
    if b == [] {
      assert a + b == a;
    } else {
      var rest, last := b[..|b| - 1], b[|b| - 1].status;
      AggregateAppend(a, rest);
      assert (a + b)[..|a + b| - 1] == a + rest;
      assert Aggregate(a) + Aggregate(rest) + last == Aggregate(a) + (Aggregate(rest) + last);
    }
  }

  /** How often the leaves report an entry, all together. */
  function Reported(leaves: seq<Ingress>, lb: LoadBalancer): nat {
    if leaves == [] then 0 else multiset(leaves[0].status)[lb] + Reported(leaves[1..], lb)
  }

  /** Nothing is lost and nothing invented: each entry appears as often as all listed leaves report it. */
  lemma {:induction false} AggregateConservesEntries(leaves: seq<Ingress>, lb: LoadBalancer)
    ensures multiset(Aggregate(leaves))[lb] == Reported(leaves, lb)
  {
    if leaves == [] {
    } else {
      AggregateConservesEntries(leaves[1..], lb);
      AggregateAppend(leaves[..1], leaves[1..]);
      assert leaves == leaves[..1] + leaves[1..];
      assert Aggregate(leaves[..1]) == Aggregate([]) + leaves[0].status;
    }
  }

  /** The order in which the lister returns the leaves does not matter. */
  lemma {:induction false} AggregateIgnoresListingOrder(a: seq<Ingress>, b: seq<Ingress>)
    requires multiset(a) == multiset(b)
    ensures multiset(Aggregate(a)) == multiset(Aggregate(b))
  {
    if a == [] {
      assert |b| == |multiset(b)| == |multiset(a)|;
    } else {
      var i := Partner(a, b);
      AggregateIgnoresListingOrder(a[..|a| - 1], b[..i] + b[i + 1..]);
      AggregateWithoutOne(b, i);
    }
  }

  /** The last element of one listing, found in the other. */
  lemma Partner<T>(a: seq<T>, b: seq<T>) returns (i: nat)
    requires a != [] && multiset(a) == multiset(b)
    ensures i < |b| && b[i] == a[|a| - 1]
    ensures multiset(a[..|a| - 1]) == multiset(b[..i] + b[i + 1..])
  {
    var last := a[|a| - 1];
    assert last in multiset(b);
    i :| 0 <= i < |b| && b[i] == last;
    WithoutOne(b, i);
    WithoutOne(a, |a| - 1);
    assert a[..|a| - 1] + a[|a| - 1 + 1..] == a[..|a| - 1];
  }

  lemma WithoutOne<T>(s: seq<T>, i: nat)
    requires i < |s|
    ensures multiset(s[..i] + s[i + 1..]) == multiset(s) - multiset{s[i]}
  {
    assert s == s[..i] + [s[i]] + s[i + 1..];
  }

  lemma AggregateWithoutOne(s: seq<Ingress>, i: nat)
    requires i < |s|
    ensures multiset(Aggregate(s)) == multiset(Aggregate(s[..i] + s[i + 1..])) + multiset(s[i].status)
  {
    AggregateAround(s, i);
    AggregateAppend(s[..i], s[i + 1..]);
    MiddleMoved(Aggregate(s[..i]), s[i].status, Aggregate(s[i + 1..]));
  }

  lemma AggregateAround(s: seq<Ingress>, i: nat)
    requires i < |s|
    ensures Aggregate(s) == Aggregate(s[..i]) + s[i].status + Aggregate(s[i + 1..])
  {
    var upTo := s[..i + 1];
    assert s == upTo + s[i + 1..] && upTo[..|upTo| - 1] == s[..i] && upTo[|upTo| - 1] == s[i];
    AggregateAppend(upTo, s[i + 1..]);
  }

  lemma MiddleMoved<T>(a: seq<T>, b: seq<T>, c: seq<T>)
    ensures multiset(a + b + c) == multiset(a + c) + multiset(b)
  {
  }

  /****** Advertised host ******/

  predicate AllRulesAreDomain(rules: seq<Rule>, domain: string) {
    forall i :: 0 <= i < |rules| ==> Text.Contains(rules[i].host, domain)
  }

  function StatusHost(domain: string, ingress: Ingress, hash: string -> string): string
    requires ingress.rules != []
  {
    if AllRulesAreDomain(ingress.rules, domain) then ingress.rules[0].host
    else hash(HashedText(ingress)) + "." + domain
  }

  method GenerateStatusHost(domain: string, ingress: Ingress, hash: string -> string) returns (host: string)
    requires ingress.rules != []
    ensures host == StatusHost(domain, ingress, hash)
  {
    var allRulesAreDomain := true;
    var i := 0;
    while i < |ingress.rules|
      invariant 0 <= i <= |ingress.rules|
      invariant allRulesAreDomain <==> AllRulesAreDomain(ingress.rules[..i], domain)
    {
      if !Text.Contains(ingress.rules[i].host, domain) {
        allRulesAreDomain := false;
        assert ingress.rules[i] == ingress.rules[..i + 1][i];
        break;
      }
      i := i + 1;
    }
    if allRulesAreDomain {
      return ingress.rules[0].host;
    }
    return hash(ingress.name + ingress.namespace + ingress.cluster) + "." + domain;
  }

  /**
   The advertised host always contains the configured domain, and no status, version or annotation of the root moves
   it: overwriting the status with it and reconciling again advertises it again.
   */
  lemma StatusHostIsStable(domain: string, a: Ingress, b: Ingress, hash: string -> string)
    requires a.rules != [] && a.rules == b.rules
    requires a.name == b.name && a.namespace == b.namespace && a.cluster == b.cluster
    ensures Text.Contains(StatusHost(domain, a, hash), domain)
    ensures StatusHost(domain, a, hash) == StatusHost(domain, b, hash)
  {
    var prefix := hash(a.name + a.namespace + a.cluster) + ".";
    Text.ContainsInfix(prefix, domain, "");
    assert prefix + domain + "" == prefix + domain;
  }

  /** The text that is hashed has no separators. */
  function HashedText(ingress: Ingress): string {
    ingress.name + ingress.namespace + ingress.cluster
  }

  /** The rule host of a root in the domain is the hashed host of a root outside it. */
  predicate LooksHashed(host: string, domain: string, hashed: string) {
    Text.EndsWith(host, "." + domain) && host[..|host| - |domain| - 1] == hashed
  }

  /**
   When two roots are advertised under one host: both in the domain with one first host, both outside it with one hash,
   or one in the domain whose first host happens to be the other's hash under the domain.
   */
  predicate HostsCoincide(domain: string, a: Ingress, b: Ingress, hash: string -> string)
    requires a.rules != [] && b.rules != []
  {
    match (AllRulesAreDomain(a.rules, domain), AllRulesAreDomain(b.rules, domain))
    case (true, true) => a.rules[0].host == b.rules[0].host
    case (false, false) => hash(HashedText(a)) == hash(HashedText(b))
    case (true, false) => LooksHashed(a.rules[0].host, domain, hash(HashedText(b)))
    case (false, true) => LooksHashed(b.rules[0].host, domain, hash(HashedText(a)))
  }

  lemma StatusHostsCoincideIff(domain: string, a: Ingress, b: Ingress, hash: string -> string)
    requires a.rules != [] && b.rules != []
    ensures StatusHost(domain, a, hash) == StatusHost(domain, b, hash) <==> HostsCoincide(domain, a, b, hash)
  {
    var inA, inB := AllRulesAreDomain(a.rules, domain), AllRulesAreDomain(b.rules, domain);
    if !inA && !inB {
      HashedHostsCoincideIff(domain, hash(HashedText(a)), hash(HashedText(b)));
    } else if inA && !inB {
      LooksHashedIff(a.rules[0].host, domain, hash(HashedText(b)));
    } else if inB && !inA {
      LooksHashedIff(b.rules[0].host, domain, hash(HashedText(a)));
    }
  }

  /**
   With a hash that never collides, two roots outside the domain share a host exactly when their joined texts are equal.
   Roots with equal texts are one root exactly when both parts that are followed by another have one length.
   */
  lemma PerfectHashHostsCoincideIff(domain: string, a: Ingress, b: Ingress, hash: string -> string)
    requires a.rules != [] && b.rules != []
    requires !AllRulesAreDomain(a.rules, domain) && !AllRulesAreDomain(b.rules, domain)
    requires forall s, t :: hash(s) == hash(t) ==> s == t
    ensures StatusHost(domain, a, hash) == StatusHost(domain, b, hash) <==> HashedText(a) == HashedText(b)
    ensures HashedText(a) == HashedText(b) ==>
              (a.name == b.name && a.namespace == b.namespace && a.cluster == b.cluster
               <==> |a.name| == |b.name| && |a.namespace| == |b.namespace|)
  {
    StatusHostsCoincideIff(domain, a, b, hash);
    if HashedText(a) == HashedText(b) && |a.name| == |b.name| && |a.namespace| == |b.namespace| {
      var text, n, m := HashedText(a), |a.name|, |a.name| + |a.namespace|;
      assert text[..n] == a.name && text[n..m] == a.namespace && text[m..] == a.cluster;
      assert text == HashedText(b);
      assert text[..n] == b.name && text[n..m] == b.namespace && text[m..] == b.cluster;
    }
  }

  lemma HashedHostsCoincideIff(domain: string, ha: string, hb: string)
    ensures ha + "." + domain == hb + "." + domain <==> ha == hb
  {
    var sa, sb := ha + "." + domain, hb + "." + domain;
    assert |sa| == |ha| + 1 + |domain| && |sb| == |hb| + 1 + |domain|;
    assert sa[..|ha|] == ha && sb[..|hb|] == hb;
  }

  lemma LooksHashedIff(host: string, domain: string, hashed: string)
    ensures host == hashed + "." + domain <==> LooksHashed(host, domain, hashed)
  {
    var tail := "." + domain;
    if host == hashed + "." + domain {
      assert host == hashed + tail;
      assert host[|host| - |tail|..] == tail && host[..|host| - |tail|] == hashed;
    }
    if LooksHashed(host, domain, hashed) {
      assert host == host[..|host| - |tail|] + host[|host| - |tail|..] == hashed + tail;
      assert hashed + tail == hashed + "." + domain;
    }
  }

  /** Two roots outside the domain, ab in namespace c and a in namespace bc, share a host whatever the hash. */
  lemma JoinedNamesExample(domain: string, a: Ingress, b: Ingress, hash: string -> string)
    requires a.rules == b.rules == [Rule("shop.example", None)] && !Text.Contains("shop.example", domain)
    requires a.name == "ab" && a.namespace == "c" && b.name == "a" && b.namespace == "bc" && a.cluster == b.cluster
    ensures StatusHost(domain, a, hash) == StatusHost(domain, b, hash)
    ensures KeyOf(a) != KeyOf(b)
  {
    assert "ab" + "c" == "a" + "bc";
    assert !AllRulesAreDomain(a.rules, domain) by {
      assert a.rules[0].host == "shop.example";
    }
  }

  /** Two roots that name the same host of the domain share it, with no hash involved. */
  lemma SharedRuleHostExample(a: Ingress, b: Ingress, domain: string, hash: string -> string)
    requires a.rules == b.rules == [Rule("x." + domain, None)]
    ensures StatusHost(domain, a, hash) == StatusHost(domain, b, hash) == "x." + domain
  {
    assert ("x." + domain)[2..] == domain;
    assert Text.Contains("x." + domain, domain);
  }

  /****** DNS record ******/

  type Resolver = string -> Option<seq<string>>

  const RECORD_TTL := 60

  /** The addresses of one load-balancer entry: those its host name resolves to, then its own. */
  function EntryTargets(lb: LoadBalancer, resolve: Resolver): Option<seq<string>> {
    var own := if lb.ip != "" then [lb.ip] else [];
    if lb.hostname == "" then Some(own)
    else if resolve(lb.hostname).None? then None
    else Some(resolve(lb.hostname).value + own)
  }

  /** One name that does not resolve fails the record. */
  function Targets(status: seq<LoadBalancer>, resolve: Resolver): Option<seq<string>> {
    if status == [] then Some([])
    else
      var before := Targets(status[..|status| - 1], resolve);
      var last := EntryTargets(status[|status| - 1], resolve);
      if before.Some? && last.Some? then Some(before.value + last.value) else None
  }

  function RecordFor(hostname: string, leaf: Ingress, targets: seq<string>): DnsRecord {
    DnsRecord(leaf.namespace, leaf.name, hostname, "A", targets, RECORD_TTL, leaf.name, leaf.uid)
  }

  lemma {:induction false} TargetsFailTogether(status: seq<LoadBalancer>, n: nat, resolve: Resolver)
    requires n <= |status| && Targets(status[..n], resolve).None?
    ensures Targets(status, resolve).None?
  {
    if n == |status| {
      assert status[..n] == status;
    } else {
      assert status[..|status| - 1][..n] == status[..n];
      TargetsFailTogether(status[..|status| - 1], n, resolve);
    }
  }

  method GetDnsRecord(hostname: string, leaf: Ingress, resolve: Resolver) returns (record: Option<DnsRecord>)
    ensures record == var targets := Targets(leaf.status, resolve);
                      if targets.Some? then Some(RecordFor(hostname, leaf, targets.value)) else None
  {
    var targets := [];
    for i := 0 to |leaf.status|
      invariant Targets(leaf.status[..i], resolve) == Some(targets)
    {
      var lb := leaf.status[i];
      assert leaf.status[..i + 1][..i] == leaf.status[..i];
      ghost var before := targets;
      if lb.hostname != "" {
        var ips := resolve(lb.hostname);
        if ips.None? {
          TargetsFailTogether(leaf.status, i + 1, resolve);
          return None;
        }
        for j := 0 to |ips.value|
          invariant targets == before + ips.value[..j]
        {
          targets := targets + [ips.value[j]];
        }
      }
      if lb.ip != "" {
        targets := targets + [lb.ip];
      }
      assert targets == before + EntryTargets(lb, resolve).value;
    }
    assert leaf.status[..|leaf.status|] == leaf.status;
    return Some(RecordFor(hostname, leaf, targets));
  }

  /** Targets follow the entries in order: a status in two parts gives the targets of the parts, in order. */
  lemma {:induction false} TargetsFollowTheEntries(a: seq<LoadBalancer>, b: seq<LoadBalancer>, resolve: Resolver)
    ensures var ta, tb := Targets(a, resolve), Targets(b, resolve);
            Targets(a + b, resolve) == if ta.Some? && tb.Some? then Some(ta.value + tb.value) else None
  {
    if b == [] {
      assert a + b == a;
      assert Targets(a, resolve).Some? ==> Targets(a, resolve).value + [] == Targets(a, resolve).value;
    } else {
      TargetsFollowTheEntries(a, b[..|b| - 1], resolve);
      assert (a + b)[..|a + b| - 1] == a + b[..|b| - 1];
      var ta, tb := Targets(a, resolve), Targets(b[..|b| - 1], resolve);
      var last := EntryTargets(b[|b| - 1], resolve);
      if ta.Some? && tb.Some? && last.Some? {
        assert (ta.value + tb.value) + last.value == ta.value + (tb.value + last.value);
      }
    }
  }

  /** One entry: the resolved addresses of its name, if it has one, and after them its own address, if it has one. */
  lemma TargetsOfOneEntry(lb: LoadBalancer, resolve: Resolver)
    ensures var targets := Targets([lb], resolve);
            && (targets.None? <==> lb.hostname != "" && resolve(lb.hostname).None?)
            && (lb.hostname == "" && lb.ip == "" ==> targets == Some([]))
            && (lb.hostname == "" && lb.ip != "" ==> targets == Some([lb.ip]))
            && (lb.hostname != "" && lb.ip == "" ==> targets == resolve(lb.hostname))
            && (lb.hostname != "" && lb.ip != "" && resolve(lb.hostname).Some? ==>
                  targets == Some(resolve(lb.hostname).value + [lb.ip]))
  {
    assert [lb][..0] == [] && [lb][|[lb]| - 1] == lb;
    assert Targets([], resolve) == Some([]);
    var one := EntryTargets(lb, resolve);
    assert Targets([lb], resolve) == if one.Some? then Some([] + one.value) else None;
    assert one.Some? ==> [] + one.value == one.value;
    assert resolve(lb.hostname).Some? ==> resolve(lb.hostname).value + [] == resolve(lb.hostname).value;
  }

  /** Some entry has a name that does not resolve. */
  predicate SomeNameIsUnknown(status: seq<LoadBalancer>, resolve: Resolver) {
    exists i :: 0 <= i < |status| && status[i].hostname != "" && resolve(status[i].hostname).None?
  }

  lemma {:induction false} TargetsFailIff(status: seq<LoadBalancer>, resolve: Resolver)
    ensures Targets(status, resolve).None? <==> SomeNameIsUnknown(status, resolve)
  {
    if status != [] {
      var n := |status| - 1;
      TargetsFailIff(status[..n], resolve);
      assert forall i :: 0 <= i < n ==> status[..n][i] == status[i];
      if SomeNameIsUnknown(status[..n], resolve) {
        var i :| 0 <= i < n && status[..n][i].hostname != "" && resolve(status[..n][i].hostname).None?;
        assert status[i].hostname != "" && resolve(status[i].hostname).None?;
      }
    }
  }

  /** The record that exposes a leaf under a host, field by field. */
  predicate Exposes(record: DnsRecord, leaf: Ingress, host: string, resolve: Resolver) {
    && record.namespace == leaf.namespace && record.name == leaf.name
    && record.dnsName == host && record.recordType == "A" && record.ttl == 60
    && record.ownerName == leaf.name && record.ownerUid == leaf.uid
    && Some(record.targets) == Targets(leaf.status, resolve)
  }

  /** The leaf has a record, which exposes it, exactly when it stays, its root has a host and it has an entry. */
  ghost predicate IsExposedAsItShould(
    records: map<Key, DnsRecord>, leaf: Ingress, rootHost: string, resolve: Resolver)
  {
    var k := Key(leaf.namespace, leaf.name);
    && (k in records <==> !leaf.deleting && rootHost != "" && leaf.status != [])
    && (k in records ==> Exposes(records[k], leaf, rootHost, resolve))
  }

  /** The decision on the leaf's own fields. */
  lemma VerdictMeaning(records: map<Key, DnsRecord>, leaf: Ingress, rootHost: string, resolve: Resolver)
    ensures var verdict := VerdictFor(leaf, rootHost, resolve);
            && (verdict.Unresolvable? <==>
                  !leaf.deleting && rootHost != "" && SomeNameIsUnknown(leaf.status, resolve))
            && (verdict.Publish? <==>
                  !leaf.deleting && rootHost != "" && leaf.status != [] && !SomeNameIsUnknown(leaf.status, resolve))
            && (!verdict.Unresolvable? ==>
                  IsExposedAsItShould(Settled(records, KeyOf(leaf), verdict), leaf, rootHost, resolve))
  {
    TargetsFailIff(leaf.status, resolve);
  }

  /** What a leaf pass decides about the leaf's record. */
  datatype Verdict = Publish(record: DnsRecord) | Withdraw | Unresolvable

  function VerdictFor(leaf: Ingress, rootHost: string, resolve: Resolver): Verdict {
    if !leaf.deleting && rootHost != "" && leaf.status != [] then
      var targets := Targets(leaf.status, resolve);
      if targets.Some? then Publish(RecordFor(rootHost, leaf, targets.value)) else Unresolvable
    else Withdraw
  }

  function Settled(records: map<Key, DnsRecord>, k: Key, verdict: Verdict): map<Key, DnsRecord> {
    match verdict
    case Publish(record) => records[k := record]
    case Withdraw => records - {k}
    case Unresolvable => records
  }

  /** The DNS stage of a leaf pass: false means that the pass stops here with an error. */
  method SyncRecord(api: Api, leaf: Ingress, rootHost: string, resolve: Resolver) returns (ok: bool)
    modifies api`records, api`faults
    ensures ok ==> IsExposedAsItShould(api.records, leaf, rootHost, resolve)
    ensures ok ==> !VerdictFor(leaf, rootHost, resolve).Unresolvable?
    ensures ok ==> api.records == Settled(old(api.records), KeyOf(leaf), VerdictFor(leaf, rootHost, resolve))
    ensures !ok ==> api.records == old(api.records)
                    || api.records == Settled(old(api.records), KeyOf(leaf), VerdictFor(leaf, rootHost, resolve))
    ensures api.faults <= old(api.faults)
    ensures !ok ==> api.faults < old(api.faults) || VerdictFor(leaf, rootHost, resolve).Unresolvable?
  {
    VerdictMeaning(api.records, leaf, rootHost, resolve);
    if leaf.deleting {
      var r := api.DeleteRecord(KeyOf(leaf));
      return r != Failed;
    } else if rootHost != "" && |leaf.status| > 0 {
      var record := GetDnsRecord(rootHost, leaf, resolve);
      if record.None? {
        return false;
      }
      var r := api.CreateRecord(record.value);
      if r == Ok {
        return true;
      }
      if r != AlreadyExists {
        return false;
      }
      r := api.ApplyRecord(record.value);
      return r == Ok;
    } else {
      var r := api.DeleteRecord(KeyOf(leaf));
      return r != Failed;
    }
  }

  /****** Runs of DNS stages ******/

  /**
   A leaf pass at its DNS stage, or a leaf's removal, which the controller works off without a call, or anything else.
   `applied` is false when a call failed and its request was not carried out.
   */
  datatype RecordEvent =
    | Observed(leaf: Ingress, rootHost: string, resolve: Resolver, applied: bool)
    | LeafRemoved(key: Key)
    | Unrelated

  function Recorded(records: map<Key, DnsRecord>, e: RecordEvent): map<Key, DnsRecord> {
    if e.Observed? && e.applied then Settled(records, KeyOf(e.leaf), VerdictFor(e.leaf, e.rootHost, e.resolve))
    else records
  }

  ghost function Records(es: seq<RecordEvent>): map<Key, DnsRecord> {
    if es == [] then map[] else Recorded(Records(es[..|es| - 1]), es[|es| - 1])
  }

  predicate Observes(e: RecordEvent, k: Key) {
    e.Observed? && KeyOf(e.leaf) == k
  }

  function VerdictOf(e: RecordEvent): Verdict
    requires e.Observed?
  {
    VerdictFor(e.leaf, e.rootHost, e.resolve)
  }

  /** Event `i` is a pass of the leaf `k` whose decision was carried out, even if the reply was lost and it failed. */
  ghost predicate Decided(es: seq<RecordEvent>, i: int, k: Key) {
    0 <= i < |es| && Observes(es[i], k) && es[i].applied && !VerdictOf(es[i]).Unresolvable?
  }

  ghost predicate LastDecided(es: seq<RecordEvent>, i: int, k: Key) {
    Decided(es, i, k) && forall j :: i < j ==> !Decided(es, j, k)
  }

  /**
   After any run the record of each leaf is exactly the one computed at the last pass of that leaf whose decision was
   carried out, and there is none if that pass withdrew it or there was no such pass. Passes of other leaves, passes
   whose request was not carried out and removals have no part in it.
   */
  lemma {:induction false} RecordsAreLastObserved(es: seq<RecordEvent>, k: Key)
    ensures forall i :: LastDecided(es, i, k) ==>
              IsExposedAsItShould(Records(es), es[i].leaf, es[i].rootHost, es[i].resolve)
    ensures k in Records(es) ==> exists i :: LastDecided(es, i, k)
  {
    if es == [] {
    } else {
      var n := |es| - 1;
      var before := es[..n];
      RecordsAreLastObserved(before, k);
      assert forall i :: i < n ==> (Decided(es, i, k) <==> Decided(before, i, k));
      if Decided(es, n, k) {
        assert LastDecided(es, n, k);
        assert forall i :: LastDecided(es, i, k) ==> i == n;
        VerdictMeaning(Records(before), es[n].leaf, es[n].rootHost, es[n].resolve);
      } else {
        assert forall i :: LastDecided(es, i, k) <==> LastDecided(before, i, k);
        UndecidedKeepsTheRecord(Records(before), es[n], k);
      }
    }
  }

  lemma UndecidedKeepsTheRecord(records: map<Key, DnsRecord>, e: RecordEvent, k: Key)
    requires Observes(e, k) && e.applied ==> VerdictOf(e).Unresolvable?
    ensures k in Recorded(records, e) <==> k in records
    ensures k in records ==> Recorded(records, e)[k] == records[k]
  {
  }

  /** The last pass of the leaf that decided saw it staying, with a host and an entry. */
  ghost predicate WasExposed(es: seq<RecordEvent>, i: int, k: Key) {
    LastDecided(es, i, k) && !es[i].leaf.deleting && es[i].rootHost != "" && es[i].leaf.status != []
  }

  /**
   A removed leaf's record outlives the leaf for good, exactly when the last pass that decided about it while the leaf
   was there saw it staying, with a host and an entry: nothing but a later pass withdraws a record, and a removed leaf
   has none.
   */
  lemma RecordIsOrphanedIff(es: seq<RecordEvent>, n: nat, k: Key)
    requires n < |es| && es[n] == LeafRemoved(k)
    requires forall j :: n < j < |es| ==> !Observes(es[j], k)
    ensures k in Records(es) <==> exists i :: WasExposed(es[..n], i, k)
  {
    UnobservedKeepsTheRecord(es, n, k);
    HasRecordIff(es[..n], k);
  }

  lemma HasRecordIff(es: seq<RecordEvent>, k: Key)
    ensures k in Records(es) <==> exists i :: WasExposed(es, i, k)
  {
    RecordsAreLastObserved(es, k);
    if k in Records(es) {
      var i :| LastDecided(es, i, k);
      assert Key(es[i].leaf.namespace, es[i].leaf.name) == k;
      assert WasExposed(es, i, k);
    }
  }

  lemma {:induction false} UnobservedKeepsTheRecord(es: seq<RecordEvent>, n: nat, k: Key)
    requires n <= |es| && forall j :: n <= j < |es| ==> !Observes(es[j], k)
    ensures k in Records(es) <==> k in Records(es[..n])
  {
    if n == |es| {
      assert es[..n] == es;
    } else {
      var m := |es| - 1;
      assert es[..m][..n] == es[..n];
      UnobservedKeepsTheRecord(es[..m], n, k);
      UndecidedKeepsTheRecord(Records(es[..m]), es[m], k);
    }
  }

  /** A leaf that was admitted under a host and then removed without a pass that saw it being deleted. */
  lemma OrphanedRecordExample(leaf: Ingress, resolve: Resolver)
    requires !leaf.deleting && leaf.status == [LoadBalancer("", "10.0.0.1")]
    ensures var es := [Observed(leaf, "x.hcp.dev", resolve, true), LeafRemoved(KeyOf(leaf))];
            && KeyOf(leaf) in Records(es)
            && Records(es)[KeyOf(leaf)] == RecordFor("x.hcp.dev", leaf, ["10.0.0.1"])
  {
    var es := [Observed(leaf, "x.hcp.dev", resolve, true), LeafRemoved(KeyOf(leaf))];
    assert es[..1][..0] == [] && es[..1] == [es[0]];
    assert leaf.status[..0] == [];
    assert [] + ["10.0.0.1"] == ["10.0.0.1"];
    assert Targets(leaf.status, resolve) == Some(["10.0.0.1"]);
    assert Records(es) == Records(es[..1]);
  }
}
