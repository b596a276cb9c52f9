/** The part of the API server that the controller calls: stored ingresses, services and DNS records. */
module ApiServer {
  import opened Wrappers
  import opened Model

  /** `clock` is above every uid and version handed out. */
  datatype Store = Store(ingresses: map<Key, Ingress>, clock: nat)

  datatype DnsRecord = DnsRecord(
    namespace: string,
    name: string,
    dnsName: string,
    recordType: string,
    targets: seq<string>,
    ttl: nat,
    ownerName: string,
    ownerUid: nat)

  datatype Reply = Ok | NotFound | AlreadyExists | Conflict | Failed

  /****** What a request that is carried out does ******/

  function Created(s: Store, obj: Ingress): Store {
    Store(
      s.ingresses[KeyOf(obj) := obj.(uid := s.clock, version := s.clock, status := [], deleting := false)],
      s.clock + 1)
  }

  /** Identity, status and deletion mark stay as stored. */
  function Updated(s: Store, obj: Ingress): Store
    requires KeyOf(obj) in s.ingresses
  {
    var was := s.ingresses[KeyOf(obj)];
    Store(
      s.ingresses[
        KeyOf(obj) := obj.(uid := was.uid, version := s.clock, status := was.status, deleting := was.deleting)],
      s.clock + 1)
  }

  function Removed(s: Store, k: Key): Store {
    s.(ingresses := s.ingresses - {k})
  }

  function Annotated(s: Store, k: Key, host: string): Store {
    if k !in s.ingresses then s
    else
      var was := s.ingresses[k];
      Store(
        s.ingresses[k := was.(annotations := was.annotations[HOST_ANNOTATION := host], version := s.clock)],
        s.clock + 1)
  }

  function StatusSet(s: Store, k: Key, status: seq<LoadBalancer>): Store {
    if k !in s.ingresses then s
    else Store(s.ingresses[k := s.ingresses[k].(status := status, version := s.clock)], s.clock + 1)
  }

  ghost predicate Filed(s: Store) {
    forall k :: k in s.ingresses ==> KeyOf(s.ingresses[k]) == k
  }

  /****** The calls ******/

  /**
   A call fails only by using up one of the outstanding `faults`, of which there may be any number. The request
   of a failed call may have been carried out all the same, with only its reply lost.
   */
  class Api {
    var store: Store
    var services: map<Key, Service>
    var records: map<Key, DnsRecord>
    var faults: nat

    constructor (store: Store, services: map<Key, Service>, records: map<Key, DnsRecord>, faults: nat)
      ensures this.store == store && this.services == services
      ensures this.records == records && this.faults == faults
    {
      this.store, this.services, this.records, this.faults := store, services, records, faults;
    }

    method Disturb() returns (failed: bool, lost: bool)
      modifies this`faults
      ensures if failed then faults == old(faults) - 1 else faults == old(faults)
      ensures lost ==> failed
    {
      failed, lost := false, false;
      if faults > 0 {
        if * {
          failed := true;
          faults := faults - 1;
          if * {
            lost := true;
          }
        }
      }
    }

    method CreateIngress(obj: Ingress) returns (r: Reply)
      modifies this`store, this`faults
      ensures r == Ok || r == AlreadyExists || r == Failed
      ensures r == Ok ==> KeyOf(obj) !in old(store.ingresses) && store == Created(old(store), obj)
      ensures r == AlreadyExists ==> KeyOf(obj) in old(store.ingresses) && store == old(store)
      ensures r == Failed ==> (
          store == old(store) || (KeyOf(obj) !in old(store.ingresses) && store == Created(old(store), obj)))
      ensures if r == Failed then faults == old(faults) - 1 else faults == old(faults)
    {
      var failed, lost := Disturb();
      if failed && !lost {
        return Failed;
      }
      if KeyOf(obj) in store.ingresses {
        return if failed then Failed else AlreadyExists;
      }
      store := Created(store, obj);
      return if failed then Failed else Ok;
    }

    method GetIngress(k: Key) returns (r: Reply, obj: Option<Ingress>)
      modifies this`faults
      ensures r == Ok || r == NotFound || r == Failed
      ensures r == Ok ==> k in store.ingresses && obj == Some(store.ingresses[k])
      ensures r == NotFound ==> k !in store.ingresses
      ensures if r == Failed then faults == old(faults) - 1 else faults == old(faults)
    {
      var failed, _ := Disturb();
      if failed {
        return Failed, None;
      }
      if k !in store.ingresses {
        return NotFound, None;
      }
      return Ok, Some(store.ingresses[k]);
    }

    /** Refused when the caller's version is not the stored one. */
    method UpdateIngress(obj: Ingress) returns (r: Reply)
      modifies this`store, this`faults
      ensures r == Ok || r == NotFound || r == Conflict || r == Failed
      ensures r == Ok ==> KeyOf(obj) in old(store.ingresses) && store == Updated(old(store), obj)
      ensures r == NotFound ==> KeyOf(obj) !in old(store.ingresses) && store == old(store)
      ensures r == Conflict ==> (
          KeyOf(obj) in old(store.ingresses) && store == old(store)
          && obj.version != old(store.ingresses)[KeyOf(obj)].version)
      ensures r == Failed ==> (
          store == old(store) || (KeyOf(obj) in old(store.ingresses) && store == Updated(old(store), obj)))
      ensures if r == Failed then faults == old(faults) - 1 else faults == old(faults)
    {
      var failed, lost := Disturb();
      if failed && !lost {
        return Failed;
      }
      if KeyOf(obj) !in store.ingresses {
        return if failed then Failed else NotFound;
      }
      if obj.version != store.ingresses[KeyOf(obj)].version {
        return if failed then Failed else Conflict;
      }
      store := Updated(store, obj);
      return if failed then Failed else Ok;
    }

    method DeleteIngress(k: Key) returns (r: Reply)
      modifies this`store, this`faults
      ensures r == Ok || r == NotFound || r == Failed
      ensures r == Ok ==> k in old(store.ingresses) && store == Removed(old(store), k)
      ensures r == NotFound ==> k !in old(store.ingresses) && store == old(store)
      ensures r == Failed ==> store == old(store) || store == Removed(old(store), k)
      ensures if r == Failed then faults == old(faults) - 1 else faults == old(faults)
    {
      var failed, lost := Disturb();
      if failed && !lost {
        return Failed;
      }
      if k !in store.ingresses {
        return if failed then Failed else NotFound;
      }
      store := Removed(store, k);
      return if failed then Failed else Ok;
    }

    method PatchHost(k: Key, host: string) returns (r: Reply)
      modifies this`store, this`faults
      ensures r == Ok || r == NotFound || r == Failed
      ensures r == Ok ==> k in old(store.ingresses) && store == Annotated(old(store), k, host)
      ensures r == NotFound ==> k !in old(store.ingresses) && store == old(store)
      ensures r == Failed ==> store == old(store) || store == Annotated(old(store), k, host)
      ensures if r == Failed then faults == old(faults) - 1 else faults == old(faults)
    {
      var failed, lost := Disturb();
      if failed && !lost {
        return Failed;
      }
      if k !in store.ingresses {
        return if failed then Failed else NotFound;
      }
      store := Annotated(store, k, host);
      return if failed then Failed else Ok;
    }

    /** Refused when the caller's version is not the stored one. */
    method UpdateStatus(obj: Ingress) returns (r: Reply)
      modifies this`store, this`faults
      ensures r == Ok || r == NotFound || r == Conflict || r == Failed
      ensures r == Ok ==> (
          store == StatusSet(old(store), KeyOf(obj), obj.status)
          && KeyOf(obj) in old(store.ingresses) && old(store.ingresses)[KeyOf(obj)].version == obj.version)
      ensures r == NotFound ==> KeyOf(obj) !in old(store.ingresses) && store == old(store)
      ensures r == Conflict ==> (
          KeyOf(obj) in old(store.ingresses) && store == old(store)
          && obj.version != old(store.ingresses)[KeyOf(obj)].version)
      ensures r == Failed ==> store == old(store) || store == StatusSet(old(store), KeyOf(obj), obj.status)
      ensures if r == Failed then faults == old(faults) - 1 else faults == old(faults)
    {
      var failed, lost := Disturb();
      if failed && !lost {
        return Failed;
      }
      if KeyOf(obj) !in store.ingresses {
        return if failed then Failed else NotFound;
      }
      if obj.version != store.ingresses[KeyOf(obj)].version {
        return if failed then Failed else Conflict;
      }
      store := StatusSet(store, KeyOf(obj), obj.status);
      return if failed then Failed else Ok;
    }

    method GetService(k: Key) returns (r: Reply, service: Option<Service>)
      modifies this`faults
      ensures r == Ok || r == NotFound || r == Failed
      ensures r == Ok ==> k in services && service == Some(services[k])
      ensures r == NotFound ==> k !in services
      ensures if r == Failed then faults == old(faults) - 1 else faults == old(faults)
    {
      var failed, _ := Disturb();
      if failed {
        return Failed, None;
      }
      if k !in services {
        return NotFound, None;
      }
      return Ok, Some(services[k]);
    }

    method CreateRecord(record: DnsRecord) returns (r: Reply)
      modifies this`records, this`faults
      ensures var k := Key(record.namespace, record.name);
              && (r == Ok || r == AlreadyExists || r == Failed)
              && (r == Ok ==> k !in old(records) && records == old(records)[k := record])
              && (r == AlreadyExists ==> k in old(records) && records == old(records))
              && (r == Failed ==> records == old(records) || records == old(records)[k := record])
      ensures if r == Failed then faults == old(faults) - 1 else faults == old(faults)
    {
      var k := Key(record.namespace, record.name);
      var failed, lost := Disturb();
      if failed && !lost {
        return Failed;
      }
      if k in records {
        return if failed then Failed else AlreadyExists;
      }
      records := records[k := record];
      return if failed then Failed else Ok;
    }

    /** A forced apply patch by the one manager of these records: every field becomes the one sent. */
    method ApplyRecord(record: DnsRecord) returns (r: Reply)
      modifies this`records, this`faults
      ensures var k := Key(record.namespace, record.name);
              && (r == Ok || r == Failed)
              && (r == Ok ==> records == old(records)[k := record])
              && (r == Failed ==> records == old(records) || records == old(records)[k := record])
      ensures if r == Failed then faults == old(faults) - 1 else faults == old(faults)
    {
      var failed, lost := Disturb();
      if failed && !lost {
        return Failed;
      }
      records := records[Key(record.namespace, record.name) := record];
      return if failed then Failed else Ok;
    }

    method DeleteRecord(k: Key) returns (r: Reply)
      modifies this`records, this`faults
      ensures r == Ok || r == NotFound || r == Failed
      ensures r == Ok || r == NotFound ==> records == old(records) - {k}
      ensures r == Failed ==> records == old(records) || records == old(records) - {k}
      ensures if r == Failed then faults == old(faults) - 1 else faults == old(faults)
    {
      var failed, lost := Disturb();
      if failed && !lost {
        return Failed;
      }
      if k !in records {
        assert records == records - {k};
        return if failed then Failed else NotFound;
      }
      records := records - {k};
      return if failed then Failed else Ok;
    }
  }
}
