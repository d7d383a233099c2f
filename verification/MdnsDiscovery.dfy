/** The mDNS cache as the program keeps it: three maps that every record and datagram updates. */
module MdnsDiscoveryModel {
  import opened Names
  import opened Services
  import opened MdnsCache

  /** Between two visits: the entries not left are refreshed. */
  ghost predicate EntriesPartway(before: Cache, left: set<string>, services: map<string, Pending>) {
    && services.Keys == before.services.Keys && left <= before.services.Keys
    && (forall key :: key in before.services ==>
          services[key] == if key in left then before.services[key] else Refreshed(before)[key])
  }

  /** Between two visits: of the entries not left those are emitted for which it is due. */
  ghost predicate BatchPartway(before: Cache, left: set<string>, batch: map<string, Service>, emitted: map<string, Service>) {
    && emitted == before.emitted + batch
    && (forall key :: key in batch <==> key in before.services && key !in left && Changed(before, key))
    && (forall key :: key in batch ==> batch[key] == Resolved(before, key))
  }

  ghost predicate Partway(before: Cache, left: set<string>, batch: map<string, Service>,
                          services: map<string, Pending>, emitted: map<string, Service>) {
    EntriesPartway(before, left, services) && BatchPartway(before, left, batch, emitted)
  }

  lemma Skipping(before: Cache, left: set<string>, batch: map<string, Service>,
                 services: map<string, Pending>, emitted: map<string, Service>, key: string)
    requires Partway(before, left, batch, services, emitted) && key in left
    ensures key in before.services && key in services && services[key] == before.services[key]
    ensures key in emitted <==> key in before.emitted
    ensures key in emitted ==> emitted[key] == before.emitted[key]
    ensures !Complete(services[key]) ==> Partway(before, left - {key}, batch, services, emitted)
  {
  }

  lemma RefreshedAt(before: Cache, key: string)
    requires key in before.services && Complete(before.services[key])
    ensures Refreshed(before).Keys == before.services.Keys
    ensures Refreshed(before)[key] == before.services[key].(service := Resolved(before, key))
    ensures Changed(before, key) <==> key !in before.emitted || before.emitted[key] != Resolved(before, key)
  {
  }

  lemma EntryUpdated(before: Cache, left: set<string>, services: map<string, Pending>, key: string)
    requires EntriesPartway(before, left, services) && key in left && Complete(before.services[key])
    ensures EntriesPartway(before, left - {key}, services[key := before.services[key].(service := Resolved(before, key))])
  {
  }

  lemma BatchUpdated(before: Cache, left: set<string>, batch: map<string, Service>, emitted: map<string, Service>, key: string)
    requires BatchPartway(before, left, batch, emitted) && key in left && key in before.services
    ensures if Changed(before, key)
            then BatchPartway(before, left - {key}, batch[key := Resolved(before, key)], emitted[key := Resolved(before, key)])
            else BatchPartway(before, left - {key}, batch, emitted)
  {
  }

  lemma Updating(before: Cache, left: set<string>, batch: map<string, Service>,
                 services: map<string, Pending>, emitted: map<string, Service>, key: string)
    requires Partway(before, left, batch, services, emitted) && key in left
    requires key in before.services && Complete(before.services[key])
    ensures var service := Resolved(before, key);
            var updated := services[key := before.services[key].(service := service)];
            if Changed(before, key)
            then Partway(before, left - {key}, batch[key := service], updated, emitted[key := service])
            else Partway(before, left - {key}, batch, updated, emitted)
    ensures Changed(before, key) <==> key !in before.emitted || before.emitted[key] != Resolved(before, key)
  {
    hide Resolved, Refreshed, Changed, EntriesPartway, BatchPartway;
    EntryUpdated(before, left, services, key);
    BatchUpdated(before, left, batch, emitted, key);
    RefreshedAt(before, key);
  }

  lemma ResolvedIs(before: Cache, key: string, service: Service)
    requires key in before.services
    requires service == before.services[key].service.(addresses := service.addresses)
    requires var host := Lower(before.services[key].service.hostname);
             service.addresses == if host in before.addresses then before.addresses[host] else []
    ensures service == Resolved(before, key)
  {
  }

  class MdnsDiscovery {
    var discoveredServices: map<string, Pending>
    var addresses: map<string, seq<string>>
    var emitted: map<string, Service>
    /** What the observer has seen, datagram by datagram. */
    var batches: seq<map<string, Service>>

    ghost function Abstract(): Cache
      reads this
    {
      Cache(discoveredServices, addresses, emitted, batches)
    }

    constructor ()
      ensures Abstract() == Empty
    {
      discoveredServices, addresses, emitted, batches := map[], map[], map[], [];
    }

    /** Nothing is emitted unless answers and authorities parse in full; additional records need not. */
    method OnDatagram(packet: Packet)
      modifies this
      ensures Abstract() == Step(old(Abstract()), EventOf(packet))
    {
      hide Handle, MdnsCache.EmitChanges;
      if !packet.readable {
        return;
      }
      HandleAllAppend(Abstract(), packet.answers.records, packet.authorities.records);
      HandleAllAppend(Abstract(), packet.answers.records + packet.authorities.records, packet.additionals.records);
      var parsed := ParseSection(packet.answers);
      if parsed {
        parsed := ParseSection(packet.authorities);
      }
      if !parsed {
        return;
      }
      var _ := ParseSection(packet.additionals);
      EmitChanges();
    }

    /** Each record is handled as it is parsed. */
    method ParseSection(section: Section) returns (whole: bool)
      modifies `discoveredServices, `addresses
      ensures whole == section.whole
      ensures Abstract() == HandleAll(old(Abstract()), section.records)
    {
      hide Handle;
      var records := section.records;
      for i := 0 to |records|
        invariant HandleAll(Abstract(), records[i..]) == HandleAll(old(Abstract()), records)
      {
        HandleRecord(records[i]);
        assert records[i..][0] == records[i] && records[i..][1..] == records[i + 1..];
      }
      assert records[|records|..] == [];
      return section.whole;
    }

    method HandleRecord(record: Record)
      modifies `discoveredServices, `addresses
      ensures Abstract() == Handle(old(Abstract()), record)
    {
      match record
      case Ptr(owner, instanceName, ttl) =>
        if instanceName != "" {
          var pending := Entry(Lower(instanceName));
          pending := pending.(hasPtr := true);
          pending := pending.(service := pending.service.(serviceType := owner, instanceName := instanceName, ttl := ttl));
          discoveredServices := discoveredServices[Lower(instanceName) := pending];
        }
      case Srv(owner, hostname, port, priority, weight, ttl) =>
        var pending := Entry(Lower(owner));
        pending := pending.(hasSrv := true);
        pending := pending.(service := pending.service.(
          instanceName := owner, hostname := hostname, port := port, priority := priority, weight := weight, ttl := ttl));
        discoveredServices := discoveredServices[Lower(owner) := pending];
      case Txt(owner, txt, ttl) =>
        var pending := Entry(Lower(owner));
        pending := pending.(service := pending.service.(instanceName := owner, txt := txt, ttl := ttl));
        discoveredServices := discoveredServices[Lower(owner) := pending];
      case Address(owner, address) =>
        AddAddress(Lower(owner), address);
      case Other =>
    }

    /** The entry of a key, fresh if there is none. */
    method Entry(key: string) returns (pending: Pending)
      ensures pending == EntryOf(Abstract(), key)
    {
      if key in discoveredServices {
        return discoveredServices[key];
      }
      return Fresh;
    }

    method AddAddress(hostname: string, address: string)
      modifies `addresses
      ensures addresses == if address == "" then old(addresses)
                           else old(addresses)[hostname := WithAddress(AddressesOf(old(Abstract()), hostname), address)]
    {
      if address == "" {
        return;
      }
      var hostAddresses := if hostname in addresses then addresses[hostname] else [];
      if address !in hostAddresses {
        hostAddresses := hostAddresses + [address];
        hostAddresses := Sort(hostAddresses);
      }
      addresses := addresses[hostname := hostAddresses];
    }

    method EmitChanges()
      modifies this
      ensures Abstract() == MdnsCache.EmitChanges(old(Abstract()))
    {
      hide Resolved, Changed, Refreshed;
      ghost var before := old(Abstract());
      var left := discoveredServices.Keys;
      var batch := map[];
      assert emitted + batch == emitted;
      while left != {}
        invariant Partway(before, left, batch, discoveredServices, emitted)
        invariant addresses == before.addresses && batches == before.batches
        decreases left
      {
        var key :| key in left;
        batch := Visit(key, batch, before, left);
        left := left - {key};
      }
      batches := batches + [batch];
      assert batch == Batch(before);
      assert discoveredServices == Refreshed(before) by { SameKeys(before); }
    }

    lemma SameKeys(before: Cache)
      ensures Refreshed(before).Keys == before.services.Keys
    {
    }

    /** One entry: its addresses are brought up to date, and it is emitted if it has changed. */
    method Visit(key: string, batch: map<string, Service>, ghost before: Cache, ghost left: set<string>)
      returns (longer: map<string, Service>)
      requires Partway(before, left, batch, discoveredServices, emitted) && key in left
      requires addresses == before.addresses
      modifies `discoveredServices, `emitted
      ensures Partway(before, left - {key}, longer, discoveredServices, emitted)
    {
      hide Partway, Resolved, Changed;
      longer := batch;
      Skipping(before, left, batch, discoveredServices, emitted, key);
      var pending := discoveredServices[key];
      if !pending.hasPtr || !pending.hasSrv {
        return;
      }
      var host := Lower(pending.service.hostname);
      var service := pending.service.(addresses := if host in addresses then addresses[host] else []);
      ResolvedIs(before, key, service);
      Updating(before, left, batch, discoveredServices, emitted, key);
      discoveredServices := discoveredServices[key := pending.(service := service)];
      if key !in emitted || emitted[key] != service {
        emitted := emitted[key := service];
        longer := batch[key := service];
      }
    }
  }
}
