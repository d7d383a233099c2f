/** What an mDNS discovery emits, told by the records it has received. */
module MdnsEmissions {
  import opened Bytes
  import opened Names
  import opened Services
  import opened MdnsCache

  /** All records of these datagrams, in order. */
  function AllRecords(events: seq<Event>): seq<Record>
    decreases |events|
  {
    if events == [] then [] else events[0].records + AllRecords(events[1..])
  }

  // Which record speaks of which service

  predicate PtrOf(record: Record, key: string) {
    record.Ptr? && record.instance != "" && Lower(record.instance) == key
  }

  predicate SrvOf(record: Record, key: string) {
    record.Srv? && Lower(record.owner) == key
  }

  predicate TxtOf(record: Record, key: string) {
    record.Txt? && Lower(record.owner) == key
  }

  lemma SaidOfOne(record: Record, key: string)
    ensures var said := SaidAll([record], key);
            && (said.serviceType == if PtrOf(record, key) then Some(record.owner) else None)
            && (said.srv == if SrvOf(record, key)
                            then Some(SrvData(record.hostname, record.port, record.priority, record.weight)) else None)
            && (said.txt == if TxtOf(record, key) then Some(record.txt) else None)
            && (said.instanceName == if PtrOf(record, key) then Some(record.instance)
                                     else if SrvOf(record, key) || TxtOf(record, key) then Some(record.owner) else None)
            && (said.ttl == if PtrOf(record, key) || SrvOf(record, key) || TxtOf(record, key) then Some(record.ttl) else None)
  {
    assert [record][1..] == [];
    assert SaidAll([], key) == Silence;
  }

  /** The last of the records with a property, if any has it. */
  ghost predicate IsLast(records: seq<Record>, k: nat, has: Record -> bool) {
    k < |records| && has(records[k]) && forall j :: k < j < |records| ==> !has(records[j])
  }

  ghost predicate NoneHas(records: seq<Record>, has: Record -> bool) {
    forall j :: 0 <= j < |records| ==> !has(records[j])
  }

  lemma {:induction false} SaidAllAppend(front: seq<Record>, back: seq<Record>, key: string)
    ensures SaidAll(front + back, key) == Over(SaidAll(front, key), SaidAll(back, key))
    decreases |front|
  {
    hide Said, KeyOf;
    if front == [] {
      assert front + back == back;
    } else {
      assert (front + back)[1..] == front[1..] + back && (front + back)[0] == front[0];
      SaidAllAppend(front[1..], back, key);
    }
  }

  lemma SaidAllButLast(records: seq<Record>, key: string)
    requires records != []
    ensures var front, last := records[..|records| - 1], records[|records| - 1];
            records == front + [last] && SaidAll(records, key) == Over(SaidAll(front, key), SaidAll([last], key))
  {
    hide SaidAll, Over;
    var front, last := records[..|records| - 1], records[|records| - 1];
    assert records == front + [last];
    SaidAllAppend(front, [last], key);
  }

  /** What is said of the type and by an SRV record is what the last such record says. */
  lemma {:induction false} LastPtrSaid(records: seq<Record>, key: string, k: nat)
    requires IsLast(records, k, r => PtrOf(r, key))
    ensures SaidAll(records, key).serviceType == Some(records[k].owner)
    decreases |records|
  {
    hide SaidAll, PtrOf;
    var front, last := records[..|records| - 1], records[|records| - 1];
    SaidAllButLast(records, key);
    SaidOfOne(last, key);
    if k < |records| - 1 {
      LastPtrSaid(front, key, k);
    }
  }

  lemma {:induction false} NoPtrSaid(records: seq<Record>, key: string)
    ensures SaidAll(records, key).serviceType.None? <==> NoneHas(records, r => PtrOf(r, key))
    decreases |records|
  {
    if records != [] {
      hide SaidAll, PtrOf;
      var front, last := records[..|records| - 1], records[|records| - 1];
      SaidAllButLast(records, key);
      SaidOfOne(last, key);
      NoPtrSaid(front, key);
    }
  }

  lemma {:induction false} LastSrvSaid(records: seq<Record>, key: string, k: nat)
    requires IsLast(records, k, r => SrvOf(r, key))
    ensures SaidAll(records, key).srv
         == Some(SrvData(records[k].hostname, records[k].port, records[k].priority, records[k].weight))
    decreases |records|
  {
    hide SaidAll, SrvOf;
    var front, last := records[..|records| - 1], records[|records| - 1];
    SaidAllButLast(records, key);
    SaidOfOne(last, key);
    SrvIsSrv(records[k], key);
    if k < |records| - 1 {
      LastSrvSaid(front, key, k);
    }
  }

  lemma SrvIsSrv(record: Record, key: string)
    ensures SrvOf(record, key) ==> record.Srv?
    ensures PtrOf(record, key) ==> record.Ptr?
    ensures TxtOf(record, key) ==> record.Txt?
  {
  }

  lemma {:induction false} NoSrvSaid(records: seq<Record>, key: string)
    ensures SaidAll(records, key).srv.None? <==> NoneHas(records, r => SrvOf(r, key))
    decreases |records|
  {
    if records != [] {
      hide SaidAll, SrvOf;
      var front, last := records[..|records| - 1], records[|records| - 1];
      SaidAllButLast(records, key);
      SaidOfOne(last, key);
      NoSrvSaid(front, key);
    }
  }

  lemma {:induction false} LastTxtSaid(records: seq<Record>, key: string, k: nat)
    requires IsLast(records, k, r => TxtOf(r, key))
    ensures SaidAll(records, key).txt == Some(records[k].txt)
    decreases |records|
  {
    hide SaidAll, TxtOf;
    var front, last := records[..|records| - 1], records[|records| - 1];
    SaidAllButLast(records, key);
    SaidOfOne(last, key);
    SrvIsSrv(records[k], key);
    if k < |records| - 1 {
      LastTxtSaid(front, key, k);
    }
  }

  lemma {:induction false} NoTxtSaid(records: seq<Record>, key: string)
    ensures SaidAll(records, key).txt.None? <==> NoneHas(records, r => TxtOf(r, key))
    decreases |records|
  {
    if records != [] {
      hide SaidAll, TxtOf;
      var front, last := records[..|records| - 1], records[|records| - 1];
      SaidAllButLast(records, key);
      SaidOfOne(last, key);
      NoTxtSaid(front, key);
    }
  }

  /** A record of any kind that speaks of the service, the name it gives it and its time to live. */
  predicate SpeaksOf(record: Record, key: string) {
    PtrOf(record, key) || SrvOf(record, key) || TxtOf(record, key)
  }

  function NameBy(record: Record): string
    requires record.Ptr? || record.Srv? || record.Txt?
  {
    if record.Ptr? then record.instance else record.owner
  }

  lemma {:induction false} LastSaid(records: seq<Record>, key: string, k: nat)
    requires IsLast(records, k, r => SpeaksOf(r, key))
    ensures SaidAll(records, key).instanceName == Some(NameBy(records[k])) && SaidAll(records, key).ttl == Some(records[k].ttl)
    decreases |records|
  {
    hide SaidAll, PtrOf, SrvOf, TxtOf;
    var front, last := records[..|records| - 1], records[|records| - 1];
    SaidAllButLast(records, key);
    SaidOfOne(last, key);
    SrvIsSrv(records[k], key);
    if k < |records| - 1 {
      LastSaid(front, key, k);
    }
  }

  // Over a run

  /** A service without its addresses, which its host has. */
  function Bare(pending: Pending): Pending {
    pending.(service := pending.service.(addresses := []))
  }

  lemma ApplyIsBare(pending: Pending, said: Sayings)
    ensures Bare(Apply(pending, said)) == Apply(Bare(pending), said)
  {
  }

  lemma EmissionIsBare(cache: Cache, key: string)
    ensures Bare(EntryOf(EmitChanges(cache), key)) == Bare(EntryOf(cache, key))
  {
    hide Batch;
  }

  /** A run of datagrams says of a service what all their records say. */
  lemma {:induction false} RunSaysAll(cache: Cache, events: seq<Event>, key: string)
    ensures Bare(EntryOf(Run(cache, events), key)) == Apply(Bare(EntryOf(cache, key)), SaidAll(AllRecords(events), key))
    decreases |events|
  {
    hide Apply, Bare, Over, HandleAll, EmitChanges, SaidAll, EntryOf;
    if events == [] {
      SilenceSaysNothing(Bare(EntryOf(cache, key)), key);
    } else {
      var event, rest := events[0], events[1..];
      var handled := HandleAll(cache, event.records);
      LastRecordsDecide(cache, event.records, key);
      ApplyIsBare(EntryOf(cache, key), SaidAll(event.records, key));
      EmissionIsBare(handled, key);
      RunSaysAll(Step(cache, event), rest, key);
      SaidAllAppend(event.records, AllRecords(rest), key);
      ApplyOver(Bare(EntryOf(cache, key)), SaidAll(event.records, key), SaidAll(AllRecords(rest), key));
    }
  }

  lemma SilenceSaysNothing(pending: Pending, key: string)
    ensures Apply(pending, SaidAll([], key)) == pending
  {
  }

  lemma {:induction false} RunAnnounces(cache: Cache, events: seq<Event>, host: string)
    requires Ascending(AddressesOf(cache, host))
    ensures Ascending(AddressesOf(Run(cache, events), host))
    ensures forall x :: x in AddressesOf(Run(cache, events), host) <==>
                        x in AddressesOf(cache, host) || Announced(AllRecords(events), host, x)
    decreases |events|
  {
    hide Ascending, HandleAll, Announced;
    if events == [] {
      NothingAnnounced(host);
    } else {
      var event, rest := events[0], events[1..];
      AddressesAreThoseAnnounced(cache, event.records, host);
      EmissionKeepsAddresses(HandleAll(cache, event.records), host);
      RunAnnounces(Step(cache, event), rest, host);
      forall x
        ensures Announced(AllRecords(events), host, x) <==> Announced(event.records, host, x) || Announced(AllRecords(rest), host, x)
      {
        AnnouncedInEither(event.records, AllRecords(rest), host, x);
      }
    }
  }

  lemma NothingAnnounced(host: string)
    ensures forall x :: !Announced([], host, x)
  {
  }

  lemma EmissionKeepsAddresses(cache: Cache, host: string)
    ensures AddressesOf(EmitChanges(cache), host) == AddressesOf(cache, host)
  {
  }

  lemma AnnouncedInEither(front: seq<Record>, back: seq<Record>, host: string, x: string)
    ensures Announced(front + back, host, x) <==> Announced(front, host, x) || Announced(back, host, x)
  {
    hide Lower;
  }

  /** Only services with a PTR and an SRV record have been emitted. */
  ghost predicate EmittedComplete(cache: Cache) {
    forall key :: key in cache.emitted ==> Complete(EntryOf(cache, key))
  }

  lemma StepEmitsComplete(cache: Cache, event: Event)
    requires EmittedComplete(cache)
    ensures EmittedComplete(Step(cache, event))
  {
    hide HandleAll, Apply, SaidAll, Resolved, EntryOf;
    var handled := HandleAll(cache, event.records);
    EmittedUntouched(cache, event.records);
    forall key | key in handled.emitted
      ensures Complete(EntryOf(handled, key))
    {
      LastRecordsDecide(cache, event.records, key);
      ApplyCompletes(EntryOf(cache, key), SaidAll(event.records, key));
    }
    if event.Datagram? {
      forall key | key in EmitChanges(handled).emitted
        ensures Complete(EntryOf(EmitChanges(handled), key))
      {
        EmissionOfOne(handled, key);
      }
    }
  }

  lemma ApplyCompletes(pending: Pending, said: Sayings)
    ensures Complete(pending) ==> Complete(Apply(pending, said))
  {
  }

  lemma EmissionOfOne(cache: Cache, key: string)
    ensures Complete(EntryOf(EmitChanges(cache), key)) == Complete(EntryOf(cache, key))
    ensures key in EmitChanges(cache).emitted ==> key in cache.emitted || Complete(EntryOf(cache, key))
  {
  }

  lemma {:induction false} RunEmitsComplete(cache: Cache, events: seq<Event>)
    requires EmittedComplete(cache)
    ensures EmittedComplete(Run(cache, events))
    decreases |events|
  {
    hide Step, EmittedComplete;
    if events != [] {
      StepEmitsComplete(cache, events[0]);
      RunEmitsComplete(Step(cache, events[0]), events[1..]);
    }
  }

  lemma {:induction false} RunAppend(cache: Cache, events: seq<Event>, event: Event)
    ensures Run(cache, events + [event]) == Step(Run(cache, events), event)
    decreases |events|
  {
    hide Step;
    if events == [] {
      assert ([] + [event])[1..] == [];
      assert Run(Step(cache, event), []) == Step(cache, event);
    } else {
      assert (events + [event])[1..] == events[1..] + [event];
      RunAppend(Step(cache, events[0]), events[1..], event);
    }
  }

  /**
   * After any datagrams, the last of which emits, a service has been emitted exactly if a PTR and
   * an SRV record have named it.
   */
  lemma EmittedExactly(events: seq<Event>, records: seq<Record>, key: string)
    ensures var all := AllRecords(events + [Datagram(records)]);
            key in Run(Empty, events + [Datagram(records)]).emitted <==>
              !NoneHas(all, r => PtrOf(r, key)) && !NoneHas(all, r => SrvOf(r, key))
  {
    hide Step, Run, AllRecords, SaidAll, NoneHas, EntryOf, Resolved;
    var after := Run(Empty, events + [Datagram(records)]);
    var all := AllRecords(events + [Datagram(records)]);
    RunAppend(Empty, events, Datagram(records));
    DatagramAgrees(Run(Empty, events), records);
    RunEmitsComplete(Empty, events + [Datagram(records)]);
    RunSaysAll(Empty, events + [Datagram(records)], key);
    NoPtrSaid(all, key);
    NoSrvSaid(all, key);
    FreshIsBare(key);
    CompleteIsBare(EntryOf(after, key), SaidAll(all, key));
    EntryIsThere(after, key);
  }

  lemma FreshIsBare(key: string)
    ensures Bare(EntryOf(Empty, key)) == Fresh
  {
  }

  lemma CompleteIsBare(pending: Pending, said: Sayings)
    requires Bare(pending) == Apply(Fresh, said)
    ensures Complete(pending) <==> said.serviceType.Some? && said.srv.Some?
  {
  }

  lemma EntryIsThere(cache: Cache, key: string)
    ensures Complete(EntryOf(cache, key)) ==> key in cache.services && EntryOf(cache, key) == cache.services[key]
  {
  }

  /** The service as these records tell it, field by field. */
  ghost predicate Told(records: seq<Record>, key: string, service: Service) {
    && (forall k: nat :: IsLast(records, k, r => PtrOf(r, key)) ==> service.serviceType == records[k].owner)
    && (forall k: nat :: IsLast(records, k, r => SrvOf(r, key)) ==>
          && records[k].Srv?
          && service.hostname == records[k].hostname && service.port == records[k].port
          && service.priority == records[k].priority && service.weight == records[k].weight)
    && (forall k: nat :: IsLast(records, k, r => TxtOf(r, key)) ==> records[k].Txt? && service.txt == records[k].txt)
    && (NoneHas(records, r => TxtOf(r, key)) ==> service.txt == map[])
    && (forall k: nat :: IsLast(records, k, r => SpeaksOf(r, key)) ==>
          && (records[k].Ptr? || records[k].Srv? || records[k].Txt?)
          && service.instanceName == NameBy(records[k]) && service.ttl == records[k].ttl)
    && Ascending(service.addresses)
    && (forall x :: x in service.addresses <==> Announced(records, Lower(service.hostname), x))
  }

  /** What is emitted is what all records so far tell, each field by the last that sets it. */
  lemma EmittedIsTold(events: seq<Event>, records: seq<Record>, key: string)
    requires key in Run(Empty, events + [Datagram(records)]).emitted
    ensures Told(AllRecords(events + [Datagram(records)]), key, Run(Empty, events + [Datagram(records)]).emitted[key])
  {
    hide Step, Run, AllRecords, SaidAll, NoneHas, IsLast, EntryOf, Ascending, Announced, PtrOf, SrvOf, TxtOf, NameBy;
    var after := Run(Empty, events + [Datagram(records)]);
    var all := AllRecords(events + [Datagram(records)]);
    RunAppend(Empty, events, Datagram(records));
    DatagramAgrees(Run(Empty, events), records);
    RunEmitsComplete(Empty, events + [Datagram(records)]);
    RunSaysAll(Empty, events + [Datagram(records)], key);
    FreshIsBare(key);
    EntryIsThere(after, key);
    var service := after.emitted[key];
    assert service == EntryOf(after, key).service && service.addresses == AddressesOf(after, Lower(service.hostname));
    FieldsAreSaid(EntryOf(after, key), SaidAll(all, key));
    FieldsAreTold(all, key, service);
    NoAddressesYet(Lower(service.hostname));
    RunAnnounces(Empty, events + [Datagram(records)], Lower(service.hostname));
  }

  lemma NoAddressesYet(host: string)
    ensures AddressesOf(Empty, host) == [] && Ascending([])
  {
  }

  ghost predicate SaidBy(service: Service, said: Sayings) {
    && service.serviceType == said.serviceType.GetOr("")
    && (said.srv.Some? ==>
          && service.hostname == said.srv.value.hostname && service.port == said.srv.value.port
          && service.priority == said.srv.value.priority && service.weight == said.srv.value.weight)
    && service.txt == said.txt.GetOr(map[])
    && service.instanceName == said.instanceName.GetOr("") && service.ttl == said.ttl.GetOr(0)
  }

  lemma FieldsAreSaid(pending: Pending, said: Sayings)
    requires Bare(pending) == Apply(Fresh, said)
    ensures SaidBy(pending.service, said)
  {
  }

  lemma FieldsAreTold(records: seq<Record>, key: string, service: Service)
    requires SaidBy(service, SaidAll(records, key))
    ensures forall k: nat :: IsLast(records, k, r => PtrOf(r, key)) ==> service.serviceType == records[k].owner
    ensures forall k: nat :: IsLast(records, k, r => SrvOf(r, key)) ==>
              && records[k].Srv?
              && service.hostname == records[k].hostname && service.port == records[k].port
              && service.priority == records[k].priority && service.weight == records[k].weight
    ensures forall k: nat :: IsLast(records, k, r => TxtOf(r, key)) ==> records[k].Txt? && service.txt == records[k].txt
    ensures NoneHas(records, r => TxtOf(r, key)) ==> service.txt == map[]
    ensures forall k: nat :: IsLast(records, k, r => SpeaksOf(r, key)) ==>
              && (records[k].Ptr? || records[k].Srv? || records[k].Txt?)
              && service.instanceName == NameBy(records[k]) && service.ttl == records[k].ttl
  {
    NoTxtSaid(records, key);
    forall k: nat | IsLast(records, k, r => PtrOf(r, key))
      ensures service.serviceType == records[k].owner
    {
      LastPtrSaid(records, key, k);
    }
    forall k: nat | IsLast(records, k, r => SrvOf(r, key))
      ensures && records[k].Srv?
              && service.hostname == records[k].hostname && service.port == records[k].port
              && service.priority == records[k].priority && service.weight == records[k].weight
    {
      LastSrvSaid(records, key, k);
    }
    forall k: nat | IsLast(records, k, r => TxtOf(r, key))
      ensures records[k].Txt? && service.txt == records[k].txt
    {
      LastTxtSaid(records, key, k);
    }
    forall k: nat | IsLast(records, k, r => SpeaksOf(r, key))
      ensures && (records[k].Ptr? || records[k].Srv? || records[k].Txt?)
              && service.instanceName == NameBy(records[k]) && service.ttl == records[k].ttl
    {
      LastSaid(records, key, k);
    }
  }

  // One datagram

  /** The records of a datagram that are handled: section by section up to the first that is cut. */
  function Handled(packet: Packet): seq<Record> {
    if !packet.readable then []
    else
      packet.answers.records
      + if !packet.answers.whole then []
        else packet.authorities.records + if packet.authorities.whole then packet.additionals.records else []
  }

  /** A datagram's records are handled so far, and it emits exactly if it is readable up to its additional records. */
  lemma PacketIsHandled(cache: Cache, packet: Packet)
    ensures var after := Step(cache, EventOf(packet));
            && AllRecords([EventOf(packet)]) == Handled(packet)
            && |after.batches| == |cache.batches|
                 + (if packet.readable && packet.answers.whole && packet.authorities.whole then 1 else 0)
  {
    hide HandleAll, Batch, Refreshed;
    var event := EventOf(packet);
    EmittedUntouched(cache, event.records);
    assert [event][1..] == [] && AllRecords([]) == [];
    assert event.records + [] == event.records;
  }
}
