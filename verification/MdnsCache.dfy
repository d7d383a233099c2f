/**
 * The cache of an mDNS discovery: PTR, SRV and TXT records fill in service instances (sections
 * 4.1, 5 and 6 of RFC 6763), A and AAAA records the addresses of hosts, and after each datagram
 * every complete service that has changed is emitted.
 */
module MdnsCache {
  import opened Bytes
  import opened Names
  import opened Services

  /** A record as the packet parser delivers it; A and AAAA both give an address. */
  datatype Record =
    | Ptr(owner: string, instance: string, ttl: nat)
    | Srv(owner: string, hostname: string, port: u16, priority: u16, weight: u16, ttl: nat)
    | Txt(owner: string, txt: map<string, string>, ttl: nat)
    | Address(owner: string, address: string)
    | Other

  datatype Pending = Pending(hasPtr: bool, hasSrv: bool, service: Service)

  const Fresh := Pending(false, false, BlankService)

  /** `batches` are the services emitted after each datagram, by key. */
  datatype Cache = Cache(
    services: map<string, Pending>,
    addresses: map<string, seq<string>>,
    emitted: map<string, Service>,
    batches: seq<map<string, Service>>)

  const Empty := Cache(map[], map[], map[], [])

  function EntryOf(cache: Cache, key: string): Pending {
    if key in cache.services then cache.services[key] else Fresh
  }

  function AddressesOf(cache: Cache, key: string): seq<string> {
    if key in cache.addresses then cache.addresses[key] else []
  }

  /** The key whose service a record fills in. */
  function KeyOf(record: Record): Option<string> {
    match record
    case Ptr(_, instance, _) => if instance == "" then None else Some(Lower(instance))
    case Srv(owner, _, _, _, _, _) => Some(Lower(owner))
    case Txt(owner, _, _) => Some(Lower(owner))
    case Address(_, _) => None
    case Other => None
  }

  function Filled(pending: Pending, record: Record): Pending {
    match record
    case Ptr(owner, instance, ttl) =>
      pending.(hasPtr := true,
               service := pending.service.(serviceType := owner, instanceName := instance, ttl := ttl))
    case Srv(owner, hostname, port, priority, weight, ttl) =>
      pending.(hasSrv := true,
               service := pending.service.(instanceName := owner, hostname := hostname, port := port,
                                           priority := priority, weight := weight, ttl := ttl))
    case Txt(owner, txt, ttl) =>
      pending.(service := pending.service.(instanceName := owner, txt := txt, ttl := ttl))
    case Address(_, _) => pending
    case Other => pending
  }

  function WithAddress(known: seq<string>, address: string): seq<string> {
    if address in known then known else Sort(known + [address])
  }

  function Handle(cache: Cache, record: Record): Cache {
    match KeyOf(record)
    case Some(key) =>
      cache.(services := cache.services[key := Filled(EntryOf(cache, key), record)])
    case None =>
      if record.Address? && record.address != "" then
        var host := Lower(record.owner);
        cache.(addresses := cache.addresses[host := WithAddress(AddressesOf(cache, host), record.address)])
      else
        cache
  }

  function HandleAll(cache: Cache, records: seq<Record>): Cache
    decreases |records|
  {
    if records == [] then cache else HandleAll(Handle(cache, records[0]), records[1..])
  }

  predicate Complete(pending: Pending) {
    pending.hasPtr && pending.hasSrv
  }

  /** A service with the addresses its host has now. */
  function Resolved(cache: Cache, key: string): Service {
    var service := EntryOf(cache, key).service;
    service.(addresses := AddressesOf(cache, Lower(service.hostname)))
  }

  predicate Changed(cache: Cache, key: string) {
    && key in cache.services && Complete(cache.services[key])
    && (key !in cache.emitted || cache.emitted[key] != Resolved(cache, key))
  }

  function Batch(cache: Cache): map<string, Service> {
    map key | key in cache.services && Changed(cache, key) :: Resolved(cache, key)
  }

  function Refreshed(cache: Cache): map<string, Pending> {
    map key | key in cache.services ::
      if Complete(cache.services[key]) then cache.services[key].(service := Resolved(cache, key)) else cache.services[key]
  }

  function EmitChanges(cache: Cache): Cache {
    Cache(Refreshed(cache), cache.addresses, cache.emitted + Batch(cache), cache.batches + [Batch(cache)])
  }

  /** A datagram cut in front of its additional records fills in what came before, and emits nothing. */
  datatype Event = Datagram(records: seq<Record>) | Truncated(records: seq<Record>)

  /** The records of a section as far as they parse; `whole` if that is all of them. */
  datatype Section = Section(records: seq<Record>, whole: bool)

  /** A datagram is readable if it is a response and its header and questions parse. */
  datatype Packet = Packet(readable: bool, answers: Section, authorities: Section, additionals: Section)

  /** The additional records are handled as far as they parse, and a cut in them does not matter. */
  function EventOf(packet: Packet): Event {
    if !packet.readable then
      Truncated([])
    else if !packet.answers.whole then
      Truncated(packet.answers.records)
    else if !packet.authorities.whole then
      Truncated(packet.answers.records + packet.authorities.records)
    else
      Datagram(packet.answers.records + packet.authorities.records + packet.additionals.records)
  }

  lemma {:induction false} HandleAllAppend(cache: Cache, front: seq<Record>, back: seq<Record>)
    ensures HandleAll(cache, front + back) == HandleAll(HandleAll(cache, front), back)
    decreases |front|
  {
    hide Handle;
    if front == [] {
      assert front + back == back;
    } else {
      assert (front + back)[1..] == front[1..] + back;
      HandleAllAppend(Handle(cache, front[0]), front[1..], back);
    }
  }

  function Step(cache: Cache, event: Event): Cache {
    match event
    case Datagram(records) => EmitChanges(HandleAll(cache, records))
    case Truncated(records) => HandleAll(cache, records)
  }

  function Run(cache: Cache, events: seq<Event>): Cache
    decreases |events|
  {
    if events == [] then cache else Run(Step(cache, events[0]), events[1..])
  }

  // The last record of each kind decides

  datatype SrvData = SrvData(hostname: string, port: u16, priority: u16, weight: u16)

  /** What a list of records says of one service: for each field the last value, if any. */
  datatype Sayings = Sayings(
    serviceType: Option<string>,
    srv: Option<SrvData>,
    txt: Option<map<string, string>>,
    instanceName: Option<string>,
    ttl: Option<nat>)

  const Silence := Sayings(None, None, None, None, None)

  function Said(record: Record): Sayings {
    match record
    case Ptr(owner, instance, ttl) => Sayings(Some(owner), None, None, Some(instance), Some(ttl))
    case Srv(owner, hostname, port, priority, weight, ttl) =>
      Sayings(None, Some(SrvData(hostname, port, priority, weight)), None, Some(owner), Some(ttl))
    case Txt(owner, txt, ttl) => Sayings(None, None, Some(txt), Some(owner), Some(ttl))
    case Address(_, _) => Silence
    case Other => Silence
  }

  function Later<T>(earlier: Option<T>, later: Option<T>): Option<T> {
    if later.Some? then later else earlier
  }

  function Over(earlier: Sayings, later: Sayings): Sayings {
    Sayings(
      Later(earlier.serviceType, later.serviceType),
      Later(earlier.srv, later.srv),
      Later(earlier.txt, later.txt),
      Later(earlier.instanceName, later.instanceName),
      Later(earlier.ttl, later.ttl))
  }

  function SaidAll(records: seq<Record>, key: string): Sayings {
    if records == [] then Silence
    else Over(if KeyOf(records[0]) == Some(key) then Said(records[0]) else Silence, SaidAll(records[1..], key))
  }

  /** A service with what has been said of it filled in. */
  function Apply(pending: Pending, said: Sayings): Pending {
    var service := pending.service;
    Pending(
      pending.hasPtr || said.serviceType.Some?,
      pending.hasSrv || said.srv.Some?,
      Service(
        said.serviceType.GetOr(service.serviceType),
        said.instanceName.GetOr(service.instanceName),
        if said.srv.Some? then said.srv.value.hostname else service.hostname,
        if said.srv.Some? then said.srv.value.port else service.port,
        if said.srv.Some? then said.srv.value.priority else service.priority,
        if said.srv.Some? then said.srv.value.weight else service.weight,
        service.addresses,
        said.txt.GetOr(service.txt),
        said.ttl.GetOr(service.ttl)))
  }

  lemma ApplyOver(pending: Pending, earlier: Sayings, later: Sayings)
    ensures Apply(pending, Over(earlier, later)) == Apply(Apply(pending, earlier), later)
    ensures Apply(Apply(pending, later), later) == Apply(pending, later)
    ensures Apply(pending, Silence) == pending
  {
  }

  lemma FilledIsApplied(pending: Pending, record: Record)
    ensures Filled(pending, record) == Apply(pending, Said(record))
  {
  }

  /** After any records each service is what the last of them say, field by field. */
  lemma {:induction false} LastRecordsDecide(cache: Cache, records: seq<Record>, key: string)
    ensures EntryOf(HandleAll(cache, records), key) == Apply(EntryOf(cache, key), SaidAll(records, key))
    decreases |records|
  {
    hide Apply, Over, Said, Filled;
    if records == [] {
      ApplyOver(EntryOf(cache, key), Silence, Silence);
    } else {
      var record := records[0];
      LastRecordsDecide(Handle(cache, record), records[1..], key);
      FilledIsApplied(EntryOf(cache, key), record);
      ApplyOver(EntryOf(cache, key), Said(record), SaidAll(records[1..], key));
      ApplyOver(EntryOf(cache, key), Silence, SaidAll(records[1..], key));
      ApplyOver(EntryOf(cache, key), Silence, Silence);
    }
  }

  // Addresses

  ghost predicate Announced(records: seq<Record>, host: string, address: string) {
    address != "" && exists r :: r in records && r.Address? && Lower(r.owner) == host && r.address == address
  }

  lemma WithAddressKeeps(known: seq<string>, address: string)
    requires Ascending(known)
    ensures Ascending(WithAddress(known, address))
    ensures forall x :: x in WithAddress(known, address) <==> x in known || x == address
  {
    WithAddressHolds(known, address);
    SortKeeps(known + [address]);
  }

  lemma HandleAddresses(cache: Cache, record: Record, host: string)
    requires Ascending(AddressesOf(cache, host))
    ensures Ascending(AddressesOf(Handle(cache, record), host))
    ensures forall x :: x in AddressesOf(Handle(cache, record), host) <==>
                        x in AddressesOf(cache, host) || Announced([record], host, x)
  {
    hide Ascending, WithAddress, Lower, Filled;
    assert record in [record];
    if record.Address? && record.address != "" && Lower(record.owner) == host {
      WithAddressKeeps(AddressesOf(cache, host), record.address);
    }
  }

  /** A host's addresses are ascending, and exactly those announced. */
  lemma {:induction false} AddressesAreThoseAnnounced(cache: Cache, records: seq<Record>, host: string)
    requires Ascending(AddressesOf(cache, host))
    ensures Ascending(AddressesOf(HandleAll(cache, records), host))
    ensures forall x :: x in AddressesOf(HandleAll(cache, records), host) <==>
                        x in AddressesOf(cache, host) || Announced(records, host, x)
    decreases |records|
  {
    hide Ascending, Handle, Lower;
    if records != [] {
      HandleAddresses(cache, records[0], host);
      AddressesAreThoseAnnounced(Handle(cache, records[0]), records[1..], host);
      forall x
        ensures Announced(records, host, x) <==> Announced([records[0]], host, x) || Announced(records[1..], host, x)
      {
        assert records == [records[0]] + records[1..];
      }
    }
  }

  // Agreement of what has been emitted with what is known

  /** Every complete service has been emitted as it is now. */
  ghost predicate Agrees(cache: Cache) {
    forall key :: key in cache.services && Complete(cache.services[key]) ==>
      key in cache.emitted && cache.emitted[key] == Resolved(cache, key) == cache.services[key].service
  }

  /** After each datagram that emits, what has been emitted agrees with what is known. */
  lemma DatagramAgrees(cache: Cache, records: seq<Record>)
    ensures Agrees(Step(cache, Datagram(records)))
  {
  }

  // Replaying a datagram

  lemma {:induction false} EmittedUntouched(cache: Cache, records: seq<Record>)
    ensures HandleAll(cache, records).emitted == cache.emitted && HandleAll(cache, records).batches == cache.batches
    decreases |records|
  {
    if records != [] {
      EmittedUntouched(Handle(cache, records[0]), records[1..]);
    }
  }

  ghost predicate Speaks(records: seq<Record>, key: string) {
    exists r :: r in records && KeyOf(r) == Some(key)
  }

  lemma HandleKeys(cache: Cache, record: Record, key: string)
    ensures key in Handle(cache, record).services <==> key in cache.services || KeyOf(record) == Some(key)
  {
    hide Filled, Lower, WithAddress;
  }

  lemma SpeaksFirst(records: seq<Record>, key: string)
    requires records != []
    ensures Speaks(records, key) <==> KeyOf(records[0]) == Some(key) || Speaks(records[1..], key)
  {
    hide KeyOf;
    assert records == [records[0]] + records[1..];
  }

  lemma {:induction false} KeysAreThoseSpokenOf(cache: Cache, records: seq<Record>, key: string)
    ensures key in HandleAll(cache, records).services <==> key in cache.services || Speaks(records, key)
    decreases |records|
  {
    hide KeyOf, Handle;
    if records != [] {
      KeysAreThoseSpokenOf(Handle(cache, records[0]), records[1..], key);
      HandleKeys(cache, records[0], key);
      SpeaksFirst(records, key);
    }
  }

  /** The address of the record, if it has one, is in the cache. */
  ghost predicate Holds(cache: Cache, record: Record) {
    record.Address? && record.address != "" ==>
      Lower(record.owner) in cache.addresses && record.address in cache.addresses[Lower(record.owner)]
  }

  lemma {:induction false} KnownAddressesStay(cache: Cache, records: seq<Record>)
    requires forall r :: r in records ==> Holds(cache, r)
    ensures HandleAll(cache, records).addresses == cache.addresses
    decreases |records|
  {
    if records != [] {
      hide Lower, Filled, KeyOf;
      var record := records[0];
      assert record in records && Holds(cache, record);
      AddressKnown(cache, record);
      forall r | r in records[1..]
        ensures Holds(Handle(cache, record), r)
      {
        HandleHolds(cache, record, r);
      }
      KnownAddressesStay(Handle(cache, record), records[1..]);
    }
  }

  lemma AddressKnown(cache: Cache, record: Record)
    requires Holds(cache, record)
    ensures Handle(cache, record).addresses == cache.addresses
  {
  }

  lemma HandleHolds(cache: Cache, record: Record, other: Record)
    ensures Holds(Handle(cache, record), record)
    ensures Holds(cache, other) ==> Holds(Handle(cache, record), other)
  {
    hide Lower, Filled, WithAddress;
    if record.Address? {
      WithAddressHolds(AddressesOf(cache, Lower(record.owner)), record.address);
    }
  }

  lemma WithAddressHolds(known: seq<string>, address: string)
    ensures forall x :: x in WithAddress(known, address) <==> x in known || x == address
  {
    SortKeeps(known + [address]);
  }

  lemma {:induction false} HandledIsHeld(cache: Cache, records: seq<Record>, record: Record)
    requires record in records || Holds(cache, record)
    ensures Holds(HandleAll(cache, records), record)
    decreases |records|
  {
    hide Handle, Holds;
    if records != [] {
      HandleHolds(cache, records[0], record);
      assert records == [records[0]] + records[1..];
      HandledIsHeld(Handle(cache, records[0]), records[1..], record);
    }
  }

  /** What the records say of a service is said already. */
  lemma EntryStays(cache: Cache, records: seq<Record>, key: string)
    ensures var after := EmitChanges(HandleAll(cache, records));
            EntryOf(HandleAll(after, records), key) == EntryOf(after, key)
  {
    hide HandleAll, Lower, SaidAll, AddressesOf;
    var handled := HandleAll(cache, records);
    var said := SaidAll(records, key);
    LastRecordsDecide(cache, records, key);
    LastRecordsDecide(EmitChanges(handled), records, key);
    ApplyOver(EntryOf(cache, key), said, said);
    assert EntryOf(handled, key) == Apply(EntryOf(handled, key), said);
    assert EntryOf(EmitChanges(handled), key)
        == EntryOf(handled, key).(service := EntryOf(EmitChanges(handled), key).service)
        && EntryOf(EmitChanges(handled), key).service
           == EntryOf(handled, key).service.(addresses := EntryOf(EmitChanges(handled), key).service.addresses);
  }

  /** Processing the same datagram again emits nothing and changes nothing. */
  lemma ReplayIsSilent(cache: Cache, records: seq<Record>)
    ensures var after := Step(cache, Datagram(records));
            Step(after, Datagram(records)) == after.(batches := after.batches + [map[]])
  {
    var after := Step(cache, Datagram(records));
    var again := HandleAll(after, records);
    ReplayHandlesNothing(cache, records);
    EmittedUntouched(after, records);
    DatagramAgrees(cache, records);
    assert again == after;
    assert Batch(after) == map[];
    assert Refreshed(after) == after.services;
    assert after.emitted + map[] == after.emitted;
  }

  lemma ReplayHandlesNothing(cache: Cache, records: seq<Record>)
    ensures var after := Step(cache, Datagram(records));
            && HandleAll(after, records).services == after.services
            && HandleAll(after, records).addresses == after.addresses
  {
    hide HandleAll, EntryOf, Speaks, Holds, Batch;
    var after := Step(cache, Datagram(records));
    var again := HandleAll(after, records);
    forall key
      ensures key in again.services <==> key in after.services
      ensures EntryOf(again, key) == EntryOf(after, key)
    {
      KeysAreThoseSpokenOf(cache, records, key);
      KeysAreThoseSpokenOf(after, records, key);
      EntryStays(cache, records, key);
    }
    SameEntries(again, after);
    forall r | r in records
      ensures Holds(after, r)
    {
      HandledIsHeld(cache, records, r);
      HeldBeyondEmission(HandleAll(cache, records), r);
    }
    KnownAddressesStay(after, records);
  }

  lemma HeldBeyondEmission(cache: Cache, record: Record)
    requires Holds(cache, record)
    ensures Holds(EmitChanges(cache), record)
  {
  }

  lemma SameEntries(one: Cache, other: Cache)
    requires forall key :: key in one.services <==> key in other.services
    requires forall key :: EntryOf(one, key) == EntryOf(other, key)
    ensures one.services == other.services
  {
    forall key | key in one.services
      ensures one.services[key] == other.services[key]
    {
      assert EntryOf(one, key) == EntryOf(other, key);
    }
  }

  // Emissions of one service

  /** The last emission of a service, if it has been emitted. */
  function LastOf(batches: seq<map<string, Service>>, key: string): Option<Service> {
    if batches == [] then None
    else if key in batches[|batches| - 1] then Some(batches[|batches| - 1][key])
    else LastOf(batches[..|batches| - 1], key)
  }

  ghost predicate Remembers(cache: Cache) {
    forall key :: LastOf(cache.batches, key) == if key in cache.emitted then Some(cache.emitted[key]) else None
  }

  /** No service is emitted twice in a row the same. */
  ghost predicate Varies(batches: seq<map<string, Service>>) {
    forall i, key :: 0 <= i < |batches| && key in batches[i] ==> LastOf(batches[..i], key) != Some(batches[i][key])
  }

  lemma StepVaries(cache: Cache, event: Event)
    requires Remembers(cache) && Varies(cache.batches)
    ensures Remembers(Step(cache, event)) && Varies(Step(cache, event).batches)
  {
    EmittedUntouched(cache, event.records);
    if event.Datagram? {
      var handled := HandleAll(cache, event.records);
      EmitVaries(handled);
    }
  }

  lemma EmitVaries(cache: Cache)
    requires Remembers(cache) && Varies(cache.batches)
    ensures Remembers(EmitChanges(cache)) && Varies(EmitChanges(cache).batches)
  {
    hide Resolved, Refreshed;
    var batch := Batch(cache);
    var longer := cache.batches + [batch];
    assert longer[..|cache.batches|] == cache.batches;
    forall i, key | 0 <= i < |longer| && key in longer[i]
      ensures LastOf(longer[..i], key) != Some(longer[i][key])
    {
      assert longer[..i] == cache.batches[..i];
      if i == |cache.batches| {
        assert longer[..i] == cache.batches;
        assert Changed(cache, key);
      }
    }
  }

  lemma {:induction false} RunVaries(cache: Cache, events: seq<Event>)
    requires Remembers(cache) && Varies(cache.batches)
    ensures Remembers(Run(cache, events)) && Varies(Run(cache, events).batches)
    decreases |events|
  {
    if events != [] {
      StepVaries(cache, events[0]);
      RunVaries(Step(cache, events[0]), events[1..]);
    }
  }

  /** In every run consecutive emissions of a service differ. */
  lemma ConsecutiveEmissionsDiffer(events: seq<Event>)
    ensures Varies(Run(Empty, events).batches)
  {
    RunVaries(Empty, events);
  }

  /** In every run every host's addresses are ascending, so without duplicates. */
  lemma {:induction false} AddressesStayAscending(cache: Cache, events: seq<Event>, host: string)
    requires Ascending(AddressesOf(cache, host))
    ensures Ascending(AddressesOf(Run(cache, events), host))
    decreases |events|
  {
    hide Ascending, HandleAll;
    if events != [] {
      AddressesAreThoseAnnounced(cache, events[0].records, host);
      AddressesStayAscending(Step(cache, events[0]), events[1..], host);
    }
  }
}
