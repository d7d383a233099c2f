/**
 * Shelly devices announce themselves under two service types and in pieces; the factory merges
 * the pieces by instance and creates a thing once, when the merged service can be connected to.
 */
module ShellyMerge {
  import opened Bytes
  import opened Names
  import opened Services

  const SHELLY_TYPE := "_shelly._tcp.local."
  const HTTP_TYPE := "_http._tcp.local."

  function BeforeDot(name: string): string {
    if name == "" || name[0] == '.' then "" else [name[0]] + BeforeDot(name[1..])
  }

  function InstanceId(service: Service): string {
    if "id" in service.txt && service.txt["id"] != "" then service.txt["id"] else BeforeDot(service.instanceName)
  }

  function Key(service: Service): string {
    Lower(InstanceId(service))
  }

  predicate IsShellyService(service: Service) {
    || Lower(service.serviceType) == SHELLY_TYPE
    || (Lower(service.serviceType) == HTTP_TYPE
        && ("shelly" <= Lower(InstanceId(service)) || "shelly" <= Lower(service.hostname)))
  }

  function Max(a: nat, b: nat): nat {
    if a < b then b else a
  }

  function Merge(target: Service, source: Service): Service {
    var sourceIsShelly := Lower(source.serviceType) == SHELLY_TYPE;
    var targetIsShelly := Lower(target.serviceType) == SHELLY_TYPE;
    var renamed := target.serviceType == "" || (sourceIsShelly && !targetIsShelly);
    Service(
      if renamed then source.serviceType else target.serviceType,
      if renamed then source.instanceName else target.instanceName,
      if source.hostname != "" then source.hostname else target.hostname,
      if source.port != 0 then source.port else target.port,
      if source.port != 0 then source.priority else target.priority,
      if source.port != 0 then source.weight else target.weight,
      MergedAddresses(target.addresses, source.addresses),
      target.txt + source.txt,
      Max(target.ttl, source.ttl))
  }

  predicate Connectable(service: Service) {
    service.port != 0 && (service.hostname != "" || service.addresses != [])
  }

  datatype Creation = Creation(key: string, service: Service)

  datatype Factory = Factory(discovered: map<string, Service>, emitted: set<string>, created: seq<Creation>)

  const Empty := Factory(map[], {}, [])

  function Found(factory: Factory, key: string): Service {
    if key in factory.discovered then factory.discovered[key] else BlankService
  }

  function TryCreate(factory: Factory, candidate: Service): Factory {
    if !IsShellyService(candidate) then
      factory
    else
      var key := Key(candidate);
      var merged := Merge(Found(factory, key), candidate);
      var known := factory.(discovered := factory.discovered[key := merged]);
      if key in factory.emitted || !Connectable(merged) then known
      else known.(emitted := factory.emitted + {key}, created := factory.created + [Creation(key, merged)])
  }

  /** The factory after all these candidates, in order. */
  function After(candidates: seq<Service>): Factory {
    if candidates == [] then Empty else TryCreate(After(candidates[..|candidates| - 1]), candidates[|candidates| - 1])
  }

  // What the candidates say of one device, whatever their order

  predicate About(candidate: Service, key: string) {
    IsShellyService(candidate) && Key(candidate) == key
  }

  ghost predicate Mentioned(candidates: seq<Service>, key: string) {
    exists c :: c in candidates && About(c, key)
  }

  ghost predicate HasAddress(candidates: seq<Service>, key: string, address: string) {
    exists c :: c in candidates && About(c, key) && address in c.addresses
  }

  ghost predicate HasHostname(candidates: seq<Service>, key: string) {
    exists c :: c in candidates && About(c, key) && c.hostname != ""
  }

  ghost predicate HasPort(candidates: seq<Service>, key: string) {
    exists c :: c in candidates && About(c, key) && c.port != 0
  }

  ghost predicate IsLongestTtl(candidates: seq<Service>, key: string, ttl: nat) {
    && (forall c :: c in candidates && About(c, key) ==> c.ttl <= ttl)
    && (exists c :: c in candidates && About(c, key) && c.ttl == ttl)
  }

  /** The merged service of one device is what the candidates say of it. */
  ghost predicate Tells(service: Service, candidates: seq<Service>, key: string) {
    && Ascending(service.addresses)
    && (forall x :: x in service.addresses <==> HasAddress(candidates, key, x))
    && (service.hostname != "" <==> HasHostname(candidates, key))
    && (service.port != 0 <==> HasPort(candidates, key))
    && IsLongestTtl(candidates, key, service.ttl)
  }

  ghost predicate Describes(factory: Factory, candidates: seq<Service>, key: string) {
    && (key in factory.discovered <==> Mentioned(candidates, key))
    && (key in factory.discovered ==> Tells(factory.discovered[key], candidates, key))
    && (key in factory.emitted <==> key in factory.discovered && Connectable(factory.discovered[key]))
  }

  /** A service that can be connected to can still be after any merge. */
  lemma ConnectableStays(target: Service, source: Service)
    requires Connectable(target)
    ensures Connectable(Merge(target, source))
  {
  }

  lemma LastBelongs(candidates: seq<Service>, c: Service)
    requires candidates != []
    ensures c in candidates <==> c in candidates[..|candidates| - 1] || c == candidates[|candidates| - 1]
  {
  }

  lemma LastAdds(candidates: seq<Service>, key: string)
    requires candidates != []
    ensures var front, last := candidates[..|candidates| - 1], candidates[|candidates| - 1];
            && (Mentioned(candidates, key) <==> Mentioned(front, key) || About(last, key))
            && (HasHostname(candidates, key) <==> HasHostname(front, key) || (About(last, key) && last.hostname != ""))
            && (HasPort(candidates, key) <==> HasPort(front, key) || (About(last, key) && last.port != 0))
  {
  }

  lemma LastAddsAddress(candidates: seq<Service>, key: string, x: string)
    requires candidates != []
    ensures var front, last := candidates[..|candidates| - 1], candidates[|candidates| - 1];
            HasAddress(candidates, key, x) <==> HasAddress(front, key, x) || (About(last, key) && x in last.addresses)
  {
  }

  lemma LastAddsTtl(candidates: seq<Service>, key: string, ttl: nat)
    requires candidates != []
    requires var front := candidates[..|candidates| - 1]; if Mentioned(front, key) then IsLongestTtl(front, key, ttl) else ttl == 0
    ensures var last := candidates[|candidates| - 1];
            if About(last, key) then IsLongestTtl(candidates, key, Max(ttl, last.ttl))
            else Mentioned(candidates, key) ==> IsLongestTtl(candidates, key, ttl)
  {
    forall c ensures c in candidates <==> c in candidates[..|candidates| - 1] || c == candidates[|candidates| - 1] {
      LastBelongs(candidates, c);
    }
  }

  lemma OtherKeepsTelling(service: Service, candidates: seq<Service>, key: string)
    requires candidates != [] && !About(candidates[|candidates| - 1], key)
    requires Mentioned(candidates[..|candidates| - 1], key) && Tells(service, candidates[..|candidates| - 1], key)
    ensures Tells(service, candidates, key)
  {
    hide About, Ascending, Mentioned, HasAddress, HasHostname, HasPort, IsLongestTtl;
    LastAdds(candidates, key);
    LastAddsTtl(candidates, key, service.ttl);
    forall x
      ensures HasAddress(candidates, key, x) <==> HasAddress(candidates[..|candidates| - 1], key, x)
    {
      LastAddsAddress(candidates, key, x);
    }
  }

  lemma UnmentionedHasNothing(candidates: seq<Service>, key: string)
    requires !Mentioned(candidates, key)
    ensures !HasHostname(candidates, key) && !HasPort(candidates, key) && forall x :: !HasAddress(candidates, key, x)
  {
  }

  lemma MergeTells(service: Service, candidates: seq<Service>, key: string)
    requires candidates != [] && About(candidates[|candidates| - 1], key)
    requires var front := candidates[..|candidates| - 1];
             if Mentioned(front, key) then Tells(service, front, key) else service == BlankService
    ensures Tells(Merge(service, candidates[|candidates| - 1]), candidates, key)
  {
    var front, last := candidates[..|candidates| - 1], candidates[|candidates| - 1];
    if !Mentioned(front, key) {
      UnmentionedHasNothing(front, key);
    }
    hide About, Mentioned, HasAddress, HasHostname, HasPort, IsLongestTtl, MergedAddresses, Lower;
    LastAdds(candidates, key);
    LastAddsTtl(candidates, key, service.ttl);
    MergedIsUnion(service.addresses, last.addresses);
    forall x
      ensures x in MergedAddresses(service.addresses, last.addresses) <==> HasAddress(candidates, key, x)
    {
      LastAddsAddress(candidates, key, x);
    }
  }

  /** What a candidate changes for the device it is about, and for another. */
  lemma CandidateMoves(factory: Factory, candidate: Service, key: string)
    ensures var after, merged := TryCreate(factory, candidate), Merge(Found(factory, key), candidate);
            if About(candidate, key) then
              && key in after.discovered && after.discovered[key] == merged
              && (key in after.emitted <==> key in factory.emitted || Connectable(merged))
            else
              && (key in after.discovered <==> key in factory.discovered)
              && (key in factory.discovered ==> after.discovered[key] == factory.discovered[key])
              && (key in after.emitted <==> key in factory.emitted)
  {
    hide IsShellyService, Key, Connectable, Merge;
  }

  /** After any candidates each merged service is what they say of its device, in whatever order. */
  lemma {:induction false} AfterDescribes(candidates: seq<Service>, key: string)
    ensures Describes(After(candidates), candidates, key)
    decreases |candidates|
  {
    if candidates != [] {
      hide Tells, IsShellyService, Key, Connectable, Merge, Mentioned, TryCreate, About, HasAddress, HasHostname, HasPort;
      var front, last := candidates[..|candidates| - 1], candidates[|candidates| - 1];
      AfterDescribes(front, key);
      LastAdds(candidates, key);
      var factory := After(front);
      CandidateMoves(factory, last, key);
      if About(last, key) {
        MergeTells(Found(factory, key), candidates, key);
        if Connectable(Found(factory, key)) {
          ConnectableStays(Found(factory, key), last);
        }
      } else if Mentioned(front, key) {
        OtherKeepsTelling(factory.discovered[key], candidates, key);
      }
    } else {
      assert !Mentioned([], key);
    }
  }

  /** A device is created exactly when some candidate of it has a port, and some a host or an address. */
  lemma CreatedExactly(candidates: seq<Service>, key: string)
    ensures key in After(candidates).emitted <==>
              HasPort(candidates, key) && (HasHostname(candidates, key) || exists x :: HasAddress(candidates, key, x))
  {
    AfterDescribes(candidates, key);
    hide About, IsLongestTtl, Ascending;
    var factory := After(candidates);
    if key in factory.discovered {
      var service := factory.discovered[key];
      if service.addresses != [] {
        assert HasAddress(candidates, key, service.addresses[0]);
      }
    } else {
      UnmentionedHasNothing(candidates, key);
    }
  }

  // Which device a candidate is of

  /** The name's first label: what stands in front of its first dot. */
  predicate IsLabel(first: string, name: string) {
    && first <= name && '.' !in first
    && (first == name || name[|first|] == '.')
  }

  lemma {:induction false} BeforeDotIsLabel(name: string, first: string)
    ensures first == BeforeDot(name) <==> IsLabel(first, name)
    decreases |name|
  {
    if name == "" || name[0] == '.' {
      assert IsLabel("", name);
    } else {
      BeforeDotIsLabel(name[1..], if first == "" then "" else first[1..]);
      if first != "" && first[0] == name[0] {
        assert first == [name[0]] + first[1..] && name == [name[0]] + name[1..];
      }
    }
  }

  /** The id a candidate has in its text, or else the first label of its name. */
  predicate HasId(candidate: Service, id: string) {
    if "id" in candidate.txt && candidate.txt["id"] != "" then id == candidate.txt["id"]
    else IsLabel(id, candidate.instanceName)
  }

  predicate StartsWithShelly(name: string) {
    |name| >= 6 && Lower(name[..6]) == "shelly"
  }

  /** A candidate is of a device under its id, by its type alone or as a web server with a Shelly's name. */
  ghost predicate IsOf(candidate: Service, key: string) {
    exists id :: HasId(candidate, id) && key == Lower(id)
      && (|| Lower(candidate.serviceType) == "_shelly._tcp.local."
          || (Lower(candidate.serviceType) == "_http._tcp.local."
              && (StartsWithShelly(id) || StartsWithShelly(candidate.hostname))))
  }

  lemma ShellyPrefix(name: string)
    ensures "shelly" <= Lower(name) <==> StartsWithShelly(name)
  {
    if |name| >= 6 {
      assert Lower(name)[..6] == Lower(name[..6]);
    }
  }

  lemma AboutExactly(candidate: Service, key: string)
    ensures About(candidate, key) <==> IsOf(candidate, key)
  {
    var id := InstanceId(candidate);
    forall other
      ensures HasId(candidate, other) <==> other == id
    {
      BeforeDotIsLabel(candidate.instanceName, other);
    }
    ShellyPrefix(id);
    ShellyPrefix(candidate.hostname);
    hide InstanceId, HasId, Lower, StartsWithShelly, BeforeDot;
  }

  ghost predicate CreatedOnce(factory: Factory) {
    && |factory.created| == |factory.emitted|
    && (forall creation :: creation in factory.created ==> creation.key in factory.emitted && Connectable(creation.service))
    && (forall i, j :: 0 <= i < j < |factory.created| ==> factory.created[i].key != factory.created[j].key)
    && (forall key :: key in factory.emitted ==> exists creation :: creation in factory.created && creation.key == key)
  }

  lemma CreationAdds(factory: Factory, key: string, service: Service)
    requires CreatedOnce(factory) && key !in factory.emitted && Connectable(service)
    ensures CreatedOnce(factory.(emitted := factory.emitted + {key}, created := factory.created + [Creation(key, service)]))
  {
    hide Connectable;
    var created := factory.created + [Creation(key, service)];
    assert created[|factory.created|] in created;
    forall k | k in factory.emitted
      ensures exists creation :: creation in created && creation.key == k
    {
      var creation :| creation in factory.created && creation.key == k;
      assert creation in created;
    }
  }

  lemma CreateOnce(factory: Factory, candidate: Service)
    requires CreatedOnce(factory)
    ensures CreatedOnce(TryCreate(factory, candidate))
  {
    hide Connectable, Merge, IsShellyService, Key;
    var key := Key(candidate);
    var merged := Merge(Found(factory, key), candidate);
    if key !in factory.emitted && Connectable(merged) {
      CreationAdds(factory.(discovered := factory.discovered[key := merged]), key, merged);
    }
  }

  /** Each device is created at most once, and only when it can be connected to. */
  lemma {:induction false} EachCreatedOnce(candidates: seq<Service>)
    ensures CreatedOnce(After(candidates))
    decreases |candidates|
  {
    if candidates != [] {
      EachCreatedOnce(candidates[..|candidates| - 1]);
      CreateOnce(After(candidates[..|candidates| - 1]), candidates[|candidates| - 1]);
    }
  }

  lemma SameSayings(first: seq<Service>, second: seq<Service>, key: string, service: Service)
    requires forall c :: c in first <==> c in second
    ensures Mentioned(first, key) <==> Mentioned(second, key)
    ensures Tells(service, first, key) <==> Tells(service, second, key)
  {
  }

  /** Two services that the same candidates tell have the same addresses and time to live. */
  lemma TellsDetermines(one: Service, other: Service, candidates: seq<Service>, key: string)
    requires Tells(one, candidates, key) && Tells(other, candidates, key)
    ensures one.addresses == other.addresses && one.ttl == other.ttl
    ensures Connectable(one) <==> Connectable(other)
  {
    hide HasHostname, HasPort, HasAddress, Ascending;
    AscendingIsDetermined(one.addresses, other.addresses);
  }

  /**
   * The order of the candidates does not matter to which devices are created, nor to the addresses
   * and times to live gathered: the same candidates, in any order and any number, give the same.
   */
  lemma OrderDoesNotMatter(first: seq<Service>, second: seq<Service>)
    requires forall c :: c in first <==> c in second
    ensures After(first).emitted == After(second).emitted
    ensures After(first).discovered.Keys == After(second).discovered.Keys
    ensures forall key :: key in After(first).discovered && key in After(second).discovered ==>
              && After(first).discovered[key].addresses == After(second).discovered[key].addresses
              && After(first).discovered[key].ttl == After(second).discovered[key].ttl
  {
    forall key
      ensures key in After(first).discovered <==> key in After(second).discovered
      ensures key in After(first).emitted <==> key in After(second).emitted
      ensures key in After(first).discovered && key in After(second).discovered ==>
                && After(first).discovered[key].addresses == After(second).discovered[key].addresses
                && After(first).discovered[key].ttl == After(second).discovered[key].ttl
    {
      OneKey(first, second, key);
    }
  }

  lemma OneKey(first: seq<Service>, second: seq<Service>, key: string)
    requires forall c :: c in first <==> c in second
    ensures key in After(first).discovered <==> key in After(second).discovered
    ensures key in After(first).emitted <==> key in After(second).emitted
    ensures key in After(first).discovered && key in After(second).discovered ==>
              && After(first).discovered[key].addresses == After(second).discovered[key].addresses
              && After(first).discovered[key].ttl == After(second).discovered[key].ttl
  {
    hide After, Tells, Mentioned, Connectable;
    AfterDescribes(first, key);
    AfterDescribes(second, key);
    SameSayings(first, second, key, BlankService);
    if key in After(first).discovered && key in After(second).discovered {
      SameSayings(first, second, key, After(second).discovered[key]);
      TellsDetermines(After(first).discovered[key], After(second).discovered[key], first, key);
    }
  }

  // What does depend on the order: the last candidate to say it decides

  function LastWithHostname(candidates: seq<Service>, key: string): Option<Service> {
    if candidates == [] then None
    else
      var last := candidates[|candidates| - 1];
      if About(last, key) && last.hostname != "" then Some(last) else LastWithHostname(candidates[..|candidates| - 1], key)
  }

  function LastWithPort(candidates: seq<Service>, key: string): Option<Service> {
    if candidates == [] then None
    else
      var last := candidates[|candidates| - 1];
      if About(last, key) && last.port != 0 then Some(last) else LastWithPort(candidates[..|candidates| - 1], key)
  }

  function LastTxt(candidates: seq<Service>, key: string, name: string): Option<string> {
    if candidates == [] then None
    else
      var last := candidates[|candidates| - 1];
      if About(last, key) && name in last.txt then Some(last.txt[name]) else LastTxt(candidates[..|candidates| - 1], key, name)
  }

  /** The first candidate of the Shelly type, or else the first of the other type. */
  function NamedBy(candidates: seq<Service>, key: string): Option<Service> {
    if candidates == [] then None
    else
      var named, last := NamedBy(candidates[..|candidates| - 1], key), candidates[|candidates| - 1];
      if !About(last, key) then named
      else if named.None? || (Lower(last.serviceType) == SHELLY_TYPE && Lower(named.value.serviceType) != SHELLY_TYPE)
      then Some(last) else named
  }

  ghost predicate RecallsHost(service: Service, candidates: seq<Service>, key: string) {
    match LastWithHostname(candidates, key)
    case Some(c) => service.hostname == c.hostname
    case None => service.hostname == ""
  }

  ghost predicate RecallsPort(service: Service, candidates: seq<Service>, key: string) {
    match LastWithPort(candidates, key)
    case Some(c) => service.port == c.port && service.priority == c.priority && service.weight == c.weight
    case None => service.port == service.priority == service.weight == 0
  }

  ghost predicate RecallsTxt(service: Service, candidates: seq<Service>, key: string, name: string) {
    (if name in service.txt then Some(service.txt[name]) else None) == LastTxt(candidates, key, name)
  }

  ghost predicate RecallsName(service: Service, candidates: seq<Service>, key: string) {
    match NamedBy(candidates, key)
    case Some(c) => service.serviceType == c.serviceType != "" && service.instanceName == c.instanceName
    case None => service.serviceType == service.instanceName == ""
  }

  ghost predicate Recalls(service: Service, candidates: seq<Service>, key: string, name: string) {
    && RecallsHost(service, candidates, key)
    && RecallsPort(service, candidates, key)
    && RecallsTxt(service, candidates, key, name)
    && RecallsName(service, candidates, key)
  }

  lemma MergeRecallsName(service: Service, candidates: seq<Service>, key: string)
    requires candidates != [] && About(candidates[|candidates| - 1], key)
    requires RecallsName(service, candidates[..|candidates| - 1], key)
    ensures RecallsName(Merge(service, candidates[|candidates| - 1]), candidates, key)
  {
    hide MergedAddresses, Key;
    assert |candidates[|candidates| - 1].serviceType| == |Lower(candidates[|candidates| - 1].serviceType)| > 0;
  }

  lemma MergeRecalls(service: Service, candidates: seq<Service>, key: string, name: string)
    requires candidates != [] && About(candidates[|candidates| - 1], key)
    requires Recalls(service, candidates[..|candidates| - 1], key, name)
    ensures Recalls(Merge(service, candidates[|candidates| - 1]), candidates, key, name)
  {
    MergeRecallsName(service, candidates, key);
    hide MergedAddresses, About, Lower, RecallsName;
  }

  lemma OtherRecalls(service: Service, candidates: seq<Service>, key: string, name: string)
    requires candidates != [] && !About(candidates[|candidates| - 1], key)
    requires Recalls(service, candidates[..|candidates| - 1], key, name)
    ensures Recalls(service, candidates, key, name)
  {
    hide About, Lower;
  }

  lemma RecallsNothing(key: string, name: string)
    ensures Recalls(BlankService, [], key, name)
  {
  }

  /**
   * Host, port with priority and weight, and each text entry are those of the last candidate that
   * has them; type and name are those of the first candidate of the Shelly type, or of the first.
   */
  lemma {:induction false} LastCandidateDecides(candidates: seq<Service>, key: string, name: string)
    ensures Recalls(Found(After(candidates), key), candidates, key, name)
    decreases |candidates|
  {
    if candidates == [] {
      RecallsNothing(key, name);
    } else {
      hide Recalls, Merge, IsShellyService, Connectable, Key;
      var front, last := candidates[..|candidates| - 1], candidates[|candidates| - 1];
      LastCandidateDecides(front, key, name);
      if About(last, key) {
        MergeRecalls(Found(After(front), key), candidates, key, name);
      } else {
        OtherRecalls(Found(After(front), key), candidates, key, name);
      }
    }
  }
}
