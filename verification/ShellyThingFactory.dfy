/** The factory as the program keeps it: merged candidates by key, and the keys already created. */
module ShellyThingFactoryModel {
  import opened Bytes
  import opened Names
  import opened Services
  import opened ShellyMerge

  class ShellyThingFactory {
    var discovered: map<string, Service>
    var emitted: set<string>
    /** All things created so far. */
    var created: seq<Creation>

    ghost function Abstract(): Factory
      reads this
    {
      Factory(discovered, emitted, created)
    }

    constructor ()
      ensures Abstract() == Empty
    {
      discovered, emitted, created := map[], {}, [];
    }

    method TryCreate(candidate: Service) returns (thing: Option<Service>)
      modifies this
      ensures Abstract() == ShellyMerge.TryCreate(old(Abstract()), candidate)
      ensures thing.Some? <==> |created| == |old(created)| + 1
      ensures thing.Some? ==> created == old(created) + [Creation(Key(candidate), thing.value)]
    {
      hide IsShellyService, Key, Merge, Connectable;
      if !IsShellyService(candidate) {
        return None;
      }
      var key := Key(candidate);
      if key !in discovered {
        discovered := discovered[key := BlankService];
      }
      var merged := MergeService(discovered[key], candidate);
      discovered := discovered[key := merged];
      if key in emitted || !Connectable(merged) {
        return None;
      }
      emitted := emitted + {key};
      created := created + [Creation(key, merged)];
      return Some(merged);
    }

    static method MergeService(target: Service, source: Service) returns (merged: Service)
      ensures merged == Merge(target, source)
    {
      merged := target;
      var sourceIsShelly := Lower(source.serviceType) == SHELLY_TYPE;
      var targetIsShelly := Lower(target.serviceType) == SHELLY_TYPE;
      if target.serviceType == "" || (sourceIsShelly && !targetIsShelly) {
        merged := merged.(serviceType := source.serviceType, instanceName := source.instanceName);
      }
      if source.hostname != "" {
        merged := merged.(hostname := source.hostname);
      }
      if source.port != 0 {
        merged := merged.(port := source.port, priority := source.priority, weight := source.weight);
      }
      var addresses := MergeAddresses(target.addresses, source.addresses);
      merged := merged.(addresses := addresses, txt := merged.txt + source.txt, ttl := Max(merged.ttl, source.ttl));
    }
  }
}
