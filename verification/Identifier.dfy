/**
 * One identification as the program keeps it: an exchange that collects a response, and an
 * identifier that pages through the objects, falls back to a register read and reports once.
 */
module IdentifierModel {
  import opened Bytes
  import opened Identification

  class TcpExchange {
    var response: seq<byte>
    var finished: bool
    /** What the result callback has been given: a response, or nothing for an error. */
    var results: seq<Option<seq<byte>>>

    ghost predicate Valid()
      reads this
    {
      && |results| == (if finished then 1 else 0)
      && (!finished ==> Partial(response))
    }

    /** What has been received so far, in the terms of `Feed`. */
    ghost function Received(): Reception
      reads this
      requires Valid()
    {
      if !finished then Collecting(response)
      else if results[0].Some? then Reception.Received(results[0].value) else Refused
    }

    constructor ()
      ensures Valid() && !finished && response == []
    {
      response, finished, results := [], false, [];
    }

    method OnData(bytes: seq<byte>)
      requires Valid()
      modifies this
      ensures Valid() && Received() == Feed(old(Received()), bytes)
    {
      if finished {
        return;
      }
      response := response + bytes;
      if |response| < 7 {
        return;
      }
      var bodyLength := ReadU16(response[4], response[5]);
      if bodyLength < 2 || bodyLength - 1 > 253 {
        Finish(None);
        return;
      }
      var expected := 6 + bodyLength;
      if |response| < expected {
        return;
      }
      if |response| != expected {
        Finish(None);
        return;
      }
      Finish(Some(response));
    }

    /** Also called when the connection fails, the write fails, the time is up or a stop comes. */
    method Finish(result: Option<seq<byte>>)
      requires |results| == if finished then 1 else 0
      modifies `finished, `results
      ensures finished && results == if old(finished) then old(results) else [result]
    {
      if finished {
        return;
      }
      finished := true;
      results := results + [result];
    }
  }

  class Identifier {
    const unitId: byte
    var thing: Thing
    var transactionId: u16
    var objectId: byte
    var page: nat
    var finished: bool
    /** The exchange under way, by what it asks for. */
    var exchange: Waiting
    var hasResult: bool

    // The exchanges started and what the callback has been given
    var queries: seq<Query>
    var reports: seq<Option<Thing>>

    ghost function Abstract(): State
      reads this
    {
      State(exchange, thing, transactionId, objectId, page, finished, queries, reports)
    }

    /** The callback is there until it has been called or dropped. */
    ghost predicate Valid()
      reads this
    {
      Invariant(Abstract()) && (hasResult <==> !finished)
    }

    constructor (unitId: byte)
      ensures Valid() && Abstract() == Initial && this.unitId == unitId
    {
      this.unitId := unitId;
      thing, transactionId, objectId, page, finished := Unknown, 1, 0, 0, false;
      exchange, hasResult, queries, reports := Nothing, true, [], [];
    }

    method Start()
      requires Valid() && queries == [] && !finished
      modifies this
      ensures Valid() && Abstract() == Step(unitId, old(Abstract()), Identification.Start)
    {
      StepKeepsInvariant(unitId, Abstract(), Identification.Start);
      RequestMei();
    }

    method Cancel()
      requires Valid()
      modifies this
      ensures Valid() && Abstract() == Step(unitId, old(Abstract()), Identification.Cancel)
    {
      finished := true;
      hasResult := false;
    }

    method RequestMei()
      modifies `exchange, `queries
      ensures Abstract() == RequestPage(old(Abstract()))
    {
      exchange := Page;
      queries := queries + [DeviceId(transactionId, objectId)];
    }

    method RequestRegister()
      modifies `exchange, `queries
      ensures Abstract() == RequestFallback(old(Abstract()))
    {
      exchange := Register;
      queries := queries + [FirstRegister];
    }

    method OnMei(response: Option<seq<byte>>)
      requires Valid() && exchange.Page?
      modifies this
      ensures Valid() && Abstract() == Step(unitId, old(Abstract()), Answer(response))
    {
      hide Invariant, ParseObjects, Get;
      StepKeepsInvariant(unitId, Abstract(), Answer(response));
      exchange := Nothing;
      if finished {
        return;
      }
      if response.None? || !ValidEnvelope(response.value, transactionId, unitId) {
        RequestRegister();
        return;
      }
      OnMeiPdu(response.value[7..]);
    }

    method OnMeiPdu(pdu: seq<byte>)
      requires pdu != [] && !finished && hasResult && Invariant(OnPagePdu(Abstract(), pdu))
      modifies this
      ensures Valid() && Abstract() == OnPagePdu(old(Abstract()), pdu)
    {
      hide Invariant, ParseObjects, Get;
      if pdu[0] == 0xab {
        thing := thing.(exceptionCode := if |pdu| > 1 then Some(pdu[1]) else None);
        Complete(Some(thing));
        return;
      }
      if |pdu| < 7 || pdu[0] != 0x2b || pdu[1] != 0x0e {
        RequestRegister();
        return;
      }
      thing := thing.(hasDeviceIdentification := true);
      var moreFollows, nextObjectId := pdu[4] != 0, pdu[5];
      var complete := ReadObjects(pdu);
      if !complete {
        RequestRegister();
        return;
      }
      if moreFollows && nextObjectId != objectId && page < 7 {
        objectId := nextObjectId;
        transactionId := (transactionId + 1) % 0x1_0000;
        page := page + 1;
        RequestMei();
        return;
      }
      NameThing();
      Complete(Some(thing));
    }

    /** The object loop; false when an object does not fit the reply. */
    method ReadObjects(pdu: seq<byte>) returns (complete: bool)
      requires |pdu| >= 7
      modifies `thing
      ensures Parsed(complete, thing.objects) == ParseObjects(pdu, 7, pdu[6], old(thing.objects))
      ensures thing == old(thing).(objects := thing.objects)
    {
      var objectCount := pdu[6];
      var offset := 7;
      for index := 0 to objectCount
        invariant 7 <= offset <= |pdu|
        invariant thing == old(thing).(objects := thing.objects)
        invariant ParseObjects(pdu, 7, objectCount, old(thing.objects))
               == ParseObjects(pdu, offset, objectCount - index, thing.objects)
      {
        if offset + 2 > |pdu| {
          return false;
        }
        var currentObjectId := pdu[offset];
        var objectLength := pdu[offset + 1];
        offset := offset + 2;
        if offset + objectLength > |pdu| {
          return false;
        }
        thing := thing.(objects := thing.objects[currentObjectId := pdu[offset..offset + objectLength]]);
        offset := offset + objectLength;
      }
      return true;
    }

    method NameThing()
      modifies `thing
      ensures thing == Named(old(thing))
    {
      var objects := thing.objects;
      if 0 in objects {
        thing := thing.(vendorName := objects[0]);
      }
      if 1 in objects {
        thing := thing.(productCode := objects[1]);
      }
      if 2 in objects {
        thing := thing.(revision := objects[2]);
      }
    }

    method OnFallback(response: Option<seq<byte>>)
      requires Valid() && exchange.Register?
      modifies this
      ensures Valid() && Abstract() == Step(unitId, old(Abstract()), Answer(response))
    {
      hide Invariant;
      StepKeepsInvariant(unitId, Abstract(), Answer(response));
      exchange := Nothing;
      if finished {
        return;
      }
      if response.None? || !ValidEnvelope(response.value, 1, unitId) {
        Complete(None);
        return;
      }
      var pdu := response.value[7..];
      if pdu[0] == 3 {
        Complete(Some(thing));
        return;
      }
      if pdu[0] == 0x83 && |pdu| >= 2 {
        thing := thing.(exceptionCode := Some(pdu[1]));
        Complete(Some(thing));
        return;
      }
      Complete(None);
    }

    method Complete(found: Option<Thing>)
      requires hasResult <==> !finished
      modifies `finished, `hasResult, `reports
      ensures Abstract() == Identification.Complete(old(Abstract()), found)
      ensures hasResult <==> !finished
    {
      if finished {
        return;
      }
      finished := true;
      if hasResult {
        reports := reports + [found];
      }
      hasResult := false;
    }
  }
}
