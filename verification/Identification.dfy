/**
 * Asking a Modbus unit who it is: device identification objects, read page by page (section 6.21
 * of the MODBUS Application Protocol Specification V1.1b3), with a register read as the fallback.
 */
module Identification {
  import opened Bytes

  // Objects and their encoding

  datatype Object = Object(id: byte, value: seq<byte>)

  type Objects = map<byte, seq<byte>>

  datatype Parsed = Parsed(complete: bool, objects: Objects)

  /** `count` objects from `offset` on, on top of those found before; what precedes a cut stays. */
  function ParseObjects(pdu: seq<byte>, offset: nat, count: nat, found: Objects): Parsed
    requires offset <= |pdu|
    decreases count
  {
    if count == 0 then
      Parsed(true, found)
    else if offset + 2 > |pdu| || offset + 2 + pdu[offset + 1] > |pdu| then
      Parsed(false, found)
    else
      var end := offset + 2 + pdu[offset + 1];
      ParseObjects(pdu, end, count - 1, found[pdu[offset] := pdu[offset + 2..end]])
  }

  ghost predicate Encodable(objects: seq<Object>) {
    forall i :: 0 <= i < |objects| ==> |objects[i].value| < 0x100
  }

  function EncodeObjects(objects: seq<Object>): seq<byte>
    requires forall i :: 0 <= i < |objects| ==> |objects[i].value| < 0x100
  {
    if objects == [] then []
    else [objects[0].id, |objects[0].value|] + objects[0].value + EncodeObjects(objects[1..])
  }

  function LastWins(found: Objects, objects: seq<Object>): Objects
    decreases |objects|
  {
    if objects == [] then found else LastWins(found[objects[0].id := objects[0].value], objects[1..])
  }

  /** Of the objects with one id the last decides. */
  lemma {:induction false} LastDecides(found: Objects, objects: seq<Object>, k: nat)
    requires k < |objects| && forall i :: k < i < |objects| ==> objects[i].id != objects[k].id
    ensures objects[k].id in LastWins(found, objects) && LastWins(found, objects)[objects[k].id] == objects[k].value
    decreases |objects|
  {
    if k > 0 {
      LastDecides(found[objects[0].id := objects[0].value], objects[1..], k - 1);
    } else {
      OthersStay(found[objects[0].id := objects[0].value], objects[1..], objects[0].id);
    }
  }

  lemma {:induction false} OthersStay(found: Objects, objects: seq<Object>, id: byte)
    requires forall i :: 0 <= i < |objects| ==> objects[i].id != id
    ensures id in LastWins(found, objects) <==> id in found
    ensures id in found ==> LastWins(found, objects)[id] == found[id]
    decreases |objects|
  {
    if objects != [] {
      OthersStay(found[objects[0].id := objects[0].value], objects[1..], id);
    }
  }

  lemma {:induction false} LastWinsAppend(found: Objects, first: seq<Object>, second: seq<Object>)
    ensures LastWins(found, first + second) == LastWins(LastWins(found, first), second)
    decreases |first|
  {
    if first == [] {
      assert first + second == second;
    } else {
      assert (first + second)[1..] == first[1..] + second;
      LastWinsAppend(found[first[0].id := first[0].value], first[1..], second);
    }
  }

  lemma StartsWithFirst(tail: seq<byte>, header: seq<byte>, value: seq<byte>, rest: seq<byte>)
    requires |header| == 2 && header + value + rest <= tail
    ensures |tail| >= 2 + |value| && tail[0] == header[0] && tail[1] == header[1]
    ensures tail[2..2 + |value|] == value && rest <= tail[2 + |value|..]
  {
    var all := header + value + rest;
    assert tail[..|all|] == all;
    assert tail[2..2 + |value|] == all[2..2 + |value|];
    assert tail[2 + |value|..|all|] == all[2 + |value|..];
  }

  /** An object standing at `offset` is taken into what has been found, and parsing goes on behind it. */
  lemma FirstIsParsed(pdu: seq<byte>, offset: nat, first: Object, rest: seq<byte>, count: nat, found: Objects)
    requires offset <= |pdu| && |first.value| < 0x100
    requires [first.id, |first.value|] + first.value + rest <= pdu[offset..]
    ensures var end := offset + 2 + |first.value|;
            && end <= |pdu| && rest <= pdu[end..]
            && ParseObjects(pdu, offset, count + 1, found) == ParseObjects(pdu, end, count, found[first.id := first.value])
  {
    var tail, end := pdu[offset..], offset + 2 + |first.value|;
    StartsWithFirst(tail, [first.id, |first.value|], first.value, rest);
    assert pdu[offset] == tail[0] && pdu[offset + 1] == tail[1];
    assert pdu[offset + 2..end] == tail[2..2 + |first.value|];
    assert pdu[end..] == tail[2 + |first.value|..];
  }

  /** Whatever stands around them, encoded objects are parsed back, the last of an id winning. */
  lemma {:induction false} EncodedIsParsed(pdu: seq<byte>, offset: nat, objects: seq<Object>, found: Objects)
    requires Encodable(objects) && offset <= |pdu|
    requires EncodeObjects(objects) <= pdu[offset..]
    ensures ParseObjects(pdu, offset, |objects|, found) == Parsed(true, LastWins(found, objects))
    decreases |objects|
  {
    if objects != [] {
      hide ParseObjects;
      var first, rest := objects[0], objects[1..];
      FirstIsParsed(pdu, offset, first, EncodeObjects(rest), |rest|, found);
      EncodedIsParsed(pdu, offset + 2 + |first.value|, rest, found[first.id := first.value]);
    }
  }

  /** Only encoded objects are parsed in full. */
  lemma {:induction false} ParsedIsEncoded(pdu: seq<byte>, offset: nat, count: nat, found: Objects) returns (objects: seq<Object>)
    requires offset <= |pdu| && ParseObjects(pdu, offset, count, found).complete
    ensures |objects| == count && Encodable(objects) && EncodeObjects(objects) <= pdu[offset..]
    decreases count
  {
    if count == 0 {
      objects := [];
    } else {
      var end := offset + 2 + pdu[offset + 1];
      var first := Object(pdu[offset], pdu[offset + 2..end]);
      var rest := ParsedIsEncoded(pdu, end, count - 1, found[first.id := first.value]);
      objects := [first] + rest;
      assert objects[1..] == rest;
      assert pdu[offset..] == [first.id, |first.value|] + first.value + pdu[end..];
    }
  }

  /** A list of objects is accepted exactly when it is the encoding of that many objects, and more. */
  lemma ParsingIsExact(pdu: seq<byte>, offset: nat, count: nat, found: Objects)
    requires offset <= |pdu|
    ensures ParseObjects(pdu, offset, count, found).complete
       <==> exists objects :: |objects| == count && Encodable(objects) && EncodeObjects(objects) <= pdu[offset..]
    ensures forall objects :: |objects| == count && Encodable(objects) && EncodeObjects(objects) <= pdu[offset..] ==>
              ParseObjects(pdu, offset, count, found).objects == LastWins(found, objects)
  {
    forall objects | |objects| == count && Encodable(objects) && EncodeObjects(objects) <= pdu[offset..]
      ensures ParseObjects(pdu, offset, count, found) == Parsed(true, LastWins(found, objects))
    {
      EncodedIsParsed(pdu, offset, objects, found);
    }
    if ParseObjects(pdu, offset, count, found).complete {
      var objects := ParsedIsEncoded(pdu, offset, count, found);
    }
  }

  // Frames

  const ENCAPSULATED: byte := 0x2b
  const READ_DEVICE_ID: byte := 0x0e
  const MAX_PDU: nat := 253

  function FrameOf(transaction: u16, unit: byte, pdu: seq<byte>): seq<byte>
    requires 1 <= |pdu| <= MAX_PDU
  {
    [High(transaction), Low(transaction), 0, 0, 0, |pdu| + 1, unit] + pdu
  }

  /** The reply that carries these objects and says whether more follow, from which id on. */
  function PagePdu(more: bool, next: byte, objects: seq<Object>): seq<byte>
    requires |objects| < 0x100 && forall i :: 0 <= i < |objects| ==> |objects[i].value| < 0x100
  {
    [ENCAPSULATED, READ_DEVICE_ID, 1, 1, if more then 0xff else 0, next, |objects|] + EncodeObjects(objects)
  }

  predicate ValidEnvelope(response: seq<byte>, transaction: u16, unit: byte) {
    && |response| >= 8
    && ReadU16(response[0], response[1]) == transaction
    && ReadU16(response[2], response[3]) == 0 && response[6] == unit
  }

  // The identifier

  datatype Thing = Thing(
    objects: Objects,
    hasDeviceIdentification: bool,
    exceptionCode: Option<byte>,
    vendorName: seq<byte>,
    productCode: seq<byte>,
    revision: seq<byte>)

  datatype Query = DeviceId(transaction: u16, objectId: byte) | FirstRegister

  datatype Waiting = Nothing | Page | Register

  /** `queries` are the exchanges started, `reports` what the callback has been given. */
  datatype State = State(
    waiting: Waiting,
    thing: Thing,
    transaction: u16,
    objectId: byte,
    page: nat,
    finished: bool,
    queries: seq<Query>,
    reports: seq<Option<Thing>>)

  const Unknown := Thing(map[], false, None, [], [], [])

  const Initial := State(Nothing, Unknown, 1, 0, 0, false, [], [])

  /** The end of an exchange comes with a response or, for an error, without. */
  datatype Event = Start | Answer(response: Option<seq<byte>>) | Cancel

  function Get(objects: Objects, id: byte, default: seq<byte>): seq<byte> {
    if id in objects then objects[id] else default
  }

  function Named(thing: Thing): Thing {
    thing.(
      vendorName := Get(thing.objects, 0, thing.vendorName),
      productCode := Get(thing.objects, 1, thing.productCode),
      revision := Get(thing.objects, 2, thing.revision))
  }

  function RequestPage(s: State): State {
    s.(waiting := Page, queries := s.queries + [DeviceId(s.transaction, s.objectId)])
  }

  function RequestFallback(s: State): State {
    s.(waiting := Register, queries := s.queries + [FirstRegister])
  }

  function Complete(s: State, thing: Option<Thing>): State {
    if s.finished then s else s.(finished := true, reports := s.reports + [thing])
  }

  function OnPage(unit: byte, s: State, response: Option<seq<byte>>): State {
    var idle := s.(waiting := Nothing);
    if s.finished then
      idle
    else if response.None? || !ValidEnvelope(response.value, s.transaction, unit) then
      RequestFallback(idle)
    else
      OnPagePdu(idle, response.value[7..])
  }

  function OnPagePdu(s: State, pdu: seq<byte>): State
    requires pdu != []
  {
    if pdu[0] == 0xab then
      var thing := s.thing.(exceptionCode := if |pdu| > 1 then Some(pdu[1]) else None);
      Complete(s.(thing := thing), Some(thing))
    else if |pdu| < 7 || pdu[0] != ENCAPSULATED || pdu[1] != READ_DEVICE_ID then
      RequestFallback(s)
    else
      var parsed := ParseObjects(pdu, 7, pdu[6], s.thing.objects);
      var marked := s.(thing := s.thing.(hasDeviceIdentification := true, objects := parsed.objects));
      if !parsed.complete then RequestFallback(marked)
      else if pdu[4] != 0 && pdu[5] != s.objectId && s.page < 7 then NextPage(marked, pdu[5])
      else Complete(marked.(thing := Named(marked.thing)), Some(Named(marked.thing)))
  }

  function NextPage(s: State, next: byte): State {
    RequestPage(s.(objectId := next, transaction := (s.transaction + 1) % 0x1_0000, page := s.page + 1))
  }

  function OnRegister(unit: byte, s: State, response: Option<seq<byte>>): State {
    var idle := s.(waiting := Nothing);
    if s.finished then
      idle
    else if response.None? || !ValidEnvelope(response.value, 1, unit) then
      Complete(idle, None)
    else
      var pdu := response.value[7..];
      if pdu[0] == 3 then
        Complete(idle, Some(s.thing))
      else if pdu[0] == 0x83 && |pdu| >= 2 then
        var thing := s.thing.(exceptionCode := Some(pdu[1]));
        Complete(idle.(thing := thing), Some(thing))
      else
        Complete(idle, None)
  }

  function Step(unit: byte, s: State, event: Event): State {
    match event
    case Start =>
      if s.queries == [] && !s.finished then RequestPage(s) else s
    case Answer(response) =>
      (match s.waiting
       case Nothing => s
       case Page => OnPage(unit, s, response)
       case Register => OnRegister(unit, s, response))
    case Cancel =>
      s.(finished := true)
  }

  function Run(unit: byte, s: State, events: seq<Event>): State
    decreases |events|
  {
    if events == [] then s else Run(unit, Step(unit, s, events[0]), events[1..])
  }

  // What every run keeps

  /** Pages are asked for under transactions 1, 2, ... and from changing ids; the fallback is last. */
  ghost predicate QueriesFit(s: State) {
    && |s.queries| <= 9
    && (forall i :: 0 <= i < |s.queries| && s.queries[i].FirstRegister? ==> i == |s.queries| - 1)
    && (forall i :: 0 <= i < |s.queries| && s.queries[i].DeviceId? ==> i < 8 && s.queries[i].transaction == i + 1)
    && (forall i, j :: 0 <= i && j == i + 1 && j < |s.queries| && s.queries[j].DeviceId? ==>
          s.queries[i].DeviceId? && s.queries[i].objectId != s.queries[j].objectId)
    && (s.queries != [] && s.queries[0].DeviceId? ==> s.queries[0].objectId == 0)
  }

  ghost predicate Invariant(s: State) {
    && QueriesFit(s)
    && s.page <= 7 && s.transaction == s.page + 1
    && (s.queries == [] ==> s.waiting.Nothing? && s.page == 0 && s.objectId == 0 && s.reports == [])
    && (s.waiting.Page? ==>
          && |s.queries| == s.page + 1
          && s.queries[s.page] == DeviceId(s.transaction, s.objectId)
          && s.reports == [])
    && (s.waiting.Register? ==> s.queries != [] && s.queries[|s.queries| - 1].FirstRegister? && s.reports == [])
    && |s.reports| <= 1
    && (s.reports != [] ==> s.finished)
    && (s.queries != [] && s.waiting.Nothing? ==> s.finished)
  }

  /** A page has been answered; its reading is up next. */
  ghost predicate Answered(s: State) {
    && QueriesFit(s)
    && !s.finished && s.reports == [] && s.waiting.Nothing?
    && s.page <= 7 && s.transaction == s.page + 1
    && |s.queries| == s.page + 1 && s.queries[s.page] == DeviceId(s.transaction, s.objectId)
  }

  lemma FallbackKeepsInvariant(s: State)
    requires Answered(s)
    ensures Invariant(RequestFallback(s))
  {
  }

  lemma NextPageKeepsInvariant(s: State, next: byte)
    requires Answered(s) && s.page < 7 && next != s.objectId
    ensures Invariant(NextPage(s, next))
  {
  }

  lemma OnPagePduKeepsInvariant(s: State, pdu: seq<byte>)
    requires Answered(s) && pdu != []
    ensures Invariant(OnPagePdu(s, pdu))
  {
    hide ParseObjects, Get, QueriesFit, NextPage, RequestFallback;
    FallbackKeepsInvariant(s);
    if |pdu| >= 7 {
      var parsed := ParseObjects(pdu, 7, pdu[6], s.thing.objects);
      var marked := s.(thing := s.thing.(hasDeviceIdentification := true, objects := parsed.objects));
      SameQueries(s, marked);
      FallbackKeepsInvariant(marked);
      if pdu[5] != s.objectId && s.page < 7 {
        NextPageKeepsInvariant(marked, pdu[5]);
      }
      SameQueries(s, Complete(marked.(thing := Named(marked.thing)), Some(Named(marked.thing))));
    }
    var thing := s.thing.(exceptionCode := if |pdu| > 1 then Some(pdu[1]) else None);
    SameQueries(s, Complete(s.(thing := thing), Some(thing)));
  }

  lemma SameQueries(s: State, t: State)
    requires s.queries == t.queries
    ensures QueriesFit(s) <==> QueriesFit(t)
  {
  }

  lemma AnswerKeepsInvariant(unit: byte, s: State, response: Option<seq<byte>>)
    requires Invariant(s)
    ensures Invariant(Step(unit, s, Answer(response)))
  {
    hide OnPagePdu, QueriesFit, RequestFallback;
    var idle := s.(waiting := Nothing);
    SameQueries(s, idle);
    if s.waiting.Register? {
      SameQueries(s, Step(unit, s, Answer(response)));
    }
    if s.waiting.Page? && !s.finished {
      FallbackKeepsInvariant(idle);
      if response.Some? && ValidEnvelope(response.value, s.transaction, unit) {
        OnPagePduKeepsInvariant(idle, response.value[7..]);
      }
    }
  }

  lemma StepKeepsInvariant(unit: byte, s: State, event: Event)
    requires Invariant(s)
    ensures Invariant(Step(unit, s, event))
  {
    hide OnPage, OnRegister;
    if event.Answer? {
      AnswerKeepsInvariant(unit, s, event.response);
    }
  }

  lemma {:induction false} RunKeepsInvariant(unit: byte, s: State, events: seq<Event>)
    requires Invariant(s)
    ensures Invariant(Run(unit, s, events))
    decreases |events|
  {
    if events != [] {
      StepKeepsInvariant(unit, s, events[0]);
      RunKeepsInvariant(unit, Step(unit, s, events[0]), events[1..]);
    }
  }

  /** At most 8 pages and one register are asked for, and one report made. */
  lemma ExchangesAreBounded(unit: byte, events: seq<Event>)
    ensures var s := Run(unit, Initial, events);
            && QueriesFit(s) && |s.reports| <= 1
  {
    RunKeepsInvariant(unit, Initial, events);
  }

  /** The answers an identifier still waits for. */
  function AnswersLeft(s: State): int {
    match s.waiting
    case Nothing => 0
    case Page => 9 - s.page
    case Register => 1
  }

  lemma AnswerMakesProgress(unit: byte, s: State, response: Option<seq<byte>>)
    requires Invariant(s) && !s.waiting.Nothing? && !s.finished
    ensures var after := Step(unit, s, Answer(response));
            && AnswersLeft(after) < AnswersLeft(s)
            && (after.finished <==> after.waiting.Nothing?)
            && (after.finished ==> |after.reports| == 1)
  {
  }

  /** If it is not cancelled and its exchanges end, an identifier reports exactly once, after 9 answers at most. */
  lemma {:induction false} ReportsExactlyOnce(unit: byte, s: State, answers: seq<Option<seq<byte>>>)
    requires Invariant(s) && s.queries != [] && (s.finished ==> |s.reports| == 1)
    requires |answers| >= AnswersLeft(s)
    ensures |Run(unit, s, Answers(answers)).reports| == 1
    decreases |answers|
  {
    hide Step;
    if answers != [] {
      assert Answers(answers)[1..] == Answers(answers[1..]);
      StepKeepsInvariant(unit, s, Answer(answers[0]));
      if !s.finished {
        AnswerMakesProgress(unit, s, answers[0]);
      } else {
        FinishedStays(unit, s, answers[0]);
      }
      ReportsExactlyOnce(unit, Step(unit, s, Answer(answers[0])), answers[1..]);
    }
  }

  function Answers(answers: seq<Option<seq<byte>>>): seq<Event> {
    seq(|answers|, i requires 0 <= i < |answers| => Answer(answers[i]))
  }

  lemma FinishedStays(unit: byte, s: State, response: Option<seq<byte>>)
    requires s.finished
    ensures Step(unit, s, Answer(response)) == s.(waiting := Nothing)
  {
  }

  /** A cancelled identifier neither asks nor reports any more. */
  lemma {:induction false} CancelSilences(unit: byte, s: State, events: seq<Event>)
    requires s.finished
    ensures var after := Run(unit, s, events); after.reports == s.reports && after.queries == s.queries && after.finished
    decreases |events|
  {
    hide OnPagePdu;
    if events != [] {
      CancelSilences(unit, Step(unit, s, events[0]), events[1..]);
    }
  }

  /** Whatever comes behind a cancellation, nothing is asked for or reported any more. */
  lemma CancelIsFinal(unit: byte, events: seq<Event>, rest: seq<Event>)
    ensures var s, after := Run(unit, Initial, events), Run(unit, Initial, events + [Cancel] + rest);
            after.reports == s.reports && after.queries == s.queries
  {
    var s := Run(unit, Initial, events);
    RunAppend(unit, Initial, events + [Cancel], rest);
    RunAppend(unit, Initial, events, [Cancel]);
    assert [Cancel][1..] == [];
    assert Run(unit, s, [Cancel]) == Run(unit, Step(unit, s, Cancel), []) == Step(unit, s, Cancel);
    CancelSilences(unit, Step(unit, s, Cancel), rest);
  }

  // A device that tells its objects page by page

  datatype DevicePage = DevicePage(objects: seq<Object>, next: byte)

  predicate FitsPdu(page: DevicePage) {
    && |page.objects| < 0x100
    && (forall i :: 0 <= i < |page.objects| ==> |page.objects[i].value| < 0x100)
    && 7 + |EncodeObjects(page.objects)| <= MAX_PDU
  }

  predicate AllFit(pages: seq<DevicePage>) {
    forall i :: 0 <= i < |pages| ==> FitsPdu(pages[i])
  }

  /** Whether page number `number`, asked for by `id`, is followed by another request. */
  predicate GoesOn(number: nat, id: byte, pages: seq<DevicePage>)
    requires pages != []
  {
    |pages| > 1 && pages[0].next != id && number < 7
  }

  function PageFrame(unit: byte, number: nat, page: DevicePage, more: bool): seq<byte>
    requires number <= 7 && FitsPdu(page)
  {
    FrameOf(number + 1, unit, PagePdu(more, page.next, page.objects))
  }

  /** The device's replies to the requests it gets. */
  function Conversation(unit: byte, number: nat, id: byte, pages: seq<DevicePage>): seq<Option<seq<byte>>>
    requires number <= 7 && pages != [] && AllFit(pages)
    decreases |pages|
  {
    var page := pages[0];
    [Some(PageFrame(unit, number, page, |pages| > 1))]
    + if GoesOn(number, id, pages) then Conversation(unit, number + 1, page.next, pages[1..]) else []
  }

  /** All objects of the pages asked for. */
  function Heard(number: nat, id: byte, pages: seq<DevicePage>): seq<Object>
    requires pages != []
    decreases |pages|
  {
    pages[0].objects + if GoesOn(number, id, pages) then Heard(number + 1, pages[0].next, pages[1..]) else []
  }

  function Known(objects: Objects, identified: bool): Thing {
    Thing(objects, identified, None, [], [], [])
  }

  lemma PageIsRead(unit: byte, s: State, page: DevicePage, more: bool)
    requires s.waiting.Page? && !s.finished && s.page <= 7 && s.transaction == s.page + 1 && FitsPdu(page)
    ensures var marked := s.(
              waiting := Nothing,
              thing := s.thing.(hasDeviceIdentification := true, objects := LastWins(s.thing.objects, page.objects)));
            Step(unit, s, Answer(Some(PageFrame(unit, s.page, page, more)))) ==
            if more && page.next != s.objectId && s.page < 7 then NextPage(marked, page.next)
            else Complete(marked.(thing := Named(marked.thing)), Some(Named(marked.thing)))
  {
    hide EncodeObjects, NextPage, Get, LastWins, ParseObjects;
    var pdu := PagePdu(more, page.next, page.objects);
    var frame := FrameOf(s.transaction, unit, pdu);
    assert frame[7..] == pdu;
    assert ValidEnvelope(frame, s.transaction, unit);
    assert EncodeObjects(page.objects) <= pdu[7..];
    EncodedIsParsed(pdu, 7, page.objects, s.thing.objects);
  }

  lemma {:induction false} PagesAreRead(unit: byte, s: State, pages: seq<DevicePage>, identified: bool)
    requires pages != [] && AllFit(pages)
    requires s.waiting.Page? && !s.finished && s.reports == [] && s.page <= 7 && s.transaction == s.page + 1
    requires s.thing == Known(s.thing.objects, identified)
    ensures Run(unit, s, Answers(Conversation(unit, s.page, s.objectId, pages))).reports
         == [Some(Named(Known(LastWins(s.thing.objects, Heard(s.page, s.objectId, pages)), true)))]
    decreases |pages|
  {
    hide Step, Named, LastWins, FitsPdu, PageFrame;
    var page := pages[0];
    var first := Some(PageFrame(unit, s.page, page, |pages| > 1));
    PageIsRead(unit, s, page, |pages| > 1);
    var next := Step(unit, s, Answer(first));
    var conversation := Conversation(unit, s.page, s.objectId, pages);
    assert Answers(conversation)[0] == Answer(first);
    assert Answers(conversation)[1..] == Answers(conversation[1..]);
    if GoesOn(s.page, s.objectId, pages) {
      var rest := pages[1..];
      assert conversation[1..] == Conversation(unit, s.page + 1, page.next, rest);
      PagesAreRead(unit, next, rest, true);
      LastWinsAppend(s.thing.objects, page.objects, Heard(s.page + 1, page.next, rest));
    } else {
      assert conversation[1..] == [] && page.objects + [] == page.objects;
      assert Run(unit, next, Answers([])) == next;
    }
  }

  /**
   * An identifier reports once, exactly the objects of the pages it asked for, the last of an id
   * winning, and names the device by its objects 0, 1 and 2.
   */
  lemma IdentificationReadsPages(unit: byte, pages: seq<DevicePage>)
    requires pages != [] && AllFit(pages)
    ensures var objects := LastWins(map[], Heard(0, 0, pages));
            Run(unit, Initial, [Start] + Answers(Conversation(unit, 0, 0, pages))).reports ==
            [Some(Thing(
              objects, true, None,
              if 0 in objects then objects[0] else [],
              if 1 in objects then objects[1] else [],
              if 2 in objects then objects[2] else []))]
  {
    var events := [Start] + Answers(Conversation(unit, 0, 0, pages));
    assert events[1..] == Answers(Conversation(unit, 0, 0, pages));
    PagesAreRead(unit, Step(unit, Initial, Start), pages, false);
  }

  // The fallback

  /** A reply to the exchange under a transaction, from the unit asked, byte by byte. */
  predicate Replies(response: Option<seq<byte>>, transaction: byte, unit: byte) {
    && response.Some? && |response.value| >= 8
    && response.value[0] == 0 && response.value[1] == transaction
    && response.value[2] == 0 && response.value[3] == 0
    && response.value[6] == unit
  }

  /** What the answer to the register request makes of what was found before it. */
  function FallbackReport(unit: byte, found: Thing, response: Option<seq<byte>>): Option<Thing> {
    if Replies(response, 1, unit) && response.value[7] == 0x03 then
      Some(found)
    else if Replies(response, 1, unit) && response.value[7] == 0x83 && |response.value| > 8 then
      Some(found.(exceptionCode := Some(response.value[8])))
    else
      None
  }

  /**
   * An identifier that waits for the register reports a thing exactly if the unit replies with the
   * function or with its exception and a code; without a reply, or on any other, it reports none.
   */
  lemma FallbackReportsExactly(unit: byte, events: seq<Event>, response: Option<seq<byte>>)
    requires var s := Run(unit, Initial, events); s.waiting.Register? && !s.finished
    ensures var s := Run(unit, Initial, events);
            Step(unit, s, Answer(response)).reports == [FallbackReport(unit, s.thing, response)]
  {
    RunKeepsInvariant(unit, Initial, events);
    var s := Run(unit, Initial, events);
    hide Run, QueriesFit, ValidEnvelope, Replies, FallbackReport;
    assert s.reports == [];
    if response.Some? {
      EnvelopeBytes(response.value, 1, unit);
      RegisterReply(unit, s, response.value);
      RegisterReport(unit, s.thing, response.value);
    } else {
      NoReport(unit, s.thing);
    }
  }

  lemma RegisterReply(unit: byte, s: State, response: seq<byte>)
    requires s.waiting.Register? && !s.finished
    ensures var after := OnRegister(unit, s, Some(response)).reports;
            if ValidEnvelope(response, 1, unit) then after == s.reports + [PduReport(s.thing, response[7..])]
            else after == s.reports + [None]
  {
  }

  /** The report on the reply's unit of data. */
  function PduReport(found: Thing, pdu: seq<byte>): Option<Thing>
    requires pdu != []
  {
    if pdu[0] == 3 then Some(found)
    else if pdu[0] == 0x83 && |pdu| >= 2 then Some(found.(exceptionCode := Some(pdu[1])))
    else None
  }

  lemma PduReportByBytes(unit: byte, found: Thing, response: seq<byte>)
    requires Replies(Some(response), 1, unit)
    ensures FallbackReport(unit, found, Some(response)) == PduReport(found, response[7..])
  {
    SameBehindHeader(response);
    hide Replies;
  }

  lemma SameBehindHeader(response: seq<byte>)
    requires |response| >= 8
    ensures |response[7..]| == |response| - 7
    ensures response[7..][0] == response[7]
    ensures |response| > 8 ==> response[7..][1] == response[8]
  {
  }

  lemma RegisterReport(unit: byte, found: Thing, response: seq<byte>)
    ensures FallbackReport(unit, found, Some(response)) ==
            if Replies(Some(response), 1, unit) then PduReport(found, response[7..]) else None
  {
    if Replies(Some(response), 1, unit) {
      PduReportByBytes(unit, found, response);
    }
  }

  lemma NoReport(unit: byte, found: Thing)
    ensures FallbackReport(unit, found, None) == None
  {
  }

  lemma RepliesAreLong(response: seq<byte>, transaction: byte, unit: byte)
    ensures Replies(Some(response), transaction, unit) ==> |response| >= 8
  {
  }

  lemma EnvelopeBytes(response: seq<byte>, transaction: byte, unit: byte)
    ensures ValidEnvelope(response, transaction, unit) <==> Replies(Some(response), transaction, unit)
  {
  }

  /** No page: no reply under the transaction, or one of neither the interface transport nor its exception. */
  predicate NoPage(response: Option<seq<byte>>, transaction: byte, unit: byte) {
    || !Replies(response, transaction, unit)
    || (response.value[7] != 0xab
        && (|response.value| < 14 || response.value[7] != 0x2b || response.value[8] != 0x0e))
  }

  lemma NoPageFallsBack(unit: byte, s: State, response: Option<seq<byte>>)
    requires s.waiting.Page? && !s.finished && s.page <= 7 && s.transaction == s.page + 1
    requires NoPage(response, s.page + 1, unit)
    ensures Step(unit, s, Answer(response)) == s.(waiting := Register, queries := s.queries + [FirstRegister])
  {
    var idle := s.(waiting := Nothing);
    if response.Some? {
      EnvelopeBytes(response.value, s.page + 1, unit);
      RepliesAreLong(response.value, s.page + 1, unit);
      hide ValidEnvelope, Replies, OnPagePdu;
      if ValidEnvelope(response.value, s.transaction, unit) {
        var pdu := response.value[7..];
        assert pdu[0] == response.value[7] && (|pdu| >= 7 ==> pdu[1] == response.value[8]);
        NoPagePdu(idle, pdu);
      }
    }
  }

  lemma NoPagePdu(s: State, pdu: seq<byte>)
    requires pdu != [] && pdu[0] != 0xab && (|pdu| < 7 || pdu[0] != 0x2b || pdu[1] != 0x0e)
    ensures OnPagePdu(s, pdu) == RequestFallback(s)
  {
  }

  /** The exception of the interface transport is reported at once, with its code if there is one. */
  lemma ExceptionIsReported(unit: byte, s: State, response: seq<byte>, code: Option<byte>)
    requires s.waiting.Page? && !s.finished && s.page <= 7 && s.transaction == s.page + 1
    requires Replies(Some(response), s.page + 1, unit) && response[7] == 0xab
    requires code == if |response| > 8 then Some(response[8]) else None
    ensures Step(unit, s, Answer(Some(response))).reports == s.reports + [Some(s.thing.(exceptionCode := code))]
  {
    hide ValidEnvelope, Replies, OnPagePdu, Step;
    RepliesAreLong(response, s.page + 1, unit);
    EnvelopeBytes(response, s.page + 1, unit);
    SameBehindHeader(response);
    PageIsAnswered(unit, s, response);
    ExceptionPdu(s.(waiting := Nothing), response[7..], code);
  }

  lemma PageIsAnswered(unit: byte, s: State, response: seq<byte>)
    requires s.waiting.Page? && !s.finished && |response| >= 8 && ValidEnvelope(response, s.transaction, unit)
    ensures Step(unit, s, Answer(Some(response))) == OnPagePdu(s.(waiting := Nothing), response[7..])
  {
    hide OnPagePdu, ValidEnvelope;
  }

  lemma ExceptionPdu(s: State, pdu: seq<byte>, code: Option<byte>)
    requires pdu != [] && pdu[0] == 0xab && !s.finished
    requires code == if |pdu| > 1 then Some(pdu[1]) else None
    ensures OnPagePdu(s, pdu).reports == s.reports + [Some(s.thing.(exceptionCode := code))]
  {
  }

  /** Not enough bytes for another object. */
  predicate Cut(tail: seq<byte>) {
    |tail| < 2 || |tail| - 2 < tail[1]
  }

  lemma BehindFirst(pdu: seq<byte>, offset: nat, header: seq<byte>, value: seq<byte>, rest: seq<byte>, tail: seq<byte>)
    requires offset <= |pdu| && |header| == 2 && pdu[offset..] == header + value + rest + tail
    ensures pdu[offset..] == header + value + (rest + tail)
    ensures offset + 2 + |value| <= |pdu| && pdu[offset + 2 + |value|..] == rest + tail
  {
    var behind := pdu[offset..];
    assert behind == header + value + (rest + tail);
    assert pdu[offset + 2 + |value|..] == behind[2 + |value|..];
  }

  lemma CutHere(pdu: seq<byte>, offset: nat, tail: seq<byte>, count: nat, found: Objects)
    requires offset <= |pdu| && pdu[offset..] == tail && count > 0 && Cut(tail)
    ensures ParseObjects(pdu, offset, count, found) == Parsed(false, found)
  {
    assert |tail| >= 2 ==> pdu[offset + 1] == tail[1];
  }

  /** Of a list that is cut the objects in front of the cut are taken. */
  lemma {:induction false} CutIsParsed(pdu: seq<byte>, offset: nat, whole: seq<Object>, tail: seq<byte>, count: nat, found: Objects)
    requires Encodable(whole) && offset <= |pdu| && pdu[offset..] == EncodeObjects(whole) + tail
    requires |whole| < count && Cut(tail)
    ensures ParseObjects(pdu, offset, count, found) == Parsed(false, LastWins(found, whole))
    decreases |whole|
  {
    hide ParseObjects, Cut;
    if whole == [] {
      assert pdu[offset..] == tail;
      CutHere(pdu, offset, tail, count, found);
    } else {
      var first, rest := whole[0], whole[1..];
      var end, next := offset + 2 + |first.value|, found[first.id := first.value];
      BehindFirst(pdu, offset, [first.id, |first.value|], first.value, EncodeObjects(rest), tail);
      FirstIsParsed(pdu, offset, first, EncodeObjects(rest) + tail, count - 1, found);
      CutIsParsed(pdu, end, rest, tail, count - 1, next);
      hide EncodeObjects;
      assert ParseObjects(pdu, offset, count, found) == ParseObjects(pdu, end, count - 1, next);
    }
  }

  /** A page that announces more objects than it holds. */
  datatype CutPage = CutPage(count: byte, next: byte, whole: seq<Object>, tail: seq<byte>)

  predicate IsCut(page: CutPage) {
    && |page.whole| < page.count && Cut(page.tail)
    && (forall i :: 0 <= i < |page.whole| ==> |page.whole[i].value| < 0x100)
    && 7 + |EncodeObjects(page.whole)| + |page.tail| <= MAX_PDU
  }

  function CutFrame(unit: byte, number: nat, page: CutPage, more: bool): seq<byte>
    requires number <= 7 && IsCut(page)
  {
    FrameOf(number + 1, unit,
      [ENCAPSULATED, READ_DEVICE_ID, 1, 1, if more then 0xff else 0, page.next, page.count] + EncodeObjects(page.whole) + page.tail)
  }

  lemma CutPageFallsBack(unit: byte, s: State, page: CutPage, more: bool)
    requires s.waiting.Page? && !s.finished && s.page <= 7 && s.transaction == s.page + 1 && IsCut(page)
    ensures Step(unit, s, Answer(Some(CutFrame(unit, s.page, page, more)))) == s.(
              waiting := Register, queries := s.queries + [FirstRegister],
              thing := s.thing.(hasDeviceIdentification := true, objects := LastWins(s.thing.objects, page.whole)))
  {
    hide EncodeObjects, NextPage, Get, LastWins, ParseObjects, OnPagePdu;
    var header := [ENCAPSULATED, READ_DEVICE_ID, 1, 1, if more then 0xff else 0, page.next, page.count];
    var pdu := header + EncodeObjects(page.whole) + page.tail;
    var frame := CutFrame(unit, s.page, page, more);
    assert frame[7..] == pdu;
    assert ValidEnvelope(frame, s.transaction, unit);
    CutPdu(s.(waiting := Nothing), pdu, header, page);
  }

  lemma CutPdu(s: State, pdu: seq<byte>, header: seq<byte>, page: CutPage)
    requires IsCut(page) && |header| == 7 && header[0] == ENCAPSULATED && header[1] == READ_DEVICE_ID && header[6] == page.count
    requires pdu == header + EncodeObjects(page.whole) + page.tail
    ensures OnPagePdu(s, pdu) == RequestFallback(s.(
              thing := s.thing.(hasDeviceIdentification := true, objects := LastWins(s.thing.objects, page.whole))))
  {
    hide EncodeObjects, LastWins, ParseObjects, RequestFallback, NextPage, Named, Complete;
    assert pdu[7..] == EncodeObjects(page.whole) + page.tail;
    CutIsParsed(pdu, 7, page.whole, page.tail, page.count, s.thing.objects);
  }

  /** Each of these pages is continued by another request. */
  predicate AllContinue(number: nat, id: byte, pages: seq<DevicePage>)
    decreases |pages|
  {
    pages == [] || (pages[0].next != id && number < 7 && AllContinue(number + 1, pages[0].next, pages[1..]))
  }

  function Continued(unit: byte, number: nat, pages: seq<DevicePage>): seq<Option<seq<byte>>>
    requires number + |pages| <= 8 && AllFit(pages)
    decreases |pages|
  {
    if pages == [] then [] else [Some(PageFrame(unit, number, pages[0], true))] + Continued(unit, number + 1, pages[1..])
  }

  /** The state in which the page behind these is awaited. */
  ghost predicate Awaits(s: State, after: State, pages: seq<DevicePage>, identified: bool) {
    && after.waiting.Page? && !after.finished && after.reports == s.reports
    && after.page == s.page + |pages| && after.page <= 7 && after.transaction == after.page + 1
    && after.thing == Known(LastWins(s.thing.objects, AllObjects(pages)), identified || pages != [])
  }

  lemma {:induction false} PagesContinue(unit: byte, s: State, pages: seq<DevicePage>, identified: bool)
    requires AllFit(pages) && AllContinue(s.page, s.objectId, pages) && s.page + |pages| <= 8
    requires s.waiting.Page? && !s.finished && s.page <= 7 && s.transaction == s.page + 1
    requires s.thing == Known(s.thing.objects, identified)
    ensures Awaits(s, Run(unit, s, Answers(Continued(unit, s.page, pages))), pages, identified)
    decreases |pages|
  {
    hide Step, Named, LastWins, FitsPdu, PageFrame;
    var answers := Continued(unit, s.page, pages);
    if pages == [] {
      LastWinsOfNone(s.thing.objects);
      assert Answers(answers) == [];
    } else {
      var page, rest := pages[0], pages[1..];
      PageIsRead(unit, s, page, true);
      var next := Step(unit, s, Answer(answers[0]));
      assert Answers(answers)[0] == Answer(answers[0]) && Answers(answers)[1..] == Answers(answers[1..]);
      assert answers[1..] == Continued(unit, s.page + 1, rest);
      PagesContinue(unit, next, rest, true);
      LastWinsAppend(s.thing.objects, page.objects, AllObjects(rest));
    }
  }

  lemma LastWinsOfNone(found: Objects)
    ensures LastWins(found, []) == found
  {
  }

  /** The start, the pages in front, the answer that is not one, and the answer to the register request. */
  function FallbackRun(unit: byte, pages: seq<DevicePage>, bad: Option<seq<byte>>, register: Option<seq<byte>>): seq<Event>
    requires AllFit(pages) && |pages| <= 8
  {
    [Start] + Answers(Continued(unit, 0, pages)) + [Answer(bad), Answer(register)]
  }

  lemma {:induction false} RunAppend(unit: byte, s: State, first: seq<Event>, second: seq<Event>)
    ensures Run(unit, s, first + second) == Run(unit, Run(unit, s, first), second)
    decreases |first|
  {
    hide Step;
    if first == [] {
      assert first + second == second;
    } else {
      assert (first + second)[1..] == first[1..] + second;
      RunAppend(unit, Step(unit, s, first[0]), first[1..], second);
    }
  }

  lemma RunOfTwo(unit: byte, s: State, first: Event, second: Event)
    ensures Run(unit, s, [first, second]) == Step(unit, Step(unit, s, first), second)
  {
    hide Step;
    assert [first, second][1..] == [second] && [second][1..] == [];
    assert Run(unit, Step(unit, s, first), [second]) == Step(unit, Step(unit, s, first), second);
  }

  lemma FallbackRunSteps(unit: byte, pages: seq<DevicePage>, bad: Option<seq<byte>>, register: Option<seq<byte>>) returns (s: State)
    requires AllFit(pages) && AllContinue(0, 0, pages) && |pages| <= 7
    ensures s == Run(unit, Initial, [Start] + Answers(Continued(unit, 0, pages)))
    ensures s.waiting.Page? && !s.finished && s.reports == [] && s.page == |pages| && s.transaction == s.page + 1
    ensures s.thing == Known(LastWins(map[], AllObjects(pages)), pages != [])
    ensures Run(unit, Initial, FallbackRun(unit, pages, bad, register))
         == Step(unit, Step(unit, s, Answer(bad)), Answer(register))
  {
    var answers := Answers(Continued(unit, 0, pages));
    s := Run(unit, Initial, [Start] + answers);
    assert ([Start] + answers)[1..] == answers;
    PagesContinue(unit, Step(unit, Initial, Start), pages, false);
    hide Step, Run, Continued, LastWins;
    RunAppend(unit, Initial, [Start] + answers, [Answer(bad), Answer(register)]);
    RunOfTwo(unit, s, Answer(bad), Answer(register));
  }

  /**
   * Behind any pages, when the next answer is no page, the register request decides the report,
   * and what the pages held is in it: unnamed, with the exception code if there is one.
   */
  lemma FallbackGivesWhatWasFound(unit: byte, pages: seq<DevicePage>, bad: Option<seq<byte>>, register: Option<seq<byte>>)
    requires AllFit(pages) && AllContinue(0, 0, pages) && |pages| <= 7 && NoPage(bad, |pages| + 1, unit)
    ensures Run(unit, Initial, FallbackRun(unit, pages, bad, register)).reports
         == [FallbackReport(unit, Known(LastWins(map[], AllObjects(pages)), pages != []), register)]
  {
    var s := FallbackRunSteps(unit, pages, bad, register);
    NoPageFallsBack(unit, s, bad);
    var front := [Start] + Answers(Continued(unit, 0, pages));
    BehindFallback(unit, front, bad, register);
  }

  /** The same when the object list of the next page is cut, with the objects in front of the cut. */
  lemma CutListGivesWhatWasFound(unit: byte, pages: seq<DevicePage>, cut: CutPage, more: bool, register: Option<seq<byte>>)
    requires AllFit(pages) && AllContinue(0, 0, pages) && |pages| <= 7 && IsCut(cut)
    ensures Run(unit, Initial, FallbackRun(unit, pages, Some(CutFrame(unit, |pages|, cut, more)), register)).reports
         == [FallbackReport(unit, Known(LastWins(map[], AllObjects(pages) + cut.whole), true), register)]
  {
    var bad := Some(CutFrame(unit, |pages|, cut, more));
    var s := FallbackRunSteps(unit, pages, bad, register);
    CutPageFallsBack(unit, s, cut, more);
    LastWinsAppend(map[], AllObjects(pages), cut.whole);
    BehindFallback(unit, [Start] + Answers(Continued(unit, 0, pages)), bad, register);
  }

  /** An exception of the interface transport behind any pages ends it all: what they held, and the code. */
  lemma ExceptionGivesWhatWasFound(unit: byte, pages: seq<DevicePage>, response: seq<byte>, code: Option<byte>)
    requires AllFit(pages) && AllContinue(0, 0, pages) && |pages| <= 7
    requires Replies(Some(response), |pages| + 1, unit) && response[7] == 0xab
    requires code == if |response| > 8 then Some(response[8]) else None
    ensures Run(unit, Initial, FallbackRun(unit, pages, Some(response), None)).reports
         == [Some(Known(LastWins(map[], AllObjects(pages)), pages != []).(exceptionCode := code))]
  {
    hide Step, Run, Replies, LastWins, Continued;
    var s := FallbackRunSteps(unit, pages, Some(response), None);
    ExceptionIsReported(unit, s, response, code);
    var after := Step(unit, s, Answer(Some(response)));
    RunKeepsInvariant(unit, Initial, [Start] + Answers(Continued(unit, 0, pages)));
    StepKeepsInvariant(unit, s, Answer(Some(response)));
    hide QueriesFit;
    FinishedStays(unit, after, None);
  }

  lemma BehindFallback(unit: byte, front: seq<Event>, bad: Option<seq<byte>>, register: Option<seq<byte>>)
    requires var s := Step(unit, Run(unit, Initial, front), Answer(bad)); s.waiting.Register? && !s.finished
    ensures var s := Step(unit, Run(unit, Initial, front), Answer(bad));
            Step(unit, s, Answer(register)).reports == [FallbackReport(unit, s.thing, register)]
  {
    hide Step, FallbackReport;
    RunAppend(unit, Initial, front, [Answer(bad)]);
    var s := Run(unit, Initial, front);
    assert [Answer(bad)][1..] == [];
    assert Run(unit, s, [Answer(bad)]) == Run(unit, Step(unit, s, Answer(bad)), []) == Step(unit, s, Answer(bad));
    FallbackReportsExactly(unit, front + [Answer(bad)], register);
  }

  function AllObjects(pages: seq<DevicePage>): seq<Object> {
    if pages == [] then [] else pages[0].objects + AllObjects(pages[1..])
  }

  /** The ids by which the pages are asked for: 0, then each page's continuation. */
  function AskedId(first: byte, pages: seq<DevicePage>, i: nat): byte
    requires i <= |pages|
  {
    if i == 0 then first else pages[i - 1].next
  }

  lemma FrontCancels(front: seq<Object>, left: seq<Object>, right: seq<Object>)
    ensures front + left == front + right <==> left == right
  {
    assert (front + left)[|front|..] == left && (front + right)[|front|..] == right;
  }

  lemma AskedShift(id: byte, pages: seq<DevicePage>)
    requires |pages| > 1
    ensures (forall i :: 0 <= i < |pages| - 1 ==> pages[i].next != AskedId(id, pages, i))
       <==> pages[0].next != id
            && forall i :: 0 <= i < |pages[1..]| - 1 ==> pages[1..][i].next != AskedId(pages[0].next, pages[1..], i)
  {
    var rest := pages[1..];
    forall i | 0 <= i < |rest| - 1
      ensures pages[i + 1].next == rest[i].next && AskedId(id, pages, i + 1) == AskedId(pages[0].next, rest, i)
    {
    }
    if pages[0].next != id && forall i :: 0 <= i < |rest| - 1 ==> rest[i].next != AskedId(pages[0].next, rest, i) {
      forall i | 0 <= i < |pages| - 1
        ensures pages[i].next != AskedId(id, pages, i)
      {
        if i > 0 {
          assert rest[i - 1].next != AskedId(pages[0].next, rest, i - 1);
        }
      }
    }
    if forall i :: 0 <= i < |pages| - 1 ==> pages[i].next != AskedId(id, pages, i) {
      assert pages[0].next != AskedId(id, pages, 0);
      forall i | 0 <= i < |rest| - 1
        ensures rest[i].next != AskedId(pages[0].next, rest, i)
      {
        assert pages[i + 1].next != AskedId(id, pages, i + 1);
      }
    }
  }

  /** Every page is heard exactly when there are at most 8 and no page is continued by its own id. */
  lemma {:induction false} AllPagesHeard(number: nat, id: byte, pages: seq<DevicePage>)
    requires pages != [] && forall page :: page in pages ==> page.objects != []
    ensures Heard(number, id, pages) == AllObjects(pages)
       <==> (number + |pages| <= 8 || |pages| == 1)
            && forall i :: 0 <= i < |pages| - 1 ==> pages[i].next != AskedId(id, pages, i)
    decreases |pages|
  {
    var rest := pages[1..];
    if |pages| == 1 {
      assert AllObjects(rest) == [];
    } else if GoesOn(number, id, pages) {
      AllPagesHeard(number + 1, pages[0].next, rest);
      FrontCancels(pages[0].objects, Heard(number + 1, pages[0].next, rest), AllObjects(rest));
      assert forall i :: 0 <= i < |rest| - 1 ==> pages[i + 1].next == rest[i].next;
      AskedShift(id, pages);
    } else {
      assert pages[1] in pages && AllObjects(rest) == rest[0].objects + AllObjects(rest[1..]);
      assert pages[0].next == id ==> pages[0].next == AskedId(id, pages, 0);
      assert |Heard(number, id, pages)| < |AllObjects(pages)|;
    }
  }

  // One exchange

  datatype Reception = Collecting(bytes: seq<byte>) | Received(response: seq<byte>) | Refused

  predicate LengthAllowed(length: nat) {
    2 <= length <= MAX_PDU + 1
  }

  function Feed(r: Reception, chunk: seq<byte>): Reception {
    if !r.Collecting? then r
    else
      var all := r.bytes + chunk;
      if |all| < 7 then Collecting(all)
      else if !LengthAllowed(ReadU16(all[4], all[5])) then Refused
      else if |all| < 6 + ReadU16(all[4], all[5]) then Collecting(all)
      else if |all| != 6 + ReadU16(all[4], all[5]) then Refused
      else Received(all)
  }

  function FeedAll(r: Reception, chunks: seq<seq<byte>>): Reception
    decreases |chunks|
  {
    if chunks == [] then r else FeedAll(Feed(r, chunks[0]), chunks[1..])
  }

  predicate WholeFrame(frame: seq<byte>) {
    8 <= |frame| <= 260 && ReadU16(frame[4], frame[5]) == |frame| - 6
  }

  /** What has been collected so far is a proper prefix of a frame. */
  predicate Partial(bytes: seq<byte>) {
    |bytes| < 7 || (LengthAllowed(ReadU16(bytes[4], bytes[5])) && |bytes| < 6 + ReadU16(bytes[4], bytes[5]))
  }

  lemma {:induction false} FedExactly(bytes: seq<byte>, chunks: seq<seq<byte>>, frame: seq<byte>)
    requires Partial(bytes)
    ensures FeedAll(Collecting(bytes), chunks) == Received(frame)
       <==> WholeFrame(frame) && exists k :: 0 <= k <= |chunks| && bytes + Concat(chunks[..k]) == frame
    decreases |chunks|
  {
    assert chunks[..0] == [] && bytes + [] == bytes;
    if chunks == [] {
    } else {
      var all := bytes + chunks[0];
      FirstChunk(bytes, chunks, frame);
      if Partial(all) {
        FedExactly(all, chunks[1..], frame);
      } else {
        Settled(Feed(Collecting(bytes), chunks[0]), chunks[1..]);
        assert chunks[1..][..0] == [] && all + [] == all;
        forall k | 0 <= k <= |chunks| - 1 && WholeFrame(frame) && all + Concat(chunks[1..][..k]) == frame
          ensures frame == all && WholeFrame(all)
        {
          assert all == frame[..|all|];
        }
      }
    }
  }

  lemma {:induction false} Settled(r: Reception, chunks: seq<seq<byte>>)
    requires !r.Collecting?
    ensures FeedAll(r, chunks) == r
    decreases |chunks|
  {
    if chunks != [] {
      Settled(r, chunks[1..]);
    }
  }

  /** Some front of the chunks completes the frame, counted with the first chunk or without. */
  lemma FirstChunk(bytes: seq<byte>, chunks: seq<seq<byte>>, frame: seq<byte>)
    requires chunks != [] && Partial(bytes)
    ensures WholeFrame(frame) ==>
              ((exists k :: 0 <= k <= |chunks| && bytes + Concat(chunks[..k]) == frame)
          <==> (exists k :: 0 <= k <= |chunks| - 1 && bytes + chunks[0] + Concat(chunks[1..][..k]) == frame))
  {
    forall k | 1 <= k <= |chunks|
      ensures bytes + Concat(chunks[..k]) == bytes + chunks[0] + Concat(chunks[1..][..k - 1])
    {
      assert chunks[..k][1..] == chunks[1..][..k - 1];
    }
    assert chunks[..0] == [] && bytes + [] == bytes;
    if k :| 0 <= k <= |chunks| - 1 && bytes + chunks[0] + Concat(chunks[1..][..k]) == frame {
      assert bytes + Concat(chunks[..k + 1]) == frame;
    }
  }

  /** An exchange gets a response exactly when the chunks so far were at some point one whole frame. */
  lemma ExchangeIsExact(chunks: seq<seq<byte>>, frame: seq<byte>)
    ensures FeedAll(Collecting([]), chunks) == Received(frame)
       <==> WholeFrame(frame) && exists k :: 0 <= k <= |chunks| && Concat(chunks[..k]) == frame
  {
    FedExactly([], chunks, frame);
    forall k | 0 <= k <= |chunks|
      ensures [] + Concat(chunks[..k]) == Concat(chunks[..k])
    {
    }
  }

  /** A reply with any PDU of up to 253 bytes is heard whole, in whatever chunks it arrives. */
  lemma ReplyIsHeard(transaction: u16, unit: byte, pdu: seq<byte>, chunks: seq<seq<byte>>)
    requires 1 <= |pdu| <= 253 && Concat(chunks) == FrameOf(transaction, unit, pdu)
    ensures FeedAll(Collecting([]), chunks) == Received(FrameOf(transaction, unit, pdu))
  {
    assert chunks[..|chunks|] == chunks;
    ExchangeIsExact(chunks, FrameOf(transaction, unit, pdu));
  }
}
