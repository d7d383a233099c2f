/**
 * Modbus TCP frames: the encoding of function 03 requests and replies behind an MBAP header
 * (section 3.1.3 of the MODBUS Messaging on TCP/IP Implementation Guide V1.0b), and the cutting
 * of a received byte stream into length-delimited frames.
 */
module Framing {
  import opened Bytes

  type Count = n: int | 1 <= n <= 125 witness 1

  function RequestFrame(transaction: u16, unit: byte, address: u16, count: Count): (frame: seq<byte>)
    ensures |frame| == 12
  {
    [High(transaction), Low(transaction), 0, 0, 0, 6, unit, 3, High(address), Low(address), 0, count]
  }

  function ReplyHeader(transaction: u16, unit: byte, count: Count): (header: seq<byte>)
    ensures |header| == 9
  {
    [High(transaction), Low(transaction), 0, 0, 0, 3 + 2 * count, unit, 3, 2 * count]
  }

  /** The function 03 reply that carries `registers`. */
  function ReplyFrame(transaction: u16, unit: byte, registers: seq<u16>): seq<byte>
    requires 1 <= |registers| <= 125
  {
    ReplyHeader(transaction, unit, |registers|) + Serialize(registers)
  }

  /** The function 03 exception reply. */
  function ExceptionFrame(transaction: u16, unit: byte, code: byte): seq<byte> {
    [High(transaction), Low(transaction), 0, 0, 0, 3, unit, 0x83, code]
  }

  /** A frame as the receive loop delivers it: its length field is in range and counts its bytes. */
  predicate Delimited(frame: seq<byte>) {
    && 9 <= |frame| <= 260
    && ReadU16(frame[4], frame[5]) == |frame| - 6
  }

  /** What a frame answers to a request for `count` registers: those registers, or nothing valid. */
  function Answer(frame: seq<byte>, transaction: u16, unit: byte, count: Count): (answer: Option<seq<u16>>)
    ensures answer.Some? ==> |answer.value| == count
  {
    if |frame| == 9 + 2 * count && frame[..9] == ReplyHeader(transaction, unit, count)
    then Some(Deserialize(frame[9..]))
    else None
  }

  lemma AnswerIsExact(frame: seq<byte>, transaction: u16, unit: byte, count: Count, registers: seq<u16>)
    ensures Answer(frame, transaction, unit, count) == Some(registers)
       <==> |registers| == count && frame == ReplyFrame(transaction, unit, registers)
  {
    if |registers| == count && frame == ReplyFrame(transaction, unit, registers) {
      assert frame[..9] == ReplyHeader(transaction, unit, count);
      assert frame[9..] == Serialize(registers);
      DeserializeSerialize(registers);
    }
    if Answer(frame, transaction, unit, count) == Some(registers) {
      SerializeDeserialize(frame[9..]);
      assert frame == frame[..9] + frame[9..];
    }
  }

  /** The fields a session compares one by one decide the answer. */
  lemma AnswerByFields(frame: seq<byte>, transaction: u16, unit: byte, count: Count)
    requires Delimited(frame)
    ensures Answer(frame, transaction, unit, count) ==
            if && ReadU16(frame[0], frame[1]) == transaction && ReadU16(frame[2], frame[3]) == 0
               && frame[6] == unit && frame[7] == 3 && frame[8] == 2 * count && |frame| == 9 + 2 * count
            then Some(Deserialize(frame[9..]))
            else None
  {
    if |frame| == 9 + 2 * count {
      var header := ReplyHeader(transaction, unit, count);
      PackIsInjective(frame[0], frame[1], transaction);
      assert frame[..9] == [frame[0], frame[1], frame[2], frame[3], frame[4], frame[5], frame[6], frame[7], frame[8]];
    }
  }

  lemma PackIsInjective(high: byte, low: byte, value: u16)
    ensures ReadU16(high, low) == value <==> high == High(value) && low == Low(value)
  {
  }

  lemma ExceptionAnswersNothing(transaction: u16, unit: byte, code: byte, count: Count)
    ensures Delimited(ExceptionFrame(transaction, unit, code))
    ensures Answer(ExceptionFrame(transaction, unit, code), transaction, unit, count) == None
  {
  }

  lemma ReplyIsDelimited(transaction: u16, unit: byte, registers: seq<u16>)
    requires 1 <= |registers| <= 125
    ensures Delimited(ReplyFrame(transaction, unit, registers))
  {
  }

  // Cutting the received bytes into frames

  datatype Item = Frame(bytes: seq<byte>) | BadLength

  datatype Cut = Cut(items: seq<Item>, rest: seq<byte>)

  predicate HeaderComplete(buffer: seq<byte>) {
    |buffer| >= 7
  }

  function LengthField(buffer: seq<byte>): u16
    requires HeaderComplete(buffer)
  {
    ReadU16(buffer[4], buffer[5])
  }

  predicate LengthAllowed(length: u16) {
    3 <= length <= 254
  }

  /** Every complete frame of the buffer; a length out of range discards all that follows it. */
  function Deframe(buffer: seq<byte>): Cut {
    if !HeaderComplete(buffer) then
      Cut([], buffer)
    else if !LengthAllowed(LengthField(buffer)) then
      Cut([BadLength], [])
    else if |buffer| < 6 + LengthField(buffer) then
      Cut([], buffer)
    else
      var size := 6 + LengthField(buffer);
      var next := Deframe(buffer[size..]);
      Cut([Frame(buffer[..size])] + next.items, next.rest)
  }

  /** A length out of range stands in front of bytes that belong to the stream after its header. */
  predicate DropsBytes(buffer: seq<byte>) {
    if !HeaderComplete(buffer) then
      false
    else if !LengthAllowed(LengthField(buffer)) then
      |buffer| > 7
    else
      |buffer| >= 6 + LengthField(buffer) && DropsBytes(buffer[6 + LengthField(buffer)..])
  }

  /** The bytes arrive as `chunks`, each cut as it arrives behind the rest of the previous ones. */
  function DeframeChunks(rest: seq<byte>, chunks: seq<seq<byte>>): Cut
    decreases |chunks|
  {
    if chunks == [] then
      Cut([], rest)
    else
      var first := Deframe(rest + chunks[0]);
      var next := DeframeChunks(first.rest, chunks[1..]);
      Cut(first.items + next.items, next.rest)
  }

  /** What is left uncut is a proper prefix of one frame. */
  lemma {:induction false} RestIsProperPrefix(buffer: seq<byte>)
    ensures |Deframe(buffer).rest| < 260
    ensures Deframe(Deframe(buffer).rest) == Cut([], Deframe(buffer).rest)
    ensures HeaderComplete(Deframe(buffer).rest) ==>
              && LengthAllowed(LengthField(Deframe(buffer).rest))
              && |Deframe(buffer).rest| < 6 + LengthField(Deframe(buffer).rest)
    decreases |buffer|
  {
    if HeaderComplete(buffer) && LengthAllowed(LengthField(buffer)) && |buffer| >= 6 + LengthField(buffer) {
      RestIsProperPrefix(buffer[6 + LengthField(buffer)..]);
    }
  }

  /** Frames come out length-delimited. */
  lemma {:induction false} FramesAreDelimited(buffer: seq<byte>)
    ensures forall i :: 0 <= i < |Deframe(buffer).items| && Deframe(buffer).items[i].Frame? ==>
              Delimited(Deframe(buffer).items[i].bytes)
    decreases |buffer|
  {
    if HeaderComplete(buffer) && LengthAllowed(LengthField(buffer)) && |buffer| >= 6 + LengthField(buffer) {
      FramesAreDelimited(buffer[6 + LengthField(buffer)..]);
    }
  }

  function FrameBytes(items: seq<Item>): seq<byte> {
    if items == [] then []
    else (if items[0].Frame? then items[0].bytes else []) + FrameBytes(items[1..])
  }

  /** While lengths are in range no byte is lost, added or reordered. */
  lemma {:induction false} DeframeConserves(buffer: seq<byte>)
    ensures BadLength !in Deframe(buffer).items ==>
              FrameBytes(Deframe(buffer).items) + Deframe(buffer).rest == buffer
    decreases |buffer|
  {
    if HeaderComplete(buffer) && LengthAllowed(LengthField(buffer)) && |buffer| >= 6 + LengthField(buffer) {
      var size := 6 + LengthField(buffer);
      DeframeConserves(buffer[size..]);
      var next := Deframe(buffer[size..]);
      assert Deframe(buffer).items[1..] == next.items;
      assert buffer == buffer[..size] + buffer[size..];
    }
  }

  function Behind(frame: seq<byte>, next: Cut): Cut {
    Cut([Frame(frame)] + next.items, next.rest)
  }

  lemma DeframeFirst(front: seq<byte>, back: seq<byte>)
    requires HeaderComplete(front) && LengthAllowed(LengthField(front)) && |front| >= 6 + LengthField(front)
    ensures var size := 6 + LengthField(front);
            && Deframe(front + back) == Behind(front[..size], Deframe(front[size..] + back))
            && DropsBytes(front + back) == DropsBytes(front[size..] + back)
  {
    var size := 6 + LengthField(front);
    assert LengthField(front + back) == LengthField(front);
    assert (front + back)[size..] == front[size..] + back;
    assert (front + back)[..size] == front[..size];
  }

  lemma DeframeEmpty(front: seq<byte>)
    requires HeaderComplete(front) && LengthAllowed(LengthField(front)) && |front| >= 6 + LengthField(front)
    ensures var size := 6 + LengthField(front);
            Deframe(front) == Behind(front[..size], Deframe(front[size..]))
  {
  }

  /** Cutting in one go is cutting the front and then the back behind the front's rest. */
  lemma {:induction false} DeframeAppend(front: seq<byte>, back: seq<byte>)
    requires !DropsBytes(front + back)
    ensures var first := Deframe(front);
            var second := Deframe(first.rest + back);
            && Deframe(front + back) == Cut(first.items + second.items, second.rest)
            && !DropsBytes(first.rest + back)
    decreases |front|
  {
    if HeaderComplete(front) && !LengthAllowed(LengthField(front)) {
      assert LengthField(front + back) == LengthField(front);
      assert back == [] && front + back == front;
    } else if HeaderComplete(front) && |front| >= 6 + LengthField(front) {
      var size := 6 + LengthField(front);
      DeframeFirst(front, back);
      DeframeEmpty(front);
      DeframeAppend(front[size..], back);
      var inner := Deframe(front[size..]);
      Prepend(front[..size], inner.items, Deframe(inner.rest + back).items);
    } else {
      assert [] + Deframe(front + back).items == Deframe(front + back).items;
    }
  }

  lemma OneChunk(rest: seq<byte>, chunk: seq<byte>)
    ensures DeframeChunks(rest, [chunk]) == Deframe(rest + chunk)
  {
  }

  lemma TwoChunks(front: seq<byte>, back: seq<byte>)
    ensures DeframeChunks([], [front, back])
         == (var first := Deframe(front);
             var second := Deframe(first.rest + back);
             Cut(first.items + second.items, second.rest))
  {
    assert [] + front == front;
    assert [front, back][1..] == [back];
    OneChunk(Deframe(front).rest, back);
  }

  lemma FrontBehindFrame(buffer: seq<byte>, j: nat)
    requires HeaderComplete(buffer) && LengthAllowed(LengthField(buffer))
    requires 6 + LengthField(buffer) + j <= |buffer|
    ensures var size := 6 + LengthField(buffer);
            Deframe(buffer[..size + j]) == Behind(buffer[..size], Deframe(buffer[size..][..j]))
  {
    var size := 6 + LengthField(buffer);
    var front := buffer[..size + j];
    assert LengthField(front) == LengthField(buffer);
    assert front[size..] == buffer[size..][..j];
    assert front[..size] == buffer[..size];
  }

  lemma CutBehindFrame(buffer: seq<byte>, j: nat)
    requires HeaderComplete(buffer) && LengthAllowed(LengthField(buffer))
    requires 6 + LengthField(buffer) + j <= |buffer|
    ensures var size := 6 + LengthField(buffer);
            DeframeChunks([], [buffer[..size + j], buffer[size + j..]])
            == Behind(buffer[..size], DeframeChunks([], [buffer[size..][..j], buffer[size..][j..]]))
  {
    var size := 6 + LengthField(buffer);
    var tail := buffer[size..];
    FrontBehindFrame(buffer, j);
    TwoChunks(buffer[..size + j], buffer[size + j..]);
    TwoChunks(tail[..j], tail[j..]);
    assert buffer[size + j..] == tail[j..];
    var inner := Deframe(tail[..j]);
    var second := Deframe(inner.rest + tail[j..]);
    Prepend(buffer[..size], inner.items, second.items);
  }

  lemma Prepend(frame: seq<byte>, left: seq<Item>, right: seq<Item>)
    ensures [Frame(frame)] + left + right == [Frame(frame)] + (left + right)
  {
  }

  lemma CutBehindBadLength(buffer: seq<byte>)
    requires HeaderComplete(buffer) && !LengthAllowed(LengthField(buffer)) && |buffer| > 7
    ensures DeframeChunks([], [buffer[..7], buffer[7..]]) != Deframe(buffer)
  {
    TwoChunks(buffer[..7], buffer[7..]);
    assert LengthField(buffer[..7]) == LengthField(buffer);
    assert [] + buffer[7..] == buffer[7..];
    NothingComesFromNothing(buffer[7..]);
  }

  /** A stream that loses bytes to a bad length has a cut that would have kept them. */
  lemma {:induction false} DroppedBytesDependOnTheCut(buffer: seq<byte>) returns (k: nat)
    requires DropsBytes(buffer)
    ensures k <= |buffer| && DeframeChunks([], [buffer[..k], buffer[k..]]) != Deframe(buffer)
    decreases |buffer|
  {
    if !LengthAllowed(LengthField(buffer)) {
      k := 7;
      CutBehindBadLength(buffer);
    } else {
      var size := 6 + LengthField(buffer);
      var j := DroppedBytesDependOnTheCut(buffer[size..]);
      k := size + j;
      CutBehindFrame(buffer, j);
      var cut := DeframeChunks([], [buffer[size..][..j], buffer[size..][j..]]);
      if Behind(buffer[..size], cut) == Behind(buffer[..size], Deframe(buffer[size..])) {
        BehindIsInjective(buffer[..size], cut, Deframe(buffer[size..]));
      }
    }
  }

  lemma BehindIsInjective(frame: seq<byte>, left: Cut, right: Cut)
    requires Behind(frame, left) == Behind(frame, right)
    ensures left == right
  {
    assert Behind(frame, left).items[1..] == left.items;
    assert Behind(frame, right).items[1..] == right.items;
  }

  lemma NothingComesFromNothing(buffer: seq<byte>)
    requires buffer != []
    ensures Deframe(buffer) != Cut([], [])
  {
  }

  /**
   * Two-way cuts never change what is received, exactly when no bad length stands in front of
   * further bytes.
   */
  lemma CutIndependence(buffer: seq<byte>)
    ensures (forall k :: 0 <= k <= |buffer| ==> DeframeChunks([], [buffer[..k], buffer[k..]]) == Deframe(buffer))
       <==> !DropsBytes(buffer)
  {
    if DropsBytes(buffer) {
      var k := DroppedBytesDependOnTheCut(buffer);
    } else {
      forall k | 0 <= k <= |buffer|
        ensures DeframeChunks([], [buffer[..k], buffer[k..]]) == Deframe(buffer)
      {
        assert buffer[..k] + buffer[k..] == buffer;
        DeframeAppend(buffer[..k], buffer[k..]);
        TwoChunks(buffer[..k], buffer[k..]);
      }
    }
  }

  /** Any number of chunks, cut anywhere, gives the frames of the whole. */
  lemma {:induction false} ChunkIndependence(rest: seq<byte>, chunks: seq<seq<byte>>)
    requires Deframe(rest) == Cut([], rest)
    requires !DropsBytes(rest + Concat(chunks))
    ensures DeframeChunks(rest, chunks) == Deframe(rest + Concat(chunks))
    decreases |chunks|
  {
    if chunks == [] {
      assert rest + [] == rest;
    } else {
      var front := rest + chunks[0];
      var back := Concat(chunks[1..]);
      assert rest + Concat(chunks) == front + back;
      DeframeAppend(front, back);
      TwoChunks(front, back);
      RestIsProperPrefix(front);
      ChunkIndependence(Deframe(front).rest, chunks[1..]);
    }
  }
}
