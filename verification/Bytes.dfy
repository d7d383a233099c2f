/** Bytes, 16-bit registers and their big-endian transport form. */
module Bytes {

  type byte = x: int | 0 <= x < 0x100

  type u16 = x: int | 0 <= x < 0x1_0000

  datatype Option<+T> = None | Some(value: T) {
    function GetOr(default: T): T {
      if Some? then value else default
    }
  }

  function ReadU16(high: byte, low: byte): u16 {
    high * 0x100 + low
  }

  function High(value: u16): byte {
    value / 0x100
  }

  function Low(value: u16): byte {
    value % 0x100
  }

  function Pack(value: u16): seq<byte> {
    [High(value), Low(value)]
  }

  /** The bytes of these chunks in a row. */
  function Concat(chunks: seq<seq<byte>>): seq<byte> {
    if chunks == [] then [] else chunks[0] + Concat(chunks[1..])
  }

  /** The transport form of a register block: two bytes a register, high byte first. */
  function Serialize(registers: seq<u16>): (bytes: seq<byte>)
    ensures |bytes| == 2 * |registers|
  {
    seq(2 * |registers|, i requires 0 <= i < 2 * |registers| =>
      if i % 2 == 0 then High(registers[i / 2]) else Low(registers[i / 2]))
  }

  function Deserialize(bytes: seq<byte>): (registers: seq<u16>)
    ensures |registers| == |bytes| / 2
  {
    seq(|bytes| / 2, i requires 0 <= i < |bytes| / 2 => ReadU16(bytes[2 * i], bytes[2 * i + 1]))
  }

  lemma DeserializeSerialize(registers: seq<u16>)
    ensures Deserialize(Serialize(registers)) == registers
  {
  }

  lemma BothBytes(registers: seq<u16>, i: nat)
    requires i < |registers|
    ensures Serialize(registers)[2 * i] == High(registers[i])
    ensures Serialize(registers)[2 * i + 1] == Low(registers[i])
  {
  }

  lemma SerializeDeserialize(bytes: seq<byte>)
    requires |bytes| % 2 == 0
    ensures Serialize(Deserialize(bytes)) == bytes
  {
  }
}
