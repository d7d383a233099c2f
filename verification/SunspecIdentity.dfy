/** The strings of a SunSpec common model. */
module SunspecIdentity {
  import opened Bytes
  import opened ScanSpec

  /** `text` is the longest prefix of `bytes` without a NUL. */
  ghost predicate IsLongestPrefixWithoutNul(text: seq<byte>, bytes: seq<byte>) {
    && text <= bytes
    && 0 !in text
    && (|text| < |bytes| ==> bytes[|text|] == 0)
  }

  lemma {:induction false} NulFromIsFirst(bytes: seq<byte>, from: nat)
    requires from <= |bytes|
    ensures 0 !in bytes[from..NulFrom(bytes, from)]
    ensures NulFrom(bytes, from) < |bytes| ==> bytes[NulFrom(bytes, from)] == 0
    decreases |bytes| - from
  {
    if from < |bytes| && bytes[from] != 0 {
      NulFromIsFirst(bytes, from + 1);
      var place := NulFrom(bytes, from);
      assert bytes[from..place] == [bytes[from]] + bytes[from + 1..place];
    }
  }

  lemma BeforeNulIsLongest(bytes: seq<byte>, text: seq<byte>)
    ensures IsLongestPrefixWithoutNul(text, bytes) <==> text == BeforeNul(bytes)
  {
    NulFromIsFirst(bytes, 0);
    var place := NulFrom(bytes, 0);
    assert bytes[0..place] == BeforeNul(bytes);
    if IsLongestPrefixWithoutNul(text, bytes) {
      assert text == bytes[..|text|];
      LongestIsUnique(bytes, text, bytes[..place]);
    }
  }

  lemma LongestIsUnique(bytes: seq<byte>, left: seq<byte>, right: seq<byte>)
    requires IsLongestPrefixWithoutNul(left, bytes) && IsLongestPrefixWithoutNul(right, bytes)
    ensures left == right
  {
  }

  /** A string as a device stores it: two bytes a register, filled up with NULs. */
  function Padded(text: seq<byte>, count: nat): seq<u16>
    requires |text| <= 2 * count
  {
    Deserialize(text + seq(2 * count - |text|, _ => 0))
  }

  /** Every string without NULs that fits a field is read back from it. */
  lemma PaddedTextIsReadBack(text: seq<byte>, count: nat)
    requires |text| <= 2 * count && 0 !in text
    ensures Text(Padded(text, count)) == text
  {
    var bytes := text + seq(2 * count - |text|, _ => 0);
    SerializeDeserialize(bytes);
    BeforeNulIsLongest(bytes, text);
  }

  method DecodeSunSpecString(registers: seq<u16>) returns (decoded: seq<byte>)
    ensures decoded == Text(registers)
    ensures IsLongestPrefixWithoutNul(decoded, Serialize(registers))
  {
    decoded := [];
    ghost var bytes := Serialize(registers);
    var i := 0;
    while i < |registers|
      invariant 0 <= i <= |registers| && decoded == bytes[..2 * i] && 0 !in decoded
    {
      BothBytes(registers, i);
      var high := High(registers[i]);
      if high == 0 {
        break;
      }
      decoded := decoded + [high];
      var low := Low(registers[i]);
      if low == 0 {
        break;
      }
      decoded := decoded + [low];
      i := i + 1;
    }
    assert IsLongestPrefixWithoutNul(decoded, bytes);
    BeforeNulIsLongest(bytes, decoded);
  }

  // Identifiers

  const UNDERSCORE: byte := 95

  predicate IsDigitOrSmall(b: byte) {
    97 <= b <= 122 || 48 <= b <= 57
  }

  /** Capitals become small, and whatever is neither letter nor digit an underscore. */
  function NormalByte(b: byte): byte {
    if 65 <= b <= 90 then b - 65 + 97 else if IsDigitOrSmall(b) then b else UNDERSCORE
  }

  function Normal(value: seq<byte>): (normal: seq<byte>)
    ensures |normal| == |value|
  {
    seq(|value|, i requires 0 <= i < |value| => NormalByte(value[i]))
  }

  function SunSpecId(manufacturer: seq<byte>, product: seq<byte>, serial: seq<byte>): seq<byte> {
    Normal(manufacturer) + [UNDERSCORE] + Normal(product) + [UNDERSCORE] + Normal(serial)
  }

  lemma NormalAppend(front: seq<byte>, back: seq<byte>)
    ensures Normal(front + back) == Normal(front) + Normal(back)
  {
  }

  /** Devices whose parts have the same lengths share an id exactly when the parts agree once normalized. */
  lemma IdsAgreeByParts(m: seq<byte>, p: seq<byte>, s: seq<byte>, m': seq<byte>, p': seq<byte>, s': seq<byte>)
    requires |m| == |m'| && |p| == |p'|
    ensures SunSpecId(m, p, s) == SunSpecId(m', p', s')
       <==> Normal(m) == Normal(m') && Normal(p) == Normal(p') && Normal(s) == Normal(s')
  {
    var id, id' := SunSpecId(m, p, s), SunSpecId(m', p', s');
    assert id[..|m|] == Normal(m) && id'[..|m|] == Normal(m');
    assert id[|m| + 1..|m| + 1 + |p|] == Normal(p) && id'[|m| + 1..|m| + 1 + |p|] == Normal(p');
    assert id[|m| + |p| + 2..] == Normal(s) && id'[|m| + |p| + 2..] == Normal(s');
  }

  /** In general ids collide: a separator at the end of one part may as well start the next. */
  lemma IdsCollide(a: seq<byte>, b: seq<byte>, c: seq<byte>, serial: seq<byte>, separator: byte)
    requires NormalByte(separator) == UNDERSCORE
    ensures SunSpecId(a + [separator] + b, c, serial) == SunSpecId(a, b + [separator] + c, serial)
  {
  }

  predicate IsLetterOrDigit(b: byte) {
    '0' as int <= b <= '9' as int || 'A' as int <= b <= 'Z' as int || 'a' as int <= b <= 'z' as int
  }

  /** Two bytes become the same exactly if they are one letter, small or capital, one digit, or both neither. */
  lemma NormalByteIgnores(a: byte, b: byte)
    ensures NormalByte(a) == NormalByte(b) <==>
              || a == b
              || (!IsLetterOrDigit(a) && !IsLetterOrDigit(b))
              || ('A' as int <= a <= 'Z' as int && b == a + 32) || ('A' as int <= b <= 'Z' as int && a == b + 32)
    ensures NormalByte(a) == '_' as int <==> !IsLetterOrDigit(a)
    ensures 'a' as int <= a <= 'z' as int || '0' as int <= a <= '9' as int ==> NormalByte(a) == a
  {
  }

  /** "A-", "" and "1" share their id with "A", "-" and "1". */
  lemma TwoDevicesOneId()
    ensures SunSpecId([65, 45], [], [49]) == SunSpecId([65], [45], [49])
    ensures Normal([65, 45]) != Normal([65])
  {
    IdsCollide([65], [], [], [49], 45);
    assert [65] + [45] + [] == [65, 45] && [] + [45] + [] == [45];
    assert |Normal([65, 45])| != |Normal([65])|;
  }

  /** No byte of the value becomes an underscore: it has only letters and digits. */
  predicate Plain(value: seq<byte>) {
    forall i :: 0 <= i < |value| ==> NormalByte(value[i]) != UNDERSCORE
  }

  lemma PlainExactly(value: seq<byte>)
    ensures Plain(value) <==> forall i :: 0 <= i < |value| ==> IsLetterOrDigit(value[i])
  {
  }

  /** No other triple has the id, up to normalization. */
  ghost predicate Unambiguous(m: seq<byte>, p: seq<byte>, s: seq<byte>) {
    forall m': seq<byte>, p': seq<byte>, s': seq<byte> :: SunSpecId(m', p', s') == SunSpecId(m, p, s) ==>
      Normal(m') == Normal(m) && Normal(p') == Normal(p) && Normal(s') == Normal(s)
  }

  lemma UnderscoresOfId(m: seq<byte>, p: seq<byte>, s: seq<byte>, k: nat)
    requires k < |SunSpecId(m, p, s)| && Plain(m) && Plain(p) && Plain(s)
    ensures SunSpecId(m, p, s)[k] == UNDERSCORE <==> k == |m| || k == |m| + 1 + |p|
  {
  }

  lemma SeparatorsOfId(m: seq<byte>, p: seq<byte>, s: seq<byte>)
    ensures |SunSpecId(m, p, s)| == |m| + |p| + |s| + 2
    ensures SunSpecId(m, p, s)[|m|] == UNDERSCORE && SunSpecId(m, p, s)[|m| + 1 + |p|] == UNDERSCORE
  {
  }

  lemma PlainIsUnambiguous(m: seq<byte>, p: seq<byte>, s: seq<byte>)
    requires Plain(m) && Plain(p) && Plain(s)
    ensures Unambiguous(m, p, s)
  {
    hide SunSpecId, Plain;
    forall m': seq<byte>, p': seq<byte>, s': seq<byte> | SunSpecId(m', p', s') == SunSpecId(m, p, s)
      ensures Normal(m') == Normal(m) && Normal(p') == Normal(p) && Normal(s') == Normal(s)
    {
      SeparatorsOfId(m, p, s);
      SeparatorsOfId(m', p', s');
      UnderscoresOfId(m, p, s, |m'|);
      UnderscoresOfId(m, p, s, |m'| + 1 + |p'|);
      IdsAgreeByParts(m', p', s', m, p, s);
    }
  }

  /** A value that is not plain falls apart at a separator. */
  lemma Falls(value: seq<byte>) returns (a: seq<byte>, separator: byte, b: seq<byte>)
    requires !Plain(value)
    ensures value == a + [separator] + b && NormalByte(separator) == UNDERSCORE
  {
    var i :| 0 <= i < |value| && NormalByte(value[i]) == UNDERSCORE;
    a, separator, b := value[..i], value[i], value[i + 1..];
  }

  /** A separator in the manufacturer may as well start the product. */
  lemma ManufacturerFalls(m: seq<byte>, p: seq<byte>, s: seq<byte>)
    requires !Plain(m)
    ensures !Unambiguous(m, p, s)
  {
    var a, separator, b := Falls(m);
    IdsCollide(a, b, p, s, separator);
    assert |Normal(a)| != |Normal(m)|;
  }

  /** A separator in the product may as well end the manufacturer. */
  lemma ProductFalls(m: seq<byte>, p: seq<byte>, s: seq<byte>)
    requires !Plain(p)
    ensures !Unambiguous(m, p, s)
  {
    var a, separator, b := Falls(p);
    IdsCollide(m, a, b, s, separator);
    assert |Normal(m + [separator] + a)| != |Normal(m)|;
  }

  /** A separator in the serial number may as well end the product. */
  lemma SerialFalls(m: seq<byte>, p: seq<byte>, s: seq<byte>)
    requires !Plain(s)
    ensures !Unambiguous(m, p, s)
  {
    var a, separator, b := Falls(s);
    var product := p + [separator] + a;
    NormalAppend(p + [separator], a);
    NormalAppend(p, [separator]);
    NormalAppend(a + [separator], b);
    NormalAppend(a, [separator]);
    assert Normal([separator]) == [UNDERSCORE];
    assert SunSpecId(m, product, b) == SunSpecId(m, p, s);
    assert |Normal(product)| != |Normal(p)|;
  }

  /**
   * An id tells the device's normalized manufacturer, product and serial number apart from all
   * others exactly when the three consist of letters and digits.
   */
  lemma IdIdentifiesExactly(m: seq<byte>, p: seq<byte>, s: seq<byte>)
    ensures Unambiguous(m, p, s) <==> Plain(m) && Plain(p) && Plain(s)
  {
    hide SunSpecId, Plain, Unambiguous;
    if !Plain(m) {
      ManufacturerFalls(m, p, s);
    } else if !Plain(p) {
      ProductFalls(m, p, s);
    } else if !Plain(s) {
      SerialFalls(m, p, s);
    } else {
      PlainIsUnambiguous(m, p, s);
    }
  }

  method NormalizeSunSpecIdPart(value: seq<byte>) returns (normalized: seq<byte>)
    ensures normalized == Normal(value)
  {
    normalized := [];
    for i := 0 to |value|
      invariant normalized == Normal(value[..i])
    {
      var character := value[i];
      NormalAppend(value[..i], [character]);
      assert value[..i + 1] == value[..i] + [character];
      if 65 <= character <= 90 {
        normalized := normalized + [character - 65 + 97];
      } else if IsDigitOrSmall(character) {
        normalized := normalized + [character];
      } else {
        normalized := normalized + [UNDERSCORE];
      }
    }
    assert value[..|value|] == value;
  }

  method MakeSunSpecId(manufacturer: seq<byte>, product: seq<byte>, serial: seq<byte>) returns (identifier: seq<byte>)
    ensures identifier == SunSpecId(manufacturer, product, serial)
  {
    var normalizedManufacturer := NormalizeSunSpecIdPart(manufacturer);
    var normalizedProduct := NormalizeSunSpecIdPart(product);
    var normalizedSerial := NormalizeSunSpecIdPart(serial);
    identifier := normalizedManufacturer;
    identifier := identifier + [UNDERSCORE];
    identifier := identifier + normalizedProduct;
    identifier := identifier + [UNDERSCORE];
    identifier := identifier + normalizedSerial;
  }
}
