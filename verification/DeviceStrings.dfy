/** The strings of a scanned device, from its registers to the thing emitted. */
module DeviceStrings {
  import opened Bytes
  import opened ScanSpec
  import opened ScanTheorems
  import opened ScanDevice
  import opened SunspecIdentity

  /** What a manufacturer writes into a common model. */
  datatype Labels = Labels(
    manufacturer: seq<byte>,
    model: seq<byte>,
    options: seq<byte>,
    version: seq<byte>,
    serial: seq<byte>)

  /** Each label has its number of registers, and none a NUL. */
  predicate Fit(labels: Labels) {
    && |labels.manufacturer| <= 32 && 0 !in labels.manufacturer
    && |labels.model| <= 32 && 0 !in labels.model
    && |labels.options| <= 16 && 0 !in labels.options
    && |labels.version| <= 16 && 0 !in labels.version
    && |labels.serial| <= 32 && 0 !in labels.serial
  }

  /** The labels in the order of the common model, and whatever registers follow them. */
  function Labelled(labels: Labels, rest: seq<u16>): seq<u16>
    requires Fit(labels)
  {
    Padded(labels.manufacturer, 16) + Padded(labels.model, 16) + Padded(labels.options, 8)
    + Padded(labels.version, 8) + Padded(labels.serial, 16) + rest
  }

  lemma FieldInside(front: seq<u16>, field: seq<u16>, back: seq<u16>)
    ensures Field(front + field + back, |front|, |field|) == field
  {
  }

  lemma PaddedLength(text: seq<byte>, count: nat)
    requires |text| <= 2 * count
    ensures |Padded(text, count)| == count
  {
  }

  lemma LabelsStandApart(labels: Labels, rest: seq<u16>)
    requires Fit(labels)
    ensures var common := Labelled(labels, rest);
            && Field(common, 0, 16) == Padded(labels.manufacturer, 16)
            && Field(common, 16, 16) == Padded(labels.model, 16)
            && Field(common, 32, 8) == Padded(labels.options, 8)
            && Field(common, 40, 8) == Padded(labels.version, 8)
            && Field(common, 48, 16) == Padded(labels.serial, 16)
  {
    hide Padded, Field;
    var a, b, c := Padded(labels.manufacturer, 16), Padded(labels.model, 16), Padded(labels.options, 8);
    var d, e := Padded(labels.version, 8), Padded(labels.serial, 16);
    PaddedLength(labels.manufacturer, 16);
    PaddedLength(labels.model, 16);
    PaddedLength(labels.options, 8);
    PaddedLength(labels.version, 8);
    PaddedLength(labels.serial, 16);
    var common := Labelled(labels, rest);
    assert common == [] + a + (b + c + d + e + rest);
    FieldInside([], a, b + c + d + e + rest);
    assert common == a + b + (c + d + e + rest);
    FieldInside(a, b, c + d + e + rest);
    assert common == (a + b) + c + (d + e + rest);
    FieldInside(a + b, c, d + e + rest);
    assert common == (a + b + c) + d + (e + rest);
    FieldInside(a + b + c, d, e + rest);
    assert common == (a + b + c + d) + e + rest;
    FieldInside(a + b + c + d, e, rest);
  }

  /** The strings of a thing are the labels, each in its place. */
  predicate Carries(thing: Thing, labels: Labels) {
    && thing.strings.manufacturer == labels.manufacturer
    && thing.strings.model == labels.model
    && thing.strings.options == labels.options
    && thing.strings.version == labels.version
    && thing.strings.serial == labels.serial
  }

  lemma LabelsAreRead(endpoint: ModbusEndpoint, unit: byte, labels: Labels, rest: seq<u16>, models: seq<Model>)
    requires Fit(labels)
    ensures Carries(ThingOf(endpoint, unit, Labelled(labels, rest), models), labels)
  {
    hide Text, Padded, Field, Locations, Labelled;
    LabelsStandApart(labels, rest);
    PaddedTextIsReadBack(labels.manufacturer, 16);
    PaddedTextIsReadBack(labels.model, 16);
    PaddedTextIsReadBack(labels.options, 8);
    PaddedTextIsReadBack(labels.version, 8);
    PaddedTextIsReadBack(labels.serial, 16);
  }

  /**
   * A device labelled by its manufacturer and scanned: the thing emitted carries each label in its
   * place, the device's endpoint and unit, and the base address of its registers.
   */
  lemma ScanReadsLabels(
      options: Options, device: Device, endpoint: ModbusEndpoint, index: nat,
      labels: Labels, rest: seq<u16>, models: seq<Model>)
    requires ValidOptions(options) && Fit(labels) && Printable(Labelled(labels, rest), models)
    requires WithinLimits(options, Labelled(labels, rest), models)
    requires if options.fixedUnit.Some? then index == 0 else index < |UnitIds()|
    requires device(UnitAt(options, index)).Some?
    requires HoldsAt(device(UnitAt(options, index)).value, BASE, Image(Labelled(labels, rest), models))
    requires forall i :: 0 <= i < index ==> !Speaks(device, UnitAt(options, i))
    ensures var trace := DriveFromStart(options, device, endpoint).trace;
            && |trace| == 2 && trace[0].Next? && trace[1].Completed?
            && var thing := trace[0].thing;
               && Carries(thing, labels)
               && thing.endpoint == endpoint && thing.unit == UnitAt(options, index) && thing.baseAddress == 40000
  {
    hide DriveFromStart, HoldsAt, Image, Printable, WithinLimits, Locations, StringsOf, Carries, UnitAt, Labelled;
    ScanOfPrintedDevice(options, device, endpoint, index, Labelled(labels, rest), models);
    LabelsAreRead(endpoint, UnitAt(options, index), labels, rest, models);
  }
}
