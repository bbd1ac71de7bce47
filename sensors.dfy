/** The shared telemetry snapshot (edu.sdsu.rocket.core.models.Sensors) and
    its mask-selected ByteBuffer codec. A mask bit selects a category; the
    categories always travel in the order analog, GPS, radio, system,
    phidgets, whatever their bit positions. */
module SensorsCodec {
  import opened Wire
  import opened NioBuffer

  /** The six analog channels, each one packed AtomicIntFloat word. */
  type AnalogWords = s: seq<int64> | |s| == 6 witness [0, 0, 0, 0, 0, 0]

  /** Everything the codec reads or writes. The GPS, radio and system status
      holders are reduced to the fields the codec touches. */
  datatype Snapshot = Snapshot(
    analog: AnalogWords,
    latitude: DoubleBits,
    longitude: DoubleBits,
    altitude: DoubleBits,
    fixStatus: int32,
    satellites: int32,
    signalStrength: int32,
    rawTemperature: int32,
    phidgetsInt: int32,
    phidgetsDouble: DoubleBits)

  const ANALOG_MASK: int8 := 0x01
  const SYSTEM_MASK: int8 := 0x02
  const GPS_MASK: int8 := 0x04
  const RADIO_MASK: int8 := 0x08
  const PHIDGETS_MASK: int8 := 0x10
  /** (byte) 0b1111_1111 */
  const ALL_MASK: int8 := -1

  /** Both codec directions replace a zero mask by ALL_MASK. */
  function EffectiveMask(mask: int8): (m: int8)
    ensures m != 0
    ensures mask != 0 ==> m == mask
  {
    if mask == 0 then ALL_MASK else mask
  }

  /** A category of the snapshot, with the mask bit that selects it. */
  datatype Category = AnalogData | GpsData | RadioData | SystemData | PhidgetsData

  /** The mask selects category c: its bit is set. */
  predicate Chosen(m: int8, c: Category)
  {
    match c
    case AnalogData => Selects(m, ANALOG_MASK)
    case GpsData => Selects(m, GPS_MASK)
    case RadioData => Selects(m, RADIO_MASK)
    case SystemData => Selects(m, SYSTEM_MASK)
    case PhidgetsData => Selects(m, PHIDGETS_MASK)
  }

  /** The order of the sections on the wire. */
  const WIRE_ORDER: seq<Category> := [AnalogData, GpsData, RadioData, SystemData, PhidgetsData]

  /** The bytes of each section. */
  function Size(c: Category): nat
  {
    match c
    case AnalogData => 48
    case GpsData => 26
    case RadioData => 1
    case SystemData => 4
    case PhidgetsData => 12
  }

  /** Two snapshots agree on the fields of category c. */
  predicate SameCategory(a: Snapshot, b: Snapshot, c: Category)
  {
    match c
    case AnalogData => a.analog == b.analog
    case GpsData =>
      a.latitude == b.latitude && a.longitude == b.longitude && a.altitude == b.altitude
      && a.fixStatus == b.fixStatus && a.satellites == b.satellites
    case RadioData => a.signalStrength == b.signalStrength
    case SystemData => a.rawTemperature == b.rawTemperature
    case PhidgetsData => a.phidgetsInt == b.phidgetsInt && a.phidgetsDouble == b.phidgetsDouble
  }

  // ---- Encoding ----

  /** The analog words from channel i on, one long each. */
  function ChannelBytes(words: AnalogWords, i: nat): (b: seq<uint8>)
    requires i <= 6
    ensures |b| == 8 * (6 - i)
    decreases 6 - i
  {
    if i == 6 then [] else EncodeLong(words[i]) + ChannelBytes(words, i + 1)
  }

  /** The puts of one section. Fix status, satellites and signal strength
      are Java ints put as `(byte) (v & 0xFF)`. */
  function SectionBytes(s: Snapshot, c: Category): (b: seq<uint8>)
    ensures |b| == Size(c)
  {
    match c
    case AnalogData => ChannelBytes(s.analog, 0)
    case GpsData =>
      EncodeLong(s.latitude) + (EncodeLong(s.longitude) + (EncodeLong(s.altitude)
      + (EncodeByte(LowByte(s.fixStatus)) + EncodeByte(LowByte(s.satellites)))))
    case RadioData => EncodeByte(LowByte(s.signalStrength))
    case SystemData => EncodeInt(s.rawTemperature)
    case PhidgetsData => EncodeInt(s.phidgetsInt) + EncodeLong(s.phidgetsDouble)
  }

  /** The selected sections among cs, in order. */
  function EncodeSections(s: Snapshot, m: int8, cs: seq<Category>): seq<uint8>
  {
    if cs == [] then []
    else (if Chosen(m, cs[0]) then SectionBytes(s, cs[0]) else []) + EncodeSections(s, m, cs[1..])
  }

  /** The bytes toByteBuffer(buffer, mask) puts. */
  function Encode(s: Snapshot, mask: int8): seq<uint8>
  {
    EncodeSections(s, EffectiveMask(mask), WIRE_ORDER)
  }

  function SizeSections(m: int8, cs: seq<Category>): nat
  {
    if cs == [] then 0
    else (if Chosen(m, cs[0]) then Size(cs[0]) else 0) + SizeSections(m, cs[1..])
  }

  /** The number of bytes a mask selects. */
  function EncodedLength(mask: int8): nat
  {
    SizeSections(EffectiveMask(mask), WIRE_ORDER)
  }

  // ---- Decoding, one relative get at a time ----

  /** The state of a decode: the snapshot so far, the bytes not yet read, and
      whether every get so far succeeded. */
  datatype Decoding = Decoding(snap: Snapshot, rest: seq<uint8>, ok: bool)

  /** A snapshot field that one get assigns. */
  datatype Field =
    | Analog(channel: nat)
    | Latitude | Longitude | Altitude | FixStatus | Satellites
    | SignalStrength
    | RawTemperature

  predicate ValidField(f: Field)
  {
    f.Analog? ==> f.channel < 6
  }

  function Width(f: Field): nat
  {
    match f
    case Analog(_) => 8
    case Latitude => 8
    case Longitude => 8
    case Altitude => 8
    case FixStatus => 1
    case Satellites => 1
    case SignalStrength => 1
    case RawTemperature => 4
  }

  function Assign(s: Snapshot, f: Field, v: int): Snapshot
    requires ValidField(f) && Width(f) > 0 && InSigned(Width(f), v)
  {
    WidthBounds();
    match f
    case Analog(i) => s.(analog := s.analog[i := v])
    case Latitude => s.(latitude := v)
    case Longitude => s.(longitude := v)
    case Altitude => s.(altitude := v)
    case FixStatus => s.(fixStatus := v)
    case Satellites => s.(satellites := v)
    case SignalStrength => s.(signalStrength := v)
    case RawTemperature => s.(rawTemperature := v)
  }

  /** One relative get into one field: underflow stops the decode and leaves
      the position where it was. */
  function Get(d: Decoding, f: Field): Decoding
    requires ValidField(f)
  {
    if !d.ok then d
    else
      var p := ReadSigned(Width(f), d.rest);
      if p.Err? then d.(ok := false)
      else Decoding(Assign(d.snap, f, p.value.value), p.value.rest, true)
  }

  /** The gets of channels i to 5. */
  function GetChannels(d: Decoding, i: nat): Decoding
    requires i <= 6
    decreases 6 - i
  {
    if i == 6 then d else GetChannels(Get(d, Analog(i)), i + 1)
  }

  /** phidgets.set(getInt(), getDouble()): both gets happen before the pair is
      stored, so a short double leaves the pair as it was, with the int read. */
  function GetPhidgets(d: Decoding): Decoding
  {
    if !d.ok then d
    else
      var i := ReadSigned(4, d.rest);
      if i.Err? then d.(ok := false)
      else
        var x := ReadSigned(8, i.value.rest);
        if x.Err? then Decoding(d.snap, i.value.rest, false)
        else
          WidthBounds();
          Decoding(d.snap.(phidgetsInt := i.value.value, phidgetsDouble := x.value.value), x.value.rest, true)
  }

  /** The gets of one section. */
  function GetSection(d: Decoding, c: Category): Decoding
  {
    match c
    case AnalogData => GetChannels(d, 0)
    case GpsData => Get(Get(Get(Get(Get(d, Latitude), Longitude), Altitude), FixStatus), Satellites)
    case RadioData => Get(d, SignalStrength)
    case SystemData => Get(d, RawTemperature)
    case PhidgetsData => GetPhidgets(d)
  }

  /** One `if ((mask & FLAG) != 0) { ... }` block of fromByteBuffer. */
  function Step(d: Decoding, m: int8, c: Category): Decoding
  {
    if Chosen(m, c) then GetSection(d, c) else d
  }

  /** The selected sections among cs, read in order. */
  function DecodeSections(d: Decoding, m: int8, cs: seq<Category>): Decoding
    decreases |cs|
  {
    if cs == [] then d
    else DecodeSections(Step(d, m, cs[0]), m, cs[1..])
  }

  /** What fromByteBuffer(buffer, mask) does to the snapshot and the buffer. */
  function Decode(d: Decoding, mask: int8): Decoding
  {
    DecodeSections(d, EffectiveMask(mask), WIRE_ORDER)
  }

  /** `s` with the fields of category c taken from `t` as they arrive: fix
      status, satellites and signal strength travel as one byte, so only the
      signed value of their low 8 bits comes back. */
  function TakeSection(s: Snapshot, t: Snapshot, c: Category): Snapshot
  {
    match c
    case AnalogData => s.(analog := t.analog)
    case GpsData => s.(latitude := t.latitude, longitude := t.longitude, altitude := t.altitude,
      fixStatus := LowByte(t.fixStatus), satellites := LowByte(t.satellites))
    case RadioData => s.(signalStrength := LowByte(t.signalStrength))
    case SystemData => s.(rawTemperature := t.rawTemperature)
    case PhidgetsData => s.(phidgetsInt := t.phidgetsInt, phidgetsDouble := t.phidgetsDouble)
  }

  function ReceiveSections(s: Snapshot, t: Snapshot, m: int8, cs: seq<Category>): Snapshot
    decreases |cs|
  {
    if cs == [] then s
    else ReceiveSections(if Chosen(m, cs[0]) then TakeSection(s, t, cs[0]) else s, t, m, cs[1..])
  }

  /** `s` after receiving the categories `mask` selects from `t`. */
  function Received(s: Snapshot, t: Snapshot, mask: int8): Snapshot
  {
    ReceiveSections(s, t, EffectiveMask(mask), WIRE_ORDER)
  }

  // ---- Properties of the mask and the layout ----

  /** A zero mask is the full mask, in both directions, and selects all 91
      bytes. */
  lemma ZeroMaskIsAll(s: Snapshot, d: Decoding)
    ensures Encode(s, 0) == Encode(s, ALL_MASK)
    ensures Decode(d, 0) == Decode(d, ALL_MASK)
    ensures EncodedLength(0) == 91
  {
    assert WIRE_ORDER[1..][1..][1..][1..][1..] == [];
  }

  lemma {:induction false} SectionsLength(s: Snapshot, m: int8, cs: seq<Category>)
    ensures |EncodeSections(s, m, cs)| == SizeSections(m, cs)
    decreases |cs|
  {
    if cs != [] {
      SectionsLength(s, m, cs[1..]);
    }
  }

  /** The encoding is as long as the selected sections together. */
  lemma EncodeLength(s: Snapshot, mask: int8)
    ensures |Encode(s, mask)| == EncodedLength(mask)
  {
    SectionsLength(s, EffectiveMask(mask), WIRE_ORDER);
  }

  /** The selected bytes of one section. */
  function Optional(s: Snapshot, m: int8, c: Category): seq<uint8>
  {
    if Chosen(m, (c)) then SectionBytes(s, c) else []
  }

  /** The layout in full: analog, GPS, radio, system, phidgets, each present
      when its bit is set (SYSTEM is bit 1 but travels fourth). */
  lemma EncodeLayout(s: Snapshot, mask: int8)
    ensures var m := EffectiveMask(mask);
      Encode(s, mask) == Optional(s, m, AnalogData) + (Optional(s, m, GpsData) + (Optional(s, m, RadioData)
        + (Optional(s, m, SystemData) + Optional(s, m, PhidgetsData))))
  {
    var m := EffectiveMask(mask);
    var c4: seq<Category> := [PhidgetsData];
    var c3 := [SystemData] + c4;
    var c2 := [RadioData] + c3;
    var c1 := [GpsData] + c2;
    assert WIRE_ORDER == [AnalogData] + c1;
    SectionsCons(s, m, PhidgetsData, []);
    assert c4 == [PhidgetsData] + [];
    SectionsCons(s, m, SystemData, c4);
    SectionsCons(s, m, RadioData, c3);
    SectionsCons(s, m, GpsData, c2);
    SectionsCons(s, m, AnalogData, c1);
  }

  /** One more section in front puts its selected bytes in front. */
  lemma SectionsCons(s: Snapshot, m: int8, c: Category, cs: seq<Category>)
    ensures EncodeSections(s, m, [c] + cs) == Optional(s, m, c) + EncodeSections(s, m, cs)
  {
    assert ([c] + cs)[1..] == cs;
  }

  /** fromByteBuffer is its five blocks in wire order. */
  lemma DecodeLayout(d: Decoding, mask: int8)
    ensures var m := EffectiveMask(mask);
      Decode(d, mask) == Step(Step(Step(Step(Step(d, m, AnalogData), m, GpsData), m, RadioData), m, SystemData), m, PhidgetsData)
  {
    var cs := WIRE_ORDER;
    assert cs[1..][1..] == cs[2..] && cs[2..][1..] == cs[3..] && cs[3..][1..] == cs[4..] && cs[4..][1..] == [];
  }

  // ---- The round trip ----

  /** Decoding an encoded value of field f leaves the bytes after it. */
  lemma GetEncoded(d: Decoding, f: Field, v: int, rest: seq<uint8>)
    requires ValidField(f) && Width(f) > 0 && InSigned(Width(f), v)
    requires d.ok && d.rest == EncodeSigned(Width(f), v) + rest
    ensures Get(d, f) == Decoding(Assign(d.snap, f, v), rest, true)
  {
    ReadEncoded(Width(f), v, rest);
  }

  lemma {:induction false} ChannelsRoundTrip(s: Snapshot, words: AnalogWords, i: nat, rest: seq<uint8>)
    requires i <= 6
    ensures var w: AnalogWords := s.analog[..i] + words[i..];
      GetChannels(Decoding(s, ChannelBytes(words, i) + rest, true), i) == Decoding(s.(analog := w), rest, true)
    decreases 6 - i
  {
    if i == 6 {
      assert s.analog[..6] + words[6..] == s.analog;
    } else {
      WidthBounds();
      var tail := ChannelBytes(words, i + 1) + rest;
      Concat(EncodeLong(words[i]), ChannelBytes(words, i + 1), rest);
      var d := Decoding(s, ChannelBytes(words, i) + rest, true);
      var s' := s.(analog := s.analog[i := words[i]]);
      assert Get(d, Analog(i)) == Decoding(s', tail, true) by {
        GetEncoded(d, Analog(i), words[i], tail);
      }
      ChannelsRoundTrip(s', words, i + 1, rest);
      SpliceStep(s.analog, words, i);
    }
  }

  /** Taking one more element from b after position i. */
  lemma SpliceStep(a: seq<int>, b: seq<int>, i: nat)
    requires i < |a| == |b|
    ensures a[i := b[i]][..i + 1] + b[i + 1..] == a[..i] + b[i..]
  {
    assert a[i := b[i]][..i + 1] == a[..i] + [b[i]];
    assert b[i..] == [b[i]] + b[i + 1..];
  }

  lemma GpsRoundTrip(s: Snapshot, t: Snapshot, rest: seq<uint8>)
    ensures GetSection(Decoding(s, SectionBytes(t, GpsData) + rest, true), GpsData)
         == Decoding(TakeSection(s, t, GpsData), rest, true)
  {
    WidthBounds();
    var fix, sats := LowByte(t.fixStatus), LowByte(t.satellites);
    var r4 := EncodeByte(sats) + rest;
    var r3 := EncodeByte(fix) + r4;
    var r2 := EncodeLong(t.altitude) + r3;
    var r1 := EncodeLong(t.longitude) + r2;
    var d0 := Decoding(s, SectionBytes(t, GpsData) + rest, true);
    assert d0.rest == EncodeLong(t.latitude) + r1;
    GetEncoded(d0, Latitude, t.latitude, r1);
    var s1 := s.(latitude := t.latitude);
    var d1 := Get(d0, Latitude);
    assert d1 == Decoding(s1, r1, true);
    GetEncoded(d1, Longitude, t.longitude, r2);
    var s2 := s1.(longitude := t.longitude);
    var d2 := Get(d1, Longitude);
    assert d2 == Decoding(s2, r2, true);
    GetEncoded(d2, Altitude, t.altitude, r3);
    var s3 := s2.(altitude := t.altitude);
    var d3 := Get(d2, Altitude);
    assert d3 == Decoding(s3, r3, true);
    GetEncoded(d3, FixStatus, fix, r4);
    var s4 := s3.(fixStatus := fix);
    var d4 := Get(d3, FixStatus);
    assert d4 == Decoding(s4, r4, true);
    GetEncoded(d4, Satellites, sats, rest);
    assert Get(d4, Satellites) == Decoding(s4.(satellites := sats), rest, true);
    assert s4.(satellites := sats) == TakeSection(s, t, GpsData);
  }

  /** Reading one encoded section back yields that section's fields as
      received and leaves the bytes after it. */
  lemma SectionRoundTrip(s: Snapshot, t: Snapshot, c: Category, rest: seq<uint8>)
    ensures GetSection(Decoding(s, SectionBytes(t, c) + rest, true), c)
         == Decoding(TakeSection(s, t, c), rest, true)
  {
    WidthBounds();
    match c
    case AnalogData =>
      ChannelsRoundTrip(s, t.analog, 0, rest);
      assert s.analog[..0] + t.analog[0..] == t.analog;
    case GpsData =>
      GpsRoundTrip(s, t, rest);
    case RadioData =>
      GetEncoded(Decoding(s, SectionBytes(t, c) + rest, true), SignalStrength, LowByte(t.signalStrength), rest);
    case SystemData =>
      GetEncoded(Decoding(s, SectionBytes(t, c) + rest, true), RawTemperature, t.rawTemperature, rest);
    case PhidgetsData =>
      PhidgetsRoundTrip(s, t, rest);
  }

  lemma PhidgetsRoundTrip(s: Snapshot, t: Snapshot, rest: seq<uint8>)
    ensures GetPhidgets(Decoding(s, SectionBytes(t, PhidgetsData) + rest, true))
         == Decoding(TakeSection(s, t, PhidgetsData), rest, true)
  {
    WidthBounds();
    assert SectionBytes(t, PhidgetsData) + rest == EncodeSigned(4, t.phidgetsInt) + (EncodeSigned(8, t.phidgetsDouble) + rest);
    ReadEncoded(4, t.phidgetsInt, EncodeSigned(8, t.phidgetsDouble) + rest);
    ReadEncoded(8, t.phidgetsDouble, rest);
  }

  lemma {:induction false} SectionsRoundTrip(s: Snapshot, t: Snapshot, m: int8, cs: seq<Category>, rest: seq<uint8>)
    ensures DecodeSections(Decoding(s, EncodeSections(t, m, cs) + rest, true), m, cs)
         == Decoding(ReceiveSections(s, t, m, cs), rest, true)
    decreases |cs|
  {
    if cs != [] {
      var c := cs[0];
      var tail := EncodeSections(t, m, cs[1..]) + rest;
      if Chosen(m, (c)) {
        assert EncodeSections(t, m, cs) + rest == SectionBytes(t, c) + tail;
        SectionRoundTrip(s, t, c, tail);
        SectionsRoundTrip(TakeSection(s, t, c), t, m, cs[1..], rest);
      } else {
        assert EncodeSections(t, m, cs) + rest == tail;
        SectionsRoundTrip(s, t, m, cs[1..], rest);
      }
    }
  }

  /** fromByteBuffer(toByteBuffer(t, mask), mask) over a snapshot s gives s
      with every selected category taken from t as received, and consumes
      exactly the encoded bytes. */
  lemma DecodeEncode(s: Snapshot, t: Snapshot, mask: int8, rest: seq<uint8>)
    ensures Decode(Decoding(s, Encode(t, mask) + rest, true), mask)
         == Decoding(Received(s, t, mask), rest, true)
  {
    SectionsRoundTrip(s, t, EffectiveMask(mask), WIRE_ORDER, rest);
  }

  /** Receiving replaces exactly the selected categories. */
  lemma {:induction false} ReceiveSectionsSpec(s: Snapshot, t: Snapshot, m: int8, cs: seq<Category>, c: Category)
    ensures Chosen(m, (c)) && c in cs ==> SameCategory(ReceiveSections(s, t, m, cs), TakeSection(s, t, c), c)
    ensures !(Chosen(m, (c)) && c in cs) ==> SameCategory(ReceiveSections(s, t, m, cs), s, c)
    decreases |cs|
  {
    if cs != [] {
      var s' := if Chosen(m, cs[0]) then TakeSection(s, t, cs[0]) else s;
      ReceiveSectionsSpec(s', t, m, cs[1..], c);
      assert c in cs <==> c == cs[0] || c in cs[1..];
    }
  }

  /** A round trip under `mask` replaces a category when the mask selects
      it and keeps it otherwise. */
  lemma ReceivedSpec(s: Snapshot, t: Snapshot, mask: int8, c: Category)
    ensures Chosen(EffectiveMask(mask), c) ==> SameCategory(Received(s, t, mask), TakeSection(s, t, c), c)
    ensures !Chosen(EffectiveMask(mask), c) ==> SameCategory(Received(s, t, mask), s, c)
  {
    ReceiveSectionsSpec(s, t, EffectiveMask(mask), WIRE_ORDER, c);
  }

  // ---- What a decode leaves alone, and what it consumes ----

  lemma {:induction false} ChannelsFrame(d: Decoding, i: nat, c: Category)
    requires i <= 6 && c != AnalogData
    ensures SameCategory(GetChannels(d, i).snap, d.snap, c)
    decreases 6 - i
  {
    if i < 6 {
      ChannelsFrame(Get(d, Analog(i)), i + 1, c);
    }
  }

  function FieldCategory(f: Field): Category
  {
    match f
    case Analog(_) => AnalogData
    case Latitude => GpsData
    case Longitude => GpsData
    case Altitude => GpsData
    case FixStatus => GpsData
    case Satellites => GpsData
    case SignalStrength => RadioData
    case RawTemperature => SystemData
  }

  /** A get assigns only its own field. */
  lemma GetFrame(d: Decoding, f: Field, c: Category)
    requires ValidField(f) && FieldCategory(f) != c
    ensures SameCategory(Get(d, f).snap, d.snap, c)
  {
  }

  /** The gets of a section assign only that section's fields. */
  lemma SectionFrame(d: Decoding, c: Category, other: Category)
    requires c != other
    ensures SameCategory(GetSection(d, c).snap, d.snap, other)
  {
    match c
    case AnalogData =>
      ChannelsFrame(d, 0, other);
    case GpsData =>
      var d1 := Get(d, Latitude);
      var d2 := Get(d1, Longitude);
      var d3 := Get(d2, Altitude);
      var d4 := Get(d3, FixStatus);
      GetFrame(d, Latitude, other);
      GetFrame(d1, Longitude, other);
      GetFrame(d2, Altitude, other);
      GetFrame(d3, FixStatus, other);
      GetFrame(d4, Satellites, other);
    case RadioData =>
      GetFrame(d, SignalStrength, other);
    case SystemData =>
      GetFrame(d, RawTemperature, other);
    case PhidgetsData =>
  }

  lemma {:induction false} SectionsFrame(d: Decoding, m: int8, cs: seq<Category>, c: Category)
    requires !Chosen(m, (c))
    ensures SameCategory(DecodeSections(d, m, cs).snap, d.snap, c)
    decreases |cs|
  {
    if cs != [] {
      var d' := Step(d, m, cs[0]);
      if Chosen(m, cs[0]) {
        SectionFrame(d, cs[0], c);
      }
      SectionsFrame(d', m, cs[1..], c);
    }
  }

  /** Whatever the bytes, fromByteBuffer never touches a category the mask
      does not select. */
  lemma DecodeLeavesUnselected(d: Decoding, mask: int8, c: Category)
    requires !Chosen(EffectiveMask(mask), c)
    ensures SameCategory(Decode(d, mask).snap, d.snap, c)
  {
    SectionsFrame(d, EffectiveMask(mask), WIRE_ORDER, c);
  }

  lemma GetShape(d: Decoding, f: Field)
    requires ValidField(f)
    ensures Get(d, f).ok <==> d.ok && |d.rest| >= Width(f)
    ensures Get(d, f).ok ==> Get(d, f).rest == d.rest[Width(f)..]
    ensures !d.ok ==> Get(d, f) == d
  {
  }

  lemma {:induction false} ChannelsShape(d: Decoding, i: nat)
    requires i <= 6
    ensures GetChannels(d, i).ok <==> d.ok && |d.rest| >= 8 * (6 - i)
    ensures GetChannels(d, i).ok ==> GetChannels(d, i).rest == d.rest[8 * (6 - i)..]
    ensures !d.ok ==> GetChannels(d, i) == d
    decreases 6 - i
  {
    if i < 6 {
      GetShape(d, Analog(i));
      ChannelsShape(Get(d, Analog(i)), i + 1);
    }
  }

  lemma GpsShape(d: Decoding)
    ensures GetSection(d, GpsData).ok <==> d.ok && |d.rest| >= 26
    ensures GetSection(d, GpsData).ok ==> GetSection(d, GpsData).rest == d.rest[26..]
    ensures !d.ok ==> GetSection(d, GpsData) == d
  {
    var d3 := Get(Get(Get(d, Latitude), Longitude), Altitude);
    PositionShape(d);
    FixShape(d3);
    AdvancesThen(d, d3, Get(Get(d3, FixStatus), Satellites), 24, 2);
  }

  /** The fix status and satellite count gets take 2 bytes. */
  lemma FixShape(d: Decoding)
    ensures Advances(d, Get(Get(d, FixStatus), Satellites), 2)
  {
    var d1 := Get(d, FixStatus);
    assert Advances(d, d1, 1) by { GetShape(d, FixStatus); }
    assert Advances(d1, Get(d1, Satellites), 1) by { GetShape(d1, Satellites); }
    AdvancesThen(d, d1, Get(d1, Satellites), 1, 1);
  }

  /** The latitude, longitude and altitude gets take 24 bytes. */
  lemma PositionShape(d: Decoding)
    ensures Advances(d, Get(Get(Get(d, Latitude), Longitude), Altitude), 24)
  {
    var d1 := Get(d, Latitude);
    var d2 := Get(d1, Longitude);
    assert Advances(d, d1, 8) by { GetShape(d, Latitude); }
    assert Advances(d1, d2, 8) by { GetShape(d1, Longitude); }
    assert Advances(d2, Get(d2, Altitude), 8) by { GetShape(d2, Altitude); }
    AdvancesThen(d, d1, d2, 8, 8);
    AdvancesThen(d, d2, Get(d2, Altitude), 16, 8);
  }

  /** e is what a decode from d leaves after n more bytes, or d itself once
      it has failed. */
  predicate Advances(d: Decoding, e: Decoding, n: nat)
  {
    (e.ok <==> d.ok && |d.rest| >= n) && (e.ok ==> e.rest == d.rest[n..]) && (!d.ok ==> e == d)
  }

  lemma AdvancesThen(d: Decoding, e: Decoding, f: Decoding, a: nat, b: nat)
    requires Advances(d, e, a) && Advances(e, f, b)
    ensures Advances(d, f, a + b)
  {
    if f.ok {
      assert d.rest[a..][b..] == d.rest[a + b..];
    }
  }

  lemma SectionShape(d: Decoding, c: Category)
    ensures GetSection(d, c).ok <==> d.ok && |d.rest| >= Size(c)
    ensures GetSection(d, c).ok ==> GetSection(d, c).rest == d.rest[Size(c)..]
    ensures !d.ok ==> GetSection(d, c) == d
  {
    match c
    case AnalogData =>
      ChannelsShape(d, 0);
    case GpsData =>
      GpsShape(d);
    case RadioData =>
      GetShape(d, SignalStrength);
    case SystemData =>
      GetShape(d, RawTemperature);
    case PhidgetsData =>
      PhidgetsShape(d);
  }

  /** The Phidgets int and double gets take 12 bytes. */
  lemma PhidgetsShape(d: Decoding)
    ensures Advances(d, GetPhidgets(d), 12)
  {
    if d.ok && |d.rest| >= 4 {
      var t := ReadSigned(4, d.rest).value.rest;
      assert t == d.rest[4..];
      if |t| >= 8 {
        assert ReadSigned(8, t).value.rest == t[8..];
        assert t[8..] == d.rest[12..];
      }
    }
  }

  lemma {:induction false} SectionsShape(d: Decoding, m: int8, cs: seq<Category>)
    ensures DecodeSections(d, m, cs).ok <==> d.ok && |d.rest| >= SizeSections(m, cs)
    ensures DecodeSections(d, m, cs).ok ==> DecodeSections(d, m, cs).rest == d.rest[SizeSections(m, cs)..]
    ensures !d.ok ==> DecodeSections(d, m, cs) == d
    decreases |cs|
  {
    if cs != [] {
      var d' := Step(d, m, cs[0]);
      SectionShape(d, cs[0]);
      SectionsShape(d', m, cs[1..]);
    }
  }

  /** fromByteBuffer succeeds exactly when the buffer holds the bytes the
      mask selects, and then consumes exactly those. */
  lemma DecodeConsumes(s: Snapshot, bytes: seq<uint8>, mask: int8)
    ensures Decode(Decoding(s, bytes, true), mask).ok <==> |bytes| >= EncodedLength(mask)
    ensures Decode(Decoding(s, bytes, true), mask).ok ==> Decode(Decoding(s, bytes, true), mask).rest == bytes[EncodedLength(mask)..]
  {
    SectionsShape(Decoding(s, bytes, true), EffectiveMask(mask), WIRE_ORDER);
  }

  // ---- The object ----

  /** The Sensors object: the analog words live in a six-cell array that the
      codec overwrites cell by cell; the other categories are fields. */
  class Sensors {
    const analog: array<int64>
    var latitude: DoubleBits
    var longitude: DoubleBits
    var altitude: DoubleBits
    var fixStatus: int32
    var satellites: int32
    var signalStrength: int32
    var rawTemperature: int32
    var phidgetsInt: int32
    var phidgetsDouble: DoubleBits

    ghost predicate Valid()
      reads this
    {
      analog.Length == 6
    }

    function State(): Snapshot
      reads this, analog
      requires Valid()
    {
      Snapshot(analog[..], latitude, longitude, altitude, fixStatus, satellites,
               signalStrength, rawTemperature, phidgetsInt, phidgetsDouble)
    }

    /** Every channel starts as AtomicIntFloat's default word 0. */
    constructor ()
      ensures Valid() && fresh(analog)
      ensures State() == Snapshot([0, 0, 0, 0, 0, 0], 0, 0, 0, 0, 0, 0, 0, 0, 0)
    {
      analog := new int64[6](_ => 0);
      latitude, longitude, altitude := 0, 0, 0;
      fixStatus, satellites, signalStrength, rawTemperature := 0, 0, 0, 0;
      phidgetsInt, phidgetsDouble := 0, 0;
    }

    /** toByteBuffer(buffer, mask): the selected sections, one relative put
        per value; an overflow stops the encoding part way, keeping what was
        already put. */
    method ToByteBuffer(buffer: ByteBuffer, mask: int8) returns (r: Result<()>)
      requires Valid() && buffer.Valid()
      modifies buffer
      ensures buffer.Valid() && |buffer.content| == |old(buffer.content)|
      ensures r.Ok? <==> EncodedLength(mask) <= |old(buffer.Remaining())|
      ensures r.Ok? ==> buffer.Written() == old(buffer.Written()) + Encode(State(), mask)
      ensures r.Err? ==> r.error == BufferOverflowException
    {
      var m := if mask == 0 then ALL_MASK else mask;
      ghost var s, w0 := State(), buffer.Written();
      ghost var a, g, y := Optional(s, m, AnalogData), Optional(s, m, GpsData), Optional(s, m, RadioData);
      ghost var t, p := Optional(s, m, SystemData), Optional(s, m, PhidgetsData);
      ghost var n := |buffer.Remaining()|;
      assert Encode(s, mask) == a + (g + (y + (t + p))) by {
        EncodeLayout(s, mask);
      }
      assert EncodedLength(mask) == |a| + |g| + |y| + |t| + |p| by {
        EncodeLength(s, mask);
      }
      r := PutIfChosen(buffer, m, AnalogData);
      if r.Err? { return; }
      assert State() == s && |buffer.Remaining()| == n - |a|;
      r := PutIfChosen(buffer, m, GpsData);
      if r.Err? { return; }
      assert State() == s && |buffer.Remaining()| == n - |a| - |g|;
      r := PutIfChosen(buffer, m, RadioData);
      if r.Err? { return; }
      assert State() == s && |buffer.Remaining()| == n - |a| - |g| - |y|;
      r := PutIfChosen(buffer, m, SystemData);
      if r.Err? { return; }
      assert State() == s && |buffer.Remaining()| == n - |a| - |g| - |y| - |t|;
      r := PutIfChosen(buffer, m, PhidgetsData);
      if r.Err? { return; }
      Concat5(w0, a, g, y, t, p);
    }

    /** One `if ((mask & FLAG) != 0) { ... }` block of toByteBuffer. */
    method PutIfChosen(buffer: ByteBuffer, m: int8, c: Category) returns (r: Result<()>)
      requires Valid() && buffer.Valid()
      modifies buffer
      ensures buffer.Valid() && |buffer.content| == |old(buffer.content)|
      ensures r.Ok? <==> |Optional(State(), m, c)| <= |old(buffer.Remaining())|
      ensures r.Ok? ==> buffer.Written() == old(buffer.Written()) + Optional(State(), m, c)
      ensures r.Ok? ==> |buffer.Remaining()| == |old(buffer.Remaining())| - |Optional(State(), m, c)|
      ensures r.Err? ==> r.error == BufferOverflowException
    {
      if Chosen(m, c) {
        r := PutSection(buffer, c);
      } else {
        r := Ok(());
      }
    }

    /** The puts of one section of toByteBuffer. */
    method PutSection(buffer: ByteBuffer, c: Category) returns (r: Result<()>)
      requires Valid() && buffer.Valid()
      modifies buffer
      ensures buffer.Valid() && |buffer.content| == |old(buffer.content)|
      ensures r.Ok? <==> Size(c) <= |old(buffer.Remaining())|
      ensures r.Ok? ==> buffer.Written() == old(buffer.Written()) + SectionBytes(State(), c)
      ensures r.Ok? ==> |buffer.Remaining()| == |old(buffer.Remaining())| - Size(c)
      ensures r.Err? ==> r.error == BufferOverflowException
    {
      WidthBounds();
      match c
      case AnalogData =>
        r := PutChannels(buffer);
      case GpsData =>
        r := PutGps(buffer);
      case RadioData =>
        r := buffer.Put(EncodeByte(LowByte(signalStrength)));
      case SystemData =>
        r := buffer.Put(EncodeInt(rawTemperature));
      case PhidgetsData =>
        ghost var w0 := buffer.Written();
        r := buffer.Put(EncodeInt(phidgetsInt));
        if r.Err? { return; }
        r := buffer.Put(EncodeLong(phidgetsDouble));
        if r.Err? { return; }
        Concat(w0, EncodeInt(phidgetsInt), EncodeLong(phidgetsDouble));
    }

    method PutGps(buffer: ByteBuffer) returns (r: Result<()>)
      requires Valid() && buffer.Valid()
      modifies buffer
      ensures buffer.Valid() && |buffer.content| == |old(buffer.content)|
      ensures r.Ok? <==> 26 <= |old(buffer.Remaining())|
      ensures r.Ok? ==> buffer.Written() == old(buffer.Written()) + SectionBytes(State(), GpsData)
      ensures r.Ok? ==> |buffer.Remaining()| == |old(buffer.Remaining())| - 26
      ensures r.Err? ==> r.error == BufferOverflowException
    {
      WidthBounds();
      ghost var w0 := buffer.Written();
      r := buffer.Put(EncodeLong(latitude));
      if r.Err? { return; }
      r := buffer.Put(EncodeLong(longitude));
      if r.Err? { return; }
      r := buffer.Put(EncodeLong(altitude));
      if r.Err? { return; }
      r := buffer.Put(EncodeByte(LowByte(fixStatus)));
      if r.Err? { return; }
      r := buffer.Put(EncodeByte(LowByte(satellites)));
      if r.Err? { return; }
      Concat5(w0, EncodeLong(latitude), EncodeLong(longitude), EncodeLong(altitude),
        EncodeByte(LowByte(fixStatus)), EncodeByte(LowByte(satellites)));
    }

    method PutChannels(buffer: ByteBuffer) returns (r: Result<()>)
      requires Valid() && buffer.Valid()
      modifies buffer
      ensures buffer.Valid() && |buffer.content| == |old(buffer.content)|
      ensures r.Ok? <==> 48 <= |old(buffer.Remaining())|
      ensures r.Ok? ==> buffer.Written() == old(buffer.Written()) + ChannelBytes(analog[..], 0)
      ensures r.Ok? ==> |buffer.Remaining()| == |old(buffer.Remaining())| - 48
      ensures r.Err? ==> r.error == BufferOverflowException
    {
      ghost var w0 := buffer.Written();
      r := buffer.Put(EncodeLong(analog[0]));
      if r.Err? { return; }
      r := buffer.Put(EncodeLong(analog[1]));
      if r.Err? { return; }
      r := buffer.Put(EncodeLong(analog[2]));
      if r.Err? { return; }
      r := buffer.Put(EncodeLong(analog[3]));
      if r.Err? { return; }
      r := buffer.Put(EncodeLong(analog[4]));
      if r.Err? { return; }
      r := buffer.Put(EncodeLong(analog[5]));
      if r.Err? { return; }
      Concat6(w0, EncodeLong(analog[0]), EncodeLong(analog[1]), EncodeLong(analog[2]),
        EncodeLong(analog[3]), EncodeLong(analog[4]), EncodeLong(analog[5]));
      ChannelBytesUnrolled(analog[..]);
    }

    /** fromByteBuffer(buffer, mask): the selected sections, one relative
        get per value. An underflow stops the decode: the values read before
        it stay assigned and the failed get leaves the position alone. */
    method FromByteBuffer(buffer: ByteBuffer, mask: int8) returns (r: Result<()>)
      requires Valid() && buffer.Valid()
      modifies this, analog, buffer`position
      ensures Valid() && buffer.Valid()
      ensures var d := Decode(Decoding(old(State()), old(buffer.Remaining()), true), mask);
        State() == d.snap && buffer.Remaining() == d.rest && (r.Ok? <==> d.ok)
      ensures r.Err? ==> r.error == BufferUnderflowException
    {
      var m := if mask == 0 then ALL_MASK else mask;
      ghost var d := Decoding(State(), buffer.Remaining(), true);
      DecodeLayout(d, mask);
      r := GetIfChosen(buffer, m, AnalogData);
      d := Step(d, m, AnalogData);
      if r.Err? { StaysFailed(d, m); return; }
      r := GetIfChosen(buffer, m, GpsData);
      d := Step(d, m, GpsData);
      if r.Err? { StaysFailed(d, m); return; }
      r := GetIfChosen(buffer, m, RadioData);
      d := Step(d, m, RadioData);
      if r.Err? { StaysFailed(d, m); return; }
      r := GetIfChosen(buffer, m, SystemData);
      d := Step(d, m, SystemData);
      if r.Err? { StaysFailed(d, m); return; }
      r := GetIfChosen(buffer, m, PhidgetsData);
      d := Step(d, m, PhidgetsData);
    }

    /** One `if ((mask & FLAG) != 0) { ... }` block of fromByteBuffer. */
    method GetIfChosen(buffer: ByteBuffer, m: int8, c: Category) returns (r: Result<()>)
      requires Valid() && buffer.Valid()
      modifies this, analog, buffer`position
      ensures Valid() && buffer.Valid()
      ensures var d := Step(Decoding(old(State()), old(buffer.Remaining()), true), m, c);
        State() == d.snap && buffer.Remaining() == d.rest && (r.Ok? <==> d.ok)
      ensures r.Err? ==> r.error == BufferUnderflowException
    {
      if Chosen(m, c) {
        r := GetSectionFrom(buffer, c);
      } else {
        r := Ok(());
      }
    }

    /** The gets of one section of fromByteBuffer. */
    method GetSectionFrom(buffer: ByteBuffer, c: Category) returns (r: Result<()>)
      requires Valid() && buffer.Valid()
      modifies this, analog, buffer`position
      ensures Valid() && buffer.Valid()
      ensures var d := GetSection(Decoding(old(State()), old(buffer.Remaining()), true), c);
        State() == d.snap && buffer.Remaining() == d.rest && (r.Ok? <==> d.ok)
      ensures r.Err? ==> r.error == BufferUnderflowException
    {
      match c
      case AnalogData =>
        r := GetChannelsFrom(buffer);
      case GpsData =>
        r := GetGpsFrom(buffer);
      case RadioData =>
        r := GetField(buffer, SignalStrength);
      case SystemData =>
        r := GetField(buffer, RawTemperature);
      case PhidgetsData =>
        WidthBounds();
        var i := buffer.Get(4);
        if i.Err? { return Err(BufferUnderflowException); }
        var x := buffer.Get(8);
        if x.Err? { return Err(BufferUnderflowException); }
        phidgetsInt, phidgetsDouble := i.value, x.value;
        r := Ok(());
    }

    method GetChannelsFrom(buffer: ByteBuffer) returns (r: Result<()>)
      requires Valid() && buffer.Valid()
      modifies this, analog, buffer`position
      ensures Valid() && buffer.Valid()
      ensures var d := GetChannels(Decoding(old(State()), old(buffer.Remaining()), true), 0);
        State() == d.snap && buffer.Remaining() == d.rest && (r.Ok? <==> d.ok)
      ensures r.Err? ==> r.error == BufferUnderflowException
    {
      ghost var d := Decoding(State(), buffer.Remaining(), true);
      r := GetField(buffer, Analog(0));
      d := Get(d, Analog(0));
      if r.Err? { ChannelsShape(d, 1); return; }
      r := GetField(buffer, Analog(1));
      d := Get(d, Analog(1));
      if r.Err? { ChannelsShape(d, 2); return; }
      r := GetField(buffer, Analog(2));
      d := Get(d, Analog(2));
      if r.Err? { ChannelsShape(d, 3); return; }
      r := GetField(buffer, Analog(3));
      d := Get(d, Analog(3));
      if r.Err? { ChannelsShape(d, 4); return; }
      r := GetField(buffer, Analog(4));
      d := Get(d, Analog(4));
      if r.Err? { ChannelsShape(d, 5); return; }
      r := GetField(buffer, Analog(5));
      d := Get(d, Analog(5));
    }

    method GetGpsFrom(buffer: ByteBuffer) returns (r: Result<()>)
      requires Valid() && buffer.Valid()
      modifies this, analog, buffer`position
      ensures Valid() && buffer.Valid()
      ensures var d := GetSection(Decoding(old(State()), old(buffer.Remaining()), true), GpsData);
        State() == d.snap && buffer.Remaining() == d.rest && (r.Ok? <==> d.ok)
      ensures r.Err? ==> r.error == BufferUnderflowException
    {
      ghost var d := Decoding(State(), buffer.Remaining(), true);
      r := GetField(buffer, Latitude);
      d := Get(d, Latitude);
      if r.Err? { return; }
      r := GetField(buffer, Longitude);
      d := Get(d, Longitude);
      if r.Err? { return; }
      r := GetField(buffer, Altitude);
      d := Get(d, Altitude);
      if r.Err? { return; }
      r := GetField(buffer, FixStatus);
      d := Get(d, FixStatus);
      if r.Err? { return; }
      r := GetField(buffer, Satellites);
      d := Get(d, Satellites);
    }

    /** One `x.set(buffer.getY())` of fromByteBuffer. */
    method GetField(buffer: ByteBuffer, f: Field) returns (r: Result<()>)
      requires Valid() && buffer.Valid() && ValidField(f)
      modifies this, analog, buffer`position
      ensures Valid() && buffer.Valid()
      ensures var d := Get(Decoding(old(State()), old(buffer.Remaining()), true), f);
        State() == d.snap && buffer.Remaining() == d.rest && (r.Ok? <==> d.ok)
      ensures r.Err? ==> r.error == BufferUnderflowException
    {
      WidthBounds();
      var v := buffer.Get(Width(f));
      if v.Err? { return Err(BufferUnderflowException); }
      Store(f, v.value);
      r := Ok(());
    }

    /** The `x.set(value)` half of a get: one field takes the value read. */
    method Store(f: Field, v: int)
      requires Valid() && ValidField(f) && InSigned(Width(f), v)
      modifies this, analog
      ensures Valid() && State() == Assign(old(State()), f, v)
    {
      WidthBounds();
      match f {
        case Analog(i) =>
          analog[i] := v;
          assert analog[..] == old(analog[..])[i := v];
        case Latitude => latitude := v;
        case Longitude => longitude := v;
        case Altitude => altitude := v;
        case FixStatus => fixStatus := v;
        case Satellites => satellites := v;
        case SignalStrength => signalStrength := v;
        case RawTemperature => rawTemperature := v;
      }
    }
  }

  /** Once a get has failed, the later blocks change nothing. */
  lemma StaysFailed(d: Decoding, m: int8)
    requires !d.ok
    ensures Step(d, m, AnalogData) == d && Step(d, m, GpsData) == d && Step(d, m, RadioData) == d
    ensures Step(d, m, SystemData) == d && Step(d, m, PhidgetsData) == d
  {
    SectionShape(d, AnalogData);
    SectionShape(d, GpsData);
  }

  lemma ChannelBytesUnrolled(a: AnalogWords)
    ensures ChannelBytes(a, 0) == EncodeLong(a[0]) + EncodeLong(a[1]) + EncodeLong(a[2])
      + EncodeLong(a[3]) + EncodeLong(a[4]) + EncodeLong(a[5])
  {
  }

  lemma Concat(w0: seq<uint8>, a: seq<uint8>, b: seq<uint8>)
    ensures w0 + a + b == w0 + (a + b)
  {
  }

  lemma Concat6(w0: seq<uint8>, a: seq<uint8>, b: seq<uint8>, c: seq<uint8>, d: seq<uint8>, e: seq<uint8>, f: seq<uint8>)
    ensures w0 + a + b + c + d + e + f == w0 + (a + b + c + d + e + f)
  {
  }

  lemma Concat5(w0: seq<uint8>, a: seq<uint8>, b: seq<uint8>, c: seq<uint8>, d: seq<uint8>, e: seq<uint8>)
    ensures w0 + a + b + c + d + e == w0 + (a + (b + (c + (d + e))))
  {
  }
}
