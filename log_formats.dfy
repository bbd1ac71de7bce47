/** The record layouts of the device log files: a record is a run of
    big-endian fields of fixed widths, and a reader either gets all of them
    or fails with EOFException. */
module LogFormats {
  import opened Wire
  import opened Fields

  const TIMESTAMP: seq<nat> := [8]
  /** writeConfig(int) of the ADS11xx, ADS1114 and ADS1115 streams. */
  const INT_CONFIG: seq<nat> := [4]
  /** A long timestamp, then a float (ADS11xx, ADS1114, ADS1100,
      SingleChannelADC) or an int (Status). */
  const TIMED_WORD: seq<nat> := [8, 4]
  /** ADS1100 writeConfig(int config, float Vdd). */
  const CONFIG_AND_VDD: seq<nat> := [4, 4]
  /** PhidgetBridge writeConfig: serial number, device version, input count,
      gain and data rate. */
  const BRIDGE_CONFIG: seq<nat> := [4, 4, 4, 4, 4]
  /** A long timestamp, then a double (PhidgetBridge). */
  const TIMED_DOUBLE: seq<nat> := [8, 8]
  /** An MS5611 SENSOR_VALUES record: a long timestamp, then the
      temperature and the pressure, each an int of hundredths. */
  const TIMED_PAIR: seq<nat> := [8, 4, 4]
  /** An ITG3205 sensor-values record: a long timestamp and three shorts. */
  const TIMED_TRIPLE: seq<nat> := [8, 2, 2, 2]
  /** A long timestamp, a channel byte and a float (ADS1115). */
  const TIMED_CHANNEL: seq<nat> := [8, 1, 4]

  /** One whole record of the given layout read from the front of s. */
  function Record(ws: seq<nat>, s: seq<uint8>): (r: Result<Parsed<seq<int>>>)
    requires Positive(ws)
    ensures r.Ok? <==> |s| >= Total(ws)
    ensures r.Ok? ==> Fits(ws, r.value.value) && r.value.rest == s[Total(ws)..]
    ensures r.Err? ==> r.error == EOFException
  {
    ReadFieldsShape(ws, s);
    var f := ReadFields(ws, s);
    if |f.values| < |ws| then Err(EOFException)
    else
      assert ws[..|f.values|] == ws;
      Ok(Parsed(f.values, f.rest))
  }

  /** Reading a record back from its encoding gives its values and leaves the
      bytes after it. */
  lemma RecordOfEncoding(ws: seq<nat>, vs: seq<int>, rest: seq<uint8>)
    requires Fits(ws, vs)
    ensures Positive(ws)
    ensures Record(ws, EncodeFields(ws, vs) + rest) == Ok(Parsed(vs, rest))
  {
    ReadEncodedFields(ws, vs, rest);
  }

  /** What a reader method hands back for parse p of its input, and what
      input it leaves: the value and the bytes after it, or EOFException
      with the input used up. */
  predicate Delivered<T(==)>(p: Result<Parsed<T>>, r: Result<T>, left: seq<uint8>)
  {
    if p.Ok? then r == Ok(p.value.value) && left == p.value.rest
    else r == Err(EOFException) && left == []
  }

  // ---- Typed records ----

  datatype FloatReading = FloatReading(timestamp: int64, value: FloatBits)
  datatype IntReading = IntReading(timestamp: int64, value: int32)
  datatype DoubleReading = DoubleReading(timestamp: int64, value: DoubleBits)
  datatype ChannelReading = ChannelReading(timestamp: int64, channel: int8, value: FloatBits)
  datatype PairReading = PairReading(timestamp: int64, first: int32, second: int32)
  datatype TripleReading = TripleReading(timestamp: int64, x: int16, y: int16, z: int16)
  datatype VddConfig = VddConfig(config: int32, vdd: FloatBits)
  datatype BridgeConfig = BridgeConfig(serialNumber: int32, deviceVersion: int32, inputCount: int32,
                                       gain: int32, dataRate: int32)

  lemma ValueRanges(ws: seq<nat>, vs: seq<int>)
    requires Fits(ws, vs)
    ensures forall i | 0 <= i < |ws| && ws[i] == 1 :: -0x80 <= vs[i] < 0x80
    ensures forall i | 0 <= i < |ws| && ws[i] == 2 :: -0x8000 <= vs[i] < 0x8000
    ensures forall i | 0 <= i < |ws| && ws[i] == 4 :: -0x8000_0000 <= vs[i] < 0x8000_0000
    ensures forall i | 0 <= i < |ws| && ws[i] == 8 :: -0x8000_0000_0000_0000 <= vs[i] < 0x8000_0000_0000_0000
  {
    WidthBounds();
  }

  function Long(s: seq<uint8>): (r: Result<Parsed<int64>>)
    ensures r.Ok? <==> |s| >= 8
    ensures r.Ok? ==> r.value.rest == s[8..]
    ensures r.Err? ==> r.error == EOFException
  {
    var p :- Record(TIMESTAMP, s);
    ValueRanges(TIMESTAMP, p.value);
    Ok(Parsed(p.value[0], p.rest))
  }

  function Int(s: seq<uint8>): (r: Result<Parsed<int32>>)
    ensures r.Ok? <==> |s| >= 4
    ensures r.Ok? ==> r.value.rest == s[4..]
    ensures r.Err? ==> r.error == EOFException
  {
    var p :- Record(INT_CONFIG, s);
    ValueRanges(INT_CONFIG, p.value);
    Ok(Parsed(p.value[0], p.rest))
  }

  function TimedFloat(s: seq<uint8>): (r: Result<Parsed<FloatReading>>)
    ensures r.Ok? <==> |s| >= 12
    ensures r.Ok? ==> r.value.rest == s[12..]
    ensures r.Err? ==> r.error == EOFException
  {
    var p :- Record(TIMED_WORD, s);
    ValueRanges(TIMED_WORD, p.value);
    Ok(Parsed(FloatReading(p.value[0], p.value[1]), p.rest))
  }

  function TimedInt(s: seq<uint8>): (r: Result<Parsed<IntReading>>)
    ensures r.Ok? <==> |s| >= 12
    ensures r.Ok? ==> r.value.rest == s[12..]
    ensures r.Err? ==> r.error == EOFException
  {
    var p :- Record(TIMED_WORD, s);
    ValueRanges(TIMED_WORD, p.value);
    Ok(Parsed(IntReading(p.value[0], p.value[1]), p.rest))
  }

  function TimedPair(s: seq<uint8>): (r: Result<Parsed<PairReading>>)
    ensures r.Ok? <==> |s| >= 16
    ensures r.Ok? ==> r.value.rest == s[16..]
    ensures r.Err? ==> r.error == EOFException
  {
    var p :- Record(TIMED_PAIR, s);
    ValueRanges(TIMED_PAIR, p.value);
    Ok(Parsed(PairReading(p.value[0], p.value[1], p.value[2]), p.rest))
  }

  function TimedTriple(s: seq<uint8>): (r: Result<Parsed<TripleReading>>)
    ensures r.Ok? <==> |s| >= 14
    ensures r.Ok? ==> r.value.rest == s[14..]
    ensures r.Err? ==> r.error == EOFException
  {
    var p :- Record(TIMED_TRIPLE, s);
    ValueRanges(TIMED_TRIPLE, p.value);
    Ok(Parsed(TripleReading(p.value[0], p.value[1], p.value[2], p.value[3]), p.rest))
  }

  function TimedDouble(s: seq<uint8>): (r: Result<Parsed<DoubleReading>>)
    ensures r.Ok? <==> |s| >= 16
    ensures r.Ok? ==> r.value.rest == s[16..]
    ensures r.Err? ==> r.error == EOFException
  {
    var p :- Record(TIMED_DOUBLE, s);
    ValueRanges(TIMED_DOUBLE, p.value);
    Ok(Parsed(DoubleReading(p.value[0], p.value[1]), p.rest))
  }

  function TimedChannel(s: seq<uint8>): (r: Result<Parsed<ChannelReading>>)
    ensures r.Ok? <==> |s| >= 13
    ensures r.Ok? ==> r.value.rest == s[13..]
    ensures r.Err? ==> r.error == EOFException
  {
    var p :- Record(TIMED_CHANNEL, s);
    ValueRanges(TIMED_CHANNEL, p.value);
    Ok(Parsed(ChannelReading(p.value[0], p.value[1], p.value[2]), p.rest))
  }

  function ConfigAndVdd(s: seq<uint8>): (r: Result<Parsed<VddConfig>>)
    ensures r.Ok? <==> |s| >= 8
    ensures r.Ok? ==> r.value.rest == s[8..]
    ensures r.Err? ==> r.error == EOFException
  {
    var p :- Record(CONFIG_AND_VDD, s);
    ValueRanges(CONFIG_AND_VDD, p.value);
    Ok(Parsed(VddConfig(p.value[0], p.value[1]), p.rest))
  }

  function Bridge(s: seq<uint8>): (r: Result<Parsed<BridgeConfig>>)
    ensures r.Ok? <==> |s| >= 20
    ensures r.Ok? ==> r.value.rest == s[20..]
    ensures r.Err? ==> r.error == EOFException
  {
    var p :- Record(BRIDGE_CONFIG, s);
    ValueRanges(BRIDGE_CONFIG, p.value);
    Ok(Parsed(BridgeConfig(p.value[0], p.value[1], p.value[2], p.value[3], p.value[4]), p.rest))
  }

  // ---- What the writers put out, and the round trips ----

  /** A timestamp followed by a 32-bit word, the layout float readings
      (as their bits) and int readings share. */
  function TimedWordBytes(timestamp: int64, word: int32): (b: seq<uint8>)
    ensures |b| == 12
  {
    EncodeLong(timestamp) + EncodeInt(word)
  }

  function FloatReadingBytes(r: FloatReading): seq<uint8>
  {
    TimedWordBytes(r.timestamp, r.value)
  }

  function IntReadingBytes(r: IntReading): seq<uint8>
  {
    TimedWordBytes(r.timestamp, r.value)
  }

  function DoubleReadingBytes(r: DoubleReading): (b: seq<uint8>)
    ensures |b| == 16
  {
    EncodeLong(r.timestamp) + EncodeLong(r.value)
  }

  function PairReadingBytes(r: PairReading): (b: seq<uint8>)
    ensures |b| == 16
  {
    EncodeLong(r.timestamp) + EncodeInt(r.first) + EncodeInt(r.second)
  }

  function TripleReadingBytes(r: TripleReading): (b: seq<uint8>)
    ensures |b| == 14
  {
    EncodeLong(r.timestamp) + EncodeShort(r.x) + EncodeShort(r.y) + EncodeShort(r.z)
  }

  function ChannelReadingBytes(r: ChannelReading): (b: seq<uint8>)
    ensures |b| == 13
  {
    EncodeLong(r.timestamp) + EncodeByte(r.channel) + EncodeInt(r.value)
  }

  function VddConfigBytes(c: VddConfig): (b: seq<uint8>)
    ensures |b| == 8
  {
    EncodeInt(c.config) + EncodeInt(c.vdd)
  }

  function BridgeConfigBytes(c: BridgeConfig): (b: seq<uint8>)
    ensures |b| == 20
  {
    EncodeInt(c.serialNumber) + EncodeInt(c.deviceVersion) + EncodeInt(c.inputCount)
      + EncodeInt(c.gain) + EncodeInt(c.dataRate)
  }

  lemma LongRoundTrip(t: int64, rest: seq<uint8>)
    ensures Long(EncodeLong(t) + rest) == Ok(Parsed(t, rest))
  {
    WidthBounds();
    assert EncodeFields(TIMESTAMP, [t]) == EncodeLong(t);
    RecordOfEncoding(TIMESTAMP, [t], rest);
  }

  lemma IntRoundTrip(c: int32, rest: seq<uint8>)
    ensures Int(EncodeInt(c) + rest) == Ok(Parsed(c, rest))
  {
    WidthBounds();
    assert EncodeFields(INT_CONFIG, [c]) == EncodeInt(c);
    RecordOfEncoding(INT_CONFIG, [c], rest);
  }

  lemma FloatReadingRoundTrip(r: FloatReading, rest: seq<uint8>)
    ensures TimedFloat(FloatReadingBytes(r) + rest) == Ok(Parsed(r, rest))
  {
    WidthBounds();
    var vs := [r.timestamp as int, r.value as int];
    assert EncodeFields(TIMED_WORD, vs) == FloatReadingBytes(r);
    RecordOfEncoding(TIMED_WORD, vs, rest);
  }

  lemma IntReadingRoundTrip(r: IntReading, rest: seq<uint8>)
    ensures TimedInt(IntReadingBytes(r) + rest) == Ok(Parsed(r, rest))
  {
    WidthBounds();
    var vs := [r.timestamp as int, r.value as int];
    assert EncodeFields(TIMED_WORD, vs) == IntReadingBytes(r);
    RecordOfEncoding(TIMED_WORD, vs, rest);
  }

  lemma PairReadingRoundTrip(r: PairReading, rest: seq<uint8>)
    ensures TimedPair(PairReadingBytes(r) + rest) == Ok(Parsed(r, rest))
  {
    WidthBounds();
    var vs := [r.timestamp as int, r.first as int, r.second as int];
    assert EncodeFields(TIMED_PAIR, vs) == PairReadingBytes(r);
    RecordOfEncoding(TIMED_PAIR, vs, rest);
  }

  lemma TripleReadingRoundTrip(r: TripleReading, rest: seq<uint8>)
    ensures TimedTriple(TripleReadingBytes(r) + rest) == Ok(Parsed(r, rest))
  {
    WidthBounds();
    var vs := [r.timestamp as int, r.x as int, r.y as int, r.z as int];
    assert EncodeFields(TIMED_TRIPLE, vs) == TripleReadingBytes(r);
    RecordOfEncoding(TIMED_TRIPLE, vs, rest);
  }

  lemma DoubleReadingRoundTrip(r: DoubleReading, rest: seq<uint8>)
    ensures TimedDouble(DoubleReadingBytes(r) + rest) == Ok(Parsed(r, rest))
  {
    WidthBounds();
    var vs := [r.timestamp as int, r.value as int];
    assert EncodeFields(TIMED_DOUBLE, vs) == DoubleReadingBytes(r);
    RecordOfEncoding(TIMED_DOUBLE, vs, rest);
  }

  lemma ChannelReadingRoundTrip(r: ChannelReading, rest: seq<uint8>)
    ensures TimedChannel(ChannelReadingBytes(r) + rest) == Ok(Parsed(r, rest))
  {
    WidthBounds();
    var vs := [r.timestamp as int, r.channel as int, r.value as int];
    assert EncodeFields(TIMED_CHANNEL, vs) == ChannelReadingBytes(r);
    RecordOfEncoding(TIMED_CHANNEL, vs, rest);
  }

  lemma VddConfigRoundTrip(c: VddConfig, rest: seq<uint8>)
    ensures ConfigAndVdd(VddConfigBytes(c) + rest) == Ok(Parsed(c, rest))
  {
    WidthBounds();
    var vs := [c.config as int, c.vdd as int];
    assert EncodeFields(CONFIG_AND_VDD, vs) == VddConfigBytes(c);
    RecordOfEncoding(CONFIG_AND_VDD, vs, rest);
  }

  lemma BridgeConfigRoundTrip(c: BridgeConfig, rest: seq<uint8>)
    ensures Bridge(BridgeConfigBytes(c) + rest) == Ok(Parsed(c, rest))
  {
    WidthBounds();
    var vs := [c.serialNumber as int, c.deviceVersion as int, c.inputCount as int, c.gain as int, c.dataRate as int];
    assert EncodeFields(BRIDGE_CONFIG, vs) == BridgeConfigBytes(c);
    RecordOfEncoding(BRIDGE_CONFIG, vs, rest);
  }
}
