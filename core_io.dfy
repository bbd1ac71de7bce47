/** The streams of edu.sdsu.rocket.core.io: a timestamp writer and reader
    base, and the Status, SingleChannelADC and tagged ADS1100 logs. Each
    stream is a DataOutputStream or DataInputStream, held here as a field. */
module CoreIo {
  import opened Wire
  import opened DataIo
  import opened LogFormats

  /** DeviceOutputStream: writeTimestamp writes the nanoseconds elapsed on
      the stream's own stopwatch and returns them. */
  class DeviceOutputStream {
    const out: DataOutput
    const stopwatch: Stopwatch

    constructor (out: DataOutput, now: int64)
      ensures this.out == out && fresh(stopwatch) && stopwatch.start == now
    {
      this.out := out;
      stopwatch := new Stopwatch(now);
    }

    method WriteTimestamp(now: int64) returns (t: int64)
      modifies out
      ensures t == stopwatch.Elapsed(now)
      ensures out.written == old(out.written) + EncodeLong(t)
    {
      t := stopwatch.Elapsed(now);
      out.WriteLong(t);
    }
  }

  /** TimestampOutputStream: the same timestamp writer as DeviceOutputStream. */
  class TimestampOutputStream {
    const out: DataOutput
    const stopwatch: Stopwatch

    constructor (out: DataOutput, now: int64)
      ensures this.out == out && fresh(stopwatch) && stopwatch.start == now
    {
      this.out := out;
      stopwatch := new Stopwatch(now);
    }

    method WriteTimestamp(now: int64) returns (t: int64)
      modifies out
      ensures t == stopwatch.Elapsed(now)
      ensures out.written == old(out.written) + EncodeLong(t)
    {
      t := stopwatch.Elapsed(now);
      out.WriteLong(t);
    }
  }

  /** DeviceInputStream: readTimestamp is readLong. */
  class DeviceInputStream {
    const input: DataInput

    constructor (input: DataInput)
      ensures this.input == input
    {
      this.input := input;
    }

    method ReadTimestamp() returns (r: Result<int64>)
      modifies input
      ensures Delivered(Long(old(input.data)), r, input.data)
    {
      var t :- input.ReadBigEndian(8);
      WidthBounds();
      return Ok(t);
    }
  }

  /** TimestampInputStream: readTimestamp is readLong. */
  class TimestampInputStream {
    const input: DataInput

    constructor (input: DataInput)
      ensures this.input == input
    {
      this.input := input;
    }

    method ReadTimestamp() returns (r: Result<int64>)
      modifies input
      ensures Delivered(Long(old(input.data)), r, input.data)
    {
      var t :- input.ReadBigEndian(8);
      WidthBounds();
      return Ok(t);
    }
  }

  /** StatusOutputStream: records of a caller-supplied long timestamp and
      the raw CPU temperature int, with no header. */
  class StatusOutputStream {
    const out: DataOutput

    constructor (out: DataOutput)
      ensures this.out == out
    {
      this.out := out;
    }

    method WriteValue(timestamp: int64, rawCpuTemperature: int32)
      modifies out
      ensures out.written == old(out.written) + IntReadingBytes(IntReading(timestamp, rawCpuTemperature))
    {
      out.WriteLong(timestamp);
      out.WriteInt(rawCpuTemperature);
    }
  }

  class StatusInputStream {
    const input: DataInput

    constructor (input: DataInput)
      ensures this.input == input
    {
      this.input := input;
    }

    method ReadValue() returns (r: Result<IntReading>)
      modifies input
      ensures Delivered(TimedInt(old(input.data)), r, input.data)
    {
      WidthBounds();
      var t :- input.ReadBigEndian(8);
      var v :- input.ReadBigEndian(4);
      return Ok(IntReading(t, v));
    }
  }

  /** SingleChannelADCOutputStream: records of the elapsed time on the
      stream's own stopwatch and a float, with no header. */
  class SingleChannelADCOutputStream {
    const out: DataOutput
    const stopwatch: Stopwatch

    constructor (out: DataOutput, now: int64)
      ensures this.out == out && fresh(stopwatch) && stopwatch.start == now
    {
      this.out := out;
      stopwatch := new Stopwatch(now);
    }

    method WriteValue(now: int64, value: FloatBits) returns (t: int64)
      modifies out
      ensures t == stopwatch.Elapsed(now)
      ensures out.written == old(out.written) + FloatReadingBytes(FloatReading(t, FloatToIntBits(value)))
    {
      t := stopwatch.Elapsed(now);
      out.WriteLong(t);
      out.WriteFloat(value);
    }
  }

  class SingleChannelADCInputStream {
    const input: DataInput

    constructor (input: DataInput)
      ensures this.input == input
    {
      this.input := input;
    }

    method ReadReading() returns (r: Result<FloatReading>)
      modifies input
      ensures Delivered(TimedFloat(old(input.data)), r, input.data)
    {
      WidthBounds();
      var t :- input.ReadBigEndian(8);
      var v :- input.ReadBigEndian(4);
      return Ok(FloatReading(t, v));
    }
  }

  /** The tag byte that opens every record of the ADS1100 log. */
  const SENSOR_VALUE: int8 := 0

  /** ADS1100OutputStream of core.io: a tag byte, the elapsed time and the
      float, per record; no header and no return value. */
  class ADS1100OutputStream {
    const out: DataOutput
    const stopwatch: Stopwatch

    constructor (out: DataOutput, now: int64)
      ensures this.out == out && fresh(stopwatch) && stopwatch.start == now
    {
      this.out := out;
      stopwatch := new Stopwatch(now);
    }

    method WriteValue(now: int64, value: FloatBits)
      modifies out
      ensures out.written == old(out.written) + TaggedBytes(stopwatch.Elapsed(now), value)
    {
      var t := stopwatch.Elapsed(now);
      ghost var before := out.written;
      assert LowByte(SENSOR_VALUE as int) == SENSOR_VALUE;
      out.WriteByte(SENSOR_VALUE);
      out.WriteLong(t);
      out.WriteFloat(value);
      assert out.written == before + (EncodeByte(SENSOR_VALUE) + EncodeLong(t) + EncodeInt(FloatToIntBits(value)));
    }
  }

  /** One record of the tagged ADS1100 log. */
  function TaggedBytes(t: int64, value: FloatBits): (b: seq<uint8>)
    ensures |b| == 13
  {
    EncodeByte(SENSOR_VALUE) + EncodeLong(t) + EncodeInt(FloatToIntBits(value))
  }

  /** A tagged record is the SENSOR_VALUE byte and then a record a
      SingleChannelADC reader reads back. */
  lemma TaggedRecord(t: int64, value: FloatBits, rest: seq<uint8>)
    ensures var b := TaggedBytes(t, value) + rest;
      b[0] == 0 && TimedFloat(b[1..]) == Ok(Parsed(FloatReading(t, FloatToIntBits(value)), rest))
  {
    var r := FloatReading(t, FloatToIntBits(value));
    FloatReadingRoundTrip(r, rest);
    WidthBounds();
    assert EncodeByte(SENSOR_VALUE) == [0];
    assert (TaggedBytes(t, value) + rest)[1..] == FloatReadingBytes(r) + rest;
  }

  /** What readReading returns and the input it leaves. */
  datatype Next<T> = Next(result: Result<Option<T>>, rest: seq<uint8>)

  /** MS5611InputStream.readReading on input s, for the SENSOR_VALUES and
      FAULT tag values of the writer: skip fault records (timestamp and
      code), return the next sensor-values record, null at the end of the
      input, IOException on any other tag. */
  function NextMS5611(s: seq<uint8>, sensorValues: uint8, fault: uint8): (n: Next<PairReading>)
    requires sensorValues != fault
    ensures |n.rest| <= |s|
    ensures s == [] ==> n == Next(Ok(None), [])
    ensures s != [] && s[0] != sensorValues && s[0] != fault ==> n.result == Err(IOException(s[0]))
    decreases |s|
  {
    if s == [] then Next(Ok(None), [])
    else if s[0] == sensorValues then
      match TimedPair(s[1..])
      case Ok(p) => Next(Ok(Some(p.value)), p.rest)
      case Err(e) => Next(Err(e), [])
    else if s[0] == fault then
      match TimedInt(s[1..])
      case Ok(p) => NextMS5611(p.rest, sensorValues, fault)
      case Err(e) => Next(Err(e), [])
    else Next(Err(IOException(s[0])), s[1..])
  }

  class MS5611InputStream {
    const input: DataInput
    /** MS5611OutputStream.SENSOR_VALUES and MS5611OutputStream.FAULT. */
    const sensorValues: uint8
    const fault: uint8

    constructor (input: DataInput, sensorValues: uint8, fault: uint8)
      requires sensorValues != fault
      ensures this.input == input && this.sensorValues == sensorValues && this.fault == fault
    {
      this.input := input;
      this.sensorValues := sensorValues;
      this.fault := fault;
    }

    method ReadReading() returns (r: Result<Option<PairReading>>)
      requires sensorValues != fault
      modifies input
      ensures var n := NextMS5611(old(input.data), sensorValues, fault);
        r == n.result && input.data == n.rest
    {
      WidthBounds();
      while true
        invariant NextMS5611(input.data, sensorValues, fault) == NextMS5611(old(input.data), sensorValues, fault)
        decreases |input.data|
      {
        var tag := input.Read();
        if tag == -1 {
          return Ok(None);
        }
        if tag == sensorValues {
          var t :- input.ReadBigEndian(8);
          var temperature :- input.ReadBigEndian(4);
          var pressure :- input.ReadBigEndian(4);
          return Ok(Some(PairReading(t, temperature, pressure)));
        } else if tag == fault {
          var t :- input.ReadBigEndian(8);
          var code :- input.ReadBigEndian(4);
        } else {
          return Err(IOException(tag));
        }
      }
    }
  }

  /** The bytes of a run of FAULT records. */
  function FaultRecords(fault: uint8, fs: seq<IntReading>): (b: seq<uint8>)
    ensures |b| == 13 * |fs|
  {
    if fs == [] then [] else [fault] + IntReadingBytes(fs[0]) + FaultRecords(fault, fs[1..])
  }

  /** One fault record is skipped. */
  lemma SkipsFault(sensorValues: uint8, fault: uint8, f: IntReading, after: seq<uint8>)
    requires sensorValues != fault
    ensures NextMS5611([fault] + IntReadingBytes(f) + after, sensorValues, fault)
         == NextMS5611(after, sensorValues, fault)
  {
    var s := [fault] + IntReadingBytes(f) + after;
    assert s[0] == fault && s[1..] == IntReadingBytes(f) + after;
    IntReadingRoundTrip(f, after);
  }

  /** A run of fault records is skipped. */
  lemma {:induction false} SkipsFaultRun(sensorValues: uint8, fault: uint8, fs: seq<IntReading>, tail: seq<uint8>)
    requires sensorValues != fault
    ensures NextMS5611(FaultRecords(fault, fs) + tail, sensorValues, fault)
         == NextMS5611(tail, sensorValues, fault)
    decreases |fs|
  {
    if fs == [] {
      assert FaultRecords(fault, fs) + tail == tail;
    } else {
      var after := FaultRecords(fault, fs[1..]) + tail;
      assert FaultRecords(fault, fs) + tail == [fault] + IntReadingBytes(fs[0]) + after;
      SkipsFault(sensorValues, fault, fs[0], after);
      SkipsFaultRun(sensorValues, fault, fs[1..], tail);
    }
  }

  /** readReading returns the first sensor-values record after any run of
      fault records, and leaves what follows it. */
  lemma SkipsFaults(sensorValues: uint8, fault: uint8, fs: seq<IntReading>, r: PairReading, rest: seq<uint8>)
    requires sensorValues != fault
    ensures NextMS5611(FaultRecords(fault, fs) + ([sensorValues] + PairReadingBytes(r) + rest), sensorValues, fault)
         == Next(Ok(Some(r)), rest)
  {
    var tail := [sensorValues] + PairReadingBytes(r) + rest;
    SkipsFaultRun(sensorValues, fault, fs, tail);
    assert tail[0] == sensorValues && tail[1..] == PairReadingBytes(r) + rest;
    PairReadingRoundTrip(r, rest);
  }

  /** At a record boundary after any run of fault records, the end of the
      input is null, not an error. */
  lemma FaultsThenEnd(sensorValues: uint8, fault: uint8, fs: seq<IntReading>)
    requires sensorValues != fault
    ensures NextMS5611(FaultRecords(fault, fs), sensorValues, fault) == Next(Ok(None), [])
  {
    SkipsFaultRun(sensorValues, fault, fs, []);
    assert FaultRecords(fault, fs) + [] == FaultRecords(fault, fs);
  }
}
