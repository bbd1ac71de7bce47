/** The per-device log streams of edu.sdsu.rocket.core.io.devices. A log is a
    config header followed by records; a subclass of DeviceOutputStream or
    TimestampInputStream holds that base stream as a field. */
module DeviceIo {
  import opened Wire
  import opened DataIo
  import opened LogFormats
  import CoreIo

  /** ADS11xxOutputStream: records carry a caller-supplied timestamp. */
  class ADS11xxOutputStream {
    const out: DataOutput

    constructor (out: DataOutput)
      ensures this.out == out
    {
      this.out := out;
    }

    method WriteConfig(config: int32)
      modifies out
      ensures out.written == old(out.written) + EncodeInt(config)
    {
      out.WriteInt(config);
    }

    method WriteValue(timestamp: int64, value: FloatBits)
      modifies out
      ensures out.written == old(out.written) + FloatReadingBytes(FloatReading(timestamp, FloatToIntBits(value)))
    {
      out.WriteLong(timestamp);
      out.WriteFloat(value);
    }
  }

  class ADS11xxInputStream {
    const input: DataInput

    constructor (input: DataInput)
      ensures this.input == input
    {
      this.input := input;
    }

    method ReadConfig() returns (r: Result<int32>)
      modifies input
      ensures Delivered(Int(old(input.data)), r, input.data)
    {
      WidthBounds();
      var c :- input.ReadBigEndian(4);
      return Ok(c);
    }

    method ReadValue() returns (r: Result<FloatReading>)
      modifies input
      ensures Delivered(TimedFloat(old(input.data)), r, input.data)
    {
      WidthBounds();
      var t :- input.ReadBigEndian(8);
      var v :- input.ReadBigEndian(4);
      return Ok(FloatReading(t, v));
    }
  }

  /** ADS1114OutputStream: records are stamped with the stream's own
      stopwatch, and writeValue returns the stamp. */
  class ADS1114OutputStream {
    const device: CoreIo.DeviceOutputStream

    constructor (device: CoreIo.DeviceOutputStream)
      ensures this.device == device
    {
      this.device := device;
    }

    method WriteConfig(config: int32)
      modifies device.out
      ensures device.out.written == old(device.out.written) + EncodeInt(config)
    {
      device.out.WriteInt(config);
    }

    method WriteValue(now: int64, value: FloatBits) returns (t: int64)
      modifies device.out
      ensures t == device.stopwatch.Elapsed(now)
      ensures device.out.written == old(device.out.written) + FloatReadingBytes(FloatReading(t, FloatToIntBits(value)))
    {
      ghost var before := device.out.written;
      t := device.WriteTimestamp(now);
      device.out.WriteFloat(value);
      assert device.out.written == before + (EncodeLong(t) + EncodeInt(FloatToIntBits(value)));
    }
  }

  class ADS1114InputStream {
    const device: CoreIo.DeviceInputStream

    constructor (device: CoreIo.DeviceInputStream)
      ensures this.device == device
    {
      this.device := device;
    }

    method ReadConfig() returns (r: Result<int32>)
      modifies device.input
      ensures Delivered(Int(old(device.input.data)), r, device.input.data)
    {
      WidthBounds();
      var c :- device.input.ReadBigEndian(4);
      return Ok(c);
    }

    method ReadValue() returns (r: Result<FloatReading>)
      modifies device.input
      ensures Delivered(TimedFloat(old(device.input.data)), r, device.input.data)
    {
      WidthBounds();
      var t :- device.ReadTimestamp();
      var v :- device.input.ReadBigEndian(4);
      return Ok(FloatReading(t, v));
    }
  }

  /** ADS1115OutputStream: an ADS1114OutputStream whose records also carry
      the channel, as one byte. */
  class ADS1115OutputStream {
    const base: ADS1114OutputStream

    constructor (base: ADS1114OutputStream)
      ensures this.base == base
    {
      this.base := base;
    }

    method WriteConfig(config: int32)
      modifies base.device.out
      ensures base.device.out.written == old(base.device.out.written) + EncodeInt(config)
    {
      base.WriteConfig(config);
    }

    /** writeByte keeps the low 8 bits of the channel. */
    method WriteValue(now: int64, channel: int32, value: FloatBits) returns (t: int64)
      modifies base.device.out
      ensures t == base.device.stopwatch.Elapsed(now)
      ensures base.device.out.written == old(base.device.out.written)
        + ChannelReadingBytes(ChannelReading(t, LowByte(channel), FloatToIntBits(value)))
    {
      ghost var before := base.device.out.written;
      t := base.device.WriteTimestamp(now);
      base.device.out.WriteByte(channel);
      base.device.out.WriteFloat(value);
      assert base.device.out.written
          == before + (EncodeLong(t) + EncodeByte(LowByte(channel)) + EncodeInt(FloatToIntBits(value)));
    }
  }

  /** ADS1115InputStream: its Reading adds the channel to ADS1114's. */
  class ADS1115InputStream {
    const base: ADS1114InputStream

    constructor (base: ADS1114InputStream)
      ensures this.base == base
    {
      this.base := base;
    }

    method ReadConfig() returns (r: Result<int32>)
      modifies base.device.input
      ensures Delivered(Int(old(base.device.input.data)), r, base.device.input.data)
    {
      r := base.ReadConfig();
    }

    method ReadValue() returns (r: Result<ChannelReading>)
      modifies base.device.input
      ensures Delivered(TimedChannel(old(base.device.input.data)), r, base.device.input.data)
    {
      WidthBounds();
      var input := base.device.input;
      var t :- input.ReadBigEndian(8);
      var channel :- input.ReadBigEndian(1);
      var v :- input.ReadBigEndian(4);
      return Ok(ChannelReading(t, channel, v));
    }
  }

  /** ADS1100OutputStream of core.io.devices: an int config and the supply
      voltage Vdd as header, then stopwatch-stamped float records. */
  class ADS1100OutputStream {
    const device: CoreIo.DeviceOutputStream

    constructor (device: CoreIo.DeviceOutputStream)
      ensures this.device == device
    {
      this.device := device;
    }

    method WriteConfig(config: int32, vdd: FloatBits)
      modifies device.out
      ensures device.out.written == old(device.out.written) + VddConfigBytes(VddConfig(config, FloatToIntBits(vdd)))
    {
      device.out.WriteInt(config);
      device.out.WriteFloat(vdd);
    }

    method WriteValue(now: int64, value: FloatBits) returns (t: int64)
      modifies device.out
      ensures t == device.stopwatch.Elapsed(now)
      ensures device.out.written == old(device.out.written) + FloatReadingBytes(FloatReading(t, FloatToIntBits(value)))
    {
      ghost var before := device.out.written;
      t := device.WriteTimestamp(now);
      device.out.WriteFloat(value);
      assert device.out.written == before + (EncodeLong(t) + EncodeInt(FloatToIntBits(value)));
    }
  }

  /** ADS1100InputStream reads through TimestampInputStream; its timestamps
      are the same plain longs DeviceOutputStream writes. */
  class ADS1100InputStream {
    const device: CoreIo.TimestampInputStream

    constructor (device: CoreIo.TimestampInputStream)
      ensures this.device == device
    {
      this.device := device;
    }

    method ReadConfig() returns (r: Result<VddConfig>)
      modifies device.input
      ensures Delivered(ConfigAndVdd(old(device.input.data)), r, device.input.data)
    {
      WidthBounds();
      var c :- device.input.ReadBigEndian(4);
      var vdd :- device.input.ReadBigEndian(4);
      return Ok(VddConfig(c, vdd));
    }

    method ReadValue() returns (r: Result<FloatReading>)
      modifies device.input
      ensures Delivered(TimedFloat(old(device.input.data)), r, device.input.data)
    {
      WidthBounds();
      var t :- device.ReadTimestamp();
      var v :- device.input.ReadBigEndian(4);
      return Ok(FloatReading(t, v));
    }
  }

  /** PhidgetBridgeOutputStream: a five-int header, then records of a
      caller-supplied timestamp and a double. */
  class PhidgetBridgeOutputStream {
    const out: DataOutput

    constructor (out: DataOutput)
      ensures this.out == out
    {
      this.out := out;
    }

    method WriteConfig(serialNumber: int32, deviceVersion: int32, inputCount: int32, gain: int32, dataRate: int32)
      modifies out
      ensures out.written == old(out.written)
        + BridgeConfigBytes(BridgeConfig(serialNumber, deviceVersion, inputCount, gain, dataRate))
    {
      out.WriteInt(serialNumber);
      out.WriteInt(deviceVersion);
      out.WriteInt(inputCount);
      out.WriteInt(gain);
      out.WriteInt(dataRate);
    }

    method WriteValue(timestamp: int64, value: DoubleBits)
      modifies out
      ensures out.written == old(out.written) + DoubleReadingBytes(DoubleReading(timestamp, DoubleToLongBits(value)))
    {
      out.WriteLong(timestamp);
      out.WriteDouble(value);
    }
  }

  class PhidgetBridgeInputStream {
    const input: DataInput

    constructor (input: DataInput)
      ensures this.input == input
    {
      this.input := input;
    }

    method ReadConfig() returns (r: Result<BridgeConfig>)
      modifies input
      ensures Delivered(Bridge(old(input.data)), r, input.data)
    {
      WidthBounds();
      var serialNumber :- input.ReadBigEndian(4);
      var deviceVersion :- input.ReadBigEndian(4);
      var inputCount :- input.ReadBigEndian(4);
      var gain :- input.ReadBigEndian(4);
      var dataRate :- input.ReadBigEndian(4);
      return Ok(BridgeConfig(serialNumber, deviceVersion, inputCount, gain, dataRate));
    }

    method ReadValue() returns (r: Result<DoubleReading>)
      modifies input
      ensures Delivered(TimedDouble(old(input.data)), r, input.data)
    {
      WidthBounds();
      var t :- input.ReadBigEndian(8);
      var v :- input.ReadBigEndian(8);
      return Ok(DoubleReading(t, v));
    }
  }
}
