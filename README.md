# Rocket telemetry core, modelled in Dafny

This project models the data path of the SDSU rocket telemetry system:

- the sensor snapshot (`Sensors`) and its mask-selected `ByteBuffer` codec, with
  the `AtomicIntFloat` word that packs an int and a float;
- the proxy's models `Stim300`, `Gps` and `ProxyData`, and the `Analog` cells;
- the UDP `SensorClient`, which numbers requests, screens stale responses and
  decodes sensor payloads;
- the pacing loop `RateLimitedRunnable` and the server's `DeviceManager`;
- the `XTend900` radio modem driver and the `ADS1100` converter driver;
- the proxy's uptime text `nanosToDHMS`;
- every device log stream: the timestamp, status, single-channel ADC,
  ADS11xx/ADS1114/ADS1115/ADS1100, PhidgetBridge, MS5611 and ITG3205 writers and
  readers.

Java's fixed-width integers are subset types of `int` with wrap-around written
out (`Wrap32`, `Wrap64`, truncating `JavaDiv`). Floats and doubles are carried
as their bit patterns. Exceptions become a `Result` whose error names the Java
exception class. Clocks (`System.nanoTime`), the serial port, the I2C bus and
the datagram socket are parameters or logs of what was sent.

Modules, one per part of the program:

| file | module | models |
|---|---|---|
| wire.dfy | Wire | big-endian integers, Java integer widths, exceptions, `Result`/`Option` |
| fields.dfy | Fields | fixed-width records read field by field |
| byte_buffer.dfy | NioBuffer | `java.nio.ByteBuffer` relative puts and gets |
| data_io.dfy | DataIo | `DataOutputStream`/`DataInputStream` over bytes, `Stopwatch` |
| log_formats.dfy | LogFormats | the record layouts of the log files and their readers |
| core_io.dfy | CoreIo | the streams of `core.io` (timestamp, status, single-channel ADC, tagged ADS1100, MS5611) |
| device_io.dfy | DeviceIo | the streams of `core.io.devices` |
| log2csv.dfy | Log2Csv | the ITG3205 log reader |
| atomic_int_float.dfy | AtomicPair | `AtomicIntFloat` |
| sensors.dfy | SensorsCodec | `Sensors` and its codec |
| proxy_models.dfy | ProxyModels | `Stim300`, `Gps`, `ProxyData` |
| analog.dfy | AnalogCells | `Analog` |
| rate_limited.dfy | RateLimit | `RateLimitedRunnable` |
| device_manager.dfy | Devices | `DeviceManager` and `DeviceRunnable` |
| sensor_client.dfy | Client | `SensorClient` and `DatagramMessage` |
| xtend900.dfy | Radio | `XTend900` |
| ads1100.dfy | Adc | the server's `ADS1100` driver |
| dhms.dfy | Uptime | `nanosToDHMS` |

## Notable behaviour of the code

The model keeps each of these as the code has it:

- `XTend900.send` in command mode returns without writing anything
  (pi/src/edu/sdsu/rocket/pi/io/radio/XTend900.java:229-231).
  `Radio.XTend900.Send` returns `Ok` and leaves the radio's state as it was.
- `RateLimitedRunnable.setFrequency` always sets whole milliseconds,
  `Math.round(1000f / f)`
  (core/src/main/java/edu/sdsu/rocket/core/helpers/RateLimitedRunnable.java:43-48).
- `run` sleeps with `Thread.sleep(ms)` or `Thread.sleep(ms, ns)` and catches
  only `InterruptedException`
  (core/src/main/java/edu/sdsu/rocket/core/helpers/RateLimitedRunnable.java:110-126).
  A negative millisecond part, or a nanosecond part outside 0..999999, makes
  the sleep throw `IllegalArgumentException`, which ends the loop thread.
- `setSleepNanoseconds` stores `TimeUnit.NANOSECONDS.toMillis(n)` as the
  nanosecond part above 999999 ns
  (core/src/main/java/edu/sdsu/rocket/core/helpers/RateLimitedRunnable.java:63-65).
  So a request of n ns reads back as `(n / 10^6) * 1000001` ns rather than n,
  and a request of 1000 s or more stores a nanosecond part `Thread.sleep`
  refuses. `RateLimit.SplitExactIff`, `RateLimit.SplitOneAndAHalf` and
  `RateLimit.SplitAccepted` state the consequences. `DeviceRunnable`
  throttling goes through it.
- `XTend900.dataReceived` does not parse frames itself; it hands the raw bytes
  to the log stream and then to the frame handler or the listener
  (pi/src/edu/sdsu/rocket/pi/io/radio/XTend900.java:280-305).

## Model

| member | source | states |
|---|---|---|
| SensorsCodec.EffectiveMask | core/src/main/java/edu/sdsu/rocket/core/models/Sensors.java:34 | a zero mask becomes the all-ones mask; any other mask is kept |
| SensorsCodec.ZeroMaskIsAll | core/src/main/java/edu/sdsu/rocket/core/models/Sensors.java:34-35 | mask 0 encodes and decodes exactly as the all-ones mask, which selects all 91 bytes |
| SensorsCodec.EncodeLength | core/src/main/java/edu/sdsu/rocket/core/models/Sensors.java:33-66 | the encoding is as long as the selected sections together |
| SensorsCodec.SectionsLength | core/src/main/java/edu/sdsu/rocket/core/models/Sensors.java:36-65 | the selected sections' bytes add up to their sizes |
| SensorsCodec.EncodeLayout | core/src/main/java/edu/sdsu/rocket/core/models/Sensors.java:33-66 | the encoding is the analog, GPS, radio, system and phidgets sections in that order, each present exactly when its mask bit is set (SYSTEM is bit 1 but travels fourth) |
| SensorsCodec.DecodeLayout | core/src/main/java/edu/sdsu/rocket/core/models/Sensors.java:72-103 | fromByteBuffer is its five mask-guarded blocks in wire order |
| SensorsCodec.GetEncoded | core/src/main/java/edu/sdsu/rocket/core/models/Sensors.java:75-102 | one relative get of an encoded value assigns that value and leaves the bytes after it |
| SensorsCodec.ChannelsRoundTrip | core/src/main/java/edu/sdsu/rocket/core/models/Sensors.java:36-43 | reading the six encoded analog longs back restores each channel word and consumes 48 bytes |
| SensorsCodec.GpsRoundTrip | core/src/main/java/edu/sdsu/rocket/core/models/Sensors.java:45-51 | reading the GPS section back restores latitude, longitude and altitude exactly, and fix status and satellites as the signed low byte |
| SensorsCodec.PhidgetsRoundTrip | core/src/main/java/edu/sdsu/rocket/core/models/Sensors.java:61-65 | reading the phidgets section back restores its int and double |
| SensorsCodec.SectionRoundTrip | core/src/main/java/edu/sdsu/rocket/core/models/Sensors.java:36-65 | each encoded section reads back as that section's fields as received and leaves the bytes after it |
| SensorsCodec.SectionsRoundTrip | core/src/main/java/edu/sdsu/rocket/core/models/Sensors.java:33-103 | a run of encoded sections reads back section by section |
| SensorsCodec.DecodeEncode | core/src/main/java/edu/sdsu/rocket/core/models/Sensors.java:33-103 | fromByteBuffer(toByteBuffer(t, mask), mask) over any snapshot replaces the selected categories by t's as received and consumes exactly the encoded bytes |
| SensorsCodec.ReceiveSectionsSpec | core/src/main/java/edu/sdsu/rocket/core/models/Sensors.java:72-103 | receiving a run of sections replaces exactly the categories that are both listed and selected |
| SensorsCodec.ReceivedSpec | core/src/main/java/edu/sdsu/rocket/core/models/Sensors.java:72-103 | a round trip replaces a category when the mask selects it and keeps it otherwise |
| SensorsCodec.ChannelsFrame | core/src/main/java/edu/sdsu/rocket/core/models/Sensors.java:75-82 | the analog gets touch no other category |
| SensorsCodec.GetFrame | core/src/main/java/edu/sdsu/rocket/core/models/Sensors.java:75-102 | one get assigns only its own field |
| SensorsCodec.SectionFrame | core/src/main/java/edu/sdsu/rocket/core/models/Sensors.java:75-102 | the gets of one section assign only that section's fields |
| SensorsCodec.SectionsFrame | core/src/main/java/edu/sdsu/rocket/core/models/Sensors.java:72-103 | decoding a run of sections never touches an unselected category |
| SensorsCodec.DecodeLeavesUnselected | core/src/main/java/edu/sdsu/rocket/core/models/Sensors.java:72-103 | whatever the bytes, fromByteBuffer leaves every unselected category unchanged |
| SensorsCodec.GetShape | core/src/main/java/edu/sdsu/rocket/core/models/Sensors.java:75-102 | a get succeeds iff enough bytes remain, then consumes its width; after a failure nothing more happens |
| SensorsCodec.ChannelsShape | core/src/main/java/edu/sdsu/rocket/core/models/Sensors.java:75-82 | the analog gets succeed iff 48 bytes remain, and consume exactly them |
| SensorsCodec.GpsShape | core/src/main/java/edu/sdsu/rocket/core/models/Sensors.java:84-90 | the GPS gets succeed iff 26 bytes remain, and consume exactly them |
| SensorsCodec.SectionShape | core/src/main/java/edu/sdsu/rocket/core/models/Sensors.java:75-102 | a section's gets succeed iff its size remains, and consume exactly it |
| SensorsCodec.SectionsShape | core/src/main/java/edu/sdsu/rocket/core/models/Sensors.java:72-103 | a run of sections succeeds iff the selected sizes remain, and consumes exactly them |
| SensorsCodec.DecodeConsumes | core/src/main/java/edu/sdsu/rocket/core/models/Sensors.java:72-103 | fromByteBuffer succeeds exactly when the buffer holds the bytes the mask selects, and then consumes exactly those |
| SensorsCodec.StaysFailed | core/src/main/java/edu/sdsu/rocket/core/models/Sensors.java:72-103 | once a get has underflowed, the later blocks change nothing |
| SensorsCodec.ChannelBytesUnrolled | core/src/main/java/edu/sdsu/rocket/core/models/Sensors.java:36-43 | the analog section is the six channel words as big-endian longs, channel 0 first |
| SensorsCodec.Sensors.constructor | core/src/main/java/edu/sdsu/rocket/core/models/Sensors.java:10-27 | a new snapshot holds six zero analog words and zero fields |
| SensorsCodec.Sensors.ToByteBuffer | core/src/main/java/edu/sdsu/rocket/core/models/Sensors.java:33-66 | succeeds iff the selected bytes fit the remaining space, and then appends exactly Encode(state, mask); otherwise BufferOverflowException |
| SensorsCodec.Sensors.PutIfChosen | core/src/main/java/edu/sdsu/rocket/core/models/Sensors.java:36-65 | one mask-guarded block appends that section's bytes when selected, and nothing otherwise |
| SensorsCodec.Sensors.PutSection | core/src/main/java/edu/sdsu/rocket/core/models/Sensors.java:36-65 | the puts of one section append SectionBytes or overflow |
| SensorsCodec.Sensors.PutGps | core/src/main/java/edu/sdsu/rocket/core/models/Sensors.java:45-51 | the GPS puts append 26 bytes or overflow |
| SensorsCodec.Sensors.PutChannels | core/src/main/java/edu/sdsu/rocket/core/models/Sensors.java:36-43 | the analog puts append the six words or overflow |
| SensorsCodec.Sensors.FromByteBuffer | core/src/main/java/edu/sdsu/rocket/core/models/Sensors.java:72-103 | the new state and position are those of Decode; an underflow keeps the values read before it and reports BufferUnderflowException |
| SensorsCodec.Sensors.GetIfChosen | core/src/main/java/edu/sdsu/rocket/core/models/Sensors.java:75-102 | one mask-guarded block of fromByteBuffer, as Step |
| SensorsCodec.Sensors.GetSectionFrom | core/src/main/java/edu/sdsu/rocket/core/models/Sensors.java:75-102 | the gets of one section, as GetSection, with the phidgets pair stored only after both gets |
| SensorsCodec.Sensors.GetChannelsFrom | core/src/main/java/edu/sdsu/rocket/core/models/Sensors.java:75-82 | the six analog gets, as GetChannels |
| SensorsCodec.Sensors.GetGpsFrom | core/src/main/java/edu/sdsu/rocket/core/models/Sensors.java:84-90 | the five GPS gets, as the GPS GetSection |
| SensorsCodec.Sensors.Store | core/src/main/java/edu/sdsu/rocket/core/models/Sensors.java:75-102 | the set half of one get: the new snapshot is Assign of the old one, so exactly that field changes |
| SensorsCodec.Sensors.GetField | core/src/main/java/edu/sdsu/rocket/core/models/Sensors.java:75-102 | one relative get into one field, as Get |
| AtomicPair.Unsigned32 | core/src/main/java/edu/sdsu/rocket/core/helpers/AtomicIntFloat.java:34 | `x & 0xFFFFFFFFL` is the unsigned reading of the int, equal to it modulo 2^32 |
| AtomicPair.HighHalf | core/src/main/java/edu/sdsu/rocket/core/helpers/AtomicIntFloat.java:34 | the masked int shifted left by 32 is the int times 2^32 as a long |
| AtomicPair.IntValueOfRaw | core/src/test/java/AtomicIntFloatTest.java:12-26 | getIntValue(raw(i, f)) == i for every int and every float |
| AtomicPair.FloatValueOfRaw | core/src/main/java/edu/sdsu/rocket/core/helpers/AtomicIntFloat.java:25-35 | getFloatValue(raw(i, f)) is floatToIntBits(f), whatever i is |
| AtomicPair.RawInjective | core/src/main/java/edu/sdsu/rocket/core/helpers/AtomicIntFloat.java:33-35 | two pairs pack to the same word exactly when their ints and float bit patterns agree |
| AtomicPair.RawOfHalves | core/src/main/java/edu/sdsu/rocket/core/helpers/AtomicIntFloat.java:21-35 | every word whose low half is not a NaN pattern is the packing of its two halves |
| AtomicPair.DefaultIsZero | core/src/main/java/edu/sdsu/rocket/core/helpers/AtomicIntFloat.java:13-15 | the default pair (0, 0f) packs to the zero word |
| AtomicPair.MillisecondTimestamp | core/src/test/java/AtomicIntFloatTest.java:51-66 | a nanosecond time stored as whole milliseconds reads back within one millisecond below it, up to 2^31 - 1 ms |
| AtomicPair.AtomicIntFloat.constructor | core/src/main/java/edu/sdsu/rocket/core/helpers/AtomicIntFloat.java:13-15 | the new cell holds the zero word |
| AtomicPair.AtomicIntFloat.Of | core/src/test/java/AtomicIntFloatTest.java:81-90 | the new cell holds raw(i, f), from which the int and the float bits read back |
| AtomicPair.AtomicIntFloat.Set | core/src/test/java/AtomicIntFloatTest.java:68-79 | after set(i, f) the cell holds raw(i, f), from which the int and the float bits read back |
| AnalogCells.Analog.constructor | core/src/main/java/edu/sdsu/rocket/core/models/Analog.java:10-16 | count cells, every one holding 0f |
| AnalogCells.NewAnalog | core/src/main/java/edu/sdsu/rocket/core/models/Analog.java:10-16 | a negative count throws NegativeArraySizeException; any other yields count zero cells |
| AnalogCells.Analog.Set | core/src/main/java/edu/sdsu/rocket/core/models/Analog.java:18-20 | an index in range stores the value and changes no other cell; any other index throws ArrayIndexOutOfBoundsException and changes nothing |
| AnalogCells.Analog.Get | core/src/main/java/edu/sdsu/rocket/core/models/Analog.java:22-24 | an index in range returns that cell; any other throws ArrayIndexOutOfBoundsException |
| AnalogCells.SetThenGet | core/src/main/java/edu/sdsu/rocket/core/models/Analog.java:18-24 | a get after a set at the same valid index returns the value set; at another index the set does not change what get returns |
| ProxyModels.Data.constructor | core/src/main/java/edu/sdsu/rocket/core/models/Stim300.java:11-13 | a new record holds zeros |
| ProxyModels.Data.Values | core/src/main/java/edu/sdsu/rocket/core/models/Stim300.java:11-13 | the record is four fields: the timestamp and x, y, z |
| ProxyModels.Data.Put | core/src/main/java/edu/sdsu/rocket/core/models/Stim300.java:16-23 | appends the int timestamp and three float bit patterns, or overflows |
| ProxyModels.Data.Get | core/src/main/java/edu/sdsu/rocket/core/models/Stim300.java:26-33 | reads the four fields; an underflow keeps the fields read before it and leaves the position at the failed get |
| ProxyModels.Data.GetField | core/src/main/java/edu/sdsu/rocket/core/models/Stim300.java:27-31 | one get into one field |
| ProxyModels.StimDecode | core/src/main/java/edu/sdsu/rocket/core/models/Stim300.java:68-80 | Stim300.fromByteBuffer keeps the number of held values |
| ProxyModels.StimGetFailed | core/src/main/java/edu/sdsu/rocket/core/models/Stim300.java:68-80 | after an underflow the later records are not read |
| ProxyModels.RecordLength | core/src/main/java/edu/sdsu/rocket/core/models/Stim300.java:53-65 | a record contributes 16 bytes when its bit is set and none otherwise |
| ProxyModels.StimEncodeLength | core/src/main/java/edu/sdsu/rocket/core/models/Stim300.java:53-65 | the encoding holds 16 bytes per selected record |
| ProxyModels.StimNoneSelected | core/src/main/java/edu/sdsu/rocket/core/models/Stim300.java:47-80 | a mask with none of bits 0-2 set, 0 included, writes nothing and reads nothing |
| ProxyModels.StimAllMask | core/src/main/java/edu/sdsu/rocket/core/models/Stim300.java:50 | the all-ones mask selects all three records, 48 bytes |
| ProxyModels.StimGetEncoded | core/src/main/java/edu/sdsu/rocket/core/models/Stim300.java:68-80 | reading a selected record's bytes restores exactly that record |
| ProxyModels.StimRoundTrip | core/src/main/java/edu/sdsu/rocket/core/models/Stim300.java:53-80 | decoding the encoding with the same mask restores every selected record, keeps the others, and consumes exactly the encoding |
| ProxyModels.StimLeavesUnselected | core/src/main/java/edu/sdsu/rocket/core/models/Stim300.java:68-80 | records the mask does not select are never touched by a decode |
| ProxyModels.StimGetKeeps | core/src/main/java/edu/sdsu/rocket/core/models/Stim300.java:68-80 | a record get touches only its own record |
| ProxyModels.StimConsumes | core/src/main/java/edu/sdsu/rocket/core/models/Stim300.java:68-80 | a decode succeeds exactly when 16 bytes per selected record remain, and consumes exactly them |
| ProxyModels.StimGetConsumes | core/src/main/java/edu/sdsu/rocket/core/models/Stim300.java:68-80 | one selected record's get needs 16 bytes and takes exactly them |
| ProxyModels.Stim300.constructor | core/src/main/java/edu/sdsu/rocket/core/models/Stim300.java:43-45 | three fresh zero records |
| ProxyModels.Stim300.Values | core/src/main/java/edu/sdsu/rocket/core/models/Stim300.java:43-45 | twelve values, gyro then acc then incl, each fitting its width |
| ProxyModels.Stim300.ValuesFit | core/src/main/java/edu/sdsu/rocket/core/models/Stim300.java:43-45 | the held values always fit their wire widths |
| ProxyModels.Stim300.ToByteBuffer | core/src/main/java/edu/sdsu/rocket/core/models/Stim300.java:53-65 | succeeds iff 16 bytes per selected record fit, and then appends exactly StimEncode; otherwise BufferOverflowException |
| ProxyModels.Stim300.PutIfChosen | core/src/main/java/edu/sdsu/rocket/core/models/Stim300.java:54-64 | one guarded record put |
| ProxyModels.Stim300.FromByteBuffer | core/src/main/java/edu/sdsu/rocket/core/models/Stim300.java:68-80 | the new values and position are those of StimDecode; an underflow reports BufferUnderflowException |
| ProxyModels.Stim300.GetIfChosen | core/src/main/java/edu/sdsu/rocket/core/models/Stim300.java:69-79 | one guarded record get, as StimGet |
| ProxyModels.PositionData.constructor | core/src/main/java/edu/sdsu/rocket/core/models/Gps.java:8-10 | a new position holds zeros |
| ProxyModels.PositionData.Values | core/src/main/java/edu/sdsu/rocket/core/models/Gps.java:9-10 | the timestamp and three doubles |
| ProxyModels.PositionData.Put | core/src/main/java/edu/sdsu/rocket/core/models/Gps.java:13-20 | appends the int timestamp and three double bit patterns, or overflows |
| ProxyModels.PositionData.Get | core/src/main/java/edu/sdsu/rocket/core/models/Gps.java:23-30 | reads the four fields; an underflow keeps the fields read before it |
| ProxyModels.PositionData.GetField | core/src/main/java/edu/sdsu/rocket/core/models/Gps.java:25-28 | one get into one field |
| ProxyModels.Gps.constructor | core/src/main/java/edu/sdsu/rocket/core/models/Gps.java:49-52 | fix 0, no satellites, zero position |
| ProxyModels.Gps.Values | core/src/main/java/edu/sdsu/rocket/core/models/Gps.java:49-52 | the fix byte, the satellite count and the position's four fields |
| ProxyModels.Gps.ValuesFit | core/src/main/java/edu/sdsu/rocket/core/models/Gps.java:49-52 | every held field fits its wire width |
| ProxyModels.Gps.ToByteBuffer | core/src/main/java/edu/sdsu/rocket/core/models/Gps.java:55-59 | succeeds iff 33 bytes fit, and then appends the fix byte, the satellites int and the position; otherwise BufferOverflowException |
| ProxyModels.Gps.FromByteBuffer | core/src/main/java/edu/sdsu/rocket/core/models/Gps.java:62-66 | reads fix, satellites and position; an underflow keeps what was read before it |
| ProxyModels.Gps.GetField | core/src/main/java/edu/sdsu/rocket/core/models/Gps.java:63-64 | one of Gps's own two gets |
| ProxyModels.GpsFields | core/src/main/java/edu/sdsu/rocket/core/models/Gps.java:55-59 | the Gps record is the fix byte, the satellites int and then the position record |
| ProxyModels.GpsTotal | core/src/main/java/edu/sdsu/rocket/core/models/Gps.java:55-59 | the Gps record is 33 bytes |
| ProxyModels.GpsTakes | core/src/main/java/edu/sdsu/rocket/core/models/Gps.java:62-66 | Gps's gets are its two own gets followed by the position's |
| ProxyModels.ProxyLength | core/src/main/java/edu/sdsu/rocket/core/models/ProxyData.java:15-18 | the encoding is 16 bytes per selected Stim300 record plus 33 Gps bytes |
| ProxyModels.ProxyRoundTrip | core/src/main/java/edu/sdsu/rocket/core/models/ProxyData.java:10-18 | decoding the encoding restores the selected Stim300 records and the whole Gps, and consumes exactly the encoding |
| ProxyModels.ProxyData.constructor | core/src/main/java/edu/sdsu/rocket/core/models/ProxyData.java:7-8 | a fresh Stim300 and a fresh Gps |
| ProxyModels.ProxyData.ToByteBuffer | core/src/main/java/edu/sdsu/rocket/core/models/ProxyData.java:15-18 | succeeds iff the Stim300 bytes and 33 Gps bytes fit, and then appends ProxyEncode; otherwise BufferOverflowException |
| ProxyModels.ProxyData.FromByteBuffer | core/src/main/java/edu/sdsu/rocket/core/models/ProxyData.java:10-13 | the new values and position are those of ProxyDecode; the Gps part is read only after the Stim300 part succeeds |
| Client.MessageBytes | core/src/main/java/edu/sdsu/rocket/core/net/SensorClient.java:149-158 | a message is five header bytes plus its payload |
| Client.ParseMessage | core/src/main/java/edu/sdsu/rocket/core/net/DatagramMessage.java:11-13 | the receiving side (DatagramClient) is not part of this model; this is the inverse of MessageBytes over the three fields: a datagram is readable exactly when it holds the five header bytes |
| Client.MessageRoundTrip | core/src/main/java/edu/sdsu/rocket/core/net/SensorClient.java:149-158 | reading a sent message gives back its number, id and payload |
| Client.ParseMessageBytes | core/src/main/java/edu/sdsu/rocket/core/net/DatagramMessage.java:11-13 | the receiving side is not part of this model; every datagram the inverse of MessageBytes reads is the layout of what it read |
| Client.PingLayout | core/src/main/java/edu/sdsu/rocket/core/net/SensorClient.java:128-135 | a ping is 13 bytes: the number, the PING id and the send time, which reads back |
| Client.SensorRequestLayout | core/src/main/java/edu/sdsu/rocket/core/net/SensorClient.java:137-147 | a sensor request is 6 bytes: the number, the SENSORS id and the mask |
| Client.Screen | core/src/main/java/edu/sdsu/rocket/core/net/SensorClient.java:172-179 | an accepted response number never falls below the last accepted one, nor runs past the last request |
| Client.ScreenRule | core/src/main/java/edu/sdsu/rocket/core/net/SensorClient.java:173-178 | a nonzero number is dropped exactly when it lies below the last response or above the last request, and becomes the response number otherwise |
| Client.ScreenRepeat | core/src/main/java/edu/sdsu/rocket/core/net/SensorClient.java:174 | a repeat of the last accepted number is accepted again |
| Client.LatestAccepted | core/src/main/java/edu/sdsu/rocket/core/net/SensorClient.java:173-178 | a response to the most recent request is always accepted |
| Client.DeliveredCompletes | core/src/main/java/edu/sdsu/rocket/core/net/SensorClient.java:181-190 | an accepted payload updates the sensors completely exactly when it holds the mask byte and the bytes the mask selects |
| Client.DeliveredEncoding | core/src/main/java/edu/sdsu/rocket/core/net/SensorClient.java:181-190 | a payload built as a mask byte and a sensor encoding updates exactly the selected categories and is consumed completely |
| Client.SensorClient.constructor | core/src/main/java/edu/sdsu/rocket/core/net/SensorClient.java:22-42 | no datagram client, no poll loop, frequency 0, counters 0, two 1024-byte buffers |
| Client.SensorClient.SetListener | core/src/main/java/edu/sdsu/rocket/core/net/SensorClient.java:44-46 | only the listener changes |
| Client.SensorClient.SetFrequency | core/src/main/java/edu/sdsu/rocket/core/net/SensorClient.java:48-58 | the frequency is recorded; with a poll loop, 0 pauses it and any other value sets its period and resumes it |
| Client.SensorClient.Start | core/src/main/java/edu/sdsu/rocket/core/net/SensorClient.java:64-100 | a second start throws SocketException; the first creates the poll loop, running, paused iff the frequency is 0, paced by the frequency otherwise |
| Client.SensorClient.Stop | core/src/main/java/edu/sdsu/rocket/core/net/SensorClient.java:102-118 | the datagram client and the poll loop are gone |
| Client.SensorClient.Pause | core/src/main/java/edu/sdsu/rocket/core/net/SensorClient.java:120-122 | pauses the poll loop; without one throws NullPointerException |
| Client.SensorClient.Resume | core/src/main/java/edu/sdsu/rocket/core/net/SensorClient.java:124-126 | resumes the poll loop; without one throws NullPointerException |
| Client.SensorClient.SendPingRequest | core/src/main/java/edu/sdsu/rocket/core/net/SensorClient.java:128-135 | the request number is incremented (wrapping) even when the send throws; with a client the ping datagram is sent, without one NullPointerException; the frequency, listener, loop, response number and listener log are unchanged |
| Client.SensorClient.SendMessage | core/src/main/java/edu/sdsu/rocket/core/net/SensorClient.java:141-158 | the request number is incremented (wrapping); the message is sent when a client exists and it fits the 1024-byte buffer; otherwise BufferOverflowException or NullPointerException, nothing sent; the frequency, listener, loop, response number and listener log are unchanged |
| Client.SensorClient.SendSensorRequest | core/src/main/java/edu/sdsu/rocket/core/net/SensorClient.java:137-139 | a SENSORS message carrying the mask byte; every other field is unchanged |
| Client.SensorClient.Poll | core/src/main/java/edu/sdsu/rocket/core/net/SensorClient.java:85-94 | one poll pass sends a sensor request for ANALOG and SYSTEM and keeps responses ordered; the frequency, listener, latency and notification counts are unchanged |
| Client.SensorClient.OnSensorData | core/src/main/java/edu/sdsu/rocket/core/net/SensorClient.java:172-191 | a screened-out response changes nothing; an accepted one advances the response number and decodes the payload into the sensors, notifying the listener only when the decode completes; the request number, sends, frequency, loop and latency are unchanged |
| Client.SensorClient.DecodePayload | core/src/main/java/edu/sdsu/rocket/core/net/SensorClient.java:181-190 | the sensors become Delivered(old sensors, payload) |
| Client.SensorClient.OnPingResponse | core/src/main/java/edu/sdsu/rocket/core/net/SensorClient.java:160-170 | with 8 payload bytes the latency is now minus the echoed send time, passed to the listener; a shorter payload changes nothing |
| Client.SensorClient.OnMessageReceived | core/src/main/java/edu/sdsu/rocket/core/net/SensorClient.java:70-82 | a PING with 8 payload bytes sets the latency to now minus the echoed send time and notifies the listener; a SENSORS message is screened and, when accepted, decoded into the sensors with the listener notified on a complete decode; any other id changes nothing; responses stay ordered, and requests, sends, frequency, loop and listener are unchanged |
| RateLimit.PeriodNearest | core/src/main/java/edu/sdsu/rocket/core/helpers/RateLimitedRunnable.java:43-48 | the period is within half a millisecond of 1000/hz, halves rounded up |
| RateLimit.SplitSmall | core/src/main/java/edu/sdsu/rocket/core/helpers/RateLimitedRunnable.java:66-69 | up to 999999 ns, the whole request is kept as nanoseconds and reads back unchanged |
| RateLimit.SplitLarge | core/src/main/java/edu/sdsu/rocket/core/helpers/RateLimitedRunnable.java:63-65 | above 999999 ns both stored parts are the whole milliseconds, so the sleep reads back as q * 1000001 ns |
| RateLimit.SplitExactIff | core/src/main/java/edu/sdsu/rocket/core/helpers/RateLimitedRunnable.java:61-83 | the stored sleep reads back as the request exactly when the request is at most 999999 ns or its millisecond count equals its sub-millisecond remainder (1000001 ns does, 1500000 ns does not) |
| RateLimit.SplitOneAndAHalf | core/src/main/java/edu/sdsu/rocket/core/helpers/RateLimitedRunnable.java:61-70 | 1.5 ms is stored as 1 ms plus 1 ns |
| RateLimit.SleepForDuration | core/src/main/java/edu/sdsu/rocket/core/helpers/RateLimitedRunnable.java:110-116 | a pass sleeps for exactly the configured milliseconds and nanoseconds, and not at all iff both are 0 |
| RateLimit.MillisAccepted | core/src/main/java/edu/sdsu/rocket/core/helpers/RateLimitedRunnable.java:110-116 | a sleep set in whole milliseconds is accepted by Thread.sleep iff it is not negative |
| RateLimit.FrequencyAccepted | core/src/main/java/edu/sdsu/rocket/core/helpers/RateLimitedRunnable.java:43-48 | a positive frequency gives a non-negative period; a negative frequency above -2000 Hz gives a negative period, one from -2000 Hz down gives 0 |
| RateLimit.SplitAccepted | core/src/main/java/edu/sdsu/rocket/core/helpers/RateLimitedRunnable.java:61-116 | what setSleepNanoseconds stores is accepted for requests from 0 up to 1000 s and refused for negative int-range requests and for requests from 1000 s up to 2^31 ms |
| RateLimit.RateLimitedRunnable.constructor | core/src/main/java/edu/sdsu/rocket/core/helpers/RateLimitedRunnable.java:17-19 | no sleep, not paused, running |
| RateLimit.RateLimitedRunnable.Of | core/src/main/java/edu/sdsu/rocket/core/helpers/RateLimitedRunnable.java:21-32 | the given milliseconds and paused flag, running |
| RateLimit.RateLimitedRunnable.SetRunning | core/src/main/java/edu/sdsu/rocket/core/helpers/RateLimitedRunnable.java:34-36 | only the running flag changes |
| RateLimit.RateLimitedRunnable.SetFrequency | core/src/main/java/edu/sdsu/rocket/core/helpers/RateLimitedRunnable.java:43-48 | 0 throws IllegalArgumentException and changes nothing; any other frequency sets the rounded period in milliseconds |
| RateLimit.RateLimitedRunnable.SetSleep | core/src/main/java/edu/sdsu/rocket/core/helpers/RateLimitedRunnable.java:53-56 | whole milliseconds, no extra nanoseconds; the sleep reads back as ms * 10^6 (as a long) |
| RateLimit.RateLimitedRunnable.SetSleepNanoseconds | core/src/main/java/edu/sdsu/rocket/core/helpers/RateLimitedRunnable.java:61-70 | stores SplitNanos of the request; at most 999999 ns reads back unchanged |
| RateLimit.RateLimitedRunnable.Pause | core/src/main/java/edu/sdsu/rocket/core/helpers/RateLimitedRunnable.java:85-89 | paused afterwards, nothing else changes |
| RateLimit.RateLimitedRunnable.Resume | core/src/main/java/edu/sdsu/rocket/core/helpers/RateLimitedRunnable.java:91-98 | not paused afterwards, nothing else changes |
| RateLimit.RateLimitedRunnable.NextPass | core/src/main/java/edu/sdsu/rocket/core/helpers/RateLimitedRunnable.java:105-128 | a pass stops iff the thread is interrupted or not running; otherwise it fails with IllegalArgumentException iff Thread.sleep refuses the configured sleep, and else runs the body, sleeps the configured time and waits iff paused |
| Devices.Throttled | server/src/main/java/edu/sdsu/rocket/server/devices/DeviceManager.java:110-114 | the new sleep is never negative |
| Devices.ThrottledCorrects | server/src/main/java/edu/sdsu/rocket/server/devices/DeviceManager.java:108-114 | away from overflow, the new sleep is the current one corrected by target minus actual time per loop, clamped at 0 |
| Devices.ThrottledSteady | server/src/main/java/edu/sdsu/rocket/server/devices/DeviceManager.java:108-114 | a loop running at exactly the target period keeps its sleep |
| Devices.DeviceRunnable.constructor | server/src/main/java/edu/sdsu/rocket/server/devices/DeviceManager.java:71-87 | start is the clock at construction; no loops, no throttle, no sleep; paused as asked |
| Devices.DeviceRunnable.SetThrottle | server/src/main/java/edu/sdsu/rocket/server/devices/DeviceManager.java:94-96 | only the throttle changes |
| Devices.DeviceRunnable.Loop | server/src/main/java/edu/sdsu/rocket/server/devices/DeviceManager.java:99-121 | an IOException from the device is swallowed; within a second of start only the loop count grows; past it the frequency becomes the loop count, the count restarts, start moves to now, and with a throttle the sleep becomes Throttled |
| Devices.DeviceManager.constructor | server/src/main/java/edu/sdsu/rocket/server/devices/DeviceManager.java:15 | no threads |
| Devices.DeviceManager.Add | server/src/main/java/edu/sdsu/rocket/server/devices/DeviceManager.java:17-29 | a null device throws NullPointerException and adds nothing; otherwise a fresh runnable, paused as asked, is appended to the threads |
| Devices.DeviceManager.Clear | server/src/main/java/edu/sdsu/rocket/server/devices/DeviceManager.java:31-42 | no threads are left |
| Radio.FrameBytes | pi/src/edu/sdsu/rocket/pi/io/radio/XTend900.java:251-267 | a frame is its data plus four bytes |
| Radio.FrameFields | pi/src/edu/sdsu/rocket/pi/io/radio/XTend900.java:251-256 | the start delimiter, the length, the frame data and the checksum each read back from their place |
| Radio.XTend900.constructor | pi/src/edu/sdsu/rocket/pi/io/radio/XTend900.java:45-78 | off, out of command mode, API disabled, nothing written, no handler, log, listener or LED pulses; the whole state is given |
| Radio.XTend900.SetListener | pi/src/edu/sdsu/rocket/pi/io/radio/XTend900.java:50-53 | the whole state is the old one with only the listener switched |
| Radio.XTend900.SetLogOutputStream | pi/src/edu/sdsu/rocket/pi/io/radio/XTend900.java:63-66 | the whole state is the old one with only the log stream switched |
| Radio.XTend900.SetTxLedEnabled | pi/src/edu/sdsu/rocket/pi/io/radio/XTend900.java:68-71 | the whole state is the old one with only the TX LED switch set |
| Radio.XTend900.TurnOn | pi/src/edu/sdsu/rocket/pi/io/radio/XTend900.java:202-205 | the whole state is the old one with the radio on |
| Radio.XTend900.TurnOff | pi/src/edu/sdsu/rocket/pi/io/radio/XTend900.java:207-210 | the whole state is the old one with the radio off |
| Radio.XTend900.Toggle | pi/src/edu/sdsu/rocket/pi/io/radio/XTend900.java:212-215 | the whole state is the old one with the power state flipped |
| Radio.XTend900.SerialWrite | pi/src/edu/sdsu/rocket/pi/io/radio/XTend900.java:192-200 | a write succeeds iff the port is open and then appends exactly one entry; otherwise IllegalStateException; nothing else changes |
| Radio.XTend900.EnterCommandMode | pi/src/edu/sdsu/rocket/pi/io/radio/XTend900.java:121-134 | command mode is set either way; the escape sequence is written iff the radio was not in command mode and the port is open; a closed port throws; nothing else changes |
| Radio.XTend900.Request | pi/src/edu/sdsu/rocket/pi/io/radio/XTend900.java:136-182 | command mode is entered, then the query's AT line is written; a closed port throws and writes nothing; nothing else changes |
| Radio.XTend900.LeaveCommandMode | pi/src/edu/sdsu/rocket/pi/io/radio/XTend900.java:184-190 | the exit command line is written and command mode cleared; a closed port throws and changes nothing |
| Radio.XTend900.Configure | pi/src/edu/sdsu/rocket/pi/io/radio/XTend900.java:89-119 | a closed port throws IllegalStateException and changes nothing; otherwise the radio is on, the escape sequence (if needed) and the configuration line are written and the configuration stored; the unescaped API mode gets a new frame handler with no input; the escaped API mode throws UnsupportedOperationException still in command mode, other modes leave command mode; listener, log and LED state stay |
| Radio.XTend900.WriteConfiguration | pi/src/edu/sdsu/rocket/pi/io/radio/XTend900.java:94-105 | the part of configure every mode shares: the whole state is the old one with the radio on, in command mode, the configuration stored and the escape sequence (if needed) and configuration line written |
| Radio.XTend900.Pulse | pi/src/edu/sdsu/rocket/pi/io/radio/XTend900.java:274-278 | a pulse of the given duration is recorded iff the TX LED was enabled; nothing else changes |
| Radio.XTend900.FillWriteBuffer | pi/src/edu/sdsu/rocket/pi/io/radio/XTend900.java:252-256 | the clear and four puts fill the write buffer with exactly FrameBytes iff the frame data plus its 4 framing bytes fit its capacity |
| Radio.XTend900.WriteFrame | pi/src/edu/sdsu/rocket/pi/io/radio/XTend900.java:251-267 | succeeds iff the frame fits the write buffer and the port is open, and then writes FrameBytes and pulses (if enabled) for its length; otherwise BufferOverflowException or IllegalStateException and nothing changes |
| Radio.XTend900.Send | pi/src/edu/sdsu/rocket/pi/io/radio/XTend900.java:225-272 | off throws IllegalStateException; in command mode nothing changes and no error; API disabled writes the raw data, unescaped API writes the frame, each pulsing the TX LED (if enabled) for the bytes written; escaped API throws UnsupportedOperationException; nothing else changes |
| Radio.XTend900.DataReceived | pi/src/edu/sdsu/rocket/pi/io/radio/XTend900.java:280-305 | the bytes go to the log when there was one, then to the frame handler (unescaped API, if there is one), the listener (API disabled, if there is one) or an UnsupportedOperationException (escaped API); nothing else changes |
| Radio.ConfigureThenSend | pi/src/edu/sdsu/rocket/pi/io/radio/XTend900.java:89-272 | after configuring without the API mode, a send succeeds, its data is the last thing written, and the TX LED pulses for it iff enabled |
| Adc.Marking | server/src/main/java/edu/sdsu/rocket/server/devices/ADS1100.java:25-39 | the package marking digit lies in 0..7 |
| Adc.AddressCodes | server/src/main/java/edu/sdsu/rocket/server/devices/ADS1100.java:25-39 | the I2C address of AD k is 0x48 + k, all in the 0x48 block, and distinct addresses have distinct codes |
| Adc.GainValue | server/src/main/java/edu/sdsu/rocket/server/devices/ADS1100.java:64-77 | every gain is positive |
| Adc.NumberOfBits | server/src/main/java/edu/sdsu/rocket/server/devices/ADS1100.java:89-111 | resolution is 12 to 16 bits |
| Adc.RateTableAsWritten | server/src/main/java/edu/sdsu/rocket/server/devices/ADS1100.java:89-98 | the rate table as written: min is -(max + 1) everywhere, max is 2^(bits-1) - 1 except at SPS_16, whose minimum lies below the 15-bit range |
| Adc.MinimumCode | server/src/main/java/edu/sdsu/rocket/server/devices/ADS1100.java:89-111 | the corrected minimum code is negative |
| Adc.RateTable | server/src/main/java/edu/sdsu/rocket/server/devices/ADS1100.java:89-111 | the corrected table agrees with the written one except at SPS_16, which gives -16384 and 16383, and fits 16 bits |
| Adc.ConversionFactor | server/src/main/java/edu/sdsu/rocket/server/devices/ADS1100.java:271-274 | readVoltage's divisor, -min * gain over the listed table, is positive and equals (max + 1) * gain |
| Adc.CorrectedConversionFactor | server/src/main/java/edu/sdsu/rocket/server/devices/ADS1100.java:89-98 | the divisor over the corrected table is the n-bit full scale 2^(bits-1) times the gain |
| Adc.ConversionFactors | server/src/main/java/edu/sdsu/rocket/server/devices/ADS1100.java:91 | the two divisors agree except at SPS_16, where readVoltage divides by 16483 * gain instead of 16384 * gain, so the largest 15-bit code reads 99 codes short of full scale |
| Adc.FullScale | server/src/main/java/edu/sdsu/rocket/server/devices/ADS1100.java:271-274 | any code in the listed range times the gain lies within readVoltage's divisor, so the voltage lies within the gain's share of the supply |
| Adc.CorrectedFullScale | server/src/main/java/edu/sdsu/rocket/server/devices/ADS1100.java:89-98 | any code in the corrected range times the gain lies within the corrected divisor |
| Adc.ConfigFields | server/src/main/java/edu/sdsu/rocket/server/devices/ADS1100.java:232-236 | the config byte's gain, rate and mode bits recover each setting, and bits 5-7 are clear |
| Adc.ConfigInjective | server/src/main/java/edu/sdsu/rocket/server/devices/ADS1100.java:232-236 | distinct settings give distinct config bytes |
| Adc.DefaultConfig | server/src/main/java/edu/sdsu/rocket/server/devices/ADS1100.java:52 | the default settings give 0x0C, and with the conversion bit CONFIG_DEFAULT 0x8C |
| Adc.ByteOf | server/src/main/java/edu/sdsu/rocket/server/devices/ADS1100.java:238-253 | the byte written reads back unsigned as the config value |
| Adc.ConversionBit | server/src/main/java/edu/sdsu/rocket/server/devices/ADS1100.java:255-257 | the ST/BSY bit is set iff the unsigned byte is at least 0x80, iff the signed byte is negative |
| Adc.OutputCode | server/src/main/java/edu/sdsu/rocket/server/devices/ADS1100.java:259-264 | the output register is the two bytes as a big-endian signed 16-bit code |
| Adc.OutputCodeEncoded | server/src/main/java/edu/sdsu/rocket/server/devices/ADS1100.java:259-264 | every 16-bit code sent as two bytes reads back unchanged |
| Adc.ADS1100.constructor | server/src/main/java/edu/sdsu/rocket/server/devices/ADS1100.java:144-183 | PGA_1, SPS_8, continuous, Vdd 5.0f, a zeroed three-byte buffer, nothing written |
| Adc.ADS1100.SetGain | server/src/main/java/edu/sdsu/rocket/server/devices/ADS1100.java:205-208 | the gain bits become the new gain; the rate and mode bits, Vdd and the bytes written stay |
| Adc.ADS1100.SetRate | server/src/main/java/edu/sdsu/rocket/server/devices/ADS1100.java:214-217 | the rate bits become the new rate; the gain and mode bits, Vdd and the bytes written stay |
| Adc.ADS1100.SetMode | server/src/main/java/edu/sdsu/rocket/server/devices/ADS1100.java:223-226 | the mode bit becomes the new mode; the gain and rate bits, Vdd and the bytes written stay |
| Adc.ADS1100.SetSupplyVoltage | server/src/main/java/edu/sdsu/rocket/server/devices/ADS1100.java:196-199 | only Vdd changes |
| Adc.ADS1100.WriteConfig | server/src/main/java/edu/sdsu/rocket/server/devices/ADS1100.java:238-241 | one byte, the config, below 0x20, is written; the settings and Vdd stay |
| Adc.ADS1100.StartConversion | server/src/main/java/edu/sdsu/rocket/server/devices/ADS1100.java:250-253 | one byte, the config with bit 7 set, is written; the settings and Vdd stay |
| Adc.ADS1100.Read | server/src/main/java/edu/sdsu/rocket/server/devices/ADS1100.java:243-264 | the received bytes overwrite the front of the buffer; the rest keeps its old bytes |
| Adc.ADS1100.ReadConfig | server/src/main/java/edu/sdsu/rocket/server/devices/ADS1100.java:243-248 | the third byte received, or the stale buffer byte when fewer than three arrive |
| Adc.ADS1100.IsPerformingConversion | server/src/main/java/edu/sdsu/rocket/server/devices/ADS1100.java:255-257 | busy iff bit 7 of the config byte read (the stale one after a short read) is set; the buffer holds the received bytes followed by its old ones |
| Adc.ADS1100.ReadOutputRegister | server/src/main/java/edu/sdsu/rocket/server/devices/ADS1100.java:259-264 | the buffer holds the received bytes followed by its old ones, and the code is its first two bytes as a signed 16-bit value: the received code after a full read |
| Uptime.SplitInRange | proxy/src/main/java/edu/sdsu/rocket/proxy/Application.java:173-179 | for a non-negative count, days >= 0, 0 <= hours < 24 and 0 <= minutes, seconds < 60 |
| Uptime.SplitInRangeNegative | proxy/src/main/java/edu/sdsu/rocket/proxy/Application.java:173-179 | for a negative count every field truncates toward zero and lies in the negative clock range |
| Uptime.SplitTotal | proxy/src/main/java/edu/sdsu/rocket/proxy/Application.java:174-179 | the fields add back up to the whole seconds of the count, truncated toward zero |
| Uptime.Digits | proxy/src/main/java/edu/sdsu/rocket/proxy/Application.java:181 | `%d` prints at least one digit, all decimal |
| Uptime.ValueDigits | proxy/src/main/java/edu/sdsu/rocket/proxy/Application.java:181 | the printed digits read back as the number |
| Uptime.TwoDigitsValue | proxy/src/main/java/edu/sdsu/rocket/proxy/Application.java:181 | `%02d` of 0..99 is exactly two digits that read back as the number |
| Uptime.FormatLayout | proxy/src/main/java/edu/sdsu/rocket/proxy/Application.java:181 | fields in their clock ranges print as the day count, 'd', then HH:MM:SS, each field reading back from its place |
| Uptime.DHMSLayout | proxy/src/main/java/edu/sdsu/rocket/proxy/Application.java:173-182 | for a non-negative count nanosToDHMS is `<days>d<HH>:<MM>:<SS>` with each field of the split in its place |
| DataIo.Stopwatch.constructor | core/src/main/java/edu/sdsu/rocket/core/helpers/Stopwatch.java:7-9 | the start is the clock at construction |
| DataIo.Stopwatch.ElapsedMonotone | core/src/main/java/edu/sdsu/rocket/core/helpers/Stopwatch.java:20-22 | while the clock moves forward by less than 2^63 ns the elapsed time is the difference and never decreases |
| CoreIo.DeviceOutputStream.constructor | core/src/main/java/edu/sdsu/rocket/core/io/DeviceOutputStream.java:13-15 | a stopwatch started now over the given output |
| CoreIo.DeviceOutputStream.WriteTimestamp | core/src/main/java/edu/sdsu/rocket/core/io/DeviceOutputStream.java:17-21 | writes the elapsed time as a long and returns it |
| CoreIo.TimestampOutputStream.constructor | core/src/main/java/edu/sdsu/rocket/core/io/TimestampOutputStream.java:13-15 | a stopwatch started now over the given output |
| CoreIo.TimestampOutputStream.WriteTimestamp | core/src/main/java/edu/sdsu/rocket/core/io/TimestampOutputStream.java:17-21 | writes the elapsed time as a long and returns it |
| CoreIo.DeviceInputStream.constructor | core/src/main/java/edu/sdsu/rocket/core/io/DeviceInputStream.java:9-11 | over the given input |
| CoreIo.DeviceInputStream.ReadTimestamp | core/src/main/java/edu/sdsu/rocket/core/io/DeviceInputStream.java:13-15 | a long, or EOFException at a short input |
| CoreIo.TimestampInputStream.constructor | core/src/main/java/edu/sdsu/rocket/core/io/TimestampInputStream.java:9-11 | over the given input |
| CoreIo.TimestampInputStream.ReadTimestamp | core/src/main/java/edu/sdsu/rocket/core/io/TimestampInputStream.java:13-15 | a long, or EOFException at a short input |
| CoreIo.StatusOutputStream.constructor | core/src/main/java/edu/sdsu/rocket/core/io/StatusOutputStream.java:9-11 | over the given output |
| CoreIo.StatusOutputStream.WriteValue | core/src/main/java/edu/sdsu/rocket/core/io/StatusOutputStream.java:13-16 | appends the timestamp long and the CPU temperature int |
| CoreIo.StatusInputStream.constructor | core/src/main/java/edu/sdsu/rocket/core/io/StatusInputStream.java:14-16 | over the given input |
| CoreIo.StatusInputStream.ReadValue | core/src/main/java/edu/sdsu/rocket/core/io/StatusInputStream.java:18-27 | the next timestamp and temperature, or EOFException |
| CoreIo.SingleChannelADCOutputStream.constructor | core/src/main/java/edu/sdsu/rocket/core/io/SingleChannelADCOutputStream.java:13-15 | a stopwatch started now over the given output |
| CoreIo.SingleChannelADCOutputStream.WriteValue | core/src/main/java/edu/sdsu/rocket/core/io/SingleChannelADCOutputStream.java:17-22 | appends the elapsed time and the value's float bits |
| CoreIo.SingleChannelADCInputStream.constructor | core/src/main/java/edu/sdsu/rocket/core/io/SingleChannelADCInputStream.java:14-16 | over the given input |
| CoreIo.SingleChannelADCInputStream.ReadReading | core/src/main/java/edu/sdsu/rocket/core/io/SingleChannelADCInputStream.java:18-23 | the next timestamp and value, or EOFException |
| CoreIo.ADS1100OutputStream.constructor | core/src/main/java/edu/sdsu/rocket/core/io/ADS1100OutputStream.java:15-17 | a stopwatch started now over the given output |
| CoreIo.ADS1100OutputStream.WriteValue | core/src/main/java/edu/sdsu/rocket/core/io/ADS1100OutputStream.java:19-23 | appends the SENSOR_VALUE tag, the elapsed time and the value |
| CoreIo.TaggedBytes | core/src/main/java/edu/sdsu/rocket/core/io/ADS1100OutputStream.java:19-23 | a tagged record is 13 bytes |
| CoreIo.TaggedRecord | core/src/main/java/edu/sdsu/rocket/core/io/ADS1100OutputStream.java:11-23 | a tagged record is the SENSOR_VALUE byte and then a timed float record that reads back |
| CoreIo.NextMS5611 | core/src/main/java/edu/sdsu/rocket/core/io/MS5611InputStream.java:18-37 | at the end of input null; an unknown tag throws IOException naming it; the input only shrinks |
| CoreIo.MS5611InputStream.constructor | core/src/main/java/edu/sdsu/rocket/core/io/MS5611InputStream.java:14-16 | over the given input with the two tags |
| CoreIo.MS5611InputStream.ReadReading | core/src/main/java/edu/sdsu/rocket/core/io/MS5611InputStream.java:18-37 | the result and the input left are those of NextMS5611 |
| CoreIo.FaultRecords | core/src/main/java/edu/sdsu/rocket/core/io/MS5611InputStream.java:28-31 | a fault record is 13 bytes |
| CoreIo.SkipsFault | core/src/main/java/edu/sdsu/rocket/core/io/MS5611InputStream.java:28-31 | a fault record is read and skipped |
| CoreIo.SkipsFaultRun | core/src/main/java/edu/sdsu/rocket/core/io/MS5611InputStream.java:20-36 | any run of fault records is skipped |
| CoreIo.SkipsFaults | core/src/main/java/edu/sdsu/rocket/core/io/MS5611InputStream.java:20-36 | readReading returns the first sensor-values record after any run of faults |
| CoreIo.FaultsThenEnd | core/src/main/java/edu/sdsu/rocket/core/io/MS5611InputStream.java:20-36 | faults followed by the end of input give null |
| Log2Csv.NextITG3205 | log2csv/src/edu/sdsu/rocket/log2csv/ITG3205InputStream.java:21-41 | a reading carries the current scaling factor; a tag above 1 throws IOException naming it; the input only shrinks |
| Log2Csv.ReadTriple | log2csv/src/edu/sdsu/rocket/log2csv/ITG3205InputStream.java:27-30 | a long and three shorts, or EOFException |
| Log2Csv.ITG3205InputStream.constructor | log2csv/src/edu/sdsu/rocket/log2csv/ITG3205InputStream.java:15-19 | the scaling factor starts at 1.0f |
| Log2Csv.ITG3205InputStream.ReadReading | log2csv/src/edu/sdsu/rocket/log2csv/ITG3205InputStream.java:21-41 | the result, the input left and the new scaling factor are those of NextITG3205 |
| Log2Csv.FactorRecords | log2csv/src/edu/sdsu/rocket/log2csv/ITG3205InputStream.java:33-35 | a scaling-factor record is 5 bytes |
| Log2Csv.SkipsFactor | log2csv/src/edu/sdsu/rocket/log2csv/ITG3205InputStream.java:33-35 | a tag-1 record is consumed and its value becomes the scaling factor |
| Log2Csv.FactorRun | log2csv/src/edu/sdsu/rocket/log2csv/ITG3205InputStream.java:23-38 | a run of tag-1 records is consumed and the last one wins |
| Log2Csv.ReadingFactor | log2csv/src/edu/sdsu/rocket/log2csv/ITG3205InputStream.java:21-41 | a reading carries the scaling factor of the most recent tag-1 record before it |
| DeviceIo.ADS11xxOutputStream.constructor | core/src/main/java/edu/sdsu/rocket/core/io/devices/ADS11xxOutputStream.java:9-11 | over the given output |
| DeviceIo.ADS11xxOutputStream.WriteConfig | core/src/main/java/edu/sdsu/rocket/core/io/devices/ADS11xxOutputStream.java:13-15 | appends the config int |
| DeviceIo.ADS11xxOutputStream.WriteValue | core/src/main/java/edu/sdsu/rocket/core/io/devices/ADS11xxOutputStream.java:17-20 | appends the timestamp and the value's float bits |
| DeviceIo.ADS11xxInputStream.constructor | core/src/main/java/edu/sdsu/rocket/core/io/devices/ADS11xxInputStream.java:14-16 | over the given input |
| DeviceIo.ADS11xxInputStream.ReadConfig | core/src/main/java/edu/sdsu/rocket/core/io/devices/ADS11xxInputStream.java:18-20 | the config int, or EOFException |
| DeviceIo.ADS11xxInputStream.ReadValue | core/src/main/java/edu/sdsu/rocket/core/io/devices/ADS11xxInputStream.java:22-31 | the next timestamp and value, or EOFException |
| DeviceIo.ADS1114OutputStream.constructor | core/src/main/java/edu/sdsu/rocket/core/io/devices/ADS1114OutputStream.java:10-12 | over a device stream |
| DeviceIo.ADS1114OutputStream.WriteConfig | core/src/main/java/edu/sdsu/rocket/core/io/devices/ADS1114OutputStream.java:14-16 | appends the config int |
| DeviceIo.ADS1114OutputStream.WriteValue | core/src/main/java/edu/sdsu/rocket/core/io/devices/ADS1114OutputStream.java:18-22 | appends the elapsed time and the value's float bits |
| DeviceIo.ADS1114InputStream.constructor | core/src/main/java/edu/sdsu/rocket/core/io/devices/ADS1114InputStream.java:15-17 | over a device stream |
| DeviceIo.ADS1114InputStream.ReadConfig | core/src/main/java/edu/sdsu/rocket/core/io/devices/ADS1114InputStream.java:19-21 | the config int, or EOFException |
| DeviceIo.ADS1114InputStream.ReadValue | core/src/main/java/edu/sdsu/rocket/core/io/devices/ADS1114InputStream.java:23-32 | the next timestamp and value, or EOFException |
| DeviceIo.ADS1115OutputStream.constructor | core/src/main/java/edu/sdsu/rocket/core/io/devices/ADS1115OutputStream.java:8-10 | over an ADS1114 stream |
| DeviceIo.ADS1115OutputStream.WriteConfig | core/src/main/java/edu/sdsu/rocket/core/io/devices/ADS1114OutputStream.java:14-16 | the inherited config writer |
| DeviceIo.ADS1115OutputStream.WriteValue | core/src/main/java/edu/sdsu/rocket/core/io/devices/ADS1115OutputStream.java:12-17 | appends the elapsed time, the channel's low byte and the value |
| DeviceIo.ADS1115InputStream.constructor | core/src/main/java/edu/sdsu/rocket/core/io/devices/ADS1115InputStream.java:14-16 | over an ADS1114 stream |
| DeviceIo.ADS1115InputStream.ReadConfig | core/src/main/java/edu/sdsu/rocket/core/io/devices/ADS1114InputStream.java:19-21 | the inherited config reader |
| DeviceIo.ADS1115InputStream.ReadValue | core/src/main/java/edu/sdsu/rocket/core/io/devices/ADS1115InputStream.java:18-28 | the next timestamp, channel and value, or EOFException |
| DeviceIo.ADS1100OutputStream.constructor | core/src/main/java/edu/sdsu/rocket/core/io/devices/ADS1100OutputStream.java:10-12 | over a device stream |
| DeviceIo.ADS1100OutputStream.WriteConfig | core/src/main/java/edu/sdsu/rocket/core/io/devices/ADS1100OutputStream.java:14-17 | appends the config int and Vdd |
| DeviceIo.ADS1100OutputStream.WriteValue | core/src/main/java/edu/sdsu/rocket/core/io/devices/ADS1100OutputStream.java:19-23 | appends the elapsed time and the value |
| DeviceIo.ADS1100InputStream.constructor | core/src/main/java/edu/sdsu/rocket/core/io/devices/ADS1100InputStream.java:20-22 | over a timestamp stream |
| DeviceIo.ADS1100InputStream.ReadConfig | core/src/main/java/edu/sdsu/rocket/core/io/devices/ADS1100InputStream.java:24-33 | the config int and Vdd, or EOFException |
| DeviceIo.ADS1100InputStream.ReadValue | core/src/main/java/edu/sdsu/rocket/core/io/devices/ADS1100InputStream.java:35-44 | the next timestamp and value, or EOFException |
| DeviceIo.PhidgetBridgeOutputStream.constructor | core/src/main/java/edu/sdsu/rocket/core/io/devices/PhidgetBridgeOutputStream.java:9-11 | over the given output |
| DeviceIo.PhidgetBridgeOutputStream.WriteConfig | core/src/main/java/edu/sdsu/rocket/core/io/devices/PhidgetBridgeOutputStream.java:13-19 | appends the five header ints in order |
| DeviceIo.PhidgetBridgeOutputStream.WriteValue | core/src/main/java/edu/sdsu/rocket/core/io/devices/PhidgetBridgeOutputStream.java:21-24 | appends the timestamp and the double's bits |
| DeviceIo.PhidgetBridgeInputStream.constructor | core/src/main/java/edu/sdsu/rocket/core/io/devices/PhidgetBridgeInputStream.java:22-24 | over the given input |
| DeviceIo.PhidgetBridgeInputStream.ReadConfig | core/src/main/java/edu/sdsu/rocket/core/io/devices/PhidgetBridgeInputStream.java:26-34 | the five header ints, or EOFException |
| DeviceIo.PhidgetBridgeInputStream.ReadValue | core/src/main/java/edu/sdsu/rocket/core/io/devices/PhidgetBridgeInputStream.java:36-45 | the next timestamp and double, or EOFException |
| LogFormats.Long | core/src/main/java/edu/sdsu/rocket/core/io/TimestampInputStream.java:13-15 | a long needs 8 bytes and takes exactly them; a short input is EOFException |
| LogFormats.Int | core/src/main/java/edu/sdsu/rocket/core/io/devices/ADS11xxInputStream.java:18-20 | an int needs 4 bytes and takes exactly them; a short input is EOFException |
| LogFormats.TimedFloat | core/src/main/java/edu/sdsu/rocket/core/io/devices/ADS11xxInputStream.java:22-31 | a timed float record needs 12 bytes and takes exactly them |
| LogFormats.TimedInt | core/src/main/java/edu/sdsu/rocket/core/io/StatusInputStream.java:18-27 | a status record needs 12 bytes and takes exactly them |
| LogFormats.TimedPair | core/src/main/java/edu/sdsu/rocket/core/io/MS5611InputStream.java:22-27 | an MS5611 record body needs 16 bytes and takes exactly them |
| LogFormats.TimedTriple | log2csv/src/edu/sdsu/rocket/log2csv/ITG3205InputStream.java:27-30 | an ITG3205 record body needs 14 bytes and takes exactly them |
| LogFormats.TimedDouble | core/src/main/java/edu/sdsu/rocket/core/io/devices/PhidgetBridgeInputStream.java:36-45 | a bridge record needs 16 bytes and takes exactly them |
| LogFormats.TimedChannel | core/src/main/java/edu/sdsu/rocket/core/io/devices/ADS1115InputStream.java:18-28 | an ADS1115 record needs 13 bytes and takes exactly them |
| LogFormats.ConfigAndVdd | core/src/main/java/edu/sdsu/rocket/core/io/devices/ADS1100InputStream.java:24-33 | the ADS1100 header needs 8 bytes and takes exactly them |
| LogFormats.Bridge | core/src/main/java/edu/sdsu/rocket/core/io/devices/PhidgetBridgeInputStream.java:26-34 | the bridge header needs 20 bytes and takes exactly them |
| LogFormats.TimedWordBytes | core/src/main/java/edu/sdsu/rocket/core/io/devices/ADS11xxOutputStream.java:17-20 | a timed float record (as its bits) and a status record share one 12-byte layout |
| LogFormats.DoubleReadingBytes | core/src/main/java/edu/sdsu/rocket/core/io/devices/PhidgetBridgeOutputStream.java:21-24 | a bridge record is 16 bytes |
| LogFormats.PairReadingBytes | core/src/main/java/edu/sdsu/rocket/core/io/MS5611InputStream.java:22-27 | an MS5611 record body is 16 bytes |
| LogFormats.TripleReadingBytes | log2csv/src/edu/sdsu/rocket/log2csv/ITG3205InputStream.java:27-30 | an ITG3205 record body is 14 bytes |
| LogFormats.ChannelReadingBytes | core/src/main/java/edu/sdsu/rocket/core/io/devices/ADS1115OutputStream.java:12-17 | an ADS1115 record is 13 bytes |
| LogFormats.VddConfigBytes | core/src/main/java/edu/sdsu/rocket/core/io/devices/ADS1100OutputStream.java:14-17 | the ADS1100 header is 8 bytes |
| LogFormats.BridgeConfigBytes | core/src/main/java/edu/sdsu/rocket/core/io/devices/PhidgetBridgeOutputStream.java:13-19 | the bridge header is 20 bytes |
| LogFormats.LongRoundTrip | core/src/main/java/edu/sdsu/rocket/core/io/TimestampInputStream.java:13-15 | a written timestamp reads back and leaves the bytes after it |
| LogFormats.IntRoundTrip | core/src/test/java/ADS11xxStreamsTest.java:16-50 | a written config reads back and leaves the bytes after it |
| LogFormats.FloatReadingRoundTrip | core/src/test/java/SingleChannelADCStreamsTest.java:14-39 | a written timed float record reads back unchanged |
| LogFormats.IntReadingRoundTrip | core/src/test/java/StatusStreamsTest.java:14-43 | a written status record reads back unchanged |
| LogFormats.PairReadingRoundTrip | core/src/main/java/edu/sdsu/rocket/core/io/MS5611InputStream.java:22-27 | an MS5611 record body reads back unchanged |
| LogFormats.TripleReadingRoundTrip | log2csv/src/edu/sdsu/rocket/log2csv/ITG3205InputStream.java:27-30 | an ITG3205 record body reads back unchanged |
| LogFormats.DoubleReadingRoundTrip | core/src/test/java/PhidgetBridgeStreamsTest.java:16-57 | a written bridge record reads back unchanged |
| LogFormats.ChannelReadingRoundTrip | core/src/test/java/ADS1115StreamsTest.java:18-58 | a written ADS1115 record reads back unchanged |
| LogFormats.VddConfigRoundTrip | core/src/test/java/ADS1100StreamsTest.java:16-55 | a written ADS1100 header reads back unchanged |
| LogFormats.BridgeConfigRoundTrip | core/src/test/java/PhidgetBridgeStreamsTest.java:16-57 | a written bridge header reads back unchanged |

## Left out

- Threads, `synchronized` blocks, `wait`/`notifyAll`, `Thread.join` and `Thread.sleep` are not modelled. A pass of a loop is one method call (`RateLimit.RateLimitedRunnable.NextPass`, `Devices.DeviceRunnable.Loop`, `Client.SensorClient.Poll`). The sleep a pass makes is a value, `RateLimit.SleepFor`.
- Floating point arithmetic is not modelled. Floats and doubles travel as bit patterns, `floatToIntBits` as a NaN canonicalisation, and `AtomicFloat` as a cell of float bits.
- `Adc.ADS1100`'s `readVoltage` is not modelled because its result is a float quotient. Its divisor over the table as listed, and the range of the quotient, are stated by `Adc.ConversionFactor` and `Adc.FullScale`; `Adc.ConversionFactors` compares it with the corrected divisor.
- `RateLimit.RateLimitedRunnable.SetFrequency` and `Client.SensorClient.SetFrequency` take the frequency as a nonzero whole number of hertz. `Math.round(1000f / f)` is computed exactly, which agrees with float rounding for such values. Fractional, infinite and NaN frequencies are not modelled.
- `RateLimit.RateLimitedRunnable.NextPass`'s sleep duration is stated only for a nanosecond part within int range; outside it the `(int)` cast wraps and `RateLimit.SleepFor` carries the wrapped value, and whether `Thread.sleep` refuses it is decided on that value.
- `CoreIo.MS5611InputStream.ReadReading` takes the SENSOR_VALUES and FAULT tags as parameters. `MS5611OutputStream`, which defines them, is not part of this model. The fault record's `System.err` line is not modelled.
- `ProxyModels.ProxyData.ToByteBuffer` and `ProxyModels.ProxyData.FromByteBuffer` take the Stim300 mask as a parameter. `ProxyData` calls one-argument `toByteBuffer`/`fromByteBuffer` of `Stim300`, which declares only the two-argument pair.
- `Radio.XTend900.Send` takes the frame the `TXRequest` would build as a parameter. `APIFrame`, `TXRequest`, `XTend900Config` and `APIFrameHandler` are not part of this model. A configuration is its API setting plus opaque command text, and the maximum frame length is a constructor parameter.
- `XTend900.setAPIListener` is not modelled because it only forwards a listener to the frame handler, which is not part of this model.
- The time-gated guard delays around the XTend900 escape sequence and the exit command are not modelled (`Thread.sleep`).
- `XTend900.setup` and `ADS1100.setup` provision GPIO pins and the I2C device. They are folded into the constructors. Calls before setup, which would hit null pins, are not modelled, and the TX LED is a log of pulse durations.
- `XTend900`'s `WRITE_BUFFER` is a static shared by every instance; the model gives each radio its own buffer, which is the same while one radio exists.
- `Adc.ADS1100.Read`, `Adc.ADS1100.ReadConfig`, `Adc.ADS1100.IsPerformingConversion` and `Adc.ADS1100.ReadOutputRegister` take the bytes the bus returned as a parameter. The `IOException` of a failed I2C transfer is not modelled.
- `Adc.ADS1100.WriteConfig` and `Adc.ADS1100.StartConversion` record the byte written. The I2C `IOException` is not modelled.
- `DataIo.DataOutput` and the stream writers do not model the `IOException` of the underlying stream. The readers model only `EOFException`.
- `Client.SensorClient.SendMessage`, `Client.SensorClient.SendPingRequest` and `Client.SensorClient.SendSensorRequest` record the datagrams handed to the datagram client. The socket's `IOException`, the client's own thread and the address are not modelled. A send before `start` is the `NullPointerException` the null client raises.
- `Client.SensorClient.OnPingResponse` and `Client.SensorClient.SendPingRequest` take `System.nanoTime()` as a parameter. The listener is a flag plus a log of notifications.
- `Devices.DeviceManager.Add` and `Devices.DeviceRunnable.Loop` take the clock as a parameter. A device is known by name, and its `loop()` is an outcome parameter: it returns, it throws `IOException` (swallowed), or it is interrupted.
- `Sensors`' one-argument `toByteBuffer`/`fromByteBuffer` (the all-ones mask) are not separate members. `SensorsCodec.ZeroMaskIsAll` covers the mask they pass.
- `toString` methods, `System.out`/`System.err` output and `AtomicIntFloat.toString` are not modelled.
- The `readValue` overloads that fill a caller's reading object in place are not modelled. The model returns the reading as a value.
- An overflowing `put` stops part way in the source, leaving the earlier bytes in the buffer. `SensorsCodec.Sensors.ToByteBuffer`, `ProxyModels.Stim300.ToByteBuffer`, `ProxyModels.Gps.ToByteBuffer` and `ProxyModels.ProxyData.ToByteBuffer` state only that an overflow is reported, not which bytes were already put.
- `Uptime.NanosToDHMS`'s text layout is proved for non-negative counts only (`Uptime.DHMSLayout`). For negative counts only the field ranges are stated (`Uptime.SplitInRangeNegative`). `TimeUnit`'s saturating multiply is not modelled because the products in `nanosToDHMS` cannot overflow.
- `AtomicPair.AtomicIntFloat`'s atomic compare-and-set machinery is not modelled; the cell is a plain long field.

## Findings

| source | as written | input that shows it | evidently intended | confidence | as-written member | corrected member |
|---|---|---|---|---|---|---|
| server/src/main/java/edu/sdsu/rocket/server/devices/ADS1100.java:91 | `SPS_16` lists minimum code -16483 and maximum 16482 | rate `SPS_16`, a 15-bit conversion: -16483 lies below the 15-bit range -16384..16383, and the conversion factor (-min * gain) is 16483 instead of 16384 | -16384 and 16383, as the other three rates follow (-2^(bits-1) and 2^(bits-1) - 1); the digits 3 and 4 are transposed | not executed; high | Adc.RateTableAsWritten | Adc.RateTable |
