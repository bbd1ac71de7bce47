/** SensorClient: the UDP client that polls a sensor server. Every outbound
    datagram carries the next number of one shared request counter, and a
    sensor response is accepted only when its number is not older than the
    last accepted one and not newer than the last request. */
module Client {
  import opened Wire
  import opened NioBuffer
  import opened SensorsCodec
  import opened RateLimit

  /** Message ids. */
  const PING: int8 := 0x0
  const SENSORS: int8 := 0x1

  /** ANALOG_MASK | SYSTEM_MASK: the two flags share no bit. */
  const SENSORS_MASK: int8 := 0x03

  /** The capacity of the reusable message and ping buffers. */
  const BUFFER_SIZE: nat := 1024

  /** A received datagram: its request number, id and payload. */
  datatype DatagramMessage = DatagramMessage(number: int32, id: int8, data: seq<uint8>)

  /** The datagram layout: the int number, the id byte, then the payload. */
  function MessageBytes(number: int32, id: int8, data: seq<uint8>): (b: seq<uint8>)
    ensures |b| == 5 + |data|
  {
    EncodeInt(number) + EncodeByte(id) + data
  }

  /** The reading a receiver makes of a datagram: none when it is shorter
      than the number and the id. */
  function ParseMessage(b: seq<uint8>): (m: Option<DatagramMessage>)
    ensures m.Some? <==> |b| >= 5
  {
    if |b| < 5 then None
    else
      WidthBounds();
      Some(DatagramMessage(DecodeSigned(b[..4]), DecodeSigned(b[4..5]), b[5..]))
  }

  /** Reading a sent datagram gives back its number, id and payload. */
  lemma MessageRoundTrip(number: int32, id: int8, data: seq<uint8>)
    ensures ParseMessage(MessageBytes(number, id, data)) == Some(DatagramMessage(number, id, data))
  {
    var b := MessageBytes(number, id, data);
    WidthBounds();
    assert b[..4] == EncodeSigned(4, number);
    assert b[4..5] == EncodeSigned(1, id);
    assert b[5..] == data;
    DecodeEncodeSigned(4, number);
    DecodeEncodeSigned(1, id);
  }

  /** Every datagram a receiver reads is the layout of what it read. */
  lemma ParseMessageBytes(b: seq<uint8>)
    requires |b| >= 5
    ensures var m := ParseMessage(b).value; MessageBytes(m.number, m.id, m.data) == b
  {
    WidthBounds();
    EncodeDecodeSigned(b[..4]);
    EncodeDecodeSigned(b[4..5]);
    assert b == b[..4] + b[4..5] + b[5..];
  }

  /** A ping: the number, the PING id and the 8-byte send time. */
  function PingBytes(number: int32, sendTime: int64): seq<uint8>
  {
    MessageBytes(number, PING, EncodeLong(sendTime))
  }

  /** A ping is 13 bytes, and a receiver reads the send time back from its
      payload. */
  lemma PingLayout(number: int32, sendTime: int64)
    ensures |PingBytes(number, sendTime)| == 13
    ensures ParseMessage(PingBytes(number, sendTime)) == Some(DatagramMessage(number, PING, EncodeLong(sendTime)))
    ensures DecodeSigned(EncodeLong(sendTime)) == sendTime
  {
    MessageRoundTrip(number, PING, EncodeLong(sendTime));
    WidthBounds();
    DecodeEncodeSigned(8, sendTime);
  }

  /** A sensor request is 6 bytes: the number, the SENSORS id and the mask. */
  lemma SensorRequestLayout(number: int32, mask: int8)
    ensures |MessageBytes(number, SENSORS, EncodeByte(mask))| == 6
    ensures ParseMessage(MessageBytes(number, SENSORS, EncodeByte(mask)))
         == Some(DatagramMessage(number, SENSORS, EncodeByte(mask)))
  {
    MessageRoundTrip(number, SENSORS, EncodeByte(mask));
  }

  /** The staleness filter: the response number after a sensor response
      numbered `number`, or None when the response is dropped. Number 0
      bypasses the filter. */
  function Screen(number: int32, responseNumber: int32, requestNumber: int32): (next: Option<int32>)
    ensures next.Some? ==> responseNumber <= next.value
    ensures next.Some? && responseNumber <= requestNumber ==> next.value <= requestNumber
  {
    if number == 0 then Some(responseNumber)
    else if number < responseNumber || number > requestNumber then None
    else Some(number)
  }

  /** A nonzero number is dropped exactly when it lies outside
      [responseNumber, requestNumber], and is otherwise the new response
      number. */
  lemma ScreenRule(number: int32, responseNumber: int32, requestNumber: int32)
    requires number != 0
    ensures Screen(number, responseNumber, requestNumber).None?
        <==> number < responseNumber || number > requestNumber
    ensures Screen(number, responseNumber, requestNumber).Some? ==>
      Screen(number, responseNumber, requestNumber).value == number
  {
  }

  /** A response with the same number as the last accepted one is accepted
      again. */
  lemma ScreenRepeat(number: int32, requestNumber: int32)
    requires number <= requestNumber
    ensures Screen(number, number, requestNumber) == Some(number)
  {
  }

  /** The first payload byte of a sensor response, read as the mask. */
  function MaskOf(data: seq<uint8>): int8
    requires |data| >= 1
  {
    WidthBounds();
    DecodeSigned(data[..1])
  }

  /** What an accepted sensor payload does to the sensor values: nothing
      when it is empty (the mask get underflows), else the decode of the
      rest with its first byte as the mask. */
  function Delivered(s: Snapshot, data: seq<uint8>): Decoding
  {
    if data == [] then Decoding(s, [], false)
    else Decode(Decoding(s, data[1..], true), MaskOf(data))
  }

  /** An accepted payload updates the sensors completely, and the listener
      hears of it, exactly when it holds the mask byte and every section
      that mask selects. */
  lemma DeliveredCompletes(s: Snapshot, data: seq<uint8>)
    ensures Delivered(s, data).ok <==> |data| >= 1 && |data| - 1 >= EncodedLength(MaskOf(data))
  {
    if data != [] {
      DecodeConsumes(s, data[1..], MaskOf(data));
    }
  }

  /** A payload built as the mask byte followed by the encoding of a
      snapshot under that mask decodes completely, and the sensors then hold
      that snapshot's values in every category the mask selects. */
  lemma DeliveredEncoding(s: Snapshot, prior: Snapshot, mask: int8)
    ensures Delivered(prior, EncodeByte(mask) + Encode(s, mask)) == Decoding(Received(prior, s, mask), [], true)
  {
    var data := EncodeByte(mask) + Encode(s, mask);
    WidthBounds();
    DecodeEncodeSigned(1, mask);
    assert data[..1] == EncodeByte(mask);
    assert data[1..] == Encode(s, mask) + [];
    DecodeEncode(prior, s, mask, []);
  }

  class SensorClient {
    const sensors: Sensors
    const messageBuffer: ByteBuffer
    const pingBuffer: ByteBuffer
    /** Whether the datagram client exists (start has run, stop has not). */
    var started: bool
    /** The datagrams handed to the datagram client, in order. */
    var sent: seq<seq<uint8>>
    var frequency: int32
    var runnable: RateLimitedRunnable?
    var requestNumber: int32
    var responseNumber: int32
    var latency: int64
    /** Whether a listener is set, and the notifications it has received. */
    var hasListener: bool
    var sensorUpdates: nat
    var latencies: seq<int64>

    ghost predicate Valid()
      reads this, sensors, messageBuffer, pingBuffer
    {
      sensors.Valid() && messageBuffer.Valid() && pingBuffer.Valid() &&
      |messageBuffer.content| == BUFFER_SIZE && |pingBuffer.content| == BUFFER_SIZE &&
      messageBuffer != pingBuffer
    }

    /** Barring int overflow: responses never run ahead of requests. */
    predicate Ordered()
      reads this
    {
      0 <= responseNumber <= requestNumber
    }

    constructor (sensors: Sensors)
      requires sensors.Valid()
      ensures Valid() && Ordered() && this.sensors == sensors
      ensures fresh(messageBuffer) && fresh(pingBuffer)
      ensures !started && sent == [] && runnable == null && frequency == 0
      ensures requestNumber == 0 && responseNumber == 0 && latency == 0
      ensures !hasListener && sensorUpdates == 0 && latencies == []
    {
      this.sensors := sensors;
      messageBuffer := new ByteBuffer.Allocate(BUFFER_SIZE);
      pingBuffer := new ByteBuffer.Allocate(BUFFER_SIZE);
      started, sent, runnable, frequency := false, [], null, 0;
      requestNumber, responseNumber, latency := 0, 0, 0;
      hasListener, sensorUpdates, latencies := false, 0, [];
    }

    /** setListener(listener), with a null listener as `false`. */
    method SetListener(present: bool)
      modifies this
      ensures hasListener == present
      ensures sent == old(sent) && requestNumber == old(requestNumber) && responseNumber == old(responseNumber)
      ensures started == old(started) && runnable == old(runnable) && frequency == old(frequency)
      ensures sensorUpdates == old(sensorUpdates) && latencies == old(latencies) && latency == old(latency)
    {
      hasListener := present;
    }

    /** setFrequency: recorded; once started, 0 pauses the poll loop and any
        other value sets its rate and resumes it. */
    method SetFrequency(hz: int32)
      modifies this, runnable
      ensures frequency == hz && runnable == old(runnable)
      ensures runnable != null && hz == 0 ==>
        runnable.isPaused && runnable.sleepMs == old(runnable.sleepMs) && runnable.sleepNs == old(runnable.sleepNs)
      ensures runnable != null && hz != 0 ==>
        !runnable.isPaused && runnable.sleepMs == PeriodMillis(hz) && runnable.sleepNs == 0
      ensures runnable != null ==> runnable.isRunning == old(runnable.isRunning)
      ensures started == old(started) && sent == old(sent) && hasListener == old(hasListener)
      ensures requestNumber == old(requestNumber) && responseNumber == old(responseNumber)
      ensures sensorUpdates == old(sensorUpdates) && latencies == old(latencies) && latency == old(latency)
    {
      frequency := hz;
      if runnable != null {
        if hz == 0 {
          runnable.Pause();
        } else {
          var _ := runnable.SetFrequency(hz);
          runnable.Resume();
        }
      }
    }

    /** start(address): a second start fails; the first creates the
        datagram client and the poll loop, paced by the recorded frequency
        (paused while it is 0). */
    method Start() returns (r: Result<()>)
      modifies this
      ensures r.Err? <==> old(started)
      ensures r.Err? ==> r.error == SocketException && runnable == old(runnable) && started
      ensures r.Ok? ==> started && runnable != null && fresh(runnable)
      ensures r.Ok? ==> runnable.isRunning && runnable.isPaused == (frequency == 0)
      ensures r.Ok? && frequency != 0 ==> runnable.sleepMs == PeriodMillis(frequency) && runnable.sleepNs == 0
      ensures frequency == old(frequency) && sent == old(sent) && hasListener == old(hasListener)
      ensures requestNumber == old(requestNumber) && responseNumber == old(responseNumber)
      ensures sensorUpdates == old(sensorUpdates) && latencies == old(latencies) && latency == old(latency)
    {
      if started {
        return Err(SocketException);
      }
      started := true;
      runnable := new RateLimitedRunnable();
      SetFrequency(frequency);
      r := Ok(());
    }

    /** stop(): the datagram client and the poll loop are dropped. */
    method Stop()
      modifies this
      ensures !started && runnable == null
      ensures frequency == old(frequency) && sent == old(sent) && hasListener == old(hasListener)
      ensures requestNumber == old(requestNumber) && responseNumber == old(responseNumber)
      ensures sensorUpdates == old(sensorUpdates) && latencies == old(latencies) && latency == old(latency)
    {
      started := false;
      runnable := null;
    }

    /** pause(): the poll loop is paused; before start or after stop there is
        no loop and the call throws. */
    method Pause() returns (r: Result<()>)
      modifies runnable
      ensures r.Ok? <==> runnable != null
      ensures r.Err? ==> r.error == NullPointerException
      ensures runnable != null ==> runnable.isPaused
      ensures runnable != null ==> runnable.sleepMs == old(runnable.sleepMs) && runnable.sleepNs == old(runnable.sleepNs)
      ensures runnable != null ==> runnable.isRunning == old(runnable.isRunning)
    {
      if runnable == null {
        return Err(NullPointerException);
      }
      runnable.Pause();
      r := Ok(());
    }

    /** resume(): the poll loop runs again; without a loop the call throws. */
    method Resume() returns (r: Result<()>)
      modifies runnable
      ensures r.Ok? <==> runnable != null
      ensures r.Err? ==> r.error == NullPointerException
      ensures runnable != null ==> !runnable.isPaused
      ensures runnable != null ==> runnable.sleepMs == old(runnable.sleepMs) && runnable.sleepNs == old(runnable.sleepNs)
      ensures runnable != null ==> runnable.isRunning == old(runnable.isRunning)
    {
      if runnable == null {
        return Err(NullPointerException);
      }
      runnable.Resume();
      r := Ok(());
    }

    /** sendPingRequest(), with System.nanoTime() as `now`: the counter is
        advanced first, then the ping is put in the ping buffer and sent;
        without a datagram client the send throws. */
    method SendPingRequest(now: int64) returns (r: Result<()>)
      requires Valid()
      modifies this, pingBuffer
      ensures Valid()
      ensures requestNumber == Wrap32(old(requestNumber) + 1)
      ensures r.Ok? <==> started
      ensures r.Ok? ==> sent == old(sent) + [PingBytes(requestNumber, now)]
      ensures r.Err? ==> r.error == NullPointerException && sent == old(sent)
      ensures old(Ordered()) && old(requestNumber) < 0x7fff_ffff ==> Ordered()
      ensures started == old(started) && responseNumber == old(responseNumber) && runnable == old(runnable)
      ensures frequency == old(frequency) && hasListener == old(hasListener)
      ensures sensorUpdates == old(sensorUpdates) && latencies == old(latencies) && latency == old(latency)
    {
      pingBuffer.Clear();
      requestNumber := Wrap32(requestNumber + 1);
      var a, b, c := EncodeInt(requestNumber), EncodeByte(PING), EncodeLong(now);
      var u := pingBuffer.Put(a);
      assert u.Ok? && pingBuffer.Written() == a;
      u := pingBuffer.Put(b);
      assert u.Ok? && pingBuffer.Written() == a + b;
      u := pingBuffer.Put(c);
      assert u.Ok? && pingBuffer.Written() == a + b + c;
      if !started {
        return Err(NullPointerException);
      }
      sent := sent + [pingBuffer.Written()];
      r := Ok(());
    }

    /** sendMessage(id, data), with a null array as None; the one-byte and
        no-data overloads are Some([data]) and None. The counter is advanced
        first; a payload longer than the buffer's remaining 1019 bytes
        overflows it, and nothing is sent. */
    method SendMessage(id: int8, data: Option<seq<uint8>>) returns (r: Result<()>)
      requires Valid()
      modifies this, messageBuffer
      ensures Valid()
      ensures requestNumber == Wrap32(old(requestNumber) + 1)
      ensures var d := if data.Some? then data.value else [];
        (r.Ok? <==> started && 5 + |d| <= BUFFER_SIZE) &&
        (r.Ok? ==> sent == old(sent) + [MessageBytes(requestNumber, id, d)])
      ensures var d := if data.Some? then data.value else [];
        r.Err? ==>
          sent == old(sent) && r.error == (if 5 + |d| > BUFFER_SIZE then BufferOverflowException else NullPointerException)
      ensures old(Ordered()) && old(requestNumber) < 0x7fff_ffff ==> Ordered()
      ensures started == old(started) && responseNumber == old(responseNumber) && runnable == old(runnable)
      ensures frequency == old(frequency) && hasListener == old(hasListener)
      ensures sensorUpdates == old(sensorUpdates) && latencies == old(latencies) && latency == old(latency)
    {
      messageBuffer.Clear();
      requestNumber := Wrap32(requestNumber + 1);
      var a, b := EncodeInt(requestNumber), EncodeByte(id);
      var d := if data.Some? then data.value else [];
      var u := messageBuffer.Put(a);
      assert u.Ok? && messageBuffer.Written() == a;
      u := messageBuffer.Put(b);
      assert u.Ok? && messageBuffer.Written() == a + b;
      if data.Some? {
        u := messageBuffer.Put(data.value);
        if u.Err? {
          return Err(BufferOverflowException);
        }
      }
      assert messageBuffer.Written() == a + b + d;
      if !started {
        return Err(NullPointerException);
      }
      sent := sent + [messageBuffer.Written()];
      r := Ok(());
    }

    /** sendSensorRequest(mask): a message with the SENSORS id and the mask
        as its one payload byte. */
    method SendSensorRequest(mask: int8) returns (r: Result<()>)
      requires Valid()
      modifies this, messageBuffer
      ensures Valid()
      ensures requestNumber == Wrap32(old(requestNumber) + 1)
      ensures r.Ok? <==> started
      ensures r.Ok? ==> sent == old(sent) + [MessageBytes(requestNumber, SENSORS, EncodeByte(mask))]
      ensures r.Err? ==> r.error == NullPointerException && sent == old(sent)
      ensures old(Ordered()) && old(requestNumber) < 0x7fff_ffff ==> Ordered()
      ensures started == old(started) && responseNumber == old(responseNumber) && runnable == old(runnable)
      ensures frequency == old(frequency) && hasListener == old(hasListener)
      ensures sensorUpdates == old(sensorUpdates) && latencies == old(latencies) && latency == old(latency)
    {
      r := SendMessage(SENSORS, Some(EncodeByte(mask)));
    }

    /** One pass of the poll loop's body: a sensor request for the analog
        and system categories. */
    method Poll() returns (r: Result<()>)
      requires Valid()
      modifies this, messageBuffer
      ensures Valid()
      ensures requestNumber == Wrap32(old(requestNumber) + 1)
      ensures r.Ok? <==> started
      ensures r.Ok? ==> sent == old(sent) + [MessageBytes(requestNumber, SENSORS, [SENSORS_MASK])]
      ensures r.Err? ==> r.error == NullPointerException && sent == old(sent)
      ensures old(Ordered()) && old(requestNumber) < 0x7fff_ffff ==> Ordered()
      ensures started == old(started) && responseNumber == old(responseNumber) && runnable == old(runnable)
      ensures frequency == old(frequency) && hasListener == old(hasListener)
      ensures sensorUpdates == old(sensorUpdates) && latencies == old(latencies) && latency == old(latency)
    {
      WidthBounds();
      assert EncodeByte(SENSORS_MASK) == [SENSORS_MASK];
      r := SendSensorRequest(SENSORS_MASK);
    }

    /** onSensorData(message): the staleness filter first; an accepted
        payload is a mask byte and the sensor sections that mask selects,
        decoded into the shared Sensors object. A short payload's underflow
        is swallowed, keeping whatever was decoded before it, and the
        listener hears only of a decode that completed. */
    method OnSensorData(message: DatagramMessage)
      requires Valid()
      modifies this, sensors, sensors.analog
      ensures Valid()
      ensures var next := Screen(message.number, old(responseNumber), old(requestNumber));
        responseNumber == (if next.Some? then next.value else old(responseNumber))
      ensures Screen(message.number, old(responseNumber), old(requestNumber)).None? ==>
        sensors.State() == old(sensors.State()) && sensorUpdates == old(sensorUpdates)
      ensures Screen(message.number, old(responseNumber), old(requestNumber)).Some? ==>
        var d := Delivered(old(sensors.State()), message.data);
        sensors.State() == d.snap &&
        sensorUpdates == old(sensorUpdates) + (if d.ok && hasListener then 1 else 0)
      ensures responseNumber >= old(responseNumber)
      ensures old(Ordered()) ==> Ordered()
      ensures requestNumber == old(requestNumber) && sent == old(sent) && started == old(started)
      ensures frequency == old(frequency) && runnable == old(runnable)
      ensures hasListener == old(hasListener) && latencies == old(latencies) && latency == old(latency)
    {
      var next := Screen(message.number, responseNumber, requestNumber);
      if next.None? {
        return;
      }
      responseNumber := next.value;
      var ok := DecodePayload(message.data);
      if ok && hasListener {
        sensorUpdates := sensorUpdates + 1;
      }
    }

    /** The try block of onSensorData: wrap the payload, get the mask byte,
        and decode the rest into the Sensors object. */
    method DecodePayload(data: seq<uint8>) returns (ok: bool)
      requires Valid()
      modifies sensors, sensors.analog
      ensures Valid()
      ensures sensors.State() == Delivered(old(sensors.State()), data).snap
      ensures ok == Delivered(old(sensors.State()), data).ok
    {
      var buffer := new ByteBuffer.Wrap(data);
      var m := buffer.Get(1);
      if m.Err? {
        return false;
      }
      WidthBounds();
      assert m.value == MaskOf(data) && buffer.Remaining() == data[1..];
      var r := sensors.FromByteBuffer(buffer, m.value);
      ok := r.Ok?;
    }

    /** onPingResponse(message), with System.nanoTime() as `now`: the
        latency is now minus the send time echoed in the payload; a payload
        shorter than 8 bytes is swallowed and changes nothing. */
    method OnPingResponse(message: DatagramMessage, now: int64)
      modifies this
      ensures |message.data| >= 8 ==>
        latency == Wrap64(now - DecodeSigned(message.data[..8])) &&
        latencies == old(latencies) + (if hasListener then [latency] else [])
      ensures |message.data| < 8 ==> latency == old(latency) && latencies == old(latencies)
      ensures requestNumber == old(requestNumber) && responseNumber == old(responseNumber)
      ensures sent == old(sent) && started == old(started) && hasListener == old(hasListener)
      ensures frequency == old(frequency) && runnable == old(runnable)
      ensures sensorUpdates == old(sensorUpdates)
    {
      var buffer := new ByteBuffer.Wrap(message.data);
      var t := buffer.Get(8);
      if t.Err? {
        return;
      }
      latency := Wrap64(now - t.value);
      if hasListener {
        latencies := latencies + [latency];
      }
    }

    /** The datagram client's handler: PING responses and SENSORS responses
        go to their handlers, and any other id is ignored. It is the only
        route into either handler. */
    method OnMessageReceived(message: DatagramMessage, now: int64)
      requires Valid()
      modifies this, sensors, sensors.analog
      ensures Valid()
      ensures message.id == PING && |message.data| >= 8 ==>
        latency == Wrap64(now - DecodeSigned(message.data[..8])) &&
        latencies == old(latencies) + (if hasListener then [latency] else [])
      ensures message.id != PING || |message.data| < 8 ==> latency == old(latency) && latencies == old(latencies)
      ensures message.id == SENSORS ==>
        var next := Screen(message.number, old(responseNumber), old(requestNumber));
        responseNumber == (if next.Some? then next.value else old(responseNumber))
      ensures message.id == SENSORS && Screen(message.number, old(responseNumber), old(requestNumber)).Some? ==>
        var d := Delivered(old(sensors.State()), message.data);
        sensors.State() == d.snap &&
        sensorUpdates == old(sensorUpdates) + (if d.ok && hasListener then 1 else 0)
      ensures message.id != SENSORS || Screen(message.number, old(responseNumber), old(requestNumber)).None? ==>
        sensors.State() == old(sensors.State()) && sensorUpdates == old(sensorUpdates)
      ensures message.id != SENSORS ==> responseNumber == old(responseNumber)
      ensures old(Ordered()) ==> Ordered()
      ensures requestNumber == old(requestNumber) && sent == old(sent) && started == old(started)
      ensures frequency == old(frequency) && runnable == old(runnable) && hasListener == old(hasListener)
    {
      if message.id == PING {
        OnPingResponse(message, now);
      } else if message.id == SENSORS {
        OnSensorData(message);
      }
    }
  }

  /** A response to the most recent sensor request is accepted, whatever was
      accepted before it. */
  lemma LatestAccepted(responseNumber: int32, requestNumber: int32)
    requires 0 <= responseNumber <= requestNumber && requestNumber != 0
    ensures Screen(requestNumber, responseNumber, requestNumber) == Some(requestNumber)
  {
  }
}
