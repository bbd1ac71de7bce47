/** XTend900: the serial radio modem driver. A power pin and a command-mode
    flag fence what may be sent; in API mode a payload goes out as a frame
    (start delimiter, 16-bit length, frame data, checksum), otherwise as the
    raw bytes. The serial port is modelled as the log of what was written to
    it, and the radio's API frame, whose builder is not part of this model,
    is handed in ready-made. */
module Radio {
  import opened Wire
  import opened NioBuffer

  /** The AP (API enable) setting of a configuration. */
  datatype ApiEnable = Disabled | EnabledWithoutEscapes | EnabledWithEscapes

  /** An XTend900Config: its API setting, and the AT command text it renders
      to. */
  datatype Config = Config(apiEnable: ApiEnable, text: string)

  /** The AT commands the query and exit methods send. */
  datatype Command =
    | FirmwareVersionShort | FirmwareVersionVerbose | BoardVoltage
    | ReceivedSignalStrength | HardwareVersion | BoardTemperature | ExitCommandMode

  /** One write to the serial port: the command-mode escape sequence, an AT
      command line, a configuration line (the config's commands followed by
      the exit command), or raw bytes. */
  datatype SerialWrite =
    | EscapeSequence
    | CommandLine(command: Command)
    | ConfigurationLine(config: Config)
    | Data(bytes: seq<uint8>)

  /** An API frame as APIFrame hands it over: start delimiter, length field,
      frame data and checksum. */
  datatype ApiFrame = ApiFrame(startDelimiter: int8, length: int16, frameData: seq<uint8>, checksum: int8)

  /** The bytes write(APIFrame) puts on the wire. */
  function FrameBytes(f: ApiFrame): (b: seq<uint8>)
    ensures |b| == |f.frameData| + 4
  {
    EncodeByte(f.startDelimiter) + EncodeShort(f.length) + f.frameData + EncodeByte(f.checksum)
  }

  /** Each field of a frame reads back from its place on the wire: the
      delimiter first, the big-endian length next, the frame data after it
      and the checksum last. */
  lemma FrameFields(f: ApiFrame)
    ensures var b := FrameBytes(f); var n := |f.frameData|;
      DecodeSigned(b[..1]) == f.startDelimiter &&
      DecodeSigned(b[1..3]) == f.length &&
      b[3..3 + n] == f.frameData &&
      DecodeSigned(b[3 + n..]) == f.checksum
  {
    var b := FrameBytes(f);
    var n := |f.frameData|;
    WidthBounds();
    assert b[..1] == EncodeSigned(1, f.startDelimiter);
    assert b[1..3] == EncodeSigned(2, f.length);
    assert b[3..3 + n] == f.frameData;
    assert b[3 + n..] == EncodeSigned(1, f.checksum);
    DecodeEncodeSigned(1, f.startDelimiter);
    DecodeEncodeSigned(2, f.length);
    DecodeEncodeSigned(1, f.checksum);
  }

  /** Everything an XTend900 holds that its methods change, as one value, so
      that each method can state its whole new state. */
  datatype RadioState = RadioState(
    serialOpen: bool, serialOut: seq<SerialWrite>, on: bool, isCommandMode: bool, config: Config,
    hasFrameHandler: bool, frameHandlerInput: seq<seq<uint8>>,
    logging: bool, logged: seq<uint8>, hasListener: bool, delivered: seq<seq<uint8>>,
    txLedEnabled: bool, pulses: seq<int>)

  class XTend900 {
    /** APIFrame.MAXIMUM_FRAME_LENGTH, the capacity of the write buffer. */
    const maxFrameLength: nat
    const writeBuffer: ByteBuffer
    /** Whether the serial port is open. */
    var serialOpen: bool
    /** What has been written to the serial port, in order. */
    var serialOut: seq<SerialWrite>
    /** The SHDN pin: high is on. */
    var on: bool
    var isCommandMode: bool
    var config: Config
    /** Whether an API frame handler exists, and what it has been fed. */
    var hasFrameHandler: bool
    var frameHandlerInput: seq<seq<uint8>>
    /** The optional log stream and data listener, and what they got. */
    var logging: bool
    var logged: seq<uint8>
    var hasListener: bool
    var delivered: seq<seq<uint8>>
    /** TX LED pulses, one per write when enabled: their durations. */
    var txLedEnabled: bool
    var pulses: seq<int>

    ghost predicate Valid()
      reads this, writeBuffer
    {
      writeBuffer.Valid() && |writeBuffer.content| == maxFrameLength
    }

    /** The radio's state, field by field. */
    ghost function State(): RadioState
      reads this
    {
      RadioState(serialOpen, serialOut, on, isCommandMode, config, hasFrameHandler, frameHandlerInput,
                 logging, logged, hasListener, delivered, txLedEnabled, pulses)
    }

    /** XTend900(serial) followed by setup(): the pins provisioned low (off),
        the default configuration (API disabled), not in command mode. The
        pulse setup() makes is dropped because the LED starts disabled. */
    constructor (maxFrameLength: nat, serialOpen: bool)
      ensures Valid() && this.maxFrameLength == maxFrameLength && fresh(writeBuffer)
      ensures State() == RadioState(serialOpen, [], false, false, Config(Disabled, ""), false, [],
                                    false, [], false, [], false, [])
    {
      this.maxFrameLength := maxFrameLength;
      writeBuffer := new ByteBuffer.Allocate(maxFrameLength);
      this.serialOpen := serialOpen;
      serialOut := [];
      on, isCommandMode := false, false;
      config := Config(Disabled, "");
      hasFrameHandler, frameHandlerInput := false, [];
      logging, logged, hasListener, delivered := false, [], false, [];
      txLedEnabled, pulses := false, [];
    }

    /** setListener(listener), with a null listener as `false`. */
    method SetListener(present: bool)
      modifies this
      ensures State() == old(State()).(hasListener := present)
    {
      hasListener := present;
    }

    /** setLogOutputStream(stream), with a null stream as `false`. */
    method SetLogOutputStream(present: bool)
      modifies this
      ensures State() == old(State()).(logging := present)
    {
      logging := present;
    }

    /** setTXLedEnabled(enabled): later writes pulse the TX LED or not. */
    method SetTxLedEnabled(enabled: bool)
      modifies this
      ensures State() == old(State()).(txLedEnabled := enabled)
    {
      txLedEnabled := enabled;
    }

    /** turnOn, turnOff and toggle set the SHDN pin. */
    method TurnOn()
      modifies this
      ensures State() == old(State()).(on := true)
    {
      on := true;
    }

    method TurnOff()
      modifies this
      ensures State() == old(State()).(on := false)
    {
      on := false;
    }

    method Toggle()
      modifies this
      ensures State() == old(State()).(on := !old(on))
    {
      on := !on;
    }

    /** A write (and flush) of the serial port: refused with
        IllegalStateException when the port is closed. */
    method SerialWrite(w: SerialWrite) returns (r: Result<()>)
      modifies this
      ensures r.Ok? <==> old(serialOpen)
      ensures r.Err? ==> r.error == IllegalStateException
      ensures State() == old(State()).(serialOut := old(serialOut) + (if r.Ok? then [w] else []))
    {
      if !serialOpen {
        return Err(IllegalStateException);
      }
      serialOut := serialOut + [w];
      r := Ok(());
    }

    /** enterCommandMode: nothing when already in command mode; otherwise
        the flag is set first and then the escape sequence written, once. */
    method EnterCommandMode() returns (r: Result<()>)
      modifies this
      ensures r.Ok? <==> old(isCommandMode) || old(serialOpen)
      ensures r.Err? ==> r.error == IllegalStateException
      ensures State() == old(State()).(isCommandMode := true,
        serialOut := old(serialOut) + (if !old(isCommandMode) && old(serialOpen) then [EscapeSequence] else []))
    {
      if isCommandMode {
        return Ok(());
      }
      isCommandMode := true;
      r := SerialWrite(EscapeSequence);
    }

    /** The request* queries: enter command mode, then the query's AT
        command line; the radio stays in command mode. */
    method Request(query: Command) returns (r: Result<()>)
      requires query != ExitCommandMode
      modifies this
      ensures r.Ok? <==> old(serialOpen)
      ensures r.Err? ==> r.error == IllegalStateException
      ensures State() == old(State()).(isCommandMode := true,
        serialOut := old(serialOut) +
          (if r.Ok? then (if old(isCommandMode) then [] else [EscapeSequence]) + [CommandLine(query)] else []))
    {
      r := EnterCommandMode();
      if r.Err? {
        return;
      }
      r := SerialWrite(CommandLine(query));
    }

    /** exitCommandMode: the exit command line, after which the flag is
        cleared whatever it was. */
    method LeaveCommandMode() returns (r: Result<()>)
      modifies this
      ensures r.Ok? <==> old(serialOpen)
      ensures r.Err? ==> r.error == IllegalStateException
      ensures r.Ok? ==> State() == old(State()).(isCommandMode := false,
        serialOut := old(serialOut) + [CommandLine(ExitCommandMode)])
      ensures r.Err? ==> State() == old(State())
    {
      r := SerialWrite(CommandLine(ExitCommandMode));
      if r.Err? {
        return;
      }
      isCommandMode := false;
    }

    /** The part of configure(config) common to every API setting: the
        radio is turned on and put in command mode if it is not already, the
        configuration line written and the configuration stored. */
    method WriteConfiguration(c: Config)
      requires serialOpen
      modifies this
      ensures State() == old(State()).(on := true, isCommandMode := true, config := c,
        serialOut := old(serialOut) + (if old(isCommandMode) then [] else [EscapeSequence]) + [ConfigurationLine(c)])
    {
      if !on {
        TurnOn();
      }
      if !isCommandMode {
        var _ := EnterCommandMode();
      }
      var _ := SerialWrite(ConfigurationLine(c));
      config := c;
    }

    /** configure(config): needs an open serial port. The configuration is
        written as above; the unescaped API mode then gets a new frame
        handler; the escaped API mode is refused after the write, leaving
        command mode set; otherwise command mode ends. */
    method Configure(c: Config) returns (r: Result<()>)
      modifies this
      ensures r.Ok? <==> old(serialOpen) && c.apiEnable != EnabledWithEscapes
      ensures !old(serialOpen) ==> r == Err(IllegalStateException) && State() == old(State())
      ensures old(serialOpen) && c.apiEnable == EnabledWithEscapes ==> r == Err(UnsupportedOperationException)
      ensures old(serialOpen) ==> State() == old(State()).(
        on := true,
        isCommandMode := c.apiEnable == EnabledWithEscapes,
        config := c,
        serialOut := old(serialOut) + (if old(isCommandMode) then [] else [EscapeSequence]) + [ConfigurationLine(c)],
        hasFrameHandler := old(hasFrameHandler) || c.apiEnable == EnabledWithoutEscapes,
        frameHandlerInput := if c.apiEnable == EnabledWithoutEscapes then [] else old(frameHandlerInput))
    {
      if !serialOpen {
        return Err(IllegalStateException);
      }
      WriteConfiguration(c);
      match c.apiEnable {
        case EnabledWithoutEscapes =>
          hasFrameHandler, frameHandlerInput := true, [];
        case EnabledWithEscapes =>
          return Err(UnsupportedOperationException);
        case Disabled =>
      }
      isCommandMode := false;
      r := Ok(());
    }

    /** pulseTXLed(duration). */
    method Pulse(duration: int)
      modifies this
      ensures State() == old(State()).(pulses := old(pulses) + (if old(txLedEnabled) then [duration] else []))
    {
      if txLedEnabled {
        pulses := pulses + [duration];
      }
    }

    /** write(APIFrame): the frame is assembled in the write buffer, which a
        frame longer than the maximum frame length overflows, and the
        assembled bytes are written and pulse the TX LED for their length. */
    /** The first half of write(APIFrame): clear the write buffer, then put
        the delimiter, the length, the frame data and the checksum, failing
        when they overflow it. */
    method FillWriteBuffer(f: ApiFrame) returns (filled: bool)
      requires Valid()
      modifies writeBuffer
      ensures Valid()
      ensures filled <==> |f.frameData| + 4 <= maxFrameLength
      ensures filled ==> writeBuffer.Written() == FrameBytes(f)
    {
      writeBuffer.Clear();
      var a, b, c := EncodeByte(f.startDelimiter), EncodeShort(f.length), EncodeByte(f.checksum);
      var u := writeBuffer.Put(a);
      if u.Err? { return false; }
      u := writeBuffer.Put(b);
      if u.Err? { return false; }
      u := writeBuffer.Put(f.frameData);
      if u.Err? { return false; }
      u := writeBuffer.Put(c);
      if u.Err? { return false; }
      return true;
    }

    method WriteFrame(f: ApiFrame) returns (r: Result<()>)
      requires Valid()
      modifies this, writeBuffer
      ensures Valid()
      ensures r.Ok? <==> |f.frameData| + 4 <= maxFrameLength && old(serialOpen)
      ensures r.Err? ==> r.error == if |f.frameData| + 4 > maxFrameLength then BufferOverflowException else IllegalStateException
      ensures r.Ok? ==> State() == old(State()).(
        serialOut := old(serialOut) + [Data(FrameBytes(f))],
        pulses := old(pulses) + (if old(txLedEnabled) then [|f.frameData| + 4] else []))
      ensures r.Err? ==> State() == old(State())
    {
      var filled := FillWriteBuffer(f);
      if !filled { return Err(BufferOverflowException); }
      var data := writeBuffer.Written();
      r := SerialWrite(Data(data));
      if r.Err? {
        return;
      }
      Pulse(|data|);
    }

    /** send(data), with `frame` the API frame TXRequest builds for the data
        (frame id disabled, broadcast address, acknowledgement disabled).
        Refused while off; silently dropped in command mode; otherwise
        written raw with the API disabled, as a frame in the unescaped API
        mode, and refused in the escaped API mode. Every write pulses the TX
        LED, when it is enabled, for the number of bytes written. */
    method Send(data: seq<uint8>, frame: ApiFrame) returns (r: Result<()>)
      requires Valid()
      modifies this, writeBuffer
      ensures Valid()
      ensures !old(on) ==> r == Err(IllegalStateException) && State() == old(State())
      ensures old(on) && old(isCommandMode) ==> r.Ok? && State() == old(State())
      ensures old(on) && !old(isCommandMode) && old(config).apiEnable == Disabled ==>
        (r.Ok? <==> old(serialOpen)) && (r.Err? ==> r.error == IllegalStateException) &&
        State() == old(State()).(
          serialOut := old(serialOut) + (if r.Ok? then [Data(data)] else []),
          pulses := old(pulses) + (if r.Ok? && old(txLedEnabled) then [|data|] else []))
      ensures old(on) && !old(isCommandMode) && old(config).apiEnable == EnabledWithoutEscapes ==>
        (r.Ok? <==> old(serialOpen) && |frame.frameData| + 4 <= maxFrameLength) &&
        State() == old(State()).(
          serialOut := old(serialOut) + (if r.Ok? then [Data(FrameBytes(frame))] else []),
          pulses := old(pulses) + (if r.Ok? && old(txLedEnabled) then [|frame.frameData| + 4] else []))
      ensures old(on) && !old(isCommandMode) && old(config).apiEnable == EnabledWithEscapes ==>
        r == Err(UnsupportedOperationException) && State() == old(State())
    {
      if !on {
        return Err(IllegalStateException);
      }
      if isCommandMode {
        return Ok(());
      }
      match config.apiEnable {
        case EnabledWithoutEscapes =>
          r := WriteFrame(frame);
        case EnabledWithEscapes =>
          r := Err(UnsupportedOperationException);
        case Disabled =>
          r := SerialWrite(Data(data));
          if r.Ok? {
            Pulse(|data|);
          }
      }
    }

    /** dataReceived(event): the bytes are copied to the log stream if there
        is one, then go to the frame handler (unescaped API mode) or the
        listener (API disabled); the escaped API mode throws after the log
        write. */
    method DataReceived(data: seq<uint8>) returns (r: Result<()>)
      modifies this
      ensures r.Err? <==> old(config).apiEnable == EnabledWithEscapes
      ensures r.Err? ==> r.error == UnsupportedOperationException
      ensures State() == old(State()).(
        logged := old(logged) + (if old(logging) then data else []),
        frameHandlerInput := old(frameHandlerInput) +
          (if old(config).apiEnable == EnabledWithoutEscapes && old(hasFrameHandler) then [data] else []),
        delivered := old(delivered) +
          (if old(config).apiEnable == Disabled && old(hasListener) then [data] else []))
    {
      ghost var s0 := State();
      if logging {
        logged := logged + data;
      }
      ghost var s1 := s0.(logged := s0.logged + (if s0.logging then data else []));
      assert State() == s1;
      match config.apiEnable {
        case EnabledWithoutEscapes =>
          if hasFrameHandler {
            frameHandlerInput := frameHandlerInput + [data];
          }
        case EnabledWithEscapes =>
          return Err(UnsupportedOperationException);
        case Disabled =>
          if hasListener {
            delivered := delivered + [data];
          }
      }
      r := Ok(());
    }
  }

  /** A radio configured without the escaped API mode is on, out of command
      mode and holds the new configuration, so a send is no longer fenced. */
  method ConfigureThenSend(radio: XTend900, c: Config, data: seq<uint8>, frame: ApiFrame)
      returns (configured: Result<()>, sent: Result<()>)
    requires radio.Valid() && radio.serialOpen && c.apiEnable == Disabled
    modifies radio, radio.writeBuffer
    ensures configured.Ok? && sent.Ok?
    ensures radio.serialOut != [] && radio.serialOut[|radio.serialOut| - 1] == Data(data)
    ensures radio.pulses == old(radio.pulses) + (if radio.txLedEnabled then [|data|] else [])
  {
    configured := radio.Configure(c);
    sent := radio.Send(data, frame);
  }
}
