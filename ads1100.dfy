/** ADS1100: the self-calibrating 16-bit analog-to-digital converter on the
    I2C bus. Its 8-bit configuration register packs the gain (bits 1-0), the
    data rate (bits 3-2), the conversion mode (bit 4) and the start/busy flag
    (bit 7); bits 6-5 are zero. The device is modelled after setup(): the
    bytes written to it are a log, and the bytes a read delivers are a
    parameter. */
module Adc {
  import opened Wire

  /** The eight I2C addresses, selected by the package marking AD0..AD7. */
  datatype Address = AD0 | AD1 | AD2 | AD3 | AD4 | AD5 | AD6 | AD7

  function AddressCode(a: Address): int
  {
    match a
    case AD0 => 0x48
    case AD1 => 0x49
    case AD2 => 0x4A
    case AD3 => 0x4B
    case AD4 => 0x4C
    case AD5 => 0x4D
    case AD6 => 0x4E
    case AD7 => 0x4F
  }

  /** k for the marking ADk. */
  function Marking(a: Address): (k: nat)
    ensures k < 8
  {
    match a
    case AD0 => 0
    case AD1 => 1
    case AD2 => 2
    case AD3 => 3
    case AD4 => 4
    case AD5 => 5
    case AD6 => 6
    case AD7 => 7
  }

  /** ADk answers at 0x48 + k, so the eight addresses are distinct. */
  lemma AddressCodes(a: Address, b: Address)
    ensures AddressCode(a) == 0x48 + Marking(a)
    ensures AddressCode(a) / 8 == 9
    ensures AddressCode(a) == AddressCode(b) <==> a == b
  {
  }

  /** Bits 1-0: the programmable gain. */
  datatype Gain = PGA_1 | PGA_2 | PGA_4 | PGA_8

  function GainConfig(g: Gain): bv8
  {
    match g
    case PGA_1 => 0
    case PGA_2 => 1
    case PGA_4 => 2
    case PGA_8 => 3
  }

  function GainValue(g: Gain): (v: int)
    ensures v > 0
  {
    match g
    case PGA_1 => 1
    case PGA_2 => 2
    case PGA_4 => 4
    case PGA_8 => 8
  }

  /** Bits 3-2: the data rate. */
  datatype Rate = SPS_8 | SPS_16 | SPS_32 | SPS_128

  function RateConfig(r: Rate): bv8
  {
    match r
    case SPS_8 => 0xC
    case SPS_16 => 8
    case SPS_32 => 4
    case SPS_128 => 0
  }

  function SamplesPerSecond(r: Rate): int
  {
    match r
    case SPS_8 => 8
    case SPS_16 => 16
    case SPS_32 => 32
    case SPS_128 => 128
  }

  function NumberOfBits(r: Rate): (n: nat)
    ensures 12 <= n <= 16
  {
    match r
    case SPS_8 => 16
    case SPS_16 => 15
    case SPS_32 => 14
    case SPS_128 => 12
  }

  /** The minimum and maximum output codes as the rate table lists them. */
  function MinimumCodeAsWritten(r: Rate): int
  {
    match r
    case SPS_8 => -32768
    case SPS_16 => -16483
    case SPS_32 => -8192
    case SPS_128 => -2048
  }

  function MaximumCodeAsWritten(r: Rate): int
  {
    match r
    case SPS_8 => 32767
    case SPS_16 => 16482
    case SPS_32 => 8191
    case SPS_128 => 2047
  }

  function Pow2(n: nat): (p: nat)
    ensures p >= 1
  {
    if n == 0 then 1 else 2 * Pow2(n - 1)
  }

  /** The listed range is symmetric about -1/2 on every row, but it is the
      range of an n-bit two's-complement code on every row except 16 SPS,
      whose 15 bits give -16384..16383 and not -16483..16482. */
  lemma RateTableAsWritten(r: Rate)
    ensures MinimumCodeAsWritten(r) == -(MaximumCodeAsWritten(r) + 1)
    ensures MaximumCodeAsWritten(r) == Pow2(NumberOfBits(r) - 1) - 1 <==> r != SPS_16
    ensures r == SPS_16 ==> MinimumCodeAsWritten(r) < -(Pow2(NumberOfBits(r) - 1) as int)
  {
    assert Pow2(11) == 2048;
    assert Pow2(13) == 8192;
    assert Pow2(14) == 16384;
    assert Pow2(15) == 32768;
  }

  /** The output code range of a rate: the n-bit two's-complement range. */
  function MinimumCode(r: Rate): (m: int)
    ensures m < 0
  {
    -(Pow2(NumberOfBits(r) - 1) as int)
  }

  function MaximumCode(r: Rate): int
  {
    Pow2(NumberOfBits(r) - 1) - 1
  }

  /** The corrected table agrees with the listed one except at 16 SPS, and
      every row's range lies within the 16-bit output register. */
  lemma RateTable(r: Rate)
    ensures MinimumCode(r) == -(MaximumCode(r) + 1)
    ensures r != SPS_16 ==> MinimumCode(r) == MinimumCodeAsWritten(r) && MaximumCode(r) == MaximumCodeAsWritten(r)
    ensures r == SPS_16 ==> MinimumCode(r) == -16384 && MaximumCode(r) == 16383
    ensures -0x8000 <= MinimumCode(r) && MaximumCode(r) < 0x8000
  {
    RateTableAsWritten(r);
    assert Pow2(14) == 16384;
    assert Pow2(15) == 32768;
  }

  /** readVoltage's divisor, `-1 * rate.min * gain.value`, over the rate
      table as listed; the voltage is the output code over it, times the
      supply voltage. */
  function ConversionFactor(r: Rate, g: Gain): (f: int)
    ensures f > 0
    ensures f == (MaximumCodeAsWritten(r) + 1) * GainValue(g)
  {
    RateTableAsWritten(r);
    -MinimumCodeAsWritten(r) * GainValue(g)
  }

  /** The divisor over the corrected table: the n-bit full scale times the
      gain. */
  function CorrectedConversionFactor(r: Rate, g: Gain): (f: int)
    ensures f > 0
    ensures f == Pow2(NumberOfBits(r) - 1) * GainValue(g)
  {
    -MinimumCode(r) * GainValue(g)
  }

  /** The two divisors agree except at 16 SPS, where readVoltage divides by
      16483 times the gain instead of 16384 times the gain, so the largest
      code the 15-bit conversion can produce reads 99 codes short of full
      scale. */
  lemma ConversionFactors(r: Rate, g: Gain)
    ensures r != SPS_16 ==> ConversionFactor(r, g) == CorrectedConversionFactor(r, g)
    ensures r == SPS_16 ==>
      ConversionFactor(r, g) == 16483 * GainValue(g) &&
      CorrectedConversionFactor(r, g) == 16384 * GainValue(g) &&
      ConversionFactor(r, g) - (MaximumCode(r) + 1) * GainValue(g) == 99 * GainValue(g)
  {
    RateTable(r);
  }

  /** Every code in the listed range converts to a fraction code / factor in
      [-1/gain, 1/gain), so readVoltage's result lies within the gain's input
      range of the supply. */
  lemma FullScale(r: Rate, g: Gain, code: int)
    requires MinimumCodeAsWritten(r) <= code <= MaximumCodeAsWritten(r)
    ensures -ConversionFactor(r, g) <= code * GainValue(g) < ConversionFactor(r, g)
  {
    var m, k := -MinimumCodeAsWritten(r), GainValue(g);
    assert -m <= code < m;
    assert code * k >= -m * k;
    assert code * k < m * k;
  }

  /** The same bound over the corrected table and divisor. */
  lemma CorrectedFullScale(r: Rate, g: Gain, code: int)
    requires MinimumCode(r) <= code <= MaximumCode(r)
    ensures -CorrectedConversionFactor(r, g) <= code * GainValue(g) < CorrectedConversionFactor(r, g)
  {
    var m, k := -MinimumCode(r), GainValue(g);
    assert -m <= code < m;
    assert code * k >= -m * k;
    assert code * k < m * k;
  }

  /** Bit 4: single (1) or continuous (0) conversion. */
  datatype Mode = Continuous | Single

  function ModeConfig(m: Mode): bv8
  {
    match m
    case Continuous => 0
    case Single => 0x10
  }

  /** Bit 7 (ST/BSY): written 1 starts a single conversion; read 1 means a
      conversion is under way. */
  const CONVERSION: bv8 := 0x80
  /** The register's power-on value. */
  const CONFIG_DEFAULT: bv8 := 0x8C

  /** getConfig: the three settings or-ed together. */
  function ConfigOf(g: Gain, r: Rate, m: Mode): bv8
  {
    GainConfig(g) | RateConfig(r) | ModeConfig(m)
  }

  /** The settings occupy disjoint bits: the gain is bits 1-0, the rate bits
      3-2 and the mode bit 4, and bits 7-5 stay clear. */
  lemma ConfigFields(g: Gain, r: Rate, m: Mode)
    ensures var c := ConfigOf(g, r, m);
      c & 3 == GainConfig(g) && c & 0xC == RateConfig(r) && c & 0x10 == ModeConfig(m) &&
      c & 0xE0 == 0 && c <= 0x1F
  {
  }

  /** Each setting can be read back from getConfig, so two configurations
      with the same byte have the same settings. */
  lemma ConfigInjective(g1: Gain, r1: Rate, m1: Mode, g2: Gain, r2: Rate, m2: Mode)
    requires ConfigOf(g1, r1, m1) == ConfigOf(g2, r2, m2)
    ensures g1 == g2 && r1 == r2 && m1 == m2
  {
    ConfigFields(g1, r1, m1);
    ConfigFields(g2, r2, m2);
    assert GainConfig(g1) == GainConfig(g2);
    assert RateConfig(r1) == RateConfig(r2);
    assert ModeConfig(m1) == ModeConfig(m2);
  }

  /** The default settings give 0x0C, which with the start bit is the
      register's power-on value. */
  lemma DefaultConfig()
    ensures ConfigOf(PGA_1, SPS_8, Continuous) == 0x0C
    ensures CONVERSION | ConfigOf(PGA_1, SPS_8, Continuous) == CONFIG_DEFAULT
  {
  }

  /** The (byte) cast of a register value. */
  function ByteOf(b: bv8): (v: int8)
    ensures Unsigned(v) == b as int
  {
    var n := b as int;
    assert 0 <= n < 0x100 && n % 0x100 == n;
    LowByte(n)
  }

  /** `(readConfig() & CONVERSION) != 0` on the sign-extended byte read. */
  function ConversionBit(config: int8): (busy: bool)
    ensures busy <==> Unsigned(config) >= 0x80
    ensures busy <==> config < 0
  {
    var u := config % 0x1_0000_0000;
    assert config < 0 ==> u == config + 0x1_0000_0000 && u / 0x80 == 0x1FF_FFFF;
    u / 0x80 % 2 == 1
  }

  /** `(b0 << 8) | (b1 & 0xFF)`: the high byte sign-extended and shifted, the
      low byte masked to its unsigned value. */
  function OutputCode(b0: int8, b1: int8): (v: int)
    ensures v == DecodeSigned([Unsigned(b0), Unsigned(b1)])
    ensures -0x8000 <= v < 0x8000
  {
    var s := [Unsigned(b0), Unsigned(b1)];
    assert s[..1] == [Unsigned(b0)] && FromBigEndian(s[..1][..0]) == 0;
    assert FromBigEndian(s) == Unsigned(b0) * 0x100 + Unsigned(b1);
    assert Pow256(2) == 0x1_0000 && Half(2) == 0x8000;
    b0 * 0x100 + Unsigned(b1)
  }

  /** Every 16-bit code arrives as the big-endian pair of bytes that encodes
      it. */
  lemma OutputCodeEncoded(code: int16)
    ensures var s := EncodeShort(code);
      OutputCode(LowByte(s[0]), LowByte(s[1])) == code
  {
    var s := EncodeShort(code);
    WidthBounds();
    DecodeEncodeSigned(2, code);
    assert Unsigned(LowByte(s[0])) == s[0];
    assert Unsigned(LowByte(s[1])) == s[1];
    assert [s[0], s[1]] == s;
  }

  class ADS1100 {
    const address: Address
    const bus: int32
    var gain: Gain
    var rate: Rate
    var mode: Mode
    /** The supply voltage, as float bits. */
    var vdd: FloatBits
    /** The three-byte read buffer, kept between reads. */
    const buffer: array<int8>
    /** The bytes written to the device, in order. */
    var written: seq<int8>

    ghost predicate Valid()
      reads this
    {
      buffer.Length == 3
    }

    /** ADS1100(bus, address), with its defaults: gain 1, 8 SPS, continuous
        conversion, a 5 V supply. ADS1100(address) is bus 1. */
    constructor (bus: int32, address: Address)
      ensures Valid() && fresh(buffer) && this.bus == bus && this.address == address
      ensures gain == PGA_1 && rate == SPS_8 && mode == Continuous && vdd == 0x40A0_0000
      ensures written == [] && buffer[..] == [0, 0, 0]
    {
      this.bus, this.address := bus, address;
      gain, rate, mode, vdd := PGA_1, SPS_8, Continuous, 0x40A0_0000;
      buffer := new int8[3](_ => 0);
      written := [];
    }

    /** getConfig. */
    function Config(): bv8
      reads this
    {
      ConfigOf(gain, rate, mode)
    }

    method SetGain(g: Gain)
      modifies this
      ensures gain == g && rate == old(rate) && mode == old(mode) && written == old(written) && vdd == old(vdd)
      ensures Config() & 3 == GainConfig(g) && Config() & 0x1C == old(Config()) & 0x1C
    {
      ConfigFields(gain, rate, mode);
      gain := g;
      ConfigFields(gain, rate, mode);
    }

    method SetRate(r: Rate)
      modifies this
      ensures rate == r && gain == old(gain) && mode == old(mode) && written == old(written) && vdd == old(vdd)
      ensures Config() & 0xC == RateConfig(r) && Config() & 0x13 == old(Config()) & 0x13
    {
      ConfigFields(gain, rate, mode);
      rate := r;
      ConfigFields(gain, rate, mode);
    }

    method SetMode(m: Mode)
      modifies this
      ensures mode == m && gain == old(gain) && rate == old(rate) && written == old(written) && vdd == old(vdd)
      ensures Config() & 0x10 == ModeConfig(m) && Config() & 0xF == old(Config()) & 0xF
    {
      ConfigFields(gain, rate, mode);
      mode := m;
      ConfigFields(gain, rate, mode);
    }

    method SetSupplyVoltage(v: FloatBits)
      modifies this
      ensures vdd == v && gain == old(gain) && rate == old(rate) && mode == old(mode) && written == old(written)
    {
      vdd := v;
    }

    /** writeConfig: one byte, the configuration with the start bit clear. */
    method WriteConfig()
      modifies this
      ensures written == old(written) + [ByteOf(Config())]
      ensures Unsigned(written[|written| - 1]) < 0x20
      ensures gain == old(gain) && rate == old(rate) && mode == old(mode) && vdd == old(vdd)
    {
      ConfigFields(gain, rate, mode);
      written := written + [ByteOf(Config())];
    }

    /** startConversion: one byte, the configuration with the start bit set. */
    method StartConversion()
      modifies this
      ensures written == old(written) + [ByteOf(CONVERSION | Config())]
      ensures Unsigned(written[|written| - 1]) == 0x80 + Config() as int
      ensures gain == old(gain) && rate == old(rate) && mode == old(mode) && vdd == old(vdd)
    {
      ConfigFields(gain, rate, mode);
      written := written + [ByteOf(CONVERSION | Config())];
    }

    /** An I2C read of `size` bytes into the start of the buffer, the device
        delivering `received` (possibly fewer bytes than asked for); the rest
        of the buffer keeps what it held. */
    method Read(size: nat, received: seq<int8>)
      requires Valid() && |received| <= size <= 3
      modifies buffer
      ensures buffer[..] == received + old(buffer[|received|..])
    {
      var i := 0;
      while i < |received|
        invariant 0 <= i <= |received|
        invariant forall j | 0 <= j < i :: buffer[j] == received[j]
        invariant forall j | i <= j < buffer.Length :: buffer[j] == old(buffer[j])
      {
        buffer[i] := received[i];
        i := i + 1;
      }
      ghost var after := received + old(buffer[|received|..]);
      assert |after| == buffer.Length;
      assert forall j | 0 <= j < buffer.Length :: buffer[j] == after[j];
    }

    /** readConfig: reads three bytes and returns the third, sign-extended;
        a read that delivers fewer leaves the third byte of the previous
        read in place. */
    method ReadConfig(received: seq<int8>) returns (config: int8)
      requires Valid() && |received| <= 3
      modifies buffer
      ensures config == if |received| == 3 then received[2] else old(buffer[2])
      ensures buffer[..] == received + old(buffer[|received|..])
    {
      Read(3, received);
      config := buffer[2];
    }

    /** isPerformingConversion: bit 7 of the configuration byte read. */
    method IsPerformingConversion(received: seq<int8>) returns (busy: bool)
      requires Valid() && |received| <= 3
      modifies buffer
      ensures |received| == 3 ==> (busy <==> Unsigned(received[2]) >= 0x80)
      ensures |received| < 3 ==> (busy <==> Unsigned(old(buffer[2])) >= 0x80)
      ensures buffer[..] == received + old(buffer[|received|..])
    {
      var config := ReadConfig(received);
      busy := ConversionBit(config);
    }

    /** readOutputRegister: reads two bytes and decodes them as a big-endian
        16-bit two's-complement code. */
    method ReadOutputRegister(received: seq<int8>) returns (code: int)
      requires Valid() && |received| <= 2
      modifies buffer
      ensures |received| == 2 ==> code == DecodeSigned([Unsigned(received[0]), Unsigned(received[1])])
      ensures -0x8000 <= code < 0x8000
      ensures buffer[..] == received + old(buffer[|received|..])
      ensures code == DecodeSigned([Unsigned(buffer[0]), Unsigned(buffer[1])])
    {
      Read(2, received);
      code := OutputCode(buffer[0], buffer[1]);
    }
  }
}
