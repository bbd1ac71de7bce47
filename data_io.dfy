/** java.io.DataOutputStream and java.io.DataInputStream over an in-memory
    byte sequence, and the Stopwatch the device streams take their
    timestamps from. The JDK writes every value big-endian; writeFloat and
    writeDouble write floatToIntBits/doubleToLongBits, so a NaN goes out in
    its canonical form. A read past the end throws EOFException and, because
    the JDK reads the bytes it has before noticing the end, leaves nothing
    behind. */
module DataIo {
  import opened Wire

  /** A DataOutputStream: everything written so far. */
  class DataOutput {
    var written: seq<uint8>

    constructor ()
      ensures written == []
    {
      written := [];
    }

    /** write(int) and writeByte(int): the low 8 bits of the argument. */
    method WriteByte(v: int)
      modifies this
      ensures written == old(written) + EncodeByte(LowByte(v))
    {
      written := written + EncodeByte(LowByte(v));
    }

    method WriteShort(v: int16)
      modifies this
      ensures written == old(written) + EncodeShort(v)
    {
      written := written + EncodeShort(v);
    }

    method WriteInt(v: int32)
      modifies this
      ensures written == old(written) + EncodeInt(v)
    {
      written := written + EncodeInt(v);
    }

    method WriteLong(v: int64)
      modifies this
      ensures written == old(written) + EncodeLong(v)
    {
      written := written + EncodeLong(v);
    }

    method WriteFloat(f: FloatBits)
      modifies this
      ensures written == old(written) + EncodeInt(FloatToIntBits(f))
    {
      WriteInt(FloatToIntBits(f));
    }

    method WriteDouble(d: DoubleBits)
      modifies this
      ensures written == old(written) + EncodeLong(DoubleToLongBits(d))
    {
      WriteLong(DoubleToLongBits(d));
    }
  }

  /** A DataInputStream: the bytes not read yet. */
  class DataInput {
    var data: seq<uint8>

    constructor (bytes: seq<uint8>)
      ensures data == bytes
    {
      data := bytes;
    }

    /** read(): the next byte as 0..255, or -1 at the end of the input. */
    method Read() returns (b: int)
      modifies this
      ensures old(data) == [] ==> b == -1 && data == []
      ensures old(data) != [] ==> b == old(data)[0] && data == old(data)[1..]
    {
      if data == [] {
        return -1;
      }
      b := data[0];
      data := data[1..];
    }

    /** readByte, readShort, readInt and readLong: an n-byte signed value, or
        EOFException with the input used up. readFloat and readDouble read
        the bit pattern the same way. */
    method ReadBigEndian(n: nat) returns (r: Result<int>)
      requires n > 0
      modifies this
      ensures |old(data)| >= n ==> r == Ok(DecodeSigned(old(data)[..n])) && data == old(data)[n..]
      ensures |old(data)| < n ==> r == Err(EOFException) && data == []
      ensures r.Ok? ==> InSigned(n, r.value)
    {
      if |data| < n {
        data := [];
        return Err(EOFException);
      }
      r := Ok(DecodeSigned(data[..n]));
      data := data[n..];
    }
  }

  /** A Stopwatch started at `start` on the clock of System.nanoTime. */
  class Stopwatch {
    const start: int64

    constructor (now: int64)
      ensures start == now
    {
      start := now;
    }

    /** nanoSecondsElapsed(): the long difference, which wraps. */
    function Elapsed(now: int64): (e: int64)
    {
      Wrap64(now - start)
    }

    /** While the clock has moved forward by less than 2^63 nanoseconds
        (about 292 years) since the start, elapsed time is the true
        difference and never goes backwards. */
    lemma ElapsedMonotone(now1: int64, now2: int64)
      requires start <= now1 <= now2 && now2 - start < 0x8000_0000_0000_0000
      ensures Elapsed(now1) == now1 - start && Elapsed(now2) == now2 - start
      ensures 0 <= Elapsed(now1) <= Elapsed(now2)
    {
    }
  }
}
