/** AtomicIntFloat: an int and the bits of a float packed into one 64-bit
    word, the int in the high half and the float bits in the low half. */
module AtomicPair {
  import opened Wire

  /** 2^32, the weight of the high half. */
  const HALF: int := 0x1_0000_0000

  /** `x & 0xFFFFFFFFL`: the 32 bits of an int read as an unsigned value. */
  function Unsigned32(x: int32): (u: nat)
    ensures u < HALF && (u - x) % HALF == 0
    ensures x >= 0 ==> u == x
  {
    if x < 0 then x + HALF else x
  }

  /** The masked int shifted left by 32 in long arithmetic is the int times
      2^32: the shift pushes the int's sign bit back into bit 63. */
  lemma HighHalf(i: int32)
    ensures Wrap64(Unsigned32(i) * HALF) == i * HALF
  {
    if i < 0 {
      var v := Unsigned32(i) * HALF;
      assert v == i * HALF + 0x1_0000_0000_0000_0000;
      assert 0x8000_0000_0000_0000 <= v < 0x1_0000_0000_0000_0000;
      assert v % 0x1_0000_0000_0000_0000 == v;
    }
  }

  /** raw(intValue, floatValue): the high half from the int, OR the low half
      from floatToIntBits; the halves share no bit, so the OR is a sum. */
  function Raw(i: int32, f: FloatBits): (raw: int64)
  {
    HighHalf(i);
    Wrap64(Unsigned32(i) * HALF) + Unsigned32(FloatToIntBits(f))
  }

  /** getIntValue: `(int) (raw >> 32)`, an arithmetic shift (a floor
      division) and then the int cast. */
  function IntValue(raw: int64): (i: int32)
  {
    Wrap32(raw / HALF)
  }

  /** getFloatValue: the bits of `(int) raw`, the low half. */
  function FloatValue(raw: int64): (f: FloatBits)
  {
    Wrap32(raw)
  }

  /** The int half comes back for every int, whatever the float is. */
  lemma IntValueOfRaw(i: int32, f: FloatBits)
    ensures IntValue(Raw(i, f)) == i
  {
    var low := Unsigned32(FloatToIntBits(f));
    assert Raw(i, f) == i * HALF + low;
    assert (i * HALF + low) / HALF == i;
  }

  /** The float half comes back as floatToIntBits of the float (a NaN in
      its canonical form), whatever the int is. */
  lemma FloatValueOfRaw(i: int32, f: FloatBits)
    ensures FloatValue(Raw(i, f)) == FloatToIntBits(f)
  {
    var b := FloatToIntBits(f);
    var low := Unsigned32(b);
    assert Raw(i, f) == i * HALF + low;
    assert (i * HALF + low) % HALF == low;
    assert low % HALF == low;
  }

  /** Distinct pairs give distinct words (distinct NaN patterns count as one
      float, as floatToIntBits makes them). */
  lemma RawInjective(i1: int32, f1: FloatBits, i2: int32, f2: FloatBits)
    ensures Raw(i1, f1) == Raw(i2, f2) <==> i1 == i2 && FloatToIntBits(f1) == FloatToIntBits(f2)
  {
    IntValueOfRaw(i1, f1);
    IntValueOfRaw(i2, f2);
    FloatValueOfRaw(i1, f1);
    FloatValueOfRaw(i2, f2);
  }

  /** Every word whose low half is not a NaN pattern is the packing of its
      own two halves. */
  lemma RawOfHalves(raw: int64)
    requires !IsNaNFloat(FloatValue(raw))
    ensures Raw(IntValue(raw), FloatValue(raw)) == raw
  {
    var i := IntValue(raw);
    var b := FloatValue(raw);
    FloatToIntBitsCanonical(b);
    assert i == raw / HALF;
    assert Unsigned32(b) == raw % HALF;
  }

  /** The default constructor's raw(0, 0f) is the zero word. */
  lemma DefaultIsZero()
    ensures Raw(0, 0) == 0
  {
    assert !IsNaNFloat(0);
  }

  /** A nanosecond timestamp stored as whole milliseconds comes back within
      one millisecond below it, for up to 2^31 - 1 milliseconds (about 24.8
      days). */
  lemma MillisecondTimestamp(nanos: int, f: FloatBits)
    requires 0 <= nanos < 0x8000_0000 * 1_000_000
    ensures var ms := nanos / 1_000_000;
      IntValue(Raw(ms, f)) == ms &&
      ms * 1_000_000 <= nanos < ms * 1_000_000 + 1_000_000
  {
    IntValueOfRaw(nanos / 1_000_000, f);
  }

  /** The AtomicLong cell that holds the packed word. */
  class AtomicIntFloat {
    var value: int64

    /** AtomicIntFloat(): the pair (0, 0f). */
    constructor ()
      ensures value == Raw(0, 0) && value == 0
    {
      DefaultIsZero();
      value := Raw(0, 0);
    }

    /** AtomicIntFloat(intValue, floatValue). */
    constructor Of(i: int32, f: FloatBits)
      ensures value == Raw(i, f)
      ensures IntValue(value) == i && FloatValue(value) == FloatToIntBits(f)
    {
      IntValueOfRaw(i, f);
      FloatValueOfRaw(i, f);
      value := Raw(i, f);
    }

    /** set(intValue, floatValue): get() then returns raw(intValue,
        floatValue), from which both halves come back. */
    method Set(i: int32, f: FloatBits)
      modifies this
      ensures value == Raw(i, f)
      ensures IntValue(value) == i && FloatValue(value) == FloatToIntBits(f)
    {
      IntValueOfRaw(i, f);
      FloatValueOfRaw(i, f);
      value := Raw(i, f);
    }
  }
}
