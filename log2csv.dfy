/** The ITG3205 gyroscope log reader of log2csv: tagged records, where tag 0
    is a sensor reading and tag 1 a new scaling factor that holds for the
    readings after it, across calls. */
module Log2Csv {
  import opened Wire
  import opened DataIo
  import opened LogFormats

  /** 1.0f, the scaling factor before any tag-1 record. */
  const ONE: FloatBits := 0x3f80_0000

  datatype ITG3205Reading = ITG3205Reading(timestamp: int64, scalingFactor: FloatBits, x: int16, y: int16, z: int16)

  /** What readReading returns, the input it leaves and the scaling factor
      the stream holds afterwards. */
  datatype Scan = Scan(result: Result<Option<ITG3205Reading>>, rest: seq<uint8>, factor: FloatBits)

  /** ITG3205InputStream.readReading on input s with scaling factor
      `factor`. */
  function NextITG3205(s: seq<uint8>, factor: FloatBits): (n: Scan)
    ensures |n.rest| <= |s|
    ensures n.result.Ok? && n.result.value.Some? ==> n.result.value.value.scalingFactor == n.factor
    ensures s != [] && s[0] > 1 ==> n.result == Err(IOException(s[0])) && n.factor == factor
    decreases |s|
  {
    if s == [] then Scan(Ok(None), [], factor)
    else if s[0] == 0 then
      match TimedTriple(s[1..])
      case Ok(p) =>
        var v := p.value;
        Scan(Ok(Some(ITG3205Reading(v.timestamp, factor, v.x, v.y, v.z))), p.rest, factor)
      case Err(e) => Scan(Err(e), [], factor)
    else if s[0] == 1 then
      match Int(s[1..])
      case Ok(p) => NextITG3205(p.rest, p.value)
      case Err(e) => Scan(Err(e), [], factor)
    else Scan(Err(IOException(s[0])), s[1..], factor)
  }

  /** The body of a tag-0 record: readLong and three readShort. */
  method ReadTriple(input: DataInput) returns (r: Result<TripleReading>)
    modifies input
    ensures Delivered(TimedTriple(old(input.data)), r, input.data)
  {
    WidthBounds();
    var t :- input.ReadBigEndian(8);
    var x :- input.ReadBigEndian(2);
    var y :- input.ReadBigEndian(2);
    var z :- input.ReadBigEndian(2);
    return Ok(TripleReading(t, x, y, z));
  }

  class ITG3205InputStream {
    const input: DataInput
    var scalingFactor: FloatBits

    constructor (input: DataInput)
      ensures this.input == input && scalingFactor == ONE
    {
      this.input := input;
      scalingFactor := ONE;
    }

    method ReadReading() returns (r: Result<Option<ITG3205Reading>>)
      modifies this, input
      ensures var n := NextITG3205(old(input.data), old(scalingFactor));
        r == n.result && input.data == n.rest && scalingFactor == n.factor
    {
      WidthBounds();
      while true
        invariant NextITG3205(input.data, scalingFactor) == NextITG3205(old(input.data), old(scalingFactor))
        decreases |input.data|
      {
        var tag := input.Read();
        if tag == -1 {
          return Ok(None);
        }
        if tag == 0 {
          var v :- ReadTriple(input);
          return Ok(Some(ITG3205Reading(v.timestamp, scalingFactor, v.x, v.y, v.z)));
        } else if tag == 1 {
          var f :- input.ReadBigEndian(4);
          scalingFactor := f;
        } else {
          return Err(IOException(tag));
        }
      }
    }
  }

  /** The bytes of a run of scaling-factor records. */
  function FactorRecords(fs: seq<FloatBits>): (b: seq<uint8>)
    ensures |b| == 5 * |fs|
  {
    if fs == [] then [] else [1] + EncodeInt(fs[0]) + FactorRecords(fs[1..])
  }

  /** One scaling-factor record is consumed and its value becomes the
      factor. */
  lemma SkipsFactor(f: FloatBits, factor: FloatBits, after: seq<uint8>)
    ensures NextITG3205([1] + EncodeInt(f) + after, factor) == NextITG3205(after, f)
  {
    var s := [1] + EncodeInt(f) + after;
    assert s[0] == 1 && s[1..] == EncodeInt(f) + after;
    IntRoundTrip(f, after);
  }

  /** A run of scaling-factor records is consumed, and the last one wins. */
  lemma {:induction false} FactorRun(fs: seq<FloatBits>, factor: FloatBits, tail: seq<uint8>)
    ensures NextITG3205(FactorRecords(fs) + tail, factor)
         == NextITG3205(tail, if fs == [] then factor else fs[|fs| - 1])
    decreases |fs|
  {
    if fs == [] {
      assert FactorRecords(fs) + tail == tail;
    } else {
      var after := FactorRecords(fs[1..]) + tail;
      assert FactorRecords(fs) + tail == [1] + EncodeInt(fs[0]) + after;
      SkipsFactor(fs[0], factor, after);
      FactorRun(fs[1..], fs[0], tail);
      if |fs| > 1 {
        assert fs[1..][|fs[1..]| - 1] == fs[|fs| - 1];
      }
    }
  }

  /** A reading carries the scaling factor of the most recent tag-1 record
      before it, or the factor held before the call if there was none. */
  lemma ReadingFactor(fs: seq<FloatBits>, factor: FloatBits, r: TripleReading, rest: seq<uint8>)
    ensures var f := if fs == [] then factor else fs[|fs| - 1];
      NextITG3205(FactorRecords(fs) + ([0] + TripleReadingBytes(r) + rest), factor)
        == Scan(Ok(Some(ITG3205Reading(r.timestamp, f, r.x, r.y, r.z))), rest, f)
  {
    var tail := [0] + TripleReadingBytes(r) + rest;
    FactorRun(fs, factor, tail);
    TagThen(0, TripleReadingBytes(r), rest);
    TripleReadingRoundTrip(r, rest);
  }

  /** A record's tag byte, then its body and whatever follows. */
  lemma TagThen(tag: uint8, body: seq<uint8>, rest: seq<uint8>)
    ensures ([tag] + body + rest)[0] == tag && ([tag] + body + rest)[1..] == body + rest
  {
  }
}
