/** The proxy's telemetry models: Stim300 (three inertial records chosen by
    a mask), Gps (a fixed record) and ProxyData (a Stim300 followed by a Gps)
    and their ByteBuffer codecs. A record travels as fixed-width big-endian
    fields; a get that runs out of bytes throws BufferUnderflowException and
    leaves the fields read before it with their new values. */
module ProxyModels {
  import opened Wire
  import opened Fields
  import opened NioBuffer

  /** Stim300.Data: int timestamp, then the x, y and z floats. */
  const DATA_WIDTHS: seq<nat> := [4, 4, 4, 4]
  /** Gps.PositionData: int timestamp, then the latitude, longitude and
      altitude doubles. */
  const POSITION_WIDTHS: seq<nat> := [4, 8, 8, 8]
  /** Gps: the fix byte and the satellites int, then the position. */
  const GPS_WIDTHS: seq<nat> := [1, 4, 4, 8, 8, 8]

  // ---- Stim300.Data ----

  class Data {
    var timestamp: int32
    var x: FloatBits
    var y: FloatBits
    var z: FloatBits

    constructor ()
      ensures Values() == [0, 0, 0, 0]
    {
      timestamp, x, y, z := 0, 0, 0, 0;
    }

    /** The fields in wire order. */
    function Values(): (vs: seq<int>)
      reads this
      ensures |vs| == 4
    {
      [timestamp, x, y, z]
    }

    /** put: putInt(timestamp), then putFloat of x, y and z. */
    method Put(buffer: ByteBuffer) returns (r: Result<()>)
      requires buffer.Valid()
      modifies buffer
      ensures buffer.Valid() && |buffer.content| == |old(buffer.content)|
      ensures r.Ok? <==> Total(DATA_WIDTHS) <= |old(buffer.Remaining())|
      ensures r.Ok? ==> buffer.Written() == old(buffer.Written()) + EncodeFields(DATA_WIDTHS, Values())
      ensures r.Ok? ==> |buffer.Remaining()| == |old(buffer.Remaining())| - Total(DATA_WIDTHS)
      ensures r.Err? ==> r.error == BufferOverflowException
    {
      WidthBounds();
      assert Fits(DATA_WIDTHS, Values());
      FieldsOfFour(4, 4, 4, 4, Values());
      ghost var w := buffer.Written();
      ghost var n := |buffer.Remaining()|;
      var a := EncodeSigned(4, timestamp);
      var b := EncodeSigned(4, x);
      var c := EncodeSigned(4, y);
      var d := EncodeSigned(4, z);
      var u :- buffer.Put(a);
      assert buffer.Written() == w + a && |buffer.Remaining()| == n - 4;
      u :- buffer.Put(b);
      assert buffer.Written() == w + a + b && |buffer.Remaining()| == n - 8;
      u :- buffer.Put(c);
      assert buffer.Written() == w + a + b + c && |buffer.Remaining()| == n - 12;
      u :- buffer.Put(d);
      Associate4(w, a, b, c, d);
      r := Ok(());
    }

    /** get: getInt into timestamp, then getFloat into x, y and z. */
    method Get(buffer: ByteBuffer) returns (r: Result<()>)
      requires buffer.Valid()
      modifies this, buffer`position
      ensures buffer.Valid()
      ensures var f := ReadFields(DATA_WIDTHS, old(buffer.Remaining()));
        Values() == OverwriteAt(old(Values()), 0, f.values) && buffer.Remaining() == f.rest &&
        (r.Ok? <==> |f.values| == |DATA_WIDTHS|)
      ensures r.Err? ==> r.error == BufferUnderflowException
    {
      ghost var p := Progress(Values(), buffer.Remaining(), true);
      TakesReadFields(p.values, p.rest, DATA_WIDTHS, 0);
      TakesOfFour(p, 4, 4, 4, 4);
      r := GetField(buffer, 0);
      if r.Err? { return; }
      r := GetField(buffer, 1);
      if r.Err? { return; }
      r := GetField(buffer, 2);
      if r.Err? { return; }
      r := GetField(buffer, 3);
    }

    /** The get of field k (a getInt or a getFloat). */
    method GetField(buffer: ByteBuffer, k: nat) returns (r: Result<()>)
      requires buffer.Valid() && k < 4
      modifies this, buffer`position
      ensures buffer.Valid()
      ensures var q := Take(Progress(old(Values()), old(buffer.Remaining()), true), k, 4);
        Values() == q.values && buffer.Remaining() == q.rest && (r.Ok? <==> q.ok)
      ensures r.Err? ==> r.error == BufferUnderflowException
    {
      var v := buffer.Get(4);
      if v.Err? {
        return Err(BufferUnderflowException);
      }
      WidthBounds();
      assert InSigned(4, v.value);
      if k == 0 {
        timestamp := v.value;
      } else if k == 1 {
        x := v.value;
      } else if k == 2 {
        y := v.value;
      } else {
        z := v.value;
      }
      r := Ok(());
    }
  }

  // ---- Stim300 ----

  const GYRO_MASK: int8 := 0x01
  const ACC_MASK: int8 := 0x02
  const INCL_MASK: int8 := 0x04
  /** (byte) 0b1111_1111 */
  const STIM_ALL_MASK: int8 := -1

  /** The mask bit of record k: 0 gyro, 1 acc, 2 incl, also their order on
      the wire. */
  function Flag(k: nat): int8
    requires k < 3
  {
    if k == 0 then GYRO_MASK else if k == 1 then ACC_MASK else INCL_MASK
  }

  /** The values of the three records, gyro then acc then incl, each an int
      timestamp and three float bit patterns. */
  predicate InertialFits(vals: seq<int>)
  {
    |vals| >= 12 && forall i | 0 <= i < 12 :: InSigned(4, vals[i])
  }

  lemma BlockFits(vals: seq<int>, k: nat)
    requires InertialFits(vals) && k < 3
    ensures Fits(DATA_WIDTHS, vals[4 * k..4 * k + 4])
  {
    var b := vals[4 * k..4 * k + 4];
    forall i | 0 <= i < 4 ensures InSigned(4, b[i]) {
      assert b[i] == vals[4 * k + i];
    }
  }

  /** Record k's bytes when the mask selects it. */
  function RecordBytes(vals: seq<int>, mask: int8, k: nat): seq<uint8>
    requires InertialFits(vals) && k < 3
  {
    if Selects(mask, Flag(k)) then
      BlockFits(vals, k);
      EncodeFields(DATA_WIDTHS, vals[4 * k..4 * k + 4])
    else []
  }

  /** Stim300.toByteBuffer: the selected records in the order gyro, acc,
      incl. */
  function StimEncode(vals: seq<int>, mask: int8): seq<uint8>
    requires InertialFits(vals)
  {
    RecordBytes(vals, mask, 0) + RecordBytes(vals, mask, 1) + RecordBytes(vals, mask, 2)
  }

  /** How many of the three records the mask selects. */
  function Count(mask: int8): nat
  {
    (if Selects(mask, GYRO_MASK) then 1 else 0) + (if Selects(mask, ACC_MASK) then 1 else 0)
      + (if Selects(mask, INCL_MASK) then 1 else 0)
  }

  /** The get of record k when the mask selects it: Data.get, which stops at
      the first field the bytes are too short for. */
  function StimGet(p: Progress, mask: int8, k: nat): (q: Progress)
    requires |p.values| >= 12 && k < 3
    ensures |q.values| == |p.values|
  {
    if !Selects(mask, Flag(k)) || !p.ok then p
    else
      assert Positive(DATA_WIDTHS);
      var f := ReadFields(DATA_WIDTHS, p.rest);
      Progress(OverwriteAt(p.values, 4 * k, f.values), f.rest, |f.values| == |DATA_WIDTHS|)
  }

  /** Stim300.fromByteBuffer: the selected records in the order gyro, acc,
      incl, stopping at the first get that runs out of bytes. */
  function StimDecode(p: Progress, mask: int8): (q: Progress)
    requires |p.values| >= 12
    ensures |q.values| == |p.values|
  {
    StimGet(StimGet(StimGet(p, mask, 0), mask, 1), mask, 2)
  }

  /** Record k of the sender in place of the receiver's, when the mask
      selects it. */
  function Choose(held: seq<int>, vals: seq<int>, mask: int8, k: nat): (r: seq<int>)
    requires |held| >= 12 && |vals| >= 12 && k < 3
    ensures |r| == |held|
  {
    if Selects(mask, Flag(k)) then OverwriteAt(held, 4 * k, vals[4 * k..4 * k + 4]) else held
  }

  /** What a receiver holds after decoding: the sender's selected records,
      its own values elsewhere. */
  function Received(prior: seq<int>, vals: seq<int>, mask: int8): (r: seq<int>)
    requires |prior| >= 12 && |vals| >= 12
    ensures |r| == |prior|
  {
    Choose(Choose(Choose(prior, vals, mask, 0), vals, mask, 1), vals, mask, 2)
  }

  lemma StimGetFailed(p: Progress, mask: int8, k: nat)
    requires |p.values| >= 12 && k < 3 && !p.ok
    ensures StimGet(p, mask, k) == p
  {
  }

  lemma RecordLength(vals: seq<int>, mask: int8, k: nat)
    requires InertialFits(vals) && k < 3
    ensures |RecordBytes(vals, mask, k)| == if Selects(mask, Flag(k)) then 16 else 0
  {
    FieldsOfFour(4, 4, 4, 4, [0, 0, 0, 0]);
  }

  /** The encoding holds 16 bytes per selected record. */
  lemma StimEncodeLength(vals: seq<int>, mask: int8)
    requires InertialFits(vals)
    ensures |StimEncode(vals, mask)| == 16 * Count(mask)
  {
    RecordLength(vals, mask, 0);
    RecordLength(vals, mask, 1);
    RecordLength(vals, mask, 2);
  }

  /** A mask with none of bits 0-2 set, 0 included, writes nothing and reads
      nothing: unlike Sensors, a zero mask is not widened to all records. */
  lemma StimNoneSelected(vals: seq<int>, p: Progress, mask: int8)
    requires InertialFits(vals) && |p.values| >= 12
    requires !Selects(mask, GYRO_MASK) && !Selects(mask, ACC_MASK) && !Selects(mask, INCL_MASK)
    ensures StimEncode(vals, mask) == [] && StimDecode(p, mask) == p
  {
  }

  /** The full mask selects every record, for 48 bytes. */
  lemma StimAllMask(vals: seq<int>)
    requires InertialFits(vals)
    ensures Count(STIM_ALL_MASK) == 3 && |StimEncode(vals, STIM_ALL_MASK)| == 48
  {
    StimEncodeLength(vals, STIM_ALL_MASK);
  }

  /** Reading record k's bytes restores record k exactly. */
  lemma StimGetEncoded(prior: seq<int>, vals: seq<int>, mask: int8, k: nat, tail: seq<uint8>)
    requires |prior| >= 12 && InertialFits(vals) && k < 3
    ensures StimGet(Progress(prior, RecordBytes(vals, mask, k) + tail, true), mask, k)
         == Progress(Choose(prior, vals, mask, k), tail, true)
  {
    if Selects(mask, Flag(k)) {
      BlockFits(vals, k);
      var block := vals[4 * k..4 * k + 4];
      ReadEncodedFields(DATA_WIDTHS, block, tail);
    } else {
      assert [] + tail == tail;
    }
  }

  /** Decoding the encoding with the same mask restores every selected
      record bit for bit, keeps the receiver's other values and consumes
      exactly the encoding. */
  lemma StimRoundTrip(prior: seq<int>, vals: seq<int>, mask: int8, rest: seq<uint8>)
    requires |prior| >= 12 && InertialFits(vals)
    ensures StimDecode(Progress(prior, StimEncode(vals, mask) + rest, true), mask)
         == Progress(Received(prior, vals, mask), rest, true)
  {
    var b0 := RecordBytes(vals, mask, 0);
    var b1 := RecordBytes(vals, mask, 1);
    var b2 := RecordBytes(vals, mask, 2);
    assert StimEncode(vals, mask) + rest == b0 + (b1 + (b2 + rest));
    StimGetEncoded(prior, vals, mask, 0, b1 + (b2 + rest));
    var p1 := Choose(prior, vals, mask, 0);
    StimGetEncoded(p1, vals, mask, 1, b2 + rest);
    var p2 := Choose(p1, vals, mask, 1);
    StimGetEncoded(p2, vals, mask, 2, rest);
  }

  /** Records the mask does not select, and any values after the three
      records, are untouched by a decode, whatever the bytes. */
  lemma StimLeavesUnselected(p: Progress, mask: int8, i: nat)
    requires |p.values| >= 12 && i < |p.values|
    requires i >= 12 || !Selects(mask, Flag(i / 4))
    ensures StimDecode(p, mask).values[i] == p.values[i]
  {
    assert Positive(DATA_WIDTHS);
    var p1 := StimGet(p, mask, 0);
    var p2 := StimGet(p1, mask, 1);
    StimGetKeeps(p, mask, 0, i);
    StimGetKeeps(p1, mask, 1, i);
    StimGetKeeps(p2, mask, 2, i);
  }

  lemma StimGetKeeps(p: Progress, mask: int8, k: nat, i: nat)
    requires |p.values| >= 12 && k < 3 && i < |p.values|
    requires i >= 12 || !Selects(mask, Flag(i / 4)) || i / 4 != k
    ensures StimGet(p, mask, k).values[i] == p.values[i]
  {
    if Selects(mask, Flag(k)) && p.ok {
      assert Positive(DATA_WIDTHS);
      ReadFieldsShape(DATA_WIDTHS, p.rest);
      assert i < 4 * k || i >= 4 * k + 4;
    }
  }

  /** A decode succeeds exactly when the buffer holds 16 bytes per selected
      record, and then consumes exactly those bytes. */
  lemma StimConsumes(vals: seq<int>, s: seq<uint8>, mask: int8)
    requires |vals| >= 12
    ensures var d := StimDecode(Progress(vals, s, true), mask);
      (d.ok <==> |s| >= 16 * Count(mask)) && (d.ok ==> d.rest == s[16 * Count(mask)..])
  {
    var p0 := Progress(vals, s, true);
    var p1 := StimGet(p0, mask, 0);
    var p2 := StimGet(p1, mask, 1);
    var p3 := StimGet(p2, mask, 2);
    StimGetConsumes(p0, mask, 0);
    StimGetConsumes(p1, mask, 1);
    StimGetConsumes(p2, mask, 2);
    if p1.ok && p2.ok && p3.ok {
      var n0 := if Selects(mask, GYRO_MASK) then 16 else 0;
      var n1 := if Selects(mask, ACC_MASK) then 16 else 0;
      assert p2.rest == s[n0..][n1..] == s[n0 + n1..];
    }
  }

  /** One selected record's get needs 16 bytes and takes exactly them. */
  lemma StimGetConsumes(p: Progress, mask: int8, k: nat)
    requires |p.values| >= 12 && k < 3
    ensures var q := StimGet(p, mask, k); var n := if Selects(mask, Flag(k)) then 16 else 0;
      (q.ok <==> p.ok && |p.rest| >= n) && (q.ok ==> q.rest == p.rest[n..])
  {
    if Selects(mask, Flag(k)) && p.ok {
      assert Positive(DATA_WIDTHS);
      ReadFieldsShape(DATA_WIDTHS, p.rest);
      FieldsOfFour(4, 4, 4, 4, [0, 0, 0, 0]);
    }
  }

  class Stim300 {
    const gyro: Data
    const acc: Data
    const incl: Data

    ghost predicate Valid()
      reads this
    {
      gyro != acc && acc != incl && gyro != incl
    }

    constructor ()
      ensures Valid() && fresh(gyro) && fresh(acc) && fresh(incl)
      ensures Values() == seq(12, _ => 0)
    {
      gyro := new Data();
      acc := new Data();
      incl := new Data();
    }

    /** The three records' fields: gyro, acc, incl. */
    function Values(): (vs: seq<int>)
      reads this, gyro, acc, incl
      ensures |vs| == 12 && InertialFits(vs)
    {
      WidthBounds();
      gyro.Values() + acc.Values() + incl.Values()
    }

    /** Record k. */
    function Record(k: nat): Data
      reads this
      requires k < 3
    {
      if k == 0 then gyro else if k == 1 then acc else incl
    }

    /** toByteBuffer(buffer, mask). */
    method ToByteBuffer(buffer: ByteBuffer, mask: int8) returns (r: Result<()>)
      requires buffer.Valid()
      modifies buffer
      ensures buffer.Valid() && |buffer.content| == |old(buffer.content)|
      ensures InertialFits(Values())
      ensures r.Ok? <==> 16 * Count(mask) <= |old(buffer.Remaining())|
      ensures r.Ok? ==> buffer.Written() == old(buffer.Written()) + StimEncode(Values(), mask)
      ensures r.Ok? ==> |buffer.Remaining()| == |old(buffer.Remaining())| - 16 * Count(mask)
      ensures r.Err? ==> r.error == BufferOverflowException
    {
      ValuesFit();
      ghost var w := buffer.Written();
      ghost var n := |buffer.Remaining()|;
      ghost var vs := Values();
      ghost var b0 := RecordBytes(vs, mask, 0);
      ghost var b1 := RecordBytes(vs, mask, 1);
      ghost var b2 := RecordBytes(vs, mask, 2);
      StimEncodeLength(vs, mask);
      RecordLength(vs, mask, 0);
      RecordLength(vs, mask, 1);
      RecordLength(vs, mask, 2);
      r := PutIfChosen(buffer, mask, 0);
      if r.Err? { return; }
      assert buffer.Written() == w + b0 && |buffer.Remaining()| == n - |b0|;
      r := PutIfChosen(buffer, mask, 1);
      if r.Err? { return; }
      assert buffer.Written() == w + b0 + b1 && |buffer.Remaining()| == n - |b0| - |b1|;
      r := PutIfChosen(buffer, mask, 2);
      if r.Ok? {
        Associate(w, b0, b1, b2);
      }
    }

    lemma ValuesFit()
      ensures InertialFits(Values())
    {
      WidthBounds();
    }

    /** `if ((mask & FLAG) != 0) record.put(buffer)` for record k. */
    method PutIfChosen(buffer: ByteBuffer, mask: int8, k: nat) returns (r: Result<()>)
      requires buffer.Valid() && k < 3
      modifies buffer
      ensures buffer.Valid() && |buffer.content| == |old(buffer.content)|
      ensures InertialFits(Values())
      ensures var b := RecordBytes(Values(), mask, k);
        (r.Ok? <==> |b| <= |old(buffer.Remaining())|) &&
        (r.Ok? ==> buffer.Written() == old(buffer.Written()) + b && |buffer.Remaining()| == |old(buffer.Remaining())| - |b|)
      ensures r.Err? ==> r.error == BufferOverflowException
    {
      ValuesFit();
      if !Selects(mask, Flag(k)) {
        assert old(buffer.Written()) + [] == old(buffer.Written());
        return Ok(());
      }
      var d := Record(k);
      assert d.Values() == Values()[4 * k..4 * k + 4];
      FieldsOfFour(4, 4, 4, 4, d.Values());
      r := d.Put(buffer);
    }

    /** fromByteBuffer(buffer, mask). */
    method FromByteBuffer(buffer: ByteBuffer, mask: int8) returns (r: Result<()>)
      requires Valid() && buffer.Valid()
      modifies gyro, acc, incl, buffer`position
      ensures buffer.Valid()
      ensures var d := StimDecode(Progress(old(Values()), old(buffer.Remaining()), true), mask);
        Values() == d.values && buffer.Remaining() == d.rest && (r.Ok? <==> d.ok)
      ensures r.Err? ==> r.error == BufferUnderflowException
    {
      ghost var p0 := Progress(Values(), buffer.Remaining(), true);
      r := GetIfChosen(buffer, mask, 0);
      ghost var p1 := StimGet(p0, mask, 0);
      if r.Err? {
        StimGetFailed(p1, mask, 1);
        StimGetFailed(p1, mask, 2);
        return;
      }
      r := GetIfChosen(buffer, mask, 1);
      ghost var p2 := StimGet(p1, mask, 1);
      if r.Err? {
        StimGetFailed(p2, mask, 2);
        return;
      }
      r := GetIfChosen(buffer, mask, 2);
    }

    /** `if ((mask & FLAG) != 0) record.get(buffer)` for record k. */
    method GetIfChosen(buffer: ByteBuffer, mask: int8, k: nat) returns (r: Result<()>)
      requires Valid() && buffer.Valid() && k < 3
      modifies gyro, acc, incl, buffer`position
      ensures buffer.Valid()
      ensures var q := StimGet(Progress(old(Values()), old(buffer.Remaining()), true), mask, k);
        Values() == q.values && buffer.Remaining() == q.rest && (r.Ok? <==> q.ok)
      ensures r.Err? ==> r.error == BufferUnderflowException
    {
      if !Selects(mask, Flag(k)) {
        return Ok(());
      }
      RecordGet(gyro.Values(), acc.Values(), incl.Values(), buffer.Remaining(), mask, k);
      if k == 0 {
        r := gyro.Get(buffer);
      } else if k == 1 {
        r := acc.Get(buffer);
      } else {
        r := incl.Get(buffer);
      }
    }
  }

  /** The get of a selected record k, on the three records' values. */
  lemma RecordGet(g: seq<int>, a: seq<int>, c: seq<int>, s: seq<uint8>, mask: int8, k: nat)
    requires |g| == 4 && |a| == 4 && |c| == 4 && k < 3 && Selects(mask, Flag(k))
    ensures Positive(DATA_WIDTHS)
    ensures var f := ReadFields(DATA_WIDTHS, s); var q := StimGet(Progress(g + a + c, s, true), mask, k);
      q.rest == f.rest && (q.ok <==> |f.values| == 4) &&
      q.values == if k == 0 then OverwriteAt(g, 0, f.values) + a + c
                  else if k == 1 then g + OverwriteAt(a, 0, f.values) + c
                  else g + a + OverwriteAt(c, 0, f.values)
  {
    assert Positive(DATA_WIDTHS);
    var f := ReadFields(DATA_WIDTHS, s);
    var all := g + a + c;
    assert StimGet(Progress(all, s, true), mask, k)
        == Progress(OverwriteAt(all, 4 * k, f.values), f.rest, |f.values| == 4);
    if k == 0 {
      OverwriteFirst(g, a, c, f.values);
    } else if k == 1 {
      OverwriteInside(g, a, c, f.values);
    } else {
      OverwriteLast(g, a, c, f.values);
    }
  }

  // ---- Gps.PositionData ----

  class PositionData {
    var timestamp: int32
    var latitude: DoubleBits
    var longitude: DoubleBits
    var altitude: DoubleBits

    constructor ()
      ensures Values() == [0, 0, 0, 0]
    {
      timestamp, latitude, longitude, altitude := 0, 0, 0, 0;
    }

    /** The fields in wire order. */
    function Values(): (vs: seq<int>)
      reads this
      ensures |vs| == 4
    {
      [timestamp, latitude, longitude, altitude]
    }

    /** put: putInt(timestamp), then putDouble of latitude, longitude and
        altitude. */
    method Put(buffer: ByteBuffer) returns (r: Result<()>)
      requires buffer.Valid()
      modifies buffer
      ensures buffer.Valid() && |buffer.content| == |old(buffer.content)|
      ensures r.Ok? <==> Total(POSITION_WIDTHS) <= |old(buffer.Remaining())|
      ensures r.Ok? ==> buffer.Written() == old(buffer.Written()) + EncodeFields(POSITION_WIDTHS, Values())
      ensures r.Ok? ==> |buffer.Remaining()| == |old(buffer.Remaining())| - Total(POSITION_WIDTHS)
      ensures r.Err? ==> r.error == BufferOverflowException
    {
      WidthBounds();
      assert Fits(POSITION_WIDTHS, Values());
      FieldsOfFour(4, 8, 8, 8, Values());
      ghost var w := buffer.Written();
      ghost var n := |buffer.Remaining()|;
      var a := EncodeSigned(4, timestamp);
      var b := EncodeSigned(8, latitude);
      var c := EncodeSigned(8, longitude);
      var d := EncodeSigned(8, altitude);
      var u :- buffer.Put(a);
      assert buffer.Written() == w + a && |buffer.Remaining()| == n - 4;
      u :- buffer.Put(b);
      assert buffer.Written() == w + a + b && |buffer.Remaining()| == n - 12;
      u :- buffer.Put(c);
      assert buffer.Written() == w + a + b + c && |buffer.Remaining()| == n - 20;
      u :- buffer.Put(d);
      Associate4(w, a, b, c, d);
      r := Ok(());
    }

    /** get: getInt into timestamp, then getDouble into latitude, longitude
        and altitude. */
    method Get(buffer: ByteBuffer) returns (r: Result<()>)
      requires buffer.Valid()
      modifies this, buffer`position
      ensures buffer.Valid()
      ensures var f := ReadFields(POSITION_WIDTHS, old(buffer.Remaining()));
        Values() == OverwriteAt(old(Values()), 0, f.values) && buffer.Remaining() == f.rest &&
        (r.Ok? <==> |f.values| == |POSITION_WIDTHS|)
      ensures r.Err? ==> r.error == BufferUnderflowException
    {
      ghost var p := Progress(Values(), buffer.Remaining(), true);
      TakesReadFields(p.values, p.rest, POSITION_WIDTHS, 0);
      TakesOfFour(p, 4, 8, 8, 8);
      r := GetField(buffer, 0);
      if r.Err? { return; }
      r := GetField(buffer, 1);
      if r.Err? { return; }
      r := GetField(buffer, 2);
      if r.Err? { return; }
      r := GetField(buffer, 3);
    }

    /** The get of field k (a getInt or a getDouble). */
    method GetField(buffer: ByteBuffer, k: nat) returns (r: Result<()>)
      requires buffer.Valid() && k < 4
      modifies this, buffer`position
      ensures buffer.Valid()
      ensures var q := Take(Progress(old(Values()), old(buffer.Remaining()), true), k, POSITION_WIDTHS[k]);
        Values() == q.values && buffer.Remaining() == q.rest && (r.Ok? <==> q.ok)
      ensures r.Err? ==> r.error == BufferUnderflowException
    {
      var v := buffer.Get(POSITION_WIDTHS[k]);
      if v.Err? {
        return Err(BufferUnderflowException);
      }
      WidthBounds();
      if k == 0 {
        assert InSigned(4, v.value);
        timestamp := v.value;
      } else {
        assert InSigned(8, v.value);
        if k == 1 {
          latitude := v.value;
        } else if k == 2 {
          longitude := v.value;
        } else {
          altitude := v.value;
        }
      }
      r := Ok(());
    }
  }

  // ---- Gps ----

  class Gps {
    /** The fix status: documented as 0 unknown, 1 no fix, 2 2D, 3 3D, but
        any byte is stored and carried. */
    var fix: int8
    var satellites: int32
    const position: PositionData

    constructor ()
      ensures fresh(position) && Values() == [0, 0, 0, 0, 0, 0]
    {
      fix, satellites := 0, 0;
      position := new PositionData();
    }

    /** The fields in wire order. */
    function Values(): (vs: seq<int>)
      reads this, position
      ensures |vs| == 6
    {
      [fix, satellites] + position.Values()
    }

    /** Every stored field fits its wire width. */
    lemma ValuesFit()
      ensures Fits(GPS_WIDTHS, Values())
    {
      WidthBounds();
    }

    /** toByteBuffer: put(fix), putInt(satellites), then the position. */
    method ToByteBuffer(buffer: ByteBuffer) returns (r: Result<()>)
      requires buffer.Valid()
      modifies buffer
      ensures buffer.Valid() && |buffer.content| == |old(buffer.content)|
      ensures r.Ok? <==> Total(GPS_WIDTHS) <= |old(buffer.Remaining())|
      ensures r.Ok? ==> buffer.Written() == old(buffer.Written()) + EncodeFields(GPS_WIDTHS, Values())
      ensures r.Ok? ==> |buffer.Remaining()| == |old(buffer.Remaining())| - Total(GPS_WIDTHS)
      ensures r.Err? ==> r.error == BufferOverflowException
    {
      GpsFields(Values());
      ghost var w := buffer.Written();
      ghost var n := |buffer.Remaining()|;
      var a := EncodeSigned(1, fix);
      var b := EncodeSigned(4, satellites);
      var u :- buffer.Put(a);
      assert buffer.Written() == w + a && |buffer.Remaining()| == n - 1;
      u :- buffer.Put(b);
      assert buffer.Written() == w + a + b && |buffer.Remaining()| == n - 5;
      ghost var e := EncodeFields(POSITION_WIDTHS, position.Values());
      u :- position.Put(buffer);
      Associate(w, a, b, e);
      r := Ok(());
    }

    /** fromByteBuffer: get() into fix, getInt() into satellites, then the
        position. */
    method FromByteBuffer(buffer: ByteBuffer) returns (r: Result<()>)
      requires buffer.Valid()
      modifies this, position, buffer`position
      ensures buffer.Valid()
      ensures var f := ReadFields(GPS_WIDTHS, old(buffer.Remaining()));
        Values() == OverwriteAt(old(Values()), 0, f.values) && buffer.Remaining() == f.rest &&
        (r.Ok? <==> |f.values| == |GPS_WIDTHS|)
      ensures r.Err? ==> r.error == BufferUnderflowException
    {
      ghost var p := Progress(Values(), buffer.Remaining(), true);
      TakesReadFields(p.values, p.rest, GPS_WIDTHS, 0);
      GpsTakes(p);
      r := GetField(buffer, 0);
      if r.Err? {
        TakesFailed(Take(p, 0, 1), GPS_WIDTHS[1..], 1);
        return;
      }
      r := GetField(buffer, 1);
      if r.Err? {
        TakesFailed(Take(Take(p, 0, 1), 1, 4), POSITION_WIDTHS, 2);
        return;
      }
      ghost var q := Progress(Values(), buffer.Remaining(), true);
      TakesReadFields(q.values, q.rest, POSITION_WIDTHS, 2);
      ghost var head := [fix, satellites];
      ghost var f := ReadFields(POSITION_WIDTHS, q.rest);
      assert q.values == head + position.Values() + [];
      OverwriteInside(head, position.Values(), [], f.values);
      r := position.Get(buffer);
      assert Values() == head + position.Values();
    }

    /** The get of the fix byte (k = 0) or the satellites int (k = 1). */
    method GetField(buffer: ByteBuffer, k: nat) returns (r: Result<()>)
      requires buffer.Valid() && k < 2
      modifies this, buffer`position
      ensures buffer.Valid()
      ensures var q := Take(Progress(old(Values()), old(buffer.Remaining()), true), k, GPS_WIDTHS[k]);
        Values() == q.values && buffer.Remaining() == q.rest && (r.Ok? <==> q.ok)
      ensures r.Err? ==> r.error == BufferUnderflowException
    {
      var v := buffer.Get(GPS_WIDTHS[k]);
      if v.Err? {
        return Err(BufferUnderflowException);
      }
      WidthBounds();
      if k == 0 {
        assert InSigned(1, v.value);
        fix := v.value;
      } else {
        assert InSigned(4, v.value);
        satellites := v.value;
      }
      r := Ok(());
    }
  }

  /** The Gps record is the fix byte, the satellites int and the position
      record. */
  lemma GpsFields(vs: seq<int>)
    requires |vs| == 6 && Fits(GPS_WIDTHS, vs)
    ensures Fits(POSITION_WIDTHS, vs[2..])
    ensures EncodeFields(GPS_WIDTHS, vs)
         == EncodeSigned(1, vs[0]) + EncodeSigned(4, vs[1]) + EncodeFields(POSITION_WIDTHS, vs[2..])
    ensures Total(GPS_WIDTHS) == 1 + 4 + Total(POSITION_WIDTHS)
  {
    assert GPS_WIDTHS == [1, 4] + POSITION_WIDTHS;
    EncodeFieldsTwo(1, 4, POSITION_WIDTHS, vs);
  }

  /** The Gps record is 33 bytes. */
  lemma GpsTotal()
    ensures Total(GPS_WIDTHS) == 33
  {
    assert GPS_WIDTHS[1..] == [4, 4, 8, 8, 8];
    assert GPS_WIDTHS[1..][1..] == [4, 8, 8, 8];
    assert GPS_WIDTHS[1..][1..][1..] == [8, 8, 8];
    assert GPS_WIDTHS[1..][1..][1..][1..] == [8, 8];
    assert GPS_WIDTHS[1..][1..][1..][1..][1..] == [8];
    assert GPS_WIDTHS[1..][1..][1..][1..][1..][1..] == [];
  }

  /** The gets of Gps.fromByteBuffer: two of its own, then the position's. */
  lemma GpsTakes(p: Progress)
    requires |p.values| == 6
    ensures Positive(GPS_WIDTHS) && Positive(POSITION_WIDTHS)
    ensures Takes(p, GPS_WIDTHS, 0) == Takes(Take(Take(p, 0, 1), 1, 4), POSITION_WIDTHS, 2)
  {
    assert Positive(GPS_WIDTHS) && Positive(POSITION_WIDTHS);
    assert GPS_WIDTHS[1..] == [4] + POSITION_WIDTHS;
    assert GPS_WIDTHS[1..][1..] == POSITION_WIDTHS;
  }

  // ---- ProxyData ----

  /** ProxyData.toByteBuffer: the Stim300 bytes, then the Gps bytes. The
      Stim300 mask is a parameter (the source calls a Stim300 method
      without one). */
  function ProxyEncode(stim: seq<int>, gps: seq<int>, mask: int8): seq<uint8>
    requires InertialFits(stim) && Fits(GPS_WIDTHS, gps)
  {
    StimEncode(stim, mask) + EncodeFields(GPS_WIDTHS, gps)
  }

  /** Both parts of a ProxyData while a decode fills them. */
  datatype ProxyProgress = ProxyProgress(stim: seq<int>, gps: seq<int>, rest: seq<uint8>, ok: bool)

  /** ProxyData.fromByteBuffer: the Stim300 part first; the Gps part only
      when that one completed. */
  function ProxyDecode(stim: seq<int>, gps: seq<int>, s: seq<uint8>, mask: int8): ProxyProgress
    requires |stim| >= 12 && |gps| == 6
  {
    GpsAfter(StimDecode(Progress(stim, s, true), mask), gps)
  }

  /** The Gps part of a ProxyData decode, given how the Stim300 part ended. */
  function GpsAfter(q: Progress, gps: seq<int>): ProxyProgress
    requires |gps| == 6
  {
    if !q.ok then ProxyProgress(q.values, gps, q.rest, false)
    else
      assert Positive(GPS_WIDTHS);
      var f := ReadFields(GPS_WIDTHS, q.rest);
      ProxyProgress(q.values, OverwriteAt(gps, 0, f.values), f.rest, |f.values| == |GPS_WIDTHS|)
  }

  /** The encoding is 16 bytes per selected Stim300 record plus the 33 Gps
      bytes. */
  lemma ProxyLength(stim: seq<int>, gps: seq<int>, mask: int8)
    requires InertialFits(stim) && |gps| == 6 && Fits(GPS_WIDTHS, gps)
    ensures |ProxyEncode(stim, gps, mask)| == 16 * Count(mask) + 33
  {
    StimEncodeLength(stim, mask);
    GpsFields(gps);
    FieldsOfFour(4, 8, 8, 8, gps[2..]);
  }

  /** Decoding the encoding with the same mask restores the selected Stim300
      records and the whole Gps record, and consumes exactly the encoding. */
  lemma ProxyRoundTrip(heldStim: seq<int>, heldGps: seq<int>, stim: seq<int>, gps: seq<int>, mask: int8, rest: seq<uint8>)
    requires |heldStim| >= 12 && |heldGps| == 6
    requires InertialFits(stim) && Fits(GPS_WIDTHS, gps)
    ensures ProxyDecode(heldStim, heldGps, ProxyEncode(stim, gps, mask) + rest, mask)
         == ProxyProgress(Received(heldStim, stim, mask), gps, rest, true)
  {
    var a, e := StimEncode(stim, mask), EncodeFields(GPS_WIDTHS, gps);
    var bytes := ProxyEncode(stim, gps, mask) + rest;
    assert ProxyEncode(stim, gps, mask) == a + e;
    Associate2(a, e, rest);
    StimRoundTrip(heldStim, stim, mask, e + rest);
    ReadEncodedFields(GPS_WIDTHS, gps, rest);
    GpsAfterComplete(Received(heldStim, stim, mask), e + rest, heldGps, gps, rest);
  }

  /** After a completed Stim300 part, a Gps read of all six fields replaces
      the whole Gps record. */
  lemma GpsAfterComplete(stim: seq<int>, mid: seq<uint8>, heldGps: seq<int>, gps: seq<int>, rest: seq<uint8>)
    requires |heldGps| == 6 && |gps| == 6
    requires Positive(GPS_WIDTHS) && ReadFields(GPS_WIDTHS, mid) == Fetch(gps, rest)
    ensures GpsAfter(Progress(stim, mid, true), heldGps) == ProxyProgress(stim, gps, rest, true)
  {
    OverwriteWhole(heldGps, gps);
  }

  class ProxyData {
    const stim300: Stim300
    const gps: Gps

    ghost predicate Valid()
      reads this, stim300
    {
      stim300.Valid()
    }

    constructor ()
      ensures Valid() && fresh(stim300) && fresh(gps)
      ensures fresh(stim300.gyro) && fresh(stim300.acc) && fresh(stim300.incl) && fresh(gps.position)
    {
      stim300 := new Stim300();
      gps := new Gps();
    }

    /** toByteBuffer(buffer) with the Stim300 mask made explicit. */
    method ToByteBuffer(buffer: ByteBuffer, mask: int8) returns (r: Result<()>)
      requires buffer.Valid()
      modifies buffer
      ensures buffer.Valid() && |buffer.content| == |old(buffer.content)|
      ensures Fits(GPS_WIDTHS, gps.Values())
      ensures r.Ok? <==> 16 * Count(mask) + 33 <= |old(buffer.Remaining())|
      ensures r.Ok? ==>
        buffer.Written() == old(buffer.Written()) + ProxyEncode(stim300.Values(), gps.Values(), mask)
      ensures r.Err? ==> r.error == BufferOverflowException
    {
      gps.ValuesFit();
      GpsTotal();
      ghost var w := buffer.Written();
      ghost var a := StimEncode(stim300.Values(), mask);
      ghost var e := EncodeFields(GPS_WIDTHS, gps.Values());
      r := stim300.ToByteBuffer(buffer, mask);
      if r.Err? { return; }
      assert buffer.Written() == w + a;
      r := gps.ToByteBuffer(buffer);
      if r.Ok? {
        assert ProxyEncode(stim300.Values(), gps.Values(), mask) == a + e;
        Associate(w, a, e, []);
        assert a + e + [] == a + e && w + a + e + [] == w + a + e;
      }
    }

    /** fromByteBuffer(buffer) with the Stim300 mask made explicit. */
    method FromByteBuffer(buffer: ByteBuffer, mask: int8) returns (r: Result<()>)
      requires Valid() && buffer.Valid()
      modifies stim300.gyro, stim300.acc, stim300.incl, gps, gps.position, buffer`position
      ensures buffer.Valid()
      ensures var d := ProxyDecode(old(stim300.Values()), old(gps.Values()), old(buffer.Remaining()), mask);
        stim300.Values() == d.stim && gps.Values() == d.gps && buffer.Remaining() == d.rest && (r.Ok? <==> d.ok)
      ensures r.Err? ==> r.error == BufferUnderflowException
    {
      r := stim300.FromByteBuffer(buffer, mask);
      if r.Err? { return; }
      r := gps.FromByteBuffer(buffer);
    }
  }

  /** A four-field record unrolled. */
  lemma FieldsOfFour(a: nat, b: nat, c: nat, d: nat, vs: seq<int>)
    requires Fits([a, b, c, d], vs)
    ensures EncodeFields([a, b, c, d], vs)
         == EncodeSigned(a, vs[0]) + EncodeSigned(b, vs[1]) + EncodeSigned(c, vs[2]) + EncodeSigned(d, vs[3])
    ensures Total([a, b, c, d]) == a + b + c + d
  {
    var ws := [a, b, c, d];
    EncodeFieldsHead(ws, vs);
    assert ws[1..] == [b, c, d];
    EncodeFieldsHead(ws[1..], vs[1..]);
    assert ws[1..][1..] == [c, d];
    EncodeFieldsHead(ws[1..][1..], vs[1..][1..]);
    assert ws[1..][1..][1..] == [d];
    EncodeFieldsHead(ws[1..][1..][1..], vs[1..][1..][1..]);
    assert ws[1..][1..][1..][1..] == [];
  }

  /** Four gets in a row. */
  lemma TakesOfFour(p: Progress, a: nat, b: nat, c: nat, d: nat)
    requires a > 0 && b > 0 && c > 0 && d > 0 && |p.values| >= 4
    ensures Positive([a, b, c, d])
    ensures Takes(p, [a, b, c, d], 0) == Take(Take(Take(Take(p, 0, a), 1, b), 2, c), 3, d)
  {
    var ws := [a, b, c, d];
    assert Positive(ws);
    var p1 := Take(p, 0, a);
    var p2 := Take(p1, 1, b);
    var p3 := Take(p2, 2, c);
    assert ws[1..] == [b, c, d] && [b, c, d][1..] == [c, d] && [c, d][1..] == [d] && [d][1..] == [];
    assert Takes(p, ws, 0) == Takes(p1, [b, c, d], 1);
    assert Takes(p1, [b, c, d], 1) == Takes(p2, [c, d], 2);
    assert Takes(p2, [c, d], 2) == Takes(p3, [d], 3);
    assert Takes(p3, [d], 3) == Takes(Take(p3, 3, d), [], 4);
  }

  lemma Associate2(w: seq<uint8>, a: seq<uint8>, b: seq<uint8>)
    ensures w + a + b == w + (a + b)
  {
  }

  lemma Associate(w: seq<uint8>, a: seq<uint8>, b: seq<uint8>, c: seq<uint8>)
    ensures w + a + b + c == w + (a + b + c)
  {
  }

  lemma Associate4(w: seq<uint8>, a: seq<uint8>, b: seq<uint8>, c: seq<uint8>, d: seq<uint8>)
    ensures w + a + b + c + d == w + (a + b + c + d)
  {
  }
}
