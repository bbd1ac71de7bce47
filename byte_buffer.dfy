/** java.nio.ByteBuffer as the telemetry codecs use it: a backing array up to
    the limit, a position, relative big-endian puts that throw
    BufferOverflowException and relative gets that throw
    BufferUnderflowException, neither of which moves the position. */
module NioBuffer {
  import opened Wire

  class ByteBuffer {
    /** The backing array, up to the limit. */
    var content: seq<uint8>
    var position: nat

    ghost predicate Valid()
      reads this
    {
      position <= |content|
    }

    /** The bytes a relative get reads next. */
    function Remaining(): seq<uint8>
      reads this
      requires Valid()
    {
      content[position..]
    }

    /** The bytes before the position: what a sender passes on as
        `array()` up to `position()`. */
    function Written(): seq<uint8>
      reads this
      requires Valid()
    {
      content[..position]
    }

    /** ByteBuffer.allocate: a zero-filled buffer. */
    constructor Allocate(capacity: nat)
      ensures Valid()
      ensures content == seq(capacity, _ => 0) && position == 0
    {
      content := seq(capacity, _ => 0);
      position := 0;
    }

    /** ByteBuffer.wrap: a buffer over the given bytes. */
    constructor Wrap(data: seq<uint8>)
      ensures Valid()
      ensures content == data && position == 0
      ensures Remaining() == data
    {
      content := data;
      position := 0;
    }

    /** ByteBuffer.clear: position back to 0 (the limit is the capacity). */
    method Clear()
      requires Valid()
      modifies this
      ensures Valid()
      ensures content == old(content) && position == 0
    {
      position := 0;
    }

    /** A relative put of an encoded value: put, putShort, putInt, putLong,
        putFloat and putDouble are `Put` of the value's big-endian bytes. */
    method Put(bytes: seq<uint8>) returns (r: Result<()>)
      requires Valid()
      modifies this
      ensures Valid() && |content| == |old(content)|
      ensures r.Ok? <==> |bytes| <= |old(Remaining())|
      ensures r.Ok? ==> Written() == old(Written()) + bytes
      ensures r.Ok? ==> Remaining() == old(Remaining())[|bytes|..]
      ensures r.Ok? ==> |Remaining()| == |old(Remaining())| - |bytes|
      ensures r.Err? ==> r.error == BufferOverflowException
      ensures r.Err? ==> content == old(content) && position == old(position)
    {
      if |bytes| > |content| - position {
        return Err(BufferOverflowException);
      }
      content := content[..position] + bytes + content[position + |bytes|..];
      position := position + |bytes|;
      assert content[..position] == old(content[..position]) + bytes;
      r := Ok(());
    }

    /** A relative get of an n-byte signed value (get, getShort, getInt,
        getLong; getFloat and getDouble read the bit pattern). */
    method Get(n: nat) returns (r: Result<int>)
      requires Valid() && n > 0
      modifies this`position
      ensures Valid()
      ensures var p := ReadSigned(n, old(Remaining()));
        if p.Ok? then r == Ok(p.value.value) && Remaining() == p.value.rest
        else r == Err(BufferUnderflowException) && position == old(position)
    {
      if |content| - position < n {
        return Err(BufferUnderflowException);
      }
      var p := ReadSigned(n, content[position..]);
      r := Ok(p.value.value);
      position := position + n;
    }
  }
}
