/**
 * The Netty ByteBuf the section encoder writes into, seen as an append-only
 * byte sequence whose length is the writer index, and the copy-out that
 * Arrays.copyOf(buffer.array(), buffer.writerIndex()) performs.
 */
module Buffers {
  import opened VarInts

  /** The two bytes of ByteBuf.writeShort: the low 16 bits of v, high byte first. */
  function BigEndianShort(v: int): (r: seq<byte>)
    ensures |r| == 2
    ensures ReadShort(r) == v % 0x1_0000
  {
    [(v % 0x1_0000) / 256, v % 256]
  }

  /** An unsigned big-endian 16-bit field. */
  function ReadShort(s: seq<byte>): (v: nat)
    requires 2 <= |s|
    ensures v < 0x1_0000
  {
    (s[0] as int) * 256 + s[1]
  }

  /** The byte of ByteBuf.writeByte: the low 8 bits of v. */
  function LowByte(v: int): (b: byte)
    ensures (b - v) % 256 == 0
  {
    v % 256
  }

  class ByteBuf {
    /** The bytes before the writer index. */
    var written: seq<byte>

    constructor ()
      ensures written == []
    {
      written := [];
    }

    method WriteShort(v: int)
      modifies this
      ensures written == old(written) + BigEndianShort(v)
    {
      written := written + BigEndianShort(v);
    }

    method WriteByte(v: int)
      modifies this
      ensures written == old(written) + [LowByte(v)]
    {
      written := written + [LowByte(v)];
    }

    /** A fresh array holding the bytes before the writer index. */
    method CopyWritten() returns (a: array<byte>)
      ensures fresh(a)
      ensures a[..] == written
    {
      var s := written;
      a := new byte[|s|](i requires 0 <= i < |s| => s[i]);
    }
  }

  /** ByteBufUtil.writeVarInt: appends the VarInt of a Java int. */
  method WriteVarInt(buffer: ByteBuf, v: int32)
    modifies buffer
    ensures buffer.written == old(buffer.written) + VarInt32(v)
  {
    buffer.written := buffer.written + VarInt32(v);
  }
}
