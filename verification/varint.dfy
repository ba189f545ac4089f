/**
 * The VarInt of the Minecraft Java Edition protocol: 7 data bits per byte,
 * least significant group first, the high bit of every byte but the last set
 * as a continuation flag (unsigned LEB128).  The writer used by the plugin
 * (ByteBufUtil.writeVarInt) encodes the 32 bits of a Java int, so a negative
 * int is written as its unsigned 32-bit reading.
 */
module VarInts {
  import opened Options

  /** One octet of a Java byte[], read as unsigned. */
  type byte = x: int | 0 <= x < 256

  /** A Java int. */
  type int32 = x: int | -0x8000_0000 <= x < 0x8000_0000

  const TwoTo32: nat := 0x1_0000_0000

  /** The value that a logical shift (>>>) sees in the 32 bits of v. */
  function Unsigned32(v: int32): (u: nat)
    ensures u < TwoTo32
    ensures (u - v) % TwoTo32 == 0
    ensures 0 <= v ==> u == v
  {
    if v < 0 then v + TwoTo32 else v
  }

  /** 128 to the power k. */
  function Pow128(k: nat): (p: nat)
    ensures 1 <= p
  {
    if k == 0 then 1 else 128 * Pow128(k - 1)
  }

  /** The VarInt bytes of a non-negative value. */
  function VarInt(n: nat): (r: seq<byte>)
    ensures 1 <= |r|
    decreases n
  {
    if n < 128 then [n] else [n % 128 + 128] + VarInt(n / 128)
  }

  /** What ByteBufUtil.writeVarInt writes for a Java int. */
  function VarInt32(v: int32): (r: seq<byte>)
    ensures 1 <= |r| <= 5
    ensures 0 <= v < 128 <==> |r| == 1
  {
    VarIntLengthBound(Unsigned32(v), 1);
    VarIntLengthBound(Unsigned32(v), 5);
    Pow128Five();
    VarInt(Unsigned32(v))
  }

  /** A decoded VarInt: its value and how many bytes it took. */
  datatype VarIntRead = VarIntRead(value: nat, length: nat)

  /**
   * Reads one VarInt from the front of s: it ends at the first byte whose
   * continuation bit is clear, and there is none when every byte has it set.
   */
  function ReadVarInt(s: seq<byte>): (r: Option<VarIntRead>)
    ensures r.Some? ==> 1 <= r.value.length <= |s|
    decreases |s|
  {
    if |s| == 0 then None
    else if s[0] < 128 then Some(VarIntRead(s[0], 1))
    else
      match ReadVarInt(s[1..])
      case None => None
      case Some(tail) => Some(VarIntRead(s[0] - 128 + 128 * tail.value, tail.length + 1))
  }

  /**
   * The reader stops at the first byte whose continuation bit is clear, and
   * fails exactly when there is no such byte.
   */
  lemma {:induction false} ReadVarIntStops(s: seq<byte>)
    ensures ReadVarInt(s).None? <==> forall i :: 0 <= i < |s| ==> 128 <= s[i]
    ensures ReadVarInt(s).Some? ==> s[ReadVarInt(s).value.length - 1] < 128
    ensures ReadVarInt(s).Some? ==> forall i :: 0 <= i < ReadVarInt(s).value.length - 1 ==> 128 <= s[i]
    decreases |s|
  {
    if |s| > 0 && 128 <= s[0] {
      ReadVarIntStops(s[1..]);
      assert forall i :: 1 <= i < |s| ==> s[i] == s[1..][i - 1];
    }
  }

  /** Every byte of a VarInt but the last carries the continuation bit. */
  lemma {:induction false} VarIntContinuation(n: nat)
    ensures VarInt(n)[|VarInt(n)| - 1] < 128
    ensures forall i :: 0 <= i < |VarInt(n)| - 1 ==> 128 <= VarInt(n)[i]
    decreases n
  {
    if 128 <= n {
      VarIntContinuation(n / 128);
    }
  }

  lemma Pow128Five()
    ensures Pow128(5) == 0x8_0000_0000
  {
    assert Pow128(1) == 128;
    assert Pow128(2) == 0x4000;
    assert Pow128(3) == 0x20_0000;
    assert Pow128(4) == 0x1000_0000;
  }

  /** A VarInt fits in k bytes exactly when the value is below 128^k. */
  lemma {:induction false} VarIntLengthBound(n: nat, k: nat)
    requires 1 <= k
    ensures |VarInt(n)| <= k <==> n < Pow128(k)
    decreases k
  {
    if k == 1 {
      assert Pow128(1) == 128;
    } else if n < 128 {
      Pow128Grows(k);
    } else {
      VarIntLengthBound(n / 128, k - 1);
      assert |VarInt(n)| == 1 + |VarInt(n / 128)|;
    }
  }

  lemma {:induction false} Pow128Grows(k: nat)
    requires 1 <= k
    ensures 128 <= Pow128(k)
  {
    if k > 1 {
      Pow128Grows(k - 1);
    }
  }

  /** Decoding the VarInt of n, whatever follows it, gives back n and the VarInt's length. */
  lemma {:induction false} ReadVarIntOfVarInt(n: nat, rest: seq<byte>)
    ensures ReadVarInt(VarInt(n) + rest) == Some(VarIntRead(n, |VarInt(n)|))
    decreases n
  {
    if n >= 128 {
      ReadVarIntOfVarInt(n / 128, rest);
      assert (VarInt(n) + rest)[1..] == VarInt(n / 128) + rest;
    }
  }

  /**
   * The converse: bytes the reader accepts, when they do not end in a
   * redundant zero group, are exactly the VarInt of the value read.
   */
  lemma {:induction false} VarIntOfReadVarInt(s: seq<byte>)
    requires ReadVarInt(s).Some?
    requires ReadVarInt(s).value.length == 1 || s[ReadVarInt(s).value.length - 1] != 0
    ensures s[..ReadVarInt(s).value.length] == VarInt(ReadVarInt(s).value.value)
    decreases |s|
  {
    var r := ReadVarInt(s).value;
    ReadVarIntStops(s);
    if 128 <= s[0] {
      var tail := ReadVarInt(s[1..]).value;
      assert s[1..][tail.length - 1] == s[r.length - 1];
      VarIntOfReadVarInt(s[1..]);
      if tail.length == 1 {
        assert tail.value == s[1] != 0;
      } else {
        VarIntLengthBound(tail.value, 1);
      }
      assert r.value >= 128;
      assert r.value % 128 + 128 == s[0];
      assert r.value / 128 == tail.value;
      assert s[..r.length] == [s[0]] + s[1..][..tail.length];
    }
  }
}
