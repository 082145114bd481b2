/** The part of the Borsh binary format that the two Postly records use:
    a `u32` is four bytes, least significant first, and a `String` is its
    byte length as a `u32` followed by its UTF-8 bytes. Also the behaviour of
    writing an encoding into a fixed-size byte slice (`&mut [u8]` as a writer). */
module Borsh {
  import opened Wrappers

  type Byte = b: int | 0 <= b < 0x100

  type U32 = n: int | 0 <= n < 0x1_0000_0000

  const MAX_U32: U32 := 0xFFFF_FFFF

  /** The errors the borsh crate and the slice writer report as `std::io::Error`. */
  datatype IoError =
    | UnexpectedLengthOfInput   // the input ends before the value does
    | NotAllBytesRead           // whole-slice decoding left bytes over
    | InvalidUtf8               // the bytes of a String are not UTF-8
    | LengthOverflow            // a String longer than u32::MAX bytes cannot be encoded
    | WriteZero                 // the slice written into is too short

  /** The number denoted by a little-endian byte string. */
  function LeValue(b: seq<Byte>): nat
  {
    if b == [] then 0 else b[0] + 0x100 * LeValue(b[1..])
  }

  /** `u32::to_le_bytes`. */
  function EncodeU32(n: U32): (r: seq<Byte>)
    ensures |r| == 4 && LeValue(r) == n
  {
    var q1 := n / 0x100;
    var q2 := q1 / 0x100;
    var q3 := q2 / 0x100;
    assert q3 < 0x100;
    var r := [n % 0x100, q1 % 0x100, q2 % 0x100, q3];
    assert LeValue(r[3..]) == q3;
    assert LeValue(r[2..]) == q2 by { assert r[2..][1..] == r[3..]; }
    assert LeValue(r[1..]) == q1 by { assert r[1..][1..] == r[2..]; }
    r
  }

  /** Splitting off the low byte of `low + 0x100 * high`. */
  lemma SplitLowByte(low: Byte, high: nat)
    ensures (low + 0x100 * high) % 0x100 == low && (low + 0x100 * high) / 0x100 == high
  {
  }

  /** `u32::from_le_bytes`: every four bytes denote exactly one `u32`, the one
      that encodes back to them. */
  function DecodeU32(b: seq<Byte>): (n: U32)
    requires |b| == 4
    ensures EncodeU32(n) == b
  {
    var w2: nat := b[2] as int + 0x100 * b[3] as int;
    var w1: nat := b[1] as int + 0x100 * w2;
    var v: nat := b[0] as int + 0x100 * w1;
    SplitLowByte(b[0], w1);
    SplitLowByte(b[1], w2);
    SplitLowByte(b[2], b[3]);
    assert b[1..][1..] == b[2..] && b[2..][1..] == b[3..] && b[3..][1..] == [];
    assert LeValue(b[3..]) == b[3];
    assert LeValue(b[2..]) == w2;
    assert LeValue(b[1..]) == w1;
    assert EncodeU32(v) == [b[0], b[1], b[2], b[3]];
    v
  }

  /** `u32::deserialize` on a cursor: take four bytes off the front. */
  function ReadU32(buf: seq<Byte>): (r: Result<(U32, seq<Byte>), IoError>)
    ensures r.Ok? <==> |buf| >= 4
    ensures r.Ok? ==> buf == EncodeU32(r.value.0) + r.value.1
    ensures r.Err? ==> r.error == UnexpectedLengthOfInput
  {
    if |buf| < 4 then Err(UnexpectedLengthOfInput)
    else Ok((DecodeU32(buf[..4]), buf[4..]))
  }

  /** The contents of a fixed-size slice after `write_all(bytes)`, and whether
      the whole of `bytes` fitted. */
  datatype Written = Written(buf: seq<Byte>, ok: bool)

  /** `write_all` on a `&mut [u8]`: each write copies as many bytes as still fit,
      and once the slice is full the call fails with WriteZero, leaving the bytes
      already copied in place. */
  function WriteAll(buf: seq<Byte>, bytes: seq<Byte>): (w: Written)
    ensures |w.buf| == |buf|
    ensures w.ok <==> |bytes| <= |buf|
    ensures forall i :: 0 <= i < |buf| ==> w.buf[i] == if i < |bytes| then bytes[i] else buf[i]
  {
    var n := if |bytes| <= |buf| then |bytes| else |buf|;
    Written(bytes[..n] + buf[n..], |bytes| <= |buf|)
  }

  /** Writing an encoding into a slice of exactly its length leaves the encoding. */
  lemma WriteAllExact(buf: seq<Byte>, bytes: seq<Byte>)
    requires |buf| == |bytes|
    ensures WriteAll(buf, bytes) == Written(bytes, true)
  {
    assert WriteAll(buf, bytes).buf == bytes;
  }
}
