/** Machine integers and the little-endian helpers of buffer_helper.c. */
module Bytes {

  type u8 = x: int | 0 <= x < 0x100
  type u16 = x: int | 0 <= x < 0x1_0000
  type u32 = x: int | 0 <= x < 0x1_0000_0000
  type u64 = x: int | 0 <= x < 0x1_0000_0000_0000_0000

  datatype Option<+T> = None | Some(value: T)

  /** The bytes of a character string. */
  function Ascii(s: string): (r: seq<u8>)
    ensures |r| == |s|
  {
    seq(|s|, i requires 0 <= i < |s| => s[i] as int % 0x100)
  }

  /** The byte of weight 256^i of a number. */
  function Byte0(v: nat): u8 { v % 0x100 }
  function Byte1(v: nat): u8 { v / 0x100 % 0x100 }
  function Byte2(v: nat): u8 { v / 0x1_0000 % 0x100 }
  function Byte3(v: nat): u8 { v / 0x100_0000 % 0x100 }

  function Le16(v: nat): (b: seq<u8>)
    ensures |b| == 2
  {
    [Byte0(v), Byte1(v)]
  }

  function Le32(v: nat): (b: seq<u8>)
    ensures |b| == 4
  {
    [Byte0(v), Byte1(v), Byte2(v), Byte3(v)]
  }

  function Be32(v: nat): (b: seq<u8>)
    ensures |b| == 4
  {
    [Byte3(v), Byte2(v), Byte1(v), Byte0(v)]
  }

  function FromLe16(b: seq<u8>): u16
    requires |b| == 2
  {
    b[0] as int + 0x100 * (b[1] as int)
  }

  function FromLe32(b: seq<u8>): u32
    requires |b| == 4
  {
    b[0] as int + 0x100 * (b[1] as int) + 0x1_0000 * (b[2] as int) + 0x100_0000 * (b[3] as int)
  }

  lemma SplitByte(v: nat, scale: nat)
    requires scale == 0x100 || scale == 0x1_0000 || scale == 0x100_0000
    ensures v == v / scale * scale + v % scale
    ensures v / (scale * 0x100) == v / scale / 0x100
  {
  }

  /** Writing then reading a little-endian word keeps it, up to truncation to the word's width. */
  lemma LeRoundTrip(v: nat)
    ensures FromLe16(Le16(v)) == v % 0x1_0000
    ensures FromLe32(Le32(v)) == v % 0x1_0000_0000
  {
    SplitByte(v, 0x100);
    SplitByte(v, 0x1_0000);
    SplitByte(v, 0x100_0000);
    var a, b, c := v / 0x100, v / 0x1_0000, v / 0x100_0000;
    assert v == 0x100 * a + Byte0(v) && a == 0x100 * b + Byte1(v);
    assert b == 0x100 * c + Byte2(v) && c == 0x100 * (c / 0x100) + Byte3(v);
  }

  /** Reading then writing a little-endian word gives the same bytes back. */
  lemma LeBytesRoundTrip(b: seq<u8>)
    ensures |b| == 2 ==> Le16(FromLe16(b)) == b
    ensures |b| == 4 ==> Le32(FromLe32(b)) == b
  {
    if |b| == 4 {
      var v := FromLe32(b);
      var b1: int, b2: int, b3: int := b[1], b[2], b[3];
      assert v / 0x100 == b1 + 0x100 * b2 + 0x1_0000 * b3;
      assert v / 0x1_0000 == b2 + 0x100 * b3;
      assert v / 0x100_0000 == b3;
    }
  }

  /** `put_u16_le` and `put_u32_le`: the value goes to `out[at..]`, nothing else changes. */
  method PutU16Le(out: array<u8>, at: nat, v: u16) returns (next: nat)
    requires at + 2 <= out.Length
    modifies out
    ensures next == at + 2
    ensures out[..] == old(out[..at]) + Le16(v) + old(out[next..])
  {
    out[at] := v % 0x100;
    out[at + 1] := v / 0x100;
    next := at + 2;
  }

  method PutU32Le(out: array<u8>, at: nat, v: nat) returns (next: nat)
    requires at + 4 <= out.Length
    modifies out
    ensures next == at + 4
    ensures out[..] == old(out[..at]) + Le32(v) + old(out[next..])
  {
    out[at] := v % 0x100;
    out[at + 1] := v / 0x100 % 0x100;
    out[at + 2] := v / 0x1_0000 % 0x100;
    out[at + 3] := v / 0x100_0000 % 0x100;
    next := at + 4;
  }
}
