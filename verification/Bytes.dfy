/** Fixed-width integers, little-endian words and buffers shared by the drivers. */
module Bytes {
  type byte = b: int | 0 <= b < 0x100
  type u8 = b: int | 0 <= b < 0x100
  type u16 = n: int | 0 <= n < 0x1_0000
  type u32 = n: int | 0 <= n < 0x1_0000_0000

  function Le16(n: u16): (b: seq<byte>)
    ensures |b| == 2
  {
    [n % 0x100, n / 0x100]
  }

  function FromLe16(b: seq<byte>): u16
    requires |b| == 2
  {
    b[0] as int + 0x100 * (b[1] as int)
  }

  function Le32(n: u32): (b: seq<byte>)
    ensures |b| == 4
  {
    [n % 0x100, n / 0x100 % 0x100, n / 0x1_0000 % 0x100, n / 0x100_0000]
  }

  function FromLe32(b: seq<byte>): u32
    requires |b| == 4
  {
    b[0] as int + 0x100 * (b[1] as int) + 0x1_0000 * (b[2] as int) + 0x100_0000 * (b[3] as int)
  }

  lemma Le16RoundTrip(n: u16)
    ensures FromLe16(Le16(n)) == n
  {
  }

  lemma Le32RoundTrip(n: u32)
    ensures FromLe32(Le32(n)) == n
  {
    var q1 := n / 0x100;
    var q2 := q1 / 0x100;
    assert q1 % 0x100 + 0x100 * q2 == q1;
    assert q2 == n / 0x1_0000;
    assert q2 / 0x100 == n / 0x100_0000;
  }

  /** The least significant byte comes first. */
  lemma Le32Layout(n: u32)
    ensures var b := Le32(n);
      n == b[0] as int + 0x100 * (b[1] as int) + 0x1_0000 * (b[2] as int) + 0x100_0000 * (b[3] as int)
  {
    Le32RoundTrip(n);
  }

  lemma FromLe32RoundTrip(b: seq<byte>)
    requires |b| == 4
    ensures Le32(FromLe32(b)) == b
  {
    var n := FromLe32(b);
    assert n / 0x100 == b[1] as int + 0x100 * (b[2] as int) + 0x1_0000 * (b[3] as int);
    assert n / 0x1_0000 == b[2] as int + 0x100 * (b[3] as int);
    assert n / 0x100_0000 == b[3] as int;
  }

  /** `data` after `bytes` are written at its start; what does not fit is cut off. */
  function Overwrite(data: seq<byte>, bytes: seq<byte>): (r: seq<byte>)
    ensures |r| == |data|
    ensures forall k :: 0 <= k < |data| ==> r[k] == if k < |bytes| then bytes[k] else data[k]
  {
    if |bytes| <= |data| then bytes + data[|bytes|..] else bytes[..|data|]
  }
}
