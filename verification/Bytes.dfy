/** Bytes, big-endian integers, and the integer conversions of 64-bit Go. */
module Bytes {

  type byte = b: int | 0 <= b < 256

  const TWO63: int := 0x8000_0000_0000_0000
  const TWO64: int := 0x1_0000_0000_0000_0000
  const TWO32: int := 0x1_0000_0000

  type uint16 = n: int | 0 <= n < 0x1_0000
  type uint32 = n: int | 0 <= n < 0x1_0000_0000
  type uint64 = n: int | 0 <= n < 0x1_0000_0000_0000_0000

  /** Go's int on a 64-bit machine. */
  type int64 = n: int | -0x8000_0000_0000_0000 <= n < 0x8000_0000_0000_0000

  /** The value of an int expression whose mathematical value is n. */
  function Wrap64(n: int): (r: int)
    ensures -TWO63 <= r < TWO63
    ensures -TWO63 <= n < TWO63 ==> r == n
  {
    var m := n % TWO64;
    if m < TWO63 then m else m - TWO64
  }

  function ToUint32(n: int): (r: uint32)
    ensures 0 <= n < TWO32 ==> r == n
  {
    n % TWO32
  }

  function Put16(n: uint16): (s: seq<byte>)
    ensures |s| == 2
  {
    [n / 256, n % 256]
  }

  function Get16(s: seq<byte>): uint16
    requires |s| >= 2
  {
    var hi: int := s[0];
    hi * 256 + s[1]
  }

  function Put32(n: uint32): (s: seq<byte>)
    ensures |s| == 4
  {
    Put16(n / 0x1_0000) + Put16(n % 0x1_0000)
  }

  function Get32(s: seq<byte>): uint32
    requires |s| >= 4
  {
    Get16(s) * 0x1_0000 + Get16(s[2..])
  }

  function Put64(n: uint64): (s: seq<byte>)
    ensures |s| == 8
  {
    Put32(n / TWO32) + Put32(n % TWO32)
  }

  function Get64(s: seq<byte>): uint64
    requires |s| >= 8
  {
    Get32(s) * TWO32 + Get32(s[4..])
  }

  /** Network byte order: the most significant byte first. */
  lemma Get32Means(s: seq<byte>)
    requires |s| >= 4
    ensures Get16(s) == 256 * (s[0] as int) + s[1]
    ensures Get32(s) == 16777216 * (s[0] as int) + 65536 * (s[1] as int) + 256 * (s[2] as int) + s[3]
  {
  }

  lemma Get64Means(s: seq<byte>)
    requires |s| >= 8
    ensures Get64(s) == 4294967296 * (16777216 * (s[0] as int) + 65536 * (s[1] as int) + 256 * (s[2] as int) + s[3])
                        + 16777216 * (s[4] as int) + 65536 * (s[5] as int) + 256 * (s[6] as int) + s[7]
  {
    Get32Means(s);
    Get32Means(s[4..]);
  }

  /** A 64-bit int keeps the low 64 bits, read as a signed number. */
  lemma Wrap64Means(n: int)
    ensures exists k: int :: Wrap64(n) == n - k * 18446744073709551616
    ensures -9223372036854775808 <= Wrap64(n) < 9223372036854775808
  {
    var k := n / TWO64 + if n % TWO64 < TWO63 then 0 else 1;
    assert Wrap64(n) == n - k * 18446744073709551616;
  }

  lemma Get16Put(n: uint16, tail: seq<byte>)
    ensures Get16(Put16(n) + tail) == n
  {
  }

  lemma Put16Get(s: seq<byte>)
    requires |s| >= 2
    ensures Put16(Get16(s)) == s[..2]
  {
  }

  lemma Get32Put(n: uint32, tail: seq<byte>)
    ensures Get32(Put32(n) + tail) == n
  {
    var hi, lo := n / 0x1_0000, n % 0x1_0000;
    assert Put32(n) + tail == Put16(hi) + (Put16(lo) + tail);
    Get16Put(hi, Put16(lo) + tail);
    assert (Put32(n) + tail)[2..] == Put16(lo) + tail;
    Get16Put(lo, tail);
  }

  lemma Put32Get(s: seq<byte>)
    requires |s| >= 4
    ensures Put32(Get32(s)) == s[..4]
  {
    Put16Get(s);
    Put16Get(s[2..]);
    assert s[..4] == s[..2] + s[2..][..2];
  }

  lemma Get64Put(n: uint64, tail: seq<byte>)
    ensures Get64(Put64(n) + tail) == n
  {
    var hi, lo := n / TWO32, n % TWO32;
    assert Put64(n) + tail == Put32(hi) + (Put32(lo) + tail);
    Get32Put(hi, Put32(lo) + tail);
    assert (Put64(n) + tail)[4..] == Put32(lo) + tail;
    Get32Put(lo, tail);
  }

  lemma Halves(hi: uint32, lo: uint32)
    ensures (hi * TWO32 + lo) / TWO32 == hi && (hi * TWO32 + lo) % TWO32 == lo
  {
  }

  lemma Put64Get(s: seq<byte>)
    requires |s| >= 8
    ensures Put64(Get64(s)) == s[..8]
  {
    Put32Get(s);
    Put32Get(s[4..]);
    assert s[..8] == s[..4] + s[4..][..4];
    hide Put32, Get32;
    Halves(Get32(s), Get32(s[4..]));
  }
}
