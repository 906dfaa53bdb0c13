/** Go's `uint32` arithmetic as the session uses it: the wrapping increment of
    the sequence counter, the wrapping subtraction in the frame reader, and the
    big-endian reading of a 4-byte length prefix. */
module Uint32 {

  const TWO_TO_32: int := 0x1_0000_0000

  newtype uint32 = x: int | 0 <= x < 0x1_0000_0000

  type byte = x: int | 0 <= x < 256

  /** `x + 1` on a 32-bit unsigned integer: arithmetic modulo 2^32. */
  function Inc(x: uint32): (r: uint32)
    ensures x as int < TWO_TO_32 - 1 ==> r as int == x as int + 1
    ensures x as int == TWO_TO_32 - 1 ==> r == 0
  {
    ((x as int + 1) % TWO_TO_32) as uint32
  }

  /** `a - b` on 32-bit unsigned integers: arithmetic modulo 2^32. */
  function Sub(a: uint32, b: uint32): (r: uint32)
    ensures a >= b ==> r == a - b
    ensures a < b ==> r as int == a as int - b as int + TWO_TO_32
  {
    ((a as int - b as int) % TWO_TO_32) as uint32
  }

  /** The counter value after `k` increments starting from `start`. */
  function Issued(start: uint32, k: nat): uint32
  {
    if k == 0 then start else Inc(Issued(start, k - 1))
  }

  lemma ModUnique(a: int, q: int, r: int)
    requires 0 <= r < TWO_TO_32 && a == q * TWO_TO_32 + r
    ensures a % TWO_TO_32 == r && a / TWO_TO_32 == q
  {
  }

  lemma {:induction false} IssuedClosedForm(start: uint32, k: nat)
    ensures Issued(start, k) as int == (start as int + k) % TWO_TO_32
  {
    if k > 0 {
      IssuedClosedForm(start, k - 1);
      var a := start as int + k - 1;
      var q, r := a / TWO_TO_32, a % TWO_TO_32;
      ModUnique(a, q, r);
      if r + 1 < TWO_TO_32 {
        ModUnique(a + 1, q, r + 1);
      } else {
        ModUnique(a + 1, q + 1, 0);
      }
    }
  }

  /** Any 2^32 consecutive allocations are pairwise distinct, and the number
      issued `j - i` allocations after another is that one plus `j - i`
      modulo 2^32. */
  lemma {:induction false} IssuedDistinct(start: uint32, i: nat, j: nat)
    requires i < j < i + TWO_TO_32
    ensures Issued(start, i) != Issued(start, j)
    ensures Issued(start, j) as int == (Issued(start, i) as int + (j - i)) % TWO_TO_32
  {
    IssuedClosedForm(start, i);
    IssuedClosedForm(start, j);
    var a, b := start as int + i, start as int + j;
    var qa, qb := a / TWO_TO_32, b / TWO_TO_32;
    ModUnique(a, qa, a % TWO_TO_32);
    ModUnique(b, qb, b % TWO_TO_32);
    var x := a % TWO_TO_32 + (j - i);
    ModUnique(x, x / TWO_TO_32, x % TWO_TO_32);
    ModUnique(b, qa + x / TWO_TO_32, x % TWO_TO_32);
  }

  /** A 4-byte buffer read as a big-endian unsigned 32-bit integer. */
  function UnpackUint32(b: seq<byte>): uint32
    requires |b| == 4
  {
    (b[0] as int * 0x100_0000 + b[1] as int * 0x1_0000 + b[2] as int * 0x100 + b[3] as int) as uint32
  }

  /** The big-endian 4-byte encoding of `n`. */
  function PackUint32(n: uint32): (b: seq<byte>)
    ensures |b| == 4
  {
    var x := n as int;
    [x / 0x100_0000, (x / 0x1_0000) % 0x100, (x / 0x100) % 0x100, x % 0x100]
  }

  lemma UnpackPack(n: uint32)
    ensures UnpackUint32(PackUint32(n)) == n
  {
    var x := n as int;
    assert x == (x / 0x100) * 0x100 + x % 0x100;
    assert x / 0x100 == (x / 0x1_0000) * 0x100 + (x / 0x100) % 0x100;
    assert x / 0x1_0000 == (x / 0x100_0000) * 0x100 + (x / 0x1_0000) % 0x100;
  }

  lemma PackUnpack(b: seq<byte>)
    requires |b| == 4
    ensures PackUint32(UnpackUint32(b)) == b
  {
    var x := UnpackUint32(b) as int;
    assert x / 0x100 == b[0] as int * 0x1_0000 + b[1] as int * 0x100 + b[2] as int;
    assert x / 0x1_0000 == b[0] as int * 0x100 + b[1] as int;
    assert x / 0x100_0000 == b[0] as int;
  }
}
