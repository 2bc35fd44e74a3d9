// Byte strings and little-endian numbers.
module Bytes {

  type byte = b: int | 0 <= b < 256
  type Bytes = seq<byte>

  function Power256(n: nat): (p: nat)
    ensures p > 0
  {
    if n == 0 then 1 else 256 * Power256(n - 1)
  }

  // The number a byte string spells, least significant byte first.
  function FromLE(bytes: Bytes): nat {
    if bytes == [] then 0 else bytes[0] + 256 * FromLE(bytes[1..])
  }

  // The n least significant bytes of x.
  function ToLE(x: nat, n: nat): (bytes: Bytes)
    ensures |bytes| == n
  {
    if n == 0 then [] else [x % 256] + ToLE(x / 256, n - 1)
  }

  lemma {:induction false} LEBelow(bytes: Bytes)
    ensures FromLE(bytes) < Power256(|bytes|)
  {
    if bytes != [] {
      LEBelow(bytes[1..]);
    }
  }

  lemma {:induction false} LERoundTrip(x: nat, n: nat)
    requires x < Power256(n)
    ensures FromLE(ToLE(x, n)) == x
  {
    if n > 0 {
      LERoundTrip(x / 256, n - 1);
      assert ToLE(x, n)[1..] == ToLE(x / 256, n - 1);
    }
  }

  lemma {:induction false} LEInverse(bytes: Bytes)
    ensures ToLE(FromLE(bytes), |bytes|) == bytes
  {
    if bytes != [] {
      LEInverse(bytes[1..]);
      assert FromLE(bytes) % 256 == bytes[0] && FromLE(bytes) / 256 == FromLE(bytes[1..]);
    }
  }

  lemma Powers256()
    ensures Power256(1) == 0x100 && Power256(2) == 0x1_0000 && Power256(4) == 0x1_0000_0000
    ensures Power256(8) == 0x1_0000_0000_0000_0000
    ensures Power256(16) == 0x1_0000_0000_0000_0000_0000_0000_0000_0000
  {
  }
}
