/** Little-endian integers, as `to_le_bytes` and `from_le_bytes` read and write them. */
module Bytes {
  import opened Arith

  type byte = x: int | 0 <= x < 256

  function Pow256(width: nat): (p: nat)
    ensures p > 0
  {
    if width == 0 then 1 else 256 * Pow256(width - 1)
  }

  function ToLe(n: nat, width: nat): (s: seq<byte>)
    ensures |s| == width
  {
    if width == 0 then [] else [n % 256] + ToLe(n / 256, width - 1)
  }

  function FromLe(s: seq<byte>): nat {
    if s == [] then 0 else s[0] + 256 * FromLe(s[1..])
  }

  lemma {:induction false} LeRoundTrip(n: nat, width: nat)
    requires n < Pow256(width)
    ensures FromLe(ToLe(n, width)) == n
  {
    if width > 0 {
      var s := ToLe(n, width);
      assert s[1..] == ToLe(n / 256, width - 1);
      LeRoundTrip(n / 256, width - 1);
    }
  }

  lemma DivideTwice(n: nat, a: nat)
    requires a > 0
    ensures (n / 256) / a == n / (256 * a)
  {
    var q, r := n / 256, n % 256;
    var p, t := q / a, q % a;
    assert q == p * a + t;
    assert n == p * (256 * a) + (256 * t + r) by {
      assert 256 * q == 256 * (p * a) + 256 * t;
      assert 256 * (p * a) == p * (256 * a);
    }
    assert 256 * t + r < 256 * a;
    OnlyQuotient(n, 256 * a, p, 256 * t + r);
  }

  /** The byte at i counts the 256-to-the-i's: least significant first. */
  lemma {:induction false} LittleEndian(n: nat, width: nat, i: nat)
    requires i < width
    ensures ToLe(n, width)[i] == (n / Pow256(i)) % 256
  {
    if i > 0 {
      LittleEndian(n / 256, width - 1, i - 1);
      DivideTwice(n, Pow256(i - 1));
    }
  }

  const U32 := 0x1_0000_0000

  lemma U32IsFourBytes()
    ensures Pow256(4) == U32
  {
    assert Pow256(1) == 256;
    assert Pow256(2) == 256 * Pow256(1);
    assert Pow256(3) == 256 * Pow256(2);
  }
}
