// Fixed-width little-endian words, as `to_le_bytes` and `from_le_bytes` lay them out.
module LittleEndian {
  import opened Prelude

  function Pow256(width: nat): (p: nat)
    ensures p > 0
  {
    if width == 0 then 1 else 256 * Pow256(width - 1)
  }

  function ToLE(width: nat, n: nat): (b: bytes)
    ensures |b| == width
  {
    if width == 0 then [] else [n % 256] + ToLE(width - 1, n / 256)
  }

  function FromLE(b: bytes): (n: nat)
    ensures n < Pow256(|b|)
  {
    if b == [] then 0 else b[0] + 256 * FromLE(b[1..])
  }

  lemma {:induction false} FromToLE(width: nat, n: nat)
    requires n < Pow256(width)
    ensures FromLE(ToLE(width, n)) == n
  {
    if width > 0 {
      FromToLE(width - 1, n / 256);
      assert ToLE(width, n)[1..] == ToLE(width - 1, n / 256);
    }
  }

  lemma {:induction false} ToFromLE(b: bytes)
    ensures ToLE(|b|, FromLE(b)) == b
  {
    if b != [] {
      ToFromLE(b[1..]);
      assert FromLE(b) % 256 == b[0] && FromLE(b) / 256 == FromLE(b[1..]);
    }
  }

  // The three widths the formats use.
  lemma WordSizes()
    ensures Pow256(1) == 0x100
    ensures Pow256(2) == 0x1_0000
    ensures Pow256(4) == U32_LIMIT
    ensures Pow256(8) == U64_LIMIT
  {
    assert Pow256(3) == 0x100_0000;
    assert Pow256(5) == 0x100_0000_0000;
    assert Pow256(6) == 0x1_0000_0000_0000;
    assert Pow256(7) == 0x100_0000_0000_0000;
  }
}
