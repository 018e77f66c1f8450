// Big-endian numbers, and the order of byte arrays.
module BigEndian {
  import opened Prelude
  import opened LittleEndian

  function FromBE(b: bytes): (n: nat)
    ensures n < Pow256(|b|)
  {
    if b == [] then 0 else 256 * FromBE(b[..|b| - 1]) + b[|b| - 1]
  }

  function ToBE(width: nat, n: nat): (b: bytes)
    ensures |b| == width
  {
    if width == 0 then [] else ToBE(width - 1, n / 256) + [n % 256]
  }

  lemma {:induction false} FromToBE(width: nat, n: nat)
    requires n < Pow256(width)
    ensures FromBE(ToBE(width, n)) == n
  {
    if width > 0 {
      FromToBE(width - 1, n / 256);
      assert ToBE(width, n)[..width - 1] == ToBE(width - 1, n / 256);
    }
  }

  lemma {:induction false} ToFromBE(b: bytes)
    ensures ToBE(|b|, FromBE(b)) == b
  {
    if b != [] {
      var front := b[..|b| - 1];
      ToFromBE(front);
      assert FromBE(b) / 256 == FromBE(front) && FromBE(b) % 256 == b[|b| - 1];
      assert b == front + [b[|b| - 1]];
    }
  }

  // How Rust compares arrays: by the first byte that differs.
  predicate LexLess(a: bytes, b: bytes)
    requires |a| == |b|
  {
    a != [] && (a[0] < b[0] || (a[0] == b[0] && LexLess(a[1..], b[1..])))
  }

  lemma {:induction false} LexLessFromTheBack(a: bytes, b: bytes)
    requires |a| == |b| > 0
    ensures var n := |a| - 1;
            LexLess(a, b) <==> LexLess(a[..n], b[..n]) || (a[..n] == b[..n] && a[n] < b[n])
  {
    var n := |a| - 1;
    if n > 0 {
      LexLessFromTheBack(a[1..], b[1..]);
      assert a[1..][..n - 1] == a[..n][1..] && b[1..][..n - 1] == b[..n][1..];
      assert a[..n] == [a[0]] + a[..n][1..] && b[..n] == [b[0]] + b[..n][1..];
    }
  }

  /** Lexicographic order of equally long arrays is numeric order. */
  lemma {:induction false} LexicographicIsNumeric(a: bytes, b: bytes)
    requires |a| == |b|
    ensures LexLess(a, b) <==> FromBE(a) < FromBE(b)
    ensures a == b <==> FromBE(a) == FromBE(b)
  {
    if a != [] {
      var n := |a| - 1;
      LexLessFromTheBack(a, b);
      LexicographicIsNumeric(a[..n], b[..n]);
      assert a == a[..n] + [a[n]] && b == b[..n] + [b[n]];
    }
  }
}
