/** UTF-8 as `Buffer.from(text, 'utf8')` computes it, injective on well-formed text. */
module Utf8Encoding {
  import opened Prelude
  import opened JsText

  // No surrogate without its partner.
  predicate WellFormed(t: text) {
    t == []
    || (StartsWithPair(t) && WellFormed(t[2..]))
    || (!IsHigh(t[0]) && !IsLow(t[0]) && WellFormed(t[1..]))
  }

  type scalar = x: int | 0 <= x < 0x11_0000

  function PutScalar(c: scalar, tail: bytes): bytes {
    if c < 0x80 then [c] + tail
    else if c < 0x800 then [0xc0 + c / 0x40, 0x80 + c % 0x40] + tail
    else if c < 0x1_0000 then [0xe0 + c / 0x1000, 0x80 + c / 0x40 % 0x40, 0x80 + c % 0x40] + tail
    else [0xf0 + c / 0x4_0000, 0x80 + c / 0x1000 % 0x40, 0x80 + c / 0x40 % 0x40, 0x80 + c % 0x40] + tail
  }

  function PairScalar(high: u16, low: u16): scalar
    requires IsHigh(high) && IsLow(low)
  {
    0x1_0000 + (high - 0xd800) * 0x400 + (low - 0xdc00)
  }

  // A lone surrogate becomes U+FFFD.
  function Utf8(t: text): bytes {
    if t == [] then []
    else if StartsWithPair(t) then PutScalar(PairScalar(t[0], t[1]), Utf8(t[2..]))
    else PutScalar(if IsHigh(t[0]) || IsLow(t[0]) then 0xfffd else t[0], Utf8(t[1..]))
  }

  lemma Sextets(c: scalar)
    ensures c == 0x4_0000 * (c / 0x4_0000) + 0x1000 * (c / 0x1000 % 0x40) + 0x40 * (c / 0x40 % 0x40) + c % 0x40
    ensures c < 0x4_0000 ==> c / 0x1000 % 0x40 == c / 0x1000
  {
    assert c / 0x40 / 0x40 == c / 0x1000 && c / 0x1000 / 0x40 == c / 0x4_0000;
  }

  lemma ScalarIsPrefixCode(c: scalar, x: bytes, d: scalar, y: bytes)
    requires PutScalar(c, x) == PutScalar(d, y)
    ensures c == d && x == y
  {
    var p, q := PutScalar(c, x), PutScalar(d, y);
    assert p[0] == q[0];
    if c < 0x80 {
      assert x == p[1..] && y == q[1..];
    } else if c < 0x800 {
      assert p[1] == q[1];
      assert x == p[2..] && y == q[2..];
    } else if c < 0x1_0000 {
      assert p[1] == q[1] && p[2] == q[2];
      assert x == p[3..] && y == q[3..];
      Sextets(c);
      Sextets(d);
    } else {
      assert p[1] == q[1] && p[2] == q[2] && p[3] == q[3];
      assert x == p[4..] && y == q[4..];
      Sextets(c);
      Sextets(d);
    }
  }

  lemma NonEmpty(t: text)
    ensures t != [] ==> Utf8(t) != []
  {
  }

  lemma {:induction false} Utf8Injective(s: text, t: text)
    requires WellFormed(s) && WellFormed(t) && Utf8(s) == Utf8(t)
    ensures s == t
  {
    hide PutScalar;
    if s == [] || t == [] {
      NonEmpty(s);
      NonEmpty(t);
    } else {
      var sn, tn := if StartsWithPair(s) then 2 else 1, if StartsWithPair(t) then 2 else 1;
      var sc := if sn == 2 then PairScalar(s[0], s[1]) else s[0];
      var tc := if tn == 2 then PairScalar(t[0], t[1]) else t[0];
      ScalarIsPrefixCode(sc, Utf8(s[sn..]), tc, Utf8(t[tn..]));
      Utf8Injective(s[sn..], t[tn..]);
      assert s == s[..sn] + s[sn..] && t == t[..tn] + t[tn..];
      assert sn == tn && s[..sn] == t[..tn];
    }
  }

  /** Decoding, by section 3 of RFC 3629. */

  // The payload of a continuation byte.
  function Continuation(b: u8): Option<nat> {
    if 0x80 <= b < 0xc0 then Some(b - 0x80) else None
  }

  // The first code point, in its one encoding, and the bytes behind it.
  function ReadScalar(b: bytes): Option<(scalar, bytes)> {
    if b == [] then None
    else if b[0] <= 0x7f then Some((b[0], b[1..]))
    else if 0xc2 <= b[0] <= 0xdf && |b| >= 2 && Continuation(b[1]).Some? then
      var c: int := (b[0] - 0xc0) * 64 + Continuation(b[1]).value;
      if 0x80 <= c < 0x800 then Some((c, b[2..])) else None
    else if 0xe0 <= b[0] <= 0xef && |b| >= 3 && Continuation(b[1]).Some? && Continuation(b[2]).Some? then
      var c: int := (b[0] - 0xe0) * 4096 + Continuation(b[1]).value * 64 + Continuation(b[2]).value;
      if 0x800 <= c < 0x1_0000 then Some((c, b[3..])) else None
    else if && 0xf0 <= b[0] <= 0xf4 && |b| >= 4
            && Continuation(b[1]).Some? && Continuation(b[2]).Some? && Continuation(b[3]).Some? then
      var c: int := (b[0] - 0xf0) * 262_144 + Continuation(b[1]).value * 4096 + Continuation(b[2]).value * 64
                    + Continuation(b[3]).value;
      if 0x1_0000 <= c < 0x11_0000 then Some((c, b[4..])) else None
    else None
  }

  lemma ReadsScalar(c: scalar, tail: bytes)
    ensures ReadScalar(PutScalar(c, tail)) == Some((c, tail))
  {
    Sextets(c);
    var b := PutScalar(c, tail);
    if c < 0x80 {
      assert b[1..] == tail;
    } else if c < 0x800 {
      assert b[2..] == tail;
    } else if c < 0x1_0000 {
      assert b[3..] == tail;
    } else {
      assert b[4..] == tail;
    }
  }

  // A code point in UTF-16, by section 2.1 of RFC 2781.
  function Utf16(c: scalar): text {
    if c < 0x1_0000 then [c] else [0xd800 + (c - 0x1_0000) / 1024, 0xdc00 + (c - 0x1_0000) % 1024]
  }

  lemma PairIsUtf16(high: u16, low: u16)
    requires IsHigh(high) && IsLow(low)
    ensures Utf16(PairScalar(high, low)) == [high, low]
  {
  }

  function FromUtf8(b: bytes): Option<text>
    decreases |b|
  {
    if b == [] then Some([])
    else
      match ReadScalar(b)
      case None => None
      case Some(read) =>
        var rest := FromUtf8(read.1);
        if rest.None? then None else Some(Utf16(read.0) + rest.value)
  }

  lemma UnitIsUtf16(u: u16)
    ensures Utf16(u) == [u]
  {
  }

  /** The bytes of well-formed text decode to the text. */
  lemma {:induction false} Utf8Decodes(t: text)
    requires WellFormed(t)
    ensures FromUtf8(Utf8(t)) == Some(t)
  {
    hide PutScalar, ReadScalar, Utf16, PairScalar;
    if t != [] {
      NonEmpty(t);
      var n := if StartsWithPair(t) then 2 else 1;
      var c: scalar := if n == 2 then PairScalar(t[0], t[1]) else t[0];
      ReadsScalar(c, Utf8(t[n..]));
      Utf8Decodes(t[n..]);
      if n == 2 {
        PairIsUtf16(t[0], t[1]);
      } else {
        UnitIsUtf16(t[0]);
      }
      assert t == t[..n] + t[n..] && t[..n] == Utf16(c);
    }
  }

  // Prepending whole characters keeps text well formed.
  lemma WellFormedUnit(u: u16, tail: text)
    requires WellFormed(tail) && !IsHigh(u) && !IsLow(u)
    ensures WellFormed([u] + tail)
  {
    assert ([u] + tail)[1..] == tail;
  }

  lemma {:induction false} WellFormedConcat(s: text, t: text)
    requires WellFormed(s) && WellFormed(t)
    ensures WellFormed(s + t)
  {
    if s == [] {
      assert s + t == t;
    } else if StartsWithPair(s) {
      WellFormedConcat(s[2..], t);
      assert (s + t)[2..] == s[2..] + t;
    } else {
      WellFormedConcat(s[1..], t);
      assert (s + t)[1..] == s[1..] + t;
    }
  }
}
