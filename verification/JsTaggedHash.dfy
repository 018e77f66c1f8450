/** `taggedHash`: SHA-256 over a NUL-terminated tag and canonical JSON, both in UTF-8. */
module JsTaggedHash {
  import opened Prelude
  import opened JsText
  import opened Utf8Encoding
  import opened CanonicalJson

  predicate IsHexText(t: text, length: nat) {
    |t| == length && forall i :: 0 <= i < |t| ==> IsLowerHexDigit(t[i])
  }

  type hexDigest = t: text | IsHexText(t, 64) witness seq(64, _ => 0x30)

  type Sha256Hex = bytes -> hexDigest

  function TaggedPreimage(tag: text, value: Json): bytes {
    Utf8(tag + [0]) + Utf8(Stringify(value))
  }

  function TaggedHash(sha: Sha256Hex, tag: text, value: Json): hexDigest {
    sha(TaggedPreimage(tag, value))
  }

  predicate NulFree(t: text) {
    forall i :: 0 <= i < |t| ==> t[i] != 0
  }

  lemma ScalarAppends(c: scalar, x: bytes, y: bytes)
    ensures PutScalar(c, x) + y == PutScalar(c, x + y)
  {
  }

  lemma {:induction false} Utf8Concat(a: text, b: text)
    requires WellFormed(a)
    ensures Utf8(a + b) == Utf8(a) + Utf8(b)
  {
    hide PutScalar;
    if a == [] {
      assert a + b == b;
    } else if StartsWithPair(a) {
      Utf8Concat(a[2..], b);
      ScalarAppends(PairScalar(a[0], a[1]), Utf8(a[2..]), Utf8(b));
      assert (a + b)[2..] == a[2..] + b;
    } else {
      Utf8Concat(a[1..], b);
      ScalarAppends(a[0], Utf8(a[1..]), Utf8(b));
      assert (a + b)[1..] == a[1..] + b;
    }
  }

  lemma FirstNul(tag: text, s: text, tag': text, t: text)
    requires NulFree(tag) && NulFree(tag')
    requires tag + [0] + s == tag' + [0] + t
    ensures tag == tag' && s == t
  {
    var p, q := tag + [0] + s, tag' + [0] + t;
    assert p[|tag|] == 0 && q[|tag'|] == 0;
    assert forall i :: 0 <= i < |tag| ==> p[i] == tag[i];
    assert forall i :: 0 <= i < |tag'| ==> q[i] == tag'[i];
    assert tag == p[..|tag|] && tag' == q[..|tag'|];
    assert s == p[|tag| + 1..] && t == q[|tag'| + 1..];
  }

  /** A preimage determines the tag and, up to key order, the value: differently tagged
      domains never share one. */
  lemma PreimageIdentifies(tag: text, v: Json, tag': text, w: Json)
    requires NulFree(tag) && NulFree(tag') && WellFormed(tag) && WellFormed(tag')
    requires DistinctKeys(v) && DistinctKeys(w)
    ensures TaggedPreimage(tag, v) == TaggedPreimage(tag', w) <==> tag == tag' && Same(v, w)
  {
    hide Stringify, Same, DistinctKeys, Utf8, WellFormed;
    CanonicalTextIdentifies(v, w);
    if TaggedPreimage(tag, v) == TaggedPreimage(tag', w) {
      var a, b := tag + [0], tag' + [0];
      var s, t := Stringify(v), Stringify(w);
      StringifyWellFormed(v);
      StringifyWellFormed(w);
      assert WellFormed([0]) by { PlainWellFormed([0]); }
      WellFormedConcat(tag, [0]);
      WellFormedConcat(tag', [0]);
      WellFormedConcat(a, s);
      WellFormedConcat(b, t);
      Utf8Concat(a, s);
      Utf8Concat(b, t);
      Utf8Injective(a + s, b + t);
      FirstNul(tag, s, tag', t);
    }
  }

  // Equal tagged hashes: same tag and same value, or a collision.
  lemma TaggedHashBinds(sha: Sha256Hex, tag: text, v: Json, tag': text, w: Json)
    requires NulFree(tag) && NulFree(tag') && WellFormed(tag) && WellFormed(tag')
    requires DistinctKeys(v) && DistinctKeys(w)
    requires TaggedHash(sha, tag, v) == TaggedHash(sha, tag', w)
    ensures || (tag == tag' && Same(v, w))
            || Collision(sha, TaggedPreimage(tag, v), TaggedPreimage(tag', w))
  {
    hide TaggedPreimage;
    PreimageIdentifies(tag, v, tag', w);
  }

  lemma Literals(s: string)
    ensures NulFree(T(s)) && WellFormed(T(s))
  {
    PlainWellFormed(T(s));
  }
}
