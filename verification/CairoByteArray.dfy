/** Text as a Cairo `ByteArray`: full 31-byte words, then a pending word and its length. */
module CairoByteArray {
  import opened Prelude
  import opened LittleEndian
  import opened BigEndian

  datatype ByteArray = ByteArray(words: seq<nat>, pendingWord: nat, pendingLen: nat)

  function Pack(b: bytes): ByteArray {
    if |b| <= 31 then ByteArray([], FromBE(b), |b|)
    else
      var rest := Pack(b[31..]);
      ByteArray([FromBE(b[..31])] + rest.words, rest.pendingWord, rest.pendingLen)
  }

  function UnpackWords(words: seq<nat>): bytes {
    if words == [] then [] else ToBE(31, words[0]) + UnpackWords(words[1..])
  }

  function Unpack(a: ByteArray): bytes {
    UnpackWords(a.words) + ToBE(a.pendingLen, a.pendingWord)
  }

  method ToCairoByteArrayFields(b: bytes) returns (a: ByteArray)
    ensures a == Pack(b)
  {
    var words: seq<nat> := [];
    var offset := 0;
    while |b| - offset > 31
      invariant offset <= |b|
      invariant var rest := Pack(b[offset..]);
                Pack(b) == ByteArray(words + rest.words, rest.pendingWord, rest.pendingLen)
    {
      assert b[offset..][..31] == b[offset..offset + 31] && b[offset..][31..] == b[offset + 31..];
      words := words + [FromBE(b[offset..offset + 31])];
      offset := offset + 31;
    }
    var pending := b[offset..];
    assert words + [] == words;
    a := ByteArray(words, FromBE(pending), |pending|);
  }

  /** Packing loses nothing. */
  lemma {:induction false} PackIsLossless(b: bytes)
    ensures Unpack(Pack(b)) == b
  {
    if |b| <= 31 {
      ToFromBE(b);
      assert [] + b == b;
    } else {
      PackIsLossless(b[31..]);
      ToFromBE(b[..31]);
      var rest := Pack(b[31..]);
      assert Pack(b).words[1..] == rest.words;
      assert b == b[..31] + (UnpackWords(rest.words) + ToBE(rest.pendingLen, rest.pendingWord));
    }
  }

  lemma WordLess(n: nat)
    requires n >= 31
    ensures (n - 31) % 31 == n % 31
  {
    assert n - 31 == 31 * (n / 31 - 1) + n % 31;
  }

  /** The loop leaves between 1 and 31 bytes pending for non-empty text, and all 31 exactly at
      the positive multiples of 31; every word fits 31 bytes. */
  lemma {:induction false} PendingLength(b: bytes)
    ensures Pack(b).pendingLen == if b == [] then 0 else (|b| - 1) % 31 + 1
    ensures forall i :: 0 <= i < |Pack(b).words| ==> Pack(b).words[i] < Pow256(31)
    ensures Pack(b).pendingWord < Pow256(Pack(b).pendingLen)
  {
    hide FromBE, Pow256;
    if |b| > 31 {
      PendingLength(b[31..]);
      WordLess(|b| - 1);
    }
  }
}
