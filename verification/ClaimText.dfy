/** The texts around a claim and its digests, in literal characters: the canonical page of 25
    strings, a hexadecimal number, and the preimage of a tagged hash. */
module ClaimText {
  import opened Prelude
  import opened JsText
  import opened Utf8Encoding
  import opened CanonicalJson
  import opened JsTaggedHash
  import opened CosignerPolicy
  import opened CosignerGate
  import opened ClaimDigest
  import opened JsBinding

  // The list is these strings.
  ghost predicate Holds(items: JsonList, s: seq<text>) {
    match items
    case Nil => s == []
    case Cons(head, tail) => s != [] && head == Str(s[0]) && Holds(tail, s[1..])
  }

  // Each string on a line of its own, indented by two spaces and followed by a comma, except the
  // last, behind which the bracket closes on a new line.
  function Page(s: seq<text>): text
    requires s != []
  {
    [0x20, 0x20] + (Quote(s[0]) + if |s| == 1 then [0x0A, 0x5D, 0x0A] else [0x2C, 0x0A] + Page(s[1..]))
  }

  lemma {:induction false} LinesOf(items: JsonList) returns (s: seq<text>)
    requires ClaimLines(items).Some?
    ensures Holds(items, s) && |s| == |ClaimLines(items).value|
  {
    if items.Nil? {
      s := [];
    } else {
      var rest := LinesOf(items.tail);
      s := [items.head.s] + rest;
      assert s[1..] == rest;
    }
  }

  lemma Separators()
    ensures T("  ") == [0x20, 0x20] && T(",\n") == [0x2C, 0x0A] && CLOSING == [0x0A, 0x5D, 0x0A]
  {
  }

  lemma LineOf(items: JsonList)
    requires items.Cons? && ClaimLines(items).Some?
    ensures Lines(items) == [0x20, 0x20] + (Quote(items.head.s) +
              if items.tail.Nil? then [0x0A, 0x5D, 0x0A] else [0x2C, 0x0A] + Lines(items.tail))
  {
    hide Quote, PutString, T, Lines;
    FirstLine(items);
    QuoteAppends(items.head.s, Behind(items));
    Separators();
  }

  lemma {:induction false} HeldLines(items: JsonList, s: seq<text>)
    requires Holds(items, s)
    ensures ClaimLines(items).Some? && |ClaimLines(items).value| == |s|
    ensures s != [] ==> Lines(items) == Page(s)
  {
    hide Quote, T, Lines;
    if items.Cons? {
      HeldLines(items.tail, s[1..]);
      LineOf(items);
    }
  }

  lemma PageIsText(claim: Json, s: seq<text>)
    requires claim.Arr? && |s| == 25 && Holds(claim.items, s)
    ensures CanonicalCairoJson(claim) == Some([0x5B, 0x0A] + Page(s))
  {
    HeldLines(claim.items, s);
    assert T("[\n") == [0x5B, 0x0A];
    hide Holds, Page, ClaimLines, JoinLines, T;
    var joined := JoinLines(ClaimLines(claim.items).value);
    assert T("[\n") + joined + CLOSING == T("[\n") + (joined + CLOSING);
  }

  /** The canonical text exists exactly for an array of 25 strings, and is their page. */
  lemma ClaimTextIsPage(claim: Json)
    ensures CanonicalCairoJson(claim).Some? <==> claim.Arr? && exists s :: |s| == 25 && Holds(claim.items, s)
    ensures forall s :: claim.Arr? && |s| == 25 && Holds(claim.items, s) ==>
              CanonicalCairoJson(claim) == Some([0x5B, 0x0A] + Page(s))
  {
    if CanonicalCairoJson(claim).Some? {
      var s := LinesOf(claim.items);
    }
    forall s | claim.Arr? && |s| == 25 && Holds(claim.items, s)
      ensures CanonicalCairoJson(claim) == Some([0x5B, 0x0A] + Page(s))
    {
      PageIsText(claim, s);
    }
  }

  /** Hexadecimal, read by position. */

  function DigitValue(u: u16): int {
    if '0' as int <= u <= '9' as int then u - '0' as int
    else if 'a' as int <= u <= 'f' as int then u - 'a' as int + 10
    else -1
  }

  function HexValue(t: text): int {
    if t == [] then 0 else 16 * HexValue(t[..|t| - 1]) + DigitValue(t[|t| - 1])
  }

  lemma {:induction false} DigitsReadBack(n: nat)
    ensures var t := HexDigits(n);
            && HexValue(t) == n && t != [] && (forall i :: 0 <= i < |t| ==> DigitValue(t[i]) >= 0)
            && (t[0] == '0' as int ==> n == 0 && |t| == 1)
    decreases n
  {
    if n >= 16 {
      DigitsReadBack(n / 16);
      var t := HexDigits(n);
      assert t[..|t| - 1] == HexDigits(n / 16);
    } else {
      assert HexDigits(n)[..0] == [];
    }
  }

  /** The hexadecimal form of a number is `0x` and its lowercase digits without leading zeros;
      reading the digits gives back the number. */
  lemma CairoHexReadsBack(n: nat)
    ensures var t := CairoHex(n);
            && |t| >= 3 && t[..2] == ['0' as int, 'x' as int] && HexValue(t[2..]) == n
            && (forall i :: 2 <= i < |t| ==> DigitValue(t[i]) >= 0)
            && (t[2] == '0' as int ==> n == 0 && |t| == 3)
  {
    hide HexDigits, HexValue;
    DigitsReadBack(n);
    assert CairoHex(n)[2..] == HexDigits(n);
  }

  // A number parser as the probes rely on it.
  function ReadHex(t: text): int {
    if |t| >= 2 then HexValue(t[2..]) else 0
  }

  // The probes' premise about their number parser can be met.
  lemma SomeParserReadsHex()
    ensures ReadsHex(ReadHex)
  {
    hide CairoHex, HexValue;
    forall n: nat {:trigger CairoHex(n)} ensures ReadHex(CairoHex(n)) == n {
      CairoHexReadsBack(n);
    }
  }

  /** Tagged hashing. */

  lemma {:induction false} AsciiIsUtf8(t: text)
    requires forall i :: 0 <= i < |t| ==> t[i] < 0x80
    ensures Utf8(t) == t
  {
    if t != [] {
      AsciiIsUtf8(t[1..]);
      assert t == [t[0]] + t[1..];
    }
  }

  /** What is hashed under an ASCII tag: the tag's characters, a zero byte, and the canonical text
      in UTF-8. */
  lemma TaggedHashOfText(sha: Sha256Hex, tag: string, v: Json)
    requires forall i :: 0 <= i < |tag| ==> 0 < tag[i] as int < 128
    ensures TaggedHash(sha, T(tag), v)
         == sha(seq(|tag|, i requires 0 <= i < |tag| => tag[i] as int) + [0] + Utf8(Stringify(v)))
  {
    var codes: text := seq(|tag|, i requires 0 <= i < |tag| => tag[i] as int);
    assert T(tag) == codes;
    AsciiIsUtf8(codes + [0]);
    hide Utf8, Stringify, T;
  }
}
