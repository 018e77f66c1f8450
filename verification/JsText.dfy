/** JavaScript strings as sequences of UTF-16 code units, and what `JSON.stringify` writes for
    strings and integers (section 7 of RFC 8259 for the quoting). */
module JsText {
  import opened Prelude

  type text = seq<u16>

  // The code units of an ASCII literal.  NUL and whatever is not ASCII, which no literal
  // here holds, would become a question mark.
  function AsciiUnit(c: char): (u: u16)
    ensures 0 < u < 0x80
  {
    if 0 < c as int < 0x80 then c as int else 0x3f
  }

  function T(s: string): (t: text)
    ensures |t| == |s|
    ensures forall i :: 0 <= i < |s| ==> t[i] == AsciiUnit(s[i])
  {
    seq(|s|, i requires 0 <= i < |s| => AsciiUnit(s[i]))
  }

  const QUOTE: u16 := 0x22
  const BACKSLASH: u16 := 0x5c
  const COMMA: u16 := 0x2c
  const COLON: u16 := 0x3a
  const MINUS: u16 := 0x2d
  const OPEN_BRACKET: u16 := 0x5b
  const CLOSE_BRACKET: u16 := 0x5d
  const OPEN_BRACE: u16 := 0x7b
  const CLOSE_BRACE: u16 := 0x7d

  predicate IsHigh(u: u16) {
    0xd800 <= u < 0xdc00
  }

  predicate IsLow(u: u16) {
    0xdc00 <= u < 0xe000
  }

  function HexDigit(n: nat): u16
    requires n < 16
  {
    if n < 10 then 0x30 + n else 0x57 + n
  }

  function PutHex(u: u16, tail: text): text {
    [BACKSLASH, 0x75, HexDigit(u / 0x1000), HexDigit(u / 0x100 % 16), HexDigit(u / 16 % 16), HexDigit(u % 16)] + tail
  }

  // The letter of a two-character escape, if the unit has one.
  function ShortEscape(u: u16): Option<u16> {
    match u
    case 0x08 => Some(0x62)
    case 0x09 => Some(0x74)
    case 0x0a => Some(0x6e)
    case 0x0c => Some(0x66)
    case 0x0d => Some(0x72)
    case 0x22 => Some(QUOTE)
    case 0x5c => Some(BACKSLASH)
    case _ => None
  }

  // One code unit that is not part of a surrogate pair.
  function PutUnit(u: u16, tail: text): text {
    if ShortEscape(u).Some? then [BACKSLASH, ShortEscape(u).value] + tail
    else if u < 0x20 || IsHigh(u) || IsLow(u) then PutHex(u, tail)
    else [u] + tail
  }

  predicate StartsWithPair(s: text) {
    |s| >= 2 && IsHigh(s[0]) && IsLow(s[1])
  }

  function PutBody(s: text, tail: text): text {
    if s == [] then [QUOTE] + tail
    else if StartsWithPair(s) then [s[0], s[1]] + PutBody(s[2..], tail)
    else PutUnit(s[0], PutBody(s[1..], tail))
  }

  // The quoted string in front of `tail`.
  function PutString(s: text, tail: text): text {
    [QUOTE] + PutBody(s, tail)
  }

  lemma Nibbles(u: u16)
    ensures u == 0x1000 * (u / 0x1000) + 0x100 * (u / 0x100 % 16) + 16 * (u / 16 % 16) + u % 16
  {
    assert u / 0x100 / 16 == u / 0x1000 && u / 16 / 16 == u / 0x100;
  }

  lemma FourDigits(u: u16, x: text, v: u16, y: text)
    requires PutHex(u, x) == PutHex(v, y)
    ensures u == v
  {
    var p, q := PutHex(u, x), PutHex(v, y);
    assert p[2] == q[2] && p[3] == q[3] && p[4] == q[4] && p[5] == q[5];
    hide PutHex;
    assert u / 0x1000 == v / 0x1000 && u / 0x100 % 16 == v / 0x100 % 16;
    assert u / 16 % 16 == v / 16 % 16 && u % 16 == v % 16;
    Nibbles(u);
    Nibbles(v);
  }

  lemma UnitIsPrefixCode(u: u16, x: text, v: u16, y: text)
    requires PutUnit(u, x) == PutUnit(v, y)
    ensures u == v && x == y
  {
    var p := PutUnit(u, x);
    if p[0] == BACKSLASH {
      if p[1] == 0x75 {
        assert x == p[6..] && y == p[6..];
        assert forall k :: 2 <= k < 6 ==> p[k] == PutHex(u, x)[k] == PutHex(v, y)[k];
        FourDigits(u, x, v, y);
      } else {
        assert x == p[2..] && y == p[2..];
      }
    } else {
      assert x == p[1..] && y == p[1..];
    }
  }

  /** A quoted string ends where it ends, whatever follows. */
  lemma {:induction false} BodyIsPrefixCode(s: text, x: text, t: text, y: text)
    requires PutBody(s, x) == PutBody(t, y)
    ensures s == t && x == y
  {
    var p := PutBody(s, x);
    if s == [] || t == [] {
      assert p[0] == QUOTE;
      assert s == [] && t == [];
      assert x == p[1..] && y == p[1..];
    } else if StartsWithPair(s) {
      assert p[0] == s[0];
      assert StartsWithPair(t);
      assert PutBody(s[2..], x) == p[2..] == PutBody(t[2..], y);
      BodyIsPrefixCode(s[2..], x, t[2..], y);
      assert s == [s[0], s[1]] + s[2..] && t == [t[0], t[1]] + t[2..];
    } else {
      assert !StartsWithPair(t);
      UnitIsPrefixCode(s[0], PutBody(s[1..], x), t[0], PutBody(t[1..], y));
      BodyIsPrefixCode(s[1..], x, t[1..], y);
      assert s == [s[0]] + s[1..] && t == [t[0]] + t[1..];
    }
  }

  lemma StringIsPrefixCode(s: text, x: text, t: text, y: text)
    requires PutString(s, x) == PutString(t, y)
    ensures s == t && x == y
  {
    assert PutString(s, x)[1..] == PutBody(s, x) && PutString(t, y)[1..] == PutBody(t, y);
    BodyIsPrefixCode(s, x, t, y);
  }

  /** Integers. */

  function PutDigits(n: nat, tail: text): text {
    if n < 10 then [0x30 + n] + tail else PutDigits(n / 10, [0x30 + n % 10] + tail)
  }

  function PutNumber(n: int, tail: text): text {
    if n < 0 then [MINUS] + PutDigits(-n, tail) else PutDigits(n, tail)
  }

  predicate IsDigit(u: u16) {
    0x30 <= u <= 0x39
  }

  predicate NoDigitFirst(t: text) {
    t == [] || !IsDigit(t[0])
  }

  // Reads the leading digits, most significant first, after `seen`.
  function ReadDigits(t: text, seen: nat): (nat, text) {
    if NoDigitFirst(t) then (seen, t) else ReadDigits(t[1..], 10 * seen + (t[0] - 0x30))
  }

  lemma {:induction false} ReadPut(n: nat, tail: text)
    ensures ReadDigits(PutDigits(n, tail), 0) == ReadDigits(tail, n)
    decreases n
  {
    if n < 10 {
      assert PutDigits(n, tail)[1..] == tail;
    } else {
      var next := [0x30 + n % 10] + tail;
      ReadPut(n / 10, next);
      assert next[1..] == tail;
    }
  }

  lemma {:induction false} DigitsLead(n: nat, tail: text)
    ensures PutDigits(n, tail) != [] && IsDigit(PutDigits(n, tail)[0])
    decreases n
  {
    if n >= 10 {
      DigitsLead(n / 10, [0x30 + n % 10] + tail);
    }
  }

  lemma NumberIsPrefixCode(n: int, x: text, m: int, y: text)
    requires NoDigitFirst(x) && NoDigitFirst(y)
    requires PutNumber(n, x) == PutNumber(m, y)
    ensures n == m && x == y
  {
    var a: nat, b: nat := if n < 0 then -n else n, if m < 0 then -m else m;
    DigitsLead(a, x);
    DigitsLead(b, y);
    ReadPut(a, x);
    ReadPut(b, y);
    assert n < 0 ==> PutNumber(n, x)[1..] == PutDigits(a, x);
    assert m < 0 ==> PutNumber(m, y)[1..] == PutDigits(b, y);
  }
}
