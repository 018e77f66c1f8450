/** Canonical JSON: `canonicalStringify` on JSON values whose numbers are safe integers.

    Objects keep the insertion order of their keys.  `Stringify` follows the source: it
    sorts the keys of every object and joins.  The theorem is that two values have one
    text exactly when they are the same up to insertion order. */
module CanonicalJson {
  import opened Prelude
  import opened JsText
  import opened Utf8Encoding

  datatype Assoc<T> = Empty | Entry(key: text, value: T, tail: Assoc<T>)

  type safeInt = n: int | -0x1f_ffff_ffff_ffff <= n <= 0x1f_ffff_ffff_ffff

  datatype Json =
    | Null
    | Bool(b: bool)
    | Num(n: safeInt)
    | Str(s: text)
    | Arr(items: JsonList)
    | Obj(fields: Assoc<Json>)

  datatype JsonList = Nil | Cons(head: Json, tail: JsonList)

  /** Association lists. */

  predicate Has<T>(a: Assoc<T>, key: text) {
    a.Entry? && (a.key == key || Has(a.tail, key))
  }

  function Get<T>(a: Assoc<T>, key: text): T
    requires Has(a, key)
  {
    if a.key == key then a.value else Get(a.tail, key)
  }

  function Size<T>(a: Assoc<T>): nat {
    if a.Empty? then 0 else 1 + Size(a.tail)
  }

  predicate Distinct<T>(a: Assoc<T>) {
    a.Entry? ==> !Has(a.tail, a.key) && Distinct(a.tail)
  }

  // The order of `Array.prototype.sort` on strings: by UTF-16 code unit.
  predicate Less(a: text, b: text) {
    if a == [] || b == [] then a == [] && b != []
    else a[0] < b[0] || (a[0] == b[0] && Less(a[1..], b[1..]))
  }

  function Insert<T>(key: text, value: T, a: Assoc<T>): Assoc<T> {
    if a.Empty? || Less(key, a.key) then Entry(key, value, a)
    else Entry(a.key, a.value, Insert(key, value, a.tail))
  }

  function SortKeys<T>(a: Assoc<T>): Assoc<T> {
    if a.Empty? then Empty else Insert(a.key, a.value, SortKeys(a.tail))
  }

  /** What the source computes. */

  function Quote(s: text): text {
    PutString(s, [])
  }

  function JoinCommas(pieces: seq<text>): text {
    if pieces == [] then []
    else if |pieces| == 1 then pieces[0]
    else pieces[0] + [COMMA] + JoinCommas(pieces[1..])
  }

  function Members(a: Assoc<text>): seq<text> {
    if a.Empty? then [] else [Quote(a.key) + [COLON] + a.value] + Members(a.tail)
  }

  function Stringify(v: Json): text {
    match v
    case Null => T("null")
    case Bool(b) => if b then T("true") else T("false")
    case Num(n) => PutNumber(n, [])
    case Str(s) => Quote(s)
    case Arr(items) => [OPEN_BRACKET] + JoinCommas(StringifyItems(items)) + [CLOSE_BRACKET]
    case Obj(fields) => [OPEN_BRACE] + JoinCommas(Members(SortKeys(StringifyValues(fields)))) + [CLOSE_BRACE]
  }

  function StringifyItems(items: JsonList): seq<text> {
    match items
    case Nil => []
    case Cons(head, tail) => [Stringify(head)] + StringifyItems(tail)
  }

  function StringifyValues(fields: Assoc<Json>): Assoc<text> {
    match fields
    case Empty => Empty
    case Entry(key, value, tail) => Entry(key, Stringify(value), StringifyValues(tail))
  }

  /** What it means: equality up to the insertion order of keys. */

  // What JavaScript guarantees of every object.
  predicate DistinctKeys(v: Json) {
    match v
    case Arr(items) => DistinctInItems(items)
    case Obj(fields) => Distinct(fields) && DistinctInValues(fields)
    case _ => true
  }

  predicate DistinctInItems(items: JsonList) {
    items.Cons? ==> DistinctKeys(items.head) && DistinctInItems(items.tail)
  }

  predicate DistinctInValues(fields: Assoc<Json>) {
    fields.Entry? ==> DistinctKeys(fields.value) && DistinctInValues(fields.tail)
  }

  predicate Same(v: Json, w: Json) {
    match v
    case Arr(items) => w.Arr? && SameItems(items, w.items)
    case Obj(fields) => w.Obj? && Size(fields) == Size(w.fields) && SameFields(fields, w.fields)
    case _ => v == w
  }

  predicate SameItems(a: JsonList, b: JsonList) {
    match a
    case Nil => b.Nil?
    case Cons(head, tail) => b.Cons? && Same(head, b.head) && SameItems(tail, b.tail)
  }

  predicate SameFields(a: Assoc<Json>, b: Assoc<Json>) {
    a.Entry? ==> Has(b, a.key) && Same(a.value, Get(b, a.key)) && SameFields(a.tail, b)
  }

  /** Text without sorting is unambiguous. */

  function Render(v: Json, tail: text): text {
    match v
    case Null => T("null") + tail
    case Bool(b) => if b then T("true") + tail else T("false") + tail
    case Num(n) => PutNumber(n, tail)
    case Str(s) => PutString(s, tail)
    case Arr(items) => [OPEN_BRACKET] + RenderItems(items, [CLOSE_BRACKET] + tail)
    case Obj(fields) => [OPEN_BRACE] + RenderFields(fields, [CLOSE_BRACE] + tail)
  }

  function RenderItems(items: JsonList, tail: text): text {
    match items
    case Nil => tail
    case Cons(head, Nil) => Render(head, tail)
    case Cons(head, rest) => Render(head, [COMMA] + RenderItems(rest, tail))
  }

  function RenderFields(fields: Assoc<Json>, tail: text): text {
    match fields
    case Empty => tail
    case Entry(key, value, Empty) => PutString(key, [COLON] + Render(value, tail))
    case Entry(key, value, rest) => PutString(key, [COLON] + Render(value, [COMMA] + RenderFields(rest, tail)))
  }

  // The units a value's text can start with.
  function Lead(v: Json): u16 {
    match v
    case Null => 0x6e
    case Bool(b) => if b then 0x74 else 0x66
    case Num(n) => MINUS
    case Str(s) => QUOTE
    case Arr(items) => OPEN_BRACKET
    case Obj(fields) => OPEN_BRACE
  }

  lemma RenderLead(v: Json, tail: text)
    ensures Render(v, tail) != []
    ensures if v.Num? then Render(v, tail)[0] == MINUS || IsDigit(Render(v, tail)[0])
            else Render(v, tail)[0] == Lead(v)
  {
    if v.Num? {
      DigitsLead(if v.n < 0 then -v.n else v.n, tail);
    }
  }

  lemma FieldsLead(fields: Assoc<Json>, tail: text)
    ensures fields.Entry? ==> RenderFields(fields, tail) != [] && RenderFields(fields, tail)[0] == QUOTE
  {
  }

  predicate Stops(t: text) {
    t != [] && (t[0] == COMMA || t[0] == CLOSE_BRACKET || t[0] == CLOSE_BRACE)
  }

  lemma {:induction false} RenderInjective(v: Json, x: text, w: Json, y: text)
    requires (x == [] || Stops(x)) && (y == [] || Stops(y))
    requires Render(v, x) == Render(w, y)
    ensures v == w && x == y
    decreases v
  {
    RenderLead(v, x);
    RenderLead(w, y);
    match v {
      case Null => assert x == Render(v, x)[4..] && y == Render(w, y)[4..];
      case Bool(b) =>
        var n := if b then 4 else 5;
        assert x == Render(v, x)[n..] && y == Render(w, y)[n..];
      case Num(n) => NumberIsPrefixCode(n, x, w.n, y);
      case Str(s) => StringIsPrefixCode(s, x, w.s, y);
      case Arr(items) =>
        assert RenderItems(items, [CLOSE_BRACKET] + x) == Render(v, x)[1..];
        assert RenderItems(w.items, [CLOSE_BRACKET] + y) == Render(w, y)[1..];
        ItemsInjective(items, x, w.items, y);
      case Obj(fields) =>
        assert RenderFields(fields, [CLOSE_BRACE] + x) == Render(v, x)[1..];
        assert RenderFields(w.fields, [CLOSE_BRACE] + y) == Render(w, y)[1..];
        FieldsInjective(fields, x, w.fields, y);
    }
  }

  lemma {:induction false} ItemsInjective(a: JsonList, x: text, b: JsonList, y: text)
    requires RenderItems(a, [CLOSE_BRACKET] + x) == RenderItems(b, [CLOSE_BRACKET] + y)
    ensures a == b && x == y
    decreases a
  {
    var p, q := [CLOSE_BRACKET] + x, [CLOSE_BRACKET] + y;
    if a.Nil? || b.Nil? {
      if a.Cons? { RenderLead(a.head, if a.tail.Nil? then p else [COMMA] + RenderItems(a.tail, p)); }
      if b.Cons? { RenderLead(b.head, if b.tail.Nil? then q else [COMMA] + RenderItems(b.tail, q)); }
      assert a.Nil? && b.Nil?;
      assert x == p[1..] && y == q[1..];
    } else {
      var restA := if a.tail.Nil? then p else [COMMA] + RenderItems(a.tail, p);
      var restB := if b.tail.Nil? then q else [COMMA] + RenderItems(b.tail, q);
      RenderInjective(a.head, restA, b.head, restB);
      assert restA[0] == restB[0];
      if a.tail.Nil? {
        assert x == p[1..] && y == q[1..];
      } else {
        assert RenderItems(a.tail, p) == restA[1..] && RenderItems(b.tail, q) == restB[1..];
        ItemsInjective(a.tail, x, b.tail, y);
      }
    }
  }

  lemma {:induction false} FieldsInjective(a: Assoc<Json>, x: text, b: Assoc<Json>, y: text)
    requires RenderFields(a, [CLOSE_BRACE] + x) == RenderFields(b, [CLOSE_BRACE] + y)
    ensures a == b && x == y
    decreases a
  {
    var p, q := [CLOSE_BRACE] + x, [CLOSE_BRACE] + y;
    if a.Empty? || b.Empty? {
      FieldsLead(a, p);
      FieldsLead(b, q);
      assert x == p[1..] && y == q[1..];
    } else {
      var restA := if a.tail.Empty? then p else [COMMA] + RenderFields(a.tail, p);
      var restB := if b.tail.Empty? then q else [COMMA] + RenderFields(b.tail, q);
      StringIsPrefixCode(a.key, [COLON] + Render(a.value, restA), b.key, [COLON] + Render(b.value, restB));
      assert Render(a.value, restA) == ([COLON] + Render(a.value, restA))[1..];
      assert Render(b.value, restB) == ([COLON] + Render(b.value, restB))[1..];
      RenderInjective(a.value, restA, b.value, restB);
      assert restA[0] == restB[0];
      if a.tail.Empty? {
        assert x == p[1..] && y == q[1..];
      } else {
        assert RenderFields(a.tail, p) == restA[1..] && RenderFields(b.tail, q) == restB[1..];
        FieldsInjective(a.tail, x, b.tail, y);
      }
    }
  }

  /** Sorting keys. */

  lemma {:induction false} LessIsTotal(a: text, b: text)
    ensures Less(a, b) || Less(b, a) || a == b
    ensures !(Less(a, b) && Less(b, a)) && (a == b ==> !Less(a, b))
  {
    if a != [] && b != [] {
      LessIsTotal(a[1..], b[1..]);
      assert a == [a[0]] + a[1..] && b == [b[0]] + b[1..];
    }
  }

  lemma {:induction false} LessIsTransitive(a: text, b: text, c: text)
    requires Less(a, b) && Less(b, c)
    ensures Less(a, c)
  {
    if a != [] && a[0] == b[0] == c[0] {
      LessIsTransitive(a[1..], b[1..], c[1..]);
    }
  }

  ghost predicate Before<T>(key: text, a: Assoc<T>) {
    forall k :: Has(a, k) ==> Less(key, k)
  }

  ghost predicate Ascending<T>(a: Assoc<T>) {
    a.Entry? ==> Before(a.key, a.tail) && Ascending(a.tail)
  }

  // One lists the same members as the other.
  ghost predicate SameMap<T(!new)>(a: Assoc<T>, b: Assoc<T>) {
    && Size(a) == Size(b)
    && (forall k :: Has(a, k) <==> Has(b, k))
    && (forall k :: Has(a, k) && Has(b, k) ==> Get(a, k) == Get(b, k))
  }

  lemma {:induction false} InsertAscends<T(!new)>(key: text, value: T, a: Assoc<T>)
    requires Ascending(a) && !Has(a, key)
    ensures Ascending(Insert(key, value, a))
    ensures Size(Insert(key, value, a)) == Size(a) + 1
    ensures forall k :: Has(Insert(key, value, a), k) <==> k == key || Has(a, k)
    ensures forall k :: Has(Insert(key, value, a), k) ==>
              Get(Insert(key, value, a), k) == if k == key then value else Get(a, k)
  {
    if a.Entry? {
      LessIsTotal(key, a.key);
      if Less(key, a.key) {
        forall k | Has(a, k) ensures Less(key, k) {
          if k != a.key { LessIsTransitive(key, a.key, k); }
        }
      } else {
        InsertAscends(key, value, a.tail);
      }
    }
  }

  lemma {:induction false} SortAscends<T(!new)>(a: Assoc<T>)
    requires Distinct(a)
    ensures Ascending(SortKeys(a)) && SameMap(SortKeys(a), a)
  {
    if a.Entry? {
      SortAscends(a.tail);
      InsertAscends(a.key, a.value, SortKeys(a.tail));
    }
  }

  lemma {:induction false} AscendingIsUnique<T(!new)>(a: Assoc<T>, b: Assoc<T>)
    requires Ascending(a) && Ascending(b) && SameMap(a, b)
    ensures a == b
  {
    if a.Entry? && b.Entry? {
      LessIsTotal(a.key, b.key);
      assert Has(a, a.key) && Has(b, b.key);
      assert a.key == b.key;
      assert Get(a, a.key) == Get(b, a.key);
      LessIsTotal(a.key, a.key);
      assert !Has(a.tail, a.key) && !Has(b.tail, a.key);
      assert forall k :: Has(a.tail, k) <==> Has(a, k) && k != a.key;
      assert forall k :: Has(b.tail, k) <==> Has(b, k) && k != a.key;
      AscendingIsUnique(a.tail, b.tail);
    }
  }

  // Sorting forgets insertion order and nothing else.
  lemma SortedEqualIffSameMap<T(!new)>(a: Assoc<T>, b: Assoc<T>)
    requires Distinct(a) && Distinct(b)
    ensures SortKeys(a) == SortKeys(b) <==> SameMap(a, b)
  {
    SortAscends(a);
    SortAscends(b);
    if SameMap(a, b) {
      AscendingIsUnique(SortKeys(a), SortKeys(b));
    }
  }

  /** The canonical value: every object's keys in order. */

  function Canon(v: Json): Json {
    match v
    case Arr(items) => Arr(CanonItems(items))
    case Obj(fields) => Obj(SortKeys(CanonValues(fields)))
    case _ => v
  }

  function CanonItems(items: JsonList): JsonList {
    match items
    case Nil => Nil
    case Cons(head, tail) => Cons(Canon(head), CanonItems(tail))
  }

  function CanonValues(fields: Assoc<Json>): Assoc<Json> {
    match fields
    case Empty => Empty
    case Entry(key, value, tail) => Entry(key, Canon(value), CanonValues(tail))
  }

  lemma {:induction false} CanonValuesMap(fields: Assoc<Json>)
    ensures Size(CanonValues(fields)) == Size(fields)
    ensures Distinct(CanonValues(fields)) <==> Distinct(fields)
    ensures forall k :: Has(CanonValues(fields), k) <==> Has(fields, k)
    ensures forall k :: Has(fields, k) ==> Get(CanonValues(fields), k) == Canon(Get(fields, k))
  {
    if fields.Entry? {
      CanonValuesMap(fields.tail);
    }
  }

  // Every key of `a` is in `b`, with the same canonical value.
  ghost predicate CanonAgree(a: Assoc<Json>, b: Assoc<Json>) {
    forall k :: Has(a, k) ==> Has(b, k) && Canon(Get(a, k)) == Canon(Get(b, k))
  }

  ghost function KeySet<T>(a: Assoc<T>): set<text> {
    if a.Empty? then {} else {a.key} + KeySet(a.tail)
  }

  lemma {:induction false} KeySetSize<T>(a: Assoc<T>)
    ensures forall k :: k in KeySet(a) <==> Has(a, k)
    ensures Distinct(a) ==> |KeySet(a)| == Size(a)
  {
    if a.Entry? {
      KeySetSize(a.tail);
    }
  }

  lemma {:induction false} SubsetSize(a: set<text>, b: set<text>)
    requires a <= b
    ensures |a| <= |b|
  {
    if x :| x in a {
      SubsetSize(a - {x}, b - {x});
    }
  }

  lemma SubsetOfSameSize(a: Assoc<Json>, b: Assoc<Json>)
    requires Distinct(a) && Distinct(b) && Size(a) == Size(b)
    requires forall k :: Has(a, k) ==> Has(b, k)
    ensures forall k :: Has(b, k) ==> Has(a, k)
  {
    KeySetSize(a);
    KeySetSize(b);
    if k :| Has(b, k) && !Has(a, k) {
      assert KeySet(a) <= KeySet(b) - {k};
      SubsetSize(KeySet(a), KeySet(b) - {k});
    }
  }

  lemma {:induction false} CanonIsSame(v: Json, w: Json)
    requires DistinctKeys(v) && DistinctKeys(w)
    ensures Canon(v) == Canon(w) <==> Same(v, w)
    decreases v
  {
    match v {
      case Arr(items) =>
        if w.Arr? { CanonItemsAreSame(items, w.items); }
      case Obj(fields) =>
        if w.Obj? {
          CanonValuesMap(fields);
          CanonValuesMap(w.fields);
          SortedEqualIffSameMap(CanonValues(fields), CanonValues(w.fields));
          CanonFieldsAreSame(fields, w.fields);
          if Same(v, w) {
            SubsetOfSameSize(fields, w.fields);
            assert SameMap(CanonValues(fields), CanonValues(w.fields));
          } else if Canon(v) == Canon(w) {
            assert CanonAgree(fields, w.fields);
          }
        }
      case _ =>
    }
  }

  lemma {:induction false} CanonItemsAreSame(a: JsonList, b: JsonList)
    requires DistinctInItems(a) && DistinctInItems(b)
    ensures CanonItems(a) == CanonItems(b) <==> SameItems(a, b)
    decreases a
  {
    if a.Cons? && b.Cons? {
      CanonIsSame(a.head, b.head);
      CanonItemsAreSame(a.tail, b.tail);
    }
  }

  lemma {:induction false} GetDistinct(b: Assoc<Json>, key: text)
    requires DistinctInValues(b) && Has(b, key)
    ensures DistinctKeys(Get(b, key))
  {
    if b.key != key {
      GetDistinct(b.tail, key);
    }
  }

  lemma {:induction false} CanonFieldsAreSame(a: Assoc<Json>, b: Assoc<Json>)
    requires Distinct(a) && DistinctInValues(a) && DistinctInValues(b)
    ensures SameFields(a, b) <==> CanonAgree(a, b)
    decreases a
  {
    if a.Entry? {
      CanonFieldsAreSame(a.tail, b);
      if Has(b, a.key) {
        GetDistinct(b, a.key);
        CanonIsSame(a.value, Get(b, a.key));
      }
      assert CanonAgree(a, b) <==> CanonAgree(a.tail, b) && Has(b, a.key) && Canon(a.value) == Canon(Get(b, a.key)) by {
        assert Has(a, a.key) && Get(a, a.key) == a.value;
        forall k ensures Has(a, k) <==> k == a.key || Has(a.tail, k) {
        }
        forall k | Has(a.tail, k) ensures Get(a, k) == Get(a.tail, k) {
        }
      }
    }
  }

  /** The source's text is the rendering of the canonical value. */

  lemma Associate(a: text, b: text, c: text)
    ensures a + b + c == a + (b + c)
  {
  }

  lemma UnitAppends(u: u16, tail: text, more: text)
    ensures PutUnit(u, tail) + more == PutUnit(u, tail + more)
  {
  }

  lemma {:induction false} BodyAppends(s: text, tail: text, more: text)
    ensures PutBody(s, tail) + more == PutBody(s, tail + more)
  {
    hide PutUnit;
    if s == [] {
      Associate([QUOTE], tail, more);
    } else if StartsWithPair(s) {
      BodyAppends(s[2..], tail, more);
      Associate([s[0], s[1]], PutBody(s[2..], tail), more);
    } else {
      BodyAppends(s[1..], tail, more);
      UnitAppends(s[0], PutBody(s[1..], tail), more);
    }
  }

  lemma {:induction false} DigitsAppend(n: nat, tail: text, more: text)
    ensures PutDigits(n, tail) + more == PutDigits(n, tail + more)
    decreases n
  {
    if n < 10 {
      assert [0x30 + n] + tail + more == [0x30 + n] + (tail + more);
    } else {
      DigitsAppend(n / 10, [0x30 + n % 10] + tail, more);
      assert [0x30 + n % 10] + tail + more == [0x30 + n % 10] + (tail + more);
    }
  }

  lemma QuoteAppends(s: text, more: text)
    ensures Quote(s) + more == PutString(s, more)
  {
    BodyAppends(s, [], more);
    assert [] + more == more;
    assert [QUOTE] + PutBody(s, []) + more == [QUOTE] + (PutBody(s, []) + more);
  }

  lemma NumberAppends(n: int, more: text)
    ensures PutNumber(n, []) + more == PutNumber(n, more)
  {
    var a: nat := if n < 0 then -n else n;
    DigitsAppend(a, [], more);
    assert [] + more == more;
    assert [MINUS] + PutDigits(a, []) + more == [MINUS] + (PutDigits(a, []) + more);
  }

  ghost predicate TextOf(t: text, v: Json) {
    forall tail :: t + tail == Render(v, tail)
  }

  lemma Enclose(open: u16, inner: text, close: u16, tail: text)
    ensures [open] + inner + [close] + tail == [open] + (inner + ([close] + tail))
  {
  }

  ghost predicate Texts(a: Assoc<text>, b: Assoc<Json>) {
    match a
    case Empty => b.Empty?
    case Entry(key, value, rest) => b.Entry? && key == b.key && TextOf(value, b.value) && Texts(rest, b.tail)
  }

  lemma {:induction false} InsertText(key: text, value: text, v: Json, a: Assoc<text>, b: Assoc<Json>)
    requires TextOf(value, v) && Texts(a, b)
    ensures Texts(Insert(key, value, a), Insert(key, v, b))
  {
    if a.Entry? && !Less(key, a.key) {
      InsertText(key, value, v, a.tail, b.tail);
    }
  }

  lemma {:induction false} SortTexts(a: Assoc<text>, b: Assoc<Json>)
    requires Texts(a, b)
    ensures Texts(SortKeys(a), SortKeys(b))
  {
    if a.Entry? {
      SortTexts(a.tail, b.tail);
      InsertText(a.key, a.value, b.value, SortKeys(a.tail), SortKeys(b.tail));
    }
  }

  lemma MemberAppends(key: text, value: text, behind: text)
    ensures key + [COLON] + value + behind == key + ([COLON] + (value + behind))
  {
  }

  lemma MemberIsRender(key: text, value: text, v: Json, behind: text)
    requires TextOf(value, v)
    ensures Quote(key) + [COLON] + value + behind == PutString(key, [COLON] + Render(v, behind))
  {
    assert value + behind == Render(v, behind);
    QuoteAppends(key, [COLON] + (value + behind));
    hide Quote, PutString, Render;
    MemberAppends(Quote(key), value, behind);
  }

  lemma JoinOne(piece: text)
    ensures JoinCommas([piece]) == piece
  {
  }

  lemma JoinMore(first: text, rest: seq<text>, tail: text)
    requires rest != []
    ensures JoinCommas([first] + rest) + tail == first + ([COMMA] + (JoinCommas(rest) + tail))
  {
    assert ([first] + rest)[1..] == rest;
    var joined := JoinCommas(rest);
    assert first + [COMMA] + joined + tail == first + ([COMMA] + (joined + tail));
  }

  lemma {:induction false} MembersAreRender(a: Assoc<text>, b: Assoc<Json>, tail: text)
    requires Texts(a, b)
    ensures JoinCommas(Members(a)) + tail == RenderFields(b, tail)
  {
    if a.Entry? {
      hide Quote, PutString, Render, TextOf, JoinCommas;
      var first := Quote(a.key) + [COLON] + a.value;
      if a.tail.Empty? {
        MemberIsRender(a.key, a.value, b.value, tail);
        JoinOne(first);
        assert Members(a) == [first];
      } else {
        MembersAreRender(a.tail, b.tail, tail);
        var rest := Members(a.tail);
        MemberIsRender(a.key, a.value, b.value, [COMMA] + (JoinCommas(rest) + tail));
        JoinMore(first, rest, tail);
      }
    } else {
      assert [] + tail == tail;
    }
  }

  lemma {:induction false} StringifyIsRender(v: Json)
    ensures TextOf(Stringify(v), Canon(v))
    decreases v
  {
    forall tail ensures Stringify(v) + tail == Render(Canon(v), tail) {
      hide JoinCommas, RenderItems, RenderFields, PutString, Quote, SortKeys, Members, T;
      match v {
        case Null =>
        case Bool(b) =>
        case Num(n) => NumberAppends(n, tail);
        case Str(s) => QuoteAppends(s, tail);
        case Arr(items) =>
          ItemsAreRender(items, [CLOSE_BRACKET] + tail);
          Enclose(OPEN_BRACKET, JoinCommas(StringifyItems(items)), CLOSE_BRACKET, tail);
        case Obj(fields) =>
          ValuesAreTexts(fields);
          SortTexts(StringifyValues(fields), CanonValues(fields));
          var members := SortKeys(StringifyValues(fields));
          MembersAreRender(members, SortKeys(CanonValues(fields)), [CLOSE_BRACE] + tail);
          Enclose(OPEN_BRACE, JoinCommas(Members(members)), CLOSE_BRACE, tail);
      }
    }
  }

  lemma {:induction false} ItemsAreRender(items: JsonList, tail: text)
    ensures JoinCommas(StringifyItems(items)) + tail == RenderItems(CanonItems(items), tail)
    decreases items
  {
    if items.Cons? {
      StringifyIsRender(items.head);
      if items.tail.Nil? {
        assert StringifyItems(items) == [Stringify(items.head)];
      } else {
        ItemsAreRender(items.tail, tail);
        JoinMore(Stringify(items.head), StringifyItems(items.tail), tail);
      }
    } else {
      assert [] + tail == tail;
    }
  }

  lemma {:induction false} ValuesAreTexts(fields: Assoc<Json>)
    ensures Texts(StringifyValues(fields), CanonValues(fields))
    decreases fields
  {
    if fields.Entry? {
      StringifyIsRender(fields.value);
      ValuesAreTexts(fields.tail);
    }
  }

  /** Two JSON values have the same canonical text exactly when they are the same up to the
      insertion order of object keys. */
  lemma CanonicalTextIdentifies(v: Json, w: Json)
    requires DistinctKeys(v) && DistinctKeys(w)
    ensures Stringify(v) == Stringify(w) <==> Same(v, w)
  {
    hide Stringify, Render, Canon, Same, DistinctKeys;
    StringifyIsRender(v);
    StringifyIsRender(w);
    CanonIsSame(v, w);
    assert Stringify(v) + [] == Stringify(v) && Stringify(w) + [] == Stringify(w);
    if Stringify(v) == Stringify(w) {
      RenderInjective(Canon(v), [], Canon(w), []);
    }
  }

  /** Canonical text is well-formed UTF-16 even where strings hold lone surrogates. */

  lemma {:induction false} PlainWellFormed(t: text)
    requires forall i :: 0 <= i < |t| ==> t[i] < 0xd800
    ensures WellFormed(t)
  {
    if t != [] {
      PlainWellFormed(t[1..]);
    }
  }

  lemma UnitWellFormed(u: u16, tail: text)
    requires WellFormed(tail)
    ensures WellFormed(PutUnit(u, tail))
  {
    if ShortEscape(u).Some? {
      var c := ShortEscape(u).value;
      WellFormedUnit(c, tail);
      WellFormedUnit(BACKSLASH, [c] + tail);
      assert [BACKSLASH] + ([c] + tail) == [BACKSLASH, c] + tail;
    } else if u < 0x20 || IsHigh(u) || IsLow(u) {
      var digits := [BACKSLASH, 0x75, HexDigit(u / 0x1000), HexDigit(u / 0x100 % 16),
                     HexDigit(u / 16 % 16), HexDigit(u % 16)];
      PlainWellFormed(digits);
      WellFormedConcat(digits, tail);
    } else {
      WellFormedUnit(u, tail);
    }
  }

  lemma {:induction false} BodyWellFormed(s: text, tail: text)
    requires WellFormed(tail)
    ensures WellFormed(PutBody(s, tail))
  {
    if s == [] {
      WellFormedUnit(QUOTE, tail);
    } else if StartsWithPair(s) {
      BodyWellFormed(s[2..], tail);
      assert ([s[0], s[1]] + PutBody(s[2..], tail))[2..] == PutBody(s[2..], tail);
    } else {
      BodyWellFormed(s[1..], tail);
      UnitWellFormed(s[0], PutBody(s[1..], tail));
    }
  }

  lemma {:induction false} DigitsWellFormed(n: nat, tail: text)
    requires WellFormed(tail)
    ensures WellFormed(PutDigits(n, tail))
    decreases n
  {
    if n < 10 {
      WellFormedUnit(0x30 + n, tail);
    } else {
      WellFormedUnit(0x30 + n % 10, tail);
      DigitsWellFormed(n / 10, [0x30 + n % 10] + tail);
    }
  }

  lemma StringWellFormed(s: text, tail: text)
    requires WellFormed(tail)
    ensures WellFormed(PutString(s, tail))
  {
    BodyWellFormed(s, tail);
    WellFormedUnit(QUOTE, PutBody(s, tail));
  }

  lemma {:induction false} RenderWellFormed(v: Json, tail: text)
    requires WellFormed(tail)
    ensures WellFormed(Render(v, tail))
    decreases v
  {
    match v {
      case Null => PlainWellFormed(T("null")); WellFormedConcat(T("null"), tail);
      case Bool(b) =>
        PlainWellFormed(T("true"));
        PlainWellFormed(T("false"));
        WellFormedConcat(if b then T("true") else T("false"), tail);
      case Num(n) =>
        DigitsWellFormed(if n < 0 then -n else n, tail);
        WellFormedUnit(MINUS, PutDigits(if n < 0 then -n else n, tail));
      case Str(s) => StringWellFormed(s, tail);
      case Arr(items) =>
        WellFormedUnit(CLOSE_BRACKET, tail);
        ItemsWellFormed(items, [CLOSE_BRACKET] + tail);
        WellFormedUnit(OPEN_BRACKET, RenderItems(items, [CLOSE_BRACKET] + tail));
      case Obj(fields) =>
        WellFormedUnit(CLOSE_BRACE, tail);
        FieldsWellFormed(fields, [CLOSE_BRACE] + tail);
        WellFormedUnit(OPEN_BRACE, RenderFields(fields, [CLOSE_BRACE] + tail));
    }
  }

  lemma {:induction false} ItemsWellFormed(items: JsonList, tail: text)
    requires WellFormed(tail)
    ensures WellFormed(RenderItems(items, tail))
    decreases items
  {
    if items.Cons? {
      if items.tail.Nil? {
        RenderWellFormed(items.head, tail);
      } else {
        ItemsWellFormed(items.tail, tail);
        WellFormedUnit(COMMA, RenderItems(items.tail, tail));
        RenderWellFormed(items.head, [COMMA] + RenderItems(items.tail, tail));
      }
    }
  }

  lemma {:induction false} FieldsWellFormed(fields: Assoc<Json>, tail: text)
    requires WellFormed(tail)
    ensures WellFormed(RenderFields(fields, tail))
    decreases fields
  {
    if fields.Entry? {
      var behind := tail;
      if fields.tail.Entry? {
        FieldsWellFormed(fields.tail, tail);
        WellFormedUnit(COMMA, RenderFields(fields.tail, tail));
        behind := [COMMA] + RenderFields(fields.tail, tail);
      }
      RenderWellFormed(fields.value, behind);
      WellFormedUnit(COLON, Render(fields.value, behind));
      StringWellFormed(fields.key, [COLON] + Render(fields.value, behind));
    }
  }

  lemma StringifyWellFormed(v: Json)
    ensures WellFormed(Stringify(v))
  {
    hide Stringify, Render, Canon;
    StringifyIsRender(v);
    RenderWellFormed(Canon(v), []);
    assert Stringify(v) + [] == Stringify(v);
  }
}
