/** A reader of JSON text, written from the grammar of RFC 8259 (without insignificant whitespace,
    for integers) and independently of the writer: it says what canonical text means. */
module JsonReader {
  import opened Prelude
  import opened JsText
  import opened CanonicalJson

  datatype Read<+T> = Got(value: T, rest: text) | Bad {
    predicate IsFailure() { Bad? }

    function PropagateFailure<U>(): Read<U>
      requires Bad?
    {
      Bad
    }

    function Extract(): (T, text)
      requires Got?
    {
      (value, rest)
    }
  }

  /** Strings, section 7. */

  // The unit a two-character escape stands for, by its letter.
  function Unescape(letter: u16): Option<u16> {
    if letter == 0x22 then Some(0x22)        // quotation mark
    else if letter == 0x5c then Some(0x5c)   // reverse solidus
    else if letter == 0x2f then Some(0x2f)   // solidus
    else if letter == 0x62 then Some(0x08)   // b: backspace
    else if letter == 0x66 then Some(0x0c)   // f: form feed
    else if letter == 0x6e then Some(0x0a)   // n: line feed
    else if letter == 0x72 then Some(0x0d)   // r: carriage return
    else if letter == 0x74 then Some(0x09)   // t: tab
    else None
  }

  function Nibble(u: u16): Option<nat> {
    if 0x30 <= u <= 0x39 then Some(u - 0x30)
    else if 0x41 <= u <= 0x46 then Some(u - 0x37)
    else if 0x61 <= u <= 0x66 then Some(u - 0x57)
    else None
  }

  function ReadHex(t: text): (r: Read<u16>)
    ensures r.Got? ==> |r.rest| < |t|
  {
    if |t| < 4 then Bad
    else
      var a, b, c, d := Nibble(t[0]), Nibble(t[1]), Nibble(t[2]), Nibble(t[3]);
      if a.None? || b.None? || c.None? || d.None? || a.value >= 16 || b.value >= 16 || c.value >= 16 || d.value >= 16
      then Bad
      else Got(0x1000 * a.value + 0x100 * b.value + 0x10 * c.value + d.value, t[4..])
  }

  // The units of a string up to its closing quotation mark.
  function ReadBody(t: text): (r: Read<text>)
    ensures r.Got? ==> |r.rest| < |t|
    decreases |t|
  {
    if t == [] || t[0] < 0x20 then Bad
    else if t[0] == 0x22 then Got([], t[1..])
    else if t[0] != 0x5c then
      var (s, rest) :- ReadBody(t[1..]);
      Got([t[0]] + s, rest)
    else if |t| >= 2 && t[1] == 0x75 then
      var (u, after) :- ReadHex(t[2..]);
      var (s, rest) :- ReadBody(after);
      Got([u] + s, rest)
    else if |t| >= 2 && Unescape(t[1]).Some? then
      var (s, rest) :- ReadBody(t[2..]);
      Got([Unescape(t[1]).value] + s, rest)
    else Bad
  }

  function ReadString(t: text): (r: Read<text>)
    ensures r.Got? ==> |r.rest| < |t|
  {
    if t == [] || t[0] != 0x22 then Bad else ReadBody(t[1..])
  }

  /** Integers, section 6. */

  function ReadNat(t: text, seen: nat): (r: Read<nat>)
    ensures r.Got? && |r.rest| <= |t|
  {
    if t == [] || !(0x30 <= t[0] <= 0x39) then Got(seen, t) else ReadNat(t[1..], 10 * seen + (t[0] - 0x30))
  }

  function ReadInt(t: text): (r: Read<safeInt>)
    ensures r.Got? ==> |r.rest| < |t|
  {
    var digits := if t != [] && t[0] == 0x2d then t[1..] else t;
    if digits == [] || !(0x30 <= digits[0] <= 0x39) then Bad
    else
      var read := ReadNat(digits[1..], digits[0] - 0x30);
      var n: int := read.value;
      if n > 0x1f_ffff_ffff_ffff then Bad else Got(if t[0] == 0x2d then -n else n, read.rest)
  }

  /** Values, sections 3 to 5. */

  predicate Starts(t: text, unit: u16) {
    t != [] && t[0] == unit
  }

  // null, true or false.
  function ReadWord(t: text): (r: Read<Json>)
    ensures r.Got? ==> |r.rest| < |t|
  {
    if |t| >= 4 && t[..4] == [0x6e, 0x75, 0x6c, 0x6c] then Got(Null, t[4..])
    else if |t| >= 4 && t[..4] == [0x74, 0x72, 0x75, 0x65] then Got(Bool(true), t[4..])
    else if |t| >= 5 && t[..5] == [0x66, 0x61, 0x6c, 0x73, 0x65] then Got(Bool(false), t[5..])
    else Bad
  }

  function ReadValue(t: text): (r: Read<Json>)
    ensures r.Got? ==> |r.rest| < |t|
    decreases |t|, 1
  {
    if Starts(t, 0x22) then
      var (s, rest) :- ReadString(t);
      Got(Str(s), rest)
    else if Starts(t, 0x5b) then
      if Starts(t[1..], 0x5d) then Got(Arr(Nil), t[2..])
      else
        var (items, rest) :- ReadItems(t[1..]);
        Got(Arr(items), rest)
    else if Starts(t, 0x7b) then
      if Starts(t[1..], 0x7d) then Got(Obj(Empty), t[2..])
      else
        var (fields, rest) :- ReadMembers(t[1..]);
        Got(Obj(fields), rest)
    else if Starts(t, 0x6e) || Starts(t, 0x74) || Starts(t, 0x66) then ReadWord(t)
    else
      var (n, rest) :- ReadInt(t);
      Got(Num(n), rest)
  }

  // One value or more, up to the closing bracket.
  function ReadItems(t: text): (r: Read<JsonList>)
    ensures r.Got? ==> |r.rest| < |t|
    decreases |t|, 2
  {
    var (head, after) :- ReadValue(t);
    if Starts(after, 0x5d) then Got(Cons(head, Nil), after[1..])
    else if Starts(after, 0x2c) then
      var (tail, rest) :- ReadItems(after[1..]);
      Got(Cons(head, tail), rest)
    else Bad
  }

  // One member or more, up to the closing brace, in the order they are met.
  function ReadMembers(t: text): (r: Read<Assoc<Json>>)
    ensures r.Got? ==> |r.rest| < |t|
    decreases |t|, 2
  {
    var (key, colon) :- ReadString(t);
    if !Starts(colon, 0x3a) then Bad
    else
      var (value, after) :- ReadValue(colon[1..]);
      if Starts(after, 0x7d) then Got(Entry(key, value, Empty), after[1..])
      else if Starts(after, 0x2c) then
        var (tail, rest) :- ReadMembers(after[1..]);
        Got(Entry(key, value, tail), rest)
      else Bad
  }

  // The value a whole text stands for.
  function Parse(t: text): Option<Json> {
    match ReadValue(t)
    case Bad => None
    case Got(v, rest) => if rest == [] then Some(v) else None
  }

  /** The reader reads what the writer writes. */

  lemma ReadsUnit(u: u16, tail: text)
    ensures ReadBody(PutUnit(u, tail))
         == match ReadBody(tail) case Bad => Bad case Got(s, rest) => Got([u] + s, rest)
  {
    var t := PutUnit(u, tail);
    if ShortEscape(u).Some? {
      assert t[2..] == tail;
    } else if u < 0x20 || IsHigh(u) || IsLow(u) {
      Nibbles(u);
      assert t[2..][4..] == tail;
      assert ReadHex(t[2..]) == Got(u, tail);
    } else {
      assert t[1..] == tail;
    }
  }

  lemma {:induction false} ReadsBody(s: text, tail: text)
    ensures ReadBody(PutBody(s, tail)) == Got(s, tail)
  {
    hide PutUnit;
    var t := PutBody(s, tail);
    if s == [] {
      assert t[1..] == tail;
    } else if StartsWithPair(s) {
      ReadsBody(s[2..], tail);
      var rest := PutBody(s[2..], tail);
      assert t[1..] == [s[1]] + rest && t[1..][1..] == rest;
      assert ReadBody(t[1..]) == Got([s[1]] + s[2..], tail);
      assert [s[0]] + ([s[1]] + s[2..]) == s;
    } else {
      ReadsBody(s[1..], tail);
      ReadsUnit(s[0], PutBody(s[1..], tail));
      assert [s[0]] + s[1..] == s;
    }
  }

  lemma ReadsString(s: text, tail: text)
    ensures ReadString(PutString(s, tail)) == Got(s, tail)
  {
    ReadsBody(s, tail);
    assert PutString(s, tail)[1..] == PutBody(s, tail);
  }

  // The digits behind those of `n`.
  lemma {:induction false} ReadsDigits(n: nat, tail: text)
    ensures PutDigits(n, tail) != [] && 0x30 <= PutDigits(n, tail)[0] <= 0x39
    ensures ReadNat(PutDigits(n, tail)[1..], PutDigits(n, tail)[0] - 0x30) == ReadNat(tail, n)
    decreases n
  {
    if n < 10 {
      assert PutDigits(n, tail)[1..] == tail;
    } else {
      var next := [0x30 + n % 10] + tail;
      ReadsDigits(n / 10, next);
      assert next[1..] == tail;
    }
  }

  lemma ReadsInt(n: safeInt, tail: text)
    requires NoDigitFirst(tail)
    ensures ReadInt(PutNumber(n, tail)) == Got(n, tail)
  {
    var a: nat := if n < 0 then -n else n;
    ReadsDigits(a, tail);
    assert n < 0 ==> PutNumber(n, tail)[1..] == PutDigits(a, tail);
  }

  lemma ItemsDoNotClose(items: JsonList, tail: text)
    requires items.Cons?
    ensures var t := RenderItems(items, [CLOSE_BRACKET] + tail); t != [] && t[0] != CLOSE_BRACKET
  {
    if items.tail.Nil? {
      RenderLead(items.head, [CLOSE_BRACKET] + tail);
    } else {
      RenderLead(items.head, [COMMA] + RenderItems(items.tail, [CLOSE_BRACKET] + tail));
    }
  }

  lemma Words()
    ensures T("null") == [0x6e, 0x75, 0x6c, 0x6c]
    ensures T("true") == [0x74, 0x72, 0x75, 0x65]
    ensures T("false") == [0x66, 0x61, 0x6c, 0x73, 0x65]
  {
  }

  lemma ReadsWord(v: Json, tail: text)
    requires v.Null? || v.Bool?
    ensures ReadValue(Render(v, tail)) == Got(v, tail)
  {
    Words();
    hide T, ReadItems, ReadMembers, ReadString, ReadInt;
    var word := if v.Null? then T("null") else if v.b then T("true") else T("false");
    var t := word + tail;
    assert t[..|word|] == word && t[|word|..] == tail && t[0] == word[0];
    if v == Bool(false) {
      assert t[..4] == [0x66, 0x61, 0x6c, 0x73];
    }
  }

  lemma ReadsAtom(v: Json, tail: text)
    requires (v.Num? || v.Str?) && (tail == [] || Stops(tail))
    ensures ReadValue(Render(v, tail)) == Got(v, tail)
  {
    RenderLead(v, tail);
    if v.Num? {
      ReadsInt(v.n, tail);
    } else {
      ReadsString(v.s, tail);
    }
    hide PutNumber, PutString, ReadInt, ReadString;
  }

  // Behind an opening bracket or brace.
  lemma ReadsOpen(t: text, inner: text)
    requires inner != []
    requires (t == [0x5b] + inner && inner[0] != 0x5d) || (t == [0x7b] + inner && inner[0] != 0x7d)
    ensures t[0] == 0x5b ==>
              ReadValue(t) == match ReadItems(inner) case Bad => Bad case Got(items, rest) => Got(Arr(items), rest)
    ensures t[0] == 0x7b ==>
              ReadValue(t) == match ReadMembers(inner) case Bad => Bad case Got(fields, rest) => Got(Obj(fields), rest)
  {
    assert t[1..] == inner && t[1] == inner[0];
    hide ReadItems, ReadMembers, ReadString, ReadInt;
  }

  lemma ReadsEmpty(tail: text)
    ensures ReadValue(Render(Arr(Nil), tail)) == Got(Arr(Nil), tail)
    ensures ReadValue(Render(Obj(Empty), tail)) == Got(Obj(Empty), tail)
  {
    hide ReadItems, ReadMembers, ReadString, ReadInt;
    var a, o := [0x5b, 0x5d] + tail, [0x7b, 0x7d] + tail;
    assert [0x5b] + ([0x5d] + tail) == a && [0x7b] + ([0x7d] + tail) == o;
    assert RenderItems(Nil, [0x5d] + tail) == [0x5d] + tail && RenderFields(Empty, [0x7d] + tail) == [0x7d] + tail;
    assert a[2..] == tail && o[2..] == tail;
  }

  lemma {:induction false} ReadsValue(v: Json, tail: text)
    requires tail == [] || Stops(tail)
    ensures ReadValue(Render(v, tail)) == Got(v, tail)
    decreases v
  {
    ReadsEmpty(tail);
    hide ReadValue, ReadItems, ReadMembers, RenderItems, RenderFields;
    match v {
      case Null => ReadsWord(v, tail);
      case Bool(_) => ReadsWord(v, tail);
      case Num(_) => ReadsAtom(v, tail);
      case Str(_) => ReadsAtom(v, tail);
      case Arr(items) =>
        if items.Cons? {
          ItemsDoNotClose(items, tail);
          ReadsItems(items, tail);
          ReadsOpen(Render(v, tail), RenderItems(items, [CLOSE_BRACKET] + tail));
        }
      case Obj(fields) =>
        if fields.Entry? {
          FieldsLead(fields, [CLOSE_BRACE] + tail);
          ReadsMembers(fields, tail);
          ReadsOpen(Render(v, tail), RenderFields(fields, [CLOSE_BRACE] + tail));
        }
    }
  }

  lemma {:induction false} ReadsItems(items: JsonList, tail: text)
    requires items.Cons?
    ensures ReadItems(RenderItems(items, [CLOSE_BRACKET] + tail)) == Got(items, tail)
    decreases items
  {
    hide Render, ReadValue;
    var end := [CLOSE_BRACKET] + tail;
    if items.tail.Nil? {
      ReadsValue(items.head, end);
      assert end[1..] == tail;
    } else {
      var rest := RenderItems(items.tail, end);
      ReadsValue(items.head, [COMMA] + rest);
      assert ([COMMA] + rest)[1..] == rest;
      ReadsItems(items.tail, tail);
    }
  }

  lemma {:induction false} ReadsMembers(fields: Assoc<Json>, tail: text)
    requires fields.Entry?
    ensures ReadMembers(RenderFields(fields, [CLOSE_BRACE] + tail)) == Got(fields, tail)
    decreases fields
  {
    hide Render, ReadValue, ReadString, PutString;
    var end := [CLOSE_BRACE] + tail;
    var after := if fields.tail.Empty? then end else [COMMA] + RenderFields(fields.tail, end);
    var colon := [COLON] + Render(fields.value, after);
    ReadsString(fields.key, colon);
    assert colon[1..] == Render(fields.value, after);
    ReadsValue(fields.value, after);
    if fields.tail.Empty? {
      assert end[1..] == tail;
    } else {
      assert after[1..] == RenderFields(fields.tail, end);
      ReadsMembers(fields.tail, tail);
    }
  }

  /** Sorted at every depth: each object's keys ascend. */

  ghost predicate KeysAscend(v: Json) {
    match v
    case Arr(items) => KeysAscendInItems(items)
    case Obj(fields) => Ascending(fields) && KeysAscendInValues(fields)
    case _ => true
  }

  ghost predicate KeysAscendInItems(items: JsonList) {
    items.Cons? ==> KeysAscend(items.head) && KeysAscendInItems(items.tail)
  }

  ghost predicate KeysAscendInValues(fields: Assoc<Json>) {
    fields.Entry? ==> KeysAscend(fields.value) && KeysAscendInValues(fields.tail)
  }

  lemma {:induction false} InsertKeepsOrder(key: text, value: Json, fields: Assoc<Json>)
    requires KeysAscend(value) && KeysAscendInValues(fields)
    ensures KeysAscendInValues(Insert(key, value, fields))
  {
    if fields.Entry? && !Less(key, fields.key) {
      InsertKeepsOrder(key, value, fields.tail);
    }
  }

  lemma {:induction false} SortKeepsOrder(fields: Assoc<Json>)
    requires KeysAscendInValues(fields)
    ensures KeysAscendInValues(SortKeys(fields))
  {
    if fields.Entry? {
      SortKeepsOrder(fields.tail);
      InsertKeepsOrder(fields.key, fields.value, SortKeys(fields.tail));
    }
  }

  lemma {:induction false} CanonAscends(v: Json)
    requires DistinctKeys(v)
    ensures KeysAscend(Canon(v))
    decreases v
  {
    match v {
      case Arr(items) => CanonItemsAscend(items);
      case Obj(fields) =>
        CanonValuesAscend(fields);
        CanonValuesMap(fields);
        SortAscends(CanonValues(fields));
        SortKeepsOrder(CanonValues(fields));
      case _ =>
    }
  }

  lemma {:induction false} CanonItemsAscend(items: JsonList)
    requires DistinctInItems(items)
    ensures KeysAscendInItems(CanonItems(items))
    decreases items
  {
    if items.Cons? {
      CanonAscends(items.head);
      CanonItemsAscend(items.tail);
    }
  }

  lemma {:induction false} CanonValuesAscend(fields: Assoc<Json>)
    requires DistinctInValues(fields)
    ensures KeysAscendInValues(CanonValues(fields))
    decreases fields
  {
    if fields.Entry? {
      CanonAscends(fields.value);
      CanonValuesAscend(fields.tail);
    }
  }

  lemma {:induction false} CanonIsSameValue(v: Json)
    requires DistinctKeys(v)
    ensures Same(v, Canon(v))
    decreases v
  {
    match v {
      case Arr(items) => CanonItemsAreSameValues(items);
      case Obj(fields) =>
        CanonValuesMap(fields);
        SortAscends(CanonValues(fields));
        CanonFieldsAreSameValues(fields, SortKeys(CanonValues(fields)));
      case _ =>
    }
  }

  lemma {:induction false} CanonItemsAreSameValues(items: JsonList)
    requires DistinctInItems(items)
    ensures SameItems(items, CanonItems(items))
    decreases items
  {
    if items.Cons? {
      CanonIsSameValue(items.head);
      CanonItemsAreSameValues(items.tail);
    }
  }

  lemma {:induction false} CanonFieldsAreSameValues(fields: Assoc<Json>, sorted: Assoc<Json>)
    requires Distinct(fields) && DistinctInValues(fields)
    requires forall k :: Has(fields, k) ==> Has(sorted, k) && Get(sorted, k) == Canon(Get(fields, k))
    ensures SameFields(fields, sorted)
    decreases fields
  {
    if fields.Entry? {
      assert Has(fields, fields.key);
      CanonIsSameValue(fields.value);
      forall k | Has(fields.tail, k) ensures Has(sorted, k) && Get(sorted, k) == Canon(Get(fields.tail, k)) {
        assert Has(fields, k) && k != fields.key;
      }
      CanonFieldsAreSameValues(fields.tail, sorted);
    }
  }

  /** What canonical text says: read by the grammar, it stands for the value it was made from,
      with the keys of every object met in ascending order. */
  lemma CanonicalTextReadsBack(v: Json)
    requires DistinctKeys(v)
    ensures Parse(Stringify(v)).Some?
    ensures Same(v, Parse(Stringify(v)).value) && KeysAscend(Parse(Stringify(v)).value)
  {
    StringifyIsRender(v);
    assert Stringify(v) + [] == Stringify(v);
    ReadsValue(Canon(v), []);
    CanonIsSameValue(v);
    CanonAscends(v);
  }

  // Before: the first unit at which the keys differ is smaller, or the key is a proper prefix.
  ghost predicate DiffersBelow(a: text, b: text, k: nat) {
    && k <= |a| && k < |b| && a[..k] == b[..k]
    && (k == |a| || a[k] < b[k])
  }

  /** The order of keys is that of their UTF-16 code units, a prefix first. */
  lemma {:induction false} LessIsLexicographic(a: text, b: text)
    ensures Less(a, b) <==> exists k: nat :: DiffersBelow(a, b, k)
  {
    if a == [] || b == [] {
      if b != [] {
        assert DiffersBelow(a, b, 0);
      }
    } else {
      LessIsLexicographic(a[1..], b[1..]);
      if Less(a, b) {
        if a[0] < b[0] {
          assert DiffersBelow(a, b, 0);
        } else {
          var k: nat :| DiffersBelow(a[1..], b[1..], k);
          assert a[..k + 1] == [a[0]] + a[1..][..k] && b[..k + 1] == [b[0]] + b[1..][..k];
          assert DiffersBelow(a, b, k + 1);
        }
      }
      if k: nat :| DiffersBelow(a, b, k) {
        if k > 0 {
          assert a[0] == a[..k][0] == b[..k][0] == b[0];
          assert a[1..][..k - 1] == a[..k][1..] && b[1..][..k - 1] == b[..k][1..];
          assert DiffersBelow(a[1..], b[1..], k - 1);
        }
      }
    }
  }

  /** Among the texts that read the same, which one is written: the shortest, in lowercase.
      Together with reading back this determines every text. */

  lemma UnitIsShortest(u: u16)
    ensures |PutUnit(u, [])| == if u in {0x08, 0x09, 0x0a, 0x0c, 0x0d, 0x22, 0x5c} then 2
                                else if u < 0x20 || 0xd800 <= u < 0xe000 then 6
                                else 1
    ensures |PutUnit(u, [])| == 6 ==> forall i :: 2 <= i < 6 ==> IsLowerHexDigit(PutUnit(u, [])[i])
  {
  }

  // A surrogate pair is written as it is.
  lemma PairIsWrittenRaw(high: u16, low: u16, tail: text)
    requires 0xd800 <= high < 0xdc00 <= low < 0xe000
    ensures PutBody([high, low], tail) == [high, low, 0x22] + tail
  {
    var s := [high, low];
    assert s[2..] == [];
    assert [high, low] + ([0x22] + tail) == [high, low, 0x22] + tail;
  }

  // No leading zero.
  lemma {:induction false} NumberIsShortest(n: nat, tail: text)
    ensures n > 0 ==> PutDigits(n, tail) != [] && PutDigits(n, tail)[0] != 0x30
    ensures n == 0 ==> PutDigits(n, tail) == [0x30] + tail
    decreases n
  {
    if n >= 10 {
      NumberIsShortest(n / 10, [0x30 + n % 10] + tail);
    }
  }
}
