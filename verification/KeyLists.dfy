/** The key checks on JSON objects: the gate joins sorted keys with `|`, the auditor compares
    sorted keys. */
module KeyLists {
  import opened Prelude
  import opened JsText
  import opened CanonicalJson

  const BAR: u16 := 0x7c

  function KeyList<T>(a: Assoc<T>): seq<text> {
    if a.Empty? then [] else [a.key] + KeyList(a.tail)
  }

  function InsertName(name: text, names: seq<text>): seq<text> {
    if names == [] || Less(name, names[0]) then [name] + names
    else [names[0]] + InsertName(name, names[1..])
  }

  function SortNames(names: seq<text>): seq<text> {
    if names == [] then [] else InsertName(names[0], SortNames(names[1..]))
  }

  function JoinBars(names: seq<text>): text {
    if names == [] then []
    else if |names| == 1 then names[0]
    else names[0] + [BAR] + JoinBars(names[1..])
  }

  // The gate's comparison.
  predicate JoinMatches<T>(a: Assoc<T>, names: seq<text>) {
    JoinBars(SortNames(KeyList(a))) == JoinBars(SortNames(names))
  }

  // The auditor's comparison.
  predicate ExactKeys<T>(a: Assoc<T>, names: seq<text>) {
    SortNames(KeyList(a)) == SortNames(names)
  }

  predicate NoRepeats(names: seq<text>) {
    forall i, j :: 0 <= i < j < |names| ==> names[i] != names[j]
  }

  /** Length of a join. */

  function JoinCost(names: seq<text>): nat {
    if names == [] then 0 else |names[0]| + 1 + JoinCost(names[1..])
  }

  lemma {:induction false} JoinLength(names: seq<text>)
    ensures names != [] ==> |JoinBars(names)| + 1 == JoinCost(names)
  {
    if |names| > 1 {
      JoinLength(names[1..]);
    }
  }

  lemma {:induction false} InsertCost(name: text, names: seq<text>)
    ensures JoinCost(InsertName(name, names)) == |name| + 1 + JoinCost(names)
    ensures |InsertName(name, names)| == |names| + 1
  {
    if names != [] && !Less(name, names[0]) {
      InsertCost(name, names[1..]);
    }
  }

  lemma {:induction false} SortCost(names: seq<text>)
    ensures JoinCost(SortNames(names)) == JoinCost(names)
    ensures |SortNames(names)| == |names|
  {
    if names != [] {
      SortCost(names[1..]);
      InsertCost(names[0], SortNames(names[1..]));
    }
  }

  lemma {:induction false} InsertCommutes(a: text, b: text, names: seq<text>)
    ensures InsertName(a, InsertName(b, names)) == InsertName(b, InsertName(a, names))
  {
    LessIsTotal(a, b);
    if names != [] {
      LessIsTotal(a, names[0]);
      LessIsTotal(b, names[0]);
      if Less(a, b) && Less(b, names[0]) { LessIsTransitive(a, b, names[0]); }
      if Less(b, a) && Less(a, names[0]) { LessIsTransitive(b, a, names[0]); }
      InsertCommutes(a, b, names[1..]);
      if !Less(a, names[0]) && !Less(b, names[0]) {
        assert ([names[0]] + InsertName(b, names[1..]))[1..] == InsertName(b, names[1..]);
        assert ([names[0]] + InsertName(a, names[1..]))[1..] == InsertName(a, names[1..]);
      }
    }
  }

  function RemoveName(names: seq<text>, name: text): seq<text>
    requires name in names
  {
    if names[0] == name then names[1..] else [names[0]] + RemoveName(names[1..], name)
  }

  lemma {:induction false} Removal(names: seq<text>, name: text)
    requires name in names
    ensures JoinCost(names) == |name| + 1 + JoinCost(RemoveName(names, name))
    ensures SortNames(names) == InsertName(name, SortNames(RemoveName(names, name)))
    ensures forall n :: n in names && n != name ==> n in RemoveName(names, name)
    ensures |RemoveName(names, name)| == |names| - 1
  {
    var first, rest := names[0], names[1..];
    assert names == [first] + rest;
    if first != name {
      Removal(rest, name);
      var removed := RemoveName(rest, name);
      assert ([first] + removed)[1..] == removed;
      InsertCommutes(first, name, SortNames(removed));
    }
  }

  // A list that contains every name, at the cost of the names alone, is the names.
  lemma {:induction false} NoRoomForMore(keys: seq<text>, names: seq<text>)
    requires NoRepeats(names) && forall n :: n in names ==> n in keys
    requires JoinCost(keys) == JoinCost(names)
    ensures SortNames(keys) == SortNames(names)
    decreases names
  {
    if names != [] {
      var name, rest := names[0], names[1..];
      assert name in names;
      Removal(keys, name);
      forall n | n in rest ensures n in RemoveName(keys, name) {
        var i :| 0 <= i < |rest| && rest[i] == n;
        assert names[i + 1] == n;
      }
      NoRoomForMore(RemoveName(keys, name), rest);
    }
  }

  // A list as long as the names that contains every name is the names.
  lemma {:induction false} NoRoomBySize(keys: seq<text>, names: seq<text>)
    requires NoRepeats(names) && forall i :: 0 <= i < |names| ==> names[i] in keys
    requires |keys| == |names|
    ensures SortNames(keys) == SortNames(names)
    decreases names
  {
    if names != [] {
      var name, rest := names[0], names[1..];
      Removal(keys, name);
      forall i | 0 <= i < |rest| ensures rest[i] in RemoveName(keys, name) {
        assert rest[i] == names[i + 1];
      }
      NoRoomBySize(RemoveName(keys, name), rest);
    }
  }

  lemma {:induction false} KeysAreMembers<T>(a: Assoc<T>)
    ensures forall n :: Has(a, n) <==> n in KeyList(a)
  {
    if a.Entry? {
      KeysAreMembers(a.tail);
    }
  }

  lemma {:induction false} InsertKeepsMembers(name: text, names: seq<text>)
    ensures forall n :: n in InsertName(name, names) <==> n == name || n in names
    ensures |InsertName(name, names)| == |names| + 1
  {
    if names != [] && !Less(name, names[0]) {
      InsertKeepsMembers(name, names[1..]);
      assert names == [names[0]] + names[1..];
    }
  }

  lemma {:induction false} SortKeepsMembers(names: seq<text>)
    ensures forall n :: n in SortNames(names) <==> n in names
    ensures |SortNames(names)| == |names|
  {
    if names != [] {
      SortKeepsMembers(names[1..]);
      InsertKeepsMembers(names[0], SortNames(names[1..]));
      assert names == [names[0]] + names[1..];
    }
  }

  lemma {:induction false} SizeOfKeyList<T>(a: Assoc<T>)
    ensures |KeyList(a)| == Size(a)
  {
    if a.Entry? {
      SizeOfKeyList(a.tail);
    }
  }

  lemma ExactMembers<T>(a: Assoc<T>, names: seq<text>)
    requires ExactKeys(a, names)
    ensures forall n :: Has(a, n) <==> n in names
    ensures Size(a) == |names|
  {
    SortKeepsMembers(KeyList(a));
    SortKeepsMembers(names);
    KeysAreMembers(a);
    SizeOfKeyList(a);
    assert forall n :: n in SortNames(names) <==> n in names;
  }

  /** An object has exactly the keys the auditor demands if and only if it passes the gate's join
      and has every one of them. */
  lemma JoinAndPresenceAreExact<T>(a: Assoc<T>, names: seq<text>)
    requires NoRepeats(names) && names != []
    ensures ExactKeys(a, names) <==> JoinMatches(a, names) && forall n :: n in names ==> Has(a, n)
  {
    if ExactKeys(a, names) {
      ExactMembers(a, names);
    } else if JoinMatches(a, names) && forall n :: n in names ==> Has(a, n) {
      var keys := KeyList(a);
      KeysAreMembers(a);
      SortCost(keys);
      SortCost(names);
      JoinLength(SortNames(keys));
      JoinLength(SortNames(names));
      assert names[0] in keys;
      NoRoomForMore(keys, names);
    }
  }

  lemma SortOne(name: text)
    ensures SortNames([name]) == [name]
  {
    assert [name][1..] == [] && SortNames([]) == [];
    assert [name] + [] == [name];
  }

  // An object whose only key is the join of all the names.
  function Joint(names: seq<text>): Assoc<Json> {
    Entry(JoinBars(SortNames(names)), Null, Empty)
  }

  /** The join alone is not enough, for any list of several names: it cannot tell them from the
      one key that spells their join. */
  lemma JoinAloneIsNotExact(names: seq<text>)
    requires |names| >= 2
    ensures JoinMatches(Joint(names), names) && !ExactKeys(Joint(names), names)
  {
    var key := JoinBars(SortNames(names));
    assert KeyList(Joint(names)) == [key];
    SortOne(key);
    SortCost(names);
  }
}
