/** A canonical text is JSON for its value: reading it gives the value back. So two values have the same canonical
    text exactly when they are the same JSON value. */
module CanonicalTextProofs {
  import opened Common
  import opened JsonText
  import opened CanonicalText
  import opened JsonReader
  import opened KeyOrderProofs

  // ---- What a rendering looks like ----

  function Items(items: seq<Json>): (rs: seq<Rendering>)
    ensures |rs| == |items| && forall i :: 0 <= i < |rs| ==> rs[i] == CanonicalJson(items[i])
  {
    seq(|items|, i requires 0 <= i < |items| => CanonicalJson(items[i]))
  }

  function Fields(fields: seq<(Text, Json)>): (rs: seq<(Text, Rendering)>)
    ensures |rs| == |fields| && forall i :: 0 <= i < |rs| ==> rs[i] == (fields[i].0, CanonicalJson(fields[i].1))
  {
    seq(|fields|, i requires 0 <= i < |fields| => (fields[i].0, CanonicalJson(fields[i].1)))
  }

  predicate HasUndefined(fields: seq<(Text, Json)>) {
    exists i :: 0 <= i < |fields| && fields[i].1 == Undefined
  }

  lemma ArrayRendering(items: seq<Json>)
    ensures CanonicalJson(JArray(items)) == Enclosed(OPEN_BRACKET, Collect(Items(items)), CLOSE_BRACKET)
  {
    assert Items(items) == seq(|items|, i requires 0 <= i < |items| => CanonicalJson(items[i]));
  }

  lemma ObjectRendering(fields: seq<(Text, Json)>)
    ensures CanonicalJson(JObject(fields)) ==
            if HasUndefined(fields) then Err(UndefinedField)
            else Enclosed(OPEN_BRACE, Collect(Members(SortByKey(Fields(fields)))), CLOSE_BRACE)
  {
    assert Fields(fields) == seq(|fields|, i requires 0 <= i < |fields| => (fields[i].0, CanonicalJson(fields[i].1)));
  }

  ghost function Meanings(fields: seq<(Text, Json)>): (ms: seq<(Text, Value)>)
    ensures |ms| == |fields| && forall i :: 0 <= i < |ms| ==> ms[i] == (fields[i].0, Meaning(fields[i].1))
  {
    seq(|fields|, i requires 0 <= i < |fields| => (fields[i].0, Meaning(fields[i].1)))
  }

  lemma ObjectMeaning(fields: seq<(Text, Json)>)
    ensures Meaning(JObject(fields)) == VObject(MapOf(Meanings(fields)))
  {
    assert Meanings(fields) == seq(|fields|, i requires 0 <= i < |fields| => (fields[i].0, Meaning(fields[i].1)));
  }

  lemma {:induction false} CollectSpec(rs: seq<Rendering>)
    ensures Collect(rs).Ok? <==> forall i :: 0 <= i < |rs| ==> rs[i].Ok?
    ensures Collect(rs).Ok? ==> |Collect(rs).value| == |rs| && forall i :: 0 <= i < |rs| ==> rs[i] == Ok(Collect(rs).value[i])
  {
    if rs != [] {
      CollectSpec(rs[1..]);
      assert forall i :: 1 <= i < |rs| ==> rs[i] == rs[1..][i - 1];
      assert rs[0].Ok? && Collect(rs[1..]).Ok? ==> Collect(rs).value == [rs[0].value] + Collect(rs[1..]).value;
    }
  }

  /** The parts of an array's text. */
  lemma ArrayParts(items: seq<Json>) returns (parts: seq<Text>)
    requires CanonicalJson(JArray(items)).Ok?
    ensures |parts| == |items| && forall i :: 0 <= i < |items| ==> CanonicalJson(items[i]) == Ok(parts[i])
    ensures CanonicalJson(JArray(items)).value == [OPEN_BRACKET] + Joined(parts) + [CLOSE_BRACKET]
  {
    ArrayRendering(items);
    CollectSpec(Items(items));
    parts := Collect(Items(items)).value;
  }

  /** The parts of an object's text: the members of its fields, sorted by key. */
  lemma ObjectParts(fields: seq<(Text, Json)>) returns (parts: seq<Text>)
    requires CanonicalJson(JObject(fields)).Ok?
    ensures !HasUndefined(fields)
    ensures var sorted := SortByKey(Fields(fields));
            && |parts| == |sorted|
            && forall i :: 0 <= i < |parts| ==> sorted[i].1.Ok? && parts[i] == Quoted(sorted[i].0) + [COLON] + sorted[i].1.value
    ensures CanonicalJson(JObject(fields)).value == [OPEN_BRACE] + Joined(parts) + [CLOSE_BRACE]
  {
    hide Quoted, SortByKey;
    ObjectRendering(fields);
    CollectSpec(Members(SortByKey(Fields(fields))));
    parts := Collect(Members(SortByKey(Fields(fields)))).value;
  }

  lemma SortedFieldIsField(fields: seq<(Text, Json)>, e: (Text, Rendering)) returns (i: nat)
    requires e in SortByKey(Fields(fields))
    ensures i < |fields| && e == (fields[i].0, CanonicalJson(fields[i].1))
  {
    SortKeepsEntries(Fields(fields));
    i :| 0 <= i < |fields| && Fields(fields)[i] == e;
  }

  // ---- Reading lists back ----

  predicate ClosesOrSeparates(u: Unit) {
    u == COMMA || u == CLOSE_BRACKET || u == CLOSE_BRACE
  }

  /** What may follow a value inside a larger text. */
  predicate Ends(rest: Text) {
    rest == [] || ClosesOrSeparates(rest[0])
  }

  /** The text reads as a value, the same one wherever it stands, and the reading stops behind it. */
  ghost predicate ReadsAlone(p: Text) {
    ReadValue(p).Read? && forall rest :: Ends(rest) ==> ReadValue(p + rest) == Read(ReadValue(p).value, rest)
  }

  ghost predicate MemberReads(p: Text, m: (Text, Value)) {
    forall rest :: Ends(rest) ==> ReadMember(p + rest) == Read(m, rest)
  }

  lemma ReadStarts(t: Text)
    ensures ReadValue(t).Read? ==> t != [] && !ClosesOrSeparates(t[0])
    ensures ReadMember(t).Read? ==> t != [] && !ClosesOrSeparates(t[0])
  {
  }

  /** What stands behind the first of the parts. */
  function Behind(parts: seq<Text>, close: Unit, rest: Text): Text
    requires parts != []
  {
    if |parts| == 1 then [close] + rest else [COMMA] + (Joined(parts[1..]) + [close] + rest)
  }

  lemma JoinedStep(parts: seq<Text>, close: Unit, rest: Text)
    requires parts != [] && ClosesOrSeparates(close)
    ensures Joined(parts) + [close] + rest == parts[0] + Behind(parts, close, rest) && Ends(Behind(parts, close, rest))
  {
    if |parts| == 1 {
      Associative(parts[0], [close], rest);
    } else {
      JoinedMore(parts, close, rest);
    }
  }

  lemma JoinedMore(parts: seq<Text>, close: Unit, rest: Text)
    requires |parts| > 1
    ensures Joined(parts) + [close] + rest == parts[0] + ([COMMA] + (Joined(parts[1..]) + [close] + rest))
  {
    var more := Joined(parts[1..]);
    assert Joined(parts) == parts[0] + [COMMA] + more;
    Regroup(parts[0] + [COMMA], more, [close], rest);
    Associative(parts[0], [COMMA], more + [close] + rest);
  }

  lemma Associative(p: Text, q: Text, r: Text)
    ensures (p + q) + r == p + (q + r)
  {
  }

  lemma ListStep(ps: seq<Text>, close: Unit, rest: Text)
    requires ps != [] && ClosesOrSeparates(close)
    ensures var after := Behind(ps, close, rest);
            && Joined(ps) + [close] + rest == ps[0] + after && Ends(after)
            && after[0] == (if |ps| == 1 then close else COMMA)
            && after[1..] == (if |ps| == 1 then rest else Joined(ps[1..]) + [close] + rest)
  {
    JoinedStep(ps, close, rest);
  }

  lemma {:induction false} ItemsReadBack(ps: seq<Text>, vs: seq<Value>, rest: Text)
    requires ps != [] && |ps| == |vs|
    requires forall i :: 0 <= i < |ps| ==> ReadsAlone(ps[i]) && vs[i] == ReadValue(ps[i]).value
    ensures ReadItems(Joined(ps) + [CLOSE_BRACKET] + rest) == Read(vs, rest)
    decreases |ps|
  {
    hide ReadValue, Joined;
    ListStep(ps, CLOSE_BRACKET, rest);
    var after := Behind(ps, CLOSE_BRACKET, rest);
    assert ReadValue(ps[0] + after) == Read(vs[0], after);
    if |ps| > 1 {
      ItemsReadBack(ps[1..], vs[1..], rest);
      assert vs == [vs[0]] + vs[1..];
    } else {
      assert vs == [vs[0]];
    }
  }

  lemma {:induction false} MembersReadBack(ps: seq<Text>, ms: seq<(Text, Value)>, rest: Text)
    requires ps != [] && |ps| == |ms|
    requires forall i :: 0 <= i < |ps| ==> MemberReads(ps[i], ms[i])
    ensures ReadMembers(Joined(ps) + [CLOSE_BRACE] + rest) == Read(ms, rest)
    decreases |ps|
  {
    hide ReadMember, Joined;
    ListStep(ps, CLOSE_BRACE, rest);
    var after := Behind(ps, CLOSE_BRACE, rest);
    assert ReadMember(ps[0] + after) == Read(ms[0], after);
    if |ps| > 1 {
      MembersReadBack(ps[1..], ms[1..], rest);
      assert ms == [ms[0]] + ms[1..];
    } else {
      assert ms == [ms[0]];
    }
  }

  lemma ReadNamed(t: Text, k: Text, more: Text)
    requires ReadQuoted(t) == Read(k, [COLON] + more) && ReadValue(more).Read?
    ensures ReadMember(t) == Read((k, ReadValue(more).value), ReadValue(more).rest)
  {
    hide ReadValue, ReadQuoted;
    assert ([COLON] + more)[1..] == more;
  }

  lemma MemberReadBack(k: Text, p: Text)
    requires ReadsAlone(p)
    ensures MemberReads(Quoted(k) + [COLON] + p, (k, ReadValue(p).value))
  {
    hide ReadValue, ReadQuoted, Quoted, ReadMember;
    forall rest | Ends(rest) ensures ReadMember(Quoted(k) + [COLON] + p + rest) == Read((k, ReadValue(p).value), rest) {
      QuotedReadBack(k, [COLON] + (p + rest));
      assert Quoted(k) + [COLON] + p + rest == Quoted(k) + ([COLON] + (p + rest));
      ReadNamed(Quoted(k) + [COLON] + p + rest, k, p + rest);
    }
  }

  lemma ReadBracketed(t: Text)
    requires NextIs(t, '[')
    ensures NextIs(t[1..], ']') ==> ReadValue(t) == Read(VArray([]), t[2..])
    ensures !NextIs(t[1..], ']') && ReadItems(t[1..]).Read? ==>
      ReadValue(t) == Read(VArray(ReadItems(t[1..]).value), ReadItems(t[1..]).rest)
  {
    hide ReadItems;
  }

  lemma ReadBraced(t: Text)
    requires NextIs(t, '{')
    ensures NextIs(t[1..], '}') ==> ReadValue(t) == Read(VObject(map[]), t[2..])
    ensures !NextIs(t[1..], '}') && ReadMembers(t[1..]).Read? ==>
      ReadValue(t) == Read(VObject(ObjectOf(ReadMembers(t[1..]).value)), ReadMembers(t[1..]).rest)
  {
    hide ReadMembers;
  }

  /** An array is read item by item. */
  lemma ArrayReadBack(ps: seq<Text>, vs: seq<Value>, rest: Text)
    requires |ps| == |vs| && forall i :: 0 <= i < |ps| ==> ReadsAlone(ps[i]) && vs[i] == ReadValue(ps[i]).value
    ensures ReadValue([OPEN_BRACKET] + Joined(ps) + [CLOSE_BRACKET] + rest) == Read(VArray(vs), rest)
  {
    hide ReadItems, Joined, ReadValue;
    var t := [OPEN_BRACKET] + Joined(ps) + [CLOSE_BRACKET] + rest;
    assert t[1..] == Joined(ps) + [CLOSE_BRACKET] + rest;
    ReadBracketed(t);
    if ps == [] {
      NothingJoined();
      assert t[2..] == rest;
    } else {
      ItemsReadBack(ps, vs, rest);
      ListStep(ps, CLOSE_BRACKET, rest);
      ReadsSome(ps[0]);
      ReadStarts(ps[0]);
      assert t[1] == ps[0][0];
    }
  }

  lemma NothingJoined()
    ensures Joined([]) == []
  {
  }

  /** An object is read member by member. */
  lemma ObjectReadBack(ps: seq<Text>, ms: seq<(Text, Value)>, rest: Text)
    requires |ps| == |ms| && forall i :: 0 <= i < |ps| ==> MemberReads(ps[i], ms[i])
    ensures ReadValue([OPEN_BRACE] + Joined(ps) + [CLOSE_BRACE] + rest) == Read(VObject(ObjectOf(ms)), rest)
  {
    hide ReadMembers, Joined, MemberReads, ReadValue;
    var t := [OPEN_BRACE] + Joined(ps) + [CLOSE_BRACE] + rest;
    assert t[1..] == Joined(ps) + [CLOSE_BRACE] + rest;
    ReadBraced(t);
    if ps == [] {
      NothingJoined();
      assert t[2..] == rest && ObjectOf(ms) == map[];
    } else {
      MembersReadBack(ps, ms, rest);
      ListStep(ps, CLOSE_BRACE, rest);
      MemberStarts(ps[0], ms[0]);
      assert t[1] == ps[0][0];
    }
  }

  lemma MemberStarts(p: Text, m: (Text, Value))
    requires MemberReads(p, m)
    ensures p != [] && !ClosesOrSeparates(p[0])
  {
    assert p + [] == p;
    assert Ends([]) && ReadMember(p + []) == Read(m, []);
    ReadStarts(p);
  }

  // ---- The round trip ----

  lemma ScalarReadBack(v: Json, rest: Text)
    requires !v.JArray? && !v.JObject? && CanonicalJson(v).Ok? && Ends(rest)
    ensures ReadValue(CanonicalJson(v).value + rest) == Read(Meaning(v), rest)
  {
    hide ReadQuoted, ReadInteger, Quoted, Decimal;
    var t := CanonicalJson(v).value + rest;
    match v
    case JNumber(n) =>
      DecimalReadBack(n, rest);
      assert t[0] == Decimal(n)[0];
    case JString(s) =>
      QuotedReadBack(s, rest);
      assert t[0] == QUOTE by { QuotedStarts(s); }
    case JNull => WordsReadBack(rest);
    case JBool(b) => WordsReadBack(rest);
    case _ =>
  }

  lemma WordsReadBack(rest: Text)
    ensures ReadValue(NULL_TEXT + rest) == Read(VNull, rest)
    ensures ReadValue(TRUE_TEXT + rest) == Read(VBool(true), rest)
    ensures ReadValue(FALSE_TEXT + rest) == Read(VBool(false), rest)
  {
    var n, t, f := NULL_TEXT + rest, TRUE_TEXT + rest, FALSE_TEXT + rest;
    assert n[4..] == rest && t[4..] == rest && f[5..] == rest;
    assert StartsWith(n, "null") && StartsWith(t, "true") && StartsWith(f, "false");
    assert t[0] != 'n' as int && f[0] != 'n' as int && f[0] != 't' as int;
  }

  lemma QuotedStarts(s: Text)
    ensures |Quoted(s)| > 0 && Quoted(s)[0] == QUOTE
  {
  }

  lemma ReadsAloneIntro(p: Text, v: Value)
    requires forall rest :: Ends(rest) ==> ReadValue(p + rest) == Read(v, rest)
    ensures ReadsAlone(p) && ReadValue(p) == Read(v, [])
  {
    hide ReadValue;
    assert p + [] == p && Ends([]);
  }

  /** The members of the sorted fields, as they are read. */
  ghost function MembersOf(sorted: seq<(Text, Rendering)>): (ms: seq<(Text, Value)>)
    requires forall i :: 0 <= i < |sorted| ==> sorted[i].1.Ok? && ReadValue(sorted[i].1.value).Read?
    ensures |ms| == |sorted| && forall i :: 0 <= i < |ms| ==> ms[i] == (sorted[i].0, ReadValue(sorted[i].1.value).value)
  {
    seq(|sorted|, i requires 0 <= i < |sorted| => (sorted[i].0, ReadValue(sorted[i].1.value).value))
  }

  /** The text, if there is one, reads as what the value means. */
  ghost predicate ReadsAsMeant(v: Json) {
    CanonicalJson(v).Ok? ==> ReadValue(CanonicalJson(v).value) == Read(Meaning(v), [])
  }

  /** The text, if there is one, reads as one value wherever it stands. */
  ghost predicate TextReads(v: Json) {
    CanonicalJson(v).Ok? ==> ReadsAlone(CanonicalJson(v).value)
  }

  lemma ReadsSome(p: Text)
    requires ReadsAlone(p)
    ensures ReadValue(p).Read? && ReadValue(p).rest == []
  {
    hide ReadValue;
    assert p + [] == p && Ends([]);
  }

  /** Every canonical text reads as one value wherever it stands, and as the value it was made from. */
  lemma {:induction false} TextReadsBack(v: Json)
    ensures TextReads(v)
    ensures WellKeyed(v) ==> ReadsAsMeant(v)
  {
    hide ReadsAlone, ReadValue, CanonicalJson, Meaning, TextReads, ReadsAsMeant;
    match v
    case JArray(items) =>
      forall i | 0 <= i < |items| ensures TextReads(items[i]) && (WellKeyed(v) ==> ReadsAsMeant(items[i])) {
        TextReadsBack(items[i]);
      }
      ArrayTextReadsBack(items);
    case JObject(fields) =>
      forall i | 0 <= i < |fields| ensures TextReads(fields[i].1) && (WellKeyed(v) ==> ReadsAsMeant(fields[i].1)) {
        TextReadsBack(fields[i].1);
      }
      ObjectTextReadsBack(fields);
    case _ => ScalarTextReadsBack(v);
  }

  lemma ScalarTextReadsBack(v: Json)
    requires !v.JArray? && !v.JObject?
    ensures TextReads(v) && ReadsAsMeant(v)
  {
    hide ReadsAlone, ReadValue, CanonicalJson, Meaning;
    if CanonicalJson(v).Ok? {
      forall rest | Ends(rest) ensures ReadValue(CanonicalJson(v).value + rest) == Read(Meaning(v), rest) {
        ScalarReadBack(v, rest);
      }
      ReadsAloneIntro(CanonicalJson(v).value, Meaning(v));
    }
  }

  lemma ArrayTextReadsBack(items: seq<Json>)
    requires forall i :: 0 <= i < |items| ==> TextReads(items[i])
    ensures TextReads(JArray(items))
    ensures (forall i :: 0 <= i < |items| ==> ReadsAsMeant(items[i])) ==> ReadsAsMeant(JArray(items))
  {
    hide ReadsAlone, ReadValue, CanonicalJson, Joined, Meaning;
    if CanonicalJson(JArray(items)).Ok? {
      var ps := ArrayParts(items);
      forall i | 0 <= i < |ps| ensures ReadsAlone(ps[i]) && ReadValue(ps[i]).Read? {
        assert TextReads(items[i]);
        ReadsSome(ps[i]);
      }
      var vs := seq(|ps|, i requires 0 <= i < |ps| => ReadValue(ps[i]).value);
      var p := CanonicalJson(JArray(items)).value;
      forall rest | Ends(rest) ensures ReadValue(p + rest) == Read(VArray(vs), rest) {
        ArrayReadBack(ps, vs, rest);
      }
      ReadsAloneIntro(p, VArray(vs));
      if forall i :: 0 <= i < |items| ==> ReadsAsMeant(items[i]) {
        assert forall i :: 0 <= i < |items| ==> ReadsAsMeant(items[i]) && vs[i] == Meaning(items[i]);
        ArrayMeaning(items, vs);
      }
    }
  }

  lemma ArrayMeaning(items: seq<Json>, vs: seq<Value>)
    requires |vs| == |items| && forall i :: 0 <= i < |items| ==> vs[i] == Meaning(items[i])
    ensures Meaning(JArray(items)) == VArray(vs)
  {
  }

  lemma ObjectTextReadsBack(fields: seq<(Text, Json)>)
    requires forall i :: 0 <= i < |fields| ==> TextReads(fields[i].1)
    ensures TextReads(JObject(fields))
    ensures DistinctKeys(fields) && (forall i :: 0 <= i < |fields| ==> ReadsAsMeant(fields[i].1)) ==> ReadsAsMeant(JObject(fields))
  {
    hide ReadsAlone, ReadValue, CanonicalJson, Joined, SortByKey, Quoted, Meaning, ReadsAsMeant;
    if CanonicalJson(JObject(fields)).Ok? {
      var sorted := SortByKey(Fields(fields));
      var ps := ObjectParts(fields);
      forall i | 0 <= i < |sorted| ensures ReadsAlone(sorted[i].1.value) && ReadValue(sorted[i].1.value).Read? {
        var k := SortedFieldIsField(fields, sorted[i]);
        assert TextReads(fields[k].1);
        ReadsSome(sorted[i].1.value);
      }
      var ms := MembersOf(sorted);
      forall i | 0 <= i < |ps| ensures MemberReads(ps[i], ms[i]) {
        MemberReadBack(sorted[i].0, sorted[i].1.value);
      }
      var p := CanonicalJson(JObject(fields)).value;
      forall rest | Ends(rest) ensures ReadValue(p + rest) == Read(VObject(ObjectOf(ms)), rest) {
        ObjectReadBack(ps, ms, rest);
      }
      ReadsAloneIntro(p, VObject(ObjectOf(ms)));
      if DistinctKeys(fields) && (forall i :: 0 <= i < |fields| ==> ReadsAsMeant(fields[i].1)) {
        MembersMeanFields(fields, ms);
        ObjectMeaning(fields);
        MeantAs(JObject(fields), VObject(ObjectOf(ms)));
      }
    }
    NoTextReads(JObject(fields));
  }

  lemma MeantAs(v: Json, m: Value)
    requires CanonicalJson(v).Ok? && ReadValue(CanonicalJson(v).value) == Read(m, []) && m == Meaning(v)
    ensures ReadsAsMeant(v)
  {
    hide CanonicalJson, ReadValue, Meaning;
  }

  lemma NoTextReads(v: Json)
    ensures CanonicalJson(v).Err? ==> TextReads(v) && ReadsAsMeant(v)
  {
    hide CanonicalJson, ReadValue, Meaning;
  }

  lemma MembersMeanFields(fields: seq<(Text, Json)>, ms: seq<(Text, Value)>)
    requires DistinctKeys(fields) && forall i :: 0 <= i < |fields| ==> ReadsAsMeant(fields[i].1)
    requires var sorted := SortByKey(Fields(fields));
             |ms| == |sorted| && forall i :: 0 <= i < |ms| ==>
               sorted[i].1.Ok? && ReadValue(sorted[i].1.value).Read? && ms[i] == (sorted[i].0, ReadValue(sorted[i].1.value).value)
    ensures ObjectOf(ms) == MapOf(Meanings(fields))
  {
    hide ReadValue, CanonicalJson, SortByKey, Meaning, ObjectOf, MapOf;
    var sorted := SortByKey(Fields(fields));
    KeysOfFields(fields);
    SortSorts(Fields(fields));
    SortKeepsEntries(Fields(fields));
    KeysOfSorted(sorted);
    forall e ensures e in ms <==> e in Meanings(fields) {
      if e in ms {
        var i := EntryAt(ms, e);
        var k := SortedFieldIsField(fields, sorted[i]);
        assert ReadsAsMeant(fields[k].1) && Meanings(fields)[k] == e;
      }
      if e in Meanings(fields) {
        var k := EntryAt(Meanings(fields), e);
        assert Fields(fields)[k] in sorted;
        var i := EntryAt(sorted, Fields(fields)[k]);
        assert ReadsAsMeant(fields[k].1) && ms[i] == e;
      }
    }
    ObjectIsMap(ms);
    SameMapIffSameEntries(ms, Meanings(fields));
  }

  lemma KeysOfSorted<V(!new)>(sorted: seq<(Text, V)>)
    requires SortedByKey(sorted)
    ensures DistinctKeys(sorted)
  {
    forall i, k | 0 <= i < k < |sorted| ensures sorted[i].0 != sorted[k].0 { BeforeIrreflexive(sorted[i].0); }
  }

  /** Members with distinct names: all of them count. */
  lemma {:induction false} ObjectIsMap(ms: seq<(Text, Value)>)
    requires DistinctKeys(ms)
    ensures ObjectOf(ms) == MapOf(ms)
    decreases |ms|
  {
    if ms != [] {
      var tail := ms[1..];
      assert forall i :: 0 <= i < |tail| ==> tail[i] == ms[i + 1];
      ObjectIsMap(tail);
      MapOfEntries(tail);
    }
  }

  lemma KeysOfFields(fields: seq<(Text, Json)>)
    requires DistinctKeys(fields)
    ensures DistinctKeys(Fields(fields)) && DistinctKeys(Meanings(fields))
  {
  }

  lemma EntryAt<V(!new)>(entries: seq<(Text, V)>, e: (Text, V)) returns (i: nat)
    requires e in entries
    ensures i < |entries| && entries[i] == e
  {
    i :| 0 <= i < |entries| && entries[i] == e;
  }

  /** The canonical text of a value is JSON for that value: parsing it gives exactly the value meant. */
  lemma ParsedBack(v: Json)
    requires CanonicalJson(v).Ok? && WellKeyed(v)
    ensures ReadText(CanonicalJson(v).value) == Some(Meaning(v))
  {
    hide ReadValue, CanonicalJson, Meaning, WellKeyed;
    TextReadsBack(v);
  }

  /** In the text of an object each name comes once, in code-unit order. */
  lemma NamesInOrder(fields: seq<(Text, Json)>)
    requires CanonicalJson(JObject(fields)).Ok? && DistinctKeys(fields) && fields != []
    ensures var ms := ReadMembers(CanonicalJson(JObject(fields)).value[1..]);
            ms.Read? && ms.rest == [] && |ms.value| == |fields| && SortedByKey(ms.value)
  {
    hide ReadsAlone, ReadValue, CanonicalJson, Joined, SortByKey, Quoted, ReadMembers;
    var sorted := SortByKey(Fields(fields));
    var ps := ObjectParts(fields);
    forall i | 0 <= i < |sorted| ensures ReadsAlone(sorted[i].1.value) && ReadValue(sorted[i].1.value).Read? {
      var k := SortedFieldIsField(fields, sorted[i]);
      TextReadsBack(fields[k].1);
      ReadsSome(sorted[i].1.value);
    }
    var ms := MembersOf(sorted);
    forall i | 0 <= i < |ps| ensures MemberReads(ps[i], ms[i]) {
      MemberReadBack(sorted[i].0, sorted[i].1.value);
    }
    KeysOfFields(fields);
    SortSorts(Fields(fields));
    SortKeepsEntries(Fields(fields));
    assert |sorted| == |multiset(sorted)| == |multiset(Fields(fields))| == |fields|;
    MembersReadBack(ps, ms, []);
    assert CanonicalJson(JObject(fields)).value[1..] == Joined(ps) + [CLOSE_BRACE] + [];
  }

  /** Equal texts come only from the same JSON value. */
  lemma SameTextSameMeaning(v: Json, w: Json)
    requires WellKeyed(v) && WellKeyed(w)
    requires CanonicalJson(v).Ok? && CanonicalJson(v) == CanonicalJson(w)
    ensures Meaning(v) == Meaning(w)
  {
    hide CanonicalJson, Meaning, WellKeyed, ReadText;
    ParsedBack(v);
    ParsedBack(w);
  }

  // ---- Same value, same text ----

  lemma UndefinedMeansUndefined(x: Json)
    ensures x == Undefined <==> Meaning(x) == VOther(Undefined)
  {
  }

  lemma SameUndefined(a: seq<(Text, Json)>, b: seq<(Text, Json)>)
    requires forall e :: e in Meanings(a) ==> e in Meanings(b)
    ensures HasUndefined(a) ==> HasUndefined(b)
  {
    hide Meaning;
    if HasUndefined(a) {
      var i :| 0 <= i < |a| && a[i].1 == Undefined;
      UndefinedMeansUndefined(a[i].1);
      assert Meanings(a)[i] in Meanings(b);
      var k := EntryAt(Meanings(b), Meanings(a)[i]);
      UndefinedMeansUndefined(b[k].1);
    }
  }

  lemma SameRenderedEntries(a: seq<(Text, Json)>, b: seq<(Text, Json)>)
    requires forall e :: e in Meanings(a) ==> e in Meanings(b)
    requires forall i, k | 0 <= i < |a| && 0 <= k < |b| && Meanings(a)[i] == Meanings(b)[k] :: Fields(a)[i] == Fields(b)[k]
    ensures forall e :: e in Fields(a) ==> e in Fields(b)
  {
    hide CanonicalJson, Meaning;
    forall e | e in Fields(a) ensures e in Fields(b) {
      var i := EntryAt(Fields(a), e);
      assert Meanings(a)[i] in Meanings(b);
      var k := EntryAt(Meanings(b), Meanings(a)[i]);
      assert Fields(b)[k] == e;
    }
  }

  /** The text, or the error, depends only on the value meant. */
  lemma {:induction false} SameMeaningSameText(v: Json, w: Json)
    requires WellKeyed(v) && WellKeyed(w) && Meaning(v) == Meaning(w)
    ensures CanonicalJson(v) == CanonicalJson(w)
  {
    match v
    case JArray(items) =>
      forall i | 0 <= i < |items| ensures CanonicalJson(items[i]) == CanonicalJson(w.items[i]) {
        assert Meaning(v).items[i] == Meaning(w).items[i];
        SameMeaningSameText(items[i], w.items[i]);
      }
      ArrayRendering(items);
      ArrayRendering(w.items);
      assert Items(items) == Items(w.items);
    case JObject(fields) =>
      ObjectMeaning(fields);
      ObjectMeaning(w.fields);
      KeysOfFields(fields);
      KeysOfFields(w.fields);
      SameMapIffSameEntries(Meanings(fields), Meanings(w.fields));
      forall i, k | 0 <= i < |fields| && 0 <= k < |w.fields| && Meanings(fields)[i] == Meanings(w.fields)[k]
        ensures Fields(fields)[i] == Fields(w.fields)[k]
      {
        SameMeaningSameText(fields[i].1, w.fields[k].1);
      }
      SameRenderedEntries(fields, w.fields);
      SameRenderedEntries(w.fields, fields);
      SortForgetsOrder(Fields(fields), Fields(w.fields));
      SameUndefined(fields, w.fields);
      SameUndefined(w.fields, fields);
      ObjectRendering(fields);
      ObjectRendering(w.fields);
    case _ =>
  }

  /** Values made of JSON values have a canonical text, and no others do. */
  lemma {:induction false} TextExistsIffJson(v: Json)
    ensures CanonicalJson(v).Ok? <==> IsJson(v)
  {
    match v
    case JArray(items) =>
      forall i | 0 <= i < |items| ensures CanonicalJson(items[i]).Ok? <==> IsJson(items[i]) {
        TextExistsIffJson(items[i]);
      }
      ArrayRendering(items);
      CollectSpec(Items(items));
    case JObject(fields) =>
      forall i | 0 <= i < |fields| ensures CanonicalJson(fields[i].1).Ok? <==> IsJson(fields[i].1) {
        TextExistsIffJson(fields[i].1);
      }
      ObjectRendering(fields);
      MembersOk(fields);
      CollectSpec(Members(SortByKey(Fields(fields))));
    case _ =>
  }

  lemma MembersOk(fields: seq<(Text, Json)>)
    ensures var ms := Members(SortByKey(Fields(fields)));
            (forall i :: 0 <= i < |ms| ==> ms[i].Ok?) <==> (forall i :: 0 <= i < |fields| ==> CanonicalJson(fields[i].1).Ok?)
  {
    hide SortByKey, CanonicalJson, Quoted;
    var sorted := SortByKey(Fields(fields));
    var ms := Members(sorted);
    SortKeepsEntries(Fields(fields));
    if forall i :: 0 <= i < |ms| ==> ms[i].Ok? {
      forall i | 0 <= i < |fields| ensures CanonicalJson(fields[i].1).Ok? {
        assert Fields(fields)[i] in sorted;
        var k := EntryAt(sorted, Fields(fields)[i]);
        assert ms[k].Ok?;
      }
    }
    if forall i :: 0 <= i < |fields| ==> CanonicalJson(fields[i].1).Ok? {
      forall i | 0 <= i < |ms| ensures ms[i].Ok? {
        var k := SortedFieldIsField(fields, sorted[i]);
      }
    }
  }

  /** The main result: canonical texts decide equality of JSON values up to key order. */
  lemma SameTextIffSameValue(v: Json, w: Json)
    requires WellKeyed(v) && WellKeyed(w) && IsJson(v) && IsJson(w)
    ensures CanonicalJson(v).Ok? && CanonicalJson(w).Ok?
    ensures CanonicalJson(v).value == CanonicalJson(w).value <==> Meaning(v) == Meaning(w)
  {
    hide CanonicalJson, Meaning, WellKeyed, IsJson;
    TextExistsIffJson(v);
    TextExistsIffJson(w);
    if CanonicalJson(v).value == CanonicalJson(w).value { SameTextSameMeaning(v, w); }
    if Meaning(v) == Meaning(w) { SameMeaningSameText(v, w); }
  }

  /** A digest exists exactly of JSON values, and by a hash without collisions it determines the value up to
      key order. */
  lemma SameDigestIffSameValue<D(!new)>(hash: Text -> D, v: Json, w: Json)
    requires Injective(hash) && WellKeyed(v) && WellKeyed(w)
    ensures ContentDigest(hash, v).Ok? <==> IsJson(v)
    ensures IsJson(v) ==> (ContentDigest(hash, v) == ContentDigest(hash, w) <==> Meaning(v) == Meaning(w))
  {
    hide CanonicalJson, Meaning, WellKeyed, IsJson;
    TextExistsIffJson(v);
    TextExistsIffJson(w);
    if IsJson(v) && ContentDigest(hash, v) == ContentDigest(hash, w) { SameTextSameMeaning(v, w); }
    if Meaning(v) == Meaning(w) { SameMeaningSameText(v, w); }
  }

  /** A text inside a larger one can be read in only one way: it ends where its value ends. */
  lemma NoTextIsPrefixOfAnother(v: Json, w: Json, r: Text, s: Text)
    requires CanonicalJson(v).Ok? && CanonicalJson(w).Ok? && Ends(r) && Ends(s)
    requires CanonicalJson(v).value + r == CanonicalJson(w).value + s
    ensures CanonicalJson(v) == CanonicalJson(w) && r == s
  {
    hide CanonicalJson, ReadValue;
    TextReadsBack(v);
    TextReadsBack(w);
    ReadsSome(CanonicalJson(v).value);
    ReadsSome(CanonicalJson(w).value);
    var p, q := CanonicalJson(v).value, CanonicalJson(w).value;
    assert r == s;
    assert p == (p + r)[..|p|] && q == (q + s)[..|q|];
  }
}
