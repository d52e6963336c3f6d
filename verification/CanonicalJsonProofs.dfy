/** The canonical printers are injective up to key order: a parser undoes them, and what they cannot tell apart is named exactly. */
module CanonicalJsonProofs {
  import opened Wrappers
  import opened JsonText
  import opened CanonicalJson

  // ---------------------------------------------------------------- sorting before or after printing

  lemma {:induction false} InsertPrints(style: Style, x: Keyed<Json>, s: seq<Keyed<Json>>)
    ensures PrintFields(style, Insert(x, s)) == Insert(PrintField(style, x), PrintFields(style, s))
  {
    if s != [] && Below(s[0].key, x.key) {
      InsertPrints(style, x, s[1..]);
      assert Insert(x, s) == [s[0]] + Insert(x, s[1..]);
      assert PrintFields(style, Insert(x, s)) == [PrintField(style, s[0])] + PrintFields(style, Insert(x, s[1..]));
      assert PrintFields(style, s) == [PrintField(style, s[0])] + PrintFields(style, s[1..]);
      assert PrintFields(style, s)[1..] == PrintFields(style, s[1..]);
    } else {
      assert ([x] + s)[1..] == s;
    }
  }

  lemma {:induction false} SortPrints(style: Style, s: seq<Keyed<Json>>)
    ensures SortByKey(PrintFields(style, s)) == PrintFields(style, SortByKey(s))
  {
    if s != [] {
      SortPrints(style, s[1..]);
      InsertPrints(style, s[0], SortByKey(s[1..]));
      assert PrintFields(style, s)[1..] == PrintFields(style, s[1..]);
    }
  }

  lemma {:induction false} InsertNormalizes(x: Keyed<Json>, s: seq<Keyed<Json>>)
    ensures NormalFields(Insert(x, s)) == Insert(Keyed(x.key, Normal(x.value)), NormalFields(s))
  {
    if s != [] && Below(s[0].key, x.key) {
      InsertNormalizes(x, s[1..]);
      assert Insert(x, s) == [s[0]] + Insert(x, s[1..]);
      assert NormalFields(s)[1..] == NormalFields(s[1..]);
    } else {
      assert ([x] + s)[1..] == s;
    }
  }

  lemma {:induction false} SortNormalizes(s: seq<Keyed<Json>>)
    ensures SortByKey(NormalFields(s)) == NormalFields(SortByKey(s))
  {
    if s != [] {
      SortNormalizes(s[1..]);
      InsertNormalizes(s[0], SortByKey(s[1..]));
      assert NormalFields(s)[1..] == NormalFields(s[1..]);
    }
  }

  // ---------------------------------------------------------------- what a printed value looks like

  /** Text that cannot continue a number. */
  predicate Delimited(rest: Text) {
    rest == [] || !IsNumberUnit(rest[0])
  }

  lemma PrintStart(v: Json)
    requires WellFormed(v)
    ensures var t := Print(ToolKey, v);
      t != [] && t[0] != COMMA && t[0] != CLOSE_BRACKET && t[0] != CLOSE_BRACE
  {
    if v.Str? {
      UnquoteQuote(v.s, []);
    }
  }

  lemma {:induction false} NumberIsTaken(token: Text, rest: Text)
    requires (forall u <- token :: IsNumberUnit(u)) && Delimited(rest)
    ensures NumberLength(token + rest) == |token|
  {
    if token == [] {
      assert token + rest == rest;
    } else {
      NumberIsTaken(token[1..], rest);
      assert (token + rest)[1..] == token[1..] + rest;
    }
  }

  lemma PrefixOf(prefix: Text, rest: Text)
    ensures StartsWith(prefix + rest, prefix) && (prefix + rest)[|prefix|..] == rest
  {
  }

  /** A text that begins with a character no literal begins with. */
  lemma NoLiteral(t: Text)
    requires t != [] && t[0] != 0x6e && t[0] != 0x74 && t[0] != 0x66 && t[0] != 0x75
    ensures !StartsWith(t, NULL_TEXT) && !StartsWith(t, TRUE_TEXT) && !StartsWith(t, FALSE_TEXT) && !StartsWith(t, UNDEFINED_TEXT)
  {
  }

  // ---------------------------------------------------------------- the round trip

  lemma NumRoundTrip(token: Text, rest: Text)
    requires IsNumberToken(token) && Delimited(rest)
    ensures ParseValue(token + rest) == Some((Num(token), rest))
  {
    var t := token + rest;
    NoLiteral(t);
    NumberIsTaken(token, rest);
    assert t[..|token|] == token && t[|token|..] == rest;
  }

  lemma StrRoundTrip(s: Text, rest: Text)
    ensures ParseValue(Quote(s) + rest) == Some((Str(s), rest))
  {
    hide Quote, Unquote;
    UnquoteQuote(s, rest);
    var t := Quote(s) + rest;
    NoLiteral(t);
  }

  lemma LiteralRoundTrip(v: Json, rest: Text)
    requires v.Undefined? || v.Null? || v.Bool?
    ensures ParseValue(Print(ToolKey, v) + rest) == Some((v, rest))
  {
    var t := Print(ToolKey, v) + rest;
    PrefixOf(Print(ToolKey, v), rest);
    assert t[0] == Print(ToolKey, v)[0];
  }

  /** One element of an array, in front of a comma or a closing bracket. */
  lemma ItemRoundTrip(v: Json, rest: Text)
    requires WellFormed(v) && rest != [] && (rest[0] == COMMA || rest[0] == CLOSE_BRACKET)
    requires !v.Undefined? ==> ParseValue(Print(ToolKey, v) + rest) == Some((Normal(v), rest))
    ensures ParseItem(PrintItem(ToolKey, v) + rest) == Some((Normal(v), rest))
  {
    hide Print, ParseValue;
    PrintStart(v);
    if v.Undefined? {
      assert [] + rest == rest;
    } else {
      assert (Print(ToolKey, v) + rest)[0] == Print(ToolKey, v)[0];
    }
  }

  lemma LastItem(t: Text, v: Json, rest: Text)
    requires ParseItem(t) == Some((v, [CLOSE_BRACKET] + rest))
    ensures ParseItems(t) == Some(([v], rest))
  {
    assert ([CLOSE_BRACKET] + rest)[1..] == rest;
  }

  lemma EarlierItem(t: Text, v: Json, more: Text, items: seq<Json>, rest: Text)
    requires ParseItem(t) == Some((v, [COMMA] + more)) && ParseItems(more) == Some((items, rest))
    ensures ParseItems(t) == Some(([v] + items, rest))
  {
    assert ([COMMA] + more)[1..] == more;
  }

  lemma {:induction false} ItemsRoundTrip(items: seq<Json>, rest: Text)
    requires items != [] && forall i :: 0 <= i < |items| ==> WellFormed(items[i]) && HasNoLoneUndefined(items[i])
    ensures ParseItems(Join(PrintItems(ToolKey, items)) + ([CLOSE_BRACKET] + rest)) == Some((NormalItems(items), rest))
    decreases items, 0
  {
    hide ParseItem, ParseItems, ParseValue, Print, PrintItem, WellFormed, HasNoLoneUndefined, Normal;
    var text, end := PrintItem(ToolKey, items[0]), [CLOSE_BRACKET] + rest;
    assert items[0] in items;
    if |items| == 1 {
      assert Join(PrintItems(ToolKey, items)) == text;
      if !items[0].Undefined? {
        RoundTrip(items[0], end);
      }
      ItemRoundTrip(items[0], end);
      LastItem(text + end, Normal(items[0]), rest);
      assert NormalItems(items) == [Normal(items[0])];
    } else {
      ItemsRoundTrip(items[1..], rest);
      var more := Join(PrintItems(ToolKey, items[1..])) + end;
      PrintItemsSplits(items);
      assert Join(PrintItems(ToolKey, items)) + end == text + ([COMMA] + more);
      if !items[0].Undefined? {
        RoundTrip(items[0], [COMMA] + more);
      }
      ItemRoundTrip(items[0], [COMMA] + more);
      EarlierItem(text + ([COMMA] + more), Normal(items[0]), more, NormalItems(items[1..]), rest);
    }
  }

  lemma PrintItemsSplits(items: seq<Json>)
    requires |items| > 1
    ensures Join(PrintItems(ToolKey, items)) == PrintItem(ToolKey, items[0]) + [COMMA] + Join(PrintItems(ToolKey, items[1..]))
  {
    var parts := PrintItems(ToolKey, items);
    assert parts == [PrintItem(ToolKey, items[0])] + PrintItems(ToolKey, items[1..]);
    assert parts[1..] == PrintItems(ToolKey, items[1..]);
    assert PrintItems(ToolKey, items[1..]) == [PrintItem(ToolKey, items[1])] + PrintItems(ToolKey, items[1..][1..]);
  }

  function PropText(f: Keyed<Json>): Text {
    Quote(f.key) + [COLON] + Print(ToolKey, f.value)
  }

  function PropsText(fields: seq<Keyed<Json>>): Text {
    Join(PropTexts(PrintFields(ToolKey, fields)))
  }

  lemma PropsTextSplits(fields: seq<Keyed<Json>>)
    requires fields != []
    ensures |fields| == 1 ==> PropsText(fields) == PropText(fields[0])
    ensures |fields| > 1 ==> PropsText(fields) == PropText(fields[0]) + [COMMA] + PropsText(fields[1..])
  {
    hide Quote, Print;
    var entries := PrintFields(ToolKey, fields);
    assert entries == [PrintField(ToolKey, fields[0])] + PrintFields(ToolKey, fields[1..]);
    assert entries[1..] == PrintFields(ToolKey, fields[1..]);
    var parts := PropTexts(entries);
    assert parts == [PropText(fields[0])] + PropTexts(entries[1..]);
    assert parts[1..] == PropTexts(entries[1..]);
    if |fields| > 1 {
      assert entries[1..] == [PrintField(ToolKey, fields[1])] + PrintFields(ToolKey, fields[1..][1..]);
    }
  }

  lemma FieldStart(f: Keyed<Json>, rest: Text)
    requires ParseValue(Print(ToolKey, f.value) + rest) == Some((Normal(f.value), rest))
    ensures var t := PropText(f) + rest;
      && t != [] && t[0] == QUOTE && Unquote(t[1..]) == Some((f.key, [COLON] + (Print(ToolKey, f.value) + rest)))
      && ParseValue(([COLON] + (Print(ToolKey, f.value) + rest))[1..]) == Some((Normal(f.value), rest))
  {
    hide Quote, Unquote, ParseValue, Print, Normal;
    var value := Print(ToolKey, f.value) + rest;
    UnquoteQuote(f.key, [COLON] + value);
    assert PropText(f) + rest == Quote(f.key) + ([COLON] + value);
    assert ([COLON] + value)[1..] == value;
  }

  lemma LastField(f: Keyed<Json>, rest: Text)
    requires ParseValue(Print(ToolKey, f.value) + ([CLOSE_BRACE] + rest)) == Some((Normal(f.value), [CLOSE_BRACE] + rest))
    ensures ParseFields(PropText(f) + ([CLOSE_BRACE] + rest)) == Some(([Keyed(f.key, Normal(f.value))], rest))
  {
    hide PropText, Unquote, ParseValue, Print, Normal;
    FieldStart(f, [CLOSE_BRACE] + rest);
    assert ([CLOSE_BRACE] + rest)[1..] == rest;
  }

  lemma EarlierField(f: Keyed<Json>, more: Text, fields: seq<Keyed<Json>>, rest: Text)
    requires ParseValue(Print(ToolKey, f.value) + ([COMMA] + more)) == Some((Normal(f.value), [COMMA] + more))
    requires ParseFields(more) == Some((fields, rest))
    ensures ParseFields(PropText(f) + ([COMMA] + more)) == Some(([Keyed(f.key, Normal(f.value))] + fields, rest))
  {
    hide PropText, Unquote, ParseValue, Print, Normal;
    FieldStart(f, [COMMA] + more);
    assert ([COMMA] + more)[1..] == more;
  }

  lemma {:induction false} FieldsRoundTrip(parent: Json, fields: seq<Keyed<Json>>, rest: Text)
    requires fields != []
    requires forall f :: f in fields ==> f.value < parent && WellFormed(f.value) && HasNoLoneUndefined(f.value)
    ensures ParseFields(PropsText(fields) + ([CLOSE_BRACE] + rest)) == Some((NormalFields(fields), rest))
    decreases parent, 0, |fields|
  {
    hide ParseFields, ParseValue, Print, PropText, PropsText, WellFormed, HasNoLoneUndefined, Normal;
    var end := [CLOSE_BRACE] + rest;
    PropsTextSplits(fields);
    assert fields[0] in fields;
    if |fields| == 1 {
      RoundTrip(fields[0].value, end);
      LastField(fields[0], rest);
      assert NormalFields(fields) == [Keyed(fields[0].key, Normal(fields[0].value))];
    } else {
      FieldsRoundTrip(parent, fields[1..], rest);
      var more := PropsText(fields[1..]) + end;
      RoundTrip(fields[0].value, [COMMA] + more);
      EarlierField(fields[0], more, NormalFields(fields[1..]), rest);
      assert PropsText(fields) + end == PropText(fields[0]) + ([COMMA] + more);
    }
  }

  lemma SortedFieldsAreSmaller(fields: seq<Keyed<Json>>)
    requires WellFormed(Obj(fields)) && HasNoLoneUndefined(Obj(fields))
    ensures forall f :: f in SortByKey(fields) ==> f.value < Obj(fields) && WellFormed(f.value) && HasNoLoneUndefined(f.value)
    ensures |SortByKey(fields)| == |fields|
  {
    forall f | f in SortByKey(fields) ensures f.value < Obj(fields) && WellFormed(f.value) && HasNoLoneUndefined(f.value) {
      SortMembers(fields, f);
      var i :| 0 <= i < |fields| && fields[i] == f;
    }
    SortLength(fields);
  }

  lemma {:induction false} InsertLength<T>(x: Keyed<T>, s: seq<Keyed<T>>)
    ensures |Insert(x, s)| == |s| + 1
  {
    if s != [] && Below(s[0].key, x.key) {
      InsertLength(x, s[1..]);
    }
  }

  lemma {:induction false} SortLength<T>(s: seq<Keyed<T>>)
    ensures |SortByKey(s)| == |s|
  {
    if s != [] {
      SortLength(s[1..]);
      InsertLength(s[0], SortByKey(s[1..]));
    }
  }

  lemma ArrParses(items: seq<Json>, body: Text, rest: Text)
    requires body != [] && body[0] != CLOSE_BRACKET && ParseItems(body) == Some((items, rest))
    ensures ParseValue([OPEN_BRACKET] + body) == Some((Arr(items), rest))
  {
    hide ParseItems;
    var t := [OPEN_BRACKET] + body;
    NoLiteral(t);
    assert t[1..] == body;
  }

  lemma ObjParses(fields: seq<Keyed<Json>>, body: Text, rest: Text)
    requires body != [] && body[0] != CLOSE_BRACE && ParseFields(body) == Some((fields, rest))
    ensures ParseValue([OPEN_BRACE] + body) == Some((Obj(fields), rest))
  {
    hide ParseFields;
    var t := [OPEN_BRACE] + body;
    NoLiteral(t);
    assert t[1..] == body;
  }

  lemma EmptyParses(rest: Text)
    ensures ParseValue([OPEN_BRACKET, CLOSE_BRACKET] + rest) == Some((Arr([]), rest))
    ensures ParseValue([OPEN_BRACE, CLOSE_BRACE] + rest) == Some((Obj([]), rest))
  {
    var a, o := [OPEN_BRACKET, CLOSE_BRACKET] + rest, [OPEN_BRACE, CLOSE_BRACE] + rest;
    NoLiteral(a);
    NoLiteral(o);
    assert a[2..] == rest && o[2..] == rest;
  }

  /** A non-empty list that is not a lone undefined does not begin with the closing bracket. */
  lemma ItemsStart(items: seq<Json>, end: Text)
    requires items != [] && items != [Undefined] && WellFormed(items[0]) && end != []
    ensures var body := Join(PrintItems(ToolKey, items)) + end;
      body != [] && body[0] != CLOSE_BRACKET
  {
    hide Print;
    PrintStart(items[0]);
    if |items| > 1 {
      PrintItemsSplits(items);
    } else {
      assert PrintItems(ToolKey, items) == [PrintItem(ToolKey, items[0])];
    }
  }

  lemma PropsStart(fields: seq<Keyed<Json>>)
    requires fields != []
    ensures PropsText(fields) != [] && PropsText(fields)[0] == QUOTE
  {
    hide PropsText, Print, Quote;
    PropsTextSplits(fields);
    UnquoteQuote(fields[0].key, []);
  }

  /** Parsing undoes printing, in front of any text that does not continue a number; keys come back in sorted order. */
  lemma {:induction false} RoundTrip(v: Json, rest: Text)
    requires WellFormed(v) && HasNoLoneUndefined(v) && Delimited(rest)
    ensures ParseValue(Print(ToolKey, v) + rest) == Some((Normal(v), rest))
    decreases v, 1
  {
    hide ParseValue, ParseItems, ParseFields;
    match v
    case Num(token) => NumRoundTrip(token, rest);
    case Str(s) => StrRoundTrip(s, rest);
    case Arr(items) =>
      if items == [] {
        EmptyParses(rest);
        assert Print(ToolKey, v) == [OPEN_BRACKET, CLOSE_BRACKET];
      } else {
        ArrRoundTrip(items, rest);
      }
    case Obj(fields) =>
      if fields == [] {
        EmptyParses(rest);
        assert Print(ToolKey, v) == [OPEN_BRACE, CLOSE_BRACE];
      } else {
        ObjRoundTrip(fields, rest);
      }
    case _ => LiteralRoundTrip(v, rest);
  }

  lemma {:induction false} ArrRoundTrip(items: seq<Json>, rest: Text)
    requires items != [] && WellFormed(Arr(items)) && HasNoLoneUndefined(Arr(items))
    ensures ParseValue(Print(ToolKey, Arr(items)) + rest) == Some((Normal(Arr(items)), rest))
    decreases Arr(items), 0
  {
    hide ParseValue, ParseItems, PrintItems;
    var end := [CLOSE_BRACKET] + rest;
    var body := Join(PrintItems(ToolKey, items)) + end;
    ItemsRoundTrip(items, rest);
    ItemsStart(items, end);
    ArrParses(NormalItems(items), body, rest);
    assert Print(ToolKey, Arr(items)) + rest == [OPEN_BRACKET] + body;
  }

  lemma {:induction false} ObjRoundTrip(fields: seq<Keyed<Json>>, rest: Text)
    requires fields != [] && WellFormed(Obj(fields)) && HasNoLoneUndefined(Obj(fields))
    ensures ParseValue(Print(ToolKey, Obj(fields)) + rest) == Some((Normal(Obj(fields)), rest))
    decreases Obj(fields), 0, |fields| + 1
  {
    hide ParseValue, ParseFields, SortByKey, PropTexts, PrintFields;
    var end := [CLOSE_BRACE] + rest;
    var sorted := SortByKey(fields);
    SortedFieldsAreSmaller(fields);
    FieldsRoundTrip(Obj(fields), sorted, rest);
    PropsStart(sorted);
    SortPrints(ToolKey, fields);
    SortNormalizes(fields);
    var body := PropsText(sorted) + end;
    ObjParses(NormalFields(sorted), body, rest);
    assert Print(ToolKey, Obj(fields)) + rest == [OPEN_BRACE] + body;
  }

  // ---------------------------------------------------------------- normal form and equality up to key order

  lemma NormalFieldsDistinct(fields: seq<Keyed<Json>>)
    requires DistinctKeys(fields)
    ensures DistinctKeys(NormalFields(fields)) && SortedKeys(SortByKey(NormalFields(fields)))
  {
    hide Normal;
    SortSorts(NormalFields(fields));
  }

  /** What the fields of two objects must agree on, with "same" decided by the normal form. */
  predicate FieldsMatch(s: seq<Keyed<Json>>, t: seq<Keyed<Json>>) {
    && (forall i :: 0 <= i < |s| ==> HasNormalField(s[i], t))
    && (forall j :: 0 <= j < |t| ==> HasKey(s, t[j].key))
  }

  predicate HasNormalField(f: Keyed<Json>, fields: seq<Keyed<Json>>) {
    exists j :: 0 <= j < |fields| && f.key == fields[j].key && Normal(f.value) == Normal(fields[j].value)
  }

  lemma NormalFieldIsMember(f: Keyed<Json>, fields: seq<Keyed<Json>>)
    ensures HasNormalField(f, fields) <==> Keyed(f.key, Normal(f.value)) in NormalFields(fields)
  {
    hide Normal;
    var x, normal := Keyed(f.key, Normal(f.value)), NormalFields(fields);
    if x in normal {
      var j :| 0 <= j < |normal| && normal[j] == x;
      assert f.key == fields[j].key;
    }
    if HasNormalField(f, fields) {
      var j :| 0 <= j < |fields| && f.key == fields[j].key && Normal(f.value) == Normal(fields[j].value);
      assert normal[j] == x;
    }
  }

  lemma NormalMemberIndex(fields: seq<Keyed<Json>>, x: Keyed<Json>) returns (i: nat)
    requires x in NormalFields(fields)
    ensures i < |fields| && x == Keyed(fields[i].key, Normal(fields[i].value))
  {
    hide Normal;
    i :| 0 <= i < |NormalFields(fields)| && NormalFields(fields)[i] == x;
  }

  lemma MatchingFieldsHaveMembers(s: seq<Keyed<Json>>, t: seq<Keyed<Json>>, x: Keyed<Json>)
    requires DistinctKeys(t) && FieldsMatch(s, t)
    ensures x in NormalFields(s) <==> x in NormalFields(t)
  {
    hide Normal, NormalFields, HasNormalField;
    if x in NormalFields(s) {
      var i := NormalMemberIndex(s, x);
      NormalFieldIsMember(s[i], t);
    }
    if x in NormalFields(t) {
      var j := NormalMemberIndex(t, x);
      var i :| 0 <= i < |s| && s[i].key == t[j].key;
      NormalFieldIsMember(s[i], t);
      var k := NormalMemberIndex(t, Keyed(s[i].key, Normal(s[i].value)));
      assert j == k;
      NormalFieldIsMember(s[i], s);
      OwnNormalField(s, i);
    }
  }

  lemma OwnNormalField(s: seq<Keyed<Json>>, i: nat)
    requires i < |s|
    ensures HasNormalField(s[i], s) && HasKey(s, s[i].key)
  {
  }

  lemma MatchingFieldsSortAlike(s: seq<Keyed<Json>>, t: seq<Keyed<Json>>)
    requires DistinctKeys(s) && DistinctKeys(t) && FieldsMatch(s, t)
    ensures Normal(Obj(s)) == Normal(Obj(t))
  {
    var ns, nt := NormalFields(s), NormalFields(t);
    NormalObj(s);
    NormalObj(t);
    hide Normal, NormalFields, SortByKey, FieldsMatch, DistinctKeys, SortedKeys;
    NormalFieldsDistinct(s);
    NormalFieldsDistinct(t);
    forall x ensures x in SortByKey(ns) <==> x in SortByKey(nt) {
      SortMembers(ns, x);
      SortMembers(nt, x);
      MatchingFieldsHaveMembers(s, t, x);
    }
    SortedIsUnique(SortByKey(ns), SortByKey(nt));
  }

  lemma SortedAlikeFieldsMatch(s: seq<Keyed<Json>>, t: seq<Keyed<Json>>)
    requires Normal(Obj(s)) == Normal(Obj(t))
    ensures FieldsMatch(s, t)
  {
    var ns, nt := NormalFields(s), NormalFields(t);
    NormalObj(s);
    NormalObj(t);
    hide Normal, NormalFields, SortByKey, HasNormalField, HasKey;
    forall i | 0 <= i < |s| ensures HasNormalField(s[i], t) {
      OwnNormalField(s, i);
      NormalFieldIsMember(s[i], s);
      SameSortSameMembers(ns, nt, Keyed(s[i].key, Normal(s[i].value)));
      NormalFieldIsMember(s[i], t);
    }
    forall j | 0 <= j < |t| ensures HasKey(s, t[j].key) {
      OwnNormalField(t, j);
      NormalFieldIsMember(t[j], t);
      SameSortSameMembers(ns, nt, Keyed(t[j].key, Normal(t[j].value)));
      var i := NormalMemberIndex(s, Keyed(t[j].key, Normal(t[j].value)));
      OwnNormalField(s, i);
    }
  }

  lemma SameSortSameMembers<T>(s: seq<Keyed<T>>, t: seq<Keyed<T>>, x: Keyed<T>)
    requires SortByKey(s) == SortByKey(t)
    ensures x in s <==> x in t
  {
    SortMembers(s, x);
    SortMembers(t, x);
  }

  /** The normal form decides equality up to key order. */
  lemma {:induction false} NormalIffSame(v: Json, w: Json)
    requires WellFormed(v) && WellFormed(w)
    ensures Normal(v) == Normal(w) <==> SameValue(v, w)
    decreases v
  {
    hide SortByKey, HasSameField, HasKey;
    if v.Arr? && w.Arr? {
      ArraysIffSame(v.items, w.items);
    } else if v.Obj? && w.Obj? {
      ObjectsIffSame(v.fields, w.fields);
    }
  }

  lemma {:induction false} ObjectsIffSame(s: seq<Keyed<Json>>, t: seq<Keyed<Json>>)
    requires WellFormed(Obj(s)) && WellFormed(Obj(t))
    ensures Normal(Obj(s)) == Normal(Obj(t)) <==> SameValue(Obj(s), Obj(t))
    decreases s
  {
    hide Normal, HasSameField, HasKey, HasNormalField;
    forall i | 0 <= i < |s| ensures HasNormalField(s[i], t) <==> HasSameField(s[i], t) {
      forall j | 0 <= j < |t| ensures Normal(s[i].value) == Normal(t[j].value) <==> SameValue(s[i].value, t[j].value) {
        NormalIffSame(s[i].value, t[j].value);
      }
      FieldIffSame(s[i], t);
    }
    if FieldsMatch(s, t) {
      MatchingFieldsSortAlike(s, t);
    }
    if Normal(Obj(s)) == Normal(Obj(t)) {
      SortedAlikeFieldsMatch(s, t);
    }
  }

  lemma FieldIffSame(f: Keyed<Json>, t: seq<Keyed<Json>>)
    requires forall j :: 0 <= j < |t| ==> (Normal(f.value) == Normal(t[j].value) <==> SameValue(f.value, t[j].value))
    ensures HasNormalField(f, t) <==> HasSameField(f, t)
  {
    hide Normal, SameValue;
  }

  lemma {:induction false} ArraysIffSame(items: seq<Json>, others: seq<Json>)
    requires WellFormed(Arr(items)) && WellFormed(Arr(others))
    ensures Normal(Arr(items)) == Normal(Arr(others)) <==> SameValue(Arr(items), Arr(others))
    decreases items
  {
    if |items| == |others| {
      forall i | 0 <= i < |items| ensures Normal(items[i]) == Normal(others[i]) <==> SameValue(items[i], others[i]) {
        NormalIffSame(items[i], others[i]);
      }
      if SameValue(Arr(items), Arr(others)) {
        assert NormalItems(items) == NormalItems(others);
      }
      if NormalItems(items) == NormalItems(others) {
        forall i | 0 <= i < |items| ensures SameValue(items[i], others[i]) {
          assert NormalItems(items)[i] == NormalItems(others)[i];
        }
      }
    }
  }

  // ---------------------------------------------------------------- the normal form prints the same

  lemma SortIsIdempotent<T>(s: seq<Keyed<T>>)
    requires DistinctKeys(s)
    ensures SortByKey(SortByKey(s)) == SortByKey(s)
  {
    var once := SortByKey(s);
    SortSorts(s);
    SortedAreDistinct(once);
    SortSorts(once);
    forall x ensures x in SortByKey(once) <==> x in once {
      SortMembers(once, x);
    }
    SortedIsUnique(SortByKey(once), once);
  }

  lemma {:induction false} PrintFieldsKeepsKeys(style: Style, fields: seq<Keyed<Json>>)
    ensures |PrintFields(style, fields)| == |fields|
    ensures forall i :: 0 <= i < |fields| ==> PrintFields(style, fields)[i] == PrintField(style, fields[i])
  {
    if fields != [] {
      PrintFieldsKeepsKeys(style, fields[1..]);
    }
  }

  lemma {:induction false} PrintItemsPointwise(style: Style, items: seq<Json>)
    ensures |PrintItems(style, items)| == |items|
    ensures forall i :: 0 <= i < |items| ==> PrintItems(style, items)[i] == PrintItem(style, items[i])
  {
    if items != [] {
      PrintItemsPointwise(style, items[1..]);
    }
  }

  lemma {:induction false} NormalPrintsTheSame(v: Json)
    requires WellFormed(v)
    ensures Print(ToolKey, Normal(v)) == Print(ToolKey, v) && (Normal(v).Undefined? <==> v.Undefined?)
    decreases v
  {
    match v
    case Arr(items) =>
      forall i | 0 <= i < |items| ensures PrintItem(ToolKey, Normal(items[i])) == PrintItem(ToolKey, items[i]) {
        NormalPrintsTheSame(items[i]);
      }
      SamePrintedItems(ToolKey, NormalItems(items), ToolKey, items);
    case Obj(fields) =>
      forall i | 0 <= i < |fields| ensures Print(ToolKey, Normal(fields[i].value)) == Print(ToolKey, fields[i].value) {
        NormalPrintsTheSame(fields[i].value);
      }
      NormalObjPrintsTheSame(fields);
    case _ =>
  }

  lemma NormalObjPrintsTheSame(fields: seq<Keyed<Json>>)
    requires DistinctKeys(fields)
    requires forall i :: 0 <= i < |fields| ==> Print(ToolKey, Normal(fields[i].value)) == Print(ToolKey, fields[i].value)
    ensures Print(ToolKey, Normal(Obj(fields))) == Print(ToolKey, Obj(fields))
  {
    hide Normal, PropTexts, Join;
    var normal := NormalFields(fields);
    SamePrintedFields(ToolKey, normal, ToolKey, fields);
    SortPrints(ToolKey, normal);
    PrintFieldsKeepsKeys(ToolKey, fields);
    SortIsIdempotent(PrintFields(ToolKey, fields));
    assert Normal(Obj(fields)) == Obj(SortByKey(normal)) by {
      NormalObj(fields);
    }
  }

  lemma NormalObj(fields: seq<Keyed<Json>>)
    ensures Normal(Obj(fields)) == Obj(SortByKey(NormalFields(fields)))
  {
  }

  lemma SamePrintedItems(style: Style, items: seq<Json>, other: Style, others: seq<Json>)
    requires |items| == |others|
    requires forall i :: 0 <= i < |items| ==> PrintItem(style, items[i]) == PrintItem(other, others[i])
    ensures PrintItems(style, items) == PrintItems(other, others)
  {
    hide PrintItem;
    PrintItemsPointwise(style, items);
    PrintItemsPointwise(other, others);
  }

  lemma SamePrintedFields(style: Style, fields: seq<Keyed<Json>>, other: Style, others: seq<Keyed<Json>>)
    requires |fields| == |others|
    requires forall i :: 0 <= i < |fields| ==>
      fields[i].key == others[i].key && Print(style, fields[i].value) == Print(other, others[i].value)
    ensures PrintFields(style, fields) == PrintFields(other, others)
  {
    hide Print;
    PrintFieldsKeepsKeys(style, fields);
    PrintFieldsKeepsKeys(other, others);
  }

  /** Values without a lone undefined print to the same text exactly when they are equal up to key order. */
  lemma PrintIffSame(v: Json, w: Json)
    requires WellFormed(v) && WellFormed(w) && HasNoLoneUndefined(v) && HasNoLoneUndefined(w)
    ensures Print(ToolKey, v) == Print(ToolKey, w) <==> SameValue(v, w)
  {
    hide Print, Normal, ParseValue, SameValue, WellFormed, HasNoLoneUndefined;
    NormalIffSame(v, w);
    RoundTrip(v, []);
    RoundTrip(w, []);
    NormalPrintsTheSame(v);
    NormalPrintsTheSame(w);
  }

  // ---------------------------------------------------------------- what the printers identify, on all values

  /** For the tool runtime an array holding only undefined is the empty array. */
  function Collapse(v: Json): Json
    decreases v
  {
    match v
    case Arr(items) => if items == [Undefined] then Arr([]) else Arr(CollapseItems(items))
    case Obj(fields) => Obj(CollapseFields(fields))
    case _ => v
  }

  function CollapseItems(items: seq<Json>): (r: seq<Json>)
    ensures |r| == |items| && forall i :: 0 <= i < |items| ==> r[i] == Collapse(items[i])
    decreases items
  {
    if items == [] then [] else [Collapse(items[0])] + CollapseItems(items[1..])
  }

  function CollapseFields(fields: seq<Keyed<Json>>): (r: seq<Keyed<Json>>)
    ensures |r| == |fields| && forall i :: 0 <= i < |fields| ==> r[i] == Keyed(fields[i].key, Collapse(fields[i].value))
    decreases fields
  {
    if fields == [] then [] else [Keyed(fields[0].key, Collapse(fields[0].value))] + CollapseFields(fields[1..])
  }

  /** For the risk service undefined is a certain string. */
  function Named(v: Json): Json
    decreases v
  {
    match v
    case Undefined => Str(UNDEFINED_NAME)
    case Arr(items) => Arr(NamedItems(items))
    case Obj(fields) => Obj(NamedFields(fields))
    case _ => v
  }

  function NamedItems(items: seq<Json>): (r: seq<Json>)
    ensures |r| == |items| && forall i :: 0 <= i < |items| ==> r[i] == Named(items[i])
    decreases items
  {
    if items == [] then [] else [Named(items[0])] + NamedItems(items[1..])
  }

  function NamedFields(fields: seq<Keyed<Json>>): (r: seq<Keyed<Json>>)
    ensures |r| == |fields| && forall i :: 0 <= i < |fields| ==> r[i] == Keyed(fields[i].key, Named(fields[i].value))
    decreases fields
  {
    if fields == [] then [] else [Keyed(fields[0].key, Named(fields[0].value))] + NamedFields(fields[1..])
  }

  lemma LoneUndefinedIsKept(items: seq<Json>)
    requires forall i :: 0 <= i < |items| ==> (Collapse(items[i]).Undefined? <==> items[i].Undefined?)
    ensures CollapseItems(items) == [Undefined] ==> items == [Undefined]
  {
    hide Collapse;
    if CollapseItems(items) == [Undefined] {
      assert Collapse(items[0]) == Undefined;
    }
  }

  lemma {:induction false} CollapsePrintsTheSame(v: Json)
    requires WellFormed(v)
    ensures WellFormed(Collapse(v)) && HasNoLoneUndefined(Collapse(v))
    ensures Print(ToolKey, Collapse(v)) == Print(ToolKey, v) && (Collapse(v).Undefined? <==> v.Undefined?)
    decreases v
  {
    match v
    case Arr(items) =>
      forall i | 0 <= i < |items|
        ensures WellFormed(Collapse(items[i])) && HasNoLoneUndefined(Collapse(items[i]))
        ensures PrintItem(ToolKey, Collapse(items[i])) == PrintItem(ToolKey, items[i])
        ensures Collapse(items[i]).Undefined? <==> items[i].Undefined?
      {
        CollapsePrintsTheSame(items[i]);
      }
      if items == [Undefined] {
        assert PrintItems(ToolKey, items) == [[]];
      } else {
        SamePrintedItems(ToolKey, CollapseItems(items), ToolKey, items);
        LoneUndefinedIsKept(items);
      }
    case Obj(fields) =>
      forall i | 0 <= i < |fields|
        ensures WellFormed(Collapse(fields[i].value)) && HasNoLoneUndefined(Collapse(fields[i].value))
        ensures Print(ToolKey, Collapse(fields[i].value)) == Print(ToolKey, fields[i].value)
      {
        CollapsePrintsTheSame(fields[i].value);
      }
      SamePrintedFields(ToolKey, CollapseFields(fields), ToolKey, fields);
    case _ =>
  }

  lemma {:induction false} NamedPrintsTheSame(v: Json)
    requires WellFormed(v)
    ensures WellFormed(Named(v)) && HasNoUndefined(Named(v))
    ensures Print(RiskDescriptor, v) == Print(ToolKey, Named(v))
    decreases v
  {
    match v
    case Arr(items) =>
      forall i | 0 <= i < |items|
        ensures WellFormed(Named(items[i])) && HasNoUndefined(Named(items[i]))
        ensures PrintItem(RiskDescriptor, items[i]) == PrintItem(ToolKey, Named(items[i]))
      {
        NamedPrintsTheSame(items[i]);
      }
      SamePrintedItems(RiskDescriptor, items, ToolKey, NamedItems(items));
    case Obj(fields) =>
      forall i | 0 <= i < |fields|
        ensures WellFormed(Named(fields[i].value)) && HasNoUndefined(Named(fields[i].value))
        ensures Print(RiskDescriptor, fields[i].value) == Print(ToolKey, Named(fields[i].value))
      {
        NamedPrintsTheSame(fields[i].value);
      }
      SamePrintedFields(RiskDescriptor, fields, ToolKey, NamedFields(fields));
    case _ =>
  }

  lemma {:induction false} DefinedIsUnchanged(v: Json)
    requires HasNoUndefined(v)
    ensures Collapse(v) == v && Named(v) == v && HasNoLoneUndefined(v)
    decreases v
  {
    match v
    case Arr(items) =>
      forall i | 0 <= i < |items|
        ensures Collapse(items[i]) == items[i] && Named(items[i]) == items[i] && HasNoLoneUndefined(items[i])
      {
        DefinedIsUnchanged(items[i]);
      }
      assert CollapseItems(items) == items && NamedItems(items) == items;
    case Obj(fields) =>
      forall i | 0 <= i < |fields|
        ensures Collapse(fields[i].value) == fields[i].value && Named(fields[i].value) == fields[i].value
          && HasNoLoneUndefined(fields[i].value)
      {
        DefinedIsUnchanged(fields[i].value);
      }
      assert CollapseFields(fields) == fields && NamedFields(fields) == fields;
    case _ =>
  }

  /** The tool runtime's printer, on all values: it identifies key order and [undefined] with [], and nothing else. */
  lemma ToolKeyTextIff(v: Json, w: Json)
    requires WellFormed(v) && WellFormed(w)
    ensures Print(ToolKey, v) == Print(ToolKey, w) <==> SameValue(Collapse(v), Collapse(w))
  {
    hide Print, SameValue, WellFormed, HasNoLoneUndefined, Collapse;
    CollapsePrintsTheSame(v);
    CollapsePrintsTheSame(w);
    PrintIffSame(Collapse(v), Collapse(w));
  }

  /** The risk service's printer, on all values: it identifies key order and undefined with its name, and nothing else. */
  lemma RiskTextIff(v: Json, w: Json)
    requires WellFormed(v) && WellFormed(w)
    ensures Print(RiskDescriptor, v) == Print(RiskDescriptor, w) <==> SameValue(Named(v), Named(w))
  {
    hide Print, SameValue, WellFormed, HasNoLoneUndefined, HasNoUndefined, Named, Collapse;
    NamedPrintsTheSame(v);
    NamedPrintsTheSame(w);
    DefinedIsUnchanged(Named(v));
    DefinedIsUnchanged(Named(w));
    PrintIffSame(Named(v), Named(w));
  }

  /** Canonical printing is injective: JSON values print to the same text exactly when they are equal up to key order. */
  lemma CanonicalTextIff(style: Style, v: Json, w: Json)
    requires WellFormed(v) && WellFormed(w) && HasNoUndefined(v) && HasNoUndefined(w)
    ensures Print(style, v) == Print(style, w) <==> SameValue(v, w)
  {
    hide Print, SameValue, WellFormed, HasNoUndefined;
    DefinedIsUnchanged(v);
    DefinedIsUnchanged(w);
    if style == ToolKey {
      ToolKeyTextIff(v, w);
    } else {
      RiskTextIff(v, w);
    }
  }

  /** The two collisions that undefined causes. */
  lemma UndefinedCollides()
    ensures Print(ToolKey, Arr([Undefined])) == Print(ToolKey, Arr([])) && !SameValue(Arr([Undefined]), Arr([]))
    ensures Print(RiskDescriptor, Undefined) == Print(RiskDescriptor, Str(UNDEFINED_NAME)) && !SameValue(Undefined, Str(UNDEFINED_NAME))
  {
    assert PrintItems(ToolKey, [Undefined]) == [[]];
  }

  // ---------------------------------------------------------------- the idempotency key

  datatype Invocation = Invocation(suppliedKey: Text, userId: Text, tenantId: Option<Text>, tool: Text, version: Text, args: Json)

  const SUPPLIED_KEY: Text := [0x73, 0x75, 0x70, 0x70, 0x6c, 0x69, 0x65, 0x64, 0x4b, 0x65, 0x79]
  const USER_ID: Text := [0x75, 0x73, 0x65, 0x72, 0x49, 0x64]
  const TENANT_ID: Text := [0x74, 0x65, 0x6e, 0x61, 0x6e, 0x74, 0x49, 0x64]
  const TOOL: Text := [0x74, 0x6f, 0x6f, 0x6c]
  const VERSION: Text := [0x76, 0x65, 0x72, 0x73, 0x69, 0x6f, 0x6e]
  const ARGS: Text := [0x61, 0x72, 0x67, 0x73]

  function OrNull(t: Option<Text>): Json {
    if t.Some? then Str(t.value) else Null
  }

  /** The record whose canonical text is hashed into the storage key. */
  function KeyRecord(c: Invocation): (r: Json)
    ensures r.Obj?
  {
    Obj([Keyed(SUPPLIED_KEY, Str(c.suppliedKey)),
         Keyed(USER_ID, Str(c.userId)),
         Keyed(TENANT_ID, OrNull(c.tenantId)),
         Keyed(TOOL, Str(c.tool)),
         Keyed(VERSION, Str(c.version)),
         Keyed(ARGS, c.args)])
  }

  lemma KeyRecordIsWellFormed(c: Invocation)
    requires WellFormed(c.args) && HasNoUndefined(c.args)
    ensures WellFormed(KeyRecord(c)) && HasNoUndefined(KeyRecord(c)) && DistinctKeys(KeyRecord(c).fields)
  {
    assert |SUPPLIED_KEY| == 11 && |USER_ID| == 6 && |TENANT_ID| == 8 && |TOOL| == 4 && |VERSION| == 7 && |ARGS| == 4;
    assert TOOL[0] != ARGS[0];
  }

  lemma KeyFieldIff(s: seq<Keyed<Json>>, t: seq<Keyed<Json>>, i: nat)
    requires DistinctKeys(s) && |s| == |t| && i < |s| && forall k :: 0 <= k < |s| ==> s[k].key == t[k].key
    ensures HasSameField(s[i], t) <==> SameValue(s[i].value, t[i].value)
    ensures HasKey(s, t[i].key)
  {
    hide SameValue;
    if HasSameField(s[i], t) {
      var j :| 0 <= j < |t| && s[i].key == t[j].key && SameValue(s[i].value, t[j].value);
      assert i == j;
    }
    assert s[i].key == t[i].key;
  }

  /** Objects with the same keys in the same order are the same when their values are. */
  lemma KeyFieldsIff(s: seq<Keyed<Json>>, t: seq<Keyed<Json>>)
    requires DistinctKeys(s) && |s| == |t| && forall i :: 0 <= i < |s| ==> s[i].key == t[i].key
    ensures SameValue(Obj(s), Obj(t)) <==> forall i :: 0 <= i < |s| ==> SameValue(s[i].value, t[i].value)
  {
    hide HasSameField, HasKey;
    forall i | 0 <= i < |s|
      ensures (HasSameField(s[i], t) <==> SameValue(s[i].value, t[i].value)) && HasKey(s, t[i].key)
    {
      KeyFieldIff(s, t, i);
    }
  }

  lemma SixFieldsIff(s: seq<Keyed<Json>>, t: seq<Keyed<Json>>)
    requires DistinctKeys(s) && |s| == |t| == 6 && forall i :: 0 <= i < |s| ==> s[i].key == t[i].key
    ensures SameValue(Obj(s), Obj(t)) <==>
      (&& SameValue(s[0].value, t[0].value) && SameValue(s[1].value, t[1].value) && SameValue(s[2].value, t[2].value)
       && SameValue(s[3].value, t[3].value) && SameValue(s[4].value, t[4].value) && SameValue(s[5].value, t[5].value))
  {
    hide SameValue, DistinctKeys;
    KeyFieldsIff(s, t);
  }

  lemma LeavesAreSameIff(a: Text, b: Text, m: Option<Text>, n: Option<Text>)
    ensures SameValue(Str(a), Str(b)) <==> a == b
    ensures SameValue(OrNull(m), OrNull(n)) <==> m == n
  {
  }

  lemma KeyRecordValues(c: Invocation, d: Invocation)
    ensures var s, t := KeyRecord(c).fields, KeyRecord(d).fields;
      && |s| == |t| == 6 && (forall i :: 0 <= i < 6 ==> s[i].key == t[i].key)
      && s[0].value == Str(c.suppliedKey) && s[1].value == Str(c.userId) && s[2].value == OrNull(c.tenantId)
      && s[3].value == Str(c.tool) && s[4].value == Str(c.version) && s[5].value == c.args
  {
  }

  /**
   Two invocations share an idempotency key exactly when caller's key, user, tenant, tool and version agree and the arguments are
   equal up to key order.
   */
  lemma SameKeyIff(c: Invocation, d: Invocation)
    requires WellFormed(c.args) && WellFormed(d.args) && HasNoUndefined(c.args) && HasNoUndefined(d.args)
    ensures Print(ToolKey, KeyRecord(c)) == Print(ToolKey, KeyRecord(d)) <==>
      (c.suppliedKey == d.suppliedKey && c.userId == d.userId && c.tenantId == d.tenantId && c.tool == d.tool
       && c.version == d.version && SameValue(c.args, d.args))
  {
    hide Print, WellFormed, HasNoUndefined, DistinctKeys, SameValue, OrNull, KeyRecord;
    KeyRecordIsWellFormed(c);
    KeyRecordIsWellFormed(d);
    CanonicalTextIff(ToolKey, KeyRecord(c), KeyRecord(d));
    KeyRecordValues(c, d);
    KeyRecordValues(d, c);
    SixFieldsIff(KeyRecord(c).fields, KeyRecord(d).fields);
    LeavesAreSameIff(c.suppliedKey, d.suppliedKey, c.tenantId, d.tenantId);
    LeavesAreSameIff(c.userId, d.userId, None, None);
    LeavesAreSameIff(c.tool, d.tool, None, None);
    LeavesAreSameIff(c.version, d.version, None, None);
  }
}
