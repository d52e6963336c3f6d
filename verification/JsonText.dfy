/**
 Strings of UTF-16 code units, as JavaScript has them, and their quoted form: JSON.stringify of a string, which follows section 7
 of RFC 8259 and writes unpaired surrogates as escapes.
 */
module JsonText {
  import opened Wrappers

  type CodeUnit = n: int | 0 <= n < 0x1_0000
  type Text = seq<CodeUnit>

  const QUOTE: CodeUnit := 0x22
  const COMMA: CodeUnit := 0x2c
  const COLON: CodeUnit := 0x3a
  const BACKSLASH: CodeUnit := 0x5c
  const LETTER_U: CodeUnit := 0x75
  const OPEN_BRACKET: CodeUnit := 0x5b
  const CLOSE_BRACKET: CodeUnit := 0x5d
  const OPEN_BRACE: CodeUnit := 0x7b
  const CLOSE_BRACE: CodeUnit := 0x7d

  predicate IsLead(u: CodeUnit) { 0xd800 <= u <= 0xdbff }

  predicate IsTrail(u: CodeUnit) { 0xdc00 <= u <= 0xdfff }

  // ---------------------------------------------------------------- quoting

  function HexDigit(d: int): (c: CodeUnit)
    requires 0 <= d < 16
  {
    if d < 10 then 0x30 + d else 0x61 + d - 10
  }

  /** The letter of a two-character escape. */
  function ShortEscape(u: CodeUnit): Option<CodeUnit> {
    if u == 8 then Some(0x62) else if u == 9 then Some(0x74) else if u == 10 then Some(0x6e)
    else if u == 12 then Some(0x66) else if u == 13 then Some(0x72)
    else if u == QUOTE then Some(QUOTE) else if u == BACKSLASH then Some(BACKSLASH) else None
  }

  function Escape(u: CodeUnit): Text {
    if ShortEscape(u).Some? then [BACKSLASH, ShortEscape(u).value]
    else if u < 0x20 || IsLead(u) || IsTrail(u) then
      [BACKSLASH, LETTER_U, HexDigit(u / 4096), HexDigit(u / 256 % 16), HexDigit(u / 16 % 16), HexDigit(u % 16)]
    else [u]
  }

  function QuoteBody(s: Text): Text {
    if s == [] then []
    else if |s| >= 2 && IsLead(s[0]) && IsTrail(s[1]) then [s[0], s[1]] + QuoteBody(s[2..])
    else Escape(s[0]) + QuoteBody(s[1..])
  }

  function Quote(s: Text): Text {
    [QUOTE] + QuoteBody(s) + [QUOTE]
  }

  // ---------------------------------------------------------------- reading a quoted string back

  function HexValue(c: CodeUnit): Option<int> {
    if 0x30 <= c <= 0x39 then Some(c - 0x30) else if 0x61 <= c <= 0x66 then Some(c - 0x61 + 10) else None
  }

  function ShortUnescape(c: CodeUnit): Option<CodeUnit> {
    if c == 0x62 then Some(8) else if c == 0x74 then Some(9) else if c == 0x6e then Some(10)
    else if c == 0x66 then Some(12) else if c == 0x72 then Some(13)
    else if c == QUOTE then Some(QUOTE) else if c == BACKSLASH then Some(BACKSLASH) else None
  }

  function ReadHex(t: Text): Option<CodeUnit> {
    if |t| < 4 then None
    else
      var a, b, c, d := HexValue(t[0]), HexValue(t[1]), HexValue(t[2]), HexValue(t[3]);
      if a.None? || b.None? || c.None? || d.None? then None
      else
        var n := ((a.value * 16 + b.value) * 16 + c.value) * 16 + d.value;
        if 0 <= n < 0x1_0000 then Some(n) else None
  }

  /** One unit of a quoted body and how many units of text it took. */
  function ReadUnit(t: Text): (r: Option<(CodeUnit, nat)>)
    ensures r.Some? ==> 1 <= r.value.1 <= |t|
  {
    if t == [] then None
    else if t[0] != BACKSLASH then Some((t[0], 1))
    else if |t| >= 2 && ShortUnescape(t[1]).Some? then Some((ShortUnescape(t[1]).value, 2))
    else if |t| >= 6 && t[1] == LETTER_U && ReadHex(t[2..]).Some? then Some((ReadHex(t[2..]).value, 6))
    else None
  }

  /** The text after an opening quote: the string up to its closing quote, and what follows. */
  function Unquote(t: Text): (r: Option<(Text, Text)>)
    ensures r.Some? ==> |r.value.1| < |t|
    decreases |t|
  {
    if t == [] then None
    else if t[0] == QUOTE then Some(([], t[1..]))
    else
      match ReadUnit(t)
      case None => None
      case Some((u, n)) =>
        match Unquote(t[n..])
        case None => None
        case Some((s, rest)) => Some(([u] + s, rest))
  }

  lemma HexRoundTrip(u: CodeUnit, rest: Text)
    ensures ReadHex([HexDigit(u / 4096), HexDigit(u / 256 % 16), HexDigit(u / 16 % 16), HexDigit(u % 16)] + rest) == Some(u)
  {
    HexDigitRoundTrip(u / 4096);
    HexDigitRoundTrip(u / 256 % 16);
    HexDigitRoundTrip(u / 16 % 16);
    HexDigitRoundTrip(u % 16);
    HexSplit(u);
  }

  lemma HexDigitRoundTrip(d: int)
    requires 0 <= d < 16
    ensures HexValue(HexDigit(d)) == Some(d)
  {
  }

  lemma HexSplit(u: CodeUnit)
    ensures ((u / 4096 * 16 + u / 256 % 16) * 16 + u / 16 % 16) * 16 + u % 16 == u
  {
    assert u / 256 == u / 4096 * 16 + u / 256 % 16;
    assert u / 16 == u / 256 * 16 + u / 16 % 16;
  }

  lemma EscapeRoundTrip(u: CodeUnit, rest: Text)
    ensures Escape(u) != [] && Escape(u)[0] != QUOTE
    ensures ReadUnit(Escape(u) + rest) == Some((u, |Escape(u)|))
  {
    var t := Escape(u) + rest;
    if ShortEscape(u).None? && (u < 0x20 || IsLead(u) || IsTrail(u)) {
      HexRoundTrip(u, rest);
      assert t[2..] == [HexDigit(u / 4096), HexDigit(u / 256 % 16), HexDigit(u / 16 % 16), HexDigit(u % 16)] + rest;
    }
  }

  lemma UnquoteOneUnit(t: Text, u: CodeUnit, n: nat, s: Text, rest: Text)
    requires t != [] && t[0] != QUOTE && ReadUnit(t) == Some((u, n)) && Unquote(t[n..]) == Some((s, rest))
    ensures Unquote(t) == Some(([u] + s, rest))
  {
  }

  lemma UnquoteRaw(u: CodeUnit, tail: Text, s: Text, rest: Text)
    requires u != QUOTE && u != BACKSLASH && Unquote(tail) == Some((s, rest))
    ensures Unquote([u] + tail) == Some(([u] + s, rest))
  {
    assert ([u] + tail)[1..] == tail;
  }

  lemma UnquoteEscape(u: CodeUnit, tail: Text, s: Text, rest: Text)
    requires Unquote(tail) == Some((s, rest))
    ensures Unquote(Escape(u) + tail) == Some(([u] + s, rest))
  {
    hide Escape, ReadUnit, Unquote;
    EscapeRoundTrip(u, tail);
    var t := Escape(u) + tail;
    assert t[|Escape(u)|..] == tail;
    UnquoteOneUnit(t, u, |Escape(u)|, s, rest);
  }

  /** Quoting loses nothing: any string, unpaired surrogates included, is read back from its quoted form. */
  lemma {:induction false} UnquoteQuoteBody(s: Text, rest: Text)
    ensures Unquote(QuoteBody(s) + [QUOTE] + rest) == Some((s, rest))
    decreases |s|
  {
    hide Escape, Unquote, ReadUnit;
    if s == [] {
      assert QuoteBody(s) + [QUOTE] + rest == [QUOTE] + rest;
      UnquoteEnd(rest);
    } else if |s| >= 2 && IsLead(s[0]) && IsTrail(s[1]) {
      UnquoteQuoteBody(s[2..], rest);
      var tail := QuoteBody(s[2..]) + [QUOTE] + rest;
      assert QuoteBody(s) + [QUOTE] + rest == [s[0]] + ([s[1]] + tail);
      UnquoteRaw(s[1], tail, s[2..], rest);
      UnquoteRaw(s[0], [s[1]] + tail, [s[1]] + s[2..], rest);
      assert s == [s[0]] + ([s[1]] + s[2..]);
    } else {
      UnquoteQuoteBody(s[1..], rest);
      var tail := QuoteBody(s[1..]) + [QUOTE] + rest;
      assert QuoteBody(s) + [QUOTE] + rest == Escape(s[0]) + tail;
      UnquoteEscape(s[0], tail, s[1..], rest);
      assert s == [s[0]] + s[1..];
    }
  }

  lemma UnquoteEnd(rest: Text)
    ensures Unquote([QUOTE] + rest) == Some(([], rest))
  {
    assert ([QUOTE] + rest)[1..] == rest;
  }

  lemma UnquoteQuote(s: Text, rest: Text)
    ensures |Quote(s)| >= 2 && Quote(s)[0] == QUOTE
    ensures Unquote((Quote(s) + rest)[1..]) == Some((s, rest))
  {
    assert (Quote(s) + rest)[1..] == QuoteBody(s) + [QUOTE] + rest;
    UnquoteQuoteBody(s, rest);
  }

  /** Section 7 of RFC 8259: quotes, backslashes and control characters are escaped; of the rest, only unpaired surrogates. */
  lemma OnlyWhatMustBeEscapedIs(u: CodeUnit)
    ensures Escape(u) == [u] <==> 0x20 <= u && u != QUOTE && u != BACKSLASH && !(0xd800 <= u < 0xe000)
  {
  }

  /** The short escapes of JSON.stringify, section 25.5.2.3 of ECMA-262; all other escapes are four hexadecimal digits. */
  lemma ShortEscapesAre(u: CodeUnit)
    ensures u == 8 ==> Escape(u) == [BACKSLASH, 0x62]
    ensures u == 9 ==> Escape(u) == [BACKSLASH, 0x74]
    ensures u == 10 ==> Escape(u) == [BACKSLASH, 0x6e]
    ensures u == 12 ==> Escape(u) == [BACKSLASH, 0x66]
    ensures u == 13 ==> Escape(u) == [BACKSLASH, 0x72]
    ensures u == QUOTE || u == BACKSLASH ==> Escape(u) == [BACKSLASH, u]
  {
  }

  lemma RestIsHexadecimal(u: CodeUnit)
    requires (u < 0x20 && u != 8 && u != 9 && u != 10 && u != 12 && u != 13) || 0xd800 <= u < 0xe000
    ensures var e := Escape(u);
      && |e| == 6 && e[0] == BACKSLASH && e[1] == LETTER_U
      && (forall i :: 2 <= i < 6 ==> HexValue(e[i]).Some?)
      && u == ((HexValue(e[2]).value * 16 + HexValue(e[3]).value) * 16 + HexValue(e[4]).value) * 16 + HexValue(e[5]).value
  {
    hide HexDigit, HexValue;
    HexDigitRoundTrip(u / 4096);
    HexDigitRoundTrip(u / 256 % 16);
    HexDigitRoundTrip(u / 16 % 16);
    HexDigitRoundTrip(u % 16);
    HexSplit(u);
  }

  // ---------------------------------------------------------------- order of keys

  /** The order of Array.prototype.sort on strings: by code units. */
  predicate Below(a: Text, b: Text) {
    b != [] && (a == [] || a[0] < b[0] || (a[0] == b[0] && Below(a[1..], b[1..])))
  }

  lemma {:induction false} BelowIsTotal(a: Text, b: Text)
    ensures a == b || Below(a, b) || Below(b, a)
  {
    if a != [] && b != [] && a[0] == b[0] {
      BelowIsTotal(a[1..], b[1..]);
      assert a == [a[0]] + a[1..] && b == [b[0]] + b[1..];
    }
  }

  lemma {:induction false} BelowIsStrict(a: Text, b: Text)
    ensures !(Below(a, b) && Below(b, a)) && !Below(a, a)
  {
    if a != [] {
      BelowIsStrict(a[1..], if b != [] then b[1..] else []);
    }
  }

  lemma {:induction false} BelowIsTransitive(a: Text, b: Text, c: Text)
    requires Below(a, b) && Below(b, c)
    ensures Below(a, c)
  {
    if a != [] && a[0] == b[0] && b[0] == c[0] {
      BelowIsTransitive(a[1..], b[1..], c[1..]);
    }
  }

  /** A property of an object, or something made from one. */
  datatype Keyed<+T> = Keyed(key: Text, value: T)

  predicate DistinctKeys<T>(s: seq<Keyed<T>>) {
    forall i, j :: 0 <= i < j < |s| ==> s[i].key != s[j].key
  }

  predicate SortedKeys<T>(s: seq<Keyed<T>>) {
    forall i, j :: 0 <= i < j < |s| ==> Below(s[i].key, s[j].key)
  }

  function Insert<T>(x: Keyed<T>, s: seq<Keyed<T>>): seq<Keyed<T>> {
    if s == [] || !Below(s[0].key, x.key) then [x] + s else [s[0]] + Insert(x, s[1..])
  }

  function SortByKey<T>(s: seq<Keyed<T>>): seq<Keyed<T>> {
    if s == [] then [] else Insert(s[0], SortByKey(s[1..]))
  }

  lemma {:induction false} InsertMembers<T>(x: Keyed<T>, s: seq<Keyed<T>>, y: Keyed<T>)
    ensures y in Insert(x, s) <==> y == x || y in s
  {
    if s != [] && Below(s[0].key, x.key) {
      InsertMembers(x, s[1..], y);
      assert s == [s[0]] + s[1..];
    }
  }

  lemma FirstIsBelow<T>(x: Keyed<T>, s: seq<Keyed<T>>)
    requires SortedKeys(s) && forall y <- s :: Below(x.key, y.key)
    ensures SortedKeys([x] + s)
  {
  }

  lemma {:induction false} InsertSorts<T>(x: Keyed<T>, s: seq<Keyed<T>>)
    requires SortedKeys(s) && forall y <- s :: y.key != x.key
    ensures SortedKeys(Insert(x, s))
  {
    if s != [] && Below(s[0].key, x.key) {
      InsertSorts(x, s[1..]);
      forall y | y in Insert(x, s[1..]) ensures Below(s[0].key, y.key) {
        InsertMembers(x, s[1..], y);
      }
      FirstIsBelow(s[0], Insert(x, s[1..]));
    } else {
      forall y | y in s ensures Below(x.key, y.key) {
        BelowIsTotal(x.key, s[0].key);
        if y != s[0] {
          BelowIsTransitive(x.key, s[0].key, y.key);
        }
      }
      FirstIsBelow(x, s);
    }
  }

  lemma {:induction false} SortMembers<T>(s: seq<Keyed<T>>, y: Keyed<T>)
    ensures y in SortByKey(s) <==> y in s
  {
    if s != [] {
      SortMembers(s[1..], y);
      InsertMembers(s[0], SortByKey(s[1..]), y);
      assert s == [s[0]] + s[1..];
    }
  }

  lemma {:induction false} SortSorts<T>(s: seq<Keyed<T>>)
    requires DistinctKeys(s)
    ensures SortedKeys(SortByKey(s))
  {
    if s != [] {
      SortSorts(s[1..]);
      forall y | y in SortByKey(s[1..]) ensures y.key != s[0].key {
        SortMembers(s[1..], y);
      }
      InsertSorts(s[0], SortByKey(s[1..]));
    }
  }

  lemma SortedAreDistinct<T>(s: seq<Keyed<T>>)
    requires SortedKeys(s)
    ensures DistinctKeys(s)
  {
    forall i, j | 0 <= i < j < |s| ensures s[i].key != s[j].key {
      BelowIsStrict(s[i].key, s[j].key);
    }
  }

  lemma FirstIsMember<T>(t: seq<T>)
    ensures t != [] ==> t[0] in t
  {
  }

  /** Sorting is canonical: two sorted sequences with the same members are the same sequence. */
  lemma {:induction false} SortedIsUnique<T>(s: seq<Keyed<T>>, t: seq<Keyed<T>>)
    requires SortedKeys(s) && SortedKeys(t) && forall x :: x in s <==> x in t
    ensures s == t
  {
    if s == [] {
      FirstIsMember(t);
    } else {
      assert s[0] in t && t != [] && t[0] in s;
      var i :| 0 <= i < |t| && t[i] == s[0];
      var j :| 0 <= j < |s| && s[j] == t[0];
      BelowIsStrict(s[0].key, t[0].key);
      assert s[0] == t[0];
      SortedAreDistinct(s);
      SortedAreDistinct(t);
      forall x ensures x in s[1..] <==> x in t[1..] {
        assert x in s[1..] <==> x in s && x != s[0];
        assert x in t[1..] <==> x in t && x != t[0];
      }
      SortedIsUnique(s[1..], t[1..]);
    }
  }
}
