/**
 The canonical printers behind idempotency keys and risk descriptors: keys sorted, no white space. A finite number is represented by
 the decimal text that ECMAScript prints for it.
 */
module CanonicalJson {
  import opened Wrappers
  import opened JsonText

  datatype Json =
    | Undefined
    | Null
    | Bool(b: bool)
    | Num(token: Text)
    | Str(s: Text)
    | Arr(items: seq<Json>)
    | Obj(fields: seq<Keyed<Json>>)

  /** The printer of the tool runtime, and the one of the risk service, which spells undefined out. */
  datatype Style = ToolKey | RiskDescriptor

  const NULL_TEXT: Text := [0x6e, 0x75, 0x6c, 0x6c]
  const TRUE_TEXT: Text := [0x74, 0x72, 0x75, 0x65]
  const FALSE_TEXT: Text := [0x66, 0x61, 0x6c, 0x73, 0x65]
  const UNDEFINED_TEXT: Text := [0x75, 0x6e, 0x64, 0x65, 0x66, 0x69, 0x6e, 0x65, 0x64]
  /** `__undefined__` */
  const UNDEFINED_NAME: Text := [0x5f, 0x5f, 0x75, 0x6e, 0x64, 0x65, 0x66, 0x69, 0x6e, 0x65, 0x64, 0x5f, 0x5f]

  // ---------------------------------------------------------------- the printers

  function Join(parts: seq<Text>): Text {
    if parts == [] then [] else if |parts| == 1 then parts[0] else parts[0] + [COMMA] + Join(parts[1..])
  }

  function PropTexts(entries: seq<Keyed<Text>>): seq<Text> {
    if entries == [] then []
    else [Quote(entries[0].key) + [COLON] + entries[0].value] + PropTexts(entries[1..])
  }

  function Print(style: Style, v: Json): Text
    decreases v, 0
  {
    match v
    case Undefined => if style == ToolKey then UNDEFINED_TEXT else Quote(UNDEFINED_NAME)
    case Null => NULL_TEXT
    case Bool(b) => if b then TRUE_TEXT else FALSE_TEXT
    case Num(token) => token
    case Str(s) => Quote(s)
    case Arr(items) => [OPEN_BRACKET] + Join(PrintItems(style, items)) + [CLOSE_BRACKET]
    case Obj(fields) => [OPEN_BRACE] + Join(PropTexts(SortByKey(PrintFields(style, fields)))) + [CLOSE_BRACE]
  }

  /** Array.prototype.join writes nothing for an undefined element. */
  function PrintItem(style: Style, v: Json): Text
    decreases v, 1
  {
    if style == ToolKey && v.Undefined? then [] else Print(style, v)
  }

  function PrintItems(style: Style, items: seq<Json>): seq<Text>
    decreases items
  {
    if items == [] then [] else [PrintItem(style, items[0])] + PrintItems(style, items[1..])
  }

  function PrintField(style: Style, f: Keyed<Json>): Keyed<Text>
    decreases f
  {
    Keyed(f.key, Print(style, f.value))
  }

  function PrintFields(style: Style, fields: seq<Keyed<Json>>): seq<Keyed<Text>>
    decreases fields
  {
    if fields == [] then [] else [PrintField(style, fields[0])] + PrintFields(style, fields[1..])
  }

  // ---------------------------------------------------------------- values

  predicate IsDigit(u: CodeUnit) { 0x30 <= u <= 0x39 }

  /** Digits, sign, point and exponent. */
  predicate IsNumberUnit(u: CodeUnit) {
    IsDigit(u) || u == 0x2b || u == 0x2d || u == 0x2e || u == 0x45 || u == 0x65
  }

  predicate IsNumberToken(t: Text) {
    t != [] && (IsDigit(t[0]) || t[0] == 0x2d) && forall u <- t :: IsNumberUnit(u)
  }

  /** Numbers are number texts, and no object has a key twice. */
  predicate WellFormed(v: Json) {
    match v
    case Num(token) => IsNumberToken(token)
    case Arr(items) => forall i :: 0 <= i < |items| ==> WellFormed(items[i])
    case Obj(fields) => DistinctKeys(fields) && forall i :: 0 <= i < |fields| ==> WellFormed(fields[i].value)
    case _ => true
  }

  predicate HasNoUndefined(v: Json) {
    match v
    case Undefined => false
    case Arr(items) => forall i :: 0 <= i < |items| ==> HasNoUndefined(items[i])
    case Obj(fields) => forall i :: 0 <= i < |fields| ==> HasNoUndefined(fields[i].value)
    case _ => true
  }

  predicate HasNoLoneUndefined(v: Json) {
    match v
    case Arr(items) => items != [Undefined] && forall i :: 0 <= i < |items| ==> HasNoLoneUndefined(items[i])
    case Obj(fields) => forall i :: 0 <= i < |fields| ==> HasNoLoneUndefined(fields[i].value)
    case _ => true
  }

  /** Equality up to the order of object keys. */
  ghost predicate SameValue(v: Json, w: Json)
    decreases v
  {
    match v
    case Arr(items) =>
      w.Arr? && |items| == |w.items| && forall i :: 0 <= i < |items| ==> SameValue(items[i], w.items[i])
    case Obj(fields) =>
      && w.Obj?
      && (forall i :: 0 <= i < |fields| ==> HasSameField(fields[i], w.fields))
      && (forall j :: 0 <= j < |w.fields| ==> HasKey(fields, w.fields[j].key))
    case _ => v == w
  }

  ghost predicate HasSameField(f: Keyed<Json>, fields: seq<Keyed<Json>>)
    decreases f
  {
    exists j :: 0 <= j < |fields| && f.key == fields[j].key && SameValue(f.value, fields[j].value)
  }

  predicate HasKey<T>(fields: seq<Keyed<T>>, key: Text) {
    exists i :: 0 <= i < |fields| && fields[i].key == key
  }

  function Normal(v: Json): Json
    decreases v
  {
    match v
    case Arr(items) => Arr(NormalItems(items))
    case Obj(fields) => Obj(SortByKey(NormalFields(fields)))
    case _ => v
  }

  function NormalItems(items: seq<Json>): (r: seq<Json>)
    ensures |r| == |items| && forall i :: 0 <= i < |items| ==> r[i] == Normal(items[i])
    decreases items
  {
    if items == [] then [] else [Normal(items[0])] + NormalItems(items[1..])
  }

  function NormalFields(fields: seq<Keyed<Json>>): (r: seq<Keyed<Json>>)
    ensures |r| == |fields| && forall i :: 0 <= i < |fields| ==> r[i] == Keyed(fields[i].key, Normal(fields[i].value))
    decreases fields
  {
    if fields == [] then [] else [Keyed(fields[0].key, Normal(fields[0].value))] + NormalFields(fields[1..])
  }

  // ---------------------------------------------------------------- the parser that undoes the printer

  predicate StartsWith(t: Text, prefix: Text) {
    |prefix| <= |t| && t[..|prefix|] == prefix
  }

  function NumberLength(t: Text): (n: nat)
    ensures n <= |t|
  {
    if t == [] || !IsNumberUnit(t[0]) then 0 else 1 + NumberLength(t[1..])
  }

  function ParseValue(t: Text): (r: Option<(Json, Text)>)
    ensures r.Some? ==> |r.value.1| < |t|
    decreases |t|, 0
  {
    if t == [] then None
    else if StartsWith(t, NULL_TEXT) then Some((Null, t[4..]))
    else if StartsWith(t, TRUE_TEXT) then Some((Bool(true), t[4..]))
    else if StartsWith(t, FALSE_TEXT) then Some((Bool(false), t[5..]))
    else if StartsWith(t, UNDEFINED_TEXT) then Some((Undefined, t[9..]))
    else if t[0] == QUOTE then
      match Unquote(t[1..])
      case None => None
      case Some((s, rest)) => Some((Str(s), rest))
    else if IsDigit(t[0]) || t[0] == 0x2d then
      Some((Num(t[..NumberLength(t)]), t[NumberLength(t)..]))
    else if t[0] == OPEN_BRACKET then
      if |t| > 1 && t[1] == CLOSE_BRACKET then Some((Arr([]), t[2..]))
      else
        match ParseItems(t[1..])
        case None => None
        case Some((items, rest)) => Some((Arr(items), rest))
    else if t[0] == OPEN_BRACE then
      if |t| > 1 && t[1] == CLOSE_BRACE then Some((Obj([]), t[2..]))
      else
        match ParseFields(t[1..])
        case None => None
        case Some((fields, rest)) => Some((Obj(fields), rest))
    else None
  }

  function ParseItem(t: Text): (r: Option<(Json, Text)>)
    ensures r.Some? ==> |r.value.1| <= |t|
    decreases |t|, 1
  {
    if t != [] && (t[0] == COMMA || t[0] == CLOSE_BRACKET) then Some((Undefined, t)) else ParseValue(t)
  }

  function ParseItems(t: Text): (r: Option<(seq<Json>, Text)>)
    ensures r.Some? ==> |r.value.1| < |t|
    decreases |t|, 2
  {
    match ParseItem(t)
    case None => None
    case Some((v, rest)) =>
      if rest == [] then None
      else if rest[0] == CLOSE_BRACKET then Some(([v], rest[1..]))
      else if rest[0] != COMMA then None
      else
        match ParseItems(rest[1..])
        case None => None
        case Some((items, end)) => Some(([v] + items, end))
  }

  function ParseFields(t: Text): (r: Option<(seq<Keyed<Json>>, Text)>)
    ensures r.Some? ==> |r.value.1| < |t|
    decreases |t|, 2
  {
    if t == [] || t[0] != QUOTE then None
    else
      match Unquote(t[1..])
      case None => None
      case Some((key, colon)) =>
        if colon == [] || colon[0] != COLON then None
        else
          match ParseValue(colon[1..])
          case None => None
          case Some((v, rest)) =>
            if rest == [] then None
            else if rest[0] == CLOSE_BRACE then Some(([Keyed(key, v)], rest[1..]))
            else if rest[0] != COMMA then None
            else
              match ParseFields(rest[1..])
              case None => None
              case Some((fields, end)) => Some(([Keyed(key, v)] + fields, end))
  }
}
