// JSON values, the canonical printer of sections 3.2.1 to 3.2.3 of RFC 8785, and a JSON parser.
module Json {
  import opened Outcomes
  import opened Utf16
  import opened Numerals

  /** Whole numbers a double holds exactly. ECMAScript prints them as plain decimals. */
  type SafeInt = n: int | -0x1F_FFFF_FFFF_FFFF <= n <= 0x1F_FFFF_FFFF_FFFF

  /**
   * A JavaScript value as the printer meets it. `Undefined` stands for undefined and for symbols,
   * `Unencodable` for what JSON cannot carry: functions, bigints, NaN and the infinities.
   */
  datatype Value =
    | Undefined
    | Unencodable
    | Null
    | Bool(b: bool)
    | Num(n: SafeInt)
    | Str(s: Text)
    | Arr(items: seq<Value>)
    | Obj(members: seq<Member>)

  /** One own property; the members of an object are in insertion order. */
  datatype Member = Member(key: Text, value: Value)

  ghost predicate DistinctKeys(ms: seq<Member>) {
    forall i, j :: 0 <= i < j < |ms| ==> ms[i].key != ms[j].key
  }

  /** Objects hold each key once, at every depth. */
  ghost predicate Valid(v: Value) {
    match v
    case Arr(items) => forall x | x in items :: Valid(x)
    case Obj(ms) => DistinctKeys(ms) && forall m | m in ms :: Valid(m.value)
    case _ => true
  }

  /** `object?.[key]`: undefined unless the value is an object with that member. */
  function Lookup(ms: seq<Member>, key: Text): (v: Value)
    ensures !v.Undefined? ==> Member(key, v) in ms
  {
    if ms == [] then Undefined
    else if ms[0].key == key then ms[0].value
    else Lookup(ms[1..], key)
  }

  function Get(v: Value, key: Text): (r: Value) {
    if v.Obj? then Lookup(v.members, key) else Undefined
  }

  // ---- Ordering an object's members ------------------------------------------------------------

  predicate Increasing(ms: seq<Member>) {
    forall i, j :: 0 <= i < j < |ms| ==> Before(ms[i].key, ms[j].key)
  }

  function Insert(m: Member, ms: seq<Member>): (r: seq<Member>)
    ensures forall x :: x in r <==> x == m || x in ms
  {
    if ms == [] then [m]
    else if Before(ms[0].key, m.key) then [ms[0]] + Insert(m, ms[1..])
    else [m] + ms
  }

  /** `Object.keys(record).sort()`, carrying each key's value along. */
  function Sort(ms: seq<Member>): (r: seq<Member>)
    ensures forall x :: x in r <==> x in ms
  {
    if ms == [] then [] else Insert(ms[0], Sort(ms[1..]))
  }

  /** Members whose value is not undefined. */
  function Present(ms: seq<Member>): (r: seq<Member>)
    ensures forall x :: x in r <==> x in ms && !x.value.Undefined?
  {
    if ms == [] then []
    else (if ms[0].value.Undefined? then [] else [ms[0]]) + Present(ms[1..])
  }

  /** The members the printer visits, in the order it visits them. */
  function Ordered(ms: seq<Member>): (r: seq<Member>)
    ensures forall x :: x in r <==> x in ms && !x.value.Undefined?
  {
    Present(Sort(ms))
  }

  // ---- The printer -----------------------------------------------------------------------------

  const NULL: Text := [0x6E, 0x75, 0x6C, 0x6C]
  const TRUE: Text := [0x74, 0x72, 0x75, 0x65]
  const FALSE: Text := [0x66, 0x61, 0x6C, 0x73, 0x65]
  const QUOTE: CodeUnit := 0x22
  const BACKSLASH: CodeUnit := 0x5C
  const COMMA: CodeUnit := 0x2C
  const COLON: CodeUnit := 0x3A
  const LBRACKET: CodeUnit := 0x5B
  const RBRACKET: CodeUnit := 0x5D
  const LBRACE: CodeUnit := 0x7B
  const RBRACE: CodeUnit := 0x7D

  function Hex4(u: CodeUnit): (t: Text)
    ensures |t| == 4
  {
    [DigitUnit(u / 16 / 16 / 16), DigitUnit(u / 16 / 16 % 16), DigitUnit(u / 16 % 16), DigitUnit(u % 16)]
  }

  /** How `JSON.stringify` writes one code unit that is not half of a surrogate pair. */
  function EscapeUnit(u: CodeUnit): (t: Text) {
    if u == QUOTE then [BACKSLASH, QUOTE]
    else if u == BACKSLASH then [BACKSLASH, BACKSLASH]
    else if u == 0x08 then [BACKSLASH, 0x62]
    else if u == 0x09 then [BACKSLASH, 0x74]
    else if u == 0x0A then [BACKSLASH, 0x6E]
    else if u == 0x0C then [BACKSLASH, 0x66]
    else if u == 0x0D then [BACKSLASH, 0x72]
    else if u < 0x20 || Surrogate(u) then [BACKSLASH, 0x75] + Hex4(u)
    else [u]
  }

  function Escaped(s: Text): (t: Text) {
    if s == [] then []
    else if HighSurrogate(s[0]) && |s| > 1 && LowSurrogate(s[1]) then s[..2] + Escaped(s[2..])
    else EscapeUnit(s[0]) + Escaped(s[1..])
  }

  function Quote(s: Text): (t: Text) {
    [QUOTE] + Escaped(s) + [QUOTE]
  }

  /** `canonicalize`: the canonical text, or none where the source throws a TypeError. */
  function Canonicalize(v: Value): (r: Option<Text>)
    decreases v
  {
    match v
    case Undefined => None
    case Unencodable => None
    case Null => Some(NULL)
    case Bool(b) => Some(if b then TRUE else FALSE)
    case Num(n) => Some(SignedDecimal(n))
    case Str(s) => Some(Quote(s))
    case Arr(items) =>
      var body :- PrintItems(items);
      Some([LBRACKET] + body + [RBRACKET])
    case Obj(ms) =>
      var body :- PrintMembers(v, Ordered(ms));
      Some([LBRACE] + body + [RBRACE])
  }

  function PrintItems(items: seq<Value>): (r: Option<Text>)
    decreases items
  {
    if items == [] then Some([])
    else
      var head :- if items[0].Undefined? then Some(NULL) else Canonicalize(items[0]);
      var tail :- PrintItems(items[1..]);
      Some(if |items| == 1 then head else head + [COMMA] + tail)
  }

  /** `owner` is the object being printed: sorting moves members about but never leaves it. */
  function PrintMembers(owner: Value, ms: seq<Member>): (r: Option<Text>)
    requires forall m | m in ms :: m.value < owner
    decreases owner, |ms|
  {
    if ms == [] then Some([])
    else
      var text :- Canonicalize(ms[0].value);
      var tail :- PrintMembers(owner, ms[1..]);
      var head := Quote(ms[0].key) + [COLON] + text;
      Some(if |ms| == 1 then head else head + [COMMA] + tail)
  }

  // ---- What printing keeps ---------------------------------------------------------------------

  /** The value itself, with members sorted and undefined members dropped, at every depth. */
  function Normal(v: Value): (r: Value)
    decreases v
  {
    match v
    case Arr(items) => Arr(NormalItems(items))
    case Obj(ms) => Obj(NormalMembers(v, Ordered(ms)))
    case _ => v
  }

  function NormalItems(items: seq<Value>): (r: seq<Value>)
    ensures |r| == |items|
    decreases items
  {
    if items == [] then []
    else [if items[0].Undefined? then Null else Normal(items[0])] + NormalItems(items[1..])
  }

  function NormalMembers(owner: Value, ms: seq<Member>): (r: seq<Member>)
    requires forall m | m in ms :: m.value < owner
    ensures |r| == |ms|
    ensures forall i :: 0 <= i < |ms| ==> r[i].key == ms[i].key
    decreases owner, |ms|
  {
    if ms == [] then []
    else [Member(ms[0].key, Normal(ms[0].value))] + NormalMembers(owner, ms[1..])
  }

  predicate Encodable(v: Value) {
    match v
    case Undefined => false
    case Unencodable => false
    case Arr(items) => forall x | x in items :: x.Undefined? || Encodable(x)
    case Obj(ms) => forall m | m in ms :: m.value.Undefined? || Encodable(m.value)
    case _ => true
  }

  /** The same JSON value: member order and undefined members do not matter, nothing else is lost. */
  ghost predicate SameJson(a: Value, b: Value)
    decreases a
  {
    match a
    case Arr(xs) =>
      && b.Arr? && |xs| == |b.items|
      && forall i :: 0 <= i < |xs| ==>
        (Nullish(xs[i]) && Nullish(b.items[i])) || SameJson(xs[i], b.items[i])
    case Obj(ms) =>
      && b.Obj?
      && PresentKeys(ms) == PresentKeys(b.members)
      && forall m | m in ms && !m.value.Undefined? :: SameJson(m.value, Lookup(b.members, m.key))
    case _ => a == b
  }

  ghost function PresentKeys(ms: seq<Member>): (keys: set<Text>) {
    set m | m in ms && !m.value.Undefined? :: m.key
  }

  predicate Nullish(v: Value) {
    v.Undefined? || v.Null?
  }

  // ---- The parser: JSON.parse, restricted to whole numbers -------------------------------------

  function SkipSpace(t: Text): (r: Text)
    ensures |r| <= |t|
    decreases |t|
  {
    if t != [] && (t[0] == 0x20 || t[0] == 0x09 || t[0] == 0x0A || t[0] == 0x0D) then SkipSpace(t[1..]) else t
  }

  /** The text of a string literal after its opening quote, and what follows its closing quote. */
  function ParseChars(t: Text): (r: Option<(Text, Text)>)
    ensures r.Some? ==> |r.value.1| < |t|
    decreases |t|
  {
    if t == [] || t[0] < 0x20 then None
    else if t[0] == QUOTE then Some(([], t[1..]))
    else if t[0] != BACKSLASH then
      var (s, rest) :- ParseChars(t[1..]);
      Some(([t[0]] + s, rest))
    else if |t| == 1 then None
    else if t[1] == 0x75 then
      var u :- ParseHex4(t[2..]);
      var (s, rest) :- ParseChars(t[6..]);
      Some(([u] + s, rest))
    else
      var u :- Unescape(t[1]);
      var (s, rest) :- ParseChars(t[2..]);
      Some(([u] + s, rest))
  }

  function Unescape(u: CodeUnit): (r: Option<CodeUnit>) {
    if u == QUOTE || u == BACKSLASH || u == 0x2F then Some(u)
    else if u == 0x62 then Some(0x08)
    else if u == 0x74 then Some(0x09)
    else if u == 0x6E then Some(0x0A)
    else if u == 0x66 then Some(0x0C)
    else if u == 0x72 then Some(0x0D)
    else None
  }

  function ParseHex4(t: Text): (r: Option<CodeUnit>)
    ensures r.Some? ==> |t| >= 4
  {
    if |t| < 4 then None
    else
      var a :- DigitValue(t[0]);
      var b :- DigitValue(t[1]);
      var c :- DigitValue(t[2]);
      var d :- DigitValue(t[3]);
      var n := ((a * 16 + b) * 16 + c) * 16 + d;
      if n < 0x1_0000 then Some(n) else None
  }

  function DigitRun(t: Text): (k: nat)
    ensures k <= |t|
    ensures forall i :: 0 <= i < k ==> IsDigit(t[i])
    ensures k < |t| ==> !IsDigit(t[k])
  {
    if t != [] && IsDigit(t[0]) then 1 + DigitRun(t[1..]) else 0
  }

  function ParseNatural(t: Text): (r: Option<(nat, Text)>)
    ensures r.Some? ==> |r.value.1| < |t|
  {
    var k := DigitRun(t);
    if k == 0 || (k > 1 && t[0] == 0x30) then None
    else if k < |t| && (t[k] == 0x2E || t[k] == 0x65 || t[k] == 0x45) then None
    else Some((ValueOf(t[..k], 10), t[k..]))
  }

  function ParseNumber(t: Text): (r: Option<(Value, Text)>)
    ensures r.Some? ==> |r.value.1| < |t|
  {
    var negative := t != [] && t[0] == 0x2D;
    var (n, rest) :- ParseNatural(if negative then t[1..] else t);
    if n > 0x1F_FFFF_FFFF_FFFF then None
    else
      var m: int := n;
      Some((Num(if negative then -m else m), rest))
  }

  function ParseValue(t: Text): (r: Option<(Value, Text)>)
    ensures r.Some? ==> |r.value.1| < |t|
    decreases |t|, 0
  {
    var u := SkipSpace(t);
    if u == [] then None
    else if u[0] == LBRACE then
      var w := SkipSpace(u[1..]);
      if w != [] && w[0] == RBRACE then Some((Obj([]), w[1..])) else ParseMembers(w, [])
    else if u[0] == LBRACKET then
      var w := SkipSpace(u[1..]);
      if w != [] && w[0] == RBRACKET then Some((Arr([]), w[1..])) else ParseItems(w, [])
    else if u[0] == QUOTE then
      var (s, rest) :- ParseChars(u[1..]);
      Some((Str(s), rest))
    else if NULL <= u then Some((Null, u[4..]))
    else if TRUE <= u then Some((Bool(true), u[4..]))
    else if FALSE <= u then Some((Bool(false), u[5..]))
    else ParseNumber(u)
  }

  function ParseItems(t: Text, read: seq<Value>): (r: Option<(Value, Text)>)
    ensures r.Some? ==> |r.value.1| < |t|
    decreases |t|, 1
  {
    var (v, rest) :- ParseValue(t);
    var u := SkipSpace(rest);
    if u == [] then None
    else if u[0] == COMMA then ParseItems(u[1..], read + [v])
    else if u[0] == RBRACKET then Some((Arr(read + [v]), u[1..]))
    else None
  }

  function ParseMembers(t: Text, read: seq<Member>): (r: Option<(Value, Text)>)
    ensures r.Some? ==> |r.value.1| < |t|
    decreases |t|, 1
  {
    var u := SkipSpace(t);
    if u == [] || u[0] != QUOTE then None
    else
      var (key, afterKey) :- ParseChars(u[1..]);
      var w := SkipSpace(afterKey);
      if w == [] || w[0] != COLON then None
      else
        var (v, rest) :- ParseValue(w[1..]);
        var x := SkipSpace(rest);
        if x == [] then None
        else if x[0] == COMMA then ParseMembers(x[1..], Put(read, Member(key, v)))
        else if x[0] == RBRACE then Some((Obj(Put(read, Member(key, v))), x[1..]))
        else None
  }

  /** A repeated key keeps its place and takes the later value. */
  function Put(ms: seq<Member>, m: Member): (r: seq<Member>) {
    if ms == [] then [m]
    else if ms[0].key == m.key then [m] + ms[1..]
    else [ms[0]] + Put(ms[1..], m)
  }

  /** `JSON.parse`. */
  function Parse(t: Text): (r: Option<Value>) {
    var (v, rest) :- ParseValue(t);
    if SkipSpace(rest) == [] then Some(v) else None
  }
}
