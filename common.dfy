/** Values as the handlers see them once a request body has been parsed, JavaScript
    truthiness, and the decimal strings the handlers build placeholders and limits from. */
module Common {

  datatype Option<+T> = None | Some(value: T)

  /** An error as JavaScript throws it: its `name` and its `message`. */
  datatype Failure = Failure(name: string, message: string)

  datatype Result<+T> = Ok(value: T) | Err(error: Failure)

  /** A JSON value. A record keeps its properties in `Object.keys` order. */
  datatype Value =
    | Null
    | Bool(b: bool)
    | Num(n: real)
    | Str(s: string)
    | List(elements: seq<Value>)
    | Record(fields: seq<(string, Value)>)

  /** The enumerable properties of a value, in `Object.keys` order. */
  type Fields = seq<(string, Value)>

  /** A row of the item table: attribute name to attribute value. */
  type Item = map<string, Value>

  predicate DistinctKeys(f: Fields) {
    forall i, j :: 0 <= i < j < |f| ==> f[i].0 != f[j].0
  }

  /** What `JSON.parse` can return: an object never repeats a key. */
  type JsonValue = v: Value | v.Record? ==> DistinctKeys(v.fields) witness Null

  /** JavaScript truthiness (`!!v`) of a defined value. JSON numbers are never NaN. */
  predicate Truthy(v: Value) {
    match v
    case Null => false
    case Bool(b) => b
    case Num(n) => n != 0.0
    case Str(s) => s != ""
    case List(_) => true
    case Record(_) => true
  }

  /** Truthiness of a property read that may give `undefined` (`None`). */
  predicate IsTruthy(v: Option<Value>) {
    v.Some? && Truthy(v.value)
  }

  function KeysOf(f: Fields): (keys: seq<string>)
    ensures |keys| == |f|
    ensures forall i :: 0 <= i < |f| ==> keys[i] == f[i].0
  {
    seq(|f|, i requires 0 <= i < |f| => f[i].0)
  }

  /** `obj[key]`: the first property with that name, or `undefined`. */
  function Lookup(f: Fields, key: string): (r: Option<Value>)
    ensures r.Some? <==> key in KeysOf(f)
    ensures r.Some? ==> exists i :: 0 <= i < |f| && f[i] == (key, r.value)
  {
    if f == [] then None
    else if f[0].0 == key then Some(f[0].1)
    else
      var r := Lookup(f[1..], key);
      assert KeysOf(f) == [f[0].0] + KeysOf(f[1..]);
      assert r.Some? ==> exists i :: 0 <= i < |f[1..]| && f[1..][i] == (key, r.value);
      r
  }

  // ---------------------------------------------------------------- decimal strings

  predicate IsDigit(c: char) {
    '0' <= c <= '9'
  }

  predicate AllDigits(s: string) {
    forall i :: 0 <= i < |s| ==> IsDigit(s[i])
  }

  function DigitChar(d: nat): (c: char)
    requires d < 10
    ensures IsDigit(c)
  {
    ('0' as int + d) as char
  }

  function DigitValue(c: char): (d: nat)
    requires IsDigit(c)
    ensures d < 10
  {
    c as int - '0' as int
  }

  /** `String(n)` for a non-negative integer: its decimal digits, no leading zeros. */
  function NatToString(n: nat): (s: string)
    ensures s != [] && AllDigits(s)
  {
    if n < 10 then [DigitChar(n)] else NatToString(n / 10) + [DigitChar(n % 10)]
  }

  /** The number a string of decimal digits denotes. */
  function DigitsValue(s: string): nat
    requires AllDigits(s)
  {
    if s == [] then 0 else DigitsValue(s[..|s| - 1]) * 10 + DigitValue(s[|s| - 1])
  }

  lemma {:induction false} DigitsValueOfNatToString(n: nat)
    ensures DigitsValue(NatToString(n)) == n
  {
    if n >= 10 {
      var s := NatToString(n / 10);
      DigitsValueOfNatToString(n / 10);
      assert (s + [DigitChar(n % 10)])[..|s|] == s;
    }
  }

  lemma NatToStringInjective(a: nat, b: nat)
    requires NatToString(a) == NatToString(b)
    ensures a == b
  {
    DigitsValueOfNatToString(a);
    DigitsValueOfNatToString(b);
  }

  /** Two numbered tokens with the same prefix (`#attr3`, `:val3`) are equal only for equal numbers. */
  lemma NumberedInjective(prefix: string, a: nat, b: nat)
    requires prefix + NatToString(a) == prefix + NatToString(b)
    ensures a == b
  {
    assert (prefix + NatToString(a))[|prefix|..] == NatToString(a);
    assert (prefix + NatToString(b))[|prefix|..] == NatToString(b);
    NatToStringInjective(a, b);
  }

  /** `parts.join(sep)`. */
  function Join(parts: seq<string>, sep: string): string {
    if parts == [] then ""
    else if |parts| == 1 then parts[0]
    else parts[0] + sep + Join(parts[1..], sep)
  }

  // ---------------------------------------------------------------- parseInt

  /** A JavaScript number as `parseInt` yields it. */
  datatype JsNumber = Int(n: int) | NaN

  /** The white space `parseInt` skips before the number (the ASCII part of it). */
  predicate IsSpace(c: char) {
    c == ' ' || c == '\t' || c == '\n' || c == '\r' || c == 11 as char || c == 12 as char
  }

  function SkipSpace(s: string): (r: string)
    ensures |r| <= |s| && r == s[|s| - |r|..]
    ensures r == [] || !IsSpace(r[0])
  {
    if s != [] && IsSpace(s[0]) then SkipSpace(s[1..]) else s
  }

  /** The longest prefix of `s` made of decimal digits. */
  function DigitPrefix(s: string): (d: string)
    ensures AllDigits(d) && d <= s
    ensures |d| < |s| ==> !IsDigit(s[|d|])
  {
    if s != [] && IsDigit(s[0]) then [s[0]] + DigitPrefix(s[1..]) else []
  }

  /** `parseInt(s)` in base 10: leading white space, an optional sign, then the longest run of
      digits; `NaN` when there is no digit. */
  function ParseInt(s: string): (r: JsNumber)
    ensures AllDigits(s) && s != [] ==> r == Int(DigitsValue(s))
    ensures (forall i :: 0 <= i < |s| ==> !IsDigit(s[i])) ==> r == NaN
  {
    ScanFacts(s);
    var t := SkipSpace(s);
    if t != [] && (t[0] == '-' || t[0] == '+') then
      var d := DigitPrefix(t[1..]);
      if d == [] then NaN else Int(if t[0] == '-' then 0 - DigitsValue(d) as int else DigitsValue(d))
    else
      var d := DigitPrefix(t);
      if d == [] then NaN else Int(DigitsValue(d))
  }

  /** Where the scan of a numeral stops: a run of digits is read whole, and a string without
      digits yields none, whether or not it has a sign. */
  lemma ScanFacts(s: string)
    ensures AllDigits(s) && s != [] ==>
      SkipSpace(s) == s && s[0] != '-' && s[0] != '+' && DigitPrefix(s) == s
    ensures (forall i :: 0 <= i < |s| ==> !IsDigit(s[i])) ==>
      DigitPrefix(SkipSpace(s)) == [] && (SkipSpace(s) != [] ==> DigitPrefix(SkipSpace(s)[1..]) == [])
  {
    if AllDigits(s) && s != [] {
      DigitsReadWhole(s);
    }
    if forall i :: 0 <= i < |s| ==> !IsDigit(s[i]) {
      NoDigitsReadNone(s);
    }
  }

  lemma DigitsReadWhole(s: string)
    requires AllDigits(s) && s != []
    ensures SkipSpace(s) == s && s[0] != '-' && s[0] != '+' && DigitPrefix(s) == s
  {
    assert !IsSpace(s[0]);
    DigitPrefixOfDigits(s);
  }

  lemma NoDigitsReadNone(s: string)
    requires forall i :: 0 <= i < |s| ==> !IsDigit(s[i])
    ensures DigitPrefix(SkipSpace(s)) == []
    ensures SkipSpace(s) != [] ==> DigitPrefix(SkipSpace(s)[1..]) == []
  {
    var t := SkipSpace(s);
    if t != [] {
      assert t[0] == s[|s| - |t|];
    }
    if |t| > 1 {
      assert t[1..][0] == s[|s| - |t| + 1];
    }
  }

  lemma {:induction false} DigitPrefixOfDigits(s: string)
    requires AllDigits(s)
    ensures DigitPrefix(s) == s
  {
    if s != [] {
      DigitPrefixOfDigits(s[1..]);
      assert s == [s[0]] + s[1..];
    }
  }

  /** `parseInt(String(n)) === n`. */
  lemma ParseIntOfNatToString(n: nat)
    ensures ParseInt(NatToString(n)) == Int(n)
  {
    var s := NatToString(n);
    assert !IsSpace(s[0]);
    DigitPrefixOfDigits(s);
    DigitsValueOfNatToString(n);
  }

  // ---------------------------------------------------------------- property reads

  /** The message V8 gives the `TypeError` thrown when a property of `null` is read. */
  const NullPropertiesMessage := "Cannot convert undefined or null to object"

  /** Index-keyed properties `"0"`, `"1"`, ... of an array or string. */
  function Indexed(elements: seq<Value>): (f: Fields)
    ensures |f| == |elements|
    ensures forall i :: 0 <= i < |f| ==> f[i] == (NatToString(i), elements[i])
  {
    seq(|elements|, i requires 0 <= i < |elements| => (NatToString(i), elements[i]))
  }

  lemma IndexedKeysDistinct(elements: seq<Value>)
    ensures DistinctKeys(Indexed(elements))
  {
    var f := Indexed(elements);
    forall i, j | 0 <= i < j < |f| ensures f[i].0 != f[j].0 {
      if f[i].0 == f[j].0 {
        NatToStringInjective(i, j);
      }
    }
  }

  /** What reading properties of a parsed JSON value gives (`Object.keys`, destructuring):
      an object its own properties, an array or string its indices, a boolean or number none;
      `null` throws a `TypeError`. */
  function Properties(v: JsonValue): (r: Result<Fields>)
    ensures r.Err? <==> v == Null
    ensures r.Ok? ==> DistinctKeys(r.value)
    ensures v.Record? ==> r == Ok(v.fields)
    ensures v.Bool? || v.Num? ==> r == Ok([])
    ensures v.List? ==>
      (r.Ok? && |r.value| == |v.elements| &&
       forall i :: 0 <= i < |v.elements| ==> r.value[i] == (NatToString(i), v.elements[i]))
    ensures v.Str? ==>
      (r.Ok? && |r.value| == |v.s| &&
       forall i :: 0 <= i < |v.s| ==> r.value[i] == (NatToString(i), Str([v.s[i]])))
  {
    match v
    case Null => Err(Failure("TypeError", NullPropertiesMessage))
    case Bool(_) => Ok([])
    case Num(_) => Ok([])
    case Str(s) =>
      var chars := seq(|s|, i requires 0 <= i < |s| => Str([s[i]]));
      IndexedKeysDistinct(chars);
      Ok(Indexed(chars))
    case List(elements) =>
      IndexedKeysDistinct(elements);
      Ok(Indexed(elements))
    case Record(fields) => Ok(fields)
  }
}
