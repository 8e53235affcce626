/** Values of the JavaScript runtime that the agents exchange: data as JSON.parse
    produces it, the exceptions the modelled code throws or catches, and the few
    language operators (truthiness, property access, `in`, `Object.entries`,
    `String(v)`, `trim`) whose exact behaviour the modelled code depends on. */
module JsValues {

  datatype Option<+T> = None | Some(value: T)

  /** A JSON value. `undefined` is not a JSON value: where the source may hold
      `undefined` the model uses `Option<Json>` and `None`. Numbers are the
      integers JSON text can denote without a fraction or an exponent. An object
      is its list of properties in insertion order; a key listed twice denotes its
      first occurrence (a JavaScript object has each key once). */
  datatype Json =
    | JNull
    | JBool(b: bool)
    | JNum(n: int)
    | JStr(s: string)
    | JArr(items: seq<Json>)
    | JObj(props: seq<(string, Json)>)

  /** What a modelled call can throw: `new Error(message)`, a runtime TypeError
      (property read on null or undefined, `in` on a primitive), or the SyntaxError
      of a failed JSON.parse. */
  datatype Exception = Error(message: string) | TypeError | SyntaxError

  /** `error.message`. The wording the engine gives its own TypeError and
      SyntaxError messages is not modelled: they carry the error's name. */
  function MessageOf(e: Exception): string
  {
    match e
    case Error(m) => m
    case TypeError => "TypeError"
    case SyntaxError => "SyntaxError"
  }

  /** The settled state of a call that can throw. */
  datatype Outcome<+T> = Returned(value: T) | Threw(exception: Exception)

  /** JavaScript truthiness of a defined value. */
  predicate Truthy(v: Json)
  {
    match v
    case JNull => false
    case JBool(b) => b
    case JNum(n) => n != 0
    case JStr(s) => s != ""
    case JArr(_) => true
    case JObj(_) => true
  }

  /** Truthiness of a value that may be `undefined`. */
  predicate TruthyOpt(v: Option<Json>)
  {
    v.Some? && Truthy(v.value)
  }

  /** `typeof v === "object"` for a value already known to be truthy. */
  predicate IsObject(v: Json)
  {
    v.JArr? || v.JObj?
  }

  /** The value stored under `key`, the first occurrence winning. */
  function Lookup(props: seq<(string, Json)>, key: string): (r: Option<Json>)
    ensures r.Some? <==> exists i :: 0 <= i < |props| && props[i].0 == key
    ensures r.Some? ==> exists i :: 0 <= i < |props| && props[i] == (key, r.value)
  {
    if props == [] then None
    else if props[0].0 == key then Some(props[0].1)
    else Lookup(props[1..], key)
  }

  /** `s.length`: the number of UTF-16 code units, in which a character
      outside the Basic Multilingual Plane (a surrogate pair) counts two. */
  function Utf16Length(s: string): (r: nat)
    ensures |s| <= r <= 2 * |s|
  {
    if s == [] then 0 else Utf16Length(s[..|s| - 1]) + (if s[|s| - 1] as int > 0xFFFF then 2 else 1)
  }

  /** On text within the Basic Multilingual Plane `length` counts characters. */
  lemma {:induction false} Utf16LengthBmp(s: string)
    requires forall i :: 0 <= i < |s| ==> s[i] as int <= 0xFFFF
    ensures Utf16Length(s) == |s|
  {
    if s != [] {
      Utf16LengthBmp(s[..|s| - 1]);
    }
  }

  /** `v.key` on a value that is neither null nor undefined, for a key that is
      not an array index: an own property of an object, `undefined` otherwise. */
  function Get(v: Json, key: string): Option<Json>
  {
    if v.JObj? then Lookup(v.props, key) else None
  }

  /** `v.key` on a value that may be null or undefined: reading a property of
      either throws a TypeError. */
  function Member(v: Option<Json>, key: string): (r: Outcome<Option<Json>>)
    ensures r.Threw? <==> v == None || v == Some(JNull)
  {
    if v == None || v == Some(JNull) then Threw(TypeError) else Returned(Get(v.value, key))
  }

  /** `v?.key`: optional chaining yields `undefined` instead of throwing. */
  function OptionalMember(v: Option<Json>, key: string): Option<Json>
  {
    match Member(v, key)
    case Returned(r) => r
    case Threw(_) => None
  }

  /** The properties of an object with every repeated key dropped after its
      first occurrence. */
  function FirstOccurrences(props: seq<(string, Json)>): (r: seq<(string, Json)>)
    ensures forall p :: p in r ==> p in props
    ensures forall i :: 0 <= i < |r| ==> Lookup(props, r[i].0) == Some(r[i].1)
    ensures forall i, j :: 0 <= i < j < |r| ==> r[i].0 != r[j].0
    decreases |props|
  {
    if props == [] then []
    else
      var k := props[0].0;
      var rest := FirstOccurrences(Without(props[1..], k));
      [props[0]] + rest
  }

  /** The properties whose key differs from `k`, in order. */
  function Without(props: seq<(string, Json)>, k: string): (r: seq<(string, Json)>)
    ensures |r| <= |props|
    ensures forall p :: p in r <==> p in props && p.0 != k
    ensures forall key :: key != k ==> Lookup(r, key) == Lookup(props, key)
  {
    if props == [] then []
    else if props[0].0 == k then Without(props[1..], k)
    else [props[0]] + Without(props[1..], k)
  }

  /** `Object.entries(v)` for an object or array (arrays list their index keys). */
  function Entries(v: Json): seq<(string, Json)>
  {
    match v
    case JObj(ps) => FirstOccurrences(ps)
    case JArr(xs) => seq(|xs|, i requires 0 <= i < |xs| => (NatToString(i), xs[i]))
    case _ => []
  }

  /** The character of a decimal digit. */
  function DigitChar(d: nat): char
    requires d < 10
  {
    "0123456789"[d]
  }

  /** The decimal numeral of `n`, as `String(n)` writes it. */
  function NatToString(n: nat): (r: string)
    ensures |r| >= 1
    ensures forall c :: c in r ==> '0' <= c <= '9'
    decreases n
  {
    if n < 10 then [DigitChar(n)] else NatToString(n / 10) + [DigitChar(n % 10)]
  }

  /** The decimal numeral of `i`, with a minus sign when it is negative. */
  function IntToString(i: int): string
  {
    if i < 0 then "-" + NatToString(-i) else NatToString(i)
  }

  /** Converting `v` to a string — `String(v)`, a template literal `${v}`, or
      `s += v` — throws a TypeError. A parsed object's conversion looks up
      `toString` and then `valueOf`, calling the first that is a function and
      returns a primitive: an own `toString` key holds plain data, which is
      not callable, and the inherited `valueOf` returns the object itself, so
      an object with such a key cannot be converted. An array converts by
      joining its elements, so it throws when one of them does. */
  predicate ConversionThrows(v: Json)
    decreases v
  {
    match v
    case JObj(ps) => Lookup(ps, "toString").Some?
    case JArr(xs) => ElementThrows(v, xs)
    case _ => false
  }

  /** Converting one of the elements `xs` of the array `whole` throws. */
  predicate ElementThrows(ghost whole: Json, xs: seq<Json>)
    requires forall x :: x in xs ==> x < whole
    decreases whole, |xs|
  {
    xs != [] && (assert xs[0] in xs; ConversionThrows(xs[0])
      || (assert forall x :: x in xs[1..] ==> x in xs; ElementThrows(whole, xs[1..])))
  }

  /** Conversion throws only for an object with its own `toString` key, an
      array holding one, and so on: primitives, and objects and arrays without
      such a key anywhere in their elements, convert. */
  lemma ConversionExamples()
    ensures ConversionThrows(JObj([("name", JStr("a")), ("toString", JNum(1))]))
    ensures ConversionThrows(JArr([JNull, JArr([JObj([("toString", JNull)])])]))
    ensures !ConversionThrows(JObj([("name", JStr("a")), ("valueOf", JNum(1))]))
    ensures !ConversionThrows(JArr([JNull, JObj([]), JStr("toString")]))
    ensures forall v: Json :: !v.JObj? && !v.JArr? ==> !ConversionThrows(v)
  {
  }

  /** `String(v)` for a value whose conversion does not throw, which is also
      what a template literal `${v}` and `s += v` insert: arrays join their
      elements with commas, writing null elements as the empty string. For a
      value with `ConversionThrows` the result is meaningless: the source
      throws there, and every modelled site checks that predicate first. */
  function ToJsString(v: Json): string
    decreases v
  {
    match v
    case JNull => "null"
    case JBool(b) => if b then "true" else "false"
    case JNum(n) => IntToString(n)
    case JStr(s) => s
    case JObj(_) => "[object Object]"
    case JArr(xs) => JoinElements(v, xs)
  }

  /** The elements of an array converted and joined with commas, null elements as the empty string. */
  function JoinElements(ghost whole: Json, xs: seq<Json>): string
    requires forall x :: x in xs ==> x < whole
    decreases whole, |xs|
  {
    if xs == [] then ""
    else
      assert xs[0] in xs;
      var head := if xs[0] == JNull then "" else ToJsString(xs[0]);
      if |xs| == 1 then head
      else
        assert forall x :: x in xs[1..] ==> x in xs;
        head + "," + JoinElements(whole, xs[1..])
  }

  /** The characters JavaScript's `trim` and the regular-expression class `\s`
      treat as white space: WhiteSpace and LineTerminator of ECMA-262. */
  predicate IsJsSpace(c: char)
  {
    var n := c as int;
    n == 0x09 || n == 0x0A || n == 0x0B || n == 0x0C || n == 0x0D || n == 0x20 ||
    n == 0xA0 || n == 0x1680 || (0x2000 <= n <= 0x200A) || n == 0x2028 ||
    n == 0x2029 || n == 0x202F || n == 0x205F || n == 0x3000 || n == 0xFEFF
  }

  /** The number of white-space characters `s` starts with. */
  function LeadingSpaces(s: string): (k: nat)
    ensures k <= |s|
    ensures forall i :: 0 <= i < k ==> IsJsSpace(s[i])
    ensures k == |s| || !IsJsSpace(s[k])
  {
    if s != [] && IsJsSpace(s[0]) then 1 + LeadingSpaces(s[1..]) else 0
  }

  /** The number of white-space characters `s` ends with. */
  function TrailingSpaces(s: string): (k: nat)
    ensures k <= |s|
    ensures forall i :: |s| - k <= i < |s| ==> IsJsSpace(s[i])
    ensures k == |s| || !IsJsSpace(s[|s| - k - 1])
  {
    if s != [] && IsJsSpace(s[|s| - 1]) then 1 + TrailingSpaces(s[..|s| - 1]) else 0
  }

  /** `s.trim()`: `s` without the white space at either end. */
  function Trim(s: string): (r: string)
    ensures r == [] || (!IsJsSpace(r[0]) && !IsJsSpace(r[|r| - 1]))
    ensures LeadingSpaces(s) + |r| <= |s| && r == s[LeadingSpaces(s)..LeadingSpaces(s) + |r|]
    ensures forall i :: 0 <= i < LeadingSpaces(s) ==> IsJsSpace(s[i])
    ensures forall i :: LeadingSpaces(s) + |r| <= i < |s| ==> IsJsSpace(s[i])
  {
    var t := s[LeadingSpaces(s)..];
    t[..|t| - TrailingSpaces(t)]
  }
}
