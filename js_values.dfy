/** The JavaScript values that `express.json()` can place in a request body,
    with the three language operations the handlers rely on: property reads,
    truthiness (`!x`, `x || y`) and conversion to a string (`String(x)`, which
    `parseInt` applies to its argument first). */
module JsValues {
  import opened Wrappers

  /** A value parsed from JSON. Numbers are integral (see README). */
  datatype Json =
    | JNull
    | JBool(b: bool)
    | JNum(n: int)
    | JStr(s: string)
    | JArr(elems: seq<Json>)
    | JObj(props: map<string, Json>)

  /** `body[key]` on the parsed request body; `None` is `undefined`. */
  function Lookup(body: map<string, Json>, key: string): (r: Option<Json>)
    ensures r.Some? <==> key in body
    ensures r.Some? ==> r.value == body[key]
  {
    if key in body then Some(body[key]) else None
  }

  /** `v.key` on a value that is not `null`: only objects have own
      properties here, so strings, numbers, booleans and arrays give
      `undefined`. Reading a property of `null` throws; callers handle it. */
  function Member(v: Json, key: string): (r: Option<Json>)
    ensures r.Some? <==> v.JObj? && key in v.props
  {
    if v.JObj? && key in v.props then Some(v.props[key]) else None
  }

  /** ToBoolean: `undefined`, `null`, `false`, `0` and `""` are falsy;
      every array and object, even an empty one, is truthy. */
  predicate Truthy(v: Option<Json>)
    ensures Truthy(v) <==>
      v.Some? && v.value != JNull && v.value != JBool(false) && v.value != JNum(0) && v.value != JStr("")
  {
    match v
    case None => false
    case Some(JNull) => false
    case Some(JBool(b)) => b
    case Some(JNum(n)) => n != 0
    case Some(JStr(s)) => s != ""
    case Some(JArr(_)) => true
    case Some(JObj(_)) => true
  }

  /** `a || b`: the left operand when it is truthy, otherwise the right one. */
  function Or(a: Option<Json>, b: Json): (r: Json)
    ensures Truthy(a) ==> Some(r) == a
    ensures !Truthy(a) ==> r == b
  {
    if Truthy(a) then a.value else b
  }

  /** The message V8 gives when ToPrimitive finds no callable `toString`
      or `valueOf` that returns a primitive. */
  const ToPrimitiveError: string := "Cannot convert object to primitive value"

  function DigitChar(d: nat): (c: char)
    requires d < 10
    ensures '0' <= c <= '9' && c as int - '0' as int == d
  {
    "0123456789"[d]
  }

  /** Decimal digits of a natural number, most significant first, with no
      leading zero. */
  function NatToDecimal(n: nat): (s: string)
    decreases n
  {
    if n < 10 then [DigitChar(n)] else NatToDecimal(n / 10) + [DigitChar(n % 10)]
  }

  /** Number::toString for an integral number below 10^21 in magnitude. */
  function IntToDecimal(n: int): string
  {
    if n < 0 then "-" + NatToDecimal(-n) else NatToDecimal(n)
  }

  /** Whether ToString throws on `v`: `v` is an object with its own
      `toString` key, or an array holding such a value at any depth. */
  ghost predicate ThrowsOnToString(v: Json)
    decreases v
  {
    match v
    case JObj(props) => "toString" in props
    case JArr(elems) => exists i | 0 <= i < |elems| :: ThrowsOnToString(elems[i])
    case _ => false
  }

  /** ToString of a JSON value. An object with its own `toString` property
      has a non-callable `toString` (JSON holds no functions), and the
      inherited `valueOf` returns the object itself, which is not a
      primitive, so ToPrimitive throws. */
  function ToJsString(v: Json): (r: Result<string, string>)
    decreases v
    ensures r.Failure? <==> ThrowsOnToString(v)
    ensures r.Failure? ==> r.error == ToPrimitiveError
    ensures v.JStr? ==> r == Success(v.s)
  {
    match v
    case JNull => Success("null")
    case JBool(b) => Success(if b then "true" else "false")
    case JNum(n) => Success(IntToDecimal(n))
    case JStr(s) => Success(s)
    case JArr(elems) => JoinElems(elems)
    case JObj(props) =>
      if "toString" in props then Failure(ToPrimitiveError) else Success("[object Object]")
  }

  /** Array.prototype.join with separator ",", which Array.prototype.toString
      applies to an array's elements: a `null` element contributes the empty
      string, and the first element whose conversion throws makes the whole
      conversion throw. */
  function JoinElems(elems: seq<Json>): (r: Result<string, string>)
    decreases elems
    ensures r.Failure? <==> exists i | 0 <= i < |elems| :: ThrowsOnToString(elems[i])
    ensures r.Failure? ==> r.error == ToPrimitiveError
    ensures |elems| == 1 && elems[0] != JNull ==> r == ToJsString(elems[0])
  {
    if elems == [] then Success("")
    else
      var first := if elems[0].JNull? then Success("") else ToJsString(elems[0]);
      if first.Failure? then first
      else if |elems| == 1 then first
      else
        var rest := JoinElems(elems[1..]);
        assert forall i | 1 <= i < |elems| :: elems[i] == elems[1..][i - 1];
        if rest.Failure? then rest else Success(first.value + "," + rest.value)
  }
}
