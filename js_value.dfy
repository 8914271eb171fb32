/** The JavaScript values the auth service handles: response bodies, error
    bodies and the user record, with the two conversions it relies on —
    truthiness (`if (x)`, `x || y`, `!!x`) and `String(x)`, which
    `localStorage.setItem` applies to what it stores. */
module JsValue {

  datatype Option<T> = None | Some(value: T)

  datatype Result<T, E> = Ok(value: T) | Err(error: E)

  /** A JSON-shaped value. Numbers are integers; objects are keyed maps. */
  datatype Json =
    | Null
    | Bool(b: bool)
    | Num(n: int)
    | Str(s: string)
    | Arr(items: seq<Json>)
    | Obj(fields: map<string, Json>)

  predicate Truthy(v: Json) {
    match v
    case Null => false
    case Bool(b) => b
    case Num(n) => n != 0
    case Str(s) => s != ""
    case Arr(_) => true
    case Obj(_) => true
  }

  /** `v[key]` on a value that is not null; `None` is `undefined`. Only objects
      carry the keys this service reads. */
  function Property(v: Json, key: string): (r: Option<Json>)
    requires v != Null
    ensures r.Some? <==> v.Obj? && key in v.fields
    ensures r.Some? ==> r.value == v.fields[key]
  {
    match v
    case Obj(fields) => if key in fields then Some(fields[key]) else None
    case _ => None
  }

  predicate IsDigit(c: char) {
    '0' <= c <= '9'
  }

  function Digit(d: nat): (c: char)
    requires d < 10
    ensures IsDigit(c) && c as int - '0' as int == d
  {
    ('0' as int + d) as char
  }

  /** The number a string of decimal digits denotes, most significant first. */
  function DecimalValue(r: string): nat
    requires forall k :: 0 <= k < |r| ==> IsDigit(r[k])
  {
    if r == [] then 0
    else
      assert IsDigit(r[|r| - 1]);
      DecimalValue(r[..|r| - 1]) * 10 + (r[|r| - 1] as int - '0' as int)
  }

  /** The decimal form of `n`: digits denoting `n`, without leading zeros. */
  function NatToString(n: nat): (r: string)
    ensures |r| >= 1
    ensures forall k :: 0 <= k < |r| ==> IsDigit(r[k])
    ensures DecimalValue(r) == n
    ensures |r| > 1 ==> r[0] != '0'
  {
    if n < 10 then [Digit(n)]
    else
      var prefix := NatToString(n / 10);
      var r := prefix + [Digit(n % 10)];
      assert r[..|r| - 1] == prefix;
      r
  }

  function IntToString(n: int): (r: string)
    ensures |r| >= 1
  {
    if n < 0 then "-" + NatToString(-n) else NatToString(n)
  }

  /** `String(v)`: arrays join their elements' strings with ',' (null elements
      give the empty string), plain objects give "[object Object]". */
  function ToJsString(v: Json): string {
    match v
    case Null => "null"
    case Bool(b) => if b then "true" else "false"
    case Num(n) => IntToString(n)
    case Str(s) => s
    case Arr(items) => JoinItems(items)
    case Obj(_) => "[object Object]"
  }

  function JoinItems(items: seq<Json>): string
    decreases items
  {
    if items == [] then ""
    else
      var first := if items[0] == Null then "" else ToJsString(items[0]);
      if |items| == 1 then first else first + "," + JoinItems(items[1..])
  }

  /** A truthy value other than an array converts to a non-empty string. */
  lemma TruthyToNonEmpty(v: Json)
    requires Truthy(v) && !v.Arr?
    ensures ToJsString(v) != ""
  {
  }

  /** An empty array is truthy yet converts to the empty string. */
  lemma EmptyArrayTruthyButBlank()
    ensures Truthy(Arr([])) && ToJsString(Arr([])) == ""
  {
  }
}
