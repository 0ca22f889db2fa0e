/**
 * The values exchanged between the server resources and the browser client:
 * JSON documents, plus JavaScript's `undefined` for a property that is not
 * there. Both languages' truthiness is defined here, since the server tests
 * request fields the Python way and the client tests response fields the
 * JavaScript way.
 */
module Json {

  datatype Option<T> = None | Some(value: T)

  /** A JSON value, or JavaScript's `undefined`. Numbers are integers here. */
  datatype Value =
    | Undefined
    | Null
    | Bool(b: bool)
    | Num(n: int)
    | Str(s: string)
    | Arr(items: seq<Value>)
    | Obj(fields: map<string, Value>)

  /** An HTTP response: its status code and its decoded JSON body. */
  datatype HttpResponse = HttpResponse(status: int, data: Value)

  /** JavaScript truthiness: `undefined`, `null`, `false`, `0` and `""` are falsy. */
  predicate JsTruthy(v: Value) {
    match v
    case Undefined => false
    case Null => false
    case Bool(b) => b
    case Num(n) => n != 0
    case Str(s) => s != ""
    case Arr(_) => true
    case Obj(_) => true
  }

  /**
   * Python truthiness of a decoded request value (`None` is `Null`): empty
   * strings, lists and dictionaries are falsy as well.
   */
  predicate PyTruthy(v: Value) {
    match v
    case Undefined => false
    case Null => false
    case Bool(b) => b
    case Num(n) => n != 0
    case Str(s) => s != ""
    case Arr(items) => items != []
    case Obj(fields) => fields != map[]
  }

  /** `angular.isObject`: not `null` and of type `object`, which includes arrays. */
  predicate IsObject(v: Value) {
    v.Arr? || v.Obj?
  }

  /** JavaScript property access `v.name` for a data property; `undefined` when absent. */
  function Member(v: Value, name: string): (r: Value)
    ensures r != Undefined ==> v.Obj? && name in v.fields && r == v.fields[name]
    ensures v.Obj? && name in v.fields ==> r == v.fields[name]
  {
    if v.Obj? && name in v.fields then v.fields[name] else Undefined
  }

  /** Python's `data.get(key)` on a decoded request dictionary: `None` when absent. */
  function Get(data: map<string, Value>, key: string): (r: Value)
    ensures key !in data ==> r == Null
    ensures key in data ==> r == data[key]
  {
    if key in data then data[key] else Null
  }

  /** Decimal digits of a natural number, most significant first. */
  function NatString(n: nat): (s: string)
    ensures |s| > 0
    ensures forall i :: 0 <= i < |s| ==> '0' <= s[i] <= '9'
    ensures s[0] == '0' <==> n == 0
    ensures s[0] == '0' ==> s == "0"
    decreases n
  {
    var d := ['0', '1', '2', '3', '4', '5', '6', '7', '8', '9'][n % 10];
    if n < 10 then [d] else NatString(n / 10) + [d]
  }

  /** Reads back the number `NatString` wrote. */
  function DigitsValue(s: string): int {
    if s == [] then 0 else DigitsValue(s[..|s| - 1]) * 10 + (s[|s| - 1] as int - '0' as int)
  }

  lemma {:induction false} NatStringRoundTrip(n: nat)
    ensures DigitsValue(NatString(n)) == n
    decreases n
  {
    var s := NatString(n);
    var d := ['0', '1', '2', '3', '4', '5', '6', '7', '8', '9'][n % 10];
    if n >= 10 {
      NatStringRoundTrip(n / 10);
      assert s[..|s| - 1] == NatString(n / 10);
    }
    assert d as int - '0' as int == n % 10;
  }

  /** The string JavaScript's `+` makes of a value when concatenating it to a string. */
  function ToJsString(v: Value): (s: string)
    ensures v.Str? ==> s == v.s
    ensures v.Num? && v.n >= 0 ==> |s| > 0 && DigitsValue(s) == v.n && (s[0] == '0' ==> s == "0")
    ensures v.Num? && v.n >= 0 ==> forall i :: 0 <= i < |s| ==> '0' <= s[i] <= '9'
    ensures v.Num? && v.n < 0 ==> |s| > 1 && s[0] == '-' && s[1] != '0' && DigitsValue(s[1..]) == -v.n
    ensures v.Num? && v.n < 0 ==> forall i :: 1 <= i < |s| ==> '0' <= s[i] <= '9'
    ensures v.Undefined? ==> s == "undefined"
    ensures v.Null? ==> s == "null"
    decreases v, 1
  {
    match v
    case Undefined => "undefined"
    case Null => "null"
    case Bool(b) => if b then "true" else "false"
    case Num(n) =>
      NatStringRoundTrip(if n < 0 then -n else n);
      if n < 0 then "-" + NatString(-n) else NatString(n)
    case Str(s) => s
    case Arr(items) => JoinItems(v, items)
    case Obj(_) => "[object Object]"
  }

  /** `Array.prototype.join(",")`: `null` and `undefined` items become empty. */
  function JoinItems(v: Value, items: seq<Value>): string
    requires forall i :: 0 <= i < |items| ==> items[i] < v
    decreases v, 0, |items|
  {
    if items == [] then ""
    else
      var head := if items[0].Undefined? || items[0].Null? then "" else ToJsString(items[0]);
      if |items| == 1 then head else head + "," + JoinItems(v, items[1..])
  }
}
