/**
 * The JavaScript values a logging call can be handed, with the three
 * operations on them that the client relies on: truthiness (for `||` and
 * `?:`), string conversion (template literals, `+` and `toString()`), and
 * property lookup of `stack` and `message`.
 */
module JsValues {
  import opened Text

  /** Integral numbers whose `toString()` is their exact decimal digits. */
  const MaxSafeInteger: int := 0x1F_FFFF_FFFF_FFFF
  type SafeInteger = n: int | -MaxSafeInteger <= n <= MaxSafeInteger

  datatype Value =
    | Str(s: string)
    | Num(n: SafeInteger)
    | BigInt(big: int)
    | Bool(b: bool)
    | Undefined
    | Null
      /** An `Error` instance: its own `stack` and `message`, and its `name`. */
    | Error(stack: string, message: string, name: string)
      /** A plain object literal, with its own properties in order. */
    | Object(entries: seq<(string, Value)>)

  /** JavaScript's ToBoolean. */
  predicate Truthy(v: Value)
  {
    match v
    case Str(s) => s != ""
    case Num(n) => n != 0
    case BigInt(n) => n != 0
    case Bool(b) => b
    case Undefined => false
    case Null => false
    case Error(_, _, _) => true
    case Object(_) => true
  }

  /** `Error.prototype.toString`: name and message joined by ": ", either may be absent. */
  function ErrorToString(name: string, message: string): (r: string)
    ensures r == "" <==> name == "" && message == ""
    ensures name != "" ==> |r| >= |name| && r[..|name|] == name
    ensures message != "" ==> |r| >= |message| && r[|r| - |message|..] == message
    ensures message == "" ==> r == name
    ensures message != "" && name == "" ==> r == message
    ensures message != "" && name != "" ==> r == name + ": " + message
  {
    if message == "" then name
    else if name == "" then message
    else name + ": " + message
  }

  /** `String(v)`, which is what a template literal and `'' + v` produce. */
  function ToJsString(v: Value): string
  {
    match v
    case Str(s) => s
    case Num(n) => DecimalString(n)
    case BigInt(n) => DecimalString(n)
    case Bool(b) => if b then "true" else "false"
    case Undefined => "undefined"
    case Null => "null"
    case Error(_, message, name) => ErrorToString(name, message)
    case Object(_) => "[object Object]"
  }

  /** A string converts to itself and a number to its decimal digits. */
  lemma ToJsStringOfPrimitives(v: Value)
    ensures v.Str? ==> ToJsString(v) == v.s
    ensures v.Num? ==> DecimalValue(ToJsString(v)) == v.n
    ensures v.BigInt? ==> DecimalValue(ToJsString(v)) == v.big
  {
    if v.Num? { DecimalRoundTrip(v.n); }
    if v.BigInt? { DecimalRoundTrip(v.big); }
  }

  /** The value of the first own property named `key`, or `undefined`. */
  function Lookup(entries: seq<(string, Value)>, key: string): (r: Value)
    ensures r != Undefined ==> exists i :: 0 <= i < |entries| && entries[i] == (key, r)
    ensures forall i :: 0 <= i < |entries| && entries[i].0 == key && FirstWith(entries, key, i) ==> r == entries[i].1
    ensures (forall i :: 0 <= i < |entries| ==> entries[i].0 != key) ==> r == Undefined
  {
    if entries == [] then Undefined
    else if entries[0].0 == key then entries[0].1
    else
      var r := Lookup(entries[1..], key);
      assert r != Undefined ==> exists i :: 1 <= i < |entries| && entries[i] == (key, r) by {
        if r != Undefined {
          var j :| 0 <= j < |entries[1..]| && entries[1..][j] == (key, r);
          assert entries[j + 1] == (key, r);
        }
      }
      assert forall i :: 0 <= i < |entries| && entries[i].0 == key && FirstWith(entries, key, i) ==> r == entries[i].1 by {
        forall i | 0 <= i < |entries| && entries[i].0 == key && FirstWith(entries, key, i)
          ensures r == entries[i].1
        {
          assert i > 0;
          assert entries[1..][i - 1] == entries[i];
          assert FirstWith(entries[1..], key, i - 1) by {
            forall j | 0 <= j < i - 1 ensures entries[1..][j].0 != key {
              assert entries[1..][j] == entries[j + 1];
            }
          }
        }
      }
      r
  }

  /** No entry before position `i` is named `key`. */
  predicate FirstWith(entries: seq<(string, Value)>, key: string, i: int)
    requires 0 <= i <= |entries|
  {
    forall j :: 0 <= j < i ==> entries[j].0 != key
  }

  /**
   * `v[key]` for the property names the client reads. Reading a property of
   * `null` or `undefined` throws a TypeError, so those are excluded.
   */
  function Property(v: Value, key: string): (r: Value)
    requires !v.Null? && !v.Undefined?
    ensures v.Error? && key == "stack" ==> r == Str(v.stack)
    ensures v.Error? && key == "message" ==> r == Str(v.message)
    ensures (v.Str? || v.Num? || v.BigInt? || v.Bool?) ==> r == Undefined
  {
    match v
    case Error(stack, message, name) =>
      if key == "stack" then Str(stack)
      else if key == "message" then Str(message)
      else if key == "name" then Str(name)
      else Undefined
    case Object(entries) => Lookup(entries, key)
    case _ => Undefined
  }

  /** `a || b`. */
  function Or(a: Value, b: Value): (r: Value)
    ensures r == a || r == b
    ensures Truthy(r) <==> Truthy(a) || Truthy(b)
    ensures Truthy(a) ==> r == a
    ensures !Truthy(a) ==> r == b
  {
    if Truthy(a) then a else b
  }
}
