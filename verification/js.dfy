/**
 * JavaScript values as the TypeScript sources see them at run time: the
 * JSON-like shape of data crossing the generative backend boundary, the
 * truthiness rule used by `if (x)` and `&&`, thrown values, and the two ways
 * an awaited call can complete.
 */
module Js {

  datatype Option<+T> = None | Some(value: T)

  datatype Result<+T, +E> = Success(value: T) | Failure(error: E)

  /** A run-time value. `Num` is a finite number; NaN is not modelled. */
  datatype Value =
    | Undefined
    | Null
    | Bool(b: bool)
    | Num(n: real)
    | Str(s: string)
    | Arr(items: seq<Value>)
    | Obj(fields: map<string, Value>)

  /**
   * Property read `v.key` for a key that is not a built-in property of any
   * value (all schema keys are such keys): an object's own field, otherwise
   * `undefined`. An object field bound to `undefined` reads like an absent one.
   */
  function Prop(v: Value, key: string): Value
  {
    if v.Obj? && key in v.fields then v.fields[key] else Undefined
  }

  /** JavaScript truthiness: `undefined`, `null`, `false`, `0` and `""` are falsy. */
  predicate Truthy(v: Value)
  {
    match v
    case Undefined => false
    case Null => false
    case Bool(b) => b
    case Num(n) => n != 0.0
    case Str(s) => s != ""
    case Arr(_) => true
    case Obj(_) => true
  }

  /** Truthiness of a `string | null` slot, as in `error && ...`. */
  predicate TruthyText(t: Option<string>)
  {
    t.Some? && t.value != ""
  }

  /** A thrown value: an `Error` instance (recognised by `instanceof Error`) or anything else. */
  datatype Thrown = ErrorInstance(message: string) | NonError(value: Value)

  /** How an awaited call ends: it returns a value or it throws. */
  datatype Completion<+T> = Returned(value: T) | Threw(thrown: Thrown)

  /** The array value holding the given strings, in order. */
  function StringsValue(ss: seq<string>): (v: Value)
    ensures v.Arr? && |v.items| == |ss|
    ensures forall i :: 0 <= i < |ss| ==> v.items[i] == Str(ss[i])
  {
    Arr(seq(|ss|, i requires 0 <= i < |ss| => Str(ss[i])))
  }

  /** The texts of an array of strings (a non-string item reads as ""). */
  function ValueStrings(items: seq<Value>): (ss: seq<string>)
    ensures |ss| == |items|
    ensures forall i :: 0 <= i < |items| && items[i].Str? ==> ss[i] == items[i].s
  {
    seq(|items|, i requires 0 <= i < |items| => if items[i].Str? then items[i].s else "")
  }

  lemma StringsRoundTrip(ss: seq<string>)
    ensures ValueStrings(StringsValue(ss).items) == ss
  {
  }
}
