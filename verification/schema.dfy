/**
 * The subset of zod object schemas the flows declare: an object with named
 * fields, each required or optional, of kind string, boolean, array of strings
 * or number in the closed interval [0, 1]. Unknown keys are ignored.
 */
module Schema {
  import opened Js

  datatype Kind = StringKind | BoolKind | StringArrayKind | UnitIntervalKind

  datatype FieldType = Required(kind: Kind) | Optional(kind: Kind)

  datatype Field = Field(key: string, ty: FieldType)

  type Shape = seq<Field>

  /** Why a value failed a shape: it is not an object, or these fields (in declaration order) are bad. */
  datatype SchemaError = NotAnObject | InvalidFields(keys: seq<string>)

  predicate KindOk(k: Kind, v: Value)
  {
    match k
    case StringKind => v.Str?
    case BoolKind => v.Bool?
    case StringArrayKind => v.Arr? && forall i :: 0 <= i < |v.items| ==> v.items[i].Str?
    case UnitIntervalKind => v.Num? && 0.0 <= v.n <= 1.0
  }

  /** `.optional()` admits `undefined`, which is also what an absent key reads as. */
  predicate FieldOk(t: FieldType, v: Value)
  {
    match t
    case Required(k) => KindOk(k, v)
    case Optional(k) => v == Undefined || KindOk(k, v)
  }

  predicate FieldHolds(f: Field, v: Value)
  {
    FieldOk(f.ty, Prop(v, f.key))
  }

  /** `v` is an object whose every declared field has an acceptable value. */
  predicate Conforms(shape: Shape, v: Value)
  {
    v.Obj? && forall i :: 0 <= i < |shape| ==> FieldHolds(shape[i], v)
  }

  /** The keys of the declared fields `v` violates, in declaration order. */
  function Issues(shape: Shape, v: Value): (r: seq<string>)
    ensures |r| <= |shape|
    ensures |r| == 0 <==> forall i :: 0 <= i < |shape| ==> FieldHolds(shape[i], v)
    ensures forall j :: 0 <= j < |r| ==> exists i :: 0 <= i < |shape| && shape[i].key == r[j] && !FieldHolds(shape[i], v)
    ensures forall i :: 0 <= i < |shape| && !FieldHolds(shape[i], v) ==> shape[i].key in r
    decreases |shape|
  {
    if |shape| == 0 then []
    else
      var rest := Issues(shape[1..], v);
      assert forall i :: 1 <= i < |shape| ==> shape[i] == shape[1..][i - 1];
      if FieldHolds(shape[0], v) then rest else [shape[0].key] + rest
  }

  /** Parsing `v` against `shape`: None when it conforms, otherwise the reason it does not. */
  function Validate(shape: Shape, v: Value): (r: Option<SchemaError>)
    ensures r.None? <==> Conforms(shape, v)
    ensures r == Some(NotAnObject) <==> !v.Obj?
    ensures r.Some? && r.value.InvalidFields? ==>
              |r.value.keys| > 0 &&
              forall j :: 0 <= j < |r.value.keys| ==>
                exists i :: 0 <= i < |shape| && shape[i].key == r.value.keys[j] && !FieldHolds(shape[i], v)
  {
    if !v.Obj? then Some(NotAnObject)
    else
      var bad := Issues(shape, v);
      if |bad| == 0 then None else Some(InvalidFields(bad))
  }

  /** `v` and `w` read the same on every declared key. */
  predicate AgreeOn(shape: Shape, v: Value, w: Value)
  {
    forall i :: 0 <= i < |shape| ==> Prop(v, shape[i].key) == Prop(w, shape[i].key)
  }

  /** Error text of a thrown validation failure (the library's own wording is not modelled). */
  function ErrorMessage(e: SchemaError): (m: string)
    ensures "Schema validation failed" <= m
  {
    match e
    case NotAnObject => "Schema validation failed: expected object"
    case InvalidFields(keys) => "Schema validation failed: " + JoinKeys(keys)
  }

  function JoinKeys(keys: seq<string>): string
  {
    if |keys| == 0 then "" else if |keys| == 1 then keys[0] else keys[0] + ", " + JoinKeys(keys[1..])
  }

  /** An optional string field: None when it reads as undefined. */
  function OptionalText(v: Value): Option<string>
  {
    if v.Str? then Some(v.s) else None
  }

  /** An optional field written back: absent when None. */
  function OptionalEntry(key: string, t: Option<Value>): map<string, Value>
  {
    if t.Some? then map[key := t.value] else map[]
  }

  /** Every declared field an object violates is named in the error. */
  lemma BadFieldNamed(shape: Shape, v: Value, i: int)
    requires v.Obj? && 0 <= i < |shape| && !FieldHolds(shape[i], v)
    ensures Validate(shape, v).Some? && Validate(shape, v).value.InvalidFields?
    ensures shape[i].key in Validate(shape, v).value.keys
  {
  }

  /**
   * A flow declared with an input and an output schema: validate the input
   * (throwing the validation error on failure), call the prompt, validate
   * what it produced (throwing the validation error on failure, a null
   * output included) and return the output unchanged. A failure of the
   * prompt call itself propagates as thrown.
   */
  function Flow<I, O>(parseIn: Value -> Result<I, SchemaError>, parseOut: Value -> Result<O, SchemaError>,
                      prompt: I -> Completion<Value>, input: Value): (r: Completion<Value>)
    ensures parseIn(input).Failure? ==> r == Threw(ErrorInstance(ErrorMessage(parseIn(input).error)))
    ensures parseIn(input).Success? && prompt(parseIn(input).value).Threw? ==>
              r == prompt(parseIn(input).value)
    ensures parseIn(input).Success? && prompt(parseIn(input).value).Returned?
            && parseOut(prompt(parseIn(input).value).value).Failure? ==>
              r == Threw(ErrorInstance(ErrorMessage(parseOut(prompt(parseIn(input).value).value).error)))
    ensures r.Returned? <==>
              parseIn(input).Success? && prompt(parseIn(input).value).Returned?
              && parseOut(prompt(parseIn(input).value).value).Success?
    ensures r.Returned? ==> r == prompt(parseIn(input).value)
  {
    match parseIn(input)
    case Failure(e) => Threw(ErrorInstance(ErrorMessage(e)))
    case Success(request) =>
      match prompt(request)
      case Threw(t) => Threw(t)
      case Returned(output) =>
        match parseOut(output)
        case Failure(e) => Threw(ErrorInstance(ErrorMessage(e)))
        case Success(_) => Returned(output)
  }
}
