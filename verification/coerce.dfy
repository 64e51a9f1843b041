/** `convertToType`: the raw string is first turned into an intermediate JSON
    value according to the destination's kind (`Encode`, the `switch` on the
    reflected kind), and that JSON value is then decoded into the destination
    (`Decode`, the final `json.Unmarshal`). */
module Coerce {
  import opened Wrappers
  import opened Strings
  import opened StrConv

  /** The reflected kind of a destination, or of a slice destination's
      element. `SliceK` records its element kind because `json.Unmarshal`
      stores a JSON string only into a string element. Pointers, interfaces,
      `[]byte` (decoded from base64), `json.Number` (a string kind that
      accepts only number literals) and types with their own JSON or text
      unmarshalers are not part of this model, neither as destinations nor as
      slice elements; every kind here refuses a JSON string unless it is
      `StringK`. */
  datatype Kind =
    | StringK
    | BoolK
    | IntK                   // Go's `int`; `int8` ... `uint64` are `OtherK`
    | FloatK                 // `float32` or `float64`
    | SliceK(elem: Kind)
    | MapK
    | ArrayK
    | OtherK                 // structs, sized integers, channels, functions, complex numbers

  /** A float as `strconv.ParseFloat` returns it: finite, or NaN / an infinity. */
  datatype Float64 = Finite(x: real) | NonFinite

  /** `strconv.ParseFloat(val, 64)`, which this model leaves opaque. */
  type FloatParser = string -> Result<Float64, NumReason>

  /** What a destination can hold after a successful conversion. */
  datatype Value =
    | StrV(s: string)
    | BoolV(b: bool)
    | IntV(i: int)
    | FloatV(x: real)
    | ListV(items: seq<string>)

  /** The intermediate JSON document `json.Marshal` produces. */
  datatype Json =
    | JString(s: string)
    | JBool(b: bool)
    | JInt(i: int)
    | JFloat(x: real)
    | JStringArray(items: seq<string>)

  datatype Shape = StringShape | BoolShape | NumberShape | ArrayShape

  datatype Error =
    | PathKeyNotFound                    // "key not found"
    | KeyNotFound(key: string)           // "key '<key>' not found"
    | Num(cause: NumError)               // from ParseBool, Atoi or ParseFloat
    | UnsupportedValue                   // json.Marshal of NaN or an infinity
    | UnmarshalType(shape: Shape, kind: Kind)

  /** What one call does to its destination and what it returns. */
  datatype Outcome =
    | Stored(v: Value)       // nil error; the destination now holds `v`
    | Skipped                // nil error; the destination is untouched
    | Refused(e: Error)      // an error; the destination is untouched
    | Partial(e: Error)      // an error, returned after json.Unmarshal resized
                             // a slice destination; its contents are not modelled
  {
    predicate IsError() {
      Refused? || Partial?
    }

    predicate Untouched() {
      Skipped? || Refused?
    }
  }

  function ShapeOf(j: Json): Shape
  {
    match j
    case JString(_) => StringShape
    case JBool(_) => BoolShape
    case JInt(_) => NumberShape
    case JFloat(_) => NumberShape
    case JStringArray(_) => ArrayShape
  }

  /** A value a destination of kind `kind` can hold. */
  predicate Fits(v: Value, kind: Kind)
  {
    match v
    case StrV(_) => kind == StringK
    case BoolV(_) => kind == BoolK
    case IntV(i) => kind == IntK && MinInt <= i <= MaxInt
    case FloatV(_) => kind == FloatK
    case ListV(_) => kind == SliceK(StringK)
  }

  /** `json.Marshal` of a value a destination holds: the document that
      decodes back into it. */
  function JsonOf(v: Value): Json
  {
    match v
    case StrV(s) => JString(s)
    case BoolV(b) => JBool(b)
    case IntV(i) => JInt(i)
    case FloatV(x) => JFloat(x)
    case ListV(xs) => JStringArray(xs)
  }

  /** The `switch` on the destination kind. `case reflect.Array | reflect.Slice`
      is a bitwise or of the two kind constants (17 | 23 == 23), so it selects
      slices only and arrays take the `default` branch. The map and `default`
      branches marshal the raw string as it is. */
  function Encode(kind: Kind, raw: string, parseFloat: FloatParser): (r: Result<Json, Error>)
    ensures r.Success? && r.value.JString? ==> r.value.s == raw
    ensures r.Success? && r.value.JStringArray? ==> Join(r.value.items, ',') == raw
    ensures r.Failure? ==> kind in {BoolK, IntK, FloatK}
    // the string, map and default branches marshal the raw text as a JSON string
    ensures r.Success? && r.value.JString? <==> kind in {StringK, MapK, ArrayK, OtherK}
    // only slices, not arrays, are split into a list, whose pieces hold no comma
    ensures r.Success? && r.value.JStringArray? <==> kind.SliceK?
    ensures r.Success? && r.value.JStringArray? ==> SepFree(r.value.items, ',')
  {
    match kind
    case MapK => Success(JString(raw))
    case SliceK(_) => Success(JStringArray(Split(raw, ',')))
    case StringK => Success(JString(raw))
    case BoolK =>
      (match ParseBool(raw)
       case Failure(e) => Failure(Num(e))
       case Success(b) => Success(JBool(b)))
    case FloatK =>
      (match parseFloat(raw)
       case Failure(reason) => Failure(Num(NumError("ParseFloat", raw, reason)))
       case Success(NonFinite) => Failure(UnsupportedValue)
       case Success(Finite(x)) => Success(JFloat(x)))
    case IntK =>
      (match Atoi(raw)
       case Failure(e) => Failure(Num(e))
       case Success(i) => Success(JInt(i)))
    case ArrayK => Success(JString(raw))
    case OtherK => Success(JString(raw))
  }

  /** `json.Unmarshal` of the intermediate document into the destination, for
      the documents `Encode` produces. A list of strings into a slice of some
      other element type is accepted as an array: the decoder resizes the
      slice and then refuses each string element, returning the first
      element's type error. */
  function Decode(j: Json, kind: Kind): (o: Outcome)
    ensures !o.Skipped?
    ensures o.Stored? ==> Fits(o.v, kind)
    // unmarshalling inverts marshalling on exactly the values that fit
    ensures forall v :: o == Stored(v) <==> Fits(v, kind) && JsonOf(v) == j
    ensures o.Partial? <==> j.JStringArray? && kind.SliceK? && kind.elem != StringK
    ensures o.Refused? ==> o.e == UnmarshalType(ShapeOf(j), kind)
    ensures o.Partial? ==> o.e == UnmarshalType(StringShape, kind.elem)
  {
    match (j, kind)
    case (JString(s), StringK) => Stored(StrV(s))
    case (JBool(b), BoolK) => Stored(BoolV(b))
    case (JInt(i), IntK) =>
      if MinInt <= i <= MaxInt then Stored(IntV(i)) else Refused(UnmarshalType(NumberShape, IntK))
    case (JFloat(x), FloatK) => Stored(FloatV(x))
    case (JStringArray(xs), SliceK(StringK)) => Stored(ListV(xs))
    case (JStringArray(_), SliceK(elem)) => Partial(UnmarshalType(StringShape, elem))
    case _ => Refused(UnmarshalType(ShapeOf(j), kind))
  }

  /** `convertToType`. */
  function Convert(kind: Kind, raw: string, parseFloat: FloatParser): (o: Outcome)
    ensures !o.Skipped?
    ensures o.Stored? ==> Fits(o.v, kind)
    // a string destination receives the raw value verbatim
    ensures kind == StringK ==> o == Stored(StrV(raw))
    // a bool destination: exactly the twelve literals, case-sensitive
    ensures kind == BoolK ==>
              (o.Stored? <==> raw in TrueWords + FalseWords) &&
              (o.Stored? ==> o.v == BoolV(raw in TrueWords)) &&
              (!o.Stored? ==> o == Refused(Num(NumError("ParseBool", raw, Syntax))))
    // an int destination: optional sign, digits, within the 64-bit range
    ensures kind == IntK ==>
              (o.Stored? <==> IsIntLiteral(raw) && MinInt <= LiteralValue(raw) <= MaxInt) &&
              (o.Stored? ==> o.v == IntV(LiteralValue(raw))) &&
              (!o.Stored? ==> o.Refused? && o.e.Num? && o.e.cause.fn == "Atoi")
    // a float destination: a parse failure or a non-finite value is refused
    ensures kind == FloatK ==>
              (o.Stored? <==> parseFloat(raw).Success? && parseFloat(raw).value.Finite?) &&
              (o.Stored? ==> o.v == FloatV(parseFloat(raw).value.x)) &&
              (!o.Stored? ==> o.Refused?)
    // a slice of strings receives the comma-separated pieces
    ensures kind == SliceK(StringK) ==> o.Stored? && o.v.items == Split(raw, ',')
    // a slice of anything else is resized, then its first element refuses a string
    ensures kind.SliceK? && kind.elem != StringK ==>
              o == Partial(UnmarshalType(StringShape, kind.elem))
    // maps, arrays and every other kind receive a JSON string and refuse it
    ensures kind in {MapK, ArrayK, OtherK} ==> o == Refused(UnmarshalType(StringShape, kind))
  {
    match Encode(kind, raw, parseFloat)
    case Failure(e) => Refused(e)
    case Success(j) => Decode(j, kind)
  }

  /** The raw text a stored value renders back to (`%v` for scalars, the
      comma-joined items for a list). */
  function Render(v: Value): string
    requires !v.FloatV?
  {
    match v
    case StrV(s) => s
    case BoolV(b) => FormatBool(b)
    case IntV(i) => Itoa(i)
    case ListV(xs) => Join(xs, ',')
  }

  /** Converting the rendering of a converted value stores the same value
      again: conversion is idempotent over round trips through text. */
  lemma ConvertRenderRoundTrip(kind: Kind, raw: string, parseFloat: FloatParser)
    requires kind != FloatK
    requires Convert(kind, raw, parseFloat).Stored?
    ensures Convert(kind, Render(Convert(kind, raw, parseFloat).v), parseFloat)
              == Convert(kind, raw, parseFloat)
  {
  }
}
