/** The JSON value tree the attribute maps hold (serde_json's `Value`) and the
    typed views of it that the attribute accessors use. */
module Json {
  import opened Wrappers
  import opened Ints

  /** A negative integer that fits in `i64`. */
  type NegI64 = n: int | I64_MIN <= n < 0 witness -1

  /** serde_json keeps a number as a non-negative `u64`, a negative `i64` or a
      finite `f64`; the float's bits are carried but never interpreted here. */
  datatype Number = PosInt(u: U64) | NegInt(i: NegI64) | Float(bits: bv64) {

    /** The integer a number denotes, when it is one. */
    predicate IsInteger() { !Float? }

    function IntegerValue(): int
      requires IsInteger()
    {
      if PosInt? then u else i
    }

    /** `Number::as_i64`: integers that fit in `i64`; floats never. */
    function AsI64(): (r: Option<I64>)
      ensures r.Some? <==> IsInteger() && IntegerValue() <= I64_MAX
      ensures r.Some? ==> r.value == IntegerValue()
    {
      match this
      case PosInt(n) => if n <= I64_MAX then Some(n) else None
      case NegInt(n) => Some(n)
      case Float(_) => None
    }
  }

  datatype Value =
    | Null
    | Bool(b: bool)
    | Number(n: Number)
    | String(s: string)
    | Array(items: seq<Value>)
    | Object(fields: map<string, Value>)
  {
    /** `Value::as_str`. */
    function AsStr(): (r: Option<string>)
      ensures r.Some? <==> String?
      ensures r.Some? ==> this == String(r.value)
    {
      if String? then Some(s) else None
    }

    /** `Value::as_bool`. */
    function AsBool(): (r: Option<bool>)
      ensures r.Some? <==> Bool?
      ensures r.Some? ==> this == Bool(r.value)
    {
      if Bool? then Some(b) else None
    }

    /** `Value::as_i64`: only numbers can answer, and only integral ones in range. */
    function AsI64(): (r: Option<I64>)
      ensures r.Some? ==> Number? && n.IsInteger() && n.IntegerValue() == r.value
      ensures Number? && n.IsInteger() && n.IntegerValue() <= I64_MAX ==> r.Some?
    {
      if Number? then n.AsI64() else None
    }
  }

  /** The JSON number serde writes for a Rust integer of any width. */
  function IntegerNumber(i: I64): (r: Number)
    ensures r.IsInteger() && r.IntegerValue() == i
  {
    if i < 0 then NegInt(i) else PosInt(i)
  }
}
