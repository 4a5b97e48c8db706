/**
 * The value types of the three crates the core converts to and from:
 * `rmpv::Value` (the MessagePack value the NT4 wire carries),
 * `network_tables::v4::message_type::Type` (the NT4 topic type tag)
 * together with the subscription options of the same crate, and
 * `wpilog::log::DataLogValue` (a value of a WPILib data log).
 * Only their shape and the accessors the core calls are modelled.
 * Floating-point numbers are modelled as mathematical reals.
 */
module Rmpv {
  import opened Common

  /** `rmpv::Integer` holds any `i64` or `u64`. */
  type Integer = x: int | MinI64 <= x <= MaxU64

  /** `rmpv::Value`. Strings are modelled as valid UTF-8 only. */
  datatype Value =
    | Nil
    | Boolean(boolean: bool)
    | Integer(integer: Integer)
    | F32(f32: real)
    | F64(f64: real)
    | String(str: string)
    | Binary(binary: seq<Byte>)
    | Array(items: seq<Value>)
    | Map(pairs: seq<(Value, Value)>)
    | Ext(tag: int, data: seq<Byte>)
  {
    /** `Value::as_i64`: only an integer that fits in `i64`. */
    function AsI64(): (r: Option<I64>)
      ensures r.Some? <==> Integer? && integer <= MaxI64
      ensures r.Some? ==> r.value == integer
    {
      match this
      case Integer(n) => if n <= MaxI64 then Some(n) else None
      case _ => None
    }

    /** `Value::as_f64`: integers and both float widths. */
    function AsF64(): (r: Option<real>)
      ensures r.Some? <==> Integer? || F32? || F64?
    {
      match this
      case Integer(n) => Some(n as real)
      case F32(x) => Some(x)
      case F64(x) => Some(x)
      case _ => None
    }

    /** `Value::as_str`. */
    function AsStr(): (r: Option<string>)
      ensures r.Some? <==> String?
    {
      match this
      case String(s) => Some(s)
      case _ => None
    }

    /** `Value::as_bool`. */
    function AsBool(): (r: Option<bool>)
      ensures r.Some? <==> Boolean?
    {
      match this
      case Boolean(b) => Some(b)
      case _ => None
    }
  }
}

module NetworkTablesV4 {
  import opened Common

  /** `network_tables::v4::message_type::Type`, the type announced with a topic. */
  datatype Type =
    | Boolean | Double | Int | Float | String | Json | Raw | Rpc | MsgPack | ProtoBuf
    | BooleanArray | DoubleArray | IntArray | FloatArray | StringArray

  /** The fields of `SubscriptionOptions` the application sets; compared as plain data. */
  datatype SubscriptionOptions = SubscriptionOptions(
    periodic: Option<real>,
    all: Option<bool>,
    topicsOnly: Option<bool>,
    prefix: Option<bool>)
}

module WpiLog {
  import opened Common

  /** `wpilog::log::DataLogValue`. */
  datatype DataLogValue =
    | Raw(raw: seq<Byte>)
    | Boolean(boolean: bool)
    | Integer(integer: I64)
    | Float(float: real)
    | Double(double: real)
    | String(str: string)
    | BooleanArray(booleans: seq<bool>)
    | IntegerArray(integers: seq<I64>)
    | FloatArray(floats: seq<real>)
    | DoubleArray(doubles: seq<real>)
    | StringArray(strs: seq<string>)
}
