/**
 * `MushroomValue`: the closed set of telemetry values the bridge carries,
 * its classifiers, indexed access, and its conversions to and from the
 * MessagePack wire value, the NT4 type tag, a data-log value and the
 * host types the command layer asks for.
 *
 * A conversion that panics in the Rust code returns `None` here.
 * Floating-point payloads are reals: narrowing to `f32` and rounding are
 * not modelled, so no property below is claimed for the `Float` variants
 * that the narrowing would break.
 */
module MushroomValues {
  import opened Common
  import Rmpv
  import NT = NetworkTablesV4
  import WpiLog

  datatype MushroomValue =
    | ByteArray(bytes: seq<Byte>)
    | Protobuf(protobuf: seq<Byte>)
    | Float(float: real)
    | FloatArray(floats: seq<real>)
    | Double(double: real)
    | DoubleArray(doubles: seq<real>)
    | Int(integer: I64)
    | IntArray(integers: seq<I64>)
    | String(str: string)
    | StringArray(strs: seq<string>)
    | Boolean(boolean: bool)
    | BooleanArray(booleans: seq<bool>)
  {
    predicate IsBinary() {
      match this
      case ByteArray(_) => true
      case Protobuf(_) => true
      case _ => false
    }

    predicate IsNumeric() {
      match this
      case Float(_) => true
      case FloatArray(_) => true
      case Double(_) => true
      case DoubleArray(_) => true
      case Int(_) => true
      case IntArray(_) => true
      case _ => false
    }

    predicate IsString() {
      match this
      case String(_) => true
      case StringArray(_) => true
      case _ => false
    }

    predicate IsBoolean() {
      match this
      case Boolean(_) => true
      case BooleanArray(_) => true
      case _ => false
    }

    predicate IsArray() {
      match this
      case ByteArray(_) => true
      case Protobuf(_) => true
      case FloatArray(_) => true
      case DoubleArray(_) => true
      case IntArray(_) => true
      case StringArray(_) => true
      case BooleanArray(_) => true
      case _ => false
    }

    predicate IsSingle() {
      match this
      case Float(_) => true
      case Double(_) => true
      case Int(_) => true
      case String(_) => true
      case Boolean(_) => true
      case _ => false
    }

    /** Number of elements of an array value; `None` for a single value. */
    function GetLen(): (r: Option<nat>)
      ensures r.Some? <==> IsArray()
    {
      match this
      case ByteArray(v) => Some(|v|)
      case Protobuf(v) => Some(|v|)
      case FloatArray(v) => Some(|v|)
      case DoubleArray(v) => Some(|v|)
      case IntArray(v) => Some(|v|)
      case StringArray(v) => Some(|v|)
      case BooleanArray(v) => Some(|v|)
      case _ => None
    }

    /**
     * Element `index` of an array value as a single value; bytes of a
     * binary value come back as `Int`.
     */
    function GetIndex(index: nat): (r: Option<MushroomValue>)
      ensures r.Some? <==> IsArray() && index < GetLen().value
      ensures r.Some? ==> r.value.IsSingle()
      ensures r.Some? ==> (r.value.IsNumeric() <==> IsNumeric() || IsBinary())
      ensures r.Some? ==> (r.value.IsString() <==> IsString())
      ensures r.Some? ==> (r.value.IsBoolean() <==> IsBoolean())
      ensures r.Some? && ByteArray? ==> r.value == Int(bytes[index])
      ensures r.Some? && Protobuf? ==> r.value == Int(protobuf[index])
    {
      match this
      case ByteArray(v) => if index < |v| then Some(Int(v[index])) else None
      case Protobuf(v) => if index < |v| then Some(Int(v[index])) else None
      case FloatArray(v) => if index < |v| then Some(Float(v[index])) else None
      case DoubleArray(v) => if index < |v| then Some(Double(v[index])) else None
      case IntArray(v) => if index < |v| then Some(Int(v[index])) else None
      case StringArray(v) => if index < |v| then Some(String(v[index])) else None
      case BooleanArray(v) => if index < |v| then Some(Boolean(v[index])) else None
      case _ => None
    }
  }

  /** The classifiers split the twelve variants into single/array and into four disjoint families. */
  lemma ClassifiersPartition(m: MushroomValue)
    ensures m.IsSingle() != m.IsArray()
    ensures m.IsBinary() ==> m.IsArray()
    ensures m.IsBinary() || m.IsNumeric() || m.IsString() || m.IsBoolean()
    ensures !(m.IsBinary() && m.IsNumeric()) && !(m.IsBinary() && m.IsString())
    ensures !(m.IsBinary() && m.IsBoolean()) && !(m.IsNumeric() && m.IsString())
    ensures !(m.IsNumeric() && m.IsBoolean()) && !(m.IsString() && m.IsBoolean())
  {
  }

  // ---------------------------------------------------------------------
  // Conversion to and from the MessagePack wire value
  // ---------------------------------------------------------------------

  /** `str::replace("\"", "")`: the string with every double quote deleted. */
  function RemoveQuotes(s: string): (r: string)
    ensures '"' !in r
    ensures |r| <= |s|
    ensures '"' !in s ==> r == s
    ensures multiset(r) == multiset(s)['"' := 0]
  {
    if |s| == 0 then ""
    else
      assert s == [s[0]] + s[1..];
      if s[0] == '"' then RemoveQuotes(s[1..])
      else [s[0]] + RemoveQuotes(s[1..])
  }

  lemma {:induction false} RemoveQuotesAppend(a: string, b: string)
    ensures RemoveQuotes(a + b) == RemoveQuotes(a) + RemoveQuotes(b)
  {
    if |a| > 0 {
      assert (a + b)[1..] == a[1..] + b;
      RemoveQuotesAppend(a[1..], b);
    } else {
      assert a + b == b;
    }
  }

  /** `Utf8String`'s `Display` writes the string between double quotes. */
  function Quoted(s: string): string {
    "\"" + s + "\""
  }

  /** Deleting quotes from the quoted form gives the string with its own quotes deleted. */
  lemma RemoveQuotesOfQuoted(s: string)
    ensures RemoveQuotes(Quoted(s)) == RemoveQuotes(s)
  {
    RemoveQuotesAppend("\"" + s, "\"");
    RemoveQuotesAppend("\"", s);
    assert RemoveQuotes("\"") == "";
  }

  function F64Items(items: seq<Rmpv.Value>): (r: seq<real>)
    ensures |r| == |items|
  {
    seq(|items|, i requires 0 <= i < |items| => items[i].AsF64().GetOr(0.0))
  }

  function I64Items(items: seq<Rmpv.Value>): (r: seq<I64>)
    ensures |r| == |items|
  {
    seq(|items|, i requires 0 <= i < |items| => items[i].AsI64().GetOr(0))
  }

  function StrItems(items: seq<Rmpv.Value>): (r: seq<string>)
    ensures |r| == |items|
  {
    seq(|items|, i requires 0 <= i < |items| => items[i].AsStr().GetOr(""))
  }

  function BoolItems(items: seq<Rmpv.Value>): (r: seq<bool>)
    ensures |r| == |items|
  {
    seq(|items|, i requires 0 <= i < |items| => items[i].AsBool().GetOr(false))
  }

  /** `impl From<MushroomValue> for rmpv::Value`. */
  function ToRmpv(m: MushroomValue): (w: Rmpv.Value)
    ensures w.Binary? <==> m.IsBinary()
    ensures w.Array? <==> m.IsArray() && !m.IsBinary()
    ensures w.Array? ==> Some(|w.items|) == m.GetLen()
    ensures !w.Nil? && !w.Map? && !w.Ext?
  {
    match m
    case Float(v) => Rmpv.F32(v)
    case Double(v) => Rmpv.F64(v)
    case Int(v) => Rmpv.Integer(v)
    case String(v) => Rmpv.String(v)
    case Boolean(v) => Rmpv.Boolean(v)
    case ByteArray(v) => Rmpv.Binary(v)
    case Protobuf(v) => Rmpv.Binary(v)
    case FloatArray(v) => Rmpv.Array(seq(|v|, i requires 0 <= i < |v| => Rmpv.F32(v[i])))
    case DoubleArray(v) => Rmpv.Array(seq(|v|, i requires 0 <= i < |v| => Rmpv.F64(v[i])))
    case IntArray(v) => Rmpv.Array(seq(|v|, i requires 0 <= i < |v| => Rmpv.Integer(v[i])))
    case StringArray(v) => Rmpv.Array(seq(|v|, i requires 0 <= i < |v| => Rmpv.String(v[i])))
    case BooleanArray(v) => Rmpv.Array(seq(|v|, i requires 0 <= i < |v| => Rmpv.Boolean(v[i])))
  }

  /** The wire values `From<rmpv::Value>` panics on. */
  predicate RmpvPanics(w: Rmpv.Value) {
    || w.Nil? || w.Map? || w.Ext?
    || (w.Array? && |w.items| > 0
        && !(w.items[0].F32? || w.items[0].F64? || w.items[0].Integer?
             || w.items[0].String? || w.items[0].Boolean?))
  }

  /**
   * `impl From<rmpv::Value> for MushroomValue`; `None` where the Rust code
   * panics. The kind of an array is taken from its first element; an
   * empty array becomes an empty `FloatArray`.
   */
  function FromRmpv(w: Rmpv.Value): (r: Option<MushroomValue>)
    ensures r.None? <==> RmpvPanics(w)
    ensures r.Some? && w.Array? ==> r.value.IsArray() && !r.value.IsBinary()
    ensures r.Some? && w.Array? ==> r.value.GetLen() == Some(|w.items|)
    ensures r.Some? && w.Binary? ==> r.value == ByteArray(w.binary)
    ensures r.Some? && !w.Array? && !w.Binary? ==> r.value.IsSingle()
  {
    match w
    case F32(v) => Some(Float(v))
    case F64(v) => Some(Double(v))
    case Integer(_) => Some(Int(w.AsI64().GetOr(0)))
    case String(v) => Some(String(RemoveQuotes(Quoted(v))))
    case Boolean(v) => Some(Boolean(v))
    case Binary(v) => Some(ByteArray(v))
    case Array(items) =>
      if |items| == 0 then Some(FloatArray([]))
      else (
        match items[0]
        case F32(_) => Some(FloatArray(F64Items(items)))
        case F64(_) => Some(DoubleArray(F64Items(items)))
        case Integer(_) => Some(IntArray(I64Items(items)))
        case String(_) => Some(StringArray(StrItems(items)))
        case Boolean(_) => Some(BooleanArray(BoolItems(items)))
        case _ => None)
    case _ => None
  }

  /**
   * What survives the trip to the wire and back: never a panic; integers,
   * booleans, doubles, byte arrays and non-empty int, double, boolean and
   * string arrays come back unchanged; a string loses its double quotes;
   * protobuf bytes come back as a byte array; every empty array comes
   * back as an empty float array.
   */
  lemma {:induction false} RmpvRoundTrip(m: MushroomValue)
    ensures FromRmpv(ToRmpv(m)).Some?
    ensures m.Int? || m.Boolean? || m.Double? || m.ByteArray? ==> FromRmpv(ToRmpv(m)) == Some(m)
    ensures (m.IntArray? || m.DoubleArray? || m.BooleanArray? || m.StringArray?) && m.GetLen() != Some(0) ==>
              FromRmpv(ToRmpv(m)) == Some(m)
    ensures m.String? ==> FromRmpv(ToRmpv(m)) == Some(String(RemoveQuotes(m.str)))
    ensures m.Protobuf? ==> FromRmpv(ToRmpv(m)) == Some(ByteArray(m.protobuf))
    ensures m.IsArray() && !m.IsBinary() && m.GetLen() == Some(0) ==> FromRmpv(ToRmpv(m)) == Some(FloatArray([]))
  {
    match m
    case String(v) =>
      RemoveQuotesOfQuoted(v);
    case IntArray(v) =>
      if |v| > 0 {
        var items := ToRmpv(m).items;
        assert items[0].Integer?;
        assert I64Items(items) == v;
      }
    case DoubleArray(v) =>
      if |v| > 0 {
        var items := ToRmpv(m).items;
        assert items[0].F64?;
        assert F64Items(items) == v;
      }
    case BooleanArray(v) =>
      if |v| > 0 {
        var items := ToRmpv(m).items;
        assert items[0].Boolean?;
        assert BoolItems(items) == v;
      }
    case StringArray(v) =>
      if |v| > 0 {
        var items := ToRmpv(m).items;
        assert items[0].String?;
        assert StrItems(items) == v;
      }
    case FloatArray(v) =>
      if |v| > 0 {
        assert ToRmpv(m).items[0].F32?;
      }
    case _ =>
  }

  /** A string without double quotes survives the wire unchanged. */
  lemma UnquotedStringRoundTrip(s: string)
    requires '"' !in s
    ensures FromRmpv(ToRmpv(String(s))) == Some(String(s))
  {
    RmpvRoundTrip(String(s));
  }

  /** Element access agrees with the wire encoding of a non-binary array, element by element. */
  lemma GetIndexAgreesWithRmpv(m: MushroomValue, i: nat)
    requires m.IsArray() && !m.IsBinary() && i < m.GetLen().value
    ensures ToRmpv(m).items[i] == ToRmpv(m.GetIndex(i).value)
  {
  }

  // ---------------------------------------------------------------------
  // NT4 type tag
  // ---------------------------------------------------------------------

  /** `impl From<MushroomValue> for network_tables::v4::message_type::Type`. */
  function ToNtType(m: MushroomValue): (t: NT.Type)
    ensures t != NT.Type.Json && t != NT.Type.Rpc && t != NT.Type.MsgPack
    ensures t == NT.Type.Raw <==> m.ByteArray?
    ensures t == NT.Type.ProtoBuf <==> m.Protobuf?
  {
    match m
    case Boolean(_) => NT.Type.Boolean
    case Double(_) => NT.Type.Double
    case Float(_) => NT.Type.Float
    case Int(_) => NT.Type.Int
    case String(_) => NT.Type.String
    case BooleanArray(_) => NT.Type.BooleanArray
    case DoubleArray(_) => NT.Type.DoubleArray
    case FloatArray(_) => NT.Type.FloatArray
    case IntArray(_) => NT.Type.IntArray
    case StringArray(_) => NT.Type.StringArray
    case Protobuf(_) => NT.Type.ProtoBuf
    case ByteArray(_) => NT.Type.Raw
  }

  /** Position of the variant in the declaration, as a reference for "same variant". */
  function VariantIndex(m: MushroomValue): nat {
    match m
    case ByteArray(_) => 0
    case Protobuf(_) => 1
    case Float(_) => 2
    case FloatArray(_) => 3
    case Double(_) => 4
    case DoubleArray(_) => 5
    case Int(_) => 6
    case IntArray(_) => 7
    case String(_) => 8
    case StringArray(_) => 9
    case Boolean(_) => 10
    case BooleanArray(_) => 11
  }

  /** The announced type tag identifies the variant exactly: the mapping is total and one-to-one. */
  lemma NtTypeIdentifiesVariant(m: MushroomValue, n: MushroomValue)
    ensures ToNtType(m) == ToNtType(n) <==> VariantIndex(m) == VariantIndex(n)
  {
  }

  // ---------------------------------------------------------------------
  // Data-log values
  // ---------------------------------------------------------------------

  /** `impl From<DataLogValue> for MushroomValue`. */
  function FromDataLog(d: WpiLog.DataLogValue): (m: MushroomValue)
    ensures !m.Protobuf?
    ensures m.IsArray() <==> d.Raw? || d.BooleanArray? || d.IntegerArray? || d.FloatArray?
                             || d.DoubleArray? || d.StringArray?
  {
    match d
    case Boolean(v) => Boolean(v)
    case Double(v) => Double(v)
    case Float(v) => Float(v)
    case Integer(v) => Int(v)
    case String(v) => String(v)
    case BooleanArray(v) => BooleanArray(v)
    case DoubleArray(v) => DoubleArray(v)
    case FloatArray(v) => FloatArray(v)
    case IntegerArray(v) => IntArray(v)
    case StringArray(v) => StringArray(v)
    case Raw(v) => ByteArray(v)
  }

  /** `impl From<MushroomValue> for DataLogValue`; `None` (a panic) for `Protobuf`. */
  function ToDataLog(m: MushroomValue): (r: Option<WpiLog.DataLogValue>)
    ensures r.None? <==> m.Protobuf?
  {
    match m
    case Boolean(v) => Some(WpiLog.Boolean(v))
    case Double(v) => Some(WpiLog.Double(v))
    case Float(v) => Some(WpiLog.Float(v))
    case Int(v) => Some(WpiLog.Integer(v))
    case String(v) => Some(WpiLog.String(v))
    case BooleanArray(v) => Some(WpiLog.BooleanArray(v))
    case DoubleArray(v) => Some(WpiLog.DoubleArray(v))
    case FloatArray(v) => Some(WpiLog.FloatArray(v))
    case IntArray(v) => Some(WpiLog.IntegerArray(v))
    case StringArray(v) => Some(WpiLog.StringArray(v))
    case ByteArray(v) => Some(WpiLog.Raw(v))
    case Protobuf(_) => None
  }

  /**
   * Every data-log value converts in and back out unchanged (an `f32`
   * widened to `f64` narrows back exactly), and every value except
   * `Protobuf` and the float variants converts out and back in unchanged.
   */
  lemma DataLogRoundTrip(d: WpiLog.DataLogValue, m: MushroomValue)
    ensures ToDataLog(FromDataLog(d)) == Some(d)
    ensures !m.Protobuf? && !m.Float? && !m.FloatArray? ==> FromDataLog(ToDataLog(m).value) == m
  {
  }

  // ---------------------------------------------------------------------
  // Host-type conversions (`impl From<MushroomValue> for T`)
  // ---------------------------------------------------------------------

  /** Rust's saturating `f64 as i64`: truncation toward zero, clamped to the `i64` range. */
  function SaturatingToI64(r: real): (n: I64)
    ensures r >= 0.0 ==> 0 <= n && n as real <= r
    ensures r <= 0.0 ==> n <= 0 && r <= n as real
    ensures MinI64 as real < r < MaxI64 as real ==> -1.0 < r - n as real < 1.0
    ensures r >= MaxI64 as real ==> n == MaxI64
    ensures r <= MinI64 as real ==> n == MinI64
  {
    if r >= MaxI64 as real then MaxI64
    else if r <= MinI64 as real then MinI64
    else if r >= 0.0 then r.Floor
    else -((-r).Floor)
  }

  function ToBool(m: MushroomValue): (r: Option<bool>)
    ensures r.Some? <==> m.Boolean?
    ensures r.Some? ==> r.value == m.boolean
  {
    match m
    case Boolean(v) => Some(v)
    case _ => None
  }

  function ToI64(m: MushroomValue): (r: Option<I64>)
    ensures r.Some? <==> m.Int? || m.Float? || m.Double?
    ensures m.Int? ==> r == Some(m.integer)
    ensures m.Float? ==> r == Some(SaturatingToI64(m.float))
    ensures m.Double? ==> r == Some(SaturatingToI64(m.double))
  {
    match m
    case Int(v) => Some(v)
    case Float(v) => Some(SaturatingToI64(v))
    case Double(v) => Some(SaturatingToI64(v))
    case _ => None
  }

  function ToF64(m: MushroomValue): (r: Option<real>)
    ensures r.Some? <==> m.Double? || m.Float? || m.Int?
    ensures m.Int? ==> r == Some(m.integer as real)
    ensures m.Double? ==> r == Some(m.double)
    ensures m.Float? ==> r == Some(m.float)
  {
    match m
    case Double(v) => Some(v)
    case Float(v) => Some(v)
    case Int(v) => Some(v as real)
    case _ => None
  }

  /** Only `ByteArray` converts to `Vec<u8>`; `Protobuf` panics. */
  function ToBytes(m: MushroomValue): (r: Option<seq<Byte>>)
    ensures r.Some? <==> m.ByteArray?
    ensures m.ByteArray? ==> r == Some(m.bytes)
    ensures r.Some? ==> Some(|r.value|) == m.GetLen() &&
                        forall i :: 0 <= i < |r.value| ==> m.GetIndex(i) == Some(Int(r.value[i]))
  {
    match m
    case ByteArray(v) => Some(v)
    case _ => None
  }

  function ToF64s(m: MushroomValue): (r: Option<seq<real>>)
    ensures r.Some? <==> m.DoubleArray? || m.FloatArray? || m.IntArray?
    ensures r.Some? ==> Some(|r.value|) == m.GetLen()
    ensures r.Some? ==> forall i :: 0 <= i < |r.value| ==> Some(r.value[i]) == ToF64(m.GetIndex(i).value)
  {
    match m
    case DoubleArray(v) => Some(v)
    case FloatArray(v) => Some(v)
    case IntArray(v) => Some(seq(|v|, i requires 0 <= i < |v| => v[i] as real))
    case _ => None
  }

  function ToI64s(m: MushroomValue): (r: Option<seq<I64>>)
    ensures r.Some? <==> m.IntArray? || m.FloatArray? || m.DoubleArray?
    ensures r.Some? ==> Some(|r.value|) == m.GetLen()
    ensures r.Some? ==> forall i :: 0 <= i < |r.value| ==> Some(r.value[i]) == ToI64(m.GetIndex(i).value)
  {
    match m
    case IntArray(v) => Some(v)
    case FloatArray(v) => Some(seq(|v|, i requires 0 <= i < |v| => SaturatingToI64(v[i])))
    case DoubleArray(v) => Some(seq(|v|, i requires 0 <= i < |v| => SaturatingToI64(v[i])))
    case _ => None
  }

  function ToStrings(m: MushroomValue): (r: Option<seq<string>>)
    ensures r.Some? <==> m.StringArray?
    ensures m.StringArray? ==> r == Some(m.strs)
    ensures r.Some? ==> Some(|r.value|) == m.GetLen() &&
                        forall i :: 0 <= i < |r.value| ==> m.GetIndex(i) == Some(String(r.value[i]))
  {
    match m
    case StringArray(v) => Some(v)
    case _ => None
  }

  function ToBools(m: MushroomValue): (r: Option<seq<bool>>)
    ensures r.Some? <==> m.BooleanArray?
    ensures m.BooleanArray? ==> r == Some(m.booleans)
    ensures r.Some? ==> Some(|r.value|) == m.GetLen() &&
                        forall i :: 0 <= i < |r.value| ==> m.GetIndex(i) == Some(Boolean(r.value[i]))
  {
    match m
    case BooleanArray(v) => Some(v)
    case _ => None
  }
}
