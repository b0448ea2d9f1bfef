/**
 * The capability contracts `Persistable` (encode) and `Retrievable` (decode), their
 * default implementations for primitive types, the primitive conformances, and the
 * `PlistStorable` conformance for Codable values.
 */
module Storables {
  import opened Wrappers
  import opened EncodedForm

  /**
   * A type's conformance to `Storable` (= `Persistable & Retrievable`), passed explicitly:
   * `encode` may produce nothing (`nil`), `decode` signals failure with `None`, never by failing hard.
   */
  datatype Storable<!T> = Storable(encode: T -> Option<Encoded>, decode: Encoded -> Option<T>)

  /** Encoding `x` yields a form that decodes back to `x`. */
  ghost predicate RoundTrip<T>(c: Storable<T>, x: T) {
    c.encode(x).Some? && c.decode(c.encode(x).value) == Some(x)
  }

  /** Every value of the type round-trips. */
  ghost predicate Lawful<T(!new)>(c: Storable<T>) {
    forall x :: RoundTrip(c, x)
  }

  // Primitive conformances (`extension String: Storable {}` and the like). The default
  // `encode` hands the value itself to the store; the default `decode` is `encoded as? Self`,
  // a strict check of the variant.

  function StringEncode(s: string): (r: Option<Encoded>)
    ensures r.Some? && StringDecode(r.value) == Some(s)
  {
    Some(StringValue(s))
  }

  function StringDecode(e: Encoded): (r: Option<string>)
    ensures r.Some? <==> e.StringValue?
    ensures r.Some? ==> e == StringValue(r.value)
  {
    if e.StringValue? then Some(e.text) else None
  }

  /** The conformance of `String`: every value round-trips, and only the string variant decodes. */
  function StringStorable(): (c: Storable<string>)
    ensures Lawful(c)
    ensures forall e: Encoded :: c.decode(e).Some? <==> e.StringValue?
  {
    Storable(StringEncode, StringDecode)
  }

  function IntEncode(n: Int64): (r: Option<Encoded>)
    ensures r.Some? && IntDecode(r.value) == Some(n)
  {
    Some(IntValue(n))
  }

  function IntDecode(e: Encoded): (r: Option<Int64>)
    ensures r.Some? <==> e.IntValue?
    ensures r.Some? ==> e == IntValue(r.value)
  {
    if e.IntValue? then Some(e.number) else None
  }

  /** The conformance of `Int`: every value round-trips, and only the int variant decodes. */
  function IntStorable(): (c: Storable<Int64>)
    ensures Lawful(c)
    ensures forall e: Encoded :: c.decode(e).Some? <==> e.IntValue?
  {
    Storable(IntEncode, IntDecode)
  }

  function DoubleEncode(d: Double): (r: Option<Encoded>)
    ensures r.Some? && DoubleDecode(r.value) == Some(d)
  {
    Some(DoubleValue(d))
  }

  function DoubleDecode(e: Encoded): (r: Option<Double>)
    ensures r.Some? <==> e.DoubleValue?
    ensures r.Some? ==> e == DoubleValue(r.value)
  {
    if e.DoubleValue? then Some(e.double) else None
  }

  /** The conformance of `Double`: every value round-trips, and only the double variant decodes. */
  function DoubleStorable(): (c: Storable<Double>)
    ensures Lawful(c)
    ensures forall e: Encoded :: c.decode(e).Some? <==> e.DoubleValue?
  {
    Storable(DoubleEncode, DoubleDecode)
  }

  function FloatEncode(f: Float): (r: Option<Encoded>)
    ensures r.Some? && FloatDecode(r.value) == Some(f)
  {
    Some(FloatValue(f))
  }

  function FloatDecode(e: Encoded): (r: Option<Float>)
    ensures r.Some? <==> e.FloatValue?
    ensures r.Some? ==> e == FloatValue(r.value)
  {
    if e.FloatValue? then Some(e.float) else None
  }

  /** The conformance of `Float`: every value round-trips, and only the float variant decodes. */
  function FloatStorable(): (c: Storable<Float>)
    ensures Lawful(c)
    ensures forall e: Encoded :: c.decode(e).Some? <==> e.FloatValue?
  {
    Storable(FloatEncode, FloatDecode)
  }

  function BoolEncode(b: bool): (r: Option<Encoded>)
    ensures r.Some? && BoolDecode(r.value) == Some(b)
  {
    Some(BoolValue(b))
  }

  function BoolDecode(e: Encoded): (r: Option<bool>)
    ensures r.Some? <==> e.BoolValue?
    ensures r.Some? ==> e == BoolValue(r.value)
  {
    if e.BoolValue? then Some(e.flag) else None
  }

  /** The conformance of `Bool`: every value round-trips, and only the bool variant decodes. */
  function BoolStorable(): (c: Storable<bool>)
    ensures Lawful(c)
    ensures forall e: Encoded :: c.decode(e).Some? <==> e.BoolValue?
  {
    Storable(BoolEncode, BoolDecode)
  }

  function DataEncode(bytes: Data): (r: Option<Encoded>)
    ensures r.Some? && DataDecode(r.value) == Some(bytes)
  {
    Some(DataValue(bytes))
  }

  function DataDecode(e: Encoded): (r: Option<Data>)
    ensures r.Some? <==> e.DataValue?
    ensures r.Some? ==> e == DataValue(r.value)
  {
    if e.DataValue? then Some(e.data) else None
  }

  /** The conformance of `Data`: every value round-trips, and only the data variant decodes. */
  function DataStorable(): (c: Storable<Data>)
    ensures Lawful(c)
    ensures forall e: Encoded :: c.decode(e).Some? <==> e.DataValue?
  {
    Storable(DataEncode, DataDecode)
  }

  /**
   * Decoding any primitive type from the encoding of a value of another primitive type answers
   * `None`: there is no coercion between Int, Double, Float and Bool, nor between String and Data.
   */
  lemma PrimitiveMismatch(s: string, n: Int64, d: Double, f: Float, b: bool, bytes: Data)
    ensures IntDecode(StringEncode(s).value) == None && DoubleDecode(StringEncode(s).value) == None && FloatDecode(StringEncode(s).value) == None
         && BoolDecode(StringEncode(s).value) == None && DataDecode(StringEncode(s).value) == None
    ensures StringDecode(IntEncode(n).value) == None && DoubleDecode(IntEncode(n).value) == None && FloatDecode(IntEncode(n).value) == None
         && BoolDecode(IntEncode(n).value) == None && DataDecode(IntEncode(n).value) == None
    ensures StringDecode(DoubleEncode(d).value) == None && IntDecode(DoubleEncode(d).value) == None && FloatDecode(DoubleEncode(d).value) == None
         && BoolDecode(DoubleEncode(d).value) == None && DataDecode(DoubleEncode(d).value) == None
    ensures StringDecode(FloatEncode(f).value) == None && IntDecode(FloatEncode(f).value) == None && DoubleDecode(FloatEncode(f).value) == None
         && BoolDecode(FloatEncode(f).value) == None && DataDecode(FloatEncode(f).value) == None
    ensures StringDecode(BoolEncode(b).value) == None && IntDecode(BoolEncode(b).value) == None && DoubleDecode(BoolEncode(b).value) == None
         && FloatDecode(BoolEncode(b).value) == None && DataDecode(BoolEncode(b).value) == None
    ensures StringDecode(DataEncode(bytes).value) == None && IntDecode(DataEncode(bytes).value) == None && DoubleDecode(DataEncode(bytes).value) == None
         && FloatDecode(DataEncode(bytes).value) == None && BoolDecode(DataEncode(bytes).value) == None
  {
  }

  /**
   * Foundation's `PropertyListEncoder().encode` and `PropertyListDecoder().decode` for one
   * Codable type: opaque; each may fail (`try?` turns the thrown error into `None`).
   */
  datatype PlistCoder<!T> = PlistCoder(serialize: T -> Option<Data>, deserialize: Data -> Option<T>)

  /** The assumption the library makes of the serialiser: encoding then decoding gives the value back. */
  ghost predicate CoderRoundTrips<T>(coder: PlistCoder<T>, x: T) {
    coder.serialize(x).Some? && coder.deserialize(coder.serialize(x).value) == Some(x)
  }

  function PlistEncode<T>(coder: PlistCoder<T>, x: T): (r: Option<Encoded>)
    ensures r.Some? <==> coder.serialize(x).Some?
    ensures r.Some? ==> r.value.DataValue? && Some(r.value.data) == coder.serialize(x)
  {
    match coder.serialize(x)
    case Some(blob) => Some(DataValue(blob))
    case None => None
  }

  function PlistDecode<T>(coder: PlistCoder<T>, e: Encoded): (r: Option<T>)
    ensures !e.DataValue? ==> r == None
    ensures e.DataValue? ==> r == coder.deserialize(e.data)
    ensures e.DataValue? && coder.deserialize(e.data).None? ==> r == None
    ensures r.Some? ==> e.DataValue? && coder.deserialize(e.data) == r
  {
    if e.DataValue? then
      match coder.deserialize(e.data)
      case Some(result) => Some(result)
      case None => None
    else
      None
  }

  /**
   * The `PlistStorable` conformance of a Codable type with the given serialiser: a value round-trips
   * if and only if the serialiser round-trips it, and only a `Data` blob can decode.
   */
  function PlistStorable<T(!new)>(coder: PlistCoder<T>): (c: Storable<T>)
    ensures forall x :: RoundTrip(c, x) <==> CoderRoundTrips(coder, x)
    ensures forall e: Encoded :: !e.DataValue? ==> c.decode(e).None?
  {
    Storable(x => PlistEncode(coder, x), e => PlistDecode(coder, e))
  }
}
