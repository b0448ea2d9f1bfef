/**
 * The vocabulary of the untyped key-value store: the only shapes a value may take
 * once it has been encoded for UserDefaults (Swift's `Any` at the store boundary,
 * closed here into a sum type).
 */
module EncodedForm {

  /** Swift's `Int` on the 64-bit platforms the library targets. */
  newtype Int64 = x: int | -0x8000_0000_0000_0000 <= x < 0x8000_0000_0000_0000

  /** `Double` and `Float` are opaque payloads: stored and compared, never computed with. */
  datatype Double = Double(bits: bv64)
  datatype Float = Float(bits: bv32)

  newtype Byte = b: int | 0 <= b < 256

  /** Foundation's `Data`: a byte blob. */
  type Data = seq<Byte>

  /**
   * An encoded form. `NullElement` is what an element that encoded to `nil` becomes
   * inside an encoded array (the array encoding is a `[Any?]`); it never stands alone
   * as the encoding of a value.
   */
  datatype Encoded =
    | StringValue(text: string)
    | IntValue(number: Int64)
    | DoubleValue(double: Double)
    | FloatValue(float: Float)
    | BoolValue(flag: bool)
    | DataValue(data: Data)
    | ArrayValue(items: seq<Encoded>)
    | NullElement
}
