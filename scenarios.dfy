/**
 * The library's test scenarios as client code: each opens its own store, goes through
 * accessors only, and states what it reads back.
 */
module Scenarios {
  import opened Wrappers
  import opened EncodedForm
  import opened Storables
  import opened Arrays
  import opened Accessor

  datatype AnotherCustomObject = AnotherCustomObject(d: Double)
  datatype CustomObject = CustomObject(a: string, b: Int64, c: AnotherCustomObject)

  /** 3.14 and 2.71 as IEEE 754 bit patterns. */
  const Pi: Double := Double(0x4009_1EB8_51EB_851F)
  const E: Float := Float(0x402D_70A4)

  /** Each primitive, persisted under its own key of one store, reads back unchanged. */
  method StorePrimitives() returns (s: Option<string>, n: Option<Int64>, b: Option<bool>, d: Option<Double>, f: Option<Float>)
    ensures s == Some("testing") && n == Some(42) && b == Some(true) && d == Some(Pi) && f == Some(E)
  {
    var standard := new Defaults();
    var someString := new UserDefault<string>("someString", standard, StringStorable());
    someString.Persist(Some("testing"));
    s := someString.Get();
    var someInt := new UserDefault<Int64>("someInt", standard, IntStorable());
    someInt.Persist(Some(42));
    n := someInt.Get();
    var someBool := new UserDefault<bool>("someBool", standard, BoolStorable());
    someBool.Persist(Some(true));
    b := someBool.Get();
    var someDouble := new UserDefault<Double>("someDouble", standard, DoubleStorable());
    someDouble.Persist(Some(Pi));
    d := someDouble.Get();
    var someFloat := new UserDefault<Float>("someFloat", standard, FloatStorable());
    someFloat.Persist(Some(E));
    f := someFloat.Get();
  }

  /** `CustomObject(a: "hello", b: 93, c: AnotherCustomObject(d: 54.2))`. */
  const Hello: CustomObject := CustomObject("hello", 93, AnotherCustomObject(Double(0x404B_1999_9999_999A)))

  /** A Codable object comes back equal, provided the property-list serialiser round-trips it. */
  method StoreCustomObject(coder: PlistCoder<CustomObject>) returns (got: Option<CustomObject>)
    requires CoderRoundTrips(coder, Hello)
    ensures got == Some(Hello)
  {
    var standard := new Defaults();
    var someCustomObject := new UserDefault<CustomObject>("someCustomObject", standard, PlistStorable(coder));
    someCustomObject.Persist(Some(Hello));
    got := someCustomObject.Get();
  }

  method StoreIntArray() returns (got: Option<seq<Int64>>)
    ensures got == Some([2, 4, 6, 8, 10])
  {
    var ints: seq<Int64> := [2, 4, 6, 8, 10];
    var standard := new Defaults();
    var someIntArray := new UserDefault<seq<Int64>>("someIntArray", standard, ArrayStorable(IntStorable()));
    assert forall i :: 0 <= i < |ints| ==> RoundTrip(IntStorable(), ints[i]);
    someIntArray.Persist(Some(ints));
    got := someIntArray.Get();
  }

  method StoreObjectArray(coder: PlistCoder<CustomObject>, objects: seq<CustomObject>) returns (got: Option<seq<CustomObject>>)
    requires forall i :: 0 <= i < |objects| ==> CoderRoundTrips(coder, objects[i])
    ensures got == Some(objects)
  {
    var standard := new Defaults();
    var someCustomObjectArray := new UserDefault<seq<CustomObject>>("someCustomObjectArray", standard, ArrayStorable(PlistStorable(coder)));
    assert forall i :: 0 <= i < |objects| ==> RoundTrip(PlistStorable(coder), objects[i]);
    someCustomObjectArray.Persist(Some(objects));
    got := someCustomObjectArray.Get();
  }

  /**
   * The integer persisted under `someInt` by the earlier test reads as absent once cleared;
   * `get(or:)` then falls back to its default.
   */
  method ClearItems() returns (before: Option<Int64>, after: Option<Int64>, fallback: Int64)
    ensures before == Some(42) && after == None && fallback == 0
  {
    var standard := new Defaults();
    var someInt := new UserDefault<Int64>("someInt", standard, IntStorable());
    someInt.Persist(Some(42));
    before := someInt.Get();
    someInt.Clear();
    after := someInt.Get();
    fallback := someInt.GetOr(0);
  }
}
