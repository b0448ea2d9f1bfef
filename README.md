# UserDefaults++ in Dafny

A model of the typed persistence layer of UserDefaults++ (`UserDefaultsPlusPlus/Classes/UserDefaults++.swift`).
A value type that is both `Persistable` (it can `encode` itself into something the platform's
`UserDefaults` can hold) and `Retrievable` (it can `decode` itself from what was read back) is `Storable`.
Such a type can be read and written under one key through the typed accessor `UserDefault<T>`.

The model:

- `EncodedForm` (`encoded_form.dfy`) closes the store's untyped `Any` into a sum type.
  Its variants are string, 64-bit integer, double, float, boolean, `Data` blob and array of encoded forms.
  One further variant, `NullElement`, stands for a `nil` element inside an encoded array (see below).
- `Storables` (`storables.dfy`) models a conformance as an explicit record `Storable<T>(encode, decode)`.
  `encode` may give nothing and `decode` gives `None` on failure.
  The primitive conformances use the default implementations.
  The default `encode` is the identity injection into the store's vocabulary.
  The default `decode` (`encoded as? Self`) is a strict check of the variant with no numeric coercion.
  `PlistStorable` wraps Foundation's property-list encoder/decoder, given as an opaque `PlistCoder<T>` pair.
  Its decode first requires the `Data` variant.
- `Arrays` (`arrays.dfy`) models the conditional conformance of `Array`.
  Encoding maps the element encoding over the array (`map`).
  Decoding requires an array and keeps the entries that decode (`compactMap`).
  The model proves that this keeps exactly the successful entries, in order, and drops the others.
  It proves the round trip when every element round-trips.
  It also proves that one corrupt entry costs exactly that element.
- `Accessor` (`accessor.dfy`) models the store as a class `Defaults` holding a `map<string, Encoded>`.
  It is shared by reference, like `UserDefaults`.
  `UserDefault<T>` binds a key, a store and a conformance.
  `Persist` and `Clear` write the store through `Set`. `Get` and `GetOr` read it.
  The pure functions `Written` (the store after one `set(_:forKey:)`) and `Read` (what `get()` answers) specify them.
  The lemmas beside them state the round trip, removal and frame properties.
- `Scenarios` (`scenarios.dfy`) restates the scenarios of `Example/Tests/Tests.swift` as client methods.
  Each method uses the accessors only.

An array element whose own encoding yields `nil` (a `PlistStorable` value the serialiser rejects) stays in the array.
This is because `self.map({ $0.encode() })` builds an `[Any?]`.
Foundation turns such an element into a null object.
The model writes this as `NullElement`.
Every conformance defined here (primitive, `PlistStorable`, array) rejects `NullElement` when decoding, so decoding drops that element (`Arrays.UnencodableElementDropped`).

## Model

| member | source | states |
|---|---|---|
| `Storables.StringEncode` | UserDefaultsPlusPlus/Classes/UserDefaults++.swift:32-36 | the default identity `encode` of a `String` always yields a form, and `StringDecode` of that form gives the value back |
| `Storables.IntEncode` | UserDefaultsPlusPlus/Classes/UserDefaults++.swift:32-36 | the default identity `encode` of an `Int` always yields a form, and `IntDecode` of that form gives the value back |
| `Storables.DoubleEncode` | UserDefaultsPlusPlus/Classes/UserDefaults++.swift:32-36 | the default identity `encode` of a `Double` always yields a form, and `DoubleDecode` of that form gives the value back |
| `Storables.FloatEncode` | UserDefaultsPlusPlus/Classes/UserDefaults++.swift:32-36 | the default identity `encode` of a `Float` always yields a form, and `FloatDecode` of that form gives the value back |
| `Storables.BoolEncode` | UserDefaultsPlusPlus/Classes/UserDefaults++.swift:32-36 | the default identity `encode` of a `Bool` always yields a form, and `BoolDecode` of that form gives the value back |
| `Storables.DataEncode` | UserDefaultsPlusPlus/Classes/UserDefaults++.swift:32-36 | the default identity `encode` of a `Data` always yields a form, and `DataDecode` of that form gives the value back |
| `Storables.StringDecode` | UserDefaultsPlusPlus/Classes/UserDefaults++.swift:44-48 | decoding as `String` succeeds exactly on the string variant, and then yields its payload |
| `Storables.IntDecode` | UserDefaultsPlusPlus/Classes/UserDefaults++.swift:44-48 | decoding as `Int` succeeds exactly on the integer variant, and then yields its payload |
| `Storables.DoubleDecode` | UserDefaultsPlusPlus/Classes/UserDefaults++.swift:44-48 | decoding as `Double` succeeds exactly on the double variant, and then yields its payload |
| `Storables.FloatDecode` | UserDefaultsPlusPlus/Classes/UserDefaults++.swift:44-48 | decoding as `Float` succeeds exactly on the float variant, and then yields its payload |
| `Storables.BoolDecode` | UserDefaultsPlusPlus/Classes/UserDefaults++.swift:44-48 | decoding as `Bool` succeeds exactly on the boolean variant, and then yields its payload |
| `Storables.DataDecode` | UserDefaultsPlusPlus/Classes/UserDefaults++.swift:44-48 | decoding as `Data` succeeds exactly on the blob variant, and then yields its payload |
| `Storables.StringStorable` | UserDefaultsPlusPlus/Classes/UserDefaults++.swift:78-79 | the `String` conformance is lawful (every value round-trips through it) and decodes exactly the string variant |
| `Storables.IntStorable` | UserDefaultsPlusPlus/Classes/UserDefaults++.swift:81-82 | the `Int` conformance is lawful (every value round-trips through it) and decodes exactly the integer variant |
| `Storables.DoubleStorable` | UserDefaultsPlusPlus/Classes/UserDefaults++.swift:84-85 | the `Double` conformance is lawful (every value round-trips through it) and decodes exactly the double variant |
| `Storables.FloatStorable` | UserDefaultsPlusPlus/Classes/UserDefaults++.swift:87-88 | the `Float` conformance is lawful (every value round-trips through it) and decodes exactly the float variant |
| `Storables.BoolStorable` | UserDefaultsPlusPlus/Classes/UserDefaults++.swift:90-91 | the `Bool` conformance is lawful (every value round-trips through it) and decodes exactly the boolean variant |
| `Storables.DataStorable` | UserDefaultsPlusPlus/Classes/UserDefaults++.swift:93-94 | the `Data` conformance is lawful (every value round-trips through it) and decodes exactly the blob variant |
| `Storables.PrimitiveMismatch` | UserDefaultsPlusPlus/Classes/UserDefaults++.swift:45-46 | for all 30 ordered pairs of distinct primitive types, decoding one type from the encoding of a value of the other answers `None` (no coercion) |
| `Storables.PlistEncode` | UserDefaultsPlusPlus/Classes/UserDefaults++.swift:60-62 | a Codable value encodes to a `Data` blob exactly when the serialiser succeeds, and the blob is the serialiser's output |
| `Storables.PlistStorable` | UserDefaultsPlusPlus/Classes/UserDefaults++.swift:59-72 | a `PlistStorable` value round-trips if and only if the serialiser round-trips it (an assumption about Foundation, not proved), and only a `Data` blob can decode |
| `Storables.PlistDecode` | UserDefaultsPlusPlus/Classes/UserDefaults++.swift:64-71 | anything but a `Data` blob decodes to `None`; a `Data` blob decodes to exactly what the deserialiser answers for it, a value or `None` |
| `Arrays.EncodeElements` | UserDefaultsPlusPlus/Classes/UserDefaults++.swift:99-101 | the encoded array has the input's length and its i-th entry is the encoding of the i-th element (`nil` as a null marker) |
| `Arrays.EncodeArray` | UserDefaultsPlusPlus/Classes/UserDefaults++.swift:98-102 | encoding an array never yields nothing: it is always an array form holding the element encodings |
| `Arrays.CompactMap` | UserDefaultsPlusPlus/Classes/UserDefaults++.swift:107 | `compactMap` never returns more entries than it was given |
| `Arrays.CompactMapSelects` | UserDefaultsPlusPlus/Classes/UserDefaults++.swift:107 | there are increasing positions, covering every entry that succeeds, whose results are exactly the output: order kept, failures dropped |
| `Arrays.CompactMapAppend` | UserDefaultsPlusPlus/Classes/UserDefaults++.swift:107 | `compactMap` of a concatenation is the concatenation of the two `compactMap`s |
| `Arrays.CompactMapAllPresent` | UserDefaultsPlusPlus/Classes/UserDefaults++.swift:107 | when every entry succeeds nothing is dropped: same length, i-th result from the i-th entry |
| `Arrays.DecodeArray` | UserDefaultsPlusPlus/Classes/UserDefaults++.swift:104-111 | decoding an array succeeds exactly on the array variant, and then yields `compactMap` of the element decoder over the entries, never more elements than the form has entries |
| `Arrays.DecodeArraySelects` | UserDefaultsPlusPlus/Classes/UserDefaults++.swift:104-111 | the array decoded from an array form consists of the results at increasing positions covering every entry that decodes: order kept, failures dropped |
| `Arrays.ArrayStorable` | UserDefaultsPlusPlus/Classes/UserDefaults++.swift:98-111 | an array whose elements all round-trip round-trips through the array conformance, and only an array form decodes |
| `Arrays.ElementsRoundTrip` | UserDefaultsPlusPlus/Classes/UserDefaults++.swift:98-111 | if every element round-trips, `compactMap` of the decoder over the element encodings is the original array |
| `Arrays.ArrayLawful` | UserDefaultsPlusPlus/Classes/UserDefaults++.swift:98-111 | if every value of the element type round-trips, so does every array of it (and so arrays of arrays) |
| `Arrays.DropAt` | UserDefaultsPlusPlus/Classes/UserDefaults++.swift:107 | an undecodable form in place of the i-th element's encoding removes exactly the i-th element from the decoded array |
| `Arrays.CorruptEntryDropped` | UserDefaultsPlusPlus/Classes/UserDefaults++.swift:105-110 | decoding an encoded array of N round-tripping elements with one entry replaced by an undecodable form gives the other N-1 elements in order |
| `Arrays.UnencodableElementDropped` | UserDefaultsPlusPlus/Classes/UserDefaults++.swift:99-107 | an element whose encoding fails still takes a slot when encoded, and is the only element missing after decoding |
| `Accessor.Written` | UserDefaultsPlusPlus/Classes/UserDefaults++.swift:125 | after `set(value, forKey: key)` the key is present exactly when a value was given, holds that value, and every other key is unchanged |
| `Accessor.PersistedForm` | UserDefaultsPlusPlus/Classes/UserDefaults++.swift:125 | `value?.encode()` is nothing for `nil` and the type's encoding otherwise |
| `Accessor.Defaults.Value` | UserDefaultsPlusPlus/Classes/UserDefaults++.swift:129 | `value(forKey:)` answers a form exactly when the key is present, and that form is the stored one |
| `Accessor.Defaults.Set` | UserDefaultsPlusPlus/Classes/UserDefaults++.swift:125 | the store afterwards is `Written` of the store before |
| `Accessor.UserDefault.constructor` | UserDefaultsPlusPlus/Classes/UserDefaults++.swift:119-122 | the accessor is bound to the given key, store and conformance |
| `Accessor.UserDefault.Persist` | UserDefaultsPlusPlus/Classes/UserDefaults++.swift:124-126 | the store afterwards holds the value's encoding under the key, or lacks the key when there is none; nothing else changes |
| `Accessor.UserDefault.Get` | UserDefaultsPlusPlus/Classes/UserDefaults++.swift:128-133 | `get()` is `None` for an absent key and otherwise the type's decoding of the stored form |
| `Accessor.UserDefault.GetOr` | UserDefaultsPlusPlus/Classes/UserDefaults++.swift:135-137 | `get(or: d)` is `get()`'s value when there is one and `d` when there is none |
| `Accessor.UserDefault.Clear` | UserDefaultsPlusPlus/Classes/UserDefaults++.swift:139-141 | the store afterwards lacks the key and is otherwise unchanged |
| `Accessor.GetAfterPersist` | UserDefaultsPlusPlus/Classes/UserDefaults++.swift:124-133 | after persisting a value that round-trips, `get()` answers that value |
| `Accessor.ClearReadsNone` | UserDefaultsPlusPlus/Classes/UserDefaults++.swift:139-141 | after `clear()` or `persist(nil)`, at any type, the key is absent and `get()` answers `None` |
| `Accessor.UnencodableReadsNone` | UserDefaultsPlusPlus/Classes/UserDefaults++.swift:124-126 | after `persist(v)` whose encoding yields nothing, the key is absent and `get()` answers `None` |
| `Accessor.OtherKeysUnaffected` | UserDefaultsPlusPlus/Classes/UserDefaults++.swift:124-141 | a write through one key does not change what any other key answers, at any type |
| `Accessor.MismatchedTypeReadsNone` | UserDefaultsPlusPlus/Classes/UserDefaults++.swift:128-133 | reading a key through a type that rejects the stored form answers `None` rather than failing |
| `Accessor.NoCoercionBetweenAccessors` | UserDefaultsPlusPlus/Classes/UserDefaults++.swift:128-133 | a key written through the `Int` accessor reads as `None` through the `Double`, `Float`, `Bool` and `String` accessors, and a `Double` reads as `None` through `Int` |
| `Scenarios.StorePrimitives` | Example/Tests/Tests.swift:33-53 | a string, an int, a bool, a double and a float persisted under their keys of one store each read back unchanged |
| `Scenarios.StoreCustomObject` | Example/Tests/Tests.swift:55-61 | a Codable object reads back equal, given that the serialiser round-trips it |
| `Scenarios.StoreIntArray` | Example/Tests/Tests.swift:63-69 | `[2, 4, 6, 8, 10]` reads back unchanged |
| `Scenarios.StoreObjectArray` | Example/Tests/Tests.swift:71-80 | an array of Codable objects reads back unchanged, given that the serialiser round-trips each |
| `Scenarios.ClearItems` | Example/Tests/Tests.swift:82-87 | `someInt`, holding the 42 persisted by the test at Tests.swift:39, reads as absent after `clear()`; the final `get(or: 0)` giving 0 goes beyond the tests |

`Storables.RoundTrip`, `Storables.Lawful` and `Storables.CoderRoundTrips` are the predicates these rows use.
`Accessor.Read` is the specification of `get()`.
`Arrays.Slot`, `Arrays.Kept`, `Arrays.Extend` with its three lemmas, `Arrays.AllElementsRoundTrip`, `Arrays.SliceRoundTrips`, `Arrays.SkipFailure` and `Arrays.ReplaceAt` are proof helpers.

## Left out

- Foundation's `PropertyListEncoder`/`PropertyListDecoder` internals are not part of this model. They are a parameter `PlistCoder<T>`. Their round trip is a precondition (`CoderRoundTrips`), never proved.
- The real behaviour of `UserDefaults` is not modelled: durability, sharing between processes, thread safety, and NSNumber bridging in `as?`.
- Accessor.UserDefault.Persist: does not model the crash of `persist` on an array with an element whose encoding fails. Foundation bridges that `nil` element to a null object, and `set(_:forKey:)` raises an exception for a value that is not a property list. This is the one place where the library is not fail-soft. The model's plain map stores the array, and decoding drops the element.
- `Double` and `Float` are opaque bit patterns compared bitwise. IEEE 754 equality (NaN, signed zero) and arithmetic are not modelled.
- Swift's `Int` is modelled as a 64-bit integer type. No operation here computes with integers, so overflow does not arise.
- Swift's protocol and extension dispatch is not modelled. Each conformance is an explicit `Storable<T>` value. A type that supplies its own `encode`/`decode` is any such value.
- The `defaults: UserDefaults = .standard` default argument of `init` is not modelled. The store is always passed explicitly.
- `Example/UserDefaultsPlusPlus/ViewController.swift` (UIKit glue for the example to-do list) and `Package.swift` (build manifest) have no logic of this layer. The Quick/Nimble harness of `Example/Tests/Tests.swift` is modelled only through its scenarios.
