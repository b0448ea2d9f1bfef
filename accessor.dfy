/**
 * The underlying key-value store and the typed accessor `UserDefault<T>`, a stateless
 * facade binding one key of one store to one `Storable` type.
 */
module Accessor {
  import opened Wrappers
  import opened EncodedForm
  import opened Storables

  /** The store after `set(value, forKey: key)`: a value is written under the key, `nil` removes it. */
  function Written(values: map<string, Encoded>, key: string, value: Option<Encoded>): (r: map<string, Encoded>)
    ensures key in r <==> value.Some?
    ensures value.Some? ==> r[key] == value.value
    ensures forall k :: k != key ==> (k in r <==> k in values)
    ensures forall k :: k != key && k in values ==> r[k] == values[k]
  {
    match value
    case Some(e) => values[key := e]
    case None => values - {key}
  }

  /** What `get()` answers for `key` of a store holding `values`, for a type with conformance `c`. */
  function Read<T>(values: map<string, Encoded>, key: string, c: Storable<T>): Option<T> {
    if key in values then c.decode(values[key]) else None
  }

  /** `value?.encode()`: the form `persist` writes, or nothing. */
  function PersistedForm<T>(c: Storable<T>, value: Option<T>): (r: Option<Encoded>)
    ensures value.None? ==> r.None?
    ensures value.Some? ==> r == c.encode(value.value)
  {
    match value
    case Some(v) => c.encode(v)
    case None => None
  }

  /** The platform's `UserDefaults`: a mutable map from string keys to encoded forms, shared by reference. */
  class Defaults {
    var values: map<string, Encoded>

    constructor ()
      ensures values == map[]
    {
      values := map[];
    }

    /** `value(forKey:)`. */
    function Value(key: string): (r: Option<Encoded>)
      reads this
      ensures r.Some? <==> key in values
      ensures r.Some? ==> r.value == values[key]
    {
      if key in values then Some(values[key]) else None
    }

    /** `set(_:forKey:)`. */
    method Set(value: Option<Encoded>, key: string)
      modifies this
      ensures values == Written(old(values), key, value)
    {
      match value {
        case Some(e) => values := values[key := e];
        case None => values := values - {key};
      }
    }
  }

  /** `UserDefault<T>`: a key of a store, read and written as values of one storable type. */
  class UserDefault<T> {
    const key: string
    const defaults: Defaults
    const storable: Storable<T>

    constructor (key: string, defaults: Defaults, storable: Storable<T>)
      ensures this.key == key && this.defaults == defaults && this.storable == storable
    {
      this.key := key;
      this.defaults := defaults;
      this.storable := storable;
    }

    method Persist(value: Option<T>)
      modifies defaults
      ensures defaults.values == Written(old(defaults.values), key, PersistedForm(storable, value))
    {
      defaults.Set(PersistedForm(storable, value), key);
    }

    function Get(): (r: Option<T>)
      reads defaults
      ensures r == Read(defaults.values, key, storable)
    {
      match defaults.Value(key)
      case Some(encoded) => storable.decode(encoded)
      case None => None
    }

    function GetOr(def: T): (r: T)
      reads defaults
      ensures Get().Some? ==> r == Get().value
      ensures Get().None? ==> r == def
    {
      Get().GetOr(def)
    }

    method Clear()
      modifies defaults
      ensures defaults.values == Written(old(defaults.values), key, None)
    {
      defaults.Set(None, key);
    }
  }

  /** After persisting a value that round-trips, `get()` answers that value. */
  lemma GetAfterPersist<T>(values: map<string, Encoded>, key: string, c: Storable<T>, v: T)
    requires RoundTrip(c, v)
    ensures Read(Written(values, key, PersistedForm(c, Some(v))), key, c) == Some(v)
  {
  }

  /** After `clear()` or `persist(nil)`, at any type, the key is absent and `get()` answers `None`. */
  lemma ClearReadsNone<T>(values: map<string, Encoded>, key: string, c: Storable<T>)
    ensures PersistedForm(c, None) == None
    ensures key !in Written(values, key, None)
    ensures Read(Written(values, key, None), key, c) == None
  {
  }

  /** After `persist(v)` whose encoding yields nothing, the key is absent and `get()` answers `None`. */
  lemma UnencodableReadsNone<T>(values: map<string, Encoded>, key: string, c: Storable<T>, v: T)
    requires c.encode(v).None?
    ensures key !in Written(values, key, PersistedForm(c, Some(v)))
    ensures Read(Written(values, key, PersistedForm(c, Some(v))), key, c) == None
  {
  }

  /** A write through one key leaves what every other key answers unchanged, whatever its type. */
  lemma OtherKeysUnaffected<T>(values: map<string, Encoded>, key: string, other: string, value: Option<Encoded>, c: Storable<T>)
    requires other != key
    ensures Read(Written(values, key, value), other, c) == Read(values, other, c)
  {
  }

  /**
   * Two accessors of different types bound to one key: reading what the other wrote fails
   * softly, with `None`, whenever the reading type rejects that form.
   */
  lemma MismatchedTypeReadsNone<T, U>(values: map<string, Encoded>, key: string, writer: Storable<T>, reader: Storable<U>, v: T)
    requires writer.encode(v).Some? && reader.decode(writer.encode(v).value).None?
    ensures Read(Written(values, key, PersistedForm(writer, Some(v))), key, reader) == None
  {
  }

  /**
   * The accessors of the library's own conformances do not coerce: a key written as an `Int`
   * reads as absent through a `Double`, `Float`, `Bool` or `String` accessor, and a `Double`
   * reads as absent through an `Int` accessor.
   */
  lemma NoCoercionBetweenAccessors(values: map<string, Encoded>, key: string, n: Int64, d: Double)
    ensures Read(Written(values, key, PersistedForm(IntStorable(), Some(n))), key, DoubleStorable()) == None
    ensures Read(Written(values, key, PersistedForm(IntStorable(), Some(n))), key, FloatStorable()) == None
    ensures Read(Written(values, key, PersistedForm(IntStorable(), Some(n))), key, BoolStorable()) == None
    ensures Read(Written(values, key, PersistedForm(IntStorable(), Some(n))), key, StringStorable()) == None
    ensures Read(Written(values, key, PersistedForm(DoubleStorable(), Some(d))), key, IntStorable()) == None
  {
  }
}
