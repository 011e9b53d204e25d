/** Values and documents as the route handlers see them: parsed JSON request
    bodies and stored MongoDB documents, read with JavaScript's property
    access and truthiness rules. */
module Documents {

  datatype Option<+T> = None | Some(value: T)

  /** An ObjectId, represented by its 24-digit hex string (what `toString()`
      returns). The driver's parsing of ids is not part of this model. */
  type ObjectId = string

  /** A JavaScript value. `Oid` is a BSON ObjectId stored in a document.
      Numbers are reals: floating-point rounding and NaN are not modelled. */
  datatype Value =
    | Undefined
    | Null
    | Bool(b: bool)
    | Num(n: real)
    | Str(s: string)
    | Arr(items: seq<Value>)
    | Obj(fields: map<string, Value>)
    | Oid(hex: ObjectId)

  /** A request body or a stored document: field name to value. */
  type Doc = map<string, Value>

  /** `doc.key`: a field that is not there reads as `undefined`. */
  function Get(d: Doc, key: string): Value {
    if key in d then d[key] else Undefined
  }

  /** JavaScript truthiness: `undefined`, `null`, `false`, `0` and `""` are
      falsy; every array and object, even an empty one, is truthy. */
  predicate Truthy(v: Value) {
    match v
    case Undefined => false
    case Null => false
    case Bool(b) => b
    case Num(n) => n != 0.0
    case Str(s) => s != ""
    case Arr(_) => true
    case Obj(_) => true
    case Oid(_) => true
  }

  /** Reading any property of `null` or `undefined` throws a TypeError. */
  predicate Nullish(v: Value) {
    v.Undefined? || v.Null?
  }

  /** `v.key` for a value that is not nullish: an object's field, and
      `undefined` on every other value (the keys read by the handlers are not
      properties of strings, numbers or arrays). */
  function Field(v: Value, key: string): Value {
    if v.Obj? then Get(v.fields, key) else Undefined
  }

  /** True iff every one of `keys` holds a truthy value in `d`: the shape of
      the `!d.a || !d.b || ...` presence checks in the handlers. */
  predicate AllTruthy(d: Doc, keys: set<string>) {
    forall k :: k in keys ==> Truthy(Get(d, k))
  }

  /** The document after MongoDB's `{ $set: updates }`: every top-level field
      of `updates` overwrites or adds that field, and every other field keeps
      its value. */
  function SetFields(d: Doc, updates: Doc): (r: Doc)
    ensures r.Keys == d.Keys + updates.Keys
    ensures forall k :: k in updates ==> r[k] == updates[k]
    ensures forall k :: k in d && k !in updates ==> r[k] == d[k]
  {
    d + updates
  }

  /** Applying the same `$set` twice leaves the document as applying it once. */
  lemma SetFieldsIdempotent(d: Doc, updates: Doc)
    ensures SetFields(SetFields(d, updates), updates) == SetFields(d, updates)
  {
  }
}
