/** Values and documents as the shop stores them.

    The document store holds JavaScript objects; a field's value is one of
    the JSON-like shapes below.  A document is a map from field names to
    values; a stored record pairs a document with the identifier the store
    gave it (Mongo's `_id`), which is kept outside the map.
 */
module Docs {

  /** Record identifiers; ObjectId generation, `toString` and `new ObjectId(s)`
      are abstracted to this type (the conversions are the identity). */
  type Id = nat

  datatype Option<T> = None | Some(value: T)

  /** What the source can throw (or where the model stops following it). */
  datatype Error =
    | Invalid(message: string)  // a ValidationError, with its message
    | Fault                     // a TypeError or other exception that is not a ValidationError
    | Malformed                 // data the source would carry on with as `undefined` or `NaN`

  datatype Result<T> = Ok(value: T) | Err(error: Error)

  datatype Value =
    | Null
    | Bool(b: bool)
    | Num(x: real)
    | Str(s: string)
    | Ref(id: Id)
    | List(items: seq<Value>)
    | Obj(fields: map<string, Value>)

  type Doc = map<string, Value>

  datatype Row = Row(id: Id, doc: Doc)

  /** JavaScript truthiness: `null`, `false`, `0` and `""` are falsy;
      objects and arrays (even empty ones) are truthy. */
  predicate Truthy(v: Value) {
    match v
    case Null => false
    case Bool(b) => b
    case Num(x) => x != 0.0
    case Str(s) => s != ""
    case _ => true
  }

  /** `data[field]`, with a missing field read as `undefined` (here Null). */
  function Get(d: Doc, field: string): (v: Value)
    ensures field !in d ==> v == Null
  {
    if field in d then d[field] else Null
  }

  /** `!!data[field]` */
  predicate FieldTruthy(d: Doc, field: string) {
    Truthy(Get(d, field))
  }

  /** The value a query sees for `field` of a stored record; `_id` is the
      record's identifier, and a missing field compares equal to null. */
  function Lookup(r: Row, field: string): Value {
    if field == "_id" then Ref(r.id) else Get(r.doc, field)
  }

  /** A condition of a query filter on one field: `{f: v}` or `{f: {$in: vs}}`. */
  datatype Cond = Eq(v: Value) | In(vs: seq<Value>)

  type Filter = map<string, Cond>

  predicate Holds(c: Cond, v: Value) {
    match c
    case Eq(w) => v == w
    case In(ws) => v in ws
  }

  /** The record satisfies every field condition of the filter. */
  predicate Matches(r: Row, filter: Filter) {
    forall f :: f in filter ==> Holds(filter[f], Lookup(r, f))
  }

  /** `$set`: the entries of `fields` replace or extend those of `d`. */
  function Merge(d: Doc, fields: Doc): (m: Doc)
    ensures m.Keys == d.Keys + fields.Keys
    ensures forall f :: f in fields ==> m[f] == fields[f]
    ensures forall f :: f in d && f !in fields ==> m[f] == d[f]
  {
    d + fields
  }

  /** Fields the filter does not mention and that `$set` does not touch keep
      the record's match status: a `$set` on other fields leaves it as it was. */
  lemma MergeKeepsMatch(r: Row, fields: Doc, filter: Filter)
    requires forall f :: f in filter ==> f !in fields
    ensures Matches(Row(r.id, Merge(r.doc, fields)), filter) == Matches(r, filter)
  {
    var r' := Row(r.id, Merge(r.doc, fields));
    assert forall f :: f in filter ==> Lookup(r', f) == Lookup(r, f);
  }
}
