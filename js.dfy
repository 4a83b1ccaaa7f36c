/**
 * The JavaScript side of the mixin: the values a request carries, JavaScript
 * truthiness, property reads that yield `undefined`, and the request body as a
 * mutable object whose properties the mixin deletes and assigns in place.
 */
module Js {

  datatype Option<+T> = None | Some(value: T)

  /** A JSON-like JavaScript value, as found in a request body, in the remote
      method's arguments or in a stored model instance. Numbers are integers. */
  datatype Value =
    | Undefined
    | Null
    | Bool(b: bool)
    | Num(n: int)
    | Str(s: string)
    | Arr(elems: seq<Value>)
    | Obj(props: map<string, Value>)

  /** The own properties of a plain JavaScript object. */
  type Fields = map<string, Value>

  /** JavaScript truthiness, as `if (v)` decides it. */
  predicate Truthy(v: Value) {
    match v
    case Undefined => false
    case Null => false
    case Bool(b) => b
    case Num(n) => n != 0
    case Str(s) => s != ""
    case Arr(_) => true
    case Obj(_) => true
  }

  /** The property read `o[k]`: `undefined` when `o` has no property `k`. */
  function Get(o: Fields, k: string): Value {
    if k in o then o[k] else Undefined
  }

  /** `s.startsWith(prefix)`. */
  predicate StartsWith(s: string, prefix: string) {
    |prefix| <= |s| && s[..|prefix|] == prefix
  }

  /** A request body: a JavaScript object that the mixin changes in place
      (`delete data[key]`, `to[key] = value`), so that the remote method that
      runs afterwards sees the changed object. */
  class Body {
    var fields: Fields

    constructor (fields: Fields)
      ensures this.fields == fields
    {
      this.fields := fields;
    }
  }

  /** The object that `delete o[k]` for each `k` of `keys`, in order, leaves
      behind: every listed key is gone, every other property is untouched. */
  function Deleted(keys: seq<string>, o: Fields): (r: Fields)
    ensures forall k :: k in r <==> k in o && k !in keys
    ensures forall k :: k in r ==> r[k] == o[k]
    decreases |keys|
  {
    if keys == [] then o
    else Deleted(keys[..|keys| - 1], o) - {keys[|keys| - 1]}
  }

  /** The object that `to[k] = from[k]` for each `k` of `keys`, in order,
      leaves behind: every listed key now holds the value read from `from`
      (`undefined` when `from` lacks it), whether or not `to` had that key;
      every other property is untouched. */
  function Assigned(keys: seq<string>, from: Fields, to: Fields): (r: Fields)
    ensures forall k :: k in r <==> k in to || k in keys
    ensures forall k :: k in keys ==> r[k] == Get(from, k)
    ensures forall k :: k in r && k !in keys ==> r[k] == to[k]
    decreases |keys|
  {
    if keys == [] then to
    else
      var last := keys[|keys| - 1];
      Assigned(keys[..|keys| - 1], from, to)[last := Get(from, last)]
  }

  /** Deleting the same keys a second time changes nothing. */
  lemma DeletedIdempotent(keys: seq<string>, o: Fields)
    ensures Deleted(keys, Deleted(keys, o)) == Deleted(keys, o)
  {
  }

  /** Assigning the same keys from the same source a second time changes nothing. */
  lemma AssignedIdempotent(keys: seq<string>, from: Fields, to: Fields)
    ensures Assigned(keys, from, Assigned(keys, from, to)) == Assigned(keys, from, to)
  {
  }

  /** Only the set of keys matters, not their order or repetitions. */
  lemma KeySetDecides(keys1: seq<string>, keys2: seq<string>, from: Fields, to: Fields)
    requires forall k :: k in keys1 <==> k in keys2
    ensures Deleted(keys1, to) == Deleted(keys2, to)
    ensures Assigned(keys1, from, to) == Assigned(keys2, from, to)
  {
  }
}
