// `_json_safe` of backend/observability.py, which turns the error details
// of a validation failure into values the JSON encoder accepts before they
// are logged and returned. Python values are modelled by a datatype; a
// dictionary's keys are strings here, and `str()` of a value outside the
// JSON types is its rendering, given with the value.
module Observability {
  /** The Python values `_json_safe` meets. */
  datatype PyValue =
    | PyNone
    | PyBool(b: bool)
    | PyInt(i: int)
    | PyFloat(f: real)
    | PyStr(s: string)
    | PyList(items: seq<PyValue>)
    | PyTuple(items: seq<PyValue>)
    | PyDict(entries: map<string, PyValue>)
    | PyOther(rendering: string)

  /** Values built only from dictionaries, lists, strings, numbers, booleans and `None`. */
  predicate IsJsonCompatible(v: PyValue)
  {
    match v
    case PyTuple(_) => false
    case PyOther(_) => false
    case PyList(items) => forall k :: 0 <= k < |items| ==> IsJsonCompatible(items[k])
    case PyDict(entries) => forall key :: key in entries ==> IsJsonCompatible(entries[key])
    case _ => true
  }

  /**
   * `_json_safe`: dictionaries keep their keys with converted values,
   * lists and tuples become lists of converted items, the scalar types and
   * `None` stay, and anything else becomes its string.
   */
  function JsonSafe(v: PyValue): (r: PyValue)
    ensures v.PyDict? ==> r.PyDict? && r.entries.Keys == v.entries.Keys
    ensures v.PyDict? ==> forall key :: key in v.entries ==> r.entries[key] == JsonSafe(v.entries[key])
    ensures (v.PyList? || v.PyTuple?) ==> r.PyList? && |r.items| == |v.items|
    ensures (v.PyList? || v.PyTuple?) ==> forall k :: 0 <= k < |v.items| ==> r.items[k] == JsonSafe(v.items[k])
    ensures v.PyOther? ==> r == PyStr(v.rendering)
    ensures (v.PyNone? || v.PyBool? || v.PyInt? || v.PyFloat? || v.PyStr?) ==> r == v
  {
    match v
    case PyDict(entries) => PyDict(map key | key in entries :: JsonSafe(entries[key]))
    case PyList(items) => PyList(seq(|items|, k requires 0 <= k < |items| => JsonSafe(items[k])))
    case PyTuple(items) => PyList(seq(|items|, k requires 0 <= k < |items| => JsonSafe(items[k])))
    case PyOther(rendering) => PyStr(rendering)
    case _ => v
  }

  /** The result is always JSON-compatible. */
  lemma {:induction false} JsonSafeIsCompatible(v: PyValue)
    ensures IsJsonCompatible(JsonSafe(v))
  {
    match v
    case PyDict(entries) =>
      forall key | key in entries ensures IsJsonCompatible(JsonSafe(entries[key])) {
        JsonSafeIsCompatible(entries[key]);
      }
    case PyList(items) =>
      forall k | 0 <= k < |items| ensures IsJsonCompatible(JsonSafe(items[k])) {
        JsonSafeIsCompatible(items[k]);
      }
    case PyTuple(items) =>
      forall k | 0 <= k < |items| ensures IsJsonCompatible(JsonSafe(items[k])) {
        JsonSafeIsCompatible(items[k]);
      }
    case _ =>
  }

  /** A JSON-compatible value is returned unchanged. */
  lemma {:induction false} JsonSafeKeepsCompatible(v: PyValue)
    requires IsJsonCompatible(v)
    ensures JsonSafe(v) == v
  {
    match v
    case PyDict(entries) =>
      forall key | key in entries ensures JsonSafe(entries[key]) == entries[key] {
        JsonSafeKeepsCompatible(entries[key]);
      }
      assert JsonSafe(v).entries == entries;
    case PyList(items) =>
      forall k | 0 <= k < |items| ensures JsonSafe(items[k]) == items[k] {
        JsonSafeKeepsCompatible(items[k]);
      }
      assert JsonSafe(v).items == items;
    case _ =>
  }

  /** Converting twice is converting once. */
  lemma JsonSafeIdempotent(v: PyValue)
    ensures JsonSafe(JsonSafe(v)) == JsonSafe(v)
  {
    JsonSafeIsCompatible(v);
    JsonSafeKeepsCompatible(JsonSafe(v));
  }

  /** A tuple and the list of the same items convert to the same list. */
  lemma TupleLikeList(items: seq<PyValue>)
    ensures JsonSafe(PyTuple(items)) == JsonSafe(PyList(items))
  {
  }
}
