/**
 * JSON-like values as the routes see them: request bodies and Firestore documents are
 * objects whose fields are read with JavaScript's truthiness rules.
 */
module Json {

  /** A field value. `Undefined` is what reading an absent field yields; `Composite` is any
      object or array (always truthy). Numbers are reals, so `NaN` is not representable. */
  datatype Value = Undefined | Null | Bool(b: bool) | Num(n: real) | Str(s: string) | Composite

  /** A document or request body: field name to value. */
  type Doc = map<string, Value>

  /** `obj[key]`: the stored value, or `undefined` when the field is absent. */
  function Field(d: Doc, key: string): Value
  {
    if key in d then d[key] else Undefined
  }

  /** JavaScript truthiness: `undefined`, `null`, `false`, `0` and `""` are falsy. */
  predicate Truthy(v: Value)
  {
    match v
    case Undefined => false
    case Null => false
    case Bool(b) => b
    case Num(n) => n != 0.0
    case Str(s) => s != ""
    case Composite => true
  }

  /** `required.filter((field) => !data[field])`: the required fields that are falsy, in order. */
  function MissingFields(data: Doc, required: seq<string>): (r: seq<string>)
    ensures |r| <= |required|
    ensures forall f :: f in r <==> f in required && !Truthy(Field(data, f))
    ensures r == [] <==> forall f :: f in required ==> Truthy(Field(data, f))
  {
    if required == [] then []
    else
      var rest := MissingFields(data, required[1..]);
      assert forall f :: f in required <==> f == required[0] || f in required[1..];
      if Truthy(Field(data, required[0])) then rest else [required[0]] + rest
  }

  /** `parts.join(sep)`. */
  function Join(parts: seq<string>, sep: string): string
  {
    if parts == [] then ""
    else if |parts| == 1 then parts[0]
    else parts[0] + sep + Join(parts[1..], sep)
  }

  /** The 400 message of both routes that validate required fields. */
  function MissingFieldsMessage(missing: seq<string>): string
  {
    "Missing required fields: " + Join(missing, ", ")
  }

  /** Both required-field checks list absent fields in the order they are required. */
  lemma {:induction false} MissingFieldsInOrder(data: Doc, a: string, b: string)
    requires a != b
    ensures MissingFields(data, [a, b]) ==
      (if Truthy(Field(data, a)) then [] else [a]) + (if Truthy(Field(data, b)) then [] else [b])
  {
    assert [a, b][1..] == [b];
    assert [b][1..] == [];
  }
}
