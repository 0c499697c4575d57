/** Parsed JSON values as the reconciler sees them, field lookup and in-place
    field replacement on objects, and the text codec (`JSON.parse` /
    `JSON.stringify`) taken as a pair of abstract functions. */
module Json {

  datatype Option<T> = None | Some(value: T)

  /** A parsed JSON value. Objects keep their fields in the order the parser
      produced them; JavaScript enumerates integer-like keys first, so this is
      not always the order of the text. Numbers are integers only: a fraction or
      an exponent has no representation here. */
  datatype Value =
    | Null
    | Bool(b: bool)
    | Num(n: int)
    | Str(s: string)
    | Arr(items: seq<Value>)
    | Obj(fields: seq<Field>)

  datatype Field = Field(key: string, value: Value)

  /** The value of the first field named `key` (property read `o[key]`). */
  function Lookup(fields: seq<Field>, key: string): (r: Option<Value>)
    ensures r.Some? <==> exists i :: 0 <= i < |fields| && fields[i].key == key
    decreases |fields|
  {
    if fields == [] then None
    else if fields[0].key == key then Some(fields[0].value)
    else Lookup(fields[1..], key)
  }

  /** A read gives the value of the first field with the key: an earlier
      duplicate key shadows every later one. */
  lemma {:induction false} LookupFirst(fields: seq<Field>, key: string)
    ensures Lookup(fields, key).Some? ==>
              exists i :: 0 <= i < |fields| && fields[i].key == key &&
                          Lookup(fields, key).value == fields[i].value &&
                          forall j :: 0 <= j < i ==> fields[j].key != key
    decreases |fields|
  {
    if fields != [] && fields[0].key != key && Lookup(fields, key).Some? {
      var rest := fields[1..];
      LookupFirst(rest, key);
      var i :| 0 <= i < |rest| && rest[i].key == key && Lookup(rest, key).value == rest[i].value &&
               forall j :: 0 <= j < i ==> rest[j].key != key;
      assert forall j :: 1 <= j < i + 1 ==> fields[j].key == rest[j - 1].key;
      assert fields[i + 1] == rest[i];
    }
  }

  /** Replace the value of the first field named `key`; the field list keeps its
      keys and their order, and nothing is added when the key is missing. */
  function Update(fields: seq<Field>, key: string, v: Value): (r: seq<Field>)
    ensures |r| == |fields|
    ensures forall i :: 0 <= i < |r| ==> r[i].key == fields[i].key
    ensures forall k :: Lookup(r, k) == if k == key && Lookup(fields, key).Some? then Some(v) else Lookup(fields, k)
    decreases |fields|
  {
    if fields == [] then []
    else if fields[0].key == key then [Field(key, v)] + fields[1..]
    else [fields[0]] + Update(fields[1..], key, v)
  }

  /** Property read on any value: only objects have properties. */
  function Get(o: Value, key: string): Option<Value>
  {
    if o.Obj? then Lookup(o.fields, key) else None
  }

  /** Property write on an object that already has the property. */
  function Set(o: Value, key: string, v: Value): (r: Value)
    requires o.Obj?
    ensures r.Obj?
    ensures forall k :: Get(r, k) == if k == key && Get(o, key).Some? then Some(v) else Get(o, k)
  {
    Obj(Update(o.fields, key, v))
  }

  /** Writing back the value a property already holds leaves the object as it was. */
  lemma {:induction false} UpdateSame(fields: seq<Field>, key: string, v: Value)
    requires Lookup(fields, key) == Some(v)
    ensures Update(fields, key, v) == fields
    decreases |fields|
  {
    if fields[0].key != key {
      UpdateSame(fields[1..], key, v);
    }
  }

  lemma SetSame(o: Value, key: string, v: Value)
    requires o.Obj? && Get(o, key) == Some(v)
    ensures Set(o, key, v) == o
  {
    UpdateSame(o.fields, key, v);
  }

  /** The text codec: `parse` is `JSON.parse` (None when it throws) and `stringify`
      is `JSON.stringify` without indentation. */
  datatype Codec = Codec(parse: string -> Option<Value>, stringify: Value -> string)

  /** Parsing what was written gives the value back. This is an idealisation:
      `JSON.parse` lists integer-like keys first, so a value whose integer-like
      keys come in another order does not come back equal. */
  ghost predicate Lawful(c: Codec)
  {
    forall v :: c.parse(c.stringify(v)) == Some(v)
  }

  /** A lawful codec writes different values as different texts, so comparing
      serialisations compares values. */
  lemma StringifyInjective(c: Codec, a: Value, b: Value)
    requires Lawful(c)
    ensures c.stringify(a) == c.stringify(b) <==> a == b
  {
    if c.stringify(a) == c.stringify(b) {
      assert c.parse(c.stringify(a)) == Some(a);
      assert c.parse(c.stringify(b)) == Some(b);
    }
  }
}
