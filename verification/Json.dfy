// JSON values as the agent passes them around: tool inputs, tool outputs, persisted content.
module Json {

  datatype Field = Field(key: string, value: Json)

  /** An object keeps its properties in insertion order. A number is its `JSON.stringify` text. */
  datatype Json =
    | Null
    | Bool(b: bool)
    | Num(text: string)
    | Str(s: string)
    | Arr(items: seq<Json>)
    | Obj(fields: seq<Field>)

  function KeySet(fields: seq<Field>): set<string> {
    set f | f in fields :: f.key
  }

  ghost predicate DistinctKeys(fields: seq<Field>) {
    fields == [] || (fields[0].key !in KeySet(fields[1..]) && DistinctKeys(fields[1..]))
  }

  /** Remove every property called `key`; the others keep their order. */
  function Without(fields: seq<Field>, key: string): (r: seq<Field>)
    ensures key !in KeySet(r)
    ensures key !in KeySet(fields) ==> r == fields
  {
    if fields == [] then []
    else
      assert fields == [fields[0]] + fields[1..];
      if fields[0].key == key then Without(fields[1..], key)
      else [fields[0]] + Without(fields[1..], key)
  }
}
