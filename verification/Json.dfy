/** JSON documents as `json.load` and `yaml.safe_load` return them, and the Python
    operations on them that the overlays use. A `dict` is a map: the order of its
    keys is not modelled, so a loop over one visits the keys in any order. */
module Json {

  datatype Option<+T> = None | Some(value: T)

  datatype Result<+T> = Ok(value: T) | Err(error: Error)

  /** The exceptions an overlay lets escape on a document of the wrong shape. */
  datatype Error = AttributeError | TypeError

  datatype Json =
    | Null
    | Bool(b: bool)
    | Num(n: real)
    | Str(s: string)
    | Arr(items: seq<Json>)
    | Obj(fields: map<string, Json>)
  {
    /** Python's `bool(...)` of a JSON value. */
    predicate Truthy() {
      match this
      case Null => false
      case Bool(b) => b
      case Num(n) => n != 0.0
      case Str(s) => s != ""
      case Arr(items) => items != []
      case Obj(fields) => fields != map[]
    }

    /** `key in value` for a mapping; false of everything that is not one. */
    predicate Has(key: string) {
      Obj? && key in fields
    }

    /** `value.get(key)` of a mapping. */
    function Get(key: string): Option<Json> {
      if Has(key) then Some(fields[key]) else None
    }
  }

  /** The `components.schemas` block of a document. */
  type Schemas = map<string, Json>

  /** `str(schema.get("description") or "")`. What `str` makes of a value that is not
      text is left to `render`. */
  function Description(fields: map<string, Json>, render: Json -> string): string {
    if "description" !in fields || !fields["description"].Truthy() then ""
    else if fields["description"].Str? then fields["description"].s
    else render(fields["description"])
  }

  /** Text is its own description, and nothing, or a value Python takes for false, is none. */
  lemma DescriptionOfText(fields: map<string, Json>, render: Json -> string)
    ensures "description" !in fields ==> Description(fields, render) == ""
    ensures "description" in fields && fields["description"].Str? ==>
              Description(fields, render) == fields["description"].s
    ensures "description" in fields && !fields["description"].Str? ==>
              Description(fields, render) ==
              if fields["description"] in {Null, Bool(false), Num(0.0), Arr([]), Obj(map[])} then ""
              else render(fields["description"])
  {
  }

  predicate OccursAt(text: string, sub: string, i: nat) {
    i + |sub| <= |text| && text[i..i + |sub|] == sub
  }

  /** `sub in text` for strings. */
  predicate Contains(text: string, sub: string) {
    exists i :: 0 <= i <= |text| && OccursAt(text, sub, i)
  }

  lemma ContainsExtends(text: string, more: string, sub: string)
    requires Contains(text, sub) || Contains(more, sub)
    ensures Contains(text + more, sub)
  {
    if Contains(text, sub) {
      var i :| 0 <= i <= |text| && OccursAt(text, sub, i);
      assert OccursAt(text + more, sub, i);
    } else {
      var i :| 0 <= i <= |more| && OccursAt(more, sub, i);
      assert OccursAt(text + more, sub, |text| + i);
    }
  }
}
