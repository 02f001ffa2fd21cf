/** What the references of a document are, place by place. */
module ReferencePlaces {
  import opened Json
  import opened Reachability
  import opened OpenPixWalk

  /** A mapping at some depth whose `$ref` names the component. */
  ghost predicate RefersAt(node: Json, p: Position, name: string) {
    At(node, p).Some? && At(node, p).value.Get("$ref") == Some(Str("#/components/schemas/" + name))
  }

  lemma OwnRefNames(fields: map<string, Json>, name: string)
    ensures name in OwnRef(fields) <==> Obj(fields).Get("$ref") == Some(Str("#/components/schemas/" + name))
  {
    assert ("#/components/schemas/" + name)[|REF_PREFIX|..] == name;
    if name in OwnRef(fields) {
      var text := fields["$ref"].s;
      assert text[..|REF_PREFIX|] == REF_PREFIX;
      assert text == REF_PREFIX + name;
    }
  }

  /** A name is referred to exactly when there is such a place. */
  lemma {:induction false} RefsArePlaces(node: Json, name: string)
    ensures name in Refs(node) <==> exists p :: RefersAt(node, p, name)
  {
    match node
    case Obj(fields) =>
      OwnRefNames(fields, name);
      if name in OwnRef(fields) {
        assert RefersAt(node, [], name);
      } else if k :| k in fields && name in Refs(fields[k]) {
        RefsArePlaces(fields[k], name);
        var p :| RefersAt(fields[k], p, name);
        assert ([Key(k)] + p)[1..] == p;
        assert RefersAt(node, [Key(k)] + p, name);
      }
      if p: Position :| RefersAt(node, p, name) && p != [] {
        RefsArePlaces(fields[p[0].key], name);
        assert RefersAt(fields[p[0].key], p[1..], name);
      }
    case Arr(items) =>
      if i :| 0 <= i < |items| && name in Refs(items[i]) {
        RefsArePlaces(items[i], name);
        var p :| RefersAt(items[i], p, name);
        assert ([Index(i)] + p)[1..] == p;
        assert RefersAt(node, [Index(i)] + p, name);
      }
      if p: Position :| RefersAt(node, p, name) {
        RefsArePlaces(items[p[0].index], name);
        assert RefersAt(items[p[0].index], p[1..], name);
      }
    case _ =>
      assert forall p :: RefersAt(node, p, name) ==> p == [];
  }
}
