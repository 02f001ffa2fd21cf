/** The numeric walk as it runs: in place, over the tree the document is held in. */
module OpenPixNumericWalk {
  import opened Json
  import opened JsonTrees
  import opened OpenPixWalk

  class Counter {
    var retyped: nat

    constructor ()
      ensures retyped == 0
    {
      retyped := 0;
    }
  }

  // ----- What a loop has done so far -----

  /** The keys in `todo` still hold what they held, the others what the walk makes of them;
      the number that became an integer has already been changed. */
  ghost predicate WalkedBut(rules: Rules, node: Json, context: Context, now: Json, todo: set<string>) {
    && node.Obj? && now.Obj? && todo <= node.fields.Keys == now.fields.Keys
    && forall k :: k in now.fields ==>
         if k in todo && !(k == "type" && Claims(rules, context, node.fields))
         then now.fields[k] == node.fields[k]
         else now.fields[k] == RetypedAt(rules, node, context, k)
  }

  lemma {:induction false} WalkedAll(rules: Rules, node: Json, context: Context, now: Json)
    requires WalkedBut(rules, node, context, now, {})
    ensures now == Retyped(rules, node, context)
  {
    var after := Retyped(rules, node, context).fields;
    forall k | k in now.fields ensures now.fields[k] == after[k] {
      assert now.fields[k] == RetypedAt(rules, node, context, k);
    }
    assert now.fields == after;
  }

  lemma WalkOneMore(rules: Rules, node: Json, context: Context, now: Json, todo: set<string>, k: string, v: Json)
    requires WalkedBut(rules, node, context, now, todo) && k in todo
    requires v == RetypedAt(rules, node, context, k)
    ensures WalkedBut(rules, node, context, Obj(now.fields[k := v]), todo - {k})
  {
  }

  /** The first entries of a list are walked, the rest are as they were. */
  ghost predicate WalkedFirst(rules: Rules, node: Json, context: Context, now: Json, n: nat) {
    && node.Arr? && now.Arr? && n <= |node.items| == |now.items|
    && now.items[..n] == Retyped(rules, node, context).items[..n]
    && now.items[n..] == node.items[n..]
  }

  lemma {:induction false} WalkEntry(rules: Rules, node: Json, context: Context, now: Json, n: nat, v: Json)
    requires WalkedFirst(rules, node, context, now, n) && n < |node.items|
    requires v == Retyped(rules, node.items[n], Child(rules, node, context, Index(n)))
    ensures WalkedFirst(rules, node, context, Arr(now.items[n := v]), n + 1)
  {
    var all, next := Retyped(rules, node, context).items, now.items[n := v];
    assert all[n] == v;
    assert next[..n + 1] == now.items[..n] + [v] && all[..n + 1] == all[..n] + [v];
    assert next[n + 1..] == now.items[n..][1..] && node.items[n + 1..] == node.items[n..][1..];
  }

  lemma {:induction false} WalkedList(rules: Rules, node: Json, context: Context, now: Json)
    requires node.Arr? && WalkedFirst(rules, node, context, now, |node.items|)
    ensures now == Retyped(rules, node, context)
  {
    var all := Retyped(rules, node, context).items;
    assert all[..|all|] == all && now.items[..|all|] == now.items;
  }

  lemma WalkBegins(rules: Rules, node: Json, context: Context)
    requires node.Obj?
    ensures WalkedBut(rules, node, context,
                      if Claims(rules, context, node.fields) then Obj(node.fields["type" := Str("integer")]) else node,
                      node.fields.Keys)
  {
  }

  // ----- The walk -----

  /** `_walk`. */
  method Walk(rules: Rules, tree: Ref, name: Option<string>, counter: Counter)
    requires Sound(tree)
    modifies counter, Footprint(tree)
    ensures Sound(tree) && Read(tree) == Retyped(rules, old(Read(tree)), Schema(name))
    ensures counter.retyped == old(counter.retyped) + Count(rules, old(Read(tree)), Schema(name))
    decreases Footprint(tree), 2
  {
    ghost var before := Read(tree);
    if tree.At? && tree.node.content.Items? {
      WalkEntries(rules, tree.node, name, counter);
    } else if tree.At? {
      CountMapping(rules, before, Schema(name));
      Claim(rules, tree.node, name, counter);
      WalkKeys(rules, tree.node, before, name, counter);
    }
  }

  /** A number the rules claim becomes an integer, and is counted. */
  method Claim(rules: Rules, node: Node, name: Option<string>, counter: Counter)
    requires Sound(At(node)) && node.content.Entries?
    modifies counter, node
    ensures Sound(At(node)) && node.content.Entries?
    ensures var before := old(Read(At(node)));
      && before.Obj? && WalkedBut(rules, before, Schema(name), Read(At(node)), before.fields.Keys)
      && counter.retyped == old(counter.retyped) + if Claims(rules, Schema(name), before.fields) then 1 else 0
  {
    WalkBegins(rules, Read(At(node)), Schema(name));
    if WantsInteger(rules, name, Read(At(node)).fields) {
      assert Read(node.content.entries["type"]).Str?;
      node.SetText("type", "integer");
      counter.retyped := counter.retyped + 1;
    }
  }

  /** The keys of a schema, in any order. */
  method WalkKeys(rules: Rules, node: Node, ghost before: Json, name: Option<string>, counter: Counter)
    requires Sound(At(node)) && node.content.Entries?
    requires before.Obj? && WalkedBut(rules, before, Schema(name), Read(At(node)), before.fields.Keys)
    modifies counter, node.repr
    ensures Sound(At(node)) && Read(At(node)) == Retyped(rules, before, Schema(name))
    ensures counter.retyped == old(counter.retyped) + CountUnder(rules, before, Schema(name), before.fields.Keys)
    decreases node.repr, 1
  {
    var entries := node.content.entries;
    var todo := entries.Keys;
    assert todo == before.fields.Keys;
    CountMapping(rules, before, Schema(name));
    while todo != {}
      invariant node.content == Entries(entries) && Sound(At(node))
      invariant WalkedBut(rules, before, Schema(name), Read(At(node)), todo)
      invariant counter.retyped + CountUnder(rules, before, Schema(name), todo) ==
                old(counter.retyped) + CountUnder(rules, before, Schema(name), before.fields.Keys)
    {
      var key :| key in todo;
      WalkKey(rules, node, before, todo, key, name, counter);
      todo := todo - {key};
    }
    WalkedAll(rules, before, Schema(name), Read(At(node)));
  }

  method WalkKey(rules: Rules, node: Node, ghost before: Json, ghost todo: set<string>, key: string,
                 name: Option<string>, counter: Counter)
    requires Sound(At(node)) && node.content.Entries? && key in todo
    requires WalkedBut(rules, before, Schema(name), Read(At(node)), todo)
    modifies counter, node.repr
    ensures Sound(At(node)) && node.content == old(node.content)
    ensures WalkedBut(rules, before, Schema(name), Read(At(node)), todo - {key})
    ensures counter.retyped + CountUnder(rules, before, Schema(name), todo - {key}) ==
            old(counter.retyped) + CountUnder(rules, before, Schema(name), todo)
    decreases node.repr, 0
  {
    ghost var now := Read(At(node));
    var value := node.content.entries[key];
    CountKey(rules, before, Schema(name), todo, key);
    WalkUnder(rules, key, value, name, counter);
    node.EntryChanged(key);
    WalkOneMore(rules, before, Schema(name), now, todo, key, Read(value));
  }

  /** One key of a schema: what it describes decides how its value is read. */
  method WalkUnder(rules: Rules, key: string, value: Ref, name: Option<string>, counter: Counter)
    requires Sound(value)
    modifies counter, Footprint(value)
    ensures Sound(value) && Read(value) == Retyped(rules, old(Read(value)), UnderKey(key, old(Read(value)), name))
    ensures counter.retyped == old(counter.retyped) +
            Count(rules, old(Read(value)), UnderKey(key, old(Read(value)), name))
    decreases Footprint(value), 3
  {
    if key == "properties" && value.At? && value.node.content.Entries? {
      WalkProperties(rules, value.node, counter);
    } else if key == "parameters" && value.At? && value.node.content.Items? {
      WalkParameters(rules, value.node, counter);
    } else if key in INHERITING {
      Walk(rules, value, name, counter);
    } else if key in SKIPPED {
      UnreadHasNoClaims(rules, Read(value));
    } else {
      Walk(rules, value, None, counter);
    }
  }

  method WalkProperties(rules: Rules, node: Node, counter: Counter)
    requires Sound(At(node)) && node.content.Entries?
    modifies counter, node.repr
    ensures Sound(At(node)) && Read(At(node)) == Retyped(rules, old(Read(At(node))), Properties)
    ensures counter.retyped == old(counter.retyped) + Count(rules, old(Read(At(node))), Properties)
    decreases node.repr, 1
  {
    ghost var before := Read(At(node));
    CountMapping(rules, before, Properties);
    var entries := node.content.entries;
    var todo := entries.Keys;
    assert todo == before.fields.Keys;
    while todo != {}
      invariant node.content == Entries(entries) && Sound(At(node))
      invariant WalkedBut(rules, before, Properties, Read(At(node)), todo)
      invariant counter.retyped + CountUnder(rules, before, Properties, todo) ==
                old(counter.retyped) + CountUnder(rules, before, Properties, before.fields.Keys)
    {
      var name :| name in todo;
      label Reached:
      ghost var now := Read(At(node));
      CountKey(rules, before, Properties, todo, name);
      Walk(rules, entries[name], Some(name), counter);
      node.EntryChanged@Reached(name);
      WalkOneMore(rules, before, Properties, now, todo, name, Read(entries[name]));
      todo := todo - {name};
    }
    WalkedAll(rules, before, Properties, Read(At(node)));
  }

  method WalkEntries(rules: Rules, node: Node, name: Option<string>, counter: Counter)
    requires Sound(At(node)) && node.content.Items?
    modifies counter, node.repr
    ensures Sound(At(node)) && Read(At(node)) == Retyped(rules, old(Read(At(node))), Schema(name))
    ensures counter.retyped == old(counter.retyped) + Count(rules, old(Read(At(node))), Schema(name))
    decreases node.repr, 1
  {
    ghost var before := Read(At(node));
    CountList(rules, before, Schema(name));
    var items := node.content.items;
    for i := 0 to |items|
      invariant node.content == Items(items) && Sound(At(node))
      invariant WalkedFirst(rules, before, Schema(name), Read(At(node)), i)
      invariant counter.retyped == old(counter.retyped) + CountUpTo(rules, before, Schema(name), i)
    {
      label Reached:
      ghost var now := Read(At(node));
      assert now.items[i] == now.items[i..][0] == before.items[i..][0] == before.items[i];
      Walk(rules, items[i], name, counter);
      CountEntry(rules, before, Schema(name), i);
      node.ItemChanged@Reached(i);
      WalkEntry(rules, before, Schema(name), now, i, Read(items[i]));
    }
    WalkedList(rules, before, Schema(name), Read(At(node)));
  }

  method WalkParameters(rules: Rules, node: Node, counter: Counter)
    requires Sound(At(node)) && node.content.Items?
    modifies counter, node.repr
    ensures Sound(At(node)) && Read(At(node)) == Retyped(rules, old(Read(At(node))), Parameters)
    ensures counter.retyped == old(counter.retyped) + Count(rules, old(Read(At(node))), Parameters)
    decreases node.repr, 1
  {
    ghost var before := Read(At(node));
    CountList(rules, before, Parameters);
    var items := node.content.items;
    for i := 0 to |items|
      invariant node.content == Items(items) && Sound(At(node))
      invariant WalkedFirst(rules, before, Parameters, Read(At(node)), i)
      invariant counter.retyped == old(counter.retyped) + CountUpTo(rules, before, Parameters, i)
    {
      label Reached:
      ghost var now := Read(At(node));
      assert now.items[i] == now.items[i..][0] == before.items[i..][0] == before.items[i];
      ParameterIsRead(rules, before, i);
      WalkParameter(rules, items[i], counter);
      CountEntry(rules, before, Parameters, i);
      node.ItemChanged@Reached(i);
      WalkEntry(rules, before, Parameters, now, i, Read(items[i]));
    }
    WalkedList(rules, before, Parameters, Read(At(node)));
  }

  /** How an entry of `parameters` is read. */
  function ParameterContext(rules: Rules, parameter: Json): Context {
    if parameter.Obj? then Parameter(ParameterName(rules, parameter.fields)) else Unread
  }

  lemma ParameterIsRead(rules: Rules, node: Json, i: nat)
    requires node.Arr? && i < |node.items|
    ensures Child(rules, node, Parameters, Index(i)) == ParameterContext(rules, node.items[i])
  {
  }

  /** Of a parameter, only the schema is read, under the parameter's name. */
  method WalkParameter(rules: Rules, parameter: Ref, counter: Counter)
    requires Sound(parameter)
    modifies counter, Footprint(parameter)
    ensures Sound(parameter)
    ensures Read(parameter) == Retyped(rules, old(Read(parameter)), ParameterContext(rules, old(Read(parameter))))
    ensures counter.retyped ==
            old(counter.retyped) + Count(rules, old(Read(parameter)), ParameterContext(rules, old(Read(parameter))))
    decreases Footprint(parameter), 1
  {
    ghost var before := Read(parameter);
    if parameter.At? && parameter.node.content.Entries? {
      var entries := parameter.node.content.entries;
      var name := ParameterName(rules, Read(parameter).fields);
      ParameterClaims(rules, before, name);
      ParameterRetyped(rules, before, name);
      if "schema" in entries {
        Walk(rules, entries["schema"], name, counter);
        parameter.node.EntryChanged("schema");
      }
    } else {
      UnreadHasNoClaims(rules, before);
    }
  }

  method WalkDocument(rules: Rules, patched: Ref) returns (retyped: nat)
    requires Sound(patched)
    modifies Footprint(patched)
    ensures Sound(patched) && Read(patched) == Retyped(rules, old(Read(patched)), Schema(None))
    ensures retyped == Count(rules, old(Read(patched)), Schema(None))
  {
    var counter := new Counter();
    Walk(rules, patched, None, counter);
    retyped := counter.retyped;
  }

  /** The walk of a deep copy, from the document down. */
  method WalkCopy(rules: Rules, document: Ref) returns (walked: Json, retyped: nat)
    requires Sound(document)
    ensures walked == Retyped(rules, old(Read(document)), Schema(None))
    ensures retyped == Count(rules, old(Read(document)), Schema(None))
  {
    ghost var before := Read(document);
    var patched := Copy(document);
    assert Read(patched) == before;
    retyped := WalkDocument(rules, patched);
    walked := Read(patched);
  }
}
