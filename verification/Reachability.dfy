/** Which component schemas the operations of a document reach: the two worklists of
    the Mercado Pago overlay, against the least closed set they are meant to find. */
module Reachability {
  import opened Json

  const REF_PREFIX := "#/components/schemas/"

  /** The component a `$ref` in this very mapping names. */
  function OwnRef(fields: map<string, Json>): set<string> {
    if "$ref" in fields && fields["$ref"].Str? && REF_PREFIX <= fields["$ref"].s
    then {fields["$ref"].s[|REF_PREFIX|..]}
    else {}
  }

  /** Every component named by a `$ref` at any depth of `node`. */
  ghost function Refs(node: Json): set<string> {
    match node
    case Obj(fields) => OwnRef(fields) + (set k, r | k in fields && r in Refs(fields[k]) :: r)
    case Arr(items) => set i, r | 0 <= i < |items| && r in Refs(items[i]) :: r
    case _ => {}
  }

  function RefTo(name: string): Json {
    Obj(map["$ref" := Str(REF_PREFIX + name)])
  }

  ghost function RefsOfAll(nodes: seq<Json>): set<string> {
    set i, r | 0 <= i < |nodes| && r in Refs(nodes[i]) :: r
  }

  // ----- Termination measure of the stack: nodes still to be visited -----

  ghost function Size(node: Json): nat
    decreases node, 1
  {
    match node
    case Obj(fields) => 1 + SizeOfKeys(node, fields.Keys)
    case Arr(items) => 1 + SizeOfPrefix(node, |items|)
    case _ => 1
  }

  ghost function SizeOfKeys(node: Json, keys: set<string>): nat
    requires node.Obj? && keys <= node.fields.Keys
    decreases node, 0, |keys|
  {
    if keys == {} then 0 else
      var k :| k in keys;
      Size(node.fields[k]) + SizeOfKeys(node, keys - {k})
  }

  ghost function SizeOfPrefix(node: Json, n: nat): nat
    requires node.Arr? && n <= |node.items|
    decreases node, 0, n
  {
    if n == 0 then 0 else SizeOfPrefix(node, n - 1) + Size(node.items[n - 1])
  }

  ghost function SizeOfAll(nodes: seq<Json>): nat {
    if nodes == [] then 0 else SizeOfAll(nodes[..|nodes| - 1]) + Size(nodes[|nodes| - 1])
  }

  lemma {:induction false} SizeOfKeysMinus(node: Json, keys: set<string>, k: string)
    requires node.Obj? && keys <= node.fields.Keys && k in keys
    ensures SizeOfKeys(node, keys) == Size(node.fields[k]) + SizeOfKeys(node, keys - {k})
    decreases |keys|
  {
    var first :| first in keys &&
      SizeOfKeys(node, keys) == Size(node.fields[first]) + SizeOfKeys(node, keys - {first});
    if first != k {
      SizeOfKeysMinus(node, keys - {first}, k);
      SizeOfKeysMinus(node, keys - {k}, first);
      assert keys - {first} - {k} == keys - {k} - {first};
    }
  }

  lemma {:induction false} SizeOfAppended(nodes: seq<Json>, more: seq<Json>)
    ensures SizeOfAll(nodes + more) == SizeOfAll(nodes) + SizeOfAll(more)
    decreases |more|
  {
    if more == [] {
      assert nodes + more == nodes;
    } else {
      var init := more[..|more| - 1];
      SizeOfAppended(nodes, init);
      assert (nodes + more)[..|nodes + more| - 1] == nodes + init;
    }
  }

  lemma {:induction false} SizeOfItems(node: Json, n: nat)
    requires node.Arr? && n <= |node.items|
    ensures SizeOfPrefix(node, n) == SizeOfAll(node.items[..n])
    decreases n
  {
    if n == 0 {
    } else {
      SizeOfItems(node, n - 1);
      assert node.items[..n][..n - 1] == node.items[..n - 1];
    }
  }

  // ----- Collecting the references of one node -----

  /** The references under some of the keys of a mapping. */
  ghost function RefsOfKeys(fields: map<string, Json>, keys: set<string>): set<string>
    requires keys <= fields.Keys
  {
    set k, r | k in keys && r in Refs(fields[k]) :: r
  }

  /** `stack.extend(current.values())`, in any order. */
  method ExtendWithValues(stack: seq<Json>, current: Json) returns (extended: seq<Json>)
    requires current.Obj?
    ensures RefsOfAll(extended) + OwnRef(current.fields) == RefsOfAll(stack) + Refs(current)
    ensures SizeOfAll(extended) == SizeOfAll(stack) + Size(current) - 1
  {
    extended := stack;
    var keys := current.fields.Keys;
    while keys != {}
      invariant keys <= current.fields.Keys
      invariant SizeOfAll(extended) + SizeOfKeys(current, keys) ==
                SizeOfAll(stack) + SizeOfKeys(current, current.fields.Keys)
      invariant RefsOfAll(extended) + RefsOfKeys(current.fields, keys) ==
                RefsOfAll(stack) + RefsOfKeys(current.fields, current.fields.Keys)
    {
      var k :| k in keys;
      SizeOfKeysMinus(current, keys, k);
      SizeOfAppended(extended, [current.fields[k]]);
      RefsOfAppended(extended, [current.fields[k]]);
      assert RefsOfKeys(current.fields, keys) == RefsOfKeys(current.fields, keys - {k}) + Refs(current.fields[k]);
      extended := extended + [current.fields[k]];
      keys := keys - {k};
    }
    assert Refs(current) == OwnRef(current.fields) + RefsOfKeys(current.fields, current.fields.Keys);
  }

  lemma RefsOfAppended(nodes: seq<Json>, more: seq<Json>)
    ensures RefsOfAll(nodes + more) == RefsOfAll(nodes) + RefsOfAll(more)
    ensures |more| == 1 ==> RefsOfAll(more) == Refs(more[0])
  {
    var all := nodes + more;
    forall r | r in RefsOfAll(nodes) + RefsOfAll(more) ensures r in RefsOfAll(all) {
      if r in RefsOfAll(nodes) {
        var i :| 0 <= i < |nodes| && r in Refs(nodes[i]);
        assert all[i] == nodes[i];
      } else {
        var i :| 0 <= i < |more| && r in Refs(more[i]);
        assert all[|nodes| + i] == more[i];
      }
    }
  }

  method SchemaRefs(node: Json) returns (names: seq<string>)
    ensures forall name :: name in names <==> name in Refs(node)
  {
    names := [];
    var stack := [node];
    RefsOfAppended([], [node]);
    assert [] + [node] == [node];
    while stack != []
      invariant (set name | name in names) + RefsOfAll(stack) == Refs(node)
      decreases SizeOfAll(stack)
    {
      var current := stack[|stack| - 1];
      RefsOfAppended(stack[..|stack| - 1], [current]);
      assert stack == stack[..|stack| - 1] + [current];
      stack := stack[..|stack| - 1];
      if current.Obj? {
        if "$ref" in current.fields && current.fields["$ref"].Str? && REF_PREFIX <= current.fields["$ref"].s {
          names := names + [current.fields["$ref"].s[|REF_PREFIX|..]];
        }
        stack := ExtendWithValues(stack, current);
      } else if current.Arr? {
        RefsOfAppended(stack, current.items);
        SizeOfAppended(stack, current.items);
        SizeOfItems(current, |current.items|);
        assert current.items[..|current.items|] == current.items;
        stack := stack + current.items;
      }
    }
  }

  // ----- The least closed set -----

  /** `names` holds every reference under `paths` and every reference of each of its
      members that is stored. A dangling name has nothing to close over. */
  ghost predicate Closed(names: set<string>, paths: Json, stored: Schemas) {
    && Refs(paths) <= names
    && forall n :: n in names && n in stored ==> Refs(stored[n]) <= names
  }

  ghost function Universe(paths: Json, stored: Schemas): set<string> {
    Refs(paths) + set n, r | n in stored && r in Refs(stored[n]) :: r
  }

  /** The names that belong to every closed set. */
  ghost function Reach(paths: Json, stored: Schemas): set<string> {
    set n | n in Universe(paths, stored) && forall s :: Closed(s, paths, stored) ==> n in s
  }

  lemma ReachIsLeastClosed(paths: Json, stored: Schemas)
    ensures Closed(Reach(paths, stored), paths, stored)
    ensures forall s :: Closed(s, paths, stored) ==> Reach(paths, stored) <= s
  {
    var reach := Reach(paths, stored);
    forall r | r in Refs(paths) ensures r in reach {
      assert r in Universe(paths, stored);
    }
    forall n, r | n in reach && n in stored && r in Refs(stored[n]) ensures r in reach {
      assert r in Universe(paths, stored);
      forall s | Closed(s, paths, stored) ensures r in s {
        assert n in s;
      }
    }
  }

  function Members(names: seq<string>): (r: set<string>)
    ensures forall name :: name in r <==> name in names
  {
    set name | name in names
  }

  ghost function RefsOfStored(name: string, stored: Schemas): set<string> {
    if name in stored then Refs(stored[name]) else {}
  }

  /** The worklist invariant: everything reached so far is found or pending, and only that. */
  ghost predicate Explored(found: set<string>, pending: set<string>, paths: Json, stored: Schemas) {
    && found + pending <= Reach(paths, stored)
    && Refs(paths) <= found + pending
    && forall n :: n in found ==> RefsOfStored(n, stored) <= found + pending
  }

  lemma ExploreOne(found: set<string>, pending: set<string>, name: string, paths: Json, stored: Schemas)
    requires Explored(found, pending + {name}, paths, stored)
    ensures Explored(found + {name}, pending + RefsOfStored(name, stored), paths, stored)
  {
    ReachIsLeastClosed(paths, stored);
  }

  lemma ExploredAll(found: set<string>, paths: Json, stored: Schemas)
    requires Explored(found, {}, paths, stored)
    ensures found == Reach(paths, stored)
  {
    forall n | n in found && n in stored ensures Refs(stored[n]) <= found {
      assert RefsOfStored(n, stored) <= found + {};
    }
    ReachIsLeastClosed(paths, stored);
    assert Closed(found, paths, stored);
  }

  lemma ReachWithin(names: set<string>, paths: Json, stored: Schemas)
    requires Closed(names, paths, stored)
    ensures Reach(paths, stored) <= names
  {
    ReachIsLeastClosed(paths, stored);
  }

  /** The references of `stored.get(name) or {}`. */
  method StoredRefs(name: string, stored: Schemas) returns (names: seq<string>)
    ensures Members(names) == RefsOfStored(name, stored)
  {
    names := [];
    if name in stored && stored[name].Truthy() {
      names := SchemaRefs(stored[name]);
    }
  }

  /** One turn of the worklist, on the names as the program keeps them. */
  lemma ExploreNext(found: set<string>, pending: seq<string>, more: seq<string>, paths: Json, stored: Schemas)
    requires pending != [] && Explored(found, Members(pending), paths, stored)
    ensures var name, rest := pending[|pending| - 1], pending[..|pending| - 1];
      if name in found then Explored(found, Members(rest), paths, stored)
      else Members(more) == RefsOfStored(name, stored) ==>
             Explored(found + {name}, Members(rest + more), paths, stored)
  {
    var name, rest := pending[|pending| - 1], pending[..|pending| - 1];
    assert pending == rest + [name];
    assert Members(pending) == Members(rest) + {name};
    assert Members(rest + more) == Members(rest) + Members(more);
    if name !in found {
      ExploreOne(found, Members(rest), name, paths, stored);
    }
  }

  method ReachableSchemas(paths: Json, stored: Schemas) returns (found: set<string>)
    ensures found == Reach(paths, stored)
  {
    ReachIsLeastClosed(paths, stored);
    found := {};
    var pending := SchemaRefs(paths);
    while pending != []
      invariant Explored(found, Members(pending), paths, stored)
      decreases Universe(paths, stored) - found, |pending|
    {
      var name := pending[|pending| - 1];
      ghost var before := pending;
      pending := pending[..|pending| - 1];
      if name in found {
        ExploreNext(found, before, [], paths, stored);
      } else {
        var more := StoredRefs(name, stored);
        ExploreNext(found, before, more, paths, stored);
        found := found + {name};
        pending := pending + more;
      }
    }
    ExploredAll(found, paths, stored);
  }

  // ----- What pruning the difference keeps -----

  /** Fewer operations reach fewer schemas. */
  lemma {:induction false} ReachIsMonotone(fewer: Json, more: Json, stored: Schemas)
    requires Refs(fewer) <= Refs(more)
    ensures Reach(fewer, stored) <= Reach(more, stored)
  {
    ReachIsLeastClosed(fewer, stored);
    ReachIsLeastClosed(more, stored);
    assert Closed(Reach(more, stored), fewer, stored);
  }

  /** Dropping any unreached names leaves the reachable set, and every schema in it, as it was. */
  lemma PruningKeepsReach(paths: Json, stored: Schemas, orphaned: set<string>)
    requires orphaned !! Reach(paths, stored)
    ensures Reach(paths, stored - orphaned) == Reach(paths, stored)
    ensures forall n :: n in Reach(paths, stored) && n in stored ==>
              n in stored - orphaned && (stored - orphaned)[n] == stored[n]
  {
    ReachIsLeastClosed(paths, stored);
    ReachIsLeastClosed(paths, stored - orphaned);
    assert Closed(Reach(paths, stored), paths, stored - orphaned);
    var pruned := Reach(paths, stored - orphaned);
    forall n | n in pruned && n in stored ensures Refs(stored[n]) <= pruned {
      assert n in Reach(paths, stored);
      assert n in stored - orphaned;
    }
    assert Closed(pruned, paths, stored);
  }

  lemma {:induction false} AvoidedElsewhere(paths: Json, stored: Schemas, other: Schemas, avoided: set<string>)
    requires forall n :: n !in avoided ==> RefsOfStored(n, stored) == RefsOfStored(n, other)
    requires Reach(paths, stored) !! avoided
    ensures Reach(paths, other) !! avoided
  {
    ReachIsLeastClosed(paths, stored);
    forall n | n in Reach(paths, stored) && n in other ensures Refs(other[n]) <= Reach(paths, stored) {
      assert n !in avoided && RefsOfStored(n, other) == RefsOfStored(n, stored);
    }
    ReachWithin(Reach(paths, stored), paths, other);
  }

  /** Whether a set of names is reached does not depend on what is stored under them. */
  lemma {:induction false} AvoidedAlike(paths: Json, stored: Schemas, other: Schemas, avoided: set<string>)
    requires forall n :: n !in avoided ==> RefsOfStored(n, stored) == RefsOfStored(n, other)
    ensures Reach(paths, stored) !! avoided <==> Reach(paths, other) !! avoided
  {
    if Reach(paths, stored) !! avoided {
      AvoidedElsewhere(paths, stored, other, avoided);
    }
    if Reach(paths, other) !! avoided {
      AvoidedElsewhere(paths, other, stored, avoided);
    }
  }

  // ----- References of a mapping, entry by entry -----

  lemma {:induction false} RefsOfMapping(fields: map<string, Json>, names: set<string>)
    requires "$ref" !in fields && forall k :: k in fields ==> Refs(fields[k]) <= names
    ensures Refs(Obj(fields)) <= names
  {
  }

  lemma {:induction false} RefsOfPart(fields: map<string, Json>, key: string)
    requires key in fields
    ensures Refs(fields[key]) <= Refs(Obj(fields))
  {
  }

  lemma {:induction false} RefsOfRef(name: string)
    ensures Refs(RefTo(name)) == {name}
  {
    var fields := map["$ref" := Str(REF_PREFIX + name)];
    assert (REF_PREFIX + name)[|REF_PREFIX|..] == name;
    assert forall k, r :: k in fields && r in Refs(fields[k]) ==> false;
    assert OwnRef(fields) == {name};
  }

  lemma {:induction false} RefsOfUpdate(fields: map<string, Json>, key: string, v: Json)
    requires key != "$ref" || v.Obj?
    ensures Refs(Obj(fields[key := v])) <= Refs(Obj(fields)) + Refs(v)
    ensures key in fields ==> Refs(fields[key]) <= Refs(Obj(fields))
  {
    forall r | r in Refs(Obj(fields[key := v])) ensures r in Refs(Obj(fields)) + Refs(v) {
      if r !in OwnRef(fields[key := v]) {
        var k :| k in fields[key := v] && r in Refs(fields[key := v][k]);
        assert k != key ==> k in fields && fields[k] == fields[key := v][k];
      }
    }
  }

  lemma {:induction false} RefsOfSubmap(fields: map<string, Json>, keys: set<string>)
    ensures Refs(Obj(fields - keys)) <= Refs(Obj(fields))
  {
    forall r | r in Refs(Obj(fields - keys)) ensures r in Refs(Obj(fields)) {
      if r !in OwnRef(fields - keys) {
        var k :| k in fields - keys && r in Refs((fields - keys)[k]);
        assert k in fields && fields[k] == (fields - keys)[k];
      }
    }
  }
}
