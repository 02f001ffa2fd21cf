/** Documents as Python holds them: mappings and lists are objects updated in place,
    everything else is a value. */
module JsonTrees {
  import opened Json

  datatype Ref = Leaf(json: Json) | At(node: Node)

  datatype Content = Entries(entries: map<string, Ref>) | Items(items: seq<Ref>)

  /** A mapping or a list, with the nodes from it down. */
  class Node {
    var content: Content
    ghost const repr: set<Node>

    constructor (content: Content, ghost below: set<Node>)
      ensures this.content == content && repr == below + {this}
    {
      this.content := content;
      this.repr := below + {this};
    }

    /** Only what is under one key of a mapping changed. */
    twostate lemma EntryChanged(key: string)
      requires old(Sound(At(this))) && old(content).Entries? && key in old(content).entries
      requires content == old(content) && Sound(content.entries[key])
      requires forall n :: n in repr && n !in Footprint(content.entries[key]) ==> unchanged(n)
      ensures Sound(At(this))
      ensures Read(At(this)) == Obj(old(Read(At(this))).fields[key := Read(content.entries[key])])
    {
      var entries := content.entries;
      forall k | k in entries && k != key ensures Sound(entries[k]) && Read(entries[k]) == old(Read(entries[k])) {
      }
      assert Read(At(this)).fields == old(Read(At(this))).fields[key := Read(entries[key])];
    }

    /** Only one item of a list changed. */
    twostate lemma ItemChanged(i: nat)
      requires old(Sound(At(this))) && old(content).Items? && i < |old(content).items|
      requires content == old(content) && Sound(content.items[i])
      requires forall n :: n in repr && n !in Footprint(content.items[i]) ==> unchanged(n)
      ensures Sound(At(this))
      ensures Read(At(this)) == Arr(old(Read(At(this))).items[i := Read(content.items[i])])
    {
      var items := content.items;
      forall j | 0 <= j < |items| && j != i ensures Sound(items[j]) && Read(items[j]) == old(Read(items[j])) {
      }
      assert Read(At(this)).items == old(Read(At(this))).items[i := Read(items[i])];
    }

    ghost predicate HoldsText(key: string)
      reads this
    {
      && content.Entries? && key in content.entries
      && content.entries[key].Leaf? && content.entries[key].json.Str?
    }

    twostate lemma RestStays(key: string)
      requires old(Sound(At(this)) && content.Entries?)
      requires forall n :: n in repr && n != this ==> unchanged(n)
      ensures forall k :: k in old(content).entries && k != key ==>
                Sound(old(content).entries[k]) && Read(old(content).entries[k]) == old(Read(content.entries[k]))
    {
      forall k | k in old(content).entries && k != key
        ensures Sound(old(content).entries[k]) && Read(old(content).entries[k]) == old(Read(content.entries[k]))
      {
        assert this !in Footprint(old(content).entries[k]);
      }
    }

    /** `node[key] = text`, where there was text. */
    method SetText(key: string, text: string)
      requires Sound(At(this)) && HoldsText(key)
      modifies this
      ensures Sound(At(this)) && content.Entries?
      ensures Read(At(this)) == Obj(old(Read(At(this))).fields[key := Str(text)])
    {
      ghost var was := Read(At(this)).fields;
      var entries := content.entries;
      content := Entries(entries[key := Leaf(Str(text))]);
      RestStays(key);
      assert Sound(At(this));
      assert Read(At(this)).fields == was[key := Str(text)];
    }
  }

  ghost function Footprint(tree: Ref): set<Node> {
    match tree case Leaf(_) => {} case At(node) => node.repr
  }

  /** A tree: no node below it is reached in two ways. */
  ghost predicate Sound(tree: Ref)
    reads Footprint(tree)
    decreases Footprint(tree)
  {
    match tree
    case Leaf(json) => !json.Obj? && !json.Arr?
    case At(node) =>
      && node in node.repr
      && match node.content
         case Entries(entries) =>
           && (forall k :: k in entries ==> Below(node, entries[k]) && Sound(entries[k]))
           && (forall k, l :: k in entries && l in entries && k != l ==> Footprint(entries[k]) !! Footprint(entries[l]))
         case Items(items) =>
           && (forall i :: 0 <= i < |items| ==> Below(node, items[i]) && Sound(items[i]))
           && (forall i, j :: 0 <= i < j < |items| ==> Footprint(items[i]) !! Footprint(items[j]))
  }

  ghost predicate Below(node: Node, child: Ref) {
    node in node.repr && Footprint(child) <= node.repr - {node}
  }

  /** The document a tree holds. */
  function Read(tree: Ref): Json
    requires Sound(tree)
    reads Footprint(tree)
    decreases Footprint(tree)
  {
    match tree
    case Leaf(json) => json
    case At(node) =>
      match node.content
      case Entries(entries) => Obj(map k | k in entries :: Read(entries[k]))
      case Items(items) =>
        Arr(seq(|items|, i requires 0 <= i < |items| && Below(node, items[i]) && Sound(items[i])
                           reads node.repr => Read(items[i])))
  }

  // ----- Copying -----

  /** `copy.deepcopy`: a tree of its own that holds the same document. */
  method Copy(tree: Ref) returns (copy: Ref)
    requires Sound(tree)
    ensures Sound(copy) && fresh(Footprint(copy)) && Read(copy) == Read(tree)
    decreases Footprint(tree), 1
  {
    match tree
    case Leaf(_) => copy := tree;
    case At(node) =>
      if node.content.Entries? {
        var copies, below := CopyEntries(node, node.content.entries);
        var made := new Node(Entries(copies), below);
        MappingCopied(node, copies, below, made);
        copy := At(made);
      } else {
        var copies, below := CopyItems(node, node.content.items);
        var made := new Node(Items(copies), below);
        ListCopied(node, copies, below, made);
        copy := At(made);
      }
  }

  /** The entries already copied: trees apart from each other, within `below`. */
  ghost predicate Copied(entries: map<string, Ref>, copies: map<string, Ref>, below: set<Node>)
    reads below, set k, n | k in entries && n in Footprint(entries[k]) :: n
  {
    && copies.Keys <= entries.Keys
    && (forall k :: k in entries ==> Sound(entries[k]))
    && (forall k :: k in copies ==>
          Footprint(copies[k]) <= below && Sound(copies[k]) && Read(copies[k]) == Read(entries[k]))
    && (forall k, l :: k in copies && l in copies && k != l ==> Footprint(copies[k]) !! Footprint(copies[l]))
  }

  lemma {:induction false} CopiedOneMore(entries: map<string, Ref>, copies: map<string, Ref>, below: set<Node>,
      key: string, value: Ref)
    requires Copied(entries, copies, below) && key in entries && key !in copies
    requires Sound(value) && Read(value) == Read(entries[key]) && Footprint(value) !! below
    ensures Copied(entries, copies[key := value], below + Footprint(value))
  {
  }

  lemma MappingCopied(node: Node, copies: map<string, Ref>, below: set<Node>, made: Node)
    requires Sound(At(node)) && node.content.Entries? && copies.Keys == node.content.entries.Keys
    requires Copied(node.content.entries, copies, below)
    requires made !in below && made.content == Entries(copies) && made.repr == below + {made}
    ensures Sound(At(made)) && Read(At(made)) == Read(At(node))
  {
    assert forall k :: k in copies ==> Below(made, copies[k]);
    assert Read(At(made)).fields == Read(At(node)).fields;
  }

  method CopyEntries(node: Node, entries: map<string, Ref>) returns (copies: map<string, Ref>, ghost below: set<Node>)
    requires Sound(At(node)) && node.content == Entries(entries)
    ensures copies.Keys == entries.Keys && fresh(below) && Copied(entries, copies, below)
    decreases node.repr, 0
  {
    copies, below := map[], {};
    var todo := entries.Keys;
    while todo != {}
      invariant todo <= entries.Keys && copies.Keys == entries.Keys - todo
      invariant fresh(below) && Copied(entries, copies, below)
    {
      var key :| key in todo;
      var value := Copy(entries[key]);
      CopiedOneMore(entries, copies, below, key, value);
      copies := copies[key := value];
      below := below + Footprint(value);
      todo := todo - {key};
    }
  }

  ghost predicate CopiedFirst(items: seq<Ref>, copies: seq<Ref>, below: set<Node>)
    reads below, set i, n | 0 <= i < |items| && n in Footprint(items[i]) :: n
  {
    && |copies| <= |items|
    && (forall i :: 0 <= i < |items| ==> Sound(items[i]))
    && (forall i :: 0 <= i < |copies| ==>
          Footprint(copies[i]) <= below && Sound(copies[i]) && Read(copies[i]) == Read(items[i]))
    && (forall i, j :: 0 <= i < j < |copies| ==> Footprint(copies[i]) !! Footprint(copies[j]))
  }

  lemma {:induction false} CopiedItem(items: seq<Ref>, copies: seq<Ref>, below: set<Node>, value: Ref)
    requires CopiedFirst(items, copies, below) && |copies| < |items|
    requires Sound(value) && Read(value) == Read(items[|copies|]) && Footprint(value) !! below
    ensures CopiedFirst(items, copies + [value], below + Footprint(value))
  {
  }

  lemma ListCopied(node: Node, copies: seq<Ref>, below: set<Node>, made: Node)
    requires Sound(At(node)) && node.content.Items? && |copies| == |node.content.items|
    requires CopiedFirst(node.content.items, copies, below)
    requires made !in below && made.content == Items(copies) && made.repr == below + {made}
    ensures Sound(At(made)) && Read(At(made)) == Read(At(node))
  {
    assert forall i :: 0 <= i < |copies| ==> Below(made, copies[i]);
    assert Read(At(made)).items == Read(At(node)).items;
  }

  method CopyItems(node: Node, items: seq<Ref>) returns (copies: seq<Ref>, ghost below: set<Node>)
    requires Sound(At(node)) && node.content == Items(items)
    ensures |copies| == |items| && fresh(below) && CopiedFirst(items, copies, below)
    decreases node.repr, 0
  {
    copies, below := [], {};
    for i := 0 to |items|
      invariant |copies| == i
      invariant fresh(below) && CopiedFirst(items, copies, below)
    {
      var value := Copy(items[i]);
      CopiedItem(items, copies, below, value);
      copies := copies + [value];
      below := below + Footprint(value);
    }
  }
}
