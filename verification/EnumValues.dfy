/** The mypy plugin: reading an enum field of a `use_enum_values` model as the type of its
    value, and letting the constructor take either. */
module EnumValues {
  import opened Json

  // ----- Classes and types -----

  /** A class as the plugin sees it: its full name, whether it is an enum, and the full
      names in its method resolution order. */
  datatype ClassInfo = ClassInfo(fullname: string, isEnum: bool, mro: seq<string>)

  const STR := ClassInfo("builtins.str", false, ["builtins.str", "builtins.object"])
  const INT := ClassInfo("builtins.int", false, ["builtins.int", "builtins.object"])
  const OBJECT := ClassInfo("builtins.object", false, ["builtins.object"])

  /** A type once aliases are expanded. `LiteralOf` is a literal of the class it falls back
      to; `Other` is any type the plugin does not look into. */
  datatype Type =
    | LiteralOf(fallback: ClassInfo, member: string)
    | Instance(info: ClassInfo, args: seq<Type>)
    | Union(items: seq<Type>)
    | Tuple(items: seq<Type>)
    | Never
    | Other(name: string)

  function Named(info: ClassInfo): Type {
    Instance(info, [])
  }

  /** The items of a union, with the unions among them opened. */
  function Flatten(items: seq<Type>): seq<Type> {
    if items == [] then []
    else (if items[0].Union? then Flatten(items[0].items) else [items[0]]) + Flatten(items[1..])
  }

  /** `UnionType.make_union`. */
  function MakeUnion(items: seq<Type>): Type {
    if items == [] then Never
    else if |items| == 1 then items[0]
    else Union(Flatten(items))
  }

  // ----- The rewriting -----

  predicate MentionsEnum(declared: Type) {
    match declared
    case LiteralOf(fallback, _) => fallback.isEnum
    case Instance(info, args) => info.isEnum || exists i :: 0 <= i < |args| && MentionsEnum(args[i])
    case Union(items) => exists i :: 0 <= i < |items| && MentionsEnum(items[i])
    case Tuple(items) => exists i :: 0 <= i < |items| && MentionsEnum(items[i])
    case _ => false
  }

  function ValueOf(info: ClassInfo): Type {
    if "builtins.str" in info.mro then Named(STR)
    else if "builtins.int" in info.mro then Named(INT)
    else Named(OBJECT)
  }

  function Rewritten(original: Type): Type
    decreases original, 1
  {
    match original
    case LiteralOf(fallback, _) => if fallback.isEnum then ValueOf(fallback) else original
    case Instance(info, args) =>
      if info.isEnum then ValueOf(info)
      else if args == [] then original
      else Instance(info, RewrittenAll(args))
    case Union(items) => MakeUnion(RewrittenAll(items))
    case Tuple(items) => Tuple(RewrittenAll(items))
    case _ => original
  }

  function RewrittenAll(types: seq<Type>): (r: seq<Type>)
    ensures |r| == |types|
    ensures forall i :: 0 <= i < |r| ==> r[i] == Rewritten(types[i])
    decreases types, 0
  {
    if types == [] then [] else [Rewritten(types[0])] + RewrittenAll(types[1..])
  }

  predicate AnyMentionsEnum(types: seq<Type>) {
    exists i :: 0 <= i < |types| && MentionsEnum(types[i])
  }

  /** `_ValueTypes`: the rewriter and its flag. */
  class ValueTypes {
    var changed: bool

    constructor ()
      ensures !changed
    {
      changed := false;
    }

    method ValueType(info: ClassInfo) returns (r: Type)
      modifies this
      ensures r == ValueOf(info) && changed
    {
      changed := true;
      if "builtins.str" in info.mro {
        return Named(STR);
      }
      if "builtins.int" in info.mro {
        return Named(INT);
      }
      r := Named(OBJECT);
    }

    /** The flag is set exactly when the separate search finds an enum. */
    method Rewrite(original: Type) returns (r: Type)
      modifies this
      ensures r == Rewritten(original)
      ensures changed == (old(changed) || MentionsEnum(original))
      decreases original, 1
    {
      match original
      case LiteralOf(fallback, _) =>
        if fallback.isEnum {
          r := ValueType(fallback);
        } else {
          r := original;
        }
      case Instance(info, args) =>
        if info.isEnum {
          r := ValueType(info);
        } else if args != [] {
          var rewritten := RewriteEach(args);
          r := Instance(info, rewritten);
        } else {
          r := original;
        }
      case Union(items) =>
        var rewritten := RewriteEach(items);
        r := MakeUnion(rewritten);
      case Tuple(items) =>
        var rewritten := RewriteEach(items);
        r := Tuple(rewritten);
      case _ =>
        r := original;
    }

    method RewriteEach(types: seq<Type>) returns (r: seq<Type>)
      modifies this
      ensures r == RewrittenAll(types)
      ensures changed == (old(changed) || AnyMentionsEnum(types))
      decreases types, 0
    {
      r := [];
      for i := 0 to |types|
        invariant |r| == i && forall j :: 0 <= j < i ==> r[j] == Rewritten(types[j])
        invariant changed == (old(changed) || exists j :: 0 <= j < i && MentionsEnum(types[j]))
      {
        var one := Rewrite(types[i]);
        r := r + [one];
      }
    }
  }

  // ----- The rewritten type is settled -----

  /** Unions are flat and offer a choice, at every depth. */
  predicate Normal(t: Type)
    decreases t, 1
  {
    match t
    case Instance(_, args) => AllNormal(args)
    case Tuple(items) => AllNormal(items)
    case Union(items) => |items| >= 2 && AllNormal(items) && forall i :: 0 <= i < |items| ==> !items[i].Union?
    case _ => true
  }

  predicate AllNormal(types: seq<Type>)
    decreases types, 0
  {
    forall i :: 0 <= i < |types| ==> Normal(types[i])
  }

  ghost predicate Plain(types: seq<Type>) {
    AllNormal(types) && !AnyMentionsEnum(types)
  }

  lemma {:induction false} FlattenPlain(types: seq<Type>)
    requires Plain(types)
    ensures Plain(Flatten(types)) && |Flatten(types)| >= |types|
    ensures forall i :: 0 <= i < |Flatten(types)| ==> !Flatten(types)[i].Union?
  {
    if types == [] {
    } else {
      var first, rest := types[0], types[1..];
      assert forall i :: 0 <= i < |rest| ==> rest[i] == types[i + 1];
      FlattenPlain(rest);
      assert Normal(first) && !MentionsEnum(first);
      if first.Union? {
        FlatIsFlattened(first.items);
        assert forall i :: 0 <= i < |first.items| ==> !MentionsEnum(first.items[i]);
      }
    }
  }

  lemma {:induction false} FlatIsFlattened(types: seq<Type>)
    requires forall i :: 0 <= i < |types| ==> !types[i].Union?
    ensures Flatten(types) == types
  {
    if types == [] {
    } else {
      FlatIsFlattened(types[1..]);
    }
  }

  /** The rewritten type mentions no enum, and is in the form mypy keeps unions in. */
  lemma {:induction false} RewrittenIsPlain(t: Type)
    ensures !MentionsEnum(Rewritten(t)) && Normal(Rewritten(t))
    decreases t, 1
  {
    match t
    case Instance(info, args) =>
      RewrittenAllIsPlain(args);
    case Tuple(items) =>
      RewrittenAllIsPlain(items);
    case Union(items) =>
      RewrittenAllIsPlain(items);
      FlattenPlain(RewrittenAll(items));
    case _ =>
  }

  lemma {:induction false} RewrittenAllIsPlain(types: seq<Type>)
    ensures Plain(RewrittenAll(types))
    decreases types, 0
  {
    forall i | 0 <= i < |types| ensures !MentionsEnum(Rewritten(types[i])) && Normal(Rewritten(types[i])) {
      RewrittenIsPlain(types[i]);
    }
  }

  /** A type without enums is left as it is. */
  lemma {:induction false} PlainIsUnchanged(t: Type)
    requires !MentionsEnum(t) && Normal(t)
    ensures Rewritten(t) == t
    decreases t, 1
  {
    match t
    case Instance(info, args) =>
      PlainAllUnchanged(args);
    case Tuple(items) =>
      PlainAllUnchanged(items);
    case Union(items) =>
      PlainAllUnchanged(items);
      FlatIsFlattened(items);
    case _ =>
  }

  lemma {:induction false} PlainAllUnchanged(types: seq<Type>)
    requires Plain(types)
    ensures RewrittenAll(types) == types
    decreases types, 0
  {
    forall i | 0 <= i < |types| ensures Rewritten(types[i]) == types[i] {
      PlainIsUnchanged(types[i]);
    }
  }

  /** Rewriting twice is rewriting once, and the second time nothing is found to rewrite. */
  lemma {:induction false} RewriteIsIdempotent(t: Type)
    ensures Rewritten(Rewritten(t)) == Rewritten(t) && !MentionsEnum(Rewritten(t))
  {
    RewrittenIsPlain(t);
    PlainIsUnchanged(Rewritten(t));
  }

  // ----- What a type holds, and what is stored -----

  /** Runtime values: a scalar of a class, an enum member and the value it stands for, an
      instance of a generic class, or a tuple. */
  datatype Value =
    | Scalar(cls: ClassInfo, text: string)
    | Member(cls: ClassInfo, name: string, value: Value)
    | Made(cls: ClassInfo, elements: seq<Element>)
    | TupleOf(items: seq<Value>)

  /** One element of a generic instance, and the type argument that describes it: a
      dictionary holds its keys under 0 and its values under 1. */
  datatype Element = Element(arg: nat, value: Value)

  const TUPLE := ClassInfo("builtins.tuple", false, ["builtins.tuple", "builtins.object"])

  function ClassOf(v: Value): ClassInfo {
    if v.TupleOf? then TUPLE else v.cls
  }

  ghost predicate IsInstance(v: Value, info: ClassInfo) {
    info.fullname in ClassOf(v).mro || info.fullname == "builtins.object"
  }

  /** Members keep the promise of the type they mix in: a str-based enum stands for text. */
  ghost predicate Sound(v: Value) {
    match v
    case Scalar(_, _) => true
    case Member(cls, _, value) =>
      && ("builtins.str" in cls.mro ==> IsInstance(value, STR))
      && ("builtins.str" !in cls.mro && "builtins.int" in cls.mro ==> IsInstance(value, INT))
    case Made(_, elements) => forall i :: 0 <= i < |elements| ==> Sound(elements[i].value)
    case TupleOf(items) => forall i :: 0 <= i < |items| ==> Sound(items[i])
  }

  /** Membership in the types the plugin does not look into. */
  type Others = (string, Value) -> bool

  ghost predicate Has(others: Others, v: Value, t: Type)
    decreases t
  {
    match t
    case LiteralOf(fallback, member) =>
      if fallback.isEnum then v.Member? && v.cls == fallback && v.name == member
      else v == Scalar(fallback, member)
    case Instance(info, args) =>
      if info.isEnum then v.Member? && v.cls == info
      else if args == [] then IsInstance(v, info)
      else
        && v.Made? && v.cls == info
        && forall i :: 0 <= i < |v.elements| ==>
             v.elements[i].arg < |args| && Has(others, v.elements[i].value, args[v.elements[i].arg])
    case Union(items) => exists i :: 0 <= i < |items| && Has(others, v, items[i])
    case Tuple(items) =>
      v.TupleOf? && |v.items| == |items| && forall i :: 0 <= i < |items| ==> Has(others, v.items[i], items[i])
    case Never => false
    case Other(name) => others(name, v)
  }

  ghost predicate SomeHas(others: Others, v: Value, types: seq<Type>) {
    exists i :: 0 <= i < |types| && Has(others, v, types[i])
  }

  /** What a `use_enum_values` model keeps of `v` in a field declared `t`: the value of the
      member wherever the declaration names an enum, and the rest as it came. */
  ghost predicate Stores(others: Others, t: Type, v: Value, w: Value)
    decreases t
  {
    match t
    case LiteralOf(fallback, _) =>
      Has(others, v, t) && w == if fallback.isEnum then v.value else v
    case Instance(info, args) =>
      if info.isEnum then Has(others, v, t) && w == v.value
      else if args == [] then Has(others, v, t) && w == v
      else
        && v.Made? && w.Made? && v.cls == info && w.cls == info && |w.elements| == |v.elements|
        && forall i :: 0 <= i < |v.elements| ==>
             && v.elements[i].arg == w.elements[i].arg < |args|
             && Stores(others, args[v.elements[i].arg], v.elements[i].value, w.elements[i].value)
    case Union(items) => exists i :: 0 <= i < |items| && Stores(others, items[i], v, w)
    case Tuple(items) =>
      && v.TupleOf? && w.TupleOf? && |v.items| == |items| == |w.items|
      && forall i :: 0 <= i < |items| ==> Stores(others, items[i], v.items[i], w.items[i])
    case Never => false
    case Other(name) => Has(others, v, t) && w == v
  }

  lemma {:induction false} FlattenKeepsValues(others: Others, v: Value, types: seq<Type>)
    ensures SomeHas(others, v, Flatten(types)) <==> SomeHas(others, v, types)
  {
    if types == [] {
    } else {
      var first, rest := types[0], types[1..];
      FlattenKeepsValues(others, v, rest);
      if first.Union? {
        FlattenKeepsValues(others, v, first.items);
      }
      var head := if first.Union? then Flatten(first.items) else [first];
      if !first.Union? {
        OnlyItem(others, v, first);
      }
      assert SomeHas(others, v, head) <==> Has(others, v, first);
      assert Flatten(types) == head + Flatten(rest);
      EitherHalf(others, v, head, Flatten(rest));
      OnlyItem(others, v, first);
      EitherHalf(others, v, [first], rest);
      assert [first] + rest == types;
    }
  }

  lemma {:induction false} OnlyItem(others: Others, v: Value, item: Type)
    ensures SomeHas(others, v, [item]) <==> Has(others, v, item)
  {
    assert [item][0] == item;
  }

  lemma EitherHalf(others: Others, v: Value, left: seq<Type>, right: seq<Type>)
    ensures SomeHas(others, v, left + right) <==> SomeHas(others, v, left) || SomeHas(others, v, right)
  {
    var all := left + right;
    assert forall i :: 0 <= i < |left| ==> all[i] == left[i];
    assert forall i :: 0 <= i < |right| ==> all[|left| + i] == right[i];
  }

  /** A union holds what one of its items holds, however mypy simplifies it. */
  lemma {:induction false} MakeUnionMeaning(others: Others, v: Value, items: seq<Type>)
    ensures Has(others, v, MakeUnion(items)) <==> SomeHas(others, v, items)
  {
    if |items| == 1 {
      OnlyItem(others, v, items[0]);
      assert MakeUnion(items) == items[0] && items == [items[0]];
    } else if |items| > 1 {
      FlattenKeepsValues(others, v, items);
      assert MakeUnion(items) == Union(Flatten(items));
    }
  }

  /** What is stored in a field belongs to the type the plugin gives to reading it. */
  lemma {:induction false} StoredValueHasRewrittenType(others: Others, t: Type, v: Value, w: Value)
    requires Stores(others, t, v, w) && Sound(v)
    ensures Has(others, w, Rewritten(t))
    decreases t
  {
    match t
    case Instance(info, args) =>
      if !info.isEnum && args != [] {
        forall i | 0 <= i < |w.elements|
          ensures Has(others, w.elements[i].value, RewrittenAll(args)[w.elements[i].arg])
        {
          StoredValueHasRewrittenType(others, args[w.elements[i].arg], v.elements[i].value, w.elements[i].value);
        }
      }
    case Union(items) =>
      var i :| 0 <= i < |items| && Stores(others, items[i], v, w);
      StoredValueHasRewrittenType(others, items[i], v, w);
      assert Has(others, w, RewrittenAll(items)[i]);
      MakeUnionMeaning(others, w, RewrittenAll(items));
    case Tuple(items) =>
      forall i | 0 <= i < |items| ensures Has(others, w.items[i], Rewritten(items[i])) {
        StoredValueHasRewrittenType(others, items[i], v.items[i], w.items[i]);
      }
    case _ =>
  }

  /** What the value of an enum of this class can be: text, when the class mixes in `str`,
      else a number, when it mixes in `int`, else anything. */
  ghost predicate ValueOfMember(info: ClassInfo, w: Value) {
    if "builtins.str" in info.mro then "builtins.str" in ClassOf(w).mro
    else if "builtins.int" in info.mro then "builtins.int" in ClassOf(w).mro
    else true
  }

  /** What reading a field declared `t` can give: the declared type, with the values of an
      enum's members wherever it names the enum or one of them. */
  ghost predicate Reads(others: Others, t: Type, w: Value)
    decreases t
  {
    match t
    case LiteralOf(fallback, member) =>
      if fallback.isEnum then ValueOfMember(fallback, w) else w == Scalar(fallback, member)
    case Instance(info, args) =>
      if info.isEnum then ValueOfMember(info, w)
      else if args == [] then IsInstance(w, info)
      else
        && w.Made? && w.cls == info
        && forall i :: 0 <= i < |w.elements| ==>
             w.elements[i].arg < |args| && Reads(others, args[w.elements[i].arg], w.elements[i].value)
    case Union(items) => exists i :: 0 <= i < |items| && Reads(others, items[i], w)
    case Tuple(items) =>
      w.TupleOf? && |w.items| == |items| && forall i :: 0 <= i < |items| ==> Reads(others, items[i], w.items[i])
    case Never => false
    case Other(name) => others(name, w)
  }

  /** The rewritten type holds exactly those: an enum becomes `str`, `int` or `object`, and
      never more than its class allows. */
  lemma {:induction false} RewrittenMeaning(others: Others, t: Type, w: Value)
    ensures Has(others, w, Rewritten(t)) <==> Reads(others, t, w)
    decreases t
  {
    match t
    case LiteralOf(fallback, _) =>
    case Instance(info, args) =>
      if !info.isEnum && args != [] && w.Made? {
        forall i | 0 <= i < |w.elements| && w.elements[i].arg < |args|
          ensures Has(others, w.elements[i].value, RewrittenAll(args)[w.elements[i].arg]) <==>
                  Reads(others, args[w.elements[i].arg], w.elements[i].value)
        {
          RewrittenMeaning(others, args[w.elements[i].arg], w.elements[i].value);
        }
      }
    case Union(items) =>
      forall i | 0 <= i < |items| ensures Has(others, w, RewrittenAll(items)[i]) <==> Reads(others, items[i], w) {
        RewrittenMeaning(others, items[i], w);
      }
      MakeUnionMeaning(others, w, RewrittenAll(items));
    case Tuple(items) =>
      if w.TupleOf? && |w.items| == |items| {
        forall i | 0 <= i < |items|
          ensures Has(others, w.items[i], RewrittenAll(items)[i]) <==> Reads(others, items[i], w.items[i])
        {
          RewrittenMeaning(others, items[i], w.items[i]);
        }
      }
    case _ =>
  }

  /** Every value of the declared type has something to store. */
  lemma {:induction false} EveryValueIsStored(others: Others, t: Type, v: Value) returns (w: Value)
    requires Has(others, v, t)
    ensures Stores(others, t, v, w)
    decreases t
  {
    match t
    case LiteralOf(fallback, _) => w := if fallback.isEnum then v.value else v;
    case Instance(info, args) =>
      if info.isEnum {
        w := v.value;
      } else if args == [] {
        w := v;
      } else {
        var elements: seq<Element> := [];
        for i := 0 to |v.elements|
          invariant |elements| == i
          invariant forall k :: 0 <= k < i ==>
            && elements[k].arg == v.elements[k].arg
            && Stores(others, args[v.elements[k].arg], v.elements[k].value, elements[k].value)
        {
          var one := EveryValueIsStored(others, args[v.elements[i].arg], v.elements[i].value);
          elements := elements + [Element(v.elements[i].arg, one)];
        }
        w := Made(info, elements);
      }
    case Union(items) =>
      var i :| 0 <= i < |items| && Has(others, v, items[i]);
      w := EveryValueIsStored(others, items[i], v);
    case Tuple(items) =>
      var stored: seq<Value> := [];
      for i := 0 to |items|
        invariant |stored| == i
        invariant forall k :: 0 <= k < i ==> Stores(others, items[k], v.items[k], stored[k])
      {
        var one := EveryValueIsStored(others, items[i], v.items[i]);
        stored := stored + [one];
      }
      w := TupleOf(stored);
    case Other(_) => w := v;
  }

  // ----- The constructor -----

  function Widened(declared: Type): Type {
    if MentionsEnum(declared) then MakeUnion([declared, Rewritten(declared)]) else declared
  }

  /** `_accept_values`: the parameter types of the constructor, one by one. */
  method AcceptValues(declared: seq<Type>) returns (widened: seq<Type>)
    ensures |widened| == |declared|
    ensures forall i :: 0 <= i < |declared| ==> widened[i] == Widened(declared[i])
  {
    widened := [];
    for i := 0 to |declared|
      invariant |widened| == i
      invariant forall k :: 0 <= k < i ==> widened[k] == Widened(declared[k])
    {
      var rewriter := new ValueTypes();
      var rewritten := rewriter.Rewrite(declared[i]);
      widened := widened + [if rewriter.changed then MakeUnion([declared[i], rewritten]) else declared[i]];
    }
  }

  /** A widened parameter takes exactly what the declaration takes and what reading the
      field can give; in particular, anything stored from a value of the declared type. */
  lemma {:induction false} WidenedTakesBoth(others: Others, declared: Type, v: Value)
    requires Normal(declared)
    ensures Has(others, v, Widened(declared)) <==> Has(others, v, declared) || Has(others, v, Rewritten(declared))
    ensures forall w :: Stores(others, declared, v, w) && Sound(v) ==> Has(others, w, Widened(declared))
  {
    var both := [declared, Rewritten(declared)];
    forall u ensures Has(others, u, Widened(declared)) <==>
        Has(others, u, declared) || Has(others, u, Rewritten(declared)) {
      if MentionsEnum(declared) {
        MakeUnionMeaning(others, u, both);
        assert both[0] == declared && both[1] == Rewritten(declared);
      } else {
        PlainIsUnchanged(declared);
      }
    }
    forall w | Stores(others, declared, v, w) && Sound(v) ensures Has(others, w, Rewritten(declared)) {
      StoredValueHasRewrittenType(others, declared, v, w);
    }
  }

  // ----- Which classes store values -----

  /** A class as it is analysed: its resolution order, itself first, and the flag its own
      `model_config` declares, if it declares one. */
  datatype ClassDef = ClassDef(mro: seq<string>, config: Option<bool>)

  /** The flag recorded on the first class of the list that has one. */
  function FirstRecorded(flags: map<string, bool>, names: seq<string>): bool {
    if names == [] then false
    else if names[0] in flags then flags[names[0]]
    else FirstRecorded(flags, names[1..])
  }

  class Metadata {
    var flags: map<string, bool>

    constructor ()
      ensures flags == map[]
    {
      flags := map[];
    }

    method Inherited(names: seq<string>) returns (flag: bool)
      ensures flag == FirstRecorded(flags, names)
    {
      for i := 0 to |names|
        invariant FirstRecorded(flags, names) == FirstRecorded(flags, names[i..])
      {
        if names[i] in flags {
          return flags[names[i]];
        }
      }
      flag := false;
    }

    /** `_record`. */
    method Record(def: ClassDef)
      requires def.mro != []
      modifies this
      ensures flags == RecordedOne(old(flags), def)
    {
      var flag: bool;
      if def.config.Some? {
        flag := def.config.value;
      } else {
        flag := Inherited(def.mro[1..]);
      }
      flags := flags[def.mro[0] := flag];
    }
  }

  function RecordedOne(flags: map<string, bool>, def: ClassDef): map<string, bool>
    requires def.mro != []
  {
    flags[def.mro[0] := if def.config.Some? then def.config.value else FirstRecorded(flags, def.mro[1..])]
  }

  /** Classes are recorded in the order they are analysed. */
  function Recorded(defs: seq<ClassDef>): map<string, bool>
    requires forall d :: d in defs ==> d.mro != []
  {
    if defs == [] then map[] else RecordedOne(Recorded(defs[..|defs| - 1]), defs[|defs| - 1])
  }

  /** The flags the classes declare themselves. */
  function Declared(defs: seq<ClassDef>): map<string, bool>
    requires forall d :: d in defs ==> d.mro != []
  {
    if defs == [] then map[] else
      var last := defs[|defs| - 1];
      var earlier := Declared(defs[..|defs| - 1]);
      if last.config.Some? then earlier[last.mro[0] := last.config.value] else earlier
  }

  /** Each class is defined once, and all its ancestors were analysed before it. */
  ghost predicate Analysed(defs: seq<ClassDef>) {
    && (forall d :: d in defs ==> d.mro != [])
    && (defs == [] || (
          var earlier, last := defs[..|defs| - 1], defs[|defs| - 1];
          && Analysed(earlier)
          && last.mro[0] !in last.mro[1..] && (forall d :: d in earlier ==> last.mro[0] !in d.mro)
          && forall n :: n in last.mro[1..] ==> exists d :: d in earlier && d.mro[0] == n))
  }

  lemma {:induction false} DefinedAreRecorded(defs: seq<ClassDef>)
    requires forall d :: d in defs ==> d.mro != []
    ensures forall n :: n in Recorded(defs) <==> exists d :: d in defs && d.mro[0] == n
    decreases |defs|
  {
    if defs == [] {
    } else {
      var earlier, last := defs[..|defs| - 1], defs[|defs| - 1];
      assert defs == earlier + [last];
      DefinedAreRecorded(earlier);
      assert last in defs && forall d :: d in earlier ==> d in defs;
    }
  }

  /** However many bases a class has, it takes the flag of the class after it in its own
      resolution order, unless it declares one. */
  lemma {:induction false} FlagIsTheNextOne(defs: seq<ClassDef>, d: ClassDef)
    requires Analysed(defs) && d in defs
    ensures forall n :: n in d.mro ==> n in Recorded(defs)
    ensures Recorded(defs)[d.mro[0]] ==
            if d.config.Some? then d.config.value
            else if |d.mro| == 1 then false
            else Recorded(defs)[d.mro[1]]
    decreases |defs|
  {
    var earlier, last := defs[..|defs| - 1], defs[|defs| - 1];
    assert defs == earlier + [last];
    if d in earlier {
      FlagIsTheNextOne(earlier, d);
      assert last.mro[0] !in d.mro;
    } else {
      DefinedAreRecorded(earlier);
      assert forall n :: n in last.mro[1..] ==> n in Recorded(earlier);
      if |last.mro| > 1 {
        assert last.mro[1..][0] == last.mro[1] && last.mro[1] in last.mro[1..];
      }
    }
  }

  /** Each class is defined once, and extends one that was analysed before it, or none. */
  ghost predicate SingleInheritance(defs: seq<ClassDef>) {
    && (forall d :: d in defs ==> d.mro != [])
    && (defs == [] || (
          var earlier, last := defs[..|defs| - 1], defs[|defs| - 1];
          && SingleInheritance(earlier)
          && last.mro[0] !in last.mro[1..] && (forall d :: d in earlier ==> last.mro[0] !in d.mro)
          && (|last.mro| == 1 || exists d :: d in earlier && d.mro == last.mro[1..])))
  }

  lemma {:induction false} UnrelatedFlag(flags: map<string, bool>, name: string, flag: bool, names: seq<string>)
    requires name !in names
    ensures FirstRecorded(flags[name := flag], names) == FirstRecorded(flags, names)
  {
    if names == [] {
    } else {
      UnrelatedFlag(flags, name, flag, names[1..]);
    }
  }

  /** With single inheritance the recorded flag is the one the class declares, or else the
      one its nearest ancestor that declares one does, or false. */
  lemma {:induction false} FlagIsNearestDeclared(defs: seq<ClassDef>, d: ClassDef)
    requires SingleInheritance(defs) && d in defs
    ensures forall n :: n in d.mro ==> n in Recorded(defs)
    ensures Recorded(defs)[d.mro[0]] == FirstRecorded(Declared(defs), d.mro)
    decreases |defs|
  {
    var earlier, last := defs[..|defs| - 1], defs[|defs| - 1];
    assert defs == earlier + [last];
    if d in earlier {
      FlagIsNearestDeclared(earlier, d);
      if last.config.Some? {
        UnrelatedFlag(Declared(earlier), last.mro[0], last.config.value, d.mro);
      }
    } else {
      if |last.mro| > 1 {
        var parent :| parent in earlier && parent.mro == last.mro[1..];
        FlagIsNearestDeclared(earlier, parent);
      }
      DeclaredAreDefined(earlier);
    }
  }

  lemma {:induction false} DeclaredAreDefined(defs: seq<ClassDef>)
    requires forall d :: d in defs ==> d.mro != []
    ensures forall n :: n in Declared(defs) ==> exists d :: d in defs && d.mro[0] == n
    decreases |defs|
  {
    if defs == [] {
    } else {
      var earlier, last := defs[..|defs| - 1], defs[|defs| - 1];
      assert defs == earlier + [last];
      DeclaredAreDefined(earlier);
      assert last in defs && forall d :: d in earlier ==> d in defs;
    }
  }
}
