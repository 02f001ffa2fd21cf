/** The numeric walk of the OpenPix overlay: every schema the rules claim goes from
    `number` to `integer`, in place, and is counted. */
module OpenPixWalk {
  import opened Json

  /** The description patterns, the names measured in whole units, and how `str` renders a
      value that is not text. */
  datatype Rules = Rules(
    notCents: string -> bool, cents: string -> bool, statusCode: string -> bool,
    integerNames: set<string>, render: Json -> string)

  predicate WantsInteger(rules: Rules, name: Option<string>, schema: map<string, Json>) {
    if !("type" in schema && schema["type"] == Str("number")) then false
    else
      var description := Description(schema, rules.render);
      if rules.notCents(description) then false
      else if rules.cents(description) || rules.statusCode(description) then true
      else name.Some? && name.value in rules.integerNames
  }

  const INHERITING := {"items", "allOf", "anyOf", "oneOf", "not"}
  const SKIPPED := {"example", "examples", "enum", "default"}

  // ----- The walk as a map: what each place in the document is read as -----

  /** How a value is read: as a schema under a property or parameter name, as the mapping
      of `properties`, as the list of `parameters` or one parameter, or not at all. */
  datatype Context = Schema(name: Option<string>) | Properties | Parameters | Parameter(named: Option<string>) | Unread

  datatype Step = Key(key: string) | Index(index: nat)

  type Position = seq<Step>

  /** The name a parameter gives its schema: `str(parameter.get("name") or "") or None`. */
  function ParameterName(rules: Rules, parameter: map<string, Json>): Option<string> {
    if "name" !in parameter || !parameter["name"].Truthy() then None
    else if parameter["name"].Str? then Some(parameter["name"].s)
    else if rules.render(parameter["name"]) == "" then None
    else Some(rules.render(parameter["name"]))
  }

  /** The name carries on through what describes the same value, and is dropped elsewhere. */
  function UnderKey(key: string, value: Json, name: Option<string>): Context {
    if key == "properties" && value.Obj? then Properties
    else if key == "parameters" && value.Arr? then Parameters
    else if key in INHERITING then Schema(name)
    else if key in SKIPPED then Unread
    else Schema(None)
  }

  function Child(rules: Rules, node: Json, context: Context, step: Step): Context
    requires match step case Key(k) => node.Has(k) case Index(i) => node.Arr? && i < |node.items|
  {
    match (context, step)
    case (Schema(name), Key(k)) => UnderKey(k, node.fields[k], name)
    case (Schema(_), Index(_)) => context
    case (Properties, Key(k)) => Schema(Some(k))
    case (Parameters, Index(i)) =>
      if node.items[i].Obj? then Parameter(ParameterName(rules, node.items[i].fields)) else Unread
    case (Parameter(name), Key(k)) => if k == "schema" then Schema(name) else Unread
    case _ => Unread
  }

  predicate Claims(rules: Rules, context: Context, fields: map<string, Json>) {
    context.Schema? && WantsInteger(rules, context.name, fields)
  }

  function Retyped(rules: Rules, node: Json, context: Context): Json {
    match node
    case Obj(fields) =>
      Obj(map k | k in fields ::
        if k == "type" && Claims(rules, context, fields) then Str("integer")
        else Retyped(rules, fields[k], Child(rules, node, context, Key(k))))
    case Arr(items) =>
      Arr(seq(|items|, i requires 0 <= i < |items| => Retyped(rules, items[i], Child(rules, node, context, Index(i)))))
    case _ => node
  }

  /** The places of the schemas the rules claim. */
  ghost function Claimed(rules: Rules, node: Json, context: Context): set<Position>
    decreases node, 1
  {
    match node
    case Obj(fields) =>
      (if Claims(rules, context, fields) then {[]} else {}) + ClaimedUnder(rules, node, context, fields.Keys)
    case Arr(items) => ClaimedUpTo(rules, node, context, |items|)
    case _ => {}
  }

  /** Claims under some of the keys of a mapping. */
  ghost function ClaimedUnder(rules: Rules, node: Json, context: Context, keys: set<string>): set<Position>
    requires node.Obj? && keys <= node.fields.Keys
    decreases node, 0
  {
    set k, p | k in keys && p in Claimed(rules, node.fields[k], Child(rules, node, context, Key(k))) :: [Key(k)] + p
  }

  /** Claims under the first items of a list. */
  ghost function ClaimedUpTo(rules: Rules, node: Json, context: Context, n: nat): set<Position>
    requires node.Arr? && n <= |node.items|
    decreases node, 0
  {
    set i, p | 0 <= i < n && p in Claimed(rules, node.items[i], Child(rules, node, context, Index(i))) :: [Index(i)] + p
  }

  // ----- Counting -----

  ghost function Prefixed(step: Step, places: set<Position>): set<Position> {
    set p | p in places :: [step] + p
  }

  lemma {:induction false} PrefixedSize(step: Step, places: set<Position>)
    ensures |Prefixed(step, places)| == |places|
    decreases |places|
  {
    if places == {} {
    } else {
      var p :| p in places;
      PrefixedSize(step, places - {p});
      assert forall q :: q in places && [step] + q == [step] + p ==> ([step] + q)[1..] == ([step] + p)[1..];
      assert Prefixed(step, places) - {[step] + p} == Prefixed(step, places - {p});
      assert [step] + p in Prefixed(step, places);
    }
  }

  lemma {:induction false} ClaimedUnderOneMore(rules: Rules, node: Json, context: Context, keys: set<string>, k: string)
    requires node.Obj? && keys <= node.fields.Keys && k in keys
    ensures |ClaimedUnder(rules, node, context, keys)| ==
            |ClaimedUnder(rules, node, context, keys - {k})| +
            |Claimed(rules, node.fields[k], Child(rules, node, context, Key(k)))|
  {
    var own := Prefixed(Key(k), Claimed(rules, node.fields[k], Child(rules, node, context, Key(k))));
    var all, others := ClaimedUnder(rules, node, context, keys), ClaimedUnder(rules, node, context, keys - {k});
    forall p | p in others ensures p[0] != Key(k) && p in all {
      var l, q :| l in keys - {k} && q in Claimed(rules, node.fields[l], Child(rules, node, context, Key(l))) &&
          p == [Key(l)] + q;
      assert p[0] == Key(l);
    }
    forall p | p in all ensures p in others + own {
      var l, q :| l in keys && q in Claimed(rules, node.fields[l], Child(rules, node, context, Key(l))) &&
          p == [Key(l)] + q;
    }
    assert forall p :: p in own ==> p[0] == Key(k) && p in all;
    assert all == others + own;
    PrefixedSize(Key(k), Claimed(rules, node.fields[k], Child(rules, node, context, Key(k))));
  }

  lemma ClaimedUpToOneMore(rules: Rules, node: Json, context: Context, n: nat)
    requires node.Arr? && n < |node.items|
    ensures |ClaimedUpTo(rules, node, context, n + 1)| ==
            |ClaimedUpTo(rules, node, context, n)| +
            |Claimed(rules, node.items[n], Child(rules, node, context, Index(n)))|
  {
    var own := Prefixed(Index(n), Claimed(rules, node.items[n], Child(rules, node, context, Index(n))));
    var others := ClaimedUpTo(rules, node, context, n);
    forall p | p in others ensures p[0] != Index(n) {
    }
    assert forall p :: p in own ==> p[0] == Index(n);
    assert ClaimedUpTo(rules, node, context, n + 1) == others + own;
    PrefixedSize(Index(n), Claimed(rules, node.items[n], Child(rules, node, context, Index(n))));
  }

  lemma {:induction false} ClaimedOfMapping(rules: Rules, node: Json, context: Context)
    requires node.Obj?
    ensures |Claimed(rules, node, context)| ==
            (if Claims(rules, context, node.fields) then 1 else 0) +
                |ClaimedUnder(rules, node, context, node.fields.Keys)|
  {
    assert [] !in ClaimedUnder(rules, node, context, node.fields.Keys);
  }

  lemma {:induction false} UnreadHasNoClaims(rules: Rules, node: Json)
    ensures Claimed(rules, node, Unread) == {} && Retyped(rules, node, Unread) == node
  {
    match node
    case Obj(fields) =>
      forall k | k in fields ensures Claimed(rules, fields[k], Unread) == {} &&
          Retyped(rules, fields[k], Unread) == fields[k] {
        UnreadHasNoClaims(rules, fields[k]);
      }
      assert Retyped(rules, node, Unread).fields == fields;
    case Arr(items) =>
      forall i | 0 <= i < |items| ensures Claimed(rules, items[i], Unread) == {} &&
          Retyped(rules, items[i], Unread) == items[i] {
        UnreadHasNoClaims(rules, items[i]);
      }
      assert Retyped(rules, node, Unread).items == items;
    case _ =>
  }

  ghost function Count(rules: Rules, node: Json, context: Context): nat {
    |Claimed(rules, node, context)|
  }

  ghost function CountUnder(rules: Rules, node: Json, context: Context, keys: set<string>): nat
    requires node.Obj? && keys <= node.fields.Keys
  {
    |ClaimedUnder(rules, node, context, keys)|
  }

  ghost function CountUpTo(rules: Rules, node: Json, context: Context, n: nat): nat
    requires node.Arr? && n <= |node.items|
  {
    |ClaimedUpTo(rules, node, context, n)|
  }

  /** The value a key has once the walk has been there. */
  ghost function RetypedAt(rules: Rules, node: Json, context: Context, k: string): Json
    requires node.Has(k)
  {
    Retyped(rules, node, context).fields[k]
  }

  lemma {:induction false} CountKey(rules: Rules, node: Json, context: Context, todo: set<string>, k: string)
    requires node.Obj? && todo <= node.fields.Keys && k in todo
    ensures CountUnder(rules, node, context, todo) ==
            CountUnder(rules, node, context, todo - {k}) +
                Count(rules, node.fields[k], Child(rules, node, context, Key(k)))
    ensures RetypedAt(rules, node, context, k) ==
            if k == "type" && Claims(rules, context, node.fields) then Str("integer")
            else Retyped(rules, node.fields[k], Child(rules, node, context, Key(k)))
    ensures node.fields[k].Str? ==> Count(rules, node.fields[k], Child(rules, node, context, Key(k))) == 0
  {
    ClaimedUnderOneMore(rules, node, context, todo, k);
  }

  lemma CountMapping(rules: Rules, node: Json, context: Context)
    requires node.Obj?
    ensures Count(rules, node, context) ==
            (if Claims(rules, context, node.fields) then 1 else 0) + CountUnder(rules, node, context, node.fields.Keys)
    ensures CountUnder(rules, node, context, {}) == 0
  {
    ClaimedOfMapping(rules, node, context);
    assert ClaimedUnder(rules, node, context, {}) == {};
  }

  lemma CountEntry(rules: Rules, node: Json, context: Context, i: nat)
    requires node.Arr? && i < |node.items|
    ensures CountUpTo(rules, node, context, i + 1) ==
            CountUpTo(rules, node, context, i) + Count(rules, node.items[i], Child(rules, node, context, Index(i)))
  {
    ClaimedUpToOneMore(rules, node, context, i);
  }

  lemma CountList(rules: Rules, node: Json, context: Context)
    requires node.Arr?
    ensures Count(rules, node, context) == CountUpTo(rules, node, context, |node.items|)
    ensures CountUpTo(rules, node, context, 0) == 0
  {
    assert ClaimedUpTo(rules, node, context, 0) == {};
  }

  /** Of a parameter, only the schema is read. */
  lemma {:induction false} ParameterRetyped(rules: Rules, node: Json, name: Option<string>)
    requires node.Obj?
    ensures Retyped(rules, node, Parameter(name)) ==
            if "schema" in node.fields
            then Obj(node.fields["schema" := Retyped(rules, node.fields["schema"], Schema(name))]) else node
  {
    forall k | k in node.fields && k != "schema" ensures Retyped(rules, node.fields[k], Unread) == node.fields[k] {
      UnreadHasNoClaims(rules, node.fields[k]);
    }
    var after := Retyped(rules, node, Parameter(name)).fields;
    if "schema" in node.fields {
      assert after == node.fields["schema" := Retyped(rules, node.fields["schema"], Schema(name))];
    } else {
      assert after == node.fields;
    }
  }

  lemma ParameterClaims(rules: Rules, node: Json, name: Option<string>)
    requires node.Obj?
    ensures Count(rules, node, Parameter(name)) ==
            if "schema" in node.fields then Count(rules, node.fields["schema"], Schema(name)) else 0
  {
    var context := Parameter(name);
    forall k | k in node.fields && k != "schema" ensures Claimed(rules, node.fields[k], Unread) == {} {
      UnreadHasNoClaims(rules, node.fields[k]);
    }
    var rest := node.fields.Keys - {"schema"};
    assert ClaimedUnder(rules, node, context, rest) == {};
    CountMapping(rules, node, context);
    if "schema" in node.fields {
      CountKey(rules, node, context, node.fields.Keys, "schema");
    } else {
      assert rest == node.fields.Keys;
    }
  }

  // ----- What changes, place by place -----

  function At(node: Json, p: Position): Option<Json> {
    if p == [] then Some(node) else
      match p[0]
      case Key(k) => if node.Has(k) then At(node.fields[k], p[1..]) else None
      case Index(i) => if node.Arr? && i < |node.items| then At(node.items[i], p[1..]) else None
  }

  /** How the value at `p` is read, following the path down from a value read as `context`. */
  function ContextAt(rules: Rules, node: Json, context: Context, p: Position): Context
    requires At(node, p).Some?
  {
    if p == [] then context else
      match p[0]
      case Key(k) => ContextAt(rules, node.fields[k], Child(rules, node, context, p[0]), p[1..])
      case Index(i) => ContextAt(rules, node.items[i], Child(rules, node, context, p[0]), p[1..])
  }

  /** The rule, at one place: a mapping read as a schema, under a name that or with a
      description that wants an integer. */
  ghost predicate RuleClaims(rules: Rules, node: Json, context: Context, p: Position) {
    && At(node, p).Some? && At(node, p).value.Obj?
    && Claims(rules, ContextAt(rules, node, context, p), At(node, p).value.fields)
  }

  lemma {:induction false} ClaimedIsTheRule(rules: Rules, node: Json, context: Context, p: Position)
    ensures p in Claimed(rules, node, context) <==> RuleClaims(rules, node, context, p)
    decreases p
  {
    if p == [] {
    } else {
      match p[0]
      case Key(k) =>
        if node.Has(k) {
          ClaimedIsTheRule(rules, node.fields[k], Child(rules, node, context, Key(k)), p[1..]);
          assert p == [Key(k)] + p[1..];
          InClaimedUnder(rules, node, context, k, p[1..]);
        }
      case Index(i) =>
        if node.Arr? && i < |node.items| {
          ClaimedIsTheRule(rules, node.items[i], Child(rules, node, context, Index(i)), p[1..]);
          assert p == [Index(i)] + p[1..];
          InClaimedUpTo(rules, node, context, i, p[1..]);
        }
    }
  }

  lemma {:induction false} InClaimedUnder(rules: Rules, node: Json, context: Context, k: string, p: Position)
    requires node.Has(k)
    ensures [Key(k)] + p in Claimed(rules, node, context) <==>
            p in Claimed(rules, node.fields[k], Child(rules, node, context, Key(k)))
  {
    var whole := [Key(k)] + p;
    assert whole != [] && whole[0] == Key(k) && whole[1..] == p;
    if whole in Claimed(rules, node, context) {
      assert whole in ClaimedUnder(rules, node, context, node.fields.Keys);
      var l, q :| l in node.fields && q in Claimed(rules, node.fields[l], Child(rules, node, context, Key(l))) &&
          whole == [Key(l)] + q;
      assert whole[0] == Key(l) && whole[1..] == q;
    }
  }

  lemma {:induction false} InClaimedUpTo(rules: Rules, node: Json, context: Context, i: nat, p: Position)
    requires node.Arr? && i < |node.items|
    ensures [Index(i)] + p in Claimed(rules, node, context) <==>
            p in Claimed(rules, node.items[i], Child(rules, node, context, Index(i)))
  {
    var whole := [Index(i)] + p;
    assert whole[0] == Index(i) && whole[1..] == p;
    if whole in Claimed(rules, node, context) {
      assert whole in ClaimedUpTo(rules, node, context, |node.items|);
      var j, q :| 0 <= j < |node.items| &&
          q in Claimed(rules, node.items[j], Child(rules, node, context, Index(j))) && whole == [Index(j)] + q;
      assert whole[0] == Index(j) && whole[1..] == q;
    }
  }

  /** The same value, but for what is inside a mapping or a list. */
  predicate SameShape(a: Json, b: Json) {
    match a
    case Obj(fields) => b.Obj? && b.fields.Keys == fields.Keys
    case Arr(items) => b.Arr? && |b.items| == |items|
    case _ => b == a
  }

  /** The change the rule makes at a place, or none. */
  ghost predicate ChangedByRule(before: Json, after: Json, claimed: bool) {
    if claimed then before == Str("number") && after == Str("integer") else SameShape(before, after)
  }

  /** Whether `p` is the `type` of a schema the rule claims. */
  ghost predicate IsClaimedType(rules: Rules, node: Json, context: Context, p: Position) {
    p != [] && p[|p| - 1] == Key("type") && RuleClaims(rules, node, context, p[..|p| - 1])
  }

  lemma {:induction false} ClaimedTypeBelow(rules: Rules, node: Json, context: Context, p: Position)
    requires |p| > 1 && At(node, p[..1]).Some?
    ensures IsClaimedType(rules, node, context, p) <==>
            IsClaimedType(rules, At(node, p[..1]).value, Child(rules, node, context, p[0]), p[1..])
  {
    var rest := p[1..];
    assert p[..1][1..] == [];
    assert p[..|p| - 1][0] == p[0] && p[..|p| - 1][1..] == rest[..|rest| - 1];
    assert At(node, p[..1]) == Some(if p[0].Key? then node.fields[p[0].key] else node.items[p[0].index]);
  }

  /** The only change anywhere is the `type` of a schema the rule claims, from number to
      integer: every other key is still there and every other leaf is what it was. */
  lemma {:induction false} OnlyClaimedTypesChange(rules: Rules, node: Json, context: Context, p: Position)
    ensures At(Retyped(rules, node, context), p).Some? == At(node, p).Some?
    ensures At(node, p).Some? ==>
              ChangedByRule(At(node, p).value, At(Retyped(rules, node, context), p).value,
                  IsClaimedType(rules, node, context, p))
    decreases p
  {
    if p == [] {
    } else {
      match p[0]
      case Key(k) => OnlyClaimedUnderKey(rules, node, context, p, k);
      case Index(i) => OnlyClaimedUnderIndex(rules, node, context, p, i);
    }
  }

  lemma {:induction false} OnlyClaimedUnderKey(rules: Rules, node: Json, context: Context, p: Position, k: string)
    requires p != [] && p[0] == Key(k)
    ensures At(Retyped(rules, node, context), p).Some? == At(node, p).Some?
    ensures At(node, p).Some? ==>
              ChangedByRule(At(node, p).value, At(Retyped(rules, node, context), p).value,
                  IsClaimedType(rules, node, context, p))
    decreases p, 0
  {
    if node.Has(k) {
      var child := Child(rules, node, context, Key(k));
      OnlyClaimedTypesChange(rules, node.fields[k], child, p[1..]);
      if |p| > 1 {
        assert p[..1][0] == Key(k) && p[..1][1..] == [];
        ClaimedTypeBelow(rules, node, context, p);
      } else {
        assert p[1..] == [] && p[..|p| - 1] == [];
      }
    }
  }

  lemma {:induction false} OnlyClaimedUnderIndex(rules: Rules, node: Json, context: Context, p: Position, i: nat)
    requires p != [] && p[0] == Index(i)
    ensures At(Retyped(rules, node, context), p).Some? == At(node, p).Some?
    ensures At(node, p).Some? ==>
              ChangedByRule(At(node, p).value, At(Retyped(rules, node, context), p).value,
                  IsClaimedType(rules, node, context, p))
    decreases p, 0
  {
    if node.Arr? && i < |node.items| {
      OnlyClaimedTypesChange(rules, node.items[i], Child(rules, node, context, Index(i)), p[1..]);
      if |p| > 1 {
        assert p[..1][0] == Index(i) && p[..1][1..] == [];
        ClaimedTypeBelow(rules, node, context, p);
      } else {
        assert p[1..] == [] && p[..|p| - 1] == [];
      }
    }
  }

  /** An example, an enum or a default is data, not a schema: it comes out as it went in,
      and nothing inside it is claimed. */
  lemma {:induction false} SkippedIsUntouched(rules: Rules, node: Json, name: Option<string>, key: string, p: Position)
    requires node.Has(key) && key in SKIPPED
    ensures Retyped(rules, node, Schema(name)).Get(key) == node.Get(key)
    ensures [Key(key)] + p !in Claimed(rules, node, Schema(name))
  {
    assert Child(rules, node, Schema(name), Key(key)) == Unread;
    UnreadHasNoClaims(rules, node.fields[key]);
    assert Retyped(rules, node, Schema(name)).fields[key] == Retyped(rules, node.fields[key], Unread);
    InClaimedUnder(rules, node, Schema(name), key, p);
  }

  // ----- The rule spelled out, place by place -----

  /** A place is claimed exactly when what is there is a mapping, read as a schema, whose `type`
      is `number`, and whose description does not say that it is not in cents, and says that
      it is in cents or a status code, unless the name in scope is listed. */
  lemma {:induction false} ClaimedExactly(rules: Rules, node: Json, context: Context, p: Position)
    ensures p in Claimed(rules, node, context) <==>
            && At(node, p).Some? && At(node, p).value.Obj? && ContextAt(rules, node, context, p).Schema?
            && var fields, name := At(node, p).value.fields, ContextAt(rules, node, context, p).name;
            && var description := Description(fields, rules.render);
            && "type" in fields && fields["type"] == Str("number")
            && !rules.notCents(description)
            && (|| rules.cents(description) || rules.statusCode(description)
                || (name.Some? && name.value in rules.integerNames))
  {
    ClaimedIsTheRule(rules, node, context, p);
  }

  /** What a description proves to be no whole unit stays as it is, whatever its name. */
  lemma {:induction false} ProvenOtherwiseIsKept(rules: Rules, node: Json, context: Context, p: Position)
    requires At(node, p + [Key("type")]).Some? && !At(node, p + [Key("type")]).value.Obj? &&
             !At(node, p + [Key("type")]).value.Arr?
    requires At(node, p).Some? && At(node, p).value.Obj?
    requires rules.notCents(Description(At(node, p).value.fields, rules.render))
    ensures At(Retyped(rules, node, context), p + [Key("type")]) == At(node, p + [Key("type")])
  {
    var at := p + [Key("type")];
    assert at[..|at| - 1] == p;
    OnlyClaimedTypesChange(rules, node, context, at);
    ClaimedExactly(rules, node, context, p);
    ClaimedIsTheRule(rules, node, context, p);
  }

  // ----- The name in scope -----

  lemma {:induction false} ContextBelow(rules: Rules, node: Json, context: Context, p: Position, q: Position)
    requires At(node, p).Some?
    ensures At(node, p + q) == At(At(node, p).value, q)
    ensures At(node, p + q).Some? ==>
              ContextAt(rules, node, context, p + q) ==
              ContextAt(rules, At(node, p).value, ContextAt(rules, node, context, p), q)
    decreases |p|
  {
    if p == [] {
      assert p + q == q;
    } else {
      assert (p + q)[0] == p[0] && (p + q)[1..] == p[1..] + q;
      match p[0]
      case Key(k) => ContextBelow(rules, node.fields[k], Child(rules, node, context, p[0]), p[1..], q);
      case Index(i) => ContextBelow(rules, node.items[i], Child(rules, node, context, p[0]), p[1..], q);
    }
  }

  /** Steps to what describes the same value: an entry of a list, the items of an array or the
      alternatives of a schema. */
  predicate SameValue(q: Position) {
    forall i :: 0 <= i < |q| ==> q[i].Index? || q[i].key in {"items", "allOf", "anyOf", "oneOf", "not"}
  }

  /** The name carries on down to whatever describes the same value. */
  lemma {:induction false} NameCarriesOn(rules: Rules, node: Json, name: Option<string>, q: Position)
    requires At(node, q).Some? && SameValue(q)
    ensures ContextAt(rules, node, Schema(name), q) == Schema(name)
    decreases |q|
  {
    if q == [] {
    } else {
      match q[0]
      case Key(k) => NameCarriesOn(rules, node.fields[k], name, q[1..]);
      case Index(i) => NameCarriesOn(rules, node.items[i], name, q[1..]);
    }
  }

  lemma {:induction false} UnderStep(rules: Rules, node: Json, context: Context, step: Step, q: Position)
    ensures match step
      case Key(k) =>
        && At(node, [step] + q) == (if node.Has(k) then At(node.fields[k], q) else None)
        && (At(node, [step] + q).Some? ==>
              ContextAt(rules, node, context, [step] + q) ==
              ContextAt(rules, node.fields[k], Child(rules, node, context, step), q))
      case Index(i) =>
        && At(node, [step] + q) == (if node.Arr? && i < |node.items| then At(node.items[i], q) else None)
        && (At(node, [step] + q).Some? ==>
              ContextAt(rules, node, context, [step] + q) ==
              ContextAt(rules, node.items[i], Child(rules, node, context, step), q))
  {
    assert ([step] + q)[1..] == q;
  }

  /** A property names its schema, under any schema. */
  lemma {:induction false} PropertyNamesSchema(rules: Rules, node: Json, name: Option<string>, k: string, q: Position)
    requires At(node, [Key("properties")] + ([Key(k)] + q)).Some? && SameValue(q)
    ensures ContextAt(rules, node, Schema(name), [Key("properties")] + ([Key(k)] + q)) == Schema(Some(k))
  {
    UnderStep(rules, node, Schema(name), Key("properties"), [Key(k)] + q);
    var properties := node.fields["properties"];
    UnderStep(rules, properties, Properties, Key(k), q);
    NameCarriesOn(rules, properties.fields[k], Some(k), q);
  }

  /** A parameter names its schema: by its text, or by nothing when it has none. */
  lemma {:induction false} ParameterNamesSchema(rules: Rules, node: Json, name: Option<string>, i: nat, q: Position)
    requires node.Has("parameters") && node.fields["parameters"].Arr? && i < |node.fields["parameters"].items|
    requires var parameter := node.fields["parameters"].items[i];
      parameter.Has("schema") && At(parameter.fields["schema"], q).Some? && SameValue(q)
    ensures var parameter := node.fields["parameters"].items[i];
            var place := [Key("parameters")] + ([Index(i)] + ([Key("schema")] + q));
      && At(node, place) == At(parameter.fields["schema"], q)
      && ContextAt(rules, node, Schema(name), place).Schema?
      && var read := ContextAt(rules, node, Schema(name), place).name;
      && (!parameter.Has("name") || parameter.fields["name"] == Str("") ==> read == None)
      && (parameter.Has("name") && parameter.fields["name"].Str? && parameter.fields["name"].s != "" ==>
            read == Some(parameter.fields["name"].s))
  {
    var parameter := node.fields["parameters"].items[i];
    var named := ParameterName(rules, parameter.fields);
    UnderStep(rules, node, Schema(name), Key("parameters"), [Index(i)] + ([Key("schema")] + q));
    UnderStep(rules, node.fields["parameters"], Parameters, Index(i), [Key("schema")] + q);
    UnderStep(rules, parameter, Parameter(named), Key("schema"), q);
    NameCarriesOn(rules, parameter.fields["schema"], named, q);
  }

  /** Under any other key of a schema there is no name in scope, and a schema is read all the
      same: the walk goes through paths, responses and media types alike. */
  lemma {:induction false} OtherKeysDropName(rules: Rules, node: Json, name: Option<string>, k: string, q: Position)
    requires At(node, [Key(k)] + q).Some? && SameValue(q)
    requires k !in {"items", "allOf", "anyOf", "oneOf", "not", "example", "examples", "enum", "default"}
    requires !(k == "properties" && node.fields[k].Obj?) && !(k == "parameters" && node.fields[k].Arr?)
    ensures ContextAt(rules, node, Schema(name), [Key(k)] + q) == Schema(None)
  {
    assert ([Key(k)] + q)[1..] == q;
    NameCarriesOn(rules, node.fields[k], None, q);
  }

  lemma {:induction false} UnreadBelow(rules: Rules, node: Json, q: Position)
    requires At(node, q).Some?
    ensures ContextAt(rules, node, Unread, q) == Unread
    decreases |q|
  {
    if q == [] {
    } else {
      match q[0]
      case Key(k) => UnreadBelow(rules, node.fields[k], q[1..]);
      case Index(i) => UnreadBelow(rules, node.items[i], q[1..]);
    }
  }

  /** Data is not read: what an example, an enum or a default holds, at any depth. */
  lemma {:induction false} DataIsNotRead(rules: Rules, node: Json, name: Option<string>, k: string, q: Position)
    requires At(node, [Key(k)] + q).Some? && k in {"example", "examples", "enum", "default"}
    ensures ContextAt(rules, node, Schema(name), [Key(k)] + q) == Unread
  {
    assert ([Key(k)] + q)[1..] == q;
    UnreadBelow(rules, node.fields[k], q);
  }

  /** Nor is anything of a parameter but its schema. */
  lemma {:induction false} RestOfParameterIsNotRead(rules: Rules, node: Json, name: Option<string>, i: nat, k: string,
      q: Position)
    requires node.Has("parameters") && node.fields["parameters"].Arr?
    requires At(node, [Key("parameters")] + ([Index(i)] + ([Key(k)] + q))).Some? && k != "schema"
    ensures ContextAt(rules, node, Schema(name), [Key("parameters")] + ([Index(i)] + ([Key(k)] + q))) == Unread
  {
    UnderStep(rules, node, Schema(name), Key("parameters"), [Index(i)] + ([Key(k)] + q));
    UnderStep(rules, node.fields["parameters"], Parameters, Index(i), [Key(k)] + q);
    var parameter := node.fields["parameters"].items[i];
    UnderStep(rules, parameter, Child(rules, node.fields["parameters"], Parameters, Index(i)), Key(k), q);
    UnreadBelow(rules, parameter.fields[k], q);
  }
}
