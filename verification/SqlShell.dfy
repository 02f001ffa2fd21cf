/** The admin SQL console: what a parsed statement may do, whether a policy lets it, and
    the audited service that runs it. */
module SqlShell {
  import opened Json
  import opened Text

  // ----- Capabilities -----

  datatype Capability = READ | INSERT | UPDATE | DELETE | DDL | DROP | ADMIN

  const MUTATING := {INSERT, UPDATE, DELETE, DDL, DROP, ADMIN}

  const CAPABILITY_RANK := [READ, INSERT, UPDATE, DELETE, DDL, DROP, ADMIN]

  /** `_CAPABILITY_RANK.index(c)`. */
  function Rank(c: Capability): (rank: nat)
    ensures rank < |CAPABILITY_RANK| && CAPABILITY_RANK[rank] == c
  {
    match c
    case READ => 0
    case INSERT => 1
    case UPDATE => 2
    case DELETE => 3
    case DDL => 4
    case DROP => 5
    case ADMIN => 6
  }

  const EXPRESSION_CAPABILITY: map<string, Capability> := map[
    "Select" := READ, "Union" := READ, "Intersect" := READ, "Except" := READ, "Subquery" := READ,
    "With" := READ, "Describe" := READ, "Show" := READ, "Pragma" := READ,
    "Insert" := INSERT, "Update" := UPDATE, "Delete" := DELETE, "Merge" := UPDATE,
    "Create" := DDL, "Alter" := DDL, "AlterTable" := DDL, "Comment" := DDL,
    "Drop" := DROP, "TruncateTable" := DROP,
    "Grant" := ADMIN, "Revoke" := ADMIN, "Set" := ADMIN,
    "Transaction" := ADMIN, "Commit" := ADMIN, "Rollback" := ADMIN]

  const INTROSPECTION_PRAGMAS := {
    "collation_list", "compile_options", "database_list", "foreign_key_check", "foreign_key_list",
    "function_list", "index_info", "index_list", "index_xinfo", "integrity_check", "module_list",
    "pragma_list", "quick_check", "table_info", "table_list", "table_xinfo"}

  const ACTION_PRAGMAS := {"incremental_vacuum", "optimize", "shrink_memory", "wal_checkpoint"}

  // ----- Parsed statements -----

  /** One node of a parsed statement: its class name, the `style` and `name` it carries,
      the child under `this`, whether it has a `WHERE`, and its other children. */
  datatype Node = Node(kind: string, style: string, name: string, hasWhere: bool, this_: Option<Node>,
                       others: seq<Node>)

  function Children(node: Node): seq<Node> {
    (if node.this_.Some? then [node.this_.value] else []) + node.others
  }

  /** Every node below `node`. */
  ghost function Below(node: Node): set<Node> {
    (if node.this_.Some? then {node.this_.value} + Below(node.this_.value) else {}) +
    (set i | 0 <= i < |node.others| :: node.others[i]) +
    (set i, n | 0 <= i < |node.others| && n in Below(node.others[i]) :: n)
  }

  ghost function InAll(nodes: seq<Node>): set<Node> {
    (set i | 0 <= i < |nodes| :: nodes[i]) + (set i, n | 0 <= i < |nodes| && n in Below(nodes[i]) :: n)
  }

  ghost function Count(node: Node): nat
    decreases node, 1
  {
    1 + (if node.this_.Some? then Count(node.this_.value) else 0) + CountPrefix(node, |node.others|)
  }

  ghost function CountPrefix(node: Node, n: nat): nat
    requires n <= |node.others|
    decreases node, 0, n
  {
    if n == 0 then 0 else CountPrefix(node, n - 1) + Count(node.others[n - 1])
  }

  ghost function CountAll(nodes: seq<Node>): nat {
    if nodes == [] then 0 else CountAll(nodes[..|nodes| - 1]) + Count(nodes[|nodes| - 1])
  }

  lemma {:induction false} CountAppended(nodes: seq<Node>, more: seq<Node>)
    ensures CountAll(nodes + more) == CountAll(nodes) + CountAll(more)
    decreases |more|
  {
    if more == [] {
      assert nodes + more == nodes;
    } else {
      CountAppended(nodes, more[..|more| - 1]);
      assert (nodes + more)[..|nodes + more| - 1] == nodes + more[..|more| - 1];
    }
  }

  lemma {:induction false} CountOthers(node: Node, n: nat)
    requires n <= |node.others|
    ensures CountAll(node.others[..n]) == CountPrefix(node, n)
    decreases n
  {
    if n == 0 {
    } else {
      CountOthers(node, n - 1);
      assert node.others[..n][..n - 1] == node.others[..n - 1];
    }
  }

  lemma {:induction false} CountChildren(node: Node)
    ensures CountAll(Children(node)) + 1 == Count(node)
  {
    CountOthers(node, |node.others|);
    assert node.others[..|node.others|] == node.others;
    if node.this_.Some? {
      CountAppended([node.this_.value], node.others);
      assert [node.this_.value][..0] == [];
    } else {
      assert Children(node) == node.others;
    }
  }

  lemma {:induction false} InAllChildren(node: Node)
    ensures InAll(Children(node)) == Below(node)
  {
    if node.this_.Some? {
      InAllAppended([node.this_.value], node.others);
      InAllOne(node.this_.value);
    } else {
      assert Children(node) == node.others;
    }
  }

  lemma {:induction false} InAllOne(node: Node)
    ensures InAll([node]) == {node} + Below(node)
  {
    assert [node][0] == node;
  }

  lemma InAllAppended(nodes: seq<Node>, more: seq<Node>)
    ensures InAll(nodes + more) == InAll(nodes) + InAll(more)
  {
    var all := nodes + more;
    assert forall i :: 0 <= i < |nodes| ==> all[i] == nodes[i];
    assert forall i :: 0 <= i < |more| ==> all[|nodes| + i] == more[i];
    forall n | n in InAll(nodes) + InAll(more) ensures n in InAll(all) {
    }
  }

  lemma TakeOne(nodes: seq<Node>, i: nat)
    requires i < |nodes|
    ensures var rest := nodes[..i] + nodes[i + 1..];
      && CountAll(nodes) == CountAll(rest) + Count(nodes[i])
      && InAll(nodes) == InAll(rest) + {nodes[i]} + Below(nodes[i])
  {
    var node := [nodes[i]];
    assert node[..0] == [];
    assert nodes == (nodes[..i] + node) + nodes[i + 1..];
    CountAppended(nodes[..i] + node, nodes[i + 1..]);
    CountAppended(nodes[..i], node);
    CountAppended(nodes[..i], nodes[i + 1..]);
    InAllAppended(nodes[..i] + node, nodes[i + 1..]);
    InAllAppended(nodes[..i], node);
    InAllAppended(nodes[..i], nodes[i + 1..]);
    InAllOne(nodes[i]);
  }

  /** Replacing a node by its children leaves it visited and one node fewer to visit. */
  lemma OpenOne(nodes: seq<Node>, i: nat)
    requires i < |nodes|
    ensures var next := nodes[..i] + nodes[i + 1..] + Children(nodes[i]);
      && CountAll(next) < CountAll(nodes)
      && InAll(nodes) == InAll(next) + {nodes[i]}
  {
    TakeOne(nodes, i);
    CountChildren(nodes[i]);
    InAllChildren(nodes[i]);
    CountAppended(nodes[..i] + nodes[i + 1..], Children(nodes[i]));
    InAllAppended(nodes[..i] + nodes[i + 1..], Children(nodes[i]));
  }

  // ----- Classification -----

  function Mapped(kind: string): Option<Capability> {
    if kind in EXPRESSION_CAPABILITY then Some(EXPRESSION_CAPABILITY[kind]) else None
  }

  /** What the root says of itself: an unknown statement needs the most. */
  function RootCapability(node: Node): Capability {
    if Mapped(node.kind).Some? then Mapped(node.kind).value else ADMIN
  }

  function PragmaCapability(expression: Node): Capability {
    var target := expression.this_;
    var bare := target.Some? && target.value.kind == "Var";
    var named := if bare || target.None? then target else target.value.this_;
    var name := if named.Some? then Lower(named.value.name) else "";
    if name in INTROSPECTION_PRAGMAS then READ
    else if bare && name != "" && name !in ACTION_PRAGMAS then READ
    else ADMIN
  }

  /** The statement an `EXPLAIN ANALYZE` executes, and every other statement itself. */
  function Executed(expression: Node): Node {
    if expression.kind == "Describe" && Upper(expression.style) == "ANALYZE" && expression.this_.Some?
    then Executed(expression.this_.value)
    else expression
  }

  /** `capability` comes from `decisive`, and nothing in the statement ranks higher. */
  ghost predicate HighestIn(root: Node, nodes: set<Node>, capability: Capability, decisive: Node) {
    && Rank(RootCapability(root)) <= Rank(capability)
    && (forall n :: n in nodes && Mapped(n.kind).Some? ==> Rank(Mapped(n.kind).value) <= Rank(capability))
    && ((decisive == root && capability == RootCapability(root)) ||
        (decisive in nodes && Mapped(decisive.kind) == Some(capability)))
  }

  ghost predicate Classified(expression: Node, capability: Capability, decisive: Node) {
    var executed := Executed(expression);
    if executed.kind == "Pragma" then capability == PragmaCapability(executed) && decisive == executed
    else if executed.kind == "Describe" then capability == READ && decisive == executed
    else HighestIn(executed, Below(executed), capability, decisive)
  }

  /** The walk may take the nodes in any order that reaches a child after its parent. */
  method Classify(expression: Node) returns (capability: Capability, decisive: Node)
    ensures Classified(expression, capability, decisive)
  {
    if expression.kind == "Pragma" {
      return PragmaCapability(expression), expression;
    }
    if expression.kind == "Describe" {
      if Upper(expression.style) != "ANALYZE" || expression.this_.None? {
        return READ, expression;
      }
      capability, decisive := Classify(expression.this_.value);
      return;
    }
    capability, decisive := RootCapability(expression), expression;
    ghost var seen: set<Node> := {};
    var pending := Children(expression);
    InAllChildren(expression);
    while pending != []
      invariant seen + InAll(pending) == Below(expression)
      invariant HighestIn(expression, seen, capability, decisive)
      decreases CountAll(pending)
    {
      var i :| 0 <= i < |pending|;
      var node := pending[i];
      OpenOne(pending, i);
      pending := pending[..i] + pending[i + 1..] + Children(node);
      seen := seen + {node};
      var found := Mapped(node.kind);
      if found.Some? && found.value != READ && Rank(found.value) > Rank(capability) {
        capability, decisive := found.value, node;
      }
    }
  }

  /** The walk order cannot change the capability. */
  lemma ClassificationIsUnique(expression: Node, a: Capability, b: Capability, p: Node, q: Node)
    requires Classified(expression, a, p) && Classified(expression, b, q)
    ensures a == b
  {
    assert Rank(a) == Rank(b);
    assert CAPABILITY_RANK[Rank(a)] == CAPABILITY_RANK[Rank(b)];
  }

  // ----- What the two early returns leave through -----

  /** An introspection pragma, bare or with an argument. */
  predicate Introspects(pragma: Node) {
    pragma.this_.Some? && var target := pragma.this_.value;
    || (target.kind == "Var" && Lower(target.name) in INTROSPECTION_PRAGMAS)
    || (target.kind != "Var" && target.this_.Some? && Lower(target.this_.value.name) in INTROSPECTION_PRAGMAS)
  }

  /** A bare setting, which is read, and not one of the pragmas that act when bare. */
  predicate ReadsSetting(pragma: Node) {
    && pragma.this_.Some? && pragma.this_.value.kind == "Var" && pragma.this_.value.name != ""
    && Lower(pragma.this_.value.name) !in ACTION_PRAGMAS
  }

  /** A pragma needs no more than `READ` exactly when it is one of those two: an assignment or
      a call of anything else, an action and one without a name need `ADMIN`. */
  lemma PragmaIsReadExactly(pragma: Node)
    ensures PragmaCapability(pragma) == if Introspects(pragma) || ReadsSetting(pragma) then READ else ADMIN
  {
    NoNameIntrospects();
  }

  lemma NoNameIntrospects()
    ensures "" !in INTROSPECTION_PRAGMAS
  {
    assert forall name :: name in INTROSPECTION_PRAGMAS ==> |name| >= 10;
  }

  /** What an assigning pragma is classified as, whatever it assigns. */
  lemma {:induction false} AssigningPragmaIsAdmin(expression: Node, c: Capability, decisive: Node)
    requires expression.kind == "Pragma" && expression.this_.Some? && expression.this_.value.kind != "Var"
    requires expression.this_.value.this_.Some? ==>
               Lower(expression.this_.value.this_.value.name) !in INTROSPECTION_PRAGMAS
    requires Classified(expression, c, decisive)
    ensures c == ADMIN
  {
    PragmaIsReadExactly(expression);
  }

  /** `EXPLAIN ANALYZE` executes what it explains, and is classified as that; any other
      explanation plans only, and reads whatever it explains. */
  lemma {:induction false} ExplanationIsClassified(expression: Node, c: Capability, decisive: Node)
    requires expression.kind == "Describe"
    ensures Classified(expression, c, decisive) <==>
            if Upper(expression.style) == "ANALYZE" && expression.this_.Some?
            then Classified(expression.this_.value, c, decisive)
            else c == READ && decisive == expression
  {
  }

  // ----- Policy -----

  datatype Statement = Statement(sql: string, capability: Capability, tables: seq<string>, hasWhere: bool)

  /** What `analyze_sql` records of one parsed statement. */
  ghost predicate Describes(statement: Statement, expression: Node) {
    exists decisive :: Classified(expression, statement.capability, decisive) && statement.hasWhere == decisive.hasWhere
  }

  datatype Policy = Policy(
    capabilities: set<Capability>, allowedTables: set<string>, deniedTables: set<string>,
    maxRows: nat, maxStatements: nat, requireWhere: bool)
  {
    predicate ReadOnly() {
      capabilities * MUTATING == {}
    }

    predicate TableAllowed(table: string) {
      var name := Lower(table);
      if exists item :: item in deniedTables && Lower(item) == name then false
      else if allowedTables == {} then true
      else exists item :: item in allowedTables && Lower(item) == name
    }
  }

  datatype Refusal =
    | TooManyStatements(submitted: nat, allowed: nat)
    | CapabilityRefused(capability: Capability)
    | TableRefused(table: string)
    | MissingWhere(capability: Capability)

  predicate NeedsWhere(s: Statement, policy: Policy) {
    policy.requireWhere && s.capability in {UPDATE, DELETE} && !s.hasWhere
  }

  /** The statement breaks no rule. */
  predicate Permitted(s: Statement, policy: Policy) {
    && s.capability in policy.capabilities
    && (forall table :: table in s.tables ==> policy.TableAllowed(table))
    && !NeedsWhere(s, policy)
  }

  /** `reason` is the bluntest objection to the statement: capability, then the first table
      that is refused, then the missing `WHERE`. */
  ghost predicate Objection(s: Statement, policy: Policy, reason: Refusal) {
    match reason
    case CapabilityRefused(c) => c == s.capability && c !in policy.capabilities
    case TableRefused(table) =>
      && s.capability in policy.capabilities
      && exists i :: 0 <= i < |s.tables| && s.tables[i] == table && !policy.TableAllowed(table) &&
                     forall j :: 0 <= j < i ==> policy.TableAllowed(s.tables[j])
    case MissingWhere(c) =>
      && c == s.capability && c in policy.capabilities && NeedsWhere(s, policy)
      && forall table :: table in s.tables ==> policy.TableAllowed(table)
    case TooManyStatements(_, _) => false
  }

  ghost predicate ObjectionAt(statements: seq<Statement>, policy: Policy, i: nat, reason: Refusal)
    requires i < |statements|
  {
    Objection(statements[i], policy, reason) && forall j :: 0 <= j < i ==> Permitted(statements[j], policy)
  }

  /** Why a submission is refused: its length, or else its first statement that breaks a rule. */
  ghost predicate Refuses(statements: seq<Statement>, policy: Policy, reason: Refusal) {
    if |statements| > policy.maxStatements
    then reason == TooManyStatements(|statements|, policy.maxStatements)
    else exists i :: 0 <= i < |statements| && ObjectionAt(statements, policy, i, reason)
  }

  lemma ObjectionIsUnique(s: Statement, policy: Policy, a: Refusal, b: Refusal)
    requires Objection(s, policy, a) && Objection(s, policy, b)
    ensures a == b && !Permitted(s, policy)
  {
    if a.TableRefused? && b.TableRefused? {
      var i :| 0 <= i < |s.tables| && s.tables[i] == a.table && !policy.TableAllowed(a.table) &&
        forall j :: 0 <= j < i ==> policy.TableAllowed(s.tables[j]);
      var k :| 0 <= k < |s.tables| && s.tables[k] == b.table && !policy.TableAllowed(b.table) &&
        forall j :: 0 <= j < k ==> policy.TableAllowed(s.tables[j]);
      assert i == k;
    }
  }

  /** A submission is refused for one reason at most, and for one exactly when it is not
      accepted. */
  lemma RefusalIsUnique(statements: seq<Statement>, policy: Policy, a: Refusal, b: Refusal)
    requires Refuses(statements, policy, a) && Refuses(statements, policy, b)
    ensures a == b && !Accepts(statements, policy)
  {
    if |statements| <= policy.maxStatements {
      var i :| 0 <= i < |statements| && ObjectionAt(statements, policy, i, a);
      var k :| 0 <= k < |statements| && ObjectionAt(statements, policy, k, b);
      ObjectionIsUnique(statements[i], policy, a, a);
      ObjectionIsUnique(statements[k], policy, b, b);
      assert i == k;
      ObjectionIsUnique(statements[i], policy, a, b);
    }
  }

  method CheckPolicy(statements: seq<Statement>, policy: Policy) returns (refusal: Option<Refusal>)
    ensures refusal.None? <==> Accepts(statements, policy)
    ensures refusal.Some? ==> Refuses(statements, policy, refusal.value)
  {
    if |statements| > policy.maxStatements {
      return Some(TooManyStatements(|statements|, policy.maxStatements));
    }
    for i := 0 to |statements|
      invariant forall j :: 0 <= j < i ==> Permitted(statements[j], policy)
    {
      var s := statements[i];
      if s.capability !in policy.capabilities {
        assert ObjectionAt(statements, policy, i, CapabilityRefused(s.capability));
        return Some(CapabilityRefused(s.capability));
      }
      for k := 0 to |s.tables|
        invariant forall j :: 0 <= j < k ==> policy.TableAllowed(s.tables[j])
      {
        if !policy.TableAllowed(s.tables[k]) {
          assert ObjectionAt(statements, policy, i, TableRefused(s.tables[k]));
          return Some(TableRefused(s.tables[k]));
        }
      }
      if NeedsWhere(s, policy) {
        assert ObjectionAt(statements, policy, i, MissingWhere(s.capability));
        return Some(MissingWhere(s.capability));
      }
    }
    refusal := None;
  }

  predicate Accepts(statements: seq<Statement>, policy: Policy) {
    |statements| <= policy.maxStatements && forall i :: 0 <= i < |statements| ==> Permitted(statements[i], policy)
  }

  /** A statement that is accepted under a read-only policy writes nothing the analyser
      knows of: no node of what it executes is a writing one, and the exceptions to the walk
      are an explanation that only plans and a pragma that only reports. */
  lemma ReadOnlyAcceptsNoWrites(statements: seq<Statement>, expressions: seq<Node>, policy: Policy, i: nat)
    requires Accepts(statements, policy) && policy.ReadOnly() && i < |statements| == |expressions|
    requires Describes(statements[i], expressions[i])
    ensures var executed := Executed(expressions[i]);
      if executed.kind == "Pragma" then Introspects(executed) || ReadsSetting(executed)
      else if executed.kind == "Describe" then Upper(executed.style) != "ANALYZE" || executed.this_.None?
      else Mapped(executed.kind) == Some(READ) &&
           forall n :: n in Below(executed) ==> Mapped(n.kind) in {None, Some(READ)}
  {
    var capability := statements[i].capability;
    assert capability == READ by {
      assert capability in policy.capabilities;
      assert capability !in policy.capabilities * MUTATING;
    }
    var executed := Executed(expressions[i]);
    ExecutedIsPlain(expressions[i]);
    PragmaIsReadExactly(executed);
    forall c | Rank(c) <= Rank(READ) ensures c == READ {
      assert CAPABILITY_RANK[Rank(c)] == c;
    }
  }

  lemma {:induction false} ExecutedIsPlain(expression: Node)
    ensures var e := Executed(expression); e.kind == "Describe" ==> Upper(e.style) != "ANALYZE" || e.this_.None?
  {
    if expression.kind == "Describe" && Upper(expression.style) == "ANALYZE" && expression.this_.Some? {
      ExecutedIsPlain(expression.this_.value);
    }
  }

  ghost predicate DownwardClosed(policy: Policy) {
    forall c, d :: c in policy.capabilities && Rank(d) <= Rank(c) ==> d in policy.capabilities
  }

  /** A mapped node of a statement that the walk goes through. */
  ghost predicate HasNode(expression: Node, n: Node) {
    var executed := Executed(expression);
    executed.kind !in {"Pragma", "Describe"} && n in {executed} + Below(executed) && Mapped(n.kind).Some?
  }

  lemma OneStatement(statement: Statement, policy: Policy)
    ensures Accepts([statement], policy) <==> policy.maxStatements >= 1 && Permitted(statement, policy)
  {
    assert [statement][0] == statement;
  }

  /** Whatever an accepted statement contains has been granted. */
  ghost predicate GrantsAll(policy: Policy) {
    forall statement, expression, n ::
      Accepts([statement], policy) && Describes(statement, expression) && HasNode(expression, n) ==>
      Mapped(n.kind).value in policy.capabilities
  }

  /** A policy that grants everything below each capability it grants has granted every
      capability an accepted list of statements contains. */
  lemma DownwardClosedGrantsAll(statements: seq<Statement>, expressions: seq<Node>, policy: Policy, i: nat, n: Node)
    requires Accepts(statements, policy) && i < |statements| == |expressions|
    requires DownwardClosed(policy)
    requires Describes(statements[i], expressions[i]) && HasNode(expressions[i], n)
    ensures Mapped(n.kind).value in policy.capabilities
  {
    assert statements[i].capability in policy.capabilities;
  }

  /** A statement of each capability. */
  function KindOf(c: Capability): (kind: string)
    ensures Mapped(kind) == Some(c) && kind !in {"Pragma", "Describe"}
  {
    match c
    case READ => "Select"
    case INSERT => "Insert"
    case UPDATE => "Update"
    case DELETE => "Delete"
    case DDL => "Create"
    case DROP => "Drop"
    case ADMIN => "Set"
  }

  function Plain(c: Capability, where: bool): Node {
    Node(KindOf(c), "", "", where, None, [])
  }

  /** A statement with a common table expression: its own part has a `WHERE`, and the
      expression's has one or not. */
  function Around(outer: Capability, inner: Capability, where: bool): Node {
    var cte := Node("CTE", "", "", false, Some(Plain(inner, where)), []);
    Node(KindOf(outer), "", "", true, None, [Node("With", "", "", false, None, [cte])])
  }

  const SOME_SQL := "WITH part AS (...) ..."

  /** No node of the tree ranks above `c`. */
  ghost predicate NothingAbove(node: Node, c: Capability) {
    && (Mapped(node.kind).Some? ==> Rank(Mapped(node.kind).value) <= Rank(c))
    && (node.this_.Some? ==> NothingAbove(node.this_.value, c))
    && forall i :: 0 <= i < |node.others| ==> NothingAbove(node.others[i], c)
  }

  lemma {:induction false} NothingAboveBelow(node: Node, c: Capability, n: Node)
    requires NothingAbove(node, c) && n in Below(node)
    ensures Mapped(n.kind).Some? ==> Rank(Mapped(n.kind).value) <= Rank(c)
    decreases node
  {
    if node.this_.Some? && n in {node.this_.value} + Below(node.this_.value) {
      if n in Below(node.this_.value) {
        NothingAboveBelow(node.this_.value, c, n);
      }
    } else {
      var i :| 0 <= i < |node.others| && (n == node.others[i] || n in Below(node.others[i]));
      if n in Below(node.others[i]) {
        NothingAboveBelow(node.others[i], c, n);
      }
    }
  }

  lemma {:induction false} RootIsDecisive(expression: Node, c: Capability)
    requires expression.kind !in {"Pragma", "Describe"} && Mapped(expression.kind) == Some(c) &&
             NothingAbove(expression, c)
    ensures Classified(expression, c, expression)
  {
    forall n | n in Below(expression) && Mapped(n.kind).Some? ensures Rank(Mapped(n.kind).value) <= Rank(c) {
      NothingAboveBelow(expression, c, n);
    }
  }

  lemma TableIsUnmapped()
    ensures Mapped("Table").None?
  {
    assert forall k :: k in EXPRESSION_CAPABILITY && |k| == 5 ==> k[0] != 'T';
  }

  lemma WhereIsUnmapped()
    ensures Mapped("Where").None?
  {
    assert forall k :: k in EXPRESSION_CAPABILITY && |k| == 5 ==> k[0] != 'W';
  }

  lemma CteIsUnmapped()
    ensures Mapped("CTE").None?
  {
    assert forall k :: k in EXPRESSION_CAPABILITY && |k| == 3 ==> k[0] == 'S';
  }

  lemma {:induction false} ThisIsBelow(node: Node)
    requires node.this_.Some?
    ensures node.this_.value in Below(node) && Below(node.this_.value) <= Below(node)
  {
  }

  lemma {:induction false} OtherIsBelow(node: Node, i: nat)
    requires i < |node.others|
    ensures node.others[i] in Below(node) && Below(node.others[i]) <= Below(node)
  {
  }

  lemma {:induction false} AroundRanksBelow(outer: Capability, inner: Capability, where: bool)
    requires Rank(inner) <= Rank(outer)
    ensures NothingAbove(Around(outer, inner, where), outer)
  {
    var part := Around(outer, inner, where).others[0];
    var cte := part.others[0];
    CteIsUnmapped();
    assert NothingAbove(cte.this_.value, outer);
    assert NothingAbove(cte, outer);
    assert NothingAbove(part, outer);
  }

  lemma {:induction false} AroundIsOuter(outer: Capability, inner: Capability, where: bool)
    requires Rank(inner) <= Rank(outer)
    ensures Describes(Statement(SOME_SQL, outer, [], true), Around(outer, inner, where))
    ensures HasNode(Around(outer, inner, where), Plain(inner, where))
  {
    var expression := Around(outer, inner, where);
    AroundRanksBelow(outer, inner, where);
    RootIsDecisive(expression, outer);
    OtherIsBelow(expression, 0);
    OtherIsBelow(expression.others[0], 0);
    ThisIsBelow(expression.others[0].others[0]);
  }

  lemma {:induction false} AroundIsAccepted(policy: Policy, outer: Capability, inner: Capability, where: bool)
    requires policy.maxStatements > 0 && outer in policy.capabilities && Rank(inner) <= Rank(outer)
    ensures var statement, expression := Statement(SOME_SQL, outer, [], true), Around(outer, inner, where);
      && Accepts([statement], policy) && Describes(statement, expression)
      && HasNode(expression, Plain(inner, where))
  {
    AroundIsOuter(outer, inner, where);
    OneStatement(Statement(SOME_SQL, outer, [], true), policy);
  }

  lemma {:induction false} Ungranted(policy: Policy, statement: Statement, expression: Node, n: Node)
    requires Accepts([statement], policy) && Describes(statement, expression) && HasNode(expression, n)
    requires Mapped(n.kind).value !in policy.capabilities
    ensures !GrantsAll(policy)
    ensures NestsQueries(Executed(expression)) ==> !GrantsAllNested(policy)
  {
  }

  /** A policy has granted all that the statements it accepts contain exactly when it is
      closed downwards. It is a set and need not be. */
  lemma {:induction false} GrantsAllExactlyWhenDownwardClosed(policy: Policy)
    requires policy.maxStatements > 0
    ensures GrantsAll(policy) <==> DownwardClosed(policy)
  {
    if DownwardClosed(policy) {
      forall statement, expression, n |
        Accepts([statement], policy) && Describes(statement, expression) && HasNode(expression, n)
        ensures Mapped(n.kind).value in policy.capabilities
      {
        DownwardClosedGrantsAll([statement], [expression], policy, 0, n);
      }
    } else {
      var c, d :| c in policy.capabilities && Rank(d) <= Rank(c) && d !in policy.capabilities;
      AroundIsAccepted(policy, c, d, true);
      Ungranted(policy, Statement(SOME_SQL, c, [], true), Around(c, d, true), Plain(d, true));
    }
  }

  // A `DELETE` with a `WHERE`, around a write in a common table expression.

  function Leaf(kind: string, name: string): Node {
    Node(kind, "", name, false, None, [])
  }

  /** A write to a whole table. */
  function BareWrite(c: Capability, table: string): Node {
    Node(KindOf(c), "", "", false, Some(Leaf("Table", table)), [])
  }

  function PartOf(inner: Node): Node {
    Node("With", "", "", false, None, [Node("CTE", "", "part", false, Some(inner), [])])
  }

  function DeleteAround(inner: Node): Node {
    Node(KindOf(DELETE), "", "", true, Some(Leaf("Table", "orders")), [PartOf(inner), Leaf("Where", "")])
  }

  lemma {:induction false} PartRanksBelow(c: Capability, table: string)
    requires Rank(c) <= Rank(DELETE)
    ensures NothingAbove(PartOf(BareWrite(c, table)), DELETE)
  {
    TableIsUnmapped();
    CteIsUnmapped();
    var cte := PartOf(BareWrite(c, table)).others[0];
    assert NothingAbove(Leaf("Table", table), DELETE);
    assert NothingAbove(cte.this_.value, DELETE);
    assert NothingAbove(cte, DELETE);
  }

  lemma {:induction false} DeleteIsDecisive(sql: string, c: Capability, table: string)
    requires Rank(c) <= Rank(DELETE)
    ensures Describes(Statement(sql, DELETE, [table, "orders"], true), DeleteAround(BareWrite(c, table)))
  {
    var expression := DeleteAround(BareWrite(c, table));
    PartRanksBelow(c, table);
    TableIsUnmapped();
    WhereIsUnmapped();
    assert NothingAbove(Leaf("Table", "orders"), DELETE) && NothingAbove(Leaf("Where", ""), DELETE);
    assert NothingAbove(expression, DELETE);
    RootIsDecisive(expression, DELETE);
  }

  lemma {:induction false} DeleteContainsWrite(inner: Node)
    requires Mapped(inner.kind).Some?
    ensures HasNode(DeleteAround(inner), inner)
  {
    OtherIsBelow(DeleteAround(inner), 0);
    OtherIsBelow(PartOf(inner), 0);
    ThisIsBelow(PartOf(inner).others[0]);
  }

  lemma {:induction false} DeleteIsAccepted(sql: string, c: Capability, table: string, policy: Policy)
    requires Rank(c) <= Rank(DELETE) && DELETE in policy.capabilities && policy.maxStatements > 0
    requires policy.allowedTables == {} && policy.deniedTables == {}
    ensures var statement, inner := Statement(sql, DELETE, [table, "orders"], true), BareWrite(c, table);
      && Describes(statement, DeleteAround(inner)) && Accepts([statement], policy)
      && HasNode(DeleteAround(inner), inner) && !inner.hasWhere
  {
    DeleteIsDecisive(sql, c, table);
    DeleteContainsWrite(BareWrite(c, table));
    OneStatement(Statement(sql, DELETE, [table, "orders"], true), policy);
  }

  const INSERTING_SQL :=
    "WITH part AS (INSERT INTO audit (id) VALUES (1) RETURNING id) DELETE FROM orders WHERE id = 1"

  const INSERTING_STATEMENT := Statement(INSERTING_SQL, DELETE, ["audit", "orders"], true)

  /** A policy that grants only `DELETE` accepts it. */
  lemma {:induction false} DeleteThatInsertsIsAccepted(maxRows: nat, maxStatements: nat, requireWhere: bool)
    requires maxStatements > 0
    ensures var policy, inner := Policy({DELETE}, {}, {}, maxRows, maxStatements, requireWhere),
            BareWrite(INSERT, "audit");
      && Describes(INSERTING_STATEMENT, DeleteAround(inner)) && Accepts([INSERTING_STATEMENT], policy)
      && HasNode(DeleteAround(inner), inner) && Mapped(inner.kind).value !in policy.capabilities
  {
    DeleteIsAccepted(INSERTING_SQL, INSERT, "audit",
                     Policy({DELETE}, {}, {}, maxRows, maxStatements, requireWhere));
  }

  // ----- The missing `WHERE` -----

  predicate IsWrite(n: Node) {
    Mapped(n.kind) in {Some(UPDATE), Some(DELETE)}
  }

  /** Every `UPDATE` and `DELETE` in a statement the policy accepts has a `WHERE`. */
  ghost predicate GuardsWrites(policy: Policy) {
    forall statement, expression, n ::
      Accepts([statement], policy) && Describes(statement, expression) && HasNode(expression, n) && IsWrite(n) ==>
      n.hasWhere
  }

  lemma {:induction false} Unguarded(policy: Policy, statement: Statement, expression: Node, n: Node)
    requires Accepts([statement], policy) && Describes(statement, expression) && HasNode(expression, n)
    requires IsWrite(n) && !n.hasWhere
    ensures !GuardsWrites(policy)
    ensures NestsQueries(Executed(expression)) ==> !GuardsNestedWrites(policy)
  {
  }

  lemma WritesNeedMore(statement: Statement, expression: Node, n: Node)
    requires Describes(statement, expression) && HasNode(expression, n) && IsWrite(n)
    ensures statement.capability !in {READ, INSERT}
  {
    assert Rank(Mapped(n.kind).value) <= Rank(statement.capability);
  }

  /** The rule looks at the decisive node only, so it holds of every write exactly for the
      policies under which there are none: an `UPDATE` with a `WHERE` hides one without. */
  lemma {:induction false} WritesAreGuardedExactlyWhenNoneIsGranted(policy: Policy)
    requires policy.maxStatements > 0
    ensures GuardsWrites(policy) <==> policy.capabilities <= {READ, INSERT}
  {
    if policy.capabilities <= {READ, INSERT} {
      forall statement, expression, n | Describes(statement, expression) && HasNode(expression, n) && IsWrite(n)
        ensures !Accepts([statement], policy)
      {
        OneStatement(statement, policy);
        WritesNeedMore(statement, expression, n);
      }
    } else {
      var c :| c in policy.capabilities && c !in {READ, INSERT};
      HiddenWrite(policy, c);
    }
  }

  lemma {:induction false} HiddenWrite(policy: Policy, c: Capability)
    requires policy.maxStatements > 0 && c in policy.capabilities && c !in {READ, INSERT}
    ensures !GuardsWrites(policy)
    ensures c != DROP ==> !GuardsNestedWrites(policy)
  {
    if c != DROP {
      AroundNestsQueries(c, UPDATE, false);
    }
    AroundIsAccepted(policy, c, UPDATE, false);
    assert IsWrite(Plain(UPDATE, false));
    Unguarded(policy, Statement(SOME_SQL, c, [], true), Around(c, UPDATE, false), Plain(UPDATE, false));
  }

  const UPDATING_SQL := "WITH part AS (UPDATE stock SET held = 0 RETURNING id) DELETE FROM orders WHERE id = 1"

  const UPDATING_STATEMENT := Statement(UPDATING_SQL, DELETE, ["stock", "orders"], true)

  /** A policy that requires a `WHERE` accepts an `UPDATE` of a whole table inside it. */
  lemma {:induction false} DeleteThatUpdatesIsAccepted(maxRows: nat, maxStatements: nat)
    requires maxStatements > 0
    ensures var policy, inner := Policy({READ, INSERT, UPDATE, DELETE}, {}, {}, maxRows, maxStatements, true),
            BareWrite(UPDATE, "stock");
      && Describes(UPDATING_STATEMENT, DeleteAround(inner)) && Accepts([UPDATING_STATEMENT], policy)
      && HasNode(DeleteAround(inner), inner) && IsWrite(inner) && !inner.hasWhere
  {
    DeleteIsAccepted(UPDATING_SQL, UPDATE, "stock",
                     Policy({READ, INSERT, UPDATE, DELETE}, {}, {}, maxRows, maxStatements, true));
  }

  // ----- The same where only queries are nested -----

  const QUERY_KINDS := {
    "Select", "Union", "Intersect", "Except", "Subquery", "With", "Insert", "Update", "Delete", "Merge"}

  /** What is nested is part of a query, and in a statement that can hold one. */
  ghost predicate NestsQueries(root: Node) {
    forall n :: n in Below(root) && Mapped(n.kind).Some? ==>
      n.kind in QUERY_KINDS && (Mapped(root.kind).Some? ==> root.kind in QUERY_KINDS + {"Create", "Set"})
  }

  lemma QueryCapability(kind: string)
    ensures kind in QUERY_KINDS ==> Mapped(kind).Some? && Rank(Mapped(kind).value) <= Rank(DELETE)
    ensures kind in QUERY_KINDS + {"Create", "Set"} ==> Mapped(kind).Some? && Mapped(kind).value != DROP
  {
  }

  /** What a statement of one capability can then contain: nothing below a `DROP`, and a query
      below the others. */
  predicate CanContain(c: Capability, d: Capability) {
    d == c || (c != DROP && Rank(d) <= Rank(c) && Rank(d) <= Rank(DELETE))
  }

  ghost predicate GrantsAllNested(policy: Policy) {
    forall statement, expression, n ::
      (&& Accepts([statement], policy) && Describes(statement, expression) && HasNode(expression, n)
       && NestsQueries(Executed(expression))) ==>
      Mapped(n.kind).value in policy.capabilities
  }

  ghost predicate GuardsNestedWrites(policy: Policy) {
    forall statement, expression, n ::
      (&& Accepts([statement], policy) && Describes(statement, expression) && HasNode(expression, n)
       && NestsQueries(Executed(expression)) && IsWrite(n)) ==>
      n.hasWhere
  }

  lemma {:induction false} ContainedInNest(statement: Statement, expression: Node, n: Node)
    requires Describes(statement, expression) && HasNode(expression, n) && NestsQueries(Executed(expression))
    ensures CanContain(statement.capability, Mapped(n.kind).value)
  {
    var root := Executed(expression);
    var decisive :| Classified(expression, statement.capability, decisive) && statement.hasWhere == decisive.hasWhere;
    QueryCapability(root.kind);
    QueryCapability(decisive.kind);
    QueryCapability(n.kind);
  }

  /** Of such statements, a policy has granted all they contain exactly when it grants, with
      each capability but `DROP`, the ones of a query that rank below it. */
  lemma {:induction false} NestsAreGrantedExactlyWhenContained(policy: Policy)
    requires policy.maxStatements > 0
    ensures GrantsAllNested(policy) <==>
            forall c, d :: c in policy.capabilities && CanContain(c, d) ==> d in policy.capabilities
  {
    if forall c, d :: c in policy.capabilities && CanContain(c, d) ==> d in policy.capabilities {
      forall statement, expression, n |
        Accepts([statement], policy) && Describes(statement, expression) && HasNode(expression, n) &&
        NestsQueries(Executed(expression))
        ensures Mapped(n.kind).value in policy.capabilities
      {
        OneStatement(statement, policy);
        ContainedInNest(statement, expression, n);
      }
    } else {
      var c, d :| c in policy.capabilities && CanContain(c, d) && d !in policy.capabilities;
      UngrantedInNest(policy, c, d);
    }
  }

  lemma {:induction false} UngrantedInNest(policy: Policy, c: Capability, d: Capability)
    requires policy.maxStatements > 0 && c in policy.capabilities && CanContain(c, d) && d !in policy.capabilities
    ensures !GrantsAllNested(policy)
  {
    AroundIsAccepted(policy, c, d, true);
    AroundNestsQueries(c, d, true);
    Ungranted(policy, Statement(SOME_SQL, c, [], true), Around(c, d, true), Plain(d, true));
  }

  lemma {:induction false} AroundNestsQueries(outer: Capability, inner: Capability, where: bool)
    requires outer != DROP && Rank(inner) <= Rank(DELETE)
    ensures NestsQueries(Executed(Around(outer, inner, where)))
  {
    KindsOfQueries(outer);
    KindsOfQueries(inner);
    AroundBelow(outer, inner, where);
    CteIsUnmapped();
  }

  lemma KindsOfQueries(c: Capability)
    ensures Rank(c) <= Rank(DELETE) ==> KindOf(c) in QUERY_KINDS && "With" in QUERY_KINDS
    ensures c != DROP ==> KindOf(c) in QUERY_KINDS + {"Create", "Set"}
  {
  }

  ghost predicate KindsBelow(node: Node, kinds: set<string>) {
    forall n :: n in Below(node) ==> n.kind in kinds
  }

  lemma {:induction false} AroundBelow(outer: Capability, inner: Capability, where: bool)
    ensures KindsBelow(Around(outer, inner, where), {"With", "CTE", KindOf(inner)})
  {
    var expression, kinds := Around(outer, inner, where), {"With", "CTE", KindOf(inner)};
    var part := expression.others[0];
    var cte := part.others[0];
    NothingIsBelow(cte.this_.value, kinds);
    OnlyThis(cte, kinds);
    OnlyOther(part, kinds);
    OnlyOther(expression, kinds);
  }

  lemma {:induction false} NothingIsBelow(node: Node, kinds: set<string>)
    requires node.this_.None? && node.others == []
    ensures KindsBelow(node, kinds)
  {
  }

  lemma {:induction false} OnlyOther(node: Node, kinds: set<string>)
    requires node.this_.None? && |node.others| == 1
    requires node.others[0].kind in kinds && KindsBelow(node.others[0], kinds)
    ensures KindsBelow(node, kinds)
  {
  }

  lemma {:induction false} OnlyThis(node: Node, kinds: set<string>)
    requires node.this_.Some? && node.others == []
    requires node.this_.value.kind in kinds && KindsBelow(node.this_.value, kinds)
    ensures KindsBelow(node, kinds)
  {
  }

  /** Of such statements, every write is guarded exactly under the policies that grant no
      statement able to hold one. */
  lemma {:induction false} NestedWritesAreGuardedExactlyWhenNoneIsHeld(policy: Policy)
    requires policy.maxStatements > 0
    ensures GuardsNestedWrites(policy) <==> policy.capabilities <= {READ, INSERT, DROP}
  {
    if policy.capabilities <= {READ, INSERT, DROP} {
      forall statement, expression, n |
        Describes(statement, expression) && HasNode(expression, n) && NestsQueries(Executed(expression)) && IsWrite(n)
        ensures !Accepts([statement], policy)
      {
        OneStatement(statement, policy);
        ContainedInNest(statement, expression, n);
      }
    } else {
      var c :| c in policy.capabilities && c !in {READ, INSERT, DROP};
      HiddenWrite(policy, c);
    }
  }

  /** Where the rule does hold: the only write of a statement that is classified by it. */
  lemma {:induction false} OnlyWriteHasWhere(statement: Statement, expression: Node, policy: Policy, n: Node)
    requires Accepts([statement], policy) && policy.requireWhere && Describes(statement, expression)
    requires statement.capability in {UPDATE, DELETE}
    requires HasNode(expression, n) && IsWrite(n)
    requires forall m :: HasNode(expression, m) && IsWrite(m) ==> m == n
    ensures n.hasWhere
  {
    var decisive :| Classified(expression, statement.capability, decisive) && statement.hasWhere == decisive.hasWhere;
    assert HasNode(expression, decisive) && IsWrite(decisive);
    OneStatement(statement, policy);
  }

  /** Denying a table wins over allowing it. */
  lemma DenyWins(policy: Policy, table: string)
    requires exists item :: item in policy.deniedTables && Lower(item) == Lower(table)
    ensures forall statements: seq<Statement>, i ::
              0 <= i < |statements| && table in statements[i].tables ==> !Accepts(statements, policy)
  {
    assert !policy.TableAllowed(table);
  }

  ghost predicate Names(tables: set<string>, table: string) {
    exists item :: item in tables && SameIgnoringCase(item, table)
  }

  lemma TableIsAllowedExactly(policy: Policy, table: string)
    ensures policy.TableAllowed(table) <==>
            !Names(policy.deniedTables, table) && (policy.allowedTables == {} || Names(policy.allowedTables, table))
  {
    forall item ensures Lower(item) == Lower(table) <==> SameIgnoringCase(item, table) {
      LowerIgnoresCase(item, table);
    }
  }

  /** The whole rule: a submission is accepted exactly when it is short enough and each of its
      statements is of a granted family, touches no table outside a non-empty allow list and
      none on the deny list, in any case, and, where the policy asks, an `UPDATE` or `DELETE`
      has a `WHERE`. */
  lemma {:induction false} AcceptsExactly(statements: seq<Statement>, policy: Policy)
    ensures Accepts(statements, policy) <==>
            && |statements| <= policy.maxStatements
            && forall s :: s in statements ==>
                 && s.capability in policy.capabilities
                 && (forall table :: table in s.tables ==>
                       && !Names(policy.deniedTables, table)
                       && (policy.allowedTables == {} || Names(policy.allowedTables, table)))
                 && (policy.requireWhere && (s.capability == UPDATE || s.capability == DELETE) ==> s.hasWhere)
  {
    forall table ensures policy.TableAllowed(table) <==>
        !Names(policy.deniedTables, table) && (policy.allowedTables == {} || Names(policy.allowedTables, table)) {
      TableIsAllowedExactly(policy, table);
    }
  }

  lemma ReadOnlyExactly(policy: Policy)
    ensures policy.ReadOnly() <==> policy.capabilities <= {READ}
  {
    assert forall c: Capability :: c != READ <==> c in MUTATING;
    if policy.ReadOnly() {
      forall c | c in policy.capabilities ensures c == READ {
        assert c !in policy.capabilities * MUTATING;
      }
    }
  }

  // ----- The service -----

  type Tables = map<string, seq<string>>

  /** What the database does with a statement: refuses it, or runs it on the session's
      state and answers rows, or a count for one that returns none. */
  datatype Execution = Raises(reason: string) | Runs(after: Tables, rows: Option<seq<string>>, rowCount: nat)

  datatype Analysis =
    | MissingExtra
    | Unparsable(reason: string)
    | Parsed(statements: seq<Statement>)

  /** One call of `execute`: what parsing gives, how the database answers in a given state,
      whether the commit goes through, and whether the auditor raises. */
  datatype Attempt = Attempt(
    principal: string, sql: string, analysis: Analysis,
    run: Tables -> Execution, commitFails: bool, auditFails: bool)
  {
    ghost predicate Valid() {
      analysis.Parsed? ==> analysis.statements != []
    }
  }

  datatype SqlResult = SqlResult(rows: seq<string>, rowCount: nat, truncated: bool, capability: Capability,
                                 statement: string)

  datatype Reason = Allowed | ParseError(parse: string) | Refused(refusal: Refusal) | DatabaseError(database: string)

  datatype Audit = Audit(
    principal: string, sql: string, allowed: bool, capability: Option<Capability>,
    tables: seq<string>, reason: Reason, rowCount: nat)

  datatype Outcome =
    | Returned(result: SqlResult)
    | Denied(refusal: Refusal)
    | Failed(reason: string)
    | ImportFailed

  const COMMIT_FAILED := "commit failed"

  /** The result set is cut at the policy's limit. */
  ghost predicate ResultOf(result: SqlResult, s: Statement, policy: Policy, execution: Execution)
    requires execution.Runs?
  {
    && result.capability == s.capability && result.statement == s.sql
    && (execution.rows.Some? ==>
          && result.rows <= execution.rows.value && |result.rows| <= policy.maxRows
          && result.rowCount == |result.rows|
          && (result.truncated <==> result.rows != execution.rows.value)
          && (result.truncated ==> |result.rows| == policy.maxRows))
    && (execution.rows.None? ==> result.rows == [] && result.rowCount == execution.rowCount && !result.truncated)
  }

  class Auditor {
    var entries: seq<Audit>

    constructor ()
      ensures entries == []
    {
      entries := [];
    }

    /** Receives an entry, then raises or not. */
    method Receive(entry: Audit, fails: bool) returns (raised: bool)
      modifies this
      ensures entries == old(entries) + [entry] && raised == fails
    {
      entries := entries + [entry];
      raised := fails;
    }
  }

  class Service {
    const policy: Policy
    const auditor: Option<Auditor>
    var committed: Tables
    var executed: seq<Statement>

    constructor (policy: Policy, auditor: Option<Auditor>, committed: Tables)
      ensures this.policy == policy && this.auditor == auditor
      ensures this.committed == committed && executed == []
    {
      this.policy := policy;
      this.auditor := auditor;
      this.committed := committed;
      executed := [];
    }

    ghost function Sink(): set<object> {
      if auditor.Some? then {auditor.value} else {}
    }

    ghost function Entries(): seq<Audit>
      reads Sink()
    {
      if auditor.Some? then auditor.value.entries else []
    }

    /** A failing auditor is swallowed: nothing but the entry is left of the call. */
    method AuditEntry(entry: Audit, fails: bool)
      modifies Sink()
      ensures Entries() == if auditor.Some? then old(Entries()) + [entry] else []
    {
      if auditor.Some? {
        var _ := auditor.value.Receive(entry, fails);
      }
    }

    /** Runs one approved statement in a session: a read-only policy rolls the session back
        before the context manager commits it. */
    method Run(s: Statement, attempt: Attempt) returns (r: Option<SqlResult>, error: string)
      modifies this
      ensures executed == old(executed) + [s]
      ensures var execution := attempt.run(old(committed));
        && r.Some? == (execution.Runs? && !attempt.commitFails)
        && (r.Some? ==> ResultOf(r.value, s, policy, execution))
        && (r.None? ==> error == if execution.Raises? then execution.reason else COMMIT_FAILED)
        && committed == if r.Some? && !policy.ReadOnly() then execution.after else old(committed)
    {
      error := "";
      var working := committed;
      var execution := attempt.run(working);
      executed := executed + [s];
      if execution.Raises? {
        return None, execution.reason;
      }
      working := execution.after;
      var result := SqlResult([], 0, false, s.capability, s.sql);
      if execution.rows.Some? {
        var rows := execution.rows.value;
        var fetched := rows[..if |rows| <= policy.maxRows + 1 then |rows| else policy.maxRows + 1];
        var truncated := |fetched| > policy.maxRows;
        var kept := if truncated then fetched[..policy.maxRows] else fetched;
        result := result.(rows := kept, rowCount := |kept|, truncated := truncated);
      } else {
        result := result.(rowCount := execution.rowCount);
      }
      if policy.ReadOnly() {
        working := committed;
      }
      if attempt.commitFails {
        return None, COMMIT_FAILED;
      }
      committed := working;
      r := Some(result);
    }

    method Execute(attempt: Attempt) returns (outcome: Outcome)
      requires attempt.Valid()
      modifies this, Sink()
      ensures executed == old(executed) + Executes(policy, attempt)
      ensures committed == CommittedAfter(policy, attempt, old(committed))
      ensures OutcomeOf(policy, attempt, old(committed), outcome)
      ensures attempt.analysis.MissingExtra? ==> Entries() == old(Entries())
      ensures !attempt.analysis.MissingExtra? && auditor.Some? ==>
                |Entries()| == |old(Entries())| + 1 && old(Entries()) <= Entries() &&
                Reports(attempt, outcome, Entries()[|old(Entries())|])
    {
      match attempt.analysis
      case MissingExtra =>
        outcome := ImportFailed;
      case Unparsable(reason) =>
        AuditEntry(Audit(attempt.principal, attempt.sql, false, None, [], ParseError(reason), 0), attempt.auditFails);
        outcome := Failed(reason);
      case Parsed(statements) =>
        var refusal := CheckPolicy(statements, policy);
        var s := statements[0];
        var entry := Audit(attempt.principal, attempt.sql, true, Some(s.capability), s.tables, Allowed, 0);
        if refusal.Some? {
          AuditEntry(entry.(allowed := false, reason := Refused(refusal.value)), attempt.auditFails);
          return Denied(refusal.value);
        }
        var r, error := Run(s, attempt);
        if r.None? {
          AuditEntry(entry.(reason := DatabaseError(error)), attempt.auditFails);
          return Failed(error);
        }
        AuditEntry(entry.(rowCount := r.value.rowCount), attempt.auditFails);
        outcome := Returned(r.value);
    }

    /** What is left of a run from a given state: the statements that ran, the committed
        state, the outcomes and the entries that were received. */
    ghost predicate Ran(attempts: seq<Attempt>, outcomes: seq<Outcome>, statements: seq<Statement>, start: Tables,
                        entries: seq<Audit>)
      requires AllValid(attempts)
      reads this, Sink()
    {
      && RanTo(policy, attempts, outcomes, statements, start, executed, committed)
      && (auditor.Some? ==> Trailed(attempts, outcomes, entries, Entries()))
    }

    method ExecuteNext(attempt: Attempt, ghost done: seq<Attempt>, ghost outcomes: seq<Outcome>,
                       ghost statements: seq<Statement>, ghost start: Tables, ghost entries: seq<Audit>)
      returns (outcome: Outcome)
      requires attempt.Valid() && AllValid(done) && Ran(done, outcomes, statements, start, entries)
      modifies this, Sink()
      ensures Ran(done + [attempt], outcomes + [outcome], statements, start, entries)
    {
      ghost var ranBefore, stateBefore, before := executed, committed, Entries();
      outcome := Execute(attempt);
      RunGrows(policy, done, outcomes, statements, start, ranBefore, stateBefore, attempt, outcome);
      if auditor.Some? {
        TrailGrows(done, outcomes, entries, before, attempt, outcome, Entries());
      }
    }

    /** Any number of attempts, one after the other. */
    method ExecuteAll(attempts: seq<Attempt>) returns (outcomes: seq<Outcome>)
      requires AllValid(attempts)
      modifies this, Sink()
      ensures Ran(attempts, outcomes, old(executed), old(committed), old(Entries()))
    {
      outcomes := [];
      for i := 0 to |attempts|
        invariant Ran(attempts[..i], outcomes, old(executed), old(committed), old(Entries()))
      {
        assert attempts[..i + 1] == attempts[..i] + [attempts[i]];
        var outcome := ExecuteNext(attempts[i], attempts[..i], outcomes, old(executed), old(committed), old(Entries()));
        outcomes := outcomes + [outcome];
      }
      assert attempts[..|attempts|] == attempts;
    }
  }

  // ----- Runs of attempts -----

  ghost predicate AllValid(attempts: seq<Attempt>) {
    forall i :: 0 <= i < |attempts| ==> attempts[i].Valid()
  }

  /** The statements that run, attempt by attempt. */
  ghost function ExecutesAll(policy: Policy, attempts: seq<Attempt>): seq<Statement>
    requires AllValid(attempts)
  {
    if attempts == [] then [] else
      ExecutesAll(policy, attempts[..|attempts| - 1]) + Executes(policy, attempts[|attempts| - 1])
  }

  ghost function CommittedAfterAll(policy: Policy, attempts: seq<Attempt>, committed: Tables): Tables
    requires AllValid(attempts)
  {
    if attempts == [] then committed else
      CommittedAfter(policy, attempts[|attempts| - 1], CommittedAfterAll(policy, attempts[..|attempts| - 1], committed))
  }

  /** Each attempt ends as it would on its own, in the state the ones before it left. */
  ghost predicate OutcomesOf(policy: Policy, attempts: seq<Attempt>, committed: Tables, outcomes: seq<Outcome>)
    requires AllValid(attempts)
  {
    && |outcomes| == |attempts|
    && forall i :: 0 <= i < |attempts| ==>
         OutcomeOf(policy, attempts[i], CommittedAfterAll(policy, attempts[..i], committed), outcomes[i])
  }

  ghost predicate RanTo(policy: Policy, attempts: seq<Attempt>, outcomes: seq<Outcome>,
                        statements: seq<Statement>, start: Tables, executed: seq<Statement>, committed: Tables)
    requires AllValid(attempts)
  {
    && executed == statements + ExecutesAll(policy, attempts)
    && committed == CommittedAfterAll(policy, attempts, start)
    && OutcomesOf(policy, attempts, start, outcomes)
  }

  lemma {:induction false} OutcomesGrow(policy: Policy, attempts: seq<Attempt>, start: Tables, outcomes: seq<Outcome>,
                                        attempt: Attempt, outcome: Outcome)
    requires AllValid(attempts) && attempt.Valid() && OutcomesOf(policy, attempts, start, outcomes)
    requires OutcomeOf(policy, attempt, CommittedAfterAll(policy, attempts, start), outcome)
    ensures OutcomesOf(policy, attempts + [attempt], start, outcomes + [outcome])
  {
    var all := attempts + [attempt];
    forall i | 0 <= i < |all|
      ensures OutcomeOf(policy, all[i], CommittedAfterAll(policy, all[..i], start), (outcomes + [outcome])[i])
    {
      assert all[..i] == attempts[..i];
      assert attempts[..|attempts|] == attempts;
    }
  }

  lemma {:induction false} RunGrows(policy: Policy, attempts: seq<Attempt>, outcomes: seq<Outcome>,
                                    statements: seq<Statement>, start: Tables, executed: seq<Statement>,
                                    committed: Tables, attempt: Attempt, outcome: Outcome)
    requires AllValid(attempts) && RanTo(policy, attempts, outcomes, statements, start, executed, committed)
    requires attempt.Valid() && OutcomeOf(policy, attempt, committed, outcome)
    ensures AllValid(attempts + [attempt])
    ensures RanTo(policy, attempts + [attempt], outcomes + [outcome], statements, start,
                  executed + Executes(policy, attempt), CommittedAfter(policy, attempt, committed))
  {
    assert (attempts + [attempt])[..|attempts|] == attempts;
    OutcomesGrow(policy, attempts, start, outcomes, attempt, outcome);
  }

  /** One entry for each attempt the missing extra does not stop, in order, reporting it. */
  ghost predicate AuditTrail(attempts: seq<Attempt>, outcomes: seq<Outcome>, entries: seq<Audit>)
    requires |attempts| == |outcomes|
  {
    && |entries| == Audited(attempts)
    && forall i :: 0 <= i < |attempts| && !attempts[i].analysis.MissingExtra? ==>
         && Audited(attempts[..i]) < |entries|
         && Reports(attempts[i], outcomes[i], entries[Audited(attempts[..i])])
  }

  lemma TrailGrowsBy(attempts: seq<Attempt>, outcomes: seq<Outcome>, entries: seq<Audit>,
                     attempt: Attempt, outcome: Outcome, more: seq<Audit>)
    requires |attempts| == |outcomes| && AuditTrail(attempts, outcomes, entries)
    requires if attempt.analysis.MissingExtra? then more == [] else |more| == 1 && Reports(attempt, outcome, more[0])
    ensures AuditTrail(attempts + [attempt], outcomes + [outcome], entries + more)
  {
    var all := attempts + [attempt];
    assert all[..|attempts|] == attempts;
    forall i | 0 <= i < |all| && !all[i].analysis.MissingExtra?
      ensures Audited(all[..i]) < |entries + more|
      ensures Reports(all[i], (outcomes + [outcome])[i], (entries + more)[Audited(all[..i])])
    {
      assert all[..i] == attempts[..i];
      assert attempts[..|attempts|] == attempts;
    }
  }

  /** The entries received since `first` are the trail of the attempts. */
  ghost predicate Trailed(attempts: seq<Attempt>, outcomes: seq<Outcome>, first: seq<Audit>, entries: seq<Audit>) {
    |attempts| == |outcomes| && first <= entries && AuditTrail(attempts, outcomes, entries[|first|..])
  }

  lemma TrailGrows(attempts: seq<Attempt>, outcomes: seq<Outcome>, first: seq<Audit>, entries: seq<Audit>,
                   attempt: Attempt, outcome: Outcome, grown: seq<Audit>)
    requires Trailed(attempts, outcomes, first, entries)
    requires attempt.analysis.MissingExtra? ==> grown == entries
    requires !attempt.analysis.MissingExtra? ==>
      |grown| == |entries| + 1 && entries <= grown && Reports(attempt, outcome, grown[|entries|])
    ensures Trailed(attempts + [attempt], outcomes + [outcome], first, grown)
  {
    var more := grown[|entries|..];
    TrailGrowsBy(attempts, outcomes, entries[|first|..], attempt, outcome, more);
    assert grown[|first|..] == entries[|first|..] + more;
  }

  /** Whatever the attempts, a read-only policy commits nothing. */
  lemma {:induction false} ReadOnlyCommitsNothing(policy: Policy, attempts: seq<Attempt>, committed: Tables)
    requires AllValid(attempts) && policy.ReadOnly()
    ensures CommittedAfterAll(policy, attempts, committed) == committed
  {
    if attempts == [] {
    } else {
      ReadOnlyCommitsNothing(policy, attempts[..|attempts| - 1], committed);
    }
  }

  /** Every statement that runs is the first of a submission the policy accepted. */
  lemma {:induction false} OnlyApprovedStatementsRun(policy: Policy, attempts: seq<Attempt>, s: Statement)
    requires AllValid(attempts) && s in ExecutesAll(policy, attempts)
    ensures exists i :: 0 <= i < |attempts| && Approved(policy, attempts[i], s)
  {
    var earlier, last := attempts[..|attempts| - 1], attempts[|attempts| - 1];
    if s in ExecutesAll(policy, earlier) {
      OnlyApprovedStatementsRun(policy, earlier, s);
      var i :| 0 <= i < |earlier| && Approved(policy, earlier[i], s);
      assert Approved(policy, attempts[i], s);
    } else {
      assert Approved(policy, attempts[|attempts| - 1], s);
    }
  }

  /** The statement that runs, if any: the first of a submission the policy accepts. */
  function Executes(policy: Policy, attempt: Attempt): seq<Statement>
    requires attempt.Valid()
  {
    if attempt.analysis.Parsed? && Accepts(attempt.analysis.statements, policy)
    then [attempt.analysis.statements[0]] else []
  }

  ghost predicate Approved(policy: Policy, attempt: Attempt, s: Statement) {
    && attempt.analysis.Parsed? && attempt.analysis.statements != []
    && Accepts(attempt.analysis.statements, policy) && s == attempt.analysis.statements[0]
  }

  /** How many attempts must be audited: all but those the missing extra stops. */
  function Audited(attempts: seq<Attempt>): nat {
    if attempts == [] then 0 else
      Audited(attempts[..|attempts| - 1]) + if attempts[|attempts| - 1].analysis.MissingExtra? then 0 else 1
  }

  ghost function CommittedAfter(policy: Policy, attempt: Attempt, committed: Tables): Tables
    requires attempt.Valid()
  {
    if Executes(policy, attempt) != [] && attempt.run(committed).Runs? && !attempt.commitFails && !policy.ReadOnly()
    then attempt.run(committed).after else committed
  }

  /** What the caller sees does not depend on the auditor. */
  ghost predicate OutcomeOf(policy: Policy, attempt: Attempt, committed: Tables, outcome: Outcome)
    requires attempt.Valid()
  {
    match attempt.analysis
    case MissingExtra => outcome == ImportFailed
    case Unparsable(reason) => outcome == Failed(reason)
    case Parsed(statements) =>
      var execution := attempt.run(committed);
      if !Accepts(statements, policy) then outcome.Denied? && Refuses(statements, policy, outcome.refusal)
      else if execution.Raises? then outcome == Failed(execution.reason)
      else if attempt.commitFails then outcome == Failed(COMMIT_FAILED)
      else outcome.Returned? && ResultOf(outcome.result, statements[0], policy, execution)
  }

  /** The entry names the caller, the submission and what became of it. */
  ghost predicate Reports(attempt: Attempt, outcome: Outcome, entry: Audit) {
    && entry.principal == attempt.principal && entry.sql == attempt.sql
    && match attempt.analysis
       case Parsed(statements) =>
         && statements != []
         && entry.capability == Some(statements[0].capability) && entry.tables == statements[0].tables
         && entry.allowed == !outcome.Denied?
         && (match outcome
             case Returned(result) => entry.reason == Allowed && entry.rowCount == result.rowCount
             case Denied(refusal) => entry.reason == Refused(refusal) && entry.rowCount == 0
             case Failed(reason) => entry.reason == DatabaseError(reason) && entry.rowCount == 0
             case ImportFailed => false)
       case Unparsable(reason) => !entry.allowed && entry.capability.None? && entry.reason == ParseError(reason)
       case MissingExtra => false
  }
}
