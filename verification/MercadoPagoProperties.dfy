/** What the Mercado Pago overlay promises of its result: which operations are in it, that
    applying it again changes nothing, and that pruning takes nothing still in use. */
module MercadoPagoProperties {
  import opened Json
  import opened OverlayEnums
  import opened MercadoPagoOverlay
  import PathTemplates

  // ----- What the shipped tables satisfy -----

  predicate Retired(t: Tables, r: Route) {
    r in t.dead || r in t.deprecated
  }

  /** No two corrections share a source or a target, and none feeds another. */
  ghost predicate CorrectionsApart(cs: seq<Correction>) {
    && (forall c, d :: c in cs && d in cs ==> c.Source() != d.Target())
    && (forall i, j :: 0 <= i < j < |cs| ==> cs[i].Source() != cs[j].Source() && cs[i].Target() != cs[j].Target())
  }

  /** The tables name real verbs, do not contradict each other, add each operation once,
      and every note carries the mark it is recognised by. */
  ghost predicate WellFormed(t: Tables) {
    && (forall c :: c in t.corrections ==> c.verb in VERBS && !Retired(t, c.Source()) && !Retired(t, c.Target()))
    && CorrectionsApart(t.corrections)
    && (forall r :: Retired(t, r) ==> r.verb in VERBS)
    && (forall a :: a in t.added ==> a.route.verb in VERBS && !Retired(t, a.route))
    && (forall a, c :: a in t.added && c in t.corrections ==> a.route != c.Source())
    && (forall i, j :: 0 <= i < j < |t.added| ==> t.added[i].route != t.added[j].route)
    && (forall l :: l in t.lifts ==> l.schema !in t.observed)
    && Contains(t.unverifiedNote, t.unverifiedMark)
    && (forall u :: u in t.unrouted ==> u.route.verb in VERBS && Contains(u.note, t.unroutedMark))
  }

  // ----- One step, seen as the operation at each route -----

  predicate SameBlocks(before: Paths, after: Paths, path: string) {
    Blocked(after, path) == Blocked(before, path)
  }

  lemma SetOpView(paths: Paths, r: Route, operation: Json, other: Route)
    requires !Blocked(paths, r.path)
    ensures Op(SetOp(paths, r, operation), other) == if other == r then Some(operation) else Op(paths, other)
    ensures SameBlocks(paths, SetOp(paths, r, operation), other.path)
  {
  }

  lemma DeleteOpView(paths: Paths, r: Route, other: Route)
    requires Op(paths, r).Some? && other.verb in VERBS
    ensures Op(DeleteOp(paths, r), other) == if other == r then None else Op(paths, other)
    ensures SameBlocks(paths, DeleteOp(paths, r), other.path)
  {
    var rest := paths[r.path].fields - {r.verb};
    if other.path == r.path && other.verb in rest {
      assert AnyVerb(rest);
    }
  }

  lemma MoveOneView(paths: Paths, c: Correction, r: Route)
    requires c.verb in VERBS && r.verb in VERBS
    ensures Op(MoveOne(paths, c), r) ==
            if Movable(paths, c) && r == c.Source() then None
            else if Movable(paths, c) && r == c.Target() then Op(paths, c.Source())
            else Op(paths, r)
    ensures SameBlocks(paths, MoveOne(paths, c), r.path)
  {
    if Movable(paths, c) {
      var operation := Op(paths, c.Source()).value;
      var grown := SetOp(paths, c.Target(), operation);
      SetOpView(paths, c.Target(), operation, c.Source());
      SetOpView(paths, c.Target(), operation, r);
      DeleteOpView(grown, c.Source(), r);
    }
  }

  // ----- Moving: every correction is decided by the document it started from -----

  ghost predicate TakenFrom(paths: Paths, cs: seq<Correction>, r: Route) {
    exists c :: c in cs && c.Source() == r && Movable(paths, c)
  }

  ghost predicate BroughtBy(paths: Paths, cs: seq<Correction>, r: Route, c: Correction) {
    c in cs && c.Target() == r && Movable(paths, c)
  }

  /** The operation at `r` once the corrections have been applied. */
  ghost function MovedOp(paths: Paths, cs: seq<Correction>, r: Route): Option<Json> {
    if TakenFrom(paths, cs, r) then None
    else if exists c :: BroughtBy(paths, cs, r, c) then
      var c :| BroughtBy(paths, cs, r, c);
      Op(paths, c.Source())
    else Op(paths, r)
  }

  ghost function Colliding(paths: Paths, cs: seq<Correction>): seq<Correction> {
    if cs == [] then [] else
      Colliding(paths, cs[..|cs| - 1]) + if Collides(paths, cs[|cs| - 1]) then [cs[|cs| - 1]] else []
  }

  lemma CorrectionsApartPrefix(cs: seq<Correction>)
    requires CorrectionsApart(cs) && cs != []
    ensures CorrectionsApart(cs[..|cs| - 1])
    ensures forall c :: c in cs[..|cs| - 1] ==>
              c.Source() != cs[|cs| - 1].Source() && c.Target() != cs[|cs| - 1].Target() &&
              c.Target() != cs[|cs| - 1].Source() && c.Source() != cs[|cs| - 1].Target()
  {
  }

  /** What takes from a route, or brings to it, is what did among the earlier corrections, or
      the last one; and one correction at most brings to it. */
  lemma TakenAndBrought(paths: Paths, cs: seq<Correction>, r: Route)
    requires CorrectionsApart(cs) && cs != []
    ensures var earlier, last := cs[..|cs| - 1], cs[|cs| - 1];
      && (TakenFrom(paths, cs, r) <==> TakenFrom(paths, earlier, r) || (Movable(paths, last) && last.Source() == r))
      && (forall c :: BroughtBy(paths, cs, r, c) <==>
            BroughtBy(paths, earlier, r, c) || (c == last && Movable(paths, last) && last.Target() == r))
      && (forall c, d :: BroughtBy(paths, cs, r, c) && BroughtBy(paths, cs, r, d) ==> c == d)
  {
    var earlier, last := cs[..|cs| - 1], cs[|cs| - 1];
    assert forall c :: c in cs <==> c in earlier || c == last;
    assert forall c, d :: c in cs && d in cs && c.Target() == d.Target() ==> c == d;
  }

  /** One more correction, apart from the earlier ones, changes only its own two routes. */
  lemma MovedOpExtends(paths: Paths, cs: seq<Correction>, r: Route)
    requires CorrectionsApart(cs) && cs != []
    ensures var earlier, last := cs[..|cs| - 1], cs[|cs| - 1];
      && MovedOp(paths, earlier, last.Source()) == Op(paths, last.Source())
      && MovedOp(paths, earlier, last.Target()) == Op(paths, last.Target())
      && MovedOp(paths, cs, r) ==
         if Movable(paths, last) && last.Source() == r then None
         else if Movable(paths, last) && last.Target() == r then Op(paths, last.Source())
         else MovedOp(paths, earlier, r)
  {
    var earlier, last := cs[..|cs| - 1], cs[|cs| - 1];
    CorrectionsApartPrefix(cs);
    TakenAndBrought(paths, cs, r);
    assert BroughtBy(paths, cs, r, last) <==> Movable(paths, last) && last.Target() == r;
  }

  lemma {:induction false} MoveView(paths: Paths, cs: seq<Correction>, r: Route)
    requires CorrectionsApart(cs) && r.verb in VERBS && forall c :: c in cs ==> c.verb in VERBS
    ensures Op(Move(paths, cs), r) == MovedOp(paths, cs, r)
    ensures SameBlocks(paths, Move(paths, cs), r.path)
    decreases |cs|
  {
    if cs == [] {
    } else {
      var earlier, last := cs[..|cs| - 1], cs[|cs| - 1];
      assert forall c :: c in earlier ==> c in cs;
      CorrectionsApartPrefix(cs);
      MoveView(paths, earlier, r);
      MoveView(paths, earlier, last.Source());
      MoveView(paths, earlier, last.Target());
      MovedOpExtends(paths, cs, r);
      MoveOneView(Move(paths, earlier), last, r);
    }
  }

  lemma {:induction false} CollisionsView(paths: Paths, cs: seq<Correction>)
    requires CorrectionsApart(cs) && forall c :: c in cs ==> c.verb in VERBS
    ensures Collisions(paths, cs) == Colliding(paths, cs)
    decreases |cs|
  {
    if cs == [] {
    } else {
      var earlier, last := cs[..|cs| - 1], cs[|cs| - 1];
      CorrectionsApartPrefix(cs);
      CollisionsView(paths, earlier);
      MoveView(paths, earlier, last.Source());
      MoveView(paths, earlier, last.Target());
      MovedOpExtends(paths, cs, last.Source());
    }
  }

  // ----- Removing and adding -----

  lemma {:induction false} RemoveView(paths: Paths, rs: seq<Route>, r: Route)
    requires r.verb in VERBS
    ensures Op(Remove(paths, rs), r) == if r in rs then None else Op(paths, r)
    ensures SameBlocks(paths, Remove(paths, rs), r.path)
    decreases |rs|
  {
    if rs == [] {
    } else {
      var earlier, last := rs[..|rs| - 1], rs[|rs| - 1];
      assert rs == earlier + [last];
      RemoveView(paths, earlier, r);
      if Op(Remove(paths, earlier), last).Some? {
        DeleteOpView(Remove(paths, earlier), last, r);
      }
    }
  }

  /** The operation a table adds at `r`, when it names that route. */
  ghost function AddedOp(additions: seq<Addition>, r: Route): Option<Json> {
    if additions == [] then None
    else if additions[|additions| - 1].route == r then Some(additions[|additions| - 1].operation)
    else AddedOp(additions[..|additions| - 1], r)
  }

  lemma {:induction false} AddView(paths: Paths, additions: seq<Addition>, r: Route)
    requires forall i, j :: 0 <= i < j < |additions| ==> additions[i].route != additions[j].route
    ensures Op(Add(paths, additions), r) ==
            if Op(paths, r).Some? || Blocked(paths, r.path) then Op(paths, r) else AddedOp(additions, r)
    ensures SameBlocks(paths, Add(paths, additions), r.path)
    ensures (forall a :: a in additions ==> a.route != r) ==> AddedOp(additions, r) == None
    decreases |additions|
  {
    if additions == [] {
    } else {
      var earlier, last := additions[..|additions| - 1], additions[|additions| - 1];
      AddView(paths, earlier, r);
      assert forall a :: a in earlier ==> a.route != last.route;
      if Addable(Add(paths, earlier), last.route) {
        SetOpView(Add(paths, earlier), last.route, last.operation, r);
      }
      assert last in additions;
      assert forall a :: a in earlier ==> a in additions;
    }
  }

  lemma {:induction false} AddedOpAt(additions: seq<Addition>, i: nat)
    requires i < |additions|
    requires forall i, j :: 0 <= i < j < |additions| ==> additions[i].route != additions[j].route
    ensures AddedOp(additions, additions[i].route) == Some(additions[i].operation)
    decreases |additions|
  {
    if i < |additions| - 1 {
      AddedOpAt(additions[..|additions| - 1], i);
    }
  }

  // ----- Notes -----

  /** The same operation, but for text appended to its description. */
  ghost predicate SameButDescription(before: Json, after: Json, render: Json -> string) {
    || after == before
    || (&& before.Obj? && after.Obj?
        && after.fields - {"description"} == before.fields - {"description"}
        && Description(before.fields, render) <= Description(after.fields, render))
  }

  ghost predicate SameOps(before: Paths, after: Paths, r: Route, render: Json -> string) {
    && Op(after, r).Some? == Op(before, r).Some?
    && (Op(after, r).Some? ==> SameButDescription(Op(before, r).value, Op(after, r).value, render))
  }

  lemma AnnotateExtends(fields: map<string, Json>, note: string, render: Json -> string)
    ensures SameButDescription(Obj(fields), Annotate(fields, note, render), render)
    ensures Description(Annotate(fields, note, render).fields, render) == Description(fields, render) + note
  {
    assert Annotate(fields, note, render).fields - {"description"} == fields - {"description"};
  }

  lemma MarkUnverifiedView(t: Tables, paths: Paths, r: Route)
    ensures Op(MarkUnverified(t, paths), r) ==
            if Op(paths, r).Some? then Some(MarkedOp(t, r, Op(paths, r).value)) else None
    ensures SameOps(paths, MarkUnverified(t, paths), r, t.render)
    ensures SameBlocks(paths, MarkUnverified(t, paths), r.path)
  {
    if Op(paths, r).Some? && Op(paths, r).value.Obj? {
      AnnotateExtends(Op(paths, r).value.fields, t.unverifiedNote, t.render);
    }
  }

  lemma {:induction false} MarkUnroutedView(t: Tables, paths: Paths, us: seq<Unrouted>, r: Route)
    ensures SameOps(paths, MarkUnrouted(t, paths, us), r, t.render)
    ensures SameBlocks(paths, MarkUnrouted(t, paths, us), r.path)
    ensures (forall u :: u in us ==> u.route != r) ==> Op(MarkUnrouted(t, paths, us), r) == Op(paths, r)
    decreases |us|
  {
    if us == [] {
    } else {
      var earlier, last := us[..|us| - 1], us[|us| - 1];
      MarkUnroutedView(t, paths, earlier, r);
      assert last in us && forall u :: u in earlier ==> u in us;
      var soFar := MarkUnrouted(t, paths, earlier);
      if NeedsNote(t, soFar, last) {
        var fields := Op(soFar, last.route).value.fields;
        AnnotateExtends(fields, last.note, t.render);
        SetOpView(soFar, last.route, Annotate(fields, last.note, t.render), r);
      }
    }
  }

  // ----- Conservation of operations -----

  /** What should be declared at `r`: nothing that is retired, what the corrections left
      there, or else what the table adds. */
  ghost function Expected(t: Tables, paths: Paths, r: Route): Option<Json> {
    if Retired(t, r) then None
    else if MovedOp(paths, t.corrections, r).Some? || Blocked(paths, r.path) then MovedOp(paths, t.corrections, r)
    else AddedOp(t.added, r)
  }

  lemma CompletedView(t: Tables, paths: Paths, r: Route)
    requires WellFormed(t) && r.verb in VERBS
    ensures Op(Completed(t, paths), r) == Expected(t, paths, r)
    ensures SameBlocks(paths, Completed(t, paths), r.path)
  {
    var moved, routed := Move(paths, t.corrections), Routed(t, paths);
    MoveView(paths, t.corrections, r);
    RemoveView(moved, t.dead, r);
    RemoveView(routed, t.deprecated, r);
    AddView(Surviving(t, paths), t.added, r);
  }

  /** The operations of the result, route by route: the originals with each correction that
      did not collide moved, minus the retired ones, plus the additions nothing declared. Each
      keeps its object up to text appended to its description, and keeps it exactly when
      something vouches for it and the sandbox did not answer it as unrouted. */
  lemma OperationsAreConserved(t: Tables, paths: Paths, r: Route)
    requires WellFormed(t) && r.verb in VERBS
    ensures var result, expected := Op(FinalPaths(t, paths), r), Expected(t, paths, r);
      && result.Some? == expected.Some?
      && (result.Some? ==> SameButDescription(expected.value, result.value, t.render))
      && (PathTemplates.Normalise(r.verb, r.path) in t.vouched && (forall u :: u in t.unrouted ==> u.route != r) ==>
            result == expected)
  {
    var completed := Completed(t, paths);
    CompletedView(t, paths, r);
    MarkUnverifiedView(t, completed, r);
    MarkUnroutedView(t, MarkUnverified(t, completed), t.unrouted, r);
  }

  /** What the table of unrouted operations says of a route: the first entry decides. */
  ghost function NoteFor(us: seq<Unrouted>, r: Route): Option<string> {
    if us == [] then None
    else if NoteFor(us[..|us| - 1], r).Some? then NoteFor(us[..|us| - 1], r)
    else if us[|us| - 1].route == r then Some(us[|us| - 1].note) else None
  }

  ghost function NoteUnlessMarked(note: string, mark: string, text: string): string {
    if Contains(text, mark) then "" else note
  }

  /** The sandbox answered some spelling of the operation. */
  ghost predicate Answered(t: Tables, key: (string, string)) {
    exists u :: u in t.unrouted && PathTemplates.Normalise(u.route.verb, u.route.path) == key
  }

  lemma AnsweredAreKeys(t: Tables, key: (string, string))
    ensures Answered(t, key) <==> key in UnroutedKeys(t)
  {
  }

  /** The text a run appends to a description: the sandbox's answer where there is one, else
      the warning that nothing vouches for the operation, and neither one twice. */
  ghost function Appended(t: Tables, r: Route, text: string): string {
    var key := PathTemplates.Normalise(r.verb, r.path);
    match NoteFor(t.unrouted, r)
    case Some(note) => NoteUnlessMarked(note, t.unroutedMark, text)
    case None =>
      if key in t.vouched || Answered(t, key) then "" else
          NoteUnlessMarked(t.unverifiedNote, t.unverifiedMark, text)
  }

  lemma {:induction false} NoteForIsListed(us: seq<Unrouted>, r: Route)
    ensures NoteFor(us, r).Some? <==> exists u :: u in us && u.route == r
    decreases |us|
  {
    if us == [] {
    } else {
      NoteForIsListed(us[..|us| - 1], r);
      assert forall u :: u in us <==> u in us[..|us| - 1] || u == us[|us| - 1];
    }
  }

  /** The operation once the table of unrouted operations has been gone through. */
  ghost function Noted(t: Tables, us: seq<Unrouted>, r: Route, operation: Json): Json {
    match NoteFor(us, r)
    case Some(note) =>
      if operation.Obj? && !Contains(Description(operation.fields, t.render), t.unroutedMark)
      then Annotate(operation.fields, note, t.render) else operation
    case None => operation
  }

  lemma {:induction false} UnroutedOp(t: Tables, paths: Paths, us: seq<Unrouted>, r: Route)
    requires forall u :: u in us ==> Contains(u.note, t.unroutedMark)
    requires Op(paths, r).Some?
    ensures Op(MarkUnrouted(t, paths, us), r) == Some(Noted(t, us, r, Op(paths, r).value))
    decreases |us|
  {
    if us == [] {
    } else {
      var earlier, last := us[..|us| - 1], us[|us| - 1];
      assert last in us && forall u :: u in earlier ==> u in us;
      UnroutedOp(t, paths, earlier, r);
      var soFar := MarkUnrouted(t, paths, earlier);
      if NoteFor(earlier, r).Some? {
        NoteForIsListed(earlier, r);
        UnroutedAreNoted(t, paths, earlier);
        var u :| u in earlier && u.route == r;
        assert !NeedsNote(t, soFar, u);
      }
      if NeedsNote(t, soFar, last) {
        var fields := Op(soFar, last.route).value.fields;
        SetOpView(soFar, last.route, Annotate(fields, last.note, t.render), r);
      }
    }
  }

  /** An operation with a text appended to its description, or left alone when there is none. */
  ghost function WithNote(operation: Json, note: string, render: Json -> string): Json {
    if !operation.Obj? || note == "" then operation
    else Obj(operation.fields["description" := Str(Description(operation.fields, render) + note)])
  }

  /** Every operation of the result, key by key: the one expected, with what is appended to
      its description, and exactly as it was when nothing is. */
  lemma OperationsAreExact(t: Tables, paths: Paths, r: Route)
    requires WellFormed(t) && r.verb in VERBS
    ensures Op(FinalPaths(t, paths), r) ==
            match Expected(t, paths, r)
            case None => None
            case Some(operation) =>
              if !operation.Obj? then Some(operation)
              else Some(WithNote(operation, Appended(t, r, Description(operation.fields, t.render)), t.render))
  {
    var completed := Completed(t, paths);
    CompletedView(t, paths, r);
    MarkUnverifiedView(t, completed, r);
    MarkUnroutedView(t, MarkUnverified(t, completed), t.unrouted, r);
    if Expected(t, paths, r).Some? {
      UnroutedOp(t, MarkUnverified(t, completed), t.unrouted, r);
      NoteForIsListed(t.unrouted, r);
      AnsweredAreKeys(t, PathTemplates.Normalise(r.verb, r.path));
      AppendedIsWritten(t, r, Expected(t, paths, r).value);
    }
  }

  lemma AppendedIsWritten(t: Tables, r: Route, operation: Json)
    requires WellFormed(t) && r.verb in VERBS
    ensures operation.Obj? ==>
              Noted(t, t.unrouted, r, MarkedOp(t, r, operation)) ==
              WithNote(operation, Appended(t, r, Description(operation.fields, t.render)), t.render)
    ensures !operation.Obj? ==> Noted(t, t.unrouted, r, MarkedOp(t, r, operation)) == operation
  {
    NoteForIsListed(t.unrouted, r);
    AnsweredAreKeys(t, PathTemplates.Normalise(r.verb, r.path));
    NoteForCarriesMark(t.unrouted, r, t.unroutedMark);
    if operation.Obj? {
      var text := Description(operation.fields, t.render);
      EmptyMark(text, t.unroutedMark);
      EmptyMark(text, t.unverifiedMark);
    }
  }

  lemma {:induction false} NoteForCarriesMark(us: seq<Unrouted>, r: Route, mark: string)
    requires forall u :: u in us ==> Contains(u.note, mark)
    ensures NoteFor(us, r).Some? ==> Contains(NoteFor(us, r).value, mark)
    decreases |us|
  {
    if us == [] {
    } else {
      assert us[|us| - 1] in us && forall u :: u in us[..|us| - 1] ==> u in us;
      NoteForCarriesMark(us[..|us| - 1], r, mark);
    }
  }

  /** What is not found anywhere is not empty, so a note that carries it is not either. */
  lemma EmptyMark(text: string, mark: string)
    ensures !Contains(text, mark) ==> mark != "" && !Contains("", mark)
  {
    assert mark == "" ==> OccursAt(text, mark, 0);
  }

  /** The description of every operation of the result, to the letter. */
  lemma NotesAreExact(t: Tables, paths: Paths, r: Route)
    requires WellFormed(t) && r.verb in VERBS
    requires Expected(t, paths, r).Some? && Expected(t, paths, r).value.Obj?
    ensures var result, text := Op(FinalPaths(t, paths), r), Description(Expected(t, paths, r).value.fields, t.render);
      && result.Some? && result.value.Obj?
      && Description(result.value.fields, t.render) == text + Appended(t, r, text)
  {
    var operation := Expected(t, paths, r).value;
    var text := Description(operation.fields, t.render);
    OperationsAreExact(t, paths, r);
    assert text + "" == text;
    AnnotateExtends(operation.fields, Appended(t, r, text), t.render);
  }

  lemma FinalView(t: Tables, paths: Paths, r: Route)
    requires WellFormed(t) && r.verb in VERBS
    ensures Op(FinalPaths(t, paths), r).Some? == Expected(t, paths, r).Some?
    ensures SameBlocks(paths, FinalPaths(t, paths), r.path)
  {
    OperationsAreConserved(t, paths, r);
    CompletedView(t, paths, r);
    MarkUnverifiedView(t, Completed(t, paths), r);
    MarkUnroutedView(t, MarkUnverified(t, Completed(t, paths)), t.unrouted, r);
  }

  lemma {:induction false} CollidingIsListed(paths: Paths, cs: seq<Correction>, c: Correction)
    ensures c in Colliding(paths, cs) <==> c in cs && Collides(paths, c)
    decreases |cs|
  {
    if cs == [] {
    } else {
      var earlier, last := cs[..|cs| - 1], cs[|cs| - 1];
      assert forall d :: d in cs <==> d in earlier || d == last;
      CollidingIsListed(paths, earlier, c);
    }
  }

  lemma {:induction false} MovedView(paths: Paths, cs: seq<Correction>, c: Correction)
    requires CorrectionsApart(cs) && forall d :: d in cs ==> d.verb in VERBS
    ensures c in Moved(paths, cs) <==> c in cs && Movable(paths, c)
    decreases |cs|
  {
    if cs == [] {
    } else {
      var earlier, last := cs[..|cs| - 1], cs[|cs| - 1];
      assert forall d :: d in cs <==> d in earlier || d == last;
      CorrectionsApartPrefix(cs);
      MovedView(paths, earlier, c);
      MoveView(paths, earlier, last.Source());
      MoveView(paths, earlier, last.Target());
      MovedOpExtends(paths, cs, last.Source());
    }
  }

  lemma {:induction false} RemovedView(paths: Paths, rs: seq<Route>, r: Route)
    requires forall q :: q in rs ==> q.verb in VERBS
    ensures r in Removed(paths, rs) <==> r in rs && Op(paths, r).Some?
    decreases |rs|
  {
    if rs == [] {
    } else {
      var earlier, last := rs[..|rs| - 1], rs[|rs| - 1];
      assert forall q :: q in rs <==> q in earlier || q == last;
      RemovedView(paths, earlier, r);
      RemoveView(paths, earlier, last);
    }
  }

  lemma {:induction false} AddedView(paths: Paths, additions: seq<Addition>, r: Route)
    requires forall i, j :: 0 <= i < j < |additions| ==> additions[i].route != additions[j].route
    ensures r in Added(paths, additions) <==> AddedOp(additions, r).Some? && Addable(paths, r)
    decreases |additions|
  {
    if additions == [] {
    } else {
      var earlier, last := additions[..|additions| - 1], additions[|additions| - 1];
      AddedView(paths, earlier, r);
      AddView(paths, earlier, last.route);
      assert forall a :: a in earlier ==> a.route != last.route;
    }
  }

  /** The operation can take a note and does not carry one. */
  ghost predicate TakesNote(t: Tables, operation: Option<Json>) {
    operation.Some? && operation.value.Obj? && !Contains(Description(operation.value.fields, t.render), t.unroutedMark)
  }

  lemma {:induction false} NotedView(t: Tables, paths: Paths, us: seq<Unrouted>, r: Route)
    requires forall u :: u in us ==> Contains(u.note, t.unroutedMark)
    ensures r in UnroutedRoutes(t, paths, us) <==> NoteFor(us, r).Some? && TakesNote(t, Op(paths, r))
    decreases |us|
  {
    if us == [] {
    } else {
      var earlier, last := us[..|us| - 1], us[|us| - 1];
      assert last in us && forall u :: u in earlier ==> u in us;
      NotedView(t, paths, earlier, r);
      NoteForIsListed(earlier, r);
      if last.route == r {
        if NoteFor(earlier, r).Some? {
          var u :| u in earlier && u.route == r;
          UnroutedAreNoted(t, paths, earlier);
          assert !NeedsNote(t, MarkUnrouted(t, paths, earlier), u);
        } else {
          MarkUnroutedView(t, paths, earlier, r);
        }
      }
    }
  }

  lemma {:induction false} UnroutedIsReported(t: Tables, paths: Paths, r: Route)
    requires WellFormed(t) && r.verb in VERBS
    ensures r in UnroutedRoutes(t, MarkUnverified(t, Completed(t, paths)), t.unrouted) <==>
            NoteFor(t.unrouted, r).Some? && TakesNote(t, Expected(t, paths, r))
  {
    var completed := Completed(t, paths);
    CompletedView(t, paths, r);
    MarkUnverifiedView(t, completed, r);
    NotedView(t, MarkUnverified(t, completed), t.unrouted, r);
    NoteForIsListed(t.unrouted, r);
    if u :| u in t.unrouted && u.route == r {
      assert PathTemplates.Normalise(u.route.verb, u.route.path) in UnroutedKeys(t);
    }
  }

  lemma {:induction false} MovesAreReported(t: Tables, paths: Paths, c: Correction)
    requires WellFormed(t)
    ensures c in Moved(paths, t.corrections) <==> c in t.corrections && Movable(paths, c)
    ensures c in Collisions(paths, t.corrections) <==> c in t.corrections && Collides(paths, c)
  {
    MovedView(paths, t.corrections, c);
    CollisionsView(paths, t.corrections);
    CollidingIsListed(paths, t.corrections, c);
  }

  lemma {:induction false} RemovalsAreReported(t: Tables, paths: Paths, r: Route)
    requires WellFormed(t) && r.verb in VERBS
    ensures r in Removed(Move(paths, t.corrections), t.dead) <==> r in t.dead && Op(paths, r).Some?
    ensures r in Removed(Routed(t, paths), t.deprecated) <==> r in t.deprecated && r !in t.dead && Op(paths, r).Some?
  {
    var moved, routed := Move(paths, t.corrections), Routed(t, paths);
    MoveView(paths, t.corrections, r);
    RemoveView(moved, t.dead, r);
    RemovedView(moved, t.dead, r);
    RemovedView(routed, t.deprecated, r);
    assert Retired(t, r) ==> MovedOp(paths, t.corrections, r) == Op(paths, r);
  }

  lemma {:induction false} AdditionsAreReported(t: Tables, paths: Paths, r: Route)
    requires WellFormed(t) && r.verb in VERBS
    ensures r in Added(Surviving(t, paths), t.added) <==>
            AddedOp(t.added, r).Some? && MovedOp(paths, t.corrections, r).None? && !Blocked(paths, r.path)
  {
    MoveView(paths, t.corrections, r);
    RemoveView(Move(paths, t.corrections), t.dead, r);
    RemoveView(Routed(t, paths), t.deprecated, r);
    AddedView(Surviving(t, paths), t.added, r);
    AddView(Surviving(t, paths), t.added, r);
  }

  lemma {:induction false} UnverifiedIsReported(t: Tables, paths: Paths, r: Route)
    requires WellFormed(t) && r.verb in VERBS
    ensures r in UnverifiedRoutes(t, Completed(t, paths)) <==>
            Expected(t, paths, r).Some? && Unverified(t, r, Expected(t, paths, r).value)
  {
    CompletedView(t, paths, r);
    assert r in UnverifiedRoutes(t, Completed(t, paths)) <==>
           Op(Completed(t, paths), r).Some? && Unverified(t, r, Op(Completed(t, paths), r).value);
  }

  /** The report names what changed and nothing else, each entry read off the document the
      run started from. */
  lemma {:induction false} ReportNamesTheChanges(t: Tables, paths: Paths, schemas: Schemas, c: Correction, r: Route)
    requires WellFormed(t) && r.verb in VERBS
    ensures var report := FinalReport(t, paths, schemas);
      && (c in report.moved <==> c in t.corrections && Movable(paths, c))
      && (c in report.collisions <==> c in t.corrections && Collides(paths, c))
      && (r in report.removed <==> r in t.dead && Op(paths, r).Some?)
      && (r in report.deprecated <==> r in t.deprecated && r !in t.dead && Op(paths, r).Some?)
      && (r in report.added <==>
            AddedOp(t.added, r).Some? && MovedOp(paths, t.corrections, r).None? && !Blocked(paths, r.path))
      && (r in report.unverified <==> Expected(t, paths, r).Some? && Unverified(t, r, Expected(t, paths, r).value))
      && (r in report.unrouted <==> NoteFor(t.unrouted, r).Some? && TakesNote(t, Expected(t, paths, r)))
  {
    MovesAreReported(t, paths, c);
    RemovalsAreReported(t, paths, r);
    AdditionsAreReported(t, paths, r);
    UnverifiedIsReported(t, paths, r);
    UnroutedIsReported(t, paths, r);
  }

  /** A path no table names keeps its item, whatever it is: the same keys, and the same
      value under each key that is not a verb. */
  lemma UnnamedPathsAreKept(t: Tables, paths: Paths, path: string)
    requires WellFormed(t)
    requires forall c :: c in t.corrections ==> c.wrong != path && c.right != path
    requires forall r :: Retired(t, r) ==> r.path != path
    requires forall a :: a in t.added ==> a.route.path != path
    ensures (path in FinalPaths(t, paths)) == (path in paths)
    ensures path in paths ==> (
      var before, after := paths[path], FinalPaths(t, paths)[path];
      if before.Obj? then
        && after.Obj? && after.fields.Keys == before.fields.Keys
        && forall k :: k in before.fields && k !in VERBS ==> after.fields[k] == before.fields[k]
      else after == before)
  {
    var completed := Completed(t, paths);
    CompletedKeeps(t, paths, path);
    MarkUnroutedKeeps(t, MarkUnverified(t, completed), t.unrouted, path);
  }

  predicate SameAt(before: Paths, after: Paths, path: string) {
    (path in after) == (path in before) && (path in before ==> after[path] == before[path])
  }

  lemma {:induction false} MoveKeeps(paths: Paths, cs: seq<Correction>, path: string)
    requires forall c :: c in cs ==> c.wrong != path && c.right != path
    ensures SameAt(paths, Move(paths, cs), path)
    decreases |cs|
  {
    if cs == [] {
    } else {
      assert cs[|cs| - 1] in cs && forall c :: c in cs[..|cs| - 1] ==> c in cs;
      MoveKeeps(paths, cs[..|cs| - 1], path);
    }
  }

  lemma {:induction false} RemoveKeeps(paths: Paths, rs: seq<Route>, path: string)
    requires forall r :: r in rs ==> r.path != path
    ensures SameAt(paths, Remove(paths, rs), path)
    decreases |rs|
  {
    if rs == [] {
    } else {
      assert rs[|rs| - 1] in rs && forall r :: r in rs[..|rs| - 1] ==> r in rs;
      RemoveKeeps(paths, rs[..|rs| - 1], path);
    }
  }

  lemma {:induction false} AddKeeps(paths: Paths, additions: seq<Addition>, path: string)
    requires forall a :: a in additions ==> a.route.path != path
    ensures SameAt(paths, Add(paths, additions), path)
    decreases |additions|
  {
    if additions == [] {
    } else {
      assert additions[|additions| - 1] in additions && forall a :: a in additions[..|additions| - 1] ==>
             a in additions;
      AddKeeps(paths, additions[..|additions| - 1], path);
    }
  }

  lemma CompletedKeeps(t: Tables, paths: Paths, path: string)
    requires forall c :: c in t.corrections ==> c.wrong != path && c.right != path
    requires forall r :: Retired(t, r) ==> r.path != path
    requires forall a :: a in t.added ==> a.route.path != path
    ensures SameAt(paths, Completed(t, paths), path)
  {
    MoveKeeps(paths, t.corrections, path);
    RemoveKeeps(Move(paths, t.corrections), t.dead, path);
    RemoveKeeps(Routed(t, paths), t.deprecated, path);
    AddKeeps(Surviving(t, paths), t.added, path);
  }

  /** A note changes one verb of a path item. */
  lemma {:induction false} MarkUnroutedKeeps(t: Tables, paths: Paths, us: seq<Unrouted>, path: string)
    requires forall u :: u in us ==> u.route.verb in VERBS
    ensures MarkUnrouted(t, paths, us).Keys == paths.Keys
    ensures path in paths ==> (
      var before, after := paths[path], MarkUnrouted(t, paths, us)[path];
      if before.Obj? then
        && after.Obj? && after.fields.Keys == before.fields.Keys
        && forall k :: k in before.fields && k !in VERBS ==> after.fields[k] == before.fields[k]
      else after == before)
    decreases |us|
  {
    if us == [] {
    } else {
      assert us[|us| - 1] in us && forall u :: u in us[..|us| - 1] ==> u in us;
      MarkUnroutedKeeps(t, paths, us[..|us| - 1], path);
    }
  }

  /** A verb already declared where a correction points is never overwritten: the
      correction is reported as a collision and both operations stay. */
  lemma {:induction false} CollisionsKeepBoth(t: Tables, paths: Paths, c: Correction)
    requires WellFormed(t) && c in t.corrections && Collides(paths, c)
    ensures c in Collisions(paths, t.corrections)
    ensures Expected(t, paths, c.Target()) == Op(paths, c.Target())
    ensures Expected(t, paths, c.Source()) == Op(paths, c.Source())
  {
    CollisionsView(paths, t.corrections);
    CollidingIsListed(paths, t.corrections, c);
    CorrectionsDiffer(t.corrections);
  }

  lemma CorrectionsDiffer(cs: seq<Correction>)
    requires CorrectionsApart(cs)
    ensures forall c, d :: c in cs && d in cs && (c.Source() == d.Source() || c.Target() == d.Target()) ==> c == d
  {
  }

  /** Every schema of the result: what the provider declares, with the enums of its properties
      opened as the table says, unless only deprecated operations reached it; then the
      component a lift makes; then the observed schema. Nothing else is there. */
  lemma {:induction false} SchemasAreConserved(t: Tables, paths: Paths, schemas: Schemas, name: string)
    ensures var kept := schemas - Orphaned(t, paths, schemas);
      Obj(FinalSchemas(t, paths, schemas)).Get(name) ==
        if name in kept then Some(LiftedSchema(name, schemas[name], t.lifts))
        else match CreatorOf(kept, t.lifts, name)
          case Some(l) => Some(ClosedComponent(Property(schemas, l.schema, l.property).value, l))
          case None => Obj(t.observed).Get(name)
  {
    LiftsAreExact(schemas - Orphaned(t, paths, schemas), t.lifts, name);
  }

  /** A schema no lift names is there as the provider declares it, unless only deprecated
      operations reached it; the observed ones fill what the provider leaves out. */
  lemma UnliftedSchemasAreKept(t: Tables, paths: Paths, schemas: Schemas, name: string)
    requires forall l :: l in t.lifts ==> l.schema != name && l.component != name
    ensures Obj(FinalSchemas(t, paths, schemas)).Get(name) ==
            if name in schemas && name !in Orphaned(t, paths, schemas) then Some(schemas[name])
            else if name in t.observed then Some(t.observed[name])
            else None
  {
    LiftKeepsSchema(schemas - Orphaned(t, paths, schemas), t.lifts, name);
  }

  /** A property of a schema that stays is declared as before, or opened. */
  lemma PropertiesAreConserved(t: Tables, paths: Paths, schemas: Schemas, at: PropertyRef)
    requires at.schema in schemas && at.schema !in Orphaned(t, paths, schemas)
    ensures Property(FinalSchemas(t, paths, schemas), at.schema, at.property) ==
            AfterLift(t.lifts, Property(schemas, at.schema, at.property), at)
  {
    LiftView(schemas - Orphaned(t, paths, schemas), t.lifts, at);
    LiftGrows(schemas - Orphaned(t, paths, schemas), t.lifts);
  }

  // ----- Applying the overlay again -----

  /** A correction is settled by the first run: it collides afterwards exactly when it
      collided before, and there is nothing left to move. */
  lemma CorrectionSettles(t: Tables, paths: Paths, c: Correction)
    requires WellFormed(t) && c in t.corrections
    ensures !Movable(FinalPaths(t, paths), c)
    ensures Collides(FinalPaths(t, paths), c) == Collides(paths, c)
  {
    FinalView(t, paths, c.Source());
    FinalView(t, paths, c.Target());
    CorrectionsDiffer(t.corrections);
    AddView(paths, t.added, c.Source());
    assert TakenFrom(paths, t.corrections, c.Source()) <==> Movable(paths, c);
    assert !TakenFrom(paths, t.corrections, c.Target());
    assert BroughtBy(paths, t.corrections, c.Target(), c) <==> Movable(paths, c);
  }

  lemma {:induction false} NothingToMove(paths: Paths, cs: seq<Correction>)
    requires forall c :: c in cs ==> !Movable(paths, c)
    ensures Move(paths, cs) == paths && Moved(paths, cs) == []
    decreases |cs|
  {
    if cs == [] {
    } else {
      assert cs[|cs| - 1] in cs && forall c :: c in cs[..|cs| - 1] ==> c in cs;
      NothingToMove(paths, cs[..|cs| - 1]);
    }
  }

  lemma {:induction false} SameColliding(before: Paths, after: Paths, cs: seq<Correction>)
    requires forall c :: c in cs ==> Collides(before, c) == Collides(after, c)
    ensures Colliding(before, cs) == Colliding(after, cs)
    decreases |cs|
  {
    if cs == [] {
    } else {
      assert cs[|cs| - 1] in cs && forall c :: c in cs[..|cs| - 1] ==> c in cs;
      SameColliding(before, after, cs[..|cs| - 1]);
    }
  }

  lemma {:induction false} NothingToRemove(paths: Paths, rs: seq<Route>)
    requires forall r :: r in rs ==> Op(paths, r).None?
    ensures Remove(paths, rs) == paths && Removed(paths, rs) == []
    decreases |rs|
  {
    if rs == [] {
    } else {
      assert rs[|rs| - 1] in rs && forall r :: r in rs[..|rs| - 1] ==> r in rs;
      NothingToRemove(paths, rs[..|rs| - 1]);
    }
  }

  lemma {:induction false} NothingToAdd(paths: Paths, additions: seq<Addition>)
    requires forall a :: a in additions ==> !Addable(paths, a.route)
    ensures Add(paths, additions) == paths && Added(paths, additions) == []
    decreases |additions|
  {
    if additions == [] {
    } else {
      assert additions[|additions| - 1] in additions;
      assert forall a :: a in additions[..|additions| - 1] ==> a in additions;
      NothingToAdd(paths, additions[..|additions| - 1]);
    }
  }

  lemma {:induction false} AddedOpFound(additions: seq<Addition>, a: Addition)
    requires a in additions
    ensures AddedOp(additions, a.route).Some?
    decreases |additions|
  {
    if additions[|additions| - 1].route != a.route {
      assert a in additions[..|additions| - 1];
      AddedOpFound(additions[..|additions| - 1], a);
    }
  }

  lemma StaysMarked(before: Json, after: Json, mark: string, render: Json -> string)
    requires SameButDescription(before, after, render)
    requires before.Obj? && Contains(Description(before.fields, render), mark)
    ensures after.Obj? && Contains(Description(after.fields, render), mark)
  {
    if after != before {
      var text, longer := Description(before.fields, render), Description(after.fields, render);
      assert longer == text + longer[|text|..];
      ContainsExtends(text, longer[|text|..], mark);
    }
  }

  lemma NothingUnverified(t: Tables, paths: Paths, r: Route)
    requires WellFormed(t) && Op(FinalPaths(t, paths), r).Some?
    ensures !Unverified(t, r, Op(FinalPaths(t, paths), r).value)
  {
    var completed := Completed(t, paths);
    var marked := MarkUnverified(t, completed);
    MarkUnverifiedView(t, completed, r);
    MarkUnroutedView(t, marked, t.unrouted, r);
    var operation := Op(completed, r).value;
    if Unverified(t, r, operation) {
      var text := Description(operation.fields, t.render);
      AnnotateExtends(operation.fields, t.unverifiedNote, t.render);
      ContainsExtends(text, t.unverifiedNote, t.unverifiedMark);
      StaysMarked(Op(marked, r).value, Op(FinalPaths(t, paths), r).value, t.unverifiedMark, t.render);
    } else if operation.Obj? && Contains(Description(operation.fields, t.render), t.unverifiedMark) {
      StaysMarked(Op(marked, r).value, Op(FinalPaths(t, paths), r).value, t.unverifiedMark, t.render);
    }
  }

  lemma NothingLeftUnverified(t: Tables, paths: Paths)
    requires forall r :: Op(paths, r).Some? ==> !Unverified(t, r, Op(paths, r).value)
    ensures MarkUnverified(t, paths) == paths && UnverifiedRoutes(t, paths) == {}
  {
    forall path | path in paths ensures MarkedItem(t, path, paths[path]) == paths[path] {
      if paths[path].Obj? {
        forall verb | verb in paths[path].fields
          ensures !Unverified(t, Route(verb, path), paths[path].fields[verb])
        {
          assert Op(paths, Route(verb, path)).Some?;
        }
        assert MarkedItem(t, path, paths[path]).fields == paths[path].fields;
      }
    }
    forall r ensures r !in UnverifiedRoutes(t, paths) {
      assert r in UnverifiedRoutes(t, paths) ==> Op(paths, r).Some?;
    }
  }

  lemma {:induction false} UnroutedAreNoted(t: Tables, paths: Paths, us: seq<Unrouted>)
    requires forall u :: u in us ==> Contains(u.note, t.unroutedMark)
    ensures forall u :: u in us ==> !NeedsNote(t, MarkUnrouted(t, paths, us), u)
    decreases |us|
  {
    if us == [] {
    } else {
      var earlier, last := us[..|us| - 1], us[|us| - 1];
      assert last in us && forall u :: u in earlier ==> u in us;
      UnroutedAreNoted(t, paths, earlier);
      forall u | u in us ensures !NeedsNote(t, MarkUnrouted(t, paths, us), u) {
        assert u in earlier || u == last;
        NoteIsTaken(t, MarkUnrouted(t, paths, earlier), last, u);
      }
    }
  }

  lemma NoteIsTaken(t: Tables, paths: Paths, u: Unrouted, other: Unrouted)
    requires Contains(u.note, t.unroutedMark)
    requires other == u || !NeedsNote(t, paths, other)
    ensures !NeedsNote(t, MarkUnroutedOne(t, paths, u), other)
  {
    if NeedsNote(t, paths, u) {
      var fields := Op(paths, u.route).value.fields;
      AnnotateExtends(fields, u.note, t.render);
      ContainsExtends(Description(fields, t.render), u.note, t.unroutedMark);
      SetOpView(paths, u.route, Annotate(fields, u.note, t.render), other.route);
    }
  }

  lemma {:induction false} NothingToNote(t: Tables, paths: Paths, us: seq<Unrouted>)
    requires forall u :: u in us ==> !NeedsNote(t, paths, u)
    ensures MarkUnrouted(t, paths, us) == paths && UnroutedRoutes(t, paths, us) == []
    decreases |us|
  {
    if us == [] {
    } else {
      assert us[|us| - 1] in us && forall u :: u in us[..|us| - 1] ==> u in us;
      NothingToNote(t, paths, us[..|us| - 1]);
    }
  }

  /** The path block of the result is a fixed point of every step, and every list of
      changes but the collisions comes back empty. */
  lemma {:induction false} PathsSettle(t: Tables, paths: Paths)
    requires WellFormed(t)
    ensures var q := FinalPaths(t, paths);
      && Move(q, t.corrections) == q && Moved(q, t.corrections) == []
      && Collisions(q, t.corrections) == Collisions(paths, t.corrections)
      && Remove(q, t.dead) == q && Removed(q, t.dead) == []
      && Remove(q, t.deprecated) == q && Removed(q, t.deprecated) == []
      && Add(q, t.added) == q && Added(q, t.added) == []
      && MarkUnverified(t, q) == q && UnverifiedRoutes(t, q) == {}
      && MarkUnrouted(t, q, t.unrouted) == q && UnroutedRoutes(t, q, t.unrouted) == []
  {
    var q := FinalPaths(t, paths);
    forall c | c in t.corrections ensures !Movable(q, c) && Collides(q, c) == Collides(paths, c) {
      CorrectionSettles(t, paths, c);
    }
    NothingToMove(q, t.corrections);
    CollisionsView(paths, t.corrections);
    CollisionsView(q, t.corrections);
    SameColliding(paths, q, t.corrections);
    forall r | Retired(t, r) ensures Op(q, r).None? {
      FinalView(t, paths, r);
    }
    NothingToRemove(q, t.dead);
    NothingToRemove(q, t.deprecated);
    forall a | a in t.added ensures !Addable(q, a.route) {
      FinalView(t, paths, a.route);
      AddedOpFound(t.added, a);
    }
    NothingToAdd(q, t.added);
    forall r | Op(q, r).Some? ensures !Unverified(t, r, Op(q, r).value) {
      NothingUnverified(t, paths, r);
    }
    NothingLeftUnverified(t, q);
    UnroutedAreNoted(t, MarkUnverified(t, Completed(t, paths)), t.unrouted);
    NothingToNote(t, q, t.unrouted);
  }

  lemma {:induction false} LiftGrows(schemas: Schemas, lifts: seq<Lift>)
    ensures schemas.Keys <= LiftAll(schemas, lifts).Keys
    ensures forall n :: n in schemas && (forall l :: l in lifts ==> l.schema != n) ==>
              LiftAll(schemas, lifts)[n] == schemas[n]
    decreases |lifts|
  {
    if lifts == [] {
    } else {
      assert lifts[|lifts| - 1] in lifts && forall l :: l in lifts[..|lifts| - 1] ==> l in lifts;
      LiftGrows(schemas, lifts[..|lifts| - 1]);
    }
  }

  /** With nothing to prune, the schemas of the result are settled too. */
  lemma {:induction false} SchemasSettle(t: Tables, schemas: Schemas)
    requires WellFormed(t)
    ensures var final := t.observed + LiftAll(schemas, t.lifts);
      t.observed + LiftAll(final, t.lifts) == final
  {
    var final := t.observed + LiftAll(schemas, t.lifts);
    LiftAllSpends(schemas, t.lifts);
    forall l | l in t.lifts ensures !Liftable(final, l) {
      assert l.schema in final ==> final[l.schema] == LiftAll(schemas, t.lifts)[l.schema];
    }
    NothingToLift(final, t.lifts);
  }

  lemma {:induction false} BlocksSettle(t: Tables, paths: Paths, schemas: Schemas)
    requires WellFormed(t)
    ensures var q, final := FinalPaths(t, paths), FinalSchemas(t, paths, schemas);
      && FinalPaths(t, q) == q && FinalSchemas(t, q, final) == final
      && FinalReport(t, q, final) == EMPTY_REPORT.(collisions := Collisions(paths, t.corrections))
  {
    var q, final := FinalPaths(t, paths), FinalSchemas(t, paths, schemas);
    PathsSettle(t, paths);
    SchemasSettle(t, schemas - Orphaned(t, paths, schemas));
    assert Orphaned(t, q, final) == {};
    assert final - {} == final;
  }

  /** Applying the overlay to its own output returns the same document, and a report in
      which nothing but the collisions repeats. */
  lemma ApplyIsIdempotent(t: Tables, document: Document)
    requires WellFormed(t)
    ensures Apply(t, document).Ok? ==> (
      var (patched, report) := Apply(t, document).value;
      Apply(t, patched) == Ok((patched, EMPTY_REPORT.(collisions := report.collisions))))
  {
    if Apply(t, document).Ok? && "paths" in document && document["paths"].Obj? {
      var paths, schemas := document["paths"].fields, SchemasOf(document).fields;
      var q, final := FinalPaths(t, paths), FinalSchemas(t, paths, schemas);
      BlocksSettle(t, paths, schemas);
      BlocksReadBack(document, q, final);
      BlocksReadBack(WithBlocks(document, q, final), q, final);
    }
  }

  lemma BlocksReadBack(document: Document, paths: Paths, schemas: Schemas)
    requires ComponentsOf(document).Obj?
    ensures var patched := WithBlocks(document, paths, schemas);
      && "paths" in patched && patched["paths"] == Obj(paths)
      && ComponentsOf(patched).Obj? && SchemasOf(patched) == Obj(schemas)
      && WithBlocks(patched, paths, schemas) == patched
  {
    var components := ComponentsOf(WithBlocks(document, paths, schemas)).fields;
    assert components["schemas" := Obj(schemas)] == components;
  }
}
