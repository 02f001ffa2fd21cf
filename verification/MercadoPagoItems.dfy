/** What the Mercado Pago overlay makes of the keys of a path item that are not verbs, such
    as the parameters its operations share. */
module MercadoPagoItems {
  import opened Json
  import opened MercadoPagoOverlay
  import opened MercadoPagoProperties

  /** An operation is taken from the path: a correction leaves it, or an operation of it is
      retired. */
  predicate TakenFromPath(t: Tables, path: string) {
    || (exists c :: c in t.corrections && c.wrong == path)
    || (exists r :: r in t.dead && r.path == path)
    || (exists r :: r in t.deprecated && r.path == path)
  }

  predicate GivenToPath(t: Tables, path: string) {
    (exists c :: c in t.corrections && c.right == path) || (exists a :: a in t.added && a.route.path == path)
  }

  /** No path the tables take an operation from is one they give an operation to. */
  ghost predicate PathsApart(t: Tables) {
    forall path :: !(TakenFromPath(t, path) && GivenToPath(t, path))
  }

  function OtherKeys(item: Json): map<string, Json> {
    if item.Obj? then item.fields - VERBS else map[]
  }

  predicate SameOthers(before: Json, after: Json) {
    after.Obj? == before.Obj? && OtherKeys(after) == OtherKeys(before) && (before.Obj? || after == before)
  }

  predicate SameVerbs(before: Json, after: Json) {
    before.Obj? && after.Obj? && forall verb :: verb in VERBS ==> (verb in after.fields <==> verb in before.fields)
  }

  // ----- A path operations are taken from -----

  /** The item is gone, or keeps its other keys and at least one verb, unless it has lost no
      verb. It is gone only when it had one. */
  ghost predicate KeptOrGone(before: Paths, after: Paths, path: string) {
    && (path in after ==> (
          && path in before && SameOthers(before[path], after[path])
          && (after[path].Obj? ==> SameVerbs(before[path], after[path]) || AnyVerb(after[path].fields))))
    && (path in before && path !in after ==> before[path].Obj? && AnyVerb(before[path].fields))
    && (path in before && path in after && before[path].Obj? && AnyVerb(after[path].fields) ==>
       AnyVerb(before[path].fields))
  }

  lemma DeleteKeepsOrDrops(paths: Paths, r: Route, path: string)
    requires Op(paths, r).Some? && r.verb in VERBS
    ensures KeptOrGone(paths, DeleteOp(paths, r), path)
  {
    var rest := paths[r.path].fields - {r.verb};
    assert AnyVerb(paths[r.path].fields);
    if path == r.path && AnyVerb(rest) {
      assert DeleteOp(paths, r)[path] == Obj(rest);
      assert rest - VERBS == paths[path].fields - VERBS;
    }
  }

  lemma KeptOrGoneTwice(a: Paths, b: Paths, c: Paths, path: string)
    requires KeptOrGone(a, b, path) && KeptOrGone(b, c, path)
    ensures KeptOrGone(a, c, path)
  {
  }

  lemma {:induction false} MoveTakes(paths: Paths, cs: seq<Correction>, path: string)
    requires forall c :: c in cs ==> c.verb in VERBS && c.right != path
    ensures KeptOrGone(paths, Move(paths, cs), path)
    decreases |cs|
  {
    if cs == [] {
    } else {
      var earlier, last := Move(paths, cs[..|cs| - 1]), cs[|cs| - 1];
      assert last in cs && forall c :: c in cs[..|cs| - 1] ==> c in cs;
      MoveTakes(paths, cs[..|cs| - 1], path);
      if Movable(earlier, last) {
        var grown := SetOp(earlier, last.Target(), Op(earlier, last.Source()).value);
        SetOpView(earlier, last.Target(), Op(earlier, last.Source()).value, last.Source());
        DeleteKeepsOrDrops(grown, last.Source(), path);
        assert SameAt(earlier, grown, path);
        KeptOrGoneTwice(paths, earlier, MoveOne(earlier, last), path);
      }
    }
  }

  lemma {:induction false} RemoveTakes(paths: Paths, rs: seq<Route>, path: string)
    requires forall r :: r in rs ==> r.verb in VERBS
    ensures KeptOrGone(paths, Remove(paths, rs), path)
    decreases |rs|
  {
    if rs == [] {
    } else {
      var earlier, last := Remove(paths, rs[..|rs| - 1]), rs[|rs| - 1];
      assert last in rs && forall r :: r in rs[..|rs| - 1] ==> r in rs;
      RemoveTakes(paths, rs[..|rs| - 1], path);
      if Op(earlier, last).Some? {
        DeleteKeepsOrDrops(earlier, last, path);
        KeptOrGoneTwice(paths, earlier, DeleteOp(earlier, last), path);
      }
    }
  }

  // ----- A path nothing is taken from -----

  /** The item stays and keeps its other keys; a new one has none. */
  ghost predicate KeptOrNew(before: Paths, after: Paths, path: string) {
    && (path in before ==> path in after && SameOthers(before[path], after[path]))
    && (path in after && path !in before ==> after[path].Obj? && OtherKeys(after[path]) == map[])
  }

  lemma SetKeepsOrAdds(paths: Paths, r: Route, operation: Json, path: string)
    requires !Blocked(paths, r.path) && r.verb in VERBS
    ensures KeptOrNew(paths, SetOp(paths, r, operation), path)
  {
    if path == r.path {
      var item := if path in paths then paths[path].fields else map[];
      assert item[r.verb := operation] - VERBS == item - VERBS;
    }
  }

  lemma {:induction false} MoveGives(paths: Paths, cs: seq<Correction>, path: string)
    requires forall c :: c in cs ==> c.verb in VERBS && c.wrong != path
    ensures KeptOrNew(paths, Move(paths, cs), path)
    decreases |cs|
  {
    if cs == [] {
    } else {
      var earlier, last := Move(paths, cs[..|cs| - 1]), cs[|cs| - 1];
      assert last in cs && forall c :: c in cs[..|cs| - 1] ==> c in cs;
      MoveGives(paths, cs[..|cs| - 1], path);
      if Movable(earlier, last) {
        var operation := Op(earlier, last.Source()).value;
        SetKeepsOrAdds(earlier, last.Target(), operation, path);
        SetOpView(earlier, last.Target(), operation, last.Source());
        assert SameAt(SetOp(earlier, last.Target(), operation), MoveOne(earlier, last), path);
      }
    }
  }

  lemma {:induction false} AddGives(paths: Paths, additions: seq<Addition>, path: string)
    requires forall a :: a in additions ==> a.route.verb in VERBS
    ensures KeptOrNew(paths, Add(paths, additions), path)
    decreases |additions|
  {
    if additions == [] {
    } else {
      var earlier, last := Add(paths, additions[..|additions| - 1]), additions[|additions| - 1];
      assert last in additions && forall a :: a in additions[..|additions| - 1] ==> a in additions;
      AddGives(paths, additions[..|additions| - 1], path);
      if Addable(earlier, last.route) {
        SetKeepsOrAdds(earlier, last.route, last.operation, path);
      }
    }
  }

  // ----- The notes -----

  /** Notes change what is under verbs and add no key. */
  ghost predicate OnlyNoted(before: Paths, after: Paths, path: string) {
    && (path in after) == (path in before)
    && (path in before ==> SameOthers(before[path], after[path]))
    && (path in before && before[path].Obj? ==> SameVerbs(before[path], after[path]))
  }

  lemma {:induction false} NotesAreNotes(t: Tables, paths: Paths, path: string)
    requires forall u :: u in t.unrouted ==> u.route.verb in VERBS
    ensures OnlyNoted(paths, MarkUnrouted(t, MarkUnverified(t, paths), t.unrouted), path)
  {
    MarkUnroutedKeeps(t, MarkUnverified(t, paths), t.unrouted, path);
    if path in paths && paths[path].Obj? {
      var before, after := paths[path].fields, MarkUnrouted(t, MarkUnverified(t, paths), t.unrouted)[path].fields;
      assert after.Keys == before.Keys;
      assert forall k :: k in before && k !in VERBS ==> after[k] == before[k];
      assert after - VERBS == before - VERBS;
    }
  }

  // ----- The finished document -----

  lemma TakenPath(t: Tables, paths: Paths, path: string)
    requires WellFormed(t) && !GivenToPath(t, path)
    ensures KeptOrGone(paths, FinalPaths(t, paths), path)
  {
    var moved, routed, surviving := Move(paths, t.corrections), Routed(t, paths), Surviving(t, paths);
    assert forall r :: r in t.dead || r in t.deprecated ==> Retired(t, r);
    MoveTakes(paths, t.corrections, path);
    RemoveTakes(moved, t.dead, path);
    KeptOrGoneTwice(paths, moved, routed, path);
    RemoveTakes(routed, t.deprecated, path);
    KeptOrGoneTwice(paths, routed, surviving, path);
    AddKeeps(surviving, t.added, path);
    NotesAreNotes(t, Completed(t, paths), path);
    NotedAfterTaken(paths, Completed(t, paths), FinalPaths(t, paths), path);
  }

  lemma NotedAfterTaken(a: Paths, b: Paths, c: Paths, path: string)
    requires KeptOrGone(a, b, path) && OnlyNoted(b, c, path)
    ensures KeptOrGone(a, c, path)
  {
  }

  lemma UntakenPath(t: Tables, paths: Paths, path: string)
    requires WellFormed(t) && !TakenFromPath(t, path)
    ensures KeptOrNew(paths, FinalPaths(t, paths), path)
  {
    var moved, surviving := Move(paths, t.corrections), Surviving(t, paths);
    MoveGives(paths, t.corrections, path);
    RemoveKeeps(moved, t.dead, path);
    RemoveKeeps(Routed(t, paths), t.deprecated, path);
    AddGives(surviving, t.added, path);
    NotesAreNotes(t, Completed(t, paths), path);
  }

  /** The path declares at least one operation, and none is to be declared in the end. */
  ghost predicate Emptied(t: Tables, paths: Paths, path: string) {
    && (exists verb :: verb in VERBS && Op(paths, Route(verb, path)).Some?)
    && forall verb :: verb in VERBS ==> Expected(t, paths, Route(verb, path)).None?
  }

  lemma EmptiedIsTaken(t: Tables, paths: Paths, path: string)
    requires WellFormed(t) && Emptied(t, paths, path)
    ensures TakenFromPath(t, path)
  {
    var verb :| verb in VERBS && Op(paths, Route(verb, path)).Some?;
    var r := Route(verb, path);
    assert Expected(t, paths, r).None?;
    if !Retired(t, r) {
      assert TakenFrom(paths, t.corrections, r);
    }
  }

  lemma GoneIsEmptied(t: Tables, paths: Paths, path: string)
    requires WellFormed(t) && path in paths
    requires !GivenToPath(t, path)
    ensures path !in FinalPaths(t, paths) <==> Emptied(t, paths, path)
  {
    var final := FinalPaths(t, paths);
    TakenPath(t, paths, path);
    forall verb | verb in VERBS
      ensures Op(final, Route(verb, path)).Some? == Expected(t, paths, Route(verb, path)).Some?
    {
      FinalView(t, paths, Route(verb, path));
    }
    if path !in final {
      var verb :| verb in VERBS && verb in paths[path].fields;
      assert Op(paths, Route(verb, path)).Some?;
    }
  }

  /** The other keys of a path item stay with their path: they go with it when its last
      operation goes, which is the only way a path goes, and no operation takes them along
      to the path it is moved to. */
  lemma OtherKeysStayWithTheirPath(t: Tables, paths: Paths, path: string)
    requires WellFormed(t) && PathsApart(t)
    ensures var final := FinalPaths(t, paths);
      && (path in paths ==> (path !in final <==> Emptied(t, paths, path)))
      && (path in final ==> OtherKeys(final[path]) == if path in paths then OtherKeys(paths[path]) else map[])
  {
    if TakenFromPath(t, path) {
      TakenPath(t, paths, path);
      if path in paths {
        GoneIsEmptied(t, paths, path);
      }
    } else {
      UntakenPath(t, paths, path);
      if Emptied(t, paths, path) {
        EmptiedIsTaken(t, paths, path);
      }
    }
  }
}
