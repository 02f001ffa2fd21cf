/** Path templates: the normal form operations are compared in, and the placeholders
    an added operation declares as parameters. */
module PathTemplates {
  import opened Text

  /** `re.sub(r"\{[^}]*\}", "{}", path)`: a brace opens a placeholder when some brace
      closes it, and the first one that does ends it. */
  function Collapse(path: string): string {
    if path == "" then ""
    else if path[0] == '{' && '}' in path then "{}" + Collapse(path[Find(path, '}') + 1..])
    else [path[0]] + Collapse(path[1..])
  }

  /** The key an operation is looked up under. */
  function Normalise(verb: string, path: string): (string, string) {
    var collapsed := RStrip(Collapse(path), '/');
    (Upper(verb), if collapsed == "" then "/" else collapsed)
  }

  lemma {:induction false} CollapseIsIdempotent(path: string)
    ensures Collapse(Collapse(path)) == Collapse(path)
    ensures '}' !in path ==> Collapse(path) == path
  {
    if path == "" {
    } else {
      if path[0] == '{' && '}' in path {
        var rest := path[Find(path, '}') + 1..];
        CollapseIsIdempotent(rest);
        var once := "{}" + Collapse(rest);
        assert once[0] == '{' && once[1] == '}' && once[..1] == "{";
        assert Find(once, '}') == 1;
        assert once[2..] == Collapse(rest);
      } else {
        CollapseIsIdempotent(path[1..]);
        assert [path[0]] + path[1..] == path;
        assert ([path[0]] + Collapse(path[1..]))[1..] == Collapse(path[1..]);
      }
    }
  }

  /** Cutting a trailing slash off a collapsed path leaves a collapsed path. */
  lemma {:induction false} BracesFirst(path: string)
    requires Collapse(path + "/") == path + "/" && path != "" && path[0] == '{' && '}' in path
    ensures |path| >= 2 && path[..2] == "{}" && Find(path, '}') == 1
    ensures Collapse(path[2..] + "/") == path[2..] + "/"
  {
    var longer := path + "/";
    var end := Find(longer, '}');
    assert longer == "{}" + Collapse(longer[end + 1..]);
    assert longer[1] == '}' && path[..2] == "{}";
    assert end == 1 by { assert longer[..1] == "{"; }
    assert longer[2..] == path[2..] + "/";
  }

  lemma {:induction false} CollapsedWithoutSlash(path: string)
    requires Collapse(path + "/") == path + "/"
    ensures Collapse(path) == path
  {
    if path == "" {
    } else {
      var longer := path + "/";
      if path[0] == '{' && '}' in path {
        BracesFirst(path);
        CollapsedWithoutSlash(path[2..]);
        assert path == path[..2] + path[2..];
      } else {
        assert !(longer[0] == '{' && '}' in longer);
        assert longer[1..] == path[1..] + "/";
        assert ([path[0]] + Collapse(longer[1..]))[1..] == longer[1..];
        CollapsedWithoutSlash(path[1..]);
        assert path == [path[0]] + path[1..];
      }
    }
  }

  lemma {:induction false} CollapsedWithoutSlashes(path: string)
    requires Collapse(path) == path
    ensures Collapse(RStrip(path, '/')) == RStrip(path, '/')
    ensures RStrip(RStrip(path, '/'), '/') == RStrip(path, '/')
  {
    if path != "" && path[|path| - 1] == '/' {
      var shorter := path[..|path| - 1];
      assert shorter + "/" == path;
      CollapsedWithoutSlash(shorter);
      CollapsedWithoutSlashes(shorter);
    }
  }

  /** A key is its own spelling: normalising it again changes nothing. */
  lemma NormaliseIsIdempotent(verb: string, path: string)
    ensures var (v, p) := Normalise(verb, path); Normalise(v, p) == (v, p)
  {
    CollapseIsIdempotent(path);
    CollapsedWithoutSlashes(Collapse(path));
    var (v, p) := Normalise(verb, path);
    assert Upper(v) == v;
    assert Collapse("/") == "/" && RStrip("/", '/') == "";
  }

  // ----- Placeholders -----

  /** The placeholder one chunk of `path.split("{")[1:]` begins with: what precedes the
      first closing brace, or the whole chunk when none does. */
  function Head(chunk: string): string {
    chunk[..Find(chunk, '}')]
  }

  function Heads(chunks: seq<string>): seq<string> {
    if chunks == [] then []
    else (if Head(chunks[0]) != "" then [Head(chunks[0])] else []) + Heads(chunks[1..])
  }

  function Placeholders(path: string): seq<string> {
    Heads(Split(path, '{')[1..])
  }

  method PathParameters(path: string) returns (names: seq<string>)
    ensures names == Placeholders(path)
  {
    names := [];
    var chunks := Split(path, '{')[1..];
    for i := 0 to |chunks|
      invariant names + Heads(chunks[i..]) == Heads(chunks)
    {
      assert chunks[i..][1..] == chunks[i + 1..];
      var head := Head(chunks[i]);
      if head != "" {
        names := names + [head];
      }
    }
  }

  // ----- Well-formed templates -----

  datatype Piece = Lit(text: string) | Param(name: string)

  ghost predicate WellFormed(pieces: seq<Piece>) {
    forall i :: 0 <= i < |pieces| ==>
      match pieces[i]
      case Lit(text) => '{' !in text && '}' !in text
      case Param(name) => name != "" && '{' !in name && '}' !in name
  }

  ghost function Render(pieces: seq<Piece>): string {
    if pieces == [] then "" else
      (match pieces[0] case Lit(text) => text case Param(name) => "{" + name + "}") + Render(pieces[1..])
  }

  ghost function Names(pieces: seq<Piece>): seq<string> {
    if pieces == [] then [] else
      (if pieces[0].Param? then [pieces[0].name] else []) + Names(pieces[1..])
  }

  /** `path` spelled with balanced, named, unnested placeholders. */
  ghost predicate IsTemplate(path: string) {
    exists pieces :: WellFormed(pieces) && Render(pieces) == path
  }

  /** Puts the names back into the empty placeholders, left to right. */
  ghost function Refill(skeleton: string, names: seq<string>): string {
    if skeleton == "" then ""
    else if "{}" <= skeleton && names != [] then "{" + names[0] + "}" + Refill(skeleton[2..], names[1..])
    else [skeleton[0]] + Refill(skeleton[1..], names)
  }

  lemma {:induction false} CollapseSkipsText(text: string, rest: string)
    requires '{' !in text
    ensures Collapse(text + rest) == text + Collapse(rest)
  {
    if text == "" {
      assert text + rest == rest;
    } else {
      assert (text + rest)[1..] == text[1..] + rest;
      CollapseSkipsText(text[1..], rest);
    }
  }

  lemma {:induction false} RefillSkipsText(text: string, rest: string, names: seq<string>)
    requires '{' !in text
    ensures Refill(text + rest, names) == text + Refill(rest, names)
  {
    if text == "" {
      assert text + rest == rest;
    } else {
      var all := text + rest;
      assert all[0] == text[0] && all[1..] == text[1..] + rest;
      assert !("{}" <= all);
      RefillSkipsText(text[1..], rest, names);
      assert [text[0]] + (text[1..] + Refill(rest, names)) == text + Refill(rest, names);
    }
  }

  lemma {:induction false} SplitSkipsText(text: string, rest: string)
    requires '{' !in text
    ensures Split(text + rest, '{')[1..] == Split(rest, '{')[1..]
    ensures Split(text + rest, '{')[0] == text + Split(rest, '{')[0]
  {
    if text == "" {
      assert text + rest == rest;
    } else {
      assert (text + rest)[1..] == text[1..] + rest;
      SplitSkipsText(text[1..], rest);
    }
  }

  lemma {:induction false} FindAfter(text: string, rest: string, c: char)
    requires c !in text
    ensures Find(text + [c] + rest, c) == |text|
  {
    if text == "" {
    } else {
      FindAfter(text[1..], rest, c);
      assert (text + [c] + rest)[1..] == text[1..] + [c] + rest;
    }
  }

  lemma {:induction false} AfterPlaceholder(name: string, rest: string)
    requires '{' !in name && '}' !in name
    ensures Collapse("{" + name + "}" + rest) == "{}" + Collapse(rest)
    ensures Placeholders("{" + name + "}" + rest) == (if name == "" then [] else [name]) + Placeholders(rest)
  {
    var path := "{" + name + "}" + rest;
    FindAfter("{" + name, rest, '}');
    assert "{" + name + ['}'] + rest == path;
    assert path[|name| + 2..] == rest;
    assert path[1..] == (name + "}") + rest;
    SplitSkipsText(name + "}", rest);
    var chunk := name + "}" + Split(rest, '{')[0];
    assert Split(path, '{')[1..] == Split(path[1..], '{');
    assert Split(path[1..], '{') == [chunk] + Split(rest, '{')[1..];
    FindAfter(name, Split(rest, '{')[0], '}');
    assert name + ['}'] + Split(rest, '{')[0] == chunk;
    assert Head(chunk) == name;
    assert ([chunk] + Split(rest, '{')[1..])[1..] == Split(rest, '{')[1..];
  }

  lemma {:induction false} TemplateParts(pieces: seq<Piece>)
    requires WellFormed(pieces)
    ensures Placeholders(Render(pieces)) == Names(pieces)
    ensures Refill(Collapse(Render(pieces)), Names(pieces)) == Render(pieces)
  {
    if pieces == [] {
    } else {
      var rest := Render(pieces[1..]);
      TemplateParts(pieces[1..]);
      match pieces[0]
      case Lit(text) =>
        CollapseSkipsText(text, rest);
        RefillSkipsText(text, Collapse(rest), Names(pieces));
        SplitSkipsText(text, rest);
      case Param(name) =>
        AfterPlaceholder(name, rest);
        assert ("{}" + Collapse(rest))[2..] == Collapse(rest);
        assert Names(pieces)[1..] == Names(pieces[1..]);
    }
  }

  /** What normalising a template loses is exactly what `_path_parameters` reads off it. */
  lemma NormaliseLosesOnlyNames(verb: string, path: string)
    requires IsTemplate(path) && path != "" && path[|path| - 1] != '/'
    ensures Refill(Normalise(verb, path).1, Placeholders(path)) == path
  {
    var pieces :| WellFormed(pieces) && Render(pieces) == path;
    TemplateParts(pieces);
    CollapseKeepsLast(path);
  }

  lemma {:induction false} CollapseKeepsLast(path: string)
    requires path != ""
    ensures Collapse(path) != "" && Collapse(path)[|Collapse(path)| - 1] == path[|path| - 1]
  {
    var skip := if path[0] == '{' && '}' in path then Find(path, '}') + 1 else 1;
    if skip < |path| {
      CollapseKeepsLast(path[skip..]);
    } else {
      assert path[skip..] == "" && Collapse("") == "";
    }
  }

  // ----- One key for every spelling -----

  /** The template with its names left out. */
  ghost function Skeleton(pieces: seq<Piece>): string {
    if pieces == [] then "" else
      (match pieces[0] case Lit(text) => text case Param(_) => "{}") + Skeleton(pieces[1..])
  }

  lemma {:induction false} CollapseIsSkeleton(pieces: seq<Piece>)
    requires WellFormed(pieces)
    ensures Collapse(Render(pieces)) == Skeleton(pieces)
  {
    if pieces == [] {
    } else {
      CollapseIsSkeleton(pieces[1..]);
      match pieces[0]
      case Lit(text) => CollapseSkipsText(text, Render(pieces[1..]));
      case Param(name) => AfterPlaceholder(name, Render(pieces[1..]));
    }
  }

  /** The same text but for slashes at the end. */
  ghost predicate SameButSlashes(a: string, b: string) {
    && (forall i :: 0 <= i < |a| && i < |b| ==> a[i] == b[i])
    && (forall i :: |b| <= i < |a| ==> a[i] == '/')
    && (forall i :: |a| <= i < |b| ==> b[i] == '/')
  }

  lemma {:induction false} StrippedAlike(a: string, b: string)
    ensures RStrip(a, '/') == RStrip(b, '/') <==> SameButSlashes(a, b)
  {
    var short, other := RStrip(a, '/'), RStrip(b, '/');
    if SameButSlashes(a, b) {
      assert |short| == |other|;
      assert short == other;
    }
  }

  /** Two spellings of an operation have one key exactly when their verbs differ in case only
      and their templates in the names of placeholders and in trailing slashes only. */
  lemma {:induction false} KeysAreEqualExactly(verb: string, pieces: seq<Piece>, other: string, others: seq<Piece>)
    requires WellFormed(pieces) && WellFormed(others)
    ensures Normalise(verb, Render(pieces)) == Normalise(other, Render(others)) <==>
            SameIgnoringCase(verb, other) && SameButSlashes(Skeleton(pieces), Skeleton(others))
  {
    CollapseIsSkeleton(pieces);
    CollapseIsSkeleton(others);
    UpperIgnoresCase(verb, other);
    StrippedAlike(Skeleton(pieces), Skeleton(others));
  }

  /** The key itself: the verb in capitals, and the skeleton without slashes at the end, or the
      root. */
  lemma {:induction false} KeyOfTemplate(verb: string, pieces: seq<Piece>)
    requires WellFormed(pieces)
    ensures var (v, p) := Normalise(verb, Render(pieces));
      && SameIgnoringCase(v, verb) && (forall i :: 0 <= i < |v| ==> !('a' <= v[i] <= 'z'))
      && SameButSlashes(p, Skeleton(pieces)) && p != "" && (p[|p| - 1] == '/' ==> p == "/")
  {
    CollapseIsSkeleton(pieces);
    UpperIgnoresCase(Upper(verb), verb);
    UpperIgnoresCase(verb, verb);
    assert Upper(Upper(verb)) == Upper(verb);
  }
}
