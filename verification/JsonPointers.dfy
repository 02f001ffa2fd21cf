/** JSON pointers (RFC 6901) that address a mapping by keys, and patching what they address. */
module JsonPointers {
  import opened Json
  import opened Text

  // ----- Escaping, sections 3 and 4 of RFC 6901 -----

  function Escape(key: string): string {
    if key == "" then ""
    else (if key[0] == '~' then "~0" else if key[0] == '/' then "~1" else [key[0]]) + Escape(key[1..])
  }

  /** The key with only its tildes escaped, as it stands between the two replacements. */
  ghost function EscapeTildes(key: string): string {
    if key == "" then "" else (if key[0] == '~' then "~0" else [key[0]]) + EscapeTildes(key[1..])
  }

  /** `token.replace("~" + code, replacement)`. */
  function Replace(token: string, code: char, replacement: char): string {
    if token == "" then ""
    else if |token| >= 2 && token[0] == '~' && token[1] == code then
        [replacement] + Replace(token[2..], code, replacement)
    else [token[0]] + Replace(token[1..], code, replacement)
  }

  function Unescape(token: string): string {
    Replace(Replace(token, '1', '/'), '0', '~')
  }

  lemma {:induction false} ReplaceAtCode(code: char, replacement: char, rest: string)
    ensures Replace("~" + [code] + rest, code, replacement) == [replacement] + Replace(rest, code, replacement)
  {
    assert ("~" + [code] + rest)[2..] == rest;
  }

  lemma {:induction false} ReplaceElsewhere(c: char, rest: string, code: char, replacement: char)
    requires c != '~' || (rest != "" && rest[0] != code)
    ensures Replace([c] + rest, code, replacement) == [c] + Replace(rest, code, replacement)
  {
    assert ([c] + rest)[1..] == rest;
  }

  lemma {:induction false} ReplaceTildeZero(rest: string)
    ensures Replace("~0" + rest, '1', '/') == "~0" + Replace(rest, '1', '/')
  {
    ReplaceElsewhere('0', rest, '1', '/');
    ReplaceElsewhere('~', "0" + rest, '1', '/');
    assert "~0" + rest == "~" + ("0" + rest);
    assert "~0" + Replace(rest, '1', '/') == "~" + ("0" + Replace(rest, '1', '/'));
  }

  lemma {:induction false} SlashesComeBack(key: string)
    ensures Replace(Escape(key), '1', '/') == EscapeTildes(key)
  {
    if key == "" {
    } else {
      var rest := Escape(key[1..]);
      SlashesComeBack(key[1..]);
      if key[0] == '~' {
        ReplaceTildeZero(rest);
      } else if key[0] == '/' {
        ReplaceAtCode('1', '/', rest);
        assert "~1" + rest == "~" + "1" + rest;
      } else {
        ReplaceElsewhere(key[0], rest, '1', '/');
      }
    }
  }

  lemma {:induction false} TildesComeBack(key: string)
    ensures Replace(EscapeTildes(key), '0', '~') == key
  {
    if key == "" {
    } else {
      var rest := EscapeTildes(key[1..]);
      TildesComeBack(key[1..]);
      if key[0] == '~' {
        ReplaceAtCode('0', '~', rest);
        assert "~0" + rest == "~" + "0" + rest;
      } else {
        ReplaceElsewhere(key[0], rest, '0', '~');
      }
      assert [key[0]] + key[1..] == key;
    }
  }

  /** The two replacements, in this order, undo the escaping of any key. */
  lemma {:induction false} UnescapeInvertsEscape(key: string)
    ensures Unescape(Escape(key)) == key
  {
    SlashesComeBack(key);
    TildesComeBack(key);
  }

  lemma {:induction false} EscapeHasNoSlash(key: string)
    ensures '/' !in Escape(key)
    ensures Escape(key) == "" <==> key == ""
  {
    if key == "" {
    } else {
      EscapeHasNoSlash(key[1..]);
    }
  }

  // ----- Resolving -----

  function Tokens(pointer: string): seq<string> {
    Split(LStrip(pointer, '/'), '/')
  }

  function Unescaped(tokens: seq<string>): (keys: seq<string>)
    ensures |keys| == |tokens| && forall i :: 0 <= i < |keys| ==> keys[i] == Unescape(tokens[i])
  {
    seq(|tokens|, i requires 0 <= i < |tokens| => Unescape(tokens[i]))
  }

  /** The value a list of keys leads to, through mappings only. */
  function Lookup(document: Json, keys: seq<string>): Option<Json> {
    if keys == [] then Some(document)
    else if !document.Has(keys[0]) then None
    else Lookup(document.fields[keys[0]], keys[1..])
  }

  /** The mapping it leads to. */
  function Mapping(document: Json, keys: seq<string>): Option<map<string, Json>> {
    var found := Lookup(document, keys);
    if found.Some? && found.value.Obj? then Some(found.value.fields) else None
  }

  /** The keys a pointer is read as. */
  function KeysOf(pointer: string): seq<string> {
    Unescaped(Tokens(pointer))
  }

  /** `_resolve`. */
  method Resolve(document: Json, pointer: string) returns (target: Option<map<string, Json>>)
    ensures target == Mapping(document, KeysOf(pointer))
  {
    var node := document;
    var tokens := Split(LStrip(pointer, '/'), '/');
    for i := 0 to |tokens|
      invariant Lookup(document, KeysOf(pointer)) == Lookup(node, KeysOf(pointer)[i..])
    {
      var key := Unescape(tokens[i]);
      assert KeysOf(pointer)[i..][1..] == KeysOf(pointer)[i + 1..];
      if !node.Has(key) {
        return None;
      }
      node := node.fields[key];
    }
    target := if node.Obj? then Some(node.fields) else None;
  }

  /** The pointer to a list of keys: each one escaped, after a slash. */
  function PointerTo(keys: seq<string>): string {
    if keys == [] then "" else "/" + Escape(keys[0]) + PointerTo(keys[1..])
  }

  function Escaped(keys: seq<string>): (tokens: seq<string>)
    ensures |tokens| == |keys| && forall i :: 0 <= i < |tokens| ==> tokens[i] == Escape(keys[i])
  {
    seq(|keys|, i requires 0 <= i < |keys| => Escape(keys[i]))
  }

  lemma {:induction false} PointerIsJoined(keys: seq<string>)
    requires keys != []
    ensures PointerTo(keys) == "/" + Join(Escaped(keys), '/')
  {
    var tokens := Escaped(keys);
    if |keys| > 1 {
      PointerIsJoined(keys[1..]);
      assert tokens[1..] == Escaped(keys[1..]);
      assert Join(tokens, '/') == tokens[0] + ['/'] + Join(tokens[1..], '/');
    } else {
      assert PointerTo(keys[1..]) == "";
      assert Join(tokens, '/') == tokens[0];
    }
  }

  /** Whether a pointer is read back as the keys it was made of: there is at least one, and
      the first is not empty, unless it is alone. Leading slashes are all stripped, so an
      empty first key is lost with what should separate it from the next. */
  predicate ReadsBack(keys: seq<string>) {
    keys != [] && (keys[0] != "" || |keys| == 1)
  }

  lemma {:induction false} KeysReadBack(keys: seq<string>)
    requires ReadsBack(keys)
    ensures KeysOf(PointerTo(keys)) == keys
  {
    var tokens := Escaped(keys);
    forall i | 0 <= i < |keys| ensures '/' !in tokens[i] && Unescape(tokens[i]) == keys[i] {
      EscapeHasNoSlash(keys[i]);
      UnescapeInvertsEscape(keys[i]);
    }
    EscapeHasNoSlash(keys[0]);
    PointerIsJoined(keys);
    var joined := Join(tokens, '/');
    assert ("/" + joined)[1..] == joined;
    assert LStrip(joined, '/') == joined;
    SplitInvertsJoin(tokens, '/');
    assert Tokens(PointerTo(keys)) == tokens;
  }

  /** A document in which the keys lead to an empty mapping, and nothing else does. */
  function Nest(keys: seq<string>): Json {
    if keys == [] then Obj(map[]) else Obj(map[keys[0] := Nest(keys[1..])])
  }

  lemma {:induction false} NestLeads(keys: seq<string>)
    ensures Mapping(Nest(keys), keys) == Some(map[])
  {
    if keys == [] {
    } else {
      NestLeads(keys[1..]);
    }
  }

  lemma {:induction false} LStripPointer(keys: seq<string>)
    requires |keys| >= 1 && keys[0] == ""
    ensures LStrip(PointerTo(keys), '/') == LStrip(PointerTo(keys[1..]), '/')
  {
    assert PointerTo(keys) == "/" + PointerTo(keys[1..]);
    assert PointerTo(keys)[1..] == PointerTo(keys[1..]);
  }

  /** With the leading slashes stripped, the first key read is the first that is not empty. */
  lemma {:induction false} FirstKeyRead(keys: seq<string>)
    ensures KeysOf(PointerTo(keys)) == [""] || KeysOf(PointerTo(keys))[0] != ""
  {
    if keys == [] {
      assert KeysOf("") == [Unescape("")];
    } else if keys[0] == "" {
      LStripPointer(keys);
      FirstKeyRead(keys[1..]);
    } else {
      KeysReadBack(keys);
    }
  }

  /** Resolving a pointer finds the mapping at its keys in every document, or nothing where
      there is none, exactly for the lists of keys that read back. */
  lemma {:induction false} ResolveIsExact(keys: seq<string>)
    ensures (forall document :: Mapping(document, KeysOf(PointerTo(keys))) == Mapping(document, keys)) <==>
            ReadsBack(keys)
  {
    if ReadsBack(keys) {
      KeysReadBack(keys);
    } else {
      var read := KeysOf(PointerTo(keys));
      var nest := Nest(keys);
      NestLeads(keys);
      FirstKeyRead(keys);
      if keys == [] {
        assert nest == Obj(map[]);
        assert Lookup(nest, read) == None;
      } else if read == [""] {
        assert Lookup(nest, read) == Lookup(Nest(keys[1..]), []) by { assert read[1..] == []; }
        assert Mapping(nest, read) == Some(Nest(keys[1..]).fields);
        assert keys[1] in Nest(keys[1..]).fields;
      } else {
        assert !nest.Has(read[0]);
      }
      assert Mapping(nest, read) != Mapping(nest, keys);
    }
  }

  // ----- Patching -----

  /** The document with the value at the keys replaced. */
  function Replaced(document: Json, keys: seq<string>, v: Json): Json
    requires Lookup(document, keys).Some?
  {
    if keys == [] then v
    else Obj(document.fields[keys[0] := Replaced(document.fields[keys[0]], keys[1..], v)])
  }

  /** Neither list of keys leads through the other. */
  predicate Apart(a: seq<string>, b: seq<string>) {
    !(a <= b) && !(b <= a)
  }

  /** Replacing a value changes what is at its keys and below, and what is apart from them
      is what it was. */
  lemma {:induction false} ReplacedIsLocal(document: Json, keys: seq<string>, v: Json, other: seq<string>)
    requires Lookup(document, keys).Some?
    ensures keys <= other ==> Lookup(Replaced(document, keys, v), other) == Lookup(v, other[|keys|..])
    ensures Apart(keys, other) ==> Lookup(Replaced(document, keys, v), other) == Lookup(document, other)
    decreases |keys|
  {
    if keys == [] {
      assert other[0..] == other;
    } else if other != [] && keys[0] == other[0] {
      ReplacedIsLocal(document.fields[keys[0]], keys[1..], v, other[1..]);
      assert keys == [keys[0]] + keys[1..] && other == [other[0]] + other[1..];
      assert keys <= other <==> keys[1..] <= other[1..];
      assert other <= keys <==> other[1..] <= keys[1..];
      if keys <= other {
        assert other[1..][|keys[1..]|..] == other[|keys|..];
      }
    }
  }
}
