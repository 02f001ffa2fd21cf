/** Replacing the `__all__` block of a package's `__init__.py`. */
module ExportSplice {
  import opened Json
  import opened Text

  const EXPORTS_START := "__all__: list[str] = ["
  const EXPORTS_END := "]"

  /** `lines.index(line, start)`. */
  method Index(lines: seq<string>, line: string, start: nat) returns (at: Option<nat>)
    requires start <= |lines|
    ensures at == FirstAt(lines, line, start)
  {
    for i := start to |lines|
      invariant FirstAt(lines, line, start) == FirstAt(lines, line, i)
    {
      if lines[i] == line {
        return Some(i);
      }
    }
    at := None;
  }

  function FirstAt(lines: seq<string>, line: string, start: nat): (at: Option<nat>)
    requires start <= |lines|
    ensures at.Some? ==> start <= at.value < |lines| && lines[at.value] == line
    ensures forall i :: start <= i < (if at.Some? then at.value else |lines|) ==> lines[i] != line
    decreases |lines| - start
  {
    if start == |lines| then None
    else if lines[start] == line then Some(start)
    else FirstAt(lines, line, start + 1)
  }

  function Entry(name: string): string {
    "    \"" + name + "\","
  }

  function Entries(names: seq<string>): (r: seq<string>)
    ensures |r| == |names| && forall i :: 0 <= i < |r| ==> r[i] == Entry(names[i])
  {
    seq(|names|, i requires 0 <= i < |names| => Entry(names[i]))
  }

  function Block(names: seq<string>): seq<string> {
    [EXPORTS_START] + Entries(names) + [EXPORTS_END]
  }

  /** The lines of the block: from the first opening line to the first closing line after it. */
  function BlockAt(lines: seq<string>): Option<(nat, nat)> {
    var start := FirstAt(lines, EXPORTS_START, 0);
    if start.None? then None else
      var end := FirstAt(lines, EXPORTS_END, start.value);
      if end.None? then None else Some((start.value, end.value))
  }

  function Spliced(lines: seq<string>, names: seq<string>): Option<seq<string>> {
    var at := BlockAt(lines);
    if at.None? then None else Some(lines[..at.value.0] + Block(names) + lines[at.value.1 + 1..])
  }

  /** `apply_exports`, on the text of the file. No result is the error raised when the block
      is not there. */
  method ApplyExports(text: string, names: seq<string>) returns (written: Option<string>)
    ensures written == Rewritten(text, names)
  {
    var lines := Split(text, '\n');
    var start := Index(lines, EXPORTS_START, 0);
    if start.None? {
      return None;
    }
    var end := Index(lines, EXPORTS_END, start.value);
    if end.None? {
      return None;
    }
    var block := [EXPORTS_START];
    for i := 0 to |names|
      invariant block == [EXPORTS_START] + Entries(names[..i])
    {
      assert Entries(names[..i + 1]) == Entries(names[..i]) + [Entry(names[i])];
      block := block + [Entry(names[i])];
    }
    assert names[..|names|] == names;
    block := block + [EXPORTS_END];
    written := Some(Join(lines[..start.value] + block + lines[end.value + 1..], '\n'));
  }

  function Rewritten(text: string, names: seq<string>): Option<string> {
    var lines := Spliced(Split(text, '\n'), names);
    if lines.None? then None else Some(Join(lines.value, '\n'))
  }

  lemma {:induction false} FirstAtIs(lines: seq<string>, line: string, start: nat, at: nat)
    requires start <= at < |lines| && lines[at] == line
    requires forall i :: start <= i < at ==> lines[i] != line
    ensures FirstAt(lines, line, start) == Some(at)
  {
  }

  /** The new block is found again, at the same place: no entry is a closing line. */
  lemma SplicedBlock(lines: seq<string>, names: seq<string>)
    requires BlockAt(lines).Some?
    ensures var start := BlockAt(lines).value.0;
      BlockAt(Spliced(lines, names).value) == Some((start, start + |names| + 1))
  {
    var (start, end) := BlockAt(lines).value;
    var out := Spliced(lines, names).value;
    var block := Block(names);
    assert forall i :: 0 <= i < start ==> out[i] == lines[i];
    assert forall i :: 0 <= i < |block| ==> out[start + i] == block[i];
    FirstAtIs(out, EXPORTS_START, 0, start);
    forall i | start <= i < start + |names| + 1 ensures out[i] != EXPORTS_END {
      assert out[i] == block[i - start];
      assert block[i - start][0] != EXPORTS_END[0];
    }
    assert out[start + |names| + 1] == block[|names| + 1];
    FirstAtIs(out, EXPORTS_END, start, start + |names| + 1);
  }

  /** The splice keeps every line before and after the block, whatever was in it, and a
      second run with any names replaces exactly what the first one wrote. */
  lemma SpliceIsLocal(lines: seq<string>, names: seq<string>, again: seq<string>)
    requires BlockAt(lines).Some?
    ensures var (start, end) := BlockAt(lines).value;
      var out := Spliced(lines, names).value;
      && out[..start] == lines[..start]
      && out[start..start + |names| + 2] == Block(names)
      && out[start + |names| + 2..] == lines[end + 1..]
      && Spliced(out, again) == Spliced(lines, again)
  {
    SplicedBlock(lines, names);
  }

  lemma BlockIsOneLineEach(lines: seq<string>, names: seq<string>)
    requires AllFree(lines, '\n') && AllFree(names, '\n') && BlockAt(lines).Some?
    ensures AllFree(Spliced(lines, names).value, '\n')
  {
    var (start, end) := BlockAt(lines).value;
    assert forall i :: 0 <= i < |names| ==> '\n' !in Entry(names[i]);
    assert AllFree(Block(names), '\n');
    var out := Spliced(lines, names).value;
    forall i | 0 <= i < |out| ensures '\n' !in out[i] {
      if i < start {
        assert out[i] == lines[i];
      } else if i < start + |names| + 2 {
        assert out[i] == Block(names)[i - start];
      } else {
        assert out[i] == lines[end + 1 + (i - start - |names| - 2)];
      }
    }
  }

  /** Writing the exports again, in the file they were written to, writes the same file; and
      writing others gives what writing them in the first place would have. */
  lemma RewriteIsIdempotent(text: string, names: seq<string>, again: seq<string>)
    requires AllFree(names, '\n') && Rewritten(text, names).Some?
    ensures Rewritten(Rewritten(text, names).value, again) == Rewritten(text, again)
    ensures Rewritten(Rewritten(text, names).value, names) == Rewritten(text, names)
  {
    var lines := Split(text, '\n');
    JoinInvertsSplit(text, '\n');
    SplitIsFree(text, '\n');
    var out := Spliced(lines, names).value;
    BlockIsOneLineEach(lines, names);
    assert out != [];
    SplitInvertsJoin(out, '\n');
    SpliceIsLocal(lines, names, again);
    SpliceIsLocal(lines, names, names);
  }

  /** Nothing is written to a file that has lost its block. */
  lemma {:induction false} NoBlockNoWrite(text: string, names: seq<string>)
    ensures Rewritten(text, names).None? <==>
      var lines := Split(text, '\n');
      forall i, j :: 0 <= i < j < |lines| && lines[i] == EXPORTS_START ==> lines[j] != EXPORTS_END
  {
    var lines := Split(text, '\n');
    var at := BlockAt(lines);
    if at.Some? {
      assert lines[at.value.0] == EXPORTS_START && lines[at.value.1] == EXPORTS_END;
      assert EXPORTS_START[0] != EXPORTS_END[0];
    }
  }

  /** The block line by line: the opening line, each name in quotes with a comma, four spaces
      in, and the closing line. */
  lemma BlockIsExact(names: seq<string>)
    ensures |Block(names)| == |names| + 2
    ensures Block(names)[0] == "__all__: list[str] = [" && Block(names)[|names| + 1] == "]"
    ensures forall i :: 0 <= i < |names| ==> Block(names)[i + 1] == "    \"" + names[i] + "\","
  {
  }

  /** The names are what stands between the quotes: two blocks are equal when their names are. */
  lemma {:induction false} BlockTellsNames(names: seq<string>, others: seq<string>)
    ensures Block(names) == Block(others) <==> names == others
  {
    if Block(names) == Block(others) {
      BlockIsExact(names);
      BlockIsExact(others);
      assert |names| == |others|;
      forall i | 0 <= i < |names| ensures names[i] == others[i] {
        var line := Block(names)[i + 1];
        assert line == Block(others)[i + 1];
        assert line[5..|line| - 2] == names[i] && line[5..|line| - 2] == others[i];
      }
    }
  }
}
