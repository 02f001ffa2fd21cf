/** The string operations the sources call, on ASCII text. */
module Text {

  /** `text.find(c)`, with the length standing for "absent". */
  function Find(text: string, c: char): (i: nat)
    ensures i <= |text| && c !in text[..i] && (i < |text| ==> text[i] == c)
  {
    if text == "" || text[0] == c then 0 else
      var i := Find(text[1..], c);
      assert text[..i + 1] == [text[0]] + text[1..][..i];
      i + 1
  }

  /** `text.split(sep)`. */
  function Split(text: string, sep: char): (parts: seq<string>)
    ensures parts != []
  {
    if text == "" then [""]
    else if text[0] == sep then [""] + Split(text[1..], sep)
    else
      var rest := Split(text[1..], sep);
      [[text[0]] + rest[0]] + rest[1..]
  }

  /** `sep.join(parts)`. */
  function Join(parts: seq<string>, sep: char): string {
    if parts == [] then ""
    else if |parts| == 1 then parts[0]
    else parts[0] + [sep] + Join(parts[1..], sep)
  }

  ghost predicate AllFree(parts: seq<string>, c: char) {
    forall i :: 0 <= i < |parts| ==> c !in parts[i]
  }

  lemma {:induction false} SplitFirst(head: string, tail: string, sep: char)
    requires sep !in head
    ensures Split(head, sep) == [head]
    ensures Split(head + [sep] + tail, sep) == [head] + Split(tail, sep)
  {
    if head == "" {
      assert head + [sep] + tail == [sep] + tail;
    } else {
      SplitFirst(head[1..], tail, sep);
      assert (head + [sep] + tail)[1..] == head[1..] + [sep] + tail;
      assert [head[0]] + head[1..] == head;
    }
  }

  lemma {:induction false} SplitInvertsJoin(parts: seq<string>, sep: char)
    requires parts != [] && AllFree(parts, sep)
    ensures Split(Join(parts, sep), sep) == parts
  {
    SplitFirst(parts[0], Join(parts[1..], sep), sep);
    if |parts| > 1 {
      SplitInvertsJoin(parts[1..], sep);
    }
  }

  lemma {:induction false} JoinPrefixed(c: char, parts: seq<string>, sep: char)
    requires parts != []
    ensures Join([[c] + parts[0]] + parts[1..], sep) == [c] + Join(parts, sep)
  {
    var longer := [[c] + parts[0]] + parts[1..];
    assert longer[1..] == parts[1..];
    if |parts| > 1 {
      assert ([c] + parts[0]) + [sep] + Join(parts[1..], sep) == [c] + (parts[0] + [sep] + Join(parts[1..], sep));
    }
  }

  lemma {:induction false} JoinAfterEmpty(parts: seq<string>, sep: char)
    requires parts != []
    ensures Join([""] + parts, sep) == [sep] + Join(parts, sep)
  {
    assert ([""] + parts)[1..] == parts;
    assert "" + [sep] + Join(parts, sep) == [sep] + Join(parts, sep);
  }

  lemma {:induction false} JoinInvertsSplit(text: string, sep: char)
    ensures Join(Split(text, sep), sep) == text
  {
    if text == "" {
    } else {
      JoinInvertsSplit(text[1..], sep);
      assert text == [text[0]] + text[1..];
      if text[0] == sep {
        JoinAfterEmpty(Split(text[1..], sep), sep);
      } else {
        JoinPrefixed(text[0], Split(text[1..], sep), sep);
      }
    }
  }

  lemma {:induction false} SplitIsFree(text: string, sep: char)
    ensures AllFree(Split(text, sep), sep)
  {
    if text == "" {
    } else {
      SplitIsFree(text[1..], sep);
    }
  }

  /** `text.rstrip(c)`. */
  function RStrip(text: string, c: char): (r: string)
    ensures r <= text && (r != "" ==> r[|r| - 1] != c)
    ensures forall i :: |r| <= i < |text| ==> text[i] == c
  {
    if text == "" || text[|text| - 1] != c then text else RStrip(text[..|text| - 1], c)
  }

  /** `text.lstrip(c)`. */
  function LStrip(text: string, c: char): (r: string)
    ensures r == "" || r[0] != c
  {
    if text == "" || text[0] != c then text else LStrip(text[1..], c)
  }

  function UpperChar(c: char): char {
    if 'a' <= c <= 'z' then c - 32 as char else c
  }

  function Upper(text: string): (r: string)
    ensures |r| == |text| && forall i :: 0 <= i < |r| ==> r[i] == UpperChar(text[i])
  {
    seq(|text|, i requires 0 <= i < |text| => UpperChar(text[i]))
  }

  function LowerChar(c: char): char {
    if 'A' <= c <= 'Z' then c + 32 as char else c
  }

  function Lower(text: string): (r: string)
    ensures |r| == |text| && forall i :: 0 <= i < |r| ==> r[i] == LowerChar(text[i])
  {
    seq(|text|, i requires 0 <= i < |text| => LowerChar(text[i]))
  }

  /** The same text but for the case of its letters. */
  ghost predicate SameIgnoringCase(a: string, b: string) {
    && |a| == |b|
    && forall i :: 0 <= i < |a| ==>
         || a[i] == b[i]
         || ('A' <= a[i] <= 'Z' && b[i] as int == a[i] as int + 32)
         || ('A' <= b[i] <= 'Z' && a[i] as int == b[i] as int + 32)
  }

  lemma LowerIgnoresCase(a: string, b: string)
    ensures Lower(a) == Lower(b) <==> SameIgnoringCase(a, b)
    ensures forall i :: 0 <= i < |a| ==> !('A' <= Lower(a)[i] <= 'Z')
  {
    if Lower(a) == Lower(b) {
      assert |a| == |Lower(a)| == |b|;
      forall i | 0 <= i < |a| ensures LowerChar(a[i]) == LowerChar(b[i]) {
        assert Lower(a)[i] == Lower(b)[i];
      }
    }
  }

  lemma UpperIgnoresCase(a: string, b: string)
    ensures Upper(a) == Upper(b) <==> SameIgnoringCase(a, b)
    ensures forall i :: 0 <= i < |a| ==> !('a' <= Upper(a)[i] <= 'z')
  {
    if Upper(a) == Upper(b) {
      assert |a| == |Upper(a)| == |b|;
      forall i | 0 <= i < |a| ensures UpperChar(a[i]) == UpperChar(b[i]) {
        assert Upper(a)[i] == Upper(b)[i];
      }
    }
  }

  /** Only `c` is stripped, and only from the left. */
  lemma {:induction false} LStripCutsPrefix(text: string, c: char)
    ensures |LStrip(text, c)| <= |text| && LStrip(text, c) == text[|text| - |LStrip(text, c)|..]
    ensures forall i :: 0 <= i < |text| - |LStrip(text, c)| ==> text[i] == c
  {
    if text == "" || text[0] != c {
    } else {
      LStripCutsPrefix(text[1..], c);
      assert forall i :: 0 < i < |text| ==> text[i] == text[1..][i - 1];
    }
  }
}
