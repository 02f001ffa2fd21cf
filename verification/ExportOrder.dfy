/** The natural order of a generated `__all__`, on ASCII names. */
module ExportOrder {
  // ----- Keys -----

  datatype Part = Word(text: string) | Number(value: nat)

  predicate IsDigit(c: char) { '0' <= c <= '9' }

  predicate AllDigits(text: string) {
    forall i :: 0 <= i < |text| ==> IsDigit(text[i])
  }

  /** The length of the run of digits, or of other characters, that `name` begins with. */
  function RunLength(name: string, digits: bool): (n: nat)
    ensures n <= |name|
    ensures forall i :: 0 <= i < n ==> IsDigit(name[i]) == digits
    ensures n < |name| ==> IsDigit(name[n]) != digits
  {
    if name == "" || IsDigit(name[0]) != digits then 0 else 1 + RunLength(name[1..], digits)
  }

  /** `int(part)`. */
  function Parse(digits: string): nat
    requires AllDigits(digits)
  {
    if digits == "" then 0
    else Parse(digits[..|digits| - 1]) * 10 + (digits[|digits| - 1] - '0') as nat
  }

  function Natural(name: string): seq<Part> {
    if name == "" then [] else
      var digits := IsDigit(name[0]);
      var n := RunLength(name, digits);
      [if digits then Number(Parse(name[..n])) else Word(name[..n])] + Natural(name[n..])
  }

  predicate IsUpper(c: char) { 'A' <= c <= 'Z' }

  predicate IsLower(c: char) { 'a' <= c <= 'z' }

  /** Constants, then classes, then anything else. */
  function Group(name: string): nat {
    if (exists i :: 0 <= i < |name| && IsUpper(name[i])) && (forall i :: 0 <= i < |name| ==> !IsLower(name[i])) then 0
    else if name != "" && IsUpper(name[0]) then 1
    else 2
  }

  // ----- Comparison, as Python compares tuples -----

  /** `Mixed` stands for the `TypeError` of comparing text with a number. */
  datatype Order = Less | Equal | Greater | Mixed

  function Flip(o: Order): Order {
    match o
    case Less => Greater
    case Greater => Less
    case _ => o
  }

  function CompareText(a: string, b: string): Order {
    if a == "" then (if b == "" then Equal else Less)
    else if b == "" then Greater
    else if a[0] == b[0] then CompareText(a[1..], b[1..])
    else if a[0] < b[0] then Less
    else Greater
  }

  function ComparePart(a: Part, b: Part): Order {
    match (a, b)
    case (Word(s), Word(t)) => CompareText(s, t)
    case (Number(m), Number(n)) => if m < n then Less else if m == n then Equal else Greater
    case _ => Mixed
  }

  function Compare(a: seq<Part>, b: seq<Part>): Order {
    if a == [] then (if b == [] then Equal else Less)
    else if b == [] then Greater
    else if ComparePart(a[0], b[0]) == Equal then Compare(a[1..], b[1..])
    else ComparePart(a[0], b[0])
  }

  /** The order of `export_sort_key`. */
  function CompareNames(a: string, b: string): Order {
    if Group(a) < Group(b) then Less
    else if Group(a) > Group(b) then Greater
    else Compare(Natural(a), Natural(b))
  }

  lemma {:induction false} TextOrder(a: string, b: string, c: string)
    ensures CompareText(a, b) == Equal <==> a == b
    ensures CompareText(b, a) == Flip(CompareText(a, b)) && CompareText(a, b) != Mixed
    ensures CompareText(a, b) == Less && CompareText(b, c) == Less ==> CompareText(a, c) == Less
  {
    if a == "" || b == "" {
    } else {
      TextOrder(a[1..], b[1..], if c == "" then "" else c[1..]);
      assert a == [a[0]] + a[1..] && b == [b[0]] + b[1..];
    }
  }

  lemma PartOrder(a: Part, b: Part, c: Part)
    ensures ComparePart(a, b) == Equal <==> a == b
    ensures ComparePart(b, a) == Flip(ComparePart(a, b))
    ensures ComparePart(a, b) == Less && ComparePart(b, c) == Less ==> ComparePart(a, c) == Less
  {
    if a.Word? && b.Word? {
      TextOrder(a.text, b.text, if c.Word? then c.text else "");
    }
  }

  lemma {:induction false} KeyOrder(a: seq<Part>, b: seq<Part>, c: seq<Part>)
    ensures Compare(a, b) == Equal <==> a == b
    ensures Compare(b, a) == Flip(Compare(a, b))
    ensures Compare(a, b) == Less && Compare(b, c) == Less ==> Compare(a, c) == Less
  {
    if a == [] || b == [] {
    } else {
      var third := if c == [] then b[0] else c[0];
      PartOrder(a[0], b[0], third);
      PartOrder(b[0], third, a[0]);
      KeyOrder(a[1..], b[1..], if c == [] then [] else c[1..]);
      assert a == [a[0]] + a[1..] && b == [b[0]] + b[1..];
    }
  }

  // ----- Text and numbers alternate -----

  /** Words stand at the positions of one parity and numbers at the others. */
  predicate Alternates(parts: seq<Part>, wordFirst: bool) {
    forall i :: 0 <= i < |parts| ==> parts[i].Word? == ((i % 2 == 0) == wordFirst)
  }

  lemma {:induction false} NaturalAlternates(name: string)
    ensures name != "" ==> Alternates(Natural(name), !IsDigit(name[0]))
  {
    if name == "" {
    } else {
      var n := RunLength(name, IsDigit(name[0]));
      NaturalAlternates(name[n..]);
    }
  }

  lemma {:induction false} AlternatingNeverMixes(a: seq<Part>, b: seq<Part>, wordFirst: bool)
    requires Alternates(a, wordFirst) && Alternates(b, wordFirst)
    ensures Compare(a, b) != Mixed
  {
    if a == [] || b == [] {
    } else {
      AlternatingNeverMixes(a[1..], b[1..], !wordFirst);
      if a[0].Word? {
        TextOrder(a[0].text, b[0].text, "");
      }
    }
  }

  predicate Exportable(name: string) {
    name != "" ==> !IsDigit(name[0])
  }

  predicate SameKey(a: string, b: string) {
    Group(a) == Group(b) && Natural(a) == Natural(b)
  }

  /** On names that do not begin with a digit, comparing keys never fails and is a total
      order whose ties are exactly the equal keys. */
  lemma NamesAreTotallyOrdered(a: string, b: string, c: string)
    requires Exportable(a) && Exportable(b) && Exportable(c)
    ensures CompareNames(a, b) != Mixed
    ensures CompareNames(a, b) == Equal <==> SameKey(a, b)
    ensures CompareNames(b, a) == Flip(CompareNames(a, b))
    ensures CompareNames(a, b) == Less && CompareNames(b, c) == Less ==> CompareNames(a, c) == Less
  {
    NaturalAlternates(a);
    NaturalAlternates(b);
    AlternatingNeverMixes(Natural(a), Natural(b), true);
    KeyOrder(Natural(a), Natural(b), Natural(c));
  }

  // ----- When the key identifies the name -----

  function Digit(d: nat): char
    requires d < 10
  {
    '0' + d as char
  }

  function Decimal(n: nat): string {
    if n < 10 then [Digit(n)] else Decimal(n / 10) + [Digit(n % 10)]
  }

  /** No run of digits begins with a zero it could do without. */
  ghost predicate Canonical(name: string) {
    name != "" ==>
      var n := RunLength(name, IsDigit(name[0]));
      && (name[0] == '0' ==> n == 1)
      && (n > 0 ==> Canonical(name[n..]))
  }

  ghost function Show(parts: seq<Part>): string {
    if parts == [] then ""
    else (match parts[0] case Word(text) => text case Number(value) => Decimal(value)) + Show(parts[1..])
  }

  lemma {:induction false} DecimalInvertsParse(digits: string)
    requires digits != "" && AllDigits(digits) && (digits[0] == '0' ==> |digits| == 1)
    ensures Decimal(Parse(digits)) == digits
    ensures digits != "0" ==> Parse(digits) > 0
  {
    var init, last := digits[..|digits| - 1], digits[|digits| - 1];
    var d := (last - '0') as nat;
    assert Digit(d) == last;
    assert digits == init + [last];
    if init == "" {
      assert Parse(digits) == d;
    } else {
      DecimalInvertsParse(init);
      assert Parse(digits) / 10 == Parse(init) && Parse(digits) % 10 == d;
    }
  }

  /** The parts of a canonical name rebuild it. */
  lemma {:induction false} PartsRebuildName(name: string)
    requires Canonical(name)
    ensures Show(Natural(name)) == name
  {
    if name == "" {
    } else {
      var digits := IsDigit(name[0]);
      var n := RunLength(name, digits);
      PartsRebuildName(name[n..]);
      assert name == name[..n] + name[n..];
      assert Natural(name)[1..] == Natural(name[n..]);
      if digits {
        DecimalInvertsParse(name[..n]);
      }
    }
  }

  lemma {:induction false} CanonicalKeysDiffer(a: string, b: string)
    requires Canonical(a) && Canonical(b) && SameKey(a, b)
    ensures a == b
  {
    PartsRebuildName(a);
    PartsRebuildName(b);
  }

  /** A word in front of two numerals with one key gives two names with one key. */
  lemma {:induction false} SameWordKeepsKey(word: string, a: string, b: string)
    requires word != "" && (forall i :: 0 <= i < |word| ==> !IsDigit(word[i]))
    requires a != "" && b != "" && IsDigit(a[0]) && IsDigit(b[0]) && Natural(a) == Natural(b)
    ensures Natural(word + a) == Natural(word + b)
  {
    RunIs(word + a, |word|, false);
    RunIs(word + b, |word|, false);
    assert (word + a)[..|word|] == word == (word + b)[..|word|];
    assert (word + a)[|word|..] == a && (word + b)[|word|..] == b;
  }

  lemma {:induction false} NumeralIs(digits: string)
    requires digits != "" && AllDigits(digits)
    ensures Natural(digits) == [Number(Parse(digits))]
  {
    RunIs(digits, |digits|, true);
    assert digits[..|digits|] == digits && digits[|digits|..] == "";
    assert Natural("") == [];
  }

  lemma {:induction false} LeadingZeroAddsNothing(digits: string)
    ensures AllDigits(digits) ==> AllDigits("0" + digits) && Parse("0" + digits) == Parse(digits)
    decreases |digits|
  {
    if digits == "" {
      assert "0" + digits == "0" && "0"[..0] == "" && Parse("") == 0;
    } else {
      LeadingZeroAddsNothing(digits[..|digits| - 1]);
      assert ("0" + digits)[..|digits|] == "0" + digits[..|digits| - 1];
    }
  }

  lemma CapitalisedGroup(name: string)
    requires |name| > 1 && IsUpper(name[0]) && IsLower(name[1])
    ensures Group(name) == 1
  {
  }

  /** A leading zero is enough for two names to share a key. */
  lemma LeadingZeroTies()
    ensures SameKey("Orig1", "Orig01") && "Orig1" != "Orig01"
  {
    LeadingZeroAddsNothing("1");
    NumeralIs("1");
    NumeralIs("01");
    SameWordKeepsKey("Orig", "1", "01");
    assert "Orig" + "1" == "Orig1" && "Orig" + "01" == "Orig01" && "0" + "1" == "01";
    CapitalisedGroup("Orig1");
    CapitalisedGroup("Orig01");
    assert |"Orig1"| != |"Orig01"|;
  }

  lemma {:induction false} RunIs(name: string, n: nat, digits: bool)
    requires n <= |name| && forall i :: 0 <= i < n ==> IsDigit(name[i]) == digits
    requires n < |name| ==> IsDigit(name[n]) != digits
    ensures RunLength(name, digits) == n
  {
    if n == 0 {
    } else {
      RunIs(name[1..], n - 1, digits);
    }
  }

  // ----- Sorting a set of names -----

  predicate InOrder(a: string, b: string) {
    CompareNames(a, b) in {Less, Equal}
  }

  ghost predicate Sorted(xs: seq<string>) {
    forall i, j :: 0 <= i < j < |xs| ==> InOrder(xs[i], xs[j])
  }

  /** `xs` lists each name once, in order. */
  ghost predicate SortedListing(xs: seq<string>, names: set<string>) {
    && (forall x :: x in xs <==> x in names)
    && (forall i, j :: 0 <= i < j < |xs| ==> xs[i] != xs[j])
    && Sorted(xs)
  }

  ghost predicate AllExportable(names: set<string>) {
    forall name :: name in names ==> Exportable(name)
  }

  lemma InOrderTransitive(a: string, b: string, c: string)
    requires Exportable(a) && Exportable(b) && Exportable(c)
    requires InOrder(a, b) && InOrder(b, c)
    ensures InOrder(a, c)
  {
    NamesAreTotallyOrdered(a, b, c);
    NamesAreTotallyOrdered(b, c, a);
    NamesAreTotallyOrdered(a, c, b);
  }

  /** Where `sorted` would place one more name. */
  function Place(xs: seq<string>, name: string): (i: nat)
    ensures i <= |xs|
    ensures i < |xs| ==> !InOrder(xs[i], name)
    ensures i > 0 ==> InOrder(xs[i - 1], name)
  {
    if xs == [] || !InOrder(xs[0], name) then 0
    else 1 + Place(xs[1..], name)
  }

  function Insert(xs: seq<string>, name: string): seq<string> {
    xs[..Place(xs, name)] + [name] + xs[Place(xs, name)..]
  }

  function InsertAt<T>(xs: seq<T>, p: nat, x: T): seq<T>
    requires p <= |xs|
  {
    xs[..p] + [x] + xs[p..]
  }

  /** Inserting between what precedes and what follows keeps any order. */
  lemma InsertKeepsOrder<T>(r: (T, T) -> bool, xs: seq<T>, p: nat, x: T)
    requires p <= |xs|
    requires forall i, j :: 0 <= i < j < |xs| ==> r(xs[i], xs[j])
    requires (forall i :: 0 <= i < p ==> r(xs[i], x)) && (forall i :: p <= i < |xs| ==> r(x, xs[i]))
    ensures var ys := InsertAt(xs, p, x); forall i, j :: 0 <= i < j < |ys| ==> r(ys[i], ys[j])
  {
  }

  lemma InsertKeepsMembers<T>(xs: seq<T>, p: nat, x: T)
    requires p <= |xs|
    ensures forall y :: y in InsertAt(xs, p, x) <==> y in xs || y == x
  {
    assert xs == xs[..p] + xs[p..];
  }

  lemma {:induction false} PlaceDivides(xs: seq<string>, name: string)
    requires Sorted(xs) && Exportable(name) && forall x :: x in xs ==> Exportable(x)
    ensures forall i :: 0 <= i < Place(xs, name) ==> InOrder(xs[i], name)
    ensures forall i :: Place(xs, name) <= i < |xs| ==> InOrder(name, xs[i])
  {
    var p := Place(xs, name);
    forall i | 0 <= i < p ensures InOrder(xs[i], name) {
      if i < p - 1 {
        InOrderTransitive(xs[i], xs[p - 1], name);
      }
    }
    forall i | p <= i < |xs| ensures InOrder(name, xs[i]) {
      NamesAreTotallyOrdered(xs[p], name, name);
      if p < i {
        InOrderTransitive(name, xs[p], xs[i]);
      }
    }
  }

  lemma InsertKeepsListing(xs: seq<string>, names: set<string>, name: string)
    requires SortedListing(xs, names) && name !in names && AllExportable(names + {name})
    ensures SortedListing(Insert(xs, name), names + {name})
  {
    var p := Place(xs, name);
    assert Insert(xs, name) == InsertAt(xs, p, name);
    assert forall x :: x in xs ==> x in names;
    PlaceDivides(xs, name);
    InsertKeepsOrder((a, b) => InOrder(a, b), xs, p, name);
    InsertKeepsOrder((a: string, b: string) => a != b, xs, p, name);
    InsertKeepsMembers(xs, p, name);
  }

  /** `sorted(names, key=export_sort_key)`, taking the names in any order. */
  method SortNames(names: set<string>) returns (xs: seq<string>)
    requires AllExportable(names)
    ensures SortedListing(xs, names)
  {
    xs := [];
    var todo := names;
    while todo != {}
      invariant todo <= names && SortedListing(xs, names - todo)
    {
      var name :| name in todo;
      InsertKeepsListing(xs, names - todo, name);
      assert names - todo + {name} == names - (todo - {name});
      xs := Insert(xs, name);
      todo := todo - {name};
    }
    assert names - {} == names;
  }

  method ExpectedExports(handWritten: seq<string>, generated: seq<seq<string>>) returns (xs: seq<string>)
    requires AllExportable(Exported(handWritten, generated))
    ensures SortedListing(xs, Exported(handWritten, generated))
    ensures forall x :: x in xs <==> x in handWritten || exists i :: 0 <= i < |generated| && x in generated[i]
  {
    var names := set name | name in handWritten;
    for i := 0 to |generated|
      invariant names == Exported(handWritten, generated[..i])
    {
      assert generated[..i + 1][..i] == generated[..i];
      names := names + set name | name in generated[i];
    }
    assert generated[..|generated|] == generated;
    ExportedIsUnion(handWritten, generated);
    xs := SortNames(names);
  }

  lemma {:induction false} ExportedIsUnion(handWritten: seq<string>, generated: seq<seq<string>>)
    ensures forall x :: x in Exported(handWritten, generated) <==>
              x in handWritten || exists i :: 0 <= i < |generated| && x in generated[i]
  {
    if generated == [] {
    } else {
      var earlier := generated[..|generated| - 1];
      ExportedIsUnion(handWritten, earlier);
      assert forall i :: 0 <= i < |earlier| ==> earlier[i] == generated[i];
    }
  }

  /** Every hand-written name and every generated one. */
  function Exported(handWritten: seq<string>, generated: seq<seq<string>>): set<string> {
    if generated == [] then set name | name in handWritten
    else
      var last := generated[|generated| - 1];
      Exported(handWritten, generated[..|generated| - 1]) + set name | name in last
  }

  lemma {:induction false} SortedListingExists(names: set<string>) returns (xs: seq<string>)
    requires AllExportable(names)
    ensures SortedListing(xs, names)
  {
    if names == {} {
      xs := [];
    } else {
      var name :| name in names;
      var rest := SortedListingExists(names - {name});
      InsertKeepsListing(rest, names - {name}, name);
      assert names - {name} + {name} == names;
      xs := Insert(rest, name);
    }
  }

  ghost predicate KeysDiffer(names: set<string>) {
    forall a, b :: a in names && b in names && SameKey(a, b) ==> a == b
  }

  lemma ListingTail(xs: seq<string>, names: set<string>)
    requires SortedListing(xs, names) && xs != []
    ensures SortedListing(xs[1..], names - {xs[0]})
  {
    assert xs == [xs[0]] + xs[1..];
    assert forall i :: 0 <= i < |xs[1..]| ==> xs[1..][i] == xs[i + 1];
  }

  lemma ListingHead(xs: seq<string>, names: set<string>, y: string)
    requires SortedListing(xs, names) && y in names && AllExportable(names)
    ensures xs != [] && xs[0] in names && InOrder(xs[0], y)
  {
    assert y in xs;
    var i :| 0 <= i < |xs| && xs[i] == y;
    assert xs[0] in xs;
    if i == 0 {
      NamesAreTotallyOrdered(y, y, y);
    }
  }

  lemma FirstIsListed(xs: seq<string>, names: set<string>)
    requires SortedListing(xs, names)
    ensures xs != [] ==> xs[0] in names
  {
  }

  lemma HeadsAgree(xs: seq<string>, ys: seq<string>, names: set<string>)
    requires AllExportable(names) && KeysDiffer(names) && names != {}
    requires SortedListing(xs, names) && SortedListing(ys, names)
    ensures xs != [] && ys != [] && xs[0] == ys[0]
  {
    var any :| any in names;
    ListingHead(xs, names, any);
    ListingHead(ys, names, any);
    ListingHead(xs, names, ys[0]);
    ListingHead(ys, names, xs[0]);
    NamesAreTotallyOrdered(xs[0], ys[0], any);
    assert SameKey(xs[0], ys[0]);
  }

  lemma {:induction false} SortedListingsAgree(xs: seq<string>, ys: seq<string>, names: set<string>)
    requires AllExportable(names) && KeysDiffer(names)
    requires SortedListing(xs, names) && SortedListing(ys, names)
    ensures xs == ys
    decreases names
  {
    if names == {} {
      FirstIsListed(xs, names);
      FirstIsListed(ys, names);
    } else {
      HeadsAgree(xs, ys, names);
      ListingHead(xs, names, ys[0]) by { assert ys[0] in ys; }
      ListingTail(xs, names);
      ListingTail(ys, names);
      SortedListingsAgree(xs[1..], ys[1..], names - {xs[0]});
      assert xs == [xs[0]] + xs[1..] && ys == [ys[0]] + ys[1..];
    }
  }

  function Swap<T>(xs: seq<T>, i: nat, j: nat): (ys: seq<T>)
    requires i < |xs| && j < |xs|
    ensures |ys| == |xs|
    ensures forall k :: 0 <= k < |xs| ==> ys[k] == if k == i then xs[j] else if k == j then xs[i] else xs[k]
  {
    xs[i := xs[j]][j := xs[i]]
  }

  lemma SwapKeepsMembers<T>(xs: seq<T>, i: nat, j: nat)
    requires i < |xs| && j < |xs|
    ensures forall x :: x in Swap(xs, i, j) <==> x in xs
  {
    assert multiset(Swap(xs, i, j)) == multiset(xs);
    assert forall x :: x in xs <==> x in multiset(xs);
  }

  /** Exchanging two names with the same key leaves a sorted listing. */
  lemma SwappedListing(xs: seq<string>, names: set<string>, i: nat, j: nat)
    requires SortedListing(xs, names) && i < |xs| && j < |xs| && i != j && SameKey(xs[i], xs[j])
    ensures SortedListing(Swap(xs, i, j), names)
  {
    var ys := Swap(xs, i, j);
    forall k, l | 0 <= k < l < |ys| ensures InOrder(ys[k], ys[l]) {
      KeyDecidesOrder(xs[k], xs[l], ys[k], ys[l]);
    }
    SwapKeepsMembers(xs, i, j);
  }

  lemma KeyDecidesOrder(a: string, b: string, c: string, d: string)
    requires SameKey(a, c) && SameKey(b, d)
    ensures InOrder(a, b) == InOrder(c, d)
  {
  }

  /** The export list does not depend on the order the set is iterated in exactly when no
      two names share a key. */
  lemma OrderIsUniqueExactlyWhenKeysDiffer(names: set<string>)
    requires AllExportable(names)
    ensures (forall xs, ys :: SortedListing(xs, names) && SortedListing(ys, names) ==> xs == ys) <==> KeysDiffer(names)
  {
    if KeysDiffer(names) {
      forall xs, ys | SortedListing(xs, names) && SortedListing(ys, names) ensures xs == ys {
        SortedListingsAgree(xs, ys, names);
      }
    } else {
      var a, b :| a in names && b in names && SameKey(a, b) && a != b;
      var xs := SortedListingExists(names);
      assert a in xs && b in xs;
      var i :| 0 <= i < |xs| && xs[i] == a;
      var j :| 0 <= j < |xs| && xs[j] == b;
      SwappedListing(xs, names, i, j);
      assert Swap(xs, i, j)[i] != xs[i];
    }
  }

  // ----- Which order it is -----

  /** A name in capitals: some letter, and none in lower case. */
  ghost predicate IsConstant(name: string) {
    (exists c :: c in name && 'A' <= c <= 'Z') && forall c :: c in name ==> !('a' <= c <= 'z')
  }

  /** A capitalised name that is not in capitals throughout. */
  ghost predicate IsClass(name: string) {
    !IsConstant(name) && name != "" && 'A' <= name[0] <= 'Z'
  }

  lemma {:induction false} GroupIsExact(name: string)
    ensures Group(name) == if IsConstant(name) then 0 else if IsClass(name) then 1 else 2
  {
    assert forall i :: 0 <= i < |name| ==> name[i] in name;
  }

  /** At the first place where they differ, `a` ends or has the smaller character. */
  ghost predicate TextBefore(a: string, b: string) {
    exists i :: 0 <= i <= |a| && i < |b| && a[..i] == b[..i] && (i == |a| || a[i] < b[i])
  }

  lemma {:induction false} TextBeforeBelow(a: string, b: string)
    requires a != "" && b != "" && a[0] == b[0]
    ensures TextBefore(a, b) <==> TextBefore(a[1..], b[1..])
  {
    if TextBefore(a, b) {
      var i :| 0 <= i <= |a| && i < |b| && a[..i] == b[..i] && (i == |a| || a[i] < b[i]);
      assert i > 0 && a[1..][..i - 1] == a[..i][1..] == b[..i][1..] == b[1..][..i - 1];
    }
    if TextBefore(a[1..], b[1..]) {
      var i :| 0 <= i <= |a[1..]| && i < |b[1..]| && a[1..][..i] == b[1..][..i] &&
        (i == |a[1..]| || a[1..][i] < b[1..][i]);
      assert a[..i + 1] == [a[0]] + a[1..][..i] && b[..i + 1] == [b[0]] + b[1..][..i];
    }
  }

  lemma {:induction false} TextIsAlphabetical(a: string, b: string)
    ensures CompareText(a, b) == Less <==> TextBefore(a, b)
  {
    if a == "" {
      assert b != "" ==> a[..0] == b[..0];
    } else if b == "" {
    } else if a[0] == b[0] {
      TextIsAlphabetical(a[1..], b[1..]);
      TextBeforeBelow(a, b);
    } else {
      assert a[..0] == b[..0];
      assert forall i :: 0 < i <= |a| && i < |b| ==> a[..i][0] != b[..i][0];
    }
  }

  ghost predicate PartBefore(a: Part, b: Part) {
    || (a.Word? && b.Word? && TextBefore(a.text, b.text))
    || (a.Number? && b.Number? && a.value < b.value)
  }

  /** At the first part where they differ, `a` ends or has the smaller one. */
  ghost predicate KeyBefore(a: seq<Part>, b: seq<Part>) {
    exists i :: 0 <= i <= |a| && i < |b| && a[..i] == b[..i] && (i == |a| || PartBefore(a[i], b[i]))
  }

  lemma {:induction false} PartsCompareByValue(a: Part, b: Part)
    ensures ComparePart(a, b) == Less <==> PartBefore(a, b)
  {
    if a.Word? && b.Word? {
      TextIsAlphabetical(a.text, b.text);
    }
  }

  lemma {:induction false} KeyBeforeBelow(a: seq<Part>, b: seq<Part>)
    requires a != [] && b != [] && a[0] == b[0] && !PartBefore(a[0], b[0])
    ensures KeyBefore(a, b) <==> KeyBefore(a[1..], b[1..])
  {
    if KeyBefore(a, b) {
      var i :| 0 <= i <= |a| && i < |b| && a[..i] == b[..i] && (i == |a| || PartBefore(a[i], b[i]));
      assert i > 0 && a[1..][..i - 1] == a[..i][1..] == b[..i][1..] == b[1..][..i - 1];
    }
    if KeyBefore(a[1..], b[1..]) {
      var i :| 0 <= i <= |a[1..]| && i < |b[1..]| && a[1..][..i] == b[1..][..i] &&
        (i == |a[1..]| || PartBefore(a[1..][i], b[1..][i]));
      assert a[..i + 1] == [a[0]] + a[1..][..i] && b[..i + 1] == [b[0]] + b[1..][..i];
    }
  }

  lemma {:induction false} KeysComparePartByPart(a: seq<Part>, b: seq<Part>)
    ensures Compare(a, b) == Less <==> KeyBefore(a, b)
  {
    if a == [] {
      assert b != [] ==> a[..0] == b[..0];
    } else if b == [] {
    } else {
      PartOrder(a[0], b[0], a[0]);
      PartsCompareByValue(a[0], b[0]);
      if a[0] == b[0] {
        KeysComparePartByPart(a[1..], b[1..]);
        KeyBeforeBelow(a, b);
      } else {
        assert a[..0] == b[..0];
        assert forall i :: 0 < i <= |a| && i < |b| ==> a[..i][0] != b[..i][0];
      }
    }
  }

  /** In an export list constants come before classes and classes before the rest, and within
      each of the three no name follows one with a greater key. */
  lemma {:induction false} ListingIsGrouped(xs: seq<string>, names: set<string>, i: nat, j: nat)
    requires SortedListing(xs, names) && AllExportable(names) && i < j < |xs|
    ensures IsConstant(xs[j]) ==> IsConstant(xs[i])
    ensures IsClass(xs[j]) ==> IsConstant(xs[i]) || IsClass(xs[i])
    ensures IsConstant(xs[i]) == IsConstant(xs[j]) && IsClass(xs[i]) == IsClass(xs[j]) ==>
              !KeyBefore(Natural(xs[j]), Natural(xs[i]))
  {
    GroupIsExact(xs[i]);
    GroupIsExact(xs[j]);
    assert InOrder(xs[i], xs[j]);
    KeyOrder(Natural(xs[i]), Natural(xs[j]), []);
    KeysComparePartByPart(Natural(xs[j]), Natural(xs[i]));
  }

  /** After the same word, numerals compare by value: 9 comes before 10. */
  lemma {:induction false} NumeralsCompareByValue(word: string, m: nat, n: nat)
    requires word != "" && forall i :: 0 <= i < |word| ==> !IsDigit(word[i])
    ensures KeyBefore(Natural(word + Decimal(m)), Natural(word + Decimal(n))) <==> m < n
  {
    KeyOfNumbered(word, m);
    KeyOfNumbered(word, n);
    var a, b := Natural(word + Decimal(m)), Natural(word + Decimal(n));
    assert a[0] == b[0] && !TextBefore(word, word) by { TextOrder(word, word, word); TextIsAlphabetical(word, word); }
    if m < n {
      assert a[..1] == b[..1] && PartBefore(a[1], b[1]);
    }
    KeysComparePartByPart(a, b);
    assert a[1..] == [Number(m)] && b[1..] == [Number(n)];
    PartOrder(a[0], b[0], a[0]);
  }

  lemma {:induction false} KeyOfNumbered(word: string, n: nat)
    requires word != "" && forall i :: 0 <= i < |word| ==> !IsDigit(word[i])
    ensures Natural(word + Decimal(n)) == [Word(word), Number(n)]
  {
    var digits := Decimal(n);
    ParseInvertsDecimal(n);
    RunIs(word + digits, |word|, false);
    assert (word + digits)[..|word|] == word && (word + digits)[|word|..] == digits;
    NumeralIs(digits);
  }

  lemma {:induction false} ParseInvertsDecimal(n: nat)
    ensures Decimal(n) != "" && AllDigits(Decimal(n)) && Parse(Decimal(n)) == n
  {
    if n < 10 {
      assert Decimal(n)[..0] == "" && Parse("") == 0;
    } else {
      ParseInvertsDecimal(n / 10);
      var digits := Decimal(n);
      assert digits[..|digits| - 1] == Decimal(n / 10);
    }
  }
}
