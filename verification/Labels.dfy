/** Memory labels and the filters made of them (schema/memory_labels.go). Lower case is an
    arbitrary function on characters; where it matters it is idempotent and leaves white
    space and everything else apart. */
module Labels {
  import opened Lists
  import opened Text

  /** NormalizeLabel. */
  function Normal(s: string, lower: char -> char): string {
    Lower(Trim(s), lower)
  }

  ghost predicate GoodLower(lower: char -> char) {
    forall c :: lower(lower(c)) == lower(c) && (IsSpace(lower(c)) <==> IsSpace(c))
  }

  // The normal forms in the order in which they first occur.
  function Normalized(labels: seq<string>, lower: char -> char): seq<string> {
    if labels == [] then []
    else
      var front, x := Normalized(labels[..|labels| - 1], lower), Normal(labels[|labels| - 1], lower);
      if x == "" || x in front then front else front + [x]
  }

  method NormalizeLabels(labels: seq<string>, lower: char -> char) returns (out: seq<string>)
    ensures out == Normalized(labels, lower)
  {
    var seen: set<string> := {};
    out := [];
    for i := 0 to |labels|
      invariant out == Normalized(labels[..i], lower) && forall x :: x in seen <==> x in out
    {
      assert labels[..i + 1][..i] == labels[..i];
      var n := Normal(labels[i], lower);
      if n == "" {
        continue;
      }
      if n in seen {
        continue;
      }
      seen := seen + {n};
      out := out + [n];
    }
    assert labels[..|labels|] == labels;
  }

  function SetOf(q: seq<string>): set<string> {
    set x | x in q
  }

  /** The normalized list holds the normal form of each label that has one, and each once. */
  lemma {:induction false} NormalizedMeans(labels: seq<string>, lower: char -> char)
    ensures Distinct(Normalized(labels, lower))
    ensures forall x :: x in Normalized(labels, lower) <==> x != "" && exists s :: s in labels && Normal(s, lower) == x
  {
    if labels == [] {
    } else {
      var before, last := labels[..|labels| - 1], labels[|labels| - 1];
      NormalizedMeans(before, lower);
      assert labels == before + [last];
      assert forall s :: s in labels <==> s in before || s == last;
    }
  }

  /** The order is that of first occurrence: more labels only add at the end. */
  lemma {:induction false} FirstOccurrencesStay(labels: seq<string>, lower: char -> char, k: nat)
    requires k <= |labels|
    ensures Normalized(labels[..k], lower) <= Normalized(labels, lower)
  {
    if k == |labels| {
      assert labels[..k] == labels;
    } else {
      var before := labels[..|labels| - 1];
      assert before[..k] == labels[..k];
      FirstOccurrencesStay(before, lower, k);
    }
  }

  // ------------------------------------------------------------- the order of strings

  /** Bytewise order of UTF-8 strings, which is the order of their characters. */
  predicate Leq(a: string, b: string) {
    a == "" || (b != "" && (a[0] < b[0] || (a[0] == b[0] && Leq(a[1..], b[1..]))))
  }

  lemma {:induction false} LeqIsTotal(a: string, b: string)
    ensures Leq(a, b) || Leq(b, a)
    ensures Leq(a, b) && Leq(b, a) ==> a == b
  {
    if a == "" || b == "" || a[0] != b[0] {
    } else {
      LeqIsTotal(a[1..], b[1..]);
      assert a == [a[0]] + a[1..] && b == [b[0]] + b[1..];
    }
  }

  lemma {:induction false} LeqIsTransitive(a: string, b: string, c: string)
    requires Leq(a, b) && Leq(b, c)
    ensures Leq(a, c)
  {
    if a == "" || !(a[0] == b[0] == c[0]) {
    } else {
      LeqIsTransitive(a[1..], b[1..], c[1..]);
    }
  }

  lemma LeqIsAnOrder()
    ensures Total(Leq) && Antisymmetric(Leq)
  {
    forall a, b
      ensures Leq(a, b) || Leq(b, a)
      ensures Leq(a, b) && Leq(b, a) ==> a == b
    {
      LeqIsTotal(a, b);
    }
    forall a, b, c | Leq(a, b) && Leq(b, c)
      ensures Leq(a, c)
    {
      LeqIsTransitive(a, b, c);
    }
  }

  /** sort.Strings. */
  function SortStrings(q: seq<string>): seq<string> {
    Sort(q, Leq)
  }

  lemma DistinctMultisets(a: seq<string>, b: seq<string>)
    requires Distinct(a) && Distinct(b)
    ensures multiset(a) == multiset(b) <==> SetOf(a) == SetOf(b)
  {
    forall x
      ensures multiset(a)[x] == (if x in a then 1 else 0) && multiset(b)[x] == (if x in b then 1 else 0)
    {
      OnceEach(a, x);
      OnceEach(b, x);
    }
    if multiset(a) == multiset(b) {
      assert forall x :: x in a <==> x in multiset(a);
      assert forall x :: x in b <==> x in multiset(b);
    } else if SetOf(a) == SetOf(b) {
      forall x
        ensures multiset(a)[x] == multiset(b)[x]
      {
        assert x in a <==> x in SetOf(a);
        assert x in b <==> x in SetOf(b);
      }
    }
  }

  // ---------------------------------------------------------- equal sets, equal joins

  /** LabelSetsEqual: by sorting and comparing, and equal as sets of normal forms. */
  method LabelSetsEqual(a: seq<string>, b: seq<string>, lower: char -> char) returns (equal: bool)
    ensures equal <==> SetOf(Normalized(a, lower)) == SetOf(Normalized(b, lower))
  {
    var na := NormalizeLabels(a, lower);
    var nb := NormalizeLabels(b, lower);
    NormalizedMeans(a, lower);
    NormalizedMeans(b, lower);
    SortedEqual(na, nb);
    if |na| != |nb| {
      return false;
    }
    equal := SameStrings(SortStrings(na), SortStrings(nb));
  }

  method SameStrings(sa: seq<string>, sb: seq<string>) returns (same: bool)
    requires |sa| == |sb|
    ensures same <==> sa == sb
  {
    for i := 0 to |sa|
      invariant forall j :: 0 <= j < i ==> sa[j] == sb[j]
    {
      if sa[i] != sb[i] {
        return false;
      }
    }
    return true;
  }

  lemma SortedEqual(a: seq<string>, b: seq<string>)
    requires Distinct(a) && Distinct(b)
    ensures SetOf(a) == SetOf(b) <==> SortStrings(a) == SortStrings(b)
    ensures |SortStrings(a)| == |a| && |SortStrings(b)| == |b|
  {
    DistinctMultisets(a, b);
    LeqIsAnOrder();
    SortSorts(a, Leq);
    SortSorts(b, Leq);
    StringsKept(a);
    StringsKept(b);
    if SetOf(a) == SetOf(b) {
      SortedIsUnique(SortStrings(a), SortStrings(b), Leq);
    }
  }

  const BAR: char := '|'

  /** strings.Join with a bar. */
  function Join(q: seq<string>): string {
    if q == [] then "" else if |q| == 1 then q[0] else q[0] + [BAR] + Join(q[1..])
  }

  /** strings.Split at the bars. */
  function Split(s: string): (pieces: seq<string>)
    ensures pieces != []
  {
    if s == "" then [""]
    else if s[0] == BAR then [""] + Split(s[1..])
    else [[s[0]] + Split(s[1..])[0]] + Split(s[1..])[1..]
  }

  lemma {:induction false} SplitFirst(w: string, rest: string)
    requires BAR !in w
    ensures Split(w) == [w] && Split(w + [BAR] + rest) == [w] + Split(rest)
  {
    if w == "" {
      assert w + [BAR] + rest == [BAR] + rest && ([BAR] + rest)[1..] == rest;
    } else {
      SplitFirst(w[1..], rest);
      assert (w + [BAR] + rest)[1..] == w[1..] + [BAR] + rest;
      assert w == [w[0]] + w[1..];
    }
  }

  // What the bars in these strings separate.
  function Pieces(q: seq<string>): seq<string> {
    if q == [] then [] else Split(q[0]) + Pieces(q[1..])
  }

  lemma {:induction false} InPieces(q: seq<string>, p: string)
    ensures p in Pieces(q) <==> exists x :: x in q && p in Split(x)
  {
    if q == [] {
    } else {
      InPieces(q[1..], p);
      if p in Split(q[0]) {
        assert q[0] in q;
      }
      if x :| x in q[1..] && p in Split(x) {
        assert x in q;
      }
      if x :| x in q && p in Split(x) {
        assert x == q[0] || x in q[1..];
      }
    }
  }

  lemma SamePieces(a: seq<string>, b: seq<string>)
    requires forall x :: x in a <==> x in b
    ensures forall p :: p in Pieces(a) <==> p in Pieces(b)
  {
    forall p
      ensures p in Pieces(a) <==> p in Pieces(b)
    {
      InPieces(a, p);
      InPieces(b, p);
    }
  }

  function Longer(c: char, pieces: seq<string>): seq<string>
    requires pieces != []
  {
    if c == BAR then [""] + pieces else [[c] + pieces[0]] + pieces[1..]
  }

  lemma SplitStep(s: string, t: string)
    requires s != "" && t == s[1..]
    ensures Split(s) == Longer(s[0], Split(t))
  {
  }

  lemma FirstLonger(c: char, p: seq<string>, q: seq<string>)
    requires p != []
    ensures Longer(c, p + q) == Longer(c, p) + q
  {
  }

  lemma {:induction false} SplitAtBar(w: string, rest: string)
    ensures Split(w + [BAR] + rest) == Split(w) + Split(rest)
  {
    if w == "" {
      assert w + [BAR] + rest == [BAR] + rest && ([BAR] + rest)[1..] == rest;
    } else {
      SplitAtBar(w[1..], rest);
      var s := w + [BAR] + rest;
      SplitStep(s, w[1..] + [BAR] + rest);
      SplitStep(w, w[1..]);
      FirstLonger(w[0], Split(w[1..]), Split(rest));
    }
  }

  // Pieces have no bars, and no characters that the string does not have.
  lemma {:induction false} PiecesAreParts(s: string)
    ensures forall p :: p in Split(s) ==> BAR !in p && forall c :: c in p ==> c in s
  {
    if s == "" {
    } else {
      PiecesAreParts(s[1..]);
      assert s == [s[0]] + s[1..];
      var rest := Split(s[1..]);
      assert rest[0] in rest && forall p :: p in rest[1..] ==> p in rest;
    }
  }

  /** Splitting a joined string separates at the labels' own bars as well; without any this is
      a round trip: the labels come back. */
  lemma {:induction false} SplitOfJoin(q: seq<string>)
    requires q != []
    ensures Split(Join(q)) == Pieces(q)
    ensures (forall x :: x in q ==> BAR !in x) ==> Split(Join(q)) == q
  {
    if |q| == 1 {
      assert q[1..] == [] && q == [q[0]];
    } else {
      SplitOfJoin(q[1..]);
      SplitAtBar(q[0], Join(q[1..]));
      JoinMore(q);
      assert q == [q[0]] + q[1..];
    }
    if BAR !in q[0] {
      SplitFirst(q[0], "");
    }
  }

  lemma JoinMore(q: seq<string>)
    requires |q| > 1
    ensures Join(q) == q[0] + [BAR] + Join(q[1..])
  {
  }

  function Joined(labels: seq<string>, lower: char -> char): string {
    Join(SortStrings(Normalized(labels, lower)))
  }

  /** The joined string: empty when there is no label, and otherwise a string whose pieces are
      those of the normal forms, which are, as long as no label has a bar, the normal forms
      themselves in ascending order, each once. */
  method JoinLabelsForVector(labels: seq<string>, lower: char -> char) returns (joined: string)
    ensures joined == Joined(labels, lower)
    ensures joined == "" <==> Normalized(labels, lower) == []
    ensures joined != "" ==> SetOf(Split(joined)) == SetOf(Pieces(Normalized(labels, lower)))
    ensures joined != "" && NoBars(labels, lower) ==>
              && SetOf(Split(joined)) == SetOf(Normalized(labels, lower))
              && Sorted(Split(joined), Leq) && Distinct(Split(joined))
  {
    JoinedMeans(labels, lower);
    var n := NormalizeLabels(labels, lower);
    if |n| == 0 {
      return "";
    }
    joined := Join(SortStrings(n));
  }

  lemma JoinIsEmpty(q: seq<string>)
    requires forall x :: x in q ==> x != ""
    ensures Join(q) == "" <==> q == []
  {
    if q == [] {
    } else {
      assert q[0] in q;
    }
  }

  lemma JoinedMeans(labels: seq<string>, lower: char -> char)
    ensures Joined(labels, lower) == "" <==> Normalized(labels, lower) == []
    ensures Joined(labels, lower) != "" ==>
              SetOf(Split(Joined(labels, lower))) == SetOf(Pieces(Normalized(labels, lower)))
    ensures Joined(labels, lower) != "" && NoBars(labels, lower) ==>
              && SetOf(Split(Joined(labels, lower))) == SetOf(Normalized(labels, lower))
              && Sorted(Split(Joined(labels, lower)), Leq) && Distinct(Split(Joined(labels, lower)))
  {
    var n := Normalized(labels, lower);
    var sorted := SortStrings(n);
    NormalizedMeans(labels, lower);
    StringsKept(n);
    JoinIsEmpty(sorted);
    if n != [] {
      SplitOfJoin(sorted);
      SamePieces(n, sorted);
      LeqIsAnOrder();
      SortSorts(n, Leq);
      PermutationIsDistinct(n, sorted);
    }
  }

  predicate NoBars(labels: seq<string>, lower: char -> char) {
    forall x :: x in Normalized(labels, lower) ==> BAR !in x
  }

  lemma StringsKept(q: seq<string>)
    ensures multiset(SortStrings(q)) == multiset(q) && |SortStrings(q)| == |q|
    ensures forall x :: x in SortStrings(q) <==> x in q
  {
    SortKeeps(q, Leq);
    SameElements(SortStrings(q), q);
  }

  /** Without bars in the labels, the joined string stands for the set of normal forms. */
  lemma JoinsEqualExactly(a: seq<string>, b: seq<string>, lower: char -> char)
    requires NoBars(a, lower) && NoBars(b, lower)
    ensures Joined(a, lower) == Joined(b, lower) <==> SetOf(Normalized(a, lower)) == SetOf(Normalized(b, lower))
  {
    var na, nb := Normalized(a, lower), Normalized(b, lower);
    NormalizedMeans(a, lower);
    NormalizedMeans(b, lower);
    SortedEqual(na, nb);
    if Joined(a, lower) == Joined(b, lower) {
      StringsKept(na);
      StringsKept(nb);
      JoinIsInjective(SortStrings(na), SortStrings(nb));
    }
  }

  lemma JoinIsInjective(p: seq<string>, q: seq<string>)
    requires (forall x :: x in p ==> BAR !in x && x != "") && (forall x :: x in q ==> BAR !in x && x != "")
    requires Join(p) == Join(q)
    ensures p == q
  {
    assert p != [] ==> p[0] in p;
    assert q != [] ==> q[0] in q;
    if p != [] && q != [] {
      SplitOfJoin(p);
      SplitOfJoin(q);
    }
  }

  lemma {:induction false} SomeInk(s: string, c: char)
    requires c in s && !IsSpace(c)
    ensures Ink(s) != ""
  {
    if s[|s| - 1] == c {
    } else {
      assert s == s[..|s| - 1] + [s[|s| - 1]];
      SomeInk(s[..|s| - 1], c);
    }
  }

  lemma BarIsNoSpace()
    ensures !IsSpace(BAR)
  {
    InTableIff(BAR as int, WHITE_SPACE);
  }

  // A label in normal form: trimmed, and lower case leaves it as it is.
  predicate IsPlain(s: string) {
    s != "" && Trim(s) == s
  }

  lemma PlainIsNormal(s: string)
    requires IsPlain(s)
    ensures Normal(s, Same) == s && Normalized([s], Same) == [s]
  {
    assert Lower(s, Same) == s;
    assert [s][..0] == [] && Normalized([], Same) == [];
  }

  lemma TwoPlain(x: string, y: string)
    requires IsPlain(x) && IsPlain(y) && x != y
    ensures Normalized([x, y], Same) == [x, y]
  {
    PlainIsNormal(x);
    PlainIsNormal(y);
    assert [x, y][..1] == [x];
  }

  lemma SortOne(x: string)
    ensures SortStrings([x]) == [x]
  {
    assert [x][..0] == [] && SortStrings([]) == [];
  }

  lemma SortTwo(x: string, y: string)
    requires Leq(x, y) && x != y
    ensures SortStrings([x, y]) == [x, y]
  {
    SortOne(x);
    LeqIsTotal(x, y);
    assert [x, y][..1] == [x];
    assert [x][1..] == [] && Insert([], y, Leq) == [y] && Insert([x], y, Leq) == [x] + [y];
  }

  lemma JoinTwo(x: string, y: string, z: string)
    requires z == x + [BAR] + y
    ensures Join([z]) == Join([x, y])
  {
    JoinMore([x, y]);
    assert [x, y][1..] == [y];
  }

  /** With bars the string says less: the label x|y is joined like the labels x and y. */
  lemma JoinForgetsBars(x: string, y: string, z: string)
    requires IsPlain(x) && IsPlain(y) && z == x + [BAR] + y && IsPlain(z) && Leq(x, y) && x != y
    ensures Joined([z], Same) == Joined([x, y], Same)
    ensures z in Normalized([z], Same) && z !in Normalized([x, y], Same)
  {
    PlainIsNormal(z);
    TwoPlain(x, y);
    SortOne(z);
    SortTwo(x, y);
    JoinTwo(x, y, z);
    assert |z| > |x| && |z| > |y|;
  }

  // ----------------------------------------------------------------- labels in metadata

  /** The values that metadata and filters hold, as far as labels tell them apart. */
  datatype Value = Null | Str(text: string) | Strs(list: seq<string>) | Anys(items: seq<Option<string>>)
      | Other(code: int)

  type Metadata = map<string, Value>

  const MEMORY_LABELS := "memory_labels"
  const PRIMARY_LABEL := "primary_label"
  const LABELS_JOINED := "labels_joined"
  const LABELS_ANY := "__labels_any__"

  // strings.FieldsFunc at commas, bars and semicolons.
  function Fields(s: string, field: string): seq<string> {
    if s == "" then if field == "" then [] else [field]
    else if s[0] == ',' || s[0] == BAR || s[0] == ';' then (if field == "" then [] else [field]) + Fields(s[1..], "")
    else Fields(s[1..], field + [s[0]])
  }

  function Somes(items: seq<Option<string>>): seq<string> {
    if items == [] then []
    else Somes(items[..|items| - 1]) + if items[|items| - 1].Some? then [items[|items| - 1].value] else []
  }

  /** LabelsFromMetadata and LabelsFromVectorFilterLabelsAnyValue. */
  function LabelsIn(v: Value, lower: char -> char): seq<string> {
    match v
    case Strs(list) => Normalized(list, lower)
    case Anys(items) => Normalized(Somes(items), lower)
    case Str(text) => Normalized(Fields(text, ""), lower)
    case _ => []
  }

  function Get(meta: Metadata, key: string): Value {
    if key in meta then meta[key] else Null
  }

  function TextOf(v: Value): string {
    if v.Str? then v.text else ""
  }

  /** The labels that embedding metadata carry: the primary one, the joined and the listed ones. */
  function Carried(meta: Metadata, lower: char -> char): set<string> {
    {Normal(TextOf(Get(meta, PRIMARY_LABEL)), lower)}
    + (set p | p in Split(TextOf(Get(meta, LABELS_JOINED))) :: Normal(p, lower))
    + (set p | p in LabelsIn(Get(meta, MEMORY_LABELS), lower) :: Normal(p, lower))
    - {""}
  }

  predicate HasAny(meta: Metadata, want: seq<string>, lower: char -> char) {
    Normalized(want, lower) == [] || exists w :: w in Normalized(want, lower) && w in Carried(meta, lower)
  }

  /** EmbeddingMetadataHasAnyLabel. */
  method EmbeddingMetadataHasAnyLabel(meta: Metadata, want: seq<string>, lower: char -> char) returns (found: bool)
    ensures found <==> HasAny(meta, want, lower)
  {
    if |want| == 0 {
      return true;
    }
    var normWant := NormalizeLabels(want, lower);
    NormalizedMeans(want, lower);
    if |normWant| == 0 {
      return true;
    }
    var prim := "";
    if PRIMARY_LABEL in meta && meta[PRIMARY_LABEL].Str? {
      prim := Normal(meta[PRIMARY_LABEL].text, lower);
    }
    var joined := JoinedPieces(meta, lower);
    found := OneIsIn(normWant, prim, joined);
    if !found {
      found := OneIsListed(LabelsIn(Get(meta, MEMORY_LABELS), lower), normWant, lower);
    }
  }

  method OneIsIn(normWant: seq<string>, prim: string, joined: set<string>) returns (found: bool)
    ensures found <==> exists w :: w in normWant && (w == prim || w in joined)
  {
    for i := 0 to |normWant|
      invariant forall j :: 0 <= j < i ==> normWant[j] != prim && normWant[j] !in joined
    {
      assert normWant[i] in normWant;
      if normWant[i] == prim {
        return true;
      }
      if normWant[i] in joined {
        return true;
      }
    }
    return false;
  }

  method OneIsListed(listed: seq<string>, normWant: seq<string>, lower: char -> char) returns (found: bool)
    ensures found <==> exists l :: l in listed && Normal(l, lower) in normWant
  {
    for i := 0 to |listed|
      invariant forall j :: 0 <= j < i ==> Normal(listed[j], lower) !in normWant
    {
      var nl := Normal(listed[i], lower);
      for k := 0 to |normWant|
        invariant forall j :: 0 <= j < k ==> normWant[j] != nl
      {
        if nl == normWant[k] {
          return true;
        }
      }
    }
    return false;
  }

  // The empty and the blank string have only one piece, which is blank.
  lemma BlankHasNoPieces(s: string, lower: char -> char)
    requires Trim(s) == ""
    ensures forall p :: p in Split(s) ==> Normal(p, lower) == ""
  {
    InkOfTrim(s);
    BarIsNoSpace();
    if BAR in s {
      SomeInk(s, BAR);
    }
    SplitFirst(s, "");
  }

  method JoinedPieces(meta: Metadata, lower: char -> char) returns (joined: set<string>)
    ensures joined == (set p | p in Split(TextOf(Get(meta, LABELS_JOINED))) :: Normal(p, lower)) - {""}
  {
    joined := {};
    if LABELS_JOINED in meta && meta[LABELS_JOINED].Str? && Trim(meta[LABELS_JOINED].text) != "" {
      var pieces := Split(meta[LABELS_JOINED].text);
      for i := 0 to |pieces|
        invariant joined == (set p | p in pieces[..i] :: Normal(p, lower)) - {""}
      {
        assert pieces[..i + 1] == pieces[..i] + [pieces[i]];
        var n := Normal(pieces[i], lower);
        if n != "" {
          joined := joined + {n};
        }
      }
      assert pieces[..|pieces|] == pieces;
    } else {
      BlankHasNoPieces(TextOf(Get(meta, LABELS_JOINED)), lower);
    }
  }

  // ------------------------------------------------------------------------ filters

  /** VectorSearchHasLabelFilter. */
  predicate HasLabelFilter(filters: Metadata, lower: char -> char) {
    LabelsIn(Get(filters, LABELS_ANY), lower) != []
  }

  /** What one filter asks of the metadata; `same` compares the printed values without case. */
  predicate Meets(meta: Metadata, key: string, v: Value, same: (Value, Value) -> bool, lower: char -> char) {
    if key == LABELS_ANY then HasAny(meta, LabelsIn(v, lower), lower)
    else key in meta && same(meta[key], v)
  }

  predicate MeetsAll(meta: Metadata, filters: Metadata, same: (Value, Value) -> bool, lower: char -> char) {
    forall key :: key in filters ==> Meets(meta, key, filters[key], same, lower)
  }

  method MetadataMatchesVectorSearchFilters(meta: Metadata, filters: Metadata, same: (Value, Value) -> bool,
                                            lower: char -> char)
      returns (matches: bool)
    ensures matches <==> MeetsAll(meta, filters, same, lower)
  {
    var rest := filters.Keys;
    while rest != {}
      invariant rest <= filters.Keys
      invariant forall key :: key in filters && key !in rest ==> Meets(meta, key, filters[key], same, lower)
      decreases |rest|
    {
      var key :| key in rest;
      if key == LABELS_ANY {
        var labs := LabelsIn(filters[key], lower);
        if |labs| > 0 {
          var found := EmbeddingMetadataHasAnyLabel(meta, labs, lower);
          if !found {
            return false;
          }
        }
      } else if !(key in meta && same(meta[key], filters[key])) {
        return false;
      }
      rest := rest - {key};
    }
    return true;
  }

  method FiltersForVectorSearchEngine(filters: Metadata) returns (engine: Metadata)
    ensures engine == filters - {LABELS_ANY}
  {
    engine := map[];
    var rest := filters.Keys;
    while rest != {}
      invariant rest <= filters.Keys
      invariant forall key :: key in engine <==> key in filters && key !in rest && key != LABELS_ANY
      invariant forall key :: key in engine ==> engine[key] == filters[key]
      decreases |rest|
    {
      var key :| key in rest;
      rest := rest - {key};
      if key != LABELS_ANY {
        engine := engine[key := filters[key]];
      }
    }
  }

  /** A search that lets the engine filter without labels and tests the labels afterwards
      finds the same as one with the whole filter. */
  lemma FilterSplits(meta: Metadata, filters: Metadata, same: (Value, Value) -> bool, lower: char -> char)
    ensures MeetsAll(meta, filters, same, lower)
       <==> && MeetsAll(meta, filters - {LABELS_ANY}, same, lower)
            && (HasLabelFilter(filters, lower) ==> HasAny(meta, LabelsIn(filters[LABELS_ANY], lower), lower))
  {
    var engine := filters - {LABELS_ANY};
    if MeetsAll(meta, engine, same, lower) {
      forall key | key in filters && key != LABELS_ANY
        ensures Meets(meta, key, filters[key], same, lower)
      {
        assert key in engine;
      }
    }
  }

  // ----------------------------------------------------------- stored labels are found

  lemma {:induction false} LowerTwice(s: string, lower: char -> char)
    requires GoodLower(lower)
    ensures Trim(Lower(Trim(s), lower)) == Lower(Trim(s), lower) && Normal(Normal(s, lower), lower) == Normal(s, lower)
  {
    var t, n := Trim(s), Normal(s, lower);
    assert n != "" ==> !IsSpace(n[0]) && !IsSpace(n[|n| - 1]);
    assert Trim(n) == n;
    assert Lower(n, lower) == n;
  }

  /** Normalizing twice is normalizing once. */
  lemma NormalIsStable(labels: seq<string>, lower: char -> char)
    requires GoodLower(lower)
    ensures forall x :: x in Normalized(labels, lower) ==> Normal(x, lower) == x
  {
    NormalizedMeans(labels, lower);
    forall x | x in Normalized(labels, lower)
      ensures Normal(x, lower) == x
    {
      var s :| s in labels && Normal(s, lower) == x;
      LowerTwice(s, lower);
    }
  }

  /** The metadata that task_cognify stores with the embedding of a chunk that has labels. */
  ghost predicate StoresLabels(meta: Metadata, labels: seq<string>, lower: char -> char) {
    && MEMORY_LABELS !in meta
    && Get(meta, LABELS_JOINED) == (if Joined(labels, lower) == "" then Null else Str(Joined(labels, lower)))
    && (PRIMARY_LABEL in meta ==> meta[PRIMARY_LABEL].Str? && Normal(meta[PRIMARY_LABEL].text, lower) != "")
  }

  function Primary(meta: Metadata, lower: char -> char): string {
    Normal(TextOf(Get(meta, PRIMARY_LABEL)), lower)
  }

  // What a label filter finds in the joined string: the normal forms of what the bars separate.
  function Findable(labels: seq<string>, lower: char -> char): set<string> {
    (set p | p in Pieces(Normalized(labels, lower)) :: Normal(p, lower)) - {""}
  }

  /** Join, split and lookup together: embeddings stored with labels are found by exactly the
      label filters that share with them, up to case and white space around, the primary label
      or what the bars in the labels separate; without bars these are the labels. */
  lemma StoredLabelsAreFound(meta: Metadata, labels: seq<string>, want: seq<string>, lower: char -> char)
    requires GoodLower(lower) && StoresLabels(meta, labels, lower)
    ensures Carried(meta, lower) == Findable(labels, lower) + {Primary(meta, lower)} - {""}
    ensures NoBars(labels, lower) ==> Findable(labels, lower) == SetOf(Normalized(labels, lower))
    ensures HasAny(meta, want, lower)
       <==> Normalized(want, lower) == []
            || exists w :: w in Normalized(want, lower) && (w == Primary(meta, lower) || w in Findable(labels, lower))
  {
    CarriedIsFindable(meta, labels, lower);
    if NoBars(labels, lower) {
      FindableWithoutBars(labels, lower);
    }
    NormalizedMeans(want, lower);
  }

  /** A stored label is found by its own filter exactly when it has no bar or is the primary. */
  lemma LabelFindsItsOwn(meta: Metadata, labels: seq<string>, x: string, lower: char -> char)
    requires GoodLower(lower) && StoresLabels(meta, labels, lower) && x in Normalized(labels, lower)
    ensures HasAny(meta, [x], lower) <==> BAR !in x || x == Primary(meta, lower)
  {
    NormalIsStable(labels, lower);
    NormalizedMeans(labels, lower);
    CarriedIsFindable(meta, labels, lower);
    FindableHasNoBar(labels, x, lower);
    AskedForOne(meta, x, lower);
  }

  lemma AskedForOne(meta: Metadata, x: string, lower: char -> char)
    requires Normal(x, lower) == x && x != ""
    ensures HasAny(meta, [x], lower) <==> x in Carried(meta, lower)
  {
    assert [x][..0] == [] && Normalized([], lower) == [] && Normalized([x], lower) == [x];
    assert x in [x];
  }

  lemma FindableHasNoBar(labels: seq<string>, x: string, lower: char -> char)
    requires GoodLower(lower) && x in Normalized(labels, lower)
    ensures x in Findable(labels, lower) <==> BAR !in x
  {
    var n := Normalized(labels, lower);
    NormalIsStable(labels, lower);
    NormalizedMeans(labels, lower);
    if BAR !in x {
      assert x in Pieces(n) by {
        SplitFirst(x, "");
        InPieces(n, x);
      }
      assert Normal(x, lower) == x;
    } else if x in Findable(labels, lower) {
      var p :| p in Pieces(n) && Normal(p, lower) == x;
      FromLabels(labels, p, lower);
    }
  }

  lemma FromLabels(labels: seq<string>, p: string, lower: char -> char)
    requires GoodLower(lower) && p in Pieces(Normalized(labels, lower))
    ensures BAR !in Normal(p, lower)
  {
    InPieces(Normalized(labels, lower), p);
    var y :| y in Normalized(labels, lower) && p in Split(y);
    NormalIsStable(labels, lower);
    NormalPieceHasNoBar(y, p, lower);
  }

  lemma NormalPieceHasNoBar(y: string, p: string, lower: char -> char)
    requires Normal(y, lower) == y && p in Split(y)
    ensures BAR !in Normal(p, lower)
  {
    PiecesAreParts(y);
    StableIsLower(y, lower);
    TrimIsPart(p);
    var t := Trim(p);
    forall i | 0 <= i < |t|
      ensures Lower(t, lower)[i] == t[i] != BAR
    {
      assert t[i] in t;
    }
  }

  lemma FindableWithoutBars(labels: seq<string>, lower: char -> char)
    requires GoodLower(lower) && NoBars(labels, lower)
    ensures Findable(labels, lower) == SetOf(Normalized(labels, lower))
  {
    var n := Normalized(labels, lower);
    NormalIsStable(labels, lower);
    NormalizedMeans(labels, lower);
    if n == [] {
    } else {
      SplitOfJoin(n);
      assert Pieces(n) == n;
    }
  }

  // The joined string, whatever its order, holds the pieces of the labels.
  lemma CarriedIsFindable(meta: Metadata, labels: seq<string>, lower: char -> char)
    requires StoresLabels(meta, labels, lower)
    ensures Carried(meta, lower) == Findable(labels, lower) + {Primary(meta, lower)} - {""}
  {
    var n, pieces := Normalized(labels, lower), Split(TextOf(Get(meta, LABELS_JOINED)));
    JoinedMeans(labels, lower);
    EmptyIsNormal(lower);
    if n == [] {
      assert pieces == [""];
    } else {
      assert forall p :: p in pieces <==> p in SetOf(pieces);
      assert forall p :: p in Pieces(n) <==> p in SetOf(Pieces(n));
    }
    SameNormals(pieces, Pieces(n), lower);
    assert LabelsIn(Get(meta, MEMORY_LABELS), lower) == [];
  }

  lemma SameNormals(a: seq<string>, b: seq<string>, lower: char -> char)
    requires forall p :: p != "" ==> (p in a <==> p in b)
    ensures (set p | p in a :: Normal(p, lower)) - {""} == (set p | p in b :: Normal(p, lower)) - {""}
  {
    EmptyIsNormal(lower);
  }

  lemma EmptyIsNormal(lower: char -> char)
    ensures Normal("", lower) == ""
  {
  }

  lemma {:induction false} TrimLeftIsPart(s: string)
    ensures |TrimLeft(s)| <= |s| && forall c :: c in TrimLeft(s) ==> c in s
  {
    if s != [] && IsSpace(s[0]) {
      TrimLeftIsPart(s[1..]);
    }
  }

  lemma TrimIsPart(s: string)
    ensures |Trim(s)| <= |s| && forall c :: c in Trim(s) ==> c in s
  {
    TrimLeftIsPart(s);
    assert Trim(s) <= TrimLeft(s);
  }

  // A normal form has no characters that lower case changes.
  lemma StableIsLower(s: string, lower: char -> char)
    requires Normal(s, lower) == s
    ensures forall c :: c in s ==> lower(c) == c
  {
    TrimKeepsAll(s, Trim(s));
    forall i | 0 <= i < |s|
      ensures lower(s[i]) == s[i]
    {
      assert Lower(s, lower)[i] == s[i];
    }
  }

  // What trimming does not shorten it leaves alone.
  lemma TrimKeepsAll(s: string, t: string)
    requires t == Trim(s) && |t| == |s|
    ensures t == s
  {
    TrimLeftIsPart(s);
    if s != [] && IsSpace(s[0]) {
      TrimLeftIsPart(s[1..]);
    }
  }

  // ------------------------------------------------------ what that means for a caller

  /** A normal form is trimmed and in lower case, character by character. */
  lemma NormalMeans(s: string, lower: char -> char)
    ensures |Normal(s, lower)| == |Trim(s)|
    ensures forall i :: 0 <= i < |Trim(s)| ==> Normal(s, lower)[i] == lower(Trim(s)[i])
  {
  }

  /** The order of labels: a prefix comes first, and otherwise the first difference decides. */
  lemma {:induction false} LeqMeans(a: string, b: string, k: nat)
    requires k <= |a| && k <= |b| && a[..k] == b[..k]
    ensures k == |a| ==> Leq(a, b)
    ensures k == |b| < |a| ==> !Leq(a, b)
    ensures k < |a| && k < |b| && a[k] != b[k] ==> (Leq(a, b) <==> a[k] < b[k])
  {
    if k == 0 {
    } else {
      assert a[0] == a[..k][0] == b[..k][0] == b[0];
      assert a[1..][..k - 1] == a[..k][1..] && b[1..][..k - 1] == b[..k][1..];
      LeqMeans(a[1..], b[1..], k - 1);
    }
  }

  /** Labels are joined with a bar and split at bars, and at nothing else. */
  lemma JoinMeans(a: string, b: string)
    ensures Join([]) == "" && Join([a]) == a && Join([a, b]) == a + "|" + b
    ensures '|' !in a ==> Split(a) == [a] && Split(a + "|" + b) == [a] + Split(b)
  {
    JoinMore([a, b]);
    assert [a, b][1..] == [b];
    if '|' !in a {
      SplitFirst(a, b);
    }
  }

  predicate Separates(c: char) {
    c == ',' || c == '|' || c == ';'
  }

  lemma {:induction false} FieldsAfter(field: string, f: string, rest: string)
    requires (forall c :: c in f ==> !Separates(c)) && (rest != "" ==> Separates(rest[0]))
    ensures Fields(f + rest, field) ==
              (if field + f == "" then [] else [field + f]) + if rest == "" then [] else Fields(rest[1..], "")
    decreases |f|
  {
    if f == "" {
      assert f + rest == rest && field + f == field;
    } else {
      assert f[0] in f && (f + rest)[1..] == f[1..] + rest && field + f == field + [f[0]] + f[1..];
      FieldsAfter(field + [f[0]], f[1..], rest);
    }
  }

  /** A text that holds labels is cut at commas, bars and semicolons, and empty parts do not count. */
  lemma FieldsMean(f: string, sep: char, rest: string)
    requires forall c :: c in f ==> c != ',' && c != '|' && c != ';'
    requires sep == ',' || sep == '|' || sep == ';'
    ensures Fields(f, "") == if f == "" then [] else [f]
    ensures Fields(f + [sep] + rest, "") == (if f == "" then [] else [f]) + Fields(rest, "")
  {
    FieldsAfter("", f, "");
    FieldsAfter("", f, [sep] + rest);
    assert f + "" == f && "" + f == f && f + [sep] + rest == f + ([sep] + rest) && ([sep] + rest)[1..] == rest;
  }

  /** The labels that a metadata value holds, by its type. */
  lemma LabelsInMean(list: seq<string>, items: seq<Option<string>>, text: string, code: int, lower: char -> char)
    ensures SetOf(LabelsIn(Strs(list), lower)) == (set x | x in list && Normal(x, lower) != "" :: Normal(x, lower))
    ensures forall x :: x in LabelsIn(Anys(items), lower) <==>
              x != "" && exists y :: Some(y) in items && Normal(y, lower) == x
    ensures LabelsIn(Str(text), lower) == Normalized(Fields(text, ""), lower)
    ensures LabelsIn(Null, lower) == [] && LabelsIn(Other(code), lower) == []
  {
    NormalizedMeans(list, lower);
    NormalizedMeans(Somes(items), lower);
    forall y
      ensures y in Somes(items) <==> Some(y) in items
    {
      InSomes(items, y);
    }
  }

  lemma {:induction false} InSomes(items: seq<Option<string>>, y: string)
    ensures y in Somes(items) <==> Some(y) in items
  {
    if items == [] {
    } else {
      InSomes(items[..|items| - 1], y);
      assert items == items[..|items| - 1] + [items[|items| - 1]];
    }
  }

  /** The labels that an embedding carries: the primary one, those in the joined string and those
      in the list. */
  lemma CarriedMeans(meta: Metadata, x: string, lower: char -> char)
    ensures var p, j, m := "primary_label", "labels_joined", "memory_labels";
            var primary := p in meta && meta[p].Str? && Normal(meta[p].text, lower) == x;
            var joined := j in meta && meta[j].Str? && exists y :: y in Split(meta[j].text) && Normal(y, lower) == x;
            var listed := m in meta && exists y :: y in LabelsIn(meta[m], lower) && Normal(y, lower) == x;
            x in Carried(meta, lower) <==> x != "" && (primary || joined || listed)
  {
    EmptyIsNormal(lower);
    assert PRIMARY_LABEL == "primary_label" && LABELS_JOINED == "labels_joined" && MEMORY_LABELS == "memory_labels";
    assert Split("") == [""];
  }

  /** A filter on a key asks for the key and an equal value, and so an absent key meets none; only
      the label filter asks for a shared label instead, and an empty one asks for nothing. */
  lemma MeetsMeans(meta: Metadata, key: string, v: Value, same: (Value, Value) -> bool, lower: char -> char)
    ensures key != "__labels_any__" ==> (Meets(meta, key, v, same, lower) <==> key in meta && same(meta[key], v))
    ensures key == "__labels_any__" ==>
              (Meets(meta, key, v, same, lower) <==>
                 Normalized(LabelsIn(v, lower), lower) == []
                 || exists w :: w in Normalized(LabelsIn(v, lower), lower) && w in Carried(meta, lower))
  {
  }
}
