/** Two views of the words of a text: `splitWords` lists them (extractor/deberta/
    deberta_extractor.go) and `normalizeSPM` writes them one after the other, each behind
    a marker (extractor/deberta/tokenizer.go). */
module Words {
  import opened Text

  // ----------------------------------------------------------------- splitWords

  // Length of the run of non-space characters at the front.
  function Run(s: string): (n: nat)
    ensures n <= |s|
  {
    if s != [] && !IsSpace(s[0]) then 1 + Run(s[1..]) else 0
  }

  lemma {:induction false} RunIsMaximal(s: string)
    ensures forall i :: 0 <= i < Run(s) ==> !IsSpace(s[i])
    ensures Run(s) < |s| ==> IsSpace(s[Run(s)])
  {
    if s == [] || IsSpace(s[0]) {
    } else {
      RunIsMaximal(s[1..]);
      assert forall i :: 0 <= i < |s[1..]| ==> s[1..][i] == s[i + 1];
      assert forall i :: 0 < i < Run(s) ==> s[i] == s[1..][i - 1];
    }
  }

  /** The maximal runs of non-space characters, in order. */
  function WordsOf(s: string): (ws: seq<string>)
    decreases |s|
  {
    if s == [] then []
    else if IsSpace(s[0]) then WordsOf(s[1..])
    else [s[..Run(s)]] + WordsOf(s[Run(s)..])
  }

  predicate Solid(w: string) {
    w != [] && forall i :: 0 <= i < |w| ==> !IsSpace(w[i])
  }

  function Concat(ws: seq<string>): string {
    if ws == [] then [] else ws[0] + Concat(ws[1..])
  }

  /** Words are non-empty, hold no white space, and together hold everything else. */
  lemma {:induction false} WordsHoldTheInk(s: string)
    ensures forall w :: w in WordsOf(s) ==> Solid(w)
    ensures Concat(WordsOf(s)) == Ink(s)
    decreases |s|
  {
    if s == [] {
    } else {
      if IsSpace(s[0]) {
        WordsHoldTheInk(s[1..]);
        assert s == s[..1] + s[1..];
        InkConcat(s[..1], s[1..]);
        assert Ink(s[..1]) == Ink(s[..1][..0]);
      } else {
        var n := Run(s);
        RunIsMaximal(s);
        WordsHoldTheInk(s[n..]);
        assert s == s[..n] + s[n..];
        InkConcat(s[..n], s[n..]);
        InkOfSolid(s[..n]);
        var ws := WordsOf(s);
        assert ws[1..] == WordsOf(s[n..]);
      }
    }
  }

  lemma {:induction false} InkOfSolid(w: string)
    requires forall i :: 0 <= i < |w| ==> !IsSpace(w[i])
    ensures Ink(w) == w
  {
    if w == [] {
    } else {
      InkOfSolid(w[..|w| - 1]);
      assert w == w[..|w| - 1] + [w[|w| - 1]];
    }
  }

  lemma {:induction false} RunOfWord(w: string, rest: string)
    requires forall i :: 0 <= i < |w| ==> !IsSpace(w[i])
    requires rest != [] ==> IsSpace(rest[0])
    ensures Run(w + rest) == |w|
  {
    if w == [] {
    } else {
      assert (w + rest)[1..] == w[1..] + rest;
      RunOfWord(w[1..], rest);
    }
  }

  // A word in front of white space, or of nothing, is the first word.
  lemma WordsAfterWord(w: string, rest: string)
    requires Solid(w) && (rest != [] ==> IsSpace(rest[0]))
    ensures WordsOf(w + rest) == [w] + WordsOf(rest)
  {
    RunOfWord(w, rest);
    assert (w + rest)[..|w|] == w && (w + rest)[|w|..] == rest;
  }

  lemma {:induction false} WordsAfterBlanks(blanks: string, rest: string)
    requires forall c :: c in blanks ==> IsSpace(c)
    ensures WordsOf(blanks + rest) == WordsOf(rest)
  {
    if blanks == "" {
      assert blanks + rest == rest;
    } else {
      assert blanks[0] in blanks && (blanks + rest)[1..] == blanks[1..] + rest;
      WordsAfterBlanks(blanks[1..], rest);
    }
  }

  /** The law of the word splitter: white space in front does not matter, and characters that are
      none, up to white space or the end, are the first word. */
  lemma FirstWord(blanks: string, w: string, rest: string)
    requires (forall c :: c in blanks ==> IsSpace(c)) && w != "" && (forall c :: c in w ==> !IsSpace(c))
    requires rest != "" ==> IsSpace(rest[0])
    ensures WordsOf(blanks + w + rest) == [w] + WordsOf(rest) && WordsOf(blanks) == []
  {
    assert blanks + w + rest == blanks + (w + rest) && blanks == blanks + "";
    WordsAfterBlanks(blanks, w + rest);
    WordsAfterBlanks(blanks, "");
    WordsAfterWord(w, rest);
  }

  // What is left to list once the buffer and the rest of the text are at hand.
  lemma OneMoreCharacter(buf: string, rest: string)
    requires rest != [] && forall k :: 0 <= k < |buf| ==> !IsSpace(buf[k])
    ensures !IsSpace(rest[0]) ==> WordsOf(buf + rest) == WordsOf((buf + [rest[0]]) + rest[1..])
    ensures IsSpace(rest[0]) ==> WordsOf(buf + rest) == (if buf == [] then [] else [buf]) + WordsOf([] + rest[1..])
  {
    assert buf + rest == (buf + [rest[0]]) + rest[1..];
    assert [] + rest[1..] == rest[1..];
    if IsSpace(rest[0]) {
      if buf == [] {
        assert buf + rest == rest;
      } else {
        WordsAfterWord(buf, rest);
      }
    }
  }

  lemma OneMoreTaken(words: seq<string>, buf: string, rest: string)
    requires rest != [] && forall k :: 0 <= k < |buf| ==> !IsSpace(buf[k])
    ensures var buf' := if IsSpace(rest[0]) then "" else buf + [rest[0]];
            var words' := if IsSpace(rest[0]) && buf != "" then words + [buf] else words;
            words + WordsOf(buf + rest) == words' + WordsOf(buf' + rest[1..])
  {
    OneMoreCharacter(buf, rest);
  }

  method SplitWords(text: string) returns (words: seq<string>)
    ensures words == WordsOf(text)
  {
    words := [];
    var buf := "";
    ghost var rest := text;
    assert buf + rest == text;
    for i := 0 to |text|
      invariant rest == text[i..]
      invariant forall k :: 0 <= k < |buf| ==> !IsSpace(buf[k])
      invariant WordsOf(text) == words + WordsOf(buf + rest)
    {
      var r := text[i];
      OneMoreTaken(words, buf, rest);
      if IsSpace(r) {
        if |buf| > 0 {
          words, buf := words + [buf], "";
        }
      } else {
        buf := buf + [r];
      }
      rest := rest[1..];
    }
    if |buf| > 0 {
      WordsAfterWord(buf, rest);
      words := words + [buf];
    }
  }

  // --------------------------------------------------------------- normalizeSPM

  // The four characters that normalizeSPM turns into a marker.
  predicate IsPlainSpace(c: char) {
    c == ' ' || c == '\t' || c == '\n' || c == '\r'
  }

  function Mapped(s: string): (r: string)
    ensures |r| == |s|
    ensures forall i :: 0 <= i < |s| ==> r[i] == if IsPlainSpace(s[i]) then MARKER else s[i]
  {
    seq(|s|, i requires 0 <= i < |s| => if IsPlainSpace(s[i]) then MARKER else s[i])
  }

  /** s without the markers that follow a marker; `after` says whether one precedes s. */
  function Collapse(after: bool, s: string): string {
    if s == [] then []
    else
      var front, c := s[..|s| - 1], s[|s| - 1];
      Collapse(after, front) + if c == MARKER && MarkerBefore(after, front) then [] else [c]
  }

  predicate MarkerBefore(after: bool, s: string) {
    if s == [] then after else s[|s| - 1] == MARKER
  }

  function Normalized(text: string): string {
    if Trim(text) == [] then [] else Collapse(false, [MARKER] + Mapped(Trim(text)))
  }

  lemma {:induction false} CollapseConcat(after: bool, a: string, b: string)
    ensures Collapse(after, a + b) == Collapse(after, a) + Collapse(MarkerBefore(after, a), b)
  {
    if b == [] {
      assert a + b == a;
    } else {
      assert (a + b)[..|a + b| - 1] == a + b[..|b| - 1];
      CollapseConcat(after, a, b[..|b| - 1]);
    }
  }

  lemma CollapseFirst(after: bool, c: char, s: string)
    ensures Collapse(after, [c] + s) == (if c == MARKER && after then [] else [c]) + Collapse(c == MARKER, s)
  {
    CollapseConcat(after, [c], s);
    assert [c][..0] == [];
    assert Collapse(after, [c][..0]) == [];
  }

  /** The compaction writes into the array it is reading; it never overtakes the reader. */
  method NormalizeSPM(text: string) returns (compact: string)
    ensures compact == Normalized(text)
  {
    var runes := Trim(text);
    if runes == [] {
      return [];
    }
    var out := MarkSpaces(runes);
    var len := Compact(out);
    compact := out[..len];
  }

  // A leading marker, and one for every plain space.
  method MarkSpaces(runes: string) returns (out: array<char>)
    ensures fresh(out) && out[..] == [MARKER] + Mapped(runes)
  {
    out := new char[|runes| + 1](_ => MARKER);
    for i := 0 to |runes|
      invariant out[0] == MARKER
      invariant forall k :: 0 <= k < i ==> out[k + 1] == if IsPlainSpace(runes[k]) then MARKER else runes[k]
    {
      out[i + 1] := if IsPlainSpace(runes[i]) then MARKER else runes[i];
    }
  }

  method Compact(out: array<char>) returns (len: nat)
    modifies out
    ensures len <= out.Length && out[..len] == Collapse(false, old(out[..]))
  {
    ghost var was := out[..];
    len := 0;
    var prev := '\0';
    for i := 0 to out.Length
      invariant len <= i
      invariant out[i..] == was[i..]
      invariant out[..len] == Collapse(false, was[..i])
      invariant prev == MARKER <==> MarkerBefore(false, was[..i])
    {
      var r := out[i];
      assert r == out[i..][0] == was[i];
      assert out[i + 1..] == out[i..][1..] == was[i + 1..];
      assert was[..i + 1][..i] == was[..i];
      if r == MARKER && prev == MARKER {
        continue;
      }
      out[len] := r;
      assert out[..len + 1] == out[..len] + [r];
      len := len + 1;
      prev := r;
    }
    assert was[..out.Length] == was;
  }

  // -------------------------------------------------- when the two views agree

  /** Each word behind a marker. */
  function Marked(ws: seq<string>): string {
    if ws == [] then [] else [MARKER] + ws[0] + Marked(ws[1..])
  }

  ghost predicate NoDouble(s: string) {
    forall i, j :: 0 <= i < j < |s| && j == i + 1 ==> !(s[i] == MARKER && s[j] == MARKER)
  }

  // White space inside a text is of the four kinds that become a marker.
  predicate PlainlySpaced(s: string) {
    forall c :: c in s && IsSpace(c) ==> IsPlainSpace(c)
  }

  /** No word starts with a marker character, holds two in a row or, unless it is the
      last, ends in one. */
  ghost predicate MarkersStandAlone(ws: seq<string>) {
    forall k :: 0 <= k < |ws| ==> Standing(ws[k], k + 1 < |ws|)
  }

  ghost predicate Standing(w: string, more: bool) {
    w != [] && w[0] != MARKER && NoDouble(w) && (more ==> w[|w| - 1] != MARKER)
  }

  lemma {:induction false} CollapseKeeps(after: bool, w: string)
    requires NoDouble(w) && (w != [] && after ==> w[0] != MARKER)
    ensures Collapse(after, w) == w
  {
    if w == [] {
    } else {
      CollapseKeeps(after, w[..|w| - 1]);
      assert w == w[..|w| - 1] + [w[|w| - 1]];
    }
  }

  lemma {:induction false} CollapseHasNoDouble(after: bool, s: string)
    ensures NoDouble(Collapse(after, s))
    ensures Collapse(after, s) == [] ==> MarkerBefore(after, s) == after
    ensures Collapse(after, s) != [] ==> MarkerBefore(after, s) == MarkerBefore(after, Collapse(after, s))
  {
    if s == [] {
    } else {
      CollapseHasNoDouble(after, s[..|s| - 1]);
    }
  }

  lemma {:induction false} CollapseKeepsOthers(after: bool, s: string, c: char)
    requires c in s && c != MARKER
    ensures c in Collapse(after, s)
  {
    if s[|s| - 1] == c {
    } else {
      CollapseKeepsOthers(after, s[..|s| - 1], c);
    }
  }

  // What one word and the text after it become, when the word stands.
  lemma CollapseWord(w: string, rest: string)
    requires Solid(w) && Standing(w, rest != [])
    ensures [MARKER] + Collapse(true, Mapped(w + rest)) == [MARKER] + w + Collapse(false, Mapped(rest))
  {
    var m := Mapped(rest);
    assert Mapped(w + rest) == w + m && (rest == [] ==> m == []) by {
      MappedWord(w, rest);
    }
    assert Collapse(true, w + m) == w + Collapse(false, m) by {
      CollapseConcat(true, w, m);
      CollapseKeeps(true, w);
      assert rest != [] ==> !MarkerBefore(true, w);
    }
    assert [MARKER] + (w + Collapse(false, m)) == [MARKER] + w + Collapse(false, m);
  }

  lemma MappedWord(w: string, rest: string)
    requires Solid(w)
    ensures Mapped(w + rest) == w + Mapped(rest)
    ensures rest == [] ==> Mapped(rest) == []
  {
    PlainSpacesAreSpaces();
    assert Mapped(w) == w;
  }

  lemma PlainSpacesAreSpaces()
    ensures forall c :: IsPlainSpace(c) ==> IsSpace(c)
  {
    forall c | IsPlainSpace(c)
      ensures IsSpace(c)
    {
      InTableIff(c as int, WHITE_SPACE);
      assert WHITE_SPACE[0] == (0x09, 0x0D) && WHITE_SPACE[1] == (0x20, 0x20);
    }
  }

  lemma MappedAfterSpace(s: string)
    requires s != [] && IsPlainSpace(s[0])
    ensures Mapped(s) == [MARKER] + Mapped(s[1..])
    ensures Collapse(true, Mapped(s)) == Collapse(true, Mapped(s[1..]))
    ensures Collapse(false, Mapped(s)) == [MARKER] + Collapse(true, Mapped(s))
  {
    assert Mapped(s) == [MARKER] + Mapped(s[1..]);
    CollapseFirst(true, MARKER, Mapped(s[1..]));
    CollapseFirst(false, MARKER, Mapped(s[1..]));
  }

  ghost predicate Regular(s: string) {
    s != [] && !IsSpace(s[|s| - 1]) && PlainlySpaced(s) && MarkersStandAlone(WordsOf(s))
  }

  lemma RegularAfterSpace(s: string)
    requires Regular(s) && IsSpace(s[0])
    ensures Regular(s[1..]) && WordsOf(s) == WordsOf(s[1..]) && IsPlainSpace(s[0])
  {
    assert s[1..] != [];
    assert s[1..][|s[1..]| - 1] == s[|s| - 1];
  }

  lemma SplitAtRun(s: string) returns (w: string, rest: string)
    requires s != [] && !IsSpace(s[0])
    ensures s == w + rest && Solid(w) && |rest| < |s|
    ensures rest != [] ==> IsSpace(rest[0])
  {
    RunIsMaximal(s);
    w, rest := s[..Run(s)], s[Run(s)..];
  }

  lemma RegularAfterWord(w: string, rest: string)
    requires Regular(w + rest) && Solid(w) && rest != [] && IsSpace(rest[0])
    ensures PlainlySpaced(rest) && IsPlainSpace(rest[0]) && !IsSpace(rest[|rest| - 1])
  {
    var s := w + rest;
    assert s[|s| - 1] == rest[|rest| - 1];
    assert forall c :: c in rest ==> c in s;
  }

  lemma {:induction false} MarkedWordsAreCollapsed(s: string)
    requires Regular(s)
    ensures [MARKER] + Collapse(true, Mapped(s)) == Marked(WordsOf(s))
    decreases |s|
  {
    if IsSpace(s[0]) {
      RegularAfterSpace(s);
      MappedAfterSpace(s);
      MarkedWordsAreCollapsed(s[1..]);
    } else {
      var w, rest := SplitAtRun(s);
      if rest != [] {
        RegularAfterWord(w, rest);
      }
      MarkedWordFirst(w, rest);
      CollapseWord(w, rest);
      if rest == [] {
        MappedWord(w, rest);
      } else {
        MappedAfterSpace(rest);
        MarkedWordsAreCollapsed(rest);
      }
    }
  }

  lemma MarkersStandAfterFirst(ws: seq<string>)
    requires ws != [] && MarkersStandAlone(ws)
    ensures MarkersStandAlone(ws[1..])
  {
    forall k | 0 <= k < |ws[1..]|
      ensures Standing(ws[1..][k], k + 1 < |ws[1..]|)
    {
      assert Standing(ws[k + 1], k + 1 + 1 < |ws|);
    }
  }

  // The marked words of a text that starts with a word, and the word's own part in it.
  lemma MarkedWordFirst(w: string, rest: string)
    requires Solid(w) && (rest != [] ==> IsSpace(rest[0]) && !IsSpace(rest[|rest| - 1]))
    requires MarkersStandAlone(WordsOf(w + rest))
    ensures MarkersStandAlone(WordsOf(rest)) && Standing(w, rest != [])
    ensures Marked(WordsOf(w + rest)) == [MARKER] + w + Marked(WordsOf(rest))
  {
    WordsAfterWord(w, rest);
    var ws := WordsOf(w + rest);
    assert ws[0] == w && ws[1..] == WordsOf(rest);
    MarkersStandAfterFirst(ws);
    if rest != [] {
      LastIsAWord(rest);
    }
    assert Standing(ws[0], 0 + 1 < |ws|);
  }

  lemma {:induction false} LastIsAWord(s: string)
    requires s != [] && !IsSpace(s[|s| - 1])
    ensures WordsOf(s) != []
    decreases |s|
  {
    if IsSpace(s[0]) {
      LastIsAWord(s[1..]);
    }
  }

  lemma {:induction false} SolidMarked(ws: seq<string>, c: char)
    requires IsSpace(c) && forall w :: w in ws ==> Solid(w)
    ensures c !in Marked(ws)
  {
    MarkerIsNoSpace();
    if ws == [] {
    } else {
      assert ws[0] in ws;
      SolidMarked(ws[1..], c);
    }
  }

  lemma {:induction false} NoDoubleMeansStanding(ws: seq<string>)
    requires NoDouble(Marked(ws)) && forall w :: w in ws ==> Solid(w)
    ensures MarkersStandAlone(ws)
  {
    if ws == [] {
    } else {
      var m := Marked(ws);
      var w, rest := ws[0], ws[1..];
      var n := |w|;
      assert w in ws;
      assert m == ([MARKER] + w) + Marked(rest);
      assert m[0] == MARKER && m[1] == w[0];
      assert NoDouble(w) by {
        forall i, j | 0 <= i < j < |w| && j == i + 1
          ensures !(w[i] == MARKER && w[j] == MARKER)
        {
          assert m[i + 1] == w[i] && m[j + 1] == w[j];
        }
      }
      if rest != [] {
        assert Marked(rest)[0] == MARKER;
        assert m[n] == w[n - 1] && m[n + 1] == Marked(rest)[0];
      }
      assert NoDouble(Marked(rest)) by {
        forall i, j | 0 <= i < j < |Marked(rest)| && j == i + 1
          ensures !(Marked(rest)[i] == MARKER && Marked(rest)[j] == MARKER)
        {
          assert m[i + n + 1] == Marked(rest)[i] && m[j + n + 1] == Marked(rest)[j];
        }
      }
      NoDoubleMeansStanding(rest);
      forall k | 0 <= k < |ws|
        ensures Standing(ws[k], k + 1 < |ws|)
      {
        if k > 0 { assert Standing(rest[k - 1], k < |rest|); }
      }
    }
  }

  lemma {:induction false} WordsOfTrimLeft(s: string)
    ensures WordsOf(TrimLeft(s)) == WordsOf(s)
  {
    if s == [] || !IsSpace(s[0]) {
    } else {
      WordsOfTrimLeft(s[1..]);
    }
  }

  lemma {:induction false} WordsBeforeSpace(s: string, c: char)
    requires IsSpace(c)
    ensures WordsOf(s + [c]) == WordsOf(s)
    decreases |s|
  {
    if s == [] {
      assert (s + [c])[1..] == [];
    } else if IsSpace(s[0]) {
      assert (s + [c])[1..] == s[1..] + [c];
      WordsBeforeSpace(s[1..], c);
    } else {
      var n := Run(s);
      RunIsMaximal(s);
      assert s + [c] == s[..n] + (s[n..] + [c]);
      assert s == s[..n] + s[n..];
      WordsAfterWord(s[..n], s[n..] + [c]);
      WordsBeforeSpace(s[n..], c);
    }
  }

  lemma {:induction false} WordsOfTrimRight(s: string)
    ensures WordsOf(TrimRight(s)) == WordsOf(s)
  {
    if s == [] || !IsSpace(s[|s| - 1]) {
    } else {
      WordsBeforeSpace(s[..|s| - 1], s[|s| - 1]);
      assert s == s[..|s| - 1] + [s[|s| - 1]];
      WordsOfTrimRight(s[..|s| - 1]);
    }
  }

  lemma WordsOfTrim(s: string)
    ensures WordsOf(Trim(s)) == WordsOf(s)
  {
    WordsOfTrimLeft(s);
    WordsOfTrimRight(TrimLeft(s));
  }

  /** The normalized text is the marked words exactly when the white space between the
      words is of the four plain kinds and the words' own marker characters stand alone.
      Other white space survives normalization, and doubled markers do not. */
  lemma NormalizedIsMarkedWords(text: string)
    ensures Normalized(text) == Marked(WordsOf(text)) <==>
              PlainlySpaced(Trim(text)) && MarkersStandAlone(WordsOf(text))
  {
    var s := Trim(text);
    WordsOfTrim(text);
    WordsHoldTheInk(text);
    if s == [] {
      assert WordsOf(s) == [];
    } else {
      CollapseFirst(false, MARKER, Mapped(s));
      if !PlainlySpaced(s) {
        OddSpaceSurvives(s, WordsOf(text));
      } else if MarkersStandAlone(WordsOf(text)) {
        MarkedWordsAreCollapsed(s);
      } else {
        CollapseHasNoDouble(false, [MARKER] + Mapped(s));
        if NoDouble(Marked(WordsOf(text))) {
          NoDoubleMeansStanding(WordsOf(text));
        }
      }
    }
  }

  lemma OddSpaceSurvives(s: string, ws: seq<string>)
    requires !PlainlySpaced(s) && forall w :: w in ws ==> Solid(w)
    ensures Collapse(false, [MARKER] + Mapped(s)) != Marked(ws)
  {
    MarkerIsNoSpace();
    var c :| c in s && IsSpace(c) && !IsPlainSpace(c);
    var i :| 0 <= i < |s| && s[i] == c;
    assert ([MARKER] + Mapped(s))[i + 1] == s[i];
    CollapseKeepsOthers(false, [MARKER] + Mapped(s), s[i]);
    SolidMarked(ws, s[i]);
  }

  // ------------------------------------------------------ what that means for a caller

  /** Text whose white space is blanks, tabs and line ends, and that holds no marker, becomes its
      words with a marker in front of each. */
  lemma PlainTextNormalizes(text: string)
    requires forall c :: c in text && IsSpace(c) ==> c == ' ' || c == '\t' || c == '\n' || c == '\r'
    requires '\U{2581}' !in text
    ensures Normalized(text) == Marked(WordsOf(text))
    ensures PlainlySpaced(Trim(text)) && forall w :: w in WordsOf(text) ==> MARKER !in w
  {
    var a, b := TrimMeans(text);
    assert forall c :: c in Trim(text) ==> c in text;
    WordsHoldTheInk(text);
    InkIsPart(text);
    forall w | w in WordsOf(text)
      ensures MARKER !in w
    {
      InConcat(WordsOf(text), w);
    }
    forall k | 0 <= k < |WordsOf(text)|
      ensures Standing(WordsOf(text)[k], k + 1 < |WordsOf(text)|)
    {
      var w := WordsOf(text)[k];
      assert w in WordsOf(text) && Solid(w);
      assert forall i :: 0 <= i < |w| ==> w[i] in w;
    }
    NormalizedIsMarkedWords(text);
  }

  lemma {:induction false} InkIsPart(s: string)
    ensures forall c :: c in Ink(s) ==> c in s
  {
    if s == "" {
    } else {
      InkIsPart(s[..|s| - 1]);
    }
  }

  lemma {:induction false} InConcat(ws: seq<string>, w: string)
    requires w in ws
    ensures forall c :: c in w ==> c in Concat(ws)
  {
    if w == ws[0] {
    } else {
      InConcat(ws[1..], w);
    }
  }

  lemma MarkedMeans(w: string, ws: seq<string>)
    ensures Marked([]) == "" && Marked([w] + ws) == "\U{2581}" + w + Marked(ws)
  {
    assert ([w] + ws)[1..] == ws;
  }

  // The characters that normalization neither makes nor takes away.
  function Bare(s: string): string {
    if s == "" then ""
    else
      var c := s[|s| - 1];
      Bare(s[..|s| - 1]) + if c == '\U{2581}' || c == ' ' || c == '\t' || c == '\n' || c == '\r' then "" else [c]
  }

  /** Any text: it starts with a marker, has no two in a row and none of the four kinds of space,
      and all else is kept in order. */
  lemma NormalizedMeans(text: string)
    ensures var n := Normalized(text);
            && Bare(n) == Bare(Trim(text)) && (n == "" <==> Trim(text) == "") && (n != "" ==> n[0] == '\U{2581}')
            && (forall i :: 0 < i < |n| ==> !(n[i - 1] == '\U{2581}' && n[i] == '\U{2581}'))
            && forall c :: c in n ==> c != ' ' && c != '\t' && c != '\n' && c != '\r'
  {
    if Trim(text) != "" {
      NormalizedIsBare(text);
      CollapseHasNoDouble(false, [MARKER] + Mapped(Trim(text)));
      CollapseFirst(false, MARKER, Mapped(Trim(text)));
      NormalizedHasNoSpaces(text);
    }
  }

  lemma NormalizedIsBare(text: string)
    requires Trim(text) != ""
    ensures Bare(Normalized(text)) == Bare(Trim(text))
  {
    CollapseIsBare(false, [MARKER] + Mapped(Trim(text)));
    MarkerIsBare(Mapped(Trim(text)));
    MappedIsBare(Trim(text));
  }

  lemma NormalizedHasNoSpaces(text: string)
    ensures forall c :: c in Normalized(text) ==> c != ' ' && c != '\t' && c != '\n' && c != '\r'
  {
    var m := [MARKER] + Mapped(Trim(text));
    CollapseIsPart(false, m);
    assert forall c :: c in m ==> c == MARKER || c in Mapped(Trim(text));
  }

  lemma {:induction false} CollapseIsBare(after: bool, s: string)
    ensures Bare(Collapse(after, s)) == Bare(s)
  {
    if s == "" {
    } else {
      var front, c := s[..|s| - 1], s[|s| - 1];
      CollapseIsBare(after, front);
      var head := Collapse(after, front);
      assert (head + [c])[..|head|] == head && head + [] == head;
    }
  }

  lemma {:induction false} CollapseIsPart(after: bool, s: string)
    ensures forall c :: c in Collapse(after, s) ==> c in s
  {
    if s == "" {
    } else {
      CollapseIsPart(after, s[..|s| - 1]);
    }
  }

  lemma {:induction false} MappedIsBare(s: string)
    ensures Bare(Mapped(s)) == Bare(s)
  {
    if s == "" {
    } else {
      MappedIsBare(s[..|s| - 1]);
      assert Mapped(s)[..|s| - 1] == Mapped(s[..|s| - 1]);
    }
  }

  lemma {:induction false} MarkerIsBare(s: string)
    ensures Bare([MARKER] + s) == Bare(s)
  {
    if s == "" {
      assert [MARKER][..0] == "" && [MARKER] + s == [MARKER];
    } else {
      MarkerIsBare(s[..|s| - 1]);
      assert ([MARKER] + s)[..|s|] == [MARKER] + s[..|s| - 1];
    }
  }
}
