/** Cutting a context into segments at sentence boundaries (engine/utils.go). */
module Segments {
  import opened Text
  import opened Words

  // ------------------------------------------------------------------- sentences

  // The character class [.!?] of the sentence pattern.
  predicate IsTerminator(c: char) {
    c == '.' || c == '!' || c == '?'
  }

  // The class [\s\n] of the pattern, which is ASCII only.
  predicate IsBlank(c: char) {
    c == ' ' || c == '\t' || c == '\n' || c == '\U{000C}' || c == '\r'
  }

  function SkipToTerminator(text: string, i: nat): (j: nat)
    requires i <= |text|
    ensures i <= j <= |text|
    decreases |text| - i
  {
    if i < |text| && !IsTerminator(text[i]) then SkipToTerminator(text, i + 1) else i
  }

  function SkipTerminators(text: string, i: nat): (j: nat)
    requires i <= |text|
    ensures i <= j <= |text|
    decreases |text| - i
  {
    if i < |text| && IsTerminator(text[i]) then SkipTerminators(text, i + 1) else i
  }

  function SkipBlanks(text: string, i: nat): (j: nat)
    requires i <= |text|
    ensures i <= j <= |text|
    decreases |text| - i
  {
    if i < |text| && IsBlank(text[i]) then SkipBlanks(text, i + 1) else i
  }

  // The end of the leftmost match of [.!?]+[\s\n]* from position i on, or nothing.
  function MatchEnd(text: string, i: nat): (e: Option<nat>)
    requires i <= |text|
    ensures e.Some? ==> i < e.value <= |text|
  {
    var j := SkipToTerminator(text, i);
    if j == |text| then None else
      SkipStopsAtTerminator(text, i);
      Some(SkipBlanks(text, SkipTerminators(text, j)))
  }

  lemma {:induction false} SkipStopsAtTerminator(text: string, i: nat)
    requires i <= |text|
    ensures SkipToTerminator(text, i) < |text| ==> IsTerminator(text[SkipToTerminator(text, i)])
    decreases |text| - i
  {
    if i >= |text| || IsTerminator(text[i]) {
    } else {
      SkipStopsAtTerminator(text, i + 1);
    }
  }

  function IfAny(s: string): seq<string> {
    if s == [] then [] else [s]
  }

  function SentencesFrom(text: string, i: nat): seq<string>
    requires i <= |text|
    decreases |text| - i
  {
    match MatchEnd(text, i)
    case None => IfAny(Trim(text[i..]))
    case Some(e) => IfAny(Trim(text[i..e])) + SentencesFrom(text, e)
  }

  lemma SentencesStep(text: string, i: nat, done: seq<string>)
    requires i <= |text|
    ensures MatchEnd(text, i).Some? ==>
              done + SentencesFrom(text, i) ==
                (done + IfAny(Trim(text[i..MatchEnd(text, i).value]))) + SentencesFrom(text, MatchEnd(text, i).value)
    ensures MatchEnd(text, i).None? ==> done + SentencesFrom(text, i) == done + IfAny(Trim(text[i..]))
  {
  }

  method SplitIntoSentences(text: string) returns (sentences: seq<string>)
    ensures sentences == SentencesFrom(text, 0)
  {
    sentences := [];
    var lastIndex: nat := 0;
    var found := MatchEnd(text, 0);
    ghost var all := SentencesFrom(text, 0);
    while found.Some?
      invariant lastIndex <= |text| && found == MatchEnd(text, lastIndex)
      invariant all == sentences + SentencesFrom(text, lastIndex)
      decreases |text| - lastIndex
    {
      SentencesStep(text, lastIndex, sentences);
      var sent := Trim(text[lastIndex..found.value]);
      if sent != "" {
        sentences := sentences + [sent];
      } else {
        assert sentences + IfAny(sent) == sentences;
      }
      lastIndex := found.value;
      found := MatchEnd(text, lastIndex);
    }
    SentencesStep(text, lastIndex, sentences);
    if lastIndex < |text| {
      var last := Trim(text[lastIndex..]);
      if last != "" {
        sentences := sentences + [last];
      }
    } else {
      assert text[lastIndex..] == "";
    }
  }

  // ------------------------------------------------------------ what a sentence is

  lemma {:induction false} SkipsTo(text: string, i: nat, m: nat)
    requires i <= m < |text| && IsTerminator(text[m]) && forall k :: i <= k < m ==> !IsTerminator(text[k])
    ensures SkipToTerminator(text, i) == m
    decreases m - i
  {
    if i == m {
    } else {
      SkipsTo(text, i + 1, m);
    }
  }

  lemma {:induction false} SkipsOver(text: string, i: nat, m: nat)
    requires i <= m <= |text| && (m < |text| ==> !IsTerminator(text[m]))
    requires forall k :: i <= k < m ==> IsTerminator(text[k])
    ensures SkipTerminators(text, i) == m
    decreases m - i
  {
    if i == m {
    } else {
      SkipsOver(text, i + 1, m);
    }
  }

  lemma {:induction false} SkipsBlanks(text: string, i: nat, m: nat)
    requires i <= m <= |text| && (m < |text| ==> !IsBlank(text[m])) && forall k :: i <= k < m ==> IsBlank(text[k])
    ensures SkipBlanks(text, i) == m
    decreases m - i
  {
    if i == m {
    } else {
      SkipsBlanks(text, i + 1, m);
    }
  }

  lemma BlankIsSpace(c: char)
    requires IsBlank(c)
    ensures IsSpace(c)
  {
    InTableIff(c as int, WHITE_SPACE);
    assert WHITE_SPACE[0] == (0x09, 0x0D) && WHITE_SPACE[1] == (0x20, 0x20);
  }

  lemma TerminatorIsNoSpace(c: char)
    requires IsTerminator(c)
    ensures !IsSpace(c)
  {
    InTableIff(c as int, WHITE_SPACE);
  }

  // Only what lies ahead matters to the search.
  lemma {:induction false} SkipsAhead(a: string, b: string, i: nat)
    requires i <= |b|
    ensures SkipToTerminator(a + b, |a| + i) == |a| + SkipToTerminator(b, i)
    ensures SkipTerminators(a + b, |a| + i) == |a| + SkipTerminators(b, i)
    ensures SkipBlanks(a + b, |a| + i) == |a| + SkipBlanks(b, i)
    decreases |b| - i
  {
    if i == |b| {
    } else {
      assert (a + b)[|a| + i] == b[i];
      SkipsAhead(a, b, i + 1);
    }
  }

  lemma MatchAhead(a: string, b: string, i: nat)
    requires i <= |b|
    ensures MatchEnd(a + b, |a| + i) == if MatchEnd(b, i).None? then None else Some(|a| + MatchEnd(b, i).value)
  {
    SkipsAhead(a, b, i);
    var j := SkipToTerminator(b, i);
    SkipsAhead(a, b, j);
    SkipsAhead(a, b, SkipTerminators(b, j));
  }

  lemma {:induction false} SentencesAhead(a: string, b: string, i: nat)
    requires i <= |b|
    ensures SentencesFrom(a + b, |a| + i) == SentencesFrom(b, i)
    decreases |b| - i
  {
    MatchAhead(a, b, i);
    if MatchEnd(b, i).None? {
      LastPieceAhead(a, b, i);
    } else {
      var e := MatchEnd(b, i).value;
      SentencesAhead(a, b, e);
      PieceAhead(a, b, i, e);
      OnePieceMore(a + b, |a| + i, |a| + e);
      OnePieceMore(b, i, e);
    }
  }

  lemma OnePieceMore(text: string, i: nat, e: nat)
    requires i <= e <= |text| && MatchEnd(text, i) == Some(e)
    ensures SentencesFrom(text, i) == IfAny(Trim(text[i..e])) + SentencesFrom(text, e)
  {
  }

  lemma LastPieceAhead(a: string, b: string, i: nat)
    requires i <= |b| && MatchEnd(b, i).None? && MatchEnd(a + b, |a| + i).None?
    ensures SentencesFrom(a + b, |a| + i) == SentencesFrom(b, i)
  {
    assert (a + b)[|a| + i..] == b[i..];
  }

  lemma PieceAhead(a: string, b: string, i: nat, e: nat)
    requires i <= e <= |b|
    ensures (a + b)[|a| + i..|a| + e] == b[i..e]
  {
  }

  lemma FirstPiece(first: string, rest: string)
    requires MatchEnd(first + rest, 0) == Some(|first|)
    ensures SentencesFrom(first + rest, 0) == IfAny(Trim(first)) + SentencesFrom(rest, 0)
  {
    SentencesAhead(first, rest, 0);
    assert (first + rest)[0..|first|] == first;
  }

  lemma FirstMatch(body: string, terms: string, blanks: string, rest: string)
    requires forall c :: c in body ==> !IsTerminator(c)
    requires terms != "" && forall c :: c in terms ==> IsTerminator(c)
    requires forall c :: c in blanks ==> IsBlank(c)
    requires rest != "" ==> !IsBlank(rest[0]) && (blanks == "" ==> !IsTerminator(rest[0]))
    ensures MatchEnd(body + terms + blanks + rest, 0) == Some(|body + terms + blanks|)
  {
    var text, j, k, m := body + terms + blanks + rest, |body|, |body + terms|, |body + terms + blanks|;
    forall x | 0 <= x < |text|
      ensures x < j ==> text[x] in body
      ensures j <= x < k ==> text[x] in terms
      ensures k <= x < m ==> text[x] in blanks
      ensures m <= x ==> text[x] == rest[x - m]
    {
    }
    SkipsTo(text, 0, j);
    SkipsOver(text, j, k);
    SkipsBlanks(text, k, m);
  }

  /** The law of the splitter: text without terminators, then as many terminators and as many
      blanks as there are, make up the first sentence, and the rest is split by itself. */
  lemma FirstSentence(body: string, terms: string, blanks: string, rest: string)
    requires forall c :: c in body ==> c != '.' && c != '!' && c != '?'
    requires terms != "" && forall c :: c in terms ==> c == '.' || c == '!' || c == '?'
    requires forall c :: c in blanks ==> c == ' ' || c == '\t' || c == '\n' || c == '\U{000C}' || c == '\r'
    requires rest != "" ==>
               && rest[0] != ' ' && rest[0] != '\t' && rest[0] != '\n' && rest[0] != '\U{000C}' && rest[0] != '\r'
               && (blanks == "" ==> rest[0] != '.' && rest[0] != '!' && rest[0] != '?')
    ensures SentencesFrom(body + terms + blanks + rest, 0) == IfAny(Trim(body + terms)) + SentencesFrom(rest, 0)
    ensures Trim(body + terms) != ""
  {
    FirstMatch(body, terms, blanks, rest);
    FirstPiece(body + terms + blanks, rest);
    forall c | c in blanks
      ensures IsSpace(c)
    {
      BlankIsSpace(c);
    }
    EndsInInk(body, terms);
    TrimIgnoresBlanks(body + terms, blanks);
  }

  lemma EndsInInk(body: string, terms: string)
    requires terms != "" && forall c :: c in terms ==> IsTerminator(c)
    ensures var s := body + terms; s != "" && !IsSpace(s[|s| - 1]) && Trim(s) != ""
  {
    var s, last := body + terms, terms[|terms| - 1];
    assert s[|s| - 1] == last && last in terms;
    TerminatorIsNoSpace(last);
    SomeInFront(TrimLeft(s), s);
  }

  lemma SomeInFront(left: string, s: string)
    requires s != "" && !IsSpace(s[|s| - 1]) && left == TrimLeft(s)
    ensures Trim(s) != ""
  {
    SomeLeft(s);
    var a := TrimLeftMeans(s);
    assert left[|left| - 1] == s[|s| - 1];
  }

  /** Text without terminators is one sentence, if it has any ink. */
  lemma LastSentence(text: string)
    requires forall c :: c in text ==> c != '.' && c != '!' && c != '?'
    ensures SentencesFrom(text, 0) == if Trim(text) == "" then [] else [Trim(text)]
  {
    SkipStopsAtTerminator(text, 0);
    if SkipToTerminator(text, 0) < |text| {
      assert text[SkipToTerminator(text, 0)] in text;
    }
    assert text[0..] == text;
  }

  /** What is written, white space aside, in a list of strings. */
  function InkOfAll(ss: seq<string>): string {
    if ss == [] then [] else InkOfAll(ss[..|ss| - 1]) + Ink(ss[|ss| - 1])
  }

  lemma {:induction false} InkOfAllConcat(a: seq<string>, b: seq<string>)
    ensures InkOfAll(a + b) == InkOfAll(a) + InkOfAll(b)
  {
    if b == [] {
      assert a + b == a;
    } else {
      var front, last := b[..|b| - 1], Ink(b[|b| - 1]);
      assert (a + b)[..|a + b| - 1] == a + front;
      InkOfAllConcat(a, front);
      assert InkOfAll(a) + (InkOfAll(front) + last) == (InkOfAll(a) + InkOfAll(front)) + last;
    }
  }

  lemma InkOfIfAny(s: string)
    ensures InkOfAll(IfAny(s)) == Ink(s)
  {
    if s != [] {
      assert [s][..0] == [];
      assert InkOfAll([]) + Ink(s) == Ink(s);
    }
  }

  /** Splitting loses nothing but white space. */
  lemma {:induction false} SentencesKeepTheInk(text: string, i: nat)
    requires i <= |text|
    ensures InkOfAll(SentencesFrom(text, i)) == Ink(text[i..])
    decreases |text| - i
  {
    var found := MatchEnd(text, i);
    if found.None? {
      InkOfIfAny(Trim(text[i..]));
      InkOfTrim(text[i..]);
    } else {
      var e := found.value;
      SentencesKeepTheInk(text, e);
      InkOfPiece(text[i..e], SentencesFrom(text, e));
      InkSplit(text, i, e);
    }
  }

  lemma InkSplit(text: string, i: nat, e: nat)
    requires i <= e <= |text|
    ensures Ink(text[i..]) == Ink(text[i..e]) + Ink(text[e..])
  {
    Rejoin(text, i, e);
    InkConcat(text[i..e], text[e..]);
  }

  lemma Rejoin(text: string, i: nat, e: nat)
    requires i <= e <= |text|
    ensures text[i..] == text[i..e] + text[e..]
  {
  }

  lemma InkOfPiece(piece: string, rest: seq<string>)
    ensures InkOfAll(IfAny(Trim(piece)) + rest) == Ink(piece) + InkOfAll(rest)
  {
    InkOfIfAny(Trim(piece));
    InkOfTrim(piece);
    InkOfAllConcat(IfAny(Trim(piece)), rest);
  }

  ghost predicate Unterminated(s: string) {
    forall c :: c in s ==> !IsTerminator(c)
  }

  ghost predicate Terminators(s: string) {
    forall c :: c in s ==> IsTerminator(c)
  }

  ghost predicate Blanks(s: string) {
    forall c :: c in s ==> IsBlank(c)
  }

  ghost predicate Parts(s: string, body: string, terms: string) {
    s == body + terms && Unterminated(body) && Terminators(terms)
  }

  /** A sentence is text without terminators followed by a run of terminators, with no
      white space around; only the last may lack the terminators. */
  ghost predicate IsSentence(s: string, last: bool) {
    && s != [] && !IsSpace(s[0]) && !IsSpace(s[|s| - 1])
    && exists body, terms :: Parts(s, body, terms) && (terms == [] ==> last)
  }

  /** Every piece that the splitter yields is a sentence. */
  lemma {:induction false} SentencesAreSentences(text: string, i: nat)
    requires i <= |text|
    ensures forall k :: 0 <= k < |SentencesFrom(text, i)| ==>
              IsSentence(SentencesFrom(text, i)[k], k == |SentencesFrom(text, i)| - 1)
    decreases |text| - i
  {
    if MatchEnd(text, i).None? {
      SkippedBody(text, i);
      TailIsSentence(text[i..]);
    } else {
      var e := MatchEnd(text, i).value;
      var sent := MatchedSentence(text, i);
      SentencesAreSentences(text, e);
      var rest := SentencesFrom(text, e);
      assert SentencesFrom(text, i) == [sent] + rest;
      assert IsSentence(sent, true) && forall k :: 0 <= k < |rest| ==> IsSentence(rest[k], k == |rest| - 1);
    }
  }

  lemma MatchedSentence(text: string, i: nat) returns (sent: string)
    requires i <= |text| && MatchEnd(text, i).Some?
    ensures sent == Trim(text[i..MatchEnd(text, i).value]) && IsSentence(sent, false)
  {
    var j := SkipToTerminator(text, i);
    var m := SkipTerminators(text, j);
    var e := SkipBlanks(text, m);
    SkipStopsAtTerminator(text, i);
    SkippedBody(text, i);
    SkippedTerminators(text, j);
    SkippedBlanks(text, m);
    sent := MatchIsSentence(text[i..j], text[j..m], text[m..e]);
    assert text[i..e] == text[i..j] + (text[j..m] + text[m..e]);
  }

  lemma {:induction false} SkippedBody(text: string, i: nat)
    requires i <= |text|
    ensures Unterminated(text[i..SkipToTerminator(text, i)])
    decreases |text| - i
  {
    if i >= |text| || IsTerminator(text[i]) {
    } else {
      SkippedBody(text, i + 1);
      assert text[i..SkipToTerminator(text, i)] == [text[i]] + text[i + 1..SkipToTerminator(text, i + 1)];
    }
  }

  lemma {:induction false} SkippedTerminators(text: string, i: nat)
    requires i <= |text|
    ensures Terminators(text[i..SkipTerminators(text, i)])
    decreases |text| - i
  {
    if i >= |text| || !IsTerminator(text[i]) {
    } else {
      SkippedTerminators(text, i + 1);
      assert text[i..SkipTerminators(text, i)] == [text[i]] + text[i + 1..SkipTerminators(text, i + 1)];
    }
  }

  lemma {:induction false} SkippedBlanks(text: string, i: nat)
    requires i <= |text|
    ensures Blanks(text[i..SkipBlanks(text, i)])
    decreases |text| - i
  {
    if i >= |text| || !IsBlank(text[i]) {
    } else {
      SkippedBlanks(text, i + 1);
      assert text[i..SkipBlanks(text, i)] == [text[i]] + text[i + 1..SkipBlanks(text, i + 1)];
    }
  }

  lemma {:induction false} TrimLeftFront(body: string, terms: string)
    requires terms != [] && !IsSpace(terms[0])
    ensures TrimLeft(body + terms) == TrimLeft(body) + terms
  {
    if body == [] {
      assert body + terms == terms;
    } else if IsSpace(body[0]) {
      assert (body + terms)[1..] == body[1..] + terms;
      TrimLeftFront(body[1..], terms);
    }
  }

  lemma {:induction false} TrimRightBack(a: string, blanks: string)
    requires forall c :: c in blanks ==> IsSpace(c)
    ensures TrimRight(a + blanks) == TrimRight(a)
  {
    if blanks == [] {
      assert a + blanks == a;
    } else {
      assert blanks[|blanks| - 1] in blanks;
      assert (a + blanks)[..|a + blanks| - 1] == a + blanks[..|blanks| - 1];
      TrimRightBack(a, blanks[..|blanks| - 1]);
    }
  }

  lemma TerminatorsAreInk()
    ensures forall c :: IsTerminator(c) ==> !IsSpace(c)
    ensures forall c :: IsBlank(c) ==> IsSpace(c)
  {
    forall c | IsTerminator(c) || IsBlank(c)
      ensures IsTerminator(c) ==> !IsSpace(c)
      ensures IsBlank(c) ==> IsSpace(c)
    {
      InTableIff(c as int, WHITE_SPACE);
      assert WHITE_SPACE[0] == (0x09, 0x0D) && WHITE_SPACE[1] == (0x20, 0x20);
    }
  }

  lemma {:induction false} TrimLeftKeeps(s: string, c: char)
    requires c in TrimLeft(s)
    ensures c in s
  {
    if s == [] || !IsSpace(s[0]) {
    } else {
      TrimLeftKeeps(s[1..], c);
    }
  }

  lemma TrimLeftUnterminated(s: string)
    requires Unterminated(s)
    ensures Unterminated(TrimLeft(s)) && Unterminated(Trim(s))
  {
    forall c | c in TrimLeft(s)
      ensures !IsTerminator(c)
    {
      TrimLeftKeeps(s, c);
    }
  }

  lemma TrimOfMatch(body: string, terms: string, blanks: string)
    requires terms != [] && !IsSpace(terms[0]) && !IsSpace(terms[|terms| - 1])
    requires forall c :: c in blanks ==> IsSpace(c)
    ensures Trim(body + (terms + blanks)) == TrimLeft(body) + terms
  {
    TrimLeftFront(body, terms + blanks);
    Associate(TrimLeft(body), terms, blanks);
    TrimRightBack(TrimLeft(body) + terms, blanks);
    NothingToTrim(TrimLeft(body), terms);
  }

  lemma Associate(a: string, b: string, c: string)
    ensures a + (b + c) == (a + b) + c
  {
  }

  lemma NothingToTrim(front: string, terms: string)
    requires terms != [] && !IsSpace(terms[|terms| - 1])
    ensures TrimRight(front + terms) == front + terms
  {
  }

  lemma MatchIsSentence(body: string, terms: string, blanks: string) returns (sent: string)
    requires Unterminated(body) && terms != [] && Terminators(terms) && Blanks(blanks)
    ensures sent == Trim(body + (terms + blanks)) && IsSentence(sent, false)
  {
    TerminatorsAreInk();
    assert terms[0] in terms && terms[|terms| - 1] in terms;
    TrimOfMatch(body, terms, blanks);
    sent := TrimLeft(body) + terms;
    TrimLeftUnterminated(body);
    assert Parts(sent, TrimLeft(body), terms);
  }

  lemma TailIsSentence(s: string)
    requires Unterminated(s)
    ensures Trim(s) != [] ==> IsSentence(Trim(s), true)
  {
    TrimLeftUnterminated(s);
    assert Trim(s) == Trim(s) + [];
    assert Parts(Trim(s), Trim(s), []);
  }

  // --------------------------------------------------------------------- packing

  // The octets of a segment: its sentences with a blank between them.
  function Size(group: seq<string>): nat {
    if group == [] then 0
    else if |group| == 1 then ByteLength(group[0])
    else Size(group[..|group| - 1]) + 1 + ByteLength(group[|group| - 1])
  }

  lemma {:induction false} SizeIsByteLength(group: seq<string>)
    ensures ByteLength(Spaced(group)) == Size(group)
  {
    if |group| <= 1 {
    } else {
      var front, s := group[..|group| - 1], group[|group| - 1];
      SizeIsByteLength(front);
      SpacedLength(Spaced(front), s);
    }
  }

  lemma SpacedLength(a: string, b: string)
    ensures ByteLength(a + " " + b) == ByteLength(a) + 1 + ByteLength(b)
  {
    ByteLengthConcat(a + " ", b);
    ByteLengthConcat(a, " ");
    assert ByteLength(" ") == ByteLength("") + |Utf8(' ')|;
  }

  /** Sentences put in segments, in order. */
  datatype Packing = Empty | More(front: Packing, group: seq<string>) {
    function Count(): nat {
      if Empty? then 0 else front.Count() + 1
    }

    function Sentences(): seq<string> {
      if Empty? then [] else front.Sentences() + group
    }

    /** No segment is empty or longer than maxLength octets. */
    predicate Fits(maxLength: nat) {
      Empty? || (front.Fits(maxLength) && group != [] && Size(group) <= maxLength)
    }

    function Segments(): seq<string> {
      if Empty? then [] else front.Segments() + [Spaced(group)]
    }
  }

  /** Where the packer puts one more sentence that fits by itself. */
  function Add(p: Packing, s: string, maxLength: nat): (r: Packing) {
    if p.Empty? || Size(p.group) + ByteLength(s) + 1 > maxLength then More(p, [s])
    else More(p.front, p.group + [s])
  }

  function Greedy(sentences: seq<string>, maxLength: nat): Packing {
    if sentences == [] then Empty
    else Add(Greedy(sentences[..|sentences| - 1], maxLength), sentences[|sentences| - 1], maxLength)
  }

  lemma SizeOfMore(cur: seq<string>, s: string)
    requires cur != []
    ensures Size(cur + [s]) == Size(cur) + 1 + ByteLength(s)
  {
    assert (cur + [s])[..|cur|] == cur;
  }

  lemma {:induction false} SizeOfSuffix(a: seq<string>, b: seq<string>)
    requires b != []
    ensures Size(b) <= Size(a + b)
  {
    if a != [] {
      if |b| == 1 {
        assert a + b == a + [b[0]];
        SizeOfMore(a, b[0]);
      } else {
        var front, s := b[..|b| - 1], b[|b| - 1];
        SizeOfSuffix(a, front);
        assert b == front + [s];
        assert a + b == (a + front) + [s];
        SizeOfMore(a + front, s);
      }
    } else {
      assert a + b == b;
    }
  }

  lemma {:induction false} GreedyFits(sentences: seq<string>, maxLength: nat)
    requires forall s :: s in sentences ==> ByteLength(s) <= maxLength
    ensures Greedy(sentences, maxLength).Sentences() == sentences
    ensures Greedy(sentences, maxLength).Fits(maxLength)
  {
    if sentences == [] {
    } else {
      var front, s := sentences[..|sentences| - 1], sentences[|sentences| - 1];
      GreedyFits(front, maxLength);
      AddFits(Greedy(front, maxLength), s, maxLength, front);
    }
  }

  lemma AddFits(p: Packing, s: string, maxLength: nat, front: seq<string>)
    requires p.Fits(maxLength) && ByteLength(s) <= maxLength && p.Sentences() == front
    ensures Add(p, s, maxLength).Fits(maxLength) && Add(p, s, maxLength).Sentences() == front + [s]
  {
    if !p.Empty? {
      SizeOfMore(p.group, s);
      assert p.front.Sentences() + (p.group + [s]) == p.front.Sentences() + p.group + [s];
    }
  }

  // The greedy packer is never behind: fewer groups, or as many and a last one no longer.
  predicate Leads(p: Packing, q: Packing) {
    || p.Count() < q.Count()
    || (p.Count() == q.Count() && (p.More? && q.More? ==> |p.group| <= |q.group|))
  }

  /** Greedy packing is minimal: no order-preserving packing of the sentences that fits
      uses fewer segments. */
  lemma {:induction false} GreedyIsMinimal(sentences: seq<string>, maxLength: nat, other: Packing)
    requires forall s :: s in sentences ==> ByteLength(s) <= maxLength
    requires other.Fits(maxLength) && other.Sentences() == sentences
    ensures Leads(Greedy(sentences, maxLength), other)
  {
    if sentences != [] {
      var front, s := sentences[..|sentences| - 1], sentences[|sentences| - 1];
      var less := Drop(other, maxLength);
      assert sentences == front + [s];
      GreedyIsMinimal(front, maxLength, less);
      GreedyFits(front, maxLength);
      AddLeads(Greedy(front, maxLength), s, maxLength, other, less);
    } else {
      assert other.Count() == 0 ==> other.Empty?;
    }
  }

  // A packing of all sentences but the last.
  lemma Drop(other: Packing, maxLength: nat) returns (less: Packing)
    requires other.More? && other.Fits(maxLength)
    ensures less == if |other.group| == 1 then other.front else More(other.front, other.group[..|other.group| - 1])
    ensures less.Fits(maxLength)
    ensures other.Sentences() == less.Sentences() + [other.group[|other.group| - 1]]
  {
    var n := |other.group|;
    var cut, s := other.group[..n - 1], other.group[n - 1];
    assert other.group == cut + [s];
    if n == 1 {
      less := other.front;
    } else {
      less := More(other.front, cut);
      SizeOfMore(cut, s);
      assert other.front.Sentences() + (cut + [s]) == other.front.Sentences() + cut + [s];
    }
  }

  lemma AddLeads(p: Packing, s: string, maxLength: nat, other: Packing, less: Packing)
    requires p.Fits(maxLength) && other.More? && other.Fits(maxLength)
    requires less == if |other.group| == 1 then other.front else More(other.front, other.group[..|other.group| - 1])
    requires other.Sentences() == p.Sentences() + [s] && Leads(p, less)
    ensures Leads(Add(p, s, maxLength), other)
  {
    if p.More? && p.Count() == other.Count() {
      // as many groups, so the other packer's last one holds this one's, and s as well
      var extra := |other.group| - (|p.group| + 1);
      assert extra >= 0;
      var a, b := other.group[..extra], other.group[extra..];
      LastGroup(p, other, s);
      assert other.group == a + b;
      SizeOfSuffix(a, b);
      SizeOfMore(p.group, s);
    }
  }

  lemma LastGroup(p: Packing, other: Packing, s: string)
    requires p.More? && other.More? && |p.group| < |other.group|
    requires other.Sentences() == p.Sentences() + [s]
    ensures other.group[|other.group| - (|p.group| + 1)..] == p.group + [s]
  {
    var x, y := p.front.Sentences(), other.front.Sentences();
    var k := |other.group| - (|p.group| + 1);
    assert |y| + k == |x|;
    assert other.Sentences() == y + other.group;
    assert other.Sentences() == x + (p.group + [s]);
    assert other.group[k..] == other.Sentences()[|y| + k..];
    assert p.group + [s] == other.Sentences()[|x|..];
  }

  // --------------------------------------------------------- what the segments are

  ghost predicate AllFit(sentences: seq<string>, maxLength: nat) {
    forall s :: s in sentences ==> ByteLength(s) <= maxLength
  }

  ghost predicate WithinRunes(segments: seq<string>, maxLength: nat) {
    forall s :: s in segments ==> s != "" && |s| <= maxLength
  }

  // A sentence that is too long is cut into runs of maxLength characters.
  function Slices(s: string, maxLength: nat): seq<string>
    requires maxLength > 0
    decreases |s|
  {
    if s == "" then []
    else if |s| <= maxLength then [s]
    else [s[..maxLength]] + Slices(s[maxLength..], maxLength)
  }

  // The sentences since the last one that is too long.
  function Block(sentences: seq<string>, maxLength: nat): seq<string> {
    if sentences == [] then []
    else
      var s := sentences[|sentences| - 1];
      if ByteLength(s) > maxLength then [] else Block(sentences[..|sentences| - 1], maxLength) + [s]
  }

  // The segments up to there.
  function Done(sentences: seq<string>, maxLength: nat): seq<string>
    requires maxLength > 0
    decreases |sentences|, 0
  {
    if sentences == [] then []
    else
      var front, s := sentences[..|sentences| - 1], sentences[|sentences| - 1];
      if ByteLength(s) > maxLength then Segmented(front, maxLength) + Slices(s, maxLength) else Done(front, maxLength)
  }

  function Segmented(sentences: seq<string>, maxLength: nat): seq<string>
    requires maxLength > 0
    decreases |sentences|, 1
  {
    Done(sentences, maxLength) + Greedy(Block(sentences, maxLength), maxLength).Segments()
  }

  /** The slices of a sentence are the sentence, and all but the last are as long as allowed. */
  lemma {:induction false} SlicesMean(s: string, maxLength: nat)
    requires maxLength > 0
    ensures Concat(Slices(s, maxLength)) == s && WithinRunes(Slices(s, maxLength), maxLength)
    ensures forall k :: 0 <= k < |Slices(s, maxLength)| - 1 ==> |Slices(s, maxLength)[k]| == maxLength
    decreases |s|
  {
    if s == "" {
    } else if |s| <= maxLength {
      assert [s][1..] == [] && Concat([]) == "";
    } else {
      var rest := Slices(s[maxLength..], maxLength);
      SlicesMean(s[maxLength..], maxLength);
      assert ([s[..maxLength]] + rest)[1..] == rest;
      assert s == s[..maxLength] + s[maxLength..];
    }
  }

  lemma FrontFits(front: seq<string>, s: string, maxLength: nat)
    requires AllFit(front + [s], maxLength)
    ensures AllFit(front, maxLength) && ByteLength(s) <= maxLength
  {
    assert s in front + [s] && forall x :: x in front ==> x in front + [s];
  }

  lemma LastOf(sentences: seq<string>) returns (front: seq<string>, s: string)
    requires sentences != []
    ensures sentences == front + [s] && |front| < |sentences|
  {
    front, s := sentences[..|sentences| - 1], sentences[|sentences| - 1];
  }

  lemma {:induction false} FittingIsOneBlock(sentences: seq<string>, maxLength: nat)
    requires maxLength > 0 && AllFit(sentences, maxLength)
    ensures Done(sentences, maxLength) == [] && Block(sentences, maxLength) == sentences
    decreases |sentences|
  {
    if sentences == [] {
    } else {
      var front, s := LastOf(sentences);
      FrontFits(front, s, maxLength);
      FittingIsOneBlock(front, maxLength);
      SeenMore(front, s, maxLength);
    }
  }

  /** Sentences that all fit are packed greedily. */
  lemma FittingAreGreedy(sentences: seq<string>, maxLength: nat)
    requires maxLength > 0 && AllFit(sentences, maxLength)
    ensures Segmented(sentences, maxLength) == Greedy(sentences, maxLength).Segments()
  {
    FittingIsOneBlock(sentences, maxLength);
  }

  lemma Regroup(x: seq<string>, y: seq<string>, z: seq<string>)
    ensures (x + y) + z == x + (y + z)
  {
  }

  /** A sentence that is too long separates: what is in front of it and what comes behind are
      segmented as if they stood alone, and its slices stand between. */
  lemma LongSentenceSeparates(a: seq<string>, long: string, b: seq<string>, maxLength: nat)
    requires maxLength > 0 && ByteLength(long) > maxLength
    ensures Segmented(a + [long] + b, maxLength) ==
              Segmented(a, maxLength) + Slices(long, maxLength) + Segmented(b, maxLength)
  {
    SeparatedParts(a, long, b, maxLength);
    Regroup(Segmented(a, maxLength) + Slices(long, maxLength), Done(b, maxLength),
            Greedy(Block(b, maxLength), maxLength).Segments());
  }

  lemma {:induction false} SeparatedParts(a: seq<string>, long: string, b: seq<string>, maxLength: nat)
    requires maxLength > 0 && ByteLength(long) > maxLength
    ensures Block(a + [long] + b, maxLength) == Block(b, maxLength)
    ensures Done(a + [long] + b, maxLength) == Segmented(a, maxLength) + Slices(long, maxLength) + Done(b, maxLength)
  {
    SeenMore(a, long, maxLength);
    if b == [] {
      assert a + [long] + b == a + [long];
      assert Segmented(a, maxLength) + Slices(long, maxLength) + [] ==
               Segmented(a, maxLength) + Slices(long, maxLength);
    } else {
      var front, s := b[..|b| - 1], b[|b| - 1];
      SeparatedParts(a, long, front, maxLength);
      OneBehind(a + [long], front, s, b);
      PartsBehind(a + [long] + front, front, s, Segmented(a, maxLength) + Slices(long, maxLength), maxLength);
    }
  }

  lemma OneBehind(x: seq<string>, front: seq<string>, s: string, b: seq<string>)
    requires b != [] && front == b[..|b| - 1] && s == b[|b| - 1]
    ensures b == front + [s] && x + b == (x + front) + [s]
  {
  }

  lemma PartsBehind(all: seq<string>, front: seq<string>, s: string, x: seq<string>, maxLength: nat)
    requires maxLength > 0 && Block(all, maxLength) == Block(front, maxLength)
               && Done(all, maxLength) == x + Done(front, maxLength)
    ensures Block(all + [s], maxLength) == Block(front + [s], maxLength)
    ensures Done(all + [s], maxLength) == x + Done(front + [s], maxLength)
  {
    SeenMore(all, s, maxLength);
    SeenMore(front, s, maxLength);
    var y, z := Done(front, maxLength), Greedy(Block(front, maxLength), maxLength).Segments();
    Regroup(x, y, z);
    Regroup(x, y + z, Slices(s, maxLength));
  }

  // ------------------------------------------------- nothing is lost, nothing too long

  lemma InkOfMore(segments: seq<string>, s: string)
    ensures InkOfAll(segments + [s]) == InkOfAll(segments) + Ink(s)
  {
    assert (segments + [s])[..|segments|] == segments;
  }

  lemma InkOfBlank(a: string, b: string)
    ensures Ink(a + " " + b) == Ink(a) + Ink(b)
  {
    InkConcat(a + " ", b);
    InkConcat(a, " ");
    BlankHasNoInk();
  }

  lemma BlankHasNoInk()
    ensures Ink(" ") == ""
  {
    TerminatorsAreInk();
    assert IsBlank(' ');
    assert " "[..0] == "";
  }

  lemma {:induction false} InkOfSpaced(group: seq<string>)
    ensures Ink(Spaced(group)) == InkOfAll(group)
  {
    if group == [] {
    } else if |group| == 1 {
      assert group[..0] == [];
      assert InkOfAll([]) + Ink(group[0]) == Ink(group[0]);
    } else {
      var front, s := group[..|group| - 1], group[|group| - 1];
      InkOfSpaced(front);
      InkOfBlank(Spaced(front), s);
    }
  }

  lemma {:induction false} InkOfSegments(p: Packing)
    ensures InkOfAll(p.Segments()) == InkOfAll(p.Sentences())
  {
    if p.Empty? {
    } else {
      InkOfSegments(p.front);
      InkOfSpaced(p.group);
      InkOfMore(p.front.Segments(), Spaced(p.group));
      InkOfAllConcat(p.front.Sentences(), p.group);
    }
  }

  lemma InkOfParts(head: string, tail: string, slices: seq<string>)
    requires InkOfAll(slices) == Ink(tail)
    ensures InkOfAll([head] + slices) == Ink(head + tail)
  {
    InkOfOne(head);
    InkOfAllConcat([head], slices);
    InkConcat(head, tail);
  }

  lemma InkOfOne(s: string)
    ensures InkOfAll([s]) == Ink(s)
  {
    assert [s][..0] == [];
    assert InkOfAll([]) == "";
    assert "" + Ink(s) == Ink(s);
  }

  lemma {:induction false} InkOfSlices(s: string, maxLength: nat)
    requires maxLength > 0
    ensures InkOfAll(Slices(s, maxLength)) == Ink(s)
    decreases |s|
  {
    if s == "" {
    } else if |s| <= maxLength {
      InkOfOne(s);
    } else {
      var head, tail := s[..maxLength], s[maxLength..];
      assert s == head + tail;
      InkOfSlices(tail, maxLength);
      InkOfParts(head, tail, Slices(tail, maxLength));
    }
  }

  lemma {:induction false} BlockFits(sentences: seq<string>, maxLength: nat)
    ensures AllFit(Block(sentences, maxLength), maxLength)
    ensures forall s :: s in Block(sentences, maxLength) ==> s in sentences
  {
    if sentences == [] {
    } else {
      BlockFits(sentences[..|sentences| - 1], maxLength);
    }
  }

  lemma InkOfGreedy(block: seq<string>, maxLength: nat)
    requires AllFit(block, maxLength)
    ensures InkOfAll(Greedy(block, maxLength).Segments()) == InkOfAll(block)
  {
    GreedyFits(block, maxLength);
    InkOfSegments(Greedy(block, maxLength));
  }

  lemma {:induction false} DoneKeepsInk(sentences: seq<string>, maxLength: nat)
    requires maxLength > 0
    ensures InkOfAll(Done(sentences, maxLength)) + InkOfAll(Block(sentences, maxLength)) == InkOfAll(sentences)
  {
    if sentences == [] {
    } else {
      var front, s := sentences[..|sentences| - 1], sentences[|sentences| - 1];
      var done, block := Done(front, maxLength), Block(front, maxLength);
      DoneKeepsInk(front, maxLength);
      if ByteLength(s) > maxLength {
        BlockFits(front, maxLength);
        InkOfGreedy(block, maxLength);
        InkOfAllConcat(done, Greedy(block, maxLength).Segments());
        InkOfAllConcat(Segmented(front, maxLength), Slices(s, maxLength));
        InkOfSlices(s, maxLength);
      } else {
        InkOfMore(block, s);
        Associate(InkOfAll(done), InkOfAll(block), Ink(s));
      }
    }
  }

  /** The segments hold what the sentences hold, but for white space. */
  lemma SegmentedKeepsInk(sentences: seq<string>, maxLength: nat)
    requires maxLength > 0
    ensures InkOfAll(Segmented(sentences, maxLength)) == InkOfAll(sentences)
  {
    var done, block := Done(sentences, maxLength), Block(sentences, maxLength);
    DoneKeepsInk(sentences, maxLength);
    BlockFits(sentences, maxLength);
    InkOfGreedy(block, maxLength);
    InkOfAllConcat(done, Greedy(block, maxLength).Segments());
  }

  lemma SpacedIsWithin(group: seq<string>, maxLength: nat)
    requires group != [] && Size(group) <= maxLength && forall s :: s in group ==> s != ""
    ensures Spaced(group) != "" && |Spaced(group)| <= maxLength
  {
    SizeIsByteLength(group);
    ByteLengthBounds(Spaced(group));
    assert group[0] in group;
  }

  lemma {:induction false} PackingIsWithin(p: Packing, maxLength: nat)
    requires p.Fits(maxLength) && forall s :: s in p.Sentences() ==> s != ""
    ensures WithinRunes(p.Segments(), maxLength)
  {
    if p.Empty? {
    } else {
      assert forall s :: s in p.front.Sentences() || s in p.group ==> s in p.Sentences();
      PackingIsWithin(p.front, maxLength);
      SpacedIsWithin(p.group, maxLength);
    }
  }

  lemma GreedyIsWithin(block: seq<string>, maxLength: nat)
    requires AllFit(block, maxLength) && forall s :: s in block ==> s != ""
    ensures WithinRunes(Greedy(block, maxLength).Segments(), maxLength)
  {
    GreedyFits(block, maxLength);
    PackingIsWithin(Greedy(block, maxLength), maxLength);
  }

  /** Every segment is non-empty and has at most maxLength characters. */
  lemma {:induction false} SegmentedIsWithin(sentences: seq<string>, maxLength: nat)
    requires maxLength > 0 && forall s :: s in sentences ==> s != ""
    ensures WithinRunes(Done(sentences, maxLength), maxLength)
              && WithinRunes(Segmented(sentences, maxLength), maxLength)
  {
    BlockFits(sentences, maxLength);
    GreedyIsWithin(Block(sentences, maxLength), maxLength);
    if sentences == [] {
    } else {
      var front, s := sentences[..|sentences| - 1], sentences[|sentences| - 1];
      assert forall x :: x in front ==> x in sentences;
      SegmentedIsWithin(front, maxLength);
      SlicesMean(s, maxLength);
    }
  }

  // ------------------------------------------------------------------ the packer

  method Slice(segments0: seq<string>, sentence: string, maxLength: nat) returns (segments: seq<string>)
    requires 0 < maxLength
    ensures segments == segments0 + Slices(sentence, maxLength)
  {
    segments := segments0;
    var i := 0;
    ghost var rest := sentence;
    while i < |sentence|
      invariant i <= |sentence| && rest == sentence[i..]
      invariant segments + Slices(rest, maxLength) == segments0 + Slices(sentence, maxLength)
    {
      var end := i + maxLength;
      if end > |sentence| {
        end := |sentence|;
      }
      SlicesMore(rest, maxLength, segments);
      assert sentence[i..end] == rest[..end - i] && sentence[end..] == rest[end - i..];
      segments := segments + [sentence[i..end]];
      rest := sentence[end..];
      i := end;
    }
    assert rest == "" && segments + [] == segments;
  }

  lemma SlicesMore(rest: string, maxLength: nat, segments: seq<string>)
    requires maxLength > 0 && rest != ""
    ensures var n := if |rest| < maxLength then |rest| else maxLength;
            segments + Slices(rest, maxLength) == (segments + [rest[..n]]) + Slices(rest[n..], maxLength)
  {
    if |rest| <= maxLength {
      assert rest[..|rest|] == rest && Slices(rest[|rest|..], maxLength) == [];
    }
  }

  // Behind the segments that are done stand those of a packing, but for the last, which is
  // still being built.
  ghost predicate Builds(segments: seq<string>, current: string, done: seq<string>, p: Packing) {
    match p
    case Empty => segments == done && current == ""
    case More(front, group) =>
      segments == done + front.Segments() && current == Spaced(group) && group != [] && current != ""
  }

  // The sentence goes into a segment of its own, or behind a blank into the one being built.
  lemma BuildsMore(segments: seq<string>, current: string, done: seq<string>, p: Packing, s: string, maxLength: nat)
    requires Builds(segments, current, done, p) && s != ""
    ensures if current != "" && ByteLength(current) + ByteLength(s) + 1 > maxLength
            then Builds(segments + [current], s, done, Add(p, s, maxLength))
            else Builds(segments, if current == "" then s else current + " " + s, done, Add(p, s, maxLength))
  {
    assert Spaced([s]) == s;
    if p.More? {
      SizeIsByteLength(p.group);
      var more := p.group + [s];
      assert more[..|more| - 1] == p.group;
      assert Spaced(more) == Spaced(p.group) + " " + s;
      assert (done + p.front.Segments()) + [current] == done + p.Segments();
    }
  }

  // The segment being built is the last one of the packing.
  lemma BuildsAll(segments: seq<string>, current: string, done: seq<string>, p: Packing)
    requires Builds(segments, current, done, p)
    ensures ByteLength(current) > 0 <==> current != ""
    ensures (if current != "" then segments + [current] else segments) == done + p.Segments()
  {
    ByteLengthBounds(current);
    if p.More? {
      assert (done + p.front.Segments()) + [current] == done + p.Segments();
    } else {
      assert done + [] == done;
    }
  }

  // One sentence that fits by itself.
  method PackOne(segments0: seq<string>, current0: string, sentence: string, maxLength: nat, ghost done: seq<string>,
                 ghost p: Packing)
    returns (segments: seq<string>, current: string)
    requires Builds(segments0, current0, done, p) && sentence != "" && ByteLength(sentence) <= maxLength
    ensures Builds(segments, current, done, Add(p, sentence, maxLength))
  {
    segments, current := segments0, current0;
    BuildsMore(segments, current, done, p, sentence, maxLength);
    BuildsAll(segments, current, done, p);
    if ByteLength(current) > 0 && ByteLength(current) + ByteLength(sentence) + 1 > maxLength {
      segments := segments + [current];
      current := "";
    }
    if ByteLength(current) > 0 {
      current := current + " " + sentence;
    } else {
      current := sentence;
    }
  }

  lemma SentencesAreNotEmpty(text: string)
    ensures forall s :: s in SentencesFrom(text, 0) ==> s != ""
  {
    SentencesAreSentences(text, 0);
  }

  /** Segments at sentence boundaries. The running length is in octets, a long sentence is
      cut by characters. */
  method SplitContext(context: string, maxLength: int) returns (segments: seq<string>)
    ensures maxLength <= 0 ==> segments == [context]
    ensures maxLength > 0 ==> segments == Segmented(SentencesFrom(context, 0), maxLength)
    ensures maxLength > 0 ==> WithinRunes(segments, maxLength)
    ensures maxLength > 0 ==> InkOfAll(segments) == Ink(context)
    ensures maxLength > 0 && AllFit(SentencesFrom(context, 0), maxLength) ==>
              segments == Greedy(SentencesFrom(context, 0), maxLength).Segments()
  {
    if maxLength <= 0 {
      return [context];
    }
    var sentences := SplitIntoSentences(context);
    SentencesAreNotEmpty(context);
    segments := Pack(sentences, maxLength);
    SentencesKeepTheInk(context, 0);
    assert context[0..] == context;
    SegmentedKeepsInk(sentences, maxLength);
    SegmentedIsWithin(sentences, maxLength);
    if AllFit(sentences, maxLength) {
      FittingAreGreedy(sentences, maxLength);
    }
  }

  ghost predicate PackedSoFar(segments: seq<string>, current: string, seen: seq<string>, maxLength: nat)
    requires maxLength > 0
  {
    Builds(segments, current, Done(seen, maxLength), Greedy(Block(seen, maxLength), maxLength))
  }

  // One turn of the loop over the sentences.
  method TakeSentence(segments0: seq<string>, current0: string, sentence: string, maxLength: nat,
                      ghost seen: seq<string>, ghost more: seq<string>)
    returns (segments: seq<string>, current: string)
    requires 0 < maxLength && sentence != "" && PackedSoFar(segments0, current0, seen, maxLength)
    requires more == seen + [sentence]
    ensures PackedSoFar(segments, current, more, maxLength)
  {
    ghost var done, p := Done(seen, maxLength), Greedy(Block(seen, maxLength), maxLength);
    SeenMore(seen, sentence, maxLength);
    if ByteLength(sentence) > maxLength {
      BuildsAll(segments0, current0, done, p);
      segments, current := segments0, current0;
      if ByteLength(current) > 0 {
        segments := segments + [current];
        current := "";
      }
      segments := Slice(segments, sentence, maxLength);
    } else {
      segments, current := PackOne(segments0, current0, sentence, maxLength, done, p);
    }
  }

  method Pack(sentences: seq<string>, maxLength: nat) returns (segments: seq<string>)
    requires 0 < maxLength && forall s :: s in sentences ==> s != ""
    ensures segments == Segmented(sentences, maxLength)
  {
    segments := [];
    var current := "";
    ghost var seen: seq<string> := [];
    for i := 0 to |sentences|
      invariant |seen| == i && forall k :: 0 <= k < i ==> seen[k] == sentences[k]
      invariant PackedSoFar(segments, current, seen, maxLength)
    {
      var sentence := sentences[i];
      assert sentence in sentences;
      ghost var more := seen + [sentence];
      segments, current := TakeSentence(segments, current, sentence, maxLength, seen, more);
      seen := more;
    }
    assert seen == sentences;
    BuildsAll(segments, current, Done(seen, maxLength), Greedy(Block(seen, maxLength), maxLength));
    if ByteLength(current) > 0 {
      segments := segments + [current];
    }
  }

  lemma SeenMore(seen: seq<string>, s: string, maxLength: nat)
    requires maxLength > 0
    ensures ByteLength(s) > maxLength ==>
              && Done(seen + [s], maxLength) == Segmented(seen, maxLength) + Slices(s, maxLength)
              && Block(seen + [s], maxLength) == []
    ensures ByteLength(s) <= maxLength ==>
              && Done(seen + [s], maxLength) == Done(seen, maxLength)
              && Block(seen + [s], maxLength) == Block(seen, maxLength) + [s]
              && Greedy(Block(seen + [s], maxLength), maxLength) ==
                 Add(Greedy(Block(seen, maxLength), maxLength), s, maxLength)
  {
    assert (seen + [s])[..|seen|] == seen;
    if ByteLength(s) <= maxLength {
      var block := Block(seen, maxLength);
      assert (block + [s])[..|block|] == block;
    }
  }

  lemma {:induction false} CountSegments(p: Packing)
    ensures |p.Segments()| == p.Count()
  {
    if p.Empty? {
    } else {
      CountSegments(p.front);
    }
  }

  /** No order-preserving grouping whose space-joined groups fit uses fewer segments. */
  lemma FewestSegments(sentences: seq<string>, maxLength: nat, other: Packing)
    requires AllFit(sentences, maxLength)
    requires other.Fits(maxLength) && other.Sentences() == sentences
    ensures |Greedy(sentences, maxLength).Segments()| <= |other.Segments()|
    ensures Greedy(sentences, maxLength).Fits(maxLength) && Greedy(sentences, maxLength).Sentences() == sentences
  {
    GreedyIsMinimal(sentences, maxLength, other);
    GreedyFits(sentences, maxLength);
    CountSegments(Greedy(sentences, maxLength));
    CountSegments(other);
  }
}
