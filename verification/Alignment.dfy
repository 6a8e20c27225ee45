/** From text to token ids with word numbers (`Encode` and `BuildAttentionMask` of
    extractor/deberta/tokenizer.go), and why the numbers are those of `splitWords`. */
module Alignment {
  import opened Text
  import opened Unigram
  import opened Words

  function TokenOf(t: Tokenizer, id: int): string {
    if 0 <= id < |t.vocab| then t.vocab[id].token else []
  }

  predicate StartsWord(t: Tokenizer, id: int) {
    TokenOf(t, id) != [] && TokenOf(t, id)[0] == MARKER
  }

  /** The number of the word the last of these tokens is put in: the first token opens
      word 0, and every later token with a marker in front opens the next word. */
  function LastIndex(t: Tokenizer, ids: seq<int>): nat
    requires ids != []
  {
    if |ids| == 1 then 0
    else LastIndex(t, ids[..|ids| - 1]) + if StartsWord(t, ids[|ids| - 1]) then 1 else 0
  }

  /** The word number of each token. */
  function Numbering(t: Tokenizer, ids: seq<int>): (r: seq<int>)
    ensures |r| == |ids|
  {
    if ids == [] then [] else Numbering(t, ids[..|ids| - 1]) + [LastIndex(t, ids)]
  }

  lemma {:induction false} NumberingAt(t: Tokenizer, ids: seq<int>, k: nat)
    requires k < |ids|
    ensures Numbering(t, ids)[k] == LastIndex(t, ids[..k + 1])
  {
    if k < |ids| - 1 {
      var front := ids[..|ids| - 1];
      NumberingAt(t, front, k);
      assert front[..k + 1] == ids[..k + 1];
    } else {
      assert ids[..k + 1] == ids;
    }
  }

  // Conversion to int32 keeps the low 32 bits.
  function Int32(x: int): (r: int)
    ensures -0x8000_0000 <= r < 0x8000_0000 && (x - r) % 0x1_0000_0000 == 0
    ensures -0x8000_0000 <= x < 0x8000_0000 ==> r == x
  {
    (x + 0x8000_0000) % 0x1_0000_0000 - 0x8000_0000
  }

  function Int32s(ids: seq<int>): (r: seq<int>)
    ensures |r| == |ids| && forall i :: 0 <= i < |ids| ==> r[i] == Int32(ids[i])
  {
    if ids == [] then [] else Int32s(ids[..|ids| - 1]) + [Int32(ids[|ids| - 1])]
  }

  // The ids of a path and their word numbers, with the special tokens around.
  predicate EncodedBy(t: Tokenizer, path: seq<Piece>, addCLS: bool, addSEP: bool, tokenIDs: seq<int>,
                      wordIDs: seq<int>) {
    && tokenIDs ==
        (if addCLS then [Int32(t.clsId)] else []) + Int32s(Ids(path)) + (if addSEP then [Int32(t.sepId)] else [])
    && wordIDs == (if addCLS then [-1] else []) + Numbering(t, Ids(path)) + if addSEP then [-1] else []
  }

  /** The ids and word numbers of the segmentation that the tokenizer promises for the text. */
  ghost predicate Encodes(t: Tokenizer, normalized: string, addCLS: bool, addSEP: bool, tokenIDs: seq<int>,
                          wordIDs: seq<int>)
    requires Indexed(t)
  {
    exists path :: Canonical(t, normalized, path, |normalized|) && EncodedBy(t, path, addCLS, addSEP, tokenIDs, wordIDs)
  }

  /** The ids are cut to 32 bits. [CLS] comes first and [SEP] last, both without a word; between
      them stand the ids of the path in their order, with word numbers that start at 0 and go up
      by one at each token with a marker in front. */
  method Encode(t: Tokenizer, text: string, addCLS: bool, addSEP: bool) returns (tokenIDs: seq<int>, wordIDs: seq<int>)
    requires Indexed(t)
    ensures Encodes(t, Normalized(text), addCLS, addSEP, tokenIDs, wordIDs)
    ensures |tokenIDs| == |wordIDs| >= (if addCLS then 1 else 0) + (if addSEP then 1 else 0)
    ensures addCLS ==> tokenIDs[0] == Int32(t.clsId) && wordIDs[0] == -1
    ensures addSEP ==> tokenIDs[|tokenIDs| - 1] == Int32(t.sepId) && wordIDs[|wordIDs| - 1] == -1
    ensures var first, last := if addCLS then 1 else 0, |tokenIDs| - if addSEP then 1 else 0;
            exists path: seq<Piece> :: Canonical(t, Normalized(text), path, |Normalized(text)|)
              && Numbered(t, path, tokenIDs[first..last], wordIDs[first..last])
  {
    var normalized := NormalizeSPM(text);
    tokenIDs, wordIDs := EncodeRunes(t, normalized, addCLS, addSEP);
    ghost var path :| Canonical(t, normalized, path, |normalized|)
      && EncodedBy(t, path, addCLS, addSEP, tokenIDs, wordIDs);
    EncodedPositions(t, path, addCLS, addSEP, tokenIDs, wordIDs);
  }

  // Whether a token opens a new word, as a number.
  function Opens(t: Tokenizer, id: int): (n: int)
    ensures n == if 0 <= id < |t.vocab| && [MARKER] <= t.vocab[id].token then 1 else 0
  {
    if StartsWord(t, id) then 1 else 0
  }

  /** One id and one word number for each piece. */
  ghost predicate Numbered(t: Tokenizer, path: seq<Piece>, ids: seq<int>, nums: seq<int>) {
    && |ids| == |nums| == |path|
    && (forall k :: 0 <= k < |path| ==> ids[k] == Int32(path[k].id))
    && (forall k :: 0 <= k < |path| ==> nums[k] == if k == 0 then 0 else nums[k - 1] + Opens(t, path[k].id))
  }

  lemma PathIsNumbered(t: Tokenizer, path: seq<Piece>)
    ensures Numbered(t, path, Int32s(Ids(path)), Numbering(t, Ids(path)))
  {
    var nums := Numbering(t, Ids(path));
    forall k | 0 <= k < |path|
      ensures nums[k] == if k == 0 then 0 else nums[k - 1] + Opens(t, path[k].id)
    {
      NumberStep(t, Ids(path), k);
    }
  }

  lemma EncodedPositions(t: Tokenizer, path: seq<Piece>, addCLS: bool, addSEP: bool, tokenIDs: seq<int>,
                         wordIDs: seq<int>)
    requires EncodedBy(t, path, addCLS, addSEP, tokenIDs, wordIDs)
    ensures |tokenIDs| == |wordIDs| == |path| + (if addCLS then 1 else 0) + (if addSEP then 1 else 0)
    ensures addCLS ==> tokenIDs[0] == Int32(t.clsId) && wordIDs[0] == -1
    ensures addSEP ==> tokenIDs[|tokenIDs| - 1] == Int32(t.sepId) && wordIDs[|wordIDs| - 1] == -1
    ensures var first, last := if addCLS then 1 else 0, |tokenIDs| - if addSEP then 1 else 0;
            Numbered(t, path, tokenIDs[first..last], wordIDs[first..last])
  {
    var first, last := if addCLS then 1 else 0, |tokenIDs| - if addSEP then 1 else 0;
    assert tokenIDs[first..last] == Int32s(Ids(path)) && wordIDs[first..last] == Numbering(t, Ids(path));
    PathIsNumbered(t, path);
  }

  lemma NumberStep(t: Tokenizer, ids: seq<int>, k: nat)
    requires k < |ids|
    ensures Numbering(t, ids)[k] == if k == 0 then 0 else Numbering(t, ids)[k - 1] + Opens(t, ids[k])
  {
    NumberingAt(t, ids, k);
    if k > 0 {
      NumberingAt(t, ids, k - 1);
      assert ids[..k + 1][..k] == ids[..k] && ids[..k + 1][k] == ids[k];
    }
  }

  method EncodeRunes(t: Tokenizer, normalized: string, addCLS: bool, addSEP: bool)
      returns (tokenIDs: seq<int>, wordIDs: seq<int>)
    requires Indexed(t)
    ensures Encodes(t, normalized, addCLS, addSEP, tokenIDs, wordIDs)
  {
    var rawIDs := Viterbi(t, normalized);
    ghost var path :| Canonical(t, normalized, path, |normalized|) && rawIDs == Ids(path);
    tokenIDs, wordIDs := [], [];
    if addCLS {
      tokenIDs, wordIDs := [Int32(t.clsId)], [-1];
    }
    tokenIDs, wordIDs := AppendContent(t, rawIDs, tokenIDs, wordIDs);
    if addSEP {
      tokenIDs, wordIDs := tokenIDs + [Int32(t.sepId)], wordIDs + [-1];
    }
    assert EncodedBy(t, path, addCLS, addSEP, tokenIDs, wordIDs);
  }

  method AppendContent(t: Tokenizer, rawIDs: seq<int>, tokenIDs0: seq<int>, wordIDs0: seq<int>)
    returns (tokenIDs: seq<int>, wordIDs: seq<int>)
    ensures tokenIDs == tokenIDs0 + Int32s(rawIDs)
    ensures wordIDs == wordIDs0 + Numbering(t, rawIDs)
  {
    tokenIDs, wordIDs := tokenIDs0, wordIDs0;
    var wordIdx := -1;
    ghost var done: seq<int> := [];
    for k := 0 to |rawIDs|
      invariant done == rawIDs[..k]
      invariant wordIdx == if k == 0 then -1 else LastIndex(t, done)
      invariant tokenIDs == tokenIDs0 + Int32s(done)
      invariant wordIDs == wordIDs0 + Numbering(t, done)
    {
      var id := rawIDs[k];
      ghost var more := done + [id];
      assert more[..|more| - 1] == done;
      if wordIdx == -1 || StartsWord(t, id) {
        wordIdx := wordIdx + 1;
      }
      tokenIDs := tokenIDs + [Int32(id)];
      wordIDs := wordIDs + [wordIdx];
      done := more;
    }
    assert rawIDs[..|rawIDs|] == rawIDs;
  }

  /** Cut to maxLen, or fill up with padding; the mask tells which positions are real. */
  method BuildAttentionMask(t: Tokenizer, ids: seq<int>, wordIDs: seq<int>, maxLen: nat)
    returns (paddedIDs: seq<int>, paddedWordIDs: seq<int>, mask: seq<int>)
    requires |ids| == |wordIDs|
    ensures |paddedIDs| == |paddedWordIDs| == |mask| == maxLen
    ensures forall i :: 0 <= i < maxLen ==>
              if i < |ids| then paddedIDs[i] == ids[i] && paddedWordIDs[i] == wordIDs[i] && mask[i] == 1
              else paddedIDs[i] == Int32(t.padId) && paddedWordIDs[i] == -1 && mask[i] == 0
  {
    var seqLen := |ids|;
    if seqLen > maxLen {
      seqLen := maxLen;
    }
    paddedIDs, paddedWordIDs := ids[..seqLen], wordIDs[..seqLen];
    mask := [];
    for i := 0 to seqLen
      invariant |mask| == i && forall k :: 0 <= k < i ==> mask[k] == 1
    {
      mask := mask + [1];
    }
    for i := seqLen to maxLen
      invariant |paddedIDs| == |paddedWordIDs| == |mask| == i
      invariant forall k :: 0 <= k < i ==>
          if k < |ids| then paddedIDs[k] == ids[k] && paddedWordIDs[k] == wordIDs[k] && mask[k] == 1
          else paddedIDs[k] == Int32(t.padId) && paddedWordIDs[k] == -1 && mask[k] == 0
    {
      paddedIDs := paddedIDs + [Int32(t.padId)];
      paddedWordIDs := paddedWordIDs + [-1];
      mask := mask + [0];
    }
  }

  // ------------------------------------------------------ the words in the normal form

  /** Where the block of word k, its marker and its characters, starts. */
  function StartOf(ws: seq<string>, k: nat): nat
    requires k <= |ws|
  {
    if k == 0 then 0 else 1 + |ws[0]| + StartOf(ws[1..], k - 1)
  }

  lemma {:induction false} NextStart(ws: seq<string>, k: nat)
    requires k < |ws|
    ensures StartOf(ws, k + 1) == StartOf(ws, k) + 1 + |ws[k]|
  {
    if k == 0 {
    } else {
      NextStart(ws[1..], k - 1);
    }
  }

  lemma {:induction false} MarkedLength(ws: seq<string>)
    ensures |Marked(ws)| == StartOf(ws, |ws|)
  {
    if ws == [] {
    } else {
      MarkedLength(ws[1..]);
    }
  }

  /** The block of word k holds a marker and then exactly that word. */
  lemma {:induction false} MarkedBlock(ws: seq<string>, k: nat, i: nat)
    requires k < |ws| && i <= |ws[k]|
    ensures StartOf(ws, k) + i < |Marked(ws)|
    ensures Marked(ws)[StartOf(ws, k) + i] == if i == 0 then MARKER else ws[k][i - 1]
  {
    if k == 0 {
    } else {
      MarkedBlock(ws[1..], k - 1, i);
      var head := [MARKER] + ws[0];
      assert Marked(ws) == head + Marked(ws[1..]);
    }
  }

  // The block that holds position x.
  lemma {:induction false} BlockOf(ws: seq<string>, x: nat, n: nat) returns (k: nat)
    requires n <= |ws| && x < StartOf(ws, n)
    ensures k < n && StartOf(ws, k) <= x < StartOf(ws, k + 1)
    decreases n
  {
    NextStart(ws, n - 1);
    if x < StartOf(ws, n - 1) {
      k := BlockOf(ws, x, n - 1);
    } else {
      k := n - 1;
    }
  }

  predicate Unmarked(ws: seq<string>) {
    forall w :: w in ws ==> MARKER !in w
  }

  lemma MarkersAreStarts(ws: seq<string>, k: nat, x: nat)
    requires Unmarked(ws) && k < |ws| && StartOf(ws, k) <= x < StartOf(ws, k + 1)
    ensures x < |Marked(ws)| && (Marked(ws)[x] == MARKER <==> x == StartOf(ws, k))
  {
    NextStart(ws, k);
    var i := x - StartOf(ws, k);
    MarkedBlock(ws, k, i);
    assert ws[k] in ws;
    if i > 0 { assert ws[k][i - 1] in ws[k]; }
  }

  function MarkersIn(s: string, n: nat): nat
    requires n <= |s|
  {
    if n == 0 then 0 else MarkersIn(s, n - 1) + if s[n - 1] == MARKER then 1 else 0
  }

  lemma {:induction false} MarkersInBlock(ws: seq<string>, k: nat, x: nat)
    requires Unmarked(ws) && k < |ws| && StartOf(ws, k) < x <= StartOf(ws, k + 1)
    ensures x <= |Marked(ws)| && MarkersIn(Marked(ws), x) == k + 1
    decreases x
  {
    MarkersAreStarts(ws, k, x - 1);
    if x - 1 == StartOf(ws, k) {
      if k > 0 {
        NextStart(ws, k - 1);
        MarkersInBlock(ws, k - 1, x - 1);
      }
    } else {
      MarkersInBlock(ws, k, x - 1);
    }
  }

  // ---------------------------------------------------------------- the alignment

  /** The vocabulary condition: the bare marker is a token, no token has a marker after
      its first character, and the unknown id's token has none in front. */
  ghost predicate MarksWords(t: Tokenizer) {
    && (exists i :: 0 <= i < |t.vocab| && t.vocab[i].token == [MARKER])
    && (forall i :: 0 <= i < |t.vocab| ==> NoInnerMarker(t.vocab[i].token))
    && !StartsWord(t, t.unkId)
  }

  ghost predicate NoInnerMarker(token: string) {
    forall x :: 0 < x < |token| ==> token[x] != MARKER
  }

  /** A piece holds no marker after its first character and, unless it is the first piece,
      its token has a marker in front exactly when the piece does. */
  ghost predicate Shows(t: Tokenizer, text: string, p: Piece) {
    && p.start < p.end <= |text|
    && (p.start > 0 ==> (StartsWord(t, p.id) <==> text[p.start] == MARKER))
    && (forall x :: p.start < x < p.end ==> text[x] != MARKER)
  }

  ghost predicate AllShow(t: Tokenizer, text: string, ps: seq<Piece>) {
    forall k :: 0 <= k < |ps| ==> Shows(t, text, ps[k])
  }

  lemma MatchShows(t: Tokenizer, text: string, p: Piece)
    requires MarksWords(t) && Matches(t, text, p)
    ensures Shows(t, text, p)
  {
    var token := t.vocab[p.id].token;
    assert token == text[p.start..p.end] && NoInnerMarker(token);
    forall x | p.start < x < p.end
      ensures text[x] != MARKER
    {
      assert text[x] == token[x - p.start];
    }
  }

  lemma FallShows(t: Tokenizer, text: string, p: Piece)
    requires Indexed(t) && MarksWords(t) && Falls(t, text, p)
    ensures Shows(t, text, p)
  {
    var i :| 0 <= i < |t.vocab| && t.vocab[i].token == [MARKER];
    assert text[p.start] == MARKER ==> Matches(t, text, Piece(p.start, p.end, i)) by {
      assert text[p.start..p.end] == [text[p.start]];
    }
    if text[p.start] == MARKER {
      assert false;
    }
    if HasByteToken(t, text[p.start]) {
      assert "<0x" <= t.vocab[p.id].token;
      assert t.vocab[p.id].token[0] == '<';
    }
  }

  // The vocabulary condition makes every piece show its marker.
  lemma PieceShows(t: Tokenizer, text: string, p: Piece)
    requires Indexed(t) && MarksWords(t) && Allowed(t, text, p)
    ensures Shows(t, text, p)
  {
    if Matches(t, text, p) {
      MatchShows(t, text, p);
    } else {
      FallShows(t, text, p);
    }
  }

  lemma AllPiecesShow(t: Tokenizer, text: string, ps: seq<Piece>, n: nat)
    requires Indexed(t) && MarksWords(t) && Segmentation(t, text, ps, n)
    ensures AllShow(t, text, ps)
  {
    forall k | 0 <= k < |ps|
      ensures Shows(t, text, ps[k])
    {
      PrefixIsSegmentation(t, text, ps, n, k);
      PieceShows(t, text, ps[k]);
    }
  }

  lemma {:induction false} NoMarkersBetween(s: string, m: nat, n: nat)
    requires m <= n <= |s| && forall x :: m <= x < n ==> s[x] != MARKER
    ensures MarkersIn(s, n) == MarkersIn(s, m)
  {
    if m >= n {
    } else {
      NoMarkersBetween(s, m, n - 1);
    }
  }

  /** The running word number counts the markers passed. */
  lemma {:induction false} NumberCountsMarkers(t: Tokenizer, text: string, ps: seq<Piece>, n: nat)
    requires AllShow(t, text, ps) && Segmentation(t, text, ps, n) && ps != []
    requires text != [] && text[0] == MARKER
    ensures n <= |text| && LastIndex(t, Ids(ps)) == MarkersIn(text, n) - 1
    decreases |ps|
  {
    var p: Piece := ps[|ps| - 1];
    var front := ps[..|ps| - 1];
    assert Shows(t, text, p) && p.end == n && ps == front + [p];
    if front == [] {
      OnePieceMore(t, text, [], p);
    } else {
      assert Shows(t, text, front[|front| - 1]) && front[|front| - 1].end == p.start;
      NumberCountsMarkers(t, text, front, p.start);
      OnePieceMore(t, text, front, p);
    }
  }

  lemma OnePieceMore(t: Tokenizer, text: string, front: seq<Piece>, p: Piece)
    requires Shows(t, text, p) && text != [] && text[0] == MARKER
    requires if front == [] then p.start == 0
               else p.start > 0 && LastIndex(t, Ids(front)) == MarkersIn(text, p.start) - 1
    ensures LastIndex(t, Ids(front + [p])) == MarkersIn(text, p.end) - 1
  {
    NoMarkersBetween(text, p.start + 1, p.end);
    LastIndexOf(t, front, p);
    assert MarkersIn(text, p.start + 1) == MarkersIn(text, p.start) + if text[p.start] == MARKER then 1 else 0;
    assert MarkersIn(text, 0) == 0;
  }

  lemma LastIndexOf(t: Tokenizer, front: seq<Piece>, p: Piece)
    ensures LastIndex(t, Ids(front + [p])) ==
              if front == [] then 0 else LastIndex(t, Ids(front)) + if StartsWord(t, p.id) then 1 else 0
  {
    var ids := Ids(front + [p]);
    assert ids[..|ids| - 1] == Ids(front);
  }

  lemma {:induction false} PrefixIsSegmentation(t: Tokenizer, text: string, ps: seq<Piece>, n: nat, k: nat)
    requires Segmentation(t, text, ps, n) && k < |ps|
    ensures Segmentation(t, text, ps[..k + 1], ps[k].end) && Allowed(t, text, ps[k])
    decreases |ps|
  {
    if k < |ps| - 1 {
      var front := ps[..|ps| - 1];
      PrefixIsSegmentation(t, text, front, ps[|ps| - 1].start, k);
      assert front[..k + 1] == ps[..k + 1];
    } else {
      assert ps[..k + 1] == ps;
    }
  }

  ghost predicate InsideWord(ws: seq<string>, w: int, p: Piece) {
    0 <= w < |ws| && StartOf(ws, w) <= p.start < p.end <= StartOf(ws, w + 1)
  }

  /** The text condition: the white space inside is plain, and there is no marker. */
  predicate Tame(text: string) {
    PlainlySpaced(Trim(text)) && Unmarked(WordsOf(text))
  }

  /** Text with plain white space and without a marker meets the condition. */
  lemma PlainTextIsTame(text: string)
    requires forall c :: c in text && IsSpace(c) ==> c == ' ' || c == '\t' || c == '\n' || c == '\r'
    requires '\U{2581}' !in text
    ensures Tame(text)
  {
    PlainTextNormalizes(text);
  }

  lemma TameTextIsMarkedWords(text: string)
    requires Tame(text)
    ensures Normalized(text) == Marked(WordsOf(text))
  {
    WordsHoldTheInk(text);
    forall k | 0 <= k < |WordsOf(text)|
      ensures Standing(WordsOf(text)[k], k + 1 < |WordsOf(text)|)
    {
      var w := WordsOf(text)[k];
      assert w in WordsOf(text) && Solid(w);
      assert forall i :: 0 <= i < |w| ==> w[i] in w;
    }
    NormalizedIsMarkedWords(text);
  }

  /** The alignment theorem: every token gets the number of the word, as `splitWords`
      counts them, whose block its piece of the text lies in. */
  lemma TokensAreAligned(t: Tokenizer, text: string, ps: seq<Piece>, k: nat)
    requires Indexed(t) && MarksWords(t) && Tame(text)
    requires Segmentation(t, Normalized(text), ps, |Normalized(text)|) && k < |ps|
    ensures InsideWord(WordsOf(text), Numbering(t, Ids(ps))[k], ps[k])
  {
    TameTextIsMarkedWords(text);
    AllPiecesShow(t, Normalized(text), ps, |Normalized(text)|);
    PieceInsideWord(t, WordsOf(text), ps, k);
  }

  /** Without the vocabulary condition the numbers are right for a given segmentation
      exactly when each of its pieces shows its marker. */
  lemma AlignedExactlyWhenPiecesShow(t: Tokenizer, text: string, ps: seq<Piece>)
    requires Tame(text) && Segmentation(t, Normalized(text), ps, |Normalized(text)|)
    ensures (forall k :: 0 <= k < |ps| ==> InsideWord(WordsOf(text), Numbering(t, Ids(ps))[k], ps[k])) <==>
              AllShow(t, Normalized(text), ps)
  {
    TameTextIsMarkedWords(text);
    var ws := WordsOf(text);
    if AllShow(t, Normalized(text), ps) {
      forall k | 0 <= k < |ps|
        ensures InsideWord(ws, Numbering(t, Ids(ps))[k], ps[k])
      {
        PieceInsideWord(t, ws, ps, k);
      }
    }
    if forall k :: 0 <= k < |ps| ==> InsideWord(ws, Numbering(t, Ids(ps))[k], ps[k]) {
      forall k | 0 <= k < |ps|
        ensures Shows(t, Normalized(text), ps[k])
      {
        PieceInWordShows(t, ws, ps, k);
      }
    }
  }

  lemma PieceInsideWord(t: Tokenizer, ws: seq<string>, ps: seq<Piece>, k: nat)
    requires Unmarked(ws) && AllShow(t, Marked(ws), ps)
    requires Segmentation(t, Marked(ws), ps, |Marked(ws)|) && k < |ps|
    ensures InsideWord(ws, Numbering(t, Ids(ps))[k], ps[k])
  {
    PrefixIsSegmentation(t, Marked(ws), ps, |Marked(ws)|, k);
    NumberIsLastIndex(t, ps, k);
    NumberIsBlock(t, ws, ps[..k + 1], ps[k]);
  }

  lemma NumberIsLastIndex(t: Tokenizer, ps: seq<Piece>, k: nat)
    requires k < |ps|
    ensures Numbering(t, Ids(ps))[k] == LastIndex(t, Ids(ps[..k + 1]))
  {
    NumberingAt(t, Ids(ps), k);
    assert Ids(ps)[..k + 1] == Ids(ps[..k + 1]);
  }

  lemma NumberIsBlock(t: Tokenizer, ws: seq<string>, qs: seq<Piece>, p: Piece)
    requires Unmarked(ws) && AllShow(t, Marked(ws), qs)
    requires Segmentation(t, Marked(ws), qs, p.end) && qs != [] && qs[|qs| - 1] == p
    ensures InsideWord(ws, LastIndex(t, Ids(qs)), p)
  {
    var text := Marked(ws);
    assert Shows(t, text, p);
    MarkedLength(ws);
    var b := BlockOf(ws, p.end - 1, |ws|);
    assert LastIndex(t, Ids(qs)) == b by {
      MarkedBlock(ws, 0, 0);
      MarkersInBlock(ws, b, p.end);
      NumberCountsMarkers(t, text, qs, p.end);
    }
    assert text[StartOf(ws, b)] == MARKER by {
      MarkersAreStarts(ws, b, StartOf(ws, b));
    }
  }

  // Consecutive pieces touch, and their numbers differ by what the later token says.
  lemma NeighbourPieces(t: Tokenizer, text: string, ps: seq<Piece>, n: nat, k: nat)
    requires Segmentation(t, text, ps, n) && k < |ps|
    ensures ps[k].start < ps[k].end <= |text|
    ensures k == 0 ==> ps[k].start == 0
    ensures k > 0 ==> ps[k - 1].end == ps[k].start
    ensures k > 0 ==>
              Numbering(t, Ids(ps))[k] == Numbering(t, Ids(ps))[k - 1] + if StartsWord(t, ps[k].id) then 1 else 0
  {
    PrefixIsSegmentation(t, text, ps, n, k);
    var qs := ps[..k + 1];
    assert qs == ps[..k] + [ps[k]] && qs[..|qs| - 1] == ps[..k];
    if k > 0 {
      assert ps[..k][k - 1] == ps[k - 1];
      NumberIsLastIndex(t, ps, k);
      NumberIsLastIndex(t, ps, k - 1);
      LastIndexOf(t, ps[..k], ps[k]);
    }
  }

  lemma PieceInWordShows(t: Tokenizer, ws: seq<string>, ps: seq<Piece>, k: nat)
    requires Unmarked(ws) && k < |ps|
    requires Segmentation(t, Marked(ws), ps, |Marked(ws)|)
    requires forall j :: 0 <= j < |ps| ==> InsideWord(ws, Numbering(t, Ids(ps))[j], ps[j])
    ensures Shows(t, Marked(ws), ps[k])
  {
    NeighbourPieces(t, Marked(ws), ps, |Marked(ws)|, k);
    var p, nums := ps[k], Numbering(t, Ids(ps));
    assert InsideWord(ws, nums[k], p);
    InsideIsUnmarked(ws, nums[k], p);
    if p.start > 0 {
      assert InsideWord(ws, nums[k - 1], ps[k - 1]);
      WordOpensAtMarker(ws, nums[k - 1], nums[k], ps[k - 1], p);
    }
  }

  lemma InsideIsUnmarked(ws: seq<string>, w: nat, p: Piece)
    requires Unmarked(ws) && InsideWord(ws, w, p)
    ensures p.end <= |Marked(ws)| && forall x :: p.start < x < p.end ==> Marked(ws)[x] != MARKER
  {
    MarkersAreStarts(ws, w, p.end - 1);
    forall x | p.start < x < p.end
      ensures Marked(ws)[x] != MARKER
    {
      MarkersAreStarts(ws, w, x);
    }
  }

  // A piece right after one of the word before, or of the same word.
  lemma WordOpensAtMarker(ws: seq<string>, v: nat, w: nat, q: Piece, p: Piece)
    requires Unmarked(ws) && InsideWord(ws, v, q) && InsideWord(ws, w, p) && q.end == p.start && v <= w <= v + 1
    ensures p.start < |Marked(ws)| && (w > v <==> Marked(ws)[p.start] == MARKER)
  {
    MarkersAreStarts(ws, w, p.start);
  }

  // Some piece covers position x.
  lemma {:induction false} PieceAt(t: Tokenizer, text: string, ps: seq<Piece>, n: nat, x: nat) returns (k: nat)
    requires Segmentation(t, text, ps, n) && x < n
    ensures k < |ps| && ps[k].start <= x < ps[k].end
    decreases |ps|
  {
    var p := ps[|ps| - 1];
    if x < p.start {
      k := PieceAt(t, text, ps[..|ps| - 1], p.start, x);
    } else {
      k := |ps| - 1;
    }
  }

  /** Every word has a token that starts where its block starts. */
  lemma WordHasFirstToken(t: Tokenizer, text: string, ps: seq<Piece>, w: nat) returns (k: nat)
    requires Indexed(t) && MarksWords(t) && Tame(text) && w < |WordsOf(text)|
    requires Segmentation(t, Normalized(text), ps, |Normalized(text)|)
    ensures k < |ps| && ps[k].start == StartOf(WordsOf(text), w) && Numbering(t, Ids(ps))[k] == w
  {
    TameTextIsMarkedWords(text);
    AllPiecesShow(t, Normalized(text), ps, |Normalized(text)|);
    k := BlockHasFirstToken(t, WordsOf(text), ps, w);
  }

  lemma BlockHasFirstToken(t: Tokenizer, ws: seq<string>, ps: seq<Piece>, w: nat) returns (k: nat)
    requires Unmarked(ws) && w < |ws| && AllShow(t, Marked(ws), ps)
    requires Segmentation(t, Marked(ws), ps, |Marked(ws)|)
    ensures k < |ps| && ps[k].start == StartOf(ws, w) && Numbering(t, Ids(ps))[k] == w
  {
    MarkedBlock(ws, w, 0);
    k := PieceStartsAt(t, Marked(ws), ps, |Marked(ws)|, StartOf(ws, w));
    PieceInsideWord(t, ws, ps, k);
    NextStart(ws, w);
    OneBlockOnly(ws, Numbering(t, Ids(ps))[k], w, StartOf(ws, w));
  }

  lemma PieceStartsAt(t: Tokenizer, text: string, ps: seq<Piece>, n: nat, x: nat) returns (k: nat)
    requires AllShow(t, text, ps) && Segmentation(t, text, ps, n) && x < n <= |text| && text[x] == MARKER
    ensures k < |ps| && ps[k].start == x
  {
    k := PieceAt(t, text, ps, n, x);
    assert Shows(t, text, ps[k]);
  }

  lemma OneBlockOnly(ws: seq<string>, v: nat, w: nat, x: nat)
    requires v < |ws| && w < |ws|
    requires StartOf(ws, v) <= x < StartOf(ws, v + 1) && StartOf(ws, w) <= x < StartOf(ws, w + 1)
    ensures v == w
  {
    StartsAreOrdered(ws, v, w);
    StartsAreOrdered(ws, w, v);
  }

  lemma {:induction false} StartsAreOrdered(ws: seq<string>, j: nat, k: nat)
    requires j <= |ws| && k <= |ws|
    ensures j < k ==> StartOf(ws, j + 1) <= StartOf(ws, k)
    decreases k
  {
    if j + 1 >= k {
    } else {
      NextStart(ws, k - 1);
      StartsAreOrdered(ws, j, k - 1);
    }
  }
}
