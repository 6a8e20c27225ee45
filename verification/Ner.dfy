/** The part of `runNER` around the model call: label per token, label per word, spans
    (extractor/deberta/deberta_extractor.go). The logits are an input. */
module Ner {
  import opened Text
  import opened Unigram
  import opened Words
  import opened Alignment
  import Iob

  // Row i of the logits as the model lays them out.
  function Logit(logits: seq<real>, numLabels: nat, i: nat, j: nat): real
    requires j < numLabels && (i + 1) * numLabels <= |logits|
  {
    RowFits(numLabels, i, j);
    logits[i * numLabels + j]
  }

  lemma RowFits(numLabels: nat, i: nat, j: nat)
    requires j < numLabels
    ensures 0 <= i * numLabels + j < (i + 1) * numLabels
  {
  }

  // `best` is the first largest of the first k entries of row i.
  ghost predicate FirstLargest(logits: seq<real>, numLabels: nat, i: nat, k: nat, best: nat)
    requires k <= numLabels && (i + 1) * numLabels <= |logits|
  {
    && best < k
    && (forall j :: 0 <= j < k ==> Logit(logits, numLabels, i, j) <= Logit(logits, numLabels, i, best))
    && (forall j :: 0 <= j < best ==> Logit(logits, numLabels, i, j) < Logit(logits, numLabels, i, best))
  }

  method ArgmaxRow(logits: seq<real>, numLabels: nat, i: nat) returns (best: nat)
    requires 0 < numLabels && (i + 1) * numLabels <= |logits|
    ensures FirstLargest(logits, numLabels, i, numLabels, best)
  {
    best := 0;
    var bestV := Logit(logits, numLabels, i, 0);
    for j := 1 to numLabels
      invariant FirstLargest(logits, numLabels, i, j, best) && bestV == Logit(logits, numLabels, i, best)
    {
      var v := Logit(logits, numLabels, i, j);
      if v > bestV {
        bestV, best := v, j;
      }
    }
  }

  ghost predicate RowLabel(logits: seq<real>, numLabels: nat, labels: seq<string>, i: nat, lbl: string) {
    && (i + 1) * numLabels <= |logits|
    && exists best: nat :: FirstLargest(logits, numLabels, i, numLabels, best) &&
                           lbl == if best < |labels| then labels[best] else "O"
  }

  method ArgmaxLabels(logits: seq<real>, seqLen: nat, numLabels: nat, labels: seq<string>) returns (result: seq<string>)
    requires 0 < numLabels && seqLen * numLabels <= |logits|
    ensures |result| == seqLen
    ensures forall i :: 0 <= i < seqLen ==> RowLabel(logits, numLabels, labels, i, result[i])
  {
    result := [];
    for i := 0 to seqLen
      invariant |result| == i
      invariant forall k :: 0 <= k < i ==> RowLabel(logits, numLabels, labels, k, result[k])
    {
      RowsFit(numLabels, i, seqLen);
      var best := ArgmaxRow(logits, numLabels, i);
      var lbl := if best < |labels| then labels[best] else "O";
      assert RowLabel(logits, numLabels, labels, i, lbl);
      result := result + [lbl];
    }
  }

  lemma RowsFit(numLabels: nat, i: nat, seqLen: nat)
    requires i < seqLen
    ensures (i + 1) * numLabels <= seqLen * numLabels
  {
  }

  // A position that counts for word w.
  predicate Carries(wordIDs: seq<int>, mask: seq<int>, i: int, w: int)
    requires |wordIDs| == |mask|
  {
    0 <= i < |wordIDs| && mask[i] != 0 && wordIDs[i] == w >= 0
  }

  ghost predicate Occurs(wordIDs: seq<int>, mask: seq<int>, w: int)
    requires |wordIDs| == |mask|
  {
    exists i :: Carries(wordIDs, mask, i, w)
  }

  predicate FirstCarrier(wordIDs: seq<int>, mask: seq<int>, i: int, w: int)
    requires |wordIDs| == |mask|
  {
    Carries(wordIDs, mask, i, w) && forall j :: 0 <= j < i ==> !Carries(wordIDs, mask, j, w)
  }

  /** One label per word up to the largest number seen: that of the word's first position,
      or "O" for a number that never occurs. */
  method LabelWords(wordIDs: seq<int>, mask: seq<int>, tokenLabels: seq<string>) returns (wordLabels: seq<string>)
    requires |wordIDs| == |mask| == |tokenLabels|
    ensures forall i, w :: Carries(wordIDs, mask, i, w) ==> w < |wordLabels|
    ensures wordLabels != [] ==> Occurs(wordIDs, mask, |wordLabels| - 1)
    ensures forall i, w :: FirstCarrier(wordIDs, mask, i, w) ==> wordLabels[w] == tokenLabels[i]
    ensures forall w :: 0 <= w < |wordLabels| && !Occurs(wordIDs, mask, w) ==> wordLabels[w] == "O"
  {
    var wordLabelMap: map<int, string> := map[];
    var maxWord := -1;
    for i := 0 to |wordIDs|
      invariant -1 <= maxWord
      invariant forall j, w :: 0 <= j < i && Carries(wordIDs, mask, j, w) ==> w <= maxWord
      invariant maxWord >= 0 ==> Occurs(wordIDs, mask, maxWord)
      invariant forall j, w :: 0 <= j < i && FirstCarrier(wordIDs, mask, j, w) ==>
                  w in wordLabelMap && wordLabelMap[w] == tokenLabels[j]
      invariant forall w :: w in wordLabelMap ==> exists j :: 0 <= j < i && Carries(wordIDs, mask, j, w)
      invariant forall j, w :: 0 <= j < i && Carries(wordIDs, mask, j, w) ==> w in wordLabelMap
    {
      var wid := wordIDs[i];
      if wid < 0 || mask[i] == 0 {
        assert forall w :: !Carries(wordIDs, mask, i, w);
        continue;
      }
      assert Carries(wordIDs, mask, i, wid);
      if wid !in wordLabelMap {
        wordLabelMap := wordLabelMap[wid := tokenLabels[i]];
      }
      if wid > maxWord {
        maxWord := wid;
      }
    }
    wordLabels := [];
    for w := 0 to maxWord + 1
      invariant |wordLabels| == w
      invariant forall v :: 0 <= v < w ==> wordLabels[v] == if v in wordLabelMap then wordLabelMap[v] else "O"
    {
      wordLabels := wordLabels + [if w in wordLabelMap then wordLabelMap[w] else "O"];
    }
  }

  /** What the caller may rely on: word w, if its first token is among the `room` tokens
      that fit, has the label of that token; there are no labels for other words. With room
      for all tokens every word has its label. */
  ghost predicate WordsLabelled(ws: seq<string>, path: seq<Piece>, room: nat,
                                tokenLabels: seq<string>, wordLabels: seq<string>)
    requires |tokenLabels| == room + 1
  {
    && |wordLabels| <= |ws|
    && (forall w :: 0 <= w < |wordLabels| ==>
          exists k :: 0 <= k < |path| && k < room && path[k].start == StartOf(ws, w)
              && wordLabels[w] == tokenLabels[k + 1])
    && (forall k, w :: 0 <= k < |path| && k < room && 0 <= w < |ws| && path[k].start == StartOf(ws, w) ==>
        w < |wordLabels|)
    && (|path| <= room ==> |wordLabels| == |ws|)
  }

  /** The spans are those of the labels of the words: the labels come from the first largest
      logits of the tokens' positions, each word number has that of its first token and, with
      the vocabulary condition, the numbers are those of the words. */
  ghost predicate Explains(t: Tokenizer, text: string, seqLen: nat, logits: seq<real>, labels: seq<string>,
                           spans: seq<Iob.EntitySpan>,
                           path: seq<Piece>, tokenLabels: seq<string>, wordLabels: seq<string>)
    requires seqLen * NumLabels(labels) <= |logits|
  {
    && |tokenLabels| == seqLen
    && (forall i :: 0 <= i < seqLen ==> RowLabel(logits, NumLabels(labels), labels, i, tokenLabels[i]))
    && spans == Iob.SpansOf(WordsOf(text), Iob.RunsFrom(Iob.TagsOf(wordLabels), 0))
    && (if seqLen == 0 then wordLabels == []
        else LabelsOfNumbers(Numbering(t, Ids(path)), seqLen - 1, tokenLabels, wordLabels))
    && (0 < seqLen && MarksWords(t) && Tame(text) ==>
        WordsLabelled(WordsOf(text), path, seqLen - 1, tokenLabels, wordLabels))
  }

  predicate FirstWith(nums: seq<int>, k: int, w: int) {
    0 <= k < |nums| && nums[k] == w && forall j :: 0 <= j < k ==> nums[j] != w
  }

  /** For any text and vocabulary: there are as many labels as there are word numbers among
      the tokens that fit, and each is the label of the first token with its number. */
  ghost predicate LabelsOfNumbers(nums: seq<int>, room: nat, tokenLabels: seq<string>, wordLabels: seq<string>)
    requires |tokenLabels| == room + 1
  {
    && (forall k :: 0 <= k < |nums| && k < room ==> nums[k] < |wordLabels|)
    && (forall w :: 0 <= w < |wordLabels| ==> HasFirstLabel(nums, room, tokenLabels, w, wordLabels[w]))
  }

  ghost predicate HasFirstLabel(nums: seq<int>, room: nat, tokenLabels: seq<string>, w: int, lbl: string)
    requires |tokenLabels| == room + 1
  {
    exists k :: FirstWith(nums, k, w) && k < room && tokenLabels[k + 1] == lbl
  }

  function NumLabels(labels: seq<string>): nat {
    if labels == [] then 9 else |labels|
  }

  /** Some segmentation that the tokenizer promises explains the spans. */
  ghost predicate IsNerAnswer(t: Tokenizer, text: string, seqLen: nat, logits: seq<real>, labels: seq<string>,
                              spans: seq<Iob.EntitySpan>)
    requires Indexed(t) && seqLen * NumLabels(labels) <= |logits|
  {
    exists path, tokenLabels, wordLabels ::
      && Canonical(t, Normalized(text), path, |Normalized(text)|)
      && Explains(t, text, seqLen, logits, labels, spans, path, tokenLabels, wordLabels)
  }

  method RunNer(t: Tokenizer, text: string, seqLen: nat, logits: seq<real>, labels: seq<string>)
      returns (spans: seq<Iob.EntitySpan>)
    requires Indexed(t)
    requires seqLen * NumLabels(labels) <= |logits|
    ensures IsNerAnswer(t, text, seqLen, logits, labels, spans)
  {
    var tokenIDs, wordIDs := Encode(t, text, true, true);
    ghost var path :| Canonical(t, Normalized(text), path, |Normalized(text)|)
        && EncodedBy(t, path, true, true, tokenIDs, wordIDs);
    var paddedIDs, paddedWordIDs, mask := BuildAttentionMask(t, tokenIDs, wordIDs, seqLen);
    var numLabels := |labels|;
    if numLabels == 0 {
      numLabels := 9;
    }
    var tokenLabels := ArgmaxLabels(logits, seqLen, numLabels, labels);
    var wordLabels := LabelWords(paddedWordIDs, mask, tokenLabels);
    PathExplains(t, text, path, tokenIDs, wordIDs, seqLen, paddedWordIDs, mask, tokenLabels, wordLabels);
    var words := SplitWords(text);
    spans := Iob.DecodeIob(wordLabels, words);
    assert Explains(t, text, seqLen, logits, labels, spans, path, tokenLabels, wordLabels);
  }

  lemma PathExplains(t: Tokenizer, text: string, path: seq<Piece>, tokenIDs: seq<int>, wordIDs: seq<int>,
                     seqLen: nat, padded: seq<int>, mask: seq<int>, tokenLabels: seq<string>, wordLabels: seq<string>)
    requires Indexed(t) && Segmentation(t, Normalized(text), path, |Normalized(text)|)
    requires EncodedBy(t, path, true, true, tokenIDs, wordIDs) && |padded| == |mask| == |tokenLabels| == seqLen
    requires forall i :: 0 <= i < seqLen ==>
               if i < |wordIDs| then padded[i] == wordIDs[i] && mask[i] == 1 else padded[i] == -1 && mask[i] == 0
    requires forall i, w :: Carries(padded, mask, i, w) ==> w < |wordLabels|
    requires wordLabels != [] ==> Occurs(padded, mask, |wordLabels| - 1)
    requires forall i, w :: FirstCarrier(padded, mask, i, w) ==> wordLabels[w] == tokenLabels[i]
    ensures if seqLen == 0 then wordLabels == []
              else LabelsOfNumbers(Numbering(t, Ids(path)), seqLen - 1, tokenLabels, wordLabels)
    ensures 0 < seqLen && MarksWords(t) && Tame(text) ==>
              WordsLabelled(WordsOf(text), path, seqLen - 1, tokenLabels, wordLabels)
  {
    var nums := Numbering(t, Ids(path));
    if 0 < seqLen {
      CarriersAreTokens(nums, wordIDs, padded, mask);
      NumbersAreLabelled(t, Ids(path), seqLen, padded, mask, tokenLabels, wordLabels);
    }
    if 0 < seqLen && MarksWords(t) && Tame(text) {
      PathIsAligned(t, text, path);
      LabelsFollowTokens(WordsOf(text), path, nums, seqLen, padded, mask, tokenLabels, wordLabels);
    }
  }

  // Numbers begin at 0 and leave none out, so each number up to a given one turns up.
  lemma {:induction false} NumbersHaveNoGap(t: Tokenizer, ids: seq<int>, k: nat, w: nat) returns (j: nat)
    requires k < |ids| && w <= Numbering(t, ids)[k]
    ensures j <= k && FirstWith(Numbering(t, ids), j, w)
    decreases k
  {
    NumberingAt(t, ids, k);
    if k == 0 {
      j := 0;
    } else {
      NumberingAt(t, ids, k - 1);
      assert ids[..k + 1][..k] == ids[..k];
      if w <= Numbering(t, ids)[k - 1] {
        j := NumbersHaveNoGap(t, ids, k - 1, w);
      } else {
        j := k;
        NumbersAscend(t, ids, k - 1);
      }
    }
  }

  lemma {:induction false} NumbersAscend(t: Tokenizer, ids: seq<int>, k: nat)
    requires k < |ids|
    ensures forall j :: 0 <= j <= k ==> Numbering(t, ids)[j] <= Numbering(t, ids)[k]
  {
    if k == 0 {
    } else {
      NumbersAscend(t, ids, k - 1);
      NumberingAt(t, ids, k);
      NumberingAt(t, ids, k - 1);
      assert ids[..k + 1][..k] == ids[..k];
    }
  }

  lemma NumbersAreLabelled(t: Tokenizer, ids: seq<int>, seqLen: nat, padded: seq<int>, mask: seq<int>,
                           tokenLabels: seq<string>, wordLabels: seq<string>)
    requires 0 < seqLen == |padded| == |mask| == |tokenLabels| && TokensCarry(Numbering(t, ids), padded, mask)
    requires forall i, w :: Carries(padded, mask, i, w) ==> w < |wordLabels|
    requires wordLabels != [] ==> Occurs(padded, mask, |wordLabels| - 1)
    requires forall i, w :: FirstCarrier(padded, mask, i, w) ==> wordLabels[w] == tokenLabels[i]
    ensures LabelsOfNumbers(Numbering(t, ids), seqLen - 1, tokenLabels, wordLabels)
  {
    var nums := Numbering(t, ids);
    forall k | 0 <= k < |nums| && k < seqLen - 1
      ensures nums[k] < |wordLabels|
    {
      NumberingAt(t, ids, k);
      assert Carries(padded, mask, k + 1, nums[k]);
    }
    forall w | 0 <= w < |wordLabels|
      ensures HasFirstLabel(nums, seqLen - 1, tokenLabels, w, wordLabels[w])
    {
      var i :| Carries(padded, mask, i, |wordLabels| - 1);
      var j := NumbersHaveNoGap(t, ids, i - 1, w);
      assert FirstCarrier(padded, mask, j + 1, w);
    }
  }

  // The positions that carry a word are those of the content tokens that fit.
  ghost predicate TokensCarry(nums: seq<int>, wordIDs: seq<int>, mask: seq<int>)
    requires |wordIDs| == |mask|
  {
    && (forall k :: 0 <= k < |nums| && k + 1 < |wordIDs| && nums[k] >= 0 ==> Carries(wordIDs, mask, k + 1, nums[k]))
    && (forall i, w :: Carries(wordIDs, mask, i, w) ==> 1 <= i <= |nums| && w == nums[i - 1])
  }

  lemma CarriersAreTokens(nums: seq<int>, wordIDs: seq<int>, padded: seq<int>, mask: seq<int>)
    requires wordIDs == [-1] + nums + [-1] && |padded| == |mask|
    requires forall i :: 0 <= i < |padded| ==>
               if i < |wordIDs| then padded[i] == wordIDs[i] && mask[i] == 1 else padded[i] == -1 && mask[i] == 0
    ensures TokensCarry(nums, padded, mask)
  {
    forall k | 0 <= k < |nums| && k + 1 < |padded| && nums[k] >= 0
      ensures Carries(padded, mask, k + 1, nums[k])
    {
      assert wordIDs[k + 1] == nums[k];
    }
    forall i, w | Carries(padded, mask, i, w)
      ensures 1 <= i <= |nums| && w == nums[i - 1]
    {
      assert padded[i] == wordIDs[i];
    }
  }

  // What the alignment theorem gives about a path, with the words' blocks as the only text.
  ghost predicate AlignedPath(ws: seq<string>, path: seq<Piece>, nums: seq<int>) {
    && |nums| == |path|
    && (forall k :: 0 <= k < |path| ==> InsideWord(ws, nums[k], path[k]))
    && (forall w :: 0 <= w < |ws| ==> HasFirstToken(ws, path, nums, w))
    && (forall j, k :: 0 <= j < k < |path| ==> path[j].end <= path[k].start)
  }

  ghost predicate HasFirstToken(ws: seq<string>, path: seq<Piece>, nums: seq<int>, w: nat)
    requires |nums| == |path| && w < |ws|
  {
    exists k :: 0 <= k < |path| && path[k].start == StartOf(ws, w) && nums[k] == w
  }

  lemma PathIsAligned(t: Tokenizer, text: string, path: seq<Piece>)
    requires Indexed(t) && MarksWords(t) && Tame(text)
    requires Segmentation(t, Normalized(text), path, |Normalized(text)|)
    ensures AlignedPath(WordsOf(text), path, Numbering(t, Ids(path)))
  {
    var ws, nums := WordsOf(text), Numbering(t, Ids(path));
    forall k | 0 <= k < |path|
      ensures InsideWord(ws, nums[k], path[k])
    {
      TokensAreAligned(t, text, path, k);
    }
    forall w | 0 <= w < |ws|
      ensures HasFirstToken(ws, path, nums, w)
    {
      var k := WordHasFirstToken(t, text, path, w);
    }
    forall j, k | 0 <= j < k < |path|
      ensures path[j].end <= path[k].start
    {
      PiecesInOrder(t, Normalized(text), path, |Normalized(text)|, j, k);
    }
  }

  lemma LabelledAreWords(ws: seq<string>, path: seq<Piece>, nums: seq<int>, wordIDs: seq<int>, mask: seq<int>,
                         labelled: nat)
    requires AlignedPath(ws, path, nums) && |wordIDs| == |mask| && TokensCarry(nums, wordIDs, mask)
    requires labelled > 0 ==> Occurs(wordIDs, mask, labelled - 1)
    ensures labelled <= |ws|
  {
    if labelled > 0 {
      var i :| Carries(wordIDs, mask, i, labelled - 1);
      assert InsideWord(ws, nums[i - 1], path[i - 1]);
    }
  }

  lemma FirstTokenCarries(ws: seq<string>, path: seq<Piece>, nums: seq<int>, seqLen: nat, wordIDs: seq<int>,
                          mask: seq<int>, labelled: nat, w: nat) returns (k: nat)
    requires 0 < seqLen && AlignedPath(ws, path, nums)
    requires |wordIDs| == |mask| == seqLen && TokensCarry(nums, wordIDs, mask)
    requires w < labelled <= |ws| && Occurs(wordIDs, mask, labelled - 1)
    ensures k < |path| && k < seqLen - 1 && path[k].start == StartOf(ws, w) && FirstCarrier(wordIDs, mask, k + 1, w)
  {
    assert HasFirstToken(ws, path, nums, w);
    k :| 0 <= k < |path| && path[k].start == StartOf(ws, w) && nums[k] == w;
    FirstTokenIsFirstCarrier(ws, path, nums, seqLen, wordIDs, mask, labelled, w, k);
  }

  lemma LabelsFollowTokens(ws: seq<string>, path: seq<Piece>, nums: seq<int>, seqLen: nat, wordIDs: seq<int>,
                           mask: seq<int>, tokenLabels: seq<string>, wordLabels: seq<string>)
    requires 0 < seqLen && AlignedPath(ws, path, nums)
    requires |wordIDs| == |mask| == |tokenLabels| == seqLen && TokensCarry(nums, wordIDs, mask)
    requires forall i, w :: Carries(wordIDs, mask, i, w) ==> w < |wordLabels|
    requires wordLabels != [] ==> Occurs(wordIDs, mask, |wordLabels| - 1)
    requires forall i, w :: FirstCarrier(wordIDs, mask, i, w) ==> wordLabels[w] == tokenLabels[i]
    ensures WordsLabelled(ws, path, seqLen - 1, tokenLabels, wordLabels)
  {
    LabelledAreWords(ws, path, nums, wordIDs, mask, |wordLabels|);
    forall w | 0 <= w < |wordLabels|
      ensures exists k :: 0 <= k < |path| && k < seqLen - 1 && path[k].start == StartOf(ws, w)
                && wordLabels[w] == tokenLabels[k + 1]
    {
      var k := FirstTokenCarries(ws, path, nums, seqLen, wordIDs, mask, |wordLabels|, w);
      assert wordLabels[w] == tokenLabels[k + 1];
    }
    FittingTokensAreLabelled(ws, path, nums, seqLen, wordIDs, mask, |wordLabels|);
  }

  lemma FittingTokensAreLabelled(ws: seq<string>, path: seq<Piece>, nums: seq<int>, seqLen: nat, wordIDs: seq<int>,
                                 mask: seq<int>, labelled: nat)
    requires 0 < seqLen && AlignedPath(ws, path, nums)
    requires |wordIDs| == |mask| == seqLen && TokensCarry(nums, wordIDs, mask)
    requires labelled <= |ws| && forall i, w :: Carries(wordIDs, mask, i, w) ==> w < labelled
    ensures forall k, w :: 0 <= k < |path| && k < seqLen - 1 && 0 <= w < |ws| && path[k].start == StartOf(ws, w) ==>
              w < labelled
    ensures |path| < seqLen ==> labelled == |ws|
  {
    forall k, w | 0 <= k < |path| && k < seqLen - 1 && 0 <= w < |ws| && path[k].start == StartOf(ws, w)
      ensures w < labelled
    {
      assert InsideWord(ws, nums[k], path[k]);
      NextStart(ws, w);
      OneBlockOnly(ws, nums[k], w, path[k].start);
      assert Carries(wordIDs, mask, k + 1, nums[k]);
    }
    if |path| < seqLen && ws != [] {
      assert HasFirstToken(ws, path, nums, |ws| - 1);
    }
  }

  // Pieces come in order, so no earlier token has the number of a word whose block starts at piece k.
  lemma FirstTokenIsFirstCarrier(ws: seq<string>, path: seq<Piece>, nums: seq<int>, seqLen: nat, wordIDs: seq<int>,
                                 mask: seq<int>, labelled: nat, w: nat, k: nat)
    requires 0 < seqLen && AlignedPath(ws, path, nums)
    requires |wordIDs| == |mask| == seqLen && TokensCarry(nums, wordIDs, mask)
    requires w < labelled <= |ws| && Occurs(wordIDs, mask, labelled - 1)
    requires k < |path| && path[k].start == StartOf(ws, w) && nums[k] == w
    ensures k + 1 < seqLen && FirstCarrier(wordIDs, mask, k + 1, w)
  {
    var last :| Carries(wordIDs, mask, last, labelled - 1);
    assert InsideWord(ws, nums[last - 1], path[last - 1]);
    StartsAreOrdered(ws, w, labelled - 1);
    StartsAreOrdered(ws, w, labelled);
  }

  lemma {:induction false} PiecesInOrder(t: Tokenizer, text: string, ps: seq<Piece>, n: nat, j: nat, k: nat)
    requires Segmentation(t, text, ps, n) && j < k < |ps|
    ensures ps[j].end <= ps[k].start
    decreases |ps|
  {
    if k < |ps| - 1 {
      PiecesInOrder(t, text, ps[..|ps| - 1], ps[|ps| - 1].start, j, k);
    } else {
      EndsBeforeLast(t, text, ps[..k], ps[k].start, j);
    }
  }

  lemma {:induction false} EndsBeforeLast(t: Tokenizer, text: string, ps: seq<Piece>, n: nat, j: nat)
    requires Segmentation(t, text, ps, n) && j < |ps|
    ensures ps[j].end <= n
    decreases |ps|
  {
    if j == |ps| - 1 {
    } else {
      EndsBeforeLast(t, text, ps[..|ps| - 1], ps[|ps| - 1].start, j);
    }
  }

  // ------------------------------------------------------ what a label is for a caller

  /** The label of position i is the one of the first largest among its `numLabels` consecutive
      logits, or O when there is no label for that. */
  lemma RowLabelMeans(logits: seq<real>, numLabels: nat, labels: seq<string>, i: nat, lbl: string) returns (best: nat)
    requires RowLabel(logits, numLabels, labels, i, lbl)
    ensures 0 <= i * numLabels <= (i + 1) * numLabels <= |logits|
    ensures var row := logits[i * numLabels..(i + 1) * numLabels];
            && best < |row| == numLabels && (forall j :: 0 <= j < |row| ==> row[j] <= row[best])
            && (forall j :: 0 <= j < best ==> row[j] < row[best])
            && (best < |labels| ==> lbl == labels[best]) && (best >= |labels| ==> lbl == "O")
  {
    best :| FirstLargest(logits, numLabels, i, numLabels, best) && lbl == if best < |labels| then labels[best] else "O";
    RowFits(numLabels, i, best);
    RowIsLong(numLabels, i);
    var row := logits[i * numLabels..(i + 1) * numLabels];
    forall j | 0 <= j < numLabels
      ensures row[j] == Logit(logits, numLabels, i, j)
    {
      RowFits(numLabels, i, j);
    }
  }

  lemma RowIsLong(numLabels: nat, i: nat)
    ensures 0 <= i * numLabels && (i + 1) * numLabels == i * numLabels + numLabels
  {
  }

  /** Without labels the model has nine columns, and else one for each label. */
  lemma NumLabelsMeans(labels: seq<string>)
    ensures NumLabels([]) == 9 && (labels != [] ==> NumLabels(labels) == |labels|)
  {
  }
}
