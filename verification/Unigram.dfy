/** The SentencePiece Unigram tokenizer: its vocabulary index, the segmentations it
    chooses among, and the Viterbi search (extractor/deberta/tokenizer.go). */
module Unigram {
  import opened Text

  /** One pair of the vocabulary list after JSON decoding. A pair with fewer than two
      elements is skipped. `scanned` is what scanning the token's bytes 1 to 4 for
      "0x%02X" yields; it counts only for a token of the shape "<0x...>". */
  datatype RawEntry = Short | Pair(token: string, score: real, scanned: Option<byte>)

  datatype VocabEntry = VocabEntry(token: string, score: real, id: int)

  datatype Tokenizer = Tokenizer(
    vocab: seq<VocabEntry>,
    byFirst: map<char, seq<nat>>,
    byByte: map<byte, nat>,
    maxTokLen: nat,
    clsId: int, sepId: int, padId: int, unkId: int)

  // ---------------------------------------------------------------- the index

  predicate IsByteToken(e: RawEntry) {
    && e.Pair? && ByteLength(e.token) == 6 && "<0x" <= e.token && e.token[|e.token| - 1] == '>'
    && e.scanned.Some?
  }

  /** What the index says about the vocabulary, without reference to how it was built. */
  ghost predicate Indexed(t: Tokenizer) {
    && NumbersAndLengths(t.vocab, t.maxTokLen)
    && BucketsSound(t.vocab, t.byFirst)
    && BucketsComplete(t.vocab, t.byFirst)
    && BytesSound(t.vocab, t.byByte)
  }

  // An entry with a non-empty token carries its own position; no token is too long.
  ghost predicate NumbersAndLengths(vocab: seq<VocabEntry>, maxTokLen: nat) {
    && (forall i :: 0 <= i < |vocab| && vocab[i].token != [] ==> vocab[i].id == i)
    && (forall i :: 0 <= i < |vocab| ==> |vocab[i].token| <= maxTokLen)
  }

  // A bucket lists, in ascending order, only tokens that start with its key ...
  ghost predicate BucketsSound(vocab: seq<VocabEntry>, byFirst: map<char, seq<nat>>) {
    forall c :: c in byFirst ==> BucketSound(vocab, c, byFirst[c])
  }

  ghost predicate BucketSound(vocab: seq<VocabEntry>, c: char, bucket: seq<nat>) {
    && (forall k :: 0 <= k < |bucket| ==> StartsWith(vocab, bucket[k], c))
    && (forall k, l :: 0 <= k < l < |bucket| ==> bucket[k] < bucket[l])
  }

  // ... and every non-empty token is in the bucket of its first character.
  ghost predicate BucketsComplete(vocab: seq<VocabEntry>, byFirst: map<char, seq<nat>>) {
    forall i :: 0 <= i < |vocab| && vocab[i].token != [] ==>
      vocab[i].token[0] in byFirst && i in byFirst[vocab[i].token[0]]
  }

  // Different octets have different byte tokens, all of the shape "<0x...".
  ghost predicate BytesSound(vocab: seq<VocabEntry>, byByte: map<byte, nat>) {
    && (forall b :: b in byByte ==> byByte[b] < |vocab| && "<0x" <= vocab[byByte[b]].token)
    && (forall b, c :: b in byByte && c in byByte && byByte[b] == byByte[c] ==> b == c)
  }

  predicate StartsWith(vocab: seq<VocabEntry>, i: nat, c: char) {
    i < |vocab| && vocab[i].token != [] && vocab[i].token[0] == c
  }

  /** The vocabulary a list of raw entries stands for; the last token of an octet wins. */
  ghost predicate Holds(t: Tokenizer, raw: seq<RawEntry>) {
    && |t.vocab| == |raw|
    && (forall i :: 0 <= i < |raw| ==> t.vocab[i] == Entry(raw[i], i))
    && (forall b :: b in t.byByte ==> LastByteToken(raw, b, t.byByte[b]))
    && (forall i :: 0 <= i < |raw| && IsByteToken(raw[i]) ==> raw[i].scanned.value in t.byByte)
  }

  function Entry(e: RawEntry, i: nat): VocabEntry {
    if e.Short? then VocabEntry([], 0.0, 0) else VocabEntry(e.token, e.score, i)
  }

  predicate LastByteToken(raw: seq<RawEntry>, b: byte, i: int) {
    && 0 <= i < |raw| && IsByteToken(raw[i]) && raw[i].scanned.value == b
    && forall j :: i < j < |raw| ==> !(IsByteToken(raw[j]) && raw[j].scanned.value == b)
  }

  ghost predicate Tight(t: Tokenizer) {
    t.maxTokLen > 0 ==> exists i :: 0 <= i < |t.vocab| && |t.vocab[i].token| == t.maxTokLen
  }

  // The index of the entries read so far.
  ghost predicate Building(t: Tokenizer, raw: seq<RawEntry>) {
    && Holds(t, raw) && Tight(t) && NumbersAndLengths(t.vocab, t.maxTokLen)
    && BucketsSound(t.vocab, t.byFirst) && BucketsComplete(t.vocab, t.byFirst)
  }

  method BuildIndex(raw: seq<RawEntry>, clsId: int, sepId: int, padId: int, unkId: int) returns (t: Tokenizer)
    ensures Indexed(t) && Holds(t, raw) && Tight(t)
    ensures t.clsId == clsId && t.sepId == sepId && t.padId == padId && t.unkId == unkId
  {
    t := Tokenizer([], map[], map[], 0, clsId, sepId, padId, unkId);
    for i := 0 to |raw|
      invariant Building(t, raw[..i])
      invariant t.clsId == clsId && t.sepId == sepId && t.padId == padId && t.unkId == unkId
    {
      assert raw[..i + 1] == raw[..i] + [raw[i]];
      t := AddEntry(t, raw[i], i, raw[..i]);
    }
    assert raw[..|raw|] == raw;
    HoldsMeansBytesSound(t, raw);
  }

  method AddEntry(before: Tokenizer, e: RawEntry, i: nat, ghost raw: seq<RawEntry>) returns (t: Tokenizer)
    requires Building(before, raw) && i == |raw|
    ensures Building(t, raw + [e])
    ensures t.clsId == before.clsId && t.sepId == before.sepId && t.padId == before.padId && t.unkId == before.unkId
  {
    t := before.(vocab := before.vocab + [Entry(e, i)]);
    if e.Short? {
      BucketsStaySound(before.vocab, Entry(e, i), t.byFirst);
    } else {
      if |e.token| > 0 {
        AddToBucket(before.vocab, Entry(e, i), t.byFirst);
        var c := e.token[0];
        t := t.(byFirst := t.byFirst[c := (if c in t.byFirst then t.byFirst[c] else []) + [i]]);
      } else {
        BucketsStaySound(before.vocab, Entry(e, i), t.byFirst);
      }
      if |e.token| > t.maxTokLen {
        t := t.(maxTokLen := |e.token|);
      }
      if IsByteToken(e) {
        t := t.(byByte := t.byByte[e.scanned.value := i]);
      }
    }
    OneEntryMore(before, t, raw, e);
  }

  lemma OneEntryMore(t: Tokenizer, r: Tokenizer, raw: seq<RawEntry>, e: RawEntry)
    requires Holds(t, raw) && Tight(t) && NumbersAndLengths(t.vocab, t.maxTokLen)
    requires r.vocab == t.vocab + [Entry(e, |raw|)]
    requires r.maxTokLen == if e.Pair? && |e.token| > t.maxTokLen then |e.token| else t.maxTokLen
    requires r.byByte == if IsByteToken(e) then t.byByte[e.scanned.value := |raw|] else t.byByte
    ensures Holds(r, raw + [e]) && Tight(r) && NumbersAndLengths(r.vocab, r.maxTokLen)
  {
    LengthsMore(t, r, Entry(e, |raw|));
    BytesMore(t, r, raw, e);
  }

  lemma BytesMore(t: Tokenizer, r: Tokenizer, raw: seq<RawEntry>, e: RawEntry)
    requires Holds(t, raw) && r.vocab == t.vocab + [Entry(e, |raw|)]
    requires r.byByte == if IsByteToken(e) then t.byByte[e.scanned.value := |raw|] else t.byByte
    ensures Holds(r, raw + [e])
  {
    forall b | b in r.byByte
      ensures LastByteToken(raw + [e], b, r.byByte[b])
    {
      LastByteTokenMore(raw, e, b, if b in t.byByte then t.byByte[b] else -1);
    }
  }

  lemma LastByteTokenMore(raw: seq<RawEntry>, e: RawEntry, b: byte, i: int)
    ensures IsByteToken(e) && e.scanned.value == b ==> LastByteToken(raw + [e], b, |raw|)
    ensures !(IsByteToken(e) && e.scanned.value == b) && LastByteToken(raw, b, i) ==> LastByteToken(raw + [e], b, i)
  {
  }

  lemma LengthsMore(t: Tokenizer, r: Tokenizer, v: VocabEntry)
    requires Tight(t) && NumbersAndLengths(t.vocab, t.maxTokLen)
    requires r.vocab == t.vocab + [v] && (v.token != [] ==> v.id == |t.vocab|)
    requires r.maxTokLen == if |v.token| > t.maxTokLen then |v.token| else t.maxTokLen
    ensures Tight(r) && NumbersAndLengths(r.vocab, r.maxTokLen)
  {
    var n := |t.vocab|;
    assert r.vocab[n] == v;
    if r.maxTokLen > t.maxTokLen {
      assert |r.vocab[n].token| == r.maxTokLen;
    } else if r.maxTokLen > 0 {
      var i :| 0 <= i < |t.vocab| && |t.vocab[i].token| == t.maxTokLen;
      assert |r.vocab[i].token| == r.maxTokLen;
    }
  }

  lemma HoldsMeansBytesSound(t: Tokenizer, raw: seq<RawEntry>)
    requires Holds(t, raw)
    ensures BytesSound(t.vocab, t.byByte)
  {
    forall b | b in t.byByte
      ensures t.byByte[b] < |t.vocab| && "<0x" <= t.vocab[t.byByte[b]].token
      ensures raw[t.byByte[b]].scanned == Some(b)
    {
      assert LastByteToken(raw, b, t.byByte[b]);
    }
  }

  lemma BucketsStaySound(vocab: seq<VocabEntry>, e: VocabEntry, byFirst: map<char, seq<nat>>)
    requires BucketsSound(vocab, byFirst)
    ensures BucketsSound(vocab + [e], byFirst)
  {
    forall c | c in byFirst
      ensures BucketSound(vocab + [e], c, byFirst[c])
    {
      assert BucketSound(vocab, c, byFirst[c]);
      assert forall k :: 0 <= k < |byFirst[c]| ==> StartsWith(vocab, byFirst[c][k], c);
    }
  }

  lemma LongerBucket(vocab: seq<VocabEntry>, e: VocabEntry, c: char, bucket: seq<nat>)
    requires BucketSound(vocab, c, bucket) && e.token != [] && e.token[0] == c
    ensures BucketSound(vocab + [e], c, bucket + [|vocab|])
  {
    var longer := bucket + [|vocab|];
    assert forall k :: 0 <= k < |bucket| ==> StartsWith(vocab, bucket[k], c);
    assert forall k :: 0 <= k < |bucket| ==> longer[k] == bucket[k] < |vocab|;
    assert (vocab + [e])[|vocab|] == e;
  }

  lemma AddToBucket(vocab: seq<VocabEntry>, e: VocabEntry, byFirst: map<char, seq<nat>>)
    requires BucketsSound(vocab, byFirst) && BucketsComplete(vocab, byFirst) && e.token != []
    ensures var c := e.token[0];
            var byFirst' := byFirst[c := (if c in byFirst then byFirst[c] else []) + [|vocab|]];
            BucketsSound(vocab + [e], byFirst') && BucketsComplete(vocab + [e], byFirst')
  {
    var c := e.token[0];
    var bucket := if c in byFirst then byFirst[c] else [];
    BucketsStaySound(vocab, e, byFirst);
    assert BucketSound(vocab, c, bucket);
    LongerBucket(vocab, e, c, bucket);
    BucketsStayComplete(vocab, e, byFirst, bucket);
  }

  lemma BucketsStayComplete(vocab: seq<VocabEntry>, e: VocabEntry, byFirst: map<char, seq<nat>>, bucket: seq<nat>)
    requires BucketsComplete(vocab, byFirst) && e.token != []
    requires bucket == if e.token[0] in byFirst then byFirst[e.token[0]] else []
    ensures BucketsComplete(vocab + [e], byFirst[e.token[0] := bucket + [|vocab|]])
  {
    var byFirst' := byFirst[e.token[0] := bucket + [|vocab|]];
    forall i | 0 <= i < |vocab + [e]| && (vocab + [e])[i].token != []
      ensures (vocab + [e])[i].token[0] in byFirst' && i in byFirst'[(vocab + [e])[i].token[0]]
    {
      if i == |vocab| {
        assert i in bucket + [i];
      } else {
        assert i in byFirst[vocab[i].token[0]];
      }
    }
  }

  // ---------------------------------------------------------- what may be chosen

  /** One step of a segmentation: characters start to end - 1, labelled with a token id. */
  datatype Piece = Piece(start: nat, end: nat, id: int)

  predicate Matches(t: Tokenizer, text: string, p: Piece) {
    && 0 <= p.id < |t.vocab| && p.start < p.end <= |text|
    && t.vocab[p.id].token == text[p.start..p.end]
  }

  // What the search looks at: a start in the window, an entry in the bucket of its character.
  predicate Scanned(t: Tokenizer, text: string, q: Piece) {
    && q.start < q.end <= |text| && q.end - q.start <= t.maxTokLen
    && text[q.start] in t.byFirst && q.id in t.byFirst[text[q.start]]
    && 0 <= q.id < |t.vocab| && t.vocab[q.id].token == text[q.start..q.end]
  }

  /** The window and the first-character index lose no match and add none to those of a scan
      over all starts and the whole vocabulary. */
  lemma ScanFindsExactlyTheMatches(t: Tokenizer, text: string, q: Piece)
    requires Indexed(t)
    ensures Scanned(t, text, q) <==> Matches(t, text, q)
  {
    if Matches(t, text, q) {
      var token := t.vocab[q.id].token;
      assert token[0] == text[q.start];
      assert q.id as nat in t.byFirst[token[0]];
    }
  }

  ghost predicate SomeTokenEndsAt(t: Tokenizer, text: string, end: nat) {
    exists p: Piece :: Matches(t, text, p) && p.end == end
  }

  predicate HasByteToken(t: Tokenizer, c: char) {
    exists k :: 0 <= k < |Utf8(c)| && Utf8(c)[k] in t.byByte
  }

  predicate IsByteId(t: Tokenizer, c: char, id: int) {
    exists k :: 0 <= k < |Utf8(c)| && Utf8(c)[k] in t.byByte && t.byByte[Utf8(c)[k]] == id
  }

  /** The fallback: a single character at a position where no vocabulary token ends. It
      is labelled with ONE id, that of any of its byte tokens, or with the unknown id
      when the vocabulary has none of them. */
  ghost predicate Falls(t: Tokenizer, text: string, p: Piece) {
    && p.start + 1 == p.end <= |text|
    && !SomeTokenEndsAt(t, text, p.end)
    && if HasByteToken(t, text[p.start]) then IsByteId(t, text[p.start], p.id) else p.id == t.unkId
  }

  ghost predicate Allowed(t: Tokenizer, text: string, p: Piece) {
    Matches(t, text, p) || Falls(t, text, p)
  }

  /** The score a piece adds: its token's, or the penalty of the hard unknown. */
  ghost function Weight(t: Tokenizer, text: string, p: Piece): real
    requires Indexed(t) && Allowed(t, text, p)
  {
    if Matches(t, text, p) || HasByteToken(t, text[p.start]) then t.vocab[p.id].score else -100.0
  }

  /** Consecutive allowed pieces that cover the first n characters. */
  ghost predicate Segmentation(t: Tokenizer, text: string, ps: seq<Piece>, n: nat) {
    if ps == [] then n == 0
    else
      var p: Piece := ps[|ps| - 1];
      p.end == n && Allowed(t, text, p) && Segmentation(t, text, ps[..|ps| - 1], p.start)
  }

  ghost function Total(t: Tokenizer, text: string, ps: seq<Piece>, n: nat): real
    requires Indexed(t) && Segmentation(t, text, ps, n)
  {
    if ps == [] then 0.0
    else var p := ps[|ps| - 1]; Total(t, text, ps[..|ps| - 1], p.start) + Weight(t, text, p)
  }

  function Ids(ps: seq<Piece>): (ids: seq<int>)
    ensures |ids| == |ps| && forall i :: 0 <= i < |ps| ==> ids[i] == ps[i].id
  {
    seq(|ps|, i requires 0 <= i < |ps| => ps[i].id)
  }

  // Where among the octets of c the byte token `id` first turns up.
  ghost function FirstByte(t: Tokenizer, c: char, id: int, k: nat): (r: nat)
    requires exists l :: k <= l < |Utf8(c)| && Utf8(c)[l] in t.byByte && t.byByte[Utf8(c)[l]] == id
    ensures k <= r < |Utf8(c)| && Utf8(c)[r] in t.byByte && t.byByte[Utf8(c)[r]] == id
    ensures forall l :: k <= l < r ==> !(Utf8(c)[l] in t.byByte && t.byByte[Utf8(c)[l]] == id)
    decreases |Utf8(c)| - k
  {
    if Utf8(c)[k] in t.byByte && t.byByte[Utf8(c)[k]] == id then k else FirstByte(t, c, id, k + 1)
  }

  /** Tie-breaking among pieces with the same end: the smaller start, then the lower
      vocabulary id (for byte tokens, the earlier octet). */
  ghost predicate Before(t: Tokenizer, text: string, p: Piece, q: Piece)
    requires Allowed(t, text, p) && Allowed(t, text, q)
  {
    || p.start < q.start
    || (p.start == q.start &&
        if Matches(t, text, p) && Matches(t, text, q) then p.id < q.id
        else
          && Falls(t, text, p) && Falls(t, text, q) && p.end == q.end && HasByteToken(t, text[p.start])
          && FirstByte(t, text[p.start], p.id, 0) < FirstByte(t, text[q.start], q.id, 0))
  }

  /** The segmentation the tokenizer promises: every prefix of it is a best one for the
      characters it covers, and ends in the first piece, in the order above, that any
      equally good segmentation of those characters ends in. */
  ghost predicate Canonical(t: Tokenizer, text: string, ps: seq<Piece>, n: nat)
    requires Indexed(t)
  {
    && Segmentation(t, text, ps, n)
    && (forall qs | Segmentation(t, text, qs, n) :: Total(t, text, qs, n) <= Total(t, text, ps, n))
    && (ps != [] ==>
          && Canonical(t, text, ps[..|ps| - 1], ps[|ps| - 1].start)
          && forall qs | Segmentation(t, text, qs, n) && qs != [] && Total(t, text, qs, n) == Total(t, text, ps, n) ::
               !Before(t, text, qs[|qs| - 1], ps[|ps| - 1]))
  }

  // Of two different pieces with the same end, one comes before the other.
  lemma BeforeIsTotal(t: Tokenizer, text: string, p: Piece, q: Piece)
    requires Indexed(t) && Allowed(t, text, p) && Allowed(t, text, q) && p.end == q.end
    ensures p == q || Before(t, text, p, q) || Before(t, text, q, p)
  {
    if p.start == q.start && p.id != q.id && Falls(t, text, p) {
      assert Falls(t, text, q);
      var c := text[p.start];
      if HasByteToken(t, c) {
        assert FirstByte(t, c, p.id, 0) != FirstByte(t, c, q.id, 0);
      }
    }
  }

  lemma LastIsUnique(t: Tokenizer, text: string, ps: seq<Piece>, qs: seq<Piece>, n: nat)
    requires Indexed(t) && Canonical(t, text, ps, n) && Canonical(t, text, qs, n) && ps != [] && qs != []
    ensures ps[|ps| - 1] == qs[|qs| - 1]
  {
    assert Total(t, text, ps, n) == Total(t, text, qs, n);
    BeforeIsTotal(t, text, ps[|ps| - 1], qs[|qs| - 1]);
  }

  /** There is at most one such segmentation, so the tokenizer's answer is determined. */
  lemma {:induction false} CanonicalIsUnique(t: Tokenizer, text: string, ps: seq<Piece>, qs: seq<Piece>, n: nat)
    requires Indexed(t) && Canonical(t, text, ps, n) && Canonical(t, text, qs, n)
    ensures ps == qs
    decreases |ps|
  {
    if ps == [] || qs == [] {
    } else {
      var p, q := ps[|ps| - 1], qs[|qs| - 1];
      LastIsUnique(t, text, ps, qs, n);
      CanonicalIsUnique(t, text, ps[..|ps| - 1], qs[..|qs| - 1], p.start);
      assert ps == ps[..|ps| - 1] + [p] && qs == qs[..|qs| - 1] + [q];
    }
  }

  // ------------------------------------------------------ what that means for a caller

  /** What the index holds, entry by entry: a short entry is an empty token, any other keeps its
      token, score and position; a byte token is spelled in six octets from <0x to >, and of
      those for one octet the last one counts. */
  lemma HoldsMeans(t: Tokenizer, raw: seq<RawEntry>)
    requires Holds(t, raw)
    ensures |t.vocab| == |raw|
    ensures forall i :: 0 <= i < |raw| ==>
              t.vocab[i] == if raw[i].Pair? then VocabEntry(raw[i].token, raw[i].score, i) else VocabEntry("", 0.0, 0)
    ensures forall b :: b in t.byByte ==>
              && 0 <= t.byByte[b] < |raw| && raw[t.byByte[b]].Pair? && raw[t.byByte[b]].scanned == Some(b)
              && var token := raw[t.byByte[b]].token;
                 ByteLength(token) == 6 && "<0x" <= token && token[|token| - 1] == '>'
    ensures forall i :: 0 <= i < |raw| && raw[i].Pair? && raw[i].scanned.Some? && ByteLength(raw[i].token) == 6 ==>
              "<0x" <= raw[i].token && raw[i].token[|raw[i].token| - 1] == '>' ==>
              raw[i].scanned.value in t.byByte && i <= t.byByte[raw[i].scanned.value]
  {
    forall i | 0 <= i < |raw| && IsByteToken(raw[i])
      ensures raw[i].scanned.value in t.byByte && i <= t.byByte[raw[i].scanned.value]
    {
      var b := raw[i].scanned.value;
      assert LastByteToken(raw, b, t.byByte[b]);
    }
  }

  /** What a piece costs: a vocabulary match its token's score; a character that no token ends
      at, the score of one of its byte tokens; and without any of these it is the unknown token,
      at minus one hundred. */
  lemma WeightMeans(t: Tokenizer, text: string, p: Piece)
    requires Indexed(t) && Allowed(t, text, p)
    ensures p.start < p.end <= |text|
    ensures 0 <= p.id < |t.vocab| && t.vocab[p.id].token == text[p.start..p.end] ==>
              Weight(t, text, p) == t.vocab[p.id].score
    ensures !(0 <= p.id < |t.vocab| && t.vocab[p.id].token == text[p.start..p.end]) ==>
              && p.end == p.start + 1
              && (forall q: Piece :: q.start < q.end == p.end && 0 <= q.id < |t.vocab| ==>
                    t.vocab[q.id].token != text[q.start..q.end])
              && if forall b :: b in Utf8(text[p.start]) ==> b !in t.byByte
                 then p.id == t.unkId && Weight(t, text, p) == -100.0
                 else
                   && 0 <= p.id < |t.vocab| && Weight(t, text, p) == t.vocab[p.id].score
                   && exists b :: b in Utf8(text[p.start]) && b in t.byByte && t.byByte[b] == p.id
  {
    if !Matches(t, text, p) {
      forall q: Piece | q.start < q.end == p.end && 0 <= q.id < |t.vocab|
        ensures t.vocab[q.id].token != text[q.start..q.end]
      {
        assert !Matches(t, text, q);
      }
      var bytes := Utf8(text[p.start]);
      if HasByteToken(t, text[p.start]) {
        var k :| 0 <= k < |bytes| && bytes[k] in t.byByte && t.byByte[bytes[k]] == p.id;
        assert bytes[k] in bytes;
      } else {
        assert forall b :: b in bytes ==> b !in t.byByte;
      }
    }
  }

  /** Ties: of equally good segmentations the one whose last token starts first is chosen, and of
      tokens that are spelled alike the one with the lowest id. */
  lemma TiesMean(t: Tokenizer, text: string, ps: seq<Piece>, n: nat, front: seq<Piece>, q: Piece)
    requires Indexed(t) && Canonical(t, text, ps, n) && ps != []
    requires q.start < q.end == n <= |text| && 0 <= q.id < |t.vocab| && t.vocab[q.id].token == text[q.start..n]
    requires Segmentation(t, text, front, q.start)
    ensures Total(t, text, front, q.start) + t.vocab[q.id].score <= Total(t, text, ps, n)
    ensures Total(t, text, front, q.start) + t.vocab[q.id].score == Total(t, text, ps, n) ==>
              var p := ps[|ps| - 1];
              p.start < q.start || (p.start == q.start && p.id <= q.id)
  {
    var qs := front + [q];
    assert Matches(t, text, q) && qs[..|qs| - 1] == front;
    assert Segmentation(t, text, qs, n);
    var p := ps[|ps| - 1];
    assert Matches(t, text, p) by {
      assert SomeTokenEndsAt(t, text, n);
    }
  }

  /** Ties among byte tokens: a best one is chosen, and of equally good ones that of the first
      octet. */
  lemma ByteTiesMean(t: Tokenizer, text: string, ps: seq<Piece>, n: nat, k: nat)
    requires Indexed(t) && Canonical(t, text, ps, n) && ps != [] && n <= |text| && n > 0
    requires forall q: Piece :: q.start < q.end == n && 0 <= q.id < |t.vocab| ==>
               t.vocab[q.id].token != text[q.start..n]
    requires k < |Utf8(text[n - 1])| && Utf8(text[n - 1])[k] in t.byByte
    ensures var p, bytes := ps[|ps| - 1], Utf8(text[n - 1]);
            && 0 <= p.id < |t.vocab| && t.byByte[bytes[k]] < |t.vocab|
            && t.vocab[t.byByte[bytes[k]]].score <= t.vocab[p.id].score
            && (t.vocab[t.byByte[bytes[k]]].score == t.vocab[p.id].score ==>
                  exists j :: 0 <= j <= k && bytes[j] in t.byByte && t.byByte[bytes[j]] == p.id)
  {
    var p, bytes := ps[|ps| - 1], Utf8(text[n - 1]);
    assert !Matches(t, text, p) && !SomeTokenEndsAt(t, text, n);
    var q := Piece(n - 1, n, t.byByte[bytes[k]]);
    assert IsByteId(t, text[n - 1], q.id) && HasByteToken(t, text[n - 1]) && Falls(t, text, q);
    NoFallbackBefore(t, text, ps, n, q);
    if Weight(t, text, q) == Weight(t, text, p) {
      var j := FirstByte(t, text[n - 1], p.id, 0);
      assert FirstByte(t, text[n - 1], q.id, 0) <= k;
    }
  }

  lemma NoFallbackBefore(t: Tokenizer, text: string, ps: seq<Piece>, n: nat, q: Piece)
    requires Indexed(t) && Canonical(t, text, ps, n) && ps != [] && Falls(t, text, q) && q.end == n
    ensures var p := ps[|ps| - 1];
            && Falls(t, text, p) && p.start == q.start && Weight(t, text, q) <= Weight(t, text, p)
            && (Weight(t, text, q) == Weight(t, text, p) ==> !Before(t, text, q, p))
  {
    var p, front := ps[|ps| - 1], ps[..|ps| - 1];
    assert !Matches(t, text, p);
    var qs := front + [q];
    assert qs[..|qs| - 1] == front && qs[|qs| - 1] == q;
    assert Segmentation(t, text, qs, n);
  }

  // ------------------------------------------------------------- Bellman's argument

  // The table entry for position e: `back` is the first of the best last steps.
  ghost predicate Chosen(t: Tokenizer, text: string, best: seq<real>, e: nat, back: Piece)
    requires Indexed(t)
  {
    && Allowed(t, text, back) && back.end == e < |best|
    && best[e] == best[back.start] + Weight(t, text, back)
    && forall q | Allowed(t, text, q) && q.end == e ::
         && best[q.start] + Weight(t, text, q) <= best[e]
         && (best[q.start] + Weight(t, text, q) == best[e] ==> !Before(t, text, q, back))
  }

  ghost predicate Solved(t: Tokenizer, text: string, best: seq<real>, back: seq<Piece>, n: nat)
    requires Indexed(t)
  {
    && |best| == |back| == n + 1 && n <= |text| && best[0] == 0.0
    && forall e :: 1 <= e <= n ==> Chosen(t, text, best, e, back[e])
  }

  ghost function PathTo(t: Tokenizer, text: string, best: seq<real>, back: seq<Piece>, n: nat, e: nat): seq<Piece>
    requires Indexed(t) && Solved(t, text, best, back, n) && e <= n
  {
    if e == 0 then [] else
      assert Chosen(t, text, best, e, back[e]);
      PathTo(t, text, best, back, n, back[e].start) + [back[e]]
  }

  lemma {:induction false} TableBoundsTotals(
    t: Tokenizer, text: string, best: seq<real>, back: seq<Piece>, n: nat, e: nat, qs: seq<Piece>)
    requires Indexed(t) && Solved(t, text, best, back, n) && e <= n
    requires Segmentation(t, text, qs, e)
    ensures Total(t, text, qs, e) <= best[e]
    decreases |qs|
  {
    if qs == [] {
    } else {
      var q: Piece := qs[|qs| - 1];
      TableBoundsTotals(t, text, best, back, n, q.start, qs[..|qs| - 1]);
      assert Chosen(t, text, best, e, back[e]);
    }
  }

  lemma NoneBetterNorBefore(
    t: Tokenizer, text: string, best: seq<real>, back: seq<Piece>, n: nat, e: nat, qs: seq<Piece>)
    requires Indexed(t) && Solved(t, text, best, back, n) && e <= n && Segmentation(t, text, qs, e)
    ensures e > 0 ==> Chosen(t, text, best, e, back[e])
    ensures Total(t, text, qs, e) <= best[e]
    ensures qs != [] && e > 0 && Total(t, text, qs, e) == best[e] ==> !Before(t, text, qs[|qs| - 1], back[e])
  {
    TableBoundsTotals(t, text, best, back, n, e, qs);
    if qs != [] && e > 0 {
      var q: Piece := qs[|qs| - 1];
      TableBoundsTotals(t, text, best, back, n, q.start, qs[..|qs| - 1]);
    }
  }

  /** A table filled entry by entry with best last steps, read backwards, is the
      canonical segmentation. */
  lemma {:induction false} TableGivesCanonical(
    t: Tokenizer, text: string, best: seq<real>, back: seq<Piece>, n: nat, e: nat)
    requires Indexed(t) && Solved(t, text, best, back, n) && e <= n
    ensures Canonical(t, text, PathTo(t, text, best, back, n, e), e)
    ensures Total(t, text, PathTo(t, text, best, back, n, e), e) == best[e]
    decreases e
  {
    var ps := PathTo(t, text, best, back, n, e);
    if e == 0 {
    } else {
      var p := back[e];
      assert Chosen(t, text, best, e, p);
      var front := PathTo(t, text, best, back, n, p.start);
      TableGivesCanonical(t, text, best, back, n, p.start);
      assert ps[..|ps| - 1] == front;
    }
    forall qs | Segmentation(t, text, qs, e)
      ensures Total(t, text, qs, e) <= best[e]
      ensures qs != [] && e > 0 && Total(t, text, qs, e) == best[e] ==> !Before(t, text, qs[|qs| - 1], back[e])
    {
      NoneBetterNorBefore(t, text, best, back, n, e, qs);
    }
  }

  // ------------------------------------------------------------------- the search

  datatype Score = NegInf | Fin(value: real)

  predicate Exceeds(x: real, s: Score) {
    s.NegInf? || x > s.value
  }

  datatype BackPtr = BackPtr(start: int, id: int)

  // The matches ending at `end` that were looked at: all starts below j, and at j the ids below `bound`.
  ghost predicate SeenMatch(t: Tokenizer, text: string, q: Piece, end: nat, j: int, bound: int) {
    Matches(t, text, q) && q.end == end && (q.start < j || (q.start == j && q.id < bound))
  }

  // The current cell holds the first best of the matches looked at, or nothing if there is none.
  ghost predicate BestSeen(t: Tokenizer, text: string, best: seq<real>, end: nat, j: int, bound: int, s: Score,
                           b: BackPtr)
    requires Indexed(t) && |best| == end
  {
    && (s.Fin? ==>
          && 0 <= b.start
          && var p := Piece(b.start, end, b.id);
             SeenMatch(t, text, p, end, j, bound) && s.value == best[p.start] + Weight(t, text, p))
    && (forall q | SeenMatch(t, text, q, end, j, bound) ::
          && s.Fin?
          && best[q.start] + Weight(t, text, q) <= s.value
          && (best[q.start] + Weight(t, text, q) == s.value ==>
                b.start < q.start || (b.start == q.start && b.id <= q.id)))
  }

  // Where a scan stands once it has passed the first k candidates.
  ghost function Bound(t: Tokenizer, candidates: seq<nat>, k: nat): int {
    if k < |candidates| then candidates[k] else |t.vocab|
  }

  // A match at start j is a candidate, so only the k-th one lies between two positions of the scan.
  lemma OneMatchPerTurn(t: Tokenizer, text: string, candidates: seq<nat>, end: nat, j: nat, k: nat, q: Piece)
    requires Indexed(t) && j < end <= |text| && k <= |candidates|
    requires candidates == if text[j] in t.byFirst then t.byFirst[text[j]] else []
    requires SeenMatch(t, text, q, end, j, if k == |candidates| then |t.vocab| else Bound(t, candidates, k + 1))
    ensures SeenMatch(t, text, q, end, j, Bound(t, candidates, k))
              || (k < |candidates| && q == Piece(j, end, candidates[k]))
  {
    if q.start == j {
      assert t.vocab[q.id].token[0] == text[j];
      assert q.id in candidates;
      var l :| 0 <= l < |candidates| && candidates[l] == q.id;
      assert BucketSound(t.vocab, text[j], candidates);
    }
  }

  lemma NothingNew(t: Tokenizer, text: string, best: seq<real>, end: nat, j: int, bound: int, j': int, bound': int,
                   s: Score, b: BackPtr)
    requires Indexed(t) && |best| == end && BestSeen(t, text, best, end, j, bound, s, b)
    requires forall q :: SeenMatch(t, text, q, end, j', bound') <==> SeenMatch(t, text, q, end, j, bound)
    ensures BestSeen(t, text, best, end, j', bound', s, b)
  {
  }

  // A candidate that matches becomes the best only if it scores strictly higher.
  lemma OneMatchMore(t: Tokenizer, text: string, best: seq<real>, end: nat, j: nat, bound: int, bound': int,
                     s: Score, b: BackPtr, p: Piece)
    requires Indexed(t) && |best| == end && BestSeen(t, text, best, end, j, bound, s, b)
    requires Matches(t, text, p) && p.end == end && p.start == j && bound <= p.id < bound'
    requires forall q | SeenMatch(t, text, q, end, j, bound') :: SeenMatch(t, text, q, end, j, bound) || q == p
    ensures var score := best[j] + Weight(t, text, p);
            if Exceeds(score, s) then BestSeen(t, text, best, end, j, bound', Fin(score), BackPtr(j, p.id))
            else BestSeen(t, text, best, end, j, bound', s, b)
  {
    assert forall q | SeenMatch(t, text, q, end, j, bound) :: SeenMatch(t, text, q, end, j, bound');
  }

  // One start position: run through the bucket of its first character.
  method ScanBucket(t: Tokenizer, text: string, ghost best: seq<real>, dpj: Score, end: nat, j: nat, s0: Score,
                    b0: BackPtr)
    returns (s: Score, b: BackPtr)
    requires Indexed(t) && |best| == end <= |text| && j < end && dpj == Fin(best[j])
    requires BestSeen(t, text, best, end, j, 0, s0, b0)
    ensures BestSeen(t, text, best, end, j + 1, 0, s, b)
  {
    s, b := s0, b0;
    var fragment := text[j..end];
    var candidates := if fragment[0] in t.byFirst then t.byFirst[fragment[0]] else [];
    assert BestSeen(t, text, best, end, j, Bound(t, candidates, 0), s, b) by {
      NoMatchBelowFirst(t, text, candidates, end, j);
      NothingNew(t, text, best, end, j, 0, j, Bound(t, candidates, 0), s, b);
    }
    for k := 0 to |candidates|
      invariant BestSeen(t, text, best, end, j, Bound(t, candidates, k), s, b)
    {
      CandidateIsNext(t, text, candidates, end, j, k);
      var e := t.vocab[candidates[k]];
      ghost var p := Piece(j, end, e.id);
      ghost var from, to := Bound(t, candidates, k), Bound(t, candidates, k + 1);
      if |e.token| == |fragment| && e.token == fragment {
        OneMatchMore(t, text, best, end, j, from, to, s, b, p);
        var score := dpj.value + e.score;
        if Exceeds(score, s) {
          s, b := Fin(score), BackPtr(j, e.id);
        }
      } else {
        assert !Matches(t, text, p);
        NothingNew(t, text, best, end, j, from, j, to, s, b);
      }
    }
    AllSeenAtStart(t, text, best, end, j, s, b);
  }

  lemma AllSeenAtStart(t: Tokenizer, text: string, best: seq<real>, end: nat, j: nat, s: Score, b: BackPtr)
    requires Indexed(t) && |best| == end && BestSeen(t, text, best, end, j, |t.vocab|, s, b)
    ensures BestSeen(t, text, best, end, j + 1, 0, s, b)
  {
    assert forall q :: SeenMatch(t, text, q, end, j + 1, 0) <==> SeenMatch(t, text, q, end, j, |t.vocab|);
    NothingNew(t, text, best, end, j, |t.vocab|, j + 1, 0, s, b);
  }

  // The k-th candidate is the only one that its turn adds to the matches looked at.
  lemma CandidateIsNext(t: Tokenizer, text: string, candidates: seq<nat>, end: nat, j: nat, k: nat)
    requires Indexed(t) && j < end <= |text| && k < |candidates|
    requires candidates == if text[j] in t.byFirst then t.byFirst[text[j]] else []
    ensures candidates[k] < |t.vocab| && t.vocab[candidates[k]].id == candidates[k]
    ensures Bound(t, candidates, k) == candidates[k] < Bound(t, candidates, k + 1)
    ensures forall q :: SeenMatch(t, text, q, end, j, Bound(t, candidates, k + 1)) ==>
              SeenMatch(t, text, q, end, j, Bound(t, candidates, k)) || q == Piece(j, end, candidates[k])
  {
    assert BucketSound(t.vocab, text[j], candidates);
    assert StartsWith(t.vocab, candidates[k], text[j]);
    forall q | SeenMatch(t, text, q, end, j, Bound(t, candidates, k + 1))
      ensures SeenMatch(t, text, q, end, j, Bound(t, candidates, k)) || q == Piece(j, end, candidates[k])
    {
      OneMatchPerTurn(t, text, candidates, end, j, k, q);
    }
  }

  lemma NoMatchBelowFirst(t: Tokenizer, text: string, candidates: seq<nat>, end: nat, j: nat)
    requires Indexed(t) && j < end <= |text|
    requires candidates == if text[j] in t.byFirst then t.byFirst[text[j]] else []
    ensures forall q :: SeenMatch(t, text, q, end, j, Bound(t, candidates, 0)) <==> SeenMatch(t, text, q, end, j, 0)
  {
    forall q | Matches(t, text, q) && q.end == end && q.start == j
      ensures q.id >= Bound(t, candidates, 0)
    {
      assert t.vocab[q.id].token[0] == text[j];
      assert BucketSound(t.vocab, text[j], candidates);
      var l :| 0 <= l < |candidates| && candidates[l] == q.id;
    }
  }

  // bytes[at] has the first best byte token among the first k octets.
  ghost predicate BestByte(t: Tokenizer, bytes: seq<byte>, k: nat, at: nat)
    requires Indexed(t) && k <= |bytes|
  {
    && at < k && bytes[at] in t.byByte
    && (forall l :: 0 <= l < k && bytes[l] in t.byByte ==> ByteScore(t, bytes[l]) <= ByteScore(t, bytes[at]))
    && (forall l :: 0 <= l < at && bytes[l] in t.byByte ==> ByteScore(t, bytes[l]) < ByteScore(t, bytes[at]))
  }

  ghost function ByteScore(t: Tokenizer, b: byte): real
    requires Indexed(t) && b in t.byByte
  {
    t.vocab[t.byByte[b]].score
  }

  method ScanBytes(t: Tokenizer, bytes: seq<byte>, base: real) returns (s: Score, id: int, ghost at: nat)
    requires Indexed(t)
    ensures s.NegInf? ==> id == t.unkId && forall l :: 0 <= l < |bytes| ==> bytes[l] !in t.byByte
    ensures s.Fin? ==>
              && BestByte(t, bytes, |bytes|, at) && id == t.byByte[bytes[at]]
              && s.value == base + ByteScore(t, bytes[at])
  {
    s, id, at := NegInf, t.unkId, 0;
    for k := 0 to |bytes|
      invariant s.NegInf? ==> id == t.unkId && forall l :: 0 <= l < k ==> bytes[l] !in t.byByte
      invariant s.Fin? ==>
                  BestByte(t, bytes, k, at) && id == t.byByte[bytes[at]] && s.value == base + ByteScore(t, bytes[at])
    {
      if bytes[k] in t.byByte {
        var tokId := t.byByte[bytes[k]];
        var x := base + t.vocab[tokId].score;
        if Exceeds(x, s) {
          s, id, at := Fin(x), tokId, k;
        }
      }
    }
  }

  // The first of the best-scoring byte tokens of the last character, or the hard unknown.
  method FallBack(t: Tokenizer, text: string, ghost best: seq<real>, dpj: Score, end: nat)
    returns (s: Score, b: BackPtr)
    requires Indexed(t) && |best| == end && 0 < end <= |text| && dpj == Fin(best[end - 1])
    requires !SomeTokenEndsAt(t, text, end)
    ensures b.start == end - 1 && FirstBestFallback(t, text, Piece(end - 1, end, b.id))
    ensures s == Fin(best[end - 1] + Weight(t, text, Piece(end - 1, end, b.id)))
  {
    var j := end - 1;
    var id;
    ghost var at;
    var bytes := Utf8(text[j]);
    s, id, at := ScanBytes(t, bytes, dpj.value);
    b := BackPtr(j, id);
    if s.Fin? {
      FirstBestByteWins(t, text, end, at);
    } else {
      s := Fin(dpj.value - 100.0);
      NoByteToken(t, text, end);
    }
  }

  ghost predicate FirstBestFallback(t: Tokenizer, text: string, p: Piece)
    requires Indexed(t)
  {
    && Falls(t, text, p)
    && forall q | Falls(t, text, q) && q.end == p.end ::
         && Weight(t, text, q) <= Weight(t, text, p)
         && (Weight(t, text, q) == Weight(t, text, p) ==> !Before(t, text, q, p))
  }

  lemma NoByteToken(t: Tokenizer, text: string, end: nat)
    requires Indexed(t) && 0 < end <= |text| && !SomeTokenEndsAt(t, text, end)
    requires !HasByteToken(t, text[end - 1])
    ensures var p := Piece(end - 1, end, t.unkId); FirstBestFallback(t, text, p) && Weight(t, text, p) == -100.0
  {
    assert forall q: Piece | q.end == end :: !Matches(t, text, q);
  }

  lemma FirstBestByteWins(t: Tokenizer, text: string, end: nat, at: nat)
    requires Indexed(t) && 0 < end <= |text| && !SomeTokenEndsAt(t, text, end)
    requires BestByte(t, Utf8(text[end - 1]), |Utf8(text[end - 1])|, at)
    ensures var p := Piece(end - 1, end, t.byByte[Utf8(text[end - 1])[at]]);
            FirstBestFallback(t, text, p) && Weight(t, text, p) == ByteScore(t, Utf8(text[end - 1])[at])
  {
    var c := text[end - 1];
    var p := Piece(end - 1, end, t.byByte[Utf8(c)[at]]);
    assert HasByteToken(t, c) && IsByteId(t, c, p.id) && !Matches(t, text, p);
    forall q | Falls(t, text, q) && q.end == end
      ensures Weight(t, text, q) <= Weight(t, text, p)
      ensures Weight(t, text, q) == Weight(t, text, p) ==> !Before(t, text, q, p)
    {
      assert !Matches(t, text, q);
      var l := FirstByte(t, c, q.id, 0);
      assert FirstByte(t, c, p.id, 0) <= at;
      assert Weight(t, text, q) == ByteScore(t, Utf8(c)[l]);
    }
  }

  // When some token ends here, the scan has found the first best of all last steps.
  lemma ScanIsChosen(t: Tokenizer, text: string, best: seq<real>, end: nat, s: Score, b: BackPtr)
    requires Indexed(t) && |best| == end && 0 < end <= |text| && BestSeen(t, text, best, end, end, 0, s, b)
    ensures s.NegInf? ==> !SomeTokenEndsAt(t, text, end)
    ensures s.Fin? ==> b.start >= 0 && Chosen(t, text, best + [s.value], end, Piece(b.start, end, b.id))
  {
    assert forall q | Matches(t, text, q) && q.end == end :: SeenMatch(t, text, q, end, end, 0);
    if s.Fin? {
      var p := Piece(b.start, end, b.id);
      assert Matches(t, text, p);
      assert forall q | Allowed(t, text, q) && q.end == end :: Matches(t, text, q);
    }
  }

  // The scan may begin maxTokLen characters back: no token is longer.
  lemma WindowMissesNothing(t: Tokenizer, text: string, best: seq<real>, end: nat, lo: nat, b: BackPtr)
    requires Indexed(t) && |best| == end <= |text| && (lo == 0 || lo + t.maxTokLen <= end)
    ensures BestSeen(t, text, best, end, lo, 0, NegInf, b)
  {
    assert forall q | Matches(t, text, q) && q.end == end :: |t.vocab[q.id].token| == end - q.start;
  }

  // When none does, the first best of the fallback steps is the first best of all.
  lemma FallbackIsChosen(t: Tokenizer, text: string, best: seq<real>, end: nat, p: Piece)
    requires Indexed(t) && |best| == end && 0 < end <= |text| && !SomeTokenEndsAt(t, text, end)
    requires p.end == end && FirstBestFallback(t, text, p)
    ensures Chosen(t, text, best + [best[p.start] + Weight(t, text, p)], end, p)
  {
    assert forall q | Allowed(t, text, q) && q.end == end :: Falls(t, text, q) && q.start == end - 1;
  }

  // Fill the cell for position `end`.
  method FillCell(t: Tokenizer, text: string, dp: array<Score>, bp: array<BackPtr>, end: nat, ghost best: seq<real>)
    returns (ghost p: Piece)
    requires Indexed(t) && 0 < end <= |text| && dp.Length == bp.Length == |text| + 1
    requires |best| == end && forall i :: 0 <= i < end ==> dp[i] == Fin(best[i])
    requires dp[end] == NegInf
    modifies dp, bp
    ensures forall i :: 0 <= i <= |text| && i != end ==> dp[i] == old(dp[i]) && bp[i] == old(bp[i])
    ensures dp[end].Fin? && bp[end] == BackPtr(p.start, p.id)
    ensures Chosen(t, text, best + [dp[end].value], end, p)
  {
    var lo := if end - t.maxTokLen > 0 then end - t.maxTokLen else 0;
    WindowMissesNothing(t, text, best, end, lo, bp[end]);
    for j := lo to end
      invariant forall i :: 0 <= i <= |text| && i != end ==> dp[i] == old(dp[i]) && bp[i] == old(bp[i])
      invariant BestSeen(t, text, best, end, j, 0, dp[end], bp[end])
    {
      var s, b := ScanBucket(t, text, best, dp[j], end, j, dp[end], bp[end]);
      dp[end], bp[end] := s, b;
    }
    ScanIsChosen(t, text, best, end, dp[end], bp[end]);
    if dp[end].NegInf? {
      var s, b := FallBack(t, text, best, dp[end - 1], end);
      p := Piece(end - 1, end, b.id);
      FallbackIsChosen(t, text, best, end, p);
      dp[end], bp[end] := s, b;
    } else {
      p := Piece(bp[end].start, end, bp[end].id);
    }
  }

  lemma OneMoreSolved(t: Tokenizer, text: string, best: seq<real>, back: seq<Piece>, n: nat, v: real, p: Piece)
    requires Indexed(t) && Solved(t, text, best, back, n) && n < |text|
    requires Chosen(t, text, best + [v], n + 1, p)
    ensures Solved(t, text, best + [v], back + [p], n + 1)
  {
    forall e | 1 <= e <= n
      ensures Chosen(t, text, best + [v], e, (back + [p])[e])
    {
      assert Chosen(t, text, best, e, back[e]);
    }
  }

  /** The ids label, piece by piece, the segmentation that the tokenizer promises. */
  ghost predicate IsAnswer(t: Tokenizer, text: string, ids: seq<int>)
    requires Indexed(t)
  {
    exists path: seq<Piece> :: Canonical(t, text, path, |text|) && ids == Ids(path)
  }

  /** The search: fill the table left to right, walk the back pointers from the end, and
      reverse the ids collected on the way. */
  method Viterbi(t: Tokenizer, text: string) returns (ids: seq<int>)
    requires Indexed(t)
    ensures IsAnswer(t, text, ids)
  {
    var n := |text|;
    if n == 0 {
      assert Canonical(t, text, [], 0);
      return [];
    }
    var dp := new Score[n + 1](_ => NegInf);
    var bp := new BackPtr[n + 1](_ => BackPtr(-1, t.unkId));
    dp[0] := Fin(0.0);
    ghost var best: seq<real> := [0.0];
    ghost var back: seq<Piece> := [Piece(0, 0, 0)];
    for end := 1 to n + 1
      invariant Solved(t, text, best, back, end - 1)
      invariant forall i :: 0 <= i < end ==> dp[i] == Fin(best[i])
      invariant forall i :: end <= i <= n ==> dp[i] == NegInf
      invariant forall i :: 1 <= i < end ==> bp[i] == BackPtr(back[i].start, back[i].id)
    {
      ghost var p := FillCell(t, text, dp, bp, end, best);
      OneMoreSolved(t, text, best, back, end - 1, dp[end].value, p);
      best, back := best + [dp[end].value], back + [p];
    }
    ids := Backtrack(t, text, bp, n, best, back);
    TableGivesCanonical(t, text, best, back, n, n);
  }

  method Backtrack(t: Tokenizer, ghost text: string, bp: array<BackPtr>, n: nat, ghost best: seq<real>,
                   ghost back: seq<Piece>)
    returns (ids: seq<int>)
    requires Indexed(t) && Solved(t, text, best, back, n) && bp.Length == n + 1
    requires forall i :: 1 <= i <= n ==> bp[i] == BackPtr(back[i].start, back[i].id)
    ensures ids == Ids(PathTo(t, text, best, back, n, n))
  {
    ids := [];
    ghost var path := PathTo(t, text, best, back, n, n);
    var pos := n;
    while pos > 0
      invariant 0 <= pos <= n
      invariant Ids(path) == Ids(PathTo(t, text, best, back, n, pos)) + Reversed(ids)
    {
      var entry := bp[pos];
      assert Chosen(t, text, best, pos, back[pos]);
      var more := ids + [entry.id];
      assert Reversed(more) == [entry.id] + Reversed(ids);
      ids, pos := more, entry.start;
    }
    var inOrder := new int[|ids|](i requires 0 <= i < |ids| => ids[i]);
    assert inOrder[..] == ids;
    ReverseInPlace(inOrder);
    ids := inOrder[..];
  }

  function Reversed(s: seq<int>): (r: seq<int>)
    ensures |r| == |s| && forall i :: 0 <= i < |s| ==> r[i] == s[|s| - 1 - i]
  {
    seq(|s|, i requires 0 <= i < |s| => s[|s| - 1 - i])
  }

  method ReverseInPlace(ids: array<int>)
    modifies ids
    ensures ids[..] == Reversed(old(ids[..]))
  {
    var i, j := 0, ids.Length - 1;
    while i < j
      invariant 0 <= i && j == ids.Length - 1 - i && i <= j + 1
      invariant forall k :: 0 <= k < i ==>
                  ids[k] == old(ids[ids.Length - 1 - k]) && ids[ids.Length - 1 - k] == old(ids[k])
      invariant forall k :: i <= k <= j ==> ids[k] == old(ids[k])
    {
      ids[i], ids[j] := ids[j], ids[i];
      i, j := i + 1, j - 1;
    }
  }
}
