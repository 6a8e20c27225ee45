/** The source scores of the four-tier search (engine/search_four_tier.go): the merge of the
    branches, the boost of the core tier, and the lazy pass over the storage tier. Scores are
    real numbers; lower case is an arbitrary function on characters. */
module Scores {
  import opened Text
  import Words

  const CORE := "core"
  const GENERAL := "general"
  const DATA := "data"
  const STORAGE := "storage"

  /** tierVectorMultiplier. */
  function Multiplier(tier: string): real {
    if tier == CORE then 1.12
    else if tier == GENERAL then 1.0
    else if tier == DATA then 0.96
    else if tier == STORAGE then 0.90
    else 1.0
  }

  /** A similarity result, with the tier and the source its metadata name, if they do. */
  datatype Hit = Hit(id: string, source: Option<string>, tier: string, score: real)

  /** What one search branch returned; a legacy branch searched all tiers. */
  datatype Branch = Branch(tier: string, legacy: bool, failed: bool, hits: seq<Option<Hit>>)

  /** vectorResultSourceID. */
  function SourceId(h: Hit): string {
    if h.source.Some? && Trim(h.source.value) != "" then Trim(h.source.value) else h.id
  }

  function TierOf(b: Branch, h: Hit): string {
    if !b.legacy then b.tier else if h.tier == "" then GENERAL else h.tier
  }

  predicate Counts(b: Branch, hit: Option<Hit>, includeStorage: bool) {
    hit.Some? && !(b.legacy && TierOf(b, hit.value) == STORAGE && !includeStorage)
  }

  // --------------------------------------------------------------- offers and the best

  /** A score offered for a source. */
  datatype Offer = Offer(sid: string, score: real)

  function OfferOf(tier: string, h: Hit): Offer {
    Offer(SourceId(h), h.score * Multiplier(tier))
  }

  ghost function Offers(b: Branch, includeStorage: bool): set<Offer> {
    if b.failed then {}
    else set hit | hit in b.hits && Counts(b, hit, includeStorage) :: OfferOf(TierOf(b, hit.value), hit.value)
  }

  ghost function AllOffers(branches: seq<Branch>, includeStorage: bool): set<Offer> {
    if branches == [] then {}
    else AllOffers(branches[..|branches| - 1], includeStorage) + Offers(branches[|branches| - 1], includeStorage)
  }

  ghost predicate Has(P: set<Offer>, sid: string) {
    exists w :: Offer(sid, w) in P
  }

  ghost predicate IsTop(P: set<Offer>, sid: string, w: real) {
    Offer(sid, w) in P && forall v :: Offer(sid, v) in P ==> v <= w
  }

  /** Each source offered for has the maximum of what is offered for it, and no other has a score. */
  ghost predicate IsBest(P: set<Offer>, m: map<string, real>) {
    && (forall sid :: sid in m <==> Has(P, sid))
    && (forall sid :: sid in m ==> IsTop(P, sid, m[sid]))
  }

  lemma BestIsUnique(P: set<Offer>, m: map<string, real>, m': map<string, real>)
    requires IsBest(P, m) && IsBest(P, m')
    ensures m == m'
  {
    forall sid | sid in m
      ensures sid in m' && m[sid] == m'[sid]
    {
      assert IsTop(P, sid, m[sid]) && IsTop(P, sid, m'[sid]);
    }
  }

  // One more offer, taken if it is the first for its source or better than the others.
  lemma OneMoreOffer(P: set<Offer>, m: map<string, real>, sid: string, w: real)
    requires IsBest(P, m)
    ensures IsBest(P + {Offer(sid, w)}, if sid !in m || w > m[sid] then m[sid := w] else m)
  {
    var m' := if sid !in m || w > m[sid] then m[sid := w] else m;
    var Q := P + {Offer(sid, w)};
    forall s
      ensures s in m' <==> Has(Q, s)
    {
      assert s in m ==> Has(P, s);
      if v :| Offer(s, v) in P {
        assert Offer(s, v) in Q;
      }
      assert Offer(sid, w) in Q;
    }
    forall s | s in m'
      ensures IsTop(Q, s, m'[s])
    {
      assert s in m ==> IsTop(P, s, m[s]);
      assert s !in m ==> !Has(P, s);
    }
  }

  lemma {:induction false} InSomeBranch(branches: seq<Branch>, includeStorage: bool, o: Offer)
    ensures o in AllOffers(branches, includeStorage) <==> exists b :: b in branches && o in Offers(b, includeStorage)
  {
    if branches == [] {
    } else {
      var front, last := branches[..|branches| - 1], branches[|branches| - 1];
      InSomeBranch(front, includeStorage, o);
      assert branches == front + [last];
    }
  }

  /** The scores do not depend on the order in which the branches are absorbed, nor on the
      order of the hits, which are sets in them. */
  lemma OrderOfBranchesIsIrrelevant(branches: seq<Branch>, branches': seq<Branch>, includeStorage: bool,
                                    m: map<string, real>, m': map<string, real>)
    requires multiset(branches) == multiset(branches')
    requires IsBest(AllOffers(branches, includeStorage), m) && IsBest(AllOffers(branches', includeStorage), m')
    ensures m == m'
  {
    forall o
      ensures o in AllOffers(branches, includeStorage) <==> o in AllOffers(branches', includeStorage)
    {
      InSomeBranch(branches, includeStorage, o);
      InSomeBranch(branches', includeStorage, o);
      assert forall b :: b in branches <==> b in multiset(branches);
      assert forall b :: b in branches' <==> b in multiset(branches');
    }
    assert AllOffers(branches, includeStorage) == AllOffers(branches', includeStorage);
    BestIsUnique(AllOffers(branches, includeStorage), m, m');
  }

  // --------------------------------------------------------------------- the merge

  datatype Merged = Merged(score: real, tier: string, hit: Hit)

  function ScoresOf(merged: map<string, Merged>): map<string, real> {
    map sid | sid in merged :: merged[sid].score
  }

  // A hit enters the merged map if it is the first of its source or better.
  method Enter(merged: map<string, Merged>, tier: string, hit: Hit, ghost P: set<Offer>)
      returns (merged': map<string, Merged>)
    requires IsBest(P, ScoresOf(merged))
    ensures IsBest(P + {OfferOf(tier, hit)}, ScoresOf(merged'))
    ensures SourceId(hit) in merged' && forall sid :: sid in merged && sid != SourceId(hit) ==>
              sid in merged' && merged'[sid] == merged[sid]
    ensures merged'.Keys == merged.Keys + {SourceId(hit)}
  {
    var sid, w := SourceId(hit), hit.score * Multiplier(tier);
    OneMoreOffer(P, ScoresOf(merged), sid, w);
    merged' := merged;
    if sid !in merged || w > merged[sid].score {
      merged' := merged[sid := Merged(w, tier, hit)];
    }
    var before := ScoresOf(merged);
    assert ScoresOf(merged') == if sid !in before || w > before[sid] then before[sid := w] else before;
  }

  ghost function OffersUpTo(b: Branch, includeStorage: bool, n: nat): set<Offer>
    requires n <= |b.hits|
  {
    Offers(b.(hits := b.hits[..n]), includeStorage)
  }

  lemma OffersGrow(b: Branch, includeStorage: bool, n: nat)
    requires n < |b.hits| && !b.failed
    ensures OffersUpTo(b, includeStorage, n + 1) == OffersUpTo(b, includeStorage, n)
              + if Counts(b, b.hits[n], includeStorage)
                then {OfferOf(TierOf(b, b.hits[n].value), b.hits[n].value)} else {}
  {
    var c, d := b.(hits := b.hits[..n]), b.(hits := b.hits[..n + 1]);
    assert d.hits == c.hits + [b.hits[n]];
    forall o
      ensures o in Offers(d, includeStorage) <==> (o in Offers(c, includeStorage)
               || (Counts(b, b.hits[n], includeStorage) && o == OfferOf(TierOf(b, b.hits[n].value), b.hits[n].value)))
    {
      if Counts(b, b.hits[n], includeStorage) {
        assert b.hits[n] in d.hits && Counts(d, b.hits[n], includeStorage);
      }
      if hit :| hit in c.hits && Counts(c, hit, includeStorage) && o == OfferOf(TierOf(c, hit.value), hit.value) {
        assert hit in d.hits && Counts(d, hit, includeStorage);
      }
    }
  }

  /** absorb. */
  method Absorb(merged: map<string, Merged>, b: Branch, includeStorage: bool, ghost P: set<Offer>)
      returns (merged': map<string, Merged>)
    requires IsBest(P, ScoresOf(merged))
    ensures IsBest(P + Offers(b, includeStorage), ScoresOf(merged'))
  {
    merged' := merged;
    if b.failed {
      assert P + Offers(b, includeStorage) == P;
      return;
    }
    ghost var U: set<Offer> := {};
    assert P + U == P && OffersUpTo(b, includeStorage, 0) == U;
    for i := 0 to |b.hits|
      invariant U == OffersUpTo(b, includeStorage, i) && IsBest(P + U, ScoresOf(merged'))
    {
      OffersGrow(b, includeStorage, i);
      if b.hits[i].Some? {
        var hit := b.hits[i].value;
        var tier := b.tier;
        var skip := false;
        if b.legacy {
          tier := if hit.tier == "" then GENERAL else hit.tier;
          skip := tier == STORAGE && !includeStorage;
        }
        if !skip {
          merged' := Enter(merged', tier, hit, P + U);
          UnionOneMore(P, U, OfferOf(tier, hit));
          U := U + {OfferOf(tier, hit)};
        }
      }
    }
    assert b.(hits := b.hits[..|b.hits|]) == b;
  }

  lemma UnionOneMore(P: set<Offer>, U: set<Offer>, o: Offer)
    ensures (P + U) + {o} == P + (U + {o})
  {
  }

  method Merge(branches: seq<Branch>, includeStorage: bool) returns (merged: map<string, Merged>)
    ensures IsBest(AllOffers(branches, includeStorage), ScoresOf(merged))
  {
    merged := map[];
    for i := 0 to |branches|
      invariant IsBest(AllOffers(branches[..i], includeStorage), ScoresOf(merged))
    {
      merged := Absorb(merged, branches[i], includeStorage, AllOffers(branches[..i], includeStorage));
      assert branches[..i + 1][..i] == branches[..i];
    }
    assert branches[..|branches|] == branches;
  }

  // ------------------------------------------------------------------- the core tier

  // strings.Contains.
  predicate Contains(s: string, part: string) {
    exists i :: 0 <= i <= |s| && part <= s[i..]
  }

  // A word of one octet never counts.
  predicate IsFound(content: string, word: string) {
    ByteLength(word) >= 2 && Contains(content, word)
  }

  function CountFound(content: string, words: seq<string>): (n: nat)
    ensures n <= |words|
  {
    if words == [] then 0
    else CountFound(content, words[..|words| - 1]) + if IsFound(content, words[|words| - 1]) then 1 else 0
  }

  // From a half, for none found, to 0.9 for all of them.
  function Share(found: nat, all: nat): real
    requires all > 0
  {
    0.5 + 0.4 * found as real / all as real
  }

  function Relevance(query: string, content: string, lower: char -> char): real {
    var q, c := Lower(Trim(query), lower), Lower(content, lower);
    if q == "" then 0.55
    else if Contains(c, q) then 0.95
    else if Words.WordsOf(q) == [] then 0.55
    else Share(CountFound(c, Words.WordsOf(q)), |Words.WordsOf(q)|)
  }

  method CountHits(content: string, parts: seq<string>) returns (hits: nat)
    ensures hits == CountFound(content, parts)
  {
    hits := 0;
    for i := 0 to |parts|
      invariant hits == CountFound(content, parts[..i])
    {
      assert parts[..i + 1][..i] == parts[..i];
      if ByteLength(parts[i]) < 2 {
        continue;
      }
      if Contains(content, parts[i]) {
        hits := hits + 1;
      }
    }
    assert parts[..|parts|] == parts;
  }

  /** coreTextRelevanceScore. */
  method CoreTextRelevanceScore(query: string, content: string, lower: char -> char) returns (score: real)
    ensures score == Relevance(query, content, lower)
  {
    var q, c := Lower(Trim(query), lower), Lower(content, lower);
    if q == "" {
      return 0.55;
    }
    if Contains(c, q) {
      return 0.95;
    }
    var parts := Words.SplitWords(q);
    var hits := CountHits(c, parts);
    if |parts| == 0 {
      return 0.55;
    }
    return Share(hits, |parts|);
  }

  /** The score lies between a half and 0.95, which only the whole query in the content gets. */
  lemma RelevanceBounds(query: string, content: string, lower: char -> char)
    ensures 0.5 <= Relevance(query, content, lower) <= 0.95
    ensures Relevance(query, content, lower) == 0.95
       <==> Trim(query) != "" && Contains(Lower(content, lower), Lower(Trim(query), lower))
  {
    var q, c := Lower(Trim(query), lower), Lower(content, lower);
    assert |q| == |Trim(query)|;
    if Words.WordsOf(q) != [] {
      ShareBounds(CountFound(c, Words.WordsOf(q)), |Words.WordsOf(q)|);
    }
  }

  lemma ShareBounds(found: nat, all: nat)
    requires found <= all && all > 0
    ensures 0.5 <= Share(found, all) <= 0.9
  {
    var n, m := found, all;
    var share := 0.4 * n as real / m as real;
    assert share * m as real == 0.4 * n as real;
    PositiveFactor(share, m as real);
    assert (0.4 - share) * m as real == 0.4 * (m - n) as real;
    PositiveFactor(0.4 - share, m as real);
  }

  lemma PositiveFactor(x: real, m: real)
    requires x * m >= 0.0 && m > 0.0
    ensures x >= 0.0
  {
  }

  datatype CoreRow = CoreRow(id: string, content: string)

  function CoreOffer(query: string, row: CoreRow, lower: char -> char): Offer {
    Offer(row.id, Relevance(query, row.content, lower) * Multiplier(CORE))
  }

  ghost function CoreOffers(query: string, rows: seq<Option<CoreRow>>, lower: char -> char): set<Offer> {
    set row | row in rows && row.Some? :: CoreOffer(query, row.value, lower)
  }

  lemma CoreOffersGrow(query: string, rows: seq<Option<CoreRow>>, lower: char -> char, n: nat)
    requires n < |rows|
    ensures CoreOffers(query, rows[..n + 1], lower) == CoreOffers(query, rows[..n], lower)
              + if rows[n].Some? then {CoreOffer(query, rows[n].value, lower)} else {}
  {
    assert rows[..n + 1] == rows[..n] + [rows[n]];
  }

  /** The boost of the core rows. */
  method BoostCore(scores: map<string, real>, query: string, rows: seq<Option<CoreRow>>, lower: char -> char,
                   ghost P: set<Offer>)
      returns (scores': map<string, real>)
    requires IsBest(P, scores)
    ensures IsBest(P + CoreOffers(query, rows, lower), scores')
  {
    scores' := scores;
    ghost var U: set<Offer> := {};
    assert P + U == P && CoreOffers(query, rows[..0], lower) == U;
    for i := 0 to |rows|
      invariant U == CoreOffers(query, rows[..i], lower) && IsBest(P + U, scores')
    {
      CoreOffersGrow(query, rows, lower, i);
      if rows[i].Some? {
        scores' := Boost(scores', query, rows[i].value, lower, P + U);
        UnionOneMore(P, U, CoreOffer(query, rows[i].value, lower));
        U := U + {CoreOffer(query, rows[i].value, lower)};
      }
    }
    assert rows[..|rows|] == rows;
  }

  method Boost(scores: map<string, real>, query: string, row: CoreRow, lower: char -> char, ghost P: set<Offer>)
      returns (scores': map<string, real>)
    requires IsBest(P, scores)
    ensures IsBest(P + {CoreOffer(query, row, lower)}, scores')
  {
    var boost := CoreTextRelevanceScore(query, row.content, lower);
    RelevanceBounds(query, row.content, lower);
    var prev := if row.id in scores then scores[row.id] else 0.0;
    var mergedScore := boost * Multiplier(CORE);
    OneMoreOffer(P, scores, row.id, mergedScore);
    scores' := if mergedScore > prev then scores[row.id := mergedScore] else scores;
  }

  // -------------------------------------------------------------- the storage tier

  method MaxScore(scores: map<string, real>) returns (top: real)
    ensures top >= 0.0 && forall sid :: sid in scores ==> scores[sid] <= top
    ensures top == 0.0 || exists sid :: sid in scores && scores[sid] == top
  {
    top := 0.0;
    var rest := scores.Keys;
    while rest != {}
      invariant rest <= scores.Keys && top >= 0.0
      invariant forall sid :: sid in scores && sid !in rest ==> scores[sid] <= top
      invariant top == 0.0 || exists sid :: sid in scores && scores[sid] == top
      decreases |rest|
    {
      var sid :| sid in rest;
      if scores[sid] > top {
        top := scores[sid];
      }
      rest := rest - {sid};
    }
  }

  ghost function StorageOffers(hits: seq<Option<Hit>>): set<Offer> {
    Offers(Branch(STORAGE, false, false, hits), true)
  }

  /** What the pass over the storage tier leaves: a source with a storage hit has the best of
      the vector offers V and the storage offers S alone, whatever the core offers C. */
  ghost predicate Overwritten(V: set<Offer>, C: set<Offer>, S: set<Offer>, scores: map<string, real>) {
    && (forall sid :: sid in scores <==> Has(V + C, sid) || Has(S, sid))
    && (forall sid :: sid in scores ==> IsTop(if Has(S, sid) then V + S else V + C, sid, scores[sid]))
  }

  // The sources of the offers S have the best scores, the others what they had.
  ghost predicate Passed(S: set<Offer>, best: map<string, real>, scores: map<string, real>,
                         scores': map<string, real>) {
    && (forall sid :: sid in scores' <==> sid in scores || Has(S, sid))
    && (forall sid :: sid in scores' ==>
          if Has(S, sid) then sid in best && scores'[sid] == best[sid]
          else sid in scores && scores'[sid] == scores[sid])
  }

  lemma PassOneMore(S: set<Offer>, o: Offer, best: map<string, real>, best': map<string, real>,
                    scores: map<string, real>, scores': map<string, real>)
    requires Passed(S, best, scores, scores') && o.sid in best'
    requires forall sid :: sid in best && sid != o.sid ==> sid in best' && best'[sid] == best[sid]
    ensures Passed(S + {o}, best', scores, scores'[o.sid := best'[o.sid]])
  {
    OneOfferMore(S, o);
  }

  method StoragePass(merged: map<string, Merged>, scores: map<string, real>, hits: seq<Option<Hit>>,
                     ghost V: set<Offer>, ghost C: set<Offer>)
      returns (scores': map<string, real>)
    requires IsBest(V, ScoresOf(merged)) && IsBest(V + C, scores)
    ensures Overwritten(V, C, StorageOffers(hits), scores')
  {
    var merged' := merged;
    scores' := scores;
    ghost var b := Branch(STORAGE, false, false, hits);
    ghost var S: set<Offer> := OffersUpTo(b, true, 0);
    assert S == {} && V + S == V;
    for i := 0 to |hits|
      invariant S == OffersUpTo(b, true, i) && IsBest(V + S, ScoresOf(merged'))
      invariant Passed(S, ScoresOf(merged'), scores, scores')
    {
      OffersGrow(b, true, i);
      if hits[i].Some? {
        var sid := SourceId(hits[i].value);
        var before := merged';
        merged' := Enter(before, STORAGE, hits[i].value, V + S);
        ghost var o := OfferOf(STORAGE, hits[i].value);
        PassOneMore(S, o, ScoresOf(before), ScoresOf(merged'), scores, scores');
        scores' := scores'[sid := merged'[sid].score];
        UnionOneMore(V, S, o);
        S := S + {o};
      }
    }
    assert b.(hits := hits[..|hits|]) == b;
    PassOverwrites(V, C, S, ScoresOf(merged'), scores, scores');
  }

  lemma PassOverwrites(V: set<Offer>, C: set<Offer>, S: set<Offer>, best: map<string, real>,
                       scores: map<string, real>, scores': map<string, real>)
    requires IsBest(V + S, best) && IsBest(V + C, scores) && Passed(S, best, scores, scores')
    ensures Overwritten(V, C, S, scores')
  {
    forall sid | sid in scores'
      ensures IsTop(if Has(S, sid) then V + S else V + C, sid, scores'[sid])
    {
      if Has(S, sid) {
        assert IsTop(V + S, sid, best[sid]);
      }
    }
  }

  lemma OneOfferMore(S: set<Offer>, o: Offer)
    ensures forall sid :: Has(S + {o}, sid) <==> Has(S, sid) || sid == o.sid
  {
    forall sid
      ensures Has(S + {o}, sid) <==> Has(S, sid) || sid == o.sid
    {
      assert o == Offer(o.sid, o.score);
      if Has(S, sid) {
        var w :| Offer(sid, w) in S;
        assert Offer(sid, w) in S + {o};
      } else if Has(S + {o}, sid) {
        var w :| Offer(sid, w) in S + {o};
        assert Offer(sid, w) !in S;
      }
    }
  }

  // ------------------------------------------------------------------ all together

  datatype Options = Options(includeStorage: bool, autoStorage: bool, weak: real)

  function WeakThreshold(opts: Options): real {
    if opts.weak <= 0.0 then 0.35 else opts.weak
  }

  // Everything found so far scores below the threshold.
  ghost predicate AllWeak(P: set<Offer>, threshold: real) {
    forall o :: o in P ==> o.score < threshold
  }

  lemma CoreIsNotWeak(query: string, rows: seq<Option<CoreRow>>, lower: char -> char, threshold: real)
    requires threshold <= 0.56 && AllWeak(CoreOffers(query, rows, lower), threshold)
    ensures CoreOffers(query, rows, lower) == {}
  {
    forall row | row in rows && row.Some?
      ensures false
    {
      assert CoreOffer(query, row.value, lower) in CoreOffers(query, rows, lower);
      RelevanceBounds(query, row.value.content, lower);
    }
  }

  lemma NothingOverwritten(V: set<Offer>, S: set<Offer>, scores: map<string, real>)
    requires Overwritten(V, {}, S, scores)
    ensures IsBest(V + S, scores)
  {
    assert V + {} == V;
    forall sid
      ensures sid in scores <==> Has(V + S, sid)
    {
      if w :| Offer(sid, w) in V {
        assert Offer(sid, w) in V + S;
      } else if w :| Offer(sid, w) in S {
        assert Offer(sid, w) in V + S;
      }
    }
    forall sid | sid in scores && !Has(S, sid)
      ensures IsTop(V + S, sid, scores[sid])
    {
    }
  }

  /** retrieveContextFourTier up to the ranking. The storage tier is searched late exactly when
      that is asked for and everything else is weak. The scores are the best of all offers,
      of the late search as well, as long as the threshold for weak is at most 0.56. */
  method RetrieveScores(query: string, lower: char -> char, branches: seq<Branch>, rows: seq<Option<CoreRow>>,
                        opts: Options, late: Option<seq<Option<Hit>>>) returns (scores: map<string, real>, lazy: bool)
    ensures var V, C := AllOffers(branches, opts.includeStorage), CoreOffers(query, rows, lower);
            var S := if lazy && late.Some? then StorageOffers(late.value) else {};
            && (lazy <==> opts.autoStorage && !opts.includeStorage && AllWeak(V + C, WeakThreshold(opts)))
            && Overwritten(V, C, S, scores)
            && (!lazy || WeakThreshold(opts) <= 0.56 ==> IsBest(V + C + S, scores))
  {
    ghost var V, C := AllOffers(branches, opts.includeStorage), CoreOffers(query, rows, lower);
    var merged := Merge(branches, opts.includeStorage);
    scores := BoostCore(ScoresOf(merged), query, rows, lower, V);
    var maxVec := MaxScore(scores);
    MaxIsWeak(V + C, scores, maxVec, WeakThreshold(opts));
    lazy := opts.autoStorage && !opts.includeStorage && maxVec < WeakThreshold(opts);
    if lazy && late.Some? {
      scores := StoragePass(merged, scores, late.value, V, C);
      if WeakThreshold(opts) <= 0.56 {
        CoreIsNotWeak(query, rows, lower, WeakThreshold(opts));
        assert V + C + StorageOffers(late.value) == V + StorageOffers(late.value);
        NothingOverwritten(V, StorageOffers(late.value), scores);
      }
    } else {
      assert V + C + {} == V + C;
    }
  }

  lemma MaxIsWeak(P: set<Offer>, scores: map<string, real>, top: real, threshold: real)
    requires IsBest(P, scores) && top >= 0.0 && threshold > 0.0
    requires forall sid :: sid in scores ==> scores[sid] <= top
    requires top == 0.0 || exists sid :: sid in scores && scores[sid] == top
    ensures top < threshold <==> AllWeak(P, threshold)
  {
    if top < threshold {
      forall o | o in P
        ensures o.score < threshold
      {
        assert o == Offer(o.sid, o.score) && Has(P, o.sid) && IsTop(P, o.sid, scores[o.sid]);
      }
    } else {
      var sid :| sid in scores && scores[sid] == top;
      assert IsTop(P, sid, top) && Offer(sid, top) in P && Offer(sid, top).score == top;
    }
  }

  ghost predicate LateSearchIsHarmless(query: string, rows: seq<Option<CoreRow>>, lower: char -> char,
                                       V: set<Offer>, S: set<Offer>, scores: map<string, real>, threshold: real) {
    var C := CoreOffers(query, rows, lower);
    AllWeak(V + C, threshold) && Overwritten(V, C, S, scores) ==> IsBest(V + C + S, scores)
  }

  /** The bound on the threshold is exact: above it a core row that shares no word with the
      query counts as weak, and a late storage hit for it lowers its score. */
  lemma LateSearchIsHarmlessExactly(threshold: real)
    ensures threshold <= 0.56
       <==> forall query, rows, lower, V, S, scores :: LateSearchIsHarmless(query, rows, lower, V, S, scores, threshold)
  {
    if threshold <= 0.56 {
      forall query, rows, lower, V, S, scores
        ensures LateSearchIsHarmless(query, rows, lower, V, S, scores, threshold)
      {
        var C := CoreOffers(query, rows, lower);
        if AllWeak(V + C, threshold) && Overwritten(V, C, S, scores) {
          CoreIsNotWeak(query, rows, lower, threshold);
          assert V + C + S == V + S;
          NothingOverwritten(V, S, scores);
        }
      }
    } else {
      LateSearchLowers(threshold);
    }
  }

  // A word that is not in the content.
  lemma NoWordInCommon()
    ensures Relevance([MARKER], "", Same) == 0.5
  {
    var q := Lower(Trim([MARKER]), Same);
    MarkerIsNoSpace();
    assert Trim([MARKER]) == [MARKER] && q == [MARKER];
    Words.WordsAfterWord([MARKER], []);
    assert [MARKER] + [] == [MARKER] && Words.WordsOf([]) == [];
    assert Words.WordsOf(q) == [[MARKER]];
    assert Lower("", Same) == "" && !Contains("", q);
    assert !IsFound("", [MARKER]);
    assert CountFound("", [[MARKER]]) == 0;
  }

  lemma LateSearchLowers(threshold: real)
    requires threshold > 0.56
    ensures !LateSearchIsHarmless([MARKER], [Some(CoreRow("id", ""))], Same, {}, {Offer("id", 0.45)},
                                  map["id" := 0.45], threshold)
  {
    var rows := [Some(CoreRow("id", ""))];
    NoWordInCommon();
    var C := CoreOffers([MARKER], rows, Same);
    assert rows[0] in rows && C == {Offer("id", 0.56)};
    assert {} + C == C;
    var S: set<Offer> := {Offer("id", 0.45)};
    assert Offer("id", 0.45) in S && Offer("id", 0.56) in C;
    var V: set<Offer> := {};
    assert V + C == C && V + S == S && V + C + S == C + S;
    assert Has(C, "id") && Has(S, "id") && IsTop(V + S, "id", 0.45);
    assert Offer("id", 0.56) in C + S && !IsTop(C + S, "id", 0.45);
    assert Overwritten(V, C, S, map["id" := 0.45]);
  }

  // ------------------------------------------------------ what the scores are for a caller

  /** The tiers and what they multiply a score by. */
  lemma MultipliersAre(tier: string)
    ensures Multiplier("core") == 1.12 && Multiplier("general") == 1.0 && Multiplier("data") == 0.96
    ensures Multiplier("storage") == 0.90
    ensures tier !in {"core", "general", "data", "storage"} ==> Multiplier(tier) == 1.0
  {
  }

  /** The source a hit counts for: the one it names, trimmed, or its own id. */
  lemma SourceIdMeans(h: Hit)
    ensures h.source.None? ==> SourceId(h) == h.id
    ensures h.source.Some? && Trim(h.source.value) == "" ==> SourceId(h) == h.id
    ensures h.source.Some? && Trim(h.source.value) != "" ==> SourceId(h) == Trim(h.source.value)
  {
  }

  /** What a branch offers: each of its hits, at the score times the multiplier of the tier, which
      for an unsorted search is the hit's own, general if it has none; of an unsorted search the
      storage hits do not count unless storage is asked for, and a failed search offers nothing. */
  lemma HitsAreOffered(b: Branch, includeStorage: bool, h: Hit, tier: string, o: Offer)
    requires Some(h) in b.hits && tier == if b.legacy then (if h.tier == "" then "general" else h.tier) else b.tier
    requires o.sid == SourceId(h) && o.score == h.score * Multiplier(tier)
    ensures b.failed ==> Offers(b, includeStorage) == {}
    ensures !b.failed && !(b.legacy && tier == "storage" && !includeStorage) ==> o in Offers(b, includeStorage)
  {
    var hit := Some(h);
    assert hit in b.hits && hit.value == h && TierOf(b, h) == tier;
    if !b.failed && !(b.legacy && tier == "storage" && !includeStorage) {
      assert Counts(b, hit, includeStorage) && OfferOf(TierOf(b, hit.value), hit.value) == o;
    }
  }

  /** And it offers nothing else. */
  lemma OffersAreHits(b: Branch, includeStorage: bool, o: Offer) returns (h: Hit)
    requires o in Offers(b, includeStorage)
    ensures var tier := if b.legacy then (if h.tier == "" then "general" else h.tier) else b.tier;
            && !b.failed && Some(h) in b.hits && !(b.legacy && tier == "storage" && !includeStorage)
            && o == Offer(SourceId(h), h.score * Multiplier(tier))
  {
    var hit :| hit in b.hits && Counts(b, hit, includeStorage) && o == OfferOf(TierOf(b, hit.value), hit.value);
    h := hit.value;
    assert hit == Some(h);
  }

  // The part stands somewhere in s.
  ghost predicate StandsIn(part: string, s: string) {
    exists k, l :: 0 <= k <= l <= |s| && s[k..l] == part
  }

  lemma ContainsMeans(s: string, part: string)
    ensures Contains(s, part) <==> StandsIn(part, s)
  {
    if i :| 0 <= i <= |s| && part <= s[i..] {
      assert s[i..i + |part|] == part;
    }
    if k, l :| 0 <= k <= l <= |s| && s[k..l] == part {
      assert part <= s[k..];
    }
  }

  // The words that count, by their places: two octets or more, and found in the content.
  ghost function Places(content: string, words: seq<string>): set<nat> {
    set i: nat | i < |words| && ByteLength(words[i]) >= 2 && StandsIn(words[i], content)
  }

  lemma {:induction false} CountIsPlaces(content: string, words: seq<string>)
    ensures CountFound(content, words) == |Places(content, words)|
  {
    if words == [] {
      assert Places(content, words) == {};
    } else {
      var front, n := words[..|words| - 1], |words| - 1;
      CountIsPlaces(content, front);
      ContainsMeans(content, words[n]);
      OnePlaceMore(content, front, words, n);
    }
  }

  lemma OnePlaceMore(content: string, front: seq<string>, words: seq<string>, n: nat)
    requires |words| == n + 1 && front == words[..n]
    ensures var counts := ByteLength(words[n]) >= 2 && StandsIn(words[n], content);
            |Places(content, words)| == |Places(content, front)| + if counts then 1 else 0
  {
    forall i: nat
      ensures i in Places(content, words) <==> i in Places(content, front) || (i == n && n in Places(content, words))
    {
      assert i < n ==> front[i] == words[i];
    }
    if n in Places(content, words) {
      assert Places(content, words) == Places(content, front) + {n};
    } else {
      assert Places(content, words) == Places(content, front);
    }
  }

  /** The relevance: 0.55 if the query is blank, 0.95 if the content holds all of it, and otherwise
      one half plus four tenths of the share of the query's words that are found. */
  lemma RelevanceMeans(query: string, content: string, lower: char -> char)
    ensures var q, c := Lower(Trim(query), lower), Lower(content, lower);
            var words, r := Words.WordsOf(q), Relevance(query, content, lower);
            if Trim(query) == "" then r == 0.55
            else if StandsIn(q, c) then r == 0.95
            else if words == [] then r == 0.55
            else r == 0.5 + 0.4 * |Places(c, words)| as real / |words| as real
  {
    var q, c := Lower(Trim(query), lower), Lower(content, lower);
    ContainsMeans(c, q);
    CountIsPlaces(c, Words.WordsOf(q));
  }

  lemma ShareOfAll(n: nat)
    requires n > 0
    ensures Share(n, n) == 0.9 && Share(0, n) == 0.5
  {
    var x := n as real;
    assert 0.4 * x / x == 0.4;
  }

  lemma {:induction false} AllAreCounted(content: string, words: seq<string>)
    ensures (forall w :: w in words ==> IsFound(content, w)) ==> CountFound(content, words) == |words|
    ensures (forall w :: w in words ==> !IsFound(content, w)) ==> CountFound(content, words) == 0
  {
    if words == [] {
    } else {
      AllAreCounted(content, words[..|words| - 1]);
    }
  }

  /** A content that holds every word of the query, none of them a single octet, scores at least
      nine tenths, and one that holds none of them, nor the query itself, scores one half. */
  lemma AllWordsFound(query: string, content: string, lower: char -> char)
    requires Words.WordsOf(Lower(Trim(query), lower)) != []
    ensures (forall w :: w in Words.WordsOf(Lower(Trim(query), lower)) ==>
                           ByteLength(w) >= 2 && StandsIn(w, Lower(content, lower))) ==>
              Relevance(query, content, lower) >= 0.9
    ensures !StandsIn(Lower(Trim(query), lower), Lower(content, lower)) ==>
              (forall w :: w in Words.WordsOf(Lower(Trim(query), lower)) ==> !StandsIn(w, Lower(content, lower))) ==>
              Relevance(query, content, lower) == 0.5
  {
    var q, c := Lower(Trim(query), lower), Lower(content, lower);
    var words := Words.WordsOf(q);
    forall w
      ensures Contains(c, w) <==> StandsIn(w, c)
    {
      ContainsMeans(c, w);
    }
    AllAreCounted(c, words);
    ShareOfAll(|words|);
  }

  /** The threshold below which everything counts as weak. */
  lemma WeakThresholdMeans(opts: Options)
    ensures opts.weak > 0.0 ==> WeakThreshold(opts) == opts.weak
    ensures opts.weak <= 0.0 ==> WeakThreshold(opts) == 0.35
  {
  }

  /** What the core rows offer: each its relevance, times 1.12. */
  lemma CoreRowsAreOffered(query: string, rows: seq<Option<CoreRow>>, lower: char -> char, row: CoreRow)
    requires Some(row) in rows
    ensures Offer(row.id, Relevance(query, row.content, lower) * 1.12) in CoreOffers(query, rows, lower)
  {
    assert Some(row).value == row;
  }

  lemma CoreOffersAreRows(query: string, rows: seq<Option<CoreRow>>, lower: char -> char, o: Offer)
    returns (row: CoreRow)
    requires o in CoreOffers(query, rows, lower)
    ensures Some(row) in rows && o == Offer(row.id, Relevance(query, row.content, lower) * 1.12)
  {
    var r :| r in rows && r.Some? && o == CoreOffer(query, r.value, lower);
    row := r.value;
    assert r == Some(row);
  }
}
