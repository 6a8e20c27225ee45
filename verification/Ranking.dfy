/** The ranking of the search (hybridRankFromVectorScores, engine/search_four_tier.go, with
    engine/search_session_filter.go). The graph enters as the source ids of the neighbours
    reached, in the order they are met. */
module Ranking {
  import opened Lists
  import opened Text

  // A row of the store, and when it was created.
  datatype Point = Point(session: string, createdAt: int)

  type Store = map<string, Point>

  // Seven days, in nanoseconds.
  const WEEK: int := 604_800_000_000_000

  /** effectiveSearchSessionID. */
  function EffectiveSession(session: string): string {
    if Trim(session) == "" then "default" else Trim(session)
  }

  /** dataPointVisibleForSearch: rows without a session, and those of the query's session. */
  predicate Visible(p: Point, session: string) {
    p.session == "" || p.session == EffectiveSession(session)
  }

  predicate Shown(store: Store, session: string, id: string) {
    id in store && Visible(store[id], session)
  }

  datatype Item = Item(vector: real, graph: real)

  datatype Ranked = Ranked(id: string, score: real)

  // ------------------------------------------------------------------ what is ranked

  /** The sources with a score or a neighbour, as far as the session may see them. */
  ghost function Candidates(store: Store, session: string, scores: map<string, real>, met: seq<string>): set<string> {
    set id | id in store && Shown(store, session, id) && (id in scores || id in met)
  }

  /** 0.40 of the vector score, 0.30 of half a point per neighbour, 0.20 for the last week. */
  function FinalScore(store: Store, scores: map<string, real>, met: seq<string>, now: int, id: string): real
    requires id in store
  {
    (if id in scores then scores[id] else 0.0) * 0.40
    + (0.5 * multiset(met)[id] as real) * 0.30
    + (if now - store[id].createdAt < WEEK then 1.0 else 0.0) * 0.20
  }

  predicate Descending(items: seq<Ranked>) {
    forall i, j :: 0 <= i < j < |items| ==> items[i].score >= items[j].score
  }

  predicate DistinctIds(items: seq<Ranked>) {
    forall i, j :: 0 <= i < j < |items| ==> items[i].id != items[j].id
  }

  // ----------------------------------------------------------------------- sorting

  predicate NotWorse(a: Ranked, b: Ranked) {
    a.score >= b.score
  }

  // Sorts as sort.Slice does, which leaves the order of equal scores open.
  method SortDescending(items: seq<Ranked>) returns (sorted: seq<Ranked>)
    ensures multiset(sorted) == multiset(items) && Descending(sorted)
  {
    sorted := Sort(items, NotWorse);
    SortKeeps(items, NotWorse);
    SortSorts(items, NotWorse);
    SortedIsOrdered(sorted, NotWorse);
  }

  lemma SortedIsDistinct(items: seq<Ranked>, sorted: seq<Ranked>)
    requires multiset(sorted) == multiset(items) && DistinctIds(items)
    ensures DistinctIds(sorted)
  {
    PermutationIsDistinct(items, sorted);
    SameElements(items, sorted);
    forall i, j | 0 <= i < j < |sorted|
      ensures sorted[i].id != sorted[j].id
    {
      IdOfOne(items, sorted[i], sorted[j]);
    }
  }

  lemma IdOfOne(items: seq<Ranked>, x: Ranked, y: Ranked)
    requires DistinctIds(items) && x in items && y in items && x != y
    ensures x.id != y.id
  {
    var k :| 0 <= k < |items| && items[k] == x;
    var l :| 0 <= l < |items| && items[l] == y;
  }

  // ---------------------------------------------------------------------- the ranking

  // The items of the tracked sources, after the vector scores of `done` and the neighbours met.
  ghost predicate Tracked(store: Store, session: string, scores: map<string, real>, done: set<string>,
                          met: seq<string>, items: map<string, Item>) {
    && (forall id :: id in items <==> (id in done || id in met) && Shown(store, session, id))
    && (forall id :: id in items ==>
          && items[id].vector == (if id in done && id in scores then scores[id] else 0.0)
          && items[id].graph == 0.5 * multiset(met)[id] as real)
  }

  method TrackVectorScores(store: Store, session: string, scores: map<string, real>) returns (items: map<string, Item>)
    ensures Tracked(store, session, scores, scores.Keys, [], items)
  {
    items := map[];
    var rest := scores.Keys;
    ghost var done: set<string> := {};
    while rest != {}
      invariant done !! rest && done + rest == scores.Keys
      invariant Tracked(store, session, scores, done, [], items)
      decreases |rest|
    {
      var id :| id in rest;
      if id in store && Visible(store[id], session) {
        items := items[id := Item(scores[id], 0.0)];
      }
      rest, done := rest - {id}, done + {id};
    }
    assert done == scores.Keys;
  }

  method TrackNeighbours(store: Store, session: string, scores: map<string, real>, met: seq<string>,
                         items: map<string, Item>)
      returns (items': map<string, Item>)
    requires Tracked(store, session, scores, scores.Keys, [], items)
    ensures Tracked(store, session, scores, scores.Keys, met, items')
  {
    items' := items;
    for i := 0 to |met|
      invariant Tracked(store, session, scores, scores.Keys, met[..i], items')
    {
      var id := met[i];
      assert met[..i + 1] == met[..i] + [id];
      if id in items' {
        MetAgain(store, session, scores, met[..i], id, items');
      } else if Shown(store, session, id) {
        FirstMet(store, session, scores, met[..i], id, items');
        assert items'[id := Item(0.0, 0.0)][id := Item(0.0, 0.0 + 0.5)] == items'[id := Item(0.0, 0.5)];
      } else {
        HiddenMet(store, session, scores, met[..i], id, items');
      }
      if id !in items' && id in store && Visible(store[id], session) {
        items' := items'[id := Item(0.0, 0.0)];
      }
      if id in items' {
        items' := items'[id := items'[id].(graph := items'[id].graph + 0.5)];
      }
    }
    assert met[..|met|] == met;
  }

  lemma OneMoreTime(met: seq<string>, id: string)
    ensures forall x :: multiset(met + [id])[x] == multiset(met)[x] + if x == id then 1 else 0
    ensures forall x :: x in met + [id] <==> x in met || x == id
    ensures id in met <==> multiset(met)[id] > 0
  {
    assert id in met <==> id in multiset(met);
  }

  // A neighbour more is half a point more for its source, if that may be shown.
  lemma HiddenMet(store: Store, session: string, scores: map<string, real>, met: seq<string>, id: string,
                  items: map<string, Item>)
    requires Tracked(store, session, scores, scores.Keys, met, items) && !Shown(store, session, id)
    ensures Tracked(store, session, scores, scores.Keys, met + [id], items)
  {
    OneMoreTime(met, id);
  }

  lemma FirstMet(store: Store, session: string, scores: map<string, real>, met: seq<string>, id: string,
                 items: map<string, Item>)
    requires Tracked(store, session, scores, scores.Keys, met, items) && id !in items && Shown(store, session, id)
    ensures Tracked(store, session, scores, scores.Keys, met + [id], items[id := Item(0.0, 0.5)])
  {
    OneMoreTime(met, id);
  }

  lemma MetAgain(store: Store, session: string, scores: map<string, real>, met: seq<string>, id: string,
                 items: map<string, Item>)
    requires Tracked(store, session, scores, scores.Keys, met, items) && id in items
    ensures Tracked(store, session, scores, scores.Keys, met + [id],
                    items[id := items[id].(graph := items[id].graph + 0.5)])
  {
    OneMoreTime(met, id);
  }

  method Fuse(store: Store, items: map<string, Item>, now: int) returns (list: seq<Ranked>)
    requires forall id :: id in items ==> id in store
    ensures DistinctIds(list) && |list| == |items|
    ensures forall id, score :: Ranked(id, score) in list <==> id in items && score == Fused(store, items, now, id)
  {
    list := [];
    var rest := items.Keys;
    while rest != {}
      invariant rest <= items.Keys && DistinctIds(list) && |list| + |rest| == |items.Keys|
      invariant forall id, score :: Ranked(id, score) in list <==>
                  id in items && id !in rest && score == Fused(store, items, now, id)
      decreases |rest|
    {
      var id :| id in rest;
      var temporal := if now - store[id].createdAt < WEEK then 1.0 else 0.0;
      var item := Ranked(id, items[id].vector * 0.40 + items[id].graph * 0.30 + temporal * 0.20);
      assert forall k :: 0 <= k < |list| ==> Ranked(list[k].id, list[k].score) in list;
      list := list + [item];
      rest := rest - {id};
    }
  }

  function Fused(store: Store, items: map<string, Item>, now: int, id: string): real
    requires id in items && id in store
  {
    items[id].vector * 0.40 + items[id].graph * 0.30 + (if now - store[id].createdAt < WEEK then 1.0 else 0.0) * 0.20
  }

  /** The results: each visible candidate at most once with its final score, the best first,
      and what the limit cuts off scores no higher than anything kept. */
  method Rank(store: Store, session: string, scores: map<string, real>, met: seq<string>, now: int, limit: int)
      returns (results: seq<Ranked>, total: nat)
    ensures var all := Candidates(store, session, scores, met);
            && total == |all| && |results| == (if 0 < limit < total then limit else total)
            && DistinctIds(results) && Descending(results)
            && (forall r :: r in results ==> r.id in all && r.score == FinalScore(store, scores, met, now, r.id))
            && (forall id, r :: id in all && !Kept(results, id) && r in results ==>
                  FinalScore(store, scores, met, now, id) <= r.score)
  {
    var items := TrackVectorScores(store, session, scores);
    items := TrackNeighbours(store, session, scores, met, items);
    assert items.Keys == Candidates(store, session, scores, met);
    var list := Fuse(store, items, now);
    var ranked := SortDescending(list);
    SortedIsDistinct(list, ranked);
    SameElements(list, ranked);
    assert |ranked| == |items.Keys| == |items|;
    FusedIsFinal(store, session, scores, met, items, now, list, ranked);
    total := |items|;
    results := ranked;
    if limit > 0 && |ranked| > limit {
      results := ranked[..limit];
    }
  }

  lemma FusedIsFinal(store: Store, session: string, scores: map<string, real>, met: seq<string>,
                     items: map<string, Item>, now: int, list: seq<Ranked>, ranked: seq<Ranked>)
    requires Tracked(store, session, scores, scores.Keys, met, items) && multiset(ranked) == multiset(list)
    requires forall id, score :: Ranked(id, score) in list <==> id in items && score == Fused(store, items, now, id)
    ensures forall r :: r in ranked ==> r.id in items && r.score == FinalScore(store, scores, met, now, r.id)
    ensures forall id :: id in items ==> Ranked(id, FinalScore(store, scores, met, now, id)) in ranked
  {
    assert forall r :: r in ranked <==> r in multiset(ranked);
    assert forall r :: r in list <==> r in multiset(list);
    forall r | r in ranked
      ensures r.id in items && r.score == FinalScore(store, scores, met, now, r.id)
    {
      assert r == Ranked(r.id, r.score) && r in list;
    }
  }

  predicate Kept(results: seq<Ranked>, id: string) {
    exists r :: r in results && r.id == id
  }

  /** Nothing depends on the order in which the neighbours are met. */
  lemma OrderOfNeighboursIsIrrelevant(store: Store, session: string, scores: map<string, real>, met: seq<string>,
                                         met': seq<string>, now: int, id: string)
    requires multiset(met) == multiset(met') && id in store
    ensures Candidates(store, session, scores, met) == Candidates(store, session, scores, met')
    ensures FinalScore(store, scores, met, now, id) == FinalScore(store, scores, met', now, id)
  {
    assert forall x :: x in met <==> x in multiset(met);
    assert forall x :: x in met' <==> x in multiset(met');
  }

  // ------------------------------------------------------ what a result is for a caller

  /** A row without a session is visible to every session, any other only to its own; a session
      is named without white space around, and "default" if that leaves nothing. */
  lemma VisibleMeans(p: Point, session: string)
    ensures p.session == "" ==> Visible(p, session)
    ensures p.session != "" && Trim(session) != "" ==> (Visible(p, session) <==> p.session == Trim(session))
    ensures p.session != "" && Trim(session) == "" ==> (Visible(p, session) <==> p.session == "default")
  {
  }

  /** No result of one named session belongs to another. */
  lemma SessionsAreSeparate(store: Store, session: string, scores: map<string, real>, met: seq<string>, id: string)
    ensures id in Candidates(store, session, scores, met) <==>
              && id in store && (id in scores || id in met)
              && (store[id].session == "" || (Trim(session) != "" && store[id].session == Trim(session))
                  || (Trim(session) == "" && store[id].session == "default"))
  {
  }

  /** The final score: four tenths of the vector score, three tenths of half a point for each
      neighbour, and two tenths if the row is less than seven days of 24 hours old. */
  lemma FinalScoreMeans(store: Store, scores: map<string, real>, met: seq<string>, now: int, id: string)
    requires id in store
    ensures var vector, recent := if id in scores then scores[id] else 0.0,
                                  now - store[id].createdAt < 7 * 24 * 3600 * 1_000_000_000;
            FinalScore(store, scores, met, now, id) ==
              0.40 * vector + 0.30 * (0.5 * multiset(met)[id] as real) + if recent then 0.20 else 0.0
  {
  }
}
