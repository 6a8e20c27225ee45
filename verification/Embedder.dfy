/** The embedder with its cache and its fallback providers (vector/embedder.go). The answers
    of the providers and the readings of the clock are arbitrary functions of how often they
    were asked for before. */
module Embedder {
  import opened Text

  type Vector = seq<real>
  type Key = string

  // 24 hours, in nanoseconds.
  const TTL: int := 86_400_000_000_000

  datatype Entry = Entry(embedding: Vector, expiresAt: int)

  type Entries = map<Key, Entry>

  // An entry counts up to and including the moment it expires.
  function Lookup(entries: Entries, key: Key, now: int): Option<Vector> {
    if key in entries && now <= entries[key].expiresAt then Some(entries[key].embedding) else None
  }

  // ------------------------------------------------------------ what a cache remembers

  /** What callers and the cleanup loop do to the cache. */
  datatype CacheOp = SetOp(key: Key, embedding: Vector, at: int, ttl: int) | DeleteOp(key: Key) | ClearOp
      | CleanupOp(at: int)

  // The entries that a pass of the cleanup loop leaves.
  function Unexpired(entries: Entries, now: int): Entries {
    map key | key in entries && now <= entries[key].expiresAt :: entries[key]
  }

  function Done(entries: Entries, op: CacheOp): Entries {
    match op
    case SetOp(key, v, at, ttl) => entries[key := Entry(v, at + ttl)]
    case DeleteOp(key) => entries - {key}
    case ClearOp => map[]
    case CleanupOp(at) => Unexpired(entries, at)
  }

  function AllDone(ops: seq<CacheOp>): Entries {
    if ops == [] then map[] else Done(AllDone(ops[..|ops| - 1]), ops[|ops| - 1])
  }

  /** The vector last set under a key, if neither the key was deleted nor the cache cleared
      since, and it is not expired; cleanups do not come into it. */
  function LastSet(ops: seq<CacheOp>, key: Key, now: int): Option<Vector> {
    if ops == [] then None
    else
      match ops[|ops| - 1]
      case SetOp(k, v, at, ttl) =>
        if k != key then LastSet(ops[..|ops| - 1], key, now) else if now <= at + ttl then Some(v) else None
      case DeleteOp(k) => if k != key then LastSet(ops[..|ops| - 1], key, now) else None
      case ClearOp => None
      case CleanupOp(_) => LastSet(ops[..|ops| - 1], key, now)
  }

  // Every cleanup so far is past.
  predicate CleanedUpBy(ops: seq<CacheOp>, now: int) {
    forall op :: op in ops && op.CleanupOp? ==> op.at <= now
  }

  /** What a lookup finds after any history of sets, deletes, clears and past cleanups. */
  lemma {:induction false} LookupFindsLastSet(ops: seq<CacheOp>, key: Key, now: int)
    requires CleanedUpBy(ops, now)
    ensures Lookup(AllDone(ops), key, now) == LastSet(ops, key, now)
  {
    if ops == [] {
    } else {
      var before := ops[..|ops| - 1];
      assert ops == before + [ops[|ops| - 1]];
      assert forall op :: op in before ==> op in ops;
      LookupFindsLastSet(before, key, now);
      assert ops[|ops| - 1] in ops;
    }
  }

  /** The cache, with what was done to it as a ghost. */
  class InMemoryEmbeddingCache {
    var entries: Entries
    ghost var history: seq<CacheOp>

    ghost predicate Valid()
      reads this
    {
      entries == AllDone(history)
    }

    constructor ()
      ensures Valid() && entries == map[] && history == []
    {
      entries, history := map[], [];
    }

    /** An entry that is there and has not expired; by its history the cache knows the vector
        last set, whatever cleanups there were up to now. */
    method Get(key: Key, now: int) returns (r: Option<Vector>)
      ensures r == Lookup(entries, key, now)
      ensures Valid() && CleanedUpBy(history, now) ==> r == LastSet(history, key, now)
    {
      if Valid() && CleanedUpBy(history, now) {
        LookupFindsLastSet(history, key, now);
      }
      if key !in entries {
        return None;
      }
      var entry := entries[key];
      if now > entry.expiresAt {
        return None;
      }
      return Some(entry.embedding);
    }

    method Set(key: Key, embedding: Vector, now: int, ttl: int)
      requires Valid()
      modifies this
      ensures Valid() && history == old(history) + [SetOp(key, embedding, now, ttl)]
      ensures entries == old(entries)[key := Entry(embedding, now + ttl)]
    {
      entries := entries[key := Entry(embedding, now + ttl)];
      history := history + [SetOp(key, embedding, now, ttl)];
    }

    method Delete(key: Key)
      requires Valid()
      modifies this
      ensures Valid() && history == old(history) + [DeleteOp(key)]
      ensures entries == old(entries) - {key}
    {
      entries := entries - {key};
      history := history + [DeleteOp(key)];
    }

    method Clear()
      requires Valid()
      modifies this
      ensures Valid() && history == old(history) + [ClearOp] && entries == map[]
    {
      entries := map[];
      history := history + [ClearOp];
    }

    /** One pass of the cleanup loop: it takes out what has expired, so that no lookup, now
        or later, finds anything else than before. */
    method Cleanup(now: int)
      requires Valid()
      modifies this
      ensures Valid() && history == old(history) + [CleanupOp(now)]
      ensures entries == Unexpired(old(entries), now)
      ensures forall key, later :: later >= now ==> Lookup(entries, key, later) == Lookup(old(entries), key, later)
    {
      RemoveExpired(now);
      history := history + [CleanupOp(now)];
    }

    method RemoveExpired(now: int)
      modifies `entries
      ensures entries == Unexpired(old(entries), now)
    {
      var keys := entries.Keys;
      while keys != {}
        invariant keys <= old(entries.Keys) && entries.Keys <= old(entries.Keys)
        invariant forall key :: key in keys ==> key in entries
        invariant forall key :: key in entries ==> entries[key] == old(entries)[key]
        invariant forall key :: key in old(entries) && key !in keys ==>
                    (key in entries <==> now <= old(entries)[key].expiresAt)
        decreases |keys|
      {
        var key :| key in keys;
        if now > entries[key].expiresAt {
          entries := entries - {key};
        }
        keys := keys - {key};
      }
    }
  }

  /** A provider: what it answers when it is asked for the k-th time, if it does not fail. */
  datatype Provider = Provider(single: (string, nat) -> Option<Vector>,
                               batch: (seq<string>, nat) -> Option<seq<Vector>>)

  type Providers = map<string, Provider>

  // A provider that is not registered counts as failing.
  function Ask(providers: Providers, name: string, text: string, asked: nat): Option<Vector> {
    if name in providers then providers[name].single(text, asked) else None
  }

  /** The answer of the first provider in the list that does not fail. */
  function FirstAnswer(providers: Providers, names: seq<string>, text: string, asked: nat): Option<Vector>
    decreases |names|
  {
    if names == [] then None
    else if Ask(providers, names[0], text, asked).Some? then Ask(providers, names[0], text, asked)
    else FirstAnswer(providers, names[1..], text, asked + 1)
  }

  // ------------------------------------------------------------ what honesty means

  /** The provider fails or computes f, and in a batch gives one vector per text. */
  ghost predicate Computes(p: Provider, f: string -> Vector) {
    && (forall text, k :: p.single(text, k).Some? ==> p.single(text, k).value == f(text))
    && (forall texts, k :: p.batch(texts, k).Some? ==> AreVectors(p.batch(texts, k).value, texts, f))
  }

  ghost predicate AreVectors(vectors: seq<Vector>, texts: seq<string>, f: string -> Vector) {
    |vectors| == |texts| && forall i :: 0 <= i < |texts| ==> vectors[i] == f(texts[i])
  }

  ghost predicate AllCompute(providers: Providers, f: string -> Vector) {
    forall name :: name in providers ==> Computes(providers[name], f)
  }

  /** Texts under one key have one vector, as they do when keys do not collide. */
  ghost predicate KeysAgree(key: string -> Key, f: string -> Vector) {
    forall t, u :: key(t) == key(u) ==> f(t) == f(u)
  }

  /** Every entry, expired or not, holds the vector of the texts it is the entry of. */
  ghost predicate Agrees(entries: Entries, key: string -> Key, f: string -> Vector) {
    forall text :: key(text) in entries ==> entries[key(text)].embedding == f(text)
  }

  /** Whichever of them answers, honest providers give the vector of the text. */
  lemma {:induction false} AnswerIsHonest(providers: Providers, names: seq<string>, text: string, asked: nat,
                                          f: string -> Vector)
    requires AllCompute(providers, f) && FirstAnswer(providers, names, text, asked).Some?
    ensures FirstAnswer(providers, names, text, asked).value == f(text)
    decreases |names|
  {
    if Ask(providers, names[0], text, asked).Some? {
    } else {
      AnswerIsHonest(providers, names[1..], text, asked + 1, f);
    }
  }

  lemma SetAgrees(entries: Entries, key: string -> Key, f: string -> Vector, text: string, entry: Entry)
    requires Agrees(entries, key, f) && entry.embedding == f(text) && KeysAgree(key, f)
    ensures Agrees(entries[key(text) := entry], key, f)
  {
  }

  ghost predicate HasTrueEntry(key: string -> Key, f: string -> Vector, text: string) {
    exists entry :: Agrees(map[key(text) := entry], key, f)
  }

  /** The condition on keys is needed: without it some text has no entry that is right for
      every text with its key. */
  lemma TrueEntriesNeedKeysThatAgree(key: string -> Key, f: string -> Vector)
    ensures KeysAgree(key, f) <==> forall text :: HasTrueEntry(key, f, text)
  {
    if KeysAgree(key, f) {
      forall text
        ensures HasTrueEntry(key, f, text)
      {
        assert Agrees(map[key(text) := Entry(f(text), 0)], key, f);
      }
    }
    if forall text :: HasTrueEntry(key, f, text) {
      forall t, u | key(t) == key(u)
        ensures f(t) == f(u)
      {
        assert HasTrueEntry(key, f, t);
        var entry :| Agrees(map[key(t) := entry], key, f);
        assert key(t) in map[key(t) := entry] && key(u) in map[key(t) := entry];
      }
    }
  }

  // ------------------------------------------------------------------- the embedder

  /** How an embedder is set up, and the state its calls change: the cache, the readings of
      the clock and the calls of providers so far. */
  datatype Setup = Setup(providers: Providers, primary: string, fallbacks: seq<string>, key: string -> Key,
                         clock: nat -> int, cached: bool)

  datatype Point = Point(entries: Entries, tick: nat, asked: nat)

  function Found(w: Setup, p: Point, text: string): Option<Vector> {
    Lookup(p.entries, w.key(text), w.clock(p.tick))
  }

  function Stored(w: Setup, p: Point, text: string, v: Vector): Point {
    Point(if w.cached then p.entries[w.key(text) := Entry(v, w.clock(p.tick) + TTL)] else p.entries,
          p.tick + 1, p.asked)
  }

  // How many providers are asked until one answers.
  function Tried(providers: Providers, names: seq<string>, text: string, asked: nat): nat
    decreases |names|
  {
    if names == [] then 0
    else if Ask(providers, names[0], text, asked).Some? then 1
    else 1 + Tried(providers, names[1..], text, asked + 1)
  }

  // The first answer is that of the first name that has one, and nobody behind it is asked.
  lemma {:induction false} FirstAnswerMeans(providers: Providers, names: seq<string>, text: string, asked: nat)
    ensures var r, n := FirstAnswer(providers, names, text, asked), Tried(providers, names, text, asked);
            && n <= |names| && (r.Some? ==> n > 0 && Ask(providers, names[n - 1], text, asked + n - 1) == r)
            && (r.None? ==> n == |names|)
            && forall j :: 0 <= j < (if r.Some? then n - 1 else n) ==> Ask(providers, names[j], text, asked + j).None?
    decreases |names|
  {
    if names == [] || Ask(providers, names[0], text, asked).Some? {
    } else {
      FirstAnswerMeans(providers, names[1..], text, asked + 1);
      var n := Tried(providers, names[1..], text, asked + 1);
      forall j | 0 <= j < (if FirstAnswer(providers, names, text, asked).Some? then n else n + 1)
        ensures Ask(providers, names[j], text, asked + j).None?
      {
        assert j > 0 ==> names[j] == names[1..][j - 1];
      }
    }
  }

  function Names(w: Setup): seq<string> {
    [w.primary] + w.fallbacks
  }

  /** The vector from the cache, or else the first answer of a provider. */
  function Answer(w: Setup, p: Point, text: string): Option<Vector> {
    if Found(w, p, text).Some? then Found(w, p, text) else FirstAnswer(w.providers, Names(w), text, p.asked)
  }

  // What was not found in the cache and was answered is in it afterwards.
  function After(w: Setup, p: Point, text: string): Point {
    if Found(w, p, text).Some? then p.(tick := p.tick + 1)
    else
      var q := Point(p.entries, p.tick + 1, p.asked + Tried(w.providers, Names(w), text, p.asked));
      var r := FirstAnswer(w.providers, Names(w), text, p.asked);
      if r.None? then q else Stored(w, q, text, r.value)
  }

  /** What a single call gives. An unexpired entry is returned and nobody is asked. Otherwise the
      primary provider and the fallbacks are asked in turn up to the first that answers, which
      is all of them if none does, and the answer is cached for 24 hours. */
  lemma SingleCalls(w: Setup, p: Point, text: string)
    ensures var hit := w.key(text) in p.entries && w.clock(p.tick) <= p.entries[w.key(text)].expiresAt;
            var r, p', names := Answer(w, p, text), After(w, p, text), [w.primary] + w.fallbacks;
            var n := p'.asked - p.asked;
            if hit then r == Some(p.entries[w.key(text)].embedding) && p' == p.(tick := p.tick + 1)
            else
              && 1 <= n <= |names| && (r.None? ==> n == |names|)
              && r == (if names[n - 1] !in w.providers then None
                       else w.providers[names[n - 1]].single(text, p.asked + n - 1))
              && (forall j :: 0 <= j < n - 1 && names[j] in w.providers ==>
                    w.providers[names[j]].single(text, p.asked + j) == None)
              && p'.entries == if r.None? || !w.cached then p.entries
                 else p.entries[w.key(text) := Entry(r.value, w.clock(p.tick + 1) + 86_400_000_000_000)]
  {
    FirstAnswerMeans(w.providers, Names(w), text, p.asked);
  }

  /** Once a provider has answered for a text, calls for it ask nobody for 24 hours, as long as
      the entry stays, and give the same answer. */
  lemma RepeatedCallsAskNobody(w: Setup, p: Point, text: string, later: Point)
    requires w.cached && Found(w, p, text).None? && Answer(w, p, text).Some?
    requires w.key(text) in later.entries && later.entries[w.key(text)] == After(w, p, text).entries[w.key(text)]
    requires w.clock(later.tick) <= w.clock(p.tick + 1) + 86_400_000_000_000
    ensures Answer(w, later, text) == Answer(w, p, text)
    ensures After(w, later, text).asked == later.asked && After(w, later, text).entries == later.entries
  {
  }

  /** The providers compute f, keys do not confuse texts, and the cache is right. */
  ghost predicate Truthful(w: Setup, p: Point, f: string -> Vector) {
    AllCompute(w.providers, f) && KeysAgree(w.key, f) && Agrees(p.entries, w.key, f)
  }

  lemma StoredIsTruthful(w: Setup, p: Point, f: string -> Vector, text: string)
    requires Truthful(w, p, f)
    ensures Truthful(w, Stored(w, p, text, f(text)), f)
  {
    SetAgrees(p.entries, w.key, f, text, Entry(f(text), w.clock(p.tick) + TTL));
  }

  /** The cache is invisible to a caller: an answer is the vector of the text, whether it was
      cached or not, and what is cached afterwards is right again. */
  lemma AnswersAreTrue(w: Setup, p: Point, f: string -> Vector, text: string)
    requires Truthful(w, p, f)
    ensures Answer(w, p, text).Some? ==> Answer(w, p, text).value == f(text)
    ensures Truthful(w, After(w, p, text), f)
  {
    if FirstAnswer(w.providers, Names(w), text, p.asked).Some? {
      AnswerIsHonest(w.providers, Names(w), text, p.asked, f);
      StoredIsTruthful(w, Point(p.entries, p.tick + 1, p.asked + Tried(w.providers, Names(w), text, p.asked)), f, text);
    }
  }

  // ------------------------------------------------------------------ what a batch does

  predicate Missed(w: Setup, p: Point, texts: seq<string>, i: nat)
    requires i < |texts|
  {
    Found(w, p.(tick := p.tick + i), texts[i]).None?
  }

  // The positions of texts[..n] that the cache has no valid entry for, looked up one by one.
  function Misses(w: Setup, p: Point, texts: seq<string>, n: nat): (r: seq<nat>)
    requires n <= |texts|
    ensures forall k :: 0 <= k < |r| ==> r[k] < n
  {
    if n == 0 then []
    else
      var front := Misses(w, p, texts, n - 1);
      if Missed(w, p, texts, n - 1) then front + [n - 1] else front
  }

  lemma {:induction false} MissesMeans(w: Setup, p: Point, texts: seq<string>, n: nat)
    requires n <= |texts|
    ensures forall k, l :: 0 <= k < l < |Misses(w, p, texts, n)| ==>
              Misses(w, p, texts, n)[k] < Misses(w, p, texts, n)[l]
    ensures forall i :: 0 <= i < n ==> (i in Misses(w, p, texts, n) <==> Missed(w, p, texts, i))
  {
    if n == 0 {
    } else {
      MissesMeans(w, p, texts, n - 1);
    }
  }

  function HitAt(w: Setup, p: Point, texts: seq<string>, i: nat): Vector
    requires i < |texts|
  {
    if Missed(w, p, texts, i) then [] else Found(w, p.(tick := p.tick + i), texts[i]).value
  }

  // The vectors found in the cache, at their positions.
  function Hits(w: Setup, p: Point, texts: seq<string>): (r: seq<Vector>)
    ensures |r| == |texts| && forall i :: 0 <= i < |texts| ==> r[i] == HitAt(w, p, texts, i)
  {
    seq(|texts|, i requires 0 <= i < |texts| => HitAt(w, p, texts, i))
  }

  function TextsAt(texts: seq<string>, positions: seq<nat>): (r: seq<string>)
    requires forall k :: 0 <= k < |positions| ==> positions[k] < |texts|
    ensures |r| == |positions|
  {
    seq(|positions|, k requires 0 <= k < |positions| => texts[positions[k]])
  }

  // The first i texts were looked up: hits are at their positions, misses are listed.
  predicate LookedUp(w: Setup, p: Point, texts: seq<string>, vectors: seq<Vector>, indices: seq<nat>,
                     uncached: seq<string>, i: nat) {
    && i <= |texts| == |vectors|
    && indices == Misses(w, p, texts, i) && uncached == TextsAt(texts, indices)
    && (forall j :: 0 <= j < i ==> vectors[j] == HitAt(w, p, texts, j))
    && (forall j :: i <= j < |texts| ==> vectors[j] == [])
  }

  lemma OneMoreMiss(w: Setup, p: Point, texts: seq<string>, vectors: seq<Vector>, indices: seq<nat>,
                    uncached: seq<string>, i: nat)
    requires i < |texts| && LookedUp(w, p, texts, vectors, indices, uncached, i) && Missed(w, p, texts, i)
    ensures LookedUp(w, p, texts, vectors, indices + [i], uncached + [texts[i]], i + 1)
  {
  }

  lemma OneMoreHit(w: Setup, p: Point, texts: seq<string>, vectors: seq<Vector>, indices: seq<nat>,
                   uncached: seq<string>, i: nat, v: Vector)
    requires i < |texts| && LookedUp(w, p, texts, vectors, indices, uncached, i)
               && Found(w, p.(tick := p.tick + i), texts[i]) == Some(v)
    ensures LookedUp(w, p, texts, vectors[i := v], indices, uncached, i + 1)
  {
  }

  // The values go to their positions.
  function Scatter(vectors: seq<Vector>, positions: seq<nat>, values: seq<Vector>): (r: seq<Vector>)
    requires |values| <= |positions| && forall k :: 0 <= k < |positions| ==> positions[k] < |vectors|
    ensures |r| == |vectors|
  {
    if values == [] then vectors
    else
      var n := |values| - 1;
      Scatter(vectors, positions, values[..n])[positions[n] := values[n]]
  }

  lemma {:induction false} ScatterAt(vectors: seq<Vector>, positions: seq<nat>, values: seq<Vector>)
    requires |values| <= |positions| && forall k :: 0 <= k < |positions| ==> positions[k] < |vectors|
    requires forall k, l :: 0 <= k < l < |positions| ==> positions[k] < positions[l]
    ensures forall k :: 0 <= k < |values| ==> Scatter(vectors, positions, values)[positions[k]] == values[k]
    ensures forall i :: 0 <= i < |vectors| && i !in positions ==> Scatter(vectors, positions, values)[i] == vectors[i]
  {
    if values == [] {
    } else {
      ScatterAt(vectors, positions, values[..|values| - 1]);
    }
  }

  lemma ScatterMore(vectors: seq<Vector>, positions: seq<nat>, values: seq<Vector>, v: Vector)
    requires |values| < |positions| && forall k :: 0 <= k < |positions| ==> positions[k] < |vectors|
    ensures Scatter(vectors, positions, values + [v]) == Scatter(vectors, positions, values)[positions[|values|] := v]
  {
    assert (values + [v])[..|values|] == values;
  }

  // The state after the first n vectors were cached for their texts.
  function StoredAll(w: Setup, p: Point, texts: seq<string>, vectors: seq<Vector>, n: nat): Point
    requires n <= |texts| && n <= |vectors|
  {
    if n == 0 then p else Stored(w, StoredAll(w, p, texts, vectors, n - 1), texts[n - 1], vectors[n - 1])
  }

  // The state after the first n texts were embedded by themselves.
  function AfterAll(w: Setup, p: Point, texts: seq<string>, n: nat): Point
    requires n <= |texts|
  {
    if n == 0 then p else After(w, AfterAll(w, p, texts, n - 1), texts[n - 1])
  }

  function AnswerOf(w: Setup, p: Point, texts: seq<string>, k: nat): Option<Vector>
    requires k < |texts|
  {
    Answer(w, AfterAll(w, p, texts, k), texts[k])
  }

  // The first n texts are answered, each in its turn.
  predicate Answered(w: Setup, p: Point, texts: seq<string>, n: nat)
    requires n <= |texts|
  {
    n == 0 || (Answered(w, p, texts, n - 1) && AnswerOf(w, p, texts, n - 1).Some?)
  }

  function Answers(w: Setup, p: Point, texts: seq<string>, n: nat): (r: seq<Vector>)
    requires n <= |texts| && Answered(w, p, texts, n)
    ensures |r| == n
  {
    if n == 0 then [] else Answers(w, p, texts, n - 1) + [AnswerOf(w, p, texts, n - 1).value]
  }

  /** Embedding texts one by one: it succeeds exactly when each is answered in its turn, and
      the first that is not ends it, with what was cached until then left in the cache. */
  ghost predicate OneByOneGives(w: Setup, p: Point, texts: seq<string>, n: nat, ok: bool, p': Point) {
    && n <= |texts| && Answered(w, p, texts, n)
    && if ok then n == |texts| && p' == AfterAll(w, p, texts, n)
       else n < |texts| && AnswerOf(w, p, texts, n).None? && p' == AfterAll(w, p, texts, n + 1)
  }

  // The positions are those of the uncached texts among the vectors.
  predicate Fit(vectors: seq<Vector>, positions: seq<nat>, uncached: seq<string>) {
    |positions| == |uncached| && forall k :: 0 <= k < |positions| ==> positions[k] < |vectors|
  }

  ghost predicate SinglesGive(w: Setup, p: Point, hits: seq<Vector>, misses: seq<nat>, uncached: seq<string>,
                              r: Option<seq<Vector>>, p': Point)
    requires Fit(hits, misses, uncached)
  {
    exists n :: OneByOneGives(w, p, uncached, n, r.Some?, p')
      && (r.Some? ==> r.value == Scatter(hits, misses, Answers(w, p, uncached, n)))
  }

  /** What is missed goes to the primary provider in one call; when that fails each missed
      text is embedded by itself. */
  ghost predicate CallGives(w: Setup, p: Point, hits: seq<Vector>, misses: seq<nat>, uncached: seq<string>,
                            r: Option<seq<Vector>>, p': Point)
    requires w.primary in w.providers && Fit(hits, misses, uncached)
  {
    var batch := w.providers[w.primary].batch(uncached, p.asked);
    var called := p.(asked := p.asked + 1);
    if batch.None? then SinglesGive(w, called, hits, misses, uncached, r, p')
    else
      && |batch.value| <= |misses|
      && r == Some(Scatter(hits, misses, batch.value))
      && p' == StoredAll(w, called, uncached, batch.value, |batch.value|)
  }

  ghost predicate BatchGives(w: Setup, p: Point, texts: seq<string>, r: Option<seq<Vector>>, p': Point) {
    var misses, looked := Misses(w, p, texts, |texts|), p.(tick := p.tick + |texts|);
    if misses == [] then r == Some(Hits(w, p, texts)) && p' == looked
    else if w.primary !in w.providers then r == None && p' == looked
    else CallGives(w, looked, Hits(w, p, texts), misses, TextsAt(texts, misses), r, p')
  }

  ghost predicate AtMostOnePerText(p: Provider) {
    forall texts, k :: p.batch(texts, k).Some? ==> |p.batch(texts, k).value| <= |texts|
  }

  // ------------------------------------------------------- batches are transparent, too

  lemma {:induction false} TruthfulThroughout(w: Setup, p: Point, f: string -> Vector, texts: seq<string>, n: nat)
    requires Truthful(w, p, f) && n <= |texts|
    ensures Truthful(w, AfterAll(w, p, texts, n), f)
  {
    if n == 0 {
    } else {
      TruthfulThroughout(w, p, f, texts, n - 1);
      AnswersAreTrue(w, AfterAll(w, p, texts, n - 1), f, texts[n - 1]);
    }
  }

  lemma {:induction false} AllAnswersAreTrue(w: Setup, p: Point, f: string -> Vector, texts: seq<string>, n: nat)
    requires Truthful(w, p, f) && n <= |texts| && Answered(w, p, texts, n)
    ensures AreVectors(Answers(w, p, texts, n), texts[..n], f)
  {
    if n == 0 {
    } else {
      AllAnswersAreTrue(w, p, f, texts, n - 1);
      TruthfulThroughout(w, p, f, texts, n - 1);
      AnswersAreTrue(w, AfterAll(w, p, texts, n - 1), f, texts[n - 1]);
    }
  }

  lemma {:induction false} StoredAllIsTruthful(w: Setup, p: Point, f: string -> Vector, texts: seq<string>,
                                               vectors: seq<Vector>, n: nat)
    requires Truthful(w, p, f) && n <= |texts| && AreVectors(vectors, texts, f)
    ensures Truthful(w, StoredAll(w, p, texts, vectors, n), f)
  {
    if n == 0 {
    } else {
      StoredAllIsTruthful(w, p, f, texts, vectors, n - 1);
      StoredIsTruthful(w, StoredAll(w, p, texts, vectors, n - 1), f, texts[n - 1]);
    }
  }

  lemma HitIsTrue(w: Setup, p: Point, f: string -> Vector, texts: seq<string>, i: nat)
    requires Agrees(p.entries, w.key, f) && i < |texts| && !Missed(w, p, texts, i)
    ensures HitAt(w, p, texts, i) == f(texts[i])
  {
  }

  // Right vectors at the missed positions complete the right ones from the cache.
  lemma ScatteredAreVectors(w: Setup, p: Point, f: string -> Vector, texts: seq<string>, misses: seq<nat>,
                            values: seq<Vector>)
    requires Agrees(p.entries, w.key, f) && misses == Misses(w, p, texts, |texts|)
    requires AreVectors(values, TextsAt(texts, misses), f)
    ensures AreVectors(Scatter(Hits(w, p, texts), misses, values), texts, f)
  {
    var hits := Hits(w, p, texts);
    MissesMeans(w, p, texts, |texts|);
    ScatterAt(hits, misses, values);
    forall i | 0 <= i < |texts|
      ensures Scatter(hits, misses, values)[i] == f(texts[i])
    {
      if i in misses {
        var k :| 0 <= k < |misses| && misses[k] == i;
      } else {
        HitIsTrue(w, p, f, texts, i);
      }
    }
  }

  /** With honest providers a batch that succeeds gives one vector of f per text, in their
      order, however hits, expired entries and duplicates fall, and whether or not the batch
      call fails; and the cache is right afterwards in any case. */
  lemma BatchesAreTrue(w: Setup, p: Point, f: string -> Vector, texts: seq<string>, r: Option<seq<Vector>>, p': Point)
    requires Truthful(w, p, f) && BatchGives(w, p, texts, r, p')
    ensures Truthful(w, p', f) && (r.Some? ==> AreVectors(r.value, texts, f))
  {
    var misses, looked := Misses(w, p, texts, |texts|), p.(tick := p.tick + |texts|);
    if misses == [] {
      ScatteredAreVectors(w, p, f, texts, misses, []);
    } else if w.primary in w.providers {
      CallIsTrue(w, looked, f, TextsAt(texts, misses), Hits(w, p, texts), misses, r, p');
      if r.Some? {
        var values :| AreVectors(values, TextsAt(texts, misses), f)
            && r.value == Scatter(Hits(w, p, texts), misses, values);
        ScatteredAreVectors(w, p, f, texts, misses, values);
      }
    }
  }

  lemma CallIsTrue(w: Setup, p: Point, f: string -> Vector, uncached: seq<string>, hits: seq<Vector>, misses: seq<nat>,
                   r: Option<seq<Vector>>, p': Point)
    requires Truthful(w, p, f) && w.primary in w.providers && Fit(hits, misses, uncached)
    requires CallGives(w, p, hits, misses, uncached, r, p')
    ensures Truthful(w, p', f)
    ensures r.Some? ==> exists values :: AreVectors(values, uncached, f) && r.value == Scatter(hits, misses, values)
  {
    var batch := w.providers[w.primary].batch(uncached, p.asked);
    var called := p.(asked := p.asked + 1);
    assert Truthful(w, called, f) && Computes(w.providers[w.primary], f);
    if batch.None? {
      SinglesAreTrue(w, called, f, uncached, hits, misses, r, p');
    } else {
      StoredAllIsTruthful(w, called, f, uncached, batch.value, |batch.value|);
    }
  }

  lemma SinglesAreTrue(w: Setup, p: Point, f: string -> Vector, uncached: seq<string>, hits: seq<Vector>,
                       misses: seq<nat>, r: Option<seq<Vector>>, p': Point)
    requires Truthful(w, p, f) && Fit(hits, misses, uncached) && SinglesGive(w, p, hits, misses, uncached, r, p')
    ensures Truthful(w, p', f)
    ensures r.Some? ==> exists values :: AreVectors(values, uncached, f) && r.value == Scatter(hits, misses, values)
  {
    var n: nat :| OneByOneGives(w, p, uncached, n, r.Some?, p')
        && (r.Some? ==> r.value == Scatter(hits, misses, Answers(w, p, uncached, n)));
    TruthfulThroughout(w, p, f, uncached, if r.Some? then n else n + 1);
    if r.Some? {
      AllAnswersAreTrue(w, p, f, uncached, n);
      assert uncached[..n] == uncached;
      assert AreVectors(Answers(w, p, uncached, n), uncached, f);
    }
  }

  lemma {:induction false} AnsweredAreCached(w: Setup, p: Point, texts: seq<string>, n: nat)
    requires w.cached && n <= |texts| && Answered(w, p, texts, n)
    ensures p.entries.Keys <= AfterAll(w, p, texts, n).entries.Keys
    ensures forall k :: 0 <= k < n ==> w.key(texts[k]) in AfterAll(w, p, texts, n).entries
  {
    if n == 0 {
    } else {
      AnsweredAreCached(w, p, texts, n - 1);
    }
  }

  lemma {:induction false} StoredAreCached(w: Setup, p: Point, texts: seq<string>, vectors: seq<Vector>, n: nat)
    requires w.cached && n <= |texts| && n <= |vectors|
    ensures p.entries.Keys <= StoredAll(w, p, texts, vectors, n).entries.Keys
    ensures forall k :: 0 <= k < n ==> w.key(texts[k]) in StoredAll(w, p, texts, vectors, n).entries
  {
    if n == 0 {
    } else {
      StoredAreCached(w, p, texts, vectors, n - 1);
    }
  }

  lemma CallIsCached(w: Setup, p: Point, uncached: seq<string>, hits: seq<Vector>, misses: seq<nat>,
                     r: Option<seq<Vector>>, p': Point)
    requires w.cached && w.primary in w.providers && Fit(hits, misses, uncached) && r.Some?
               && CallGives(w, p, hits, misses, uncached, r, p')
    requires forall texts, k :: w.providers[w.primary].batch(texts, k).Some? ==>
               |w.providers[w.primary].batch(texts, k).value| == |texts|
    ensures p.entries.Keys <= p'.entries.Keys && forall k :: 0 <= k < |uncached| ==> w.key(uncached[k]) in p'.entries
  {
    var batch := w.providers[w.primary].batch(uncached, p.asked);
    var called := p.(asked := p.asked + 1);
    if batch.Some? {
      StoredAreCached(w, called, uncached, batch.value, |uncached|);
    } else {
      AnsweredAreCached(w, called, uncached, |uncached|);
    }
  }

  /** After a batch that succeeds every text of it is in the cache. */
  lemma BatchesAreCached(w: Setup, p: Point, texts: seq<string>, r: Option<seq<Vector>>, p': Point)
    requires w.cached && r.Some? && BatchGives(w, p, texts, r, p')
    requires forall name, texts, k :: name in w.providers && w.providers[name].batch(texts, k).Some? ==>
               |w.providers[name].batch(texts, k).value| == |texts|
    ensures forall text :: text in texts ==> w.key(text) in p'.entries
  {
    var misses := Misses(w, p, texts, |texts|);
    MissesMeans(w, p, texts, |texts|);
    if misses != [] {
      CallIsCached(w, p.(tick := p.tick + |texts|), TextsAt(texts, misses), Hits(w, p, texts), misses, r, p');
    }
    forall i | 0 <= i < |texts|
      ensures w.key(texts[i]) in p'.entries
    {
      if i in misses {
        var k :| 0 <= k < |misses| && misses[k] == i;
        assert TextsAt(texts, misses)[k] == texts[i];
      } else {
        assert !Missed(w, p, texts, i);
      }
    }
  }

  // -------------------------------------------------------------------- the class

  /** What a batch call gives. Nobody is asked if every text has an unexpired entry; else the
      primary provider is asked once for exactly the texts without one, in their order, and its
      vectors go to those positions, while the others have what was cached. */
  lemma BatchCalls(w: Setup, p: Point, texts: seq<string>, r: Option<seq<Vector>>, p': Point)
    returns (misses: seq<nat>, missing: seq<string>)
    requires BatchGives(w, p, texts, r, p')
    ensures |missing| == |misses|
    ensures forall k :: 0 <= k < |misses| ==> misses[k] < |texts| && missing[k] == texts[misses[k]]
    ensures forall k, l :: 0 <= k < l < |misses| ==> misses[k] < misses[l]
    ensures forall i :: 0 <= i < |texts| ==>
              (i !in misses <==>
                 w.key(texts[i]) in p.entries && w.clock(p.tick + i) <= p.entries[w.key(texts[i])].expiresAt)
    ensures r.Some? ==> |r.value| == |texts| && forall i :: 0 <= i < |texts| && i !in misses ==>
              w.key(texts[i]) in p.entries && r.value[i] == p.entries[w.key(texts[i])].embedding
    ensures misses == [] ==> r.Some? && p'.asked == p.asked && p'.entries == p.entries
    ensures misses != [] && w.primary !in w.providers ==> r.None? && p'.asked == p.asked && p'.entries == p.entries
    ensures misses != [] && w.primary in w.providers ==>
              var batch := w.providers[w.primary].batch(missing, p.asked);
              batch.Some? ==>
                && r.Some? && p'.asked == p.asked + 1 && |batch.value| <= |misses| && |r.value| == |texts|
                && forall k :: 0 <= k < |batch.value| ==> r.value[misses[k]] == batch.value[k]
  {
    misses := Misses(w, p, texts, |texts|);
    missing := TextsAt(texts, misses);
    var hits := Hits(w, p, texts);
    MissesMean(w, p, texts, misses, hits);
    if misses != [] && w.primary in w.providers {
      var values := CallScatters(w, p.(tick := p.tick + |texts|), hits, misses, missing, r, p');
      ScatterAt(hits, misses, values);
    }
  }

  lemma MissesMean(w: Setup, p: Point, texts: seq<string>, misses: seq<nat>, hits: seq<Vector>)
    requires misses == Misses(w, p, texts, |texts|) && hits == Hits(w, p, texts)
    ensures forall k, l :: 0 <= k < l < |misses| ==> misses[k] < misses[l]
    ensures forall i :: 0 <= i < |texts| ==>
              (i !in misses <==>
                 w.key(texts[i]) in p.entries && w.clock(p.tick + i) <= p.entries[w.key(texts[i])].expiresAt)
    ensures forall i :: 0 <= i < |texts| && i !in misses ==>
              w.key(texts[i]) in p.entries && hits[i] == p.entries[w.key(texts[i])].embedding
  {
    MissesMeans(w, p, texts, |texts|);
    forall i | 0 <= i < |texts|
      ensures i !in misses <==>
                w.key(texts[i]) in p.entries && w.clock(p.tick + i) <= p.entries[w.key(texts[i])].expiresAt
      ensures i !in misses ==> w.key(texts[i]) in p.entries && hits[i] == p.entries[w.key(texts[i])].embedding
    {
      MissedMeans(w, p, texts, i);
    }
  }

  lemma MissedMeans(w: Setup, p: Point, texts: seq<string>, i: nat)
    requires i < |texts|
    ensures !Missed(w, p, texts, i) <==>
              w.key(texts[i]) in p.entries && w.clock(p.tick + i) <= p.entries[w.key(texts[i])].expiresAt
    ensures !Missed(w, p, texts, i) ==> HitAt(w, p, texts, i) == p.entries[w.key(texts[i])].embedding
  {
  }

  lemma CallScatters(w: Setup, p: Point, hits: seq<Vector>, misses: seq<nat>, missing: seq<string>,
                     r: Option<seq<Vector>>, p': Point) returns (values: seq<Vector>)
    requires w.primary in w.providers && Fit(hits, misses, missing) && CallGives(w, p, hits, misses, missing, r, p')
    ensures |values| <= |misses| && (r.Some? ==> r.value == Scatter(hits, misses, values))
    ensures var batch := w.providers[w.primary].batch(missing, p.asked);
            batch.Some? ==> r.Some? && values == batch.value && p'.asked == p.asked + 1
  {
    var batch, called := w.providers[w.primary].batch(missing, p.asked), p.(asked := p.asked + 1);
    if batch.Some? {
      values := batch.value;
      StoredAsksNobody(w, called, missing, values, |values|);
    } else if r.Some? {
      var n: nat :| OneByOneGives(w, called, missing, n, true, p')
        && r.value == Scatter(hits, misses, Answers(w, called, missing, n));
      values := Answers(w, called, missing, n);
    } else {
      values := [];
    }
  }

  lemma {:induction false} StoredAsksNobody(w: Setup, p: Point, texts: seq<string>, vectors: seq<Vector>, n: nat)
    requires n <= |texts| && n <= |vectors|
    ensures StoredAll(w, p, texts, vectors, n).asked == p.asked
  {
    if n == 0 {
    } else {
      StoredAsksNobody(w, p, texts, vectors, n - 1);
    }
  }

  class AutoEmbedder {
    var providers: Providers
    var primary: string
    var fallbacks: seq<string>
    const cache: InMemoryEmbeddingCache?
    const key: string -> Key
    const clock: nat -> int
    var tick: nat      // readings of the clock so far
    var asked: nat     // calls of providers so far

    constructor (primary: string, cache: InMemoryEmbeddingCache?, key: string -> Key, clock: nat -> int)
      ensures this.primary == primary && this.cache == cache && this.key == key && this.clock == clock
      ensures providers == map[] && fallbacks == []
    {
      providers, this.primary, fallbacks, this.cache := map[], primary, [], cache;
      this.key, this.clock := key, clock;
    }

    ghost predicate Valid()
      reads cache
    {
      cache != null ==> cache.Valid()
    }

    ghost function SetUp(): Setup
      reads this
    {
      Setup(providers, primary, fallbacks, key, clock, cache != null)
    }

    ghost function Now(): Point
      reads this, cache
    {
      Point(if cache == null then map[] else cache.entries, tick, asked)
    }

    method LookUp(text: string) returns (r: Option<Vector>)
      modifies `tick
      ensures r == Found(SetUp(), old(Now()), text) && Now() == old(Now()).(tick := old(tick) + 1)
    {
      r := None;
      if cache != null {
        r := cache.Get(key(text), clock(tick));
      }
      tick := tick + 1;
    }

    method Remember(text: string, embedding: Vector)
      requires Valid()
      modifies `tick, cache
      ensures Valid()
      ensures Now() == Stored(SetUp(), old(Now()), text, embedding)
    {
      if cache != null {
        cache.Set(key(text), embedding, clock(tick), TTL);
      }
      tick := tick + 1;
    }

    method TryProvider(name: string, text: string) returns (r: Option<Vector>)
      modifies `asked
      ensures r == Ask(providers, name, text, old(asked)) && Now() == old(Now()).(asked := old(asked) + 1)
    {
      r := if name in providers then providers[name].single(text, asked) else None;
      asked := asked + 1;
    }

    // The primary provider, then the fallbacks in their order.
    method AskInTurn(text: string) returns (r: Option<Vector>)
      modifies `asked
      ensures r == FirstAnswer(providers, [primary] + fallbacks, text, old(asked))
      ensures Now() == old(Now()).(asked := old(asked) + Tried(providers, [primary] + fallbacks, text, old(asked)))
    {
      r := TryProvider(primary, text);
      assert ([primary] + fallbacks)[1..] == fallbacks;
      if r.Some? {
        return;
      }
      assert fallbacks[0..] == fallbacks;
      for i := 0 to |fallbacks|
        invariant r.None? && Now() == old(Now()).(asked := asked)
        invariant FirstAnswer(providers, [primary] + fallbacks, text, old(asked)) ==
                    FirstAnswer(providers, fallbacks[i..], text, asked)
        invariant old(asked) + Tried(providers, [primary] + fallbacks, text, old(asked)) ==
                    asked + Tried(providers, fallbacks[i..], text, asked)
      {
        assert fallbacks[i..][0] == fallbacks[i] && fallbacks[i..][1..] == fallbacks[i + 1..];
        r := TryProvider(fallbacks[i], text);
        if r.Some? {
          return;
        }
      }
    }

    /** The cached vector, or else the first answer of the primary provider and the fallbacks
        in their order, which is then cached for 24 hours. An entry that has not expired is
        returned and nobody is asked; see SingleCalls for the other case. */
    method GenerateEmbedding(text: string) returns (r: Option<Vector>)
      requires Valid()
      modifies `tick, `asked, cache
      ensures Valid()
      ensures r == Answer(SetUp(), old(Now()), text) && Now() == After(SetUp(), old(Now()), text)
      ensures old(cache != null && key(text) in cache.entries && clock(tick) <= cache.entries[key(text)].expiresAt) ==>
                && r == old(Some(cache.entries[key(text)].embedding))
                && asked == old(asked) && cache.entries == old(cache.entries)
    {
      r := LookUp(text);
      if r.Some? {
        return;
      }
      r := AskAndRemember(text);
    }

    method AskAndRemember(text: string) returns (r: Option<Vector>)
      requires Valid()
      modifies `tick, `asked, cache
      ensures Valid()
      ensures r == FirstAnswer(providers, Names(SetUp()), text, old(asked))
      ensures var q := old(Now()).(asked := old(asked) + Tried(providers, Names(SetUp()), text, old(asked)));
              Now() == if r.None? then q else Stored(SetUp(), q, text, r.value)
    {
      r := AskInTurn(text);
      if r.Some? {
        Remember(text, r.value);
      }
    }

    // The vectors found in the cache, and the positions and texts of the others.
    method LookUpAll(texts: seq<string>, embeddings: array<Vector>) returns (indices: seq<nat>, uncached: seq<string>)
      requires embeddings.Length == |texts| && forall i :: 0 <= i < |texts| ==> embeddings[i] == []
      modifies `tick, embeddings
      ensures indices == Misses(SetUp(), old(Now()), texts, |texts|) && uncached == TextsAt(texts, indices)
      ensures embeddings[..] == Hits(SetUp(), old(Now()), texts) && Now() == old(Now()).(tick := old(tick) + |texts|)
    {
      indices, uncached := [], [];
      ghost var w, p := SetUp(), Now();
      for i := 0 to |texts|
        invariant SetUp() == w && Now() == p.(tick := p.tick + i)
        invariant LookedUp(w, p, texts, embeddings[..], indices, uncached, i)
      {
        var cached := LookUp(texts[i]);
        if cached.Some? {
          OneMoreHit(w, p, texts, embeddings[..], indices, uncached, i, cached.value);
          embeddings[i] := cached.value;
        } else {
          OneMoreMiss(w, p, texts, embeddings[..], indices, uncached, i);
          indices, uncached := indices + [i], uncached + [texts[i]];
        }
      }
    }

    // The vectors of a batch go to their positions and into the cache.
    method FillIn(embeddings: array<Vector>, indices: seq<nat>, uncached: seq<string>, batch: seq<Vector>)
      requires Fit(embeddings[..], indices, uncached) && |batch| <= |indices|
      requires Valid()
      modifies `tick, cache, embeddings
      ensures Valid()
      ensures embeddings[..] == Scatter(old(embeddings[..]), indices, batch)
      ensures Now() == StoredAll(SetUp(), old(Now()), uncached, batch, |batch|)
    {
      ghost var w, p, before := SetUp(), Now(), embeddings[..];
      for i := 0 to |batch|
        invariant Valid() && SetUp() == w && Now() == StoredAll(w, p, uncached, batch, i)
        invariant embeddings[..] == Scatter(before, indices, batch[..i])
      {
        ScatterMore(before, indices, batch[..i], batch[i]);
        assert batch[..i + 1] == batch[..i] + [batch[i]];
        embeddings[indices[i]] := batch[i];
        Remember(uncached[i], batch[i]);
      }
      assert batch[..|batch|] == batch;
    }

    // The batch call failed: each text is embedded by itself, until one fails.
    method OneByOne(embeddings: array<Vector>, indices: seq<nat>, uncached: seq<string>)
        returns (ok: bool, ghost n: nat)
      requires Fit(embeddings[..], indices, uncached)
      requires Valid()
      modifies `tick, `asked, cache, embeddings
      ensures Valid()
      ensures OneByOneGives(SetUp(), old(Now()), uncached, n, ok, Now())
      ensures ok ==> embeddings[..] == Scatter(old(embeddings[..]), indices, Answers(SetUp(), old(Now()), uncached, n))
    {
      ghost var w, p, before := SetUp(), Now(), embeddings[..];
      for i := 0 to |uncached|
        invariant Valid() && SetUp() == w && Now() == AfterAll(w, p, uncached, i) && Answered(w, p, uncached, i)
        invariant embeddings[..] == Scatter(before, indices, Answers(w, p, uncached, i))
      {
        var r := GenerateEmbedding(uncached[i]);
        assert r == AnswerOf(w, p, uncached, i) && Now() == AfterAll(w, p, uncached, i + 1);
        if r.None? {
          return false, i;
        }
        ScatterMore(before, indices, Answers(w, p, uncached, i), r.value);
        embeddings[indices[i]] := r.value;
      }
      return true, |uncached|;
    }

    /** The vectors of all texts, from the cache, from one batch call, or one by one. */
    method GenerateBatchEmbeddings(texts: seq<string>) returns (r: Option<seq<Vector>>)
      requires forall name :: name in providers ==> AtMostOnePerText(providers[name])
      requires Valid()
      modifies `tick, `asked, cache
      ensures Valid()
      ensures BatchGives(SetUp(), old(Now()), texts, r, Now())
    {
      var embeddings := new Vector[|texts|](_ => []);
      var indices, uncached := LookUpAll(texts, embeddings);
      if |uncached| == 0 {
        return Some(embeddings[..]);
      }
      if primary !in providers {
        return None;
      }
      r := CallBatch(embeddings, indices, uncached);
    }

    method CallBatch(embeddings: array<Vector>, indices: seq<nat>, uncached: seq<string>)
        returns (r: Option<seq<Vector>>)
      requires primary in providers && AtMostOnePerText(providers[primary]) && Fit(embeddings[..], indices, uncached)
      requires Valid()
      modifies `tick, `asked, cache, embeddings
      ensures Valid()
      ensures CallGives(SetUp(), old(Now()), old(embeddings[..]), indices, uncached, r, Now())
    {
      var batch := providers[primary].batch(uncached, asked);
      asked := asked + 1;
      if batch.Some? {
        FillIn(embeddings, indices, uncached, batch.value);
        return Some(embeddings[..]);
      }
      var ok, n := OneByOne(embeddings, indices, uncached);
      return if ok then Some(embeddings[..]) else None;
    }
  }
}
