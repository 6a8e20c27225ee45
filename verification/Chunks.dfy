/** The chunk stage of a cognify task (engine/task_cognify.go): a bounded group of goroutines
    that each write their own result slot, and the consolidation of the slots afterwards. */
module Chunks {
  import opened Text

  /** What one chunk yields; nodes and edges by identity. A chunk whose embedding or entity
      extraction fails yields nothing. */
  datatype ChunkResult = ChunkResult(embedding: seq<real>, nodes: seq<int>, edges: seq<int>)

  type Slots = seq<Option<ChunkResult>>

  // -------------------------------------------------------------- the goroutine group

  /** The loop has started the first `launched` goroutines, of which some still run. */
  datatype State = State(launched: nat, running: set<nat>, slots: Slots)

  datatype Action = Launch | Finish(i: nat)

  predicate Enabled(s: State, limit: nat, a: Action) {
    match a
    case Launch => s.launched < |s.slots| && |s.running| < limit
    case Finish(i) => i in s.running && i < |s.slots|
  }

  function Next(s: State, limit: nat, outcome: Slots, a: Action): State
    requires Enabled(s, limit, a) && |outcome| == |s.slots|
  {
    match a
    case Launch => s.(launched := s.launched + 1, running := s.running + {s.launched})
    case Finish(i) => s.(running := s.running - {i}, slots := s.slots[i := outcome[i]])
  }

  ghost predicate Init(s: State, outcome: Slots) {
    && s.launched == 0 && s.running == {} && |s.slots| == |outcome|
    && forall i :: 0 <= i < |s.slots| ==> s.slots[i] == None
  }

  // No slot is written but by its own goroutine, at its end.
  ghost predicate Inv(s: State, limit: nat, outcome: Slots) {
    && |s.slots| == |outcome| && s.launched <= |outcome| && |s.running| <= limit
    && (forall i :: i in s.running ==> i < s.launched)
    && (forall i :: 0 <= i < |outcome| ==> s.slots[i] == if i < s.launched && i !in s.running then outcome[i] else None)
  }

  ghost predicate Leads(s: State, limit: nat, outcome: Slots, acts: seq<Action>, end: State)
    requires |outcome| == |s.slots|
    decreases |acts|
  {
    if acts == [] then s == end
    else Enabled(s, limit, acts[0]) && Leads(Next(s, limit, outcome, acts[0]), limit, outcome, acts[1..], end)
  }

  function Left(s: State): int {
    2 * (|s.slots| - s.launched) + |s.running|
  }

  lemma NextInv(s: State, limit: nat, outcome: Slots, a: Action)
    requires Inv(s, limit, outcome) && Enabled(s, limit, a)
    ensures Inv(Next(s, limit, outcome, a), limit, outcome) && Left(Next(s, limit, outcome, a)) == Left(s) - 1
  {
    if a.Finish? {
      assert |s.running - {a.i}| == |s.running| - 1;
    } else {
      assert s.launched !in s.running;
    }
  }

  lemma {:induction false} RunInv(s: State, limit: nat, outcome: Slots, acts: seq<Action>, end: State)
    requires Inv(s, limit, outcome) && Leads(s, limit, outcome, acts, end)
    ensures Inv(end, limit, outcome) && Left(end) == Left(s) - |acts|
    decreases |acts|
  {
    if acts == [] {
    } else {
      NextInv(s, limit, outcome, acts[0]);
      RunInv(Next(s, limit, outcome, acts[0]), limit, outcome, acts[1..], end);
    }
  }

  /** In whatever order the goroutines end, never more of them than the limit run at once, a
      run that can go no further has taken two steps per chunk, and then every slot holds the
      outcome of its own chunk. */
  lemma EveryOrderFillsTheSlots(s: State, limit: nat, outcome: Slots, acts: seq<Action>, end: State)
    requires Init(s, outcome) && 0 < limit && Leads(s, limit, outcome, acts, end)
    ensures |end.running| <= limit
    ensures (forall a :: !Enabled(end, limit, a)) <==> |acts| == 2 * |outcome|
    ensures |acts| == 2 * |outcome| ==> end.slots == outcome
  {
    RunInv(s, limit, outcome, acts, end);
    if forall a :: !Enabled(end, limit, a) {
      if i :| i in end.running {
        assert Enabled(end, limit, Finish(i));
      }
      assert !Enabled(end, limit, Launch);
      assert end.running == {};
    }
  }

  // -------------------------------------------------------------------- consolidation

  function Found(slots: Slots): seq<ChunkResult> {
    if slots == [] then []
    else Found(slots[..|slots| - 1]) + if slots[|slots| - 1].Some? then [slots[|slots| - 1].value] else []
  }

  function NodesOf(found: seq<ChunkResult>): seq<int> {
    if found == [] then [] else NodesOf(found[..|found| - 1]) + found[|found| - 1].nodes
  }

  function EdgesOf(found: seq<ChunkResult>): seq<int> {
    if found == [] then [] else EdgesOf(found[..|found| - 1]) + found[|found| - 1].edges
  }

  function Embeddings(found: seq<ChunkResult>): (r: seq<seq<real>>)
    ensures |r| == |found| && forall i :: 0 <= i < |r| ==> r[i] == found[i].embedding
  {
    seq(|found|, i requires 0 <= i < |found| => found[i].embedding)
  }

  /** The loop over the slots: everything found, in chunk order. */
  method Consolidate(slots: Slots) returns (nodes: seq<int>, edges: seq<int>, embeddings: seq<seq<real>>)
    ensures nodes == NodesOf(Found(slots)) && edges == EdgesOf(Found(slots)) && embeddings == Embeddings(Found(slots))
  {
    nodes, edges, embeddings := [], [], [];
    ghost var found: seq<ChunkResult> := [];
    for i := 0 to |slots|
      invariant found == Found(slots[..i])
      invariant nodes == NodesOf(found) && edges == EdgesOf(found) && embeddings == Embeddings(found)
    {
      assert slots[..i + 1][..i] == slots[..i];
      if slots[i].Some? {
        var r := slots[i].value;
        OneMoreFound(found, r);
        embeddings := embeddings + [r.embedding];
        nodes := AppendEach(nodes, r.nodes);
        edges := edges + r.edges;
        found := found + [r];
      }
    }
    assert slots[..|slots|] == slots;
  }

  method AppendEach(all: seq<int>, nodes: seq<int>) returns (r: seq<int>)
    ensures r == all + nodes
  {
    r := all;
    for j := 0 to |nodes|
      invariant r == all + nodes[..j]
    {
      assert nodes[..j + 1] == nodes[..j] + [nodes[j]];
      r := r + [nodes[j]];
    }
    assert nodes[..|nodes|] == nodes;
  }

  lemma OneMoreFound(found: seq<ChunkResult>, r: ChunkResult)
    ensures NodesOf(found + [r]) == NodesOf(found) + r.nodes && EdgesOf(found + [r]) == EdgesOf(found) + r.edges
  {
    assert (found + [r])[..|found|] == found;
  }

  lemma {:induction false} FoundInOrder(a: Slots, b: Slots)
    ensures Found(a + b) == Found(a) + Found(b)
  {
    if b == [] {
      assert a + b == a;
    } else {
      assert (a + b)[..|a + b| - 1] == a + b[..|b| - 1];
      FoundInOrder(a, b[..|b| - 1]);
    }
  }

  lemma {:induction false} NodesInOrder(a: seq<ChunkResult>, b: seq<ChunkResult>)
    ensures NodesOf(a + b) == NodesOf(a) + NodesOf(b) && EdgesOf(a + b) == EdgesOf(a) + EdgesOf(b)
  {
    if b == [] {
      assert a + b == a;
    } else {
      assert (a + b)[..|a + b| - 1] == a + b[..|b| - 1];
      NodesInOrder(a, b[..|b| - 1]);
    }
  }

  /** Nothing found is lost, doubled or moved: what a part of the slots contributes stands
      together, after the contribution of the slots in front. */
  lemma ConsolidationKeepsOrder(a: Slots, b: Slots)
    ensures NodesOf(Found(a + b)) == NodesOf(Found(a)) + NodesOf(Found(b))
    ensures EdgesOf(Found(a + b)) == EdgesOf(Found(a)) + EdgesOf(Found(b))
    ensures Embeddings(Found(a + b)) == Embeddings(Found(a)) + Embeddings(Found(b))
  {
    FoundInOrder(a, b);
    NodesInOrder(Found(a), Found(b));
  }

  // ------------------------------------------------------------------ the average

  function SumAt(vectors: seq<seq<real>>, j: nat): real
    requires forall v :: v in vectors ==> j < |v|
  {
    if vectors == [] then 0.0
    else
      assert vectors[|vectors| - 1] in vectors;
      SumAt(vectors[..|vectors| - 1], j) + vectors[|vectors| - 1][j]
  }

  /** The document's embedding: times the number of chunks it is their sum. */
  method Average(vectors: seq<seq<real>>) returns (avg: array<real>)
    requires vectors != [] && forall v :: v in vectors ==> |v| >= |vectors[0]|
    ensures fresh(avg) && avg.Length == |vectors[0]|
    ensures forall j :: 0 <= j < avg.Length ==> avg[j] * |vectors| as real == SumAt(vectors, j)
  {
    var dim := |vectors[0]|;
    avg := new real[dim](_ => 0.0);
    for i := 0 to |vectors|
      invariant forall j :: 0 <= j < dim ==> avg[j] == SumAt(vectors[..i], j)
    {
      assert vectors[..i + 1][..i] == vectors[..i] && vectors[i] in vectors;
      AddVector(avg, vectors[i]);
    }
    assert vectors[..|vectors|] == vectors;
    DivideBy(avg, |vectors| as real);
  }

  method DivideBy(avg: array<real>, n: real)
    requires n > 0.0
    modifies avg
    ensures forall j :: 0 <= j < avg.Length ==> avg[j] * n == old(avg[j])
  {
    for j := 0 to avg.Length
      invariant forall k :: 0 <= k < j ==> avg[k] * n == old(avg[k])
      invariant forall k :: j <= k < avg.Length ==> avg[k] == old(avg[k])
    {
      avg[j] := Quotient(avg[j], n);
    }
  }

  function Quotient(x: real, n: real): (q: real)
    requires n > 0.0
    ensures q * n == x
  {
    x / n
  }

  method AddVector(avg: array<real>, v: seq<real>)
    requires |v| >= avg.Length
    modifies avg
    ensures forall j :: 0 <= j < avg.Length ==> avg[j] == old(avg[j]) + v[j]
  {
    for j := 0 to avg.Length
      invariant forall k :: 0 <= k < avg.Length ==> avg[k] == old(avg[k]) + if k < j then v[k] else 0.0
    {
      avg[j] := avg[j] + v[j];
    }
  }

  // ------------------------------------------------------ what that means for a caller

  /** An empty slot contributes nothing, and a filled one its nodes, edges and embedding. */
  lemma OneSlot(r: ChunkResult)
    ensures Found([None]) == [] && Found([Some(r)]) == [r]
    ensures NodesOf([r]) == r.nodes && EdgesOf([r]) == r.edges && Embeddings([r]) == [r.embedding]
  {
    var none: Slots, one: Slots := [None], [Some(r)];
    assert none[..0] == [] && one[..0] == [];
    OneFound(r);
  }

  lemma OneFound(r: ChunkResult)
    ensures NodesOf([r]) == r.nodes && EdgesOf([r]) == r.edges && Embeddings([r]) == [r.embedding]
  {
    var one := [r];
    assert one[..0] == [];
    assert NodesOf([]) == [] && EdgesOf([]) == [];
    assert NodesOf(one) == [] + r.nodes && EdgesOf(one) == [] + r.edges;
  }

  /** The sum of a component, vector by vector. */
  lemma SumMeans(vectors: seq<seq<real>>, v: seq<real>, j: nat)
    requires j < |v| && forall u :: u in vectors ==> j < |u|
    ensures SumAt([], j) == 0.0 && SumAt(vectors + [v], j) == SumAt(vectors, j) + v[j]
  {
    assert (vectors + [v])[..|vectors|] == vectors;
  }
}
