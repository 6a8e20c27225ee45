/** `CognifyPending` (engine/engine_core.go) and the synchronous path of `CognifyTask` and
    `MemifyTask` below it, on a store that does not fail. */
module Pending {
  import opened DataPoints

  /** The rows that a sweep takes up. */
  predicate InWork(r: Row) {
    r.status == Pending || r.status == Processing
  }

  ghost function Workload(rows: Rows): set<Id> {
    set id | id in rows && InWork(rows[id])
  }

  // ---------------------------------------------------------- what one sweep does

  // A document of P that is not split yet is split, and its chunks are made anew.
  ghost predicate Remade(rows: Rows, P: set<Id>, size: nat -> nat, id: Id) {
    id.Child? && Doc(id.doc) in rows && Doc(id.doc) in P && rows[Doc(id.doc)].DocRow? && !rows[Doc(id.doc)].split
    && id.index < size(id.doc)
  }

  // A document is synchronized when it is taken up itself or one of its chunks is.
  ghost predicate Touched(P: set<Id>, d: nat) {
    Doc(d) in P || exists id :: id in P && IsChunkOf(id, d)
  }

  ghost predicate HasRow(rows: Rows, P: set<Id>, size: nat -> nat, id: Id) {
    id in rows || Remade(rows, P, size, id)
  }

  // The chunk rows after the rows of P were processed.
  ghost function ChunkAfter(rows: Rows, P: set<Id>, size: nat -> nat, id: Id): Row
    requires id.Child? && HasRow(rows, P, size, id)
  {
    if id in P || Remade(rows, P, size, id) then ChunkRow(Completed) else rows[id]
  }

  ghost predicate CompletedAfter(rows: Rows, P: set<Id>, size: nat -> nat, d: nat) {
    && (exists id :: IsChunkOf(id, d) && HasRow(rows, P, size, id))
    && (forall id :: IsChunkOf(id, d) && HasRow(rows, P, size, id) ==>
        ChunkAfter(rows, P, size, id).status == Completed)
  }

  ghost function DocAfter(rows: Rows, P: set<Id>, size: nat -> nat, id: Id): Row
    requires id.Doc? && id in rows
  {
    if Touched(P, id.doc) && rows[id].DocRow?
    then DocRow(if CompletedAfter(rows, P, size, id.doc) then Completed else Processing, rows[id].split || id in P)
    else rows[id]
  }

  /** rows' are the rows after those of P were processed, in whatever order. */
  ghost predicate After(rows: Rows, P: set<Id>, size: nat -> nat, rows': Rows) {
    && (forall id :: id in rows' <==> HasRow(rows, P, size, id))
    && (forall id :: id in rows' && id.Child? ==> rows'[id] == ChunkAfter(rows, P, size, id))
    && (forall id :: id in rows' && id.Doc? ==> rows'[id] == DocAfter(rows, P, size, id))
  }

  // The rows of a document that was split, all its new chunks completed.
  ghost predicate SplitTo(rows: Rows, d: nat, n: nat, rows': Rows) {
    && (forall id :: id in rows' <==> id in rows || (IsChunkOf(id, d) && id.index < n))
    && (forall id :: id in rows' && id != Doc(d) ==>
          rows'[id] == if IsChunkOf(id, d) && id.index < n then ChunkRow(Completed) else rows[id])
    && (Doc(d) in rows' ==> rows'[Doc(d)] == DocRow(SyncedStatus(rows', d), true))
  }

  lemma OtherDocs(rows: Rows, P: set<Id>, size: nat -> nat, x: Id, d: nat)
    requires x.doc != d
    ensures Touched(P + {x}, d) <==> Touched(P, d)
    ensures forall id :: IsChunkOf(id, d) ==>
              && (Remade(rows, P + {x}, size, id) <==> Remade(rows, P, size, id))
              && (HasRow(rows, P, size, id) ==> ChunkAfter(rows, P + {x}, size, id) == ChunkAfter(rows, P, size, id))
    ensures CompletedAfter(rows, P + {x}, size, d) <==> CompletedAfter(rows, P, size, d)
  {
    if Touched(P, d) && Doc(d) !in P {
      var id :| id in P && IsChunkOf(id, d);
      assert id in P + {x};
    }
    assert forall id :: IsChunkOf(id, d) ==> (HasRow(rows, P + {x}, size, id) <==> HasRow(rows, P, size, id));
  }

  lemma CompletedIsAllCompleted(rows: Rows, P: set<Id>, size: nat -> nat, rows': Rows, d: nat)
    requires forall id :: IsChunkOf(id, d) ==> (id in rows' <==> HasRow(rows, P, size, id))
    requires forall id :: id in rows' && IsChunkOf(id, d) ==> rows'[id] == ChunkAfter(rows, P, size, id)
    ensures AllCompleted(rows', d) <==> CompletedAfter(rows, P, size, d)
  {
  }

  /** Processing one more chunk row, from whatever copy of it, adds it to the set. */
  lemma OneMoreChunk(rows: Rows, P: set<Id>, size: nat -> nat, rows': Rows, x: Id)
    requires Typed(rows) && After(rows, P, size, rows') && x.Child? && x in rows
    ensures After(rows, P + {x}, size, SyncDoc(rows'[x := ChunkRow(Completed)], x.doc))
  {
    var mid := rows'[x := ChunkRow(Completed)];
    var end := SyncDoc(mid, x.doc);
    assert forall id :: Remade(rows, P + {x}, size, id) <==> Remade(rows, P, size, id);
    assert forall id: Id :: id.Child? && id in mid ==> mid[id] == ChunkAfter(rows, P + {x}, size, id);
    CompletedIsAllCompleted(rows, P + {x}, size, mid, x.doc);
    forall id | id in end && id.Doc?
      ensures end[id] == DocAfter(rows, P + {x}, size, id)
    {
      if id.doc != x.doc {
        OtherDocs(rows, P, size, x, id.doc);
      } else {
        assert x in P + {x} && IsChunkOf(x, id.doc);
      }
    }
  }

  /** Processing a document that is split already synchronizes it. */
  lemma OneMoreSplitDoc(rows: Rows, P: set<Id>, size: nat -> nat, rows': Rows, x: Id)
    requires Typed(rows) && After(rows, P, size, rows') && x.Doc? && x in rows && rows[x].split
    ensures After(rows, P + {x}, size, rows'[x := DocRow(SyncedStatus(rows', x.doc), true)])
  {
    var end := rows'[x := DocRow(SyncedStatus(rows', x.doc), true)];
    assert forall id :: Remade(rows, P + {x}, size, id) <==> Remade(rows, P, size, id);
    CompletedIsAllCompleted(rows, P + {x}, size, rows', x.doc);
    forall id | id in end && id.Doc?
      ensures end[id] == DocAfter(rows, P + {x}, size, id)
    {
      if id.doc != x.doc {
        OtherDocs(rows, P, size, x, id.doc);
      }
    }
  }

  /** Processing a document that is not split makes its chunks and completes them. */
  lemma OneMoreNewDoc(rows: Rows, P: set<Id>, size: nat -> nat, rows': Rows, x: Id, rows'': Rows)
    requires Typed(rows) && After(rows, P, size, rows') && x.Doc? && x in rows && !rows[x].split && x !in P
    requires SplitTo(rows', x.doc, size(x.doc), rows'')
    ensures After(rows, P + {x}, size, rows'')
  {
    forall id: Id | id.Child?
      ensures Remade(rows, P + {x}, size, id) <==>
                Remade(rows, P, size, id) || (IsChunkOf(id, x.doc) && id.index < size(x.doc))
    {
    }
    assert forall id :: id in rows'' && id.Child? ==> rows''[id] == ChunkAfter(rows, P + {x}, size, id);
    CompletedIsAllCompleted(rows, P + {x}, size, rows'', x.doc);
    forall id | id in rows'' && id.Doc?
      ensures rows''[id] == DocAfter(rows, P + {x}, size, id)
    {
      if id.doc != x.doc {
        OtherDocs(rows, P, size, x, id.doc);
      }
    }
  }

  // -------------------------------------------------------------------- the tasks

  /** The relational store: a key-value map that answers a query with copies of all rows of
      the session, in some order. */
  class Store {
    var rows: Rows

    constructor (rows: Rows)
      ensures this.rows == rows
    {
      this.rows := rows;
    }

    method Update(id: Id, row: Row)
      modifies this
      ensures rows == old(rows)[id := row]
    {
      rows := rows[id := row];
    }

    method Query() returns (ids: seq<Id>, copies: seq<Row>)
      ensures |ids| == |copies| && (forall i :: 0 <= i < |ids| ==> ids[i] in rows && copies[i] == rows[ids[i]])
      ensures (forall id :: id in rows ==> id in ids) && (forall i, j :: 0 <= i < j < |ids| ==> ids[i] != ids[j])
    {
      ids, copies := [], [];
      var rest := rows.Keys;
      while rest != {}
        invariant rest <= rows.Keys && |ids| == |copies|
        invariant forall i :: 0 <= i < |ids| ==> ids[i] in rows && copies[i] == rows[ids[i]] && ids[i] !in rest
        invariant forall id :: id in rows ==> id in rest || id in ids
        invariant forall i, j :: 0 <= i < j < |ids| ==> ids[i] != ids[j]
        decreases |rest|
      {
        var id :| id in rest;
        ids, copies, rest := ids + [id], copies + [rows[id]], rest - {id};
      }
    }
  }

  /** syncParentStatusFromChildren: count the chunk rows, then write the parent's copy. */
  method SyncParent(store: Store, d: nat, copy: Row)
    requires copy.DocRow?
    modifies store
    ensures store.rows == old(store.rows)[Doc(d) := DocRow(SyncedStatus(old(store.rows), d), copy.split)]
  {
    var ids, copies := store.Query();
    var total, completed := 0, 0;
    for i := 0 to |ids|
      invariant 0 <= completed <= total
      invariant total == 0 <==> forall k :: 0 <= k < i ==> !IsChunkOf(ids[k], d)
      invariant completed == total <==> forall k :: 0 <= k < i && IsChunkOf(ids[k], d) ==> copies[k].status == Completed
    {
      if IsChunkOf(ids[i], d) {
        total := total + 1;
        if copies[i].status == Completed {
          completed := completed + 1;
        }
      }
    }
    assert total > 0 && completed >= total <==> AllCompleted(store.rows, d) by {
      if total > 0 {
        var k :| 0 <= k < |ids| && IsChunkOf(ids[k], d);
      }
    }
    var status := if total > 0 && completed >= total then Completed else Processing;
    store.Update(Doc(d), DocRow(status, copy.split));
  }

  /** MemifyTask.Execute: only a cognified row may be completed, and then its parent follows. */
  method Memify(store: Store, id: Id, status: Status) returns (ok: bool)
    requires id.Child? && Typed(store.rows)
    modifies store
    ensures ok <==> status == Cognified
    ensures store.rows == if ok then SyncDoc(old(store.rows)[id := ChunkRow(Completed)], id.doc) else old(store.rows)
  {
    if status != Cognified {
      return false;
    }
    store.Update(id, ChunkRow(Completed));
    if Doc(id.doc) in store.rows {
      SyncParent(store, id.doc, store.rows[Doc(id.doc)]);
    }
    return true;
  }

  /** CognifyTask.Execute for a chunk row, whatever its row says now. */
  method ExecuteChunk(store: Store, id: Id) returns (ok: bool)
    requires id.Child? && Typed(store.rows)
    modifies store
    ensures ok && store.rows == SyncDoc(old(store.rows)[id := ChunkRow(Completed)], id.doc)
  {
    store.Update(id, ChunkRow(Processing));
    store.Update(id, ChunkRow(Cognified));
    ok := Memify(store, id, Cognified);
    assert old(store.rows)[id := ChunkRow(Processing)][id := ChunkRow(Cognified)][id := ChunkRow(Completed)]
        == old(store.rows)[id := ChunkRow(Completed)];
  }

  // Between the first and the last chunk of a document that is being split.
  ghost predicate Splitting(rows: Rows, d: nat, n: nat, done: nat, rows': Rows) {
    && (forall id :: id in rows' <==> id in rows || (IsChunkOf(id, d) && id.index < n))
    && (forall id :: id in rows' && id != Doc(d) ==>
          rows'[id] == if IsChunkOf(id, d) && id.index < done then ChunkRow(Completed)
                       else if IsChunkOf(id, d) && id.index < n then ChunkRow(Pending)
                       else rows[id])
    && Doc(d) in rows' && rows'[Doc(d)].DocRow?
  }

  /** CognifyTask.Execute for a document that is not split: make the chunk rows, mark the
      document, process the chunks one after the other, synchronize. */
  method ExecuteNewDoc(store: Store, d: nat, size: nat -> nat) returns (ok: bool)
    requires Doc(d) in store.rows && Typed(store.rows) && size(d) > 0
    modifies store
    ensures ok && Typed(store.rows) && SplitTo(old(store.rows), d, size(d), store.rows)
  {
    var n := size(d);
    for i := 0 to n
      invariant Splitting(old(store.rows), d, i, 0, store.rows)
      invariant store.rows[Doc(d)] == old(store.rows)[Doc(d)]
    {
      store.Update(Child(d, i), ChunkRow(Pending));
    }
    store.Update(Doc(d), DocRow(Processing, true));
    for i := 0 to n
      invariant Splitting(old(store.rows), d, n, i, store.rows) && Typed(store.rows)
    {
      ghost var before := store.rows;
      var fine := ExecuteChunk(store, Child(d, i));
      SplittingMore(old(store.rows), d, n, i, before, store.rows);
    }
    SyncParent(store, d, DocRow(Processing, true));
    ok := true;
    SplittingDone(old(store.rows), d, n, store.rows);
  }

  lemma SplittingMore(rows: Rows, d: nat, n: nat, i: nat, before: Rows, after: Rows)
    requires Typed(rows) && Typed(before) && i < n && Splitting(rows, d, n, i, before)
    requires after == SyncDoc(before[Child(d, i) := ChunkRow(Completed)], d)
    ensures Splitting(rows, d, n, i + 1, after) && Typed(after)
  {
  }

  lemma SplittingDone(rows: Rows, d: nat, n: nat, after: Rows)
    requires Typed(rows) && Splitting(rows, d, n, n, after)
    requires exists mid: Rows ::
               Splitting(rows, d, n, n, mid) && after == mid[Doc(d) := DocRow(SyncedStatus(mid, d), true)]
    ensures SplitTo(rows, d, n, after) && Typed(after)
  {
    var mid: Rows :| Splitting(rows, d, n, n, mid) && after == mid[Doc(d) := DocRow(SyncedStatus(mid, d), true)];
    SyncSeesChunksOnly(mid, after, d);
  }

  lemma SyncSeesChunksOnly(a: Rows, b: Rows, d: nat)
    requires forall id :: IsChunkOf(id, d) ==> (id in a <==> id in b) && (id in a ==> a[id] == b[id])
    ensures SyncedStatus(a, d) == SyncedStatus(b, d)
  {
  }

  // ------------------------------------------------------------------- the sweeps

  /** CognifyTask.Execute for a document, from the copy of its row. */
  method ExecuteDoc(store: Store, d: nat, copy: Row, size: nat -> nat) returns (ok: bool)
    requires Doc(d) in store.rows && Typed(store.rows) && size(d) > 0 && copy.DocRow?
    modifies store
    ensures ok
    ensures copy.split ==> store.rows == old(store.rows)[Doc(d) := DocRow(SyncedStatus(old(store.rows), d), true)]
    ensures !copy.split ==> SplitTo(old(store.rows), d, size(d), store.rows)
  {
    if copy.split {
      SyncParent(store, d, copy);
      ok := true;
    } else {
      ok := ExecuteNewDoc(store, d, size);
    }
  }

  /** One row of the workload, from the copy that the query gave. */
  method TakeUp(store: Store, id: Id, copy: Row, size: nat -> nat, ghost rows: Rows, ghost P: set<Id>)
      returns (ok: bool)
    requires Typed(rows) && id in rows && copy == rows[id] && InWork(copy) && id !in P
    requires After(rows, P, size, store.rows) && forall d :: size(d) > 0
    modifies store
    ensures ok && After(rows, P + {id}, size, store.rows)
  {
    ghost var before := store.rows;
    AfterIsTyped(rows, P, size, before);
    if copy.status == Processing {
      store.Update(id, copy.(status := Pending));
    }
    ghost var reset := store.rows;
    assert reset == before || reset == before[id := copy.(status := Pending)];
    if id.Child? {
      ok := ExecuteChunk(store, id);
      assert reset[id := ChunkRow(Completed)] == before[id := ChunkRow(Completed)];
      OneMoreChunk(rows, P, size, before, id);
    } else {
      ok := ExecuteDoc(store, id.doc, copy, size);
      DocTakenUp(rows, P, size, before, reset, id, copy, store.rows);
    }
  }

  lemma DocTakenUp(rows: Rows, P: set<Id>, size: nat -> nat, before: Rows, reset: Rows, id: Id, copy: Row, after: Rows)
    requires Typed(rows) && id in rows && id.Doc? && copy == rows[id] && id !in P && After(rows, P, size, before)
    requires reset == before || reset == before[id := copy.(status := Pending)]
    requires copy.split ==> after == reset[id := DocRow(SyncedStatus(reset, id.doc), true)]
    requires !copy.split ==> SplitTo(reset, id.doc, size(id.doc), after)
    ensures After(rows, P + {id}, size, after)
  {
    SyncSeesChunksOnly(before, reset, id.doc);
    if copy.split {
      assert after == before[id := DocRow(SyncedStatus(before, id.doc), true)];
      OneMoreSplitDoc(rows, P, size, before, id);
    } else {
      assert SplitTo(before, id.doc, size(id.doc), after);
      OneMoreNewDoc(rows, P, size, before, id, after);
    }
  }

  /** One turn of the loop of CognifyPending: the rows of the workload are taken up one
      after the other, each from its copy, which may be out of date by then. */
  method Sweep(store: Store, size: nat -> nat) returns (empty: bool, progress: bool)
    requires Typed(store.rows) && forall d :: size(d) > 0
    modifies store
    ensures empty <==> Workload(old(store.rows)) == {}
    ensures empty ==> store.rows == old(store.rows)
    ensures !empty ==> progress && After(old(store.rows), Workload(old(store.rows)), size, store.rows)
    ensures Typed(store.rows)
  {
    ghost var rows := store.rows;
    var ids, copies := store.Query();
    var workload := Select(copies);
    WorkloadOfQuery(rows, ids, copies, workload);
    progress := false;
    empty := |workload| == 0;
    if !empty {
      progress := TakeUpAll(store, ids, copies, workload, size);
      AfterIsTyped(rows, Workload(rows), size, store.rows);
    }
  }

  // The positions of the copies that are pending or processing.
  method Select(copies: seq<Row>) returns (workload: seq<nat>)
    ensures forall k :: 0 <= k < |workload| ==> workload[k] < |copies| && InWork(copies[workload[k]])
    ensures forall k, l :: 0 <= k < l < |workload| ==> workload[k] < workload[l]
    ensures forall j :: 0 <= j < |copies| && InWork(copies[j]) ==> j in workload
  {
    workload := [];
    for i := 0 to |copies|
      invariant forall k :: 0 <= k < |workload| ==> workload[k] < i && InWork(copies[workload[k]])
      invariant forall k, l :: 0 <= k < l < |workload| ==> workload[k] < workload[l]
      invariant forall j :: 0 <= j < i && InWork(copies[j]) ==> j in workload
    {
      if InWork(copies[i]) {
        workload := workload + [i];
      }
    }
  }

  method TakeUpAll(store: Store, ids: seq<Id>, copies: seq<Row>, workload: seq<nat>, size: nat -> nat)
      returns (progress: bool)
    requires Typed(store.rows) && forall d :: size(d) > 0
    requires |ids| == |copies|
               && (forall i :: 0 <= i < |ids| ==> ids[i] in store.rows && copies[i] == store.rows[ids[i]])
    requires forall i, j :: 0 <= i < j < |ids| ==> ids[i] != ids[j]
    requires forall k :: 0 <= k < |workload| ==> workload[k] < |copies| && InWork(copies[workload[k]])
    requires forall k, l :: 0 <= k < l < |workload| ==> workload[k] < workload[l]
    modifies store
    ensures After(old(store.rows), TakenUp(ids, workload), size, store.rows)
    ensures progress <==> |workload| > 0
  {
    progress := false;
    ghost var rows := store.rows;
    ghost var P: set<Id> := {};
    assert After(rows, P, size, store.rows);
    for k := 0 to |workload|
      invariant P == TakenUp(ids, workload[..k])
      invariant After(rows, P, size, store.rows)
      invariant progress <==> k > 0
    {
      var j := workload[k];
      NotTakenUp(ids, workload, k);
      var ok := TakeUp(store, ids[j], copies[j], size, rows, P);
      P := P + {ids[j]};
      if ok {
        progress := true;
      }
    }
    assert workload[..|workload|] == workload;
  }

  lemma AfterIsTyped(rows: Rows, P: set<Id>, size: nat -> nat, rows': Rows)
    requires Typed(rows) && After(rows, P, size, rows')
    ensures Typed(rows')
  {
  }

  ghost function TakenUp(ids: seq<Id>, indices: seq<nat>): set<Id>
    requires forall i :: 0 <= i < |indices| ==> indices[i] < |ids|
  {
    set j | j in indices :: ids[j]
  }

  lemma NotTakenUp(ids: seq<Id>, workload: seq<nat>, k: nat)
    requires k < |workload| && (forall i :: 0 <= i < |workload| ==> workload[i] < |ids|)
    requires forall i, j :: 0 <= i < j < |ids| ==> ids[i] != ids[j]
    requires forall i, j :: 0 <= i < j < |workload| ==> workload[i] < workload[j]
    ensures ids[workload[k]] !in TakenUp(ids, workload[..k])
    ensures TakenUp(ids, workload[..k + 1]) == TakenUp(ids, workload[..k]) + {ids[workload[k]]}
  {
    assert workload[..k + 1] == workload[..k] + [workload[k]];
    forall j | j in workload[..k]
      ensures j < |ids| && ids[j] != ids[workload[k]]
    {
      var i :| 0 <= i < k && workload[i] == j;
    }
  }

  lemma WorkloadOfQuery(rows: Rows, ids: seq<Id>, copies: seq<Row>, workload: seq<nat>)
    requires |ids| == |copies| && (forall i :: 0 <= i < |ids| ==> ids[i] in rows && copies[i] == rows[ids[i]])
    requires forall id :: id in rows ==> id in ids
    requires forall k :: 0 <= k < |workload| ==> workload[k] < |copies| && InWork(copies[workload[k]])
    requires forall j :: 0 <= j < |copies| && InWork(copies[j]) ==> j in workload
    ensures TakenUp(ids, workload) == Workload(rows)
    ensures workload == [] <==> Workload(rows) == {}
  {
    forall id | id in Workload(rows)
      ensures id in TakenUp(ids, workload)
    {
      var i :| 0 <= i < |ids| && ids[i] == id;
      assert i in workload;
    }
    if workload != [] {
      assert ids[workload[0]] in Workload(rows);
    }
  }

  /** What one sweep does, row by row. A chunk that is pending or in processing is completed, and
      so are the chunks that a document gets when it is split; all other chunks stay. */
  lemma SweptChunks(rows: Rows, size: nat -> nat, rows': Rows, d: nat, k: nat)
    requires Typed(rows) && After(rows, Workload(rows), size, rows')
    ensures var c, work := Child(d, k), Doc(d) in rows && rows[Doc(d)].status in {Pending, Processing};
            var made := work && !rows[Doc(d)].split && k < size(d);
            && (c in rows' <==> c in rows || made)
            && (c in rows' ==> rows'[c] == if made || rows[c].status in {Pending, Processing} then ChunkRow(Completed)
                                           else rows[c])
  {
  }

  /** A document that is taken up, or has a chunk that is, is completed exactly when it has chunks
      and all of them are completed now, and in processing otherwise; all other documents stay. */
  lemma SweptDocs(rows: Rows, size: nat -> nat, rows': Rows, d: nat)
    requires Typed(rows) && After(rows, Workload(rows), size, rows') && Doc(d) in rows
    ensures Doc(d) in rows' && rows'[Doc(d)].DocRow?
    ensures var work := rows[Doc(d)].status in {Pending, Processing};
            var touched := work
              || exists k: nat :: Child(d, k) in rows && rows[Child(d, k)].status in {Pending, Processing};
            && (!touched ==> rows'[Doc(d)] == rows[Doc(d)])
            && (touched ==>
                  && (rows'[Doc(d)].split <==> rows[Doc(d)].split || work)
                  && rows'[Doc(d)].status in {Completed, Processing}
                  && (rows'[Doc(d)].status == Completed <==>
                        (exists k: nat :: Child(d, k) in rows') && (forall k: nat :: Child(d, k) in rows' ==>
                            rows'[Child(d, k)].status == Completed)))
  {
    var W := Workload(rows);
    if Touched(W, d) && Doc(d) !in W {
      var id :| id in W && IsChunkOf(id, d);
      assert id == Child(d, id.index);
    }
    if k: nat :| Child(d, k) in rows && rows[Child(d, k)].status in {Pending, Processing} {
      assert Child(d, k) in W && IsChunkOf(Child(d, k), d);
    }
    CompletedNow(rows, W, size, rows', d);
  }

  lemma CompletedNow(rows: Rows, P: set<Id>, size: nat -> nat, rows': Rows, d: nat)
    requires After(rows, P, size, rows')
    ensures CompletedAfter(rows, P, size, d) <==>
              (exists k: nat :: Child(d, k) in rows')
              && (forall k: nat :: Child(d, k) in rows' ==> rows'[Child(d, k)].status == Completed)
  {
    if id :| IsChunkOf(id, d) && HasRow(rows, P, size, id) {
      assert id == Child(d, id.index) && Child(d, id.index) in rows';
    }
    forall id | IsChunkOf(id, d) && HasRow(rows, P, size, id)
      ensures id == Child(d, id.index) && id in rows' && rows'[id] == ChunkAfter(rows, P, size, id)
    {
    }
    if k: nat :| Child(d, k) in rows' {
      assert HasRow(rows, P, size, Child(d, k)) && IsChunkOf(Child(d, k), d);
    }
    forall k: nat | Child(d, k) in rows'
      ensures HasRow(rows, P, size, Child(d, k)) && IsChunkOf(Child(d, k), d)
    {
    }
  }

  // ------------------------------------------------------- when the sweeps come to an end

  /** A chunk row that a sweep can complete, or that is complete. */
  predicate Fine(r: Row) {
    r.status == Pending || r.status == Processing || r.status == Completed
  }

  ghost predicate BadChunk(rows: Rows, d: nat, id: Id) {
    id in rows && IsChunkOf(id, d) && !Fine(rows[id])
  }

  /** A document that some sweep takes up or synchronizes and that can never be completed:
      it is split and has no chunk row or one that no sweep will process; or it is not split
      and has such a chunk row beyond those that splitting it makes anew. */
  ghost predicate Lost(rows: Rows, size: nat -> nat, d: nat) {
    && Doc(d) in rows && rows[Doc(d)].DocRow? && Touched(Workload(rows), d)
    && if rows[Doc(d)].split
       then (forall id :: id in rows ==> !IsChunkOf(id, d)) || exists id :: BadChunk(rows, d, id)
       else exists id :: BadChunk(rows, d, id) && id.index >= size(d)
  }

  ghost predicate NoneLost(rows: Rows, size: nat -> nat) {
    forall d :: !Lost(rows, size, d)
  }

  // After a sweep only documents are in the workload.
  lemma OnlyDocsLeft(rows: Rows, size: nat -> nat, rows': Rows, id: Id)
    requires Typed(rows) && After(rows, Workload(rows), size, rows') && id in Workload(rows')
    ensures id.Doc? && id in rows && Touched(Workload(rows), id.doc)
              && !CompletedAfter(rows, Workload(rows), size, id.doc)
    ensures rows'[id] == DocRow(Processing, rows[id].split || id in Workload(rows))
  {
  }

  /** Lost sessions exist: a split document in processing, one chunk of which has failed. */
  lemma FailedChunkIsLost(d: nat, size: nat -> nat)
    ensures var rows := map[Doc(d) := DocRow(Processing, true), Child(d, 0) := ChunkRow(Failed)];
            Typed(rows) && Lost(rows, size, d)
  {
    var rows := map[Doc(d) := DocRow(Processing, true), Child(d, 0) := ChunkRow(Failed)];
    assert Doc(d) in Workload(rows);
    assert BadChunk(rows, d, Child(d, 0));
  }

  /** A lost document is lost after the sweep as well. */
  lemma LostStaysLost(rows: Rows, size: nat -> nat, rows': Rows, d: nat)
    requires Typed(rows) && After(rows, Workload(rows), size, rows') && Lost(rows, size, d)
    ensures Lost(rows', size, d)
  {
    var W := Workload(rows);
    if exists id :: BadChunk(rows, d, id) && (rows[Doc(d)].split || id.index >= size(d)) {
      var id :| BadChunk(rows, d, id) && (rows[Doc(d)].split || id.index >= size(d));
      assert id !in W && !Remade(rows, W, size, id);
      assert HasRow(rows, W, size, id) && ChunkAfter(rows, W, size, id) == rows[id];
      assert BadChunk(rows', d, id);
    }
    assert !CompletedAfter(rows, W, size, d);
    assert rows'[Doc(d)] == DocAfter(rows, W, size, Doc(d));
    assert Doc(d) in Workload(rows');
  }

  /** Without a lost document none gets lost, and a document left for the next sweep is one
      that is only then split. */
  lemma NoneGetsLost(rows: Rows, size: nat -> nat, rows': Rows, d: nat)
    requires Typed(rows) && After(rows, Workload(rows), size, rows') && NoneLost(rows, size) && forall n :: size(n) > 0
    requires Doc(d) in Workload(rows')
    ensures !Lost(rows', size, d) && !rows'[Doc(d)].split
  {
    var W := Workload(rows);
    OnlyDocsLeft(rows, size, rows', Doc(d));
    assert !Lost(rows, size, d);
    if rows[Doc(d)].split || Doc(d) in W {
      // split now: every chunk row is completed, so the document would be, too
      if !rows[Doc(d)].split {
        assert Remade(rows, W, size, Child(d, 0));
        assert HasRow(rows, W, size, Child(d, 0));
      } else {
        var id :| id in rows && IsChunkOf(id, d);
        assert HasRow(rows, W, size, id);
      }
      forall id | IsChunkOf(id, d) && HasRow(rows, W, size, id)
        ensures ChunkAfter(rows, W, size, id).status == Completed
      {
        if id in rows && id !in W && !Remade(rows, W, size, id) {
          assert !BadChunk(rows, d, id);
        }
      }
      assert CompletedAfter(rows, W, size, d);
      assert false;
    }
    forall id | BadChunk(rows', d, id)
      ensures id.index < size(d)
    {
      assert rows'[id] == ChunkAfter(rows, W, size, id);
      assert BadChunk(rows, d, id);
    }
  }

  /** Two sweeps leave no work when no document is lost. */
  lemma TwoSweepsSuffice(rows: Rows, size: nat -> nat, rows': Rows, rows'': Rows)
    requires Typed(rows) && NoneLost(rows, size) && forall d :: size(d) > 0
    requires After(rows, Workload(rows), size, rows') && After(rows', Workload(rows'), size, rows'')
    ensures Workload(rows'') == {}
  {
    AfterIsTyped(rows, Workload(rows), size, rows');
    forall d
      ensures !Lost(rows', size, d)
    {
      if Lost(rows', size, d) {
        TouchedIsLeft(rows, size, rows', d);
        NoneGetsLost(rows, size, rows', d);
      }
    }
    forall id | id in Workload(rows'')
      ensures false
    {
      OnlyDocsLeft(rows', size, rows'', id);
      TouchedIsLeft(rows, size, rows', id.doc);
      NoneGetsLost(rows, size, rows', id.doc);
      NoneGetsLost(rows', size, rows'', id.doc);
    }
  }

  // In the second sweep a document is touched only if it is taken up.
  lemma TouchedIsLeft(rows: Rows, size: nat -> nat, rows': Rows, d: nat)
    requires Typed(rows) && After(rows, Workload(rows), size, rows') && Touched(Workload(rows'), d)
    ensures Doc(d) in Workload(rows')
  {
    if Doc(d) !in Workload(rows') {
      var id :| id in Workload(rows') && IsChunkOf(id, d);
      OnlyDocsLeft(rows, size, rows', id);
    }
  }

  lemma LostMeansWork(rows: Rows, size: nat -> nat, d: nat)
    requires Lost(rows, size, d)
    ensures Workload(rows) != {}
  {
  }

  /** `CognifyPending`, cut off after a number of sweeps. It comes to an end by itself, and
      then within three turns, exactly when no document of the session is lost; otherwise
      no number of sweeps is enough. */
  method CognifyPending(store: Store, size: nat -> nat, sweeps: nat) returns (done: bool)
    requires Typed(store.rows) && forall d :: size(d) > 0
    modifies store
    ensures done ==> Workload(store.rows) == {} && NoneLost(old(store.rows), size)
    ensures done ==> forall id :: id in store.rows ==> store.rows[id].status !in {Pending, Processing}
    ensures sweeps >= 3 && NoneLost(old(store.rows), size) ==> done
    ensures done && AllWell(old(store.rows)) ==> forall id :: id in store.rows ==> store.rows[id].status == Completed
    ensures sweeps >= 2 && AllWell(old(store.rows)) ==> done
  {
    done := false;
    ghost var start, before := store.rows, store.rows;
    for k := 0 to sweeps
      invariant !done && Swept(start, k, before, store.rows, size)
    {
      ghost var now := store.rows;
      var empty, progress := Sweep(store, size);
      if empty {
        SweptEnds(start, k, before, now, size);
        NothingInWork(store.rows);
        return true;
      }
      if !progress {
        break;
      }
      SweptMore(start, k, before, now, store.rows, size);
      before := now;
    }
  }

  lemma NothingInWork(rows: Rows)
    requires Workload(rows) == {}
    ensures forall id :: id in rows ==> rows[id].status !in {Pending, Processing}
  {
    forall id | id in rows
      ensures rows[id].status !in {Pending, Processing}
    {
      assert id !in Workload(rows);
    }
  }

  // What is known after k sweeps, none of which found the workload empty.
  ghost predicate Swept(start: Rows, k: nat, before: Rows, now: Rows, size: nat -> nat) {
    && Typed(start) && Typed(before) && Typed(now)
    && (k == 0 ==> now == start)
    && (k == 1 ==> before == start)
    && (k > 0 ==> After(before, Workload(before), size, now))
    && (!NoneLost(start, size) ==> !NoneLost(now, size))
    && (k >= 2 && NoneLost(start, size) ==> Workload(now) == {})
    && (k >= 1 && AllWell(start) ==> NoneLost(start, size) && forall id :: id in now ==> now[id].status == Completed)
    && (k >= 3 ==> !NoneLost(start, size)) && (k >= 2 ==> !AllWell(start))
  }

  lemma SweptMore(start: Rows, k: nat, before: Rows, now: Rows, next: Rows, size: nat -> nat)
    requires Swept(start, k, before, now, size) && Workload(now) != {} && forall d :: size(d) > 0
    requires After(now, Workload(now), size, next)
    ensures Swept(start, k + 1, now, next, size)
  {
    AfterIsTyped(now, Workload(now), size, next);
    if !NoneLost(now, size) {
      var d :| Lost(now, size, d);
      LostStaysLost(now, size, next, d);
    }
    if k == 1 && NoneLost(start, size) {
      TwoSweepsSuffice(before, size, now, next);
    }
    if k == 0 && AllWell(start) {
      OneSweepSuffices(start, size, next);
    }
    if k >= 1 && AllWell(start) {
      NoneLeftInWork(now);
    }
  }

  lemma NoneLeftInWork(rows: Rows)
    requires forall id :: id in rows ==> rows[id].status == Completed
    ensures Workload(rows) == {}
  {
  }

  lemma SweptEnds(start: Rows, k: nat, before: Rows, now: Rows, size: nat -> nat)
    requires Swept(start, k, before, now, size) && Workload(now) == {}
    ensures NoneLost(start, size)
    ensures AllWell(start) ==> forall id :: id in now ==> now[id].status == Completed
  {
    if !NoneLost(now, size) {
      var d :| Lost(now, size, d);
      LostMeansWork(now, size, d);
    }
    if AllWell(start) && k == 0 {
      WellAndIdle(now);
    }
  }

  /** The ordinary session: no chunk has failed, is retrying or stuck in cognified, a split
      document has its chunks, and no document has ended otherwise than completed. */
  ghost predicate AllWell(rows: Rows) {
    && (forall id :: id in rows ==> Fine(rows[id]))
    && (forall d :: Doc(d) in rows && rows[Doc(d)].DocRow? && rows[Doc(d)].split ==>
        exists id :: id in rows && IsChunkOf(id, d))
  }

  lemma WellAndIdle(rows: Rows)
    requires AllWell(rows) && Workload(rows) == {}
    ensures forall id :: id in rows ==> rows[id].status == Completed
  {
    forall id | id in rows
      ensures rows[id].status == Completed
    {
      assert id !in Workload(rows);
    }
  }

  /** Then one sweep completes every row. */
  lemma OneSweepSuffices(rows: Rows, size: nat -> nat, rows': Rows)
    requires Typed(rows) && AllWell(rows) && After(rows, Workload(rows), size, rows') && forall d :: size(d) > 0
    ensures forall id :: id in rows' ==> rows'[id].status == Completed
    ensures NoneLost(rows, size)
  {
    var W := Workload(rows);
    forall id | id in rows'
      ensures rows'[id].status == Completed
    {
      if id.Doc? {
        if Touched(W, id.doc) {
          if rows[id].split {
            var c :| c in rows && IsChunkOf(c, id.doc);
            assert HasRow(rows, W, size, c);
          } else if id in W {
            assert Remade(rows, W, size, Child(id.doc, 0));
            assert HasRow(rows, W, size, Child(id.doc, 0));
          } else {
            var c :| c in W && IsChunkOf(c, id.doc);
            assert HasRow(rows, W, size, c);
          }
          assert CompletedAfter(rows, W, size, id.doc);
        }
      }
    }
  }
}
