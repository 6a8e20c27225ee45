/** The data point lifecycle under every interleaving of tasks (engine/task_cognify.go,
    engine/task_memify.go). A step is one access to the store, which may fail; a document is
    submitted once, and its chunks are submitted once, by whichever task split it. */
module Lifecycle {
  import opened DataPoints

  /** Where a task stands, and so what it does to the store next. */
  datatype Task =
    | Over
    | Splitting(d: nat, n: nat, i: nat)         // store chunk row i of n
    | Marking(d: nat, n: nat)                   // write the document row as split
    | Failing(d: nat, split: bool)              // write the document row as failed
    | Begun(c: Id)                              // write the chunk row as processing
    | Working(c: Id)                            // write it as cognified, or fail
    | ChunkFailing(c: Id)                       // write it as failed
    | Memifying(c: Id)                          // write it as completed
    | Reading(d: nat)                           // read the document row
    | Counting(d: nat, split: bool)             // query the chunk rows
    | Writing(d: nat, split: bool, all: bool)   // write the document row as counted

  /** Whose turn a chunk row is: just made, submitted, taken by task t, or nobody's any more. */
  datatype Turn = Made | Queued | Taken(t: nat) | Nobodys

  datatype State = State(
    rows: Rows,
    tasks: seq<Task>,
    submitted: set<nat>,      // documents ever submitted
    ready: set<nat>,          // documents all of whose chunk rows are made
    turn: map<Id, Turn>)      // of every chunk row

  // Decided outside: whether the store fails, whether chunking fails, the number of chunks.
  datatype Choice = Choice(fault: bool, bad: bool, size: nat)

  datatype Action =
    | NewTask
    | Submit(t: nat, d: nat, ch: Choice)   // a document for the first time
    | Take(t: nat, c: Id)                  // a submitted chunk
    | Resync(t: nat, d: nat)               // a document whose chunks exist, again
    | Abort(t: nat, d: nat)                // a document whose chunks failed in line
    | Step(t: nat, ch: Choice)

  function At(s: State, t: nat, task: Task): State
    requires t < |s.tasks|
  {
    s.(tasks := s.tasks[t := task])
  }

  function Write(s: State, id: Id, row: Row, fault: bool): State {
    if fault then s else s.(rows := s.rows[id := row])
  }

  function Give(s: State, c: Id, turn: Turn): State {
    s.(turn := s.turn[c := turn])
  }

  // All chunk rows of a document go into the queue.
  function QueueAll(turn: map<Id, Turn>, d: nat): map<Id, Turn> {
    map c | c in turn :: if IsChunkOf(c, d) && turn[c].Made? then Queued else turn[c]
  }

  predicate Free(s: State, t: nat) {
    t < |s.tasks| && s.tasks[t].Over?
  }

  ghost function TaskStep(s: State, t: nat, ch: Choice): (r: State)
    requires t < |s.tasks| && !s.tasks[t].Over?
  {
    match s.tasks[t]
    case Splitting(d, n, i) =>
      if i >= n then At(s.(ready := s.ready + {d}), t, Marking(d, n))
      else if ch.fault then At(s, t, Failing(d, false))
      else At(Give(Write(s, Child(d, i), ChunkRow(Pending), false), Child(d, i), Made), t, Splitting(d, n, i + 1))
    case Marking(d, n) =>
      if ch.fault then At(s, t, Failing(d, true))
      else At(Write(s, Doc(d), DocRow(Processing, true), false).(turn := QueueAll(s.turn, d)), t, Over)
    case Failing(d, split) =>
      At(Write(s, Doc(d), DocRow(Failed, split), ch.fault), t, Over)
    case Begun(c) =>
      At(Write(s, c, ChunkRow(Processing), ch.fault), t, Working(c))
    case Working(c) =>
      if ch.bad || ch.fault then At(s, t, ChunkFailing(c))
      else At(Write(s, c, ChunkRow(Cognified), false), t, Memifying(c))
    case ChunkFailing(c) =>
      At(Give(Write(s, c, ChunkRow(Failed), ch.fault), c, Nobodys), t, Over)
    case Memifying(c) =>
      if ch.fault then At(s, t, ChunkFailing(c))
      else At(Give(Write(s, c, ChunkRow(Completed), false), c, Nobodys), t, Reading(c.doc))
    case Reading(d) =>
      if ch.fault || Doc(d) !in s.rows then At(s, t, Over)
      else At(s, t, Counting(d, s.rows[Doc(d)].DocRow? && s.rows[Doc(d)].split))
    case Counting(d, split) =>
      if ch.fault then At(s, t, Over) else At(s, t, Writing(d, split, AllCompleted(s.rows, d)))
    case Writing(d, split, all) =>
      At(Write(s, Doc(d), DocRow(if all then Completed else Processing, split), ch.fault), t, Over)
  }

  // A chunk that failed, whether or not the store has taken that down.
  predicate Dropped(s: State, c: Id, d: nat) {
    IsChunkOf(c, d) && c in s.turn && s.turn[c].Nobodys? && c in s.rows && s.rows[c].status != Completed
  }

  ghost predicate Enabled(s: State, a: Action) {
    match a
    case NewTask => true
    case Submit(t, d, _) => Free(s, t) && d !in s.submitted && Doc(d) in s.rows
    case Take(t, c) => Free(s, t) && c in s.turn && s.turn[c] == Queued
    case Resync(t, d) => Free(s, t) && d in s.ready
    case Abort(t, d) => Free(s, t) && d in s.ready && exists c :: Dropped(s, c, d)
    case Step(t, _) => t < |s.tasks| && !s.tasks[t].Over?
  }

  ghost function Next(s: State, a: Action): State
    requires Enabled(s, a)
  {
    match a
    case NewTask => s.(tasks := s.tasks + [Over])
    case Submit(t, d, ch) =>
      At(s.(submitted := s.submitted + {d}), t, if ch.bad then Failing(d, false) else Splitting(d, ch.size, 0))
    case Take(t, c) => At(Give(s, c, Taken(t)), t, Begun(c))
    case Resync(t, d) => At(s, t, Counting(d, true))
    case Abort(t, d) => At(s, t, Failing(d, true))
    case Step(t, ch) => TaskStep(s, t, ch)
  }

  /** Documents wait to be submitted; there is no chunk row yet, and no task at work. */
  ghost predicate Init(s: State) {
    && (forall id :: id in s.rows ==> id.Doc? && s.rows[id] == DocRow(Pending, false))
    && (forall t :: 0 <= t < |s.tasks| ==> s.tasks[t].Over?)
    && s.submitted == {} && s.ready == {} && s.turn == map[]
  }

  // --------------------------------------------------------------------- the invariant

  predicate HasChunk(task: Task) {
    task.Begun? || task.Working? || task.ChunkFailing? || task.Memifying?
  }

  // The statuses a chunk row may have while a task is at work on it.
  predicate Suits(status: Status, task: Task) {
    match task
    case Begun(_) => status == Pending
    case Working(_) => status == Pending || status == Processing
    case ChunkFailing(_) => status == Pending || status == Processing || status == Cognified
    case Memifying(_) => status == Cognified
    case _ => true
  }

  ghost predicate ChunkOk(s: State, c: Id) {
    && (c in s.turn <==> c in s.rows && c.Child?)
    && (c in s.turn ==>
          && s.rows[c].ChunkRow?
          && (s.turn[c].Made? || s.turn[c].Queued? ==> s.rows[c].status == Pending)
          && (s.turn[c].Taken? ==>
                && s.turn[c].t < |s.tasks| && HasChunk(s.tasks[s.turn[c].t]) && s.tasks[s.turn[c].t].c == c
                && Suits(s.rows[c].status, s.tasks[s.turn[c].t]))
          && (!s.turn[c].Made? ==> c.doc in s.ready))
  }

  ghost predicate AllMade(s: State, d: nat) {
    forall c :: c in s.turn && IsChunkOf(c, d) ==> s.turn[c].Made?
  }

  predicate IsMarking(s: State, t: nat, d: nat)
    requires t < |s.tasks|
  {
    s.tasks[t].Marking? && s.tasks[t].d == d
  }

  // Some chunk of the document will never be completed, or it has none.
  ghost predicate Doomed(s: State, d: nat) {
    || (exists c :: Dropped(s, c, d))
    || (AllMade(s, d) && forall t :: 0 <= t < |s.tasks| ==> !IsMarking(s, t, d))
  }

  ghost predicate TaskOk(s: State, t: nat)
    requires t < |s.tasks|
  {
    match s.tasks[t]
    case Splitting(d, _, _) => d in s.submitted && d !in s.ready
    case Marking(d, _) => d in s.ready && AllMade(s, d)
    case Failing(d, split) => d in s.submitted && if split then d in s.ready && Doomed(s, d) else d !in s.ready
    case Reading(d) => d in s.ready
    case Counting(d, _) => d in s.ready
    case Writing(d, _, all) => d in s.ready && (all ==> AllCompleted(s.rows, d))
    case task => HasChunk(task) ==> task.c in s.turn && s.turn[task.c] == Taken(t)
  }

  /** A document row marked completed has chunk rows, and every one of them is completed. */
  ghost predicate DocOk(s: State, d: nat) {
    Doc(d) in s.rows ==>
      s.rows[Doc(d)].DocRow? && (s.rows[Doc(d)].status == Completed ==> d in s.ready && AllCompleted(s.rows, d))
  }

  predicate Splits(task: Task) {
    task.Splitting? || task.Marking? || (task.Failing? && !task.split)
  }

  ghost predicate SplitsAlone(s: State, t: nat, u: nat)
    requires t < |s.tasks| && u < |s.tasks|
  {
    Splits(s.tasks[t]) && Splits(s.tasks[u]) && s.tasks[t].d == s.tasks[u].d ==> t == u
  }

  ghost predicate Inv(s: State) {
    && s.ready <= s.submitted
    && (forall c :: ChunkOk(s, c))
    && (forall t :: 0 <= t < |s.tasks| ==> TaskOk(s, t))
    && (forall d :: DocOk(s, d))
    && (forall t, u :: 0 <= t < |s.tasks| && 0 <= u < |s.tasks| ==> SplitsAlone(s, t, u))
  }

  // ------------------------------------------------------------- forward, and only so

  function Rank(status: Status): nat {
    match status
    case Pending => 0
    case Processing => 1
    case Cognified => 2
    case _ => 3
  }

  /** From pending over processing and cognified to completed or failed; the ends are final,
      and no row is ever set to be retried. */
  predicate Onward(a: Status, b: Status) {
    a == b || (Rank(a) < Rank(b) && !b.Retrying?)
  }

  ghost predicate Forward(rows: Rows, rows': Rows) {
    forall c :: c in rows && c.Child? ==> c in rows' && Onward(rows[c].status, rows'[c].status)
  }

  // The chunk rows of a document are the same, but for completed ones they stay as they are.
  lemma AllCompletedStays(rows: Rows, rows': Rows, d: nat)
    requires AllCompleted(rows, d)
    requires forall c :: c in rows && IsChunkOf(c, d) ==> c in rows' && rows'[c] == rows[c]
    requires forall c :: c in rows' && IsChunkOf(c, d) ==> c in rows
    ensures AllCompleted(rows', d)
  {
  }

  lemma DoomedStays(s: State, s': State, d: nat)
    requires Doomed(s, d)
    requires forall c :: Dropped(s, c, d) ==> Dropped(s', c, d)
    requires AllMade(s, d) ==> AllMade(s', d)
    requires forall u :: 0 <= u < |s'.tasks| && IsMarking(s', u, d) ==> u < |s.tasks| && IsMarking(s, u, d)
    ensures Doomed(s', d)
  {
  }

  /** From s to s' task t takes a step that touches chunk row c at most (a document's id stands
      for none), and of the documents only those that are still right after it. */
  ghost predicate Touches(s: State, s': State, t: nat, c: Id)
    requires t < |s.tasks| && |s'.tasks| == |s.tasks|
  {
    && (forall u :: 0 <= u < |s.tasks| && u != t ==> s'.tasks[u] == s.tasks[u])
    && s'.submitted >= s.submitted && s'.ready >= s.ready && s'.ready <= s'.submitted
    && (forall d :: d in s'.ready && d !in s.ready ==>
        s.tasks[t].Splitting? && s.tasks[t].d == d && !s'.tasks[t].Splitting?)
    // other chunk rows and turns stay
    && (forall x: Id :: x.Child? && x != c ==>
        (x in s'.rows <==> x in s.rows) && (x in s.rows ==> s'.rows[x] == s.rows[x]))
    && (forall x: Id :: x != c ==> (x in s'.turn <==> x in s.turn) && (x in s.turn ==> s'.turn[x] == s.turn[x]))
    && (HasChunk(s.tasks[t]) ==> c == s.tasks[t].c)
    && (c in s.turn && s.turn[c].Taken? ==> s.turn[c].t == t)
    // chunk row c: a new one of a document being split, or one that was not completed
    && (c.Child? ==> (c.doc in s.ready ==> c in s.rows && (s.rows[c].status == Completed ==> s'.rows == s.rows)))
    && (c in s'.turn && (c in s.turn ==> s.turn[c].Made?) ==> s'.turn[c].Made?)
    && (c in s.turn ==> c in s'.turn && !s.turn[c].Nobodys?)
    && (Splits(s'.tasks[t]) ==> Splits(s.tasks[t]) && s.tasks[t].d == s'.tasks[t].d)
    && (s'.tasks[t].Marking? ==> s.tasks[t].Splitting?)
    && (forall d :: DocOk(s', d) || (Doc(d) in s.rows && Doc(d) in s'.rows && s'.rows[Doc(d)] == s.rows[Doc(d)])
                    || Doc(d) !in s'.rows)
  }

  lemma TouchKeepsCompleted(s: State, s': State, t: nat, c: Id, d: nat)
    requires t < |s.tasks| && |s'.tasks| == |s.tasks| && Touches(s, s', t, c)
    requires d in s.ready && AllCompleted(s.rows, d)
    ensures AllCompleted(s'.rows, d)
  {
    AllCompletedStays(s.rows, s'.rows, d);
  }

  lemma TouchKeepsDoomed(s: State, s': State, t: nat, c: Id, d: nat)
    requires Inv(s) && t < |s.tasks| && |s'.tasks| == |s.tasks| && Touches(s, s', t, c)
    requires Doomed(s, d) && d in s.ready
    ensures Doomed(s', d)
  {
    assert TaskOk(s, t);
    assert forall v :: 0 <= v < |s.tasks| && v != t ==> (IsMarking(s', v, d) <==> IsMarking(s, v, d));
    DoomedStays(s, s', d);
  }

  lemma TouchKeepsTask(s: State, s': State, t: nat, c: Id, u: nat)
    requires Inv(s) && t < |s.tasks| && |s'.tasks| == |s.tasks| && Touches(s, s', t, c)
    requires u < |s.tasks| && u != t
    ensures TaskOk(s', u)
  {
    assert TaskOk(s, u) && SplitsAlone(s, t, u);
    var task := s.tasks[u];
    if task.Failing? && task.split {
      TouchKeepsDoomed(s, s', t, c, task.d);
    } else if task.Writing? && task.all {
      TouchKeepsCompleted(s, s', t, c, task.d);
    }
  }

  lemma TouchKeepsDoc(s: State, s': State, t: nat, c: Id, d: nat)
    requires Inv(s) && t < |s.tasks| && |s'.tasks| == |s.tasks| && Touches(s, s', t, c)
    ensures DocOk(s', d)
  {
    assert DocOk(s, d);
    if d in s.ready && AllCompleted(s.rows, d) {
      TouchKeepsCompleted(s, s', t, c, d);
    }
  }

  lemma StepKeeps(s: State, s': State, t: nat, c: Id)
    requires Inv(s) && t < |s.tasks| && |s'.tasks| == |s.tasks| && Touches(s, s', t, c)
    requires ChunkOk(s', c) && TaskOk(s', t)
    ensures Inv(s')
  {
    forall x
      ensures ChunkOk(s', x)
    {
      assert ChunkOk(s, x);
    }
    forall u | 0 <= u < |s'.tasks|
      ensures TaskOk(s', u)
    {
      if u != t {
        TouchKeepsTask(s, s', t, c, u);
      }
    }
    forall d
      ensures DocOk(s', d)
    {
      TouchKeepsDoc(s, s', t, c, d);
    }
    forall u, v | 0 <= u < |s'.tasks| && 0 <= v < |s'.tasks|
      ensures SplitsAlone(s', u, v)
    {
      assert SplitsAlone(s, u, v);
    }
  }

  // ------------------------------------------------------------------- step by step

  // A task without a chunk goes on, and no row is written.
  lemma GoesOn(s: State, t: nat, task: Task)
    requires Inv(s) && t < |s.tasks| && !HasChunk(s.tasks[t]) && !s.tasks[t].Splitting? && !Splits(task)
    requires TaskOk(At(s, t, task), t)
    ensures Inv(At(s, t, task))
  {
    var none := Doc(0);
    assert ChunkOk(s, none);
    forall d
      ensures DocOk(At(s, t, task), d)
    {
      assert DocOk(s, d);
    }
    StepKeeps(s, At(s, t, task), t, none);
  }

  // A task without a chunk writes a document row and is over.
  lemma WritesDoc(s: State, t: nat, d: nat, row: Row, fault: bool)
    requires Inv(s) && t < |s.tasks| && !HasChunk(s.tasks[t]) && !s.tasks[t].Splitting?
    requires row.DocRow? && (row.status == Completed ==> d in s.ready && AllCompleted(s.rows, d))
    ensures Inv(At(Write(s, Doc(d), row, fault), t, Over))
  {
    var s' := At(Write(s, Doc(d), row, fault), t, Over);
    assert ChunkOk(s, Doc(d));
    if row.status == Completed {
      AllCompletedStays(s.rows, s'.rows, d);
    }
    forall e
      ensures DocOk(s', e) || (Doc(e) in s.rows && Doc(e) in s'.rows && s'.rows[Doc(e)] == s.rows[Doc(e)])
                || Doc(e) !in s'.rows
    {
      assert DocOk(s, e);
    }
    StepKeeps(s, s', t, Doc(d));
  }

  lemma SplittingKeeps(s: State, t: nat, ch: Choice)
    requires Inv(s) && t < |s.tasks| && s.tasks[t].Splitting?
    ensures Inv(TaskStep(s, t, ch)) && Forward(s.rows, TaskStep(s, t, ch).rows)
  {
    var s', c := TaskStep(s, t, ch), Child(s.tasks[t].d, s.tasks[t].i);
    assert TaskOk(s, t) && ChunkOk(s, c) && s.tasks[t].d in s.submitted;
    forall x | x in s'.turn && IsChunkOf(x, s.tasks[t].d)
      ensures s'.turn[x].Made?
    {
      assert ChunkOk(s, x);
    }
    assert AllMade(s', s.tasks[t].d);
    forall d
      ensures DocOk(s', d) || (Doc(d) in s.rows && Doc(d) in s'.rows && s'.rows[Doc(d)] == s.rows[Doc(d)])
                || Doc(d) !in s'.rows
    {
      assert DocOk(s, d);
    }
    StepKeeps(s, s', t, c);
  }

  lemma ChunkStepKeeps(s: State, t: nat, ch: Choice)
    requires Inv(s) && t < |s.tasks| && HasChunk(s.tasks[t])
    ensures Inv(TaskStep(s, t, ch)) && Forward(s.rows, TaskStep(s, t, ch).rows)
  {
    assert TaskOk(s, t) && ChunkOk(s, s.tasks[t].c);
    ChunkStepTouches(s, t, ch);
    ChunkStepSuits(s, t, ch);
    StepKeeps(s, TaskStep(s, t, ch), t, s.tasks[t].c);
  }

  lemma ChunkStepTouches(s: State, t: nat, ch: Choice)
    requires t < |s.tasks| && HasChunk(s.tasks[t]) && TaskOk(s, t) && ChunkOk(s, s.tasks[t].c)
    requires s.ready <= s.submitted
    ensures |TaskStep(s, t, ch).tasks| == |s.tasks| && Touches(s, TaskStep(s, t, ch), t, s.tasks[t].c)
  {
  }

  lemma ChunkStepSuits(s: State, t: nat, ch: Choice)
    requires t < |s.tasks| && HasChunk(s.tasks[t]) && TaskOk(s, t) && ChunkOk(s, s.tasks[t].c)
    ensures |TaskStep(s, t, ch).tasks| == |s.tasks|
    ensures ChunkOk(TaskStep(s, t, ch), s.tasks[t].c) && TaskOk(TaskStep(s, t, ch), t)
    ensures Forward(s.rows, TaskStep(s, t, ch).rows)
  {
  }

  // While task t marks a document no other task marks it or fails it.
  lemma MarkingIsAlone(s: State, t: nat, d: nat)
    requires Inv(s) && t < |s.tasks| && IsMarking(s, t, d)
    ensures forall u {:trigger s.tasks[u]} :: 0 <= u < |s.tasks| && u != t ==>
              !IsMarking(s, u, d) && !IsFailing(s, u, d)
  {
    assert TaskOk(s, t);
    forall u | 0 <= u < |s.tasks| && u != t
      ensures !IsMarking(s, u, d) && !IsFailing(s, u, d)
    {
      assert SplitsAlone(s, t, u) && TaskOk(s, u);
    }
  }

  predicate IsFailing(s: State, t: nat, d: nat)
    requires t < |s.tasks|
  {
    s.tasks[t].Failing? && s.tasks[t].d == d
  }

  lemma MarkingKeeps(s: State, t: nat, ch: Choice)
    requires Inv(s) && t < |s.tasks| && s.tasks[t].Marking?
    ensures Inv(TaskStep(s, t, ch))
  {
    var d := s.tasks[t].d;
    assert TaskOk(s, t);
    MarkingIsAlone(s, t, d);
    if ch.fault {
      var s' := At(s, t, Failing(d, true));
      assert AllMade(s', d) && forall u :: 0 <= u < |s'.tasks| ==> !IsMarking(s', u, d);
      GoesOn(s, t, Failing(d, true));
    } else {
      var s' := At(Write(s, Doc(d), DocRow(Processing, true), false), t, Over);
      WritesDoc(s, t, d, DocRow(Processing, true), false);
      QueueAllKeeps(s', d);
    }
  }

  lemma QueueAllKeeps(s: State, d: nat)
    requires Inv(s) && d in s.ready
    requires forall u :: 0 <= u < |s.tasks| ==> !IsMarking(s, u, d) && !IsFailing(s, u, d)
    ensures Inv(s.(turn := QueueAll(s.turn, d)))
  {
    var s' := s.(turn := QueueAll(s.turn, d));
    forall c
      ensures ChunkOk(s', c)
    {
      assert ChunkOk(s, c);
    }
    forall u | 0 <= u < |s'.tasks|
      ensures TaskOk(s', u)
    {
      assert TaskOk(s, u) && !IsMarking(s, u, d) && !IsFailing(s, u, d);
      if s.tasks[u].Failing? && s.tasks[u].split {
        DoomedStays(s, s', s.tasks[u].d);
      }
    }
    forall e
      ensures DocOk(s', e)
    {
      assert DocOk(s, e);
    }
    forall u, v | 0 <= u < |s'.tasks| && 0 <= v < |s'.tasks|
      ensures SplitsAlone(s', u, v)
    {
      assert SplitsAlone(s, u, v);
    }
  }

  lemma DocStepKeeps(s: State, t: nat, ch: Choice)
    requires Inv(s) && t < |s.tasks|
    requires s.tasks[t].Failing? || s.tasks[t].Reading? || s.tasks[t].Counting? || s.tasks[t].Writing?
    ensures Inv(TaskStep(s, t, ch))
  {
    assert TaskOk(s, t);
    match s.tasks[t]
    case Failing(d, split) => WritesDoc(s, t, d, DocRow(Failed, split), ch.fault);
    case Reading(d) => GoesOn(s, t, TaskStep(s, t, ch).tasks[t]);
    case Counting(d, split) => GoesOn(s, t, TaskStep(s, t, ch).tasks[t]);
    case Writing(d, split, all) => WritesDoc(s, t, d, DocRow(if all then Completed else Processing, split), ch.fault);
  }

  // Steps that leave the chunk rows as they are.
  lemma DocStepForward(s: State, t: nat, ch: Choice)
    requires Inv(s) && t < |s.tasks| && !s.tasks[t].Over? && !HasChunk(s.tasks[t]) && !s.tasks[t].Splitting?
    ensures Forward(s.rows, TaskStep(s, t, ch).rows)
  {
  }

  lemma TaskStepKeeps(s: State, t: nat, ch: Choice)
    requires Inv(s) && t < |s.tasks| && !s.tasks[t].Over?
    ensures Inv(TaskStep(s, t, ch)) && Forward(s.rows, TaskStep(s, t, ch).rows)
  {
    if s.tasks[t].Splitting? {
      SplittingKeeps(s, t, ch);
    } else if HasChunk(s.tasks[t]) {
      ChunkStepKeeps(s, t, ch);
    } else {
      DocStepForward(s, t, ch);
      if s.tasks[t].Marking? {
        MarkingKeeps(s, t, ch);
      } else {
        DocStepKeeps(s, t, ch);
      }
    }
  }

  lemma NewTaskKeeps(s: State)
    requires Inv(s)
    ensures Inv(s.(tasks := s.tasks + [Over]))
  {
    var s' := s.(tasks := s.tasks + [Over]);
    forall c
      ensures ChunkOk(s', c)
    {
      assert ChunkOk(s, c);
    }
    forall u | 0 <= u < |s'.tasks|
      ensures TaskOk(s', u)
    {
      if u < |s.tasks| {
        assert TaskOk(s, u);
        if s.tasks[u].Failing? && s.tasks[u].split {
          DoomedStays(s, s', s.tasks[u].d);
        }
      }
    }
    forall d
      ensures DocOk(s', d)
    {
      assert DocOk(s, d);
    }
    forall u, v | 0 <= u < |s'.tasks| && 0 <= v < |s'.tasks|
      ensures SplitsAlone(s', u, v)
    {
      assert u < |s.tasks| && v < |s.tasks| ==> SplitsAlone(s, u, v);
    }
  }

  lemma SubmitKeeps(s: State, t: nat, d: nat, n: nat)
    requires Inv(s) && Free(s, t) && d !in s.submitted
    ensures Inv(At(s.(submitted := s.submitted + {d}), t, Splitting(d, n, 0)))
    ensures Inv(At(s.(submitted := s.submitted + {d}), t, Failing(d, false)))
  {
    var s0 := s.(submitted := s.submitted + {d});
    var s', s'' := At(s0, t, Splitting(d, n, 0)), At(s0, t, Failing(d, false));
    forall c
      ensures ChunkOk(s', c) && ChunkOk(s'', c)
    {
      assert ChunkOk(s, c);
    }
    forall u | 0 <= u < |s'.tasks|
      ensures TaskOk(s', u) && TaskOk(s'', u)
    {
      assert TaskOk(s, u);
      if u != t && s.tasks[u].Failing? && s.tasks[u].split {
        DoomedStays(s, s', s.tasks[u].d);
        DoomedStays(s, s'', s.tasks[u].d);
      }
    }
    forall e
      ensures DocOk(s', e) && DocOk(s'', e)
    {
      assert DocOk(s, e);
    }
    forall u, v | 0 <= u < |s'.tasks| && 0 <= v < |s'.tasks|
      ensures SplitsAlone(s', u, v) && SplitsAlone(s'', u, v)
    {
      assert SplitsAlone(s, u, v) && TaskOk(s, u) && TaskOk(s, v);
    }
  }

  lemma TakeKeeps(s: State, t: nat, c: Id)
    requires Inv(s) && Free(s, t) && c in s.turn && s.turn[c] == Queued
    ensures Inv(At(Give(s, c, Taken(t)), t, Begun(c)))
  {
    var s' := At(Give(s, c, Taken(t)), t, Begun(c));
    assert ChunkOk(s, c);
    forall d
      ensures DocOk(s', d)
    {
      assert DocOk(s, d);
    }
    StepKeeps(s, s', t, c);
  }

  lemma AbortKeeps(s: State, t: nat, d: nat)
    requires Inv(s) && Enabled(s, Abort(t, d))
    ensures Inv(At(s, t, Failing(d, true)))
  {
    var c :| Dropped(s, c, d);
    assert Dropped(At(s, t, Failing(d, true)), c, d);
    GoesOn(s, t, Failing(d, true));
  }

  /** Every step keeps the invariant, and chunk rows only go forward in it. */
  lemma NextInv(s: State, a: Action)
    requires Inv(s) && Enabled(s, a)
    ensures Inv(Next(s, a)) && Forward(s.rows, Next(s, a).rows)
  {
    match a
    case NewTask => NewTaskKeeps(s);
    case Submit(t, d, ch) => SubmitKeeps(s, t, d, ch.size);
    case Take(t, c) => TakeKeeps(s, t, c);
    case Resync(t, d) => GoesOn(s, t, Counting(d, true));
    case Abort(t, d) => AbortKeeps(s, t, d);
    case Step(t, ch) => TaskStepKeeps(s, t, ch);
  }

  lemma InitInv(s: State)
    requires Init(s)
    ensures Inv(s)
  {
  }

  /** The one way in which a completed document row loses its status: a synchronization
      that counted before the last chunk was completed writes after it. */
  lemma OnlyAStaleCountUndoesCompletion(s: State, a: Action, d: nat)
    requires Inv(s) && Enabled(s, a)
    requires Doc(d) in s.rows && s.rows[Doc(d)].status == Completed
    ensures AllCompleted(s.rows, d) && Doc(d) in Next(s, a).rows
    ensures Next(s, a).rows[Doc(d)].status != Completed
       <==> a.Step? && !a.ch.fault && s.tasks[a.t].Writing? && s.tasks[a.t].d == d && !s.tasks[a.t].all
  {
    assert DocOk(s, d);
    if a.Step? {
      assert TaskOk(s, a.t) && (HasChunk(s.tasks[a.t]) ==> ChunkOk(s, s.tasks[a.t].c));
    }
    if a.Step? && (IsMarking(s, a.t, d) || IsFailing(s, a.t, d)) {
      NotDoomed(s, d);
      assert false;
    }
  }

  lemma NotDoomed(s: State, d: nat)
    requires Inv(s) && AllCompleted(s.rows, d) && d in s.ready
    ensures !Doomed(s, d) && !AllMade(s, d)
  {
    var c :| c in s.rows && IsChunkOf(c, d);
    assert ChunkOk(s, c);
  }

  // ---------------------------------------------------------------------- whole runs

  /** Actions taken one after the other lead from s to end. */
  ghost predicate Leads(s: State, acts: seq<Action>, end: State)
    decreases |acts|
  {
    if acts == [] then s == end else Enabled(s, acts[0]) && Leads(Next(s, acts[0]), acts[1..], end)
  }

  lemma ForwardOn(a: Rows, b: Rows, c: Rows)
    requires Forward(a, b) && Forward(b, c)
    ensures Forward(a, c)
  {
  }

  lemma {:induction false} RunKeeps(s: State, acts: seq<Action>, end: State)
    requires Inv(s) && Leads(s, acts, end)
    ensures Inv(end) && Forward(s.rows, end.rows)
    decreases |acts|
  {
    if acts == [] {
    } else {
      var next := Next(s, acts[0]);
      NextInv(s, acts[0]);
      RunKeeps(next, acts[1..], end);
      ForwardOn(s.rows, next.rows, end.rows);
    }
  }

  /** Safety, whatever the interleaving and whichever accesses fail: from any point of a run
      to any later one the status of each chunk row only goes forward, and at every point a
      document row that is marked completed has chunk rows, all of them completed. */
  lemma LifecycleIsSafe(s: State, acts: seq<Action>, mid: State, more: seq<Action>, end: State)
    requires Init(s) && Leads(s, acts, mid) && Leads(mid, more, end)
    ensures Forward(mid.rows, end.rows)
    ensures forall d :: Doc(d) in mid.rows && mid.rows[Doc(d)].status == Completed ==> AllCompleted(mid.rows, d)
  {
    InitInv(s);
    RunKeeps(s, acts, mid);
    RunKeeps(mid, more, end);
    forall d | Doc(d) in mid.rows && mid.rows[Doc(d)].status == Completed
      ensures AllCompleted(mid.rows, d)
    {
      assert DocOk(mid, d);
    }
  }

  // --------------------------------------------- when a document ends completed

  predicate IsCompleted(rows: Rows, d: nat) {
    Doc(d) in rows && rows[Doc(d)].status == Completed
  }

  // The step writes what a synchronization of document d has counted.
  predicate WritesSync(s: State, a: Action, d: nat) {
    a.Step? && !a.ch.fault && a.t < |s.tasks| && s.tasks[a.t].Writing? && s.tasks[a.t].d == d
  }

  /** The last synchronization of a document that was written, and whether it had counted all
      chunks as completed. */
  datatype Sync = Never | Wrote(all: bool)

  ghost function SyncAfter(s: State, a: Action, d: nat, last: Sync): Sync {
    if WritesSync(s, a, d) then Wrote(s.tasks[a.t].all) else last
  }

  ghost function LastSync(s: State, acts: seq<Action>, end: State, d: nat, last: Sync): Sync
    requires Leads(s, acts, end)
    decreases |acts|
  {
    if acts == [] then last
    else LastSync(Next(s, acts[0]), acts[1..], end, d, SyncAfter(s, acts[0], d, last))
  }

  // Nothing but a synchronization completes a document.
  lemma OnlySyncCompletes(s: State, a: Action, d: nat)
    requires Inv(s) && Enabled(s, a) && !IsCompleted(s.rows, d)
    ensures IsCompleted(Next(s, a).rows, d) <==> WritesSync(s, a, d) && s.tasks[a.t].all
  {
    if a.Step? {
      assert TaskOk(s, a.t) && (HasChunk(s.tasks[a.t]) ==> ChunkOk(s, s.tasks[a.t].c));
    }
  }

  lemma StepSync(s: State, a: Action, d: nat, last: Sync)
    requires Inv(s) && Enabled(s, a) && (IsCompleted(s.rows, d) <==> last == Wrote(true))
    ensures IsCompleted(Next(s, a).rows, d) <==> SyncAfter(s, a, d, last) == Wrote(true)
  {
    if IsCompleted(s.rows, d) {
      OnlyAStaleCountUndoesCompletion(s, a, d);
      if WritesSync(s, a, d) && s.tasks[a.t].all {
        assert SyncAfter(s, a, d, last) == Wrote(true);
      }
    } else {
      OnlySyncCompletes(s, a, d);
    }
  }

  lemma {:induction false} LastSyncTells(s: State, acts: seq<Action>, end: State, d: nat, last: Sync)
    requires Inv(s) && Leads(s, acts, end) && (IsCompleted(s.rows, d) <==> last == Wrote(true))
    ensures IsCompleted(end.rows, d) <==> LastSync(s, acts, end, d, last) == Wrote(true)
    decreases |acts|
  {
    if acts == [] {
    } else {
      StepSync(s, acts[0], d, last);
      NextInv(s, acts[0]);
      LastSyncTells(Next(s, acts[0]), acts[1..], end, d, SyncAfter(s, acts[0], d, last));
    }
  }

  /** At every point of every run, faults or not, a document is marked completed exactly when
      the last synchronization written for it had counted all its chunks as completed. */
  lemma LastSyncDecides(s: State, acts: seq<Action>, end: State, d: nat)
    requires Init(s) && Leads(s, acts, end)
    ensures IsCompleted(end.rows, d) <==> LastSync(s, acts, end, d, Never) == Wrote(true)
  {
    InitInv(s);
    LastSyncTells(s, acts, end, d, Never);
  }

  // The task works on document d or on a chunk of it.
  predicate Concerns(task: Task, d: nat) {
    match task
    case Over => false
    case Splitting(e, _, _) => e == d
    case Marking(e, _) => e == d
    case Failing(e, _) => e == d
    case Reading(e) => e == d
    case Counting(e, _) => e == d
    case Writing(e, _, _) => e == d
    case _ => task.c.doc == d
  }

  /** No access made for document d fails. */
  predicate Faultless(s: State, a: Action, d: nat) {
    a.Step? && a.t < |s.tasks| && Concerns(s.tasks[a.t], d) ==> !a.ch.fault
  }

  ghost predicate FaultlessRun(s: State, acts: seq<Action>, end: State, d: nat)
    requires Leads(s, acts, end)
    decreases |acts|
  {
    acts == [] || (Faultless(s, acts[0], d) && FaultlessRun(Next(s, acts[0]), acts[1..], end, d))
  }

  // A task is about to synchronize document d, and will find all chunks completed.
  predicate Syncs(s: State, t: nat, d: nat) {
    t < |s.tasks|
    && match s.tasks[t]
       case Reading(e) => e == d
       case Counting(e, _) => e == d
       case Writing(e, _, all) => e == d && all
       case _ => false
  }

  /** Once all chunks are completed, the document is, or some task is about to see to it. */
  ghost predicate Settling(s: State, d: nat) {
    && (d in s.submitted ==> Doc(d) in s.rows)
    && (AllCompleted(s.rows, d) ==> IsCompleted(s.rows, d) || exists t :: Syncs(s, t, d))
  }

  lemma OthersStay(s: State, t: nat, ch: Choice, u: nat)
    requires t < |s.tasks| && !s.tasks[t].Over? && u != t
    ensures |TaskStep(s, t, ch).tasks| == |s.tasks| && (u < |s.tasks| ==> TaskStep(s, t, ch).tasks[u] == s.tasks[u])
  {
  }

  lemma SyncGoesOn(s: State, a: Action, d: nat, t: nat)
    requires Inv(s) && Settling(s, d) && Enabled(s, a) && Faultless(s, a, d)
    requires AllCompleted(s.rows, d) && Syncs(s, t, d)
    ensures IsCompleted(Next(s, a).rows, d) || Syncs(Next(s, a), t, d)
  {
    if a.Step? && a.t == t {
      SyncStepGoesOn(s, t, a.ch, d);
    } else if a.Step? {
      OthersStay(s, a.t, a.ch, t);
    }
  }

  lemma SyncStepGoesOn(s: State, t: nat, ch: Choice, d: nat)
    requires Settling(s, d) && Syncs(s, t, d) && TaskOk(s, t) && s.ready <= s.submitted
    requires AllCompleted(s.rows, d) && !ch.fault
    ensures IsCompleted(TaskStep(s, t, ch).rows, d) || Syncs(TaskStep(s, t, ch), t, d)
  {
  }

  // The last chunk of a document is completed by a task that goes on to synchronize it.
  lemma LastChunkIsFollowed(s: State, a: Action, d: nat)
    requires Inv(s) && Enabled(s, a) && Faultless(s, a, d)
    requires !AllCompleted(s.rows, d) && AllCompleted(Next(s, a).rows, d)
    ensures a.Step? && Syncs(Next(s, a), a.t, d)
  {
    if a.Step? && HasChunk(s.tasks[a.t]) {
      assert TaskOk(s, a.t) && ChunkOk(s, s.tasks[a.t].c);
      ChunkStepCompletes(s, a.t, a.ch, d);
    } else if a.Step? && s.tasks[a.t].Splitting? {
      SplittingCompletesNone(s, a.t, a.ch, d);
      assert false;
    } else {
      SameChunksSameCount(s.rows, Next(s, a).rows, d);
      assert false;
    }
  }

  lemma SameChunksSameCount(rows: Rows, rows': Rows, d: nat)
    requires forall c: Id :: IsChunkOf(c, d) ==> (c in rows <==> c in rows') && (c in rows ==> rows'[c] == rows[c])
    ensures AllCompleted(rows, d) <==> AllCompleted(rows', d)
  {
  }

  lemma ChunkStepCompletes(s: State, t: nat, ch: Choice, d: nat)
    requires Inv(s) && t < |s.tasks| && HasChunk(s.tasks[t]) && !ch.fault && s.tasks[t].c.Child?
    requires !AllCompleted(s.rows, d) && AllCompleted(TaskStep(s, t, ch).rows, d)
    ensures s.tasks[t].Memifying? && s.tasks[t].c.doc == d
  {
    var c, rows' := s.tasks[t].c, TaskStep(s, t, ch).rows;
    if c.doc != d {
      SameChunksSameCount(s.rows, rows', d);
      assert false;
    }
  }

  lemma SplittingCompletesNone(s: State, t: nat, ch: Choice, d: nat)
    requires Inv(s) && t < |s.tasks| && s.tasks[t].Splitting? && !AllCompleted(s.rows, d)
    ensures !AllCompleted(TaskStep(s, t, ch).rows, d)
  {
    var c, rows' := Child(s.tasks[t].d, s.tasks[t].i), TaskStep(s, t, ch).rows;
    if rows' == s.rows || c.doc != d {
      SameChunksSameCount(s.rows, rows', d);
    } else {
      assert c in rows' && rows'[c].status == Pending;
    }
  }

  lemma SettlingStays(s: State, a: Action, d: nat)
    requires Inv(s) && Settling(s, d) && Enabled(s, a) && Faultless(s, a, d)
    requires IsCompleted(s.rows, d) ==> IsCompleted(Next(s, a).rows, d)
    ensures Settling(Next(s, a), d)
  {
    NextInv(s, a);
    RowsStay(s, a);
    if AllCompleted(Next(s, a).rows, d) {
      if !AllCompleted(s.rows, d) {
        LastChunkIsFollowed(s, a, d);
      } else if !IsCompleted(s.rows, d) {
        var t :| Syncs(s, t, d);
        SyncGoesOn(s, a, d, t);
      }
    }
  }

  lemma RowsStay(s: State, a: Action)
    requires Enabled(s, a)
    ensures s.rows.Keys <= Next(s, a).rows.Keys
    ensures forall d :: d in Next(s, a).submitted && d !in s.submitted ==> Doc(d) in s.rows
  {
  }

  // Nowhere in the run does a step take the status completed from document d.
  ghost predicate NeverUndone(s: State, acts: seq<Action>, end: State, d: nat)
    requires Leads(s, acts, end)
    decreases |acts|
  {
    acts == [] || (
      && (IsCompleted(s.rows, d) ==> IsCompleted(Next(s, acts[0]).rows, d))
      && NeverUndone(Next(s, acts[0]), acts[1..], end, d))
  }

  lemma {:induction false} SettlingThroughout(s: State, acts: seq<Action>, end: State, d: nat)
    requires Inv(s) && Settling(s, d) && Leads(s, acts, end) && NeverUndone(s, acts, end, d)
    requires FaultlessRun(s, acts, end, d)
    ensures Settling(end, d)
    decreases |acts|
  {
    if acts == [] {
    } else {
      SettlingStays(s, acts[0], d);
      NextInv(s, acts[0]);
      SettlingThroughout(Next(s, acts[0]), acts[1..], end, d);
    }
  }

  ghost predicate AllOver(s: State) {
    forall t :: 0 <= t < |s.tasks| ==> s.tasks[t].Over?
  }

  /** When a run is over and all chunks of a document are completed, then so is the document,
      unless an access made for it has failed or some step has undone its completion. */
  lemma DocumentEndsCompleted(s: State, acts: seq<Action>, end: State, d: nat)
    requires Init(s) && Leads(s, acts, end) && FaultlessRun(s, acts, end, d)
    requires AllOver(end) && AllCompleted(end.rows, d)
    requires NeverUndone(s, acts, end, d)
    ensures IsCompleted(end.rows, d)
  {
    InitInv(s);
    assert !AllCompleted(s.rows, d);
    SettlingThroughout(s, acts, end, d);
  }

  predicate IsWriting(s: State, t: nat, d: nat) {
    t < |s.tasks| && s.tasks[t].Writing? && s.tasks[t].d == d
  }

  // Each count that a run makes for document d is written by the very next step.
  ghost predicate WritesAtOnce(s: State, acts: seq<Action>, end: State, d: nat)
    requires Leads(s, acts, end)
    decreases |acts|
  {
    acts == [] || (
      && (acts[0].Step? && IsWriting(Next(s, acts[0]), acts[0].t, d) ==>
          |acts| > 1 && acts[1].Step? && acts[1].t == acts[0].t)
      && WritesAtOnce(Next(s, acts[0]), acts[1..], end, d))
  }

  // A count under way for document d is right, and its task is the next to take a step.
  ghost predicate CountsAreFresh(s: State, acts: seq<Action>, d: nat) {
    forall t: nat :: IsWriting(s, t, d) ==>
      && acts != [] && acts[0].Step? && acts[0].t == t
      && (AllCompleted(s.rows, d) ==> s.tasks[t].all)
  }

  lemma FreshCountsUndoNothing(s: State, acts: seq<Action>, d: nat)
    requires Inv(s) && acts != [] && Enabled(s, acts[0]) && CountsAreFresh(s, acts, d)
    ensures IsCompleted(s.rows, d) ==> IsCompleted(Next(s, acts[0]).rows, d)
  {
    if IsCompleted(s.rows, d) {
      OnlyAStaleCountUndoesCompletion(s, acts[0], d);
    }
  }

  lemma {:induction false} AtomicSyncsUndoNothing(s: State, acts: seq<Action>, end: State, d: nat)
    requires Inv(s) && Leads(s, acts, end) && WritesAtOnce(s, acts, end, d) && CountsAreFresh(s, acts, d)
    ensures NeverUndone(s, acts, end, d)
    decreases |acts|
  {
    if acts == [] {
    } else {
      FreshCountsUndoNothing(s, acts, d);
      NextInv(s, acts[0]);
      CountsStayFresh(s, acts, end, d);
      AtomicSyncsUndoNothing(Next(s, acts[0]), acts[1..], end, d);
    }
  }

  lemma JustCounted(s: State, acts: seq<Action>, t: nat, d: nat)
    requires acts != [] && Enabled(s, acts[0]) && CountsAreFresh(s, acts, d) && IsWriting(Next(s, acts[0]), t, d)
    ensures acts[0].Step? && acts[0].t == t
    ensures AllCompleted(Next(s, acts[0]).rows, d) ==> Next(s, acts[0]).tasks[t].all
  {
    OnlyItsTask(s, acts[0], t, d);
    if acts[0].Step? && acts[0].t == t {
      CountingCounts(s, t, acts[0].ch, d);
    }
  }

  // A task that is to write a count was so before, or is the one that has taken the step.
  lemma OnlyItsTask(s: State, a: Action, t: nat, d: nat)
    requires Enabled(s, a) && IsWriting(Next(s, a), t, d)
    ensures (a.Step? && a.t == t) || IsWriting(s, t, d)
  {
    if a.Step? && a.t != t {
      OthersStay(s, a.t, a.ch, t);
    }
  }

  lemma CountingCounts(s: State, t: nat, ch: Choice, d: nat)
    requires t < |s.tasks| && !s.tasks[t].Over? && IsWriting(TaskStep(s, t, ch), t, d)
    ensures TaskStep(s, t, ch).tasks[t].all <==> AllCompleted(TaskStep(s, t, ch).rows, d)
  {
    assert s.tasks[t].Counting?;
  }

  lemma CountsStayFresh(s: State, acts: seq<Action>, end: State, d: nat)
    requires acts != [] && Leads(s, acts, end) && WritesAtOnce(s, acts, end, d) && CountsAreFresh(s, acts, d)
    ensures CountsAreFresh(Next(s, acts[0]), acts[1..], d)
  {
    var next := Next(s, acts[0]);
    forall t: nat | IsWriting(next, t, d)
      ensures acts[0].Step? && acts[0].t == t && (AllCompleted(next.rows, d) ==> next.tasks[t].all)
    {
      JustCounted(s, acts, t, d);
    }
    assert |acts| > 1 ==> acts[1..][0] == acts[1];
  }

  /** With counting and writing in one piece, a run that is over leaves each document completed
      whose chunks all are and for which no access has failed. */
  lemma AtomicSyncsComplete(s: State, acts: seq<Action>, end: State, d: nat)
    requires Init(s) && Leads(s, acts, end) && FaultlessRun(s, acts, end, d) && WritesAtOnce(s, acts, end, d)
    requires AllOver(end) && AllCompleted(end.rows, d)
    ensures IsCompleted(end.rows, d)
  {
    InitInv(s);
    AtomicSyncsUndoNothing(s, acts, end, d);
    DocumentEndsCompleted(s, acts, end, d);
  }

  // ------------------------------------ when nothing fails for a document it is completed

  /** Nothing fails for document d: no access, not the chunking, which yields at least one
      chunk, and no chunk. What happens to other documents does not matter. */
  predicate Clean(s: State, a: Action, d: nat) {
    match a
    case Submit(_, e, ch) => e == d ==> !ch.bad && ch.size > 0
    case Step(t, ch) => t < |s.tasks| && Concerns(s.tasks[t], d) ==> !ch.fault && !ch.bad
    case _ => true
  }

  ghost predicate CleanRun(s: State, acts: seq<Action>, end: State, d: nat)
    requires Leads(s, acts, end)
    decreases |acts|
  {
    acts == [] || (Clean(s, acts[0], d) && CleanRun(Next(s, acts[0]), acts[1..], end, d))
  }

  predicate SplitsDoc(s: State, t: nat, d: nat) {
    t < |s.tasks| && Splits(s.tasks[t]) && s.tasks[t].d == d
  }

  // No task fails the document, and once its splitting has got anywhere there is its first row.
  predicate TaskUnharmed(s: State, t: nat, d: nat)
    requires t < |s.tasks|
  {
    Concerns(s.tasks[t], d) ==>
      match s.tasks[t]
      case Splitting(_, n, i) => n > 0 && (i > 0 ==> Child(d, 0) in s.turn)
      case Marking(_, _) => Child(d, 0) in s.turn
      case Failing(_, _) => false
      case ChunkFailing(_) => false
      case _ => true
  }

  // A chunk row is done with when it is completed, and just made while its document is split.
  ghost predicate ChunkUnharmed(s: State, c: Id, d: nat) {
    c in s.turn && IsChunkOf(c, d) ==>
      && (s.turn[c].Nobodys? ==> c in s.rows && s.rows[c].status == Completed)
      && (s.turn[c].Made? ==> exists t :: SplitsDoc(s, t, d))
  }

  ghost predicate Unharmed(s: State, d: nat) {
    && (forall t :: 0 <= t < |s.tasks| ==> TaskUnharmed(s, t, d))
    && (forall c :: ChunkUnharmed(s, c, d))
    && (d in s.submitted ==> Child(d, 0) in s.turn || exists t :: SplitsDoc(s, t, d))
  }

  // A step of task t that leaves it and the chunk rows right; splitting ends only with the
  // document's chunk rows queued.
  lemma TaskStaysUnharmed(s: State, s': State, t: nat, d: nat)
    requires Unharmed(s, d) && t < |s.tasks| == |s'.tasks| && TaskUnharmed(s', t, d)
    requires forall u :: 0 <= u < |s.tasks| && u != t ==> s'.tasks[u] == s.tasks[u]
    requires s.turn.Keys <= s'.turn.Keys && (d in s'.submitted && d !in s.submitted ==> SplitsDoc(s', t, d))
    requires SplitsDoc(s, t, d) && !SplitsDoc(s', t, d) ==>
               Child(d, 0) in s'.turn && forall c :: c in s'.turn && IsChunkOf(c, d) ==> !s'.turn[c].Made?
    requires forall c :: c in s'.turn && IsChunkOf(c, d) && s'.turn[c].Nobodys? ==>
               c in s'.rows && s'.rows[c].status == Completed
    requires forall c :: c in s'.turn && IsChunkOf(c, d) && s'.turn[c].Made? ==>
               (c in s.turn && s.turn[c].Made?) || SplitsDoc(s', t, d)
    ensures Unharmed(s', d)
  {
    forall u | 0 <= u < |s'.tasks|
      ensures TaskUnharmed(s', u, d)
    {
      assert TaskUnharmed(s, u, d);
    }
    forall c
      ensures ChunkUnharmed(s', c, d)
    {
      assert ChunkUnharmed(s, c, d);
      if c in s'.turn && IsChunkOf(c, d) && s'.turn[c].Made? && !SplitsDoc(s', t, d) {
        var u :| SplitsDoc(s, u, d);
        assert SplitsDoc(s', u, d);
      }
    }
    if d in s.submitted && Child(d, 0) !in s'.turn {
      var u :| SplitsDoc(s, u, d);
      assert SplitsDoc(s', u, d);
    }
  }

  lemma SplittingStaysUnharmed(s: State, t: nat, ch: Choice, d: nat)
    requires Inv(s) && Unharmed(s, d) && t < |s.tasks| && Clean(s, Step(t, ch), d)
    requires s.tasks[t].Splitting? || s.tasks[t].Marking?
    ensures Unharmed(TaskStep(s, t, ch), d)
  {
    assert TaskOk(s, t) && TaskUnharmed(s, t, d);
    assert forall c :: c in s.turn ==> ChunkOk(s, c) && ChunkUnharmed(s, c, d);
    TaskStaysUnharmed(s, TaskStep(s, t, ch), t, d);
  }

  lemma ChunkStepStaysUnharmed(s: State, t: nat, ch: Choice, d: nat)
    requires Inv(s) && Unharmed(s, d) && t < |s.tasks| && Clean(s, Step(t, ch), d) && HasChunk(s.tasks[t])
    ensures Unharmed(TaskStep(s, t, ch), d)
  {
    assert TaskOk(s, t) && TaskUnharmed(s, t, d);
    assert forall c :: c in s.turn ==> ChunkOk(s, c) && ChunkUnharmed(s, c, d);
    TaskStaysUnharmed(s, TaskStep(s, t, ch), t, d);
  }

  lemma DocStepStaysUnharmed(s: State, t: nat, ch: Choice, d: nat)
    requires Inv(s) && Unharmed(s, d) && t < |s.tasks| && Clean(s, Step(t, ch), d)
    requires s.tasks[t].Failing? || s.tasks[t].Reading? || s.tasks[t].Counting? || s.tasks[t].Writing?
    ensures Unharmed(TaskStep(s, t, ch), d)
  {
    assert TaskUnharmed(s, t, d);
    assert forall c :: c in s.turn ==> ChunkOk(s, c) && ChunkUnharmed(s, c, d);
    TaskStaysUnharmed(s, TaskStep(s, t, ch), t, d);
  }

  lemma StepStaysUnharmed(s: State, t: nat, ch: Choice, d: nat)
    requires Inv(s) && Unharmed(s, d) && t < |s.tasks| && !s.tasks[t].Over? && Clean(s, Step(t, ch), d)
    ensures Unharmed(TaskStep(s, t, ch), d)
  {
    if HasChunk(s.tasks[t]) {
      ChunkStepStaysUnharmed(s, t, ch, d);
    } else if s.tasks[t].Splitting? || s.tasks[t].Marking? {
      SplittingStaysUnharmed(s, t, ch, d);
    } else {
      DocStepStaysUnharmed(s, t, ch, d);
    }
  }

  lemma NewTaskStaysUnharmed(s: State, d: nat)
    requires Unharmed(s, d)
    ensures Unharmed(s.(tasks := s.tasks + [Over]), d)
  {
    var s' := s.(tasks := s.tasks + [Over]);
    forall u | 0 <= u < |s'.tasks|
      ensures TaskUnharmed(s', u, d)
    {
      assert u < |s.tasks| ==> TaskUnharmed(s, u, d);
    }
    assert forall t :: SplitsDoc(s, t, d) ==> SplitsDoc(s', t, d);
    forall c
      ensures ChunkUnharmed(s', c, d)
    {
      assert ChunkUnharmed(s, c, d);
    }
  }

  lemma AbortStaysUnharmed(s: State, t: nat, e: nat, d: nat)
    requires Unharmed(s, d) && Enabled(s, Abort(t, e))
    ensures Unharmed(Next(s, Abort(t, e)), d)
  {
    var c :| Dropped(s, c, e);
    assert ChunkUnharmed(s, c, d);
    assert forall x :: x in s.turn ==> ChunkUnharmed(s, x, d);
    TaskStaysUnharmed(s, Next(s, Abort(t, e)), t, d);
  }

  lemma UnharmedNext(s: State, a: Action, d: nat)
    requires Inv(s) && Unharmed(s, d) && Enabled(s, a) && Clean(s, a, d)
    ensures Unharmed(Next(s, a), d)
  {
    assert forall c :: c in s.turn ==> ChunkUnharmed(s, c, d);
    match a
    case NewTask => NewTaskStaysUnharmed(s, d);
    case Submit(t, _, _) => TaskStaysUnharmed(s, Next(s, a), t, d);
    case Take(t, _) => TaskStaysUnharmed(s, Next(s, a), t, d);
    case Resync(t, _) => TaskStaysUnharmed(s, Next(s, a), t, d);
    case Abort(t, e) => AbortStaysUnharmed(s, t, e, d);
    case Step(t, ch) => StepStaysUnharmed(s, t, ch, d);
  }

  lemma {:induction false} UnharmedThroughout(s: State, acts: seq<Action>, end: State, d: nat)
    requires Inv(s) && Unharmed(s, d) && Leads(s, acts, end) && CleanRun(s, acts, end, d)
    ensures Inv(end) && Unharmed(end, d) && FaultlessRun(s, acts, end, d)
    decreases |acts|
  {
    if acts == [] {
    } else {
      NextInv(s, acts[0]);
      UnharmedNext(s, acts[0], d);
      UnharmedThroughout(Next(s, acts[0]), acts[1..], end, d);
    }
  }

  /** Every task is over, and no chunk is left in the queue. */
  ghost predicate AtRest(s: State) {
    AllOver(s) && forall c :: c in s.turn ==> !s.turn[c].Queued?
  }

  /** At rest is where nothing can go on: no task has a step to take, and none could take up
      a chunk. */
  lemma AtRestExactly(s: State)
    requires |s.tasks| > 0
    ensures AtRest(s) <==> forall a :: Enabled(s, a) ==> !a.Step? && !a.Take?
  {
    if !AllOver(s) {
      var t :| 0 <= t < |s.tasks| && !s.tasks[t].Over?;
      assert Enabled(s, Step(t, FINE));
    } else if c :| c in s.turn && s.turn[c].Queued? {
      assert Enabled(s, Take(0, c));
    }
  }

  /** Liveness of the chunks: when a run has come to rest, a submitted document for which
      nothing has failed has chunks, and all of them are completed. */
  lemma CleanRunsCompleteChunks(s: State, acts: seq<Action>, end: State, d: nat)
    requires Init(s) && Leads(s, acts, end) && CleanRun(s, acts, end, d)
    requires AtRest(end) && d in end.submitted
    ensures AllCompleted(end.rows, d)
  {
    InitInv(s);
    UnharmedThroughout(s, acts, end, d);
    assert ChunkOk(end, Child(d, 0));
    forall c | c in end.rows && IsChunkOf(c, d)
      ensures end.rows[c].status == Completed
    {
      assert ChunkOk(end, c) && ChunkUnharmed(end, c, d);
    }
  }

  /** Liveness of the documents, whatever fails for others: when a run has come to rest, a
      submitted document for which nothing has failed is completed unless a step has undone its
      completion, and so it always is when counting and writing are in one piece. */
  lemma CleanRunsComplete(s: State, acts: seq<Action>, end: State, d: nat)
    requires Init(s) && Leads(s, acts, end) && CleanRun(s, acts, end, d)
    requires AtRest(end) && d in end.submitted
    ensures NeverUndone(s, acts, end, d) ==> IsCompleted(end.rows, d)
    ensures WritesAtOnce(s, acts, end, d) ==> IsCompleted(end.rows, d)
  {
    CleanRunsCompleteChunks(s, acts, end, d);
    InitInv(s);
    UnharmedThroughout(s, acts, end, d);
    if NeverUndone(s, acts, end, d) {
      DocumentEndsCompleted(s, acts, end, d);
    }
    if WritesAtOnce(s, acts, end, d) {
      AtomicSyncsComplete(s, acts, end, d);
    }
  }

  // ----------------------------------------------- how documents and their chunks end

  /** What was decided outside about a document: whether its text could not be chunked, how many
      chunks it has otherwise, and which of them went bad. */
  datatype Fate = Fate(refused: bool, size: nat, bad: set<Id>)

  ghost function FateAfter(s: State, a: Action, d: nat, fate: Fate): Fate {
    match a
    case Submit(_, e, ch) => if e == d then Fate(ch.bad, ch.size, {}) else fate
    case Step(t, ch) =>
      if t < |s.tasks| && s.tasks[t].Working? && s.tasks[t].c.doc == d && ch.bad
      then fate.(bad := fate.bad + {s.tasks[t].c}) else fate
    case _ => fate
  }

  ghost function FateOf(s: State, acts: seq<Action>, end: State, d: nat, fate: Fate): Fate
    requires Leads(s, acts, end)
    decreases |acts|
  {
    if acts == [] then fate else FateOf(Next(s, acts[0]), acts[1..], end, d, FateAfter(s, acts[0], d, fate))
  }

  predicate SplitsNow(s: State, t: nat, d: nat) {
    t < |s.tasks| && (s.tasks[t].Splitting? || s.tasks[t].Marking?) && s.tasks[t].d == d
  }

  predicate Refuses(s: State, t: nat, d: nat) {
    t < |s.tasks| && s.tasks[t] == Failing(d, false)
  }

  predicate Marked(s: State, d: nat) {
    Doc(d) in s.rows && s.rows[Doc(d)].DocRow? && s.rows[Doc(d)].split
  }

  ghost predicate HasChunks(s: State, d: nat, n: nat) {
    forall k: nat :: Child(d, k) in s.turn <==> k < n
  }

  predicate StatusIs(s: State, c: Id, status: Status) {
    c in s.rows && s.rows[c].status == status
  }

  ghost predicate TaskExact(s: State, t: nat, d: nat, fate: Fate)
    requires t < |s.tasks|
  {
    Concerns(s.tasks[t], d) ==>
      match s.tasks[t]
      case Splitting(_, n, i) => !fate.refused && n == fate.size && i <= n && HasChunks(s, d, i)
      case Marking(_, n) => !fate.refused && HasChunks(s, d, fate.size)
      case Failing(_, split) => split != fate.refused && (split ==> Marked(s, d))
      case Begun(c) => Marked(s, d) && c !in fate.bad && StatusIs(s, c, Pending)
      case Working(c) => Marked(s, d) && c !in fate.bad && StatusIs(s, c, Processing)
      case ChunkFailing(c) => Marked(s, d) && c in fate.bad && StatusIs(s, c, Processing)
      case Memifying(c) => Marked(s, d) && c !in fate.bad && StatusIs(s, c, Cognified)
      case Reading(_) => Marked(s, d)
      case Counting(_, split) => split && !fate.refused
      case Writing(_, split, _) => split && !fate.refused
  }

  ghost predicate ChunkExact(s: State, c: Id, d: nat, fate: Fate) {
    c in s.turn && IsChunkOf(c, d) ==>
      match s.turn[c]
      case Made => c !in fate.bad && exists t :: SplitsNow(s, t, d)
      case Queued => c !in fate.bad && Marked(s, d)
      case Taken(_) => Marked(s, d)
      case Nobodys => Marked(s, d) && StatusIs(s, c, if c in fate.bad then Failed else Completed)
  }

  ghost predicate DocExact(s: State, d: nat, fate: Fate) {
    if d !in s.submitted then HasChunks(s, d, 0) && (Doc(d) in s.rows ==> s.rows[Doc(d)] == DocRow(Pending, false))
    else
      && Doc(d) in s.rows
      && if fate.refused then
           && HasChunks(s, d, 0) && !Marked(s, d)
           && (s.rows[Doc(d)] == DocRow(Failed, false) || exists t :: Refuses(s, t, d))
         else (exists t :: SplitsNow(s, t, d)) || (Marked(s, d) && HasChunks(s, d, fate.size))
  }

  ghost predicate Exact(s: State, d: nat, fate: Fate) {
    && (forall t :: 0 <= t < |s.tasks| ==> TaskExact(s, t, d, fate))
    && (forall c :: ChunkExact(s, c, d, fate))
    && DocExact(s, d, fate) && (d in s.ready ==> !fate.refused) && fate.bad <= s.turn.Keys
  }

  // From s to s' task t has taken a step that touches chunk row c at most.
  ghost predicate Near(s: State, s': State, t: nat, c: Id, d: nat, fate: Fate, fate': Fate) {
    && t < |s.tasks| == |s'.tasks| && (forall u :: 0 <= u < |s.tasks| && u != t ==> s'.tasks[u] == s.tasks[u])
    && (Marked(s, d) ==> Marked(s', d)) && s'.submitted == s.submitted && s.rows.Keys <= s'.rows.Keys
    && fate'.refused == fate.refused && fate'.size == fate.size && fate.bad <= fate'.bad <= fate.bad + {c}
    && (forall x :: IsChunkOf(x, d) && x != c ==>
          && (x in s'.turn <==> x in s.turn) && (x in s.turn ==> s'.turn[x] == s.turn[x])
          && (x in s.rows ==> x in s'.rows && s'.rows[x] == s.rows[x]))
    && (IsChunkOf(c, d) && !SplitsNow(s, t, d) ==> (c in s'.turn <==> c in s.turn))
    && (HasChunk(s.tasks[t]) ==> c == s.tasks[t].c)
  }

  lemma OthersStayExact(s: State, s': State, t: nat, c: Id, d: nat, fate: Fate, fate': Fate, u: nat)
    requires Inv(s) && Exact(s, d, fate) && Near(s, s', t, c, d, fate, fate') && u < |s.tasks| && u != t
    requires c in s.turn && s.turn[c].Taken? ==> s.turn[c].t == t
    ensures TaskExact(s', u, d, fate')
  {
    assert TaskOk(s, u) && TaskExact(s, u, d, fate) && SplitsAlone(s, t, u);
    if HasChunk(s.tasks[u]) {
      assert ChunkOk(s, s.tasks[u].c);
    } else if SplitsNow(s, u, d) {
      assert !SplitsNow(s, t, d);
      assert forall k: nat :: Child(d, k) in s'.turn <==> Child(d, k) in s.turn;
    }
  }

  lemma ChunksStayExact(s: State, s': State, t: nat, c: Id, d: nat, fate: Fate, fate': Fate)
    requires Inv(s) && Exact(s, d, fate) && Near(s, s', t, c, d, fate, fate')
    requires SplitsNow(s, t, d) ==> SplitsNow(s', t, d)
    requires ChunkExact(s', c, d, fate')
    ensures forall x :: ChunkExact(s', x, d, fate')
  {
    forall x
      ensures ChunkExact(s', x, d, fate')
    {
      assert ChunkExact(s, x, d, fate);
      if x in s.turn && IsChunkOf(x, d) && s.turn[x].Made? && x != c {
        var u :| SplitsNow(s, u, d);
        assert SplitsNow(s', u, d);
      }
    }
  }

  lemma DocStaysExact(s: State, s': State, t: nat, c: Id, d: nat, fate: Fate, fate': Fate)
    requires Inv(s) && Exact(s, d, fate) && Near(s, s', t, c, d, fate, fate')
    requires SplitsNow(s, t, d) ==> SplitsNow(s', t, d)
    requires Refuses(s, t, d) ==> Doc(d) in s'.rows && s'.rows[Doc(d)] == DocRow(Failed, false)
    requires (fate.refused && !Refuses(s, t, d)) || d !in s.submitted ==>
               (Doc(d) in s'.rows <==> Doc(d) in s.rows) && (Doc(d) in s.rows ==> s'.rows[Doc(d)] == s.rows[Doc(d)])
    ensures DocExact(s', d, fate')
  {
    if exists u :: SplitsNow(s, u, d) {
      var u :| SplitsNow(s, u, d);
      assert SplitsNow(s', u, d) && TaskOk(s, u) && TaskExact(s, u, d, fate);
    } else {
      assert forall k: nat :: Child(d, k) in s'.turn <==> Child(d, k) in s.turn;
    }
    if u :| Refuses(s, u, d) {
      assert u != t ==> Refuses(s', u, d);
    }
  }

  lemma NearStaysExact(s: State, s': State, t: nat, c: Id, d: nat, fate: Fate, fate': Fate)
    requires Inv(s) && Exact(s, d, fate) && Near(s, s', t, c, d, fate, fate')
    requires c in s.turn && s.turn[c].Taken? ==> s.turn[c].t == t
    requires SplitsNow(s, t, d) ==> SplitsNow(s', t, d)
    requires Refuses(s, t, d) ==> Doc(d) in s'.rows && s'.rows[Doc(d)] == DocRow(Failed, false)
    requires (fate.refused && !Refuses(s, t, d)) || d !in s.submitted ==>
               (Doc(d) in s'.rows <==> Doc(d) in s.rows) && (Doc(d) in s.rows ==> s'.rows[Doc(d)] == s.rows[Doc(d)])
    requires TaskExact(s', t, d, fate') && ChunkExact(s', c, d, fate')
    requires d in s'.ready ==> d in s.ready || SplitsNow(s, t, d)
    requires fate'.bad <= s'.turn.Keys
    ensures Exact(s', d, fate')
  {
    forall u | 0 <= u < |s'.tasks|
      ensures TaskExact(s', u, d, fate')
    {
      if u != t {
        OthersStayExact(s, s', t, c, d, fate, fate', u);
      }
    }
    ChunksStayExact(s, s', t, c, d, fate, fate');
    DocStaysExact(s, s', t, c, d, fate, fate');
    assert TaskExact(s, t, d, fate);
  }

  lemma ChunkStepIsNear(s: State, t: nat, ch: Choice, d: nat, fate: Fate)
    requires t < |s.tasks| && HasChunk(s.tasks[t]) && s.tasks[t].c in s.turn && s.tasks[t].c in s.rows
    requires s.tasks[t].c.Child?
    ensures |s.tasks| == |TaskStep(s, t, ch).tasks|
    ensures Near(s, TaskStep(s, t, ch), t, s.tasks[t].c, d, fate, FateAfter(s, Step(t, ch), d, fate))
  {
  }

  lemma ChunkStepIsExact(s: State, t: nat, ch: Choice, d: nat, fate: Fate)
    requires t < |s.tasks| && HasChunk(s.tasks[t]) && TaskOk(s, t) && ChunkOk(s, s.tasks[t].c)
    requires TaskExact(s, t, d, fate) && ChunkExact(s, s.tasks[t].c, d, fate) && Faultless(s, Step(t, ch), d)
    ensures t < |TaskStep(s, t, ch).tasks|
    ensures TaskExact(TaskStep(s, t, ch), t, d, FateAfter(s, Step(t, ch), d, fate))
    ensures ChunkExact(TaskStep(s, t, ch), s.tasks[t].c, d, FateAfter(s, Step(t, ch), d, fate))
  {
  }

  lemma ChunkStepExact(s: State, t: nat, ch: Choice, d: nat, fate: Fate)
    requires Inv(s) && Exact(s, d, fate) && t < |s.tasks| && HasChunk(s.tasks[t]) && Faultless(s, Step(t, ch), d)
    ensures Exact(TaskStep(s, t, ch), d, FateAfter(s, Step(t, ch), d, fate))
  {
    var c := s.tasks[t].c;
    assert TaskOk(s, t) && ChunkOk(s, c) && TaskExact(s, t, d, fate) && ChunkExact(s, c, d, fate);
    ChunkStepIsNear(s, t, ch, d, fate);
    ChunkStepIsExact(s, t, ch, d, fate);
    NearStaysExact(s, TaskStep(s, t, ch), t, c, d, fate, FateAfter(s, Step(t, ch), d, fate));
  }

  lemma SplittingIsNear(s: State, t: nat, ch: Choice, d: nat, fate: Fate)
    requires t < |s.tasks| && s.tasks[t].Splitting?
    ensures |s.tasks| == |TaskStep(s, t, ch).tasks|
    ensures Near(s, TaskStep(s, t, ch), t, Child(s.tasks[t].d, s.tasks[t].i), d, fate, fate)
  {
  }

  lemma SplittingIsExact(s: State, t: nat, ch: Choice, d: nat, fate: Fate)
    requires t < |s.tasks| && s.tasks[t].Splitting? && TaskExact(s, t, d, fate) && fate.bad <= s.turn.Keys
    requires ChunkExact(s, Child(s.tasks[t].d, s.tasks[t].i), d, fate) && Faultless(s, Step(t, ch), d)
    requires s.tasks[t].d == d ==> d !in s.ready
    ensures t < |TaskStep(s, t, ch).tasks| && (SplitsNow(s, t, d) ==> SplitsNow(TaskStep(s, t, ch), t, d))
    ensures TaskExact(TaskStep(s, t, ch), t, d, fate)
    ensures ChunkExact(TaskStep(s, t, ch), Child(s.tasks[t].d, s.tasks[t].i), d, fate)
  {
    var s' := TaskStep(s, t, ch);
    if s.tasks[t].d == d {
      assert SplitsNow(s, t, d) && SplitsNow(s', t, d);
    }
  }

  lemma SplittingExact(s: State, t: nat, ch: Choice, d: nat, fate: Fate)
    requires Inv(s) && Exact(s, d, fate) && t < |s.tasks| && s.tasks[t].Splitting? && Faultless(s, Step(t, ch), d)
    ensures Exact(TaskStep(s, t, ch), d, fate)
  {
    var c := Child(s.tasks[t].d, s.tasks[t].i);
    assert TaskOk(s, t) && ChunkOk(s, c) && TaskExact(s, t, d, fate) && ChunkExact(s, c, d, fate);
    SplittingIsNear(s, t, ch, d, fate);
    SplittingIsExact(s, t, ch, d, fate);
    NearStaysExact(s, TaskStep(s, t, ch), t, c, d, fate, fate);
  }

  lemma FailingExact(s: State, t: nat, ch: Choice, d: nat, fate: Fate)
    requires Inv(s) && Exact(s, d, fate) && t < |s.tasks| && s.tasks[t].Failing? && Faultless(s, Step(t, ch), d)
    ensures Exact(TaskStep(s, t, ch), d, fate)
  {
    var none := Doc(0);
    assert TaskOk(s, t) && TaskExact(s, t, d, fate) && ChunkExact(s, none, d, fate) && ChunkOk(s, none);
    NearStaysExact(s, TaskStep(s, t, ch), t, none, d, fate, fate);
  }

  // A task without a chunk goes on, and no row is written.
  lemma GoesOnExact(s: State, t: nat, task: Task, d: nat, fate: Fate)
    requires Inv(s) && Exact(s, d, fate) && t < |s.tasks| && TaskExact(At(s, t, task), t, d, fate)
    requires !HasChunk(s.tasks[t]) && !SplitsNow(s, t, d) && !Refuses(s, t, d)
    ensures Exact(At(s, t, task), d, fate)
  {
    var none := Doc(0);
    assert ChunkExact(s, none, d, fate) && ChunkOk(s, none);
    NearStaysExact(s, At(s, t, task), t, none, d, fate, fate);
  }

  lemma WritingExact(s: State, t: nat, ch: Choice, d: nat, fate: Fate)
    requires Inv(s) && Exact(s, d, fate) && t < |s.tasks| && s.tasks[t].Writing? && Faultless(s, Step(t, ch), d)
    ensures Exact(TaskStep(s, t, ch), d, fate)
  {
    var none := Doc(0);
    assert TaskOk(s, t) && TaskExact(s, t, d, fate) && ChunkExact(s, none, d, fate) && ChunkOk(s, none);
    NearStaysExact(s, TaskStep(s, t, ch), t, none, d, fate, fate);
  }

  lemma SyncExact(s: State, t: nat, ch: Choice, d: nat, fate: Fate)
    requires Inv(s) && Exact(s, d, fate) && t < |s.tasks| && Faultless(s, Step(t, ch), d)
    requires s.tasks[t].Reading? || s.tasks[t].Counting? || s.tasks[t].Writing?
    ensures Exact(TaskStep(s, t, ch), d, fate)
  {
    assert TaskOk(s, t) && TaskExact(s, t, d, fate);
    if s.tasks[t].Writing? {
      WritingExact(s, t, ch, d, fate);
    } else {
      GoesOnExact(s, t, TaskStep(s, t, ch).tasks[t], d, fate);
    }
  }

  lemma MarkingExact(s: State, t: nat, ch: Choice, d: nat, fate: Fate)
    requires Inv(s) && Exact(s, d, fate) && t < |s.tasks| && s.tasks[t].Marking? && Faultless(s, Step(t, ch), d)
    ensures Exact(TaskStep(s, t, ch), d, fate)
  {
    var s' := TaskStep(s, t, ch);
    assert TaskOk(s, t) && TaskExact(s, t, d, fate);
    assert forall k: nat :: Child(d, k) in s'.turn <==> Child(d, k) in s.turn;
    forall u | 0 <= u < |s'.tasks|
      ensures TaskExact(s', u, d, fate)
    {
      assert TaskExact(s, u, d, fate) && SplitsAlone(s, t, u) && TaskOk(s, u);
      if HasChunk(s.tasks[u]) { assert ChunkOk(s, s.tasks[u].c); }
    }
    forall c
      ensures ChunkExact(s', c, d, fate)
    {
      assert ChunkExact(s, c, d, fate) && ChunkOk(s, c);
      if c in s.turn && IsChunkOf(c, d) && s.turn[c].Made? && s.tasks[t].d != d {
        var u :| SplitsNow(s, u, d);
        assert SplitsNow(s', u, d);
      }
    }
    if s.tasks[t].d != d && d in s.submitted {
      if u :| SplitsNow(s, u, d) { assert SplitsNow(s', u, d); }
      if u :| Refuses(s, u, d) { assert Refuses(s', u, d); }
    }
  }

  lemma StepExact(s: State, t: nat, ch: Choice, d: nat, fate: Fate)
    requires Inv(s) && Exact(s, d, fate) && Enabled(s, Step(t, ch)) && Faultless(s, Step(t, ch), d)
    ensures Exact(TaskStep(s, t, ch), d, FateAfter(s, Step(t, ch), d, fate))
  {
    if HasChunk(s.tasks[t]) {
      ChunkStepExact(s, t, ch, d, fate);
    } else if s.tasks[t].Splitting? {
      SplittingExact(s, t, ch, d, fate);
    } else if s.tasks[t].Marking? {
      MarkingExact(s, t, ch, d, fate);
    } else if s.tasks[t].Failing? {
      FailingExact(s, t, ch, d, fate);
    } else {
      SyncExact(s, t, ch, d, fate);
    }
  }

  lemma NewTaskExact(s: State, d: nat, fate: Fate)
    requires Exact(s, d, fate)
    ensures Exact(s.(tasks := s.tasks + [Over]), d, fate)
  {
    var s' := s.(tasks := s.tasks + [Over]);
    assert forall t :: SplitsNow(s, t, d) ==> SplitsNow(s', t, d);
    assert forall t :: Refuses(s, t, d) ==> Refuses(s', t, d);
    forall u | 0 <= u < |s'.tasks|
      ensures TaskExact(s', u, d, fate)
    {
      assert u < |s.tasks| ==> TaskExact(s, u, d, fate);
    }
    forall c
      ensures ChunkExact(s', c, d, fate)
    {
      assert ChunkExact(s, c, d, fate);
    }
  }

  lemma OtherSubmitExact(s: State, t: nat, e: nat, ch: Choice, d: nat, fate: Fate)
    requires Inv(s) && Exact(s, d, fate) && Enabled(s, Submit(t, e, ch)) && e != d
    ensures Exact(Next(s, Submit(t, e, ch)), d, fate)
  {
    var s' := Next(s, Submit(t, e, ch));
    assert forall u :: SplitsNow(s, u, d) ==> SplitsNow(s', u, d);
    assert forall u :: Refuses(s, u, d) ==> Refuses(s', u, d);
    forall u | 0 <= u < |s'.tasks|
      ensures TaskExact(s', u, d, fate)
    {
      assert TaskExact(s, u, d, fate);
    }
    forall c
      ensures ChunkExact(s', c, d, fate)
    {
      assert ChunkExact(s, c, d, fate);
    }
  }

  lemma SubmitExact(s: State, t: nat, ch: Choice, d: nat, fate: Fate)
    requires Inv(s) && Exact(s, d, fate) && Enabled(s, Submit(t, d, ch))
    ensures Exact(Next(s, Submit(t, d, ch)), d, Fate(ch.bad, ch.size, {}))
  {
    var s', fate' := Next(s, Submit(t, d, ch)), Fate(ch.bad, ch.size, {});
    forall u | 0 <= u < |s'.tasks|
      ensures TaskExact(s', u, d, fate')
    {
      assert TaskExact(s, u, d, fate) && TaskOk(s, u);
      if HasChunk(s.tasks[u]) { assert ChunkOk(s, s.tasks[u].c); }
    }
    forall c
      ensures ChunkExact(s', c, d, fate')
    {
      assert ChunkExact(s, c, d, fate) && ChunkOk(s, c);
      assert IsChunkOf(c, d) ==> c == Child(d, c.index);
    }
    assert if ch.bad then Refuses(s', t, d) else SplitsNow(s', t, d);
  }

  lemma TakeExact(s: State, t: nat, c: Id, d: nat, fate: Fate)
    requires Inv(s) && Exact(s, d, fate) && Enabled(s, Take(t, c))
    ensures Exact(Next(s, Take(t, c)), d, fate)
  {
    assert ChunkOk(s, c) && ChunkExact(s, c, d, fate);
    NearStaysExact(s, Next(s, Take(t, c)), t, c, d, fate, fate);
  }

  lemma AbortExact(s: State, t: nat, e: nat, d: nat, fate: Fate)
    requires Inv(s) && Exact(s, d, fate) && Enabled(s, Abort(t, e))
    ensures Exact(Next(s, Abort(t, e)), d, fate)
  {
    var c :| Dropped(s, c, e);
    assert ChunkExact(s, c, d, fate);
    GoesOnExact(s, t, Failing(e, true), d, fate);
  }

  lemma ExactNext(s: State, a: Action, d: nat, fate: Fate)
    requires Inv(s) && Exact(s, d, fate) && Enabled(s, a) && Faultless(s, a, d)
    ensures Exact(Next(s, a), d, FateAfter(s, a, d, fate))
  {
    match a
    case NewTask => NewTaskExact(s, d, fate);
    case Submit(t, e, ch) =>
      if e == d { SubmitExact(s, t, ch, d, fate); } else { OtherSubmitExact(s, t, e, ch, d, fate); }
    case Take(t, c) => TakeExact(s, t, c, d, fate);
    case Resync(t, e) => GoesOnExact(s, t, Counting(e, true), d, fate);
    case Abort(t, e) => AbortExact(s, t, e, d, fate);
    case Step(t, ch) => StepExact(s, t, ch, d, fate);
  }

  const UNDECIDED := Fate(false, 0, {})

  lemma {:induction false} ExactThroughout(s: State, acts: seq<Action>, end: State, d: nat, fate: Fate)
    requires Inv(s) && Exact(s, d, fate) && Leads(s, acts, end) && FaultlessRun(s, acts, end, d)
    ensures Inv(end) && Exact(end, d, FateOf(s, acts, end, d, fate))
    decreases |acts|
  {
    if acts == [] {
    } else {
      NextInv(s, acts[0]);
      ExactNext(s, acts[0], d, fate);
      ExactThroughout(Next(s, acts[0]), acts[1..], end, d, FateAfter(s, acts[0], d, fate));
    }
  }

  /** How chunks end: at any point of a run in which no access for document d fails, a chunk row
      that is nobody's any more is failed if its work went bad, and completed otherwise. */
  lemma ChunksEnd(s: State, acts: seq<Action>, end: State, c: Id)
    requires Init(s) && Leads(s, acts, end) && FaultlessRun(s, acts, end, c.doc)
    requires c in end.turn && end.turn[c].Nobodys?
    ensures c in end.rows
    ensures end.rows[c].status == if c in FateOf(s, acts, end, c.doc, UNDECIDED).bad then Failed else Completed
  {
    InitInv(s);
    ExactThroughout(s, acts, end, c.doc, UNDECIDED);
    assert ChunkOk(end, c) && ChunkExact(end, c, c.doc, FateOf(s, acts, end, c.doc, UNDECIDED));
  }

  /** How documents end, when a run has come to rest in which no access for document d failed. A
      text that could not be chunked leaves the document failed, and without chunks. Otherwise
      it is split, has exactly the chunks of its text, and none of them is left pending, in
      processing or cognified. */
  lemma DocumentsEnd(s: State, acts: seq<Action>, end: State, d: nat)
    requires Init(s) && Leads(s, acts, end) && FaultlessRun(s, acts, end, d)
    requires AtRest(end) && d in end.submitted
    ensures Doc(d) in end.rows && end.rows[Doc(d)].DocRow?
    ensures var fate := FateOf(s, acts, end, d, UNDECIDED);
            if fate.refused then
              end.rows[Doc(d)] == DocRow(Failed, false) && forall k: nat :: Child(d, k) !in end.rows
            else
              && end.rows[Doc(d)].split && (forall k: nat :: Child(d, k) in end.rows <==> k < fate.size)
              && forall k: nat :: k < fate.size ==>
                   end.rows[Child(d, k)].status == if Child(d, k) in fate.bad then Failed else Completed
  {
    var fate := FateOf(s, acts, end, d, UNDECIDED);
    InitInv(s);
    ExactThroughout(s, acts, end, d, UNDECIDED);
    forall k: nat
      ensures Child(d, k) in end.rows <==> Child(d, k) in end.turn
      ensures Child(d, k) in end.rows ==>
                end.rows[Child(d, k)].status == if Child(d, k) in fate.bad then Failed else Completed
    {
      assert ChunkOk(end, Child(d, k)) && ChunkExact(end, Child(d, k), d, fate);
    }
  }

  /** With a working store a chunk row goes one stage at a time. */
  lemma OneStageAtATime(s: State, acts: seq<Action>, mid: State, a: Action, c: Id)
    requires Init(s) && Leads(s, acts, mid) && FaultlessRun(s, acts, mid, c.doc)
    requires Enabled(mid, a) && Faultless(mid, a, c.doc) && c.Child? && c in mid.rows
    ensures c in Next(mid, a).rows
    ensures var x, y := mid.rows[c].status, Next(mid, a).rows[c].status;
            || x == y || (x == Pending && y == Processing) || (x == Processing && (y == Cognified || y == Failed))
            || (x == Cognified && y == Completed)
  {
    InitInv(s);
    ExactThroughout(s, acts, mid, c.doc, UNDECIDED);
    NextInv(mid, a);
    if a.Step? {
      StageOfStep(mid, a.t, a.ch, c, FateOf(s, acts, mid, c.doc, UNDECIDED));
    }
  }

  lemma StageOfStep(s: State, t: nat, ch: Choice, c: Id, fate: Fate)
    requires Inv(s) && Exact(s, c.doc, fate) && t < |s.tasks| && !s.tasks[t].Over? && c.Child? && c in s.rows
    requires Faultless(s, Step(t, ch), c.doc)
    ensures c in TaskStep(s, t, ch).rows
    ensures var x, y := s.rows[c].status, TaskStep(s, t, ch).rows[c].status;
            || x == y || (x == Pending && y == Processing) || (x == Processing && (y == Cognified || y == Failed))
            || (x == Cognified && y == Completed)
  {
    assert TaskExact(s, t, c.doc, fate) && TaskOk(s, t) && ChunkOk(s, c);
  }

  // ------------------------------------------ how rows end when store accesses fail as well

  // The step in which the work on chunk c goes wrong: its stages fail, or a write of one does.
  predicate GoesWrong(s: State, a: Action, c: Id) {
    && a.Step? && a.t < |s.tasks|
    && ((s.tasks[a.t] == Working(c) && (a.ch.bad || a.ch.fault)) || (s.tasks[a.t] == Memifying(c) && a.ch.fault))
  }

  ghost predicate WentWrong(s: State, acts: seq<Action>, end: State, c: Id)
    requires Leads(s, acts, end)
    decreases |acts|
  {
    acts != [] && (GoesWrong(s, acts[0], c) || WentWrong(Next(s, acts[0]), acts[1..], end, c))
  }

  // The step does not fail to store that chunk c has failed.
  predicate Reports(s: State, a: Action, c: Id) {
    a.Step? && a.t < |s.tasks| && s.tasks[a.t] == ChunkFailing(c) ==> !a.ch.fault
  }

  ghost predicate FailureIsStored(s: State, acts: seq<Action>, end: State, c: Id)
    requires Leads(s, acts, end)
    decreases |acts|
  {
    acts == [] || (Reports(s, acts[0], c) && FailureIsStored(Next(s, acts[0]), acts[1..], end, c))
  }

  // What a chunk's turn and row tell of its work so far.
  predicate Tells(s: State, c: Id, wrong: bool) {
    if c !in s.turn then !wrong
    else
      match s.turn[c]
      case Made => !wrong
      case Queued => !wrong
      case Taken(t) => t < |s.tasks| && (wrong <==> s.tasks[t].ChunkFailing?)
      case Nobodys => StatusIs(s, c, if wrong then Failed else Completed)
  }

  lemma TellsNext(s: State, a: Action, c: Id, wrong: bool)
    requires Inv(s) && Enabled(s, a) && Tells(s, c, wrong) && Reports(s, a, c)
    ensures Tells(Next(s, a), c, wrong || GoesWrong(s, a, c))
  {
    assert ChunkOk(s, c);
    if a.Step? {
      TellsStep(s, a.t, a.ch, c, wrong);
    }
  }

  lemma TellsStep(s: State, t: nat, ch: Choice, c: Id, wrong: bool)
    requires Inv(s) && Enabled(s, Step(t, ch)) && Tells(s, c, wrong) && Reports(s, Step(t, ch), c)
    ensures Tells(TaskStep(s, t, ch), c, wrong || GoesWrong(s, Step(t, ch), c))
  {
    assert ChunkOk(s, c) && TaskOk(s, t);
    if HasChunk(s.tasks[t]) && s.tasks[t].c == c {
    } else if c in s.turn && s.turn[c].Taken? {
      OthersStay(s, t, ch, s.turn[c].t);
      TurnStays(s, t, ch, c);
    } else {
      TurnStays(s, t, ch, c);
    }
  }

  // A task that does not work on chunk c leaves its turn alone, or makes it, or queues it.
  lemma TurnStays(s: State, t: nat, ch: Choice, c: Id)
    requires Inv(s) && Enabled(s, Step(t, ch)) && !(HasChunk(s.tasks[t]) && s.tasks[t].c == c)
    ensures var turn := TaskStep(s, t, ch).turn;
            if c !in s.turn then c in turn ==> turn[c].Made?
            else c in turn && (turn[c] == s.turn[c] || (!s.turn[c].Taken? && !s.turn[c].Nobodys? &&
                                                        (turn[c].Made? || turn[c].Queued?)))
    ensures c in s.turn && s.turn[c].Nobodys? && c in s.rows ==>
              c in TaskStep(s, t, ch).rows && TaskStep(s, t, ch).rows[c] == s.rows[c]
  {
    assert ChunkOk(s, c) && TaskOk(s, t);
  }

  lemma {:induction false} TellsThroughout(s: State, acts: seq<Action>, end: State, c: Id, wrong: bool)
    requires Inv(s) && Leads(s, acts, end) && Tells(s, c, wrong) && FailureIsStored(s, acts, end, c)
    ensures Tells(end, c, wrong || WentWrong(s, acts, end, c))
    decreases |acts|
  {
    if acts == [] {
    } else {
      NextInv(s, acts[0]);
      TellsNext(s, acts[0], c, wrong);
      TellsThroughout(Next(s, acts[0]), acts[1..], end, c, wrong || GoesWrong(s, acts[0], c));
    }
  }

  /** Whatever accesses fail: a chunk row that is nobody's any more is failed exactly if its work
      went wrong, and otherwise completed, unless the write of its failure itself fails. */
  lemma ChunkEndsAsItsWorkWent(s: State, acts: seq<Action>, end: State, c: Id)
    requires Init(s) && Leads(s, acts, end) && FailureIsStored(s, acts, end, c)
    requires c in end.turn && end.turn[c].Nobodys?
    ensures c in end.rows && end.rows[c].status == if WentWrong(s, acts, end, c) then Failed else Completed
  {
    InitInv(s);
    TellsThroughout(s, acts, end, c, false);
  }

  /** What the last write to a document row, if the step makes one, leaves there. */
  ghost function WrittenBy(s: State, a: Action, d: nat, last: Status): Status {
    if !a.Step? || a.ch.fault || a.t >= |s.tasks| then last
    else
      match s.tasks[a.t]
      case Marking(e, n) => if e == d then Processing else last
      case Failing(e, split) => if e == d then Failed else last
      case Writing(e, split, all) => if e != d then last else if all then Completed else Processing
      case _ => last
  }

  ghost function LastWritten(s: State, acts: seq<Action>, end: State, d: nat, last: Status): Status
    requires Leads(s, acts, end)
    decreases |acts|
  {
    if acts == [] then last else LastWritten(Next(s, acts[0]), acts[1..], end, d, WrittenBy(s, acts[0], d, last))
  }

  lemma WriteTells(s: State, a: Action, d: nat, last: Status)
    requires Inv(s) && Enabled(s, a) && (Doc(d) in s.rows ==> s.rows[Doc(d)].status == last)
    ensures Doc(d) in Next(s, a).rows ==> Next(s, a).rows[Doc(d)].status == WrittenBy(s, a, d, last)
  {
    if a.Step? {
      assert TaskOk(s, a.t) && (HasChunk(s.tasks[a.t]) ==> ChunkOk(s, s.tasks[a.t].c));
    }
  }

  lemma {:induction false} LastWriteTells(s: State, acts: seq<Action>, end: State, d: nat, last: Status)
    requires Inv(s) && Leads(s, acts, end) && (Doc(d) in s.rows ==> s.rows[Doc(d)].status == last)
    ensures Doc(d) in end.rows ==> end.rows[Doc(d)].status == LastWritten(s, acts, end, d, last)
    decreases |acts|
  {
    if acts == [] {
    } else {
      WriteTells(s, acts[0], d, last);
      NextInv(s, acts[0]);
      LastWriteTells(Next(s, acts[0]), acts[1..], end, d, WrittenBy(s, acts[0], d, last));
    }
  }

  /** Whatever accesses fail, a document's status is what its last successful write says: a
      failure, a beginning, or the count of a synchronization; pending before there is any. */
  lemma LastWriteDecides(s: State, acts: seq<Action>, end: State, d: nat)
    requires Init(s) && Leads(s, acts, end)
    ensures Doc(d) in end.rows ==> end.rows[Doc(d)].status == LastWritten(s, acts, end, d, Pending)
  {
    InitInv(s);
    LastWriteTells(s, acts, end, d, Pending);
  }

  // ------------------------------------------------- a document that stays in processing

  ghost predicate Reaches(s: State, end: State) {
    exists acts :: Leads(s, acts, end)
  }

  lemma {:induction false} RunOn(s: State, acts: seq<Action>, mid: State, a: Action)
    requires Leads(s, acts, mid) && Enabled(mid, a)
    ensures Leads(s, acts + [a], Next(mid, a))
    decreases |acts|
  {
    if acts == [] {
      assert ([a])[1..] == [] && acts + [a] == [a];
    } else {
      assert (acts + [a])[1..] == acts[1..] + [a];
      RunOn(Next(s, acts[0]), acts[1..], mid, a);
    }
  }

  lemma OneStepOn(s: State, mid: State, a: Action, end: State)
    requires Reaches(s, mid) && Enabled(mid, a) && Next(mid, a) == end
    ensures Reaches(s, end)
  {
    var acts :| Leads(s, acts, mid);
    RunOn(s, acts, mid, a);
  }

  // Document 0 with its two chunks and two tasks.
  function TwoChunks(doc: Status, c0: Status, c1: Status, t0: Task, t1: Task, u0: Turn, u1: Turn): State {
    State(map[Doc(0) := DocRow(doc, true), Child(0, 0) := ChunkRow(c0), Child(0, 1) := ChunkRow(c1)],
          [t0, t1], {0}, {0}, map[Child(0, 0) := u0, Child(0, 1) := u1])
  }

  const FINE := Choice(false, false, 2)

  // Two idle tasks; document 0 waits.
  const START := State(map[Doc(0) := DocRow(Pending, false)], [Over, Over], {}, {}, map[])

  function HalfSplit(made: nat): State
    requires made <= 2
  {
    State(if made == 0 then map[Doc(0) := DocRow(Pending, false)]
          else if made == 1 then map[Doc(0) := DocRow(Pending, false), Child(0, 0) := ChunkRow(Pending)]
          else map[Doc(0) := DocRow(Pending, false), Child(0, 0) := ChunkRow(Pending),
                   Child(0, 1) := ChunkRow(Pending)],
          [Splitting(0, 2, made), Over], {0}, {},
          if made == 0 then map[] else if made == 1 then map[Child(0, 0) := Made]
          else map[Child(0, 0) := Made, Child(0, 1) := Made])
  }

  // The first task splits the document.
  lemma SplitsInTwo()
    ensures Reaches(START, HalfSplit(2))
  {
    assert Leads(START, [], START);
    OneStepOn(START, START, Submit(0, 0, FINE), HalfSplit(0));
    OneStepOn(START, HalfSplit(0), Step(0, FINE), HalfSplit(1));
    OneStepOn(START, HalfSplit(1), Step(0, FINE), HalfSplit(2));
  }

  lemma QueuesBoth()
    ensures Reaches(START, TwoChunks(Processing, Pending, Pending, Over, Over, Queued, Queued))
  {
    SplitsInTwo();
    var marking := HalfSplit(2).(tasks := [Marking(0, 2), Over], ready := {0});
    var end := TwoChunks(Processing, Pending, Pending, Over, Over, Queued, Queued);
    OneStepOn(START, HalfSplit(2), Step(0, FINE), marking);
    assert Next(marking, Step(0, FINE)).rows == end.rows && Next(marking, Step(0, FINE)).turn == end.turn;
    OneStepOn(START, marking, Step(0, FINE), end);
  }

  // The first task completes the first chunk and has counted one of two.
  lemma FirstBegins()
    ensures Reaches(START, TwoChunks(Processing, Processing, Pending, Working(Child(0, 0)), Over, Taken(0), Queued))
  {
    QueuesBoth();
    var s0 := TwoChunks(Processing, Pending, Pending, Over, Over, Queued, Queued);
    var s1 := TwoChunks(Processing, Pending, Pending, Begun(Child(0, 0)), Over, Taken(0), Queued);
    var s2 := TwoChunks(Processing, Processing, Pending, Working(Child(0, 0)), Over, Taken(0), Queued);
    OneStepOn(START, s0, Take(0, Child(0, 0)), s1);
    OneStepOn(START, s1, Step(0, FINE), s2);
  }

  lemma FirstCognifies()
    ensures Reaches(START, TwoChunks(Processing, Cognified, Pending, Memifying(Child(0, 0)), Over, Taken(0), Queued))
  {
    FirstBegins();
    OneStepOn(START, TwoChunks(Processing, Processing, Pending, Working(Child(0, 0)), Over, Taken(0), Queued),
              Step(0, FINE), TwoChunks(Processing, Cognified, Pending, Memifying(Child(0, 0)), Over, Taken(0), Queued));
  }

  lemma FirstCompletes()
    ensures Reaches(START, TwoChunks(Processing, Completed, Pending, Reading(0), Over, Nobodys, Queued))
  {
    FirstCognifies();
    OneStepOn(START, TwoChunks(Processing, Cognified, Pending, Memifying(Child(0, 0)), Over, Taken(0), Queued),
              Step(0, FINE), TwoChunks(Processing, Completed, Pending, Reading(0), Over, Nobodys, Queued));
  }

  lemma FirstCounts()
    ensures Reaches(START, TwoChunks(Processing, Completed, Pending, Writing(0, true, false), Over, Nobodys, Queued))
  {
    FirstCompletes();
    var s0 := TwoChunks(Processing, Completed, Pending, Reading(0), Over, Nobodys, Queued);
    var s1 := TwoChunks(Processing, Completed, Pending, Counting(0, true), Over, Nobodys, Queued);
    var s2 := TwoChunks(Processing, Completed, Pending, Writing(0, true, false), Over, Nobodys, Queued);
    OneStepOn(START, s0, Step(0, FINE), s1);
    assert Child(0, 1) in s1.rows && !AllCompleted(s1.rows, 0);
    OneStepOn(START, s1, Step(0, FINE), s2);
  }

  // Meanwhile the second task completes the second chunk, and then the document.
  lemma SecondBegins()
    ensures Reaches(START, TwoChunks(Processing, Completed, Processing, Writing(0, true, false), Working(Child(0, 1)),
                                     Nobodys, Taken(1)))
  {
    FirstCounts();
    var s0 := TwoChunks(Processing, Completed, Pending, Writing(0, true, false), Over, Nobodys, Queued);
    var s1 := TwoChunks(Processing, Completed, Pending, Writing(0, true, false), Begun(Child(0, 1)), Nobodys, Taken(1));
    var s2 := TwoChunks(Processing, Completed, Processing, Writing(0, true, false), Working(Child(0, 1)), Nobodys,
                        Taken(1));
    OneStepOn(START, s0, Take(1, Child(0, 1)), s1);
    OneStepOn(START, s1, Step(1, FINE), s2);
  }

  lemma SecondCompletes()
    ensures Reaches(START,
                    TwoChunks(Processing, Completed, Completed, Writing(0, true, false), Reading(0), Nobodys, Nobodys))
  {
    SecondBegins();
    var s0 := TwoChunks(Processing, Completed, Processing, Writing(0, true, false), Working(Child(0, 1)), Nobodys,
                        Taken(1));
    var s1 := TwoChunks(Processing, Completed, Cognified, Writing(0, true, false), Memifying(Child(0, 1)), Nobodys,
                        Taken(1));
    var s2 := TwoChunks(Processing, Completed, Completed, Writing(0, true, false), Reading(0), Nobodys, Nobodys);
    OneStepOn(START, s0, Step(1, FINE), s1);
    OneStepOn(START, s1, Step(1, FINE), s2);
  }

  lemma SecondCounts()
    ensures Reaches(START, TwoChunks(Processing, Completed, Completed, Writing(0, true, false),
                                     Writing(0, true, true), Nobodys, Nobodys))
  {
    SecondCompletes();
    var s0 := TwoChunks(Processing, Completed, Completed, Writing(0, true, false), Reading(0), Nobodys, Nobodys);
    var s1 := TwoChunks(Processing, Completed, Completed, Writing(0, true, false), Counting(0, true), Nobodys, Nobodys);
    var s2 := TwoChunks(Processing, Completed, Completed, Writing(0, true, false), Writing(0, true, true), Nobodys,
                        Nobodys);
    OneStepOn(START, s0, Step(1, FINE), s1);
    assert Child(0, 0) in s1.rows && AllCompleted(s1.rows, 0);
    OneStepOn(START, s1, Step(1, FINE), s2);
  }

  lemma SecondWrites()
    ensures Reaches(START, TwoChunks(Completed, Completed, Completed, Writing(0, true, false), Over, Nobodys, Nobodys))
  {
    SecondCounts();
    var s0 := TwoChunks(Processing, Completed, Completed, Writing(0, true, false), Writing(0, true, true), Nobodys,
                        Nobodys);
    var s1 := TwoChunks(Completed, Completed, Completed, Writing(0, true, false), Over, Nobodys, Nobodys);
    OneStepOn(START, s0, Step(1, FINE), s1);
  }

  /** Liveness fails without atomic synchronization: a run without any fault ends with every
      task over, every chunk completed, and the document in processing for ever. */
  lemma DocumentStaysInProcessing()
    ensures Init(START)
    ensures exists end :: Reaches(START, end)
              && (forall t :: 0 <= t < |end.tasks| ==> end.tasks[t].Over?)
              && (forall c :: c in end.turn ==> end.turn[c].Nobodys?)
              && AllCompleted(end.rows, 0) && Doc(0) in end.rows && end.rows[Doc(0)].status == Processing
  {
    SecondWrites();
    var s0 := TwoChunks(Completed, Completed, Completed, Writing(0, true, false), Over, Nobodys, Nobodys);
    var end := TwoChunks(Processing, Completed, Completed, Over, Over, Nobodys, Nobodys);
    OneStepOn(START, s0, Step(0, FINE), end);
    BothCompleted(end);
  }

  lemma BothCompleted(end: State)
    requires end == TwoChunks(Processing, Completed, Completed, Over, Over, Nobodys, Nobodys)
    ensures forall t :: 0 <= t < |end.tasks| ==> end.tasks[t].Over?
    ensures forall c :: c in end.turn ==> end.turn[c].Nobodys?
    ensures AllCompleted(end.rows, 0) && Doc(0) in end.rows && end.rows[Doc(0)].status == Processing
  {
    assert Child(0, 0) in end.rows && IsChunkOf(Child(0, 0), 0);
  }
}
