/** The worker pool of engine/worker_pool.go with the asynchronous path of engine/task_cognify.go
    and engine/task_memify.go: a bounded queue, workers that submit to the queue they take from,
    and goroutines that feed it. A task finishes in one step here, without faults; its store
    accesses one by one are in Lifecycle. */
module Workers {
  import opened DataPoints

  const CAPACITY: nat := 1000

  type Positive = n: nat | n > 0 witness 1

  type ChunkId = c: Id | c.Child? witness Child(0, 0)

  /** A document to split into n chunks, a chunk to cognify, a cognified chunk to memify. */
  datatype Job = Split(d: nat, n: Positive) | Cognify(c: ChunkId) | Memify(c: ChunkId)

  datatype Worker = Idle | Busy(job: Job) | Submitting(job: Job)

  datatype State = State(queue: seq<Job>, workers: seq<Worker>, feeders: seq<seq<Job>>, rows: Rows)

  datatype Action = Feed(i: nat) | Begin(w: nat) | Finish(w: nat) | Send(w: nat)

  function ChunkJobs(d: nat, n: nat): (jobs: seq<Job>)
    ensures |jobs| == n
  {
    seq(n, i requires 0 <= i < n => Cognify(Child(d, i)))
  }

  // The rows of a document split into n chunks.
  function SplitRows(rows: Rows, d: nat, n: nat): Rows {
    (map id | id in rows.Keys + (set i | 0 <= i < n :: Child(d, i)) ::
       if IsChunkOf(id, d) && id.index < n then ChunkRow(Pending) else rows[id])
    [Doc(d) := DocRow(Processing, true)]
  }

  function At(s: State, w: nat, worker: Worker): State
    requires w < |s.workers|
  {
    s.(workers := s.workers[w := worker])
  }

  ghost predicate Enabled(s: State, a: Action) {
    match a
    case Feed(i) => i < |s.feeders| && s.feeders[i] != [] && |s.queue| < CAPACITY
    case Begin(w) => w < |s.workers| && s.workers[w].Idle? && s.queue != []
    case Finish(w) => w < |s.workers| && s.workers[w].Busy?
    case Send(w) => w < |s.workers| && s.workers[w].Submitting? && |s.queue| < CAPACITY
  }

  ghost function Next(s: State, a: Action): State
    requires Enabled(s, a)
  {
    match a
    case Feed(i) => s.(queue := s.queue + [s.feeders[i][0]], feeders := s.feeders[i := s.feeders[i][1..]])
    case Begin(w) => At(s.(queue := s.queue[1..]), w, Busy(s.queue[0]))
    case Finish(w) => Finished(s, w)
    case Send(w) => At(s.(queue := s.queue + [s.workers[w].job]), w, Idle)
  }

  ghost function Finished(s: State, w: nat): State
    requires w < |s.workers| && s.workers[w].Busy?
  {
    match s.workers[w].job
    case Split(d, n) => At(s, w, Idle).(rows := SplitRows(s.rows, d, n), feeders := s.feeders + [ChunkJobs(d, n)])
    case Cognify(c) => At(s, w, Submitting(Memify(c))).(rows := s.rows[c := ChunkRow(Cognified)])
    case Memify(c) => At(s, w, Idle).(rows := SyncDoc(s.rows[c := ChunkRow(Completed)], c.doc))
  }

  /** Nothing queued, fed or worked on. */
  ghost predicate Drained(s: State) {
    && s.queue == [] && (forall w :: 0 <= w < |s.workers| ==> s.workers[w].Idle?)
    && (forall i :: 0 <= i < |s.feeders| ==> s.feeders[i] == [])
  }

  // ----------------------------------------------------------------- sums over the state

  function SumOf<T>(q: seq<T>, f: T -> nat): nat {
    if q == [] then 0 else SumOf(q[..|q| - 1], f) + f(q[|q| - 1])
  }

  lemma {:induction false} SumAfter<T>(q: seq<T>, f: T -> nat, i: nat, x: T)
    requires i < |q|
    ensures SumOf(q[i := x], f) == SumOf(q, f) - f(q[i]) + f(x)
  {
    var front, last := q[..|q| - 1], q[|q| - 1];
    if i < |front| {
      SumAfter(front, f, i, x);
      assert q[i := x][..|q| - 1] == front[i := x];
    } else {
      assert q[i := x][..|q| - 1] == front;
    }
  }

  lemma SumMore<T>(q: seq<T>, f: T -> nat, x: T)
    ensures SumOf(q + [x], f) == SumOf(q, f) + f(x)
  {
    assert (q + [x])[..|q|] == q;
  }

  lemma {:induction false} SumLess<T>(q: seq<T>, f: T -> nat)
    requires q != []
    ensures SumOf(q, f) == f(q[0]) + SumOf(q[1..], f)
  {
    if |q| == 1 {
      assert q[..0] == [] && q[1..] == [];
    } else {
      var front, last := q[..|q| - 1], q[|q| - 1];
      SumLess(front, f);
      assert q[1..] == front[1..] + [last];
      SumMore(front[1..], f, last);
    }
  }

  /** How many tasks a job stands for, a document for one with each of its chunks. */
  function Weight(j: Job): nat {
    if j.Split? then j.n else 1
  }

  // How many of them have yet to submit another.
  function Chunks(j: Job): nat {
    if j.Memify? then 0 else Weight(j)
  }

  function WorkerWeight(w: Worker): nat {
    if w.Idle? then 0 else Weight(w.job)
  }

  function FeederWeight(jobs: seq<Job>): nat {
    SumOf(jobs, Weight)
  }

  /** The tasks queued, worked on, waiting to be sent and to be fed. */
  function Outstanding(s: State): nat {
    SumOf(s.queue, Weight) + SumOf(s.workers, WorkerWeight) + SumOf(s.feeders, FeederWeight)
  }

  function WorkerChunks(w: Worker): nat {
    match w
    case Idle => 0
    case Busy(j) => Chunks(j)
    case Submitting(j) => 1 + Chunks(j)
  }

  function FeederChunks(jobs: seq<Job>): nat {
    SumOf(jobs, Chunks)
  }

  /** The submissions that workers have yet to make. */
  function ToSubmit(s: State): nat {
    SumOf(s.queue, Chunks) + SumOf(s.workers, WorkerChunks) + SumOf(s.feeders, FeederChunks)
  }

  // Steps that a job still takes once a worker has it, once it is queued, once it is to be sent.
  function WorkOf(j: Job): nat {
    match j
    case Memify(_) => 1
    case Cognify(_) => 4
    case Split(_, n) => 6 * n + 1
  }

  function QueuedWork(j: Job): nat {
    WorkOf(j) + 1
  }

  function SentWork(j: Job): nat {
    WorkOf(j) + 2
  }

  function WorkerWork(w: Worker): nat {
    match w
    case Idle => 0
    case Busy(j) => WorkOf(j)
    case Submitting(j) => SentWork(j)
  }

  function FeederWork(jobs: seq<Job>): nat {
    SumOf(jobs, SentWork)
  }

  function Work(s: State): nat {
    SumOf(s.queue, QueuedWork) + SumOf(s.workers, WorkerWork) + SumOf(s.feeders, FeederWork)
  }

  lemma {:induction false} ChunkJobsSum(d: nat, n: nat)
    ensures SumOf(ChunkJobs(d, n), Weight) == n && SumOf(ChunkJobs(d, n), SentWork) == 6 * n
    ensures SumOf(ChunkJobs(d, n), Chunks) == n
  {
    if n == 0 {
    } else {
      ChunkJobsSum(d, n - 1);
      assert ChunkJobs(d, n)[..n - 1] == ChunkJobs(d, n - 1);
    }
  }

  lemma FeedSums(s: State, i: nat)
    requires Enabled(s, Feed(i))
    ensures Outstanding(Next(s, Feed(i))) == Outstanding(s) && Work(Next(s, Feed(i))) == Work(s) - 1
  {
    var jobs := s.feeders[i];
    SumLess(jobs, Weight);
    SumLess(jobs, SentWork);
    SumMore(s.queue, Weight, jobs[0]);
    SumMore(s.queue, QueuedWork, jobs[0]);
    SumAfter(s.feeders, FeederWeight, i, jobs[1..]);
    SumAfter(s.feeders, FeederWork, i, jobs[1..]);
  }

  lemma BeginSums(s: State, w: nat)
    requires Enabled(s, Begin(w))
    ensures Outstanding(Next(s, Begin(w))) == Outstanding(s) && Work(Next(s, Begin(w))) == Work(s) - 1
  {
    SumLess(s.queue, Weight);
    SumLess(s.queue, QueuedWork);
    SumAfter(s.workers, WorkerWeight, w, Busy(s.queue[0]));
    SumAfter(s.workers, WorkerWork, w, Busy(s.queue[0]));
  }

  lemma SendSums(s: State, w: nat)
    requires Enabled(s, Send(w))
    ensures Outstanding(Next(s, Send(w))) == Outstanding(s) && Work(Next(s, Send(w))) == Work(s) - 1
  {
    SumMore(s.queue, Weight, s.workers[w].job);
    SumMore(s.queue, QueuedWork, s.workers[w].job);
    SumAfter(s.workers, WorkerWeight, w, Idle);
    SumAfter(s.workers, WorkerWork, w, Idle);
  }

  lemma FinishSums(s: State, w: nat)
    requires Enabled(s, Finish(w))
    ensures Outstanding(Next(s, Finish(w))) == Outstanding(s) - (if s.workers[w].job.Memify? then 1 else 0)
    ensures Work(Next(s, Finish(w))) == Work(s) - 1
  {
    match s.workers[w].job
    case Split(d, n) =>
      SumAfter(s.workers, WorkerWeight, w, Idle);
      SumAfter(s.workers, WorkerWork, w, Idle);
      SumMore(s.feeders, FeederWeight, ChunkJobs(d, n));
      SumMore(s.feeders, FeederWork, ChunkJobs(d, n));
      ChunkJobsSum(d, n);
    case Cognify(c) =>
      SumAfter(s.workers, WorkerWeight, w, Submitting(Memify(c)));
      SumAfter(s.workers, WorkerWork, w, Submitting(Memify(c)));
    case Memify(_) =>
      SumAfter(s.workers, WorkerWeight, w, Idle);
      SumAfter(s.workers, WorkerWork, w, Idle);
  }

  /** A step never adds to the outstanding tasks; only the end of a memify task takes one
      away. And every step uses up exactly one unit of work, so that no run is longer than
      the work it starts with. */
  lemma StepSums(s: State, a: Action)
    requires Enabled(s, a)
    ensures Outstanding(Next(s, a)) == Outstanding(s) - (if a.Finish? && s.workers[a.w].job.Memify? then 1 else 0)
    ensures Work(Next(s, a)) == Work(s) - 1 && |Next(s, a).workers| == |s.workers|
  {
    match a
    case Feed(i) => FeedSums(s, i);
    case Begin(w) => BeginSums(s, w);
    case Finish(w) => FinishSums(s, w);
    case Send(w) => SendSums(s, w);
  }

  lemma FinishChunks(s: State, w: nat)
    requires Enabled(s, Finish(w))
    ensures ToSubmit(Next(s, Finish(w))) == ToSubmit(s)
  {
    match s.workers[w].job
    case Split(d, n) =>
      SumAfter(s.workers, WorkerChunks, w, Idle);
      SumMore(s.feeders, FeederChunks, ChunkJobs(d, n));
      ChunkJobsSum(d, n);
    case Cognify(c) => SumAfter(s.workers, WorkerChunks, w, Submitting(Memify(c)));
    case Memify(_) => SumAfter(s.workers, WorkerChunks, w, Idle);
  }

  /** The submissions to be made by workers stay the same until one of them is made. */
  lemma StepSubmits(s: State, a: Action)
    requires Enabled(s, a)
    ensures ToSubmit(Next(s, a)) == ToSubmit(s) - if a.Send? then 1 else 0
  {
    match a
    case Feed(i) =>
      var jobs := s.feeders[i];
      SumLess(jobs, Chunks);
      SumMore(s.queue, Chunks, jobs[0]);
      SumAfter(s.feeders, FeederChunks, i, jobs[1..]);
    case Begin(w) =>
      SumLess(s.queue, Chunks);
      SumAfter(s.workers, WorkerChunks, w, Busy(s.queue[0]));
    case Finish(w) => FinishChunks(s, w);
    case Send(w) =>
      SumMore(s.queue, Chunks, s.workers[w].job);
      SumAfter(s.workers, WorkerChunks, w, Idle);
  }

  // ------------------------------------------------------------- when the pool is stuck

  lemma {:induction false} SumAtLeast<T>(q: seq<T>, f: T -> nat, i: nat)
    requires i < |q|
    ensures f(q[i]) <= SumOf(q, f)
  {
    if i == |q| - 1 {
    } else {
      SumAtLeast(q[..|q| - 1], f, i);
    }
  }

  lemma {:induction false} SumOfPositive<T>(q: seq<T>, f: T -> nat)
    requires forall i :: 0 <= i < |q| ==> f(q[i]) >= 1
    ensures SumOf(q, f) >= |q|
  {
    if q == [] {
    } else {
      SumOfPositive(q[..|q| - 1], f);
    }
  }

  // A submission that has not gone through.
  ghost predicate WaitsToSubmit(s: State, a: Action) {
    match a
    case Feed(i) => i < |s.feeders| && s.feeders[i] != []
    case Send(w) => w < |s.workers| && s.workers[w].Submitting?
    case _ => false
  }

  /** With no more outstanding tasks than the queue holds, no submission is ever held up. */
  lemma NoSubmitBlocks(s: State, a: Action)
    requires Outstanding(s) <= CAPACITY && WaitsToSubmit(s, a)
    ensures Enabled(s, a)
  {
    SumOfPositive(s.queue, Weight);
    match a
    case Feed(i) =>
      SumAtLeast(s.feeders, FeederWeight, i);
      SumAtLeast(s.feeders[i], Weight, 0);
    case Send(w) => SumAtLeast(s.workers, WorkerWeight, w);
  }

  /** The queue is full and every worker waits to submit: nobody is left to take a task. */
  ghost predicate Deadlocked(s: State) {
    |s.queue| >= CAPACITY && forall w :: 0 <= w < |s.workers| ==> s.workers[w].Submitting?
  }

  /** No step is possible exactly when everything is done or the pool is deadlocked. */
  lemma StuckExactly(s: State)
    requires |s.workers| > 0
    ensures (forall a :: !Enabled(s, a)) <==> Drained(s) || Deadlocked(s)
  {
    if Drained(s) || Deadlocked(s) {
      forall a
        ensures !Enabled(s, a)
      {
      }
    } else if |s.queue| >= CAPACITY {
      var w :| 0 <= w < |s.workers| && !s.workers[w].Submitting?;
      assert Enabled(s, Begin(w)) || Enabled(s, Finish(w));
    } else if i :| 0 <= i < |s.feeders| && s.feeders[i] != [] {
      assert Enabled(s, Feed(i));
    } else if w :| 0 <= w < |s.workers| && !s.workers[w].Idle? {
      assert Enabled(s, Finish(w)) || Enabled(s, Send(w));
    } else {
      assert Enabled(s, Begin(0));
    }
  }

  /** A deadlock takes as many tasks as the queue and the workers hold together. */
  lemma DeadlockIsHeavy(s: State)
    requires Deadlocked(s)
    ensures Outstanding(s) >= CAPACITY + |s.workers| && ToSubmit(s) >= |s.workers|
  {
    SumOfPositive(s.queue, Weight);
    SumOfPositive(s.workers, WorkerWeight);
    SumOfPositive(s.workers, WorkerChunks);
  }

  // ------------------------------------------------------------- nothing is forgotten

  predicate Holds(worker: Worker, j: Job) {
    !worker.Idle? && worker.job == j
  }

  /** The job is somewhere in the pool. */
  ghost predicate Has(s: State, j: Job) {
    || j in s.queue
    || (exists w :: 0 <= w < |s.workers| && Holds(s.workers[w], j))
    || (exists i :: 0 <= i < |s.feeders| && j in s.feeders[i])
  }

  /** A chunk is completed, or a job for it is under way. */
  ghost predicate ChunkCared(s: State, c: Id) {
    c in s.rows && c.Child? ==> s.rows[c].status == Completed || Has(s, Cognify(c)) || Has(s, Memify(c))
  }

  ghost predicate SplitJob(s: State, d: nat, n: Positive) {
    Has(s, Split(d, n))
  }

  /** A document is to be split, or it is split, has chunks, and is completed if they are. */
  ghost predicate DocCared(s: State, d: nat) {
    Doc(d) in s.rows && s.rows[Doc(d)].DocRow? ==>
      if s.rows[Doc(d)].split
      then (exists c :: c in s.rows && IsChunkOf(c, d))
          && (AllCompleted(s.rows, d) ==> s.rows[Doc(d)].status == Completed)
      else exists n: Positive :: SplitJob(s, d, n)
  }

  ghost predicate Cared(s: State) {
    Typed(s.rows) && (forall c :: ChunkCared(s, c)) && (forall d :: DocCared(s, d))
  }

  // A session of new documents, one goroutine submitting all of them, starts out like that.
  lemma NewDocumentsAreCared(s: State, jobs: seq<Job>)
    requires s.feeders == [jobs] && forall id :: id in s.rows ==> id.Doc? && s.rows[id] == DocRow(Pending, false)
    requires forall id :: id in s.rows ==> exists n: Positive :: Split(id.doc, n) in jobs
    ensures Cared(s)
  {
    forall d
      ensures DocCared(s, d)
    {
      if Doc(d) in s.rows {
        var n: Positive :| Split(d, n) in jobs;
        assert Split(d, n) in s.feeders[0] && SplitJob(s, d, n);
      }
    }
  }

  lemma FeedKeeps(s: State, i: nat, j: Job)
    requires Enabled(s, Feed(i)) && Has(s, j)
    ensures Has(Next(s, Feed(i)), j)
  {
    var s' := Next(s, Feed(i));
    if w :| 0 <= w < |s.workers| && Holds(s.workers[w], j) {
      assert Holds(s'.workers[w], j);
    } else if k :| 0 <= k < |s.feeders| && j in s.feeders[k] {
      assert k == i && j != s.feeders[i][0] ==> j in s'.feeders[k];
      assert k != i ==> j in s'.feeders[k];
    }
  }

  lemma BeginKeeps(s: State, w: nat, j: Job)
    requires Enabled(s, Begin(w)) && Has(s, j)
    ensures Has(Next(s, Begin(w)), j)
  {
    var s' := Next(s, Begin(w));
    if j in s.queue {
      assert j == s.queue[0] ==> Holds(s'.workers[w], j);
    } else if u :| 0 <= u < |s.workers| && Holds(s.workers[u], j) {
      assert Holds(s'.workers[u], j);
    } else {
      var k :| 0 <= k < |s.feeders| && j in s.feeders[k];
      assert j in s'.feeders[k];
    }
  }

  lemma SendKeeps(s: State, w: nat, j: Job)
    requires Enabled(s, Send(w)) && Has(s, j)
    ensures Has(Next(s, Send(w)), j)
  {
    var s' := Next(s, Send(w));
    if u :| 0 <= u < |s.workers| && Holds(s.workers[u], j) {
      assert u == w ==> j in s'.queue;
      assert u != w ==> Holds(s'.workers[u], j);
    } else if k :| 0 <= k < |s.feeders| && j in s.feeders[k] {
      assert j in s'.feeders[k];
    }
  }

  lemma FinishKeeps(s: State, w: nat, j: Job)
    requires Enabled(s, Finish(w)) && Has(s, j) && j != s.workers[w].job
    ensures Has(Next(s, Finish(w)), j)
  {
    var s' := Next(s, Finish(w));
    if u :| 0 <= u < |s.workers| && Holds(s.workers[u], j) {
      assert Holds(s'.workers[u], j);
    } else if k :| 0 <= k < |s.feeders| && j in s.feeders[k] {
      assert j in s'.feeders[k];
    }
  }

  // Steps that write no row.
  lemma CaredOn(s: State, s': State)
    requires Cared(s) && s'.rows == s.rows && forall j :: Has(s, j) ==> Has(s', j)
    ensures Cared(s')
  {
    forall c
      ensures ChunkCared(s', c)
    {
      assert ChunkCared(s, c);
    }
    forall d
      ensures DocCared(s', d)
    {
      assert DocCared(s, d);
      if n: Positive :| SplitJob(s, d, n) {
        assert SplitJob(s', d, n);
      }
    }
  }

  lemma SplitCares(s: State, w: nat)
    requires Cared(s) && w < |s.workers| && s.workers[w].Busy? && s.workers[w].job.Split?
    ensures Cared(Finished(s, w))
  {
    var d, n := s.workers[w].job.d, s.workers[w].job.n;
    var s' := Finished(s, w);
    forall c
      ensures ChunkCared(s', c)
    {
      assert ChunkCared(s, c);
      if IsChunkOf(c, d) && c.index < n {
        assert ChunkJobs(d, n)[c.index] == Cognify(c);
        assert s'.feeders[|s.feeders|] == ChunkJobs(d, n);
      } else if c.Child? {
        StaysBut(s, w, Cognify(c));
        StaysBut(s, w, Memify(c));
      }
    }
    assert Child(d, 0) in s'.rows && IsChunkOf(Child(d, 0), d);
    forall e
      ensures DocCared(s', e)
    {
      assert DocCared(s, e);
      if e != d {
        OtherDocCares(s, s', w, e);
      }
    }
  }

  lemma StaysBut(s: State, w: nat, j: Job)
    requires Enabled(s, Finish(w)) && j != s.workers[w].job
    ensures Has(s, j) ==> Has(Finished(s, w), j)
  {
    if Has(s, j) {
      FinishKeeps(s, w, j);
    }
  }

  // A finished job leaves alone the rows of documents it is not about.
  lemma OtherDocCares(s: State, s': State, w: nat, e: nat)
    requires Cared(s) && w < |s.workers| && s.workers[w].Busy? && s' == Finished(s, w)
    requires match s.workers[w].job
             case Split(d, _) => d != e
             case Cognify(c) => c.doc != e
             case Memify(c) => c.doc != e
    ensures DocCared(s', e)
  {
    assert DocCared(s, e);
    assert forall c: Id :: c.doc == e ==> (c in s'.rows <==> c in s.rows) && (c in s.rows ==> s'.rows[c] == s.rows[c]);
    if n: Positive :| SplitJob(s, e, n) {
      StaysBut(s, w, Split(e, n));
      assert SplitJob(s', e, n);
    }
  }

  lemma CognifyCares(s: State, w: nat)
    requires Cared(s) && w < |s.workers| && s.workers[w].Busy? && s.workers[w].job.Cognify?
    ensures Cared(Finished(s, w))
  {
    var c := s.workers[w].job.c;
    var s' := Finished(s, w);
    assert Holds(s'.workers[w], Memify(c));
    forall x
      ensures ChunkCared(s', x)
    {
      assert ChunkCared(s, x);
      if x != c && x.Child? {
        StaysBut(s, w, Cognify(x));
        StaysBut(s, w, Memify(x));
      }
    }
    forall e
      ensures DocCared(s', e)
    {
      assert DocCared(s, e);
      if e != c.doc {
        OtherDocCares(s, s', w, e);
      } else {
        assert c in s'.rows && IsChunkOf(c, e) && !AllCompleted(s'.rows, e);
        if n: Positive :| SplitJob(s, e, n) {
          StaysBut(s, w, Split(e, n));
          assert SplitJob(s', e, n);
        }
      }
    }
  }

  lemma MemifyCares(s: State, w: nat)
    requires Cared(s) && w < |s.workers| && s.workers[w].Busy? && s.workers[w].job.Memify?
    ensures Cared(Finished(s, w))
  {
    var c := s.workers[w].job.c;
    var s' := Finished(s, w);
    var mid := s.rows[c := ChunkRow(Completed)];
    assert forall x: Id :: x.Child? ==> (x in s'.rows <==> x in mid) && (x in mid ==> s'.rows[x] == mid[x]);
    forall x
      ensures ChunkCared(s', x)
    {
      assert ChunkCared(s, x);
      if x != c && x.Child? {
        StaysBut(s, w, Cognify(x));
        StaysBut(s, w, Memify(x));
      }
    }
    forall e
      ensures DocCared(s', e)
    {
      assert DocCared(s, e);
      if e != c.doc {
        OtherDocCares(s, s', w, e);
      } else {
        assert c in s'.rows && IsChunkOf(c, e);
        assert AllCompleted(s'.rows, e) <==> AllCompleted(mid, e);
        if n: Positive :| SplitJob(s, e, n) {
          StaysBut(s, w, Split(e, n));
          assert SplitJob(s', e, n);
        }
      }
    }
  }

  /** No step leaves a chunk uncompleted or a document unsplit without a job for it. */
  lemma NextCares(s: State, a: Action)
    requires Cared(s) && Enabled(s, a)
    ensures Cared(Next(s, a))
  {
    if a.Finish? {
      match s.workers[a.w].job
      case Split(_, _) => SplitCares(s, a.w);
      case Cognify(_) => CognifyCares(s, a.w);
      case Memify(_) => MemifyCares(s, a.w);
    } else {
      forall j | Has(s, j)
        ensures Has(Next(s, a), j)
      {
        match a
        case Feed(i) => FeedKeeps(s, i, j);
        case Begin(w) => BeginKeeps(s, w, j);
        case Send(w) => SendKeeps(s, w, j);
      }
      CaredOn(s, Next(s, a));
    }
  }

  // ---------------------------------------------------------------------- whole runs

  ghost predicate Leads(s: State, acts: seq<Action>, end: State)
    decreases |acts|
  {
    if acts == [] then s == end else Enabled(s, acts[0]) && Leads(Next(s, acts[0]), acts[1..], end)
  }

  /** The rows of a document that is split into n chunks. */
  lemma SplitRowsMean(rows: Rows, d: nat, n: nat)
    ensures var rows' := SplitRows(rows, d, n);
            && Doc(d) in rows' && rows'[Doc(d)] == DocRow(Processing, true)
            && (forall k: nat :: k < n ==> Child(d, k) in rows' && rows'[Child(d, k)] == ChunkRow(Pending))
            && (forall id :: id in rows && id != Doc(d) && !(id.Child? && id.doc == d && id.index < n) ==>
                  id in rows' && rows'[id] == rows[id])
            && (forall id :: id in rows' ==> id in rows || id == Doc(d) || (id.Child? && id.doc == d && id.index < n))
  {
  }

  // The document is still to be split, or its n chunk rows are there.
  ghost predicate SplitOrToBe(s: State, d: nat, n: Positive) {
    Has(s, Split(d, n)) || forall k: nat :: k < n ==> Child(d, k) in s.rows
  }

  lemma StaysSplit(s: State, a: Action, d: nat, n: Positive)
    requires SplitOrToBe(s, d, n) && Enabled(s, a)
    ensures SplitOrToBe(Next(s, a), d, n)
  {
    if Has(s, Split(d, n)) {
      match a
      case Feed(i) => FeedKeeps(s, i, Split(d, n));
      case Begin(w) => BeginKeeps(s, w, Split(d, n));
      case Send(w) => SendKeeps(s, w, Split(d, n));
      case Finish(w) =>
        if s.workers[w].job == Split(d, n) {
          SplitRowsMean(s.rows, d, n);
        } else {
          FinishKeeps(s, w, Split(d, n));
        }
    }
  }

  lemma {:induction false} SplitThroughout(s: State, acts: seq<Action>, end: State, d: nat, n: Positive)
    requires SplitOrToBe(s, d, n) && Leads(s, acts, end)
    ensures SplitOrToBe(end, d, n)
    decreases |acts|
  {
    if acts == [] {
    } else {
      StaysSplit(s, acts[0], d, n);
      SplitThroughout(Next(s, acts[0]), acts[1..], end, d, n);
    }
  }

  lemma {:induction false} RunKeeps(s: State, acts: seq<Action>, end: State)
    requires Leads(s, acts, end)
    ensures Outstanding(end) <= Outstanding(s) && ToSubmit(end) <= ToSubmit(s)
    ensures Work(end) == Work(s) - |acts| && |end.workers| == |s.workers|
    ensures Cared(s) ==> Cared(end)
    decreases |acts|
  {
    if acts == [] {
    } else {
      StepSums(s, acts[0]);
      StepSubmits(s, acts[0]);
      if Cared(s) {
        NextCares(s, acts[0]);
      }
      RunKeeps(Next(s, acts[0]), acts[1..], end);
    }
  }

  /** Throughout a run that starts with no more tasks than the queue holds, every submission
      goes through at once. */
  lemma SubmitsNeverBlock(s: State, acts: seq<Action>, mid: State)
    requires Outstanding(s) <= CAPACITY && Leads(s, acts, mid)
    ensures forall a :: WaitsToSubmit(mid, a) ==> Enabled(mid, a)
  {
    RunKeeps(s, acts, mid);
    forall a | WaitsToSubmit(mid, a)
      ensures Enabled(mid, a)
    {
      NoSubmitBlocks(mid, a);
    }
  }

  lemma {:induction false} NothingLeft<T>(q: seq<T>, f: T -> nat)
    requires forall i :: 0 <= i < |q| ==> f(q[i]) == 0
    ensures SumOf(q, f) == 0
  {
    if q == [] {
    } else {
      NothingLeft(q[..|q| - 1], f);
    }
  }

  // ------------------------------------------------------------ the deadlock is reached

  lemma First(s: State, a: Action, acts: seq<Action>, end: State)
    requires Enabled(s, a) && Leads(Next(s, a), acts, end)
    ensures Leads(s, [a] + acts, end)
  {
    assert ([a] + acts)[1..] == acts;
  }

  predicate Cognifying(w: Worker) {
    w.Busy? && w.job.Cognify?
  }

  // The queue is full, the first k workers wait to submit, the others finish one by one.
  lemma {:induction false} Blocking(s: State, k: nat) returns (acts: seq<Action>, end: State)
    requires |s.queue| == CAPACITY && k <= |s.workers|
    requires forall w :: 0 <= w < k ==> s.workers[w].Submitting?
    requires forall w :: k <= w < |s.workers| ==> Cognifying(s.workers[w])
    ensures Leads(s, acts, end) && Deadlocked(end)
    decreases |s.workers| - k
  {
    if k == |s.workers| {
      acts, end := [], s;
    } else {
      acts, end := Blocking(Next(s, Finish(k)), k + 1);
      First(s, Finish(k), acts, end);
      acts := [Finish(k)] + acts;
    }
  }

  lemma {:induction false} LeadsOn(s: State, acts: seq<Action>, mid: State, more: seq<Action>, end: State)
    requires Leads(s, acts, mid) && Leads(mid, more, end)
    ensures Leads(s, acts + more, end)
    decreases |acts|
  {
    if acts == [] {
      assert acts + more == more;
    } else {
      assert (acts + more)[1..] == acts[1..] + more;
      LeadsOn(Next(s, acts[0]), acts[1..], mid, more, end);
    }
  }

  function Stage(j: Job): nat {
    match j
    case Split(_, _) => 0
    case Cognify(_) => 1
    case Memify(_) => 2
  }

  /** A goroutine submits documents, chunk tasks, memify tasks, or some of them in this order. */
  predicate InStages(jobs: seq<Job>) {
    forall k, l :: 0 <= k < l < |jobs| ==> Stage(jobs[k]) <= Stage(jobs[l])
  }

  /** An idle pool with any number of goroutines about to submit. */
  ghost predicate IdlePool(s: State) {
    && s.queue == [] && (forall w :: 0 <= w < |s.workers| ==> s.workers[w].Idle?)
    && forall i :: 0 <= i < |s.feeders| ==> InStages(s.feeders[i])
  }

  // The goroutines have no documents left to submit.
  ghost predicate DocumentsFed(s: State) {
    && (forall i :: 0 <= i < |s.feeders| ==> InStages(s.feeders[i]))
    && forall i :: 0 <= i < |s.feeders| && s.feeders[i] != [] ==> !s.feeders[i][0].Split?
  }

  function Unfed(s: State): nat {
    SumOf(s.feeders, FeederWeight)
  }

  function UnfedChunks(s: State): nat {
    SumOf(s.feeders, FeederChunks)
  }

  lemma RestInStages(jobs: seq<Job>)
    requires InStages(jobs) && jobs != [] && !jobs[0].Split?
    ensures InStages(jobs[1..]) && (jobs[1..] != [] ==> !jobs[1..][0].Split?)
  {
    assert jobs[1..] != [] ==> Stage(jobs[0]) <= Stage(jobs[1]);
  }

  // Feeding takes one from the tasks to be fed.
  lemma FeedsOne(s: State, i: nat)
    requires DocumentsFed(s) && Enabled(s, Feed(i))
    ensures DocumentsFed(Next(s, Feed(i))) && Unfed(Next(s, Feed(i))) == Unfed(s) - 1
    ensures UnfedChunks(Next(s, Feed(i))) == UnfedChunks(s) - if s.feeders[i][0].Cognify? then 1 else 0
  {
    var jobs := s.feeders[i];
    RestInStages(jobs);
    SumLess(jobs, Weight);
    SumLess(jobs, Chunks);
    SumAfter(s.feeders, FeederWeight, i, jobs[1..]);
    SumAfter(s.feeders, FeederChunks, i, jobs[1..]);
  }

  lemma SomeFeeder(s: State) returns (i: nat)
    requires Unfed(s) > 0
    ensures i < |s.feeders| && s.feeders[i] != []
  {
    if forall k :: 0 <= k < |s.feeders| ==> FeederWeight(s.feeders[k]) == 0 {
      NothingLeft(s.feeders, FeederWeight);
    }
    i :| 0 <= i < |s.feeders| && FeederWeight(s.feeders[i]) > 0;
  }

  lemma SomeChunkFeeder(s: State) returns (i: nat)
    requires DocumentsFed(s) && UnfedChunks(s) > 0
    ensures i < |s.feeders| && s.feeders[i] != [] && s.feeders[i][0].Cognify?
  {
    if forall k :: 0 <= k < |s.feeders| ==> FeederChunks(s.feeders[k]) == 0 {
      NothingLeft(s.feeders, FeederChunks);
    }
    i :| 0 <= i < |s.feeders| && FeederChunks(s.feeders[i]) > 0;
    if s.feeders[i][0].Memify? {
      assert forall k :: 0 <= k < |s.feeders[i]| ==> Stage(s.feeders[i][0]) <= Stage(s.feeders[i][k]);
      NothingLeft(s.feeders[i], Chunks);
    }
  }

  // The queue fills up, and the workers do nothing meanwhile.
  lemma {:induction false} Filling(s: State) returns (acts: seq<Action>, mid: State)
    requires DocumentsFed(s) && |s.queue| <= CAPACITY <= |s.queue| + Unfed(s)
    ensures Leads(s, acts, mid) && |mid.queue| == CAPACITY && mid.workers == s.workers
    ensures Unfed(mid) == Unfed(s) - (CAPACITY - |s.queue|)
    decreases CAPACITY - |s.queue|
  {
    if |s.queue| == CAPACITY {
      acts, mid := [], s;
    } else {
      var i := SomeFeeder(s);
      FeedsOne(s, i);
      acts, mid := Filling(Next(s, Feed(i)));
      First(s, Feed(i), acts, mid);
      acts := [Feed(i)] + acts;
    }
  }

  // The first k workers have chunk tasks, and the next one takes one.
  lemma {:induction false} Occupying(s: State, k: nat) returns (acts: seq<Action>, end: State)
    requires k <= |s.workers| && DocumentsFed(s) && s.queue == []
    requires Unfed(s) >= CAPACITY + |s.workers| - k && UnfedChunks(s) >= |s.workers| - k
    requires forall w :: 0 <= w < |s.workers| ==> if w < k then Cognifying(s.workers[w]) else s.workers[w].Idle?
    ensures Leads(s, acts, end) && Deadlocked(end)
    decreases |s.workers| - k
  {
    if k == |s.workers| {
      var mid, more;
      acts, mid := Filling(s);
      more, end := Blocking(mid, 0);
      LeadsOn(s, acts, mid, more, end);
      acts := acts + more;
    } else {
      var i := SomeChunkFeeder(s);
      FeedsOne(s, i);
      var fed := Next(s, Feed(i));
      assert fed.queue == [s.feeders[i][0]] && fed.queue[1..] == [];
      acts, end := Occupying(Next(fed, Begin(k)), k + 1);
      First(fed, Begin(k), acts, end);
      First(s, Feed(i), [Begin(k)] + acts, end);
      acts := [Feed(i)] + ([Begin(k)] + acts);
    }
  }

  lemma StaysInStages(feeders: seq<seq<Job>>, i: nat, d: nat, n: nat)
    requires i < |feeders| && feeders[i] != [] && forall k :: 0 <= k < |feeders| ==> InStages(feeders[k])
    ensures var after := feeders[i := feeders[i][1..]] + [ChunkJobs(d, n)];
            forall k :: 0 <= k < |after| ==> InStages(after[k])
  {
    assert InStages(feeders[i]);
    assert InStages(feeders[i][1..]);
    assert InStages(ChunkJobs(d, n));
  }

  // Submitted, taken by the first worker and split, a document leaves the pool idle again.
  lemma SplitSteps(s: State, i: nat) returns (acts: seq<Action>, next: State)
    requires s.queue == [] && |s.workers| > 0 && s.workers[0].Idle?
    requires i < |s.feeders| && s.feeders[i] != [] && s.feeders[i][0].Split?
    ensures var job := s.feeders[i][0];
            next == s.(feeders := s.feeders[i := s.feeders[i][1..]] + [ChunkJobs(job.d, job.n)],
                       rows := SplitRows(s.rows, job.d, job.n))
    ensures Leads(s, acts, next) && |acts| == 3
    ensures Outstanding(next) == Outstanding(s) && ToSubmit(next) == ToSubmit(s)
  {
    var fed := Next(s, Feed(i));
    assert fed.queue == [s.feeders[i][0]] && fed.queue[1..] == [];
    var begun := Next(fed, Begin(0));
    next := Next(begun, Finish(0));
    assert next.workers == s.workers && next.queue == [];
    StepSums(s, Feed(i));
    StepSums(fed, Begin(0));
    StepSums(begun, Finish(0));
    StepSubmits(s, Feed(i));
    StepSubmits(fed, Begin(0));
    StepSubmits(begun, Finish(0));
    assert Leads(next, [], next);
    First(begun, Finish(0), [], next);
    First(fed, Begin(0), [Finish(0)], next);
    First(s, Feed(i), [Begin(0)] + [Finish(0)], next);
    acts := [Feed(i)] + ([Begin(0)] + [Finish(0)]);
  }

  lemma SplitOne(s: State, i: nat) returns (acts: seq<Action>, next: State)
    requires IdlePool(s) && |s.workers| > 0 && i < |s.feeders| && s.feeders[i] != [] && s.feeders[i][0].Split?
    ensures Leads(s, acts, next) && IdlePool(next) && Work(next) < Work(s) && |next.workers| == |s.workers|
    ensures Outstanding(next) == Outstanding(s) && ToSubmit(next) == ToSubmit(s)
  {
    StaysInStages(s.feeders, i, s.feeders[i][0].d, s.feeders[i][0].n);
    acts, next := SplitSteps(s, i);
    RunKeeps(s, acts, next);
  }

  // All documents can be split first; nothing outstanding is lost by that.
  lemma {:induction false} SplittingAll(s: State) returns (acts: seq<Action>, end: State)
    requires IdlePool(s) && |s.workers| > 0
    ensures Leads(s, acts, end) && IdlePool(end) && DocumentsFed(end) && |end.workers| == |s.workers|
    ensures Outstanding(end) == Outstanding(s) && ToSubmit(end) == ToSubmit(s)
    decreases Work(s)
  {
    if i :| 0 <= i < |s.feeders| && s.feeders[i] != [] && s.feeders[i][0].Split? {
      var first, next := SplitOne(s, i);
      var rest;
      rest, end := SplittingAll(next);
      LeadsOn(s, first, next, rest, end);
      acts := first + rest;
    } else {
      acts, end := [], s;
    }
  }

  // In an idle pool all that is outstanding has yet to be fed.
  lemma IdleIsUnfed(s: State)
    requires IdlePool(s)
    ensures Outstanding(s) == Unfed(s) && ToSubmit(s) == UnfedChunks(s)
  {
    NothingLeft(s.workers, WorkerWeight);
    NothingLeft(s.workers, WorkerChunks);
  }

  ghost predicate MayDeadlock(s: State) {
    exists acts, end :: Leads(s, acts, end) && Deadlocked(end)
  }

  /** From whatever state, a deadlock is out of reach with fewer tasks than the queue and the
      workers hold together, or with fewer submissions to be made than there are workers. */
  lemma NoDeadlockBelow(s: State)
    requires Outstanding(s) < CAPACITY + |s.workers| || ToSubmit(s) < |s.workers|
    ensures !MayDeadlock(s)
  {
    if acts, end :| Leads(s, acts, end) && Deadlocked(end) {
      RunKeeps(s, acts, end);
      DeadlockIsHeavy(end);
      assert false;
    }
  }

  /** Workers that submit to the queue they serve: an idle pool, to which any number of
      goroutines submit documents, chunk and memify tasks, can deadlock exactly when the tasks
      that come of them are at least as many as the queue and the workers hold together, and
      those of chunks among them at least as many as the workers. */
  lemma DeadlocksExactly(s: State)
    requires IdlePool(s) && |s.workers| > 0
    ensures MayDeadlock(s) <==> Outstanding(s) >= CAPACITY + |s.workers| && ToSubmit(s) >= |s.workers|
  {
    if Outstanding(s) >= CAPACITY + |s.workers| && ToSubmit(s) >= |s.workers| {
      var split, idle := SplittingAll(s);
      IdleIsUnfed(idle);
      var acts, end := Occupying(idle, 0);
      LeadsOn(s, split, idle, acts, end);
    } else {
      NoDeadlockBelow(s);
    }
  }

  /** In particular for a session of documents and chunks that one goroutine submits: the
      count is that of all chunks. */
  lemma SessionDeadlocksExactly(s: State, jobs: seq<Job>)
    requires s.feeders == [jobs] && IdlePool(s) && |s.workers| > 0
    requires forall k :: 0 <= k < |jobs| ==> !jobs[k].Memify?
    ensures MayDeadlock(s) <==> SumOf(jobs, Weight) >= CAPACITY + |s.workers|
  {
    DeadlocksExactly(s);
    IdleIsUnfed(s);
    assert s.feeders == [] + [jobs];
    SumMore([], FeederWeight, jobs);
    SumMore([], FeederChunks, jobs);
    SameSum(jobs, Weight, Chunks);
  }

  lemma {:induction false} SameSum<T>(q: seq<T>, f: T -> nat, g: T -> nat)
    requires forall k :: 0 <= k < |q| ==> f(q[k]) == g(q[k])
    ensures SumOf(q, f) == SumOf(q, g)
  {
    if q == [] {
    } else {
      SameSum(q[..|q| - 1], f, g);
    }
  }

  lemma DrainedIsCompleted(s: State)
    requires Cared(s) && Drained(s)
    ensures forall id :: id in s.rows ==> s.rows[id].status == Completed
  {
    assert forall j :: !Has(s, j);
    forall id | id in s.rows && id.Child?
      ensures s.rows[id].status == Completed
    {
      assert ChunkCared(s, id);
    }
    forall id | id in s.rows && id.Doc?
      ensures s.rows[id].status == Completed
    {
      assert DocCared(s, id.doc);
    }
  }

  /** Liveness without faults: from a state that cannot deadlock a run goes on until it has
      used up all its work, however it is scheduled, and then every row, of chunks and of
      documents, is completed. */
  lemma EveryRunCompletes(s: State, acts: seq<Action>, end: State)
    requires Cared(s) && |s.workers| > 0 && !MayDeadlock(s) && Leads(s, acts, end)
    ensures (forall a :: !Enabled(end, a)) <==> |acts| == Work(s)
    ensures |acts| <= Work(s)
    ensures |acts| == Work(s) ==> Drained(end) && forall id :: id in end.rows ==> end.rows[id].status == Completed
  {
    RunKeeps(s, acts, end);
    StuckExactly(end);
    if Drained(end) {
      assert forall i :: 0 <= i < |end.feeders| ==> FeederWork(end.feeders[i]) == 0;
      NothingLeft(end.workers, WorkerWork);
      NothingLeft(end.feeders, FeederWork);
      DrainedIsCompleted(end);
    }
    if |acts| == Work(s) {
      forall a
        ensures !Enabled(end, a)
      {
        if Enabled(end, a) {
          StepSums(end, a);
        }
      }
    }
  }

  /** And every document that was to be split has all its chunks by then, completed. */
  lemma EveryChunkCompletes(s: State, acts: seq<Action>, end: State, d: nat, n: Positive)
    requires Cared(s) && |s.workers| > 0 && !MayDeadlock(s) && Leads(s, acts, end) && |acts| == Work(s)
    requires Has(s, Split(d, n))
    ensures forall k: nat :: k < n ==> Child(d, k) in end.rows && end.rows[Child(d, k)].status == Completed
  {
    EveryRunCompletes(s, acts, end);
    SplitThroughout(s, acts, end, d, n);
    assert !Has(end, Split(d, n));
  }

  ghost predicate MayHoldUp(s: State) {
    exists acts, mid, a :: Leads(s, acts, mid) && WaitsToSubmit(mid, a) && !Enabled(mid, a)
  }

  /** A submission to an idle pool can be held up exactly when more tasks come of what is
      submitted than the queue holds. */
  lemma HoldsUpExactly(s: State)
    requires IdlePool(s) && |s.workers| > 0
    ensures MayHoldUp(s) <==> Outstanding(s) > CAPACITY
  {
    if Outstanding(s) > CAPACITY {
      var split, idle := SplittingAll(s);
      IdleIsUnfed(idle);
      var acts, mid := Filling(idle);
      LeadsOn(s, split, idle, acts, mid);
      var i := SomeFeeder(mid);
      assert WaitsToSubmit(mid, Feed(i)) && !Enabled(mid, Feed(i));
    } else if acts, mid, a :| Leads(s, acts, mid) && WaitsToSubmit(mid, a) && !Enabled(mid, a) {
      SubmitsNeverBlock(s, acts, mid);
      assert false;
    }
  }

  // -------------------------------------------------------------- the order matters

  // One worker, and a memify task in front of as many chunk tasks as the queue holds.
  function MemifyFirst(c: ChunkId): State {
    State([], [Idle], [[Memify(c)] + ChunkJobs(0, CAPACITY)], map[])
  }

  // Either the memify task is still in the way, or there are too few tasks left.
  ghost predicate InTheWay(s: State) {
    && |s.workers| == 1
    && (Outstanding(s) <= CAPACITY || (
          && Outstanding(s) == CAPACITY + 1
          && match s.workers[0] {
               case Idle => if s.queue != [] then s.queue[0].Memify?
                            else |s.feeders| == 1 && s.feeders[0] != [] && s.feeders[0][0].Memify?
               case Busy(j) => j.Memify?
               case Submitting(_) => false
             }))
  }

  lemma StaysInTheWay(s: State, a: Action)
    requires InTheWay(s) && Enabled(s, a)
    ensures InTheWay(Next(s, a))
  {
    StepSums(s, a);
  }

  lemma {:induction false} InTheWayThroughout(s: State, acts: seq<Action>, end: State)
    requires InTheWay(s) && Leads(s, acts, end)
    ensures InTheWay(end)
    decreases |acts|
  {
    if acts == [] {
    } else {
      StaysInTheWay(s, acts[0]);
      InTheWayThroughout(Next(s, acts[0]), acts[1..], end);
    }
  }

  /** The tasks are enough, but in this order they cannot deadlock: before a chunk task gets
      to the one worker the memify task is done. */
  lemma OrderMatters(c: ChunkId)
    ensures var s := MemifyFirst(c);
            Outstanding(s) >= CAPACITY + |s.workers| && ToSubmit(s) >= |s.workers| && !MayDeadlock(s)
  {
    var s, jobs := MemifyFirst(c), [Memify(c)] + ChunkJobs(0, CAPACITY);
    SumLess(jobs, Weight);
    SumLess(jobs, Chunks);
    assert jobs[1..] == ChunkJobs(0, CAPACITY) && s.feeders == [] + [jobs];
    ChunkJobsSum(0, CAPACITY);
    SumMore([], FeederWeight, jobs);
    SumMore([], FeederChunks, jobs);
    NothingLeft(s.workers, WorkerWeight);
    NothingLeft(s.workers, WorkerChunks);
    if acts, end :| Leads(s, acts, end) && Deadlocked(end) {
      InTheWayThroughout(s, acts, end);
      RunKeeps(s, acts, end);
      DeadlockIsHeavy(end);
      assert false;
    }
  }
}
