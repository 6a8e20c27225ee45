/** The connection pool of storage/connection_pool.go, called by one goroutine at a time. */
module Pool {
  import opened Lists
  import opened Text

  /** A connection, by identity. Its health, age and the factory's answers come from outside
      and are parameters of the operations. */
  type Conn = nat

  datatype Config = Config(maxConnections: int, minIdleConnections: int, validateOnGet: bool, validateOnPut: bool)

  datatype Error = PoolClosed | NilConnection | ContextDone | CreateFailed

  datatype Result<+T> = Ok(value: T) | Err(error: Error)

  datatype Opened = Opened(pool: GenericConnectionPool) | BadConfig | InitialCreateFailed

  const DEFAULT_CONFIG := Config(20, 2, true, false)

  /** The idle and the lent connections are different, each of them, and are all the open
      ones: taking the idle ones away one after the other leaves the lent ones. */
  ghost predicate Shares(idle: seq<Conn>, lent: set<Conn>, open: set<Conn>) {
    if idle == [] then open == lent
    else idle[0] in open && idle[0] !in lent && Shares(idle[1..], lent, open - {idle[0]})
  }

  /** What this says about two connections, and about the numbers: none is idle twice, none
      is idle and lent. */
  lemma {:induction false} SharesMeans(idle: seq<Conn>, lent: set<Conn>, open: set<Conn>)
    requires Shares(idle, lent, open)
    ensures Distinct(idle) && (forall c :: c in open <==> c in idle || c in lent)
    ensures (forall c :: c in idle ==> c !in lent) && |open| == |idle| + |lent|
  {
    if idle == [] {
    } else {
      var c, rest := idle[0], idle[1..];
      SharesMeans(rest, lent, open - {c});
      assert forall x :: x in idle <==> x == c || x in rest;
      DistinctMore(c, rest);
      assert idle == [c] + rest;
    }
  }

  lemma DistinctMore(c: Conn, rest: seq<Conn>)
    requires Distinct(rest) && c !in rest
    ensures Distinct([c] + rest)
  {
  }

  lemma {:induction false} LendOne(idle: seq<Conn>, lent: set<Conn>, open: set<Conn>, c: Conn)
    requires Shares(idle, lent, open) && c !in open
    ensures Shares(idle, lent + {c}, open + {c})
  {
    if idle == [] {
    } else {
      LendOne(idle[1..], lent, open - {idle[0]}, c);
      assert (open - {idle[0]}) + {c} == (open + {c}) - {idle[0]};
    }
  }

  lemma {:induction false} LentAreOpen(idle: seq<Conn>, lent: set<Conn>, open: set<Conn>)
    requires Shares(idle, lent, open)
    ensures lent <= open
  {
    if idle == [] {
    } else {
      LentAreOpen(idle[1..], lent, open - {idle[0]});
    }
  }

  lemma {:induction false} TakeBack(idle: seq<Conn>, lent: set<Conn>, open: set<Conn>, c: Conn)
    requires Shares(idle, lent, open) && c in lent
    ensures Shares(idle, lent - {c}, open - {c})
  {
    if idle == [] {
    } else {
      TakeBack(idle[1..], lent, open - {idle[0]}, c);
      assert (open - {idle[0]}) - {c} == (open - {c}) - {idle[0]};
    }
  }

  lemma {:induction false} AddLast(idle: seq<Conn>, lent: set<Conn>, open: set<Conn>, c: Conn)
    requires Shares(idle, lent, open) && c !in open
    ensures Shares(idle + [c], lent, open + {c})
  {
    if idle == [] {
      assert open + {c} - {c} == open;
      LentAreOpen(idle, lent, open);
    } else {
      AddLast(idle[1..], lent, open - {idle[0]}, c);
      assert (idle + [c])[1..] == idle[1..] + [c];
      assert (open - {idle[0]}) + {c} == (open + {c}) - {idle[0]};
    }
  }

  lemma TakeFirst(idle: seq<Conn>, lent: set<Conn>, open: set<Conn>)
    requires Shares(idle, lent, open) && idle != []
    ensures idle[0] in open && idle[0] !in lent
    ensures Shares(idle[1..], lent, open - {idle[0]})
    ensures Shares(idle[1..], lent + {idle[0]}, open)
  {
    var c := idle[0];
    LendOne(idle[1..], lent, open - {c}, c);
    assert open - {c} + {c} == open;
  }

  // A lent connection becomes idle, or is closed.
  lemma GiveBack(idle: seq<Conn>, lent: set<Conn>, open: set<Conn>, c: Conn)
    requires Shares(idle, lent, open) && c in lent
    ensures c in open
    ensures Shares(idle + [c], lent - {c}, open) && Shares(idle, lent - {c}, open - {c})
  {
    LentAreOpen(idle, lent, open);
    TakeBack(idle, lent, open, c);
    AddLast(idle, lent - {c}, open - {c}, c);
    assert open - {c} + {c} == open;
  }

  ghost function Without(open: set<Conn>, gone: seq<Conn>): set<Conn> {
    if gone == [] then open else Without(open - {gone[0]}, gone[1..])
  }

  function Sickly(s: seq<Conn>, sick: set<Conn>): (r: seq<Conn>)
    ensures |r| <= |s|
  {
    if s == [] then [] else (if s[0] in sick then [s[0]] else []) + Sickly(s[1..], sick)
  }

  function Healthy(s: seq<Conn>, sick: set<Conn>): (r: seq<Conn>)
    ensures |r| + |Sickly(s, sick)| == |s|
  {
    if s == [] then [] else (if s[0] in sick then [] else [s[0]]) + Healthy(s[1..], sick)
  }

  lemma Rotate(c: Conn, rest: seq<Conn>, lent: set<Conn>, open: set<Conn>)
    requires Shares([c] + rest, lent, open)
    ensures Shares(rest + [c], lent, open)
  {
    assert ([c] + rest)[1..] == rest;
    AddLast(rest, lent, open - {c}, c);
    assert open - {c} + {c} == open;
  }

  // The connections in front are checked: the sick ones are closed, the others go to the back.
  lemma {:induction false} CheckShares(tested: seq<Conn>, rest: seq<Conn>, lent: set<Conn>, open: set<Conn>,
                                       sick: set<Conn>)
    requires Shares(tested + rest, lent, open)
    ensures Shares(rest + Healthy(tested, sick), lent, Without(open, Sickly(tested, sick)))
  {
    if tested == [] {
      assert tested + rest == rest;
      assert rest + [] == rest;
    } else {
      var c, more := tested[0], tested[1..];
      assert tested + rest == [c] + (more + rest);
      assert ([c] + (more + rest))[1..] == more + rest;
      if c in sick {
        CheckShares(more, rest, lent, open - {c}, sick);
        SicklyFirst(tested, sick);
      } else {
        Rotate(c, more + rest, lent, open);
        assert more + rest + [c] == more + (rest + [c]);
        CheckShares(more, rest + [c], lent, open, sick);
        assert rest + [c] + Healthy(more, sick) == rest + ([c] + Healthy(more, sick));
        assert Sickly(tested, sick) == Sickly(more, sick);
      }
    }
  }

  lemma SicklyFirst(tested: seq<Conn>, sick: set<Conn>)
    requires tested != [] && tested[0] in sick
    ensures Sickly(tested, sick) == [tested[0]] + Sickly(tested[1..], sick)
              && Healthy(tested, sick) == Healthy(tested[1..], sick)
    ensures forall open :: Without(open, Sickly(tested, sick)) == Without(open - {tested[0]}, Sickly(tested[1..], sick))
  {
    assert Sickly(tested, sick)[1..] == Sickly(tested[1..], sick);
  }

  // The connections that creation attempts will yield are different from each other.
  ghost predicate AllNew(made: seq<Option<Conn>>) {
    forall i, j :: 0 <= i < j < |made| && made[i].Some? && made[j].Some? ==> made[i].value != made[j].value
  }

  function Chosen(optConfig: Option<Config>): Config {
    if optConfig.Some? then optConfig.value else DEFAULT_CONFIG
  }

  predicate Sound(c: Config) {
    !(c.maxConnections <= 0 || c.minIdleConnections < 0 || c.minIdleConnections > c.maxConnections)
  }

  /** The state of a pool: the channel of idle connections, the lent ones with the time of
      lending, the statistics, and for the proofs the open connections, those ever created,
      and the slots of `total` that were never given back. */
  datatype Books = Books(
    idle: seq<Conn>, active: map<Conn, int>,
    total: int, activeCount: int, idleCount: int, created: int, closedCount: int, failed: int, closed: bool,
    open: set<Conn>, ever: set<Conn>, leak: int)

  /** Exact accounting. */
  ghost predicate Accounts(c: Config, b: Books) {
    && 0 < c.maxConnections && 0 <= c.minIdleConnections <= c.maxConnections
    && Shares(b.idle, b.active.Keys, b.open) && b.open <= b.ever
    && b.idleCount == |b.idle| && b.activeCount == |b.active.Keys|
    && b.created - b.closedCount == |b.idle| + |b.active.Keys|
    && 0 <= b.leak
    && (!b.closed ==> b.total == |b.idle| + |b.active.Keys| + b.leak <= c.maxConnections)
    && (b.closed ==> b.idle == [] && b.active == map[])
  }

  // The first idle connection is taken out and closed; its slot is given back or not.
  ghost function DropFirst(b: Books, giveBack: bool): Books
    requires b.idle != []
  {
    b.(idle := b.idle[1..], idleCount := b.idleCount - 1, open := b.open - {b.idle[0]},
       closedCount := b.closedCount + 1,
       total := b.total - (if giveBack then 1 else 0), leak := b.leak + if giveBack then 0 else 1)
  }

  ghost function LendIdle(b: Books, now: int): Books
    requires b.idle != []
  {
    b.(idle := b.idle[1..], idleCount := b.idleCount - 1,
       active := b.active[b.idle[0] := now], activeCount := b.activeCount + 1)
  }

  ghost function LendNew(b: Books, conn: Conn, now: int): Books {
    b.(total := b.total + 1, created := b.created + 1, open := b.open + {conn}, ever := b.ever + {conn},
       active := b.active[conn := now], activeCount := b.activeCount + 1)
  }

  ghost function AddIdle(b: Books, conn: Conn): Books {
    b.(total := b.total + 1, created := b.created + 1, open := b.open + {conn}, ever := b.ever + {conn},
       idle := b.idle + [conn], idleCount := b.idleCount + 1)
  }

  // Put's outcomes: the connection goes into the channel, or is closed and its slot leaks.
  ghost function Requeue(b: Books, conn: Conn): Books {
    b.(active := b.active - {conn}, activeCount := b.activeCount - 1,
       idle := b.idle + [conn], idleCount := b.idleCount + 1)
  }

  ghost function CloseLent(b: Books, conn: Conn): Books {
    b.(active := b.active - {conn}, activeCount := b.activeCount - 1,
       open := b.open - {conn}, closedCount := b.closedCount + 1, leak := b.leak + 1)
  }

  lemma DropFirstAccounts(c: Config, b: Books, giveBack: bool)
    requires Accounts(c, b) && !b.closed && b.idle != []
    ensures Accounts(c, DropFirst(b, giveBack))
  {
    TakeFirst(b.idle, b.active.Keys, b.open);
  }

  lemma LendIdleAccounts(c: Config, b: Books, now: int)
    requires Accounts(c, b) && !b.closed && b.idle != []
    ensures Accounts(c, LendIdle(b, now)) && b.idle[0] !in b.active && b.idle[0] in b.open
  {
    TakeFirst(b.idle, b.active.Keys, b.open);
    assert LendIdle(b, now).active.Keys == b.active.Keys + {b.idle[0]};
  }

  lemma LendNewAccounts(c: Config, b: Books, conn: Conn, now: int)
    requires Accounts(c, b) && !b.closed && b.total < c.maxConnections && conn !in b.ever
    ensures Accounts(c, LendNew(b, conn, now)) && conn !in b.active
  {
    LendOne(b.idle, b.active.Keys, b.open, conn);
    LentAreOpen(b.idle, b.active.Keys, b.open);
    assert LendNew(b, conn, now).active.Keys == b.active.Keys + {conn};
  }

  lemma AddIdleAccounts(c: Config, b: Books, conn: Conn)
    requires Accounts(c, b) && !b.closed && b.total < c.maxConnections && conn !in b.ever
    ensures Accounts(c, AddIdle(b, conn)) && |b.idle| < c.maxConnections
  {
    AddLast(b.idle, b.active.Keys, b.open, conn);
  }

  lemma PutAccounts(c: Config, b: Books, conn: Conn)
    requires Accounts(c, b) && !b.closed
    ensures conn in b.active ==>
              Accounts(c, Requeue(b, conn)) && Accounts(c, CloseLent(b, conn)) && |b.idle| < c.maxConnections
    ensures conn !in b.active ==> !Accounts(c, Requeue(b, conn)) && !Accounts(c, CloseLent(b, conn))
  {
    assert (b.active - {conn}).Keys == b.active.Keys - {conn};
    if conn in b.active {
      GiveBack(b.idle, b.active.Keys, b.open, conn);
      assert b.active.Keys == (b.active.Keys - {conn}) + {conn};
    } else {
      assert b.active.Keys - {conn} == b.active.Keys;
    }
  }

  // Of the first n idle connections some are closed and give their slots back, and some go
  // to the end of the channel.
  ghost function Sifted(b: Books, n: nat, gone: seq<Conn>, kept: seq<Conn>): Books
    requires n <= |b.idle|
  {
    b.(idle := b.idle[n..] + kept, idleCount := b.idleCount - |gone|,
       open := Without(b.open, gone), closedCount := b.closedCount + |gone|, total := b.total - |gone|)
  }

  // The maintenance loop checks the first n idle connections: the sick ones are closed.
  ghost function Checked(b: Books, n: nat, sick: set<Conn>): Books
    requires n <= |b.idle|
  {
    Sifted(b, n, Sickly(b.idle[..n], sick), Healthy(b.idle[..n], sick))
  }

  lemma {:induction false} WithoutShrinks(open: set<Conn>, gone: seq<Conn>)
    ensures Without(open, gone) <= open
  {
    if gone == [] {
    } else {
      WithoutShrinks(open - {gone[0]}, gone[1..]);
    }
  }

  lemma CheckedAccounts(c: Config, b: Books, n: nat, sick: set<Conn>)
    requires Accounts(c, b) && !b.closed && n <= |b.idle|
    ensures Accounts(c, Checked(b, n, sick))
  {
    assert b.idle == b.idle[..n] + b.idle[n..];
    CheckShares(b.idle[..n], b.idle[n..], b.active.Keys, b.open, sick);
    WithoutShrinks(b.open, Sickly(b.idle[..n], sick));
  }

  // Worn connections, and perhaps one good one behind them.
  lemma {:induction false} WornPrefix(gone: seq<Conn>, good: seq<Conn>, worn: set<Conn>)
    requires (forall c :: c in gone ==> c in worn) && |good| <= 1 && (good != [] ==> good[0] !in worn)
    ensures Sickly(gone + good, worn) == gone && Healthy(gone + good, worn) == good
  {
    if gone == [] {
      assert gone + good == good;
    } else {
      assert (gone + good)[1..] == gone[1..] + good;
      WornPrefix(gone[1..], good, worn);
      assert gone == [gone[0]] + gone[1..];
    }
  }

  // n connections were looked at: worn ones, then the first good one or the end.
  ghost predicate UpToFirstGood(idle: seq<Conn>, n: nat, worn: set<Conn>) {
    && n <= |idle| && (forall i :: 0 <= i < n - 1 ==> idle[i] in worn)
    && (n < |idle| ==> n > 0 && idle[n - 1] !in worn)
  }

  // The first good connection behind the worn ones, if there is one.
  ghost function FirstGood(idle: seq<Conn>, toClose: seq<Conn>): seq<Conn> {
    if |toClose| >= |idle| then [] else [idle[|toClose|]]
  }

  lemma WornAreChecked(b: Books, w: Books, toClose: seq<Conn>, n: nat, worn: set<Conn>)
    requires toClose <= b.idle && forall x :: x in toClose ==> x in worn
    requires forall x :: x in FirstGood(b.idle, toClose) ==> x !in worn
    requires n == |toClose| + |FirstGood(b.idle, toClose)|
    requires w == Sifted(b, n, toClose, FirstGood(b.idle, toClose))
    ensures UpToFirstGood(b.idle, n, worn) && w == Checked(b, n, worn)
  {
    var good := FirstGood(b.idle, toClose);
    assert b.idle[..n] == toClose + good;
    WornPrefix(toClose, good, worn);
    WornComeFirst(b.idle, toClose, n, worn);
  }

  lemma WornComeFirst(idle: seq<Conn>, toClose: seq<Conn>, n: nat, worn: set<Conn>)
    requires toClose <= idle && forall x :: x in toClose ==> x in worn
    requires forall x :: x in FirstGood(idle, toClose) ==> x !in worn
    requires n == |toClose| + |FirstGood(idle, toClose)|
    ensures UpToFirstGood(idle, n, worn)
  {
    assert forall i :: 0 <= i < |toClose| ==> idle[i] == toClose[i] && toClose[i] in toClose;
    if n < |idle| {
      assert idle[n - 1] in FirstGood(idle, toClose);
    }
  }

  // The first i answers of the factory were connections, which are idle now.
  ghost predicate Filled(v: Books, w: Books, made: seq<Option<Conn>>, i: nat) {
    && i <= |made| && |w.idle| == |v.idle| + i && v.idle <= w.idle
    && (forall k :: 0 <= k < i ==> made[k] == Some(w.idle[|v.idle| + k]))
    && w.active == v.active && w.leak == v.leak && w.closedCount == v.closedCount && w.closed == v.closed
    && w.created == v.created + i && w.total == v.total + i && w.idleCount == v.idleCount + i
  }

  /** New idle connections were added until there is the minimum, the total is at its bound
      or the factory failed. */
  ghost predicate Replenished(v: Books, w: Books, c: Config, made: seq<Option<Conn>>, added: nat) {
    && Filled(v, w, made, added)
    && w.failed <= v.failed + 1
    && (added > 0 ==> |w.idle| <= c.minIdleConnections)
    && (|w.idle| >= c.minIdleConnections || w.total >= c.maxConnections
        || (added < |made| && made[added].None? && w.failed == v.failed + 1))
  }

  /** What Get did between two states: close the first `dropped` idle connections, all of
      them sick, then lend the next one, or a new one, or none. `leaked` of the closed ones
      are never taken off the total. */
  ghost predicate Got(v: Books, w: Books, validates: bool, r: Result<Conn>, dropped: nat, leaked: nat,
                      sick: set<Conn>, made: Option<Conn>, now: int) {
    && leaked <= dropped <= |v.idle|
    && (dropped > 0 ==> validates)
    && (forall i :: 0 <= i < dropped ==> v.idle[i] in sick)
    && w.leak == v.leak + leaked && w.closedCount == v.closedCount + dropped && w.failed == v.failed
        && w.closed == v.closed
    && match r {
         case Ok(conn) =>
           && conn !in v.active && w.active == v.active[conn := now]
           && (ReusedNext(v, w, validates, conn, dropped, sick)
               || (made == Some(conn) && CreatedNew(v, w, conn, dropped)))
         case Err(_) =>
           w.active == v.active && w.idle == v.idle[dropped..] && w.ever == v.ever && w.created == v.created
       }
  }

  ghost predicate ReusedNext(v: Books, w: Books, validates: bool, conn: Conn, dropped: nat, sick: set<Conn>) {
    && dropped < |v.idle| && conn == v.idle[dropped] && (validates ==> conn !in sick)
    && w.idle == v.idle[dropped + 1..] && w.ever == v.ever && w.created == v.created
  }

  ghost predicate CreatedNew(v: Books, w: Books, conn: Conn, dropped: nat) {
    && conn !in v.ever && dropped <= |v.idle|
    && w.idle == v.idle[dropped..] && w.ever == v.ever + {conn} && w.created == v.created + 1
  }

  // A connection at the front of the channel that Get may lend.
  predicate FrontIsFit(idle: seq<Conn>, validates: bool, sick: set<Conn>) {
    idle != [] && !(validates && idle[0] in sick)
  }

  /** When createAndTrackConnection lends: below the bound if the factory creates; at the
      bound if an idle connection comes before the context is done and is fit, or makes room
      for a new one by being closed. */
  predicate Lends(c: Config, idle: seq<Conn>, total: int, sick: set<Conn>, made: Option<Conn>, patience: nat) {
    if total < c.maxConnections then made.Some?
    else patience > 0 && idle != [] && (FrontIsFit(idle, c.validateOnGet, sick) || made.Some?)
  }

  // A close of the first idle connection in front of a Get's doings is part of them.
  lemma OneMoreDropped(v: Books, w: Books, validates: bool, r: Result<Conn>, dropped: nat, giveBack: bool,
                       sick: set<Conn>, made: Option<Conn>, now: int)
    requires v.idle != [] && validates && v.idle[0] in sick
    requires Got(DropFirst(v, giveBack), w, validates, r, dropped, 0, sick, made, now)
    ensures Got(v, w, validates, r, dropped + 1, if giveBack then 0 else 1, sick, made, now)
  {
    var u := DropFirst(v, giveBack);
    assert forall i :: 0 <= i < |u.idle| ==> u.idle[i] == v.idle[i + 1];
    assert u.idle[dropped..] == v.idle[dropped + 1..];
    if dropped < |u.idle| {
      assert u.idle[dropped + 1..] == v.idle[dropped + 2..];
    }
    forall i | 0 <= i < dropped + 1
      ensures v.idle[i] in sick
    {
      if i > 0 { assert u.idle[i - 1] == v.idle[i]; }
    }
  }

  // ------------------------------------------------------ what that means for a caller

  /** The books of an open pool: the total counts the idle, the lent and the leaked, and is within
      the bound; and the statistics count what they say. */
  lemma AccountsMean(c: Config, b: Books)
    requires Accounts(c, b) && !b.closed
    ensures b.total == |b.idle| + |b.active| + b.leak && 0 <= b.leak && b.total <= c.maxConnections
    ensures b.idleCount == |b.idle| && b.activeCount == |b.active| && b.created - b.closedCount == |b.idle| + |b.active|
    ensures forall conn :: conn in b.open <==> conn in b.idle || conn in b.active
    ensures Distinct(b.idle) && forall conn :: conn in b.idle ==> conn !in b.active
  {
    SharesMeans(b.idle, b.active.Keys, b.open);
    assert |b.active.Keys| == |b.active|;
  }

  /** What a Get has done: it has closed some sick idle connections in front, and either lent the
      next one, or a new one, or nothing. What it lends was not lent, and is fit if it was idle
      and Gets validate. */
  lemma GotMeans(v: Books, w: Books, validates: bool, r: Result<Conn>, dropped: nat, leaked: nat,
                 sick: set<Conn>, made: Option<Conn>, now: int)
    requires Got(v, w, validates, r, dropped, leaked, sick, made, now)
    ensures dropped <= |v.idle| && forall i :: 0 <= i < dropped ==> validates && v.idle[i] in sick
    ensures w.closedCount == v.closedCount + dropped && w.leak == v.leak + leaked
    ensures r.Err? ==> w.active == v.active && w.idle == v.idle[dropped..]
    ensures r.Ok? ==> r.value !in v.active && w.active == v.active[r.value := now]
    ensures r.Ok? && made != Some(r.value) ==>
              && dropped < |v.idle| && r.value == v.idle[dropped] && w.idle == v.idle[dropped + 1..]
              && !(validates && r.value in sick)
    ensures r.Ok? && r.value in v.ever ==> dropped < |v.idle| && r.value == v.idle[dropped]
  {
  }

  /** When createAndTrackConnection lends. */
  lemma LendsMeans(c: Config, idle: seq<Conn>, total: int, sick: set<Conn>, made: Option<Conn>, patience: nat)
    ensures total < c.maxConnections ==> (Lends(c, idle, total, sick, made, patience) <==> made.Some?)
    ensures total >= c.maxConnections && (patience == 0 || idle == []) ==> !Lends(c, idle, total, sick, made, patience)
    ensures total >= c.maxConnections && patience > 0 && idle != [] ==>
              (Lends(c, idle, total, sick, made, patience) <==> made.Some? || !c.validateOnGet || idle[0] !in sick)
  {
  }

  /** What a Put does: the connection goes to the end of the channel, open as before, or it is
      closed; the total is the same in both cases, so that a closed one leaks its slot. */
  lemma ReturnedMeans(b: Books, conn: Conn)
    ensures var kept, gone := Requeue(b, conn), CloseLent(b, conn);
            && kept.active == b.active - {conn} && kept.idle == b.idle + [conn] && kept.open == b.open
            && kept.total == b.total && kept.leak == b.leak && kept.closedCount == b.closedCount
            && gone.active == b.active - {conn} && gone.idle == b.idle && gone.open == b.open - {conn}
            && gone.total == b.total && gone.leak == b.leak + 1 && gone.closedCount == b.closedCount + 1
  {
  }

  /** Which connections are healthy, and that they keep their order. */
  lemma HealthyMeans(s: seq<Conn>, conn: Conn, sick: set<Conn>)
    ensures Healthy([], sick) == [] && Sickly([], sick) == []
    ensures conn in sick ==> Healthy(s + [conn], sick) == Healthy(s, sick)
    ensures conn in sick ==> Sickly(s + [conn], sick) == Sickly(s, sick) + [conn]
    ensures conn !in sick ==> Healthy(s + [conn], sick) == Healthy(s, sick) + [conn]
    ensures conn !in sick ==> Sickly(s + [conn], sick) == Sickly(s, sick)
  {
    SiftedConcat(s, [conn], sick);
  }

  lemma {:induction false} SiftedConcat(a: seq<Conn>, b: seq<Conn>, sick: set<Conn>)
    ensures Healthy(a + b, sick) == Healthy(a, sick) + Healthy(b, sick)
    ensures Sickly(a + b, sick) == Sickly(a, sick) + Sickly(b, sick)
  {
    if a == [] {
      assert a + b == b;
    } else {
      var rest := a[1..];
      assert (a + b)[1..] == rest + b;
      SiftedConcat(rest, b, sick);
      var h, k := if a[0] in sick then [] else [a[0]], if a[0] in sick then [a[0]] else [];
      Regroup(h, Healthy(rest, sick), Healthy(b, sick));
      Regroup(k, Sickly(rest, sick), Sickly(b, sick));
    }
  }

  lemma Regroup(a: seq<Conn>, b: seq<Conn>, c: seq<Conn>)
    ensures a + (b + c) == (a + b) + c
  {
  }

  lemma {:induction false} WithoutMeans(open: set<Conn>, gone: seq<Conn>, conn: Conn)
    ensures conn in Without(open, gone) <==> conn in open && conn !in gone
  {
    if gone == [] {
    } else {
      WithoutMeans(open - {gone[0]}, gone[1..], conn);
    }
  }

  /** What a check of the first n idle connections does: the sick ones among them are closed and
      give their slots back, the others go to the end of the channel. */
  lemma CheckedMeans(b: Books, n: nat, sick: set<Conn>)
    requires n <= |b.idle|
    ensures var w, bad := Checked(b, n, sick), Sickly(b.idle[..n], sick);
            && w.idle == b.idle[n..] + Healthy(b.idle[..n], sick)
            && (forall conn :: conn in w.open <==> conn in b.open && !(conn in b.idle[..n] && conn in sick))
            && w.active == b.active && w.total == b.total - |bad| && w.closedCount == b.closedCount + |bad|
            && w.leak == b.leak && w.closed == b.closed
  {
    forall conn
      ensures conn in Sickly(b.idle[..n], sick) <==> conn in b.idle[..n] && conn in sick
      ensures conn in Checked(b, n, sick).open <==> conn in b.open && conn !in Sickly(b.idle[..n], sick)
    {
      InSickly(b.idle[..n], sick, conn);
      WithoutMeans(b.open, Sickly(b.idle[..n], sick), conn);
    }
  }

  lemma {:induction false} InSickly(s: seq<Conn>, sick: set<Conn>, conn: Conn)
    ensures conn in Sickly(s, sick) <==> conn in s && conn in sick
  {
    if s == [] {
    } else {
      InSickly(s[1..], sick, conn);
    }
  }

  class GenericConnectionPool {
    const config: Config
    var connections: seq<Conn>
    var active: map<Conn, int>
    var totalConnections: int
    var activeConnections: int
    var idleConnections: int
    var connectionsCreated: int
    var connectionsClosed: int
    var connectionsFailed: int
    var closed: bool
    ghost var open: set<Conn>
    ghost var ever: set<Conn>
    ghost var leak: int

    ghost function Now(): Books
      reads this
    {
      Books(connections, active, totalConnections, activeConnections, idleConnections, connectionsCreated,
            connectionsClosed, connectionsFailed, closed, open, ever, leak)
    }

    ghost predicate Valid()
      reads this
    {
      Accounts(config, Now())
    }

    constructor Bare(config: Config)
      requires 0 < config.maxConnections && 0 <= config.minIdleConnections <= config.maxConnections
      ensures Valid() && this.config == config
      ensures Now() == Books([], map[], 0, 0, 0, 0, 0, 0, false, {}, {}, 0)
    {
      this.config := config;
      connections, active := [], map[];
      totalConnections, activeConnections, idleConnections := 0, 0, 0;
      connectionsCreated, connectionsClosed, connectionsFailed := 0, 0, 0;
      closed := false;
      open, ever, leak := {}, {}, 0;
    }

    /** NewGenericConnectionPool: reject a bad configuration, then create the minimum of
        idle connections; when one creation fails the pool is closed again. */
    static method New(optConfig: Option<Config>, made: seq<Option<Conn>>) returns (r: Opened)
      requires AllNew(made)
      requires Chosen(optConfig).minIdleConnections <= |made|
      ensures r.BadConfig? <==> !Sound(Chosen(optConfig))
      ensures r.InitialCreateFailed? ==> exists i :: 0 <= i < Chosen(optConfig).minIdleConnections && made[i].None?
      ensures r.Opened? ==>
                var n := Chosen(optConfig).minIdleConnections;
                && fresh(r.pool) && r.pool.Valid() && !r.pool.closed && r.pool.config == Chosen(optConfig)
                && |r.pool.connections| == n && r.pool.active == map[] && r.pool.leak == 0
                && forall i :: 0 <= i < n ==> made[i] == Some(r.pool.connections[i])
    {
      var c := Chosen(optConfig);
      if !Sound(c) {
        return BadConfig;
      }
      var pool := new GenericConnectionPool.Bare(c);
      for i := 0 to c.minIdleConnections
        invariant fresh(pool) && pool.Valid() && !pool.closed && pool.config == c
        invariant |pool.connections| == i && pool.active == map[] && pool.leak == 0
        invariant forall k :: 0 <= k < i ==> made[k] == Some(pool.connections[k])
        invariant forall x :: x in pool.ever ==> x in pool.connections
      {
        var conn := pool.CreateIdle(made[i]);
        if conn.None? {
          pool.Close();
          return InitialCreateFailed;
        }
      }
      r := Opened(pool);
    }

    // createConnection, and the new connection into the channel, which has room.
    method CreateIdle(made: Option<Conn>) returns (conn: Option<Conn>)
      requires Valid() && !closed && totalConnections < config.maxConnections
      requires made.Some? ==> made.value !in ever
      modifies this
      ensures Valid() && conn == made
      ensures Now() == if made.None? then old(Now()).(failed := old(connectionsFailed) + 1)
                else AddIdle(old(Now()), made.value)
    {
      conn := made;
      if made.None? {
        connectionsFailed := connectionsFailed + 1;
        return;
      }
      AddIdleAccounts(config, Now(), made.value);
      SendNew(made.value);
    }

    method SendNew(conn: Conn)
      requires |connections| < config.maxConnections
      modifies this
      ensures Now() == AddIdle(old(Now()), conn)
    {
      connectionsCreated := connectionsCreated + 1;
      totalConnections := totalConnections + 1;
      open, ever := open + {conn}, ever + {conn};
      if |connections| < config.maxConnections {
        connections := connections + [conn];
        idleConnections := idleConnections + 1;
      } else {
        assert false;
      }
    }

    // Take the first idle connection out of the channel and close it.
    method CloseFirst(giveBack: bool)
      requires Valid() && !closed && connections != []
      modifies this
      ensures Valid() && Now() == DropFirst(old(Now()), giveBack)
    {
      DropFirstAccounts(config, Now(), giveBack);
      var conn := connections[0];
      connections := connections[1..];
      idleConnections := idleConnections - 1;
      open := open - {conn};
      connectionsClosed := connectionsClosed + 1;
      if giveBack {
        totalConnections := totalConnections - 1;
      } else {
        leak := leak + 1;
      }
    }

    // Lend the first idle connection.
    method LendFirst(now: int) returns (conn: Conn)
      requires Valid() && !closed && connections != []
      modifies this
      ensures Valid() && Now() == LendIdle(old(Now()), now)
      ensures conn == old(connections)[0] && conn !in old(active)
    {
      LendIdleAccounts(config, Now(), now);
      conn := connections[0];
      connections := connections[1..];
      idleConnections := idleConnections - 1;
      active := active[conn := now];
      activeConnections := activeConnections + 1;
    }

    /** Get. `sick` are the connections that fail validation now, `made` is the factory's
        answer, and `patience` is how many waits for an idle connection end before the
        context is done. Only the close on the fast path leaks a slot; when all slots have
        leaked no connection is ever lent again. */
    method Get(now: int, sick: set<Conn>, made: Option<Conn>, patience: nat)
        returns (r: Result<Conn>, ghost dropped: nat)
      requires Valid() && (made.Some? ==> made.value !in ever)
      modifies this
      ensures Valid()
      ensures old(closed) ==> r == Err(PoolClosed) && Now() == old(Now())
      ensures !old(closed) ==>
                var leaks := config.validateOnGet && old(connections) != [] && old(connections)[0] in sick;
                Got(old(Now()), Now(), config.validateOnGet, r, dropped, if leaks then 1 else 0, sick, made, now)
      ensures !old(closed) && FrontIsFit(old(connections), config.validateOnGet, sick) ==>
                r == Ok(old(connections)[0]) && dropped == 0
      ensures !old(closed) && !FrontIsFit(old(connections), config.validateOnGet, sick) ==>
                var rest := if old(connections) == [] then [] else old(connections)[1..];
                r.Ok? <==> Lends(config, rest, old(totalConnections), sick, made, patience)
      ensures old(leak) == config.maxConnections ==> r.Err?
    {
      dropped := 0;
      if closed {
        return Err(PoolClosed), 0;
      }
      if connections != [] {
        if config.validateOnGet && connections[0] in sick {
          r, dropped := GetPastSick(now, sick, made, patience);
        } else {
          var conn := LendFirst(now);
          r := Ok(conn);
        }
      } else {
        r, dropped := CreateAndTrack(now, sick, made, patience);
      }
    }

    // The first idle connection is found sick: its close does not give its slot back.
    method GetPastSick(now: int, sick: set<Conn>, made: Option<Conn>, patience: nat)
        returns (r: Result<Conn>, ghost dropped: nat)
      requires Valid() && !closed && (made.Some? ==> made.value !in ever)
      requires connections != [] && config.validateOnGet && connections[0] in sick
      modifies this
      ensures Valid() && old(leak) < config.maxConnections
      ensures Got(old(Now()), Now(), config.validateOnGet, r, dropped, 1, sick, made, now)
      ensures r.Ok? <==> Lends(config, old(connections)[1..], old(totalConnections), sick, made, patience)
    {
      CloseFirst(false);
      ghost var more;
      r, more := CreateAndTrack(now, sick, made, patience);
      dropped := more + 1;
      OneMoreDropped(old(Now()), Now(), config.validateOnGet, r, more, false, sick, made, now);
    }

    /** createAndTrackConnection: while the total is at its bound wait for an idle connection,
        else reserve a slot and create. Its closes do give their slots back. */
    method CreateAndTrack(now: int, sick: set<Conn>, made: Option<Conn>, patience: nat)
        returns (r: Result<Conn>, ghost dropped: nat)
      requires Valid() && !closed && (made.Some? ==> made.value !in ever)
      modifies this
      ensures Valid()
      ensures Got(old(Now()), Now(), config.validateOnGet, r, dropped, 0, sick, made, now)
      ensures r.Ok? <==> Lends(config, old(connections), old(totalConnections), sick, made, patience)
      ensures old(totalConnections) < config.maxConnections ==> dropped == 0 && (r.Ok? ==> r.value == made.value)
      ensures old(totalConnections) >= config.maxConnections && r.Ok?
                && FrontIsFit(old(connections), config.validateOnGet, sick) ==>
                r.value == old(connections)[0]
      ensures old(leak) == config.maxConnections ==> r.Err?
      decreases patience
    {
      dropped := 0;
      if totalConnections >= config.maxConnections {
        if connections == [] || patience == 0 {
          return Err(ContextDone), 0;
        }
        if config.validateOnGet && connections[0] in sick {
          CloseFirst(true);
          ghost var more;
          r, more := CreateAndTrack(now, sick, made, patience - 1);
          dropped := more + 1;
          OneMoreDropped(old(Now()), Now(), config.validateOnGet, r, more, true, sick, made, now);
          return;
        }
        var conn := LendFirst(now);
        return Ok(conn), 0;
      }
      totalConnections := totalConnections + 1;
      if made.None? {
        totalConnections := totalConnections - 1;
        return Err(CreateFailed), 0;
      }
      r := Track(made.value, now);
    }

    // The new connection, for which a slot is reserved, is lent.
    method Track(conn: Conn, now: int) returns (r: Result<Conn>)
      requires Accounts(config, Now().(total := totalConnections - 1)) && !closed && conn !in ever
      requires totalConnections <= config.maxConnections
      modifies this
      ensures Valid() && r == Ok(conn) && conn !in old(active)
      ensures Now() == LendNew(old(Now()).(total := old(totalConnections) - 1), conn, now)
    {
      LendNewAccounts(config, Now().(total := totalConnections - 1), conn, now);
      connectionsCreated := connectionsCreated + 1;
      open, ever := open + {conn}, ever + {conn};
      active := active[conn := now];
      activeConnections := activeConnections + 1;
      r := Ok(conn);
    }

    /** Put. It keeps the accounting exactly when the connection is one that is lent. Every
        connection it closes leaves its slot of the total taken. */
    method Put(conn: Option<Conn>, failsValidation: bool, unusable: bool) returns (err: Option<Error>)
      requires Valid() && !(closed && conn.None?)
      modifies this
      ensures old(closed) ==> err == Some(PoolClosed) && Now() == old(Now())
      ensures !old(closed) && conn.None? ==> err == Some(NilConnection) && Now() == old(Now())
      ensures !old(closed) && conn.Some? ==> err == None && (Valid() <==> conn.value in old(active))
      ensures !old(closed) && conn.Some? ==>
                var full := |old(connections)| >= config.maxConnections;
                && (full ==> conn.value !in old(active))
                && Now() == if (config.validateOnPut && failsValidation) || unusable || full
                            then CloseLent(old(Now()), conn.value) else Requeue(old(Now()), conn.value)
    {
      if closed {
        LentAreOpen(connections, active.Keys, open);
        return Some(PoolClosed);
      }
      if conn.None? {
        return Some(NilConnection);
      }
      PutAccounts(config, Now(), conn.value);
      TakeBackLent(conn.value, failsValidation, unusable);
      err := None;
    }

    // The rest of Put, for a pool that is open and a connection that is not nil.
    method TakeBackLent(c: Conn, failsValidation: bool, unusable: bool)
      modifies this
      ensures var full := |old(connections)| >= config.maxConnections;
              Now() == if (config.validateOnPut && failsValidation) || unusable || full
                       then CloseLent(old(Now()), c) else Requeue(old(Now()), c)
    {
      active := active - {c};
      activeConnections := activeConnections - 1;
      if config.validateOnPut && failsValidation {
        CloseOne(c);
        return;
      }
      if unusable {
        CloseOne(c);
        return;
      }
      if |connections| < config.maxConnections {
        connections := connections + [c];
        idleConnections := idleConnections + 1;
      } else {
        CloseOne(c);
      }
    }

    // The three closes of Put: the connection is closed, its slot is not given back.
    method CloseOne(c: Conn)
      modifies this`open, this`connectionsClosed, this`leak
      ensures open == old(open) - {c} && connectionsClosed == old(connectionsClosed) + 1 && leak == old(leak) + 1
    {
      open := open - {c};
      connectionsClosed := connectionsClosed + 1;
      leak := leak + 1;
    }

    /** Close: every connection that was created is closed. */
    method Close()
      requires Valid()
      modifies this
      ensures Valid() && closed && open == {} && connectionsClosed == connectionsCreated
      ensures Now() ==
                old(Now()).(idle := [], active := map[], idleCount := 0, activeCount := 0, open := {}, closed := true,
                            closedCount := old(connectionsCreated))
    {
      if closed {
        return;
      }
      closed := true;
      CloseIdle();
      CloseActive();
      idleConnections := 0;
    }

    method CloseIdle()
      requires Shares(connections, active.Keys, open)
      modifies this`connections, this`open, this`connectionsClosed
      ensures connections == [] && open == active.Keys
      ensures connectionsClosed == old(connectionsClosed) + old(|connections|)
    {
      while connections != []
        invariant Shares(connections, active.Keys, open)
        invariant connectionsClosed + |connections| == old(connectionsClosed) + old(|connections|)
        decreases |connections|
      {
        TakeFirst(connections, active.Keys, open);
        var conn := connections[0];
        connections := connections[1..];
        open := open - {conn};
        connectionsClosed := connectionsClosed + 1;
      }
    }

    method CloseActive()
      requires open == active.Keys
      modifies this`active, this`open, this`connectionsClosed, this`activeConnections
      ensures active == map[] && open == {} && activeConnections == 0
      ensures connectionsClosed == old(connectionsClosed) + old(|active.Keys|)
    {
      var rest := active.Keys;
      while rest != {}
        invariant active == old(active) && open == rest
        invariant connectionsClosed + |rest| == old(connectionsClosed) + |active.Keys|
        decreases |rest|
      {
        var conn :| conn in rest;
        rest := rest - {conn};
        open := open - {conn};
        connectionsClosed := connectionsClosed + 1;
      }
      active := map[];
      activeConnections := 0;
    }

    /** performHealthCheck: up to three idle connections are checked. */
    method PerformHealthCheck(sick: set<Conn>)
      requires Valid() && !closed
      modifies this
      ensures Valid()
      ensures Now() == Checked(old(Now()), if |old(connections)| < 3 then |old(connections)| else 3, sick)
    {
      ghost var n := if |connections| < 3 then |connections| else 3;
      CheckedAccounts(config, Now(), n, sick);
      var toTest := TakeUpToThree();
      var toReturn := TestAll(toTest, sick);
      ReturnAll(toReturn);
    }

    method TakeUpToThree() returns (toTest: seq<Conn>)
      modifies this`connections, this`idleConnections
      ensures |toTest| == if |old(connections)| < 3 then |old(connections)| else 3
      ensures toTest == old(connections)[..|toTest|] && connections == old(connections)[|toTest|..]
      ensures idleConnections == old(idleConnections) - |toTest|
    {
      toTest := [];
      for i := 0 to 3
        invariant |toTest| == (if i < |old(connections)| then i else |old(connections)|)
        invariant toTest + connections == old(connections)
        invariant idleConnections == old(idleConnections) - |toTest|
      {
        if connections != [] {
          assert toTest + connections == (toTest + [connections[0]]) + connections[1..];
          toTest := toTest + [connections[0]];
          connections := connections[1..];
          idleConnections := idleConnections - 1;
        }
      }
    }

    method TestAll(toTest: seq<Conn>, sick: set<Conn>) returns (toReturn: seq<Conn>)
      modifies this`open, this`connectionsClosed, this`totalConnections
      ensures toReturn == Healthy(toTest, sick)
      ensures open == Without(old(open), Sickly(toTest, sick))
      ensures connectionsClosed == old(connectionsClosed) + |Sickly(toTest, sick)|
      ensures totalConnections == old(totalConnections) - |Sickly(toTest, sick)|
    {
      toReturn := [];
      ghost var left := toTest;
      for i := 0 to |toTest|
        invariant left == toTest[i..]
        invariant toReturn + Healthy(left, sick) == Healthy(toTest, sick)
        invariant Without(open, Sickly(left, sick)) == Without(old(open), Sickly(toTest, sick))
        invariant connectionsClosed + |Sickly(left, sick)| == old(connectionsClosed) + |Sickly(toTest, sick)|
        invariant totalConnections - |Sickly(left, sick)| == old(totalConnections) - |Sickly(toTest, sick)|
      {
        var conn := toTest[i];
        assert left[0] == conn && left[1..] == toTest[i + 1..];
        if conn in sick {
          SicklyFirst(left, sick);
          open := open - {conn};
          connectionsClosed := connectionsClosed + 1;
          totalConnections := totalConnections - 1;
        } else {
          assert toReturn + Healthy(left, sick) == (toReturn + [conn]) + Healthy(left[1..], sick);
          assert Sickly(left, sick) == Sickly(left[1..], sick);
          toReturn := toReturn + [conn];
        }
        left := left[1..];
      }
    }

    // There is room: the connections came out of the channel.
    method ReturnAll(toReturn: seq<Conn>)
      requires |connections| + |toReturn| <= config.maxConnections
      modifies this`connections, this`idleConnections
      ensures connections == old(connections) + toReturn && idleConnections == old(idleConnections) + |toReturn|
    {
      for i := 0 to |toReturn|
        invariant connections == old(connections) + toReturn[..i] && idleConnections == old(idleConnections) + i
      {
        if |connections| < config.maxConnections {
          assert toReturn[..i + 1] == toReturn[..i] + [toReturn[i]];
          connections := connections + [toReturn[i]];
          idleConnections := idleConnections + 1;
        } else {
          assert false;
        }
      }
    }

    /** cleanupIdleConnections: worn connections are closed from the front up to the first
        good one, which goes to the end of the channel; then the minimum is restored. */
    method CleanupIdleConnections(worn: set<Conn>, made: seq<Option<Conn>>) returns (ghost n: nat, ghost added: nat)
      requires Valid() && !closed
      requires AllNew(made) && config.minIdleConnections <= |made|
      requires forall i :: 0 <= i < |made| && made[i].Some? ==> made[i].value !in ever
      modifies this
      ensures Valid() && UpToFirstGood(old(connections), n, worn)
      ensures Replenished(Checked(old(Now()), n, worn), Now(), config, made, added)
    {
      n := CloseWornOnes(worn);
      added := EnsureMinimumIdle(made);
    }

    method CloseWornOnes(worn: set<Conn>) returns (ghost n: nat)
      requires Valid() && !closed
      modifies this
      ensures Valid() && UpToFirstGood(old(connections), n, worn) && Now() == Checked(old(Now()), n, worn)
    {
      ghost var b := Now();
      var toClose := CollectWorn(worn);
      n := |toClose| + |FirstGood(b.idle, toClose)|;
      CloseWorn(toClose);
      WornAreChecked(b, Now(), toClose, n, worn);
      CheckedAccounts(config, b, n, worn);
    }

    method CloseWorn(toClose: seq<Conn>)
      modifies this`open, this`connectionsClosed, this`totalConnections
      ensures open == Without(old(open), toClose)
      ensures connectionsClosed == old(connectionsClosed) + |toClose|
      ensures totalConnections == old(totalConnections) - |toClose|
    {
      ghost var left := toClose;
      for i := 0 to |toClose|
        invariant left == toClose[i..] && Without(open, left) == Without(old(open), toClose)
        invariant connectionsClosed == old(connectionsClosed) + i && totalConnections == old(totalConnections) - i
      {
        assert left[0] == toClose[i] && left[1..] == toClose[i + 1..];
        open := open - {toClose[i]};
        connectionsClosed := connectionsClosed + 1;
        totalConnections := totalConnections - 1;
        left := left[1..];
      }
    }

    method CollectWorn(worn: set<Conn>) returns (toClose: seq<Conn>)
      requires |connections| <= config.maxConnections
      modifies this`connections, this`idleConnections
      ensures toClose <= old(connections) && (forall c :: c in toClose ==> c in worn)
      ensures idleConnections == old(idleConnections) - |toClose|
      ensures if |toClose| == |old(connections)| then connections == []
              else old(connections)[|toClose|] !in worn
                   && connections == old(connections)[|toClose| + 1..] + [old(connections)[|toClose|]]
    {
      toClose := [];
      while connections != []
        invariant toClose + connections == old(connections) && (forall c :: c in toClose ==> c in worn)
        invariant idleConnections == old(idleConnections) - |toClose|
        decreases |connections|
      {
        var conn := connections[0];
        assert old(connections)[|toClose|] == conn;
        assert toClose + connections == (toClose + [conn]) + connections[1..];
        connections := connections[1..];
        if conn in worn {
          toClose := toClose + [conn];
          idleConnections := idleConnections - 1;
        } else {
          assert connections == old(connections)[|toClose| + 1..];
          if |connections| < config.maxConnections {
            connections := connections + [conn];
          } else {
            assert false;
          }
          return;
        }
      }
      assert toClose == old(connections);
    }

    /** ensureMinimumIdleConnections, given the factory's answers in turn. */
    method EnsureMinimumIdle(made: seq<Option<Conn>>) returns (ghost added: nat)
      requires Valid() && !closed
      requires AllNew(made) && config.minIdleConnections <= |made|
      requires forall i :: 0 <= i < |made| && made[i].Some? ==> made[i].value !in ever
      modifies this
      ensures Valid()
      ensures Replenished(old(Now()), Now(), config, made, added)
    {
      added := 0;
      var needed := config.minIdleConnections - idleConnections;
      if needed <= 0 {
        return;
      }
      for i := 0 to needed
        invariant Valid() && !closed && added == i
        invariant Filled(old(Now()), Now(), made, i) && connectionsFailed == old(connectionsFailed)
        invariant forall j :: i <= j < |made| && made[j].Some? ==> made[j].value !in ever
      {
        if totalConnections >= config.maxConnections {
          break;
        }
        var conn := CreateIdle(made[i]);
        if conn.None? {
          break;
        }
        added := i + 1;
      }
    }
  }
}
