/** The connection pool of storage/connection_pool.go under every interleaving of any number
    of callers with the one maintenance loop, from a constructed pool up to Close. A step is
    one access to what the goroutines share: a channel operation, an atomic operation, the
    locked update of the active map, or a connection coming into being or being closed. */
module PoolSteps {
  import opened Lists
  import Pool
  import opened Text

  type Conn = Pool.Conn

  /** Where a caller stands. A slot that is Done may start a Get or a Put. */
  datatype Caller =
    | Done
    | Start                          // in Get, before the first look at the channel
    | FastHave(conn: Conn)           // received on the fast path, to be validated
    | Slow                           // at the head of the reservation loop
    | Cas(seen: int)                 // has read the total, below its bound
    | Waiting                        // at the bound: waits for a connection or the context
    | WaitHave(conn: Conn)           // received while waiting, to be validated
    | WaitDec                        // closed it, the total still to be decremented
    | Reserved                       // has incremented the total, connection still to be created
    | Unreserve                      // creation failed, the total still to be decremented
    | Made(conn: Conn)               // created, to be entered in the active map
    | PutStart(conn: Conn)           // in Put, the connection still in the active map
    | PutHave(conn: Conn)            // taken out of the map, to be queued or closed

  datatype Phase =
    | Resting | Collecting | PuttingBack | Cleaning | CleanDec
    | Ensuring | Creating | Counting | Sending | SendDec
    | Taking | Testing | TestDec | Returning | ReturnDec

  /** The maintenance loop: the connections it works on, those it will send back, and how
      many turns its loop has left. */
  datatype Maint = Maint(phase: Phase, hand: seq<Conn>, back: seq<Conn>, left: nat)

  /** The one place where an open connection is. */
  datatype Place = InChannel | Lent | Leaving(t: nat) | With(t: nat) | InMaintenance

  datatype State = State(
    bound: nat,
    total: int,
    idle: seq<Conn>,
    active: set<Conn>,
    lent: set<Conn>,            // handed out by Get and not yet given to Put
    place: map<Conn, Place>,    // of every open connection
    ever: set<Conn>,
    leak: nat,
    callers: seq<Caller>,
    maint: Maint)

  // What is decided outside: the health of a connection, the answer of the factory, whether
  // the context is done, how many connections the maintenance loop finds missing.
  datatype Choice = Choice(bad: bool, made: Option<Conn>, giveUp: bool, cleanup: bool, missing: nat)

  datatype Action = Spawn | BeginGet(t: nat) | BeginPut(t: nat, conn: Conn) | Step(t: nat, ch: Choice)
      | Maintain(ch: Choice)

  function Open(s: State): set<Conn> {
    s.place.Keys
  }

  function At(s: State, t: nat, pc: Caller): State
    requires t < |s.callers|
  {
    s.(callers := s.callers[t := pc])
  }

  function Closed(s: State, c: Conn): State {
    s.(place := s.place - {c})
  }

  function Moved(s: State, c: Conn, p: Place): State {
    s.(place := s.place[c := p])
  }

  function Tracked(s: State, t: nat, c: Conn): State
    requires t < |s.callers|
  {
    At(Moved(s, c, Lent).(active := s.active + {c}, lent := s.lent + {c}), t, Done)
  }

  /** One step of caller t, if it can take one. */
  function CallerStep(s: State, t: nat, ch: Choice): Option<State>
    requires t < |s.callers|
  {
    match s.callers[t]
    case Done => None
    case Start =>
      if s.idle == [] then Some(At(s, t, Slow))
      else Some(At(Moved(s, s.idle[0], With(t)).(idle := s.idle[1..]), t, FastHave(s.idle[0])))
    case FastHave(c) =>
      if ch.bad then Some(At(Closed(s, c).(leak := s.leak + 1), t, Slow)) else Some(Tracked(s, t, c))
    case Slow =>
      Some(At(s, t, if s.total >= s.bound then Waiting else Cas(s.total)))
    case Cas(seen) =>
      if s.total == seen then Some(At(s.(total := s.total + 1), t, Reserved)) else Some(At(s, t, Slow))
    case Waiting =>
      if ch.giveUp then Some(At(s, t, Done))
      else if s.idle == [] then None
      else Some(At(Moved(s, s.idle[0], With(t)).(idle := s.idle[1..]), t, WaitHave(s.idle[0])))
    case WaitHave(c) =>
      if ch.bad then Some(At(Closed(s, c), t, WaitDec)) else Some(Tracked(s, t, c))
    case WaitDec =>
      Some(At(s.(total := s.total - 1), t, Slow))
    case Reserved =>
      if ch.made.None? then Some(At(s, t, Unreserve))
      else if ch.made.value in s.ever then None
      else Some(At(Moved(s, ch.made.value, With(t)).(ever := s.ever + {ch.made.value}), t, Made(ch.made.value)))
    case Unreserve =>
      Some(At(s.(total := s.total - 1), t, Done))
    case Made(c) =>
      Some(Tracked(s, t, c))
    case PutStart(c) =>
      Some(At(Moved(s, c, With(t)).(active := s.active - {c}), t, PutHave(c)))
    case PutHave(c) =>
      if ch.bad || |s.idle| >= s.bound then Some(At(Closed(s, c).(leak := s.leak + 1), t, Done))
      else Some(At(Moved(s, c, InChannel).(idle := s.idle + [c]), t, Done))
  }

  // Receive into the maintenance loop, send from it, close there.
  function Received(s: State, m: Maint): State
    requires s.idle != []
  {
    Moved(s, s.idle[0], InMaintenance).(idle := s.idle[1..], maint := m)
  }

  function Sent(s: State, c: Conn, m: Maint): State {
    Moved(s, c, InChannel).(idle := s.idle + [c], maint := m)
  }

  function Shut(s: State, c: Conn, m: Maint): State {
    Closed(s, c).(maint := m)
  }

  /** One step of the maintenance loop, if it can take one. */
  function MaintStep(s: State, ch: Choice): Option<State> {
    var m := s.maint;
    match m.phase
    case Resting =>
      Some(s.(maint := if ch.cleanup then Maint(Collecting, [], [], 0) else Maint(Taking, [], [], 3)))
    case Collecting =>
      if s.idle == [] then Some(s.(maint := m.(phase := Cleaning)))
      else if ch.bad then Some(Received(s, m.(hand := m.hand + [s.idle[0]])))
      else Some(Received(s, m.(phase := PuttingBack, back := m.back + [s.idle[0]])))
    case PuttingBack =>
      if m.back == [] then None
      else if |s.idle| < s.bound then Some(Sent(s, m.back[0], m.(phase := Cleaning, back := m.back[1..])))
      else Some(s.(maint := m.(phase := Cleaning, hand := m.hand + m.back, back := [])))
    case Cleaning =>
      if m.hand == [] then Some(s.(maint := m.(phase := Ensuring, left := ch.missing)))
      else Some(Shut(s, m.hand[0], m.(phase := CleanDec, hand := m.hand[1..])))
    case CleanDec =>
      Some(s.(total := s.total - 1, maint := m.(phase := Cleaning)))
    case Ensuring =>
      if m.left == 0 || s.total >= s.bound then Some(s.(maint := m.(phase := Resting)))
      else Some(s.(maint := m.(phase := Creating)))
    case Creating =>
      if ch.made.None? then Some(s.(maint := m.(phase := Resting)))
      else if ch.made.value in s.ever then None
      else Some(Moved(s, ch.made.value, InMaintenance).(
                ever := s.ever + {ch.made.value}, maint := m.(phase := Counting, back := m.back + [ch.made.value])))
    case Counting =>
      Some(s.(total := s.total + 1, maint := m.(phase := Sending)))
    case Sending =>
      if m.back == [] || m.left == 0 then None
      else if |s.idle| < s.bound
      then Some(Sent(s, m.back[0], m.(phase := Ensuring, back := m.back[1..], left := m.left - 1)))
      else Some(Shut(s, m.back[0], m.(phase := SendDec, back := m.back[1..], left := m.left - 1)))
    case SendDec =>
      Some(s.(total := s.total - 1, maint := m.(phase := Ensuring)))
    case Taking =>
      if m.left == 0 then Some(s.(maint := m.(phase := Testing)))
      else if s.idle == [] then Some(s.(maint := m.(left := m.left - 1)))
      else Some(Received(s, m.(hand := m.hand + [s.idle[0]], left := m.left - 1)))
    case Testing =>
      if m.hand == [] then Some(s.(maint := m.(phase := Returning)))
      else if ch.bad then Some(Shut(s, m.hand[0], m.(phase := TestDec, hand := m.hand[1..])))
      else Some(s.(maint := m.(hand := m.hand[1..], back := m.back + [m.hand[0]])))
    case TestDec =>
      Some(s.(total := s.total - 1, maint := m.(phase := Testing)))
    case Returning =>
      if m.back == [] then Some(s.(maint := m.(phase := Resting)))
      else if |s.idle| < s.bound then Some(Sent(s, m.back[0], m.(back := m.back[1..])))
      else Some(Shut(s, m.back[0], m.(phase := ReturnDec, back := m.back[1..])))
    case ReturnDec =>
      Some(s.(total := s.total - 1, maint := m.(phase := Returning)))
  }

  function Next(s: State, a: Action): Option<State> {
    match a
    case Spawn => Some(s.(callers := s.callers + [Done]))
    case BeginGet(t) =>
      if t < |s.callers| && s.callers[t].Done? then Some(At(s, t, Start)) else None
    case BeginPut(t, c) =>
      if t < |s.callers| && s.callers[t].Done? && c in s.lent
      then Some(At(Moved(s, c, Leaving(t)).(lent := s.lent - {c}), t, PutStart(c))) else None
    case Step(t, ch) =>
      if t < |s.callers| then CallerStep(s, t, ch) else None
    case Maintain(ch) => MaintStep(s, ch)
  }

  // A constructed pool: some different connections in the channel, all of them counted.
  ghost predicate Init(s: State) {
    && s.total == |s.idle| <= s.bound
    && Distinct(s.idle) && s.active == {} && s.lent == {} && s.leak == 0 && s.callers == []
    && s.place.Keys == Elements(s.idle) && s.place.Keys <= s.ever
    && (forall c :: c in s.place ==> s.place[c] == InChannel)
    && s.maint == Maint(Resting, [], [], 0)
  }

  ghost function Elements(q: seq<Conn>): set<Conn> {
    set c | c in q
  }

  // --------------------------------------------------------------------- the count

  // Slots of the total that stand for no open connection, per caller and in maintenance.
  function Extra(pc: Caller): int {
    if pc.Reserved? || pc.Unreserve? || pc.WaitDec? then 1 else 0
  }

  function ExtraOfAll(callers: seq<Caller>): int {
    if callers == [] then 0 else ExtraOfAll(callers[..|callers| - 1]) + Extra(callers[|callers| - 1])
  }

  function MaintExtra(p: Phase): int {
    match p
    case CleanDec => 1
    case SendDec => 1
    case TestDec => 1
    case ReturnDec => 1
    case Counting => -1
    case _ => 0
  }

  /** The total is the number of open connections, plus the reserved and the closed ones not
      yet settled, plus the leak, minus the one that maintenance has created and not counted. */
  ghost predicate Counted(s: State) {
    s.total == |Open(s)| + ExtraOfAll(s.callers) + MaintExtra(s.maint.phase) + s.leak
  }

  /** The bound, which is exceeded by one at most, and not while a creation is under way. */
  ghost predicate Bounded(s: State) {
    && s.total <= s.bound + 1
    && (s.maint.phase in {Creating, Counting} ==> s.total <= s.bound)
    && (forall t :: 0 <= t < |s.callers| && s.callers[t].Cas? ==> s.callers[t].seen < s.bound)
  }

  lemma {:induction false} ExtraAfter(callers: seq<Caller>, t: nat, pc: Caller)
    requires t < |callers|
    ensures ExtraOfAll(callers[t := pc]) == ExtraOfAll(callers) - Extra(callers[t]) + Extra(pc)
    ensures ExtraOfAll(callers) >= 0
  {
    var front := callers[..|callers| - 1];
    ExtraIsNatural(callers);
    if t < |front| {
      ExtraAfter(front, t, pc);
      assert callers[t := pc][..|callers| - 1] == front[t := pc];
    } else {
      assert callers[t := pc][..|callers| - 1] == front;
    }
  }

  lemma {:induction false} ExtraIsNatural(callers: seq<Caller>)
    ensures ExtraOfAll(callers) >= 0
  {
    if callers == [] {
    } else {
      ExtraIsNatural(callers[..|callers| - 1]);
    }
  }

  // ------------------------------------------------------------------- the places

  // The connection a caller has taken out of the channel, the map or the factory.
  function Holds(pc: Caller): Option<Conn> {
    match pc
    case FastHave(c) => Some(c)
    case WaitHave(c) => Some(c)
    case Made(c) => Some(c)
    case PutHave(c) => Some(c)
    case _ => None
  }

  // Where caller t has its connection, if it has one.
  function Claim(pc: Caller, t: nat): Option<(Conn, Place)> {
    if Holds(pc).Some? then Some((Holds(pc).value, With(t)))
    else if pc.PutStart? then Some((pc.conn, Leaving(t)))
    else None
  }

  ghost predicate Is(s: State, c: Conn, p: Place) {
    c in s.place && s.place[c] == p
  }

  function Hand(m: Maint): seq<Conn> {
    m.hand + m.back
  }

  function Times(q: seq<Conn>, c: Conn): nat {
    multiset(q)[c]
  }

  /** Connection c is in the place the record says, there once and nowhere else. */
  ghost predicate ConnPlaced(s: State, c: Conn) {
    && Times(s.idle, c) == (if Is(s, c, InChannel) then 1 else 0)
    && Times(Hand(s.maint), c) == (if Is(s, c, InMaintenance) then 1 else 0)
    && (c in s.lent <==> Is(s, c, Lent))
    && (c in s.active <==> c in s.place && (s.place[c].Lent? || s.place[c].Leaving?))
    && (c in s.place && (s.place[c].With? || s.place[c].Leaving?) ==>
          s.place[c].t < |s.callers| && Claim(s.callers[s.place[c].t], s.place[c].t) == Some((c, s.place[c])))
  }

  ghost predicate CallerPlaced(s: State, t: nat)
    requires t < |s.callers|
  {
    Claim(s.callers[t], t).Some? ==> Is(s, Claim(s.callers[t], t).value.0, Claim(s.callers[t], t).value.1)
  }

  /** Every open connection is in exactly one place. */
  ghost predicate Placed(s: State) {
    && Open(s) <= s.ever
    && (forall c :: ConnPlaced(s, c))
    && (forall t :: 0 <= t < |s.callers| ==> CallerPlaced(s, t))
  }

  lemma TakeFirst(q: seq<Conn>)
    requires q != []
    ensures forall c :: Times(q[1..], c) == Times(q, c) - if c == q[0] then 1 else 0
  {
    assert q == [q[0]] + q[1..];
  }

  lemma AddLast(q: seq<Conn>, x: Conn)
    ensures forall c :: Times(q + [x], c) == Times(q, c) + if c == x then 1 else 0
  {
  }

  // Only connection c0 moved, and only caller t (or maintenance) changed: all else stays placed.
  lemma OneMoved(s: State, s': State, c0: Conn, t: int)
    requires Placed(s)
    requires |s'.callers| == |s.callers| && forall u :: 0 <= u < |s.callers| && u != t ==> s'.callers[u] == s.callers[u]
    requires forall c :: c != c0 ==> (c in s'.place <==> c in s.place) && (c in s.place ==> s'.place[c] == s.place[c])
    requires forall c :: c != c0 ==>
               Times(s'.idle, c) == Times(s.idle, c) && Times(Hand(s'.maint), c) == Times(Hand(s.maint), c)
    requires forall c :: c != c0 ==> (c in s'.lent <==> c in s.lent) && (c in s'.active <==> c in s.active)
    requires 0 <= t < |s.callers| ==>
               && (Claim(s.callers[t], t).Some? ==> Claim(s.callers[t], t).value.0 == c0)
               && CallerPlaced(s', t)
    requires c0 in s.place && (s.place[c0].With? || s.place[c0].Leaving?) ==> s.place[c0].t == t
    requires ConnPlaced(s', c0) && Open(s') <= s'.ever
    ensures Placed(s')
  {
    forall c
      ensures ConnPlaced(s', c)
    {
      assert ConnPlaced(s, c);
    }
    forall u | 0 <= u < |s'.callers|
      ensures CallerPlaced(s', u)
    {
      if u != t {
        assert CallerPlaced(s, u);
      }
    }
  }

  // Nothing moved, and the caller that changed has no connection before or after.
  lemma NoneMoved(s: State, s': State)
    requires Placed(s) && s'.place == s.place && s'.ever == s.ever && s'.lent == s.lent && s'.active == s.active
    requires s'.idle == s.idle && forall c :: Times(Hand(s'.maint), c) == Times(Hand(s.maint), c)
    requires |s'.callers| >= |s.callers|
    requires forall u :: 0 <= u < |s.callers| ==> Claim(s'.callers[u], u) == Claim(s.callers[u], u)
    requires forall u :: |s.callers| <= u < |s'.callers| ==> Claim(s'.callers[u], u) == None
    ensures Placed(s')
  {
    forall c
      ensures ConnPlaced(s', c)
    {
      assert ConnPlaced(s, c);
    }
    forall u | 0 <= u < |s'.callers|
      ensures CallerPlaced(s', u)
    {
      if u < |s.callers| {
        assert CallerPlaced(s, u);
      }
    }
  }

  lemma GoesOn(s: State, s': State, t: nat, pc: Caller)
    requires Placed(s) && t < |s.callers| && Claim(s.callers[t], t).None? && Claim(pc, t).None?
    requires s' == At(s.(total := s'.total), t, pc)
    ensures Placed(s')
  {
    NoneMoved(s, s');
  }

  lemma Receives(s: State, t: nat, pc: Caller)
    requires Placed(s) && t < |s.callers| && Claim(s.callers[t], t).None? && s.idle != []
    requires Holds(pc) == Some(s.idle[0])
    ensures Placed(At(Moved(s, s.idle[0], With(t)).(idle := s.idle[1..]), t, pc))
  {
    var c := s.idle[0];
    TakeFirst(s.idle);
    assert ConnPlaced(s, c);
    assert c in multiset(s.idle);
    OneMoved(s, At(Moved(s, c, With(t)).(idle := s.idle[1..]), t, pc), c, t);
  }

  lemma HeldIsShut(s: State, s': State, t: nat, c: Conn, pc: Caller)
    requires Placed(s) && t < |s.callers| && Holds(s.callers[t]) == Some(c) && Claim(pc, t).None?
    requires s' == At(Closed(s, c).(leak := s'.leak), t, pc)
    ensures Placed(s')
  {
    assert CallerPlaced(s, t) && ConnPlaced(s, c);
    OneMoved(s, s', c, t);
  }

  lemma HeldIsLent(s: State, t: nat, c: Conn)
    requires Placed(s) && t < |s.callers| && Holds(s.callers[t]) == Some(c)
    ensures Placed(Tracked(s, t, c)) && c !in s.lent && c !in s.active
  {
    assert CallerPlaced(s, t) && ConnPlaced(s, c);
    OneMoved(s, Tracked(s, t, c), c, t);
  }

  lemma HeldIsQueued(s: State, t: nat, c: Conn)
    requires Placed(s) && t < |s.callers| && Holds(s.callers[t]) == Some(c)
    ensures Placed(At(Moved(s, c, InChannel).(idle := s.idle + [c]), t, Done))
  {
    assert CallerPlaced(s, t) && ConnPlaced(s, c);
    AddLast(s.idle, c);
    OneMoved(s, At(Moved(s, c, InChannel).(idle := s.idle + [c]), t, Done), c, t);
  }

  lemma LentIsTaken(s: State, t: nat, c: Conn)
    requires Placed(s) && t < |s.callers| && s.callers[t] == PutStart(c)
    ensures c in s.active && Placed(At(Moved(s, c, With(t)).(active := s.active - {c}), t, PutHave(c)))
  {
    assert CallerPlaced(s, t) && ConnPlaced(s, c);
    OneMoved(s, At(Moved(s, c, With(t)).(active := s.active - {c}), t, PutHave(c)), c, t);
  }

  lemma NewIsHeld(s: State, t: nat, c: Conn)
    requires Placed(s) && t < |s.callers| && Claim(s.callers[t], t).None? && c !in s.ever
    ensures Placed(At(Moved(s, c, With(t)).(ever := s.ever + {c}), t, Made(c)))
  {
    assert ConnPlaced(s, c);
    OneMoved(s, At(Moved(s, c, With(t)).(ever := s.ever + {c}), t, Made(c)), c, t);
  }

  lemma LentLeaves(s: State, t: nat, c: Conn)
    requires Placed(s) && t < |s.callers| && s.callers[t].Done? && c in s.lent
    ensures Placed(At(Moved(s, c, Leaving(t)).(lent := s.lent - {c}), t, PutStart(c)))
  {
    assert ConnPlaced(s, c);
    OneMoved(s, At(Moved(s, c, Leaving(t)).(lent := s.lent - {c}), t, PutStart(c)), c, t);
  }

  lemma CallerStepPlaced(s: State, t: nat, ch: Choice)
    requires Placed(s) && t < |s.callers| && CallerStep(s, t, ch).Some?
    ensures Placed(CallerStep(s, t, ch).value)
  {
    var s' := CallerStep(s, t, ch).value;
    match s.callers[t]
    case Start =>
      if s.idle == [] { GoesOn(s, s', t, Slow); } else { Receives(s, t, FastHave(s.idle[0])); }
    case Waiting =>
      if ch.giveUp { GoesOn(s, s', t, Done); } else { Receives(s, t, WaitHave(s.idle[0])); }
    case FastHave(c) =>
      if ch.bad { HeldIsShut(s, s', t, c, Slow); } else { HeldIsLent(s, t, c); }
    case WaitHave(c) =>
      if ch.bad { HeldIsShut(s, s', t, c, WaitDec); } else { HeldIsLent(s, t, c); }
    case Made(c) => HeldIsLent(s, t, c);
    case PutStart(c) => LentIsTaken(s, t, c);
    case PutHave(c) =>
      if ch.bad || |s.idle| >= s.bound { HeldIsShut(s, s', t, c, Done); } else { HeldIsQueued(s, t, c); }
    case Reserved =>
      if ch.made.None? { GoesOn(s, s', t, Unreserve); } else { NewIsHeld(s, t, ch.made.value); }
    case Slow => GoesOn(s, s', t, s'.callers[t]);
    case Cas(_) => GoesOn(s, s', t, s'.callers[t]);
    case WaitDec => GoesOn(s, s', t, Slow);
    case Unreserve => GoesOn(s, s', t, Done);
  }

  // The same for the maintenance loop.
  lemma MaintGoesOn(s: State, s': State)
    requires Placed(s) && s' == s.(total := s'.total, maint := s'.maint)
    requires forall c :: Times(Hand(s'.maint), c) == Times(Hand(s.maint), c)
    ensures Placed(s')
  {
    NoneMoved(s, s');
  }

  lemma MaintReceives(s: State, m: Maint)
    requires Placed(s) && s.idle != []
    requires forall c :: Times(Hand(m), c) == Times(Hand(s.maint), c) + if c == s.idle[0] then 1 else 0
    ensures Placed(Received(s, m))
  {
    TakeFirst(s.idle);
    assert ConnPlaced(s, s.idle[0]);
    assert s.idle[0] in multiset(s.idle);
    OneMoved(s, Received(s, m), s.idle[0], -1);
  }

  lemma MaintSends(s: State, c0: Conn, m: Maint)
    requires Placed(s) && c0 in Hand(s.maint)
    requires forall c :: Times(Hand(m), c) == Times(Hand(s.maint), c) - if c == c0 then 1 else 0
    ensures Placed(Sent(s, c0, m)) && Placed(Shut(s, c0, m)) && c0 in s.place
  {
    assert ConnPlaced(s, c0);
    assert c0 in multiset(Hand(s.maint));
    AddLast(s.idle, c0);
    OneMoved(s, Sent(s, c0, m), c0, -1);
    OneMoved(s, Shut(s, c0, m), c0, -1);
  }

  lemma MaintMakes(s: State, c0: Conn, m: Maint)
    requires Placed(s) && c0 !in s.ever
    requires forall c :: Times(Hand(m), c) == Times(Hand(s.maint), c) + if c == c0 then 1 else 0
    ensures Placed(Moved(s, c0, InMaintenance).(ever := s.ever + {c0}, maint := m))
  {
    assert ConnPlaced(s, c0);
    OneMoved(s, Moved(s, c0, InMaintenance).(ever := s.ever + {c0}, maint := m), c0, -1);
  }

  lemma HandDropped(m: Maint, m': Maint)
    requires m.hand != [] && m'.hand == m.hand[1..] && m'.back == m.back
    ensures forall c :: Times(Hand(m'), c) == Times(Hand(m), c) - if c == m.hand[0] then 1 else 0
  {
    assert Hand(m) == [m.hand[0]] + Hand(m');
    assert Hand(m)[1..] == Hand(m');
    TakeFirst(Hand(m));
  }

  lemma BackDropped(m: Maint, m': Maint)
    requires m.back != [] && m'.hand == m.hand && m'.back == m.back[1..]
    ensures forall c :: Times(Hand(m'), c) == Times(Hand(m), c) - if c == m.back[0] then 1 else 0
  {
    TakeFirst(m.back);
    assert Hand(m) == m.hand + [m.back[0]] + m'.back;
  }

  lemma HandAdded(m: Maint, m': Maint, x: Conn)
    requires (m'.hand == m.hand + [x] && m'.back == m.back) || (m'.hand == m.hand && m'.back == m.back + [x])
    ensures forall c :: Times(Hand(m'), c) == Times(Hand(m), c) + if c == x then 1 else 0
  {
  }

  lemma HandPassed(m: Maint, m': Maint)
    requires m.hand != [] && m'.hand == m.hand[1..] && m'.back == m.back + [m.hand[0]]
    ensures forall c :: Times(Hand(m'), c) == Times(Hand(m), c)
  {
    assert Hand(m) == [m.hand[0]] + (m'.hand + m.back);
    assert Hand(m') == (m'.hand + m.back) + [m.hand[0]];
    assert multiset(Hand(m')) == multiset(Hand(m));
  }

  lemma CleanupPlaced(s: State, ch: Choice)
    requires Placed(s) && MaintStep(s, ch).Some? && s.maint.phase in {Collecting, PuttingBack, Cleaning, CleanDec}
    ensures Placed(MaintStep(s, ch).value)
  {
    var s' := MaintStep(s, ch).value;
    var m, m' := s.maint, s'.maint;
    match m.phase
    case Collecting =>
      if s.idle == [] { MaintGoesOn(s, s'); } else { HandAdded(m, m', s.idle[0]); MaintReceives(s, m'); }
    case PuttingBack =>
      if |s.idle| < s.bound { BackDropped(m, m'); MaintSends(s, m.back[0], m'); }
      else { assert Hand(m') == Hand(m); MaintGoesOn(s, s'); }
    case Cleaning =>
      if m.hand == [] { MaintGoesOn(s, s'); } else { HandDropped(m, m'); MaintSends(s, m.hand[0], m'); }
    case CleanDec => MaintGoesOn(s, s');
  }

  lemma EnsuringPlaced(s: State, ch: Choice)
    requires Placed(s) && MaintStep(s, ch).Some? && s.maint.phase in {Ensuring, Creating, Counting, Sending, SendDec}
    ensures Placed(MaintStep(s, ch).value)
  {
    var s' := MaintStep(s, ch).value;
    var m, m' := s.maint, s'.maint;
    match m.phase
    case Ensuring => MaintGoesOn(s, s');
    case Creating =>
      if ch.made.None? { MaintGoesOn(s, s'); }
      else { HandAdded(m, m', ch.made.value); MaintMakes(s, ch.made.value, m'); }
    case Counting => MaintGoesOn(s, s');
    case Sending => BackDropped(m, m'); MaintSends(s, m.back[0], m');
    case SendDec => MaintGoesOn(s, s');
  }

  lemma TestingPlaced(s: State, ch: Choice)
    requires Placed(s) && MaintStep(s, ch).Some? && s.maint.phase.Testing?
    ensures Placed(MaintStep(s, ch).value)
  {
    var s' := MaintStep(s, ch).value;
    var m, m' := s.maint, s'.maint;
    if m.hand == [] {
      MaintGoesOn(s, s');
    } else if ch.bad {
      HandDropped(m, m');
      MaintSends(s, m.hand[0], m');
    } else {
      HandPassed(m, m');
      MaintGoesOn(s, s');
    }
  }

  lemma TakingPlaced(s: State, ch: Choice)
    requires Placed(s) && MaintStep(s, ch).Some? && s.maint.phase.Taking?
    ensures Placed(MaintStep(s, ch).value)
  {
    var s' := MaintStep(s, ch).value;
    var m, m' := s.maint, s'.maint;
    if m.left == 0 || s.idle == [] {
      MaintGoesOn(s, s');
    } else {
      HandAdded(m, m', s.idle[0]);
      MaintReceives(s, m');
    }
  }

  lemma ReturningPlaced(s: State, ch: Choice)
    requires Placed(s) && MaintStep(s, ch).Some? && s.maint.phase.Returning?
    ensures Placed(MaintStep(s, ch).value)
  {
    var s' := MaintStep(s, ch).value;
    var m, m' := s.maint, s'.maint;
    if m.back == [] {
      MaintGoesOn(s, s');
    } else {
      BackDropped(m, m');
      MaintSends(s, m.back[0], m');
    }
  }

  lemma HealthPlaced(s: State, ch: Choice)
    requires Placed(s) && MaintStep(s, ch).Some? && s.maint.phase in {Taking, Testing, TestDec, Returning, ReturnDec}
    ensures Placed(MaintStep(s, ch).value)
  {
    var s' := MaintStep(s, ch).value;
    match s.maint.phase
    case Taking => TakingPlaced(s, ch);
    case Testing => TestingPlaced(s, ch);
    case TestDec => MaintGoesOn(s, s');
    case Returning => ReturningPlaced(s, ch);
    case ReturnDec => MaintGoesOn(s, s');
  }

  lemma MaintStepPlaced(s: State, ch: Choice)
    requires Placed(s) && MaintStep(s, ch).Some? && (s.maint.phase.Resting? ==> Hand(s.maint) == [])
    ensures Placed(MaintStep(s, ch).value)
  {
    if s.maint.phase.Resting? {
      var s' := MaintStep(s, ch).value;
      assert Hand(s'.maint) == [];
      MaintGoesOn(s, s');
    } else if s.maint.phase in {Collecting, PuttingBack, Cleaning, CleanDec} {
      CleanupPlaced(s, ch);
    } else if s.maint.phase in {Ensuring, Creating, Counting, Sending, SendDec} {
      EnsuringPlaced(s, ch);
    } else {
      HealthPlaced(s, ch);
    }
  }

  // ------------------------------------------------------------------ all together

  /** What the phases of the maintenance loop hold, so that no phase lacks what it works on. */
  predicate Shaped(m: Maint) {
    && (m.phase in {Resting, Ensuring, Creating, SendDec} ==> Hand(m) == [])
    && (m.phase in {Collecting, Cleaning, CleanDec, Taking} ==> m.back == [])
    && (m.phase in {PuttingBack, Counting, Sending} ==> |m.back| == 1)
    && (m.phase in {Counting, Sending, Returning, ReturnDec} ==> m.hand == [])
    && (m.phase in {Creating, Counting, Sending} ==> m.left > 0)
  }

  ghost predicate Inv(s: State) {
    0 < s.bound && Shaped(s.maint) && Counted(s) && Bounded(s) && Placed(s)
  }

  lemma InitInv(s: State)
    requires Init(s) && 0 < s.bound
    ensures Inv(s)
  {
    forall c
      ensures ConnPlaced(s, c)
    {
      OnceEach(s.idle, c);
    }
    DistinctSize(s.idle);
  }

  lemma {:induction false} DistinctSize(q: seq<Conn>)
    requires Distinct(q)
    ensures |Elements(q)| == |q|
  {
    if q == [] {
    } else {
      var front, x := q[..|q| - 1], q[|q| - 1];
      DistinctSize(front);
      assert q == front + [x];
      assert x !in front;
      assert Elements(q) == Elements(front) + {x};
    }
  }

  // A connection comes into being, or is closed: the number of open ones changes by one.
  lemma OpenChanges(m: map<Conn, Place>, c: Conn, p: Place)
    ensures c in m ==> |(m - {c}).Keys| == |m.Keys| - 1 && m[c := p].Keys == m.Keys
    ensures c !in m ==> |m[c := p].Keys| == |m.Keys| + 1
  {
    assert (m - {c}).Keys == m.Keys - {c};
    assert m[c := p].Keys == m.Keys + {c};
  }

  // What is in the channel or with a caller or in maintenance is open.
  ghost predicate KnownOpen(s: State, t: int) {
    && Open(s) <= s.ever
    && (s.idle != [] ==> s.idle[0] in s.place)
    && (s.maint.hand != [] ==> s.maint.hand[0] in s.place)
    && (s.maint.back != [] ==> s.maint.back[0] in s.place)
    && (0 <= t < |s.callers| && Claim(s.callers[t], t).Some? ==> Claim(s.callers[t], t).value.0 in s.place)
  }

  lemma PlacedIsOpen(s: State, t: int)
    requires Placed(s)
    ensures KnownOpen(s, t)
  {
    forall c
      ensures c in s.idle || c in Hand(s.maint) ==> c in s.place
    {
      assert ConnPlaced(s, c);
      assert c in s.idle ==> c in multiset(s.idle);
      assert c in Hand(s.maint) ==> c in multiset(Hand(s.maint));
    }
    if s.maint.hand != [] { assert Hand(s.maint)[0] == s.maint.hand[0]; }
    if s.maint.back != [] { assert Hand(s.maint)[|s.maint.hand|] == s.maint.back[0]; }
    if 0 <= t < |s.callers| { assert CallerPlaced(s, t); }
  }

  // A step of one caller keeps the count if what it adds to the total it adds elsewhere.
  lemma CallerCounts(s: State, s': State, t: nat, grown: int)
    requires Counted(s) && t < |s.callers| && |s'.callers| == |s.callers| && s'.callers == s.callers[t := s'.callers[t]]
    requires s'.maint == s.maint && |Open(s')| == |Open(s)| + grown
    requires s'.total - s.total == grown + Extra(s'.callers[t]) - Extra(s.callers[t]) + s'.leak - s.leak
    ensures Counted(s')
  {
    ExtraAfter(s.callers, t, s'.callers[t]);
  }

  lemma ReceiveStepCounted(s: State, t: nat, ch: Choice)
    requires t < |s.callers| && CallerStep(s, t, ch).Some? && KnownOpen(s, t) && Counted(s)
    requires s.callers[t].Start? || s.callers[t].Waiting?
    ensures Counted(CallerStep(s, t, ch).value)
  {
    var s' := CallerStep(s, t, ch).value;
    if s.idle != [] {
      OpenChanges(s.place, s.idle[0], With(t));
    }
    CallerCounts(s, s', t, 0);
  }

  lemma ValidateStepCounted(s: State, t: nat, ch: Choice)
    requires t < |s.callers| && CallerStep(s, t, ch).Some? && KnownOpen(s, t) && Counted(s)
    requires s.callers[t].FastHave? || s.callers[t].WaitHave?
    ensures Counted(CallerStep(s, t, ch).value)
  {
    var s' := CallerStep(s, t, ch).value;
    OpenChanges(s.place, s.callers[t].conn, Lent);
    CallerCounts(s, s', t, if ch.bad then -1 else 0);
  }

  lemma LoopStepCounted(s: State, t: nat, ch: Choice)
    requires t < |s.callers| && CallerStep(s, t, ch).Some? && Counted(s)
    requires s.callers[t].Slow? || s.callers[t].Cas?
    ensures Counted(CallerStep(s, t, ch).value)
  {
    CallerCounts(s, CallerStep(s, t, ch).value, t, 0);
  }

  lemma SettleStepCounted(s: State, t: nat, ch: Choice)
    requires t < |s.callers| && CallerStep(s, t, ch).Some? && Counted(s)
    requires s.callers[t].WaitDec? || s.callers[t].Unreserve? || (s.callers[t].Reserved? && ch.made.None?)
    ensures Counted(CallerStep(s, t, ch).value)
  {
    CallerCounts(s, CallerStep(s, t, ch).value, t, 0);
  }

  lemma CreateStepCounted(s: State, t: nat, ch: Choice)
    requires t < |s.callers| && CallerStep(s, t, ch).Some? && KnownOpen(s, t) && Counted(s)
    requires s.callers[t].Reserved? && ch.made.Some?
    ensures Counted(CallerStep(s, t, ch).value)
  {
    OpenChanges(s.place, ch.made.value, With(t));
    CallerCounts(s, CallerStep(s, t, ch).value, t, 1);
  }

  lemma ReserveStepCounted(s: State, t: nat, ch: Choice)
    requires t < |s.callers| && CallerStep(s, t, ch).Some? && KnownOpen(s, t) && Counted(s)
    requires s.callers[t].Slow? || s.callers[t].Cas? || s.callers[t].WaitDec? || s.callers[t].Unreserve?
               || s.callers[t].Reserved?
    ensures Counted(CallerStep(s, t, ch).value)
  {
    if s.callers[t].Slow? || s.callers[t].Cas? {
      LoopStepCounted(s, t, ch);
    } else if s.callers[t].Reserved? && ch.made.Some? {
      CreateStepCounted(s, t, ch);
    } else {
      SettleStepCounted(s, t, ch);
    }
  }

  lemma TrackStepCounted(s: State, t: nat, ch: Choice)
    requires t < |s.callers| && CallerStep(s, t, ch).Some? && KnownOpen(s, t) && Counted(s) && s.callers[t].Made?
    ensures Counted(CallerStep(s, t, ch).value)
  {
    OpenChanges(s.place, s.callers[t].conn, Lent);
    CallerCounts(s, CallerStep(s, t, ch).value, t, 0);
  }

  lemma TakeBackStepCounted(s: State, t: nat, ch: Choice)
    requires t < |s.callers| && CallerStep(s, t, ch).Some? && KnownOpen(s, t) && Counted(s) && s.callers[t].PutStart?
    ensures Counted(CallerStep(s, t, ch).value)
  {
    OpenChanges(s.place, s.callers[t].conn, With(t));
    CallerCounts(s, CallerStep(s, t, ch).value, t, 0);
  }

  lemma RequeueStepCounted(s: State, t: nat, ch: Choice)
    requires t < |s.callers| && CallerStep(s, t, ch).Some? && KnownOpen(s, t) && Counted(s) && s.callers[t].PutHave?
    ensures Counted(CallerStep(s, t, ch).value)
  {
    OpenChanges(s.place, s.callers[t].conn, InChannel);
    CallerCounts(s, CallerStep(s, t, ch).value, t, if ch.bad || |s.idle| >= s.bound then -1 else 0);
  }

  lemma PutStepCounted(s: State, t: nat, ch: Choice)
    requires t < |s.callers| && CallerStep(s, t, ch).Some? && KnownOpen(s, t) && Counted(s)
    requires s.callers[t].Made? || s.callers[t].PutStart? || s.callers[t].PutHave?
    ensures Counted(CallerStep(s, t, ch).value)
  {
    if s.callers[t].Made? {
      TrackStepCounted(s, t, ch);
    } else if s.callers[t].PutStart? {
      TakeBackStepCounted(s, t, ch);
    } else {
      RequeueStepCounted(s, t, ch);
    }
  }

  lemma CallerStepBounded(s: State, t: nat, ch: Choice)
    requires t < |s.callers| && CallerStep(s, t, ch).Some? && Bounded(s)
    ensures Bounded(CallerStep(s, t, ch).value)
  {
    var s' := CallerStep(s, t, ch).value;
    CallerKeepsMaint(s, t, ch);
    CallerTotal(s, t, ch);
    forall u | 0 <= u < |s'.callers| && s'.callers[u].Cas?
      ensures s'.callers[u].seen < s'.bound
    {
      if u != t {
        assert s'.callers[u] == s.callers[u];
      }
    }
  }

  lemma OnlyCallerChanges(s: State, t: nat, ch: Choice)
    requires t < |s.callers| && CallerStep(s, t, ch).Some?
    ensures CallerStep(s, t, ch).value.callers == s.callers[t := CallerStep(s, t, ch).value.callers[t]]
  {
  }

  lemma TotalGrowsByCas(s: State, t: nat, ch: Choice)
    requires t < |s.callers| && CallerStep(s, t, ch).Some?
    ensures var s' := CallerStep(s, t, ch).value;
            s'.total <= s.total || (s.callers[t] == Cas(s.total) && s'.total == s.total + 1)
  {
  }

  lemma CallerTotal(s: State, t: nat, ch: Choice)
    requires t < |s.callers| && CallerStep(s, t, ch).Some?
    ensures var s' := CallerStep(s, t, ch).value;
            && s'.callers == s.callers[t := s'.callers[t]]
            && (s'.total <= s.total || (s.callers[t] == Cas(s.total) && s'.total == s.total + 1))
            && (s'.callers[t].Cas? ==> s.callers[t].Slow? && s'.callers[t] == Cas(s.total) && s.total < s.bound)
  {
    OnlyCallerChanges(s, t, ch);
    TotalGrowsByCas(s, t, ch);
  }

  lemma MaintCounts(s: State, s': State, grown: int)
    requires Counted(s) && s'.callers == s.callers && s'.leak == s.leak && |Open(s')| == |Open(s)| + grown
    requires s'.total - s.total == grown + MaintExtra(s'.maint.phase) - MaintExtra(s.maint.phase)
    ensures Counted(s')
  {
  }

  lemma TakingCounted(s: State, ch: Choice)
    requires MaintStep(s, ch).Some? && KnownOpen(s, -1) && Counted(s) && s.maint.phase in {Collecting, Taking}
    ensures Counted(MaintStep(s, ch).value)
  {
    if s.idle != [] { OpenChanges(s.place, s.idle[0], InMaintenance); }
    MaintCounts(s, MaintStep(s, ch).value, 0);
  }

  lemma SendingCounted(s: State, ch: Choice)
    requires MaintStep(s, ch).Some? && KnownOpen(s, -1) && Counted(s)
               && s.maint.phase in {PuttingBack, Sending, Returning}
    ensures Counted(MaintStep(s, ch).value)
  {
    var m := s.maint;
    if m.back != [] { OpenChanges(s.place, m.back[0], InChannel); }
    var grown := if m.back != [] && !m.phase.PuttingBack? && |s.idle| >= s.bound then -1 else 0;
    MaintCounts(s, MaintStep(s, ch).value, grown);
  }

  lemma ShuttingCounted(s: State, ch: Choice)
    requires MaintStep(s, ch).Some? && KnownOpen(s, -1) && Counted(s) && s.maint.phase in {Cleaning, Testing}
    ensures Counted(MaintStep(s, ch).value)
  {
    var m := s.maint;
    if m.hand != [] { OpenChanges(s.place, m.hand[0], InChannel); }
    MaintCounts(s, MaintStep(s, ch).value, if m.hand != [] && (m.phase.Cleaning? || ch.bad) then -1 else 0);
  }

  lemma OtherwiseCounted(s: State, ch: Choice)
    requires MaintStep(s, ch).Some? && KnownOpen(s, -1) && Counted(s)
    requires s.maint.phase !in {Collecting, Taking, PuttingBack, Sending, Returning, Cleaning, Testing}
    ensures Counted(MaintStep(s, ch).value)
  {
    if s.maint.phase.Creating? && ch.made.Some? {
      OpenChanges(s.place, ch.made.value, InMaintenance);
      MaintCounts(s, MaintStep(s, ch).value, 1);
    } else {
      MaintCounts(s, MaintStep(s, ch).value, 0);
    }
  }

  lemma MaintStepCounted(s: State, ch: Choice)
    requires MaintStep(s, ch).Some? && KnownOpen(s, -1) && Counted(s)
    ensures Counted(MaintStep(s, ch).value)
  {
    if s.maint.phase in {Collecting, Taking} {
      TakingCounted(s, ch);
    } else if s.maint.phase in {PuttingBack, Sending, Returning} {
      SendingCounted(s, ch);
    } else if s.maint.phase in {Cleaning, Testing} {
      ShuttingCounted(s, ch);
    } else {
      OtherwiseCounted(s, ch);
    }
  }

  lemma CleanupBounded(s: State, ch: Choice)
    requires MaintStep(s, ch).Some? && Bounded(s)
               && s.maint.phase in {Resting, Collecting, PuttingBack, Cleaning, CleanDec}
    ensures Bounded(MaintStep(s, ch).value)
  {
  }

  lemma EnsuringBounded(s: State, ch: Choice)
    requires MaintStep(s, ch).Some? && Bounded(s) && s.maint.phase in {Ensuring, Creating, Counting, Sending, SendDec}
    ensures Bounded(MaintStep(s, ch).value)
  {
  }

  lemma HealthBounded(s: State, ch: Choice)
    requires MaintStep(s, ch).Some? && Bounded(s) && s.maint.phase in {Taking, Testing, TestDec, Returning, ReturnDec}
    ensures Bounded(MaintStep(s, ch).value)
  {
  }

  lemma MaintStepBounded(s: State, ch: Choice)
    requires MaintStep(s, ch).Some? && Bounded(s)
    ensures Bounded(MaintStep(s, ch).value)
  {
    if s.maint.phase in {Resting, Collecting, PuttingBack, Cleaning, CleanDec} {
      CleanupBounded(s, ch);
    } else if s.maint.phase in {Ensuring, Creating, Counting, Sending, SendDec} {
      EnsuringBounded(s, ch);
    } else {
      HealthBounded(s, ch);
    }
  }

  lemma CleanupShaped(s: State, ch: Choice)
    requires MaintStep(s, ch).Some? && Shaped(s.maint)
    requires s.maint.phase in {Resting, Collecting, PuttingBack, Cleaning, CleanDec}
    ensures Shaped(MaintStep(s, ch).value.maint)
  {
  }

  lemma EnsuringShaped(s: State, ch: Choice)
    requires MaintStep(s, ch).Some? && Shaped(s.maint)
    requires s.maint.phase in {Ensuring, Creating, Counting, Sending, SendDec}
    ensures Shaped(MaintStep(s, ch).value.maint)
  {
  }

  lemma HealthShaped(s: State, ch: Choice)
    requires MaintStep(s, ch).Some? && Shaped(s.maint)
    requires s.maint.phase in {Taking, Testing, TestDec, Returning, ReturnDec}
    ensures Shaped(MaintStep(s, ch).value.maint)
  {
  }

  lemma MaintStepShaped(s: State, ch: Choice)
    requires MaintStep(s, ch).Some? && Shaped(s.maint)
    ensures Shaped(MaintStep(s, ch).value.maint)
  {
    if s.maint.phase in {Resting, Collecting, PuttingBack, Cleaning, CleanDec} {
      CleanupShaped(s, ch);
    } else if s.maint.phase in {Ensuring, Creating, Counting, Sending, SendDec} {
      EnsuringShaped(s, ch);
    } else {
      HealthShaped(s, ch);
    }
  }

  lemma BeginPutInv(s: State, t: nat, c: Conn)
    requires Inv(s) && Next(s, BeginPut(t, c)).Some?
    ensures Inv(Next(s, BeginPut(t, c)).value)
  {
    LentLeaves(s, t, c);
    assert ConnPlaced(s, c);
    OpenChanges(s.place, c, Leaving(t));
    ExtraAfter(s.callers, t, PutStart(c));
  }

  lemma ExtraOfOneMore(callers: seq<Caller>, pc: Caller)
    ensures ExtraOfAll(callers + [pc]) == ExtraOfAll(callers) + Extra(pc)
  {
    assert (callers + [pc])[..|callers|] == callers;
  }

  lemma SpawnCounted(s: State, s': State)
    requires Counted(s) && s' == s.(callers := s.callers + [Done])
    ensures Counted(s')
  {
    ExtraOfOneMore(s.callers, Done);
  }

  lemma SpawnBounded(s: State, s': State)
    requires Bounded(s) && s' == s.(callers := s.callers + [Done])
    ensures Bounded(s')
  {
    forall u | 0 <= u < |s'.callers| && s'.callers[u].Cas?
      ensures s'.callers[u].seen < s'.bound
    {
      assert u < |s.callers| && s'.callers[u] == s.callers[u];
    }
  }

  lemma SpawnInv(s: State)
    requires Inv(s)
    ensures Inv(s.(callers := s.callers + [Done]))
  {
    var s' := s.(callers := s.callers + [Done]);
    SpawnCounted(s, s');
    SpawnBounded(s, s');
    NoneMoved(s, s');
  }

  lemma BeginGetInv(s: State, t: nat)
    requires Inv(s) && t < |s.callers| && s.callers[t].Done?
    ensures Inv(At(s, t, Start))
  {
    GoesOn(s, At(s, t, Start), t, Start);
    ExtraAfter(s.callers, t, Start);
  }

  lemma StepInv(s: State, t: nat, ch: Choice)
    requires Inv(s) && t < |s.callers| && CallerStep(s, t, ch).Some?
    ensures Inv(CallerStep(s, t, ch).value)
  {
    PlacedIsOpen(s, t);
    CallerStepPlaced(s, t, ch);
    CallerStepBounded(s, t, ch);
    var pc := s.callers[t];
    if pc.Start? || pc.Waiting? {
      ReceiveStepCounted(s, t, ch);
    } else if pc.FastHave? || pc.WaitHave? {
      ValidateStepCounted(s, t, ch);
    } else if pc.Made? || pc.PutStart? || pc.PutHave? {
      PutStepCounted(s, t, ch);
    } else {
      ReserveStepCounted(s, t, ch);
    }
    CallerKeepsMaint(s, t, ch);
  }

  lemma CallerKeepsMaint(s: State, t: nat, ch: Choice)
    requires t < |s.callers| && CallerStep(s, t, ch).Some?
    ensures CallerStep(s, t, ch).value.maint == s.maint && CallerStep(s, t, ch).value.bound == s.bound
  {
  }

  lemma MaintInv(s: State, ch: Choice)
    requires Inv(s) && MaintStep(s, ch).Some?
    ensures Inv(MaintStep(s, ch).value)
  {
    PlacedIsOpen(s, -1);
    MaintStepPlaced(s, ch);
    MaintStepCounted(s, ch);
    MaintStepBounded(s, ch);
    MaintStepShaped(s, ch);
    BoundStays(s, Maintain(ch));
  }

  /** Every step keeps the invariant. */
  lemma NextInv(s: State, a: Action)
    requires Inv(s) && Next(s, a).Some?
    ensures Inv(Next(s, a).value)
  {
    match a
    case Spawn => SpawnInv(s);
    case BeginGet(t) => BeginGetInv(s, t);
    case BeginPut(t, c) => BeginPutInv(s, t, c);
    case Step(t, ch) => StepInv(s, t, ch);
    case Maintain(ch) => MaintInv(s, ch);
  }

  /** A run: actions taken one after the other, as long as each is possible. */
  function Run(s: State, acts: seq<Action>): Option<State>
    decreases |acts|
  {
    if acts == [] then Some(s)
    else if Next(s, acts[0]).None? then None
    else Run(Next(s, acts[0]).value, acts[1..])
  }

  lemma {:induction false} RunInv(s: State, acts: seq<Action>)
    requires Inv(s) && Run(s, acts).Some?
    ensures Inv(Run(s, acts).value) && Run(s, acts).value.bound == s.bound
    decreases |acts|
  {
    if acts == [] {
    } else {
      NextInv(s, acts[0]);
      BoundStays(s, acts[0]);
      RunInv(Next(s, acts[0]).value, acts[1..]);
    }
  }

  lemma BoundStays(s: State, a: Action)
    ensures Next(s, a).Some? ==> Next(s, a).value.bound == s.bound
  {
  }

  /** The safety theorem: in every reachable state the total and the number of open
      connections exceed the bound by one at most, and no lent connection is in the channel. */
  lemma NeverMoreThanOneOver(s: State, acts: seq<Action>)
    requires Init(s) && 0 < s.bound && Run(s, acts).Some?
    ensures var u := Run(s, acts).value;
            && u.total == |Open(u)| + ExtraOfAll(u.callers) + MaintExtra(u.maint.phase) + u.leak
            && u.total <= s.bound + 1 && |Open(u)| <= s.bound + 1
            && forall c :: c in u.lent ==> c in u.active && c !in u.idle && c !in Hand(u.maint)
  {
    var u := Run(s, acts).value;
    InitInv(s);
    RunInv(s, acts);
    ExtraIsNatural(u.callers);
    forall c | c in u.lent
      ensures c in u.active && c !in u.idle && c !in Hand(u.maint)
    {
      LentIsNowhereElse(u, c);
    }
  }

  lemma LentIsNowhereElse(s: State, c: Conn)
    requires ConnPlaced(s, c) && c in s.lent
    ensures c in s.active && c !in s.idle && c !in Hand(s.maint)
  {
    assert c in s.idle <==> c in multiset(s.idle);
    assert c in Hand(s.maint) <==> c in multiset(Hand(s.maint));
  }

  /** No connection is lent to two callers: what Get hands out was not lent before. */
  lemma GetLendsAfresh(s: State, t: nat, ch: Choice, c: Conn)
    requires Inv(s) && Next(s, Step(t, ch)).Some?
    requires Holds(s.callers[t]) == Some(c) && !s.callers[t].PutHave?
    ensures Next(s, Step(t, ch)).value.lent == (if ch.bad && !s.callers[t].Made? then s.lent else s.lent + {c})
    ensures c !in s.lent && c !in s.active
  {
    assert CallerPlaced(s, t) && ConnPlaced(s, c);
  }

  /** A caller closes only what it holds, and only if that is bad, or if it is given back and the
      channel is full; and what it holds and finds bad it does close. */
  lemma CallersCloseTheBad(s: State, t: nat, ch: Choice, c: Conn)
    requires Inv(s) && Next(s, Step(t, ch)).Some? && c in Open(s)
    ensures c !in Open(Next(s, Step(t, ch)).value) <==>
              Holds(s.callers[t]) == Some(c) && !s.callers[t].Made?
              && (ch.bad || (s.callers[t].PutHave? && |s.idle| >= s.bound))
  {
    assert CallerPlaced(s, t);
  }

  /** A healthy connection that is given back while the channel has room is its last; one that is
      closed keeps its slot of the total. */
  lemma PutGivesBack(s: State, t: nat, ch: Choice, c: Conn)
    requires Next(s, Step(t, ch)).Some? && s.callers[t] == PutHave(c)
    ensures var u := Next(s, Step(t, ch)).value;
            && u.total == s.total && u.callers[t] == Done
            && (!ch.bad && |s.idle| < s.bound ==> u.idle == s.idle + [c] && c in Open(u) && u.leak == s.leak)
            && (ch.bad || |s.idle| >= s.bound ==> u.idle == s.idle && c !in Open(u) && u.leak == s.leak + 1)
  {
  }

  /** Callers take connections from the front of the channel, and put them at its end. */
  lemma CallersQueue(s: State, t: nat, ch: Choice)
    requires Next(s, Step(t, ch)).Some?
    ensures var idle := Next(s, Step(t, ch)).value.idle;
            || idle == s.idle || (s.idle != [] && idle == s.idle[1..])
            || (s.callers[t].PutHave? && idle == s.idle + [s.callers[t].conn])
  {
  }

  /** Maintenance closes what it has found bad, and what it cannot send back because the channel is
      full, and nothing else. */
  lemma MaintenanceClosesTheBad(s: State, ch: Choice, c: Conn)
    requires Next(s, Maintain(ch)).Some? && c in Open(s) && c !in Open(Next(s, Maintain(ch)).value)
    ensures var m := s.maint;
            || (m.phase.Testing? && ch.bad && m.hand != [] && c == m.hand[0])
            || (m.phase.Cleaning? && m.hand != [] && c == m.hand[0])
            || ((m.phase.Returning? || m.phase.Sending?) && m.back != [] && c == m.back[0] && |s.idle| >= s.bound)
  {
  }

  /** What it works on: the worn connections in front are collected to be closed, up to the first
      good one, which goes back to the end of the channel if there is room. */
  lemma MaintenanceCollects(s: State, ch: Choice)
    requires Next(s, Maintain(ch)).Some?
    ensures var m, m' := s.maint, Next(s, Maintain(ch)).value.maint;
            && (m.phase.Collecting? && s.idle != [] ==>
                  if ch.bad then m'.phase.Collecting? && m'.hand == m.hand + [s.idle[0]] && m'.back == m.back
                  else m'.phase.PuttingBack? && m'.hand == m.hand && m'.back == m.back + [s.idle[0]])
            && (m.phase.PuttingBack? && m.back != [] && |s.idle| < s.bound ==>
                  Next(s, Maintain(ch)).value.idle == s.idle + [m.back[0]] && m'.hand == m.hand)
  {
  }

  /** And what it tests it keeps if it is healthy, to send it back as long as there is room. */
  lemma MaintenanceTests(s: State, ch: Choice)
    requires Next(s, Maintain(ch)).Some? && s.maint.hand + s.maint.back != []
    ensures var m, m' := s.maint, Next(s, Maintain(ch)).value.maint;
            && (m.phase.Testing? && m.hand != [] ==>
                  m'.hand == m.hand[1..] && m'.back == if ch.bad then m.back else m.back + [m.hand[0]])
            && (m.phase.Returning? && m.back != [] && |s.idle| < s.bound ==>
                  Next(s, Maintain(ch)).value.idle == s.idle + [m.back[0]])
  {
  }

  /** Maintenance can always take a step. */
  lemma MaintenanceNeverStuck(s: State, ch: Choice)
    requires Shaped(s.maint) && ch.made.None?
    ensures MaintStep(s, ch).Some?
  {
  }

  // ------------------------------------------------------------- the bound is reached

  /** The total rises above the bound exactly when maintenance, having read it while it was
      below, counts what it has created after the others have filled all slots. */
  lemma OnlyCountingExceeds(s: State, a: Action)
    requires Inv(s) && Next(s, a).Some? && s.total <= s.bound
    ensures Next(s, a).value.total > s.bound <==> a.Maintain? && s.maint.phase.Counting? && s.total == s.bound
  {
    BoundStays(s, a);
  }

  // How many connections maintenance finds missing is the minimum less the idle ones.
  predicate Finds(s: State, a: Action, minIdle: nat) {
    a.Maintain? && s.maint.phase.Cleaning? && s.maint.hand == [] ==>
      a.ch.missing == if |s.idle| < minIdle then minIdle - |s.idle| else 0
  }

  /** A run from s to v in a pool with that minimum of idle connections. */
  ghost predicate Leads(s: State, acts: seq<Action>, v: State, minIdle: nat)
    decreases |acts|
  {
    if acts == [] then s == v
    else Next(s, acts[0]).Some? && Finds(s, acts[0], minIdle) && Leads(Next(s, acts[0]).value, acts[1..], v, minIdle)
  }

  lemma {:induction false} LeadsIsRun(s: State, acts: seq<Action>, v: State, minIdle: nat)
    requires Leads(s, acts, v, minIdle)
    ensures Run(s, acts) == Some(v)
    decreases |acts|
  {
    if acts == [] {
    } else {
      LeadsIsRun(Next(s, acts[0]).value, acts[1..], v, minIdle);
    }
  }

  ghost predicate Reaches(s: State, v: State, minIdle: nat) {
    exists acts :: Leads(s, acts, v, minIdle)
  }

  lemma {:induction false} LeadsOn(s: State, acts: seq<Action>, mid: State, a: Action, v: State, minIdle: nat)
    requires Leads(s, acts, mid, minIdle) && Next(mid, a) == Some(v) && Finds(mid, a, minIdle)
    ensures Leads(s, acts + [a], v, minIdle)
    decreases |acts|
  {
    if acts == [] {
      assert [a][1..] == [] && acts + [a] == [a];
    } else {
      assert (acts + [a])[1..] == acts[1..] + [a];
      LeadsOn(Next(s, acts[0]).value, acts[1..], mid, a, v, minIdle);
    }
  }

  lemma OneStepOn(s: State, mid: State, a: Action, v: State, minIdle: nat)
    requires Reaches(s, mid, minIdle) && Next(mid, a) == Some(v) && Finds(mid, a, minIdle)
    ensures Reaches(s, v, minIdle)
  {
    var acts :| Leads(s, acts, mid, minIdle);
    LeadsOn(s, acts, mid, a, v, minIdle);
  }

  const LOOK := Choice(true, None, false, true, 1)

  function Create(c: Conn): Choice {
    Choice(false, Some(c), false, false, 0)
  }

  // A pool with one idle connection, its minimum.
  function OneIdle(bound: nat): State {
    State(bound, 1, [0], {}, {}, map[0 := InChannel], {0}, 0, [], Maint(Resting, [], [], 0))
  }

  // The one idle connection is worn and gone, and maintenance is about to replace it.
  function Replacing(bound: nat, phase: Phase, left: nat): State {
    State(bound, 0, [], {}, {}, map[], {0}, 0, [], Maint(phase, [], [], left))
  }

  lemma OneIsWorn(bound: nat)
    requires bound > 0
    ensures Init(OneIdle(bound)) && Reaches(OneIdle(bound), Replacing(bound, Cleaning, 0), 1)
  {
    var s0, a := OneIdle(bound), Maintain(LOOK);
    var s1 := s0.(maint := Maint(Collecting, [], [], 0));
    var s2 := s1.(idle := [], place := map[0 := InMaintenance], maint := Maint(Collecting, [0], [], 0));
    var s3 := s2.(maint := Maint(Cleaning, [0], [], 0));
    var s4 := s3.(place := map[], maint := Maint(CleanDec, [], [], 0));
    assert Leads(s0, [], s0, 1);
    OneStepOn(s0, s0, a, s1, 1);
    assert s1.idle[1..] == [] && s1.maint.hand + [0] == [0] && s1.place[0 := InMaintenance] == map[0 := InMaintenance];
    OneStepOn(s0, s1, a, s2, 1);
    OneStepOn(s0, s2, a, s3, 1);
    assert s3.place - {0} == map[] && s3.maint.hand[1..] == [];
    OneStepOn(s0, s3, a, s4, 1);
    OneStepOn(s0, s4, a, Replacing(bound, Cleaning, 0), 1);
  }

  lemma OneIsMissing(bound: nat)
    requires bound > 0
    ensures Init(OneIdle(bound)) && Reaches(OneIdle(bound), Replacing(bound, Creating, 1), 1)
  {
    OneIsWorn(bound);
    OneStepOn(OneIdle(bound), Replacing(bound, Cleaning, 0), Maintain(LOOK), Replacing(bound, Ensuring, 1), 1);
    OneStepOn(OneIdle(bound), Replacing(bound, Ensuring, 1), Maintain(LOOK), Replacing(bound, Creating, 1), 1);
  }

  function AllReserved(n: nat): (r: seq<Caller>)
    ensures |r| == n && forall i :: 0 <= i < n ==> r[i] == Reserved
  {
    seq(n, _ => Reserved)
  }

  // One more caller, with its own Get, reserves a slot.
  lemma CallerReserves(s0: State, s: State, s': State, minIdle: nat)
    requires Reaches(s0, s, minIdle) && s.idle == [] && s.total < s.bound
    requires s' == s.(callers := s.callers + [Reserved], total := s.total + 1)
    ensures Reaches(s0, s', minIdle)
  {
    var n, front, a := |s.callers|, s.callers, Step(|s.callers|, LOOK);
    var u1, u2 := s.(callers := front + [Done]), s.(callers := front + [Start]);
    var u3, u4 := s.(callers := front + [Slow]), s.(callers := front + [Cas(s.total)]);
    OneStepOn(s0, s, Spawn, u1, minIdle);
    assert u1.callers[n := Start] == u2.callers && u2.callers[n := Slow] == u3.callers;
    OneStepOn(s0, u1, BeginGet(n), u2, minIdle);
    OneStepOn(s0, u2, a, u3, minIdle);
    assert u3.callers[n := Cas(s.total)] == u4.callers && u4.callers[n := Reserved] == s'.callers;
    OneStepOn(s0, u3, a, u4, minIdle);
    OneStepOn(s0, u4, a, s', minIdle);
  }

  // From k slots that are reserved to all of them.
  lemma {:induction false} CallersReserve(s0: State, s: State, k: nat, minIdle: nat)
    requires Reaches(s0, s, minIdle) && s.idle == [] && k <= s.bound && s.total == k && s.callers == AllReserved(k)
    ensures Reaches(s0, s.(callers := AllReserved(s.bound), total := s.bound), minIdle)
    decreases s.bound - k
  {
    if k == s.bound {
    } else {
      var s' := s.(callers := AllReserved(k + 1), total := k + 1);
      assert AllReserved(k + 1) == s.callers + [Reserved];
      CallerReserves(s0, s, s', minIdle);
      CallersReserve(s0, s', k + 1, minIdle);
    }
  }

  // The first k callers have created their connections, with numbers below that.
  ghost predicate Created(s: State, k: nat, unused: Conn) {
    && k <= |s.callers| && (forall t :: k <= t < |s.callers| ==> s.callers[t].Reserved?)
    && Open(s) <= s.ever && forall c :: c in s.ever ==> c < unused
  }

  // The other callers create theirs as well.
  lemma {:induction false} CallersCreate(s0: State, s: State, k: nat, unused: Conn, minIdle: nat) returns (v: State)
    requires Reaches(s0, s, minIdle) && Created(s, k, unused)
    ensures Reaches(s0, v, minIdle) && v.total == s.total && |Open(v)| == |Open(s)| + |s.callers| - k
    decreases |s.callers| - k
  {
    if k == |s.callers| {
      v := s;
    } else {
      var s' := CallerStep(s, k, Create(unused)).value;
      assert Open(s') == Open(s) + {unused};
      OneStepOn(s0, s, Step(k, Create(unused)), s', minIdle);
      v := CallersCreate(s0, s', k + 1, unused + 1, minIdle);
    }
  }

  /** One more than the bound is reached, whatever the bound, by the total and by the open
      connections: a pool with a minimum of one idle connection finds it worn and closes it;
      maintenance reads the total while it is below the bound, callers reserve all slots, and
      then maintenance counts the connection it creates and the callers create theirs. */
  lemma OneOverIsReached(bound: nat)
    requires bound > 0
    ensures exists s, acts, v :: Init(s) && s.bound == bound && Leads(s, acts, v, |s.idle|) && Run(s, acts) == Some(v)
              && v.total == bound + 1 && |Open(v)| == bound + 1
  {
    var s0 := OneIdle(bound);
    var s1 := Replacing(bound, Creating, 1);
    var s2 := s1.(callers := AllReserved(bound), total := bound);
    var s3 := s2.(place := map[1 := InMaintenance], ever := {0, 1}, maint := Maint(Counting, [], [1], 1));
    var s4 := s3.(total := bound + 1, maint := Maint(Sending, [], [1], 1));
    OneIsMissing(bound);
    assert s1.callers == AllReserved(0);
    CallersReserve(s0, s1, 0, 1);
    assert s2.maint.back + [1] == [1] && s2.ever + {1} == {0, 1}
             && s2.place[1 := InMaintenance] == map[1 := InMaintenance];
    OneStepOn(s0, s2, Maintain(Create(1)), s3, 1);
    OneStepOn(s0, s3, Maintain(LOOK), s4, 1);
    assert Open(s4) == {1};
    var v := CallersCreate(s0, s4, 0, 2, 1);
    var acts :| Leads(s0, acts, v, 1);
    LeadsIsRun(s0, acts, v, 1);
    assert |s0.idle| == 1;
  }
}
