/** The candle store's connection pool, and the callers, timers and close around it. */
module CandlePool {
  import opened Wrappers

  /* First the critical sections, on the pool's own fields. Then the system around them: any
     number of callers, idle timers and one close, interleaved in any order, each event one
     section or one step outside the lock. A connection is a number, given in the order in
     which connections are opened. */

  const POOL_MAX_CAP := 2

  // ----- what each critical section does to the pool

  datatype Pool = Pool(idle: seq<nat>, out: int, closed: bool, maxSize: nat) {
    predicate Valid() {
      1 <= maxSize <= POOL_MAX_CAP
    }
  }

  datatype Grant = PoolClosed | Reuse(conn: nat) | Spawn | Exhausted

  /** A caller's turn in the lock: the newest idle connection, else a slot to connect in. */
  function Grab(p: Pool): (Pool, Grant) {
    if p.closed then (p, PoolClosed)
    else if p.idle != [] then
      (p.(idle := p.idle[..|p.idle| - 1], out := p.out + 1), Reuse(p.idle[|p.idle| - 1]))
    else if p.out < p.maxSize then (p.(out := p.out + 1), Spawn)
    else (p, Exhausted)
  }

  function Clipped(n: int): int {
    if n > 0 then n else 0
  }

  function PutBack(p: Pool, conn: nat, dead: bool): Pool {
    var q := p.(out := Clipped(p.out - 1));
    if p.closed || dead then q else q.(idle := q.idle + [conn])
  }

  function GiveUp(p: Pool): Pool {
    p.(out := p.out - 1)
  }

  /** The list without the first occurrence of `conn`. */
  function Without(idle: seq<nat>, conn: nat): seq<nat> {
    if idle == [] then []
    else if idle[0] == conn then idle[1..]
    else [idle[0]] + Without(idle[1..], conn)
  }

  function Retire(p: Pool, conn: nat): Pool {
    p.(idle := Without(p.idle, conn))
  }

  function Close(p: Pool): Pool {
    p.(idle := [], closed := true)
  }

  // ----- the system around it

  /** Where a caller is. A caller whose reused connection failed its check spawns again. */
  datatype Phase = Waiting | Spawning | Failing | Checking(conn: nat) | Using(conn: nat)

  /** `closing` holds the connections taken out under the lock and closed after it, `shut`
      the closed ones, `leaked` those opened and then dropped when preparing them failed. */
  datatype System = System(
    pool: Pool, callers: map<nat, Phase>, closing: set<nat>, shut: set<nat>, leaked: set<nat>,
    timers: multiset<nat>, made: nat)

  datatype Event =
    | Arrive(t: nat)
    | Enter(t: nat, deadlinePassed: bool)
    | Connected(t: nat)
    | ConnectFailed(t: nat)
    | PrepareFailed(t: nat)
    | FailureReported(t: nat)
    | CheckPassed(t: nat)
    | CheckFailed(t: nat)
    | Leave(t: nat, dead: bool)
    | TimerFires(conn: nat)
    | ClosedAfterwards(conn: nat)
    | PoolCloses

  predicate At(s: System, t: nat, phase: Phase) {
    t in s.callers && s.callers[t] == phase
  }

  function Entered(s: System, t: nat, deadlinePassed: bool): System {
    var (pool, grant) := Grab(s.pool);
    match grant
    case PoolClosed => s.(callers := s.callers - {t})
    case Reuse(conn) => s.(pool := pool, callers := s.callers[t := Checking(conn)])
    case Spawn => s.(pool := pool, callers := s.callers[t := Spawning])
    case Exhausted => if deadlinePassed then s.(callers := s.callers - {t}) else s
  }

  function Left(s: System, t: nat, conn: nat, dead: bool): System {
    var s1 := s.(pool := PutBack(s.pool, conn, dead), callers := s.callers - {t});
    if s.pool.closed || dead then s1.(shut := s.shut + {conn})
    else s1.(timers := s.timers + multiset{conn})
  }

  function TimerFired(s: System, conn: nat): System {
    var s1 := s.(timers := s.timers - multiset{conn});
    if conn in s.pool.idle then s1.(pool := Retire(s.pool, conn), closing := s.closing + {conn}) else s1
  }

  function PoolClosedAt(s: System): System {
    s.(pool := Close(s.pool), closing := s.closing + (set c | c in s.pool.idle))
  }

  /** One event. An event whose caller is elsewhere does nothing. */
  function Step(s: System, e: Event): System {
    match e
    case Arrive(t) => if t in s.callers then s else s.(callers := s.callers[t := Waiting])
    case Enter(t, late) => if At(s, t, Waiting) then Entered(s, t, late) else s
    case Connected(t) =>
      if At(s, t, Spawning) then s.(callers := s.callers[t := Using(s.made)], made := s.made + 1) else s
    case ConnectFailed(t) => if At(s, t, Spawning) then s.(callers := s.callers[t := Failing]) else s
    case PrepareFailed(t) =>
      if At(s, t, Spawning) then
        s.(callers := s.callers[t := Failing], leaked := s.leaked + {s.made}, made := s.made + 1)
      else s
    case FailureReported(t) =>
      if At(s, t, Failing) then s.(pool := GiveUp(s.pool), callers := s.callers - {t}) else s
    case CheckPassed(t) =>
      if t in s.callers && s.callers[t].Checking? then s.(callers := s.callers[t := Using(s.callers[t].conn)]) else s
    case CheckFailed(t) =>
      if t in s.callers && s.callers[t].Checking? then
        s.(callers := s.callers[t := Spawning], shut := s.shut + {s.callers[t].conn})
      else s
    case Leave(t, dead) => if t in s.callers && s.callers[t].Using? then Left(s, t, s.callers[t].conn, dead) else s
    case TimerFires(conn) => if conn in s.timers then TimerFired(s, conn) else s
    case ClosedAfterwards(conn) =>
      if conn in s.closing then s.(closing := s.closing - {conn}, shut := s.shut + {conn}) else s
    case PoolCloses => PoolClosedAt(s)
  }

  function Run(s: System, events: seq<Event>): System {
    if events == [] then s else Step(Run(s, events[..|events| - 1]), events[|events| - 1])
  }

  function NewSystem(maxSize: nat): System {
    System(Pool([], 0, false, maxSize), map[], {}, {}, {}, multiset{}, 0)
  }

  // ----- what every interleaving keeps

  /** The callers the pool counts as out. */
  ghost function Busy(callers: map<nat, Phase>): set<nat> {
    set t | t in callers && !callers[t].Waiting?
  }

  ghost function Held(callers: map<nat, Phase>): set<nat> {
    set t | t in callers && (callers[t].Checking? || callers[t].Using?) :: callers[t].conn
  }

  ghost predicate NoRepeats(idle: seq<nat>) {
    forall i, j :: 0 <= i < j < |idle| ==> idle[i] != idle[j]
  }

  /** No two callers hold one connection. */
  ghost predicate HeldOnce(callers: map<nat, Phase>) {
    forall t, u :: t in callers && u in callers && t != u
      && (callers[t].Checking? || callers[t].Using?) && (callers[u].Checking? || callers[u].Using?)
      ==> callers[t].conn != callers[u].conn
  }

  function Idle(s: System): set<nat> {
    set c | c in s.pool.idle
  }

  /** Each of the first `made` connections is in exactly one of the places. */
  ghost predicate Partition(
    made: nat, idle: set<nat>, held: set<nat>, closing: set<nat>, shut: set<nat>, leaked: set<nat>)
  {
    && (forall c: nat :: c < made <==> c in idle || c in held || c in closing || c in shut || c in leaked)
    && idle !! held && closing !! (idle + held) && shut !! (idle + held + closing)
    && leaked !! (idle + held + closing + shut)
  }

  ghost predicate OnePlaceEach(s: System) {
    Partition(s.made, Idle(s), Held(s.callers), s.closing, s.shut, s.leaked)
  }

  ghost predicate Sound(s: System) {
    && s.pool.Valid()
    && s.pool.out == |Busy(s.callers)| && |s.pool.idle| + s.pool.out <= s.pool.maxSize
    && NoRepeats(s.pool.idle) && HeldOnce(s.callers) && OnePlaceEach(s)
    && (s.pool.closed ==> s.pool.idle == [])
  }

  /** The connection of caller `t`, if it holds one. */
  function ConnOf(callers: map<nat, Phase>, t: nat): set<nat> {
    if t in callers && (callers[t].Checking? || callers[t].Using?) then {callers[t].conn} else {}
  }

  lemma BusyChanges(callers: map<nat, Phase>, t: nat, phase: Phase)
    ensures Busy(callers[t := phase]) == if phase.Waiting? then Busy(callers) - {t} else Busy(callers) + {t}
    ensures Busy(callers - {t}) == Busy(callers) - {t}
  {
  }

  lemma HeldShrinks(callers: map<nat, Phase>, t: nat)
    requires HeldOnce(callers)
    ensures Held(callers - {t}) == Held(callers) - ConnOf(callers, t) && HeldOnce(callers - {t})
  {
    var rest := callers - {t};
    forall c ensures c in Held(rest) <==> c in Held(callers) && c !in ConnOf(callers, t) {
      if c in Held(callers) && c !in ConnOf(callers, t) {
        var u :| u in callers && (callers[u].Checking? || callers[u].Using?) && callers[u].conn == c;
        assert u in rest && rest[u] == callers[u];
      }
    }
  }

  lemma HeldGrows(callers: map<nat, Phase>, t: nat, phase: Phase)
    requires t !in callers && HeldOnce(callers)
    requires phase.Checking? || phase.Using? ==> phase.conn !in Held(callers)
    ensures Held(callers[t := phase]) == Held(callers) + ConnOf(map[t := phase], t) && HeldOnce(callers[t := phase])
  {
    var more := callers[t := phase];
    forall c ensures c in Held(more) <==> c in Held(callers) || c in ConnOf(map[t := phase], t) {
      if c in Held(callers) {
        var u :| u in callers && (callers[u].Checking? || callers[u].Using?) && callers[u].conn == c;
        assert u in more && more[u] == callers[u];
      }
      if c in ConnOf(map[t := phase], t) {
        assert t in more && more[t] == phase;
      }
    }
  }

  /** Moving a caller to another phase trades the connection it held for the one it now holds. */
  lemma HeldChanges(callers: map<nat, Phase>, t: nat, phase: Phase)
    requires HeldOnce(callers)
    requires phase.Checking? || phase.Using? ==> phase.conn !in Held(callers) - ConnOf(callers, t)
    ensures Held(callers[t := phase]) == Held(callers) - ConnOf(callers, t) + ConnOf(map[t := phase], t)
    ensures HeldOnce(callers[t := phase])
  {
    HeldShrinks(callers, t);
    HeldGrows(callers - {t}, t, phase);
    assert (callers - {t})[t := phase] == callers[t := phase];
  }

  lemma BusyHolds(callers: map<nat, Phase>, t: nat)
    requires t in callers && !callers[t].Waiting?
    ensures t in Busy(callers) && ConnOf(callers, t) <= Held(callers)
  {
  }

  lemma WaitingIsNotBusy(callers: map<nat, Phase>, t: nat)
    requires t in callers ==> callers[t].Waiting?
    ensures t !in Busy(callers) && ConnOf(callers, t) == {}
  {
  }

  lemma {:induction false} WithoutOne(idle: seq<nat>, conn: nat)
    requires NoRepeats(idle) && conn in idle
    ensures |Without(idle, conn)| == |idle| - 1 && NoRepeats(Without(idle, conn))
    ensures forall c :: c in Without(idle, conn) <==> c in idle && c != conn
  {
    TailNoRepeats(idle);
    hide NoRepeats;
    if idle[0] != conn {
      WithoutOne(idle[1..], conn);
      ConsNoRepeats(idle[0], Without(idle[1..], conn));
    }
  }

  lemma TailNoRepeats(idle: seq<nat>)
    requires NoRepeats(idle) && idle != []
    ensures NoRepeats(idle[1..]) && idle[0] !in idle[1..]
    ensures forall c :: c in idle <==> c == idle[0] || c in idle[1..]
  {
    assert idle == [idle[0]] + idle[1..];
  }

  lemma ConsNoRepeats(c: nat, rest: seq<nat>)
    requires NoRepeats(rest) && c !in rest
    ensures NoRepeats([c] + rest)
  {
  }

  lemma PopOne(idle: seq<nat>)
    requires idle != [] && NoRepeats(idle)
    ensures var last := idle[|idle| - 1];
            && NoRepeats(idle[..|idle| - 1]) && last in idle
            && forall c :: c in idle[..|idle| - 1] <==> c in idle && c != last
  {
    assert idle == idle[..|idle| - 1] + [idle[|idle| - 1]];
  }

  // ----- event by event

  lemma ReuseEffect(s: System, t: nat, late: bool)
    requires !s.pool.closed && s.pool.idle != []
    ensures var n := |s.pool.idle| - 1;
            Entered(s, t, late) == s.(pool := s.pool.(idle := s.pool.idle[..n], out := s.pool.out + 1),
                                      callers := s.callers[t := Checking(s.pool.idle[n])])
  {
  }

  lemma PopIdle(s: System, s': System)
    requires s.pool.idle != [] && NoRepeats(s.pool.idle) && s'.pool.idle == s.pool.idle[..|s.pool.idle| - 1]
    ensures NoRepeats(s'.pool.idle) && Idle(s') == Idle(s) - {s.pool.idle[|s.pool.idle| - 1]}
  {
    PopOne(s.pool.idle);
  }

  lemma ReuseSound(s: System, t: nat, late: bool)
    requires Sound(s) && At(s, t, Waiting) && !s.pool.closed && s.pool.idle != []
    ensures Sound(Entered(s, t, late))
  {
    ReuseEffect(s, t, late);
    hide Busy, Held, HeldOnce, NoRepeats, Partition, Entered, Idle;
    var conn := s.pool.idle[|s.pool.idle| - 1];
    var s' := Entered(s, t, late);
    PopIdle(s, s');
    FromIdle(s, conn);
    StartsHolding(s.callers, t, Checking(conn));
  }

  /** A waiting caller is given a connection nobody holds. */
  lemma StartsHolding(callers: map<nat, Phase>, t: nat, phase: Phase)
    requires HeldOnce(callers) && t in callers && callers[t].Waiting?
    requires (phase.Checking? || phase.Using?) && phase.conn !in Held(callers)
    ensures HeldOnce(callers[t := phase]) && Held(callers[t := phase]) == Held(callers) + {phase.conn}
    ensures |Busy(callers[t := phase])| == |Busy(callers)| + 1
  {
    WaitingIsNotBusy(callers, t);
    BusyChanges(callers, t, phase);
    HeldChanges(callers, t, phase);
    hide Busy, Held, HeldOnce;
    assert ConnOf(map[t := phase], t) == {phase.conn};
  }

  lemma FromIdle(s: System, conn: nat)
    requires OnePlaceEach(s) && conn in s.pool.idle
    ensures conn !in Held(s.callers)
    ensures Partition(s.made, Idle(s) - {conn}, Held(s.callers) + {conn}, s.closing, s.shut, s.leaked)
  {
    assert conn in Idle(s);
  }

  /** A caller that held nothing moves to where it holds nothing. */
  lemma EmptyHandedSound(s: System, s': System, t: nat, phase: Phase)
    requires Sound(s) && ConnOf(s.callers, t) == {} && ConnOf(map[t := phase], t) == {}
    requires s' == s.(callers := s.callers[t := phase], pool := s.pool.(out := s'.pool.out))
    requires s'.pool.out == |Busy(s'.callers)| && |s.pool.idle| + s'.pool.out <= s.pool.maxSize
    ensures Sound(s')
  {
    hide Busy, Held, HeldOnce, NoRepeats;
    HeldChanges(s.callers, t, phase);
    assert Idle(s') == Idle(s);
  }

  /** A caller that held nothing is gone. */
  lemma GoneSound(s: System, s': System, t: nat)
    requires Sound(s) && ConnOf(s.callers, t) == {}
    requires s' == s.(callers := s.callers - {t}, pool := s.pool.(out := s'.pool.out))
    requires s'.pool.out == |Busy(s'.callers)| && s'.pool.out <= s.pool.out
    ensures Sound(s')
  {
    hide Busy, Held, HeldOnce, NoRepeats;
    HeldShrinks(s.callers, t);
    assert Idle(s') == Idle(s);
  }

  lemma EnterSound(s: System, t: nat, late: bool)
    requires Sound(s) && At(s, t, Waiting)
    ensures Sound(Entered(s, t, late))
  {
    hide Busy, Held, HeldOnce, NoRepeats, OnePlaceEach;
    WaitingIsNotBusy(s.callers, t);
    if !s.pool.closed && s.pool.idle != [] {
      ReuseSound(s, t, late);
    } else {
      BusyChanges(s.callers, t, Spawning);
      var s' := Entered(s, t, late);
      if !s.pool.closed && s.pool.out < s.pool.maxSize {
        EmptyHandedSound(s, s', t, Spawning);
      } else if s.pool.closed || late {
        assert Busy(s.callers) - {t} == Busy(s.callers);
        GoneSound(s, s', t);
      }
    }
  }

  lemma ArriveSound(s: System, t: nat)
    requires Sound(s) && t !in s.callers
    ensures Sound(Step(s, Arrive(t)))
  {
    hide Busy, Held, HeldOnce, NoRepeats, OnePlaceEach;
    WaitingIsNotBusy(s.callers, t);
    BusyChanges(s.callers, t, Waiting);
    assert Busy(s.callers) - {t} == Busy(s.callers);
    EmptyHandedSound(s, Step(s, Arrive(t)), t, Waiting);
  }

  /** A busy caller moves to a phase in which it holds what it held. */
  lemma PhaseSound(s: System, t: nat, phase: Phase)
    requires Sound(s) && t in s.callers && !s.callers[t].Waiting? && !phase.Waiting?
    requires ConnOf(map[t := phase], t) == ConnOf(s.callers, t)
    ensures Sound(s.(callers := s.callers[t := phase]))
  {
    hide Busy, Held, HeldOnce, NoRepeats, Partition, Idle;
    BusyHolds(s.callers, t);
    BusyChanges(s.callers, t, phase);
    HeldChanges(s.callers, t, phase);
    assert Busy(s.callers) + {t} == Busy(s.callers);
    assert Held(s.callers) - ConnOf(s.callers, t) + ConnOf(s.callers, t) == Held(s.callers);
    SameIdle(s, s.(callers := s.callers[t := phase]));
  }

  lemma ConnectSound(s: System, t: nat)
    requires Sound(s) && At(s, t, Spawning)
    ensures Sound(Step(s, Connected(t)))
  {
    hide Busy, Held, HeldOnce, NoRepeats;
    BusyHolds(s.callers, t);
    BusyChanges(s.callers, t, Using(s.made));
    HeldChanges(s.callers, t, Using(s.made));
    assert Busy(s.callers) + {t} == Busy(s.callers);
    assert Idle(Step(s, Connected(t))) == Idle(s);
  }

  lemma PrepareSound(s: System, t: nat)
    requires Sound(s) && At(s, t, Spawning)
    ensures Sound(Step(s, PrepareFailed(t)))
  {
    PhaseSound(s, t, Failing);
    hide Busy, Held, HeldOnce, NoRepeats;
    assert Idle(Step(s, PrepareFailed(t))) == Idle(s);
  }

  lemma GiveUpSound(s: System, t: nat)
    requires Sound(s) && At(s, t, Failing)
    ensures Sound(Step(s, FailureReported(t)))
  {
    hide Busy, Held, HeldOnce, NoRepeats;
    BusyHolds(s.callers, t);
    BusyChanges(s.callers, t, Waiting);
    GoneSound(s, Step(s, FailureReported(t)), t);
  }

  lemma SameIdle(s: System, s': System)
    requires s'.pool.idle == s.pool.idle
    ensures Idle(s') == Idle(s)
  {
  }

  lemma CheckFailedSound(s: System, t: nat)
    requires Sound(s) && t in s.callers && s.callers[t].Checking?
    ensures Sound(Step(s, CheckFailed(t)))
  {
    hide Busy, Held, HeldOnce, NoRepeats, Partition, Idle;
    BusyHolds(s.callers, t);
    BusyChanges(s.callers, t, Spawning);
    HeldChanges(s.callers, t, Spawning);
    assert Busy(s.callers) + {t} == Busy(s.callers);
    var s' := Step(s, CheckFailed(t));
    SameIdle(s, s');
    ToShut(s, s.callers[t].conn);
    assert Held(s'.callers) == Held(s.callers) - {s.callers[t].conn};
  }

  lemma ToShut(s: System, conn: nat)
    requires OnePlaceEach(s) && conn in Held(s.callers)
    ensures Partition(s.made, Idle(s), Held(s.callers) - {conn}, s.closing, s.shut + {conn}, s.leaked)
    ensures conn !in s.pool.idle
    ensures Partition(s.made, Idle(s) + {conn}, Held(s.callers) - {conn}, s.closing, s.shut, s.leaked)
  {
    assert conn !in Idle(s);
  }

  /** A caller that returns a connection was counted out, so the clip at zero never acts. */
  lemma ClipNeverFires(s: System, t: nat)
    requires Sound(s) && t in s.callers && !s.callers[t].Waiting?
    ensures s.pool.out >= 1 && Clipped(s.pool.out - 1) == s.pool.out - 1
  {
    assert t in Busy(s.callers);
  }

  lemma LeaveSound(s: System, t: nat, dead: bool)
    requires Sound(s) && t in s.callers && s.callers[t].Using?
    ensures Sound(Left(s, t, s.callers[t].conn, dead))
  {
    var conn := s.callers[t].conn;
    var s' := Left(s, t, conn, dead);
    ClipNeverFires(s, t);
    hide Busy, Held, HeldOnce, Partition;
    BusyHolds(s.callers, t);
    BusyChanges(s.callers, t, Waiting);
    HeldShrinks(s.callers, t);
    ToShut(s, conn);
    assert Held(s'.callers) == Held(s.callers) - {conn};
    if s.pool.closed || dead {
      assert Idle(s') == Idle(s);
    } else {
      assert Idle(s') == Idle(s) + {conn};
    }
  }

  lemma TimerSound(s: System, conn: nat)
    requires Sound(s)
    ensures Sound(TimerFired(s, conn))
  {
    hide Busy, Held, HeldOnce, NoRepeats;
    var s' := TimerFired(s, conn);
    if conn in s.pool.idle {
      WithoutOne(s.pool.idle, conn);
      assert Idle(s') == Idle(s) - {conn};
    } else {
      assert Idle(s') == Idle(s);
    }
  }

  lemma CloseSound(s: System)
    requires Sound(s)
    ensures Sound(PoolClosedAt(s))
  {
    hide Busy, Held, HeldOnce;
    assert Idle(PoolClosedAt(s)) == {};
  }

  lemma AfterwardsSound(s: System, conn: nat)
    requires Sound(s)
    ensures Sound(Step(s, ClosedAfterwards(conn)))
  {
    hide Busy, Held, HeldOnce, NoRepeats;
    assert Idle(Step(s, ClosedAfterwards(conn))) == Idle(s);
  }

  lemma StepSound(s: System, e: Event)
    requires Sound(s)
    ensures Sound(Step(s, e))
  {
    hide Sound, Entered, Left, TimerFired, PoolClosedAt;
    match e
    case Arrive(t) => if t !in s.callers { ArriveSound(s, t); }
    case Enter(t, late) => if At(s, t, Waiting) { EnterSound(s, t, late); }
    case Connected(t) => if At(s, t, Spawning) { ConnectSound(s, t); }
    case ConnectFailed(t) => if At(s, t, Spawning) { PhaseSound(s, t, Failing); }
    case PrepareFailed(t) => if At(s, t, Spawning) { PrepareSound(s, t); }
    case FailureReported(t) => if At(s, t, Failing) { GiveUpSound(s, t); }
    case CheckPassed(t) =>
      if t in s.callers && s.callers[t].Checking? { PhaseSound(s, t, Using(s.callers[t].conn)); }
    case CheckFailed(t) => if t in s.callers && s.callers[t].Checking? { CheckFailedSound(s, t); }
    case Leave(t, dead) => if t in s.callers && s.callers[t].Using? { LeaveSound(s, t, dead); }
    case TimerFires(conn) => TimerSound(s, conn);
    case ClosedAfterwards(conn) => AfterwardsSound(s, conn);
    case PoolCloses => CloseSound(s);
  }

  /** In every state of every interleaving: idle and checked-out connections together stay
      within the limit, no connection is both, none is held twice, none is in two places. */
  lemma {:induction false} EveryInterleavingIsSound(maxSize: nat, events: seq<Event>)
    requires 1 <= maxSize <= POOL_MAX_CAP
    ensures Sound(Run(NewSystem(maxSize), events))
  {
    hide Step;
    if events == [] {
      NewIsSound(maxSize);
    } else {
      EveryInterleavingIsSound(maxSize, events[..|events| - 1]);
      StepSound(Run(NewSystem(maxSize), events[..|events| - 1]), events[|events| - 1]);
    }
  }

  lemma NewIsSound(maxSize: nat)
    requires 1 <= maxSize <= POOL_MAX_CAP
    ensures Sound(NewSystem(maxSize))
  {
    assert Busy(map[]) == {} && Held(map[]) == {};
  }

  /** Once the pool is closed, its callers gone and what was taken out closed, the pool has closed
      every connection ever opened, except those whose preparation failed. */
  lemma ClosingLeavesOnlyTheUnprepared(s: System)
    requires Sound(s) && s.pool.closed && s.callers == map[] && s.closing == {}
    ensures s.pool.out == 0 && forall c: nat :: c < s.made && c !in s.leaked ==> c in s.shut
  {
    assert Busy(s.callers) == {} && Held(s.callers) == {} && Idle(s) == {};
  }

  lemma LeakedStays(s: System, e: Event)
    ensures s.leaked <= Step(s, e).leaked
  {
  }

  /** A connection dropped when its preparation failed is never closed by the pool, whatever follows. */
  lemma {:induction false} LeakedIsNeverClosed(maxSize: nat, events: seq<Event>, more: seq<Event>)
    requires 1 <= maxSize <= POOL_MAX_CAP
    ensures var leaked, s := Run(NewSystem(maxSize), events).leaked, Run(NewSystem(maxSize), events + more);
            leaked <= s.leaked && leaked !! s.shut
    decreases |more|
  {
    hide Step;
    if more == [] {
      assert events + more == events;
    } else {
      var front := more[..|more| - 1];
      LeakedIsNeverClosed(maxSize, events, front);
      LeakedStays(Run(NewSystem(maxSize), events + front), more[|more| - 1]);
      assert events + more == (events + front) + [more[|more| - 1]];
      RunNext(NewSystem(maxSize), events + front, more[|more| - 1]);
    }
    EveryInterleavingIsSound(maxSize, events + more);
  }

  // ----- what the limit bounds

  /** The connections that are open: idle, held, being closed, or dropped unprepared. */
  ghost function OpenOnes(s: System): set<nat> {
    Idle(s) + Held(s.callers) + s.closing + s.leaked
  }

  /** The callers that may be connecting. */
  ghost function Connecting(callers: map<nat, Phase>): set<nat> {
    set t | t in callers && callers[t].Spawning?
  }

  ghost function Holders(callers: map<nat, Phase>): set<nat> {
    set t | t in callers && (callers[t].Checking? || callers[t].Using?)
  }

  lemma HolderLeaves(callers: map<nat, Phase>, t: nat)
    requires HeldOnce(callers) && t in Holders(callers)
    ensures HeldOnce(callers - {t}) && Holders(callers - {t}) == Holders(callers) - {t}
    ensures Held(callers) == Held(callers - {t}) + ConnOf(callers, t) && |ConnOf(callers, t)| == 1
  {
    HeldShrinks(callers, t);
    BusyHolds(callers, t);
    hide HeldOnce, Held;
  }

  lemma NoHolders(callers: map<nat, Phase>)
    requires Holders(callers) == {}
    ensures Held(callers) == {}
  {
    forall t | t in callers ensures !callers[t].Checking? && !callers[t].Using? {
      assert t !in Holders(callers);
    }
  }

  lemma {:induction false} HeldByHolders(callers: map<nat, Phase>)
    requires HeldOnce(callers)
    ensures |Held(callers)| <= |Holders(callers)|
    decreases |callers|
  {
    hide Held, Holders, HeldOnce, ConnOf;
    if t :| t in Holders(callers) {
      HolderLeaves(callers, t);
      HolderIsCaller(callers, t);
      HeldByHolders(callers - {t});
      UnionSize(Held(callers - {t}), ConnOf(callers, t));
    } else {
      assert Holders(callers) == {};
      NoHolders(callers);
    }
  }

  lemma HolderIsCaller(callers: map<nat, Phase>, t: nat)
    requires t in Holders(callers)
    ensures |callers - {t}| < |callers|
  {
    assert callers == (callers - {t})[t := callers[t]];
  }

  lemma HeldWithinBusy(callers: map<nat, Phase>)
    requires HeldOnce(callers)
    ensures |Held(callers)| + |Connecting(callers)| <= |Busy(callers)|
  {
    HeldByHolders(callers);
    SubsetSize(Holders(callers) + Connecting(callers), Busy(callers));
  }

  lemma {:induction false} SubsetSize(a: set<nat>, b: set<nat>)
    requires a <= b
    ensures |a| <= |b|
    decreases |a|
  {
    if x :| x in a {
      SubsetSize(a - {x}, b - {x});
    }
  }

  lemma {:induction false} IdleSize(idle: seq<nat>, conns: set<nat>)
    requires forall c :: c in conns <==> c in idle
    ensures |conns| <= |idle|
  {
    if idle != [] {
      assert idle == [idle[0]] + idle[1..];
      var rest := set c | c in idle[1..];
      IdleSize(idle[1..], rest);
      assert conns == rest + {idle[0]};
    }
  }

  lemma UnionSize(a: set<nat>, b: set<nat>)
    ensures |a + b| <= |a| + |b|
  {
  }

  lemma SoundBound(s: System)
    requires Sound(s)
    ensures |OpenOnes(s)| + |Connecting(s.callers)| <= |s.pool.idle| + s.pool.out + |s.closing| + |s.leaked|
  {
    HeldWithinBusy(s.callers);
    IdleSize(s.pool.idle, Idle(s));
    UnionSize(Idle(s), Held(s.callers));
    UnionSize(Idle(s) + Held(s.callers), s.closing);
    UnionSize(Idle(s) + Held(s.callers) + s.closing, s.leaked);
  }

  /** In every interleaving the connections open or about to be are at most the limit, those a
      timer or the close has yet to shut, and those leaked. */
  lemma OpenConnectionsBounded(maxSize: nat, events: seq<Event>)
    requires 1 <= maxSize <= POOL_MAX_CAP
    ensures var s := Run(NewSystem(maxSize), events);
            |OpenOnes(s)| + |Connecting(s.callers)| <= maxSize + |s.closing| + |s.leaked|
  {
    hide Run, Sound;
    EveryInterleavingIsSound(maxSize, events);
    SoundBound(Run(NewSystem(maxSize), events));
    RunKeepsMax(NewSystem(maxSize), events);
    SoundRoom(Run(NewSystem(maxSize), events));
  }

  lemma SoundRoom(s: System)
    requires Sound(s)
    ensures |s.pool.idle| + s.pool.out <= s.pool.maxSize
  {
  }

  lemma {:induction false} RunKeepsMax(s: System, events: seq<Event>)
    ensures Run(s, events).pool.maxSize == s.pool.maxSize
  {
    if events != [] {
      RunKeepsMax(s, events[..|events| - 1]);
    }
  }

  /** Timers fire, or preparations fail, only where that is allowed. */
  predicate Allowed(events: seq<Event>, timers: bool, failures: bool) {
    forall k :: 0 <= k < |events| ==> (events[k].TimerFires? ==> timers) && (events[k].PrepareFailed? ==> failures)
  }

  /** Nothing leaked, and what is being closed still counts within the limit. */
  ghost predicate Contained(s: System) {
    && s.leaked == {} && (s.pool.closed || s.closing == {})
    && |s.pool.idle| + s.pool.out + |s.closing| <= s.pool.maxSize
  }

  lemma EnterContained(s: System, t: nat, late: bool)
    requires Sound(s) && Contained(s)
    ensures Contained(Entered(s, t, late))
  {
    hide OnePlaceEach, HeldOnce, NoRepeats, Busy;
  }

  lemma LeaveContained(s: System, t: nat, dead: bool)
    requires Sound(s) && Contained(s) && t in s.callers && s.callers[t].Using?
    ensures Contained(Left(s, t, s.callers[t].conn, dead))
  {
    ClipNeverFires(s, t);
    hide OnePlaceEach, HeldOnce, NoRepeats, Busy;
  }

  lemma CloseContained(s: System)
    requires Sound(s) && Contained(s)
    ensures Contained(PoolClosedAt(s))
  {
    hide OnePlaceEach, HeldOnce, NoRepeats, Busy, Idle;
    ClosingCount(s);
  }

  /** The close adds the idle connections to those being closed. */
  lemma ClosingCount(s: System)
    ensures PoolClosedAt(s).closing == s.closing + Idle(s)
    ensures |s.closing + Idle(s)| <= |s.closing| + |s.pool.idle|
  {
    IdleSize(s.pool.idle, Idle(s));
    UnionSize(s.closing, Idle(s));
  }

  lemma StepContained(s: System, e: Event)
    requires Sound(s) && Contained(s) && !e.TimerFires? && !e.PrepareFailed?
    ensures Contained(Step(s, e))
  {
    hide OnePlaceEach, HeldOnce, NoRepeats, Busy, Entered, Left, PoolClosedAt, Sound;
    match e
    case Enter(t, late) =>
      if At(s, t, Waiting) {
        EnterContained(s, t, late);
      }
    case Leave(t, dead) =>
      if t in s.callers && s.callers[t].Using? {
        LeaveContained(s, t, dead);
      }
    case PoolCloses =>
      CloseContained(s);
    case ClosedAfterwards(conn) =>
      SubsetSize(s.closing - {conn}, s.closing);
    case _ =>
  }

  lemma {:induction false} RunContained(maxSize: nat, events: seq<Event>)
    requires 1 <= maxSize <= POOL_MAX_CAP && Allowed(events, false, false)
    ensures Contained(Run(NewSystem(maxSize), events))
  {
    hide Step, Contained;
    if events == [] {
      NewIsContained(maxSize);
    } else {
      var front := events[..|events| - 1];
      RunContained(maxSize, front);
      EveryInterleavingIsSound(maxSize, front);
      StepContained(Run(NewSystem(maxSize), front), events[|events| - 1]);
    }
  }

  lemma NewIsContained(maxSize: nat)
    ensures Contained(NewSystem(maxSize))
  {
  }

  /** A caller connects and returns, and the timer takes the connection out. */
  function RetireRound(conn: nat): seq<Event> {
    [Arrive(0), Enter(0, false), Connected(0), Leave(0, false), TimerFires(conn)]
  }

  /** A caller connects, fails to prepare and reports it. */
  function LeakRound(): seq<Event> {
    [Arrive(0), Enter(0, false), PrepareFailed(0), FailureReported(0)]
  }

  function RetireRounds(n: nat): seq<Event> {
    if n == 0 then [] else RetireRounds(n - 1) + RetireRound(n - 1)
  }

  function LeakRounds(n: nat): seq<Event> {
    if n == 0 then [] else LeakRounds(n - 1) + LeakRound()
  }

  function FirstConns(n: nat): (conns: set<nat>)
    ensures |conns| == n && forall c: nat :: c in conns <==> c < n
  {
    if n == 0 then {} else FirstConns(n - 1) + {n - 1}
  }

  /** Nobody is in the pool; some connections are being closed and some have leaked. */
  function Quiet(maxSize: nat, closing: set<nat>, leaked: set<nat>, made: nat): System {
    System(Pool([], 0, false, maxSize), map[], closing, {}, leaked, multiset{}, made)
  }

  lemma {:induction false} RunAppend(s: System, a: seq<Event>, b: seq<Event>)
    ensures Run(s, a + b) == Run(Run(s, a), b)
    decreases |b|
  {
    if b == [] {
      assert a + b == a;
    } else {
      assert (a + b)[..|a + b| - 1] == a + b[..|b| - 1];
      RunAppend(s, a, b[..|b| - 1]);
    }
  }

  lemma RetireSteps(s: System, conn: nat)
    requires s == Quiet(s.pool.maxSize, s.closing, {}, conn) && s.pool.maxSize >= 1
    ensures Step(Step(Step(s, Arrive(0)), Enter(0, false)), Connected(0))
         == s.(callers := map[0 := Using(conn)], pool := s.pool.(out := 1), made := conn + 1)
  {
    assert Step(Step(s, Arrive(0)), Enter(0, false)) == s.(callers := map[0 := Spawning], pool := s.pool.(out := 1));
  }

  lemma ReturnAndRetire(s: System, conn: nat)
    requires s.callers == map[0 := Using(conn)] && s.timers == multiset{}
    requires s.pool == Pool([], 1, false, s.pool.maxSize)
    ensures Step(Step(s, Leave(0, false)), TimerFires(conn))
         == s.(callers := map[], pool := s.pool.(out := 0), closing := s.closing + {conn})
  {
    assert map[0 := Using(conn)] - {0} == map[];
    assert Step(s, Leave(0, false))
        == s.(callers := map[], pool := s.pool.(idle := [conn], out := 0), timers := multiset{conn});
    assert Without([conn], conn) == [];
  }

  lemma RetireRoundAdds(maxSize: nat, closing: set<nat>, made: nat)
    requires maxSize >= 1
    ensures Run(Quiet(maxSize, closing, {}, made), RetireRound(made))
         == Quiet(maxSize, closing + {made}, {}, made + 1)
  {
    hide Step, Run;
    var s := Quiet(maxSize, closing, {}, made);
    RetireSteps(s, made);
    ReturnAndRetire(Step(Step(Step(s, Arrive(0)), Enter(0, false)), Connected(0)), made);
    RunFive(s, RetireRound(made));
  }

  lemma RunFive(s: System, e: seq<Event>)
    requires |e| == 5
    ensures Run(s, e) == Step(Step(Step(Step(Step(s, e[0]), e[1]), e[2]), e[3]), e[4])
  {
    hide Step;
    assert e[..4][..3][..2][..1][..0] == [];
    RunFour(s, e[..4]);
  }

  lemma RunFour(s: System, e: seq<Event>)
    requires |e| == 4
    ensures Run(s, e) == Step(Step(Step(Step(s, e[0]), e[1]), e[2]), e[3])
  {
    hide Step;
    var e3, e2, e1 := e[..3], e[..2], e[..1];
    assert e3[..2] == e2 && e2[..1] == e1 && e1[..0] == [];
    assert Run(s, e1) == Step(s, e[0]);
    assert Run(s, e2) == Step(Run(s, e1), e[1]);
    assert Run(s, e3) == Step(Run(s, e2), e[2]);
  }

  lemma LeakSteps(s: System, conn: nat)
    requires s == Quiet(s.pool.maxSize, {}, s.leaked, conn) && s.pool.maxSize >= 1
    ensures Step(Step(Step(Step(s, Arrive(0)), Enter(0, false)), PrepareFailed(0)), FailureReported(0))
         == s.(leaked := s.leaked + {conn}, made := conn + 1)
  {
    var s2 := Step(Step(s, Arrive(0)), Enter(0, false));
    assert s2 == s.(callers := map[0 := Spawning], pool := s.pool.(out := 1));
    assert map[0 := Failing] - {0} == map[];
  }

  lemma LeakRoundAdds(maxSize: nat, leaked: set<nat>, made: nat)
    requires maxSize >= 1
    ensures Run(Quiet(maxSize, {}, leaked, made), LeakRound()) == Quiet(maxSize, {}, leaked + {made}, made + 1)
  {
    hide Step, Run;
    var s := Quiet(maxSize, {}, leaked, made);
    LeakSteps(s, made);
    RunFour(s, LeakRound());
  }

  lemma AllowedJoins(a: seq<Event>, b: seq<Event>, timers: bool, failures: bool)
    requires Allowed(a, timers, failures) && Allowed(b, timers, failures)
    ensures Allowed(a + b, timers, failures)
  {
  }

  lemma NoRounds(maxSize: nat)
    ensures RetireRounds(0) == [] && LeakRounds(0) == [] && FirstConns(0) == {}
    ensures NewSystem(maxSize) == Quiet(maxSize, {}, {}, 0)
    ensures Allowed([], true, false) && Allowed([], false, true)
  {
  }

  lemma NextRounds(n: nat)
    requires n > 0
    ensures RetireRounds(n) == RetireRounds(n - 1) + RetireRound(n - 1) && Allowed(RetireRound(n - 1), true, false)
    ensures LeakRounds(n) == LeakRounds(n - 1) + LeakRound() && Allowed(LeakRound(), false, true)
    ensures FirstConns(n) == FirstConns(n - 1) + {n - 1}
  {
  }

  lemma {:induction false} RetireRoundsPile(maxSize: nat, n: nat)
    requires maxSize >= 1
    ensures Run(NewSystem(maxSize), RetireRounds(n)) == Quiet(maxSize, FirstConns(n), {}, n)
    ensures Allowed(RetireRounds(n), true, false)
  {
    hide Run, Step, Allowed, Quiet, FirstConns, RetireRounds, LeakRounds, RetireRound, LeakRound;
    if n == 0 {
      NoRounds(maxSize);
      RunNone(NewSystem(maxSize));
    } else {
      NextRounds(n);
      RetireRoundsPile(maxSize, n - 1);
      RunAppend(NewSystem(maxSize), RetireRounds(n - 1), RetireRound(n - 1));
      RetireRoundAdds(maxSize, FirstConns(n - 1), n - 1);
      AllowedJoins(RetireRounds(n - 1), RetireRound(n - 1), true, false);
    }
  }

  lemma {:induction false} LeakRoundsPile(maxSize: nat, n: nat)
    requires maxSize >= 1
    ensures Run(NewSystem(maxSize), LeakRounds(n)) == Quiet(maxSize, {}, FirstConns(n), n)
    ensures Allowed(LeakRounds(n), false, true)
  {
    hide Run, Step, Allowed, Quiet, FirstConns, RetireRounds, LeakRounds, RetireRound, LeakRound;
    if n == 0 {
      NoRounds(maxSize);
      RunNone(NewSystem(maxSize));
    } else {
      NextRounds(n);
      LeakRoundsPile(maxSize, n - 1);
      RunAppend(NewSystem(maxSize), LeakRounds(n - 1), LeakRound());
      LeakRoundAdds(maxSize, FirstConns(n - 1), n - 1);
      AllowedJoins(LeakRounds(n - 1), LeakRound(), false, true);
    }
  }

  ghost predicate WithinLimit(maxSize: nat, events: seq<Event>, limit: nat) {
    |OpenOnes(Run(NewSystem(maxSize), events))| <= limit
  }

  lemma QuietOpens(maxSize: nat, closing: set<nat>, leaked: set<nat>, made: nat)
    ensures OpenOnes(Quiet(maxSize, closing, leaked, made)) == closing + leaked
  {
  }

  /** Either of the two events, by itself, lets any number of connections be open at once. */
  lemma AnyNumberCanBeOpen(maxSize: nat, n: nat)
    requires maxSize >= 1
    ensures Allowed(RetireRounds(n + 1), true, false) && !WithinLimit(maxSize, RetireRounds(n + 1), n)
    ensures Allowed(LeakRounds(n + 1), false, true) && !WithinLimit(maxSize, LeakRounds(n + 1), n)
  {
    hide Run, RetireRounds, LeakRounds, Allowed, OpenOnes;
    RetireRoundsPile(maxSize, n + 1);
    LeakRoundsPile(maxSize, n + 1);
    QuietOpens(maxSize, FirstConns(n + 1), {}, n + 1);
    QuietOpens(maxSize, {}, FirstConns(n + 1), n + 1);
    assert FirstConns(n + 1) + {} == FirstConns(n + 1) == {} + FirstConns(n + 1);
  }

  /** The limit bounds the open connections over every interleaving if and only if no timer takes
      one out and no preparation fails; otherwise nothing bounds them. */
  lemma LimitHoldsIff(maxSize: nat, timers: bool, failures: bool, limit: nat)
    requires 1 <= maxSize <= POOL_MAX_CAP && maxSize <= limit
    ensures (forall events :: Allowed(events, timers, failures) ==> WithinLimit(maxSize, events, limit))
            <==> !timers && !failures
  {
    if timers || failures {
      AnyNumberCanBeOpen(maxSize, limit);
      var events := if timers then RetireRounds(limit + 1) else LeakRounds(limit + 1);
      hide WithinLimit, RetireRounds, LeakRounds;
      assert Allowed(events, timers, failures) && !WithinLimit(maxSize, events, limit);
    } else {
      forall events | Allowed(events, false, false)
        ensures WithinLimit(maxSize, events, limit)
      {
        ContainedWithin(maxSize, events);
      }
    }
  }

  lemma ContainedWithin(maxSize: nat, events: seq<Event>)
    requires 1 <= maxSize <= POOL_MAX_CAP && Allowed(events, false, false)
    ensures WithinLimit(maxSize, events, maxSize)
  {
    hide Run, Sound, Allowed, OpenOnes;
    var s := Run(NewSystem(maxSize), events);
    EveryInterleavingIsSound(maxSize, events);
    RunContained(maxSize, events);
    RunKeepsMax(NewSystem(maxSize), events);
    SoundBound(s);
  }

  /** After any number of failed preparations and the close, with no caller left and nothing waiting
      to be shut, the pool has closed none of the connections that leaked. */
  lemma LeaksOutliveThePool(maxSize: nat, n: nat)
    requires maxSize >= 1
    ensures var s := Run(NewSystem(maxSize), LeakRounds(n) + [PoolCloses]);
            && s.pool.closed && s.callers == map[] && s.closing == {} && s.shut == {}
            && s.leaked == FirstConns(n) && s.made == n
  {
    LeakRoundsPile(maxSize, n);
    RunNext(NewSystem(maxSize), LeakRounds(n), PoolCloses);
    hide Run, LeakRounds;
    var s := Quiet(maxSize, {}, FirstConns(n), n);
    assert (set c | c in s.pool.idle) == {};
  }

  // ----- a full pool in use beside them

  lemma RunNext(s: System, events: seq<Event>, e: Event)
    ensures Run(s, events + [e]) == Step(Run(s, events), e)
  {
    assert (events + [e])[..|events|] == events;
  }

  lemma RunNone(s: System)
    ensures Run(s, []) == s
  {
  }

  /** A caller arrives and connects. */
  function ConnectRound(t: nat): seq<Event> {
    [Arrive(t), Enter(t, false), Connected(t)]
  }

  function ConnectRounds(m: nat): seq<Event> {
    if m == 0 then [] else ConnectRounds(m - 1) + ConnectRound(m - 1)
  }

  /** Caller `t` uses the connection opened `t` after the first `n`. */
  function UsingAfter(n: nat, t: nat): Phase {
    Using(n + t)
  }

  /** `m` callers use the newest connections while the first `n` are being closed. */
  function Crowded(maxSize: nat, n: nat, m: nat): System {
    System(Pool([], m, false, maxSize), map t | t in FirstConns(m) :: UsingAfter(n, t), FirstConns(n), {}, {},
           multiset{}, n + m)
  }

  lemma CrowdedUses(maxSize: nat, n: nat, m: nat)
    ensures var s := Crowded(maxSize, n, m);
            && s.closing == FirstConns(n) && s.shut == {} && m !in s.callers
            && forall t: nat :: t < m ==> At(s, t, UsingAfter(n, t))
  {
    hide FirstConns;
  }

  lemma QuietIsUncrowded(maxSize: nat, n: nat)
    ensures Quiet(maxSize, FirstConns(n), {}, n) == Crowded(maxSize, n, 0)
  {
    hide FirstConns;
    assert Crowded(maxSize, n, 0).callers == map[];
  }

  lemma OneMoreCrowded(maxSize: nat, n: nat, m: nat)
    ensures Crowded(maxSize, n, m + 1).callers == Crowded(maxSize, n, m).callers[m := Using(n + m)]
  {
    hide FirstConns;
  }

  lemma ConnectSteps(s: System, t: nat)
    requires t !in s.callers && !s.pool.closed && s.pool.idle == [] && 0 <= s.pool.out < s.pool.maxSize
    ensures Step(Step(Step(s, Arrive(t)), Enter(t, false)), Connected(t))
         == s.(pool := s.pool.(out := s.pool.out + 1), callers := s.callers[t := Using(s.made)], made := s.made + 1)
  {
    var s2 := Step(Step(s, Arrive(t)), Enter(t, false));
    assert s2 == s.(callers := s.callers[t := Spawning], pool := s.pool.(out := s.pool.out + 1));
  }

  lemma ConnectRoundAdds(maxSize: nat, n: nat, m: nat)
    requires m < maxSize
    ensures Run(Crowded(maxSize, n, m), ConnectRound(m)) == Crowded(maxSize, n, m + 1)
  {
    hide Step, Run, FirstConns;
    var s := Crowded(maxSize, n, m);
    CrowdedUses(maxSize, n, m);
    OneMoreCrowded(maxSize, n, m);
    ConnectSteps(s, m);
    RunThree(s, ConnectRound(m));
  }

  lemma RunThree(s: System, e: seq<Event>)
    requires |e| == 3
    ensures Run(s, e) == Step(Step(Step(s, e[0]), e[1]), e[2])
  {
    hide Step;
    var e2, e1 := e[..2], e[..1];
    assert e2[..1] == e1 && e1[..0] == [];
    assert Run(s, e1) == Step(s, e[0]);
    assert Run(s, e2) == Step(Run(s, e1), e[1]);
  }

  lemma {:induction false} ConnectRoundsFill(maxSize: nat, n: nat, m: nat)
    requires 1 <= m <= maxSize
    ensures Run(Crowded(maxSize, n, 0), ConnectRounds(m)) == Crowded(maxSize, n, m)
  {
    hide Run, Step, Crowded;
    var s := Crowded(maxSize, n, 0);
    if m > 1 {
      ConnectRoundsFill(maxSize, n, m - 1);
    } else {
      RunNone(s);
    }
    RunAppend(s, ConnectRounds(m - 1), ConnectRound(m - 1));
    ConnectRoundAdds(maxSize, n, m - 1);
  }

  /** The limit counts idle and checked-out connections only: any number that their timers have
      taken out can still be open while the whole limit is in use. */
  lemma RetiringConnectionsAreExtra(maxSize: nat, n: nat)
    requires maxSize >= 1
    ensures var s := Run(NewSystem(maxSize), RetireRounds(n) + ConnectRounds(maxSize));
            && s.closing == FirstConns(n) && s.shut == {}
            && forall t: nat :: t < maxSize ==> At(s, t, UsingAfter(n, t))
  {
    hide Run, Step, FirstConns, RetireRounds, ConnectRounds, Crowded, Quiet, At;
    RetireRoundsPile(maxSize, n);
    RunAppend(NewSystem(maxSize), RetireRounds(n), ConnectRounds(maxSize));
    CrowdedUses(maxSize, n, maxSize);
    QuietIsUncrowded(maxSize, n);
    ConnectRoundsFill(maxSize, n, maxSize);
  }

  // ----- what a caller is given

  /** What entering does, in the callers' own terms: an idle connection if there is one, the one
      returned last; a new one only when there is none and fewer than the limit are in use; and
      otherwise the caller waits, until its deadline. */
  lemma EnteringGetsTheBestThereIs(maxSize: nat, events: seq<Event>, t: nat, late: bool)
    requires 1 <= maxSize <= POOL_MAX_CAP && At(Run(NewSystem(maxSize), events), t, Waiting)
    ensures var s := Run(NewSystem(maxSize), events);
            var s' := Step(s, Enter(t, late));
            && s'.made == s.made && (s.pool.closed ==> t !in s'.callers)
            && (!s.pool.closed && s.pool.idle != [] ==>
                  && At(s', t, Checking(s.pool.idle[|s.pool.idle| - 1]))
                  && Idle(s') == Idle(s) - {s.pool.idle[|s.pool.idle| - 1]})
            && (At(s', t, Spawning) <==> !s.pool.closed && Idle(s) == {} && |Busy(s.callers)| < maxSize)
            && (!s.pool.closed && Idle(s) == {} && |Busy(s.callers)| == maxSize ==>
                  if late then t !in s'.callers else s' == s)
  {
    hide Step, Run;
    EveryInterleavingIsSound(maxSize, events);
    RunKeepsMax(NewSystem(maxSize), events);
    EnterGives(Run(NewSystem(maxSize), events), t, late);
  }

  lemma EnterGives(s: System, t: nat, late: bool)
    requires Sound(s) && At(s, t, Waiting)
    ensures var s' := Step(s, Enter(t, late));
            && s'.made == s.made && (s.pool.closed ==> t !in s'.callers)
            && (!s.pool.closed && s.pool.idle != [] ==>
                  && At(s', t, Checking(s.pool.idle[|s.pool.idle| - 1]))
                  && Idle(s') == Idle(s) - {s.pool.idle[|s.pool.idle| - 1]})
            && (At(s', t, Spawning) <==> !s.pool.closed && Idle(s) == {} && |Busy(s.callers)| < s.pool.maxSize)
            && (!s.pool.closed && Idle(s) == {} && |Busy(s.callers)| == s.pool.maxSize ==>
                  if late then t !in s'.callers else s' == s)
  {
    hide Busy, Held, HeldOnce, NoRepeats, OnePlaceEach;
    var s' := Step(s, Enter(t, late));
    assert s' == Entered(s, t, late);
    if s.pool.idle != [] {
      assert s.pool.idle[0] in Idle(s);
      if !s.pool.closed {
        PopIdle(s, s');
      }
    }
  }

  /** A connection given back is the next one given out. */
  lemma ReturnedIsReused(s: System, t: nat, u: nat, conn: nat, late: bool)
    requires !s.pool.closed && At(s, t, Using(conn)) && At(s, u, Waiting)
    ensures var s' := Step(Step(s, Leave(t, false)), Enter(u, late));
            At(s', u, Checking(conn)) && s'.made == s.made && s'.pool.idle == s.pool.idle
  {
    var s1 := Step(s, Leave(t, false));
    assert s1.pool.idle == s.pool.idle + [conn];
    assert (s.pool.idle + [conn])[..|s.pool.idle|] == s.pool.idle;
  }

  /** One caller comes, gets a connection, new or checked, and gives it back. */
  function OneUse(t: nat): seq<Event> {
    [Arrive(t), Enter(t, false), Connected(t), CheckPassed(t), Leave(t, false)]
  }

  function Uses(n: nat): seq<Event> {
    if n == 0 then [] else Uses(n - 1) + OneUse(n)
  }

  /** Nobody is in the pool, and its one connection, if it has opened one, is idle. */
  ghost predicate OneIdle(s: System, maxSize: nat, made: nat) {
    && made <= 1 && s.made == made && s.callers == map[]
    && s.pool == Pool(if made == 0 then [] else [0], 0, false, maxSize)
  }

  lemma UseSteps(s: System, maxSize: nat, made: nat, t: nat)
    requires maxSize >= 1 && OneIdle(s, maxSize, made)
    ensures Step(Step(Step(Step(s, Arrive(t)), Enter(t, false)), Connected(t)), CheckPassed(t))
         == s.(callers := map[t := Using(0)], pool := Pool([], 1, false, maxSize), made := 1)
  {
    var s2 := s.(callers := map[t := if made == 0 then Spawning else Checking(0)], pool := Pool([], 1, false, maxSize));
    assert Step(Step(s, Arrive(t)), Enter(t, false)) == s2;
    UseConnects(s2, made, t);
  }

  lemma UseConnects(s: System, made: nat, t: nat)
    requires made <= 1 && s.made == made && s.callers == map[t := if made == 0 then Spawning else Checking(0)]
    ensures Step(Step(s, Connected(t)), CheckPassed(t)) == s.(callers := map[t := Using(0)], made := 1)
  {
  }

  lemma UseEnds(s: System, maxSize: nat, t: nat)
    requires s.callers == map[t := Using(0)] && s.pool == Pool([], 1, false, maxSize) && s.made == 1
    ensures OneIdle(Step(s, Leave(t, false)), maxSize, 1)
  {
    assert map[t := Using(0)] - {t} == map[];
  }

  lemma OneUseLeaves(s: System, maxSize: nat, made: nat, t: nat)
    requires maxSize >= 1 && OneIdle(s, maxSize, made)
    ensures OneIdle(Run(s, OneUse(t)), maxSize, 1)
  {
    RunFive(s, OneUse(t));
    hide Run, Step, OneIdle;
    UseSteps(s, maxSize, made, t);
    UseEnds(s.(callers := map[t := Using(0)], pool := Pool([], 1, false, maxSize), made := 1), maxSize, t);
  }

  /** Callers who come one after the other share one connection, however many they are. */
  lemma {:induction false} OneAfterAnotherShareOne(maxSize: nat, n: nat)
    requires maxSize >= 1
    ensures OneIdle(Run(NewSystem(maxSize), Uses(n)), maxSize, if n == 0 then 0 else 1)
  {
    hide Step;
    if n > 0 {
      hide Run, OneIdle;
      OneAfterAnotherShareOne(maxSize, n - 1);
      RunAppend(NewSystem(maxSize), Uses(n - 1), OneUse(n));
      OneUseLeaves(Run(NewSystem(maxSize), Uses(n - 1)), maxSize, if n == 1 then 0 else 1, n);
    }
  }

  // ----- the critical sections as the program performs them

  class ConnectionPool {
    const maxSize: nat
    var idle: seq<nat>
    var out: int
    var closed: bool

    function View(): Pool
      reads this
    {
      Pool(idle, out, closed, maxSize)
    }

    /** `None` when the size is not 1 or 2. */
    static method Create(maxSize: nat) returns (pool: Option<ConnectionPool>)
      ensures pool.Some? <==> 1 <= maxSize <= POOL_MAX_CAP
      ensures pool.Some? ==> fresh(pool.value) && pool.value.View() == NewSystem(maxSize).pool
    {
      if maxSize < 1 || maxSize > POOL_MAX_CAP {
        return None;
      }
      var p := new ConnectionPool(maxSize);
      pool := Some(p);
    }

    constructor (maxSize: nat)
      ensures View() == Pool([], 0, false, maxSize)
    {
      this.maxSize, idle, out, closed := maxSize, [], 0, false;
    }

    method Checkout() returns (grant: Grant)
      modifies this
      ensures (View(), grant) == Grab(old(View()))
    {
      if closed {
        return PoolClosed;
      }
      if idle != [] {
        var conn := idle[|idle| - 1];
        idle := idle[..|idle| - 1];
        out := out + 1;
        return Reuse(conn);
      }
      if out < maxSize {
        out := out + 1;
        return Spawn;
      }
      grant := Exhausted;
    }

    /** Whether the connection is to be closed rather than kept. */
    method Checkin(conn: nat, dead: bool) returns (discard: bool)
      modifies this
      ensures View() == PutBack(old(View()), conn, dead)
      ensures discard == (old(closed) || dead)
    {
      out := if out - 1 > 0 then out - 1 else 0;
      discard := closed || dead;
      if !discard {
        idle := idle + [conn];
      }
    }

    method SpawnFailed()
      modifies this
      ensures View() == GiveUp(old(View()))
    {
      out := out - 1;
    }

    /** A timer's section: whether the connection was idle and is now the timer's to close. */
    method TakeOut(conn: nat) returns (mine: bool)
      modifies this
      ensures mine == (conn in old(idle)) && View() == Retire(old(View()), conn)
    {
      NotThere(idle, conn);
      mine := conn in idle;
      if mine {
        idle := Without(idle, conn);
      }
    }

    method CloseAll() returns (toClose: seq<nat>)
      modifies this
      ensures toClose == old(idle) && View() == Close(old(View()))
    {
      closed := true;
      toClose := idle;
      idle := [];
    }
  }

  lemma {:induction false} NotThere(idle: seq<nat>, conn: nat)
    ensures conn !in idle ==> Without(idle, conn) == idle
  {
    if idle != [] {
      assert idle == [idle[0]] + idle[1..];
      NotThere(idle[1..], conn);
    }
  }
}
