/** When the loop returns, if the names it can be given run out: in a bounded number of polls. */
module InflightReturn {
  import opened Wrappers
  import opened Inflight
  import opened InflightWorker
  import opened InflightSafety

  ghost predicate Spanned(env: Environment, n: nat, readings: nat, time: real) {
    env.clock(n + readings) >= env.clock(n) + time
  }

  /** The clock never goes back, and that many readings take at least `time`. */
  ghost predicate Advancing(env: Environment, readings: nat, time: real) {
    && (forall m: nat, n: nat :: m <= n ==> env.clock(m) <= env.clock(n))
    && forall n: nat {:trigger Spanned(env, n, readings, time)} :: Spanned(env, n, readings, time)
  }

  /** Every name handed in or ever leased is one of `supply`. */
  ghost predicate Supplied(u: Setup, supply: set<string>) {
    && (forall x :: x in u.names ==> x in supply)
    && (u.canRefill ==> forall j, n, x :: x in u.env.reply(j, n) ==> x in supply)
  }

  /** There is a deadline, the clock advances, and the supply is finite. */
  ghost predicate Ends(u: Setup, readings: nat, supply: set<string>) {
    && u.timeout > 0.0 && u.width >= 1 && DistinctSupply(u.names, u.env)
    && Advancing(u.env, readings, u.timeout) && Supplied(u, supply)
  }

  /** Only names of the supply were received, and every name in flight was submitted before the
      next reading. */
  ghost predicate Timed(s: State, u: Setup, supply: set<string>) {
    && (forall x :: x in s.received ==> x in supply)
    && forall r :: r in s.inflight ==> r.started <= u.env.clock(s.ticks)
  }

  // ----- what a step does to the clock and to the names in flight

  lemma {:induction false} AssignMembers(rs: seq<Running>, r: Running)
    ensures forall x :: x in Assign(rs, r) ==> x == r || x in rs
  {
    if rs != [] && rs[0].name != r.name {
      AssignMembers(rs[1..], r);
      assert rs == [rs[0]] + rs[1..];
    } else if rs != [] {
      assert rs == [rs[0]] + rs[1..];
    }
  }

  lemma Later(env: Environment, readings: nat, time: real, m: nat, n: nat)
    requires Advancing(env, readings, time) && m <= n
    ensures env.clock(m) <= env.clock(n)
  {
  }

  /** Taking readings, and names of the supply, changes nothing of this. */
  lemma StillTimed(s: State, s': State, u: Setup, readings: nat, supply: set<string>)
    requires Ends(u, readings, supply) && Timed(s, u, supply)
    requires (forall r :: r in s'.inflight ==> r in s.inflight) && s.ticks <= s'.ticks
    requires forall x :: x in s'.received ==> x in supply
    ensures Timed(s', u, supply)
  {
    Later(u.env, readings, u.timeout, s.ticks, s'.ticks);
  }

  lemma OneSubmittedTimed(s: State, u: Setup, readings: nat, supply: set<string>)
    requires Ends(u, readings, supply) && Timed(s, u, supply) && s.queue != []
    ensures Timed(SubmittedOne(s, u), u, supply)
  {
    AssignMembers(s.inflight, Running(s.queue[0], u.env.clock(s.ticks)));
    Later(u.env, readings, u.timeout, s.ticks, s.ticks + 1);
    hide Assign, Advancing, Supplied, DistinctSupply;
  }

  lemma {:induction false} SubmittedTimed(s: State, u: Setup, readings: nat, supply: set<string>)
    requires Ends(u, readings, supply) && Timed(s, u, supply)
    ensures Timed(Submitted(s, u), u, supply) && s.ticks <= Submitted(s, u).ticks
    decreases |s.queue|
  {
    hide Timed, Ends;
    if s.queue != [] && |s.inflight| < u.width {
      OneSubmittedTimed(s, u, readings, supply);
      SubmittedTimed(SubmittedOne(s, u), u, readings, supply);
    }
  }

  lemma AskingReads(s: State, u: Setup)
    ensures var a := AskingNow(s, u);
            && a.state == s.(acks := a.state.acks, ticks := a.state.ticks) && s.ticks <= a.state.ticks
            && (a.claim.Some? ==> u.canRefill)
  {
  }

  lemma TimersRead(s: State, u: Setup, asked: nat, got: nat)
    ensures var s' := TimersSet(s, u, asked, got);
            s'.inflight == s.inflight && s'.received == s.received && s.ticks <= s'.ticks
  {
  }

  lemma RepliedTimed(s: State, u: Setup, readings: nat, supply: set<string>, claim: Claim)
    requires Ends(u, readings, supply) && Timed(s, u, supply) && u.canRefill
    ensures Timed(Replied(s, u, claim), u, supply) && s.ticks <= Replied(s, u, claim).ticks
  {
    hide Timed, Ends, TimersSet, Submitted;
    var more := u.env.reply(s.asks, claim.n);
    var s1 := s.(asks := s.asks + 1, claims := s.claims + [claim]);
    var s0 := s1.(queue := s1.queue + more, received := s1.received + more);
    TimedLater(s, s1, u, readings, supply);
    ReplyTimed(s1, s0, u, readings, supply, s.asks, claim.n);
    SubmittedTimed(s0, u, readings, supply);
    var s2 := if more != [] then Taken(s1, u, more) else s1;
    TimersRead(s2, u, claim.n, |more|);
    TimedLater(s2, TimersSet(s2, u, claim.n, |more|), u, readings, supply);
  }

  lemma ReplyTimed(s: State, s0: State, u: Setup, readings: nat, supply: set<string>, j: nat, n: nat)
    requires Ends(u, readings, supply) && Timed(s, u, supply) && u.canRefill
    requires s0.inflight == s.inflight && s0.ticks == s.ticks && s0.received == s.received + u.env.reply(j, n)
    ensures Timed(s0, u, supply)
  {
    hide DistinctSupply, Advancing;
  }

  lemma TimedLater(s: State, s': State, u: Setup, readings: nat, supply: set<string>)
    requires Ends(u, readings, supply) && Timed(s, u, supply)
    requires s'.inflight == s.inflight && s'.received == s.received && s.ticks <= s'.ticks
    ensures Timed(s', u, supply)
  {
    StillTimed(s, s', u, readings, supply);
  }

  lemma LaunchedTimed(s: State, u: Setup, readings: nat, supply: set<string>)
    requires Ends(u, readings, supply) && Timed(s, u, supply)
    ensures Timed(Launched(s, u), u, supply) && s.ticks <= Launched(s, u).ticks
  {
    hide Timed, Ends, AskingNow, Submitted, Replied;
    SubmittedTimed(s, u, readings, supply);
    var s1 := Submitted(s, u);
    AskingReads(s1, u);
    var a := AskingNow(s1, u);
    TimedLater(s1, a.state, u, readings, supply);
    if a.claim.Some? {
      RepliedTimed(a.state, u, readings, supply, a.claim.value);
    }
  }

  lemma {:induction false} PostedTimed(
    s: State, u: Setup, readings: nat, supply: set<string>, ready: seq<Running>, fill: bool)
    requires Ends(u, readings, supply) && Timed(s, u, supply)
    ensures Timed(Posted(s, u, ready, fill), u, supply) && s.ticks <= Posted(s, u, ready, fill).ticks
    decreases |ready|
  {
    hide Launched, Ends, Timed;
    if ready != [] {
      LaunchedTimed(s, u, readings, supply);
      var s1 := if fill then Launched(s, u) else s;
      TimedLater(s1, PostedOne(s, u, ready[0], fill), u, readings, supply);
      PostedTimed(PostedOne(s, u, ready[0], fill), u, readings, supply, ready[1..], fill);
    }
  }

  lemma CollectedTimed(s: State, u: Setup, readings: nat, supply: set<string>)
    requires Ends(u, readings, supply) && Timed(s, u, supply)
    ensures Timed(Collected(s, u), u, supply) && Collected(s, u).ticks == s.ticks + 1
  {
    hide Ends, Ready;
    FilterMembers(s.inflight, NotNamed(Names(Ready(s, u))));
    hide Filter;
    StillTimed(s, Collected(s, u), u, readings, supply);
  }

  lemma PolledTimed(s: State, u: Setup, readings: nat, supply: set<string>)
    requires Ends(u, readings, supply) && Timed(s, u, supply)
    ensures Timed(Polled(s, u), u, supply) && s.ticks < Polled(s, u).ticks
  {
    hide Ends, Timed, Launched, Collected, Posted, Stuck, Ready, AskingNow;
    var stuck, ready, now := Stuck(s, u), Ready(s, u), u.env.clock(s.ticks);
    CollectedTimed(s, u, readings, supply);
    PostedTimed(Collected(s, u), u, readings, supply, ready, stuck == []);
    var s1 := Posted(Collected(s, u), u, ready, stuck == []);
    if stuck != [] {
      KilledTimed(s1, u, readings, supply, stuck, now);
      LaunchedTimed(Killed(s1, u, stuck, now), u, readings, supply);
    } else if ready == [] {
      AskingReads(s1, u);
      TimedLater(s1, AskingNow(s1, u).state, u, readings, supply);
      LaunchedTimed(AskingNow(s1, u).state, u, readings, supply);
    }
  }

  lemma KilledTimed(s: State, u: Setup, readings: nat, supply: set<string>, stuck: seq<Running>, now: real)
    requires Ends(u, readings, supply) && Timed(s, u, supply)
    ensures Timed(Killed(s, u, stuck, now), u, supply) && Killed(s, u, stuck, now).ticks == s.ticks
  {
    StillTimed(s, Killed(s, u, stuck, now), u, readings, supply);
  }

  /** What the polls keep. */
  ghost predicate Going(s: State, u: Setup, supply: set<string>) {
    Sane(s, u, []) && Filled(s, u) && Timed(s, u, supply)
  }

  lemma EndsDistinct(u: Setup, readings: nat, supply: set<string>)
    requires Ends(u, readings, supply)
    ensures DistinctSupply(u.names, u.env)
  {
  }

  lemma IterationGoes(s: State, u: Setup, readings: nat, supply: set<string>)
    requires Ends(u, readings, supply) && Going(s, u, supply)
    ensures Going(Iteration(u)(s), u, supply) && |s.finished| <= |Iteration(u)(s).finished|
  {
    hide Sane, Filled, Timed, Polled, Ends, DistinctSupply;
    EndsDistinct(u, readings, supply);
    if s.inflight != [] {
      PolledSane(s, u);
      PolledTimed(s, u, readings, supply);
    }
  }

  lemma {:induction false} PollingGoes(s: State, u: Setup, readings: nat, supply: set<string>, n: nat)
    requires Ends(u, readings, supply) && Going(s, u, supply)
    ensures Going(Polling(s, u, n), u, supply) && |s.finished| <= |Polling(s, u, n).finished|
  {
    hide Going, Ends, Iteration;
    if n > 0 {
      PollingGoes(s, u, readings, supply, n - 1);
      IterationGoes(Polling(s, u, n - 1), u, readings, supply);
    }
  }

  // ----- a name stays in flight until it is finished

  lemma {:induction false} SubmittedKeeps(s: State, u: Setup, held: seq<string>, r: Running)
    requires Sane(s, u, held) && r in s.inflight
    ensures r in Submitted(s, u).inflight
    decreases |s.queue|
  {
    if s.queue != [] && |s.inflight| < u.width {
      SubmitKeepsBag(s.queue, s.inflight, held, s.finished, u.env.clock(s.ticks));
      SubmittedOneSane(s, u, held);
      hide Sane, Assign;
      SubmittedKeeps(SubmittedOne(s, u), u, held, r);
    }
  }

  lemma RepliedKeeps(s: State, u: Setup, held: seq<string>, claim: Claim, r: Running)
    requires Sane(s, u, held) && DistinctSupply(u.names, u.env) && r in s.inflight
    requires WithinRoom(claim, u.width, u.ahead) && claim.running == |s.inflight| && claim.queued == |s.queue|
    ensures r in Replied(s, u, claim).inflight
  {
    ClaimLogged(s, u, held, claim);
    WithinCap(s, u, claim);
    hide Sane, DistinctSupply, WithinRoom, TimersSet, Submitted;
    var more := u.env.reply(s.asks, claim.n);
    var s1 := s.(claims := s.claims + [claim]);
    EnqueuedSane(s1, u, held, claim.n);
    SubmittedKeeps(s1.(asks := s.asks + 1, queue := s.queue + more, received := s.received + more), u, held, r);
    var s2 := s1.(asks := s.asks + 1);
    TimersRead(if more != [] then Taken(s2, u, more) else s2, u, claim.n, |more|);
  }

  lemma LaunchedKeeps(s: State, u: Setup, held: seq<string>, r: Running)
    requires Sane(s, u, held) && DistinctSupply(u.names, u.env) && r in s.inflight && u.width >= 1
    ensures r in Launched(s, u).inflight
  {
    hide Sane, DistinctSupply, Submitted, Replied, AskingNow, WithinRoom;
    SubmittedSane(s, u, held);
    SubmittedKeeps(s, u, held, r);
    var s1 := Submitted(s, u);
    AskingWithinRoom(s1, u);
    AskingSane(s1, u, held);
    var a := AskingNow(s1, u);
    if a.claim.Some? {
      RepliedKeeps(a.state, u, held, a.claim.value, r);
    }
  }

  /** A poll that finds nothing to do leaves what is in flight in flight. */
  lemma IdlePoll(s: State, u: Setup, r: Running)
    requires Sane(s, u, []) && DistinctSupply(u.names, u.env) && r in s.inflight
    requires Stuck(s, u) == [] && Ready(s, u) == []
    ensures r in Polled(s, u).inflight
  {
    NothingReady(s, u);
    CollectedSane(s, u);
    var s1 := Collected(s, u);
    SaneWidth(s, u);
    hide Sane, DistinctSupply, Stuck, Ready, Collected, Launched, AskingNow, Names;
    EmptyNames();
    AskingWithinRoom(s1, u);
    AskingSane(s1, u, []);
    LaunchedKeeps(AskingNow(s1, u).state, u, [], r);
  }

  lemma SaneWidth(s: State, u: Setup)
    requires Sane(s, u, [])
    ensures u.width >= 1
  {
  }

  lemma EmptyNames()
    ensures Names([]) == []
  {
  }

  // ----- a stretch of polls

  /** Name `r` is in flight still, nothing has finished, and at least `n` readings were taken. */
  ghost predicate Waits(s: State, x: State, r: Running, n: nat) {
    r in x.inflight && |x.finished| == |s.finished| && s.ticks + n <= x.ticks
  }

  lemma OnePoll(s: State, x: State, u: Setup, readings: nat, supply: set<string>, r: Running, n: nat)
    requires Ends(u, readings, supply) && Going(x, u, supply) && Waits(s, x, r, n)
    ensures var y := Iteration(u)(x);
            |y.finished| > |s.finished| || (Stuck(x, u) == [] && Waits(s, y, r, n + 1))
  {
    hide Polled, Stuck, Ready, Sane, Filled, Timed, Ends, DistinctSupply;
    EndsDistinct(u, readings, supply);
    PollProgress(x, u);
    PolledTimed(x, u, readings, supply);
    if Stuck(x, u) == [] && Ready(x, u) == [] {
      IdlePoll(x, u, r);
    }
  }

  lemma {:induction false} WithinAStretch(
    s: State, u: Setup, readings: nat, supply: set<string>, r: Running, n: nat)
    requires Ends(u, readings, supply) && Going(s, u, supply) && r in s.inflight
    ensures var x := Polling(s, u, n); |x.finished| > |s.finished| || Waits(s, x, r, n)
  {
    hide Going, Ends, Stuck, Polled, Iteration;
    if n > 0 {
      var x := Polling(s, u, n - 1);
      WithinAStretch(s, u, readings, supply, r, n - 1);
      PollingGoes(s, u, readings, supply, n - 1);
      IterationGoes(x, u, readings, supply);
      if |x.finished| <= |s.finished| {
        OnePoll(s, x, u, readings, supply, r, n - 1);
      }
    }
  }

  /** By the time the readings have taken the timeout, whatever is still in flight is overdue. */
  lemma OverdueByThen(s: State, x: State, u: Setup, readings: nat, supply: set<string>, r: Running)
    requires Ends(u, readings, supply) && Going(s, u, supply) && r in s.inflight && Waits(s, x, r, readings)
    ensures Stuck(x, u) != []
  {
    var now := u.env.clock(x.ticks);
    assert r.started <= u.env.clock(s.ticks);
    assert Spanned(u.env, s.ticks, readings, u.timeout);
    Later(u.env, readings, u.timeout, s.ticks + readings, x.ticks);
    hide Sane, Filled, Supplied, DistinctSupply;
    FilterMembers(x.inflight, OverdueBy(now, u.timeout));
    assert OverdueBy(now, u.timeout)(r);
    assert r in Stuck(x, u);
  }

  /** So many polls and one more finish a name. */
  lemma AStretchFinishesOne(s: State, u: Setup, readings: nat, supply: set<string>)
    requires Ends(u, readings, supply) && Going(s, u, supply) && s.inflight != []
    ensures |Polling(s, u, readings + 1).finished| > |s.finished|
  {
    hide Going, Ends, Stuck, Polled, Iteration;
    var r, x := s.inflight[0], Polling(s, u, readings);
    WithinAStretch(s, u, readings, supply, r, readings);
    PollingGoes(s, u, readings, supply, readings);
    IterationGoes(x, u, readings, supply);
    if |x.finished| <= |s.finished| {
      OnePoll(s, x, u, readings, supply, r, readings);
      OverdueByThen(s, x, u, readings, supply, r);
    }
  }

  // ----- until none is left

  lemma {:induction false} PollingAdds(s: State, u: Setup, a: nat, b: nat)
    ensures Polling(s, u, a + b) == Polling(Polling(s, u, a), u, b)
  {
    hide Iteration;
    if b > 0 {
      PollingAdds(s, u, a, b - 1);
      assert a + b - 1 == a + (b - 1);
    }
  }

  lemma {:induction false} EmptyStays(s: State, u: Setup, n: nat)
    requires s.inflight == []
    ensures Polling(s, u, n) == s
  {
    hide Polled;
    if n > 0 {
      EmptyStays(s, u, n - 1);
    }
  }

  function Polls(readings: nat, m: nat): nat {
    if m == 0 then 0 else Polls(readings, m - 1) + (readings + 1)
  }

  lemma PollsStep(readings: nat, m: nat)
    requires m > 0
    ensures Polls(readings, m) == Polls(readings, m - 1) + (readings + 1)
  {
  }

  lemma {:induction false} PollsAre(readings: nat, m: nat)
    ensures Polls(readings, m) == m * (readings + 1)
  {
    if m > 0 {
      PollsAre(readings, m - 1);
      assert m * (readings + 1) == (m - 1) * (readings + 1) + (readings + 1);
    }
  }

  lemma {:induction false} StretchesFinish(s: State, u: Setup, readings: nat, supply: set<string>, m: nat)
    requires Ends(u, readings, supply) && Going(s, u, supply)
    ensures var x := Polling(s, u, Polls(readings, m));
            Going(x, u, supply) && (x.inflight == [] || |x.finished| >= m)
  {
    hide Going, Ends, Polling, Polls;
    PollingGoes(s, u, readings, supply, Polls(readings, m));
    if m > 0 {
      var before := Polls(readings, m - 1);
      var x := Polling(s, u, before);
      StretchesFinish(s, u, readings, supply, m - 1);
      PollsStep(readings, m);
      PollingAdds(s, u, before, readings + 1);
      if x.inflight == [] {
        EmptyStays(x, u, readings + 1);
      } else {
        AStretchFinishesOne(x, u, readings, supply);
      }
    }
  }

  lemma {:induction false} FinishedSize(fs: seq<Finish>)
    ensures |FinishedNames(fs)| == |fs|
  {
    if fs != [] {
      FinishedSize(fs[1..]);
    }
  }

  /** Once as many are finished as were received, nothing is in flight. */
  lemma NoneLeft(s: State, u: Setup)
    requires Sane(s, u, []) && |s.finished| >= |s.received|
    ensures s.inflight == []
  {
    FinishedSize(s.finished);
    NamesAt(s.inflight);
    assert |multiset(s.received)| == |Bag(s.queue, s.inflight, [], s.finished)|;
    assert |Bag(s.queue, s.inflight, [], s.finished)| == |s.queue| + |Names(s.inflight)| + |FinishedNames(s.finished)|;
  }

  lemma OnceSnoc(front: seq<string>, x: string)
    requires Once(multiset(front + [x]))
    ensures Once(multiset(front)) && x !in front
  {
    assert multiset(front + [x]) == multiset(front) + multiset{x};
    forall y ensures AtMostOne(multiset(front), y) {
      assert AtMostOne(multiset(front + [x]), y);
    }
    assert AtMostOne(multiset(front + [x]), x);
  }

  lemma {:induction false} NoMoreThanSupply(names: seq<string>, supply: set<string>)
    requires Once(multiset(names)) && forall x :: x in names ==> x in supply
    ensures |names| <= |supply|
    decreases |names|
  {
    if names != [] {
      var front, x := names[..|names| - 1], names[|names| - 1];
      assert names == front + [x];
      OnceSnoc(front, x);
      hide Once;
      NoMoreThanSupply(front, supply - {x});
    }
  }

  lemma ReceivedWithinSupply(s: State, u: Setup, supply: set<string>)
    requires Going(s, u, supply)
    ensures |s.received| <= |supply|
  {
    NoMoreThanSupply(s.received, supply);
  }

  lemma StartGoes(u: Setup, readings: nat, supply: set<string>)
    requires Ends(u, readings, supply)
    ensures Going(Launched(Initial(u), u), u, supply)
  {
    InitialSane(u);
    LaunchedSane(Initial(u), u, []);
    LaunchedTimed(Initial(u), u, readings, supply);
  }

  /** With a deadline and a finite supply of names, refills included, the loop is back after at most
      as many polls as there are names, times one more than the readings that take the deadline,
      whatever the tasks and the replies do. */
  lemma AFiniteSupplyRunsOut(u: Setup, readings: nat, supply: set<string>)
    requires Ends(u, readings, supply)
    ensures AfterPolls(u, |supply| * (readings + 1)).inflight == []
  {
    hide Polling, Ends, Polls, Going, Launched;
    var s := Launched(Initial(u), u);
    StartGoes(u, readings, supply);
    PollsAre(readings, |supply|);
    StretchesFinish(s, u, readings, supply, |supply|);
    var x := Polling(s, u, Polls(readings, |supply|));
    if |x.finished| >= |supply| {
      ReceivedWithinSupply(x, u, supply);
      GoingIsSane(x, u, supply);
      NoneLeft(x, u);
    }
  }

  lemma GoingIsSane(s: State, u: Setup, supply: set<string>)
    requires Going(s, u, supply)
    ensures Sane(s, u, [])
  {
  }

  function Distinct(names: seq<string>): (supply: set<string>)
    ensures forall x :: x in supply <==> x in names
    ensures |supply| <= |names|
  {
    if names == [] then {}
    else
      var front := Distinct(names[..|names| - 1]);
      assert names == names[..|names| - 1] + [names[|names| - 1]];
      front + {names[|names| - 1]}
  }

  lemma FewerPolls(a: nat, b: nat, readings: nat)
    requires a <= b
    ensures a * (readings + 1) <= b * (readings + 1)
  {
    assert (b - a) * (readings + 1) >= 0;
    assert b * (readings + 1) == a * (readings + 1) + (b - a) * (readings + 1);
  }

  /** Once back, the loop stays back. */
  lemma StillBack(u: Setup, a: nat, b: nat)
    requires AfterPolls(u, a).inflight == [] && a <= b
    ensures AfterPolls(u, b).inflight == []
  {
    hide Polling, Launched;
    var s := Launched(Initial(u), u);
    PollingAdds(s, u, a, b - a);
    EmptyStays(Polling(s, u, a), u, b - a);
  }

  /** Without a refill the names handed in are the supply. */
  lemma TheLoopReturns(u: Setup, readings: nat)
    requires !u.canRefill && u.timeout > 0.0 && u.width >= 1
    requires DistinctSupply(u.names, u.env) && Advancing(u.env, readings, u.timeout)
    ensures AfterPolls(u, |u.names| * (readings + 1)).inflight == []
  {
    hide AfterPolls, DistinctSupply, Advancing;
    var supply := Distinct(u.names);
    AFiniteSupplyRunsOut(u, readings, supply);
    FewerPolls(|supply|, |u.names|, readings);
    StillBack(u, |supply| * (readings + 1), |u.names| * (readings + 1));
  }
}
