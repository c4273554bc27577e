/** What every run of the in-flight loop keeps, and what a return has finished. */
module InflightSafety {
  import opened Inflight
  import opened InflightWorker

  ghost predicate Polite(env: Environment) {
    forall j, n {:trigger env.reply(j, n)} :: |env.reply(j, n)| <= n
  }

  /** The most names the worker holds locally when replies are never longer than the ask. */
  function Cap(u: Setup): nat {
    if |u.names| > u.width + u.ahead then |u.names| else u.width + u.ahead
  }

  /** `held` lists the results collected and not yet posted. */
  ghost predicate Sane(s: State, u: Setup, held: seq<string>) {
    && u.width >= 1 && s.unposted == |held|
    && Once(multiset(s.received)) && AllSupplied(s.received, u.names, u.env, s.asks)
    && multiset(s.received) == Bag(s.queue, s.inflight, held, s.finished)
    && |s.inflight| <= u.width
    && (forall k :: 0 <= k < |s.claims| ==> WithinRoom(s.claims[k], u.width, u.ahead))
    && (forall k :: 0 <= k < |s.finished| ==> Deserved(s.finished[k], u.timeout))
    && Bounded(s.delay)
    && (Polite(u.env) ==> |s.queue| + |s.inflight| <= Cap(u))
  }

  /** No slot is idle while a name waits. */
  ghost predicate Filled(s: State, u: Setup) {
    s.queue == [] || |s.inflight| == u.width
  }

  lemma {:induction false} SubmittedSane(s: State, u: Setup, held: seq<string>)
    requires Sane(s, u, held)
    ensures var s' := Submitted(s, u);
            && Sane(s', u, held) && Filled(s', u)
            && |s'.queue| + |s'.inflight| == |s.queue| + |s.inflight|
            && s'.finished == s.finished && s'.received == s.received && s'.claims == s.claims
            && s'.asks == s.asks && s'.unposted == s.unposted && s'.until == s.until && s'.delay == s.delay
    decreases |s.queue|
  {
    if s.queue != [] && |s.inflight| < u.width {
      SubmittedOneSane(s, u, held);
      SubmittedSane(SubmittedOne(s, u), u, held);
    }
  }

  lemma SubmittedOneSane(s: State, u: Setup, held: seq<string>)
    requires Sane(s, u, held) && s.queue != [] && |s.inflight| < u.width
    ensures Sane(SubmittedOne(s, u), u, held)
    ensures |SubmittedOne(s, u).inflight| == |s.inflight| + 1
  {
    SubmitKeepsBag(s.queue, s.inflight, held, s.finished, u.env.clock(s.ticks));
  }

  /** Every ask is within the room the worker has, after the backoff, and worth a call. */
  lemma AskingWithinRoom(s: State, u: Setup)
    requires u.width >= 1
    ensures var a := AskingNow(s, u);
            && a.state == s.(acks := a.state.acks, ticks := a.state.ticks)
            && (a.claim.Some? ==>
                  && WithinRoom(a.claim.value, u.width, u.ahead)
                  && a.claim.value.running == |s.inflight| && a.claim.value.queued == |s.queue|
                  && a.claim.value.unposted == s.unposted && a.claim.value.until == s.until)
  {
  }

  /** Names received and not yet submitted. */
  lemma EnqueuedSane(s: State, u: Setup, held: seq<string>, n: nat)
    requires Sane(s, u, held) && DistinctSupply(u.names, u.env)
    requires Polite(u.env) ==> |s.queue| + |s.inflight| + n <= Cap(u)
    ensures var more := u.env.reply(s.asks, n);
            Sane(s.(asks := s.asks + 1, queue := s.queue + more, received := s.received + more), u, held)
  {
    ReplyIsNew(s.received, u.names, u.env, s.asks, n);
    EnqueueKeepsBag(s.received, u.env.reply(s.asks, n), s.queue, s.inflight, held, s.finished);
    hide DistinctSupply, Once, AllSupplied, Bag;
  }

  lemma TakenSane(s: State, u: Setup, held: seq<string>, n: nat)
    requires Sane(s, u, held) && DistinctSupply(u.names, u.env)
    requires Polite(u.env) ==> |s.queue| + |s.inflight| + n <= Cap(u)
    ensures var s' := Taken(s.(asks := s.asks + 1), u, u.env.reply(s.asks, n));
            && Sane(s', u, held) && Filled(s', u)
            && s'.finished == s.finished && s'.claims == s.claims && s.received <= s'.received
            && s'.unposted == s.unposted
  {
    hide Sane, DistinctSupply, Submitted;
    var more := u.env.reply(s.asks, n);
    EnqueuedSane(s, u, held, n);
    SubmittedSane(s.(asks := s.asks + 1, queue := s.queue + more, received := s.received + more), u, held);
  }

  lemma ClaimLogged(s: State, u: Setup, held: seq<string>, claim: Claim)
    requires Sane(s, u, held) && WithinRoom(claim, u.width, u.ahead)
    ensures Sane(s.(claims := s.claims + [claim]), u, held)
  {
  }

  lemma NextDelayBounded(delay: real)
    requires Bounded(delay)
    ensures CLAIM_EMPTY_BACKOFF_SECONDS <= NextDelay(delay) <= CLAIM_EMPTY_BACKOFF_MAX_SECONDS
    ensures NextDelay(delay) == (if delay == 0.0 then CLAIM_EMPTY_BACKOFF_SECONDS
                                 else if 2.0 * delay < CLAIM_EMPTY_BACKOFF_MAX_SECONDS then 2.0 * delay
                                 else CLAIM_EMPTY_BACKOFF_MAX_SECONDS)
  {
  }

  lemma TimerFieldsSane(
    s: State, u: Setup, held: seq<string>, delay: real, until: real, ticks: nat, answers: seq<Answer>)
    requires Sane(s, u, held) && Bounded(delay) && Filled(s, u)
    ensures var s' := s.(delay := delay, until := until, ticks := ticks, answers := answers);
            Sane(s', u, held) && Filled(s', u)
  {
  }

  lemma TimersSane(s: State, u: Setup, held: seq<string>, asked: nat, got: nat)
    requires Sane(s, u, held) && Filled(s, u)
    ensures var s' := TimersSet(s, u, asked, got);
            && Sane(s', u, held) && Filled(s', u) && s'.finished == s.finished && s'.received == s.received
            && s'.unposted == s.unposted && s'.claims == s.claims
  {
    hide Sane, Filled, TimersSet, Bounded;
    SaneDelay(s, u, held);
    var delay, until, ticks, answers := TimersAre(s, u, asked, got);
    TimerFieldsSane(s, u, held, delay, until, ticks, answers);
  }

  lemma SaneDelay(s: State, u: Setup, held: seq<string>)
    requires Sane(s, u, held)
    ensures Bounded(s.delay)
  {
  }

  /** Only the timers, a reading and the log of answers change. */
  lemma TimersAre(s: State, u: Setup, asked: nat, got: nat)
    returns (delay: real, until: real, ticks: nat, answers: seq<Answer>)
    requires Bounded(s.delay)
    ensures TimersSet(s, u, asked, got) == s.(delay := delay, until := until, ticks := ticks, answers := answers)
    ensures Bounded(delay) && s.ticks <= ticks
  {
    NextDelayBounded(s.delay);
    hide NextDelay;
    var s' := TimersSet(s, u, asked, got);
    delay, until, ticks, answers := s'.delay, s'.until, s'.ticks, s'.answers;
  }

  lemma EmptyReplySane(s: State, u: Setup, held: seq<string>, n: nat)
    requires Sane(s, u, held) && DistinctSupply(u.names, u.env) && u.env.reply(s.asks, n) == []
    ensures Sane(s.(asks := s.asks + 1), u, held)
  {
    ReplyIsNew(s.received, u.names, u.env, s.asks, n);
    assert s.received + [] == s.received;
  }

  lemma NoNamesSane(s: State, u: Setup, held: seq<string>, claim: Claim)
    requires Sane(s, u, held) && DistinctSupply(u.names, u.env) && Filled(s, u)
    requires WithinRoom(claim, u.width, u.ahead) && u.env.reply(s.asks, claim.n) == []
    ensures var s1 := s.(asks := s.asks + 1, claims := s.claims + [claim]);
            Sane(s1, u, held) && Filled(s1, u)
  {
    ClaimLogged(s, u, held, claim);
    hide Sane, Filled, DistinctSupply, WithinRoom;
    var logged := s.(claims := s.claims + [claim]);
    EmptyReplySane(logged, u, held, claim.n);
    SameFilled(s, logged.(asks := s.asks + 1), u);
  }

  lemma NamesTakenSane(s: State, u: Setup, held: seq<string>, claim: Claim)
    requires Sane(s, u, held) && DistinctSupply(u.names, u.env)
    requires WithinRoom(claim, u.width, u.ahead) && claim.running == |s.inflight| && claim.queued == |s.queue|
    ensures var s1 := s.(asks := s.asks + 1, claims := s.claims + [claim]);
            var s2 := Taken(s1, u, u.env.reply(s.asks, claim.n));
            && Sane(s2, u, held) && Filled(s2, u) && s2.finished == s.finished && s.received <= s2.received
            && s2.unposted == s.unposted && s2.claims == s1.claims
  {
    ClaimLogged(s, u, held, claim);
    WithinCap(s, u, claim);
    hide Taken, Sane, Filled, DistinctSupply, WithinRoom;
    TakenSane(s.(claims := s.claims + [claim]), u, held, claim.n);
  }

  lemma RepliedSane(s: State, u: Setup, held: seq<string>, claim: Claim)
    requires Sane(s, u, held) && DistinctSupply(u.names, u.env) && Filled(s, u)
    requires WithinRoom(claim, u.width, u.ahead) && claim.running == |s.inflight| && claim.queued == |s.queue|
    ensures var s' := Replied(s, u, claim);
            && Sane(s', u, held) && Filled(s', u)
            && s'.finished == s.finished && s.received <= s'.received
            && s'.unposted == s.unposted && s'.claims == s.claims + [claim]
  {
    hide Taken, TimersSet, Sane, Filled, DistinctSupply, WithinRoom;
    var more := u.env.reply(s.asks, claim.n);
    var s1 := s.(asks := s.asks + 1, claims := s.claims + [claim]);
    if more == [] {
      NoNamesSane(s, u, held, claim);
      TimersSane(s1, u, held, claim.n, 0);
    } else {
      NamesTakenSane(s, u, held, claim);
      TimersSane(Taken(s1, u, more), u, held, claim.n, |more|);
    }
  }

  lemma WithinCap(s: State, u: Setup, claim: Claim)
    requires WithinRoom(claim, u.width, u.ahead) && claim.running == |s.inflight| && claim.queued == |s.queue|
    ensures |s.queue| + |s.inflight| + claim.n <= Cap(u)
  {
  }

  lemma SameFilled(s: State, s': State, u: Setup)
    requires Filled(s, u) && s'.queue == s.queue && s'.inflight == s.inflight
    ensures Filled(s', u)
  {
  }

  lemma ReadingsSane(s: State, u: Setup, held: seq<string>, acks: nat, ticks: nat)
    requires Sane(s, u, held)
    ensures Sane(s.(acks := acks, ticks := ticks), u, held)
  {
  }

  lemma AskingSane(s: State, u: Setup, held: seq<string>)
    requires Sane(s, u, held)
    ensures Sane(AskingNow(s, u).state, u, held)
  {
    AskingWithinRoom(s, u);
    ReadingsSane(s, u, held, AskingNow(s, u).state.acks, AskingNow(s, u).state.ticks);
    hide *;
  }

  lemma LaunchedSane(s: State, u: Setup, held: seq<string>)
    requires Sane(s, u, held) && DistinctSupply(u.names, u.env)
    ensures var s' := Launched(s, u);
            && Sane(s', u, held) && Filled(s', u)
            && s'.finished == s.finished && s.received <= s'.received && s'.unposted == s.unposted
            && s.claims <= s'.claims
  {
    hide Sane, Submitted, Replied;
    SubmittedSane(s, u, held);
    var s1 := Submitted(s, u);
    AskingWithinRoom(s1, u);
    var a := AskingNow(s1, u);
    AskingSane(s1, u, held);
    if a.claim.Some? {
      RepliedSane(a.state, u, held, a.claim.value);
    }
  }

  function Evaluations(rs: seq<Running>): seq<Finish> {
    if rs == [] then [] else [Finish(rs[0].name, Evaluated)] + Evaluations(rs[1..])
  }

  lemma EvaluationsStep(finished: seq<Finish>, rs: seq<Running>)
    requires rs != []
    ensures finished + [Finish(rs[0].name, Evaluated)] + Evaluations(rs[1..]) == finished + Evaluations(rs)
  {
  }

  lemma FinishSane(s: State, u: Setup, held: seq<string>, f: Finish)
    requires Sane(s, u, held) && held != [] && held[0] == f.name && Deserved(f, u.timeout)
    ensures Sane(s.(finished := s.finished + [f], unposted := s.unposted - 1), u, held[1..])
  {
    FinishKeepsBag(s.queue, s.inflight, held, s.finished, f);
  }

  lemma {:induction false} PostOneFilling(s: State, u: Setup, ready: seq<Running>)
    requires Sane(s, u, Names(ready)) && DistinctSupply(u.names, u.env) && ready != []
    ensures var s' := PostedOne(s, u, ready[0], true);
            && Sane(s', u, Names(ready[1..])) && Filled(s', u)
            && s'.finished == s.finished + [Finish(ready[0].name, Evaluated)]
            && s.received <= s'.received
  {
    LaunchedSane(s, u, Names(ready));
    NamesHead(ready);
    FinishSane(Launched(s, u), u, Names(ready), Finish(ready[0].name, Evaluated));
  }

  lemma {:induction false} PostOneWaiting(s: State, u: Setup, ready: seq<Running>)
    requires Sane(s, u, Names(ready)) && ready != []
    ensures var s' := PostedOne(s, u, ready[0], false);
            && Sane(s', u, Names(ready[1..])) && s'.inflight == s.inflight && s'.queue == s.queue
            && s'.finished == s.finished + [Finish(ready[0].name, Evaluated)]
            && s.received == s'.received
  {
    NamesHead(ready);
    FinishSane(s, u, Names(ready), Finish(ready[0].name, Evaluated));
  }

  lemma NamesHead(rs: seq<Running>)
    requires rs != []
    ensures Names(rs) != [] && Names(rs)[0] == rs[0].name && Names(rs)[1..] == Names(rs[1..])
  {
    assert Names(rs) == [rs[0].name] + Names(rs[1..]);
  }

  lemma {:induction false} PostedSane(s: State, u: Setup, ready: seq<Running>, fill: bool)
    requires Sane(s, u, Names(ready)) && DistinctSupply(u.names, u.env)
    ensures var s' := Posted(s, u, ready, fill);
            && Sane(s', u, [])
            && s'.finished == s.finished + Evaluations(ready)
            && s.received <= s'.received
            && (fill && (ready != [] || Filled(s, u)) ==> Filled(s', u))
            && (!fill || ready == [] ==> s'.inflight == s.inflight && s'.queue == s.queue)
    decreases |ready|
  {
    if ready == [] {
      assert s.finished + [] == s.finished;
    } else {
      if fill {
        PostOneFilling(s, u, ready);
      } else {
        PostOneWaiting(s, u, ready);
      }
      var s2 := PostedOne(s, u, ready[0], fill);
      PostedSane(s2, u, ready[1..], fill);
      EvaluationsStep(s.finished, ready);
    }
  }

  // ----- one poll

  lemma CollectedSane(s: State, u: Setup)
    requires Sane(s, u, [])
    ensures Sane(Collected(s, u), u, Names(Ready(s, u)))
    ensures Filter(Collected(s, u).inflight, OverdueBy(u.env.clock(s.ticks), u.timeout)) == Stuck(s, u)
  {
    var now := u.env.clock(s.ticks);
    var stuck, ready := Stuck(s, u), Ready(s, u);
    var chosen, rest := ReadyIn(Names(stuck), s.polls, u.env), NotNamed(Names(ready));
    OnceIsDistinct(s.inflight, multiset(s.received));
    KeptByName(s.inflight, chosen);
    KeptByName(s.inflight, OverdueBy(now, u.timeout));
    TakeKeepsBag(s.queue, s.inflight, s.finished, chosen, rest);
    NamesAt(ready);
    FilterWithin(s.inflight, rest, OverdueBy(now, u.timeout));
  }

  lemma {:induction false} ParkingsDeserved(rs: seq<Running>, now: real, timeout: real)
    requires forall r :: r in rs ==> Overdue(r, now, timeout)
    ensures forall k :: 0 <= k < |Parkings(rs, now)| ==> Deserved(Parkings(rs, now)[k], timeout)
    ensures FinishedNames(Parkings(rs, now)) == Names(rs)
    ensures |Parkings(rs, now)| == |rs|
  {
    if rs != [] {
      ParkingsDeserved(rs[1..], now, timeout);
      var all, rest := Parkings(rs, now), Parkings(rs[1..], now);
      assert rs[0] in rs && Overdue(rs[0], now, timeout);
      forall k | 0 <= k < |all|
        ensures Deserved(all[k], timeout)
      {
        assert k == 0 || all[k] == rest[k - 1];
      }
    }
  }

  lemma KilledSane(s: State, u: Setup, now: real)
    requires Sane(s, u, [])
    ensures var stuck := Filter(s.inflight, OverdueBy(now, u.timeout));
            Sane(Killed(s, u, stuck, now), u, [])
  {
    hide Filter, Names, Parkings, FinishedNames, Once, AllSupplied, WithinRoom, Bounded;
    var overdue := OverdueBy(now, u.timeout);
    var stuck := Filter(s.inflight, overdue);
    var others := NotNamed(Names(stuck));
    SaneOnce(s, u);
    KeptByName(s.inflight, overdue);
    FilterMembers(s.inflight, overdue);
    TakeKeepsBag(s.queue, s.inflight, s.finished, overdue, others);
    ParkingsDeserved(stuck, now, u.timeout);
    var killed := Filter(s.inflight, others);
    ParkedBag(s.queue, killed, stuck, s.finished, Parkings(stuck, now));
    NamesAt(killed);
    hide Bag, Overdue;
  }

  lemma SaneOnce(s: State, u: Setup)
    requires Sane(s, u, [])
    ensures DistinctNames(s.inflight)
  {
    OnceIsDistinct(s.inflight, multiset(s.received));
  }

  lemma ParkedBag(
    queue: seq<string>, killed: seq<Running>, stuck: seq<Running>, finished: seq<Finish>, parked: seq<Finish>)
    requires FinishedNames(parked) == Names(stuck)
    ensures Bag(Names(killed) + queue, [], [], finished + parked) == Bag(queue, killed, Names(stuck), finished)
  {
    FinishedAppend(finished, parked);
  }

  /** One poll finishes exactly the ready names as evaluated and exactly the stuck ones as
      parked, loses none, and leaves no slot idle while a name waits. */
  lemma PolledSane(s: State, u: Setup)
    requires Sane(s, u, []) && Filled(s, u) && DistinctSupply(u.names, u.env)
    ensures var s' := Polled(s, u);
            && Sane(s', u, []) && Filled(s', u)
            && s'.finished == s.finished + Evaluations(Ready(s, u)) + Parkings(Stuck(s, u), u.env.clock(s.ticks))
            && s.received <= s'.received
  {
    hide Sane, Posted, Launched, Stuck, Ready, AskingNow;
    var now := u.env.clock(s.ticks);
    var stuck, ready := Stuck(s, u), Ready(s, u);
    CollectedSane(s, u);
    PostedSane(Collected(s, u), u, ready, stuck == []);
    var s1 := Posted(Collected(s, u), u, ready, stuck == []);
    if stuck != [] {
      assert Filter(s1.inflight, OverdueBy(now, u.timeout)) == stuck;
      KilledSane(s1, u, now);
      LaunchedSane(Killed(s1, u, stuck, now), u, []);
    } else {
      assert s1.finished + Parkings(stuck, now) == s1.finished;
      if ready == [] {
        NothingReady(s, u);
        AskingWithinRoom(s1, u);
        AskingSane(s1, u, []);
        var asking := AskingNow(s1, u);
        LaunchedSane(asking.state, u, []);
      }
    }
  }

  lemma NothingReady(s: State, u: Setup)
    requires Ready(s, u) == []
    ensures Collected(s, u).inflight == s.inflight
  {
    KeepAll(s.inflight, NotNamed([]));
  }

  lemma {:induction false} KeepAll(rs: seq<Running>, p: Running -> bool)
    requires forall r :: r in rs ==> p(r)
    ensures Filter(rs, p) == rs
  {
    if rs != [] {
      KeepAll(rs[1..], p);
    }
  }

  /** What holds between two moments of the loop. */
  ghost predicate Kept(s: State, s': State, u: Setup) {
    Sane(s', u, []) && Filled(s', u) && s.finished <= s'.finished && s.received <= s'.received
  }

  lemma IterationKept(s: State, x: State, u: Setup)
    requires Kept(s, x, u) && DistinctSupply(u.names, u.env)
    ensures Kept(s, Iteration(u)(x), u)
  {
    if x.inflight != [] {
      PolledSane(x, u);
    }
  }

  lemma PollingSane(s: State, u: Setup, n: nat)
    requires Sane(s, u, []) && Filled(s, u) && DistinctSupply(u.names, u.env)
    ensures Kept(s, Polling(s, u, n), u)
  {
    var inv := x => Kept(s, x, u);
    forall x | inv(x)
      ensures inv(Iteration(u)(x))
    {
      IterationKept(s, x, u);
    }
    RepeatKeeps(Iteration(u), inv, s, n);
    assert inv(Repeat(Iteration(u), s, n));
  }

  // ----- whole runs

  function AfterPolls(u: Setup, n: nat): State {
    Polling(Launched(Initial(u), u), u, n)
  }

  lemma InitialSane(u: Setup)
    requires u.width >= 1 && DistinctSupply(u.names, u.env)
    ensures Sane(Initial(u), u, [])
  {
    forall x | x in u.names
      ensures FromSupply(x, u.names, u.env, 0)
    {
    }
  }

  /** After any number of polls, under any clock, readiness and replies: names received are
      queued, in flight or finished, each once; no more than `width` are in flight; every
      ask was within bounds; only overdue names were parked; the empty-reply delay is zero
      or within its limits. */
  lemma ReachableSane(u: Setup, n: nat)
    requires u.width >= 1 && DistinctSupply(u.names, u.env)
    ensures Sane(AfterPolls(u, n), u, []) && Filled(AfterPolls(u, n), u)
  {
    InitialSane(u);
    LaunchedSane(Initial(u), u, []);
    PollingSane(Launched(Initial(u), u), u, n);
  }

  /** When the loop returns, every name received has been finished exactly once. */
  lemma ReturnFinishesEveryNameOnce(u: Setup, n: nat)
    requires u.width >= 1 && DistinctSupply(u.names, u.env)
    requires AfterPolls(u, n).inflight == []
    ensures var s := AfterPolls(u, n);
            && s.queue == []
            && multiset(FinishedNames(s.finished)) == multiset(s.received)
            && (forall x :: x in s.received ==> multiset(FinishedNames(s.finished))[x] == 1)
            && u.names <= s.received
  {
    ReachableSane(u, n);
    InitialSane(u);
    LaunchedSane(Initial(u), u, []);
    PollingSane(Launched(Initial(u), u), u, n);
    var s := AfterPolls(u, n);
    assert Bag([], [], [], s.finished) == multiset(FinishedNames(s.finished));
    forall x | x in s.received
      ensures multiset(FinishedNames(s.finished))[x] == 1
    {
      assert AtMostOne(multiset(s.received), x);
      assert x in multiset(s.received);
    }
  }

  /** A poll that finds a name ready or stuck strictly lengthens the finished list. */
  lemma PollProgress(s: State, u: Setup)
    requires Sane(s, u, []) && Filled(s, u) && DistinctSupply(u.names, u.env)
    ensures |Polled(s, u).finished| == |s.finished| + |Ready(s, u)| + |Stuck(s, u)|
  {
    PolledSane(s, u);
    EvaluationsLength(Ready(s, u));
    FilterMembers(s.inflight, OverdueBy(u.env.clock(s.ticks), u.timeout));
    ParkingsDeserved(Stuck(s, u), u.env.clock(s.ticks), u.timeout);
  }

  lemma {:induction false} EvaluationsLength(rs: seq<Running>)
    ensures |Evaluations(rs)| == |rs|
  {
    if rs != [] {
      EvaluationsLength(rs[1..]);
    }
  }
}
