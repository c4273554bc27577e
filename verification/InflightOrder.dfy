/** Who runs next: first come, first started, and a killed sibling before anyone waiting. */
module InflightOrder {
  import opened Wrappers
  import opened Inflight
  import opened InflightWorker
  import opened InflightSafety

  // ----- what is submitted

  /** The names as they are started one after the other, from this reading on. */
  function Started(names: seq<string>, u: Setup, tick: nat): (rs: seq<Running>)
    ensures |rs| == |names|
    ensures forall k :: 0 <= k < |rs| ==> rs[k] == Running(names[k], u.env.clock(tick + k))
  {
    seq(|names|, k requires 0 <= k < |names| => Running(names[k], u.env.clock(tick + k)))
  }

  /** How many names the free slots take. */
  function Fits(s: State, u: Setup): (m: nat)
    ensures m <= |s.queue|
  {
    var room := if |s.inflight| < u.width then u.width - |s.inflight| else 0;
    if room < |s.queue| then room else |s.queue|
  }

  lemma SubmitsTheFirst(s: State, u: Setup, held: seq<string>)
    requires Sane(s, u, held) && s.queue != []
    ensures SubmittedOne(s, u).inflight == s.inflight + [Running(s.queue[0], u.env.clock(s.ticks))]
  {
    SubmitKeepsBag(s.queue, s.inflight, held, s.finished, u.env.clock(s.ticks));
  }

  lemma OneSubmitted(s: State, u: Setup, held: seq<string>)
    requires Sane(s, u, held) && s.queue != []
    ensures var started := Running(s.queue[0], u.env.clock(s.ticks));
            SubmittedOne(s, u) == s.(queue := s.queue[1..], inflight := s.inflight + [started], ticks := s.ticks + 1)
  {
    hide Sane, Assign;
    SubmitsTheFirst(s, u, held);
  }

  /** One name, then the rest of the first `m`. */
  lemma StartedStep(queue: seq<string>, before: seq<Running>, u: Setup, tick: nat, m: nat)
    requires 0 < m <= |queue|
    ensures before + [Running(queue[0], u.env.clock(tick))] + Started(queue[1..][..m - 1], u, tick + 1)
         == before + Started(queue[..m], u, tick)
    ensures queue[1..][m - 1..] == queue[m..]
  {
    var rest, all := Started(queue[1..][..m - 1], u, tick + 1), Started(queue[..m], u, tick);
    assert [Running(queue[0], u.env.clock(tick))] + rest == all;
  }

  lemma NothingStarted(s: State, u: Setup)
    ensures s.inflight + Started(s.queue[..0], u, s.ticks) == s.inflight && s.queue[0..] == s.queue
  {
  }

  /** The head of the queue fills the free slots in order, a reading of the clock each. */
  lemma {:induction false} SubmitsInOrder(s: State, u: Setup, held: seq<string>)
    requires Sane(s, u, held)
    ensures var m := Fits(s, u);
            Submitted(s, u) == s.(queue := s.queue[m..], ticks := s.ticks + m,
                                  inflight := s.inflight + Started(s.queue[..m], u, s.ticks))
    decreases |s.queue|
  {
    hide Sane, SubmittedOne, Started;
    var m := Fits(s, u);
    if m == 0 {
      NothingStarted(s, u);
    } else {
      SubmittedOneSane(s, u, held);
      OneSubmitted(s, u, held);
      SubmitsInOrder(SubmittedOne(s, u), u, held);
      StartedStep(s.queue, s.inflight, u, s.ticks, m);
    }
  }

  // ----- the queue is the tail of what was received

  ghost predicate IsTail(queue: seq<string>, received: seq<string>) {
    |queue| <= |received| && received[|received| - |queue|..] == queue
  }

  /** The names not yet started are the last ones received, in the order they came. */
  ghost predicate FirstComeFirst(s: State) {
    IsTail(s.queue, s.received)
  }

  lemma TailDrop(front: seq<string>, waiting: seq<string>, received: seq<string>, m: nat)
    requires IsTail(waiting, received) && |front| <= m <= |front + waiting|
    ensures IsTail((front + waiting)[m..], received)
  {
    assert (front + waiting)[m..] == waiting[m - |front|..];
  }

  lemma TailGrows(queue: seq<string>, received: seq<string>, more: seq<string>)
    requires IsTail(queue, received)
    ensures IsTail(queue + more, received + more)
  {
  }

  lemma SubmittedTail(s: State, u: Setup, held: seq<string>, front: seq<string>, waiting: seq<string>)
    requires Sane(s, u, held) && s.queue == front + waiting && IsTail(waiting, s.received)
    requires |front| <= Fits(s, u)
    ensures FirstComeFirst(Submitted(s, u))
  {
    hide Sane, IsTail;
    SubmitsInOrder(s, u, held);
    TailDrop(front, waiting, s.received, Fits(s, u));
  }

  lemma TakenOrder(s: State, u: Setup, held: seq<string>, n: nat)
    requires Sane(s, u, held) && DistinctSupply(u.names, u.env) && FirstComeFirst(s)
    requires Polite(u.env) ==> |s.queue| + |s.inflight| + n <= Cap(u)
    ensures var s' := Taken(s.(asks := s.asks + 1), u, u.env.reply(s.asks, n));
            FirstComeFirst(s') && s.inflight <= s'.inflight
  {
    hide Sane, IsTail, DistinctSupply, Started, Submitted;
    var more := u.env.reply(s.asks, n);
    var s2 := s.(asks := s.asks + 1, queue := s.queue + more, received := s.received + more);
    EnqueuedSane(s, u, held, n);
    TailGrows(s.queue, s.received, more);
    assert s2.queue == [] + s2.queue;
    SubmittedTail(s2, u, held, [], s2.queue);
    SubmitsInOrder(s2, u, held);
  }

  lemma TimersKeepOrder(s: State, u: Setup, asked: nat, got: nat)
    ensures var s' := TimersSet(s, u, asked, got);
            s'.queue == s.queue && s'.received == s.received && s'.inflight == s.inflight
  {
    hide NextDelay;
  }

  lemma RepliedOrder(s: State, u: Setup, held: seq<string>, claim: Claim)
    requires Sane(s, u, held) && DistinctSupply(u.names, u.env) && FirstComeFirst(s)
    requires WithinRoom(claim, u.width, u.ahead) && claim.running == |s.inflight| && claim.queued == |s.queue|
    ensures FirstComeFirst(Replied(s, u, claim)) && s.inflight <= Replied(s, u, claim).inflight
  {
    ClaimLogged(s, u, held, claim);
    WithinCap(s, u, claim);
    hide Sane, IsTail, DistinctSupply, WithinRoom, Taken, TimersSet, Polite;
    var more := u.env.reply(s.asks, claim.n);
    var logged := s.(claims := s.claims + [claim]);
    var s1 := logged.(asks := s.asks + 1);
    var s2 := if more != [] then Taken(s1, u, more) else s1;
    if more != [] {
      TakenOrder(logged, u, held, claim.n);
    }
    TimersKeepOrder(s2, u, claim.n, |more|);
  }

  /** Submissions and replies only add to what runs, and leave the queue a tail. */
  lemma LaunchedOrder(s: State, u: Setup, held: seq<string>, front: seq<string>, waiting: seq<string>)
    requires Sane(s, u, held) && DistinctSupply(u.names, u.env)
    requires s.queue == front + waiting && IsTail(waiting, s.received) && |front| <= Fits(s, u)
    ensures var s' := Launched(s, u);
            && FirstComeFirst(s')
            && s.inflight + Started(s.queue[..Fits(s, u)], u, s.ticks) <= s'.inflight
  {
    hide Sane, IsTail, DistinctSupply, WithinRoom, Started, Replied, Submitted;
    SubmittedSane(s, u, held);
    SubmittedTail(s, u, held, front, waiting);
    SubmitsInOrder(s, u, held);
    var s1 := Submitted(s, u);
    AskingWithinRoom(s1, u);
    AskingSane(s1, u, held);
    var a := AskingNow(s1, u);
    if a.claim.Some? {
      RepliedOrder(a.state, u, held, a.claim.value);
    }
  }

  lemma LaunchedKeepsOrder(s: State, u: Setup, held: seq<string>)
    requires Sane(s, u, held) && DistinctSupply(u.names, u.env) && FirstComeFirst(s)
    ensures FirstComeFirst(Launched(s, u)) && s.inflight <= Launched(s, u).inflight
  {
    hide Sane, IsTail, DistinctSupply, Launched, Started;
    assert s.queue == [] + s.queue;
    LaunchedOrder(s, u, held, [], s.queue);
  }

  lemma {:induction false} PostedOrder(s: State, u: Setup, ready: seq<Running>, fill: bool)
    requires Sane(s, u, Names(ready)) && DistinctSupply(u.names, u.env) && FirstComeFirst(s)
    ensures FirstComeFirst(Posted(s, u, ready, fill)) && s.inflight <= Posted(s, u, ready, fill).inflight
    decreases |ready|
  {
    hide Sane, IsTail, DistinctSupply, Launched, Names;
    if ready != [] {
      if fill {
        PostOneFilling(s, u, ready);
        LaunchedKeepsOrder(s, u, Names(ready));
      } else {
        PostOneWaiting(s, u, ready);
      }
      PostedOrder(PostedOne(s, u, ready[0], fill), u, ready[1..], fill);
    }
  }

  // ----- one turn

  /** Neither past its deadline nor ready at this turn. */
  function Undecided(s: State, u: Setup): Running -> bool {
    (r: Running) => !Overdue(r, u.env.clock(s.ticks), u.timeout) && !u.env.ready(s.polls, r.name)
  }

  /** The entries a turn leaves to run on. */
  function Siblings(s: State, u: Setup): seq<Running> {
    Filter(s.inflight, Undecided(s, u))
  }

  lemma {:induction false} FilterTwice(
    rs: seq<Running>, p: Running -> bool, q: Running -> bool, both: Running -> bool)
    requires forall r :: r in rs ==> both(r) == (p(r) && q(r))
    ensures Filter(Filter(rs, p), q) == Filter(rs, both)
  {
    if rs != [] {
      FilterTwice(rs[1..], p, q, both);
      var f := Filter(rs, p);
      if p(rs[0]) {
        assert f[0] == rs[0] && f[1..] == Filter(rs[1..], p);
        assert Filter(f, q) == (if q(f[0]) then [f[0]] else []) + Filter(f[1..], q);
      } else {
        assert f == Filter(rs[1..], p) && Filter(rs, both) == Filter(rs[1..], both);
      }
    }
  }

  lemma SiblingsAreKilled(s: State, u: Setup)
    requires Sane(s, u, [])
    ensures Filter(Collected(s, u).inflight, NotNamed(Names(Stuck(s, u)))) == Siblings(s, u)
  {
    var stuck, ready := Names(Stuck(s, u)), Names(Ready(s, u));
    SaneOnce(s, u);
    hide Sane;
    KeptByName(s.inflight, OverdueBy(u.env.clock(s.ticks), u.timeout));
    KeptByName(s.inflight, ReadyIn(stuck, s.polls, u.env));
    FilterTwice(s.inflight, NotNamed(ready), NotNamed(stuck), Undecided(s, u));
  }

  lemma SiblingsFit(s: State, u: Setup)
    requires Sane(s, u, []) && Stuck(s, u) != []
    ensures |Siblings(s, u)| < u.width
  {
    var overdue := OverdueBy(u.env.clock(s.ticks), u.timeout);
    FilterMembers(s.inflight, overdue);
    var r := Stuck(s, u)[0];
    assert r in s.inflight && overdue(r);
    OneFewer(s.inflight, Undecided(s, u), r);
  }

  lemma {:induction false} OneFewer(rs: seq<Running>, p: Running -> bool, r: Running)
    requires r in rs && !p(r)
    ensures |Filter(rs, p)| < |rs|
  {
    FilterMembers(rs[1..], p);
    if r != rs[0] {
      OneFewer(rs[1..], p, r);
    }
  }

  /** What a turn makes of an overdue name's siblings: restarted at once and in their order,
      each from its own reading after the turn's, ahead of every name that waits. */
  ghost predicate Restarted(siblings: seq<Running>, inflight: seq<Running>, u: Setup, tick: nat) {
    && |siblings| <= |inflight|
    && forall k :: 0 <= k < |siblings| ==> inflight[k] == Running(siblings[k].name, u.env.clock(tick + k))
  }

  lemma StartedFirst(killed: seq<Running>, queue: seq<string>, m: nat, inflight: seq<Running>, u: Setup, tick: nat)
    requires |killed| <= m <= |Names(killed) + queue| && Started((Names(killed) + queue)[..m], u, tick) <= inflight
    ensures Restarted(killed, inflight, u, tick)
  {
    NamesAt(killed);
    hide Names;
    var names := (Names(killed) + queue)[..m];
    var started := Started(names, u, tick);
    forall k | 0 <= k < |killed|
      ensures inflight[k] == Running(killed[k].name, u.env.clock(tick + k))
    {
      assert names[k] == killed[k].name && inflight[k] == started[k];
    }
  }

  lemma KilledOrder(s: State, u: Setup, killed: seq<Running>, stuck: seq<Running>, now: real)
    requires Sane(Killed(s, u, stuck, now), u, []) && DistinctSupply(u.names, u.env) && FirstComeFirst(s)
    requires killed == Filter(s.inflight, NotNamed(Names(stuck))) && |killed| < u.width
    ensures var s' := Launched(Killed(s, u, stuck, now), u);
            FirstComeFirst(s') && Restarted(killed, s'.inflight, u, s.ticks)
  {
    NamesAt(killed);
    hide Sane, IsTail, DistinctSupply, Launched, Filter, Names, Parkings, Started, Restarted;
    var k := Killed(s, u, stuck, now);
    LaunchedOrder(k, u, [], Names(killed), s.queue);
    assert [] + Started(k.queue[..Fits(k, u)], u, k.ticks) == Started(k.queue[..Fits(k, u)], u, k.ticks);
    StartedFirst(killed, s.queue, Fits(k, u), Launched(k, u).inflight, u, s.ticks);
  }

  lemma WaitingKeepsTicks(s: State, u: Setup, ready: seq<Running>)
    ensures Posted(s, u, ready, false).ticks == s.ticks
    decreases |ready|
  {
  }

  /** A turn keeps the order of arrival. When a name is overdue the turn restarts its siblings
      first; when none is, the names it leaves run on untouched. */
  lemma PolledOrder(s: State, u: Setup)
    requires Sane(s, u, []) && Filled(s, u) && DistinctSupply(u.names, u.env) && FirstComeFirst(s)
    ensures var s' := Polled(s, u);
            && FirstComeFirst(s')
            && (Stuck(s, u) != [] ==> Restarted(Siblings(s, u), s'.inflight, u, s.ticks + 1))
            && (Stuck(s, u) == [] ==> Siblings(s, u) <= s'.inflight)
  {
    hide Sane, IsTail, Posted, Launched, Stuck, Ready, AskingNow, Siblings, Restarted;
    var now := u.env.clock(s.ticks);
    var stuck, ready := Stuck(s, u), Ready(s, u);
    var c := Collected(s, u);
    CollectedSane(s, u);
    PostedSane(c, u, ready, stuck == []);
    PostedOrder(c, u, ready, stuck == []);
    SiblingsAreKilled(s, u);
    var s1 := Posted(c, u, ready, stuck == []);
    if stuck != [] {
      SiblingsFit(s, u);
      KilledSane(s1, u, now);
      WaitingKeepsTicks(c, u, ready);
      KilledOrder(s1, u, Siblings(s, u), stuck, now);
    } else {
      KeepAll(c.inflight, NotNamed([]));
      if ready == [] {
        AskingWithinRoom(s1, u);
        AskingSane(s1, u, []);
        LaunchedKeepsOrder(AskingNow(s1, u).state, u, []);
      }
    }
  }

  // ----- asking while nothing happens

  /** A turn that finds nobody ready or overdue looks twice before it asks: it asks if and only if
      both looks want to, and for what the second one wants. */
  lemma IdleTurnAsks(s: State, u: Setup)
    requires Sane(s, u, []) && Filled(s, u) && Stuck(s, u) == [] && Ready(s, u) == []
    ensures var first := AskingNow(Collected(s, u), u);
            var second := AskingNow(first.state, u);
            Polled(s, u).claims ==
            s.claims + if first.claim.Some? && second.claim.Some? then [second.claim.value] else []
  {
    hide Stuck, Ready, Sane;
    NothingReady(s, u);
    var c := Collected(s, u);
    AskingSame(c, u);
    var first := AskingNow(c, u);
    AskingSame(first.state, u);
    if first.claim.Some? {
      AlreadyFull(first.state, u);
      LaunchedAsks(first.state, u);
    }
    assert s.claims + [] == s.claims;
  }

  lemma AskingSame(s: State, u: Setup)
    ensures var a := AskingNow(s, u).state;
            a.queue == s.queue && a.inflight == s.inflight && a.claims == s.claims
  {
  }

  lemma AlreadyFull(s: State, u: Setup)
    requires Filled(s, u)
    ensures Submitted(s, u) == s
  {
  }

  lemma {:induction false} SubmittedKeepsClaims(s: State, u: Setup)
    ensures Submitted(s, u).claims == s.claims
    decreases |s.queue|
  {
    if s.queue != [] && |s.inflight| < u.width {
      SubmittedKeepsClaims(SubmittedOne(s, u), u);
    }
  }

  /** A launch asks when the look after its submissions wants to. */
  lemma LaunchedAsks(s: State, u: Setup)
    ensures var claim := AskingNow(Submitted(s, u), u).claim;
            Launched(s, u).claims == s.claims + if claim.Some? then [claim.value] else []
  {
    hide Submitted, NextDelay;
    SubmittedKeepsClaims(s, u);
    var s1 := Submitted(s, u);
    AskingSame(s1, u);
    var a := AskingNow(s1, u);
    if a.claim.Some? {
      var more := u.env.reply(a.state.asks, a.claim.value.n);
      var s2 := a.state.(asks := a.state.asks + 1, claims := a.state.claims + [a.claim.value]);
      SubmittedKeepsClaims(s2.(queue := s2.queue + more, received := s2.received + more), u);
    } else {
      assert s.claims + [] == s.claims;
    }
  }

  // ----- whole runs

  ghost predicate Orderly(s: State, u: Setup) {
    Sane(s, u, []) && Filled(s, u) && FirstComeFirst(s)
  }

  lemma IterationOrderly(s: State, u: Setup)
    requires Orderly(s, u) && DistinctSupply(u.names, u.env)
    ensures Orderly(Iteration(u)(s), u)
  {
    if s.inflight != [] {
      PolledSane(s, u);
      PolledOrder(s, u);
    }
  }

  /** After any number of turns the names still waiting are the last ones received, in the order
      they came, so names are first started in the order they were received. */
  lemma NamesStartInOrder(u: Setup, n: nat)
    requires u.width >= 1 && DistinctSupply(u.names, u.env)
    ensures Orderly(AfterPolls(u, n), u)
  {
    var first := Launched(Initial(u), u);
    InitialSane(u);
    LaunchedSane(Initial(u), u, []);
    LaunchedKeepsOrder(Initial(u), u, []);
    var inv := x => Orderly(x, u);
    forall x | inv(x)
      ensures inv(Iteration(u)(x))
    {
      IterationOrderly(x, u);
    }
    RepeatKeeps(Iteration(u), inv, first, n);
    assert inv(Repeat(Iteration(u), first, n));
  }

  // ----- how much is asked for

  /** The ask for `n` that the worker could make now. */
  function Candidate(s: State, u: Setup, n: nat): Claim {
    Claim(n, |s.inflight|, |s.queue|, s.unposted, u.env.unacked(s.acks), u.env.clock(s.ticks), s.until)
  }

  /** The worker asks if and only if it may refill and some ask respects its limits, and then
      for the most that does. */
  lemma AsksForTheMost(s: State, u: Setup)
    requires u.width >= 1
    ensures var claim := AskingNow(s, u).claim;
            && (claim.Some? <==> u.canRefill && exists n: nat :: WithinRoom(Candidate(s, u, n), u.width, u.ahead))
            && (claim.Some? ==>
                  && claim == Some(Candidate(s, u, claim.value.n))
                  && WithinRoom(claim.value, u.width, u.ahead)
                  && forall n: nat :: WithinRoom(Candidate(s, u, n), u.width, u.ahead) ==> n <= claim.value.n)
  {
    var claim := AskingNow(s, u).claim;
    if claim.Some? {
      assert claim == Some(Candidate(s, u, claim.value.n));
    } else if u.canRefill {
      forall n: nat ensures !WithinRoom(Candidate(s, u, n), u.width, u.ahead) {
      }
    }
  }
}
