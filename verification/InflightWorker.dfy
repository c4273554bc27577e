/** The loop itself, as an object whose fields the nested functions rebind. */
module InflightWorker {
  import opened Wrappers
  import opened Inflight

  /** What an ask for `c.n` more names must respect. */
  ghost predicate WithinRoom(c: Claim, width: nat, ahead: nat) {
    && c.n > 0 && c.queued < width
    && c.running + c.queued + c.n <= width + ahead
    && c.running + c.queued + c.unposted + c.unacked + c.n <= PROD_LEASES_PER_LANE * width
    && c.now >= c.until
    && (2 * c.n >= width || (c.running < width && c.queued == 0))
  }

  /** A name is parked only after its own deadline. */
  ghost predicate Deserved(f: Finish, timeout: real) {
    f.outcome.Parked? ==> timeout > 0.0 && f.outcome.now - f.outcome.started >= timeout
  }

  ghost predicate Bounded(delay: real) {
    delay == 0.0 || CLAIM_EMPTY_BACKOFF_SECONDS <= delay <= CLAIM_EMPTY_BACKOFF_MAX_SECONDS
  }

  /** No name is received twice: not initially, not within a reply, not across replies. */
  ghost predicate DistinctSupply(names: seq<string>, env: Environment) {
    && Once(multiset(names))
    && (forall j, n :: Once(multiset(env.reply(j, n))))
    && (forall j, n, x :: x in env.reply(j, n) ==> x !in names)
    && (forall i, j, n, m, x :: x in env.reply(i, n) && x in env.reply(j, m) ==> i == j)
  }

  ghost predicate AtMostOne(bag: multiset<string>, x: string) {
    bag[x] <= 1
  }

  ghost predicate Once(bag: multiset<string>) {
    forall x {:trigger AtMostOne(bag, x)} :: AtMostOne(bag, x)
  }

  ghost predicate FromSupply(x: string, names: seq<string>, env: Environment, asks: nat) {
    x in names || exists j: nat, n: nat :: j < asks && x in env.reply(j, n)
  }

  ghost predicate AllSupplied(received: seq<string>, names: seq<string>, env: Environment, asks: nat) {
    forall x {:trigger FromSupply(x, names, env, asks)} :: x in received ==> FromSupply(x, names, env, asks)
  }

  /** A fresh reply brings only new names. */
  lemma ReplyIsNew(received: seq<string>, names: seq<string>, env: Environment, asks: nat, n: nat)
    requires DistinctSupply(names, env) && AllSupplied(received, names, env, asks) && Once(multiset(received))
    ensures var more := env.reply(asks, n);
            Once(multiset(received + more)) && AllSupplied(received + more, names, env, asks + 1)
  {
    var more := env.reply(asks, n);
    forall x | x in received
      ensures x !in more && FromSupply(x, names, env, asks + 1)
    {
      assert FromSupply(x, names, env, asks);
    }
    forall x
      ensures AtMostOne(multiset(received + more), x)
    {
      assert AtMostOne(multiset(received), x) && AtMostOne(multiset(more), x);
      assert multiset(received + more)[x] == multiset(received)[x] + multiset(more)[x];
      assert x in more || multiset(more)[x] == 0;
      assert x in received || multiset(received)[x] == 0;
    }
    forall x | x in received + more
      ensures FromSupply(x, names, env, asks + 1)
    {
    }
  }

  /** Every name the worker has, wherever it is. */
  ghost function Bag(
    queue: seq<string>, inflight: seq<Running>, posting: seq<string>, finished: seq<Finish>): multiset<string>
  {
    multiset(queue) + multiset(Names(inflight)) + multiset(posting) + multiset(FinishedNames(finished))
  }

  lemma SubmitKeepsBag(
    queue: seq<string>, inflight: seq<Running>, posting: seq<string>, finished: seq<Finish>, started: real)
    requires queue != [] && Once(Bag(queue, inflight, posting, finished))
    ensures var r := Running(queue[0], started);
            && Assign(inflight, r) == inflight + [r]
            && Bag(queue[1..], Assign(inflight, r), posting, finished) == Bag(queue, inflight, posting, finished)
  {
    var name := queue[0];
    assert queue == [name] + queue[1..];
    assert AtMostOne(Bag(queue, inflight, posting, finished), name);
    assert name !in multiset(Names(inflight));
    AssignNew(inflight, Running(name, started));
    NamesAppend(inflight, Running(name, started));
  }

  lemma EnqueueKeepsBag(
    received: seq<string>, more: seq<string>,
    queue: seq<string>, inflight: seq<Running>, posting: seq<string>, finished: seq<Finish>)
    requires multiset(received) == Bag(queue, inflight, posting, finished)
    ensures multiset(received + more) == Bag(queue + more, inflight, posting, finished)
  {
  }

  lemma FinishKeepsBag(
    queue: seq<string>, inflight: seq<Running>, posting: seq<string>, finished: seq<Finish>, f: Finish)
    requires posting != [] && posting[0] == f.name
    ensures Bag(queue, inflight, posting[1..], finished + [f]) == Bag(queue, inflight, posting, finished)
  {
    assert posting == [f.name] + posting[1..];
    FinishedAppend(finished, [f]);
  }

  lemma TakeKeepsBag(
    queue: seq<string>, inflight: seq<Running>, finished: seq<Finish>, chosen: Running -> bool, rest: Running -> bool)
    requires forall r :: r in inflight ==> rest(r) == !chosen(r)
    ensures Bag(queue, Filter(inflight, rest), Names(Filter(inflight, chosen)), finished) ==
            Bag(queue, inflight, [], finished)
    ensures |Filter(inflight, chosen)| + |Filter(inflight, rest)| == |inflight|
  {
    FilterPartitions(inflight, chosen, rest);
  }

  lemma TwiceInBag(names: seq<string>, i: nat, j: nat)
    requires i < j < |names| && names[i] == names[j]
    ensures multiset(names)[names[i]] >= 2
  {
    assert names == names[..i] + [names[i]] + names[i + 1..j] + [names[j]] + names[j + 1..];
  }

  lemma OnceIsDistinct(rs: seq<Running>, bag: multiset<string>)
    requires multiset(Names(rs)) <= bag && Once(bag)
    ensures DistinctNames(rs)
  {
    NamesAt(rs);
    forall i, j | 0 <= i < j < |rs|
      ensures rs[i].name != rs[j].name
    {
      assert AtMostOne(bag, rs[i].name);
      if rs[i].name == rs[j].name {
        TwiceInBag(Names(rs), i, j);
      }
    }
  }

  /** Assignment to a dictionary key: in place when present, at the end when new. */
  function Assign(rs: seq<Running>, r: Running): seq<Running> {
    if rs == [] then [r]
    else if rs[0].name == r.name then [r] + rs[1..]
    else [rs[0]] + Assign(rs[1..], r)
  }

  lemma {:induction false} AssignNew(rs: seq<Running>, r: Running)
    requires r.name !in Names(rs)
    ensures Assign(rs, r) == rs + [r]
  {
    if rs != [] {
      NamesAt(rs);
      NamesAt(rs[1..]);
      assert forall k :: 0 <= k < |rs| - 1 ==> Names(rs[1..])[k] == Names(rs)[k + 1];
      AssignNew(rs[1..], r);
    }
  }

  // ----- the loop on values

  /** What the loop is started with. */
  datatype Setup = Setup(
    env: Environment, names: seq<string>, width: nat, ahead: nat, timeout: real, canRefill: bool)

  /** The loop's variables, how many readings it has taken, and a log of what it received,
      asked for and was answered. `finished` lists the calls of `finish` in order. */
  datatype State = State(
    queue: seq<string>, inflight: seq<Running>, until: real, delay: real, unposted: nat, finished: seq<Finish>,
    ticks: nat, asks: nat, acks: nat, polls: nat, received: seq<string>, claims: seq<Claim>, answers: seq<Answer>)

  function Initial(u: Setup): State {
    State(u.names, [], 0.0, 0.0, 0, [], 0, 0, 0, 0, u.names, [], [])
  }

  /** Submit from the front of the queue until the slots are full. */
  function Submitted(s: State, u: Setup): State
    decreases |s.queue|
  {
    if s.queue == [] || |s.inflight| >= u.width then s
    else Submitted(SubmittedOne(s, u), u)
  }

  function SubmittedOne(s: State, u: Setup): State
    requires s.queue != []
  {
    s.(queue := s.queue[1..],
       inflight := Assign(s.inflight, Running(s.queue[0], u.env.clock(s.ticks))),
       ticks := s.ticks + 1)
  }

  datatype Asking = Asking(state: State, claim: Option<Claim>)

  /** Whether to ask for more names now, and for how many. */
  function AskingNow(s: State, u: Setup): Asking {
    if !u.canRefill || |s.queue| >= u.width then Asking(s, None) else
      var local := |s.inflight| + |s.queue|;
      var unacked := u.env.unacked(s.acks);
      var s1 := s.(acks := s.acks + 1);
      var room, lease := u.width + u.ahead - local, PROD_LEASES_PER_LANE * u.width - local - (s.unposted + unacked);
      var deficit := if room < lease then room else lease;
      if deficit <= 0 then Asking(s1, None) else
        var now := u.env.clock(s.ticks);
        var s2 := s1.(ticks := s.ticks + 1);
        if now < s.until then Asking(s2, None)
        else if deficit < (u.width + 1) / 2 && !(|s.inflight| < u.width && s.queue == []) then Asking(s2, None)
        else Asking(s2, Some(Claim(deficit, |s.inflight|, |s.queue|, s.unposted, unacked, now, s.until)))
  }

  function NextDelay(delay: real): real {
    var doubled := if delay * 2.0 == 0.0 then CLAIM_EMPTY_BACKOFF_SECONDS else delay * 2.0;
    if doubled < CLAIM_EMPTY_BACKOFF_MAX_SECONDS then doubled else CLAIM_EMPTY_BACKOFF_MAX_SECONDS
  }

  /** Names received: at the back of the queue, and into the free slots. */
  function Taken(s: State, u: Setup, more: seq<string>): State {
    Submitted(s.(queue := s.queue + more, received := s.received + more), u)
  }

  /** The delay and the deadline after a reply of `got` names to an ask for `asked`. */
  function TimersSet(s: State, u: Setup, asked: nat, got: nat): State {
    var now := u.env.clock(s.ticks);
    if got == 0 then
      var delay := NextDelay(s.delay);
      s.(delay := delay, until := now + delay, ticks := s.ticks + 1, answers := s.answers + [Empty(now, delay)])
    else if got < asked then
      s.(delay := 0.0, until := now + CLAIM_EMPTY_BACKOFF_SECONDS, ticks := s.ticks + 1,
         answers := s.answers + [Short(now)])
    else s.(delay := 0.0, until := 0.0, answers := s.answers + [Full])
  }

  function Replied(s: State, u: Setup, claim: Claim): State {
    var more := u.env.reply(s.asks, claim.n);
    var s1 := s.(asks := s.asks + 1, claims := s.claims + [claim]);
    TimersSet(if more != [] then Taken(s1, u, more) else s1, u, claim.n, |more|)
  }

  /** Fill the slots, claim more names when there is room, fill again. */
  function Launched(s: State, u: Setup): State {
    var asking := AskingNow(Submitted(s, u), u);
    match asking.claim
    case None => asking.state
    case Some(claim) => Replied(asking.state, u, claim)
  }

  /** Post the ready names in order, filling the freed slots before each post. */
  function Posted(s: State, u: Setup, ready: seq<Running>, fill: bool): State
    decreases |ready|
  {
    if ready == [] then s
    else Posted(PostedOne(s, u, ready[0], fill), u, ready[1..], fill)
  }

  function PostedOne(s: State, u: Setup, r: Running, fill: bool): State {
    var s1 := if fill then Launched(s, u) else s;
    s1.(finished := s1.finished + [Finish(r.name, Evaluated)], unposted := Decremented(s1.unposted))
  }

  /** The counter is positive whenever a result is posted. */
  function Decremented(n: nat): nat {
    if n > 0 then n - 1 else 0
  }

  function Parkings(rs: seq<Running>, now: real): seq<Finish> {
    if rs == [] then [] else [Finish(rs[0].name, Parked(rs[0].started, now))] + Parkings(rs[1..], now)
  }

  predicate Overdue(r: Running, now: real, timeout: real) {
    timeout > 0.0 && now - r.started >= timeout
  }

  function OverdueBy(now: real, timeout: real): Running -> bool {
    (r: Running) => Overdue(r, now, timeout)
  }

  function NotNamed(names: seq<string>): Running -> bool {
    (r: Running) => r.name !in names
  }

  function ReadyIn(stuck: seq<string>, poll: nat, env: Environment): Running -> bool {
    (r: Running) => r.name !in stuck && env.ready(poll, r.name)
  }

  /** The entries a poll finds stuck, and those it finds ready. */
  function Stuck(s: State, u: Setup): seq<Running> {
    var now := u.env.clock(s.ticks);
    Filter(s.inflight, OverdueBy(now, u.timeout))
  }

  function Ready(s: State, u: Setup): seq<Running> {
    var stuck := Names(Stuck(s, u));
    Filter(s.inflight, ReadyIn(stuck, s.polls, u.env))
  }

  /** After the poll's reads: the ready entries are out of `inflight`. */
  function Collected(s: State, u: Setup): State {
    var ready := Names(Ready(s, u));
    s.(inflight := Filter(s.inflight, NotNamed(ready)), unposted := |ready|,
       ticks := s.ticks + 1, polls := s.polls + 1)
  }

  /** Park the stuck names; the killed siblings go back to the front of the queue. */
  function Killed(s: State, u: Setup, stuck: seq<Running>, now: real): State {
    var names := Names(stuck);
    var killed := Filter(s.inflight, NotNamed(names));
    s.(inflight := [], finished := s.finished + Parkings(stuck, now), queue := Names(killed) + s.queue)
  }

  /** One iteration of the polling loop. */
  function Polled(s: State, u: Setup): State {
    var now := u.env.clock(s.ticks);
    var stuck, ready := Stuck(s, u), Ready(s, u);
    var s1 := Posted(Collected(s, u), u, ready, stuck == []);
    if stuck != [] then Launched(Killed(s1, u, stuck, now), u)
    else if ready == [] then
      var asking := AskingNow(s1, u);
      if asking.claim.Some? then Launched(asking.state, u) else asking.state
    else s1
  }

  /** One iteration, or none once nothing is in flight. */
  function Iteration(u: Setup): State -> State {
    (s: State) => if s.inflight == [] then s else Polled(s, u)
  }

  function Repeat(step: State -> State, s: State, n: nat): State {
    if n == 0 then s else step(Repeat(step, s, n - 1))
  }

  lemma {:induction false} RepeatKeeps(step: State -> State, inv: State -> bool, s: State, n: nat)
    requires inv(s) && forall x :: inv(x) ==> inv(step(x))
    ensures inv(Repeat(step, s, n))
  {
    if n > 0 {
      RepeatKeeps(step, inv, s, n - 1);
    }
  }

  lemma {:induction false} RepeatStays(step: State -> State, s: State, n: nat, m: nat)
    requires n <= m && step(Repeat(step, s, n)) == Repeat(step, s, n)
    ensures Repeat(step, s, m) == Repeat(step, s, n)
  {
    if n < m {
      RepeatStays(step, s, n, m - 1);
    }
  }

  /** The state after at most `n` iterations; the loop ends when nothing is in flight. */
  function Polling(s: State, u: Setup, n: nat): State {
    Repeat(Iteration(u), s, n)
  }

  // ----- the loop as the program runs it

  class Worker {
    const u: Setup
    var queue: seq<string>
    var inflight: seq<Running>
    var until: real
    var delay: real
    var unposted: nat
    var finished: seq<Finish>
    var ticks: nat
    var asks: nat
    var acks: nat
    var polls: nat
    ghost var received: seq<string>
    ghost var claims: seq<Claim>
    ghost var answers: seq<Answer>

    ghost function View(): State
      reads this
    {
      State(queue, inflight, until, delay, unposted, finished, ticks, asks, acks, polls, received, claims, answers)
    }

    constructor (u: Setup)
      ensures this.u == u && View() == Initial(u)
    {
      this.u := u;
      queue, inflight, finished := u.names, [], [];
      until, delay, unposted := 0.0, 0.0, 0;
      ticks, asks, acks, polls := 0, 0, 0, 0;
      received, claims, answers := u.names, [], [];
    }

    method ReadClock() returns (now: real)
      modifies `ticks
      ensures now == u.env.clock(old(ticks)) && ticks == old(ticks) + 1
    {
      now := u.env.clock(ticks);
      ticks := ticks + 1;
    }

    method SubmitQueued()
      modifies this
      ensures View() == Submitted(old(View()), u)
    {
      hide Assign;
      while queue != [] && |inflight| < u.width
        invariant Submitted(View(), u) == Submitted(old(View()), u)
        decreases |queue|
      {
        var name := queue[0];
        queue := queue[1..];
        var started := ReadClock();
        inflight := Assign(inflight, Running(name, started));
      }
    }

    /** How many names to ask for now; zero for none. */
    method ClaimSize() returns (n: nat, ghost claim: Option<Claim>)
      modifies this
      ensures Asking(View(), claim) == AskingNow(old(View()), u)
      ensures n == if claim.Some? then claim.value.n else 0
      ensures claim.Some? ==> n > 0
    {
      n, claim := 0, None;
      var width := u.width;
      if !u.canRefill || |queue| >= width {
        return;
      }
      var local := |inflight| + |queue|;
      var unacked := u.env.unacked(acks);
      acks := acks + 1;
      var room, lease := width + u.ahead - local, PROD_LEASES_PER_LANE * width - local - (unposted + unacked);
      var deficit := if room < lease then room else lease;
      if deficit <= 0 {
        return;
      }
      var now := ReadClock();
      if now < until {
        return;
      }
      var starving := |inflight| < width && queue == [];
      if deficit < (width + 1) / 2 && !starving {
        return;
      }
      n := deficit;
      claim := Some(Claim(n, |inflight|, |queue|, unposted, unacked, now, until));
    }

    method TakeNames(more: seq<string>)
      modifies this
      ensures View() == Taken(old(View()), u, more)
    {
      queue := queue + more;
      received := received + more;
      SubmitQueued();
    }

    method SetTimers(asked: nat, got: nat)
      modifies this
      ensures View() == TimersSet(old(View()), u, asked, got)
    {
      hide NextDelay;
      if got > 0 {
        delay := 0.0;
        if got < asked {
          var now := ReadClock();
          until := now + CLAIM_EMPTY_BACKOFF_SECONDS;
          answers := answers + [Short(now)];
        } else {
          until := 0.0;
          answers := answers + [Full];
        }
      } else {
        delay := NextDelay(delay);
        var now := ReadClock();
        until := now + delay;
        answers := answers + [Empty(now, delay)];
      }
    }

    method TakeReply(n: nat, ghost claim: Claim)
      requires claim.n == n
      modifies this
      ensures View() == Replied(old(View()), u, claim)
    {
      hide Taken, TimersSet;
      var more := u.env.reply(asks, n);
      asks := asks + 1;
      claims := claims + [claim];
      if more != [] {
        TakeNames(more);
      }
      SetTimers(n, |more|);
    }

    method Launch()
      modifies this
      ensures View() == Launched(old(View()), u)
    {
      SubmitQueued();
      var n, claim := ClaimSize();
      if n > 0 {
        TakeReply(n, claim.value);
      }
    }

    /** Post the ready results, filling the freed slot before each post when nothing is stuck. */
    method PostReady(ready: seq<Running>, fill: bool)
      modifies this
      ensures View() == Posted(old(View()), u, ready, fill)
    {
      var k := 0;
      while k < |ready|
        invariant 0 <= k <= |ready|
        invariant Posted(View(), u, ready[k..], fill) == Posted(old(View()), u, ready, fill)
      {
        if fill {
          Launch();
        }
        assert ready[k..][0] == ready[k] && ready[k..][1..] == ready[k + 1..];
        finished := finished + [Finish(ready[k].name, Evaluated)];
        unposted := Decremented(unposted);
        k := k + 1;
      }
    }

    method Kill(stuck: seq<Running>, now: real)
      modifies this
      ensures View() == Killed(old(View()), u, stuck, now)
    {
      hide Filter, Names;
      var names := Names(stuck);
      var killed := Filter(inflight, NotNamed(names));
      inflight := [];
      var k := 0;
      while k < |stuck|
        invariant 0 <= k <= |stuck|
        invariant View() == old(View()).(inflight := [], finished := finished)
        invariant finished + Parkings(stuck[k..], now) == old(finished) + Parkings(stuck, now)
      {
        assert stuck[k..][0] == stuck[k] && stuck[k..][1..] == stuck[k + 1..];
        finished := finished + [Finish(stuck[k].name, Parked(stuck[k].started, now))];
        k := k + 1;
      }
      queue := Names(killed) + queue;
    }

    method Poll()
      modifies this
      ensures View() == Polled(old(View()), u)
    {
      hide Filter, Names, Posted, Killed, Launched, AskingNow;
      ghost var s0 := View();
      var now := ReadClock();
      var stuck := Filter(inflight, OverdueBy(now, u.timeout));
      var ready := Filter(inflight, ReadyIn(Names(stuck), polls, u.env));
      assert stuck == Stuck(s0, u);
      assert ready == Ready(s0, u);
      var readyNames := Names(ready);
      inflight := Filter(inflight, NotNamed(readyNames));
      unposted := |readyNames|;
      polls := polls + 1;
      assert View() == Collected(s0, u);
      PostReady(ready, stuck == []);
      if stuck != [] {
        Kill(stuck, now);
        Launch();
      } else if ready == [] {
        var n, claim := ClaimSize();
        if n > 0 {
          Launch();
        }
      }
    }

    /** Launch, then poll until nothing is in flight, for at most `maxPolls` polls. */
    method Run(maxPolls: nat) returns (returned: bool)
      modifies this
      ensures View() == Polling(Launched(old(View()), u), u, maxPolls)
      ensures returned <==> inflight == []
    {
      hide Launched, Polled;
      Launch();
      ghost var s0, step := View(), Iteration(u);
      var n := 0;
      while inflight != [] && n < maxPolls
        invariant 0 <= n <= maxPolls && View() == Repeat(step, s0, n)
        decreases maxPolls - n
      {
        Poll();
        n := n + 1;
      }
      if n < maxPolls {
        RepeatStays(step, s0, n, maxPolls);
      }
      returned := inflight == [];
    }
  }
}
