/** The pace of the asks: none before the last reply's delay is over. */
module InflightPacing {
  import opened Inflight
  import opened InflightWorker
  import opened InflightSafety

  /** Before when the ask after the first `k` may not come. */
  function UntilAfter(answers: seq<Answer>, k: nat): real
    requires k <= |answers|
  {
    if k == 0 then 0.0
    else
      match answers[k - 1]
      case Empty(at, delay) => at + delay
      case Short(at) => at + CLAIM_EMPTY_BACKOFF_SECONDS
      case Full => 0.0
  }

  /** The delay in force after the first `k` answers: zero unless the last of them was empty. */
  function DelayAfter(answers: seq<Answer>, k: nat): real
    requires k <= |answers|
  {
    if k == 0 || !answers[k - 1].Empty? then 0.0 else answers[k - 1].delay
  }

  /** The answer logged is that of the reply received. */
  predicate Matches(answer: Answer, asked: nat, got: nat) {
    match answer
    case Empty(_, _) => got == 0
    case Short(_) => 0 < got < asked
    case Full => got > 0 && got >= asked
  }

  /** Ask `k` waited out answer `k - 1`, was answered as logged, and an empty answer doubled the
      delay before it. */
  ghost predicate PacedAt(claims: seq<Claim>, answers: seq<Answer>, u: Setup, k: nat)
    requires k < |claims| == |answers|
  {
    && claims[k].now >= UntilAfter(answers, k)
    && Matches(answers[k], claims[k].n, |u.env.reply(k, claims[k].n)|)
    && (answers[k].Empty? ==> answers[k].delay == NextDelay(DelayAfter(answers, k)))
  }

  ghost predicate Paced(s: State, u: Setup) {
    && |s.answers| == |s.claims| == s.asks
    && s.until == UntilAfter(s.answers, |s.answers|) && s.delay == DelayAfter(s.answers, |s.answers|)
    && forall k :: 0 <= k < |s.claims| ==> PacedAt(s.claims, s.answers, u, k)
  }

  /** The variables that pacing is about. */
  ghost predicate SamePace(s: State, s': State) {
    s'.claims == s.claims && s'.answers == s.answers && s'.asks == s.asks && s'.until == s.until && s'.delay == s.delay
  }

  lemma {:induction false} SubmittedSamePace(s: State, u: Setup)
    ensures SamePace(s, Submitted(s, u))
    decreases |s.queue|
  {
    if s.queue != [] && |s.inflight| < u.width {
      SubmittedSamePace(SubmittedOne(s, u), u);
    }
  }

  lemma AskingPace(s: State, u: Setup)
    ensures SamePace(s, AskingNow(s, u).state)
    ensures AskingNow(s, u).claim.Some? ==> AskingNow(s, u).claim.value.now >= s.until
  {
  }

  lemma AppendPaced(s: State, s': State, u: Setup, claim: Claim, answer: Answer)
    requires Paced(s, u) && claim.now >= s.until
    requires s'.claims == s.claims + [claim] && s'.answers == s.answers + [answer] && s'.asks == s.asks + 1
    requires Matches(answer, claim.n, |u.env.reply(s.asks, claim.n)|)
    requires answer.Empty? ==> answer.delay == NextDelay(s.delay)
    requires s'.until == UntilAfter([answer], 1) && s'.delay == DelayAfter([answer], 1)
    ensures Paced(s', u)
  {
    var n := |s.answers|;
    forall k | 0 <= k <= n
      ensures UntilAfter(s'.answers, k) == UntilAfter(s.answers, k)
      ensures DelayAfter(s'.answers, k) == DelayAfter(s.answers, k)
    {
    }
    forall k | 0 <= k <= n
      ensures PacedAt(s'.claims, s'.answers, u, k)
    {
      if k < n {
        assert PacedAt(s.claims, s.answers, u, k);
      }
    }
  }

  lemma TimersPaced(s: State, s1: State, u: Setup, claim: Claim)
    requires Paced(s, u) && claim.now >= s.until
    requires s1.claims == s.claims + [claim] && s1.answers == s.answers && s1.asks == s.asks + 1
    requires s1.until == s.until && s1.delay == s.delay
    ensures Paced(TimersSet(s1, u, claim.n, |u.env.reply(s.asks, claim.n)|), u)
  {
    hide NextDelay, Paced;
    var s' := TimersSet(s1, u, claim.n, |u.env.reply(s.asks, claim.n)|);
    AppendPaced(s, s', u, claim, s'.answers[|s.answers|]);
  }

  lemma RepliedPaced(s: State, u: Setup, claim: Claim)
    requires Paced(s, u) && claim.now >= s.until
    ensures Paced(Replied(s, u, claim), u)
  {
    hide TimersSet, Paced, Submitted;
    var more := u.env.reply(s.asks, claim.n);
    var s1 := s.(asks := s.asks + 1, claims := s.claims + [claim]);
    SubmittedSamePace(s1.(queue := s1.queue + more, received := s1.received + more), u);
    TimersPaced(s, if more != [] then Taken(s1, u, more) else s1, u, claim);
  }

  lemma LaunchedPaced(s: State, u: Setup)
    requires Paced(s, u)
    ensures Paced(Launched(s, u), u)
  {
    hide Replied, PacedAt;
    SubmittedSamePace(s, u);
    AskingPace(Submitted(s, u), u);
    var asking := AskingNow(Submitted(s, u), u);
    if asking.claim.Some? {
      RepliedPaced(asking.state, u, asking.claim.value);
    }
  }

  lemma {:induction false} PostedPaced(s: State, u: Setup, ready: seq<Running>, fill: bool)
    requires Paced(s, u)
    ensures Paced(Posted(s, u, ready, fill), u)
    decreases |ready|
  {
    hide Launched, PacedAt;
    if ready != [] {
      LaunchedPaced(s, u);
      PostedPaced(PostedOne(s, u, ready[0], fill), u, ready[1..], fill);
    }
  }

  lemma PolledPaced(s: State, u: Setup)
    requires Paced(s, u)
    ensures Paced(Polled(s, u), u)
  {
    hide Launched, PacedAt, Posted, AskingNow;
    var stuck, ready, now := Stuck(s, u), Ready(s, u), u.env.clock(s.ticks);
    var s1 := Posted(Collected(s, u), u, ready, stuck == []);
    PostedPaced(Collected(s, u), u, ready, stuck == []);
    if stuck != [] {
      LaunchedPaced(Killed(s1, u, stuck, now), u);
    } else if ready == [] {
      AskingPace(s1, u);
      LaunchedPaced(AskingNow(s1, u).state, u);
    }
  }

  lemma {:induction false} PollingPaced(s: State, u: Setup, n: nat)
    requires Paced(s, u)
    ensures Paced(Polling(s, u, n), u)
  {
    hide Paced, Polled;
    if n > 0 {
      PollingPaced(s, u, n - 1);
      PolledPaced(Polling(s, u, n - 1), u);
    }
  }

  lemma RunPaced(u: Setup, n: nat)
    ensures Paced(AfterPolls(u, n), u)
  {
    LaunchedPaced(Initial(u), u);
    PollingPaced(Launched(Initial(u), u), u, n);
  }

  /** After any number of polls: no ask came before the delay set by the reply to the ask before it
      had passed on the clock read at that reply, thirty seconds for a short one. */
  lemma AsksWaitOutTheLastReply(u: Setup, n: nat, k: nat)
    requires k + 1 < |AfterPolls(u, n).claims|
    ensures var s := AfterPolls(u, n);
            && |s.answers| == |s.claims|
            && Matches(s.answers[k], s.claims[k].n, |u.env.reply(k, s.claims[k].n)|)
            && match s.answers[k] {
                 case Empty(at, delay) => s.claims[k + 1].now >= at + delay
                 case Short(at) => s.claims[k + 1].now >= at + CLAIM_EMPTY_BACKOFF_SECONDS
                 case Full => true
               }
  {
    hide AfterPolls;
    RunPaced(u, n);
    var s := AfterPolls(u, n);
    assert PacedAt(s.claims, s.answers, u, k) && PacedAt(s.claims, s.answers, u, k + 1);
  }

  /** The delay after the `j`-th empty answer in a row. */
  function Backoff(j: nat): real {
    if j <= 1 then CLAIM_EMPTY_BACKOFF_SECONDS
    else if 2.0 * Backoff(j - 1) < CLAIM_EMPTY_BACKOFF_MAX_SECONDS then 2.0 * Backoff(j - 1)
    else CLAIM_EMPTY_BACKOFF_MAX_SECONDS
  }

  lemma {:induction false} BackoffInSeconds(j: nat)
    requires j >= 1
    ensures Backoff(j) == if j == 1 then 30.0 else if j == 2 then 60.0 else if j == 3 then 120.0 else 240.0
  {
    if j > 1 {
      BackoffInSeconds(j - 1);
    }
  }

  /** Answers `[k - j, k)` were empty, and the one before them, if any, was not. */
  ghost predicate EmptyRun(answers: seq<Answer>, k: nat, j: nat) {
    && 0 < j <= k <= |answers| && (forall m :: k - j <= m < k ==> answers[m].Empty?)
    && (j < k ==> !answers[k - j - 1].Empty?)
  }

  lemma {:induction false} RunBacksOff(s: State, u: Setup, k: nat, j: nat)
    requires Paced(s, u) && EmptyRun(s.answers, k, j)
    ensures s.answers[k - 1].delay == Backoff(j)
    decreases j
  {
    assert PacedAt(s.claims, s.answers, u, k - 1);
    if j > 1 {
      RunBacksOff(s, u, k - 1, j - 1);
      BackoffInSeconds(j - 1);
    }
  }

  /** Along empty replies in a row the delay is 30, 60, 120 and from the fourth on 240 seconds;
      any other reply starts it over. */
  lemma EmptyRepliesBackOff(u: Setup, n: nat, k: nat, j: nat)
    requires EmptyRun(AfterPolls(u, n).answers, k, j)
    ensures AfterPolls(u, n).answers[k - 1].delay ==
            if j == 1 then 30.0 else if j == 2 then 60.0 else if j == 3 then 120.0 else 240.0
  {
    hide AfterPolls, Paced;
    RunPaced(u, n);
    RunBacksOff(AfterPolls(u, n), u, k, j);
    BackoffInSeconds(j);
  }
}
