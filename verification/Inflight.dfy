/** The discovery worker's in-flight loop: slots, a queue, a deadline for each name, claims
    of more names with a backoff. The clock, the pool's readiness, the claim replies and the
    unacknowledged count are given by an environment, reading by reading.

    This file has its lists: the names, the entries kept and taken, the bag of all of them. */
module Inflight {
  const CLAIM_EMPTY_BACKOFF_SECONDS := 30.0
  const CLAIM_EMPTY_BACKOFF_MAX_SECONDS := 240.0
  const PROD_LEASES_PER_LANE := 2

  /** `clock(n)` is the n-th reading. `reply(n, asked)` is the n-th claim's answer, empty when
      there is none or the call failed. `ready(n, name)` is the n-th poll of a name. */
  datatype Environment = Environment(
    clock: nat -> real,
    reply: (nat, nat) -> seq<string>,
    ready: (nat, string) -> bool,
    unacked: nat -> nat)

  datatype Running = Running(name: string, started: real)

  /** How a name left: evaluated, or parked at `now` after its own deadline. */
  datatype Outcome = Evaluated | Parked(started: real, now: real)
  datatype Finish = Finish(name: string, outcome: Outcome)

  /** One ask for `n` more names, with what the worker held when it asked. */
  datatype Claim = Claim(n: nat, running: nat, queued: nat, unposted: nat, unacked: nat, now: real, until: real)

  /** How a claim was answered: nothing, with the clock then and the delay set; fewer names than
      asked for, with the clock then; or all of them. */
  datatype Answer = Empty(at: real, delay: real) | Short(at: real) | Full

  // ----- name lists

  function Names(rs: seq<Running>): seq<string> {
    if rs == [] then [] else [rs[0].name] + Names(rs[1..])
  }

  function FinishedNames(fs: seq<Finish>): seq<string> {
    if fs == [] then [] else [fs[0].name] + FinishedNames(fs[1..])
  }

  lemma {:induction false} NamesAt(rs: seq<Running>)
    ensures |Names(rs)| == |rs| && forall k :: 0 <= k < |rs| ==> Names(rs)[k] == rs[k].name
  {
    if rs != [] {
      NamesAt(rs[1..]);
    }
  }

  lemma {:induction false} NamesAppend(rs: seq<Running>, r: Running)
    ensures Names(rs + [r]) == Names(rs) + [r.name]
  {
    if rs != [] {
      assert (rs + [r])[1..] == rs[1..] + [r];
      NamesAppend(rs[1..], r);
    }
  }

  lemma {:induction false} FinishedAppend(fs: seq<Finish>, gs: seq<Finish>)
    ensures FinishedNames(fs + gs) == FinishedNames(fs) + FinishedNames(gs)
  {
    if fs == [] {
      assert fs + gs == gs;
    } else {
      assert (fs + gs)[1..] == fs[1..] + gs;
      FinishedAppend(fs[1..], gs);
    }
  }

  function Filter(rs: seq<Running>, p: Running -> bool): seq<Running> {
    if rs == [] then [] else (if p(rs[0]) then [rs[0]] else []) + Filter(rs[1..], p)
  }

  lemma {:induction false} FilterMembers(rs: seq<Running>, p: Running -> bool)
    ensures forall r :: r in Filter(rs, p) <==> r in rs && p(r)
    ensures |Filter(rs, p)| <= |rs|
  {
    if rs != [] {
      FilterMembers(rs[1..], p);
      assert forall r :: r in rs <==> r == rs[0] || r in rs[1..];
    }
  }

  ghost predicate DistinctNames(rs: seq<Running>) {
    forall i, j :: 0 <= i < j < |rs| ==> rs[i].name != rs[j].name
  }

  lemma {:induction false} FilterPartitions(rs: seq<Running>, p: Running -> bool, q: Running -> bool)
    requires forall r :: r in rs ==> q(r) == !p(r)
    ensures multiset(Names(Filter(rs, p))) + multiset(Names(Filter(rs, q))) == multiset(Names(rs))
    ensures |Filter(rs, p)| + |Filter(rs, q)| == |rs|
  {
    if rs != [] {
      FilterPartitions(rs[1..], p, q);
      if p(rs[0]) {
        NamesPrepend(rs[0], Filter(rs[1..], p));
        assert Filter(rs, q) == Filter(rs[1..], q);
      } else {
        NamesPrepend(rs[0], Filter(rs[1..], q));
        assert Filter(rs, p) == Filter(rs[1..], p);
      }
    }
  }

  lemma NamesPrepend(r: Running, rs: seq<Running>)
    ensures Names([r] + rs) == [r.name] + Names(rs)
  {
  }

  lemma {:induction false} FilterAgrees(rs: seq<Running>, p: Running -> bool, q: Running -> bool)
    requires forall r :: r in rs ==> p(r) == q(r)
    ensures Filter(rs, p) == Filter(rs, q)
  {
    if rs != [] {
      FilterAgrees(rs[1..], p, q);
    }
  }

  lemma {:induction false} FilterWithin(rs: seq<Running>, p: Running -> bool, q: Running -> bool)
    requires forall r :: r in rs && q(r) ==> p(r)
    ensures Filter(Filter(rs, p), q) == Filter(rs, q)
  {
    if rs != [] {
      FilterWithin(rs[1..], p, q);
      var f := Filter(rs, p);
      if p(rs[0]) {
        assert f[0] == rs[0] && f[1..] == Filter(rs[1..], p);
        assert Filter(f, q) == (if q(f[0]) then [f[0]] else []) + Filter(f[1..], q);
      } else {
        assert f == Filter(rs[1..], p) && Filter(rs, q) == Filter(rs[1..], q);
      }
    }
  }

  lemma {:induction false} FilterKeepsDistinct(rs: seq<Running>, p: Running -> bool)
    requires DistinctNames(rs)
    ensures DistinctNames(Filter(rs, p))
  {
    if rs != [] {
      FilterKeepsDistinct(rs[1..], p);
      FilterMembers(rs[1..], p);
      forall r | r in Filter(rs[1..], p)
        ensures r.name != rs[0].name
      {
        assert r in rs[1..];
      }
    }
  }

  /** With distinct names, a name is among the kept ones exactly when its entry is kept. */
  lemma KeptByName(rs: seq<Running>, p: Running -> bool)
    requires DistinctNames(rs)
    ensures forall r :: r in rs ==> (r.name in Names(Filter(rs, p)) <==> p(r))
  {
    var kept := Filter(rs, p);
    FilterMembers(rs, p);
    NamesAt(kept);
    forall r | r in rs
      ensures r.name in Names(kept) <==> p(r)
    {
      if p(r) {
        var k :| 0 <= k < |kept| && kept[k] == r;
        assert Names(kept)[k] == r.name;
      } else {
        forall k | 0 <= k < |kept|
          ensures Names(kept)[k] != r.name
        {
          assert kept[k] in rs;
        }
      }
    }
  }
}
