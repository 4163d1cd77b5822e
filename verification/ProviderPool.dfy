/** The EVM provider pool: a circuit breaker per provider and round-robin selection. Times are seconds
    of an abstract clock. */
module ProviderPool {
  import opened Common

  const MAX_FAILURES: nat := 3
  const HALF_OPEN_WAIT: int := 30
  const PROBE_WAIT: int := 60

  datatype Circuit = Closed | Open | HalfOpen

  datatype Status = Status(state: Circuit, failures: nat, lastFailure: int)

  predicate Healthy(p: Status, now: int) {
    p.state.Closed? || (p.state.HalfOpen? && now - p.lastFailure > HALF_OPEN_WAIT)
  }

  // ----- the breaker ----------------------------------------------------------------------------------

  /** updateProviderStatus. */
  function Updated(p: Status, err: bool, now: int): Status {
    if err then
      var q := p.(failures := p.failures + 1, lastFailure := now);
      if q.failures >= MAX_FAILURES && p.state.Closed? then q.(state := Open) else q
    else
      p.(failures := 0, state := if p.state.HalfOpen? then Closed else p.state)
  }

  predicate ShouldProbe(p: Status, now: int) {
    p.state.Open? && now - p.lastFailure > PROBE_WAIT
  }

  /** The end of a probe. */
  function ProbeEnded(p: Status, err: bool, now: int): Status {
    if err then Updated(p, true, now) else p.(state := HalfOpen, failures := 0)
  }

  /** One provider's turn in performHealthCheck, undisturbed. */
  function Probed(p: Status, err: bool, now: int): Status {
    if ShouldProbe(p, now) then ProbeEnded(p, err, now) else p
  }

  /** A provider with the probe that may be under way. */
  datatype Provider = Provider(status: Status, probing: bool)

  /** What happens to one provider: a request on it ends, a health check comes round, a probe ends. The
      status is not locked during a probe, so requests may end in the middle of one. */
  datatype Happening = Request(err: bool, now: int) | Check(now: int) | ProbeEnds(err: bool, now: int)

  function Happens(p: Provider, h: Happening): Provider {
    match h
    case Request(err, now) => p.(status := Updated(p.status, err, now))
    case Check(now) => if ShouldProbe(p.status, now) then p.(probing := true) else p
    case ProbeEnds(err, now) => if p.probing then Provider(ProbeEnded(p.status, err, now), false) else p
  }

  const ADDED: Status := Status(Closed, 0, 0)

  function History(hs: seq<Happening>): Provider {
    if hs == [] then Provider(ADDED, false) else Happens(History(hs[..|hs| - 1]), hs[|hs| - 1])
  }

  /** Reference: failed calls to the provider since the last successful one, requests and probes alike. */
  function FailedSinceSuccess(hs: seq<Happening>): nat {
    if hs == [] then 0 else
      var front, h := hs[..|hs| - 1], hs[|hs| - 1];
      if h.Check? || (h.ProbeEnds? && !History(front).probing) then FailedSinceSuccess(front)
      else if h.err then FailedSinceSuccess(front) + 1
      else 0
  }

  predicate BreakerOk(p: Status) {
    p.state.Closed? ==> p.failures < MAX_FAILURES
  }

  /** Over every history: the counter is the failures since the last success, a closed circuit has
      fewer than three of them, and only an open one is being probed. */
  lemma {:induction false} BreakerInvariant(hs: seq<Happening>)
    ensures var p := History(hs);
      p.status.failures == FailedSinceSuccess(hs) && BreakerOk(p.status) && (p.probing ==> p.status.state.Open?)
    decreases |hs|
  {
    if hs != [] { BreakerInvariant(hs[..|hs| - 1]); }
  }

  /** An open circuit leaves that state only by a successful probe, to half-open; a probe starts only
      more than a minute after the last failure; a circuit opens only on the third failure in a row of a
      closed one and closes only on a successful request to a half-open one. */
  lemma BreakerTransitions(hs: seq<Happening>, h: Happening)
    ensures var p, q := History(hs), Happens(History(hs), h); var was, now := p.status.state, q.status.state;
      && (was.Open? && !now.Open? ==> h.ProbeEnds? && p.probing && !h.err && now.HalfOpen? && q.status.failures == 0)
      && (!p.probing && q.probing ==> h.Check? && was.Open? && h.now - p.status.lastFailure > PROBE_WAIT)
      && (!was.Open? && now.Open? ==> was.Closed? && h.Request? && h.err && FailedSinceSuccess(hs) == MAX_FAILURES - 1)
      && (!was.Closed? && now.Closed? ==> was.HalfOpen? && h.Request? && !h.err)
  {
    BreakerInvariant(hs);
  }

  /** A half-open circuit never opens again: until a request succeeds it stays half-open through any
      number of failures, and its counter only grows. */
  lemma {:induction false} HalfOpenStays(hs: seq<Happening>, more: seq<Happening>)
    requires History(hs).status.state.HalfOpen?
    requires forall i :: 0 <= i < |more| ==> !(more[i].Request? && !more[i].err)
    ensures var p := History(hs + more);
      && p.status.state.HalfOpen? && p.status.failures >= History(hs).status.failures
      && (forall i :: 0 <= i < |more| && more[i].Request? ==> p.status.failures > History(hs).status.failures)
    decreases |more|
  {
    if more == [] {
      assert hs + more == hs;
    } else {
      var n := |more| - 1;
      var front := more[..n];
      assert forall i :: 0 <= i < n ==> front[i] == more[i];
      HalfOpenStays(hs, front);
      assert (hs + more)[..|hs + more| - 1] == hs + front;
      BreakerInvariant(hs + front);
      if exists i :: 0 <= i < |more| && more[i].Request? {
        var i :| 0 <= i < |more| && more[i].Request?;
        if i < n { assert front[i].Request?; }
      }
    }
  }

  predicate Succeeds(h: Happening) {
    h.Request? && !h.err
  }

  lemma HistorySnoc(hs: seq<Happening>, h: Happening)
    ensures History(hs + [h]) == Happens(History(hs), h)
  {
    assert (hs + [h])[..|hs|] == hs;
  }

  /** A half-open circuit closes at the next successful request, and stays half-open exactly until then. */
  lemma HalfOpenUntilSuccess(hs: seq<Happening>, more: seq<Happening>)
    requires History(hs).status.state.HalfOpen?
    ensures (forall i :: 0 <= i <= |more| ==> History(hs + more[..i]).status.state.HalfOpen?) <==>
      (forall i :: 0 <= i < |more| ==> !Succeeds(more[i]))
    ensures forall h :: Succeeds(h) ==> History(hs + [h]).status.state.Closed?
  {
    if forall i :: 0 <= i < |more| ==> !Succeeds(more[i]) {
      forall i | 0 <= i <= |more| ensures History(hs + more[..i]).status.state.HalfOpen? {
        HalfOpenStays(hs, more[..i]);
      }
    } else {
      var i :| 0 <= i < |more| && Succeeds(more[i]);
      HistorySnoc(hs + more[..i], more[i]);
      assert hs + more[..i] + [more[i]] == hs + more[..i + 1];
      assert !History(hs + more[..i]).status.state.HalfOpen? || !History(hs + more[..i + 1]).status.state.HalfOpen?;
    }
    forall h | Succeeds(h) ensures History(hs + [h]).status.state.Closed? { HistorySnoc(hs, h); }
  }

  /** A provider that opens, recovers, and fails three times more. */
  const TROUBLED: seq<Happening> :=
    [Request(true, 0), Request(true, 1), Request(true, 2), Check(63), ProbeEnds(false, 64)]

  lemma Recovers()
    ensures History(TROUBLED) == Provider(Status(HalfOpen, 0, 2), false)
  {
    var hs := TROUBLED;
    assert hs[..0] == [] && hs[..5] == hs;
    assert hs[..1] == hs[..0] + [hs[0]] && hs[..2] == hs[..1] + [hs[1]] && hs[..3] == hs[..2] + [hs[2]];
    assert hs[..4] == hs[..3] + [hs[3]] && hs[..5] == hs[..4] + [hs[4]];
    HistorySnoc(hs[..0], hs[0]);
    HistorySnoc(hs[..1], hs[1]);
    HistorySnoc(hs[..2], hs[2]);
    assert History(hs[..3]) == Provider(Status(Open, 3, 2), false);
    HistorySnoc(hs[..3], hs[3]);
    HistorySnoc(hs[..4], hs[4]);
  }

  /** Three failures in a row open a closed circuit; after a recovery they leave it half-open, out of
      rotation for 30 seconds and then back in. */
  lemma HalfOpenKeepsFailing()
    ensures var hs := TROUBLED + [Request(true, 100)] + [Request(true, 140)] + [Request(true, 180)];
      && History(hs) == Provider(Status(HalfOpen, 3, 180), false)
      && !Healthy(History(hs).status, 210) && Healthy(History(hs).status, 211)
  {
    Recovers();
    HistorySnoc(TROUBLED, Request(true, 100));
    HistorySnoc(TROUBLED + [Request(true, 100)], Request(true, 140));
    HistorySnoc(TROUBLED + [Request(true, 100)] + [Request(true, 140)], Request(true, 180));
  }

  // ----- selection ------------------------------------------------------------------------------------

  /** Reference: the healthy positions in [lo, hi), in order. */
  function HealthyIn(healthy: seq<bool>, lo: nat, hi: nat): seq<nat>
    requires lo <= hi <= |healthy|
    decreases hi - lo
  {
    if lo == hi then []
    else if healthy[lo] then [lo] + HealthyIn(healthy, lo + 1, hi)
    else HealthyIn(healthy, lo + 1, hi)
  }

  /** `r` lists the healthy positions of [lo, hi) in ascending order. */
  ghost predicate Lists(healthy: seq<bool>, lo: nat, hi: nat, r: seq<nat>)
    requires lo <= hi <= |healthy|
  {
    && (forall i :: 0 <= i < |r| ==> lo <= r[i] < hi)
    && (forall i :: 0 <= i < |r| ==> r[i] < |healthy| && healthy[r[i]])
    && (forall i, j :: 0 <= i < j < |r| ==> r[i] < r[j])
    && (forall x :: lo <= x < hi && healthy[x] ==> x in r)
  }

  lemma {:induction false} HealthyInLists(healthy: seq<bool>, lo: nat, hi: nat)
    requires lo <= hi <= |healthy|
    ensures Lists(healthy, lo, hi, HealthyIn(healthy, lo, hi))
    decreases hi - lo
  {
    if lo < hi {
      HealthyInLists(healthy, lo + 1, hi);
      if healthy[lo] { ListsCons(healthy, lo, hi, HealthyIn(healthy, lo + 1, hi)); }
    }
  }

  lemma ListsCons(healthy: seq<bool>, lo: nat, hi: nat, rest: seq<nat>)
    requires lo < hi <= |healthy| && healthy[lo] && Lists(healthy, lo + 1, hi, rest)
    ensures Lists(healthy, lo, hi, [lo] + rest)
  {
    var r := [lo] + rest;
    assert forall i :: 0 < i < |r| ==> r[i] == rest[i - 1];
    forall x | lo <= x < hi && healthy[x] ensures x in r {
      if x > lo { assert x in rest; } else { assert r[0] == x; }
    }
  }

  /** The healthy providers in the order round-robin reaches them from `current`. */
  function Turn(healthy: seq<bool>, current: nat): seq<nat>
    requires current <= |healthy|
  {
    HealthyIn(healthy, current, |healthy|) + HealthyIn(healthy, 0, current)
  }

  function Rotate(s: seq<nat>): seq<nat>
    requires s != []
  {
    s[1..] + [s[0]]
  }

  lemma {:induction false} HealthyInSplit(healthy: seq<bool>, lo: nat, mid: nat, hi: nat)
    requires lo <= mid <= hi <= |healthy|
    ensures HealthyIn(healthy, lo, hi) == HealthyIn(healthy, lo, mid) + HealthyIn(healthy, mid, hi)
    decreases mid - lo
  {
    if lo < mid { HealthyInSplit(healthy, lo + 1, mid, hi); }
  }

  lemma {:induction false} NoneHealthy(healthy: seq<bool>, lo: nat, hi: nat)
    requires lo <= hi <= |healthy| && forall x :: lo <= x < hi ==> !healthy[x]
    ensures HealthyIn(healthy, lo, hi) == []
    decreases hi - lo
  {
    if lo < hi { NoneHealthy(healthy, lo + 1, hi); }
  }

  /** The provider whose turn it is, and the position after it. */
  function Selected(healthy: seq<bool>, current: nat): Option<nat>
    requires current < |healthy|
  {
    var turn := Turn(healthy, current);
    if turn == [] then None else Some(turn[0])
  }

  function After(healthy: seq<bool>, current: nat): (next: nat)
    requires current < |healthy|
    ensures next < |healthy|
  {
    HealthyInLists(healthy, current, |healthy|);
    HealthyInLists(healthy, 0, current);
    var s := Selected(healthy, current);
    if s.None? then current else (s.value + 1) % |healthy|
  }

  /** The first healthy position from `current` on, cyclically, is first in turn. */
  lemma FirstInTurn(healthy: seq<bool>, current: nat, index: nat)
    requires current < |healthy| && index < |healthy| && healthy[index]
    requires index >= current ==> forall x :: current <= x < index ==> !healthy[x]
    requires index < current ==>
      (forall x :: current <= x < |healthy| ==> !healthy[x]) && (forall x :: 0 <= x < index ==> !healthy[x])
    ensures Selected(healthy, current) == Some(index)
  {
    if index >= current {
      NoneHealthy(healthy, current, index);
      HealthyInSplit(healthy, current, index, |healthy|);
    } else {
      NoneHealthy(healthy, current, |healthy|);
      NoneHealthy(healthy, 0, index);
      HealthyInSplit(healthy, 0, index, current);
    }
  }

  /** Moving past the provider whose turn it was rotates the turn. */
  lemma SelectionRotates(healthy: seq<bool>, current: nat)
    requires current < |healthy| && Turn(healthy, current) != []
    ensures Turn(healthy, After(healthy, current)) == Rotate(Turn(healthy, current))
  {
    var n, index := |healthy|, Turn(healthy, current)[0];
    var high := HealthyIn(healthy, current, n);
    if high != [] {
      assert index == high[0];
      RotateHigh(healthy, current, index);
    } else {
      assert Turn(healthy, current) == HealthyIn(healthy, 0, current);
      RotateLow(healthy, current, index);
    }
    TurnAt(healthy, (index + 1) % n, index);
  }

  lemma FirstAlone(healthy: seq<bool>, index: nat)
    requires index < |healthy| && healthy[index]
    ensures HealthyIn(healthy, index, index + 1) == [index]
  {
    assert HealthyIn(healthy, index + 1, index + 1) == [];
  }

  /** The turn from right after `index`, whether or not that wraps. */
  lemma TurnAt(healthy: seq<bool>, next: nat, index: nat)
    requires index < |healthy| && next == (index + 1) % |healthy|
    ensures next < |healthy|
    ensures Turn(healthy, next) == HealthyIn(healthy, index + 1, |healthy|) + HealthyIn(healthy, 0, index + 1)
  {
    var n := |healthy|;
    if index + 1 == n {
      assert HealthyIn(healthy, n, n) == [] && HealthyIn(healthy, 0, 0) == [];
    }
  }

  /** Nothing before the first healthy position is healthy, so the list is it and the rest. */
  lemma FirstAndRest(healthy: seq<bool>, lo: nat, hi: nat, index: nat)
    requires lo <= hi <= |healthy| && HealthyIn(healthy, lo, hi) != [] && index == HealthyIn(healthy, lo, hi)[0]
    ensures lo <= index < hi && healthy[index]
    ensures HealthyIn(healthy, lo, index) == []
    ensures HealthyIn(healthy, lo, hi) == [index] + HealthyIn(healthy, index + 1, hi)
    decreases hi - lo
  {
    if healthy[lo] {
      assert HealthyIn(healthy, lo, lo) == [];
    } else {
      FirstAndRest(healthy, lo + 1, hi, index);
    }
  }

  lemma RotateHigh(healthy: seq<bool>, current: nat, index: nat)
    requires current < |healthy| && HealthyIn(healthy, current, |healthy|) != []
    requires index == HealthyIn(healthy, current, |healthy|)[0]
    ensures index < |healthy|
    ensures HealthyIn(healthy, index + 1, |healthy|) + HealthyIn(healthy, 0, index + 1) ==
      Rotate(Turn(healthy, current))
  {
    var n, low := |healthy|, HealthyIn(healthy, 0, current);
    FirstAndRest(healthy, current, n, index);
    HealthyInSplit(healthy, 0, current, index);
    HealthyInSplit(healthy, 0, index, index + 1);
    FirstAlone(healthy, index);
    assert HealthyIn(healthy, 0, index + 1) == low + [index];
  }

  lemma RotateLow(healthy: seq<bool>, current: nat, index: nat)
    requires current < |healthy| && HealthyIn(healthy, current, |healthy|) == []
    requires HealthyIn(healthy, 0, current) != [] && index == HealthyIn(healthy, 0, current)[0]
    ensures index < |healthy|
    ensures HealthyIn(healthy, index + 1, |healthy|) + HealthyIn(healthy, 0, index + 1) ==
      Rotate(Turn(healthy, current))
  {
    var n := |healthy|;
    FirstAndRest(healthy, 0, current, index);
    HealthyInSplit(healthy, index + 1, current, n);
    HealthyInSplit(healthy, 0, index, index + 1);
    FirstAlone(healthy, index);
  }

  /** `k` selections in a row while health does not change. */
  function Picks(healthy: seq<bool>, current: nat, k: nat): seq<nat>
    requires current < |healthy|
    decreases k
  {
    if k == 0 || Selected(healthy, current).None? then []
    else [Selected(healthy, current).value] + Picks(healthy, After(healthy, current), k - 1)
  }

  lemma {:induction false} PicksFollowTurn(healthy: seq<bool>, current: nat, k: nat)
    requires current < |healthy| && k <= |Turn(healthy, current)|
    ensures Picks(healthy, current, k) == Turn(healthy, current)[..k]
    decreases k
  {
    if k > 0 {
      var turn := Turn(healthy, current);
      SelectionRotates(healthy, current);
      PicksFollowTurn(healthy, After(healthy, current), k - 1);
      assert Rotate(turn)[..k - 1] == turn[1..k];
    }
  }

  /** From any position, as many consecutive selections as there are healthy providers return each of
      them exactly once and no other. */
  lemma RoundRobinFair(healthy: seq<bool>, current: nat)
    requires current < |healthy|
    ensures var picks := Picks(healthy, current, |Turn(healthy, current)|);
      && (forall i, j :: 0 <= i < j < |picks| ==> picks[i] != picks[j])
      && (forall x :: x in picks <==> 0 <= x < |healthy| && healthy[x])
  {
    var turn := Turn(healthy, current);
    PicksFollowTurn(healthy, current, |turn|);
    assert turn[..|turn|] == turn;
    TurnIsHealthy(healthy, current);
  }

  lemma Wrap(start: nat, i: nat, n: nat)
    requires start < n && i < n
    ensures (start + i) % n == if start + i < n then start + i else start + i - n
  {
    var q := (start + i) / n;
    assert start + i == q * n + (start + i) % n;
    assert q == 0 || q == 1;
  }

  function HealthOf(statuses: seq<Status>, now: int): (h: seq<bool>)
    ensures |h| == |statuses| && forall i :: 0 <= i < |h| ==> h[i] == Healthy(statuses[i], now)
  {
    seq(|statuses|, i requires 0 <= i < |statuses| => Healthy(statuses[i], now))
  }

  class EthereumClient {
    var statuses: seq<Status>
    var currentIndex: nat

    ghost predicate Valid()
      reads this
    {
      currentIndex < |statuses| && forall i :: 0 <= i < |statuses| ==> BreakerOk(statuses[i])
    }

    /** At least one provider answered when the client was made. */
    constructor (providers: nat)
      requires providers > 0
      ensures Valid() && statuses == seq(providers, _ => ADDED) && currentIndex == 0
    {
      statuses := seq(providers, _ => ADDED);
      currentIndex := 0;
    }

    ghost function Health(now: int): seq<bool>
      reads `statuses
    {
      HealthOf(statuses, now)
    }

    /** The first healthy provider from the current position on, cyclically; the position moves past it. */
    method GetHealthyProvider(now: int) returns (selected: Option<nat>)
      requires Valid()
      modifies `currentIndex
      ensures Valid() && statuses == old(statuses)
      ensures selected == Selected(Health(now), old(currentIndex))
      ensures currentIndex == After(Health(now), old(currentIndex))
      ensures selected.Some? ==> selected.value < |statuses| && Healthy(statuses[selected.value], now)
      ensures selected.None? <==> NoneLeft(statuses, now)
    {
      var n, start := |statuses|, currentIndex;
      ghost var healthy := Health(now);
      for i := 0 to n
        invariant currentIndex == start
        invariant forall x :: start <= x < n && x < start + i ==> !healthy[x]
        invariant forall x :: 0 <= x < start + i - n ==> !healthy[x]
      {
        Wrap(start, i, n);
        var index := (start + i) % n;
        if Healthy(statuses[index], now) {
          FirstInTurn(healthy, start, index);
          currentIndex := (index + 1) % n;
          return Some(index);
        }
      }
      NoneHealthy(healthy, start, n);
      NoneHealthy(healthy, 0, start);
      selected := None;
    }

    method UpdateProviderStatus(i: nat, err: bool, now: int)
      requires Valid() && i < |statuses|
      modifies `statuses
      ensures Valid()
      ensures statuses == old(statuses)[i := Updated(old(statuses[i]), err, now)]
    {
      var p := statuses[i];
      if err {
        p := p.(failures := p.failures + 1, lastFailure := now);
        if p.failures >= MAX_FAILURES && p.state.Closed? { p := p.(state := Open); }
      } else {
        p := p.(failures := 0);
        if p.state.HalfOpen? { p := p.(state := Closed); }
      }
      statuses := statuses[i := p];
    }

    /** One health check: `fails(i)` says whether the probe of provider i fails. */
    method PerformHealthCheck(now: int, fails: nat -> bool)
      requires Valid()
      modifies `statuses
      ensures Valid() && |statuses| == |old(statuses)|
      ensures forall i :: 0 <= i < |statuses| ==> statuses[i] == Probed(old(statuses)[i], fails(i), now)
    {
      for i := 0 to |statuses|
        invariant Valid() && |statuses| == |old(statuses)|
        invariant forall j :: 0 <= j < |statuses| ==>
          statuses[j] == if j < i then Probed(old(statuses)[j], fails(j), now) else old(statuses)[j]
      {
        if ShouldProbe(statuses[i], now) {
          if !fails(i) {
            statuses := statuses[i := statuses[i].(state := HalfOpen, failures := 0)];
          } else {
            UpdateProviderStatus(i, true, now);
          }
        }
      }
    }

    /** One attempt on the provider whose turn it is. */
    method TryOnce(attempt: Attempt, now: int) returns (selected: Option<nat>)
      requires Valid()
      modifies this
      ensures Valid()
      ensures selected.None? ==> statuses == old(statuses) && NoneLeft(statuses, now)
      ensures selected.Some? ==> selected.value < |old(statuses)| && Healthy(old(statuses)[selected.value], now)
      ensures selected.Some? ==> statuses == AfterTry(old(statuses), selected.value, attempt, now)
    {
      selected := GetHealthyProvider(now);
      if selected.Some? && !attempt.Unsupported? {
        UpdateProviderStatus(selected.value, attempt.Failed?, now);
      }
    }

    /** The retry loop: attempt k happens at `now(k)` and ends with `attempt(k)`; `cancelled(k)` says
        whether the context ends in the pause after it. `used` are the providers tried, in order. */
    method ExecuteWithRetry(retryAttempts: nat, attempt: nat -> Attempt, now: nat -> int, cancelled: nat -> bool)
      returns (ok: bool, used: seq<nat>)
      requires Valid()
      modifies this
      ensures Valid() && |used| <= retryAttempts
      ensures Tried(old(statuses), used, attempt, now) && statuses == Retried(old(statuses), used, attempt, now)
      ensures forall k :: 0 <= k < |used| - 1 ==> !attempt(k).Succeeded?
      ensures ok <==> |used| > 0 && attempt(|used| - 1).Succeeded?
      ensures !ok ==>
        |used| == retryAttempts || NoneLeft(statuses, now(|used|)) || (|used| > 0 && cancelled(|used| - 1))
    {
      used := [];
      for k := 0 to retryAttempts
        invariant Valid() && |statuses| == |old(statuses)| && |used| == k
        invariant Tried(old(statuses), used, attempt, now) && statuses == Retried(old(statuses), used, attempt, now)
        invariant forall j :: 0 <= j < k ==> !attempt(j).Succeeded?
      {
        var selected := TryOnce(attempt(k), now(k));
        if selected.None? { return false, used; }
        RetriedSnoc(old(statuses), used, selected.value, attempt, now);
        used := used + [selected.value];
        if attempt(k).Unsupported? { continue; }
        if attempt(k).Succeeded? { return true, used; }
        if k < retryAttempts - 1 && cancelled(k) { return false, used; }
      }
      ok := false;
    }
  }

  /** How one attempt of an operation ends. */
  datatype Attempt = Succeeded | Unsupported | Failed

  /** The breakers after one attempt: an unsupported transaction type is held against nobody. */
  function AfterTry(statuses: seq<Status>, i: nat, attempt: Attempt, now: int): (r: seq<Status>)
    ensures |r| == |statuses|
  {
    if attempt.Unsupported? || i >= |statuses| then statuses
    else statuses[i := Updated(statuses[i], attempt.Failed?, now)]
  }

  /** The breakers after attempts on the providers `used`. */
  function Retried(statuses: seq<Status>, used: seq<nat>, attempt: nat -> Attempt, now: nat -> int): (r: seq<Status>)
    ensures |r| == |statuses|
  {
    if used == [] then statuses else
      var k := |used| - 1;
      AfterTry(Retried(statuses, used[..k], attempt, now), used[k], attempt(k), now(k))
  }

  /** Each provider used was healthy when its turn came. */
  predicate Tried(statuses: seq<Status>, used: seq<nat>, attempt: nat -> Attempt, now: nat -> int) {
    used == [] ||
    var k := |used| - 1;
    && Tried(statuses, used[..k], attempt, now)
    && used[k] < |statuses|
    && Healthy(Retried(statuses, used[..k], attempt, now)[used[k]], now(k))
  }

  /** A retried operation never touches a provider whose circuit is open. */
  lemma {:induction false} OpenUntouched(statuses: seq<Status>, used: seq<nat>, attempt: nat -> Attempt,
                                         now: nat -> int, i: nat)
    requires Tried(statuses, used, attempt, now) && i < |statuses| && statuses[i].state.Open?
    ensures i !in used && Retried(statuses, used, attempt, now)[i] == statuses[i]
    decreases |used|
  {
    if used != [] {
      var k := |used| - 1;
      var front := used[..k];
      OpenUntouched(statuses, front, attempt, now, i);
      assert used == front + [used[k]];
    }
  }

  predicate NoneLeft(statuses: seq<Status>, now: int) {
    forall i :: 0 <= i < |statuses| ==> !Healthy(statuses[i], now)
  }

  lemma RetriedSnoc(statuses: seq<Status>, used: seq<nat>, next: nat, attempt: nat -> Attempt, now: nat -> int)
    requires Tried(statuses, used, attempt, now) && next < |statuses|
    requires Healthy(Retried(statuses, used, attempt, now)[next], now(|used|))
    ensures Tried(statuses, used + [next], attempt, now)
    ensures Retried(statuses, used + [next], attempt, now) ==
      AfterTry(Retried(statuses, used, attempt, now), next, attempt(|used|), now(|used|))
  {
    assert (used + [next])[..|used|] == used;
  }

  /** The turn lists each healthy provider once. */
  lemma TurnIsHealthy(healthy: seq<bool>, current: nat)
    requires current <= |healthy|
    ensures var t := Turn(healthy, current);
      && (forall i, j :: 0 <= i < j < |t| ==> t[i] != t[j])
      && (forall x :: x in t <==> 0 <= x < |healthy| && healthy[x])
  {
    HealthyInLists(healthy, current, |healthy|);
    HealthyInLists(healthy, 0, current);
    var high, low := HealthyIn(healthy, current, |healthy|), HealthyIn(healthy, 0, current);
    var t := high + low;
    forall i, j | 0 <= i < j < |t| ensures t[i] != t[j] {
      assert t[i] == if i < |high| then high[i] else low[i - |high|];
      assert t[j] == if j < |high| then high[j] else low[j - |high|];
    }
    forall x ensures x in t <==> 0 <= x < |healthy| && healthy[x] {
      assert x in t <==> x in high || x in low;
    }
  }
}
