/** One provider's breaker over its whole history, and what a retried operation adds to it. */
module ProviderExact {
  import opened Common
  import opened ProviderPool

  /** Reference: when the last failed call to the provider ended, request or probe; 0 before any. */
  function LastFailed(hs: seq<Happening>): int {
    if hs == [] then 0 else
      var front, h := hs[..|hs| - 1], hs[|hs| - 1];
      if (h.Request? && h.err) || (h.ProbeEnds? && h.err && History(front).probing) then h.now else LastFailed(front)
  }

  lemma {:induction false} LastFailureIs(hs: seq<Happening>)
    ensures History(hs).status.lastFailure == LastFailed(hs)
    decreases |hs|
  {
    if hs != [] {
      LastFailureIs(hs[..|hs| - 1]);
      BreakerInvariant(hs[..|hs| - 1]);
    }
  }

  /** The circuit after one more happening: a closed one opens on the third failed call in a row, an open
      one is half-open after a successful probe, a half-open one closes on a successful request, and
      nothing else changes it. */
  lemma BreakerExact(hs: seq<Happening>, h: Happening)
    ensures var p, now := History(hs), Happens(History(hs), h).status.state;
      match p.status.state
      case Closed => now == if h.Request? && h.err && FailedSinceSuccess(hs) == 2 then Open else Closed
      case Open => now == if h.ProbeEnds? && !h.err && p.probing then HalfOpen else Open
      case HalfOpen => now == if h.Request? && !h.err then Closed else HalfOpen
  {
    BreakerInvariant(hs);
  }

  /** A probe starts exactly when an open circuit is checked more than a minute after the last failure. */
  lemma ProbesIff(hs: seq<Happening>, now: int)
    requires !History(hs).probing
    ensures Happens(History(hs), Check(now)).probing <==> History(hs).status.state.Open? && now - LastFailed(hs) > 60
    ensures Happens(History(hs), Check(now)).status == History(hs).status
  {
    LastFailureIs(hs);
  }

  /** A provider is in rotation exactly when its circuit is closed, or half-open and its last failure more
      than 30 seconds ago. */
  lemma HealthyIff(hs: seq<Happening>, now: int)
    ensures Healthy(History(hs).status, now) <==>
      History(hs).status.state.Closed? || (History(hs).status.state.HalfOpen? && now - LastFailed(hs) > 30)
  {
    LastFailureIs(hs);
  }

  /** One that never failed three times in a row is always in rotation. */
  lemma {:induction false} HealthyBelowThree(hs: seq<Happening>, now: int)
    requires forall i :: 0 <= i <= |hs| ==> FailedSinceSuccess(hs[..i]) < 3
    ensures History(hs).status.state.Closed? && Healthy(History(hs).status, now)
    decreases |hs|
  {
    if hs != [] {
      var front := hs[..|hs| - 1];
      forall i | 0 <= i <= |front| ensures FailedSinceSuccess(front[..i]) < 3 { assert front[..i] == hs[..i]; }
      HealthyBelowThree(front, now);
      BreakerExact(front, hs[|hs| - 1]);
      assert hs[..|hs|] == hs && FailedSinceSuccess(hs) < 3;
      BreakerInvariant(front);
    }
  }

  /** What a health check does to a provider is a check and, if that starts a probe, the end of it. */
  lemma ProbedIsCheck(p: Provider, err: bool, now: int)
    requires !p.probing
    ensures Happens(Happens(p, Check(now)), ProbeEnds(err, now)) == Provider(Probed(p.status, err, now), false)
  {
  }

  /** The requests on provider `i` among the attempts of an operation; an attempt that meets an unsupported
      transaction type is none. */
  function Requests(used: seq<nat>, attempt: nat -> Attempt, now: nat -> int, i: nat): seq<Happening> {
    if used == [] then [] else
      var k := |used| - 1;
      Requests(used[..k], attempt, now, i) +
      if used[k] == i && !attempt(k).Unsupported? then [Request(attempt(k).Failed?, now(k))] else []
  }

  /** After an operation each provider's breaker is what its history makes it with the requests of that
      operation added, the others as they were. */
  lemma {:induction false} RetriedHistory(statuses: seq<Status>, used: seq<nat>, attempt: nat -> Attempt,
                                          now: nat -> int, i: nat, hs: seq<Happening>)
    requires i < |statuses| && statuses[i] == History(hs).status
    ensures Retried(statuses, used, attempt, now)[i] == History(hs + Requests(used, attempt, now, i)).status
    decreases |used|
  {
    if used == [] {
      assert hs + [] == hs;
    } else {
      var k := |used| - 1;
      var front := Requests(used[..k], attempt, now, i);
      RetriedHistory(statuses, used[..k], attempt, now, i, hs);
      if used[k] == i && !attempt(k).Unsupported? {
        var h := Request(attempt(k).Failed?, now(k));
        HistorySnoc(hs + front, h);
        assert hs + front + [h] == hs + (front + [h]);
      } else {
        assert hs + (front + []) == hs + front;
      }
    }
  }
}
