/** What the tracker promises over every run: interleavings, lost replies, expiries and restarts included. */
module TrackerTheorems {
  import opened Common
  import opened Chains
  import opened Tracker
  import opened TrackerSafety
  import opened TrackerSteps

  /** Every block above the start point and up to the high-water mark was marked processed. */
  lemma HighWaterMarkCovered(c: Config, s0: State, steps: seq<Step>)
    requires Init(c, s0)
    ensures var s := Run(c, s0, steps);
      forall b :: s.h.base < b <= s.hwm ==> b in s.h.marks
  {
    InitInv(c, s0);
    RunKeeps(c, s0, steps);
  }

  /** A call of ProcessBlock that did its work on block `b`: it began when `b` was deep enough on the
      chain, the events are those of the block it fetched, each was dealt with, and where a refusal
      fails the block each was accepted. */
  ghost predicate Did(c: Config, a: Attempt, b: nat) {
    && a.block == b
    && b + c.confirmations <= a.seenTip <= a.tipAtStart
    && Derives(c.chain, a.fetched)
    && |a.answers| == |a.fetched.events|
    && (Strict(c.chain) ==> forall i :: 0 <= i < |a.answers| ==> a.answers[i] == Taken)
  }

  /** Every marked block, wherever the mark stands, had such a call, which led to a mark. */
  lemma MarkedWasProcessed(c: Config, s0: State, steps: seq<Step>, b: nat)
    requires Init(c, s0) && b in Run(c, s0, steps).h.marks
    ensures var h := Run(c, s0, steps).h; exists k :: 0 <= k < |h.attempts| && Did(c, h.attempts[k], b)
  {
    InitInv(c, s0);
    RunKeeps(c, s0, steps);
    var h := Run(c, s0, steps).h;
    assert Complete(c, h.maxTip, h.attempts[h.delivered[b]], b);
    assert Did(c, h.attempts[h.delivered[b]], b);
  }

  /** Every block above the start point and up to the high-water mark had such a call. */
  lemma EndToEnd(c: Config, s0: State, steps: seq<Step>, b: nat)
    requires Init(c, s0)
    requires var s := Run(c, s0, steps); s.h.base < b <= s.hwm
    ensures var h := Run(c, s0, steps).h; exists k :: 0 <= k < |h.attempts| && Did(c, h.attempts[k], b)
  {
    HighWaterMarkCovered(c, s0, steps);
    MarkedWasProcessed(c, s0, steps, b);
  }

  /** Attempts are only ever added and answered. */
  ghost predicate Extends(a: seq<Attempt>, a': seq<Attempt>) {
    |a| <= |a'| && forall k :: 0 <= k < |a| ==>
      a'[k].block == a[k].block && a'[k].fetched == a[k].fetched && a[k].answers <= a'[k].answers
  }

  lemma StepExtends(c: Config, s: State, st: Step)
    ensures Extends(s.h.attempts, Do(c, s, st).h.attempts)
  {
    if IsWorkerStep(st) {
      assert Do(c, s, st) == DoWorker(c, s, st);
      WorkerExtends(c, s, st);
    } else {
      assert Do(c, s, st).h.attempts == s.h.attempts;
    }
  }

  lemma WorkerExtends(c: Config, s: State, st: Step)
    requires IsWorkerStep(st)
    ensures Extends(s.h.attempts, DoWorker(c, s, st).h.attempts)
  {
    if !st.Fetch? && !st.Publish? { AttemptsLeft(c, s, st); }
  }

  lemma {:induction false} RunExtends(c: Config, s: State, steps: seq<Step>)
    ensures Extends(s.h.attempts, Run(c, s, steps).h.attempts)
    decreases |steps|
  {
    if steps != [] {
      var front := steps[..|steps| - 1];
      RunExtends(c, s, front);
      StepExtends(c, Run(c, s, front), steps[|steps| - 1]);
    }
  }

  /** Where a refusal fails the block, a call with an event that was not taken never led to a mark and
      never will: however the run goes on, no worker is on it and it is not behind any mark. */
  lemma RefusalGivesUp(c: Config, s0: State, steps: seq<Step>, more: seq<Step>, k: nat, i: nat)
    requires Init(c, s0) && Strict(c.chain)
    requires var h := Run(c, s0, steps).h;
      k < |h.attempts| && i < |h.attempts[k].answers| && h.attempts[k].answers[i] != Taken
    ensures var s := Run(c, s0, steps + more);
      && k !in s.h.markers
      && (forall w :: 0 <= w < |s.workers| && (s.workers[w].Publishing? || s.workers[w].Marking?) ==>
            s.workers[w].attempt != k)
  {
    InitInv(c, s0);
    RunKeeps(c, s0, steps + more);
    RunConcat(c, s0, steps, more);
    RunExtends(c, Run(c, s0, steps), more);
    GivenUp(c, Run(c, s0, steps + more), k, i);
  }

  lemma GivenUp(c: Config, s: State, k: nat, i: nat)
    requires Inv(c, s) && Strict(c.chain)
    requires k < |s.h.attempts| && i < |s.h.attempts[k].answers| && s.h.attempts[k].answers[i] != Taken
    ensures k !in s.h.markers
    ensures forall w :: 0 <= w < |s.workers| && (s.workers[w].Publishing? || s.workers[w].Marking?) ==>
      s.workers[w].attempt != k
  {
    forall w | 0 <= w < |s.workers| && (s.workers[w].Publishing? || s.workers[w].Marking?)
      ensures s.workers[w].attempt != k
    {
      assert WorkerOk(c, s, s.workers[w]);
    }
  }

  /** A finished polling pass sent ascending heights right above the mark it went from, none above the
      height it was told and, on a chain longer than the depth, none short of its confirmations. One that
      met no refusal sent every such height, so it enqueued every block above the start point with enough
      confirmations that has never been marked. */
  lemma PollingLosesNoBlock(c: Config, s0: State, steps: seq<Step>)
    requires Init(c, s0)
    requires Run(c, s0, steps).lastPass.Some?
    ensures var s := Run(c, s0, steps); var p := s.lastPass.value;
      && (forall i :: 0 <= i < |p.sent| ==> p.sent[i] == p.last + 1 + i)
      && (forall b :: b in p.sent ==> b <= p.tip && (p.tip > c.confirmations ==> b + c.confirmations <= p.tip))
      && (forall b :: s.h.base < b <= p.last ==> b in s.h.marks)
      && (!p.refused ==> forall b ::
            p.last < b <= p.tip && (p.tip > c.confirmations ==> b + c.confirmations <= p.tip) ==> b in p.sent)
      && (!p.refused ==> forall b ::
            s.h.base < b <= p.tip && (p.tip > c.confirmations ==> b + c.confirmations <= p.tip) && b !in s.h.marks ==>
            b in p.sent)
  {
    InitInv(c, s0);
    RunKeeps(c, s0, steps);
    PassSends(c, Run(c, s0, steps).h, Run(c, s0, steps).lastPass.value);
  }

  lemma PassSends(c: Config, h: History, p: Pass)
    requires PassOk(c, h, p)
    ensures forall b :: b in p.sent ==> b <= p.tip && (p.tip > c.confirmations ==> b + c.confirmations <= p.tip)
    ensures !p.refused ==> forall b ::
      p.last < b <= p.tip && (p.tip > c.confirmations ==> b + c.confirmations <= p.tip) ==> b in p.sent
  {
    if !p.refused {
      forall b | p.last < b <= p.tip && (p.tip > c.confirmations ==> b + c.confirmations <= p.tip)
        ensures b in p.sent
      {
        assert p.sent[b - p.last - 1] == b;
      }
    }
  }

  /** At most one worker holds a block, and the in-flight set is exactly what the workers hold. */
  lemma OneHolder(c: Config, s0: State, steps: seq<Step>)
    requires Init(c, s0)
    ensures var s := Run(c, s0, steps);
      && (forall i, j ::
            0 <= i < j < |s.workers| && Holds(s.workers[i]).Some? ==> Holds(s.workers[i]) != Holds(s.workers[j]))
      && (forall b :: b in s.inFlight <==> exists i :: 0 <= i < |s.workers| && Holds(s.workers[i]) == Some(b))
  {
    InitInv(c, s0);
    RunKeeps(c, s0, steps);
  }

  /** ProcessBlock never starts on a block whose bit is set; a block is marked once more than its bit
      was lost to expiry; without an expiry each block completes at most once and the counter is at
      most the number of distinct marked blocks. */
  lemma CompletedOnce(c: Config, s0: State, steps: seq<Step>)
    requires Init(c, s0)
    ensures var s := Run(c, s0, steps);
      && (forall i :: 0 <= i < |s.workers| && (s.workers[i].Ready? || s.workers[i].Publishing?) ==>
            s.workers[i].block !in s.bits &&
            s.h.marks[s.workers[i].block] == s.h.expired[s.workers[i].block])
      && (forall b :: s.h.marks[b] == s.h.expired[b] + if b in s.bits then 1 else 0)
      && s.processed <= |s.h.marks|
      && (s.h.expired == multiset{} ==> (forall b :: s.h.marks[b] <= 1) && s.processed <= |s.bits|)
  {
    InitInv(c, s0);
    RunKeeps(c, s0, steps);
    var s := Run(c, s0, steps);
    forall i | 0 <= i < |s.workers| && (s.workers[i].Ready? || s.workers[i].Publishing?)
      ensures s.workers[i].block !in s.bits && s.h.marks[s.workers[i].block] == s.h.expired[s.workers[i].block]
    {
      assert WorkerOk(c, s, s.workers[i]);
    }
    SubmultisetCard(s.h.counted, s.h.marks);
    if s.h.expired == multiset{} {
      assert s.h.marks == multiset(s.bits);
    }
  }

  lemma SubmultisetCard(a: multiset<nat>, b: multiset<nat>)
    requires a <= b
    ensures |a| <= |b|
  {
    assert b == a + (b - a);
  }

  /** Block `b` was deep enough below the tip of the chain itself when a ProcessBlock call on it began. */
  ghost predicate BeganDeep(c: Config, h: History, b: nat) {
    exists k :: 0 <= k < |h.attempts| && h.attempts[k].block == b && b + c.confirmations <= h.attempts[k].tipAtStart
  }

  lemma MarkConfirmed(c: Config, s: State, b: nat)
    requires DeliveryOk(c, s.h) && b in s.h.marks
    ensures b + c.confirmations <= s.h.maxTip && BeganDeep(c, s.h, b)
  {
    assert Complete(c, s.h.maxTip, s.h.attempts[s.h.delivered[b]], b);
  }

  lemma CoveredConfirmed(c: Config, s: State, n: nat)
    requires DeliveryOk(c, s.h) && Covered(s.h, n)
    ensures n <= s.h.base || n + c.confirmations <= s.h.maxTip
  {
    if n > s.h.base { MarkConfirmed(c, s, n); }
  }

  /** Every marked block was deep enough when its processing began, even where the height came from the
      cache, and the mark is confirmed by an observed height, which the chain had really reached. */
  lemma MarkStaysConfirmed(c: Config, s0: State, steps: seq<Step>)
    requires Init(c, s0)
    ensures var s := Run(c, s0, steps);
      && s.h.maxTip <= s.trueTip
      && (s.hwm <= s.h.base || s.hwm + c.confirmations <= s.h.maxTip)
      && (forall b :: b in s.h.marks ==> b + c.confirmations <= s.h.maxTip && BeganDeep(c, s.h, b))
  {
    InitInv(c, s0);
    RunKeeps(c, s0, steps);
    var s := Run(c, s0, steps);
    CoveredConfirmed(c, s, s.hwm);
    forall b | b in s.h.marks ensures b + c.confirmations <= s.h.maxTip && BeganDeep(c, s.h, b) {
      MarkConfirmed(c, s, b);
    }
  }

  lemma PendingWritesConfirmed(c: Config, s0: State, steps: seq<Step>, w: nat)
    requires Init(c, s0)
    requires var s := Run(c, s0, steps);
      w < |s.workers| && s.workers[w].Advancing? && s.workers[w].adv.SetWrite?
    ensures var s := Run(c, s0, steps); var n := s.workers[w].adv.target;
      n <= s.h.base || n + c.confirmations <= s.h.maxTip
  {
    InitInv(c, s0);
    RunKeeps(c, s0, steps);
    var s := Run(c, s0, steps);
    assert WorkerOk(c, s, s.workers[w]);
    CoveredConfirmed(c, s, s.workers[w].adv.target);
  }

  /** The start point rises only when initial catch-up takes its first-run branch. */
  lemma BaseRisesOnlyOnFirstRun(c: Config, s: State, st: Step)
    ensures var s' := Do(c, s, st);
      && s.h.base <= s'.h.base
      && s.h.errorInstalls + s.h.zeroInstalls <= s'.h.errorInstalls + s'.h.zeroInstalls
      && (s'.h.base != s.h.base ==>
            && st.CatchFirst? && s.catch.FirstWrite? && s'.h.base == s.catch.tip == s'.hwm
            && s.h.errorInstalls + s.h.zeroInstalls < s'.h.errorInstalls + s'.h.zeroInstalls)
  {
    if IsWorkerStep(st) {
      assert Do(c, s, st) == DoWorker(c, s, st);
      WorkersLeaveBase(c, s, st);
    }
  }

  lemma WorkersLeaveBase(c: Config, s: State, st: Step)
    requires IsWorkerStep(st)
    ensures var h := DoWorker(c, s, st).h;
      && h.base == s.h.base && h.errorInstalls == s.h.errorInstalls && h.zeroInstalls == s.h.zeroInstalls
      && h.zeroWrites == s.h.zeroWrites
  {
    if st.AdvanceStep? && st.w < |s.workers| && s.workers[st.w].Advancing? {
      var p := s.workers[st.w];
      assert DoWorker(c, s, st) == DoAdvance(s, st.w, p.owned, p.adv, st.reply);
    }
  }

  lemma {:induction false} BaseHistory(c: Config, s: State, steps: seq<Step>)
    ensures var s' := Run(c, s, steps);
      && s.h.base <= s'.h.base
      && s.h.errorInstalls + s.h.zeroInstalls <= s'.h.errorInstalls + s'.h.zeroInstalls
      && (s'.h.base != s.h.base ==>
            s.h.errorInstalls + s.h.zeroInstalls < s'.h.errorInstalls + s'.h.zeroInstalls)
    decreases |steps|
  {
    if steps != [] {
      BaseHistory(c, s, steps[..|steps| - 1]);
      BaseRisesOnlyOnFirstRun(c, Run(c, s, steps[..|steps| - 1]), steps[|steps| - 1]);
    }
  }

  /** How often the start point can move: once from a mark that read 0, plus once for every failed
      read of the mark by initial catch-up and every time the mark was set to 0. Without an install
      it is still the mark the tracker was first started on. */
  lemma StartPointInstalls(c: Config, s0: State, steps: seq<Step>)
    requires Init(c, s0)
    ensures var h := Run(c, s0, steps).h;
      && h.errorInstalls <= h.readErrors
      && h.zeroInstalls <= 1 + h.zeroWrites
      && (h.errorInstalls + h.zeroInstalls == 0 ==> h.base == s0.hwm)
  {
    InitInv(c, s0);
    RunKeeps(c, s0, steps);
    BaseHistory(c, s0, steps);
  }

  /** As long as the mark was never set to 0 it is not 0, and catch-up never took it for missing. */
  ghost predicate Positive(s: State) {
    s.h.zeroWrites == 0 ==>
      && s.hwm > 0 && s.h.zeroInstalls == 0
      && ((s.catch.FirstRead? || s.catch.FirstWrite?) ==> s.catch.byError)
  }

  /** A worker leaves catch-up alone, and the mark too unless it writes its target. */
  lemma WorkerWrites(c: Config, s: State, st: Step)
    requires IsWorkerStep(st)
    ensures var s' := DoWorker(c, s, st);
      && s'.catch == s.catch
      && (s'.hwm != s.hwm ==>
            st.w < |s.workers| && s.workers[st.w].Advancing? && s.workers[st.w].adv == SetWrite(s'.hwm))
  {
    if st.AdvanceStep? && st.w < |s.workers| && s.workers[st.w].Advancing? {
      var p := s.workers[st.w];
      assert DoWorker(c, s, st) == DoAdvance(s, st.w, p.owned, p.adv, st.reply);
    }
  }

  lemma OtherKeepsPositive(c: Config, s: State, st: Step)
    requires !IsWorkerStep(st) && Positive(s) && (s.catch.CatchForce? ==> s.catch.resetTo < s.catch.last)
    ensures Positive(Do(c, s, st)) && s.h.zeroWrites <= Do(c, s, st).h.zeroWrites
  {
  }

  lemma PositiveKept(c: Config, s: State, st: Step)
    requires Inv(c, s) && Positive(s)
    ensures Positive(Do(c, s, st)) && s.h.zeroWrites <= Do(c, s, st).h.zeroWrites
  {
    if IsWorkerStep(st) {
      assert Do(c, s, st) == DoWorker(c, s, st);
      WorkerWrites(c, s, st);
      WorkersLeaveBase(c, s, st);
      if st.w < |s.workers| { assert WorkerOk(c, s, s.workers[st.w]); }
    } else {
      assert CatchOk(s.h, s.catch);
      OtherKeepsPositive(c, s, st);
    }
  }

  lemma {:induction false} RunPositive(c: Config, s0: State, steps: seq<Step>)
    requires Init(c, s0) && s0.hwm > 0
    ensures Positive(Run(c, s0, steps))
    decreases |steps|
  {
    if steps != [] {
      var front := steps[..|steps| - 1];
      RunPositive(c, s0, front);
      InitInv(c, s0);
      RunKeeps(c, s0, front);
      PositiveKept(c, Run(c, s0, front), steps[|steps| - 1]);
    }
  }

  /** Started on a mark, with no failed read by catch-up and the mark never set to 0, the tracker skips
      nothing: every block between that first mark and the mark now has been marked. */
  lemma NothingSkipped(c: Config, s0: State, steps: seq<Step>)
    requires Init(c, s0) && s0.hwm > 0
    requires Run(c, s0, steps).h.readErrors == 0 && Run(c, s0, steps).h.zeroWrites == 0
    ensures var s := Run(c, s0, steps);
      s.h.base == s0.hwm && forall b :: s0.hwm < b <= s.hwm ==> b in s.h.marks
  {
    RunPositive(c, s0, steps);
    StartPointInstalls(c, s0, steps);
    HighWaterMarkCovered(c, s0, steps);
  }

  // ----- when the mark falls --------------------------------------------------------------------------

  /** A write to the mark that takes effect and is below it: a stale write at the end of an advance, a
      clamp, or a first-run install. */
  predicate Lowers(s: State, st: Step) {
    || (st.AdvanceStep? && !st.reply.Refused? && st.w < |s.workers| && s.workers[st.w].Advancing? &&
        s.workers[st.w].adv.SetWrite? && s.workers[st.w].adv.target < s.hwm)
    || (st.PollForceMark? && !st.reply.Refused? && s.poll.PollForce? && s.poll.resetTo < s.hwm)
    || (st.CatchForceMark? && !st.reply.Refused? && s.catch.CatchForce? && s.catch.resetTo < s.hwm)
    || (st.CatchFirst? && !st.reply.Refused? && s.catch.FirstWrite? && s.catch.tip < s.hwm)
  }

  lemma WorkerLowersIff(c: Config, s: State, st: Step)
    requires IsWorkerStep(st)
    ensures DoWorker(c, s, st).hwm < s.hwm <==> Lowers(s, st)
  {
    if st.AdvanceStep? && st.w < |s.workers| && s.workers[st.w].Advancing? {
      var p := s.workers[st.w];
      assert DoWorker(c, s, st) == DoAdvance(s, st.w, p.owned, p.adv, st.reply);
    }
  }

  /** A step lowers the mark exactly when it is such a write. */
  lemma MarkFallsIff(c: Config, s: State, st: Step)
    ensures Do(c, s, st).hwm < s.hwm <==> Lowers(s, st)
  {
    if IsWorkerStep(st) {
      assert Do(c, s, st) == DoWorker(c, s, st);
      WorkerLowersIff(c, s, st);
    }
  }

  ghost function MarkAt(c: Config, s: State, steps: seq<Step>, i: nat): nat
    requires i <= |steps|
  {
    Run(c, s, steps[..i]).hwm
  }

  lemma RunNext(c: Config, s: State, steps: seq<Step>, i: nat)
    requires i < |steps|
    ensures Run(c, s, steps[..i + 1]) == Do(c, Run(c, s, steps[..i]), steps[i])
  {
    assert steps[..i + 1][..i] == steps[..i];
  }

  /** The step at position `k` of the run is such a write. */
  ghost predicate LowersAt(c: Config, s: State, steps: seq<Step>, k: nat)
    requires k < |steps|
  {
    Lowers(Run(c, s, steps[..k]), steps[k])
  }

  /** It is one exactly when the mark falls there. */
  lemma FallsAt(c: Config, s: State, steps: seq<Step>, k: nat)
    requires k < |steps|
    ensures MarkAt(c, s, steps, k + 1) < MarkAt(c, s, steps, k) <==> LowersAt(c, s, steps, k)
  {
    RunNext(c, s, steps, k);
    MarkFallsIff(c, Run(c, s, steps[..k]), steps[k]);
  }

  lemma {:induction false} MarkRises(c: Config, s: State, steps: seq<Step>, i: nat, j: nat)
    requires i <= j <= |steps|
    requires forall k :: 0 <= k < |steps| ==> !LowersAt(c, s, steps, k)
    ensures MarkAt(c, s, steps, i) <= MarkAt(c, s, steps, j)
    decreases j
  {
    if i < j {
      MarkRises(c, s, steps, i, j - 1);
      FallsAt(c, s, steps, j - 1);
    }
  }

  /** Along a run the mark never falls exactly when no step of it is such a write. */
  lemma MarkMonotoneIff(c: Config, s: State, steps: seq<Step>)
    ensures (forall i, j :: 0 <= i <= j <= |steps| ==> MarkAt(c, s, steps, i) <= MarkAt(c, s, steps, j)) <==>
      (forall k :: 0 <= k < |steps| ==> !LowersAt(c, s, steps, k))
  {
    if forall k :: 0 <= k < |steps| ==> !LowersAt(c, s, steps, k) {
      forall i, j | 0 <= i <= j <= |steps| ensures MarkAt(c, s, steps, i) <= MarkAt(c, s, steps, j) {
        MarkRises(c, s, steps, i, j);
      }
    } else {
      var k :| 0 <= k < |steps| && LowersAt(c, s, steps, k);
      FallsAt(c, s, steps, k);
      assert MarkAt(c, s, steps, k) > MarkAt(c, s, steps, k + 1);
    }
  }
}
