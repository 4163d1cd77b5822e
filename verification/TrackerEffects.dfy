/** What the poller and initial catch-up do to the mark and to the queues, whatever the others do
    meanwhile, in terms of the height they were told and the confirmations. */
module TrackerEffects {
  import opened Common
  import opened Chains
  import opened Tracker
  import opened TrackerSafety
  import opened TrackerSteps
  import opened TrackerTheorems
  import opened TrackerLimits
  import Scan

  // ----- the mark is brought back below the tip -------------------------------------------------------

  predicate IsPollStep(st: Step) {
    st.PollTip? || st.PollReadMark? || st.PollForceMark? || st.PollEnqueue?
  }

  /** Steps of everybody but the poller. */
  predicate NoPolling(steps: seq<Step>) {
    forall i :: 0 <= i < |steps| ==> !IsPollStep(steps[i]) && !steps[i].Restart?
  }

  lemma StepLeavesPoll(c: Config, s: State, st: Step)
    requires !IsPollStep(st) && !st.Restart?
    ensures Do(c, s, st).poll == s.poll
  {
    if IsWorkerStep(st) {
      assert Do(c, s, st) == DoWorker(c, s, st);
      WorkerLeavesPoll(c, s, st);
    }
  }

  lemma WorkerLeavesPoll(c: Config, s: State, st: Step)
    requires IsWorkerStep(st)
    ensures DoWorker(c, s, st).poll == s.poll
  {
    if st.AdvanceStep? && st.w < |s.workers| && s.workers[st.w].Advancing? {
      var p := s.workers[st.w];
      assert DoWorker(c, s, st) == DoAdvance(s, st.w, p.owned, p.adv, st.reply);
    }
  }

  lemma {:induction false} RunLeavesPoll(c: Config, s: State, steps: seq<Step>)
    requires NoPolling(steps)
    ensures Run(c, s, steps).poll == s.poll
    decreases |steps|
  {
    if steps != [] {
      var front := steps[..|steps| - 1];
      RunLeavesPoll(c, s, front);
      StepLeavesPoll(c, Run(c, s, front), steps[|steps| - 1]);
    }
  }

  /** The pass goes on from mark `last`; with nothing on the chain there is nothing to scan. */
  predicate ScansFrom(p: Poll, tip: nat, last: nat) {
    p == if tip == 0 && last == 0 then PollIdle else PollScan(tip, last, last + 1, [])
  }

  /** The mark was `last` when it was read and is forced to `to`, which is where the pass goes on from if
      the write is known to have succeeded. */
  predicate PollResets(s: State, s': State, tip: nat, last: nat, to: nat, r: Reply) {
    s'.hwm == (if r.Refused? then s.hwm else to) && ScansFrom(s'.poll, tip, if r.Done? then to else last)
  }

  /** A pass told height `tip` that reads a mark short of its confirmations, on a chain longer than the
      depth, forces it to the last confirmed height; on a shorter chain it forces a mark beyond the tip to
      the tip; any other mark it leaves alone. Others may do anything between the read and the write. */
  lemma PollClamps(c: Config, s: State, tip: nat, others: seq<Step>, r: Reply)
    requires s.poll == PollRead(tip) && NoPolling(others)
    ensures var s1 := Run(c, Do(c, s, PollReadMark(true)), others); var s' := Do(c, s1, PollForceMark(r));
      && (tip > c.confirmations && s.hwm > tip - c.confirmations ==>
            PollResets(s1, s', tip, s.hwm, tip - c.confirmations, r))
      && (tip <= c.confirmations && s.hwm > tip ==> PollResets(s1, s', tip, s.hwm, tip, r))
      && (s.hwm <= tip && (tip > c.confirmations ==> s.hwm + c.confirmations <= tip) ==>
            s' == s1 && ScansFrom(s1.poll, tip, s.hwm))
  {
    var s0 := Do(c, s, PollReadMark(true));
    assert s0 == DoPollReadMark(c, s, tip, true);
    RunLeavesPoll(c, s0, others);
    PollForces(c, Run(c, s0, others), r);
  }

  lemma PollForces(c: Config, s: State, r: Reply)
    ensures var s' := Do(c, s, PollForceMark(r));
      if s.poll.PollForce? then
        s'.hwm == (if r.Refused? then s.hwm else s.poll.resetTo) &&
        ScansFrom(s'.poll, s.poll.tip, if r.Done? then s.poll.resetTo else s.poll.last)
      else s' == s
  {
  }

  /** Undisturbed, the mark ends up no higher than the height allows, and otherwise where it was. */
  lemma PollNormalizes(c: Config, s: State, tip: nat)
    requires s.poll == PollRead(tip)
    ensures var s' := Do(c, Do(c, s, PollReadMark(true)), PollForceMark(Done));
      s'.hwm == if tip > c.confirmations && s.hwm > tip - c.confirmations then tip - c.confirmations
                else if tip <= c.confirmations && s.hwm > tip then tip
                else s.hwm
  {
    PollClamps(c, s, tip, [], Done);
  }

  /** A pass that cannot read the mark leaves it alone and scans from block 1. */
  lemma PollWithoutMark(c: Config, s: State, tip: nat)
    requires s.poll == PollRead(tip)
    ensures var s' := Do(c, s, PollReadMark(false)); s'.hwm == s.hwm && ScansFrom(s'.poll, tip, 0)
  {
  }

  /** Catch-up goes on from mark `last`: a missing mark is a first run, one at most 10 blocks behind is
      left to polling, and otherwise a scan starts. */
  predicate CatchesUpFrom(p: Catchup, tip: nat, last: nat) {
    && (last == 0 ==> p == FirstRead(tip, false))
    && (last > 0 && tip <= last + 10 ==> p == CatchDone)
    && (last > 0 && tip > last + 10 ==> p == CatchScan(tip, last, last + 1))
  }

  predicate CatchResets(s: State, s': State, tip: nat, last: nat, to: nat, r: Reply) {
    s'.hwm == (if r.Refused? then s.hwm else to) && CatchesUpFrom(s'.catch, tip, if r.Done? then to else last)
  }

  /** The same of initial catch-up. */
  lemma CatchClamps(c: Config, s: State, tip: nat, others: seq<Step>, r: Reply)
    requires s.catch == CatchRead(tip) && Elsewhere(others)
    ensures var s1 := Run(c, Do(c, s, CatchReadMark(true)), others); var s' := Do(c, s1, CatchForceMark(r));
      && (tip > c.confirmations && s.hwm > tip - c.confirmations ==>
            CatchResets(s1, s', tip, s.hwm, tip - c.confirmations, r))
      && (tip <= c.confirmations && s.hwm > tip ==> CatchResets(s1, s', tip, s.hwm, tip, r))
      && (s.hwm <= tip && (tip > c.confirmations ==> s.hwm + c.confirmations <= tip) ==>
            s' == s1 && CatchesUpFrom(s1.catch, tip, s.hwm))
  {
    var s0 := Do(c, s, CatchReadMark(true));
    assert s0 == DoCatchReadMark(c, s, tip, true);
    RunElsewhere(c, s0, others);
    CatchForces(c, Run(c, s0, others), r);
  }

  lemma CatchForces(c: Config, s: State, r: Reply)
    ensures var s' := Do(c, s, CatchForceMark(r));
      if s.catch.CatchForce? then
        s'.hwm == (if r.Refused? then s.hwm else s.catch.resetTo) &&
        CatchesUpFrom(s'.catch, s.catch.tip, if r.Done? then s.catch.resetTo else s.catch.last)
      else s' == s
  {
  }

  lemma CatchNormalizes(c: Config, s: State, tip: nat)
    requires s.catch == CatchRead(tip)
    ensures var s' := Do(c, Do(c, s, CatchReadMark(true)), CatchForceMark(Done));
      s'.hwm == if tip > c.confirmations && s.hwm > tip - c.confirmations then tip - c.confirmations
                else if tip <= c.confirmations && s.hwm > tip then tip
                else s.hwm
  {
    CatchClamps(c, s, tip, [], Done);
  }

  // ----- the scans of the machine are those of the loops ----------------------------------------------

  function Repeat(st: Step, n: nat): (r: seq<Step>)
    ensures |r| == n && forall i :: 0 <= i < n ==> r[i] == st
  {
    seq(n, _ => st)
  }

  lemma RunRepeat(c: Config, s: State, st: Step, n: nat)
    ensures Run(c, s, Repeat(st, n + 1)) == Do(c, Run(c, s, Repeat(st, n)), st)
  {
    assert Repeat(st, n + 1)[..n] == Repeat(st, n);
  }

  /** The heights a scan from mark `last` may send when told `tip`. */
  function Range(c: Config, last: nat, tip: nat): seq<nat> {
    Scan.Ascending(last + 1, Scan.SafeHead(tip, c.confirmations))
  }

  /** Catch-up after `n` undisturbed enqueues: still sending, or over at the end of the range or at a full
      queue. */
  ghost predicate CaughtUp(c: Config, s: State, tip: nat, last: nat, n: nat, s': State) {
    var all := Range(c, last, tip);
    var room := if |s.catchup| < c.catchupCap then c.catchupCap - |s.catchup| else 0;
    if n <= |all| && n <= room then s'.catch == CatchScan(tip, last, last + 1 + n) && s'.catchup == s.catchup + all[..n]
    else s'.catch == CatchDone && s'.catchup == s.catchup + all[..if |all| < room then |all| else room]
  }

  lemma {:induction false} CatchScanAlone(c: Config, s: State, tip: nat, last: nat, n: nat)
    requires s.catch == CatchScan(tip, last, last + 1)
    ensures CaughtUp(c, s, tip, last, n, Run(c, s, Repeat(CatchEnqueue(true), n)))
    decreases n
  {
    var all := Range(c, last, tip);
    if n == 0 {
      assert s.catchup + all[..0] == s.catchup;
    } else {
      CatchScanAlone(c, s, tip, last, n - 1);
      RunRepeat(c, s, CatchEnqueue(true), n - 1);
      CatchScanNext(c, s, Run(c, s, Repeat(CatchEnqueue(true), n - 1)), tip, last, n - 1);
    }
  }

  lemma CatchEnqueues(c: Config, s: State)
    ensures var s' := Do(c, s, CatchEnqueue(true)); var p := s.catch;
      if !p.CatchScan? then s' == s
      else if p.next > Scan.SafeHead(p.tip, c.confirmations) || |s.catchup| >= c.catchupCap then
        s'.catch == CatchDone && s'.catchup == s.catchup
      else s'.catch == p.(next := p.next + 1) && s'.catchup == s.catchup + [p.next]
  {
  }

  lemma CatchScanNext(c: Config, s: State, s1: State, tip: nat, last: nat, n: nat)
    requires CaughtUp(c, s, tip, last, n, s1)
    ensures CaughtUp(c, s, tip, last, n + 1, Do(c, s1, CatchEnqueue(true)))
  {
    CatchEnqueues(c, s1);
    var all := Range(c, last, tip);
    if n < |all| { assert all[..n + 1] == all[..n] + [last + 1 + n]; }
  }

  /** Left alone, initial catch-up enqueues what the loop of `Scan.CatchupPass` does: the confirmed heights
      above the mark in ascending order, stopping before the last of them only at a full queue. */
  lemma CatchScanIsLoop(c: Config, s: State, tip: nat, last: nat)
    requires s.catch == CatchScan(tip, last, last + 1)
    ensures var accepts := (i: nat) => |s.catchup| + i < c.catchupCap;
      var sent := Scan.Enqueued(last + 1, Scan.SafeHead(tip, c.confirmations), accepts);
      var s' := Run(c, s, Repeat(CatchEnqueue(true), tip + 1));
      && s'.catch == CatchDone && s'.catchup == s.catchup + sent
      && Scan.OnlyDue(last, tip, c.confirmations, sent)
      && (|s'.catchup| < c.catchupCap ==> Scan.AllDue(last, tip, c.confirmations, sent))
  {
    var accepts := (i: nat) => |s.catchup| + i < c.catchupCap;
    var all := Range(c, last, tip);
    var room := if |s.catchup| < c.catchupCap then c.catchupCap - |s.catchup| else 0;
    CatchScanAlone(c, s, tip, last, tip + 1);
    Scan.EnqueuedIs(last + 1, Scan.SafeHead(tip, c.confirmations), accepts,
                    all[..if |all| < room then |all| else room]);
    Scan.EnqueuedConfirmed(last, tip, c.confirmations, accepts);
  }

  /** A polling pass after `n` undisturbed enqueues. */
  ghost predicate PolledUp(c: Config, s: State, tip: nat, last: nat, n: nat, s': State) {
    var all := Range(c, last, tip);
    var room := if |s.realtime| < c.realtimeCap then c.realtimeCap - |s.realtime| else 0;
    if n <= |all| && n <= room then
      s'.poll == PollScan(tip, last, last + 1 + n, all[..n]) && s'.realtime == s.realtime + all[..n]
    else
      var sent := all[..if |all| < room then |all| else room];
      s'.poll == PollIdle && s'.realtime == s.realtime + sent &&
      s'.lastPass == Some(Pass(tip, last, sent, |sent| < |all|))
  }

  lemma {:induction false} PollScanAlone(c: Config, s: State, tip: nat, last: nat, n: nat)
    requires s.poll == PollScan(tip, last, last + 1, [])
    ensures PolledUp(c, s, tip, last, n, Run(c, s, Repeat(PollEnqueue(true), n)))
    decreases n
  {
    var all := Range(c, last, tip);
    if n == 0 {
      assert s.realtime + all[..0] == s.realtime && all[..0] == [];
    } else {
      PollScanAlone(c, s, tip, last, n - 1);
      RunRepeat(c, s, PollEnqueue(true), n - 1);
      PollScanNext(c, s, Run(c, s, Repeat(PollEnqueue(true), n - 1)), tip, last, n - 1);
    }
  }

  lemma PollScanNext(c: Config, s: State, s1: State, tip: nat, last: nat, n: nat)
    requires PolledUp(c, s, tip, last, n, s1)
    ensures PolledUp(c, s, tip, last, n + 1, Do(c, s1, PollEnqueue(true)))
  {
    var all := Range(c, last, tip);
    if s1.poll.PollScan? {
      assert Do(c, s1, PollEnqueue(true)) == DoPollEnqueue(c, s1, s1.poll, true);
      if n < |all| { assert all[..n + 1] == all[..n] + [last + 1 + n]; }
    }
  }

  /** The same of a polling pass and the loop of `Scan.PollingPass`. */
  lemma PollScanIsLoop(c: Config, s: State, tip: nat, last: nat)
    requires s.poll == PollScan(tip, last, last + 1, [])
    ensures var accepts := (i: nat) => |s.realtime| + i < c.realtimeCap;
      var sent := Scan.Enqueued(last + 1, Scan.SafeHead(tip, c.confirmations), accepts);
      var s' := Run(c, s, Repeat(PollEnqueue(true), tip + 1));
      && s'.poll == PollIdle && s'.realtime == s.realtime + sent
      && (exists refused :: s'.lastPass == Some(Pass(tip, last, sent, refused)) && (refused ==> !accepts(|sent|)))
      && Scan.OnlyDue(last, tip, c.confirmations, sent)
      && (|s'.realtime| < c.realtimeCap ==> Scan.AllDue(last, tip, c.confirmations, sent))
  {
    var accepts := (i: nat) => |s.realtime| + i < c.realtimeCap;
    var all := Range(c, last, tip);
    var room := if |s.realtime| < c.realtimeCap then c.realtimeCap - |s.realtime| else 0;
    PollScanAlone(c, s, tip, last, tip + 1);
    Scan.EnqueuedIs(last + 1, Scan.SafeHead(tip, c.confirmations), accepts,
                    all[..if |all| < room then |all| else room]);
    Scan.EnqueuedConfirmed(last, tip, c.confirmations, accepts);
  }

  // ----- nothing short of its confirmations is ever queued by a scan ----------------------------------

  predicate ConfirmedAt(c: Config, tip: nat, b: nat) {
    b <= tip && (tip > c.confirmations ==> b + c.confirmations <= tip)
  }

  /** Some observed height lets a scan send block `b`. */
  ghost predicate Sendable(c: Config, maxTip: nat, b: nat) {
    exists tip: nat :: tip <= maxTip && ConfirmedAt(c, tip, b)
  }

  lemma SendableLater(c: Config, maxTip: nat, maxTip': nat, b: nat)
    requires Sendable(c, maxTip, b) && maxTip <= maxTip'
    ensures Sendable(c, maxTip', b)
  {
  }

  function TipOf(p: Catchup): nat {
    if p.CatchTip? || p.CatchDone? then 0 else p.tip
  }

  ghost predicate CatchupSendable(c: Config, s: State) {
    TipOf(s.catch) <= s.h.maxTip && forall b :: b in s.catchup ==> Sendable(c, s.h.maxTip, b)
  }

  lemma WorkerKeepsSendable(c: Config, s: State, st: Step)
    requires IsWorkerStep(st) && CatchupSendable(c, s)
    ensures CatchupSendable(c, DoWorker(c, s, st))
  {
    WorkerWrites(c, s, st);
    WorkerQueue(c, s, st);
    var s' := DoWorker(c, s, st);
    forall b | b in s'.catchup ensures Sendable(c, s'.h.maxTip, b) {
      SendableLater(c, s.h.maxTip, s'.h.maxTip, b);
    }
  }

  lemma WorkerQueue(c: Config, s: State, st: Step)
    requires IsWorkerStep(st)
    ensures var s' := DoWorker(c, s, st);
      s.h.maxTip <= s'.h.maxTip && forall b :: b in s'.catchup ==> b in s.catchup
  {
    if st.AdvanceStep? && st.w < |s.workers| && s.workers[st.w].Advancing? {
      var p := s.workers[st.w];
      assert DoWorker(c, s, st) == DoAdvance(s, st.w, p.owned, p.adv, st.reply);
    }
  }

  lemma StepKeepsSendable(c: Config, s: State, st: Step)
    requires CatchupSendable(c, s)
    ensures CatchupSendable(c, Do(c, s, st))
  {
    if IsWorkerStep(st) {
      assert Do(c, s, st) == DoWorker(c, s, st);
      WorkerKeepsSendable(c, s, st);
    } else {
      var s' := Do(c, s, st);
      OtherQueue(c, s, st);
      forall b | b in s'.catchup ensures Sendable(c, s'.h.maxTip, b) {
        if b in s.catchup {
          SendableLater(c, s.h.maxTip, s'.h.maxTip, b);
        } else {
          assert ConfirmedAt(c, TipOf(s.catch), b);
        }
      }
    }
  }

  lemma OtherQueue(c: Config, s: State, st: Step)
    requires !IsWorkerStep(st) && TipOf(s.catch) <= s.h.maxTip
    ensures var s' := Do(c, s, st);
      && s.h.maxTip <= s'.h.maxTip && TipOf(s'.catch) <= s'.h.maxTip
      && forall b :: b in s'.catchup && b !in s.catchup ==> ConfirmedAt(c, TipOf(s.catch), b)
  {
    if IsCatchStep(st) {
      CatchQueue(c, s, st);
    } else if st.Restart? {
      RestartForgets(c, s, st.crash);
    } else {
      NotCatchQueue(c, s, st);
    }
  }

  lemma CatchQueue(c: Config, s: State, st: Step)
    requires IsCatchStep(st) && TipOf(s.catch) <= s.h.maxTip
    ensures var s' := Do(c, s, st);
      && s.h.maxTip <= s'.h.maxTip && TipOf(s'.catch) <= s'.h.maxTip
      && forall b :: b in s'.catchup && b !in s.catchup ==> ConfirmedAt(c, TipOf(s.catch), b)
  {
    if st.CatchEnqueue? && s.catch.CatchScan? {
      assert Do(c, s, st) == DoCatchEnqueue(c, s, s.catch, st.ok);
    } else {
      CatchHeights(c, s, st);
    }
  }

  lemma CatchHeights(c: Config, s: State, st: Step)
    requires IsCatchStep(st) && !(st.CatchEnqueue? && s.catch.CatchScan?) && TipOf(s.catch) <= s.h.maxTip
    ensures var s' := Do(c, s, st);
      s.h.maxTip <= s'.h.maxTip && TipOf(s'.catch) <= s'.h.maxTip && s'.catchup == s.catchup
  {
  }

  lemma NotCatchQueue(c: Config, s: State, st: Step)
    requires !IsWorkerStep(st) && !IsCatchStep(st) && !st.Restart?
    ensures var s' := Do(c, s, st);
      s.h.maxTip <= s'.h.maxTip && s'.catch == s.catch && s'.catchup == s.catchup
  {
    StepElsewhere(c, s, st);
  }

  /** In every interleaving each block on the catch-up queue was confirmed at some height that had been
      observed. */
  lemma {:induction false} CatchupQueueConfirmed(c: Config, s0: State, steps: seq<Step>)
    requires Init(c, s0)
    ensures CatchupSendable(c, Run(c, s0, steps))
    decreases |steps|
  {
    if steps != [] {
      var front := steps[..|steps| - 1];
      CatchupQueueConfirmed(c, s0, front);
      StepKeepsSendable(c, Run(c, s0, front), steps[|steps| - 1]);
    }
  }

  // ----- the queues -----------------------------------------------------------------------------------

  /** The queue worker `w` serves. */
  function QueueOf(c: Config, s: State, w: nat): seq<nat> {
    if w < c.realtimeWorkers then s.realtime else s.catchup
  }

  /** An idle worker takes the head of its own queue and leaves the other one alone. */
  lemma TakesHead(c: Config, s: State, w: nat)
    requires w < |s.workers| && s.workers[w].Idle? && QueueOf(c, s, w) != []
    ensures var s' := Do(c, s, Dequeue(w));
      && s'.workers == s.workers[w := Picked(QueueOf(c, s, w)[0])]
      && s'.realtime == (if w < c.realtimeWorkers then s.realtime[1..] else s.realtime)
      && s'.catchup == (if w < c.realtimeWorkers then s.catchup else s.catchup[1..])
  {
  }

  /** A queue is left alone, loses its head, or gets one block at its end if it has room. */
  predicate Queues(q: seq<nat>, q': seq<nat>, cap: nat) {
    q' == q || (q != [] && q' == q[1..]) || (|q| < cap && |q'| == |q| + 1 && q <= q')
  }

  lemma WorkerQueues(c: Config, s: State, st: Step)
    requires IsWorkerStep(st)
    ensures Queues(s.realtime, DoWorker(c, s, st).realtime, c.realtimeCap)
    ensures Queues(s.catchup, DoWorker(c, s, st).catchup, c.catchupCap)
  {
    if st.AdvanceStep? && st.w < |s.workers| && s.workers[st.w].Advancing? {
      var p := s.workers[st.w];
      assert DoWorker(c, s, st) == DoAdvance(s, st.w, p.owned, p.adv, st.reply);
    }
  }

  lemma StepQueues(c: Config, s: State, st: Step)
    requires !st.Restart?
    ensures Queues(s.realtime, Do(c, s, st).realtime, c.realtimeCap)
    ensures Queues(s.catchup, Do(c, s, st).catchup, c.catchupCap)
  {
    if IsWorkerStep(st) {
      assert Do(c, s, st) == DoWorker(c, s, st);
      WorkerQueues(c, s, st);
    }
  }

  /** In every interleaving neither queue ever holds more than it has room for. */
  lemma {:induction false} QueuesBounded(c: Config, s0: State, steps: seq<Step>)
    requires Init(c, s0)
    ensures var s := Run(c, s0, steps); |s.realtime| <= c.realtimeCap && |s.catchup| <= c.catchupCap
    decreases |steps|
  {
    if steps != [] {
      var front, last := steps[..|steps| - 1], steps[|steps| - 1];
      QueuesBounded(c, s0, front);
      if last.Restart? {
        RestartForgets(c, Run(c, s0, front), last.crash);
      } else {
        StepQueues(c, Run(c, s0, front), last);
      }
    }
  }

  /** A restart forgets what the process was doing and keeps what is in Redis; only a crash loses the
      counter. */
  lemma RestartForgets(c: Config, s: State, crash: bool)
    ensures var s' := Do(c, s, Restart(crash));
      && s'.hwm == s.hwm && s'.bits == s.bits && s'.tipCache == s.tipCache
      && s'.realtime == [] && s'.catchup == [] && s'.timers == multiset{} && s'.inFlight == {}
      && |s'.workers| == c.workers && (forall w :: 0 <= w < c.workers ==> s'.workers[w] == Idle)
      && s'.poll == PollIdle && s'.catch == CatchTip && s'.h.maxTip == s.h.maxTip
      && s'.processed == if crash then 0 else s.processed
  {
  }

  /** When a window runs out exactly the bits of its 100000 blocks are gone. */
  lemma WindowForgets(c: Config, s: State, window: nat)
    ensures forall b :: b in Do(c, s, ExpireWindow(window)).bits <==> b in s.bits && b / 100000 != window
    ensures Do(c, s, ExpireWindow(window)).hwm == s.hwm
  {
  }

  // ----- a block that is not deep enough --------------------------------------------------------------

  /** Worker `w` is told a height at which block `b` is not deep enough yet: it lets the block go, and a
      timer is set for it. */
  lemma ShallowRequeued(c: Config, s: State, w: nat, b: nat, r: TipReply, t: nat)
    requires w < |s.workers| && s.workers[w] == AwaitTip(b) && Observed(s, r) == Some(t)
    ensures var s' := Do(c, s, SeeTip(w, r));
      if b + c.confirmations > t then
        s'.workers == s.workers[w := Idle] && s'.inFlight == s.inFlight - {b} && s'.timers == s.timers + multiset{b}
      else
        s'.workers == s.workers[w := Ready(b, t)] && s'.inFlight == s.inFlight && s'.timers == s.timers
  {
  }

  /** Steps under which no timer of block `b` fires. */
  predicate NoTimer(steps: seq<Step>, b: nat) {
    forall i :: 0 <= i < |steps| ==> !steps[i].Restart? && steps[i] != TimerFire(b)
  }

  lemma StepKeepsTimer(c: Config, s: State, st: Step, b: nat)
    requires !st.Restart? && st != TimerFire(b)
    ensures s.timers[b] <= Do(c, s, st).timers[b]
  {
    if IsWorkerStep(st) {
      assert Do(c, s, st) == DoWorker(c, s, st);
      WorkerKeepsTimer(c, s, st, b);
    }
  }

  lemma WorkerKeepsTimer(c: Config, s: State, st: Step, b: nat)
    requires IsWorkerStep(st)
    ensures s.timers[b] <= DoWorker(c, s, st).timers[b]
  {
    if st.AdvanceStep? && st.w < |s.workers| && s.workers[st.w].Advancing? {
      var p := s.workers[st.w];
      assert DoWorker(c, s, st) == DoAdvance(s, st.w, p.owned, p.adv, st.reply);
    }
  }

  lemma {:induction false} RunKeepsTimer(c: Config, s: State, steps: seq<Step>, b: nat)
    requires NoTimer(steps, b)
    ensures s.timers[b] <= Run(c, s, steps).timers[b]
    decreases |steps|
  {
    if steps != [] {
      var front := steps[..|steps| - 1];
      RunKeepsTimer(c, s, front, b);
      StepKeepsTimer(c, Run(c, s, front), steps[|steps| - 1], b);
    }
  }

  /** Whatever the others do meanwhile, when that timer fires the block is back on the realtime queue if
      there is room, and left to polling otherwise. */
  lemma ShallowComesBack(c: Config, s: State, w: nat, b: nat, r: TipReply, t: nat, others: seq<Step>)
    requires w < |s.workers| && s.workers[w] == AwaitTip(b) && Observed(s, r) == Some(t) && b + c.confirmations > t
    requires NoTimer(others, b)
    ensures var s1 := Run(c, Do(c, s, SeeTip(w, r)), others); var s' := Do(c, s1, TimerFire(b));
      && b in s1.timers && s'.timers == s1.timers - multiset{b}
      && s'.realtime == if |s1.realtime| < c.realtimeCap then s1.realtime + [b] else s1.realtime
  {
    ShallowRequeued(c, s, w, b, r, t);
    RunKeepsTimer(c, Do(c, s, SeeTip(w, r)), others, b);
  }

  /** A height that a worker fetched is what the others are told from the cache once it is stored there. */
  lemma CachedTipSeen(c: Config, s: State, w: nat, b: nat, t: nat)
    requires w < |s.workers| && s.workers[w] == AwaitTip(b) && 0 < t <= s.trueTip
    ensures var s' := Do(c, Do(c, s, SeeTip(w, FromRpc(t))), FlushTip(t));
      Observed(s', FromCache) == Some(t) && Observed(Do(c, s', EvictTip), FromCache) == None
  {
    assert Do(c, s, SeeTip(w, FromRpc(t))) == DoSeeTip(c, s, w, b, FromRpc(t));
    CacheFilled(c, Do(c, s, SeeTip(w, FromRpc(t))), t);
  }

  lemma CacheFilled(c: Config, s: State, t: nat)
    requires 0 < t && t in s.pendingTips
    ensures var s' := Do(c, s, FlushTip(t));
      Observed(s', FromCache) == Some(t) && Observed(Do(c, s', EvictTip), FromCache) == None
  {
  }

  // ----- the end of a call ----------------------------------------------------------------------------

  /** After SETBIT and EXPIRE the worker goes on to advance the mark only if both are known to have
      succeeded; otherwise it lets the block go uncounted, its bit set unless SETBIT was refused. */
  lemma MarkOutcomes(c: Config, s: State, w: nat, b: nat, k: nat, r: Reply, expireOk: bool)
    requires w < |s.workers| && s.workers[w] == Marking(b, k)
    ensures var s' := Do(c, Do(c, s, SetBit(w, r)), ExpireKey(w, expireOk));
      && s'.bits == (if r.Refused? then s.bits else s.bits + {b})
      && s'.hwm == s.hwm && s'.processed == s.processed
      && (r.Done? && expireOk ==> s'.workers[w] == Advancing(Some(b), ReadMark) && s'.inFlight == s.inFlight)
      && (!(r.Done? && expireOk) ==> s'.workers[w] == Idle && s'.inFlight == s.inFlight - {b})
  {
  }

  /** A command of the advance that fails, or finds the mark further on already, ends it: the mark stays,
      unless the write itself got through, and the block counts all the same. */
  lemma AdvanceStops(c: Config, s: State, w: nat, b: nat, adv: Advance, r: Reply)
    requires w < |s.workers| && s.workers[w] == Advancing(Some(b), adv)
    requires !r.Done? || (adv.SetRead? && adv.target < s.hwm)
    ensures var s' := Do(c, s, AdvanceStep(w, r));
      && s'.workers == s.workers[w := Idle] && s'.inFlight == s.inFlight - {b} && s'.processed == s.processed + 1
      && s'.hwm == if adv.SetWrite? && r.Lost? then adv.target else s.hwm
  {
    assert Do(c, s, AdvanceStep(w, r)) == DoAdvance(s, w, Some(b), adv, r);
  }
}
