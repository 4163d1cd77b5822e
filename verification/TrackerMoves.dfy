/** What single moves of the tracker come to: taking a block up, letting it go, hearing of a new height,
    and the first run. */
module TrackerMoves {
  import opened Common
  import opened Chains
  import opened Tracker
  import opened TrackerSafety
  import opened TrackerSteps
  import opened TrackerTheorems
  import opened TrackerLimits

  /** A block that some worker holds is dropped; any other is taken into the in-flight set. */
  lemma Claims(c: Config, s: State, w: nat, b: nat)
    requires w < |s.workers| && s.workers[w] == Picked(b)
    ensures var s' := Do(c, s, Claim(w));
      if b in s.inFlight then s' == s.(workers := s.workers[w := Idle])
      else s' == s.(workers := s.workers[w := Claimed(b)], inFlight := s.inFlight + {b})
  {
  }

  /** A worker that finds the bit set lets the block go and goes on to advance the mark; with the bit clear
      it asks for the height. */
  lemma BitDecides(c: Config, s: State, w: nat, b: nat)
    requires w < |s.workers| && s.workers[w] == Claimed(b)
    ensures var s' := Do(c, s, CheckBit(w, true));
      if b in s.bits then
        s' == s.(workers := s.workers[w := Advancing(None, ReadMark)], inFlight := s.inFlight - {b})
      else s' == s.(workers := s.workers[w := AwaitTip(b)])
  {
  }

  /** Step `st` fails what worker `w` is at: a failed read of the bit, no height, no block, or a call given
      up. */
  predicate Fails(s: State, w: nat, st: Step)
    requires w < |s.workers|
  {
    match s.workers[w]
    case Claimed(_) => st == CheckBit(w, false)
    case AwaitTip(_) => st.SeeTip? && st.w == w && Observed(s, st.tipReply).None?
    case Ready(_, _) => st == Fetch(w, None)
    case Publishing(_, _) => st == Abandon(w)
    case _ => false
  }

  /** Then the block is let go, and nothing else changes. */
  lemma FailureLetsGo(c: Config, s: State, w: nat, st: Step)
    requires w < |s.workers| && Fails(s, w, st)
    ensures var b := Holds(s.workers[w]);
      b.Some? && Do(c, s, st) == s.(workers := s.workers[w := Idle], inFlight := s.inFlight - {b.value})
  {
  }

  /** A notification puts the block at the end of the realtime queue if there is room. */
  lemma Notified(c: Config, s: State, b: nat)
    ensures Do(c, s, Notify(b)) == s.(realtime := if |s.realtime| < c.realtimeCap then s.realtime + [b] else s.realtime)
  {
  }

  /** Polling and catch-up start with a height heard; without one polling waits for its next turn, while
      catch-up is over. */
  lemma PassStarts(c: Config, s: State, r: TipReply)
    ensures s.poll == PollIdle ==>
      Do(c, s, PollTip(r)).poll == match Observed(s, r) { case Some(t) => PollRead(t) case None => PollIdle }
    ensures s.catch == CatchTip ==>
      Do(c, s, CatchSeeTip(r)).catch == match Observed(s, r) { case Some(t) => CatchRead(t) case None => CatchDone }
  {
  }

  /** A first run installs the height it was told if the mark it finds lies no higher, whatever the others do
      between its read and its write, and catch-up is over in any case. */
  lemma FirstRunInstalls(c: Config, s: State, read: Reply, others: seq<Step>, write: Reply)
    requires s.catch.FirstRead? && Elsewhere(others)
    ensures var s1 := Run(c, Do(c, s, CatchFirst(read)), others); var s' := Do(c, s1, CatchFirst(write));
      && s'.catch == CatchDone
      && s'.hwm == if read.Done? && s.hwm <= s.catch.tip && !write.Refused? then s.catch.tip else s1.hwm
  {
    var s0 := Do(c, s, CatchFirst(read));
    assert s0 == DoCatchFirst(s, s.catch, read);
    RunElsewhere(c, s0, others);
    FirstRunEnds(c, Run(c, s0, others), write);
  }

  lemma FirstRunEnds(c: Config, s: State, write: Reply)
    requires s.catch.FirstWrite? || s.catch.CatchDone?
    ensures var s' := Do(c, s, CatchFirst(write));
      s'.catch == CatchDone && s'.hwm == if s.catch.FirstWrite? && !write.Refused? then s.catch.tip else s.hwm
  {
  }

  /** The chain only grows, and providers may answer any height up to its own. */
  lemma HeightsHeard(c: Config, s: State, t: nat, u: nat)
    ensures var s' := Do(c, s, Grow(t));
      Observed(s', FromRpc(u)) == if u <= t || u <= s.trueTip then Some(u) else None
  {
  }
}
