/** From every reachable state the tracker can still catch up, without a restart and whatever the blocks
    hold. */
module TrackerRecovery {
  import opened Common
  import opened Chains
  import Progress
  import opened Tracker
  import opened TrackerSafety
  import opened TrackerSteps

  /** What each block holds when it is fetched. */
  type Blocks = nat -> Fetched

  ghost predicate Contents(c: Config, blocks: Blocks) {
    forall b :: Derives(c.chain, blocks(b))
  }

  // ----- reaching states ----------------------------------------------------------------------------

  /** The process keeps running, so that an enqueue is refused only at a full queue, and no bits are lost. */
  predicate Runs(st: Step) {
    !st.Restart? && !st.ExpireWindow? && (st.PollEnqueue? || st.CatchEnqueue? ==> st.ok)
  }

  predicate Live(steps: seq<Step>) {
    forall i :: 0 <= i < |steps| ==> Runs(steps[i])
  }

  ghost predicate Reaches(c: Config, s: State, s': State) {
    exists steps :: Live(steps) && Run(c, s, steps) == s'
  }

  lemma Stay(c: Config, s: State)
    ensures Reaches(c, s, s)
  {
    assert Live([]) && Run(c, s, []) == s;
  }

  lemma Then(c: Config, s: State, s1: State, s2: State)
    requires Reaches(c, s, s1) && Reaches(c, s1, s2)
    ensures Reaches(c, s, s2)
  {
    var a :| Live(a) && Run(c, s, a) == s1;
    var b :| Live(b) && Run(c, s1, b) == s2;
    RunConcat(c, s, a, b);
    assert Live(a + b);
  }

  lemma Once(c: Config, s: State, st: Step, s': State)
    requires s' == Do(c, s, st) && Runs(st)
    ensures Reaches(c, s, s')
  {
    assert [st][..0] == [];
    assert Live([st]) && Run(c, s, [st]) == s';
  }

  lemma Twice(c: Config, s: State, st1: Step, s1: State, st2: Step, s2: State)
    requires s1 == Do(c, s, st1) && s2 == Do(c, s1, st2)
    requires Runs(st1) && Runs(st2)
    ensures Reaches(c, s, s2)
  {
    Once(c, s, st1, s1);
    Once(c, s1, st2, s2);
    Then(c, s, s1, s2);
  }

  lemma ReachesKeeps(c: Config, s: State, s': State)
    requires Inv(c, s) && Reaches(c, s, s')
    ensures Inv(c, s')
  {
    var steps :| Live(steps) && Run(c, s, steps) == s';
    RunKeeps(c, s, steps);
  }

  // ----- letting go of what is under way ------------------------------------------------------------

  /** The parts of the state that failing steps leave alone. */
  predicate Kept(s: State, s': State) {
    && s'.trueTip == s.trueTip && s'.h.base == s.h.base && s'.hwm == s.hwm && s'.h.attempts == s.h.attempts
    && |s'.workers| == |s.workers|
  }

  /** The failure that ends what a worker is doing. */
  function FailStep(w: nat, p: Worker): Step
    requires !p.Idle? && !p.Picked?
  {
    match p
    case Claimed(_) => CheckBit(w, false)
    case AwaitTip(_) => SeeTip(w, TipError)
    case Ready(_, _) => Fetch(w, None)
    case Publishing(_, _) => Abandon(w)
    case Marking(_, _) => SetBit(w, Refused)
    case Expiring(_) => ExpireKey(w, false)
    case Advancing(_, _) => AdvanceStep(w, Refused)
  }

  lemma Fails(c: Config, s: State, w: nat) returns (s': State)
    requires w < |s.workers| && !s.workers[w].Idle? && !s.workers[w].Picked?
    ensures Reaches(c, s, s') && Kept(s, s')
    ensures s'.workers == s.workers[w := Idle] && s'.realtime == s.realtime && s'.poll == s.poll
  {
    var st := FailStep(w, s.workers[w]);
    s' := Do(c, s, st);
    FailsAlone(c, s, w);
    Once(c, s, st, s');
  }

  lemma FailsAlone(c: Config, s: State, w: nat)
    requires w < |s.workers| && !s.workers[w].Idle? && !s.workers[w].Picked?
    ensures var s' := Do(c, s, FailStep(w, s.workers[w]));
      Kept(s, s') && s'.workers == s.workers[w := Idle] && s'.realtime == s.realtime && s'.poll == s.poll
  {
    var p := s.workers[w];
    if p.Advancing? {
      assert Do(c, s, FailStep(w, p)) == DoAdvance(s, w, p.owned, p.adv, Refused) == Advanced(s, w, p.owned);
    } else {
      FailReleases(c, s, w);
    }
  }

  lemma FailReleases(c: Config, s: State, w: nat)
    requires w < |s.workers| && !s.workers[w].Idle? && !s.workers[w].Picked? && !s.workers[w].Advancing?
    ensures Do(c, s, FailStep(w, s.workers[w])) == Release(s, w, Holds(s.workers[w]).value)
  {
    var st := FailStep(w, s.workers[w]);
    assert Do(c, s, st) == DoWorker(c, s, st);
  }

  /** A worker drops what it is doing. */
  lemma LetGo(c: Config, s: State, w: nat) returns (s': State)
    requires w < |s.workers|
    ensures Reaches(c, s, s') && Kept(s, s')
    ensures s'.workers == s.workers[w := Idle] && s'.realtime == s.realtime && s'.poll == s.poll
  {
    if s.workers[w].Idle? {
      s' := s;
      Stay(c, s);
    } else if s.workers[w].Picked? {
      s' := Unpick(c, s, w);
    } else {
      s' := Fails(c, s, w);
    }
  }

  lemma ClaimOnce(c: Config, s: State, w: nat) returns (s': State)
    requires w < |s.workers| && s.workers[w].Picked?
    ensures Reaches(c, s, s') && s' == DoClaim(s, w, s.workers[w].block)
  {
    s' := Do(c, s, Claim(w));
    assert s' == DoClaim(s, w, s.workers[w].block);
    Once(c, s, Claim(w), s');
  }

  lemma Unpick(c: Config, s: State, w: nat) returns (s': State)
    requires w < |s.workers| && s.workers[w].Picked?
    ensures Reaches(c, s, s') && Kept(s, s') && s'.inFlight == s.inFlight
    ensures s'.workers == s.workers[w := Idle] && s'.realtime == s.realtime && s'.poll == s.poll
  {
    var s1 := ClaimOnce(c, s, w);
    if s1.workers[w].Idle? {
      s' := s1;
    } else {
      s' := CheckFails(c, s1, w, s.workers[w].block);
      Then(c, s, s1, s');
      assert s.inFlight + {s.workers[w].block} - {s.workers[w].block} == s.inFlight;
    }
  }

  lemma CheckFails(c: Config, s: State, w: nat, b: nat) returns (s': State)
    requires w < |s.workers| && s.workers[w] == Claimed(b)
    ensures Reaches(c, s, s') && s' == Release(s, w, b)
  {
    s' := Do(c, s, CheckBit(w, false));
    assert s' == Release(s, w, b);
    Once(c, s, CheckBit(w, false), s');
  }

  /** One worker after the other. */
  lemma {:induction false} LetAllGo(c: Config, s: State, n: nat) returns (s': State)
    requires n <= |s.workers|
    ensures Reaches(c, s, s') && Kept(s, s') && s'.realtime == s.realtime && s'.poll == s.poll
    ensures forall w :: 0 <= w < n ==> s'.workers[w].Idle?
    decreases n
  {
    if n == 0 {
      s' := s;
      Stay(c, s);
    } else {
      var s1 := LetAllGo(c, s, n - 1);
      s' := LetGo(c, s1, n - 1);
      Then(c, s, s1, s');
    }
  }

  /** The scan of a pass ends: only the queue has grown. */
  predicate PassOver(s: State, s': State) {
    s' == s.(poll := PollIdle, lastPass := s'.lastPass, realtime := s'.realtime) && s.realtime <= s'.realtime
  }

  /** The scan sends heights until it has sent the last scannable one or the queue is full. */
  lemma {:induction false} ScanEnds(c: Config, s: State) returns (s': State)
    requires s.poll.PollScan?
    ensures Reaches(c, s, s') && PassOver(s, s')
    ensures s.poll.next <= s.poll.tip && s.poll.next <= ScanHead(c, s.poll.tip) && |s.realtime| < c.realtimeCap ==>
      |s'.realtime| > |s.realtime| && s'.realtime[|s.realtime|] == s.poll.next
    decreases s.poll.tip + 1 - s.poll.next
  {
    var s1 := EnqueueOnce(c, s);
    if s1.poll.PollScan? {
      s' := ScanEnds(c, s1);
      Then(c, s, s1, s');
    } else {
      s' := s1;
    }
  }

  lemma EnqueueOnce(c: Config, s: State) returns (s': State)
    requires s.poll.PollScan?
    ensures Reaches(c, s, s') && s' == DoPollEnqueue(c, s, s.poll, true)
  {
    s' := Do(c, s, PollEnqueue(true));
    assert s' == DoPollEnqueue(c, s, s.poll, true);
    Once(c, s, PollEnqueue(true), s');
  }

  /** The poller ends its pass. */
  lemma PassEnds(c: Config, s: State) returns (s': State)
    ensures Reaches(c, s, s') && PassOver(s, s')
  {
    s' := s;
    Stay(c, s);
    if s.poll.PollRead? || s.poll.PollForce? {
      var st := if s.poll.PollRead? then PollReadMark(false) else PollForceMark(Refused);
      s' := Do(c, s, st);
      assert s' == StartPoll(s, s.poll.tip, if s.poll.PollRead? then 0 else s.poll.last);
      Once(c, s, st, s');
    }
    if s'.poll.PollScan? {
      var s1 := s';
      s' := ScanEnds(c, s1);
      Then(c, s, s1, s');
    }
  }

  lemma DequeueOnce(c: Config, s: State) returns (s': State)
    requires |s.workers| > 0 && 0 < c.realtimeWorkers && s.workers[0].Idle? && s.realtime != []
    ensures Reaches(c, s, s') && s' == Goto(s.(realtime := s.realtime[1..]), 0, Picked(s.realtime[0]))
  {
    s' := Do(c, s, Dequeue(0));
    assert s' == Goto(s.(realtime := s.realtime[1..]), 0, Picked(s.realtime[0]));
    Once(c, s, Dequeue(0), s');
  }

  /** Worker 0 takes everything off the realtime queue, to no effect. */
  lemma {:induction false} QueueDrains(c: Config, s: State) returns (s': State)
    requires |s.workers| > 0 && 0 < c.realtimeWorkers && s.workers[0].Idle?
    ensures Reaches(c, s, s') && Kept(s, s') && s'.inFlight == s.inFlight
    ensures s'.workers == s.workers && s'.realtime == [] && s'.poll == s.poll
    decreases |s.realtime|
  {
    if s.realtime == [] {
      s' := s;
      Stay(c, s);
    } else {
      var s1 := DequeueOnce(c, s);
      var s2 := Unpick(c, s1, 0);
      assert s2.workers == s.workers;
      Then(c, s, s1, s2);
      s' := QueueDrains(c, s2);
      Then(c, s, s2, s');
    }
  }

  lemma NobodyHolds(c: Config, s: State)
    requires Inv(c, s) && forall w :: 0 <= w < |s.workers| ==> s.workers[w].Idle?
    ensures s.inFlight == {}
  {
    assert forall i :: 0 <= i < |s.workers| ==> Holds(s.workers[i]) == None;
  }

  /** However the workers, the poller and the queue stand, they can come to rest with nothing in flight. */
  lemma ComesToRest(c: Config, s: State) returns (s': State)
    requires Inv(c, s) && c.workers > 0 && c.realtimeWorkers > 0 && c.realtimeCap > 0
    ensures Reaches(c, s, s') && Kept(s, s') && Quiet(c, s')
  {
    var s1 := LetAllGo(c, s, |s.workers|);
    var s2 := PassEnds(c, s1);
    Then(c, s, s1, s2);
    s' := QueueDrains(c, s2);
    Then(c, s, s2, s');
    ReachesKeeps(c, s, s');
    NobodyHolds(c, s');
  }

  // ----- a clean continuation -----------------------------------------------------------------------

  /** Worker 0 is free, and nothing is queued for it or in flight. */
  predicate Quiet(c: Config, s: State) {
    && |s.workers| > 0 && 0 < c.realtimeWorkers && 0 < c.realtimeCap
    && s.workers[0].Idle? && s.realtime == [] && s.inFlight == {} && s.poll.PollIdle?
  }

  /** The attempts added fetched what the blocks hold, and the publisher took all of it. */
  ghost predicate Added(blocks: Blocks, s: State, s': State) {
    s.h.attempts <= s'.h.attempts &&
    forall k :: |s.h.attempts| <= k < |s'.h.attempts| ==> Delivered(blocks, s'.h.attempts[k])
  }

  ghost predicate Delivered(blocks: Blocks, a: Attempt) {
    a.fetched == blocks(a.block) && |a.answers| == |a.fetched.events| && AllTaken(a)
  }

  /** What a clean continuation does to the rest of the state. */
  ghost predicate SameRun(blocks: Blocks, s: State, s': State) {
    s'.trueTip == s.trueTip && s'.h.base == s.h.base && |s'.workers| == |s.workers| && Added(blocks, s, s')
  }

  lemma SameRunThen(blocks: Blocks, s: State, s1: State, s2: State)
    requires SameRun(blocks, s, s1) && SameRun(blocks, s1, s2)
    ensures SameRun(blocks, s, s2)
  {
    forall k | |s.h.attempts| <= k < |s2.h.attempts| ensures Delivered(blocks, s2.h.attempts[k]) {
      if k < |s1.h.attempts| { assert s2.h.attempts[k] == s1.h.attempts[k]; }
    }
  }

  /** Up to the scan of a polling pass that finds the mark below the last scannable height. */
  lemma PollStarts(c: Config, s: State) returns (s': State)
    requires Quiet(c, s) && s.hwm + 1 + c.confirmations <= s.trueTip
    ensures Reaches(c, s, s')
    ensures s' == NoteTip(s, FromRpc(s.trueTip), s.trueTip).(poll := PollScan(s.trueTip, s.hwm, s.hwm + 1, []))
  {
    var see := PollTip(FromRpc(s.trueTip));
    var s1 := Do(c, s, see);
    assert s1 == NoteTip(s, FromRpc(s.trueTip), s.trueTip).(poll := PollRead(s.trueTip));
    s' := Do(c, s1, PollReadMark(true));
    assert s' == DoPollReadMark(c, s1, s.trueTip, true);
    Twice(c, s, see, s1, PollReadMark(true), s');
  }

  /** One polling pass: the block after the mark is first in the queue. */
  lemma PollOne(c: Config, s: State) returns (s': State)
    requires Quiet(c, s) && s.hwm + 1 + c.confirmations <= s.trueTip
    ensures Reaches(c, s, s') && Kept(s, s') && s'.bits == s.bits
    ensures s'.workers == s.workers && s'.inFlight == {} && s'.poll.PollIdle?
    ensures s'.realtime != [] && s'.realtime[0] == s.hwm + 1
  {
    var s1 := PollStarts(c, s);
    s' := ScanEnds(c, s1);
    Then(c, s, s1, s');
  }

  /** Claim and bitmap check of a fresh block. */
  lemma ClaimClean(c: Config, s: State, w: nat, b: nat) returns (s': State)
    requires w < |s.workers| && s.workers[w] == Picked(b) && b !in s.inFlight && b !in s.bits
    ensures Reaches(c, s, s')
    ensures s' == s.(workers := s.workers[w := AwaitTip(b)], inFlight := s.inFlight + {b})
  {
    var s1 := Do(c, s, Claim(w));
    assert s1 == s.(workers := s.workers[w := Claimed(b)], inFlight := s.inFlight + {b});
    s' := Do(c, s1, CheckBit(w, true));
    assert s' == Goto(s1, w, AwaitTip(b));
    assert s.workers[w := Claimed(b)][w := AwaitTip(b)] == s.workers[w := AwaitTip(b)];
    Twice(c, s, Claim(w), s1, CheckBit(w, true), s');
  }

  predicate SameStore(s: State, s': State) {
    && s'.trueTip == s.trueTip && s'.h.base == s.h.base && |s'.workers| == |s.workers|
    && s'.hwm == s.hwm && s'.realtime == s.realtime && s'.poll == s.poll && s'.inFlight == s.inFlight
  }

  /** Confirmation check and fetch. */
  lemma FetchClean(c: Config, s: State, w: nat, b: nat, f: Fetched) returns (s': State)
    requires w < |s.workers| && s.workers[w] == AwaitTip(b) && b + c.confirmations <= s.trueTip && Derives(c.chain, f)
    ensures Reaches(c, s, s') && SameStore(s, s') && s'.bits == s.bits
    ensures s'.workers == s.workers[w := Publishing(b, |s.h.attempts|)]
    ensures s'.h.attempts == s.h.attempts + [Attempt(b, s.trueTip, s.trueTip, f, [])]
  {
    var see, fetch := SeeTip(w, FromRpc(s.trueTip)), Fetch(w, Some(f));
    var s1 := Do(c, s, see);
    assert s1 == Goto(NoteTip(s, see.tipReply, s.trueTip), w, Ready(b, s.trueTip));
    s' := Do(c, s1, fetch);
    assert s' == DoFetch(c, s1, w, b, s.trueTip, Some(f));
    Twice(c, s, see, s1, fetch, s');
  }

  function WithAttempt(s: State, k: nat, a: Attempt): State
    requires k < |s.h.attempts|
  {
    s.(h := s.h.(attempts := s.h.attempts[k := a]))
  }

  lemma TakenOnce(c: Config, s: State, w: nat, b: nat, k: nat) returns (s': State)
    requires w < |s.workers| && s.workers[w] == Publishing(b, k) && k < |s.h.attempts| && Unanswered(s.h.attempts[k])
    ensures Reaches(c, s, s') && s' == Answered(s, k, Taken)
  {
    s' := Do(c, s, Publish(w, Taken));
    assert s' == DoPublish(c, s, w, b, k, Taken) == Answered(s, k, Taken);
    Once(c, s, Publish(w, Taken), s');
  }

  /** The publisher takes everything the block holds. */
  lemma {:induction false} PublishAll(c: Config, s: State, w: nat, b: nat, k: nat) returns (s': State, a: Attempt)
    requires w < |s.workers| && s.workers[w] == Publishing(b, k) && k < |s.h.attempts|
    requires var a := s.h.attempts[k]; |a.answers| <= |a.fetched.events| && AllTaken(a)
    ensures Reaches(c, s, s') && s' == WithAttempt(s, k, a)
    ensures a == s.h.attempts[k].(answers := a.answers) && |a.answers| == |a.fetched.events| && AllTaken(a)
    decreases |s.h.attempts[k].fetched.events| - |s.h.attempts[k].answers|
  {
    if Unanswered(s.h.attempts[k]) {
      var s1 := TakenOnce(c, s, w, b, k);
      s', a := PublishAll(c, s1, w, b, k);
      Then(c, s, s1, s');
      assert s1.h.attempts[k := a] == s.h.attempts[k := a];
    } else {
      s', a := s, s.h.attempts[k];
      Stay(c, s);
    }
  }

  lemma BitClean(c: Config, s: State, w: nat, b: nat, k: nat) returns (s': State)
    requires w < |s.workers| && s.workers[w] == Publishing(b, k) && k < |s.h.attempts| && !Unanswered(s.h.attempts[k])
    ensures Reaches(c, s, s') && SameStore(s, s') && s'.bits == s.bits + {b} && s'.h.attempts == s.h.attempts
    ensures s'.workers == s.workers[w := Expiring(b)]
  {
    var s1 := Do(c, s, Finish(w));
    assert s1 == Goto(s, w, Marking(b, k));
    s' := Do(c, s1, SetBit(w, Done));
    assert s' == DoSetBit(s1, w, b, k, Done);
    Twice(c, s, Finish(w), s1, SetBit(w, Done), s');
  }

  lemma ExpireClean(c: Config, s: State, w: nat, b: nat) returns (s': State)
    requires w < |s.workers| && s.workers[w] == Expiring(b)
    ensures Reaches(c, s, s') && s' == Goto(s, w, Advancing(Some(b), ReadMark))
  {
    s' := Do(c, s, ExpireKey(w, true));
    assert s' == Goto(s, w, Advancing(Some(b), ReadMark));
    Once(c, s, ExpireKey(w, true), s');
  }

  /** From the confirmation check to a set bit: the block is fetched, and all it holds is published. */
  lemma AttemptClean(c: Config, blocks: Blocks, s: State, w: nat, b: nat) returns (s': State)
    requires w < |s.workers| && s.workers[w] == AwaitTip(b) && b + c.confirmations <= s.trueTip && Contents(c, blocks)
    ensures Reaches(c, s, s') && SameStore(s, s') && Added(blocks, s, s') && s'.bits == s.bits + {b}
    ensures s'.workers == s.workers[w := Expiring(b)]
  {
    var k := |s.h.attempts|;
    var s1 := FetchClean(c, s, w, b, blocks(b));
    var s2, a := PublishAll(c, s1, w, b, k);
    Then(c, s, s1, s2);
    s' := BitClean(c, s2, w, b, k);
    Then(c, s, s2, s');
    assert s'.h.attempts == s.h.attempts + [a];
  }

  /** A worker that picked a fresh, deep enough block takes it through to a set bit. */
  lemma ProcessClean(c: Config, blocks: Blocks, s: State, w: nat, b: nat) returns (s': State)
    requires w < |s.workers| && s.workers[w] == Picked(b) && Contents(c, blocks)
    requires b !in s.inFlight && b !in s.bits && b + c.confirmations <= s.trueTip
    ensures Reaches(c, s, s') && SameRun(blocks, s, s') && s'.hwm == s.hwm && s'.bits == s.bits + {b}
    ensures s'.workers == s.workers[w := Advancing(Some(b), ReadMark)] && s'.inFlight == s.inFlight + {b}
    ensures s'.realtime == s.realtime && s'.poll == s.poll
  {
    var s1 := ClaimClean(c, s, w, b);
    var s2 := AttemptClean(c, blocks, s1, w, b);
    Then(c, s, s1, s2);
    s' := ExpireClean(c, s2, w, b);
    Then(c, s, s2, s');
  }

  predicate Landed(s: State, s': State, w: nat, owned: Option<nat>) {
    && s'.trueTip == s.trueTip && s'.h.base == s.h.base && s'.h.attempts == s.h.attempts
    && s'.bits == s.bits && s'.realtime == s.realtime && s'.poll == s.poll
    && w < |s.workers| && s'.workers == s.workers[w := Idle]
    && s'.inFlight == (if owned.Some? then s.inFlight - {owned.value} else s.inFlight)
    && s'.hwm >= s.hwm && s'.processed == s.processed + if owned.Some? then 1 else 0
  }

  /** Where the walk goes from `a`: one further, or to the write of what it reached. */
  function WalkNext(s: State, last: nat, a: nat): Option<Advance> {
    if a + 1 in s.bits then Some(if a + 1 > last + ADVANCE_GUARD then SetRead(a + 1) else Walk(last, a + 1))
    else if a > last then Some(SetRead(a))
    else None
  }

  lemma WalkOnce(c: Config, s: State, w: nat, owned: Option<nat>, last: nat, a: nat) returns (s': State)
    requires w < |s.workers| && s.workers[w] == Advancing(owned, Walk(last, a))
    ensures Reaches(c, s, s')
    ensures var next := WalkNext(s, last, a);
      s' == if next.Some? then Goto(s, w, Advancing(owned, next.value)) else Advanced(s, w, owned)
  {
    s' := Do(c, s, AdvanceStep(w, Done));
    assert s' == DoAdvance(s, w, owned, Walk(last, a), Done);
    var next := WalkNext(s, last, a);
    assert s' == if next.Some? then Goto(s, w, Advancing(owned, next.value)) else Advanced(s, w, owned);
    Once(c, s, AdvanceStep(w, Done), s');
  }

  /** The walk follows the run of set bits above the mark it read. */
  lemma WalkFollowsRun(s: State, last: nat, a: nat)
    requires last <= a <= last + ADVANCE_GUARD && a - last <= Progress.RunLength(s.bits, last)
    ensures match WalkNext(s, last, a)
      case Some(Walk(l, n)) =>
        l == last && n == a + 1 <= last + ADVANCE_GUARD && n - last <= Progress.RunLength(s.bits, last)
      case Some(SetRead(n)) => n == Progress.Advance(s.bits, last) > last
      case Some(_) => false
      case None => Progress.Advance(s.bits, last) == last
  {
    Progress.RunLengthShift(s.bits, last, a - last);
  }

  /** Undisturbed, the walk ends with the mark where `AdvanceHighWaterMark` as a whole takes it. */
  lemma {:induction false} AdvanceClean(c: Config, s: State, w: nat, owned: Option<nat>, a: nat)
    returns (s': State)
    requires w < |s.workers| && s.workers[w] == Advancing(owned, Walk(s.hwm, a))
    requires s.hwm <= a <= s.hwm + ADVANCE_GUARD && a - s.hwm <= Progress.RunLength(s.bits, s.hwm)
    ensures Reaches(c, s, s') && Landed(s, s', w, owned) && s'.hwm == Progress.Advance(s.bits, s.hwm)
    decreases s.hwm + ADVANCE_GUARD - a
  {
    var s1 := WalkOnce(c, s, w, owned, s.hwm, a);
    WalkFollowsRun(s, s.hwm, a);
    match WalkNext(s, s.hwm, a)
    case Some(next) =>
      if next.Walk? {
        s' := AdvanceClean(c, s1, w, owned, a + 1);
      } else {
        s' := WriteClean(c, s1, w, owned, next.target);
      }
      LandedFrom(s, s1, s', w, owned);
      Then(c, s, s1, s');
    case None => s' := s1;
  }

  lemma WriteClean(c: Config, s: State, w: nat, owned: Option<nat>, n: nat) returns (s': State)
    requires w < |s.workers| && s.workers[w] == Advancing(owned, SetRead(n)) && n >= s.hwm
    ensures Reaches(c, s, s') && Landed(s, s', w, owned) && s'.hwm == n
  {
    var st := AdvanceStep(w, Done);
    var s1 := Do(c, s, st);
    assert s1 == Goto(s, w, Advancing(owned, SetWrite(n)));
    s' := Do(c, s1, st);
    assert s' == Advanced(s1.(hwm := n), w, owned);
    Twice(c, s, st, s1, st, s');
  }

  lemma ReadOnce(c: Config, s: State, w: nat, owned: Option<nat>) returns (s': State)
    requires w < |s.workers| && s.workers[w] == Advancing(owned, ReadMark)
    ensures Reaches(c, s, s') && s' == Goto(s, w, Advancing(owned, Walk(s.hwm, s.hwm)))
  {
    s' := Do(c, s, AdvanceStep(w, Done));
    assert s' == Goto(s, w, Advancing(owned, Walk(s.hwm, s.hwm)));
    Once(c, s, AdvanceStep(w, Done), s');
  }

  /** Undisturbed, the split `AdvanceHighWaterMark` does what the whole one does, with the bitmap as the
      set of blocks: it moves the mark along the run of set bits, by at most one stride. */
  lemma AdvanceAlone(c: Config, s: State, w: nat, owned: Option<nat>) returns (s': State)
    requires w < |s.workers| && s.workers[w] == Advancing(owned, ReadMark)
    ensures Reaches(c, s, s') && Landed(s, s', w, owned) && s'.hwm == Progress.Advance(s.bits, s.hwm)
  {
    var s1 := ReadOnce(c, s, w, owned);
    s' := AdvanceClean(c, s1, w, owned, s.hwm);
    LandedFrom(s, s1, s', w, owned);
    Then(c, s, s1, s');
  }

  lemma LandedFrom(s: State, s1: State, s': State, w: nat, owned: Option<nat>)
    requires w < |s.workers| == |s1.workers| && s1 == Goto(s, w, s1.workers[w]) && Landed(s1, s', w, owned)
    ensures Landed(s, s', w, owned)
  {
    assert s1.workers[w := Idle] == s.workers[w := Idle];
  }

  /** A picked block whose bit is already set only leads to an advance. */
  lemma SkipMarked(c: Config, s: State, w: nat, b: nat) returns (s': State)
    requires w < |s.workers| && s.workers[w] == Picked(b) && s.inFlight == {} && b in s.bits
    ensures Reaches(c, s, s') && s' == Goto(s, w, Advancing(None, ReadMark))
  {
    var s1 := Do(c, s, Claim(w));
    assert s1 == Goto(s.(inFlight := {b}), w, Claimed(b));
    s' := Do(c, s1, CheckBit(w, true));
    assert s' == Goto(s1.(inFlight := {}), w, Advancing(None, ReadMark));
    Twice(c, s, Claim(w), s1, CheckBit(w, true), s');
  }

  /** Worker 0 takes the first queued block; afterwards its bit is set and worker 0 is about to advance. */
  lemma TakeClean(c: Config, blocks: Blocks, s: State, b: nat) returns (s': State, owned: Option<nat>)
    requires |s.workers| > 0 && 0 < c.realtimeWorkers && s.workers[0].Idle? && Contents(c, blocks)
    requires s.realtime != [] && s.realtime[0] == b && s.inFlight == {} && b + c.confirmations <= s.trueTip
    ensures Reaches(c, s, s') && SameRun(blocks, s, s') && s'.hwm == s.hwm && b in s'.bits && s'.poll == s.poll
    ensures s'.workers == s.workers[0 := Advancing(owned, ReadMark)]
    ensures s'.inFlight == (if owned.Some? then {owned.value} else {})
  {
    var s1 := DequeueOnce(c, s);
    if b in s.bits {
      s' := SkipMarked(c, s1, 0, b);
      Then(c, s, s1, s');
      owned := None;
    } else {
      s' := ProcessClean(c, blocks, s1, 0, b);
      Then(c, s, s1, s');
      owned := Some(b);
    }
  }

  /** Polling, then the next block: its bit is set, and worker 0 is about to advance. */
  lemma PollAndTake(c: Config, blocks: Blocks, s: State) returns (s': State, owned: Option<nat>)
    requires Quiet(c, s) && s.hwm + 1 + c.confirmations <= s.trueTip && Contents(c, blocks)
    ensures Reaches(c, s, s') && SameRun(blocks, s, s') && s'.hwm == s.hwm && s.hwm + 1 in s'.bits
    ensures s'.workers == s.workers[0 := Advancing(owned, ReadMark)] && s'.poll.PollIdle?
    ensures s'.inFlight == (if owned.Some? then {owned.value} else {})
  {
    var s1 := PollOne(c, s);
    s', owned := TakeClean(c, blocks, s1, s.hwm + 1);
    Then(c, s, s1, s');
    KeptThen(blocks, s, s1, s');
  }

  lemma KeptThen(blocks: Blocks, s: State, s1: State, s2: State)
    requires Kept(s, s1) && SameRun(blocks, s1, s2)
    ensures SameRun(blocks, s, s2)
  {
  }

  /** With the next bit set, an advance moves the mark. */
  lemma AdvanceMoves(c: Config, s: State, w: nat, owned: Option<nat>) returns (s': State)
    requires w < |s.workers| && s.workers[w] == Advancing(owned, ReadMark) && s.hwm + 1 in s.bits
    ensures Reaches(c, s, s') && Landed(s, s', w, owned) && s'.hwm > s.hwm
  {
    s' := AdvanceAlone(c, s, w, owned);
    assert Progress.RunLength(s.bits, s.hwm) > 0;
  }

  /** One round: a pass, its first block taken through to the mark, the rest of the queue let go. */
  lemma Round(c: Config, blocks: Blocks, s: State) returns (s': State)
    requires Quiet(c, s) && s.hwm + 1 + c.confirmations <= s.trueTip && Contents(c, blocks)
    ensures Reaches(c, s, s') && Quiet(c, s') && SameRun(blocks, s, s') && s'.hwm > s.hwm
  {
    var s1, owned := PollAndTake(c, blocks, s);
    var s2 := AdvanceMoves(c, s1, 0, owned);
    Then(c, s, s1, s2);
    RoundLands(blocks, s, s1, s2, owned);
    s' := QueueDrains(c, s2);
    Then(c, s, s2, s');
  }

  lemma RoundLands(blocks: Blocks, s: State, s1: State, s2: State, owned: Option<nat>)
    requires |s.workers| > 0 && s.workers[0].Idle? && SameRun(blocks, s, s1)
    requires s1.workers == s.workers[0 := Advancing(owned, ReadMark)] && s1.poll.PollIdle?
    requires s1.inFlight == (if owned.Some? then {owned.value} else {}) && Landed(s1, s2, 0, owned)
    ensures SameRun(blocks, s, s2) && s2.workers == s.workers && s2.inFlight == {} && s2.poll.PollIdle?
  {
    assert s1.workers[0 := Idle] == s.workers;
  }

  lemma {:induction false} CatchUp(c: Config, blocks: Blocks, s: State, n: nat) returns (s': State)
    requires Quiet(c, s) && n + c.confirmations <= s.trueTip && Contents(c, blocks)
    ensures Reaches(c, s, s') && SameRun(blocks, s, s') && s'.hwm >= n
    decreases n - s.hwm
  {
    if s.hwm >= n {
      s' := s;
      Stay(c, s);
    } else {
      var s1 := Round(c, blocks, s);
      s' := CatchUp(c, blocks, s1, n);
      Then(c, s, s1, s');
      SameRunThen(blocks, s, s1, s');
    }
  }

  /** No reachable state strands a block: however the tracker got there and whatever the blocks hold, it
      can go on, without a restart, to bring the mark to any confirmed height with the start point
      unmoved, so that every block between them is marked and every attempt on the way delivered all
      that its block holds. */
  lemma Recovery(c: Config, s0: State, steps: seq<Step>, blocks: Blocks, n: nat) returns (more: seq<Step>)
    requires Init(c, s0) && c.workers > 0 && c.realtimeWorkers > 0 && c.realtimeCap > 0 && Contents(c, blocks)
    requires n + c.confirmations <= Run(c, s0, steps).trueTip
    ensures Live(more)
    ensures var s := Run(c, s0, steps); var s' := Run(c, s0, steps + more);
      && s'.hwm >= n && s'.h.base == s.h.base && Added(blocks, s, s')
      && (forall b :: s.h.base < b <= n ==> b in s'.h.marks)
  {
    var s := Run(c, s0, steps);
    InitInv(c, s0);
    RunKeeps(c, s0, steps);
    var s1 := ComesToRest(c, s);
    var s' := CatchUp(c, blocks, s1, n);
    Then(c, s, s1, s');
    more :| Live(more) && Run(c, s, more) == s';
    RunConcat(c, s0, steps, more);
    RunKeeps(c, s0, steps + more);
  }
}
