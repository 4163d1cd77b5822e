/** Every step keeps the invariant, hence every run does. */
module TrackerSteps {
  import opened Common
  import opened Chains
  import opened Tracker
  import opened TrackerSafety

  // ----- workers ----------------------------------------------------------------------------------

  /** Worker `w` goes on to `p` keeping what it holds, after changing the shared state to `s1`. */
  lemma Moves(c: Config, s: State, s1: State, w: nat, p: Worker)
    requires Inv(c, s) && w < |s.workers|
    requires s1.workers == s.workers && s1.inFlight == s.inFlight
    requires Rely(s, s1, Holds(s.workers[w])) && SharedOk(c, s1) && WorkerOk(c, s1, p)
    requires Holds(p) == Holds(s.workers[w])
    ensures Inv(c, Goto(s1, w, p))
  {
    ExclusiveSame(s.workers, s.inFlight, w, p);
    WorkerStepKeeps(c, s, Goto(s1, w, p), w, p);
  }

  /** Worker `w` lets go of block `b` and goes on to `p`. */
  lemma Frees(c: Config, s: State, s1: State, w: nat, p: Worker, b: nat)
    requires Inv(c, s) && w < |s.workers|
    requires s1.workers == s.workers && s1.inFlight == s.inFlight
    requires Rely(s, s1, Some(b)) && SharedOk(c, s1) && WorkerOk(c, s1, p)
    requires Holds(s.workers[w]) == Some(b) && Holds(p) == None
    ensures Inv(c, Goto(s1.(inFlight := s1.inFlight - {b}), w, p))
  {
    ExclusiveReleased(s.workers, s.inFlight, w, p, b);
    WorkerStepKeeps(c, s, Goto(s1.(inFlight := s1.inFlight - {b}), w, p), w, p);
  }

  lemma Releases(c: Config, s: State, w: nat, b: nat)
    requires Inv(c, s) && w < |s.workers| && Holds(s.workers[w]) == Some(b)
    ensures Inv(c, Release(s, w, b))
  {
    Frees(c, s, s, w, Idle, b);
  }

  lemma DequeueKeeps(c: Config, s: State, w: nat)
    requires Inv(c, s) && w < |s.workers| && s.workers[w].Idle?
    ensures Inv(c, DoDequeue(c, s, w))
  {
    if w < c.realtimeWorkers && s.realtime != [] {
      Moves(c, s, s.(realtime := s.realtime[1..]), w, Picked(s.realtime[0]));
    } else if w >= c.realtimeWorkers && s.catchup != [] {
      Moves(c, s, s.(catchup := s.catchup[1..]), w, Picked(s.catchup[0]));
    }
  }

  lemma ClaimKeeps(c: Config, s: State, w: nat, b: nat)
    requires Inv(c, s) && w < |s.workers| && s.workers[w] == Picked(b)
    ensures Inv(c, DoClaim(s, w, b))
  {
    if b in s.inFlight {
      Moves(c, s, s, w, Idle);
    } else {
      ExclusiveClaimed(s.workers, s.inFlight, w, Claimed(b), b);
      WorkerStepKeeps(c, s, DoClaim(s, w, b), w, Claimed(b));
    }
  }

  lemma CheckBitKeeps(c: Config, s: State, w: nat, b: nat, ok: bool)
    requires Inv(c, s) && w < |s.workers| && s.workers[w] == Claimed(b)
    ensures Inv(c, DoCheckBit(s, w, b, ok))
  {
    if !ok {
      Releases(c, s, w, b);
    } else if b in s.bits {
      Frees(c, s, s, w, Advancing(None, ReadMark), b);
    } else {
      Moves(c, s, s, w, AwaitTip(b));
    }
  }

  lemma NoteTipKeeps(c: Config, s: State, r: TipReply, t: nat)
    requires Inv(c, s) && Observed(s, r) == Some(t)
    ensures Rely(s, NoteTip(s, r, t), None) && SharedOk(c, NoteTip(s, r, t))
    ensures t <= NoteTip(s, r, t).h.maxTip <= s.trueTip
  {
    var s1 := NoteTip(s, r, t);
    HigherTip(c, s.h, s1.h.maxTip);
    HistoryAlike(c, s, s1);
  }

  lemma HigherTip(c: Config, h: History, maxTip: nat)
    requires DeliveryOk(c, h) && MarkersOk(c, h) && h.maxTip <= maxTip
    ensures DeliveryOk(c, h.(maxTip := maxTip)) && MarkersOk(c, h.(maxTip := maxTip))
  {
    forall a, b | Complete(c, h.maxTip, a, b) ensures Complete(c, maxTip, a, b) {}
  }

  /** Poller, catch-up and last pass depend only on the covered range and the install counters. */
  lemma HistoryAlike(c: Config, s: State, s1: State)
    requires s.h.base <= s1.h.base && s.h.marks <= s1.h.marks
    requires s1.poll == s.poll && s1.catch == s.catch && s1.lastPass == s.lastPass
    requires s1.h.zeroInstalls == s.h.zeroInstalls && s1.h.zeroWrites == s.h.zeroWrites
    requires s1.h.errorInstalls == s.h.errorInstalls && s1.h.readErrors == s.h.readErrors
    ensures PollOk(c, s.h, s.poll) ==> PollOk(c, s1.h, s1.poll)
    ensures CatchOk(s.h, s.catch) ==> CatchOk(s1.h, s1.catch)
    ensures s.lastPass.Some? && PassOk(c, s.h, s.lastPass.value) ==> PassOk(c, s1.h, s1.lastPass.value)
    ensures MarkOk(s.hwm, s.h) ==> MarkOk(s.hwm, s1.h)
  {
  }

  /** A step that leaves marks, attempts and heights in the history alone. */
  lemma SharedStable(c: Config, s: State, s1: State)
    requires SharedOk(c, s)
    requires s.h.base == s1.h.base && s.h.marks == s1.h.marks && s.h.maxTip == s1.h.maxTip
    requires s.h.attempts == s1.h.attempts && s.h.delivered == s1.h.delivered && s.h.markers == s1.h.markers
    requires s1.poll == s.poll && s1.lastPass == s.lastPass
    requires MarkOk(s1.hwm, s1.h) && CountOk(s1.bits, s1.processed, s1.h) && CatchOk(s1.h, s1.catch)
    requires TipOk(s1.tipCache, s1.pendingTips, s1.h.maxTip, s1.trueTip)
    ensures SharedOk(c, s1)
  {
    assert DeliveryOk(c, s1.h) && MarkersOk(c, s1.h);
    assert PollOk(c, s1.h, s1.poll);
  }

  /** Noting a height, with or without a delayed requeue. */
  lemma TipSeen(c: Config, s: State, s1: State, r: TipReply, t: nat, b: nat)
    requires Inv(c, s) && Observed(s, r) == Some(t)
    requires s1 == NoteTip(s, r, t).(timers := s1.timers)
    ensures Rely(s, s1, Some(b)) && SharedOk(c, s1)
    ensures t <= s1.h.maxTip <= s1.trueTip
  {
    NoteTipKeeps(c, s, r, t);
  }

  lemma RequeueKeeps(c: Config, s: State, s1: State, w: nat, b: nat, r: TipReply, t: nat)
    requires Inv(c, s) && w < |s.workers| && s.workers[w] == AwaitTip(b) && Observed(s, r) == Some(t)
    requires s1 == NoteTip(s, r, t).(timers := s1.timers)
    ensures Inv(c, Goto(s1.(inFlight := s1.inFlight - {b}), w, Idle))
  {
    TipSeen(c, s, s1, r, t, b);
    Frees(c, s, s1, w, Idle, b);
  }

  lemma DeepKeeps(c: Config, s: State, s1: State, w: nat, b: nat, r: TipReply, t: nat)
    requires Inv(c, s) && w < |s.workers| && s.workers[w] == AwaitTip(b) && Observed(s, r) == Some(t)
    requires s1 == NoteTip(s, r, t) && b + c.confirmations <= t
    ensures Inv(c, Goto(s1, w, Ready(b, t)))
  {
    TipSeen(c, s, s1, r, t, b);
    assert WorkerOk(c, s, s.workers[w]);
    Moves(c, s, s1, w, Ready(b, t));
  }

  lemma SeeTipKeeps(c: Config, s: State, w: nat, b: nat, r: TipReply)
    requires Inv(c, s) && w < |s.workers| && s.workers[w] == AwaitTip(b)
    ensures Inv(c, DoSeeTip(c, s, w, b, r))
  {
    var s' := DoSeeTip(c, s, w, b, r);
    match Observed(s, r)
    case None => Releases(c, s, w, b);
    case Some(t) =>
      var s1 := NoteTip(s, r, t);
      if t < b || t - b < c.confirmations {
        var s2 := s1.(timers := s1.timers + multiset{b});
        assert s' == Goto(s2.(inFlight := s2.inFlight - {b}), w, Idle);
        RequeueKeeps(c, s, s2, w, b, r, t);
      } else {
        assert s' == Goto(s1, w, Ready(b, t));
        DeepKeeps(c, s, s1, w, b, r, t);
      }
  }

  /** Attempts may be appended, and attempts with unanswered events may change. */
  lemma DeliveryStable(c: Config, h: History, h': History)
    requires DeliveryOk(c, h) && MarkersOk(c, h)
    requires h'.marks == h.marks && h'.delivered == h.delivered && h'.markers == h.markers && h'.maxTip == h.maxTip
    requires |h.attempts| <= |h'.attempts|
    requires forall k :: 0 <= k < |h.attempts| && !Unanswered(h.attempts[k]) ==> h'.attempts[k] == h.attempts[k]
    ensures DeliveryOk(c, h') && MarkersOk(c, h')
  {
  }

  lemma FetchKeeps(c: Config, s: State, w: nat, b: nat, tip: nat, fetched: Option<Fetched>)
    requires Inv(c, s) && w < |s.workers| && s.workers[w] == Ready(b, tip)
    ensures Inv(c, DoFetch(c, s, w, b, tip, fetched))
  {
    match fetched
    case None => Releases(c, s, w, b);
    case Some(f) =>
      if Derives(c.chain, f) {
        var s1 := s.(h := s.h.(attempts := s.h.attempts + [Attempt(b, s.trueTip, tip, f, [])]));
        DeliveryStable(c, s.h, s1.h);
        HistoryAlike(c, s, s1);
        assert WorkerOk(c, s, s.workers[w]);
        Moves(c, s, s1, w, Publishing(b, |s.h.attempts|));
      }
  }

  lemma AnswerKeeps(c: Config, s: State, s1: State, w: nat, b: nat, k: nat, answer: Answer)
    requires Inv(c, s) && w < |s.workers| && s.workers[w] == Publishing(b, k) && k < |s.h.attempts|
    requires Unanswered(s.h.attempts[k]) && s1 == Answered(s, k, answer)
    ensures Rely(s, s1, Some(b)) && SharedOk(c, s1)
    ensures Strict(c.chain) ==> answer.Taken? ==> WorkerOk(c, s1, Publishing(b, k))
    ensures !Strict(c.chain) ==> WorkerOk(c, s1, Publishing(b, k))
  {
    assert WorkerOk(c, s, s.workers[w]);
    DeliveryStable(c, s.h, s1.h);
    HistoryAlike(c, s, s1);
  }

  lemma PublishKeeps(c: Config, s: State, w: nat, b: nat, k: nat, answer: Answer)
    requires Inv(c, s) && w < |s.workers| && s.workers[w] == Publishing(b, k) && k < |s.h.attempts|
    ensures Inv(c, DoPublish(c, s, w, b, k, answer))
  {
    var s' := DoPublish(c, s, w, b, k, answer);
    if Unanswered(s.h.attempts[k]) {
      var s1 := Answered(s, k, answer);
      if Strict(c.chain) && !answer.Taken? {
        assert s' == Goto(s1.(inFlight := s1.inFlight - {b}), w, Idle);
        AnswerKeeps(c, s, s1, w, b, k, answer);
        Frees(c, s, s1, w, Idle, b);
      } else {
        assert s' == s1 == Goto(s1, w, Publishing(b, k));
        AnswerKeeps(c, s, s1, w, b, k, answer);
        Moves(c, s, s1, w, Publishing(b, k));
      }
    } else {
      assert s' == s;
    }
  }

  lemma FinishKeeps(c: Config, s: State, w: nat, b: nat, k: nat)
    requires Inv(c, s) && w < |s.workers| && s.workers[w] == Publishing(b, k) && k < |s.h.attempts|
    ensures Inv(c, DoFinish(s, w, b, k))
  {
    assert WorkerOk(c, s, s.workers[w]);
    if !Unanswered(s.h.attempts[k]) {
      Moves(c, s, s, w, Marking(b, k));
    }
  }

  lemma BitKeeps(c: Config, s: State, s1: State, w: nat, b: nat, k: nat)
    requires Inv(c, s) && w < |s.workers| && s.workers[w] == Marking(b, k)
    requires s1 == s.(bits := s.bits + {b},
                      h := s.h.(marks := s.h.marks + multiset{b}, delivered := s.h.delivered[b := k],
                                markers := s.h.markers + {k}))
    ensures Rely(s, s1, Some(b)) && SharedOk(c, s1)
    ensures s1.h.counted[b] < s1.h.marks[b]
  {
    assert WorkerOk(c, s, s.workers[w]);
    HistoryAlike(c, s, s1);
    NewMark(s.bits, s.processed, s.h, b, k);
    MarkDelivers(c, s.h, b, k);
  }

  /** A complete attempt leads to a mark. */
  lemma MarkDelivers(c: Config, h: History, b: nat, k: nat)
    requires DeliveryOk(c, h) && MarkersOk(c, h) && k < |h.attempts| && Complete(c, h.maxTip, h.attempts[k], b)
    ensures var h' := h.(marks := h.marks + multiset{b}, delivered := h.delivered[b := k], markers := h.markers + {k});
      DeliveryOk(c, h') && MarkersOk(c, h')
  {
    assert h.attempts[k].block == b;
  }

  /** A block whose bit was clear is marked. */
  lemma NewMark(bits: set<nat>, processed: nat, h: History, b: nat, k: nat)
    requires CountOk(bits, processed, h) && b !in bits
    ensures var h' := h.(marks := h.marks + multiset{b}, delivered := h.delivered[b := k], markers := h.markers + {k});
      CountOk(bits + {b}, processed, h') && h'.counted[b] < h'.marks[b]
  {
    assert multiset(bits + {b}) == multiset(bits) + multiset{b};
  }

  lemma SetBitKeeps(c: Config, s: State, w: nat, b: nat, k: nat, r: Reply)
    requires Inv(c, s) && w < |s.workers| && s.workers[w] == Marking(b, k)
    ensures Inv(c, DoSetBit(s, w, b, k, r))
  {
    if r.Refused? {
      Releases(c, s, w, b);
    } else {
      var s1 := s.(bits := s.bits + {b},
                   h := s.h.(marks := s.h.marks + multiset{b}, delivered := s.h.delivered[b := k],
                                markers := s.h.markers + {k}));
      BitKeeps(c, s, s1, w, b, k);
      if r.Done? {
        Moves(c, s, s1, w, Expiring(b));
      } else {
        Frees(c, s, s1, w, Idle, b);
      }
    }
  }

  lemma ExpireKeyKeeps(c: Config, s: State, w: nat, b: nat, ok: bool)
    requires Inv(c, s) && w < |s.workers| && s.workers[w] == Expiring(b)
    ensures Inv(c, if ok then Goto(s, w, Advancing(Some(b), ReadMark)) else Release(s, w, b))
  {
    assert WorkerOk(c, s, s.workers[w]);
    if ok { Moves(c, s, s, w, Advancing(Some(b), ReadMark)); } else { Releases(c, s, w, b); }
  }

  lemma CountKeeps(c: Config, s: State, s1: State, b: nat)
    requires SharedOk(c, s) && s.h.counted[b] < s.h.marks[b]
    requires s1 == s.(processed := s.processed + 1, h := s.h.(counted := s.h.counted + multiset{b}))
    ensures SharedOk(c, s1)
  {
    SharedStable(c, s, s1);
  }

  /** The walk is over; the mark may just have been written. */
  lemma AdvancedKeeps(c: Config, s: State, hwm: nat, w: nat, owned: Option<nat>, adv: Advance)
    requires Inv(c, s) && w < |s.workers| && s.workers[w] == Advancing(owned, adv)
    requires MarkOk(hwm, s.h)
    ensures Inv(c, Advanced(s.(hwm := hwm), w, owned))
  {
    var s1 := s.(hwm := hwm);
    match owned
    case None => Moves(c, s, s1, w, Idle);
    case Some(b) =>
      var s2 := s1.(processed := s.processed + 1, h := s.h.(counted := s.h.counted + multiset{b}));
      assert Advanced(s1, w, owned) == Goto(s2.(inFlight := s2.inFlight - {b}), w, Idle);
      CountedKeeps(c, s, s1, s2, w, b, adv);
      Frees(c, s, s2, w, Idle, b);
  }

  lemma CountedKeeps(c: Config, s: State, s1: State, s2: State, w: nat, b: nat, adv: Advance)
    requires Inv(c, s) && w < |s.workers| && s.workers[w] == Advancing(Some(b), adv)
    requires s1 == s.(hwm := s1.hwm) && MarkOk(s1.hwm, s.h)
    requires s2 == s1.(processed := s1.processed + 1, h := s1.h.(counted := s1.h.counted + multiset{b}))
    ensures Rely(s, s2, Some(b)) && SharedOk(c, s2)
  {
    assert WorkerOk(c, s, s.workers[w]);
    SharedStable(c, s, s1);
    CountKeeps(c, s1, s2, b);
  }

  lemma WalksOn(c: Config, s: State, w: nat, owned: Option<nat>, adv: Advance, next: Advance)
    requires Inv(c, s) && w < |s.workers| && s.workers[w] == Advancing(owned, adv)
    requires AdvanceOk(s.h, next)
    ensures Inv(c, Goto(s, w, Advancing(owned, next)))
  {
    assert WorkerOk(c, s, s.workers[w]);
    Moves(c, s, s, w, Advancing(owned, next));
  }

  lemma StopsHere(c: Config, s: State, w: nat, owned: Option<nat>, adv: Advance)
    requires Inv(c, s) && w < |s.workers| && s.workers[w] == Advancing(owned, adv)
    ensures Inv(c, Advanced(s, w, owned))
  {
    assert s.(hwm := s.hwm) == s;
    AdvancedKeeps(c, s, s.hwm, w, owned, adv);
  }

  /** The walk over the bitmap only ever extends a covered range by a block whose bit is set. */
  lemma WalkExtends(c: Config, s: State, w: nat, owned: Option<nat>, last: nat, a: nat, next: Advance)
    requires Inv(c, s) && w < |s.workers| && s.workers[w] == Advancing(owned, Walk(last, a))
    requires a + 1 in s.bits && (next == SetRead(a + 1) || next == Walk(last, a + 1))
    ensures Inv(c, Goto(s, w, Advancing(owned, next)))
  {
    assert WorkerOk(c, s, s.workers[w]);
    assert multiset(s.bits)[a + 1] == 1;
    CoveredNext(s.h, a);
    WalksOn(c, s, w, owned, Walk(last, a), next);
  }

  lemma WalkEnds(c: Config, s: State, w: nat, owned: Option<nat>, last: nat, a: nat)
    requires Inv(c, s) && w < |s.workers| && s.workers[w] == Advancing(owned, Walk(last, a)) && a > last
    ensures Inv(c, Goto(s, w, Advancing(owned, SetRead(a))))
  {
    assert WorkerOk(c, s, s.workers[w]);
    WalksOn(c, s, w, owned, Walk(last, a), SetRead(a));
  }

  lemma WalkKeeps(c: Config, s: State, w: nat, owned: Option<nat>, last: nat, a: nat, r: Reply)
    requires Inv(c, s) && w < |s.workers| && s.workers[w] == Advancing(owned, Walk(last, a))
    ensures Inv(c, DoAdvance(s, w, owned, Walk(last, a), r))
  {
    var s' := DoAdvance(s, w, owned, Walk(last, a), r);
    if r.Done? && a + 1 in s.bits {
      var next := if a + 1 > last + ADVANCE_GUARD then SetRead(a + 1) else Walk(last, a + 1);
      assert s' == Goto(s, w, Advancing(owned, next));
      WalkExtends(c, s, w, owned, last, a, next);
    } else if r.Done? && a > last {
      assert s' == Goto(s, w, Advancing(owned, SetRead(a)));
      WalkEnds(c, s, w, owned, last, a);
    } else {
      assert s' == Advanced(s, w, owned);
      StopsHere(c, s, w, owned, Walk(last, a));
    }
  }

  lemma WriteKeeps(c: Config, s: State, w: nat, owned: Option<nat>, n: nat, r: Reply)
    requires Inv(c, s) && w < |s.workers| && s.workers[w] == Advancing(owned, SetWrite(n))
    ensures Inv(c, DoAdvance(s, w, owned, SetWrite(n), r))
  {
    if r.Refused? {
      StopsHere(c, s, w, owned, SetWrite(n));
    } else {
      assert AdvanceOk(s.h, SetWrite(n)) by { assert WorkerOk(c, s, s.workers[w]); }
      AdvancedKeeps(c, s, n, w, owned, SetWrite(n));
    }
  }

  lemma AdvanceKeeps(c: Config, s: State, w: nat, owned: Option<nat>, adv: Advance, r: Reply)
    requires Inv(c, s) && w < |s.workers| && s.workers[w] == Advancing(owned, adv)
    ensures Inv(c, DoAdvance(s, w, owned, adv, r))
  {
    match adv
    case ReadMark =>
      if r.Done? { WalksOn(c, s, w, owned, adv, Walk(s.hwm, s.hwm)); } else { StopsHere(c, s, w, owned, adv); }
    case Walk(last, a) => WalkKeeps(c, s, w, owned, last, a, r);
    case SetRead(n) =>
      assert AdvanceOk(s.h, adv) by { assert WorkerOk(c, s, s.workers[w]); }
      if !r.Done? || n < s.hwm { StopsHere(c, s, w, owned, adv); } else { WalksOn(c, s, w, owned, adv, SetWrite(n)); }
    case SetWrite(n) => WriteKeeps(c, s, w, owned, n, r);
  }

  lemma WorkerKeeps(c: Config, s: State, st: Step)
    requires Inv(c, s) && IsWorkerStep(st)
    ensures Inv(c, DoWorker(c, s, st))
  {
    if st.w >= |s.workers| {
      assert DoWorker(c, s, st) == s;
    } else if st.Dequeue? || st.Claim? || st.CheckBit? || st.SeeTip? || st.Fetch? {
      EarlyKeeps(c, s, st);
    } else if st.Publish? || st.Finish? || st.Abandon? {
      CallKeeps(c, s, st);
    } else {
      LateKeeps(c, s, st);
    }
  }

  /** Up to the start of ProcessBlock. */
  lemma EarlyKeeps(c: Config, s: State, st: Step)
    requires Inv(c, s) && (st.Dequeue? || st.Claim? || st.CheckBit? || st.SeeTip? || st.Fetch?) && st.w < |s.workers|
    ensures Inv(c, DoWorker(c, s, st))
  {
    match (st, s.workers[st.w])
    case (Dequeue(w), Idle) => DequeueKeeps(c, s, w);
    case (Claim(w), Picked(b)) => ClaimKeeps(c, s, w, b);
    case (CheckBit(w, ok), Claimed(b)) => CheckBitKeeps(c, s, w, b, ok);
    case (SeeTip(w, r), AwaitTip(b)) => SeeTipKeeps(c, s, w, b, r);
    case (Fetch(w, f), Ready(b, tip)) => FetchKeeps(c, s, w, b, tip, f);
    case _ =>
  }

  /** Inside ProcessBlock. */
  lemma CallKeeps(c: Config, s: State, st: Step)
    requires st.Publish? || st.Finish? || st.Abandon?
    requires Inv(c, s) && st.w < |s.workers|
    ensures Inv(c, DoWorker(c, s, st))
  {
    match (st, s.workers[st.w])
    case (Publish(w, answer), Publishing(b, k)) => if k < |s.h.attempts| { PublishKeeps(c, s, w, b, k, answer); }
    case (Finish(w), Publishing(b, k)) => if k < |s.h.attempts| { FinishKeeps(c, s, w, b, k); }
    case (Abandon(w), Publishing(b, _)) => Releases(c, s, w, b);
    case _ =>
  }

  /** From the bit to the end of the advance. */
  lemma LateKeeps(c: Config, s: State, st: Step)
    requires st.SetBit? || st.ExpireKey? || st.AdvanceStep?
    requires Inv(c, s) && st.w < |s.workers|
    ensures Inv(c, DoWorker(c, s, st))
  {
    match (st, s.workers[st.w])
    case (SetBit(w, r), Marking(b, k)) => SetBitKeeps(c, s, w, b, k, r);
    case (ExpireKey(w, ok), Expiring(b)) => ExpireKeyKeeps(c, s, w, b, ok);
    case (AdvanceStep(w, r), Advancing(owned, adv)) => AdvanceKeeps(c, s, w, owned, adv, r);
    case _ =>
  }

  // ----- poller, catch-up and environment -----------------------------------------------------------

  /** The mark is forced down to a value at most one that was read from it. */
  lemma ForceKeeps(c: Config, s: State, resetTo: nat, r: Reply)
    requires Inv(c, s) && Covered(s.h, resetTo)
    ensures Inv(c, Force(s, resetTo, r))
    ensures Force(s, resetTo, r).h.base == s.h.base && Force(s, resetTo, r).h.marks == s.h.marks
  {
    var s1 := Force(s, resetTo, r);
    SharedStable(c, s, s1);
    OtherStepKeeps(c, s, s1);
  }

  lemma SawTipKeeps(c: Config, s: State, r: TipReply, t: nat)
    requires Inv(c, s) && Observed(s, r) == Some(t)
    ensures Inv(c, NoteTip(s, r, t))
  {
    NoteTipKeeps(c, s, r, t);
    OtherStepKeeps(c, s, NoteTip(s, r, t));
  }

  lemma StartPollKeeps(c: Config, s: State, tip: nat, last: nat)
    requires Inv(c, s) && Covered(s.h, last)
    ensures Inv(c, StartPoll(s, tip, last))
  {
    QuietStepKeeps(c, s, StartPoll(s, tip, last));
  }

  lemma PollForceKeeps(c: Config, s: State, p: Poll, r: Reply)
    requires Inv(c, s) && s.poll == p && p.PollForce?
    ensures Inv(c, StartPoll(Force(s, p.resetTo, r), p.tip, if r.Done? then p.resetTo else p.last))
  {
    assert PollOk(c, s.h, p);
    ForceKeeps(c, s, p.resetTo, r);
    StartPollKeeps(c, Force(s, p.resetTo, r), p.tip, if r.Done? then p.resetTo else p.last);
  }

  lemma PollReadKeeps(c: Config, s: State, tip: nat, ok: bool)
    requires Inv(c, s)
    ensures Inv(c, DoPollReadMark(c, s, tip, ok))
  {
    if !ok {
      StartPollKeeps(c, s, tip, 0);
    } else {
      match ResetTo(c, tip, s.hwm)
      case Some(r) => QuietStepKeeps(c, s, s.(poll := PollForce(tip, s.hwm, r)));
      case None => StartPollKeeps(c, s, tip, s.hwm);
    }
  }

  lemma PollEnqueueKeeps(c: Config, s: State, p: Poll, ok: bool)
    requires Inv(c, s) && p == s.poll && p.PollScan?
    ensures Inv(c, DoPollEnqueue(c, s, p, ok))
  {
    QuietStepKeeps(c, s, DoPollEnqueue(c, s, p, ok));
  }

  lemma PollTipKeeps(c: Config, s: State, r: TipReply)
    requires Inv(c, s) && s.poll.PollIdle?
    ensures Inv(c, Do(c, s, PollTip(r)))
  {
    var t := Observed(s, r);
    if t.Some? {
      SawTipKeeps(c, s, r, t.value);
      QuietStepKeeps(c, NoteTip(s, r, t.value), NoteTip(s, r, t.value).(poll := PollRead(t.value)));
    }
  }

  lemma PollKeeps(c: Config, s: State, st: Step)
    requires Inv(c, s)
    requires st.PollTip? || st.PollReadMark? || st.PollForceMark? || st.PollEnqueue?
    ensures Inv(c, Do(c, s, st))
  {
    var p, s' := s.poll, Do(c, s, st);
    if st.PollTip? && p.PollIdle? {
      PollTipKeeps(c, s, st.tipReply);
    } else if st.PollReadMark? && p.PollRead? {
      assert s' == DoPollReadMark(c, s, p.tip, st.ok);
      PollReadKeeps(c, s, p.tip, st.ok);
    } else if st.PollForceMark? && p.PollForce? {
      assert s' == StartPoll(Force(s, p.resetTo, st.reply), p.tip, if st.reply.Done? then p.resetTo else p.last);
      PollForceKeeps(c, s, p, st.reply);
    } else if st.PollEnqueue? && p.PollScan? {
      assert s' == DoPollEnqueue(c, s, p, st.ok);
      PollEnqueueKeeps(c, s, p, st.ok);
    } else {
      assert s' == s;
    }
  }

  lemma NormalizedKeeps(c: Config, s: State, tip: nat, last: nat)
    requires Inv(c, s)
    requires last == 0 ==> s.h.zeroInstalls <= s.h.zeroWrites
    requires !s.catch.FirstRead? && !s.catch.FirstWrite?
    ensures Inv(c, AfterNormalize(s, tip, last))
  {
    QuietStepKeeps(c, s, AfterNormalize(s, tip, last));
  }

  lemma CatchReadKeeps(c: Config, s: State, tip: nat, ok: bool)
    requires Inv(c, s) && s.catch == CatchRead(tip)
    ensures Inv(c, DoCatchReadMark(c, s, tip, ok))
  {
    if !ok {
      var s1 := DoCatchReadMark(c, s, tip, ok);
      SharedStable(c, s, s1);
      OtherStepKeeps(c, s, s1);
    } else {
      match ResetTo(c, tip, s.hwm)
      case Some(r) => QuietStepKeeps(c, s, s.(catch := CatchForce(tip, s.hwm, r)));
      case None => NormalizedKeeps(c, s, tip, s.hwm);
    }
  }

  lemma CatchForceKeeps(c: Config, s: State, p: Catchup, r: Reply)
    requires Inv(c, s) && s.catch == p && p.CatchForce?
    ensures Inv(c, AfterNormalize(Force(s, p.resetTo, r), p.tip, if r.Done? then p.resetTo else p.last))
  {
    assert CatchOk(s.h, p);
    ForceKeeps(c, s, p.resetTo, r);
    var s1 := Force(s, p.resetTo, r);
    var last := if r.Done? then p.resetTo else p.last;
    NormalizedKeeps(c, s1, p.tip, last);
  }

  lemma InstallKeeps(c: Config, s: State, s1: State, p: Catchup)
    requires Inv(c, s) && s.catch == p && p.FirstWrite? && s1 == DoCatchFirst(s, p, Done)
    ensures Inv(c, s1)
  {
    assert DeliveryOk(c, s1.h) && MarkersOk(c, s1.h);
    assert Covered(s1.h, s1.hwm);
    assert MarkOk(s1.hwm, s1.h) && CatchOk(s1.h, s1.catch);
    assert PollOk(c, s1.h, s1.poll);
    assert SharedOk(c, s1);
    OtherStepKeeps(c, s, s1);
  }

  /** The first-run branch is the one place where the start point rises. */
  lemma CatchFirstKeeps(c: Config, s: State, p: Catchup, r: Reply)
    requires Inv(c, s) && s.catch == p && (p.FirstRead? || p.FirstWrite?)
    ensures Inv(c, DoCatchFirst(s, p, r))
  {
    var s1 := DoCatchFirst(s, p, r);
    assert CatchOk(s.h, p);
    if p.FirstWrite? && !r.Refused? {
      InstallKeeps(c, s, s1, p);
    } else {
      QuietStepKeeps(c, s, s1);
    }
  }

  lemma CatchTipKeeps(c: Config, s: State, r: TipReply)
    requires Inv(c, s) && s.catch.CatchTip?
    ensures Inv(c, Do(c, s, CatchSeeTip(r)))
  {
    var t := Observed(s, r);
    if t.Some? {
      SawTipKeeps(c, s, r, t.value);
      QuietStepKeeps(c, NoteTip(s, r, t.value), NoteTip(s, r, t.value).(catch := CatchRead(t.value)));
    } else {
      QuietStepKeeps(c, s, s.(catch := CatchDone));
    }
  }

  lemma CatchEnqueueKeeps(c: Config, s: State, p: Catchup, ok: bool)
    requires Inv(c, s) && p == s.catch && p.CatchScan?
    ensures Inv(c, DoCatchEnqueue(c, s, p, ok))
  {
    QuietStepKeeps(c, s, DoCatchEnqueue(c, s, p, ok));
  }

  lemma CatchKeeps(c: Config, s: State, st: Step)
    requires Inv(c, s)
    requires st.CatchSeeTip? || st.CatchReadMark? || st.CatchForceMark? || st.CatchFirst? || st.CatchEnqueue?
    ensures Inv(c, Do(c, s, st))
  {
    var p, s' := s.catch, Do(c, s, st);
    if st.CatchSeeTip? && p.CatchTip? {
      CatchTipKeeps(c, s, st.tipReply);
    } else if st.CatchReadMark? && p.CatchRead? {
      assert s' == DoCatchReadMark(c, s, p.tip, st.ok);
      CatchReadKeeps(c, s, p.tip, st.ok);
    } else if st.CatchForceMark? && p.CatchForce? {
      assert s' == AfterNormalize(Force(s, p.resetTo, st.reply), p.tip, if st.reply.Done? then p.resetTo else p.last);
      CatchForceKeeps(c, s, p, st.reply);
    } else if st.CatchFirst? && (p.FirstRead? || p.FirstWrite?) {
      assert s' == DoCatchFirst(s, p, st.reply);
      CatchFirstKeeps(c, s, p, st.reply);
    } else if st.CatchEnqueue? && p.CatchScan? {
      assert s' == DoCatchEnqueue(c, s, p, st.ok);
      CatchEnqueueKeeps(c, s, p, st.ok);
    } else {
      assert s' == s;
    }
  }

  lemma ExpireWindowKeeps(c: Config, s: State, k: nat)
    requires Inv(c, s)
    ensures Inv(c, Do(c, s, ExpireWindow(k)))
  {
    var s1 := Do(c, s, ExpireWindow(k));
    var gone := set b | b in s.bits && b / WINDOW == k;
    assert s1 == s.(bits := s.bits - gone, h := s.h.(expired := s.h.expired + multiset(gone)));
    LostBits(s.bits, gone);
    SharedStable(c, s, s1);
    OtherStepKeeps(c, s, s1);
  }

  lemma LostBits(bits: set<nat>, gone: set<nat>)
    requires gone <= bits
    ensures multiset(bits) == multiset(gone) + multiset(bits - gone)
  {
  }

  lemma RestartKeeps(c: Config, s: State, crash: bool)
    requires Inv(c, s)
    ensures Inv(c, DoRestart(c, s, crash))
  {
    var s1 := DoRestart(c, s, crash);
    assert DeliveryOk(c, s1.h) && MarkersOk(c, s1.h) && MarkOk(s1.hwm, s1.h);
    assert SharedOk(c, s1);
  }

  lemma TipEnvKeeps(c: Config, s: State, st: Step)
    requires Inv(c, s) && (st.Grow? || st.FlushTip? || st.EvictTip?)
    ensures Inv(c, Do(c, s, st))
  {
    var s' := Do(c, s, st);
    if st.Grow? {
      assert s' == s.(trueTip := Max(s.trueTip, st.height));
    } else if st.FlushTip? && st.height in s.pendingTips {
      assert s' == s.(tipCache := st.height, pendingTips := s.pendingTips - {st.height});
    } else if st.FlushTip? {
      assert s' == s;
    } else {
      assert s' == s.(tipCache := 0);
    }
    QuietStepKeeps(c, s, s');
  }

  lemma EnqueueKeeps(c: Config, s: State, b: nat, timers: multiset<nat>)
    requires Inv(c, s)
    ensures Inv(c, Enqueue(c, s.(timers := timers), b))
  {
    QuietStepKeeps(c, s, Enqueue(c, s.(timers := timers), b));
  }

  lemma EnvKeeps(c: Config, s: State, st: Step)
    requires Inv(c, s) && (st.Grow? || st.FlushTip? || st.EvictTip? || st.Notify? || st.TimerFire?)
    ensures Inv(c, Do(c, s, st))
  {
    if st.Notify? {
      assert Do(c, s, st) == Enqueue(c, s.(timers := s.timers), st.block);
      EnqueueKeeps(c, s, st.block, s.timers);
    } else if st.TimerFire? && st.block in s.timers {
      assert Do(c, s, st) == Enqueue(c, s.(timers := s.timers - multiset{st.block}), st.block);
      EnqueueKeeps(c, s, st.block, s.timers - multiset{st.block});
    } else if st.TimerFire? {
      assert Do(c, s, st) == s;
    } else {
      TipEnvKeeps(c, s, st);
    }
  }

  /** Every step of every process keeps the invariant. */
  lemma StepKeeps(c: Config, s: State, st: Step)
    requires Inv(c, s)
    ensures Inv(c, Do(c, s, st))
  {
    if IsWorkerStep(st) {
      WorkerKeeps(c, s, st);
    } else if st.PollTip? || st.PollReadMark? || st.PollForceMark? || st.PollEnqueue? {
      PollKeeps(c, s, st);
    } else if st.CatchSeeTip? || st.CatchReadMark? || st.CatchForceMark? || st.CatchFirst? || st.CatchEnqueue? {
      CatchKeeps(c, s, st);
    } else if st.ExpireWindow? {
      ExpireWindowKeeps(c, s, st.window);
    } else if st.Restart? {
      RestartKeeps(c, s, st.crash);
    } else {
      EnvKeeps(c, s, st);
    }
  }

  lemma {:induction false} RunKeeps(c: Config, s: State, steps: seq<Step>)
    requires Inv(c, s)
    ensures Inv(c, Run(c, s, steps))
    decreases |steps|
  {
    if steps != [] {
      RunKeeps(c, s, steps[..|steps| - 1]);
      StepKeeps(c, Run(c, s, steps[..|steps| - 1]), steps[|steps| - 1]);
    }
  }

  // ----- what a step leaves alone ---------------------------------------------------------------------

  /** Only fetching and publishing touch the attempts. */
  lemma AttemptsLeft(c: Config, s: State, st: Step)
    requires IsWorkerStep(st) && !st.Fetch? && !st.Publish?
    ensures DoWorker(c, s, st).h.attempts == s.h.attempts
  {
    if st.AdvanceStep? && st.w < |s.workers| && s.workers[st.w].Advancing? {
      var p := s.workers[st.w];
      assert DoWorker(c, s, st) == DoAdvance(s, st.w, p.owned, p.adv, st.reply);
    }
  }

  /** A worker's step moves only that worker. */
  lemma MovesItself(c: Config, s: State, st: Step, w: nat)
    requires IsWorkerStep(st) && st.w != w && w < |s.workers|
    ensures |DoWorker(c, s, st).workers| == |s.workers| && DoWorker(c, s, st).workers[w] == s.workers[w]
  {
    if st.AdvanceStep? && st.w < |s.workers| && s.workers[st.w].Advancing? {
      var p := s.workers[st.w];
      assert DoWorker(c, s, st) == DoAdvance(s, st.w, p.owned, p.adv, st.reply);
    }
  }

  /** Runs that meet still meet one step later. */
  lemma RunsMeet(c: Config, s: State, x: seq<Step>, s1: State, y: seq<Step>, x1: seq<Step>, y1: seq<Step>, st: Step)
    requires Run(c, s, x) == Run(c, s1, y) && x1 == x + [st] && y1 == y + [st]
    ensures Run(c, s, x1) == Run(c, s1, y1)
  {
    assert x1[..|x1| - 1] == x && y1[..|y1| - 1] == y;
  }

  lemma SplitLast(a: seq<Step>, b: seq<Step>)
    requires b != []
    ensures var front, st := b[..|b| - 1], b[|b| - 1]; b == front + [st] && a + b == (a + front) + [st]
  {
  }

  lemma RunNothing(c: Config, s: State, a: seq<Step>)
    ensures Run(c, s, a + []) == Run(c, s, a) == Run(c, Run(c, s, a), [])
  {
    assert a + [] == a;
  }

  lemma {:induction false} RunConcat(c: Config, s: State, a: seq<Step>, b: seq<Step>)
    ensures Run(c, s, a + b) == Run(c, Run(c, s, a), b)
    decreases |b|
  {
    if b == [] {
      RunNothing(c, s, a);
    } else {
      var front, st := b[..|b| - 1], b[|b| - 1];
      SplitLast(a, b);
      RunConcat(c, s, a, front);
      RunsMeet(c, s, a + front, Run(c, s, a), front, a + b, b, st);
    }
  }

  lemma InitInv(c: Config, s: State)
    requires Init(c, s)
    ensures Inv(c, s)
  {
  }
}
