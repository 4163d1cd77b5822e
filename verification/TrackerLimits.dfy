/** Where the protocol promises less than one might expect, with the exact condition in each case. */
module TrackerLimits {
  import opened Common
  import opened Events
  import opened Chains
  import opened Tracker
  import opened TrackerSafety
  import opened TrackerSteps
  import opened TrackerTheorems
  import opened TrackerAttempts
  import opened TrackerRecovery

  function Fresh(c: Config, hwm: nat, tip: nat): State {
    State(hwm, {}, 0, tip, {}, seq(c.workers, _ => Idle), {}, [], [], multiset{}, PollIdle, CatchTip, 0, None,
          History(hwm, multiset{}, multiset{}, multiset{}, [], map[], {}, 0, 0, 0, 0, 0))
  }

  const TWO: Config := Config(0, 3, 2, 200, 1000, UtxoChain)

  const EMPTY: Blocks := (b: nat) => Fetched(UtxoData([], map[]), [])

  /** Blocks 1 and 2 are picked up by two workers. */
  lemma TwoPicked() returns (s: State)
    ensures Reaches(TWO, Fresh(TWO, 0, 2), s) && s.trueTip == 2 && s.hwm == 0 && s.bits == {} && s.inFlight == {}
    ensures s.workers == [Picked(1), Picked(2), Idle]
  {
    var s0 := Fresh(TWO, 0, 2);
    var s1 := Do(TWO, s0, Notify(1));
    var s2 := Do(TWO, s1, Notify(2));
    assert s2 == s0.(realtime := [1, 2]);
    var s3 := Do(TWO, s2, Dequeue(0));
    assert s3.workers == [Picked(1), Idle, Idle] && s3.realtime == [2];
    s := Do(TWO, s3, Dequeue(1));
    assert s.workers == [Picked(1), Picked(2), Idle];
    Twice(TWO, s0, Notify(1), s1, Notify(2), s2);
    Twice(TWO, s2, Dequeue(0), s3, Dequeue(1), s);
    Then(TWO, s0, s2, s);
  }

  lemma ReadCleared(c: Config, s: State, w: nat, owned: Option<nat>, n: nat) returns (s': State)
    requires w < |s.workers| && s.workers[w] == Advancing(owned, SetRead(n)) && n >= s.hwm
    ensures Reaches(c, s, s') && s' == Goto(s, w, Advancing(owned, SetWrite(n)))
  {
    s' := Do(c, s, AdvanceStep(w, Done));
    assert s' == Goto(s, w, Advancing(owned, SetWrite(n)));
    Once(c, s, AdvanceStep(w, Done), s');
  }

  /** A worker alone at the start of its walk gets to the point of writing what it found. */
  lemma {:induction false} ToWrite(c: Config, s: State, w: nat, owned: Option<nat>, last: nat, a: nat, n: nat)
    returns (s': State)
    requires w < |s.workers| && s.workers[w] == Advancing(owned, Walk(last, a))
    requires last <= a <= n && last < n <= last + ADVANCE_GUARD && n >= s.hwm
    requires (forall b :: a < b <= n ==> b in s.bits) && n + 1 !in s.bits
    ensures Reaches(c, s, s') && s' == Goto(s, w, Advancing(owned, SetWrite(n)))
    decreases n - a
  {
    assert WalkNext(s, last, a) == Some(if a < n then Walk(last, a + 1) else SetRead(n));
    var s1 := WalkOnce(c, s, w, owned, last, a);
    if a < n {
      s' := ToWrite(c, s1, w, owned, last, a + 1, n);
    } else {
      s' := ReadCleared(c, s1, w, owned, n);
    }
    Then(c, s, s1, s');
  }

  lemma ToWriteFromRead(c: Config, s: State, w: nat, owned: Option<nat>, n: nat) returns (s': State)
    requires w < |s.workers| && s.workers[w] == Advancing(owned, ReadMark)
    requires s.hwm < n <= s.hwm + ADVANCE_GUARD
    requires (forall b :: s.hwm < b <= n ==> b in s.bits) && n + 1 !in s.bits
    ensures Reaches(c, s, s') && s' == Goto(s, w, Advancing(owned, SetWrite(n)))
  {
    var s1 := ReadOnce(c, s, w, owned);
    s' := ToWrite(c, s1, w, owned, s.hwm, s.hwm, n);
    Then(c, s, s1, s');
  }

  lemma WriteNow(c: Config, s: State, w: nat, owned: Option<nat>, n: nat) returns (s': State)
    requires w < |s.workers| && s.workers[w] == Advancing(owned, SetWrite(n))
    ensures Reaches(c, s, s') && s' == Do(c, s, AdvanceStep(w, Done)) == Advanced(s.(hwm := n), w, owned)
  {
    s' := Do(c, s, AdvanceStep(w, Done));
    assert s' == Advanced(s.(hwm := n), w, owned);
    Once(c, s, AdvanceStep(w, Done), s');
  }

  /** Worker 0 is about to write 1, worker 1 has yet to start on block 2. */
  lemma StaleWriter() returns (s: State)
    ensures Reaches(TWO, Fresh(TWO, 0, 2), s)
    ensures s.workers == [Advancing(Some(1), SetWrite(1)), Picked(2), Idle]
    ensures s.trueTip == 2 && s.hwm == 0 && s.bits == {1} && s.inFlight == {1}
  {
    var s1 := TwoPicked();
    s := FirstWriter(s1);
    Then(TWO, Fresh(TWO, 0, 2), s1, s);
  }

  lemma EmptyContents()
    ensures Contents(TWO, EMPTY)
  {
  }

  lemma FirstWriter(s: State) returns (s': State)
    requires s.workers == [Picked(1), Picked(2), Idle]
    requires s.trueTip == 2 && s.hwm == 0 && s.bits == {} && s.inFlight == {}
    ensures Reaches(TWO, s, s')
    ensures s'.workers == [Advancing(Some(1), SetWrite(1)), Picked(2), Idle]
    ensures s'.trueTip == 2 && s'.hwm == 0 && s'.bits == {1} && s'.inFlight == {1}
  {
    EmptyContents();
    var s1 := ProcessClean(TWO, EMPTY, s, 0, 1);
    assert s1.workers == [Advancing(Some(1), ReadMark), Picked(2), Idle] && s1.bits == {1} && s1.inFlight == {1};
    s' := ToWriteFromRead(TWO, s1, 0, Some(1), 1);
    assert s'.workers == [Advancing(Some(1), SetWrite(1)), Picked(2), Idle];
    Then(TWO, s, s1, s');
  }

  /** From there worker 1 takes block 2 all the way to the point of writing 2. */
  lemma SecondWriter(s: State) returns (s': State)
    requires s.workers == [Advancing(Some(1), SetWrite(1)), Picked(2), Idle]
    requires s.trueTip == 2 && s.hwm == 0 && s.bits == {1} && s.inFlight == {1}
    ensures Reaches(TWO, s, s')
    ensures s'.workers == [Advancing(Some(1), SetWrite(1)), Advancing(Some(2), SetWrite(2)), Idle]
  {
    EmptyContents();
    var s1 := ProcessClean(TWO, EMPTY, s, 1, 2);
    assert s1.workers == [Advancing(Some(1), SetWrite(1)), Advancing(Some(2), ReadMark), Idle] && s1.bits == {1, 2};
    s' := ToWriteFromRead(TWO, s1, 1, Some(2), 2);
    assert s'.workers == [Advancing(Some(1), SetWrite(1)), Advancing(Some(2), SetWrite(2)), Idle];
    Then(TWO, s, s1, s');
  }

  /** The high-water mark is not monotone: between the read and the write of
      `SetLastProcessedBlock` another worker writes a larger value, and the stale write lowers it. */
  lemma MarkCanFall() returns (s: State, s': State)
    ensures Init(TWO, Fresh(TWO, 0, 2)) && Reaches(TWO, Fresh(TWO, 0, 2), s)
    ensures s' == Do(TWO, s, AdvanceStep(0, Done))
    ensures s.hwm == 2 && s'.hwm == 1
  {
    var s0 := Fresh(TWO, 0, 2);
    var s1 := StaleWriter();
    var s2 := SecondWriter(s1);
    Then(TWO, s0, s1, s2);
    s := WriteNow(TWO, s2, 1, Some(2), 2);
    Then(TWO, s0, s2, s);
    s' := WriteNow(TWO, s, 0, Some(1), 1);
  }

  // ----- catch-up -------------------------------------------------------------------------------------

  /** Some block above the start point and up to the mark was never marked. */
  ghost predicate Skips(base: nat, s: State) {
    exists b :: base < b <= s.hwm && b !in s.h.marks
  }

  predicate IsCatchStep(st: Step) {
    st.CatchSeeTip? || st.CatchReadMark? || st.CatchForceMark? || st.CatchFirst? || st.CatchEnqueue?
  }

  /** Steps of everybody but catch-up. */
  predicate Elsewhere(steps: seq<Step>) {
    forall i :: 0 <= i < |steps| ==> !IsCatchStep(steps[i]) && !steps[i].Restart?
  }

  lemma StepElsewhere(c: Config, s: State, st: Step)
    requires !IsCatchStep(st) && !st.Restart?
    ensures Do(c, s, st).catch == s.catch && Do(c, s, st).h.base == s.h.base
  {
    BaseRisesOnlyOnFirstRun(c, s, st);
    if IsWorkerStep(st) {
      assert Do(c, s, st) == DoWorker(c, s, st);
      WorkerWrites(c, s, st);
    }
  }

  lemma {:induction false} RunElsewhere(c: Config, s: State, steps: seq<Step>)
    requires Elsewhere(steps)
    ensures Run(c, s, steps).catch == s.catch && Run(c, s, steps).h.base == s.h.base
    decreases |steps|
  {
    if steps != [] {
      var front := steps[..|steps| - 1];
      RunElsewhere(c, s, front);
      StepElsewhere(c, Run(c, s, front), steps[|steps| - 1]);
    }
  }

  /** Catch-up from its read of the mark on, as far as the first-run branch goes, with `others` and
      `others'` in between: the state before its second command and the state after its last. */
  ghost function BeforeSet(c: Config, s: State, ok: bool, others: seq<Step>): State {
    Run(c, Do(c, s, CatchReadMark(ok)), others)
  }

  ghost function AfterSet(c: Config, s: State, r: Reply, others': seq<Step>, r': Reply): State {
    Do(c, Run(c, Do(c, s, CatchFirst(r)), others'), CatchFirst(r'))
  }

  /** When catch-up puts the mark above a block nobody processed, whatever others do meanwhile: exactly
      when its read of the mark fails or finds 0, the mark is not above the height it was told when it is
      read again, the write takes effect, and a never-marked block lies up to that height. */
  lemma CatchUpSkipsIff(c: Config, s: State, tip: nat, ok: bool, others: seq<Step>, r: Reply, others': seq<Step>,
                        r': Reply)
    requires Inv(c, s) && s.catch == CatchRead(tip) && Elsewhere(others) && Elsewhere(others')
    ensures var s1 := BeforeSet(c, s, ok, others); var s' := AfterSet(c, s1, r, others', r');
      Skips(s.h.base, s') <==>
        && (!ok || s.hwm == 0) && r.Done? && s1.hwm <= tip && !r'.Refused?
        && exists b :: s.h.base < b <= tip && b !in s'.h.marks
  {
    var s0 := Do(c, s, CatchReadMark(ok));
    var s1 := BeforeSet(c, s, ok, others);
    var first := !ok || s.hwm == 0;
    ReadsMark(c, s, tip, ok);
    RunElsewhere(c, s0, others);
    Sets(c, s1, tip, !ok, first, r, others', r');
    StepKeeps(c, s, CatchReadMark(ok));
    RunKeeps(c, s0, others);
    CoveredAfter(c, s1, r, others', r');
  }

  lemma ReadsMark(c: Config, s: State, tip: nat, ok: bool)
    requires s.catch == CatchRead(tip)
    ensures var s0 := Do(c, s, CatchReadMark(ok));
      && s0.h.base == s.h.base
      && (if !ok || s.hwm == 0 then s0.catch == FirstRead(tip, !ok) else !s0.catch.FirstRead? && !s0.catch.FirstWrite?)
  {
    assert Do(c, s, CatchReadMark(ok)) == DoCatchReadMark(c, s, tip, ok);
  }

  lemma Sets(c: Config, s: State, tip: nat, byError: bool, first: bool, r: Reply, others: seq<Step>, r': Reply)
    requires Elsewhere(others)
    requires if first then s.catch == FirstRead(tip, byError) else !s.catch.FirstRead? && !s.catch.FirstWrite?
    ensures var s' := AfterSet(c, s, r, others, r');
      if first && r.Done? && s.hwm <= tip && !r'.Refused? then s'.hwm == tip else s'.h.base == s.h.base
  {
    var s1 := Do(c, s, CatchFirst(r));
    SetReads(c, s, tip, byError, first, r);
    RunElsewhere(c, s1, others);
    SetWrites(c, Run(c, s1, others), r');
  }

  lemma SetReads(c: Config, s: State, tip: nat, byError: bool, first: bool, r: Reply)
    requires if first then s.catch == FirstRead(tip, byError) else !s.catch.FirstRead? && !s.catch.FirstWrite?
    ensures var s' := Do(c, s, CatchFirst(r));
      && s'.h.base == s.h.base && !s'.catch.FirstRead?
      && (if first && r.Done? && s.hwm <= tip then s'.catch == FirstWrite(tip, byError) else !s'.catch.FirstWrite?)
  {
    if first { assert Do(c, s, CatchFirst(r)) == DoCatchFirst(s, s.catch, r); }
  }

  lemma SetWrites(c: Config, s: State, r: Reply)
    requires !s.catch.FirstRead?
    ensures var s' := Do(c, s, CatchFirst(r));
      if s.catch.FirstWrite? && !r.Refused? then s'.hwm == s.catch.tip else s'.h.base == s.h.base
  {
  }

  lemma CoveredAfter(c: Config, s: State, r: Reply, others: seq<Step>, r': Reply)
    requires Inv(c, s)
    ensures var s' := AfterSet(c, s, r, others, r'); Covered(s'.h, s'.hwm)
  {
    var s1 := Do(c, s, CatchFirst(r));
    StepKeeps(c, s, CatchFirst(r));
    RunKeeps(c, s1, others);
    StepKeeps(c, Run(c, s1, others), CatchFirst(r'));
  }

  /** That branch skips blocks: the mark jumps to the height, so every block between them that was
      never marked now lies below it, and below the start point that coverage counts from. */
  lemma ReadErrorSkipsBlocks(c: Config, s: State, tip: nat)
    requires Inv(c, s) && s.catch == CatchRead(tip) && s.hwm <= tip
    ensures var s' := Do(c, Do(c, Do(c, s, CatchReadMark(false)), CatchFirst(Done)), CatchFirst(Done));
      && s'.hwm == tip && s'.h.base == Max(s.h.base, tip) && s'.h.marks == s.h.marks
      && (forall b :: s.hwm < b <= tip && b !in s.h.marks ==> b <= s'.hwm && b <= s'.h.base && b !in s'.h.marks)
  {
    var s1 := Do(c, s, CatchReadMark(false));
    assert s1.catch == FirstRead(tip, true);
    var s2 := Do(c, s1, CatchFirst(Done));
    assert s2.catch == FirstWrite(tip, true);
  }

  /** A run in which it happens: started on mark 5 with the chain at 20, one failed read puts the mark at
      20, and block 6 is below it, never marked. */
  lemma SkippedBlock() returns (s: State)
    ensures Init(TWO, Fresh(TWO, 5, 20)) && Reaches(TWO, Fresh(TWO, 5, 20), s)
    ensures s.hwm == 20 && 6 !in s.h.marks && Skips(5, s)
  {
    var s0, see := Fresh(TWO, 5, 20), CatchSeeTip(FromRpc(20));
    var s1 := Do(TWO, s0, see);
    assert s1 == NoteTip(s0, FromRpc(20), 20).(catch := CatchRead(20));
    assert Inv(TWO, s1) by { InitInv(TWO, s0); StepKeeps(TWO, s0, see); }
    ReadErrorSkipsBlocks(TWO, s1, 20);
    var s2 := Do(TWO, s1, CatchReadMark(false));
    var s3 := Do(TWO, s2, CatchFirst(Done));
    s := Do(TWO, s3, CatchFirst(Done));
    Twice(TWO, s0, see, s1, CatchReadMark(false), s2);
    Twice(TWO, s2, CatchFirst(Done), s3, CatchFirst(Done), s);
    Then(TWO, s0, s2, s);
  }

  // ----- events that were not taken -------------------------------------------------------------------

  predicate NoneFails(c: Config, answers: seq<Answer>) {
    Strict(c.chain) ==> forall i :: 0 <= i < |answers| ==> answers[i].Taken?
  }

  /** In its call the worker goes on until an answer fails it; bits are left alone. */
  ghost predicate GoesOn(c: Config, s: State, s': State, w: nat, b: nat, a: Attempt, k: nat, answers: seq<Answer>) {
    && s'.bits == s.bits && w < |s'.workers|
    && (if NoneFails(c, answers) then InCall(s', w, b, More(a, answers), k) else s'.workers[w] == Idle)
  }

  lemma {:induction false} AnswersGiven(c: Config, s: State, w: nat, b: nat, a: Attempt, k: nat, answers: seq<Answer>)
    requires InCall(s, w, b, a, k) && |a.answers| + |answers| <= |a.fetched.events|
    ensures GoesOn(c, s, Run(c, s, Answers(w, answers)), w, b, a, k, answers)
    decreases |answers|
  {
    if answers == [] {
      assert More(a, answers) == a;
    } else {
      var m := |answers| - 1;
      var front, x := answers[..m], answers[m];
      AnswersGiven(c, s, w, b, a, k, front);
      assert Answers(w, answers)[..m] == Answers(w, front);
      assert answers == front + [x];
      assert NoneFails(c, answers) <==> NoneFails(c, front) && (Strict(c.chain) ==> x.Taken?);
      AnswerGiven(c, Run(c, s, Answers(w, front)), w, b, More(a, front), k, x, NoneFails(c, front));
      assert More(More(a, front), [x]) == More(a, answers);
    }
  }

  lemma AnswerGiven(c: Config, s: State, w: nat, b: nat, a: Attempt, k: nat, x: Answer, going: bool)
    requires w < |s.workers| && (if going then InCall(s, w, b, a, k) && Unanswered(a) else s.workers[w] == Idle)
    ensures var s' := Do(c, s, Publish(w, x));
      && s'.bits == s.bits && w < |s'.workers|
      && (if going && (Strict(c.chain) ==> x.Taken?) then InCall(s', w, b, More(a, [x]), k) else s'.workers[w] == Idle)
  {
    if going {
      assert Do(c, s, Publish(w, x)) == DoPublish(c, s, w, b, k, x);
    }
  }

  /** The end of the call and the mark. */
  lemma FinishAndMark(c: Config, s: State, w: nat, b: nat, a: Attempt, k: nat, going: bool)
    requires w < |s.workers| && (if going then InCall(s, w, b, a, k) && !Unanswered(a) else s.workers[w] == Idle)
    ensures Do(c, Do(c, s, Finish(w)), SetBit(w, Done)).bits == if going then s.bits + {b} else s.bits
  {
    var s1 := Do(c, s, Finish(w));
    if going {
      assert s1 == Goto(s, w, Marking(b, k));
      assert Do(c, s1, SetBit(w, Done)) == DoSetBit(s1, w, b, k, Done);
    }
  }

  /** Whatever becomes of a block's events, taken, declined or never offered, the block ends up marked
      exactly when the processor is one that does not fail a block over its events (EVM, TRON) or all of
      them were taken. */
  lemma MarkedIffNoneFails(c: Config, s: State, w: nat, b: nat, t: nat, f: Fetched, answers: seq<Answer>)
    requires Inv(c, s) && w < |s.workers| && s.workers[w] == Ready(b, t)
    requires Derives(c.chain, f) && |answers| == |f.events|
    ensures var s1 := Run(c, Do(c, s, Fetch(w, Some(f))), Answers(w, answers));
      b in Do(c, Do(c, s1, Finish(w)), SetBit(w, Done)).bits <==> NoneFails(c, answers)
  {
    assert WorkerOk(c, s, s.workers[w]);
    var a, k := Attempt(b, s.trueTip, t, f, []), |s.h.attempts|;
    var s0 := Do(c, s, Fetch(w, Some(f)));
    assert s0 == DoFetch(c, s, w, b, t, Some(f));
    AnswersGiven(c, s0, w, b, a, k, answers);
    FinishAndMark(c, Run(c, s0, Answers(w, answers)), w, b, More(a, answers), k, NoneFails(c, answers));
  }

  const EVM: Config := Config(0, 2, 1, 200, 1000, EvmChain)

  /** Worker 0 of an EVM tracker has block 1. */
  lemma BlockTaken() returns (s: State)
    ensures Reaches(EVM, Fresh(EVM, 0, 2), s)
    ensures s.workers == [Picked(1), Idle] && s.bits == {} && s.inFlight == {} && s.h.attempts == [] && s.trueTip == 2
  {
    var s0 := Fresh(EVM, 0, 2);
    var s1 := Do(EVM, s0, Notify(1));
    assert s1 == s0.(realtime := [1]);
    Once(EVM, s0, Notify(1), s1);
    s := DequeueOnce(EVM, s1);
    assert s.workers == [Picked(1), Idle];
    Then(EVM, s0, s1, s);
  }

  lemma TipLearnt(s: State) returns (s': State)
    requires s.workers == [AwaitTip(1), Idle] && s.trueTip == 2
    ensures Reaches(EVM, s, s') && s'.workers == [Ready(1, 2), Idle]
    ensures s'.bits == s.bits && s'.h.attempts == s.h.attempts && s'.trueTip == 2
  {
    var see := SeeTip(0, FromRpc(2));
    s' := Do(EVM, s, see);
    assert s' == Goto(NoteTip(s, FromRpc(2), 2), 0, Ready(1, 2));
    Once(EVM, s, see, s');
  }

  /** Worker 0 of an EVM tracker is about to process block 1. */
  lemma AboutToProcess() returns (s: State)
    ensures Reaches(EVM, Fresh(EVM, 0, 2), s)
    ensures s.workers == [Ready(1, 2), Idle] && s.bits == {} && s.h.attempts == [] && s.trueTip == 2
  {
    var s0 := Fresh(EVM, 0, 2);
    var s1 := BlockTaken();
    var s2 := ClaimClean(EVM, s1, 0, 1);
    assert s2.workers == [AwaitTip(1), Idle];
    Then(EVM, s0, s1, s2);
    s := TipLearnt(s2);
    Then(EVM, s0, s2, s);
  }

  /** A run in which an event is declined and its block marked all the same. */
  lemma DeclinedAndMarked(e: Event) returns (s: State)
    ensures Init(EVM, Fresh(EVM, 0, 2)) && Reaches(EVM, Fresh(EVM, 0, 2), s)
    ensures 1 in s.bits && |s.h.attempts| == 1
    ensures s.h.attempts[0].block == 1 && s.h.attempts[0].fetched.events == [e] && s.h.attempts[0].answers == [Declined]
  {
    var s0 := Fresh(EVM, 0, 2);
    var s1 := AboutToProcess();
    var s2 := DeclinedOnce(s1, e);
    Then(EVM, s0, s1, s2);
    s := BitClean(EVM, s2, 0, 1, 0);
    Then(EVM, s0, s2, s);
  }

  lemma DeclinedOnce(s: State, e: Event) returns (s': State)
    requires s.workers == [Ready(1, 2), Idle] && s.h.attempts == [] && s.bits == {}
    ensures Reaches(EVM, s, s') && s'.workers == [Publishing(1, 0), Idle] && s'.bits == {}
    ensures s'.h.attempts == [Attempt(1, s.trueTip, 2, Fetched(OtherData, [e]), [Declined])]
  {
    var f := Fetched(OtherData, [e]);
    var s1 := Do(EVM, s, Fetch(0, Some(f)));
    assert s1 == DoFetch(EVM, s, 0, 1, 2, Some(f));
    assert s1.h.attempts == [Attempt(1, s.trueTip, 2, f, [])];
    s' := Do(EVM, s1, Publish(0, Declined));
    assert s' == Answered(s1, 0, Declined);
    assert [] + [Declined] == [Declined];
    assert s'.h.attempts[0] == Attempt(1, s.trueTip, 2, f, [Declined]);
    Twice(EVM, s, Fetch(0, Some(f)), s1, Publish(0, Declined), s');
  }
}
