/** How the processors' own ProcessBlock appears in the step machine: whatever the other processes do in
    between, a call that succeeds takes its worker to the mark with exactly the block's events accepted,
    and a call that fails takes it back to idle. */
module TrackerAttempts {
  import opened Common
  import opened Events
  import opened Publishing
  import opened Chains
  import opened Tracker
  import opened TrackerSafety
  import opened TrackerSteps
  import UtxoModel = Utxo
  import UtxoBlock
  import SolanaTransfers
  import SolanaBlock
  import EvmBlock

  // ----- steps of one worker among those of all -------------------------------------------------------

  predicate IsOwn(st: Step, w: nat) {
    IsWorkerStep(st) && st.w == w
  }

  /** The steps of worker `w`. */
  function Own(steps: seq<Step>, w: nat): seq<Step> {
    if steps == [] then [] else
      var last := steps[|steps| - 1];
      Own(steps[..|steps| - 1], w) + if IsOwn(last, w) then [last] else []
  }

  predicate NoRestart(steps: seq<Step>) {
    forall i :: 0 <= i < |steps| ==> !steps[i].Restart?
  }

  /** The publisher's answers as steps. */
  function Answers(w: nat, answers: seq<Answer>): (r: seq<Step>)
    ensures |r| == |answers| && forall i :: 0 <= i < |r| ==> r[i] == Publish(w, answers[i])
  {
    seq(|answers|, i requires 0 <= i < |answers| => Publish(w, answers[i]))
  }

  /** Worker `w` is in a ProcessBlock call on block `b`. */
  ghost predicate InCall(s: State, w: nat, b: nat, a: Attempt, k: nat) {
    w < |s.workers| && s.workers[w] == Publishing(b, k) && k < |s.h.attempts| && s.h.attempts[k] == a
  }

  /** Two workers are never in the same call. */
  lemma DifferentCalls(c: Config, s: State, v: nat, w: nat)
    requires Inv(c, s) && v < |s.workers| && w < |s.workers| && v != w
    requires s.workers[v].Publishing? && s.workers[w].Publishing?
    ensures s.workers[v].attempt != s.workers[w].attempt
  {
    assert WorkerOk(c, s, s.workers[v]) && WorkerOk(c, s, s.workers[w]);
    assert Holds(s.workers[v]) != Holds(s.workers[w]);
  }

  /** Another worker's step touches neither this worker nor its call. */
  lemma OtherWorker(c: Config, s: State, st: Step, w: nat, b: nat, a: Attempt, k: nat)
    requires InCall(s, w, b, a, k) && IsWorkerStep(st) && st.w != w
    requires st.w < |s.workers| && s.workers[st.w].Publishing? ==> s.workers[st.w].attempt != k
    ensures InCall(DoWorker(c, s, st), w, b, a, k)
  {
    MovesItself(c, s, st, w);
    if !st.Fetch? && !st.Publish? { AttemptsLeft(c, s, st); }
  }

  lemma NoWorker(c: Config, s: State, st: Step)
    requires !IsWorkerStep(st) && !st.Restart?
    ensures Do(c, s, st).workers == s.workers && Do(c, s, st).h.attempts == s.h.attempts
  {
  }

  lemma OtherStep(c: Config, s: State, st: Step, w: nat, b: nat, a: Attempt, k: nat)
    requires Inv(c, s) && InCall(s, w, b, a, k) && !IsOwn(st, w) && !st.Restart?
    ensures InCall(Do(c, s, st), w, b, a, k)
  {
    if IsWorkerStep(st) {
      assert Do(c, s, st) == DoWorker(c, s, st);
      if st.w < |s.workers| && s.workers[st.w].Publishing? { DifferentCalls(c, s, st.w, w); }
      OtherWorker(c, s, st, w, b, a, k);
    } else {
      NoWorker(c, s, st);
    }
  }

  function More(a: Attempt, answers: seq<Answer>): Attempt {
    a.(answers := a.answers + answers)
  }

  /** The answers leave the worker in its call: there is room for them, and none of them fails it. */
  predicate Fits(c: Config, a: Attempt, answers: seq<Answer>) {
    && |a.answers| + |answers| <= |a.fetched.events|
    && (Strict(c.chain) ==> forall i :: 0 <= i < |answers| ==> answers[i].Taken?)
  }

  /** Answers arrive one by one, among any steps of the others. */
  lemma {:induction false} AnswersArrive(c: Config, s: State, steps: seq<Step>, w: nat, b: nat, a: Attempt, k: nat,
                                        answers: seq<Answer>)
    requires Inv(c, s) && InCall(s, w, b, a, k) && NoRestart(steps)
    requires Own(steps, w) == Answers(w, answers) && Fits(c, a, answers)
    ensures InCall(Run(c, s, steps), w, b, More(a, answers), k)
    decreases |steps|, 1
  {
    if steps == [] {
      assert answers == [];
      assert More(a, answers) == a;
    } else if IsOwn(steps[|steps| - 1], w) {
      OwnArrives(c, s, steps, w, b, a, k, answers);
    } else {
      OtherArrives(c, s, steps, w, b, a, k, answers);
    }
  }

  lemma {:induction false} OwnArrives(c: Config, s: State, steps: seq<Step>, w: nat, b: nat, a: Attempt, k: nat,
                                     answers: seq<Answer>)
    requires Inv(c, s) && InCall(s, w, b, a, k) && NoRestart(steps)
    requires Own(steps, w) == Answers(w, answers) && Fits(c, a, answers)
    requires steps != [] && IsOwn(steps[|steps| - 1], w)
    ensures InCall(Run(c, s, steps), w, b, More(a, answers), k)
    decreases |steps|, 0
  {
    var front := steps[..|steps| - 1];
    OwnLast(steps, w, answers);
    FitsFront(c, a, answers);
    AnswersArrive(c, s, front, w, b, a, k, answers[..|answers| - 1]);
    LastArrives(c, Run(c, s, front), w, b, a, k, answers);
  }

  lemma {:induction false} OtherArrives(c: Config, s: State, steps: seq<Step>, w: nat, b: nat, a: Attempt, k: nat,
                                       answers: seq<Answer>)
    requires Inv(c, s) && InCall(s, w, b, a, k) && NoRestart(steps)
    requires Own(steps, w) == Answers(w, answers) && Fits(c, a, answers)
    requires steps != [] && !IsOwn(steps[|steps| - 1], w)
    ensures InCall(Run(c, s, steps), w, b, More(a, answers), k)
    decreases |steps|, 0
  {
    var front := steps[..|steps| - 1];
    assert Own(steps, w) == Own(front, w);
    AnswersArrive(c, s, front, w, b, a, k, answers);
    OtherAfter(c, s, front, steps[|steps| - 1], w, b, More(a, answers), k);
  }

  lemma OtherAfter(c: Config, s: State, front: seq<Step>, last: Step, w: nat, b: nat, a: Attempt, k: nat)
    requires Inv(c, s) && InCall(Run(c, s, front), w, b, a, k) && !IsOwn(last, w) && !last.Restart?
    ensures InCall(Do(c, Run(c, s, front), last), w, b, a, k)
  {
    RunKeeps(c, s, front);
    OtherStep(c, Run(c, s, front), last, w, b, a, k);
  }

  lemma LastArrives(c: Config, s: State, w: nat, b: nat, a: Attempt, k: nat, answers: seq<Answer>)
    requires answers != [] && Fits(c, a, answers) && InCall(s, w, b, More(a, answers[..|answers| - 1]), k)
    ensures InCall(Do(c, s, Publish(w, answers[|answers| - 1])), w, b, More(a, answers), k)
  {
    FitsFront(c, a, answers);
    AnswerArrives(c, s, w, b, More(a, answers[..|answers| - 1]), k, answers[|answers| - 1]);
  }

  lemma OwnLast(steps: seq<Step>, w: nat, answers: seq<Answer>)
    requires steps != [] && IsOwn(steps[|steps| - 1], w) && Own(steps, w) == Answers(w, answers)
    ensures answers != [] && steps[|steps| - 1] == Publish(w, answers[|answers| - 1])
    ensures Own(steps[..|steps| - 1], w) == Answers(w, answers[..|answers| - 1])
  {
    var m := |answers| - 1;
    assert Own(steps, w)[..m] == Own(steps[..|steps| - 1], w) && Answers(w, answers)[m] == steps[|steps| - 1];
    assert Answers(w, answers)[..m] == Answers(w, answers[..m]);
  }

  lemma FitsFront(c: Config, a: Attempt, answers: seq<Answer>)
    requires answers != [] && Fits(c, a, answers)
    ensures var m := |answers| - 1;
      && Fits(c, a, answers[..m]) && Fits(c, More(a, answers[..m]), [answers[m]])
      && More(More(a, answers[..m]), [answers[m]]) == More(a, answers)
  {
    assert answers[..|answers| - 1] + [answers[|answers| - 1]] == answers;
  }

  lemma AnswerArrives(c: Config, s: State, w: nat, b: nat, a: Attempt, k: nat, answer: Answer)
    requires InCall(s, w, b, a, k) && Fits(c, a, [answer])
    ensures InCall(Do(c, s, Publish(w, answer)), w, b, More(a, [answer]), k)
  {
    assert [answer][0] == answer;
    assert Do(c, s, Publish(w, answer)) == DoPublish(c, s, w, b, k, answer) == Answered(s, k, answer);
  }

  // ----- one call -------------------------------------------------------------------------------------

  /** How a call ends: it returns true, the publisher declines an event, or something else fails. */
  datatype End = Returns | Declines | GivesUp

  function LastStep(w: nat, end: End): Step {
    match end
    case Returns => Finish(w)
    case Declines => Publish(w, Declined)
    case GivesUp => Abandon(w)
  }

  /** A whole call of worker `w`: the fetch, the answers among steps of the others, the end. */
  function CallSteps(w: nat, f: Fetched, others: seq<Step>, end: End): seq<Step> {
    [Fetch(w, Some(f))] + others + [LastStep(w, end)]
  }

  /** Where a call leaves its worker: at the mark, or idle with its block let go. */
  ghost predicate Ended(s: State, s': State, w: nat, b: nat, a: Attempt, marking: bool) {
    var k := |s.h.attempts|;
    && w < |s'.workers| && k < |s'.h.attempts| && s'.h.attempts[k] == a
    && s'.workers[w] == (if marking then Marking(b, k) else Idle)
    && (!marking ==> b !in s'.inFlight)
  }

  /** A call that fits ends at the mark when it returns with everything answered, idle when it fails. */
  lemma CallEnds(c: Config, s: State, w: nat, b: nat, t: nat, f: Fetched, others: seq<Step>, answers: seq<Answer>,
                 end: End)
    requires Inv(c, s) && w < |s.workers| && s.workers[w] == Ready(b, t) && Derives(c.chain, f)
    requires NoRestart(others) && Own(others, w) == Answers(w, answers)
    requires Fits(c, Attempt(b, s.trueTip, t, f, []), answers)
    requires end.Returns? ==> |answers| == |f.events|
    requires end.Declines? ==> Strict(c.chain) && |answers| < |f.events|
    ensures Ended(s, Run(c, s, CallSteps(w, f, others, end)), w, b,
      Attempt(b, s.trueTip, t, f, answers + if end.Declines? then [Declined] else []), end.Returns?)
  {
    var a, k := Attempt(b, s.trueTip, t, f, []), |s.h.attempts|;
    var before, all := [Fetch(w, Some(f))] + others, CallSteps(w, f, others, end);
    CallGoesOn(c, s, w, b, t, f, others, answers);
    assert [] + answers == answers && answers + [] == answers;
    assert all[..|all| - 1] == before;
    LastEnds(c, Run(c, s, before), w, b, More(a, answers), k, end);
  }

  /** The fetch, then the answers. */
  lemma CallGoesOn(c: Config, s: State, w: nat, b: nat, t: nat, f: Fetched, others: seq<Step>, answers: seq<Answer>)
    requires Inv(c, s) && w < |s.workers| && s.workers[w] == Ready(b, t) && Derives(c.chain, f)
    requires NoRestart(others) && Own(others, w) == Answers(w, answers)
    requires Fits(c, Attempt(b, s.trueTip, t, f, []), answers)
    ensures InCall(Run(c, s, [Fetch(w, Some(f))] + others), w, b,
      More(Attempt(b, s.trueTip, t, f, []), answers), |s.h.attempts|)
  {
    var start := [Fetch(w, Some(f))];
    var s1 := Run(c, s, start);
    Fetches(c, s, w, b, t, f);
    RunKeeps(c, s, start);
    AnswersArrive(c, s1, others, w, b, Attempt(b, s.trueTip, t, f, []), |s.h.attempts|, answers);
    RunConcat(c, s, start, others);
  }

  lemma Fetches(c: Config, s: State, w: nat, b: nat, t: nat, f: Fetched)
    requires w < |s.workers| && s.workers[w] == Ready(b, t) && Derives(c.chain, f)
    ensures InCall(Run(c, s, [Fetch(w, Some(f))]), w, b, Attempt(b, s.trueTip, t, f, []), |s.h.attempts|)
  {
    var start := [Fetch(w, Some(f))];
    assert start[..0] == [];
    assert Run(c, s, start) == Do(c, s, Fetch(w, Some(f))) == DoFetch(c, s, w, b, t, Some(f));
  }

  lemma LastEnds(c: Config, s: State, w: nat, b: nat, a: Attempt, k: nat, end: End)
    requires InCall(s, w, b, a, k)
    requires end.Returns? ==> !Unanswered(a)
    requires end.Declines? ==> Strict(c.chain) && Unanswered(a)
    ensures var s' := Do(c, s, LastStep(w, end));
      && w < |s'.workers| && k < |s'.h.attempts|
      && s'.h.attempts[k] == (if end.Declines? then More(a, [Declined]) else a)
      && s'.workers[w] == (if end.Returns? then Marking(b, k) else Idle)
      && (!end.Returns? ==> b !in s'.inFlight)
  {
    if end.Declines? {
      assert Do(c, s, LastStep(w, end)) == DoPublish(c, s, w, b, k, Declined);
    } else if end.GivesUp? {
      assert Do(c, s, LastStep(w, end)) == Release(s, w, b);
    } else {
      assert Do(c, s, LastStep(w, end)) == DoFinish(s, w, b, k);
    }
  }

  // ----- the processors -------------------------------------------------------------------------------

  function AllTakenUpTo(n: nat): seq<Answer> {
    seq(n, _ => Taken)
  }

  function EndOf(o: Outcome): End {
    match o
    case Processed => Returns
    case PublishRefused => Declines
    case LookupFailed => GivesUp
  }

  /** The call of worker `w` on block `b`, with outcome `o` after `sent` events, in whatever interleaving:
      exactly a processed block reaches the mark, and then all its events were taken. */
  ghost predicate CallAppears(c: Config, s: State, w: nat, b: nat, t: nat, f: Fetched, o: Outcome, sent: nat) {
    forall others :: NoRestart(others) && Own(others, w) == Answers(w, AllTakenUpTo(sent)) ==>
      Ended(s, Run(c, s, CallSteps(w, f, others, EndOf(o))), w, b,
        Attempt(b, s.trueTip, t, f, AllTakenUpTo(sent) + if o.PublishRefused? then [Declined] else []), o.Processed?)
  }

  lemma SentAppears(c: Config, s: State, w: nat, b: nat, t: nat, f: Fetched, accepts: nat -> bool,
                    o: Outcome, published: seq<Event>)
    requires Inv(c, s) && w < |s.workers| && s.workers[w] == Ready(b, t) && Derives(c.chain, f)
    requires SentUpTo(accepts, [], f.events, o, published)
    requires o.PublishRefused? ==> Strict(c.chain)
    ensures CallAppears(c, s, w, b, t, f, o, |published|)
  {
    assert [] + f.events == f.events;
    var answers := AllTakenUpTo(|published|);
    forall others | NoRestart(others) && Own(others, w) == Answers(w, answers)
      ensures Ended(s, Run(c, s, CallSteps(w, f, others, EndOf(o))), w, b,
        Attempt(b, s.trueTip, t, f, answers + if o.PublishRefused? then [Declined] else []), o.Processed?)
    {
      CallEnds(c, s, w, b, t, f, others, answers, EndOf(o));
    }
  }

  /** ProcessBlock of the UTXO processor as a call in the step machine. */
  method UtxoCall(p: Session, txs: seq<UtxoModel.Tx>, ghost c: Config, ghost s: State, ghost w: nat, ghost b: nat,
                  ghost t: nat)
    returns (o: Outcome)
    requires p.published == [] && c.chain.UtxoChain?
    requires Inv(c, s) && w < |s.workers| && s.workers[w] == Ready(b, t)
    modifies p
    ensures var f := Fetched(UtxoData(txs, p.wallets), UtxoModel.BlockEvents(txs, p.wallets));
      && p.Sent([], f.events, o)
      && CallAppears(c, s, w, b, t, f, o, |p.published|)
  {
    o := UtxoBlock.ProcessBlock(p, txs);
    ghost var f := Fetched(UtxoData(txs, p.wallets), UtxoModel.BlockEvents(txs, p.wallets));
    SentAppears(c, s, w, b, t, f, p.accepts, o, p.published);
  }

  /** ProcessBlock of the Solana processor as a call in the step machine. */
  method SolanaCall(p: Session, slot: Option<seq<SolanaTransfers.Tx>>, tokens: set<string>, ghost c: Config,
                    ghost s: State, ghost w: nat, ghost b: nat, ghost t: nat)
    returns (o: Outcome, ghost events: seq<Event>)
    requires p.published == [] && c.chain.SolanaChain?
    requires Inv(c, s) && w < |s.workers| && s.workers[w] == Ready(b, t)
    modifies p
    ensures var watch := SolanaTransfers.Watch(tokens, p.wallets);
      && SolanaBlock.SlotDerives(slot, watch, events) && p.Sent([], events, o)
      && CallAppears(c, s, w, b, t, Fetched(SolanaData(slot, watch), events), o, |p.published|)
  {
    o, events := SolanaBlock.ProcessBlock(p, slot, tokens);
    ghost var f := Fetched(SolanaData(slot, SolanaTransfers.Watch(tokens, p.wallets)), events);
    SentAppears(c, s, w, b, t, f, p.accepts, o, p.published);
  }

  function EventsIn(log: seq<EvmBlock.Entry>): (r: seq<Event>)
    ensures |r| == |log| && forall i :: 0 <= i < |r| ==> r[i] == log[i].event
  {
    seq(|log|, i requires 0 <= i < |log| => log[i].event)
  }

  function FatesIn(log: seq<EvmBlock.Entry>): (r: seq<Answer>)
    ensures |r| == |log| && forall i :: 0 <= i < |r| ==> r[i] == log[i].fate
  {
    seq(|log|, i requires 0 <= i < |log| => log[i].fate)
  }

  /** A finished EVM block has dealt with every event of every transaction that was not on record. */
  ghost predicate DealtWith(txs: seq<EvmBlock.Hash>, calls: EvmBlock.Calls, skip: set<EvmBlock.Hash>,
                            tasks: EvmBlock.Tasks, log: seq<EvmBlock.Entry>) {
    forall p, i :: 0 <= p < |txs| && txs[p] !in skip && 0 <= i < |calls(p)| ==>
      EvmBlock.Entry(calls(p)[i], EvmBlock.Fate(tasks(p), i)) in log
  }

  /** ProcessBlock of the EVM processor as a call in the step machine, with the events its goroutines dealt
      with in the order they did, and what became of each: taken, declined, or never offered. Whatever
      that is, a loop that finishes reaches the mark. */
  method EvmCall(p: EvmBlock.EthereumProcessor, txs: seq<EvmBlock.Hash>, calls: EvmBlock.Calls, batchSize: nat,
                 tasks: EvmBlock.Tasks, clearOk: bool,
                 ghost c: Config, ghost s: State, ghost w: nat, ghost b: nat, ghost t: nat)
    returns (ok: bool, ghost log: seq<EvmBlock.Entry>)
    requires batchSize > 0 && c.chain.EvmChain?
    requires Inv(c, s) && w < |s.workers| && s.workers[w] == Ready(b, t)
    modifies p
    ensures ok == EvmBlock.Attempt(old(p.Value()), txs, 0, batchSize, old(p.progress), tasks).1
    ensures p.log == old(p.log) + log && (ok ==> DealtWith(txs, calls, old(p.progress), tasks, log))
    ensures FatedCall(c, s, w, b, t, Fetched(OtherData, EventsIn(log)), FatesIn(log), ok)
  {
    ghost var start, skip := p.Value(), p.progress;
    ghost var order;
    ok, order := p.ProcessBlock(txs, calls, batchSize, tasks, clearOk);
    log := EvmBlock.LogOf(calls, tasks, order);
    if ok { AllDealtWith(start, txs, calls, batchSize, skip, tasks, order); }
    FatedCallEnds(c, s, w, b, t, Fetched(OtherData, EventsIn(log)), FatesIn(log), ok);
  }

  /** The call of worker `w` with these fates, in whatever interleaving: at the mark when finished. */
  ghost predicate FatedCall(c: Config, s: State, w: nat, b: nat, t: nat, f: Fetched, fates: seq<Answer>, ok: bool) {
    forall others :: NoRestart(others) && Own(others, w) == Answers(w, fates) ==>
      Ended(s, Run(c, s, CallSteps(w, f, others, if ok then Returns else GivesUp)), w, b,
        Attempt(b, s.trueTip, t, f, fates), ok)
  }

  lemma FatedCallEnds(c: Config, s: State, w: nat, b: nat, t: nat, f: Fetched, fates: seq<Answer>, ok: bool)
    requires Inv(c, s) && w < |s.workers| && s.workers[w] == Ready(b, t)
    requires c.chain.EvmChain? && |fates| == |f.events|
    ensures FatedCall(c, s, w, b, t, f, fates, ok)
  {
    var end := if ok then Returns else GivesUp;
    forall others | NoRestart(others) && Own(others, w) == Answers(w, fates)
      ensures Ended(s, Run(c, s, CallSteps(w, f, others, end)), w, b, Attempt(b, s.trueTip, t, f, fates), ok)
    {
      CallEnds(c, s, w, b, t, f, others, fates, end);
      assert fates + [] == fates;
    }
  }

  lemma AllDealtWith(start: EvmBlock.Round, txs: seq<EvmBlock.Hash>, calls: EvmBlock.Calls, size: nat,
                     skip: set<EvmBlock.Hash>, tasks: EvmBlock.Tasks, order: seq<nat>)
    requires size > 0 && EvmBlock.Attempt(start, txs, 0, size, skip, tasks).1
    requires EvmBlock.Orders(order, EvmBlock.Reached(txs, 0, size, skip, tasks))
    ensures DealtWith(txs, calls, skip, tasks, EvmBlock.LogOf(calls, tasks, order))
  {
    EvmBlock.FinishedReachesAll(start, txs, 0, size, skip, tasks);
    forall p, i | 0 <= p < |txs| && txs[p] !in skip && 0 <= i < |calls(p)|
      ensures EvmBlock.Entry(calls(p)[i], EvmBlock.Fate(tasks(p), i)) in EvmBlock.LogOf(calls, tasks, order)
    {
      assert p in EvmBlock.Todo(txs, 0, |txs|, skip);
      EvmBlock.InLog(calls, tasks, order, p, i);
    }
  }

  lemma OwnSnoc(steps: seq<Step>, st: Step, w: nat)
    requires IsOwn(st, w)
    ensures Own(steps + [st], w) == Own(steps, w) + [st]
  {
    assert (steps + [st])[..|steps|] == steps;
  }

  /** There are such interleavings: the worker's own answers alone are one. */
  lemma {:induction false} OwnAnswers(w: nat, answers: seq<Answer>)
    ensures Own(Answers(w, answers), w) == Answers(w, answers)
    decreases |answers|
  {
    if answers != [] {
      var m := |answers| - 1;
      var front, st := Answers(w, answers[..m]), Publish(w, answers[m]);
      OwnAnswers(w, answers[..m]);
      assert Answers(w, answers) == front + [st];
      OwnSnoc(front, st, w);
    }
  }

  /** So `CallAppears` and `FatedCall` speak of something. */
  lemma SomeInterleaving(w: nat, answers: seq<Answer>)
    ensures exists others :: NoRestart(others) && Own(others, w) == Answers(w, answers)
  {
    OwnAnswers(w, answers);
    assert NoRestart(Answers(w, answers));
  }
}
