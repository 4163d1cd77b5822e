/** The block-progress protocol of `BaseTracker` over one network, as a step machine.

    Every Redis command, RPC reply, publisher reply and queue operation is one step, so every
    interleaving of the workers, the poller, the initial catch-up and the environment is a sequence
    of steps. `Do` is total: a step that is not enabled leaves the state alone. */
module Tracker {
  import opened Common
  import opened Chains
  import Progress
  import Scan

  const WINDOW: nat := Progress.WINDOW             // blocks per bitmap window
  const ADVANCE_GUARD: nat := Progress.STRIDE - 1  // a walk more than this far ahead ends
  const NEAR_TIP: nat := 10        // initial catch-up leaves this many blocks to polling

  datatype Config = Config(
    confirmations: nat,
    workers: nat,           // realtime workers come first
    realtimeWorkers: nat,
    realtimeCap: nat,
    catchupCap: nat,
    chain: Chain)

  /** Position inside `AdvanceHighWaterMark`, split at each Redis command. */
  datatype Advance =
    | ReadMark
    | Walk(last: nat, advanced: nat)
    | SetRead(target: nat)
    | SetWrite(target: nat)

  /** Program counter of one worker. */
  datatype Worker =
    | Idle
    | Picked(block: nat)                      // taken off a queue
    | Claimed(block: nat)                     // in the in-flight set; next GETBIT
    | AwaitTip(block: nat)                    // bit was clear; next the chain height
    | Ready(block: nat, tip: nat)             // deep enough; next ProcessBlock
    | Publishing(block: nat, attempt: nat)    // inside ProcessBlock
    | Marking(block: nat, attempt: nat)       // ProcessBlock returned true; next SETBIT
    | Expiring(block: nat)                    // bit set; next EXPIRE
    | Advancing(owned: Option<nat>, adv: Advance)

  datatype Poll =
    | PollIdle
    | PollRead(tip: nat)
    | PollForce(tip: nat, last: nat, resetTo: nat)
    | PollScan(tip: nat, last: nat, next: nat, sent: seq<nat>)

  datatype Catchup =
    | CatchTip
    | CatchRead(tip: nat)
    | CatchForce(tip: nat, last: nat, resetTo: nat)
    | FirstRead(tip: nat, byError: bool)
    | FirstWrite(tip: nat, byError: bool)
    | CatchScan(tip: nat, last: nat, next: nat)
    | CatchDone

  /** One call of ProcessBlock: what it fetched and what became of each event so far. */
  datatype Attempt = Attempt(
    block: nat,
    tipAtStart: nat,   // height of the chain itself when the call began
    seenTip: nat,      // height the worker had been told
    fetched: Fetched,
    answers: seq<Answer>)

  /** One finished polling pass. */
  datatype Pass = Pass(tip: nat, last: nat, sent: seq<nat>, refused: bool)

  /** What has happened so far; no step reads it. */
  datatype History = History(
    base: nat,                 // largest start point ever installed
    marks: multiset<nat>,      // bits set, with repetition
    expired: multiset<nat>,    // bits lost when their window expired, with repetition
    counted: multiset<nat>,    // blocks counted in processedBlocks
    attempts: seq<Attempt>,
    delivered: map<nat, nat>,  // block -> the attempt that led to its latest mark
    markers: set<nat>,         // attempts that ever led to a mark
    maxTip: nat,               // largest height ever observed
    readErrors: nat,           // failed reads of the mark by initial catch-up
    zeroWrites: nat,           // times the mark was set to 0
    errorInstalls: nat,        // start points installed after a failed read
    zeroInstalls: nat)         // start points installed after reading 0

  datatype State = State(
    // Redis
    hwm: nat,                  // last_processed_blocks, 0 when missing
    bits: set<nat>,            // the processed-block bitmap
    tipCache: nat,             // cached height, 0 when missing
    // chain and providers
    trueTip: nat,
    pendingTips: set<nat>,     // fetched heights not yet written to the cache
    // process memory
    workers: seq<Worker>,
    inFlight: set<nat>,
    realtime: seq<nat>,
    catchup: seq<nat>,
    timers: multiset<nat>,     // delayed requeues
    poll: Poll,
    catch: Catchup,
    processed: nat,
    lastPass: Option<Pass>,
    h: History)

  datatype TipReply = FromCache | FromRpc(height: nat) | TipError

  datatype Step =
    | Dequeue(w: nat)
    | Claim(w: nat)
    | CheckBit(w: nat, ok: bool)
    | SeeTip(w: nat, tipReply: TipReply)
    | Fetch(w: nat, fetched: Option<Fetched>)
    | Publish(w: nat, answer: Answer)
    | Finish(w: nat)
    | Abandon(w: nat)
    | SetBit(w: nat, reply: Reply)
    | ExpireKey(w: nat, ok: bool)
    | AdvanceStep(w: nat, reply: Reply)
    | PollTip(tipReply: TipReply)
    | PollReadMark(ok: bool)
    | PollForceMark(reply: Reply)
    | PollEnqueue(ok: bool)          // not ok: the tracker is stopping
    | CatchSeeTip(tipReply: TipReply)
    | CatchReadMark(ok: bool)
    | CatchForceMark(reply: Reply)
    | CatchFirst(reply: Reply)
    | CatchEnqueue(ok: bool)
    | Grow(height: nat)
    | FlushTip(height: nat)
    | EvictTip
    | ExpireWindow(window: nat)
    | Notify(block: nat)
    | TimerFire(block: nat)
    | Restart(crash: bool)

  function Max(a: nat, b: nat): nat {
    if a < b then b else a
  }

  /** The block a worker holds in the in-flight set. */
  function Holds(p: Worker): Option<nat> {
    match p
    case Claimed(b) => Some(b)
    case AwaitTip(b) => Some(b)
    case Ready(b, _) => Some(b)
    case Publishing(b, _) => Some(b)
    case Marking(b, _) => Some(b)
    case Expiring(b) => Some(b)
    case Advancing(owned, _) => owned
    case _ => None
  }

  /** Last height a scan may enqueue: a chain not longer than the depth is scanned whole. */
  function ScanHead(c: Config, tip: nat): nat {
    Scan.SafeHead(tip, c.confirmations)
  }

  /** The value the mark is reset to when it lies beyond what the height allows. */
  function ResetTo(c: Config, tip: nat, last: nat): Option<nat> {
    var safe := if tip > c.confirmations then tip - c.confirmations else 0;
    if safe > 0 && last > safe then Some(safe)
    else if last > tip then Some(tip)
    else None
  }

  // ----- chain height ---------------------------------------------------------------------------

  function Observed(s: State, r: TipReply): Option<nat> {
    match r
    case FromCache => if s.tipCache > 0 then Some(s.tipCache) else None
    case FromRpc(t) => if t <= s.trueTip then Some(t) else None
    case TipError => None
  }

  function NoteTip(s: State, r: TipReply, t: nat): State {
    s.(h := s.h.(maxTip := Max(s.h.maxTip, t)),
       pendingTips := if r.FromRpc? then s.pendingTips + {t} else s.pendingTips)
  }

  // ----- workers --------------------------------------------------------------------------------

  function Goto(s: State, w: nat, p: Worker): State
    requires w < |s.workers|
  {
    s.(workers := s.workers[w := p])
  }

  function Release(s: State, w: nat, b: nat): State
    requires w < |s.workers|
  {
    s.(workers := s.workers[w := Idle], inFlight := s.inFlight - {b})
  }

  function DoDequeue(c: Config, s: State, w: nat): State
    requires w < |s.workers|
  {
    if w < c.realtimeWorkers then
      if s.realtime == [] then s else Goto(s.(realtime := s.realtime[1..]), w, Picked(s.realtime[0]))
    else
      if s.catchup == [] then s else Goto(s.(catchup := s.catchup[1..]), w, Picked(s.catchup[0]))
  }

  function DoClaim(s: State, w: nat, b: nat): State
    requires w < |s.workers|
  {
    if b in s.inFlight then Goto(s, w, Idle)
    else Goto(s.(inFlight := s.inFlight + {b}), w, Claimed(b))
  }

  function DoCheckBit(s: State, w: nat, b: nat, ok: bool): State
    requires w < |s.workers|
  {
    if !ok then Release(s, w, b)
    else if b in s.bits then Goto(s.(inFlight := s.inFlight - {b}), w, Advancing(None, ReadMark))
    else Goto(s, w, AwaitTip(b))
  }

  function DoSeeTip(c: Config, s: State, w: nat, b: nat, r: TipReply): State
    requires w < |s.workers|
  {
    match Observed(s, r)
    case None => Release(s, w, b)
    case Some(t) =>
      var s1 := NoteTip(s, r, t);
      if t < b || t - b < c.confirmations then Release(s1.(timers := s1.timers + multiset{b}), w, b)
      else Goto(s1, w, Ready(b, t))
  }

  /** The block is fetched, and what it calls for is determined. */
  ghost function DoFetch(c: Config, s: State, w: nat, b: nat, tip: nat, fetched: Option<Fetched>): State
    requires w < |s.workers|
  {
    match fetched
    case None => Release(s, w, b)
    case Some(f) =>
      if !Derives(c.chain, f) then s else
        var a := Attempt(b, s.trueTip, tip, f, []);
        Goto(s.(h := s.h.(attempts := s.h.attempts + [a])), w, Publishing(b, |s.h.attempts|))
  }

  predicate Unanswered(a: Attempt) {
    |a.answers| < |a.fetched.events|
  }

  function Answered(s: State, k: nat, answer: Answer): State
    requires k < |s.h.attempts|
  {
    var a := s.h.attempts[k];
    s.(h := s.h.(attempts := s.h.attempts[k := a.(answers := a.answers + [answer])]))
  }

  function DoPublish(c: Config, s: State, w: nat, b: nat, k: nat, answer: Answer): State
    requires w < |s.workers| && k < |s.h.attempts|
  {
    if !Unanswered(s.h.attempts[k]) then s
    else if Strict(c.chain) && !answer.Taken? then Release(Answered(s, k, answer), w, b)
    else Answered(s, k, answer)
  }

  function DoFinish(s: State, w: nat, b: nat, k: nat): State
    requires w < |s.workers| && k < |s.h.attempts|
  {
    if Unanswered(s.h.attempts[k]) then s else Goto(s, w, Marking(b, k))
  }

  function DoSetBit(s: State, w: nat, b: nat, k: nat, r: Reply): State
    requires w < |s.workers|
  {
    var s1 := if r.Refused? then s else
      s.(bits := s.bits + {b},
         h := s.h.(marks := s.h.marks + multiset{b}, delivered := s.h.delivered[b := k],
                   markers := s.h.markers + {k}));
    if r.Done? then Goto(s1, w, Expiring(b)) else Release(s1, w, b)
  }

  /** `AdvanceHighWaterMark` has returned, with or without an error: the owner counts the block. */
  function Advanced(s: State, w: nat, owned: Option<nat>): State
    requires w < |s.workers|
  {
    match owned
    case None => Goto(s, w, Idle)
    case Some(b) =>
      Release(s.(processed := s.processed + 1, h := s.h.(counted := s.h.counted + multiset{b})), w, b)
  }

  function DoAdvance(s: State, w: nat, owned: Option<nat>, adv: Advance, r: Reply): State
    requires w < |s.workers|
  {
    match adv
    case ReadMark =>
      if r.Done? then Goto(s, w, Advancing(owned, Walk(s.hwm, s.hwm))) else Advanced(s, w, owned)
    case Walk(last, a) =>
      if !r.Done? then Advanced(s, w, owned)
      else if a + 1 in s.bits then
        if a + 1 > last + ADVANCE_GUARD then Goto(s, w, Advancing(owned, SetRead(a + 1)))
        else Goto(s, w, Advancing(owned, Walk(last, a + 1)))
      else if a > last then Goto(s, w, Advancing(owned, SetRead(a)))
      else Advanced(s, w, owned)
    case SetRead(n) =>
      if !r.Done? || n < s.hwm then Advanced(s, w, owned)
      else Goto(s, w, Advancing(owned, SetWrite(n)))
    case SetWrite(n) =>
      Advanced(if r.Refused? then s else s.(hwm := n), w, owned)
  }

  // ----- polling --------------------------------------------------------------------------------

  function StartPoll(s: State, tip: nat, last: nat): State {
    s.(poll := if last == 0 && tip == 0 then PollIdle else PollScan(tip, last, last + 1, []))
  }

  /** ForceSetLastProcessedBlock. */
  function Force(s: State, resetTo: nat, r: Reply): State {
    if r.Refused? then s else
      s.(hwm := resetTo,
         h := s.h.(zeroWrites := s.h.zeroWrites + if resetTo == 0 then 1 else 0))
  }

  function DoPollReadMark(c: Config, s: State, tip: nat, ok: bool): State {
    if !ok then StartPoll(s, tip, 0) else
      match ResetTo(c, tip, s.hwm)
      case Some(r) => s.(poll := PollForce(tip, s.hwm, r))
      case None => StartPoll(s, tip, s.hwm)
  }

  function DoPollEnqueue(c: Config, s: State, p: Poll, ok: bool): State
    requires p.PollScan?
  {
    if p.next > p.tip || p.next > ScanHead(c, p.tip) then
      s.(poll := PollIdle, lastPass := Some(Pass(p.tip, p.last, p.sent, false)))
    else if ok && |s.realtime| < c.realtimeCap then
      s.(realtime := s.realtime + [p.next], poll := p.(next := p.next + 1, sent := p.sent + [p.next]))
    else
      s.(poll := PollIdle, lastPass := Some(Pass(p.tip, p.last, p.sent, true)))
  }

  // ----- initial catch-up -----------------------------------------------------------------------

  function AfterNormalize(s: State, tip: nat, last: nat): State {
    s.(catch :=
      if last == 0 then FirstRead(tip, false)
      else if last >= tip || tip - last <= NEAR_TIP then CatchDone
      else CatchScan(tip, last, last + 1))
  }

  function DoCatchReadMark(c: Config, s: State, tip: nat, ok: bool): State {
    if !ok then s.(catch := FirstRead(tip, true), h := s.h.(readErrors := s.h.readErrors + 1)) else
      match ResetTo(c, tip, s.hwm)
      case Some(r) => s.(catch := CatchForce(tip, s.hwm, r))
      case None => AfterNormalize(s, tip, s.hwm)
  }

  /** The first-run branch: SetLastProcessedBlock(currentBlock), a read and then a write. */
  function DoCatchFirst(s: State, p: Catchup, r: Reply): State
    requires p.FirstRead? || p.FirstWrite?
  {
    if p.FirstRead? then
      s.(catch := if r.Done? && p.tip >= s.hwm then FirstWrite(p.tip, p.byError) else CatchDone)
    else if r.Refused? then s.(catch := CatchDone)
    else
      var n := if p.tip > 0 then 1 else 0;
      s.(catch := CatchDone, hwm := p.tip,
         h := s.h.(base := Max(s.h.base, p.tip),
                   zeroWrites := s.h.zeroWrites + 1 - n,
                   errorInstalls := s.h.errorInstalls + if p.byError then n else 0,
                   zeroInstalls := s.h.zeroInstalls + if p.byError then 0 else n))
  }

  function DoCatchEnqueue(c: Config, s: State, p: Catchup, ok: bool): State
    requires p.CatchScan?
  {
    if p.next > ScanHead(c, p.tip) || !ok || |s.catchup| >= c.catchupCap then s.(catch := CatchDone)
    else s.(catchup := s.catchup + [p.next], catch := p.(next := p.next + 1))
  }

  // ----- environment ----------------------------------------------------------------------------

  function Enqueue(c: Config, s: State, b: nat): State {
    if |s.realtime| < c.realtimeCap then s.(realtime := s.realtime + [b]) else s
  }

  /** The process stops and starts again; Redis keeps its contents, a crash also loses the counter. */
  function DoRestart(c: Config, s: State, crash: bool): State {
    s.(workers := seq(c.workers, _ => Idle), inFlight := {}, realtime := [], catchup := [],
       timers := multiset{}, poll := PollIdle, catch := CatchTip, pendingTips := {}, lastPass := None,
       processed := if crash then 0 else s.processed,
       h := if crash then s.h.(counted := multiset{}) else s.h)
  }

  predicate IsWorkerStep(st: Step) {
    st.Dequeue? || st.Claim? || st.CheckBit? || st.SeeTip? || st.Fetch? || st.Publish? ||
    st.Finish? || st.Abandon? || st.SetBit? || st.ExpireKey? || st.AdvanceStep?
  }

  ghost function DoWorker(c: Config, s: State, st: Step): State
    requires IsWorkerStep(st)
  {
    if st.w >= |s.workers| then s else
      match (st, s.workers[st.w])
      case (Dequeue(w), Idle) => DoDequeue(c, s, w)
      case (Claim(w), Picked(b)) => DoClaim(s, w, b)
      case (CheckBit(w, ok), Claimed(b)) => DoCheckBit(s, w, b, ok)
      case (SeeTip(w, r), AwaitTip(b)) => DoSeeTip(c, s, w, b, r)
      case (Fetch(w, fetched), Ready(b, tip)) => DoFetch(c, s, w, b, tip, fetched)
      case (Publish(w, answer), Publishing(b, k)) =>
        if k < |s.h.attempts| then DoPublish(c, s, w, b, k, answer) else s
      case (Finish(w), Publishing(b, k)) => if k < |s.h.attempts| then DoFinish(s, w, b, k) else s
      case (Abandon(w), Publishing(b, _)) => Release(s, w, b)
      case (SetBit(w, r), Marking(b, k)) => DoSetBit(s, w, b, k, r)
      case (ExpireKey(w, ok), Expiring(b)) =>
        if ok then Goto(s, w, Advancing(Some(b), ReadMark)) else Release(s, w, b)
      case (AdvanceStep(w, r), Advancing(owned, adv)) => DoAdvance(s, w, owned, adv, r)
      case _ => s
  }

  /** One step. */
  ghost function Do(c: Config, s: State, st: Step): State {
    match st
    case PollTip(r) =>
      var t := Observed(s, r);
      if s.poll.PollIdle? && t.Some? then NoteTip(s, r, t.value).(poll := PollRead(t.value)) else s
    case PollReadMark(ok) => if s.poll.PollRead? then DoPollReadMark(c, s, s.poll.tip, ok) else s
    case PollForceMark(r) =>
      if !s.poll.PollForce? then s else
        StartPoll(Force(s, s.poll.resetTo, r), s.poll.tip, if r.Done? then s.poll.resetTo else s.poll.last)
    case PollEnqueue(ok) => if s.poll.PollScan? then DoPollEnqueue(c, s, s.poll, ok) else s
    case CatchSeeTip(r) =>
      var t := Observed(s, r);
      if !s.catch.CatchTip? then s
      else if t.Some? then NoteTip(s, r, t.value).(catch := CatchRead(t.value))
      else s.(catch := CatchDone)
    case CatchReadMark(ok) => if s.catch.CatchRead? then DoCatchReadMark(c, s, s.catch.tip, ok) else s
    case CatchForceMark(r) =>
      if !s.catch.CatchForce? then s else
        AfterNormalize(Force(s, s.catch.resetTo, r), s.catch.tip, if r.Done? then s.catch.resetTo else s.catch.last)
    case CatchFirst(r) => if s.catch.FirstRead? || s.catch.FirstWrite? then DoCatchFirst(s, s.catch, r) else s
    case CatchEnqueue(ok) => if s.catch.CatchScan? then DoCatchEnqueue(c, s, s.catch, ok) else s
    case Grow(t) => s.(trueTip := Max(s.trueTip, t))
    case FlushTip(t) => if t in s.pendingTips then s.(tipCache := t, pendingTips := s.pendingTips - {t}) else s
    case EvictTip => s.(tipCache := 0)
    case ExpireWindow(k) =>
      var gone := set b | b in s.bits && b / WINDOW == k;
      s.(bits := s.bits - gone, h := s.h.(expired := s.h.expired + multiset(gone)))
    case Notify(b) => Enqueue(c, s, b)
    case TimerFire(b) =>
      if b in s.timers then Enqueue(c, s.(timers := s.timers - multiset{b}), b) else s
    case Restart(crash) => DoRestart(c, s, crash)
    case _ => DoWorker(c, s, st)
  }

  ghost function Run(c: Config, s: State, steps: seq<Step>): State
    decreases |steps|
  {
    if steps == [] then s
    else Do(c, Run(c, s, steps[..|steps| - 1]), steps[|steps| - 1])
  }

  /** A tracker starting on a Redis that holds some mark and no processed-block bits. */
  predicate Init(c: Config, s: State) {
    && s == DoRestart(c, s, true)
    && s.bits == {} && s.tipCache == 0
    && s.h == History(s.hwm, multiset{}, multiset{}, multiset{}, [], map[], {}, 0, 0, 0, 0, 0)
  }
}
