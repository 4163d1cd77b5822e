/** The invariant of the block-progress protocol, kept by every step of every process.

    The proof is in rely-guarantee style: `WorkerOk` is what one process knows about the shared state,
    `Rely` is what a step of any other process may do to it, and each step lemma shows that its
    process re-establishes its own part and stays within `Rely`. */
module TrackerSafety {
  import opened Common
  import opened Chains
  import opened Tracker

  // ----- what each part of the state guarantees ---------------------------------------------------

  /** Every block above the start point and up to `n` has been marked at some time. */
  ghost predicate Covered(h: History, n: nat) {
    forall b :: h.base < b <= n ==> b in h.marks
  }

  ghost predicate AdvanceOk(h: History, a: Advance) {
    match a
    case ReadMark => true
    case Walk(last, advanced) => last <= advanced && Covered(h, advanced)
    case SetRead(n) => n > 0 && Covered(h, n)
    case SetWrite(n) => n > 0 && Covered(h, n)
  }

  predicate AllTaken(a: Attempt) {
    forall i :: 0 <= i < |a.answers| ==> a.answers[i].Taken?
  }

  /** A ProcessBlock call on `b`, begun when `b` was deep enough. */
  ghost predicate AttemptOk(c: Config, maxTip: nat, a: Attempt, b: nat) {
    && a.block == b
    && b + c.confirmations <= a.seenTip <= a.tipAtStart
    && a.seenTip <= maxTip
    && |a.answers| <= |a.fetched.events|
    && Derives(c.chain, a.fetched)
    && (Strict(c.chain) ==> AllTaken(a))
  }

  ghost predicate Complete(c: Config, maxTip: nat, a: Attempt, b: nat) {
    AttemptOk(c, maxTip, a, b) && !Unanswered(a)
  }

  ghost predicate WorkerOk(c: Config, s: State, p: Worker) {
    match p
    case Idle => true
    case Picked(_) => true
    case Claimed(_) => true
    case AwaitTip(b) => b !in s.bits
    case Ready(b, t) => b !in s.bits && b + c.confirmations <= t <= s.h.maxTip <= s.trueTip
    case Publishing(b, k) =>
      b !in s.bits && k < |s.h.attempts| && AttemptOk(c, s.h.maxTip, s.h.attempts[k], b)
    case Marking(b, k) =>
      b !in s.bits && k < |s.h.attempts| && Complete(c, s.h.maxTip, s.h.attempts[k], b)
    case Expiring(b) => s.h.counted[b] < s.h.marks[b]
    case Advancing(owned, adv) =>
      AdvanceOk(s.h, adv) && (owned.Some? ==> s.h.counted[owned.value] < s.h.marks[owned.value])
  }

  /** A scan from `last` sent the heights after it, none beyond the last scannable one. */
  ghost predicate SentOk(c: Config, tip: nat, last: nat, sent: seq<nat>) {
    && (forall i :: 0 <= i < |sent| ==> sent[i] == last + 1 + i)
    && (sent != [] ==> last + |sent| <= ScanHead(c, tip))
  }

  ghost predicate PollOk(c: Config, h: History, p: Poll) {
    match p
    case PollIdle => true
    case PollRead(_) => true
    case PollForce(_, last, r) => r < last && Covered(h, last)
    case PollScan(tip, last, next, sent) => Covered(h, last) && next == last + 1 + |sent| && SentOk(c, tip, last, sent)
  }

  ghost predicate CatchOk(h: History, p: Catchup) {
    && (p.CatchForce? ==> p.resetTo < p.last && Covered(h, p.last))
    && ((p.FirstRead? || p.FirstWrite?) && !p.byError ==> h.zeroInstalls <= h.zeroWrites)
    && h.errorInstalls + (if (p.FirstRead? || p.FirstWrite?) && p.byError then 1 else 0) <= h.readErrors
  }

  ghost predicate PassOk(c: Config, h: History, p: Pass) {
    && Covered(h, p.last)
    && SentOk(c, p.tip, p.last, p.sent)
    && (!p.refused ==> p.last + |p.sent| >= ScanHead(c, p.tip))
  }

  ghost predicate TipOk(tipCache: nat, pendingTips: set<nat>, maxTip: nat, trueTip: nat) {
    && tipCache <= maxTip <= trueTip
    && (forall t :: t in pendingTips ==> t <= maxTip)
  }

  /** Each marked block has a complete attempt behind it. */
  ghost predicate DeliveryOk(c: Config, h: History) {
    forall b :: b in h.marks ==>
      && b in h.delivered
      && h.delivered[b] < |h.attempts|
      && Complete(c, h.maxTip, h.attempts[h.delivered[b]], b)
  }

  /** Only complete attempts ever led to a mark. */
  ghost predicate MarkersOk(c: Config, h: History) {
    forall k :: k in h.markers ==> k < |h.attempts| && Complete(c, h.maxTip, h.attempts[k], h.attempts[k].block)
  }

  /** Each mark is either still in the bitmap or was lost with its window, so a block is marked again
      only after its bit expired; the counter never runs ahead of the marks. */
  ghost predicate CountOk(bits: set<nat>, processed: nat, h: History) {
    && h.marks == h.expired + multiset(bits)
    && h.counted <= h.marks
    && |h.counted| == processed
  }

  ghost predicate MarkOk(hwm: nat, h: History) {
    && Covered(h, hwm)
    && h.zeroInstalls <= 1 + h.zeroWrites
    && (hwm == 0 ==> h.zeroInstalls <= h.zeroWrites)
  }

  /** The in-flight set is exactly what the workers hold, each block by one worker. */
  ghost predicate Exclusive(workers: seq<Worker>, inFlight: set<nat>) {
    && (forall i :: 0 <= i < |workers| && Holds(workers[i]).Some? ==> Holds(workers[i]).value in inFlight)
    && (forall i, j :: 0 <= i < j < |workers| && Holds(workers[i]).Some? ==> Holds(workers[i]) != Holds(workers[j]))
    && (forall b :: b in inFlight ==> exists i :: 0 <= i < |workers| && Holds(workers[i]) == Some(b))
  }

  ghost predicate SharedOk(c: Config, s: State) {
    && MarkOk(s.hwm, s.h)
    && CountOk(s.bits, s.processed, s.h)
    && DeliveryOk(c, s.h)
    && MarkersOk(c, s.h)
    && TipOk(s.tipCache, s.pendingTips, s.h.maxTip, s.trueTip)
    && PollOk(c, s.h, s.poll)
    && CatchOk(s.h, s.catch)
    && (s.lastPass.Some? ==> PassOk(c, s.h, s.lastPass.value))
  }

  ghost predicate Inv(c: Config, s: State) {
    && SharedOk(c, s)
    && Exclusive(s.workers, s.inFlight)
    && |s.workers| == c.workers
    && forall i :: 0 <= i < |s.workers| ==> WorkerOk(c, s, s.workers[i])
  }

  // ----- interference -----------------------------------------------------------------------------

  /** What a process holding `own` may do to the state the other workers depend on. */
  ghost predicate Rely(s: State, s': State, own: Option<nat>) {
    && s.h.base <= s'.h.base
    && s.h.marks <= s'.h.marks
    && s.trueTip <= s'.trueTip
    && s.h.maxTip <= s'.h.maxTip <= s'.trueTip
    && (forall b :: b in s'.bits && b !in s.bits ==> own == Some(b))
    && (forall b :: own != Some(b) ==> s'.h.counted[b] <= s.h.counted[b])
    && |s.h.attempts| <= |s'.h.attempts|
    && (forall k :: 0 <= k < |s.h.attempts| && own != Some(s.h.attempts[k].block) ==>
          s'.h.attempts[k] == s.h.attempts[k])
  }

  lemma CoveredGrows(h: History, h': History, n: nat)
    requires Covered(h, n) && h.base <= h'.base && h.marks <= h'.marks
    ensures Covered(h', n)
  {
  }

  lemma CoveredNext(h: History, n: nat)
    requires Covered(h, n) && n + 1 in h.marks
    ensures Covered(h, n + 1)
  {
  }

  lemma WorkerOkStable(c: Config, s: State, s': State, own: Option<nat>, p: Worker)
    requires WorkerOk(c, s, p) && Rely(s, s', own)
    requires Holds(p).Some? ==> Holds(p) != own
    ensures WorkerOk(c, s', p)
  {
    if p.Advancing? && p.adv.Walk? { CoveredGrows(s.h, s'.h, p.adv.advanced); }
    if p.Advancing? && (p.adv.SetRead? || p.adv.SetWrite?) { CoveredGrows(s.h, s'.h, p.adv.target); }
  }

  /** A step of worker `w` that keeps to `Rely` keeps the invariant if its own parts hold again. */
  lemma WorkerStepKeeps(c: Config, s: State, s': State, w: nat, p: Worker)
    requires Inv(c, s) && w < |s.workers|
    requires s'.workers == s.workers[w := p]
    requires Rely(s, s', Holds(s.workers[w]))
    requires SharedOk(c, s') && WorkerOk(c, s', p)
    requires Exclusive(s'.workers, s'.inFlight)
    ensures Inv(c, s')
  {
    forall i | 0 <= i < |s'.workers| && i != w ensures WorkerOk(c, s', s'.workers[i]) {
      WorkerOkStable(c, s, s', Holds(s.workers[w]), s.workers[i]);
    }
  }

  /** A step of the poller, the catch-up or the environment. */
  lemma OtherStepKeeps(c: Config, s: State, s': State)
    requires Inv(c, s)
    requires s'.workers == s.workers && s'.inFlight == s.inFlight
    requires Rely(s, s', None)
    requires SharedOk(c, s')
    ensures Inv(c, s')
  {
    forall i | 0 <= i < |s'.workers| ensures WorkerOk(c, s', s'.workers[i]) {
      WorkerOkStable(c, s, s', None, s.workers[i]);
    }
  }

  /** A step that touches only queues, timers, the poller, the catch-up or the heights. */
  lemma QuietStepKeeps(c: Config, s: State, s': State)
    requires Inv(c, s)
    requires s'.workers == s.workers && s'.inFlight == s.inFlight && s'.h == s.h
    requires s'.hwm == s.hwm && s'.bits == s.bits && s'.processed == s.processed
    requires s'.trueTip >= s.trueTip && TipOk(s'.tipCache, s'.pendingTips, s'.h.maxTip, s'.trueTip)
    requires PollOk(c, s.h, s'.poll) && CatchOk(s.h, s'.catch)
    requires s'.lastPass.Some? ==> PassOk(c, s.h, s'.lastPass.value)
    ensures Inv(c, s')
  {
    OtherStepKeeps(c, s, s');
  }

  lemma ExclusiveSame(workers: seq<Worker>, inFlight: set<nat>, w: nat, p: Worker)
    requires Exclusive(workers, inFlight) && w < |workers| && Holds(p) == Holds(workers[w])
    ensures Exclusive(workers[w := p], inFlight)
  {
    var after := workers[w := p];
    forall b | b in inFlight ensures exists i :: 0 <= i < |after| && Holds(after[i]) == Some(b) {
      var i :| 0 <= i < |workers| && Holds(workers[i]) == Some(b);
      assert Holds(after[i]) == Some(b);
    }
  }

  lemma ExclusiveReleased(workers: seq<Worker>, inFlight: set<nat>, w: nat, p: Worker, b: nat)
    requires Exclusive(workers, inFlight) && w < |workers|
    requires Holds(workers[w]) == Some(b) && Holds(p) == None
    ensures Exclusive(workers[w := p], inFlight - {b})
  {
    var after := workers[w := p];
    forall i | 0 <= i < |after| && Holds(after[i]).Some? ensures Holds(after[i]).value in inFlight - {b} {
      assert i != w && Holds(workers[i]) != Holds(workers[w]);
    }
    forall x | x in inFlight - {b} ensures exists i :: 0 <= i < |after| && Holds(after[i]) == Some(x) {
      var i :| 0 <= i < |workers| && Holds(workers[i]) == Some(x);
      assert Holds(after[i]) == Some(x);
    }
  }

  lemma ExclusiveClaimed(workers: seq<Worker>, inFlight: set<nat>, w: nat, p: Worker, b: nat)
    requires Exclusive(workers, inFlight) && w < |workers|
    requires Holds(workers[w]) == None && Holds(p) == Some(b) && b !in inFlight
    ensures Exclusive(workers[w := p], inFlight + {b})
  {
    var after := workers[w := p];
    forall x | x in inFlight + {b} ensures exists i :: 0 <= i < |after| && Holds(after[i]) == Some(x) {
      if x == b {
        assert Holds(after[w]) == Some(x);
      } else {
        var i :| 0 <= i < |workers| && Holds(workers[i]) == Some(x);
        assert Holds(after[i]) == Some(x);
      }
    }
  }
}
