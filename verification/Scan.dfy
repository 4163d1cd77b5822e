/** The two loops that feed blocks to the queues: the plain loop of a polling pass and the batched
    loop of initial catch-up. `accepts(k)` says whether the k-th enqueue of the pass succeeds. */
module Scan {

  /** Last height that has enough confirmations; a chain not longer than that is scanned whole. */
  function SafeHead(tip: nat, confirmations: nat): nat {
    if tip > confirmations then tip - confirmations else tip
  }

  /** The heights from `from` to `upTo`, each once, in order. */
  function Ascending(from: nat, upTo: nat): (s: seq<nat>)
    ensures |s| == if from <= upTo then upTo + 1 - from else 0
    ensures forall i :: 0 <= i < |s| ==> s[i] == from + i
    decreases upTo + 1 - from
  {
    if from > upTo then [] else [from] + Ascending(from + 1, upTo)
  }

  /** Reference: how many of `n` enqueues succeed before the first refusal, counting from the k-th. */
  function AcceptedRun(accepts: nat -> bool, k: nat, n: nat): (m: nat)
    ensures m <= n
    ensures forall i :: k <= i < k + m ==> accepts(i)
    ensures m < n ==> !accepts(k + m)
    decreases n
  {
    if n == 0 || !accepts(k) then 0 else 1 + AcceptedRun(accepts, k + 1, n - 1)
  }

  /** What a scan from `from` to `head` enqueues: the ascending heights up to the first refusal. */
  function Enqueued(from: nat, head: nat, accepts: nat -> bool): (s: seq<nat>) {
    var all := Ascending(from, head);
    all[..AcceptedRun(accepts, 0, |all|)]
  }

  /** The m-th enqueue decides whether a scan that has sent `m` blocks goes on. */
  lemma EnqueuedIs(from: nat, head: nat, accepts: nat -> bool, sent: seq<nat>)
    requires sent <= Ascending(from, head)
    requires forall i :: 0 <= i < |sent| ==> accepts(i)
    requires |sent| == |Ascending(from, head)| || !accepts(|sent|)
    ensures sent == Enqueued(from, head, accepts)
  {
  }

  /** Height `b` is above the mark and up to the tip, and on a chain longer than the depth it has its
      confirmations. */
  predicate Due(last: nat, tip: nat, confirmations: nat, b: nat) {
    last < b <= tip && (tip > confirmations ==> b + confirmations <= tip)
  }

  /** Nothing else was sent. */
  ghost predicate OnlyDue(last: nat, tip: nat, confirmations: nat, sent: seq<nat>) {
    forall b :: b in sent ==> Due(last, tip, confirmations, b)
  }

  /** All of it was sent. */
  ghost predicate AllDue(last: nat, tip: nat, confirmations: nat, sent: seq<nat>) {
    forall b: nat :: Due(last, tip, confirmations, b) ==> b in sent
  }

  /** What a scan sends, in terms of the tip: ascending heights above the mark and up to the tip, on a
      chain longer than the depth none short of its confirmations; it stops before the last of these only
      where an enqueue is refused. */
  lemma EnqueuedConfirmed(last: nat, tip: nat, confirmations: nat, accepts: nat -> bool)
    ensures var sent := Enqueued(last + 1, SafeHead(tip, confirmations), accepts);
      && (forall i :: 0 <= i < |sent| ==> sent[i] == last + 1 + i)
      && OnlyDue(last, tip, confirmations, sent)
      && (accepts(|sent|) ==> AllDue(last, tip, confirmations, sent))
  {
    var head := SafeHead(tip, confirmations);
    var all, sent := Ascending(last + 1, head), Enqueued(last + 1, head, accepts);
    if accepts(|sent|) { AscendingIsAllDue(last, tip, confirmations); }
  }

  lemma PrefixOnlyDue(last: nat, tip: nat, confirmations: nat, accepts: nat -> bool, sent: seq<nat>)
    requires sent <= Enqueued(last + 1, SafeHead(tip, confirmations), accepts)
    ensures OnlyDue(last, tip, confirmations, sent)
  {
    EnqueuedConfirmed(last, tip, confirmations, accepts);
  }

  lemma AscendingIsAllDue(last: nat, tip: nat, confirmations: nat)
    ensures AllDue(last, tip, confirmations, Ascending(last + 1, SafeHead(tip, confirmations)))
  {
    var all := Ascending(last + 1, SafeHead(tip, confirmations));
    forall b: nat | Due(last, tip, confirmations, b) ensures b in all { assert all[b - last - 1] == b; }
  }

  /** The loop of performPolling. */
  method PollingPass(last: nat, tip: nat, confirmations: nat, accepts: nat -> bool)
    returns (sent: seq<nat>, refused: bool)
    ensures sent == Enqueued(last + 1, SafeHead(tip, confirmations), accepts)
    ensures !refused ==> sent == Ascending(last + 1, SafeHead(tip, confirmations))
    ensures refused ==> |sent| < |Ascending(last + 1, SafeHead(tip, confirmations))| && !accepts(|sent|)
    ensures OnlyDue(last, tip, confirmations, sent)
    ensures !refused ==> AllDue(last, tip, confirmations, sent)
  {
    var safeHead := SafeHead(tip, confirmations);
    ghost var all := Ascending(last + 1, safeHead);
    sent, refused := [], false;
    var blockNum := last + 1;
    while blockNum <= tip
      invariant blockNum == last + 1 + |sent|
      invariant |sent| <= |all| && sent == all[..|sent|]
      invariant forall i :: 0 <= i < |sent| ==> accepts(i)
      decreases tip + 1 - blockNum
    {
      if blockNum > safeHead { break; }
      if !accepts(|sent|) {
        refused := true;
        EnqueuedIs(last + 1, safeHead, accepts, sent);
        EnqueuedConfirmed(last, tip, confirmations, accepts);
        return;
      }
      sent := sent + [blockNum];
      blockNum := blockNum + 1;
    }
    EnqueuedIs(last + 1, safeHead, accepts, sent);
    EnqueuedConfirmed(last, tip, confirmations, accepts);
    AscendingIsAllDue(last, tip, confirmations);
  }

  /** A scan from `from` that has sent `sent` without a refusal and is about to look at `next`. */
  ghost predicate Scanned(from: nat, head: nat, accepts: nat -> bool, next: nat, sent: seq<nat>) {
    && from <= next
    && sent <= Ascending(from, head)
    && |sent| == (if next <= head then next - from else |Ascending(from, head)|)
    && forall i :: 0 <= i < |sent| ==> accepts(i)
  }

  lemma ScannedPrefix(from: nat, head: nat, accepts: nat -> bool, next: nat, sent: seq<nat>)
    requires Scanned(from, head, accepts, next, sent)
    ensures sent <= Enqueued(from, head, accepts)
    ensures next > head ==> sent == Enqueued(from, head, accepts)
    ensures next <= head && !accepts(|sent|) ==> sent == Enqueued(from, head, accepts)
  {
  }

  /** One batch: the inner loop, up to `end` or the last safe height. */
  method EnqueueBatch(ghost from: nat, start: nat, end: nat, safeHead: nat, accepts: nat -> bool, before: seq<nat>)
    returns (sent: seq<nat>, refused: bool)
    requires start <= end + 1 && Scanned(from, safeHead, accepts, start, before)
    ensures refused ==> sent == Enqueued(from, safeHead, accepts)
    ensures !refused ==> Scanned(from, safeHead, accepts, end + 1, sent)
  {
    sent, refused := before, false;
    var blockNum := start;
    while blockNum <= end
      invariant start <= blockNum <= end + 1
      invariant Scanned(from, safeHead, accepts, blockNum, sent)
      decreases end + 1 - blockNum
    {
      if blockNum > safeHead { break; }
      if !accepts(|sent|) {
        ScannedPrefix(from, safeHead, accepts, blockNum, sent);
        return sent, true;
      }
      sent := sent + [blockNum];
      blockNum := blockNum + 1;
    }
  }

  /** The batched loop of performInitialCatchup; `stops(j)` says whether the tracker is stopped in the
      pause after the j-th batch. A batch size of 0 counts as 1. Left alone, the batched scan enqueues
      exactly what the plain loop would; stopped, it has enqueued a prefix of that. */
  method CatchupPass(last: nat, tip: nat, confirmations: nat, catchupBatchSize: nat,
                     accepts: nat -> bool, stops: nat -> bool)
    returns (sent: seq<nat>, stopped: bool)
    ensures !stopped ==> sent == Enqueued(last + 1, SafeHead(tip, confirmations), accepts)
    ensures sent <= Enqueued(last + 1, SafeHead(tip, confirmations), accepts)
    ensures stopped ==> exists j :: stops(j)
    ensures OnlyDue(last, tip, confirmations, sent)
    ensures !stopped && accepts(|sent|) ==> AllDue(last, tip, confirmations, sent)
  {
    var batchSize := if catchupBatchSize == 0 then 1 else catchupBatchSize;
    var safeHead := SafeHead(tip, confirmations);
    sent, stopped := [], false;
    var start, batch := last + 1, 0;
    while start <= tip
      invariant start > last
      invariant Scanned(last + 1, safeHead, accepts, if start <= tip then start else Beyond(last, tip), sent)
      decreases tip + 1 - start
    {
      var end := start + batchSize - 1;
      if end > tip { end := tip; }
      var refused;
      sent, refused := EnqueueBatch(last + 1, start, end, safeHead, accepts, sent);
      if refused {
        EnqueuedConfirmed(last, tip, confirmations, accepts);
        return;
      }
      ScannedPrefix(last + 1, safeHead, accepts, end + 1, sent);
      if stops(batch) {
        PrefixOnlyDue(last, tip, confirmations, accepts, sent);
        return sent, true;
      }
      batch := batch + 1;
      start := start + batchSize;
    }
    ScannedPrefix(last + 1, safeHead, accepts, Beyond(last, tip), sent);
    EnqueuedConfirmed(last, tip, confirmations, accepts);
  }

  /** Where a scan of heights up to `tip` ends. */
  function Beyond(last: nat, tip: nat): nat {
    if last < tip then tip + 1 else last + 1
  }
}
