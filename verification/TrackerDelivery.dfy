/** How often a block's events can be offered: after a call that led to a mark there is no further call on
    the block, unless its bit expired. */
module TrackerDelivery {
  import opened Common
  import opened Chains
  import opened Tracker
  import opened TrackerSafety
  import opened TrackerSteps

  predicate Calling(p: Worker) {
    p.Publishing? || p.Marking?
  }

  predicate SameCall(p: Worker, p': Worker) {
    Calling(p) && Calling(p') && p'.block == p.block && p'.attempt == p.attempt
  }

  /** A worker's call is the last on its block. */
  ghost predicate LatestCalls(s: State) {
    forall w, k :: 0 <= w < |s.workers| && Calling(s.workers[w]) && s.workers[w].attempt < k < |s.h.attempts| ==>
      s.h.attempts[k].block != s.workers[w].block
  }

  ghost predicate MarkersMarked(h: History) {
    forall k :: k in h.markers ==> k < |h.attempts| && h.attempts[k].block in h.marks
  }

  /** A call that led to a mark is followed by another on the block only once the bit expired. */
  ghost predicate NoRepeats(h: History) {
    forall j, k :: 0 <= j < k < |h.attempts| && h.attempts[j].block == h.attempts[k].block && j in h.markers ==>
      h.expired[h.attempts[j].block] > 0
  }

  ghost predicate Single(s: State) {
    LatestCalls(s) && MarkersMarked(s.h) && NoRepeats(s.h)
  }

  // ----- steps that neither begin a call nor mark -----------------------------------------------------

  ghost predicate SameBlocks(a: seq<Attempt>, a': seq<Attempt>) {
    |a'| == |a| && forall k :: 0 <= k < |a| ==> a'[k].block == a[k].block
  }

  /** No call begins and none is marked. */
  ghost predicate Stays(s: State, s': State) {
    && SameBlocks(s.h.attempts, s'.h.attempts)
    && s'.h.markers == s.h.markers && s.h.marks <= s'.h.marks && s.h.expired <= s'.h.expired
    && (forall w :: 0 <= w < |s'.workers| && Calling(s'.workers[w]) ==>
          w < |s.workers| && SameCall(s.workers[w], s'.workers[w]))
  }

  lemma StaysSingle(s: State, s': State)
    requires Single(s) && Stays(s, s')
    ensures Single(s')
  {
  }

  lemma NonWorkerStays(c: Config, s: State, st: Step)
    requires !IsWorkerStep(st)
    ensures Stays(s, Do(c, s, st))
  {
    NonWorkerHistory(c, s, st);
    if st.Restart? {
      assert Do(c, s, st) == DoRestart(c, s, st.crash);
    } else {
      NonWorkerLeaves(c, s, st);
    }
  }

  lemma NonWorkerHistory(c: Config, s: State, st: Step)
    requires !IsWorkerStep(st)
    ensures var h := Do(c, s, st).h;
      h.attempts == s.h.attempts && h.markers == s.h.markers && h.marks == s.h.marks && s.h.expired <= h.expired
  {
    if st.ExpireWindow? {
      var gone := set b | b in s.bits && b / WINDOW == st.window;
      assert Do(c, s, st).h == s.h.(expired := s.h.expired + multiset(gone));
    } else {
      NothingExpires(c, s, st);
    }
  }

  lemma NothingExpires(c: Config, s: State, st: Step)
    requires !IsWorkerStep(st) && !st.ExpireWindow?
    ensures var h := Do(c, s, st).h;
      h.attempts == s.h.attempts && h.markers == s.h.markers && h.marks == s.h.marks && h.expired == s.h.expired
  {
  }

  lemma NonWorkerLeaves(c: Config, s: State, st: Step)
    requires !IsWorkerStep(st) && !st.Restart?
    ensures Do(c, s, st).workers == s.workers
  {
  }

  /** What a worker's step does to its own program counter. */
  lemma OwnCall(c: Config, s: State, st: Step)
    requires IsWorkerStep(st) && !st.Fetch? && st.w < |s.workers|
    ensures var s' := DoWorker(c, s, st);
      && |s'.workers| == |s.workers|
      && (Calling(s'.workers[st.w]) ==> SameCall(s.workers[st.w], s'.workers[st.w]))
  {
    if st.AdvanceStep? && s.workers[st.w].Advancing? {
      var p := s.workers[st.w];
      assert DoWorker(c, s, st) == DoAdvance(s, st.w, p.owned, p.adv, st.reply);
    }
  }

  lemma OwnHistory(c: Config, s: State, st: Step)
    requires IsWorkerStep(st) && !st.Fetch? && !st.SetBit?
    ensures var h := DoWorker(c, s, st).h;
      && h.markers == s.h.markers && h.marks == s.h.marks && h.expired == s.h.expired
      && SameBlocks(s.h.attempts, h.attempts)
  {
    if st.AdvanceStep? && st.w < |s.workers| && s.workers[st.w].Advancing? {
      var p := s.workers[st.w];
      assert DoWorker(c, s, st) == DoAdvance(s, st.w, p.owned, p.adv, st.reply);
    }
  }

  lemma WorkerStays(c: Config, s: State, st: Step)
    requires IsWorkerStep(st) && !st.Fetch? && !st.SetBit?
    ensures Stays(s, DoWorker(c, s, st))
  {
    var s' := DoWorker(c, s, st);
    OwnHistory(c, s, st);
    if st.w < |s.workers| {
      OwnCall(c, s, st);
      forall w | 0 <= w < |s'.workers| && w != st.w ensures s'.workers[w] == s.workers[w] { MovesItself(c, s, st, w); }
    } else {
      assert s' == s;
    }
  }

  // ----- a call begins --------------------------------------------------------------------------------

  lemma Begins(c: Config, s: State, w: nat, b: nat, t: nat, f: Fetched)
    requires Inv(c, s) && Single(s) && w < |s.workers| && s.workers[w] == Ready(b, t) && Derives(c.chain, f)
    ensures Single(DoFetch(c, s, w, b, t, Some(f)))
  {
    ReadyAlone(c, s, w, b, t);
    CallAdded(s, DoFetch(c, s, w, b, t, Some(f)), w, b, Attempt(b, s.trueTip, t, f, []));
  }

  /** Nobody else is on the block, and every mark on it has expired. */
  lemma ReadyAlone(c: Config, s: State, w: nat, b: nat, t: nat)
    requires Inv(c, s) && w < |s.workers| && s.workers[w] == Ready(b, t)
    ensures s.h.marks[b] == s.h.expired[b]
    ensures forall v :: 0 <= v < |s.workers| && v != w && Calling(s.workers[v]) ==> s.workers[v].block != b
  {
    assert WorkerOk(c, s, s.workers[w]);
    forall v | 0 <= v < |s.workers| && v != w && Calling(s.workers[v]) ensures s.workers[v].block != b {
      assert Holds(s.workers[v]) != Holds(s.workers[w]);
    }
  }

  lemma CallAdded(s: State, s': State, w: nat, b: nat, a: Attempt)
    requires Single(s) && w < |s.workers| && a.block == b && s.h.marks[b] == s.h.expired[b]
    requires forall v :: 0 <= v < |s.workers| && v != w && Calling(s.workers[v]) ==> s.workers[v].block != b
    requires s'.workers == s.workers[w := Publishing(b, |s.h.attempts|)]
    requires s'.h == s.h.(attempts := s.h.attempts + [a])
    ensures Single(s')
  {
  }

  lemma FetchSingle(c: Config, s: State, w: nat, fetched: Option<Fetched>)
    requires Inv(c, s) && Single(s)
    ensures Single(DoWorker(c, s, Fetch(w, fetched)))
  {
    var s' := DoWorker(c, s, Fetch(w, fetched));
    if w >= |s.workers| || !s.workers[w].Ready? {
      assert s' == s;
    } else {
      var p := s.workers[w];
      if fetched.None? {
        assert s' == Release(s, w, p.block);
        Freed(s, w, p.block);
      } else if Derives(c.chain, fetched.value) {
        assert s' == DoFetch(c, s, w, p.block, p.tip, fetched);
        Begins(c, s, w, p.block, p.tip, fetched.value);
      } else {
        assert s' == s;
      }
    }
  }

  lemma Freed(s: State, w: nat, b: nat)
    requires Single(s) && w < |s.workers|
    ensures Single(Release(s, w, b))
  {
    StaysSingle(s, Release(s, w, b));
  }

  // ----- a call is marked -----------------------------------------------------------------------------

  lemma Marks(s: State, w: nat, b: nat, k: nat, r: Reply)
    requires Single(s) && w < |s.workers| && s.workers[w] == Marking(b, k)
    requires k < |s.h.attempts| && s.h.attempts[k].block == b
    ensures Single(DoSetBit(s, w, b, k, r))
  {
    var s' := DoSetBit(s, w, b, k, r);
    assert forall j :: k < j < |s.h.attempts| ==> s.h.attempts[j].block != b;
    assert s.h.marks <= s'.h.marks && b in s.h.marks + multiset{b};
  }

  lemma SetBitSingle(c: Config, s: State, w: nat, r: Reply)
    requires Inv(c, s) && Single(s)
    ensures Single(DoWorker(c, s, SetBit(w, r)))
  {
    var s' := DoWorker(c, s, SetBit(w, r));
    if w < |s.workers| && s.workers[w].Marking? {
      var b, k := s.workers[w].block, s.workers[w].attempt;
      assert s' == DoSetBit(s, w, b, k, r);
      MarkingOn(c, s, w);
      Marks(s, w, b, k, r);
    } else {
      assert s' == s;
    }
  }

  lemma MarkingOn(c: Config, s: State, w: nat)
    requires Inv(c, s) && w < |s.workers| && s.workers[w].Marking?
    ensures s.workers[w].attempt < |s.h.attempts| && s.h.attempts[s.workers[w].attempt].block == s.workers[w].block
  {
    assert WorkerOk(c, s, s.workers[w]);
  }

  // ----- runs -----------------------------------------------------------------------------------------

  lemma StepSingle(c: Config, s: State, st: Step)
    requires Inv(c, s) && Single(s)
    ensures Single(Do(c, s, st))
  {
    if !IsWorkerStep(st) {
      NonWorkerStays(c, s, st);
      StaysSingle(s, Do(c, s, st));
    } else {
      assert Do(c, s, st) == DoWorker(c, s, st);
      if st.Fetch? {
        FetchSingle(c, s, st.w, st.fetched);
      } else if st.SetBit? {
        SetBitSingle(c, s, st.w, st.reply);
      } else {
        WorkerStays(c, s, st);
        StaysSingle(s, DoWorker(c, s, st));
      }
    }
  }

  lemma {:induction false} RunSingle(c: Config, s: State, steps: seq<Step>)
    requires Inv(c, s) && Single(s)
    ensures Single(Run(c, s, steps))
    decreases |steps|
  {
    if steps != [] {
      var front := steps[..|steps| - 1];
      RunSingle(c, s, front);
      RunKeeps(c, s, front);
      StepSingle(c, Run(c, s, front), steps[|steps| - 1]);
    }
  }

  /** A block is taken up again after a call that led to its mark only if its bit expired. So where no
      bit expired, events are offered again only after calls that were given up or whose SETBIT was
      refused, and at most one call on a block, the last, is behind its mark. */
  lemma RepeatNeedsExpiry(c: Config, s0: State, steps: seq<Step>, j: nat, k: nat)
    requires Init(c, s0)
    requires var h := Run(c, s0, steps).h;
      j < k < |h.attempts| && h.attempts[j].block == h.attempts[k].block
    ensures var h := Run(c, s0, steps).h;
      && (j in h.markers ==> h.expired[h.attempts[j].block] > 0)
      && (h.expired == multiset{} ==> j !in h.markers)
  {
    InitInv(c, s0);
    assert Single(s0);
    RunSingle(c, s0, steps);
  }
}
