/** One attempt on an EVM block in one formula: which positions it reaches, what it hands on and records,
    and when it finishes. */
module EvmExact {
  import opened EvmBlock

  /** Every transaction at positions from `lo` to `hi` that is not on record got a slot. */
  predicate AllHandled(txs: seq<Hash>, lo: nat, hi: nat, skip: set<Hash>, tasks: Tasks)
    requires hi <= |txs|
  {
    forall p :: lo <= p < hi && txs[p] !in skip ==> tasks(p).Handled?
  }

  lemma BatchHandled(txs: seq<Hash>, i: nat, end: nat, skip: set<Hash>, tasks: Tasks)
    requires end <= |txs|
    ensures var todo := Todo(txs, i, end, skip);
      HandedOf(todo, tasks) == todo <==> AllHandled(txs, i, end, skip, tasks)
  {
    var todo := Todo(txs, i, end, skip);
    if HandedOf(todo, tasks) == todo {
      forall p | i <= p < end && txs[p] !in skip ensures tasks(p).Handled? { assert p in HandedOf(todo, tasks); }
    }
  }

  /** An attempt finishes the block exactly when every transaction not on record got a slot. */
  lemma {:induction false} FinishesIff(r: Round, txs: seq<Hash>, i: nat, size: nat, skip: set<Hash>, tasks: Tasks)
    requires size > 0
    ensures Attempt(r, txs, i, size, skip, tasks).1 <==> AllHandled(txs, i, |txs|, skip, tasks)
    decreases |txs| - i
  {
    if i < |txs| {
      var end := EndOf(|txs|, i, size);
      FinishesIff(AfterTasks(r, txs, Todo(txs, i, end, skip), tasks), txs, end, size, skip, tasks);
      BatchHandled(txs, i, end, skip, tasks);
    }
  }

  lemma BatchOf(n: nat, size: nat, p: nat)
    requires size > 0
    ensures p / size == n <==> n * size <= p < n * size + size
    ensures p / size < n <==> p < n * size
  {
    var q, m := p / size, p % size;
    assert p == q * size + m;
    if q < n { assert (q + 1) * size <= n * size; }
    if q > n { assert (n + 1) * size <= q * size; }
  }

  /** Every earlier transaction not on record, of a batch before that of `p`, got a slot. */
  predicate NoneMissedBefore(txs: seq<Hash>, n: nat, size: nat, skip: set<Hash>, tasks: Tasks, p: nat)
    requires size > 0
  {
    forall q :: 0 <= q < |txs| && n <= q / size < p / size && txs[q] !in skip ==> tasks(q).Handled?
  }

  /** From batch `n` on: exactly the positions not on record with no slot missed in an earlier batch. */
  lemma {:induction false} ReachedFrom(txs: seq<Hash>, n: nat, size: nat, skip: set<Hash>, tasks: Tasks, p: nat)
    requires size > 0
    ensures p in Reached(txs, n * size, size, skip, tasks) <==>
      p < |txs| && n <= p / size && txs[p] !in skip && NoneMissedBefore(txs, n, size, skip, tasks, p)
    decreases |txs| - n * size
  {
    BatchOf(n, size, p);
    if n * size < |txs| {
      var end := EndOf(|txs|, n * size, size);
      var todo := Todo(txs, n * size, end, skip);
      TodoIsBatch(txs, n, size, skip);
      assert (n + 1) * size == n * size + size;
      if end == n * size + size {
        ReachedFrom(txs, n + 1, size, skip, tasks, p);
      } else {
        BatchOf(n + 1, size, p);
        assert Reached(txs, end, size, skip, tasks) == {};
      }
      BatchMissed(txs, n, size, skip, tasks, p);
    }
  }

  lemma TodoIsBatch(txs: seq<Hash>, n: nat, size: nat, skip: set<Hash>)
    requires size > 0
    ensures forall p :: p in Todo(txs, n * size, EndOf(|txs|, n * size, size), skip) <==>
      0 <= p < |txs| && p / size == n && txs[p] !in skip
  {
    forall p: nat ensures p / size == n <==> n * size <= p < n * size + size { BatchOf(n, size, p); }
  }

  lemma BatchMissed(txs: seq<Hash>, n: nat, size: nat, skip: set<Hash>, tasks: Tasks, p: nat)
    requires size > 0
    ensures var todo := Todo(txs, n * size, EndOf(|txs|, n * size, size), skip);
      n < p / size ==> (NoneMissedBefore(txs, n, size, skip, tasks, p) <==>
        HandedOf(todo, tasks) == todo && NoneMissedBefore(txs, n + 1, size, skip, tasks, p))
  {
    TodoIsBatch(txs, n, size, skip);
    var todo := Todo(txs, n * size, EndOf(|txs|, n * size, size), skip);
    if n < p / size {
      if HandedOf(todo, tasks) == todo && NoneMissedBefore(txs, n + 1, size, skip, tasks, p) {
        forall q | 0 <= q < |txs| && n <= q / size < p / size && txs[q] !in skip ensures tasks(q).Handled? {
          if q / size == n { assert q in HandedOf(todo, tasks); }
        }
      }
      if NoneMissedBefore(txs, n, size, skip, tasks, p) {
        forall q | q in todo ensures q in HandedOf(todo, tasks) {}
        assert HandedOf(todo, tasks) == todo;
      }
    }
  }

  /** Work on two sets of positions, one after the other. */
  lemma AfterBoth(r: Round, txs: seq<Hash>, a: set<nat>, b: set<nat>, tasks: Tasks)
    requires a !! b
    ensures AfterTasks(AfterTasks(r, txs, a, tasks), txs, b, tasks) == AfterTasks(r, txs, a + b, tasks)
  {
    var ha, hb, wa, wb := HandedOf(a, tasks), HandedOf(b, tasks), WrittenOf(a, tasks), WrittenOf(b, tasks);
    assert HandedOf(a + b, tasks) == ha + hb && WrittenOf(a + b, tasks) == wa + wb;
    assert (ha + hb) - (wa + wb) == (ha - wa) + (hb - wb);
    AtSplit(txs, ha, hb);
    AtSplit(txs, ha - wa, hb - wb);
    HashesBoth(txs, wa, wb);
    assert r.handed + At(txs, ha) + At(txs, hb) == r.handed + (At(txs, ha) + At(txs, hb));
    assert r.lost + At(txs, ha - wa) + At(txs, hb - wb) == r.lost + (At(txs, ha - wa) + At(txs, hb - wb));
    assert r.progress + Hashes(txs, wa) + Hashes(txs, wb) == r.progress + (Hashes(txs, wa) + Hashes(txs, wb));
  }

  lemma HashesBoth(txs: seq<Hash>, a: set<nat>, b: set<nat>)
    ensures Hashes(txs, a + b) == Hashes(txs, a) + Hashes(txs, b)
  {
    forall h ensures h in Hashes(txs, a + b) <==> h in Hashes(txs, a) + Hashes(txs, b) {
      if h in Hashes(txs, a) {
        var p :| p in a && p < |txs| && txs[p] == h;
        assert p in a + b;
      }
      if h in Hashes(txs, b) {
        var p :| p in b && p < |txs| && txs[p] == h;
        assert p in a + b;
      }
    }
  }

  lemma {:induction false} ReachedLater(txs: seq<Hash>, i: nat, size: nat, skip: set<Hash>, tasks: Tasks)
    requires size > 0
    ensures forall p :: p in Reached(txs, i, size, skip, tasks) ==> i <= p
    decreases |txs| - i
  {
    if i < |txs| { ReachedLater(txs, EndOf(|txs|, i, size), size, skip, tasks); }
  }

  /** An attempt does the work of exactly the positions it reaches. */
  lemma {:induction false} AttemptIs(r: Round, txs: seq<Hash>, i: nat, size: nat, skip: set<Hash>, tasks: Tasks)
    requires size > 0
    ensures Attempt(r, txs, i, size, skip, tasks).0 == AfterTasks(r, txs, Reached(txs, i, size, skip, tasks), tasks)
    decreases |txs| - i
  {
    if i >= |txs| {
      NoTask(r, txs, tasks);
    } else {
      var end := EndOf(|txs|, i, size);
      var todo := Todo(txs, i, end, skip);
      if HandedOf(todo, tasks) == todo {
        AttemptIs(AfterTasks(r, txs, todo, tasks), txs, end, size, skip, tasks);
        ReachedLater(txs, end, size, skip, tasks);
        AfterBoth(r, txs, todo, Reached(txs, end, size, skip, tasks), tasks);
      }
    }
  }

  /** The positions among `ps` that hold hash `h`. */
  function Holding(txs: seq<Hash>, ps: set<nat>, h: Hash): set<nat> {
    set p | p in ps && p < |txs| && txs[p] == h
  }

  lemma {:induction false} AtCounts(txs: seq<Hash>, ps: set<nat>, h: Hash)
    ensures At(txs, ps)[h] == |Holding(txs, ps, h)|
    decreases |txs|
  {
    if txs != [] {
      var n := |txs| - 1;
      var front := txs[..n];
      AtCounts(front, ps, h);
      assert Holding(txs, ps, h) == Holding(front, ps, h) + if n in ps && txs[n] == h then {n} else {};
    }
  }

  /** The attempt reaches position `p`: its transaction is not on record, and no batch before its own missed
      a slot. */
  predicate Reaches(txs: seq<Hash>, size: nat, skip: set<Hash>, tasks: Tasks, p: nat)
    requires size > 0
  {
    p < |txs| && txs[p] !in skip &&
    forall q :: 0 <= q < |txs| && q / size < p / size && txs[q] !in skip ==> tasks(q).Handled?
  }

  /** The positions of hash `h` that are reached and get a slot. */
  function HandedAt(txs: seq<Hash>, size: nat, skip: set<Hash>, tasks: Tasks, h: Hash): set<nat>
    requires size > 0
  {
    set p | 0 <= p < |txs| && txs[p] == h && Reaches(txs, size, skip, tasks, p) && tasks(p).Handled?
  }

  /** Those of them whose progress write succeeds. */
  function WrittenAt(txs: seq<Hash>, size: nat, skip: set<Hash>, tasks: Tasks, h: Hash): set<nat>
    requires size > 0
  {
    set p | p in HandedAt(txs, size, skip, tasks, h) && tasks(p).Handled? && tasks(p).written
  }

  lemma ReachedIff(txs: seq<Hash>, size: nat, skip: set<Hash>, tasks: Tasks, p: nat)
    requires size > 0
    ensures p in Reached(txs, 0, size, skip, tasks) <==> Reaches(txs, size, skip, tasks, p)
  {
    ReachedFrom(txs, 0, size, skip, tasks, p);
    BatchOf(0, size, p);
    if p < |txs| && NoneMissedBefore(txs, 0, size, skip, tasks, p) {
      forall q | 0 <= q < |txs| && q / size < p / size && txs[q] !in skip ensures tasks(q).Handled? {
        BatchOf(0, size, q);
      }
    }
  }

  lemma HoldingSets(txs: seq<Hash>, size: nat, skip: set<Hash>, tasks: Tasks, h: Hash)
    requires size > 0
    ensures var reached := Reached(txs, 0, size, skip, tasks);
      var ran, wrote := HandedOf(reached, tasks), WrittenOf(reached, tasks);
      && Holding(txs, ran, h) == HandedAt(txs, size, skip, tasks, h)
      && Holding(txs, wrote, h) == WrittenAt(txs, size, skip, tasks, h)
      && Holding(txs, ran - wrote, h) == HandedAt(txs, size, skip, tasks, h) - WrittenAt(txs, size, skip, tasks, h)
  {
    forall p: nat ensures p in Reached(txs, 0, size, skip, tasks) <==> Reaches(txs, size, skip, tasks, p) {
      ReachedIff(txs, size, skip, tasks, p);
    }
  }

  /** One attempt from the record it finds: a transaction is handed on once for each of its positions that
      is reached and gets a slot, goes on record when a progress write of one of these succeeds, and counts
      a lost write for each that fails. */
  lemma AttemptExact(r: Round, txs: seq<Hash>, size: nat, tasks: Tasks, h: Hash)
    requires size > 0
    ensures var r1 := Attempt(r, txs, 0, size, r.progress, tasks).0;
      var ran, wrote := HandedAt(txs, size, r.progress, tasks, h), WrittenAt(txs, size, r.progress, tasks, h);
      && r1.handed[h] == r.handed[h] + |ran|
      && r1.lost[h] == r.lost[h] + |ran - wrote|
      && (h in r1.progress <==> h in r.progress || wrote != {})
  {
    var reached := Reached(txs, 0, size, r.progress, tasks);
    var ran, wrote := HandedOf(reached, tasks), WrittenOf(reached, tasks);
    AttemptIs(r, txs, 0, size, r.progress, tasks);
    HoldingSets(txs, size, r.progress, tasks, h);
    AtCounts(txs, ran, h);
    AtCounts(txs, ran - wrote, h);
    HashesHolding(txs, wrote, h);
  }

  lemma HashesHolding(txs: seq<Hash>, ps: set<nat>, h: Hash)
    ensures h in Hashes(txs, ps) <==> Holding(txs, ps, h) != {}
  {
    if h in Hashes(txs, ps) {
      var p :| p in ps && p < |txs| && txs[p] == h;
      assert p in Holding(txs, ps, h);
    }
    if Holding(txs, ps, h) != {} {
      var p :| p in Holding(txs, ps, h);
    }
  }
}
