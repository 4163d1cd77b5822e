/** The resumable transaction loop of the EVM processor: batches of concurrent goroutines, one for each
    transaction, with a per-block set of finished transactions in Redis that lets a retried attempt skip
    them. */
module EvmBlock {
  import opened Sums
  import opened Events
  import opened Chains

  type Hash = string

  /** How one goroutine ends: no slot, or the transaction handed to processTransaction and the progress
      write done or failed. `looked` is whether relevance and receipt could be had, without which
      processTransaction returns an error; then `fates` are what became of the events. */
  datatype Task = NoSlot | Handled(looked: bool, fates: seq<Answer>, written: bool)

  /** How the goroutine of each position ends in one attempt. */
  type Tasks = nat -> Task

  /** A block being worked on: Redis progress, and what has happened since it was last cleared. */
  datatype Round = Round(
    progress: set<Hash>,
    handed: multiset<Hash>,   // calls of processTransaction
    lost: multiset<Hash>)     // progress writes that failed

  const START: Round := Round({}, multiset{}, multiset{})

  /** The events each position calls for; how they are derived is not modelled. */
  type Calls = nat -> seq<Event>

  /** An event and what became of it. */
  datatype Entry = Entry(event: Event, fate: Answer)

  function Fate(task: Task, i: nat): Answer {
    if task.Handled? && task.looked && i < |task.fates| then task.fates[i] else Unoffered
  }

  /** What one goroutine does with the events of its transaction: nothing is offered without a receipt,
      and an event that is not taken stops nothing. */
  function Entries(events: seq<Event>, task: Task): (r: seq<Entry>)
    ensures |r| == if task.NoSlot? then 0 else |events|
    ensures forall i :: 0 <= i < |r| ==> r[i] == Entry(events[i], Fate(task, i))
  {
    if task.NoSlot? then [] else seq(|events|, i requires 0 <= i < |events| => Entry(events[i], Fate(task, i)))
  }

  /** The entries of goroutines that ran in this order. */
  ghost function LogOf(calls: Calls, tasks: Tasks, order: seq<nat>): seq<Entry> {
    if order == [] then [] else
      var p := order[|order| - 1];
      LogOf(calls, tasks, order[..|order| - 1]) + Entries(calls(p), tasks(p))
  }

  /** `order` runs through `ps`, each position once. */
  ghost predicate Orders(order: seq<nat>, ps: set<nat>) {
    (forall i, j :: 0 <= i < j < |order| ==> order[i] != order[j]) && forall p :: p in order <==> p in ps
  }

  lemma LogSnoc(calls: Calls, tasks: Tasks, order: seq<nat>, p: nat)
    ensures LogOf(calls, tasks, order + [p]) == LogOf(calls, tasks, order) + Entries(calls(p), tasks(p))
  {
    assert (order + [p])[..|order|] == order;
  }

  lemma LogLast(calls: Calls, tasks: Tasks, a: seq<nat>, b: seq<nat>)
    requires b != []
    ensures var front, p := b[..|b| - 1], b[|b| - 1];
      LogOf(calls, tasks, a + b) == LogOf(calls, tasks, a + front) + Entries(calls(p), tasks(p))
  {
    assert (a + b)[..|a + b| - 1] == a + b[..|b| - 1];
  }

  lemma Assoc(a: seq<Entry>, b: seq<Entry>, c: seq<Entry>)
    ensures a + b + c == a + (b + c)
  {
  }

  lemma LogNothing(calls: Calls, tasks: Tasks, a: seq<nat>)
    ensures LogOf(calls, tasks, a + []) == LogOf(calls, tasks, a) + LogOf(calls, tasks, [])
  {
    assert a + [] == a;
  }

  lemma {:induction false} LogConcat(calls: Calls, tasks: Tasks, a: seq<nat>, b: seq<nat>)
    ensures LogOf(calls, tasks, a + b) == LogOf(calls, tasks, a) + LogOf(calls, tasks, b)
    decreases |b|
  {
    if b == [] {
      LogNothing(calls, tasks, a);
    } else {
      var front, p := b[..|b| - 1], b[|b| - 1];
      LogConcat(calls, tasks, a, front);
      LogLast(calls, tasks, a, b);
      Assoc(LogOf(calls, tasks, a), LogOf(calls, tasks, front), Entries(calls(p), tasks(p)));
    }
  }

  lemma {:induction false} InLog(calls: Calls, tasks: Tasks, order: seq<nat>, p: nat, i: nat)
    requires p in order && tasks(p).Handled? && i < |calls(p)|
    ensures Entry(calls(p)[i], Fate(tasks(p), i)) in LogOf(calls, tasks, order)
    decreases |order|
  {
    var front, last := order[..|order| - 1], order[|order| - 1];
    if p == last {
      assert Entries(calls(p), tasks(p))[i] == Entry(calls(p)[i], Fate(tasks(p), i));
    } else {
      InLog(calls, tasks, front, p, i);
    }
  }

  /** From `was` to `log`, the goroutines of `done` ran in this order. */
  ghost predicate Logged(calls: Calls, tasks: Tasks, was: seq<Entry>, log: seq<Entry>, order: seq<nat>,
                         done: set<nat>) {
    Orders(order, done) && log == was + LogOf(calls, tasks, order)
  }

  lemma LoggedNext(calls: Calls, tasks: Tasks, was: seq<Entry>, log: seq<Entry>, order: seq<nat>,
                   done: set<nat>, p: nat)
    requires Logged(calls, tasks, was, log, order, done) && p !in done
    ensures Logged(calls, tasks, was, log + Entries(calls(p), tasks(p)), order + [p], done + {p})
  {
    OrdersSnoc(order, done, p);
    LogSnoc(calls, tasks, order, p);
  }

  lemma LoggedThen(calls: Calls, tasks: Tasks, was: seq<Entry>, mid: seq<Entry>, log: seq<Entry>,
                   a: seq<nat>, ps: set<nat>, b: seq<nat>, qs: set<nat>)
    requires Logged(calls, tasks, was, mid, a, ps) && Logged(calls, tasks, mid, log, b, qs) && ps !! qs
    ensures Logged(calls, tasks, was, log, a + b, ps + qs)
  {
    OrdersConcat(a, ps, b, qs);
    LogConcat(calls, tasks, a, b);
    Assoc(was, LogOf(calls, tasks, a), LogOf(calls, tasks, b));
  }

  lemma OrdersSnoc(order: seq<nat>, ps: set<nat>, p: nat)
    requires Orders(order, ps) && p !in ps
    ensures Orders(order + [p], ps + {p})
  {
  }

  lemma OrdersConcat(a: seq<nat>, ps: set<nat>, b: seq<nat>, qs: set<nat>)
    requires Orders(a, ps) && Orders(b, qs) && ps !! qs
    ensures Orders(a + b, ps + qs)
  {
    var c := a + b;
    forall i, j | 0 <= i < j < |c| ensures c[i] != c[j] {
      assert c[i] == if i < |a| then a[i] else b[i - |a|];
      assert c[j] == if j < |a| then a[j] else b[j - |a|];
      if i < |a| <= j { assert a[i] in ps && b[j - |a|] in qs; }
    }
  }

  // ----- transactions at positions of the block -------------------------------------------------------

  /** The hashes at the positions `ps`, with repetition. */
  ghost function At(txs: seq<Hash>, ps: set<nat>): multiset<Hash> {
    if txs == [] then multiset{} else
      var n := |txs| - 1;
      At(txs[..n], ps) + if n in ps then multiset{txs[n]} else multiset{}
  }

  ghost function Hashes(txs: seq<Hash>, ps: set<nat>): set<Hash> {
    set p | p in ps && p < |txs| :: txs[p]
  }

  lemma {:induction false} AtSplit(txs: seq<Hash>, a: set<nat>, b: set<nat>)
    requires a !! b
    ensures At(txs, a + b) == At(txs, a) + At(txs, b)
    decreases |txs|
  {
    if txs != [] { AtSplit(txs[..|txs| - 1], a, b); }
  }

  lemma {:induction false} AtOne(txs: seq<Hash>, p: nat)
    ensures At(txs, {p}) == if p < |txs| then multiset{txs[p]} else multiset{}
    decreases |txs|
  {
    if txs != [] { AtOne(txs[..|txs| - 1], p); }
  }

  lemma AtAdd(txs: seq<Hash>, ps: set<nat>, p: nat)
    requires p < |txs| && p !in ps
    ensures At(txs, ps + {p}) == At(txs, ps) + multiset{txs[p]}
    ensures Hashes(txs, ps + {p}) == Hashes(txs, ps) + {txs[p]}
  {
    AtSplit(txs, ps, {p});
    AtOne(txs, p);
    forall h ensures h in Hashes(txs, ps + {p}) <==> h in Hashes(txs, ps) + {txs[p]} {
      if h in Hashes(txs, ps) {
        var q :| q in ps && q < |txs| && txs[q] == h;
        assert q in ps + {p};
      }
      if h == txs[p] { assert p in ps + {p}; }
    }
  }

  predicate Distinct(s: seq<Hash>) {
    forall i, j :: 0 <= i < j < |s| ==> s[i] != s[j]
  }

  lemma HashesSnoc(txs: seq<Hash>, ps: set<nat>)
    requires txs != []
    ensures var n := |txs| - 1;
      Hashes(txs, ps) == Hashes(txs[..n], ps) + if n in ps then {txs[n]} else {}
  {
    var n := |txs| - 1;
    var front := txs[..n];
    forall h ensures h in Hashes(txs, ps) <==> h in Hashes(front, ps) || (n in ps && h == txs[n]) {
      if h in Hashes(txs, ps) {
        var p :| p in ps && p < |txs| && txs[p] == h;
        if p < n { assert front[p] == h; }
      }
      if h in Hashes(front, ps) {
        var p :| p in ps && p < |front| && front[p] == h;
        assert txs[p] == h;
      }
    }
  }

  lemma {:induction false} AtDistinct(txs: seq<Hash>, ps: set<nat>)
    requires Distinct(txs)
    ensures At(txs, ps) == multiset(Hashes(txs, ps))
    decreases |txs|
  {
    if txs != [] {
      var n := |txs| - 1;
      var front := txs[..n];
      assert forall i :: 0 <= i < n ==> front[i] == txs[i];
      AtDistinct(front, ps);
      HashesSnoc(txs, ps);
      assert txs[n] !in Hashes(front, ps);
    }
  }

  // ----- what an attempt does, in whatever order ------------------------------------------------------

  ghost function HandedOf(todo: set<nat>, tasks: Tasks): set<nat> {
    set p | p in todo && tasks(p).Handled?
  }

  ghost function WrittenOf(todo: set<nat>, tasks: Tasks): set<nat> {
    set p | p in todo && tasks(p).Handled? && tasks(p).written
  }

  ghost function After(r: Round, txs: seq<Hash>, ran: set<nat>, wrote: set<nat>): Round {
    Round(r.progress + Hashes(txs, wrote), r.handed + At(txs, ran), r.lost + At(txs, ran - wrote))
  }

  ghost function AfterTasks(r: Round, txs: seq<Hash>, todo: set<nat>, tasks: Tasks): Round {
    After(r, txs, HandedOf(todo, tasks), WrittenOf(todo, tasks))
  }

  /** The positions of a batch whose transactions are not on record. */
  ghost function Todo(txs: seq<Hash>, i: nat, end: nat, skip: set<Hash>): set<nat> {
    set p | i <= p < end && p < |txs| && txs[p] !in skip
  }

  function EndOf(n: nat, i: nat, size: nat): nat {
    if i + size > n then n else i + size
  }

  /** One attempt from position `i`: batches in order, each run to the end, up to the first batch with a
      goroutine that got no slot. */
  ghost function Attempt(r: Round, txs: seq<Hash>, i: nat, size: nat, skip: set<Hash>, tasks: Tasks): (Round, bool)
    requires size > 0
    decreases |txs| - i
  {
    if i >= |txs| then (r, true) else
      var end := EndOf(|txs|, i, size);
      var todo := Todo(txs, i, end, skip);
      var r1 := AfterTasks(r, txs, todo, tasks);
      if HandedOf(todo, tasks) == todo then Attempt(r1, txs, end, size, skip, tasks) else (r1, false)
  }

  /** Attempts one after the other, until one finishes the block. */
  ghost function Attempts(r: Round, txs: seq<Hash>, size: nat, attempts: seq<Tasks>): (Round, bool)
    requires size > 0
    decreases |attempts|
  {
    if attempts == [] then (r, false) else
      var (r1, ok) := Attempt(r, txs, 0, size, r.progress, attempts[0]);
      if ok then (r1, true) else Attempts(r1, txs, size, attempts[1..])
  }

  /** The positions an attempt reaches from `i` on. */
  ghost function Reached(txs: seq<Hash>, i: nat, size: nat, skip: set<Hash>, tasks: Tasks): set<nat>
    requires size > 0
    decreases |txs| - i
  {
    if i >= |txs| then {} else
      var end := EndOf(|txs|, i, size);
      var todo := Todo(txs, i, end, skip);
      if HandedOf(todo, tasks) == todo then todo + Reached(txs, end, size, skip, tasks) else todo
  }

  /** An attempt that finishes the block reaches every position not on record and hands it on. */
  lemma {:induction false} FinishedReachesAll(r: Round, txs: seq<Hash>, i: nat, size: nat, skip: set<Hash>,
                                              tasks: Tasks)
    requires size > 0 && Attempt(r, txs, i, size, skip, tasks).1
    ensures Reached(txs, i, size, skip, tasks) == Todo(txs, i, |txs|, skip)
    ensures forall p :: p in Todo(txs, i, |txs|, skip) ==> tasks(p).Handled?
    decreases |txs| - i
  {
    if i < |txs| {
      var end := EndOf(|txs|, i, size);
      var todo := Todo(txs, i, end, skip);
      FinishedReachesAll(AfterTasks(r, txs, todo, tasks), txs, end, size, skip, tasks);
      assert Todo(txs, i, |txs|, skip) == todo + Todo(txs, end, |txs|, skip);
      assert forall p :: p in todo ==> p in HandedOf(todo, tasks);
    }
  }

  /** Two attempts that differ only in what processTransaction made of the transactions. */
  ghost predicate SameButFates(tasks: Tasks, tasks': Tasks) {
    forall p :: tasks(p).Handled? == tasks'(p).Handled? && (tasks(p).Handled? ==> tasks(p).written == tasks'(p).written)
  }

  /** Result and record of an attempt are a matter of slots and progress writes alone. */
  lemma {:induction false} FatesIgnored(r: Round, txs: seq<Hash>, i: nat, size: nat, skip: set<Hash>,
                                         tasks: Tasks, tasks': Tasks)
    requires size > 0 && SameButFates(tasks, tasks')
    ensures Attempt(r, txs, i, size, skip, tasks) == Attempt(r, txs, i, size, skip, tasks')
    decreases |txs| - i
  {
    if i < |txs| {
      var end := EndOf(|txs|, i, size);
      var todo := Todo(txs, i, end, skip);
      assert HandedOf(todo, tasks) == HandedOf(todo, tasks') && WrittenOf(todo, tasks) == WrittenOf(todo, tasks');
      FatesIgnored(AfterTasks(r, txs, todo, tasks), txs, end, size, skip, tasks, tasks');
    }
  }

  // ----- what that means for a block of distinct hashes -----------------------------------------------

  ghost function Members(s: seq<Hash>): set<Hash> {
    set h | h in s
  }

  /** Every handed transaction is on record, or its record was lost; nothing else is. */
  ghost predicate Accounted(r: Round, txs: seq<Hash>) {
    r.handed == multiset(r.progress) + r.lost && forall h :: h in r.handed ==> h in txs
  }

  lemma TasksAccounted(r: Round, txs: seq<Hash>, todo: set<nat>, tasks: Tasks)
    requires Distinct(txs) && Accounted(r, txs) && Hashes(txs, todo) !! r.progress
    ensures var r1 := AfterTasks(r, txs, todo, tasks);
      && Accounted(r1, txs) && r.handed <= r1.handed
      && (forall p :: p in HandedOf(todo, tasks) && p < |txs| ==> txs[p] in r1.handed)
  {
    var h, w := HandedOf(todo, tasks), WrittenOf(todo, tasks);
    AtDistinct(txs, h);
    AtDistinct(txs, w);
    assert h == w + (h - w);
    AtSplit(txs, w, h - w);
    assert Hashes(txs, w) !! r.progress by {
      forall x | x in Hashes(txs, w) ensures x in Hashes(txs, todo) {
        var p :| p in w && p < |txs| && txs[p] == x;
        assert p in todo;
      }
    }
    assert multiset(r.progress + Hashes(txs, w)) == multiset(r.progress) + multiset(Hashes(txs, w));
  }

  /** What an attempt may assume where it starts: recorded transactions of its rest are skipped. */
  ghost predicate Resumes(r: Round, txs: seq<Hash>, i: nat, skip: set<Hash>) {
    && Accounted(r, txs)
    && (forall p :: i <= p < |txs| && txs[p] in r.progress ==> txs[p] in skip)
    && (forall h :: h in skip ==> h in r.handed)
  }

  lemma NotAmong(txs: seq<Hash>, ps: set<nat>, p: nat)
    requires Distinct(txs) && p < |txs| && forall q :: q in ps ==> q < p
    ensures txs[p] !in Hashes(txs, ps)
  {
  }

  lemma TodoFresh(r: Round, txs: seq<Hash>, i: nat, end: nat, skip: set<Hash>)
    requires forall p :: i <= p < |txs| && txs[p] in r.progress ==> txs[p] in skip
    ensures Hashes(txs, Todo(txs, i, end, skip)) !! r.progress
  {
  }

  /** What a batch adds to the record lies before the rest of the block. */
  lemma RestSkipped(r: Round, txs: seq<Hash>, i: nat, end: nat, skip: set<Hash>, tasks: Tasks)
    requires Distinct(txs) && i <= end
    requires forall p :: i <= p < |txs| && txs[p] in r.progress ==> txs[p] in skip
    ensures var r1 := AfterTasks(r, txs, Todo(txs, i, end, skip), tasks);
      forall p :: end <= p < |txs| && txs[p] in r1.progress ==> txs[p] in skip
  {
    var wrote := WrittenOf(Todo(txs, i, end, skip), tasks);
    forall p | end <= p < |txs| ensures txs[p] !in Hashes(txs, wrote) {
      NotAmong(txs, wrote, p);
    }
  }

  lemma BatchResumes(r: Round, txs: seq<Hash>, i: nat, end: nat, skip: set<Hash>, tasks: Tasks)
    requires Distinct(txs) && i <= end <= |txs| && Resumes(r, txs, i, skip)
    ensures var todo := Todo(txs, i, end, skip); var r1 := AfterTasks(r, txs, todo, tasks);
      && Resumes(r1, txs, end, skip) && r.handed <= r1.handed
      && (HandedOf(todo, tasks) == todo ==> forall p :: i <= p < end ==> txs[p] in r1.handed)
  {
    TodoFresh(r, txs, i, end, skip);
    RestSkipped(r, txs, i, end, skip, tasks);
    var todo := Todo(txs, i, end, skip);
    TasksAccounted(r, txs, todo, tasks);
    if HandedOf(todo, tasks) == todo {
      forall p | i <= p < end ensures txs[p] in AfterTasks(r, txs, todo, tasks).handed {
        if txs[p] !in skip { assert p in HandedOf(todo, tasks); }
      }
    }
  }

  lemma {:induction false} AttemptAccounted(r: Round, txs: seq<Hash>, i: nat, size: nat, skip: set<Hash>, tasks: Tasks)
    requires size > 0 && Distinct(txs) && Resumes(r, txs, i, skip)
    ensures var (r1, ok) := Attempt(r, txs, i, size, skip, tasks);
      && Accounted(r1, txs) && r.handed <= r1.handed
      && (ok ==> forall p :: i <= p < |txs| ==> txs[p] in r1.handed)
    decreases |txs| - i
  {
    if i < |txs| {
      var end := EndOf(|txs|, i, size);
      BatchResumes(r, txs, i, end, skip, tasks);
      var todo := Todo(txs, i, end, skip);
      if HandedOf(todo, tasks) == todo {
        AttemptAccounted(AfterTasks(r, txs, todo, tasks), txs, end, size, skip, tasks);
      }
    }
  }

  /** Over any sequence of attempts, failed ones included, a transaction is handed on once plus once for
      every lost progress write, never more, and when an attempt finishes the block each of its
      transactions has been handed on. */
  lemma {:induction false} AttemptsAccounted(r: Round, txs: seq<Hash>, size: nat, attempts: seq<Tasks>)
    requires size > 0 && Distinct(txs) && Accounted(r, txs)
    ensures var (r1, ok) := Attempts(r, txs, size, attempts);
      && Accounted(r1, txs)
      && (forall h :: r1.handed[h] <= 1 + r1.lost[h])
      && (ok ==> forall h :: h in txs ==> h in r1.handed)
    decreases |attempts|
  {
    if attempts != [] {
      AttemptAccounted(r, txs, 0, size, r.progress, attempts[0]);
      var (r1, ok) := Attempt(r, txs, 0, size, r.progress, attempts[0]);
      if !ok { AttemptsAccounted(r1, txs, size, attempts[1..]); }
    }
  }

  /** With every progress write successful each transaction is handed on at most once, and exactly once
      when the block is finished. */
  lemma HandedExactlyOnce(txs: seq<Hash>, size: nat, attempts: seq<Tasks>)
    requires size > 0 && Distinct(txs)
    requires Attempts(START, txs, size, attempts).0.lost == multiset{}
    ensures var (r, ok) := Attempts(START, txs, size, attempts);
      && (forall h :: r.handed[h] <= 1)
      && (ok ==> r.handed == multiset(Members(txs)))
  {
    AttemptsAccounted(START, txs, size, attempts);
    var (r, ok) := Attempts(START, txs, size, attempts);
    if ok {
      assert forall h :: r.handed[h] == multiset(Members(txs))[h];
    }
  }

  // ----- the loops ------------------------------------------------------------------------------------

  class EthereumProcessor {
    var progress: set<Hash>   // <network>:block_progress:<block>
    ghost var handed: multiset<Hash>
    ghost var lost: multiset<Hash>
    ghost var log: seq<Entry>

    ghost function Value(): Round
      reads `progress, `handed, `lost
    {
      Round(progress, handed, lost)
    }

    constructor ()
      ensures Value() == START && log == []
    {
      progress, handed, lost, log := {}, multiset{}, multiset{}, [];
    }

    /** Without relevance or receipt an error; otherwise each event is offered in turn, and one that is not
        taken is only logged. */
    method ProcessTransaction(events: seq<Event>, task: Task) returns (err: bool)
      requires task.Handled?
      modifies `log
      ensures err == !task.looked && log == old(log) + Entries(events, task)
    {
      if !task.looked {
        log := log + Entries(events, task);
        return true;
      }
      ghost var all := Entries(events, task);
      var i := 0;
      while i < |events|
        invariant 0 <= i <= |events| && log == old(log) + all[..i]
      {
        log := log + [Entry(events[i], Fate(task, i))];
        assert all[..i + 1] == all[..i] + [all[i]];
        i := i + 1;
      }
      assert all[..i] == all;
      err := false;
    }

    /** One goroutine: acquire a slot, hand the transaction on, record it whatever came of it. */
    method RunTask(h: Hash, events: seq<Event>, task: Task)
      modifies this
      ensures Value() == AfterTask(old(Value()), h, task) && log == old(log) + Entries(events, task)
    {
      if task.Handled? {
        handed := handed + multiset{h};
        var _ := ProcessTransaction(events, task);
        if task.written {
          progress := progress + {h};
        } else {
          lost := lost + multiset{h};
        }
      }
    }

    /** The goroutines of `done` ran, in this order, since `start` and `was`. */
    ghost predicate SoFar(start: Round, was: seq<Entry>, txs: seq<Hash>, calls: Calls, tasks: Tasks,
                          order: seq<nat>, done: set<nat>, ok: bool)
      reads this
    {
      Ran(start, Value(), txs, done, tasks, ok) && Logged(calls, tasks, was, log, order, done)
    }

    /** One more goroutine; one without a slot fails the batch. */
    method RunNext(txs: seq<Hash>, calls: Calls, p: nat, tasks: Tasks, ok: bool,
                   ghost start: Round, ghost was: seq<Entry>, ghost order: seq<nat>, ghost done: set<nat>)
      returns (ok': bool)
      requires p < |txs| && p !in done && SoFar(start, was, txs, calls, tasks, order, done, ok)
      modifies this
      ensures SoFar(start, was, txs, calls, tasks, order + [p], done + {p}, ok')
    {
      OneMoreTask(start, Value(), txs, done, p, tasks, ok);
      LoggedNext(calls, tasks, was, log, order, done, p);
      RunTask(txs[p], calls(p), tasks(p));
      ok' := ok && tasks(p).Handled?;
    }

    /** The goroutines of `todo`, in whatever order. */
    method RunAll(txs: seq<Hash>, calls: Calls, todo: set<nat>, tasks: Tasks) returns (ok: bool, ghost order: seq<nat>)
      requires forall p :: p in todo ==> p < |txs|
      modifies this
      ensures SoFar(old(Value()), old(log), txs, calls, tasks, order, todo, ok)
    {
      var left := todo;
      ghost var start, was, done := Value(), log, {};
      NoTask(start, txs, tasks);
      ok, order := true, [];
      assert SoFar(start, was, txs, calls, tasks, order, done, ok);
      while left != {}
        invariant done + left == todo && done !! left
        invariant SoFar(start, was, txs, calls, tasks, order, done, ok)
        decreases |left|
      {
        var p :| p in left;
        assert p in done + left;
        ok := RunNext(txs, calls, p, tasks, ok, start, was, order, done);
        MoveOver(done, left, p);
        left, done, order := left - {p}, done + {p}, order + [p];
      }
      assert done == todo;
    }

    /** The goroutines of a batch; the batch fails when one of them got no slot. */
    method ProcessBatch(txs: seq<Hash>, calls: Calls, i: nat, end: nat, skip: set<Hash>, tasks: Tasks)
      returns (ok: bool, ghost order: seq<nat>)
      requires i <= end <= |txs|
      modifies this
      ensures SoFar(old(Value()), old(log), txs, calls, tasks, order, Todo(txs, i, end, skip), ok)
    {
      var todo := set p | i <= p < end && txs[p] !in skip;
      assert todo == Todo(txs, i, end, skip);
      ok, order := RunAll(txs, calls, todo, tasks);
    }

    /** The batch loop of ProcessBlock on a fetched block; the progress is cleared only at the very end. */
    method ProcessBlock(txs: seq<Hash>, calls: Calls, batchSize: nat, tasks: Tasks, clearOk: bool)
      returns (ok: bool, ghost order: seq<nat>)
      requires batchSize > 0
      modifies this
      ensures var (r, done) := Attempt(old(Value()), txs, 0, batchSize, old(progress), tasks);
        && ok == done && handed == r.handed && lost == r.lost
        && progress == if done && clearOk then {} else r.progress
      ensures Logged(calls, tasks, old(log), log, order, Reached(txs, 0, batchSize, old(progress), tasks))
    {
      var processed := progress;
      ghost var goal := Attempt(Value(), txs, 0, batchSize, processed, tasks);
      ghost var all, done := Reached(txs, 0, batchSize, processed, tasks), {};
      order := [];
      var i := 0;
      while i < |txs|
        invariant 0 <= i <= |txs|
        invariant Attempt(Value(), txs, i, batchSize, processed, tasks) == goal
        invariant Behind(all, done, Reached(txs, i, batchSize, processed, tasks), i)
        invariant Logged(calls, tasks, old(log), log, order, done)
        decreases |txs| - i
      {
        var end := i + batchSize;
        if end > |txs| { end := |txs|; }
        ghost var todo := Todo(txs, i, end, processed);
        NextReached(all, done, txs, i, end, batchSize, processed, tasks);
        var batchOk;
        ghost var batch, mid;
        mid := log;
        batchOk, batch := ProcessBatch(txs, calls, i, end, processed, tasks);
        LoggedThen(calls, tasks, old(log), mid, log, order, done, batch, todo);
        order := order + batch;
        done := done + todo;
        if !batchOk { return false, order; }
        i := end;
      }
      if clearOk { progress := {}; }
      ok := true;
    }
  }

  /** `done` lies before position `i`, and with `rest` makes up `all`. */
  ghost predicate Behind(all: set<nat>, done: set<nat>, rest: set<nat>, i: nat) {
    all == done + rest && forall p :: p in done ==> p < i
  }

  lemma NextReached(all: set<nat>, done: set<nat>, txs: seq<Hash>, i: nat, end: nat, size: nat, skip: set<Hash>,
                    tasks: Tasks)
    requires size > 0 && i < |txs| && end == EndOf(|txs|, i, size)
    requires Behind(all, done, Reached(txs, i, size, skip, tasks), i)
    ensures var todo := Todo(txs, i, end, skip);
      && done !! todo
      && (if HandedOf(todo, tasks) == todo then Behind(all, done + todo, Reached(txs, end, size, skip, tasks), end)
          else all == done + todo)
  {
  }

  ghost function AfterTask(r: Round, h: Hash, task: Task): Round {
    match task
    case NoSlot => r
    case Handled(_, _, true) => r.(handed := r.handed + multiset{h}, progress := r.progress + {h})
    case Handled(_, _, false) => r.(handed := r.handed + multiset{h}, lost := r.lost + multiset{h})
  }

  /** The goroutines of `done` ran between `start` and `now`; `ok` when all of them got a slot. */
  ghost predicate Ran(start: Round, now: Round, txs: seq<Hash>, done: set<nat>, tasks: Tasks, ok: bool) {
    now == AfterTasks(start, txs, done, tasks) && ok == (HandedOf(done, tasks) == done)
  }

  lemma {:induction false} AtNone(txs: seq<Hash>)
    ensures At(txs, {}) == multiset{} && Hashes(txs, {}) == {}
    decreases |txs|
  {
    if txs != [] { AtNone(txs[..|txs| - 1]); }
  }

  lemma NoTask(r: Round, txs: seq<Hash>, tasks: Tasks)
    ensures Ran(r, r, txs, {}, tasks, true)
  {
    var none: set<nat> := {};
    assert HandedOf(none, tasks) == none && WrittenOf(none, tasks) == none && none - none == none;
    AtNone(txs);
    assert After(r, txs, none, none) == r;
  }

  lemma SetsAdd(done: set<nat>, p: nat, tasks: Tasks)
    requires p !in done
    ensures HandedOf(done + {p}, tasks) == HandedOf(done, tasks) + if tasks(p).Handled? then {p} else {}
    ensures WrittenOf(done + {p}, tasks) ==
      WrittenOf(done, tasks) + if tasks(p).Handled? && tasks(p).written then {p} else {}
    ensures WrittenOf(done, tasks) <= HandedOf(done, tasks) <= done
  {
  }

  lemma AfterAdd(r: Round, txs: seq<Hash>, ran: set<nat>, wrote: set<nat>, p: nat, task: Task)
    requires wrote <= ran && p !in ran && p < |txs| && task.Handled?
    ensures AfterTask(After(r, txs, ran, wrote), txs[p], task) ==
      After(r, txs, ran + {p}, if task.written then wrote + {p} else wrote)
  {
    AtAdd(txs, ran, p);
    if task.written {
      AtAdd(txs, wrote, p);
      assert (ran + {p}) - (wrote + {p}) == ran - wrote;
      assert r.progress + Hashes(txs, wrote) + {txs[p]} == r.progress + (Hashes(txs, wrote) + {txs[p]});
    } else {
      AtAdd(txs, ran - wrote, p);
      assert (ran + {p}) - wrote == (ran - wrote) + {p};
    }
  }

  lemma OneMoreAfter(start: Round, txs: seq<Hash>, done: set<nat>, p: nat, tasks: Tasks)
    requires p !in done && p < |txs|
    ensures AfterTask(AfterTasks(start, txs, done, tasks), txs[p], tasks(p)) ==
      AfterTasks(start, txs, done + {p}, tasks)
  {
    SetsAdd(done, p, tasks);
    var h, w := HandedOf(done, tasks), WrittenOf(done, tasks);
    assert h + {} == h && w + {} == w;
    if tasks(p).Handled? {
      AfterAdd(start, txs, h, w, p, tasks(p));
    }
  }

  lemma AllHandedAdd(done: set<nat>, p: nat, tasks: Tasks)
    requires p !in done
    ensures HandedOf(done + {p}, tasks) == done + {p} <==> HandedOf(done, tasks) == done && tasks(p).Handled?
  {
    SetsAdd(done, p, tasks);
    if HandedOf(done + {p}, tasks) == done + {p} {
      assert p in HandedOf(done + {p}, tasks);
      assert forall x :: x in done ==> x in HandedOf(done + {p}, tasks);
    }
  }

  /** Goroutines commute: one more on top of those already done, whichever it is. */
  lemma OneMoreTask(start: Round, now: Round, txs: seq<Hash>, done: set<nat>, p: nat, tasks: Tasks, ok: bool)
    requires p !in done && p < |txs| && Ran(start, now, txs, done, tasks, ok)
    ensures Ran(start, AfterTask(now, txs[p], tasks(p)), txs, done + {p}, tasks, ok && tasks(p).Handled?)
  {
    OneMoreAfter(start, txs, done, p, tasks);
    AllHandedAdd(done, p, tasks);
  }
}
