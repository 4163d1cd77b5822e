/** The progress part of `RedisStorage`: one mark per network and a windowed bitmap of processed
    blocks. The bitmap refines a plain set of block numbers, and `AdvanceHighWaterMark`, run alone,
    moves the mark along the contiguous run of that set. */
module Progress {
  import opened Common

  datatype WindowKey = WindowKey(network: Network, window: nat)

  const WINDOW: nat := 100000
  const STRIDE: nat := 10001   // the walk stops once it is more than 10000 ahead

  function Min(a: nat, b: nat): nat {
    if a < b then a else b
  }

  ghost function Above(blocks: set<nat>, from: nat): set<nat> {
    set b | b in blocks && b > from
  }

  /** Number of consecutive members of `blocks` right above `from`. */
  function RunLength(blocks: set<nat>, from: nat): (k: nat)
    ensures forall b :: from < b <= from + k ==> b in blocks
    ensures from + k + 1 !in blocks
    decreases Above(blocks, from)
  {
    if from + 1 in blocks then
      assert from + 1 in Above(blocks, from) - Above(blocks, from + 1);
      1 + RunLength(blocks, from + 1)
    else 0
  }

  /** Where one undisturbed call takes the mark. */
  function Advance(blocks: set<nat>, last: nat): nat {
    last + Min(RunLength(blocks, last), STRIDE)
  }

  function AdvanceTimes(blocks: set<nat>, last: nat, calls: nat): nat
    decreases calls
  {
    if calls == 0 then last else AdvanceTimes(blocks, Advance(blocks, last), calls - 1)
  }

  lemma {:induction false} RunLengthShift(blocks: set<nat>, from: nat, k: nat)
    requires k <= RunLength(blocks, from)
    ensures RunLength(blocks, from) == k + RunLength(blocks, from + k)
    decreases k
  {
    if k > 0 {
      assert from + 1 in blocks;
      RunLengthShift(blocks, from + 1, k - 1);
    }
  }

  /** A walk within the run goes on exactly when the next block is a member. */
  lemma RunGoesOnIff(blocks: set<nat>, last: nat, advanced: nat)
    requires last <= advanced <= last + RunLength(blocks, last)
    ensures advanced + 1 in blocks <==> advanced < last + RunLength(blocks, last)
  {
    RunLengthShift(blocks, last, advanced - last);
  }

  /** `calls` calls move the mark by the whole run or by `calls` strides, whichever is less. */
  lemma {:induction false} AdvanceTimesExact(blocks: set<nat>, last: nat, calls: nat)
    ensures AdvanceTimes(blocks, last, calls) == last + Min(RunLength(blocks, last), calls * 10001)
    decreases calls
  {
    if calls > 0 {
      var step := Min(RunLength(blocks, last), STRIDE);
      RunLengthShift(blocks, last, step);
      AdvanceTimesExact(blocks, last + step, calls - 1);
    }
  }

  /** The frontier is reached exactly from the ceiling of run length over stride on. */
  lemma CallsToFrontier(blocks: set<nat>, last: nat, calls: nat)
    ensures var k := RunLength(blocks, last);
      AdvanceTimes(blocks, last, calls) == last + k <==> calls >= (k + 10000) / 10001
  {
    AdvanceTimesExact(blocks, last, calls);
  }

  class BlockStorage {
    var marks: map<Network, nat>                  // last_processed_blocks
    var windows: map<WindowKey, set<nat>>    // processed_blocks:<network>:<window>, set bit positions

    ghost predicate Valid()
      reads `windows
    {
      forall k, p :: k in windows && p in windows[k] ==> p < WINDOW
    }

    /** The blocks of network `n` whose bit is set. */
    ghost function Blocks(n: Network): set<nat>
      reads `windows
    {
      set k, p | k in windows && p in windows[k] && k.network == n :: k.window * WINDOW + p
    }

    ghost function Mark(n: Network): nat
      reads `marks
    {
      if n in marks then marks[n] else 0
    }

    constructor ()
      ensures Valid() && forall n :: Blocks(n) == {} && Mark(n) == 0
    {
      marks, windows := map[], map[];
    }

    /** Bit `b % 100000` of window `b / 100000` stands for block `b` and no other. */
    lemma BitIsMember(n: Network, b: nat)
      requires Valid()
      ensures b in Blocks(n) <==>
        WindowKey(n, b / 100000) in windows && b % 100000 in windows[WindowKey(n, b / 100000)]
    {
      var key := WindowKey(n, b / WINDOW);
      if key in windows && b % WINDOW in windows[key] {
        assert key.window * WINDOW + b % WINDOW == b;
      }
    }

    method GetBit(n: Network, b: nat) returns (set_: bool)
      requires Valid()
      ensures set_ <==> b in Blocks(n)
    {
      BitIsMember(n, b);
      var key := WindowKey(n, b / WINDOW);
      set_ := key in windows && b % WINDOW in windows[key];
    }

    method IsBlockProcessed(n: Network, b: nat) returns (processed: bool)
      requires Valid()
      ensures processed <==> b in Blocks(n)
    {
      processed := GetBit(n, b);
    }

    /** SETBIT, then EXPIRE; either command may fail. */
    method MarkBlockProcessed(n: Network, b: nat, setOk: bool, expireOk: bool) returns (ok: bool)
      requires Valid()
      modifies `windows
      ensures Valid()
      ensures ok <==> setOk && expireOk
      ensures Blocks(n) == old(Blocks(n)) + if setOk then {b} else {}
      ensures forall m :: m != n ==> Blocks(m) == old(Blocks(m))
    {
      if !setOk { return false; }
      var key := WindowKey(n, b / WINDOW);
      ghost var was := windows;
      var bits := if key in windows then windows[key] else {};
      windows := windows[key := bits + {b % WINDOW}];
      forall m, x | x in Blocks(m) ensures x in old(Blocks(m)) + if m == n then {b} else {} {
        var k, p :| k in windows && p in windows[k] && k.network == m && k.window * WINDOW + p == x;
        assert (k in was && p in was[k]) || (k == key && p == b % WINDOW);
      }
      forall m, x | x in old(Blocks(m)) ensures x in Blocks(m) {
        var k, p :| k in was && p in was[k] && k.network == m && k.window * WINDOW + p == x;
        assert k in windows && p in windows[k];
      }
      BitIsMember(n, b);
      ok := expireOk;
    }

    /** A window key runs out: exactly its blocks are forgotten. */
    method ExpireWindow(n: Network, w: nat)
      requires Valid()
      modifies `windows
      ensures Valid()
      ensures Blocks(n) == set b | b in old(Blocks(n)) && b / 100000 != w
      ensures forall m :: m != n ==> Blocks(m) == old(Blocks(m))
    {
      ghost var was := windows;
      windows := windows - {WindowKey(n, w)};
      forall m, x ensures x in Blocks(m) <==> x in old(Blocks(m)) && !(m == n && x / WINDOW == w) {
        if x in Blocks(m) {
          var k, p :| k in windows && p in windows[k] && k.network == m && k.window * WINDOW + p == x;
          assert k in was && p in was[k] && x / WINDOW == k.window;
        }
        if x in old(Blocks(m)) && !(m == n && x / WINDOW == w) {
          var k, p :| k in was && p in was[k] && k.network == m && k.window * WINDOW + p == x;
          assert x / WINDOW == k.window;
          assert k in windows && p in windows[k];
        }
      }
    }

    method GetLastProcessedBlock(n: Network) returns (b: nat)
      ensures b == Mark(n)
    {
      b := if n in marks then marks[n] else 0;
    }

    /** Never moves the mark backwards; HGET and HSET may fail. */
    method SetLastProcessedBlock(n: Network, b: nat, getOk: bool, setOk: bool) returns (ok: bool)
      modifies `marks
      ensures forall m :: m != n ==> Mark(m) == old(Mark(m))
      ensures ok ==> Mark(n) == if b < old(Mark(n)) then old(Mark(n)) else b
      ensures !ok ==> Mark(n) == old(Mark(n))
      ensures ok <==> getOk && (setOk || b < old(Mark(n)))
    {
      if !getOk { return false; }
      if n in marks && b < marks[n] { return true; }
      if !setOk { return false; }
      marks := marks[n := b];
      ok := true;
    }

    method ForceSetLastProcessedBlock(n: Network, b: nat)
      modifies `marks
      ensures Mark(n) == b && forall m :: m != n ==> Mark(m) == old(Mark(m))
    {
      marks := marks[n := b];
    }

    /** `commands` is the number of Redis commands that succeed before one fails. */
    method AdvanceHighWaterMark(n: Network, commands: nat) returns (ok: bool)
      requires Valid()
      modifies `marks
      ensures Mark(n) == if ok then Advance(Blocks(n), old(Mark(n))) else old(Mark(n))
      ensures forall m :: m != n ==> Mark(m) == old(Mark(m))
      ensures commands >= 10004 ==> ok
    {
      if commands == 0 { return false; }
      var last := GetLastProcessedBlock(n);
      var left := commands - 1;
      var advanced := last;
      while true
        invariant marks == old(marks)
        invariant last <= advanced < last + STRIDE
        invariant left + advanced + 1 == commands + last
        invariant advanced - last <= RunLength(Blocks(n), last)
        decreases last + STRIDE - advanced
      {
        if left == 0 { return false; }
        left := left - 1;
        var next := advanced + 1;
        var v := GetBit(n, next);
        RunGoesOnIff(Blocks(n), last, advanced);
        if !v { break; }
        advanced := next;
        if advanced - last > STRIDE - 1 { break; }
      }
      assert advanced == Advance(Blocks(n), last);
      if advanced > last {
        ok := SetLastProcessedBlock(n, advanced, left > 0, left > 1);
      } else {
        ok := true;
      }
    }
  }
}
