/** Sums over finite sets of strings. */
module Sums {

  ghost function Sum(keys: set<string>, f: string -> int): int {
    if keys == {} then 0 else
      var k :| k in keys;
      f(k) + Sum(keys - {k}, f)
  }

  /** Any element can be taken out first. */
  lemma {:induction false} SumTake(keys: set<string>, f: string -> int, x: string)
    requires x in keys
    ensures Sum(keys, f) == f(x) + Sum(keys - {x}, f)
    decreases |keys|
  {
    var k :| k in keys && Sum(keys, f) == f(k) + Sum(keys - {k}, f);
    if k != x {
      SumTake(keys - {k}, f, x);
      SumTake(keys - {x}, f, k);
      assert keys - {k} - {x} == keys - {x} - {k};
    }
  }

  lemma {:induction false} SumDifference(keys: set<string>, f: string -> int, g: string -> int, h: string -> int)
    requires forall k :: k in keys ==> h(k) == f(k) - g(k)
    ensures Sum(keys, h) == Sum(keys, f) - Sum(keys, g)
    decreases |keys|
  {
    if keys != {} {
      var k :| k in keys;
      SumDifference(keys - {k}, f, g, h);
      SumTake(keys, f, k);
      SumTake(keys, g, k);
      SumTake(keys, h, k);
    }
  }

  lemma {:induction false} SumSame(keys: set<string>, f: string -> int, g: string -> int)
    requires forall k :: k in keys ==> f(k) == g(k)
    ensures Sum(keys, f) == Sum(keys, g)
    decreases |keys|
  {
    if keys != {} {
      var k :| k in keys;
      SumSame(keys - {k}, f, g);
      SumTake(keys, f, k);
      SumTake(keys, g, k);
    }
  }

  lemma {:induction false} SumZero(keys: set<string>, f: string -> int)
    requires forall k :: k in keys ==> f(k) == 0
    ensures Sum(keys, f) == 0
    decreases |keys|
  {
    if keys != {} {
      var k :| k in keys;
      SumZero(keys - {k}, f);
      SumTake(keys, f, k);
    }
  }

  /** Changing one summand changes the sum by as much. */
  lemma SumBump(keys: set<string>, f: string -> int, g: string -> int, x: string)
    requires x in keys && forall k :: k in keys && k != x ==> f(k) == g(k)
    ensures Sum(keys, g) == Sum(keys, f) + g(x) - f(x)
  {
    SumTake(keys, f, x);
    SumTake(keys, g, x);
    SumSame(keys - {x}, f, g);
  }

  /** Keys on which the summand is 0 do not matter. */
  lemma {:induction false} SumExtend(keys: set<string>, more: set<string>, f: string -> int)
    requires keys <= more && forall k :: k in more - keys ==> f(k) == 0
    ensures Sum(more, f) == Sum(keys, f)
    decreases |more - keys|
  {
    if more - keys == {} {
      assert more == keys;
    } else {
      var x :| x in more - keys;
      assert more - {x} - keys == more - keys - {x};
      SumExtend(keys, more - {x}, f);
      SumTake(more, f, x);
    }
  }

  lemma {:induction false} SumNonNegative(keys: set<string>, f: string -> int)
    requires forall k :: k in keys ==> f(k) >= 0
    ensures Sum(keys, f) >= 0
    decreases |keys|
  {
    if keys != {} {
      var k :| k in keys;
      SumNonNegative(keys - {k}, f);
      SumTake(keys, f, k);
    }
  }

  /** A zero sum with a positive summand has a negative one, and the other way round. */
  lemma OppositeExists(keys: set<string>, f: string -> int, x: string)
    requires Sum(keys, f) == 0 && x in keys && f(x) != 0
    ensures exists k :: k in keys && k != x && (f(k) < 0 < f(x) || f(x) < 0 < f(k))
  {
    SumTake(keys, f, x);
    var rest := keys - {x};
    var minus := (k: string) => -f(k);
    var zero := (k: string) => 0;
    SumZero(rest, zero);
    SumDifference(rest, zero, f, minus);
    if f(x) > 0 && forall k :: k in rest ==> f(k) >= 0 {
      SumNonNegative(rest, f);
    } else if f(x) < 0 && forall k :: k in rest ==> f(k) <= 0 {
      SumNonNegative(rest, minus);
    }
  }

  /** One member less to do. */
  lemma MoveOver<T>(done: set<T>, left: set<T>, k: T)
    requires done !! left && k in left
    ensures done + {k} + (left - {k}) == done + left && done + {k} !! left - {k}
    ensures |left - {k}| < |left|
  {
  }
}
