/** Positional numbers in any base, most significant digit first, and the change of base that keeps
    leading zeros: the arithmetic behind Base58. */
module Radix {

  ghost predicate Digits(base: nat, ds: seq<nat>) {
    forall i :: 0 <= i < |ds| ==> ds[i] < base
  }

  /** The number the digits stand for. */
  function Value(base: nat, ds: seq<nat>): nat {
    if ds == [] then 0 else Value(base, ds[..|ds| - 1]) * base + ds[|ds| - 1]
  }

  /** The shortest digits of `n`; none for 0. */
  function Shortest(base: nat, n: nat): (ds: seq<nat>)
    requires base >= 2
    ensures Digits(base, ds)
    ensures n == 0 <==> ds == []
    ensures ds != [] ==> ds[0] != 0
    decreases n
  {
    if n == 0 then [] else
      DivShrinks(n, base);
      Shortest(base, n / base) + [n % base]
  }

  function Zeros(n: nat): (z: seq<nat>)
    ensures |z| == n && forall i :: 0 <= i < n ==> z[i] == 0
  {
    seq(n, _ => 0)
  }

  function LeadingZeros(ds: seq<nat>): (n: nat)
    ensures n <= |ds| && forall i :: 0 <= i < n ==> ds[i] == 0
    ensures n < |ds| ==> ds[n] != 0
  {
    if ds == [] || ds[0] != 0 then 0 else 1 + LeadingZeros(ds[1..])
  }

  /** The same number in another base, behind as many zeros as led the original. */
  function Recode(from: nat, into: nat, ds: seq<nat>): (r: seq<nat>)
    requires into >= 2
    ensures Digits(into, r)
  {
    Zeros(LeadingZeros(ds)) + Shortest(into, Value(from, ds))
  }

  lemma DivShrinks(n: nat, base: nat)
    requires n > 0 && base >= 2
    ensures n / base < n
  {
    DivMod(n, base);
    MulGrows(n / base, base);
  }

  lemma DivMod(n: nat, base: nat)
    requires base > 0
    ensures n == n / base * base + n % base && n % base < base
  {
  }

  lemma MulGrows(q: nat, base: nat)
    requires base >= 2
    ensures q * base >= q + q
  {
  }

  lemma MulMono(a: nat, b: nat, c: nat)
    ensures a <= b ==> a * c <= b * c
  {
  }

  /** Quotient and remainder are unique. */
  lemma DivModUnique(q: nat, r: nat, base: nat)
    requires r < base
    ensures (q * base + r) / base == q && (q * base + r) % base == r
  {
    var n := q * base + r;
    var d := n / base - q;
    DivMod(n, base);
    assert d * base == r - n % base;
    var b: int := base;
    assert -b < d * b < b;
  }

  lemma {:induction false} ValueOfShortest(base: nat, n: nat)
    requires base >= 2
    ensures Value(base, Shortest(base, n)) == n
    decreases n
  {
    if n > 0 {
      DivShrinks(n, base);
      ValueOfShortest(base, n / base);
      DivMod(n, base);
      var ds := Shortest(base, n);
      assert ds[..|ds| - 1] == Shortest(base, n / base);
    }
  }

  lemma {:induction false} ZerosAddNothing(base: nat, n: nat, ds: seq<nat>)
    ensures Value(base, Zeros(n) + ds) == Value(base, ds)
    decreases |ds|, n
  {
    var all := Zeros(n) + ds;
    if ds != [] {
      ZerosAddNothing(base, n, ds[..|ds| - 1]);
      assert all[..|all| - 1] == Zeros(n) + ds[..|ds| - 1];
    } else if n > 0 {
      ZerosAddNothing(base, n - 1, ds);
      assert all[..|all| - 1] == Zeros(n - 1) + ds;
    }
  }

  /** Digits without a leading zero are the shortest digits of their value. */
  lemma {:induction false} ShortestOfValue(base: nat, ds: seq<nat>)
    requires base >= 2 && Digits(base, ds)
    requires ds != [] ==> ds[0] != 0
    ensures Shortest(base, Value(base, ds)) == ds
    decreases |ds|
  {
    if ds != [] {
      var front, last := ds[..|ds| - 1], ds[|ds| - 1];
      ShortestOfValue(base, front);
      var v := Value(base, front);
      DivModUnique(v, last, base);
      assert v > 0 || last > 0;
      if v > 0 { MulGrows(v, base); }
      assert Value(base, ds) == v * base + last;
      assert ds == front + [last];
    }
  }

  /** Changing the base and changing it back is the identity, leading and all zeros included. */
  lemma RecodeInverse(a: nat, b: nat, ds: seq<nat>)
    requires a >= 2 && b >= 2 && Digits(a, ds)
    ensures Recode(b, a, Recode(a, b, ds)) == ds
  {
    var z := LeadingZeros(ds);
    var rest := ds[z..];
    assert ds == Zeros(z) + rest;
    ZerosAddNothing(a, z, rest);
    var there := Recode(a, b, ds);
    var tail := Shortest(b, Value(a, ds));
    LeadingZerosOf(z, tail);
    ZerosAddNothing(b, z, tail);
    ValueOfShortest(b, Value(a, ds));
    ShortestOfValue(a, rest);
  }

  lemma {:induction false} LeadingZerosOf(z: nat, tail: seq<nat>)
    requires tail != [] ==> tail[0] != 0
    ensures LeadingZeros(Zeros(z) + tail) == z
    decreases z
  {
    var all := Zeros(z) + tail;
    if z > 0 {
      LeadingZerosOf(z - 1, tail);
      assert all[1..] == Zeros(z - 1) + tail;
    }
  }

  // ----- size bounds ----------------------------------------------------------------------------------

  function Pow(base: nat, e: nat): nat {
    if e == 0 then 1 else Pow(base, e - 1) * base
  }

  /** A value between two powers fixes the number of digits, and its leading part. */
  lemma {:induction false} ShortestLength(base: nat, n: nat, e: nat)
    requires base >= 2 && Pow(base, e) <= n < Pow(base, e + 1)
    ensures |Shortest(base, n)| == e + 1
    ensures Pow(base, e) * Shortest(base, n)[0] <= n < Pow(base, e) * (Shortest(base, n)[0] + 1)
    decreases e
  {
    var p := Pow(base, e);
    PowPositive(base, e);
    DivMod(n, base);
    var q, r := n / base, n % base;
    if e == 0 {
      DivModUnique(0, n, base);
      assert Shortest(base, 0) == [];
    } else {
      var p1 := Pow(base, e - 1);
      assert p == p1 * base;
      assert Pow(base, e + 1) == p * base;
      Between(q, r, p1, p, base);
      ShortestLength(base, q, e - 1);
      var d := Shortest(base, q)[0];
      assert Shortest(base, n)[0] == d;
      Scale(p1, d, q, r, base);
    }
  }

  lemma Between(q: nat, r: nat, lo: nat, hi: nat, base: nat)
    requires r < base && lo * base <= q * base + r < hi * base
    ensures lo <= q < hi
  {
    MulMono(q + 1, lo, base);
    MulMono(hi, q, base);
  }

  lemma Scale(p: nat, d: nat, q: nat, r: nat, base: nat)
    requires p * d <= q < p * (d + 1) && r < base
    ensures (p * base) * d <= q * base + r < (p * base) * (d + 1)
  {
    assert p * d * base <= q * base;
    assert (q + 1) * base <= p * (d + 1) * base;
  }

  lemma {:induction false} PowPositive(base: nat, e: nat)
    requires base >= 1
    ensures Pow(base, e) >= 1
  {
    if e > 0 { PowPositive(base, e - 1); }
  }

  /** The first digit scaled by its weight bounds the value from both sides. */
  lemma {:induction false} LeadingDigitBounds(base: nat, ds: seq<nat>)
    requires base >= 1 && ds != [] && Digits(base, ds)
    ensures Pow(base, |ds| - 1) * ds[0] <= Value(base, ds) < Pow(base, |ds| - 1) * (ds[0] + 1)
    decreases |ds|
  {
    var front, last := ds[..|ds| - 1], ds[|ds| - 1];
    if front == [] {
      assert Value(base, front) == 0;
    } else {
      LeadingDigitBounds(base, front);
      Scale(Pow(base, |front| - 1), ds[0], Value(base, front), last, base);
    }
  }
}
