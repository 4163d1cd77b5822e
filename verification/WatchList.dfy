/** Watched wallets: the Redis hash is the truth, a Bloom filter per network answers most negative
    lookups. `hash(m, s)` are the bit positions of string `s` in a filter made for `m` entries. */
module WatchList {
  import opened Common

  type Hash = (nat, string) -> set<nat>

  const MIN_CAPACITY: nat := 1000

  datatype Filter = Filter(capacity: nat, bits: set<nat>)

  datatype Store = Store(wallets: map<Network, Wallets>, filters: map<Network, Filter>)

  // ----- the operations on values ---------------------------------------------------------------------

  function Watched(s: Store, n: Network): Wallets {
    if n in s.wallets then s.wallets[n] else map[]
  }

  /** What the hash alone would answer. */
  function Exact(s: Store, n: Network, a: string): Option<string> {
    if a in Watched(s, n) then Some(Watched(s, n)[a]) else None
  }

  function MaybeContains(hash: Hash, s: Store, n: Network, a: string): bool {
    n in s.filters ==> hash(s.filters[n].capacity, a) <= s.filters[n].bits
  }

  function Lookup(hash: Hash, s: Store, n: Network, a: string): Option<string> {
    if MaybeContains(hash, s, n, a) then Exact(s, n, a) else None
  }

  function BloomAdd(hash: Hash, s: Store, n: Network, a: string): Store {
    var f := if n in s.filters then s.filters[n] else Filter(MIN_CAPACITY, {});
    s.(filters := s.filters[n := f.(bits := f.bits + hash(f.capacity, a))])
  }

  function Add(hash: Hash, s: Store, n: Network, a: string, id: string, r: Reply): Store {
    var s1 := if r.Refused? then s else s.(wallets := s.wallets[n := Watched(s, n)[a := id]]);
    if r.Done? then BloomAdd(hash, s1, n, a) else s1
  }

  function Remove(s: Store, n: Network, a: string, r: Reply): Store {
    if r.Refused? then s else s.(wallets := s.wallets[n := Watched(s, n) - {a}])
  }

  function Refresh(hash: Hash, s: Store, n: Network, ok: bool): Store {
    if !ok then s else
      var m := Watched(s, n);
      var capacity := if |m| < MIN_CAPACITY then MIN_CAPACITY else |m|;
      s.(filters := s.filters[n := Filter(capacity, set a, p | a in m && p in hash(capacity, a) :: p)])
  }

  // ----- what they do to the answers and the filters --------------------------------------------------

  /** An add that took effect is found under its address; nothing else changes. */
  lemma AddExact(hash: Hash, s: Store, n: Network, a: string, id: string, r: Reply, m: Network, b: string)
    ensures Exact(Add(hash, s, n, a, id, r), m, b) ==
      if m == n && b == a && !r.Refused? then Some(id) else Exact(s, m, b)
  {
  }

  /** A removal that took effect is no longer found; nothing else changes. */
  lemma RemoveExact(s: Store, n: Network, a: string, r: Reply, m: Network, b: string)
    ensures Exact(Remove(s, n, a, r), m, b) == if m == n && b == a && !r.Refused? then None else Exact(s, m, b)
    ensures Remove(s, n, a, r).filters == s.filters
  {
  }

  /** A refresh makes the filter for at least 1000 entries and sets the bits of the watched addresses and
      no others; it changes neither the hash nor any other filter. */
  lemma RefreshExact(hash: Hash, s: Store, n: Network, ok: bool)
    ensures var s1 := Refresh(hash, s, n, ok);
      && s1.wallets == s.wallets && s1.filters - {n} == s.filters - {n}
      && (!ok ==> s1 == s)
      && (ok ==> n in s1.filters && var f := s1.filters[n]; var w := Watched(s, n);
            && f.capacity == (if |w| <= 1000 then 1000 else |w|)
            && forall p :: p in f.bits <==> exists a :: a in w && p in hash(f.capacity, a))
  {
  }

  /** An add that was answered sets the bits of its address, in a filter for 1000 entries if there was
      none; an add that was not leaves every filter alone. */
  lemma AddFilters(hash: Hash, s: Store, n: Network, a: string, id: string, r: Reply)
    ensures var s1 := Add(hash, s, n, a, id, r);
      && s1.filters - {n} == s.filters - {n}
      && (!r.Done? ==> s1.filters == s.filters)
      && (r.Done? ==> n in s1.filters)
      && (r.Done? && n in s.filters ==>
            var f := s.filters[n]; s1.filters[n] == Filter(f.capacity, f.bits + hash(f.capacity, a)))
      && (r.Done? && n !in s.filters ==> s1.filters[n] == Filter(1000, hash(1000, a)))
  {
    assert {} + hash(1000, a) == hash(1000, a);
  }

  // ----- when the filter does not change the answer ---------------------------------------------------

  ghost predicate Agrees(hash: Hash, s: Store, n: Network) {
    forall a :: Lookup(hash, s, n, a) == Exact(s, n, a)
  }

  /** Every watched address is in the network's filter. */
  ghost predicate Filtered(hash: Hash, s: Store, n: Network) {
    n in s.filters && forall a :: a in Watched(s, n) ==> hash(s.filters[n].capacity, a) <= s.filters[n].bits
  }

  lemma AgreesIff(hash: Hash, s: Store, n: Network)
    ensures Agrees(hash, s, n) <==> n !in s.filters || Filtered(hash, s, n)
  {
    if Agrees(hash, s, n) && n in s.filters {
      forall a | a in Watched(s, n) ensures hash(s.filters[n].capacity, a) <= s.filters[n].bits {
        assert Lookup(hash, s, n, a) == Exact(s, n, a);
      }
    }
  }

  lemma RefreshFilters(hash: Hash, s: Store, n: Network)
    ensures Filtered(hash, Refresh(hash, s, n, true), n)
  {
    var s1 := Refresh(hash, s, n, true);
    var c := s1.filters[n].capacity;
    forall a | a in Watched(s1, n) ensures hash(c, a) <= s1.filters[n].bits {
      forall p | p in hash(c, a) ensures p in s1.filters[n].bits {}
    }
  }

  /** An add on a network without a filter creates one holding only the new address: lookups stay exact
      exactly when that filter happens to hold every address watched before. */
  lemma AddWithoutFilterIff(hash: Hash, s: Store, n: Network, a: string, id: string)
    requires n !in s.filters
    ensures Agrees(hash, Add(hash, s, n, a, id, Done), n) <==>
      forall x :: x in Watched(s, n) ==> hash(MIN_CAPACITY, x) <= hash(MIN_CAPACITY, a)
  {
    var s1 := Add(hash, s, n, a, id, Done);
    AgreesIff(hash, s1, n);
    assert s1.filters[n].bits == hash(MIN_CAPACITY, a);
    assert forall x :: x in Watched(s1, n) <==> x in Watched(s, n) || x == a;
  }

  /** An add whose reply is lost is in the hash but not in the filter: on a filtered network lookups
      stay exact exactly when the filter held the address already. */
  lemma AddWithLostReplyIff(hash: Hash, s: Store, n: Network, a: string, id: string)
    requires Filtered(hash, s, n)
    ensures Agrees(hash, Add(hash, s, n, a, id, Lost), n) <==> MaybeContains(hash, s, n, a)
  {
    var s1 := Add(hash, s, n, a, id, Lost);
    AgreesIff(hash, s1, n);
    assert forall x :: x in Watched(s1, n) <==> x in Watched(s, n) || x == a;
  }

  // ----- two traces in which a watched wallet is not found --------------------------------------------------

  /** A filter that sets one bit, at the length of the address. */
  const BY_LENGTH: Hash := (m, s) => {|s|}

  /** The seed is necessary: without one, adding a second wallet hides the first. */
  lemma UnseededAddHides()
    ensures var s := Store(map["net" := map["a" := "w1"]], map[]);
      var s1 := Add(BY_LENGTH, s, "net", "bb", "w2", Done);
      && Lookup(BY_LENGTH, s, "net", "a") == Some("w1") == Exact(s, "net", "a")
      && Lookup(BY_LENGTH, s1, "net", "a") == None && Exact(s1, "net", "a") == Some("w1")
  {
    var s := Store(map["net" := map["a" := "w1"]], map[]);
    var s1 := Add(BY_LENGTH, s, "net", "bb", "w2", Done);
    assert s1.filters["net"].bits == {2};
    assert 1 in BY_LENGTH(MIN_CAPACITY, "a");
  }

  /** After a seed, an add whose reply is lost is in the hash and is not found. */
  lemma LostReplyHides()
    ensures var s := Refresh(BY_LENGTH, Store(map[], map[]), "net", true);
      var s1 := Add(BY_LENGTH, s, "net", "a", "w1", Lost);
      Filtered(BY_LENGTH, s, "net") && Lookup(BY_LENGTH, s1, "net", "a") == None && Exact(s1, "net", "a") == Some("w1")
  {
    RefreshFilters(BY_LENGTH, Store(map[], map[]), "net");
    var s := Refresh(BY_LENGTH, Store(map[], map[]), "net", true);
    assert s.filters["net"].bits == {};
    assert 1 in BY_LENGTH(MIN_CAPACITY, "a");
  }

  // ----- every sequence of operations -----------------------------------------------------------------

  datatype Op =
    | AddOp(network: Network, address: string, id: string, reply: Reply)
    | RemoveOp(network: Network, address: string, reply: Reply)
    | RefreshOp(network: Network, ok: bool)

  function Apply(hash: Hash, s: Store, op: Op): Store {
    match op
    case AddOp(n, a, id, r) => Add(hash, s, n, a, id, r)
    case RemoveOp(n, a, r) => Remove(s, n, a, r)
    case RefreshOp(n, ok) => Refresh(hash, s, n, ok)
  }

  function ApplyAll(hash: Hash, s: Store, ops: seq<Op>): Store {
    if ops == [] then s else Apply(hash, ApplyAll(hash, s, ops[..|ops| - 1]), ops[|ops| - 1])
  }

  lemma ApplyKeeps(hash: Hash, s: Store, op: Op, n: Network)
    requires Filtered(hash, s, n) && !(op.AddOp? && op.network == n && op.reply.Lost?)
    ensures Filtered(hash, Apply(hash, s, op), n)
  {
    if op.RefreshOp? && op.ok && op.network == n {
      RefreshFilters(hash, s, n);
    } else if op.AddOp? && op.network == n {
      var s1 := Apply(hash, s, op);
      assert forall x :: x in Watched(s1, n) ==> x in Watched(s, n) || (x == op.address && op.reply.Done?);
    } else if op.RemoveOp? && op.network == n {
      var s1 := Apply(hash, s, op);
      assert forall x :: x in Watched(s1, n) ==> x in Watched(s, n);
    } else {
      assert Watched(Apply(hash, s, op), n) == Watched(s, n);
    }
  }

  /** Once a network's filter was seeded, lookups through it answer what the hash alone would, after any
      sequence of adds, removals and refreshes on any networks in which no add's reply was lost. */
  lemma {:induction false} SeededStaysExact(hash: Hash, s: Store, ops: seq<Op>, n: Network)
    requires Filtered(hash, s, n)
    requires forall i :: 0 <= i < |ops| ==> !(ops[i].AddOp? && ops[i].network == n && ops[i].reply.Lost?)
    ensures Filtered(hash, ApplyAll(hash, s, ops), n) && Agrees(hash, ApplyAll(hash, s, ops), n)
    decreases |ops|
  {
    AgreesIff(hash, ApplyAll(hash, s, ops), n);
    if ops != [] {
      SeededStaysExact(hash, s, ops[..|ops| - 1], n);
      ApplyKeeps(hash, ApplyAll(hash, s, ops[..|ops| - 1]), ops[|ops| - 1], n);
    }
  }

  /** Reference: what the last add or removal of address `a` that took effect left, or else `before`. */
  function LastWritten(ops: seq<Op>, n: Network, a: string, before: Option<string>): Option<string> {
    if ops == [] then before else
      var op := ops[|ops| - 1];
      if op.RefreshOp? || op.reply.Refused? || op.network != n || op.address != a then
        LastWritten(ops[..|ops| - 1], n, a, before)
      else if op.AddOp? then Some(op.id)
      else None
  }

  /** After any operations the hash answers what the last one on the address that took effect left. */
  lemma {:induction false} ExactIsLastWritten(hash: Hash, s: Store, ops: seq<Op>, n: Network, a: string)
    ensures Exact(ApplyAll(hash, s, ops), n, a) == LastWritten(ops, n, a, Exact(s, n, a))
    decreases |ops|
  {
    if ops != [] {
      var front, op := ops[..|ops| - 1], ops[|ops| - 1];
      ExactIsLastWritten(hash, s, front, n, a);
      var s1 := ApplyAll(hash, s, front);
      match op
      case AddOp(m, b, id, r) => AddExact(hash, s1, m, b, id, r, n, a);
      case RemoveOp(m, b, r) => RemoveExact(s1, m, b, r, n, a);
      case RefreshOp(m, ok) => RefreshExact(hash, s1, m, ok);
    }
  }

  /** So do lookups through a filter that was seeded, if no add's reply was lost. */
  lemma LookupIsLastWritten(hash: Hash, s: Store, ops: seq<Op>, n: Network, a: string)
    requires Filtered(hash, s, n)
    requires forall i :: 0 <= i < |ops| ==> !(ops[i].AddOp? && ops[i].network == n && ops[i].reply.Lost?)
    ensures Lookup(hash, ApplyAll(hash, s, ops), n, a) == LastWritten(ops, n, a, Exact(s, n, a))
  {
    SeededStaysExact(hash, s, ops, n);
    ExactIsLastWritten(hash, s, ops, n, a);
  }

  // ----- the objects ----------------------------------------------------------------------------------

  class WalletStorage {
    const hash: Hash
    var wallets: map<Network, Wallets>
    var filters: map<Network, Filter>

    ghost function Value(): Store
      reads this
    {
      Store(wallets, filters)
    }

    /** A new process on an existing Redis: no filters yet. */
    constructor (hash: Hash, wallets: map<Network, Wallets>)
      ensures this.hash == hash && Value() == Store(wallets, map[])
    {
      this.hash, this.wallets, this.filters := hash, wallets, map[];
    }

    /** Rebuilds one filter address by address, in whatever order. */
    method RefreshFilter(n: Network, ok: bool)
      modifies `filters
      ensures Value() == Refresh(hash, old(Value()), n, ok)
    {
      if !ok { return; }
      var m := if n in wallets then wallets[n] else map[];
      var capacity := if |m| < MIN_CAPACITY then MIN_CAPACITY else |m|;
      var bits, left := {}, m.Keys;
      while left != {}
        invariant left <= m.Keys && filters == old(filters)
        invariant bits == set a, p | a in m.Keys - left && p in hash(capacity, a) :: p
        decreases |left|
      {
        var a :| a in left;
        left := left - {a};
        bits := bits + hash(capacity, a);
      }
      ghost var goal := Refresh(hash, old(Value()), n, true);
      assert bits == goal.filters[n].bits;
      filters := filters[n := Filter(capacity, bits)];
      assert filters == goal.filters;
    }

    /** Seeds one network after the other; a failed read of the hash ends the seeding. */
    method SeedAll(networks: seq<Network>, fails: set<Network>) returns (ok: bool)
      modifies `filters
      ensures wallets == old(wallets)
      ensures ok <==> forall i :: 0 <= i < |networks| ==> networks[i] !in fails
      ensures ok ==> forall i :: 0 <= i < |networks| ==> Filtered(hash, Value(), networks[i])
      ensures filters.Keys <= old(filters.Keys) + set i | 0 <= i < |networks| :: networks[i]
    {
      for i := 0 to |networks|
        invariant wallets == old(wallets)
        invariant forall j :: 0 <= j < i ==> networks[j] !in fails && Filtered(hash, Value(), networks[j])
        invariant filters.Keys <= old(filters.Keys) + set j | 0 <= j < |networks| :: networks[j]
      {
        if networks[i] in fails { return false; }
        ghost var before := Value();
        RefreshFilter(networks[i], true);
        RefreshFilters(hash, before, networks[i]);
        forall j | 0 <= j < i ensures Filtered(hash, Value(), networks[j]) {
          ApplyKeeps(hash, before, RefreshOp(networks[i], true), networks[j]);
        }
      }
      ok := true;
    }

    method AddWatchedWallet(n: Network, a: string, id: string, r: Reply) returns (ok: bool)
      modifies `wallets, `filters
      ensures Value() == Add(hash, old(Value()), n, a, id, r)
      ensures ok <==> r.Done?
    {
      if !r.Refused? {
        wallets := wallets[n := (if n in wallets then wallets[n] else map[])[a := id]];
      }
      if !r.Done? { return false; }
      if n !in filters {
        filters := filters[n := Filter(MIN_CAPACITY, {})];
      }
      var f := filters[n];
      filters := filters[n := f.(bits := f.bits + hash(f.capacity, a))];
      ok := true;
    }

    method RemoveWatchedWallet(n: Network, a: string, r: Reply) returns (ok: bool)
      modifies `wallets
      ensures Value() == Remove(old(Value()), n, a, r)
      ensures ok <==> r.Done?
    {
      if !r.Refused? {
        wallets := wallets[n := (if n in wallets then wallets[n] else map[]) - {a}];
      }
      ok := r.Done?;
    }

    /** Bloom pre-check, then HGET; a failed HGET is reported, a filtered negative never asks Redis. */
    method IsWatchedWallet(n: Network, a: string, getOk: bool) returns (id: Option<string>, failed: bool)
      ensures !failed ==> id == Lookup(hash, Value(), n, a)
      ensures failed <==> !getOk && MaybeContains(hash, Value(), n, a)
    {
      if n in filters && !(hash(filters[n].capacity, a) <= filters[n].bits) {
        return None, false;
      }
      if !getOk { return None, true; }
      id := if n in wallets && a in wallets[n] then Some(wallets[n][a]) else None;
      failed := false;
    }
  }
}
