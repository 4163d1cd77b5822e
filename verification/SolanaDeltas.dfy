/** Token balance deltas of a Solana transaction: aggregation by owner and mint, conservation, and the
    search for a counterparty. */
module SolanaDeltas {
  import opened Common
  import opened Sums

  /** One entry of preTokenBalances or postTokenBalances; no amount when it does not parse. */
  datatype TokenBalance = TokenBalance(accountIndex: nat, mint: string, owner: string, amount: Option<int>)

  datatype TokenDelta = TokenDelta(owner: string, mint: string, amount: int)

  type Deltas = map<string, TokenDelta>

  function Key(owner: string, mint: string): string {
    owner + ":" + mint
  }

  /** The entries that aggregation takes into account. */
  predicate Counts(b: TokenBalance, tokens: set<string>) {
    b.mint in tokens && b.owner != "" && b.amount.Some?
  }

  // ----- aggregation ----------------------------------------------------------------------------------

  function Added(result: Deltas, b: TokenBalance, tokens: set<string>): Deltas {
    if !Counts(b, tokens) then result else
      var key := Key(b.owner, b.mint);
      var current := if key in result then result[key] else TokenDelta(b.owner, b.mint, 0);
      result[key := current.(amount := current.amount + b.amount.value)]
  }

  function Aggregate(balances: seq<TokenBalance>, tokens: set<string>): Deltas {
    if balances == [] then map[]
    else Added(Aggregate(balances[..|balances| - 1], tokens), balances[|balances| - 1], tokens)
  }

  method AggregateTokenBalances(balances: seq<TokenBalance>, tokens: set<string>) returns (result: Deltas)
    ensures result == Aggregate(balances, tokens)
  {
    result := map[];
    for i := 0 to |balances|
      invariant result == Aggregate(balances[..i], tokens)
    {
      assert balances[..i + 1][..i] == balances[..i];
      var balance := balances[i];
      if balance.mint !in tokens || balance.owner == "" || balance.amount.None? { continue; }
      var key := Key(balance.owner, balance.mint);
      var current := if key in result then result[key] else TokenDelta(balance.owner, balance.mint, 0);
      result := result[key := current.(amount := current.amount + balance.amount.value)];
    }
    assert balances[..|balances|] == balances;
  }

  /** Reference: what owner `o` holds of mint `m` according to the entries. */
  function Held(balances: seq<TokenBalance>, tokens: set<string>, o: string, m: string): int {
    if balances == [] then 0 else
      var b := balances[|balances| - 1];
      Held(balances[..|balances| - 1], tokens, o, m) +
      if Counts(b, tokens) && b.owner == o && b.mint == m then b.amount.value else 0
  }

  predicate Listed(balances: seq<TokenBalance>, tokens: set<string>, o: string, m: string) {
    exists i :: 0 <= i < |balances| && Counts(balances[i], tokens) && balances[i].owner == o && balances[i].mint == m
  }

  // ----- when keys identify owner and mint --------------------------------------------------------------

  predicate EndsWith(s: string, suffix: string) {
    |suffix| <= |s| && s[|s| - |suffix|..] == suffix
  }

  /** No configured mint ends with a colon and another configured mint. */
  predicate Unambiguous(tokens: set<string>) {
    forall m, m' :: m in tokens && m' in tokens ==> !EndsWith(m', ":" + m)
  }

  lemma ColonFreeUnambiguous(tokens: set<string>)
    requires forall m :: m in tokens ==> ':' !in m
    ensures Unambiguous(tokens)
  {
    forall m, m' | m in tokens && m' in tokens ensures !EndsWith(m', ":" + m) {
      if EndsWith(m', ":" + m) { ColonIn(m, m'); }
    }
  }

  lemma ColonIn(m: string, m': string)
    requires EndsWith(m', ":" + m)
    ensures ':' in m'
  {
    assert m'[|m'| - |m| - 1] == (":" + m)[0];
  }

  lemma KeyEqual(o: string, m: string, o': string, m': string)
    requires Key(o, m) == Key(o', m') && |m| <= |m'|
    ensures (o == o' && m == m') || EndsWith(m', ":" + m)
  {
    var k := Key(o, m);
    assert k[|o|..] == ":" + m && k[|o'|..] == ":" + m';
    if |m| == |m'| {
      assert k[..|o|] == o && k[..|o'|] == o';
      assert k[|o| + 1..] == m && k[|o'| + 1..] == m';
    } else {
      var d := |m'| - |m| - 1;
      assert m'[d..] == k[|o|..] by {
        assert k[|o'| + 1..] == m';
        assert k[|o|..] == k[|o'| + 1..][d..];
      }
    }
  }

  /** Different owner-mint pairs have different keys exactly when the mints are unambiguous. */
  lemma KeysIdentify(tokens: set<string>)
    ensures Unambiguous(tokens) <==>
      forall o, m, o', m' :: m in tokens && m' in tokens && Key(o, m) == Key(o', m') ==> o == o' && m == m'
  {
    if Unambiguous(tokens) {
      forall o, m, o', m' | m in tokens && m' in tokens && Key(o, m) == Key(o', m') ensures o == o' && m == m' {
        if |m| <= |m'| { KeyEqual(o, m, o', m'); } else { KeyEqual(o', m', o, m); }
      }
    } else {
      var m, m' :| m in tokens && m' in tokens && EndsWith(m', ":" + m);
      var x := m'[..|m'| - |m| - 1];
      assert m' == x + (":" + m);
      assert Key("a:" + x, m) == Key("a", m');
      assert |"a:" + x| != |"a"|;
    }
  }

  /** With unambiguous mints every entry is under its own key with exactly what its owner holds. */
  lemma {:induction false} AggregateExact(balances: seq<TokenBalance>, tokens: set<string>, o: string, m: string)
    requires Unambiguous(tokens) && m in tokens
    ensures var r := Aggregate(balances, tokens);
      && (Key(o, m) in r <==> Listed(balances, tokens, o, m))
      && (Key(o, m) in r ==> r[Key(o, m)] == TokenDelta(o, m, Held(balances, tokens, o, m)))
      && (Key(o, m) !in r ==> Held(balances, tokens, o, m) == 0)
    decreases |balances|
  {
    if balances != [] {
      var n := |balances| - 1;
      var b := balances[n];
      AggregateExact(balances[..n], tokens, o, m);
      ListedSnoc(balances, tokens, o, m);
      if Counts(b, tokens) && Key(b.owner, b.mint) == Key(o, m) {
        KeysIdentify(tokens);
      }
    }
  }

  lemma ListedSnoc(balances: seq<TokenBalance>, tokens: set<string>, o: string, m: string)
    requires balances != []
    ensures var n := |balances| - 1;
      Listed(balances, tokens, o, m) <==>
        Listed(balances[..n], tokens, o, m) ||
        (Counts(balances[n], tokens) && balances[n].owner == o && balances[n].mint == m)
  {
    var n := |balances| - 1;
    var front := balances[..n];
    if Listed(front, tokens, o, m) {
      var i :| 0 <= i < |front| && Counts(front[i], tokens) && front[i].owner == o && front[i].mint == m;
      assert balances[i] == front[i];
    }
    if Listed(balances, tokens, o, m) {
      var i :| 0 <= i < |balances| && Counts(balances[i], tokens) && balances[i].owner == o && balances[i].mint == m;
      if i < n { assert front[i] == balances[i]; }
    }
  }

  /** Every key is that of the owner and mint stored under it. */
  lemma {:induction false} AggregateKeys(balances: seq<TokenBalance>, tokens: set<string>, k: string)
    requires k in Aggregate(balances, tokens)
    ensures var d := Aggregate(balances, tokens)[k]; k == Key(d.owner, d.mint) && d.mint in tokens && d.owner != ""
    decreases |balances|
  {
    var n := |balances| - 1;
    if k in Aggregate(balances[..n], tokens) {
      AggregateKeys(balances[..n], tokens, k);
    }
  }

  // ----- deltas ---------------------------------------------------------------------------------------

  function AmountAt(d: Deltas, k: string): int {
    if k in d then d[k].amount else 0
  }

  /** Reference: post minus pre under every key of either. */
  function DeltasOf(pre: Deltas, post: Deltas): Deltas {
    map k | k in pre.Keys + post.Keys ::
      (if k in post then post[k] else pre[k]).(amount := AmountAt(post, k) - AmountAt(pre, k))
  }

  /** The post entries, and zero entries for the keys of `done` that have none. */
  function Filled(pre: Deltas, post: Deltas, done: set<string>): Deltas
    requires done <= pre.Keys
  {
    map k | k in done + post.Keys :: if k in post then post[k] else pre[k].(amount := 0)
  }

  lemma FilledNext(pre: Deltas, post: Deltas, done: set<string>, key: string)
    requires done <= pre.Keys && key in pre && key !in done
    ensures Filled(pre, post, done + {key}) ==
      if key in Filled(pre, post, done) then Filled(pre, post, done)
      else Filled(pre, post, done)[key := pre[key].(amount := 0)]
  {
    var m := Filled(pre, post, done);
    if key in m {
      assert done + {key} + post.Keys == done + post.Keys;
    } else {
      assert (done + {key} + post.Keys) == (done + post.Keys) + {key};
    }
  }

  lemma FilledFirst(pre: Deltas, post: Deltas)
    ensures Filled(pre, post, {}) == post
  {
    assert {} + post.Keys == post.Keys;
  }

  /** First map loop of tokenDeltas: owners that hold nothing any more, in whatever order. */
  method FillMissing(pre: Deltas, post: Deltas) returns (result: Deltas)
    ensures result == Filled(pre, post, pre.Keys)
  {
    result := post;
    var left := pre.Keys;
    ghost var done := {};
    FilledFirst(pre, post);
    while left != {}
      invariant done + left == pre.Keys && done !! left
      invariant result == Filled(pre, post, done)
      decreases |left|
    {
      var key :| key in left;
      assert key in pre.Keys;
      FilledNext(pre, post, done, key);
      if key !in result {
        result := result[key := pre[key].(amount := 0)];
      }
      MoveOver(done, left, key);
      left, done := left - {key}, done + {key};
    }
    assert done == pre.Keys;
  }

  function Less(pre: Deltas, k: string, t: TokenDelta): TokenDelta {
    t.(amount := t.amount - AmountAt(pre, k))
  }

  /** The entries, with those of `done` reduced by their pre amounts. */
  function Reduced(pre: Deltas, filled: Deltas, done: set<string>): Deltas {
    map k | k in filled :: if k in done then Less(pre, k, filled[k]) else filled[k]
  }

  lemma ReducedNext(pre: Deltas, filled: Deltas, done: set<string>, key: string)
    requires key in filled && key !in done
    ensures key in Reduced(pre, filled, done) && Reduced(pre, filled, done)[key] == filled[key]
    ensures Reduced(pre, filled, done + {key}) == Reduced(pre, filled, done)[key := Less(pre, key, filled[key])]
  {
  }

  lemma ReducedFirst(pre: Deltas, filled: Deltas)
    ensures Reduced(pre, filled, {}) == filled
  {
  }

  /** Second map loop: subtraction under each key, in whatever order. */
  method SubtractPre(pre: Deltas, filled: Deltas) returns (result: Deltas)
    ensures result == Reduced(pre, filled, filled.Keys)
  {
    result := filled;
    var left := filled.Keys;
    ghost var done := {};
    ReducedFirst(pre, filled);
    while left != {}
      invariant done + left == filled.Keys && done !! left
      invariant result == Reduced(pre, filled, done)
      decreases |left|
    {
      var key :| key in left;
      assert key in filled.Keys;
      ReducedNext(pre, filled, done, key);
      var preAmount := if key in pre then pre[key].amount else 0;
      var t := result[key];
      result := result[key := t.(amount := t.amount - preAmount)];
      MoveOver(done, left, key);
      left, done := left - {key}, done + {key};
    }
    assert done == filled.Keys;
  }

  lemma ReducedIsDeltas(pre: Deltas, post: Deltas)
    ensures Reduced(pre, Filled(pre, post, pre.Keys), Filled(pre, post, pre.Keys).Keys) == DeltasOf(pre, post)
  {
  }

  method TokenDeltas(preBalances: seq<TokenBalance>, postBalances: seq<TokenBalance>, tokens: set<string>)
    returns (result: Deltas)
    ensures result == DeltasOf(Aggregate(preBalances, tokens), Aggregate(postBalances, tokens))
  {
    var pre := AggregateTokenBalances(preBalances, tokens);
    var post := AggregateTokenBalances(postBalances, tokens);
    var filled := FillMissing(pre, post);
    result := SubtractPre(pre, filled);
    ReducedIsDeltas(pre, post);
  }

  function Delta(pre: seq<TokenBalance>, post: seq<TokenBalance>, tokens: set<string>): Deltas {
    DeltasOf(Aggregate(pre, tokens), Aggregate(post, tokens))
  }

  /** Each delta is what its owner holds after minus what it held before; owners listed on neither side have none. */
  lemma DeltaExact(pre: seq<TokenBalance>, post: seq<TokenBalance>, tokens: set<string>, o: string, m: string)
    requires Unambiguous(tokens) && m in tokens
    ensures var d := Delta(pre, post, tokens);
      && (Key(o, m) in d <==> Listed(pre, tokens, o, m) || Listed(post, tokens, o, m))
      && (Key(o, m) in d ==> d[Key(o, m)].owner == o && d[Key(o, m)].mint == m)
      && AmountAt(d, Key(o, m)) == Held(post, tokens, o, m) - Held(pre, tokens, o, m)
  {
    AggregateExact(pre, tokens, o, m);
    AggregateExact(post, tokens, o, m);
  }

  lemma DeltaKeys(pre: seq<TokenBalance>, post: seq<TokenBalance>, tokens: set<string>, k: string)
    requires k in Delta(pre, post, tokens)
    ensures var d := Delta(pre, post, tokens)[k]; k == Key(d.owner, d.mint) && d.mint in tokens && d.owner != ""
  {
    if k in Aggregate(post, tokens) { AggregateKeys(post, tokens, k); } else { AggregateKeys(pre, tokens, k); }
  }

  // ----- conservation ---------------------------------------------------------------------------------

  /** Reference: everything the entries list of mint `m`. */
  function Total(balances: seq<TokenBalance>, tokens: set<string>, m: string): int {
    if balances == [] then 0 else
      var b := balances[|balances| - 1];
      Total(balances[..|balances| - 1], tokens, m) + if Counts(b, tokens) && b.mint == m then b.amount.value else 0
  }

  function OfMint(d: Deltas, m: string): string -> int {
    (k: string) => if k in d && d[k].mint == m then d[k].amount else 0
  }

  lemma {:induction false} AggregateConserves(balances: seq<TokenBalance>, tokens: set<string>, m: string)
    requires Unambiguous(tokens)
    ensures var r := Aggregate(balances, tokens); Sum(r.Keys, OfMint(r, m)) == Total(balances, tokens, m)
    decreases |balances|
  {
    if balances == [] {
    } else {
      var n := |balances| - 1;
      var b := balances[n];
      AggregateConserves(balances[..n], tokens, m);
      var r := Aggregate(balances[..n], tokens);
      if Counts(b, tokens) {
        var key := Key(b.owner, b.mint);
        if key in r {
          AggregateKeys(balances[..n], tokens, key);
          KeysIdentify(tokens);
        }
        AddConserves(r, Added(r, b, tokens), key, m);
      }
    }
  }

  lemma AddConserves(r: Deltas, r': Deltas, key: string, m: string)
    requires key in r' && r' == r[key := r'[key]]
    requires key in r ==> r'[key].mint == r[key].mint
    ensures Sum(r'.Keys, OfMint(r', m)) ==
      Sum(r.Keys, OfMint(r, m)) + if r'[key].mint == m then r'[key].amount - AmountAt(r, key) else 0
  {
    assert r'.Keys == r.Keys + {key};
    SumExtend(r.Keys, r'.Keys, OfMint(r, m));
    SumBump(r'.Keys, OfMint(r, m), OfMint(r', m), key);
  }

  /** Per mint, the deltas add up to what came in minus what there was. */
  lemma DeltasConserve(pre: seq<TokenBalance>, post: seq<TokenBalance>, tokens: set<string>, m: string)
    requires Unambiguous(tokens)
    ensures var d := Delta(pre, post, tokens);
      Sum(d.Keys, OfMint(d, m)) == Total(post, tokens, m) - Total(pre, tokens, m)
  {
    var p, q, d := Aggregate(pre, tokens), Aggregate(post, tokens), Delta(pre, post, tokens);
    AggregateConserves(pre, tokens, m);
    AggregateConserves(post, tokens, m);
    SumExtend(p.Keys, d.Keys, OfMint(p, m));
    SumExtend(q.Keys, d.Keys, OfMint(q, m));
    forall k | k in d.Keys ensures OfMint(d, m)(k) == OfMint(q, m)(k) - OfMint(p, m)(k) {
      SameMint(pre, post, tokens, k);
    }
    SumDifference(d.Keys, OfMint(q, m), OfMint(p, m), OfMint(d, m));
  }

  lemma SameMint(pre: seq<TokenBalance>, post: seq<TokenBalance>, tokens: set<string>, k: string)
    requires Unambiguous(tokens)
    ensures var p, q := Aggregate(pre, tokens), Aggregate(post, tokens);
      k in p && k in q ==> p[k].mint == q[k].mint
  {
    var p, q := Aggregate(pre, tokens), Aggregate(post, tokens);
    if k in p && k in q {
      AggregateKeys(pre, tokens, k);
      AggregateKeys(post, tokens, k);
      KeysIdentify(tokens);
    }
  }

  // ----- the counterparty -----------------------------------------------------------------------------

  /** Another entry of the same mint whose delta has the other sign. */
  predicate Opposite(d: Deltas, key: string, k: string) {
    key in d && k in d && k != key && d[k].mint == d[key].mint &&
    (d[k].amount < 0 < d[key].amount || d[key].amount < 0 < d[k].amount)
  }

  /** The owner of such an entry, or the empty string when there is none. */
  ghost predicate IsCounterparty(d: Deltas, key: string, owner: string) {
    if exists k :: Opposite(d, key, k) then exists k :: Opposite(d, key, k) && d[k].owner == owner
    else owner == ""
  }

  /** The search loop, in whatever order the map is iterated. */
  method OppositeTokenOwner(d: Deltas, key: string) returns (owner: string)
    requires key in d && d[key].amount != 0
    ensures IsCounterparty(d, key, owner)
  {
    var left := d.Keys;
    while left != {}
      invariant left <= d.Keys
      invariant forall k :: k in d.Keys - left ==> !Opposite(d, key, k)
      decreases |left|
    {
      var k :| k in left;
      left := left - {k};
      if k == key || d[k].mint != d[key].mint || d[k].amount == 0 { continue; }
      if (d[k].amount > 0) != (d[key].amount > 0) {
        assert Opposite(d, key, k);
        return d[k].owner;
      }
    }
    owner := "";
  }

  /** When as much of a mint is there after as before, every nonzero delta has a counterparty, and any
      counterparty is a different, named owner. */
  lemma CounterpartyExists(pre: seq<TokenBalance>, post: seq<TokenBalance>, tokens: set<string>, key: string)
    requires Unambiguous(tokens) && key in Delta(pre, post, tokens)
    requires var d := Delta(pre, post, tokens)[key];
      d.amount != 0 && Total(pre, tokens, d.mint) == Total(post, tokens, d.mint)
    ensures var d := Delta(pre, post, tokens);
      && (exists k :: Opposite(d, key, k))
      && (forall k :: Opposite(d, key, k) ==> d[k].owner != "" && d[k].owner != d[key].owner)
  {
    var d := Delta(pre, post, tokens);
    var m := d[key].mint;
    DeltasConserve(pre, post, tokens, m);
    OppositeExists(d.Keys, OfMint(d, m), key);
    var k :| k in d.Keys && k != key &&
      (OfMint(d, m)(k) < 0 < OfMint(d, m)(key) || OfMint(d, m)(key) < 0 < OfMint(d, m)(k));
    assert Opposite(d, key, k);
    DeltaKeys(pre, post, tokens, key);
    forall k | Opposite(d, key, k) ensures d[k].owner != "" && d[k].owner != d[key].owner {
      DeltaKeys(pre, post, tokens, k);
    }
  }
}
