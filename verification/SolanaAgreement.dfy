/** When balances explain transfers, both token paths publish the same net amounts. */
module SolanaAgreement {
  import opened Common
  import opened Events
  import opened Sums
  import opened SolanaDeltas
  import opened SolanaTransfers

  // ----- what the hypotheses say ------------------------------------------------------------------------

  predicate SameAccountAgrees(keys: seq<string>, e: TokenBalance, f: TokenBalance) {
    AccountKeyAt(keys, e.accountIndex) == AccountKeyAt(keys, f.accountIndex) ==> e.owner == f.owner && e.mint == f.mint
  }

  /** Every entry names an account, an owner and a mint, and an account keeps both. */
  predicate Stable(keys: seq<string>, entries: seq<TokenBalance>) {
    && (forall i :: 0 <= i < |entries| ==>
          AccountKeyAt(keys, entries[i].accountIndex).Some? && entries[i].owner != "" && entries[i].mint != "")
    && (forall i, j :: 0 <= i < |entries| && 0 <= j < |entries| ==> SameAccountAgrees(keys, entries[i], entries[j]))
  }

  /** What the entries list for account `a`. */
  function Balance(keys: seq<string>, entries: seq<TokenBalance>, a: string): int {
    if entries == [] then 0 else
      var e := entries[|entries| - 1];
      Balance(keys, entries[..|entries| - 1], a) +
      if AccountKeyAt(keys, e.accountIndex) == Some(a) && e.amount.Some? then e.amount.value else 0
  }

  /** What the known transfers bring into account `a`. */
  function Flow(meta: Meta, tokens: set<string>, ts: seq<Transfer>, a: string): int {
    if ts == [] then 0 else
      var t := ts[|ts| - 1];
      Flow(meta, tokens, ts[..|ts| - 1], a) +
      if !Known(meta, tokens, t) then 0
      else (if t.destination == a then t.amount else 0) - (if t.source == a then t.amount else 0)
  }

  /** Known transfers move the mint of the accounts they join. */
  predicate MintsMatch(meta: Meta, tokens: set<string>, ts: seq<Transfer>) {
    forall i :: 0 <= i < |ts| && Known(meta, tokens, ts[i]) ==>
      Get(meta.mints, ts[i].source) == MintOf(meta, ts[i]) == Get(meta.mints, ts[i].destination)
  }

  /** Known transfers account for the change of every balance of a configured mint. */
  predicate Explained(tx: Tx, tokens: set<string>) {
    var meta := MetaFor(tx);
    forall a :: a in meta.owners && Get(meta.mints, a) in tokens ==>
      Balance(tx.accountKeys, tx.post, a) - Balance(tx.accountKeys, tx.pre, a) == Flow(meta, tokens, tx.transfers, a)
  }

  /** What transfers between two different watched owners bring owner `o` in mint `m`: the instruction
      path publishes nothing for these. */
  function Internal(meta: Meta, watch: Watch, ts: seq<Transfer>, o: string, m: string): int {
    if ts == [] then 0 else
      var t := ts[|ts| - 1];
      Internal(meta, watch, ts[..|ts| - 1], o, m) +
      if Joins(meta, watch, t) && MintOf(meta, t) == m then Share(meta, t, o) else 0
  }

  predicate Joins(meta: Meta, watch: Watch, t: Transfer) {
    Known(meta, watch.tokens, t) && Get(meta.owners, t.source) != Get(meta.owners, t.destination) &&
    Get(meta.owners, t.source) in watch.wallets && Get(meta.owners, t.destination) in watch.wallets
  }

  /** What transfer `t` brings owner `o`. */
  function Share(meta: Meta, t: Transfer, o: string): int {
    (if Get(meta.owners, t.destination) == o then t.amount else 0) -
    (if Get(meta.owners, t.source) == o then t.amount else 0)
  }

  // ----- metadata ---------------------------------------------------------------------------------------

  /** With stable entries the metadata of an account is what any of its entries says. */
  lemma {:induction false} MetaStable(keys: seq<string>, entries: seq<TokenBalance>, i: nat)
    requires Stable(keys, entries) && i < |entries|
    ensures var meta := MetaOf(keys, entries); var a := AccountKeyAt(keys, entries[i].accountIndex).value;
      a in meta.owners && meta.owners[a] == entries[i].owner && Get(meta.mints, a) == entries[i].mint
    decreases |entries|
  {
    var n := |entries| - 1;
    if i < n {
      var front := entries[..n];
      assert forall j :: 0 <= j < n ==> front[j] == entries[j];
      MetaStable(keys, front, i);
      assert SameAccountAgrees(keys, entries[i], entries[n]);
    }
  }

  /** The accounts of owner `o` in mint `m`. */
  function AccountsOf(meta: Meta, o: string, m: string): set<string> {
    set a | a in meta.owners && meta.owners[a] == o && Get(meta.mints, a) == m
  }

  function BalanceFn(keys: seq<string>, entries: seq<TokenBalance>): string -> int {
    (a: string) => Balance(keys, entries, a)
  }

  function FlowFn(meta: Meta, tokens: set<string>, ts: seq<Transfer>): string -> int {
    (a: string) => Flow(meta, tokens, ts, a)
  }

  /** The entry is of an account, which is among `accounts` exactly when it is of owner `o` and mint `m`. */
  predicate Places(keys: seq<string>, e: TokenBalance, accounts: set<string>, o: string, m: string) {
    var a := AccountKeyAt(keys, e.accountIndex);
    a.Some? && (a.value in accounts <==> e.owner == o && e.mint == m)
  }

  /** An owner's holding is the sum over its accounts. */
  lemma {:induction false} HeldByAccount(keys: seq<string>, es: seq<TokenBalance>, tokens: set<string>,
                                        accounts: set<string>, o: string, m: string)
    requires m in tokens && o != ""
    requires forall i :: 0 <= i < |es| ==> Places(keys, es[i], accounts, o, m)
    ensures Held(es, tokens, o, m) == Sum(accounts, BalanceFn(keys, es))
    decreases |es|
  {
    if es == [] {
      SumZero(accounts, BalanceFn(keys, es));
    } else {
      var n := |es| - 1;
      HeldByAccount(keys, es[..n], tokens, accounts, o, m);
      var a := AccountKeyAt(keys, es[n].accountIndex).value;
      if a in accounts {
        SumBump(accounts, BalanceFn(keys, es[..n]), BalanceFn(keys, es), a);
      } else {
        SumSame(accounts, BalanceFn(keys, es[..n]), BalanceFn(keys, es));
      }
    }
  }

  /** What known transfers bring owner `o` in mint `m`. */
  function Moved(meta: Meta, tokens: set<string>, ts: seq<Transfer>, o: string, m: string): int {
    if ts == [] then 0 else
      var t := ts[|ts| - 1];
      Moved(meta, tokens, ts[..|ts| - 1], o, m) +
      if Known(meta, tokens, t) && MintOf(meta, t) == m then Share(meta, t, o) else 0
  }

  lemma {:induction false} FlowByAccount(meta: Meta, tokens: set<string>, ts: seq<Transfer>, o: string, m: string)
    requires MintsMatch(meta, tokens, ts) && o != ""
    ensures Sum(AccountsOf(meta, o, m), FlowFn(meta, tokens, ts)) == Moved(meta, tokens, ts, o, m)
    decreases |ts|
  {
    var accounts := AccountsOf(meta, o, m);
    if ts == [] {
      SumZero(accounts, FlowFn(meta, tokens, ts));
    } else {
      var n := |ts| - 1;
      var front, t := ts[..n], ts[n];
      assert forall i :: 0 <= i < n ==> front[i] == ts[i];
      FlowByAccount(meta, tokens, front, o, m);
      FlowStep(meta, tokens, ts, accounts);
      assert Known(meta, tokens, t) ==>
        (t.source in accounts <==> Get(meta.owners, t.source) == o && MintOf(meta, t) == m) &&
        (t.destination in accounts <==> Get(meta.owners, t.destination) == o && MintOf(meta, t) == m);
    }
  }

  /** One more known transfer moves its amount between the accounts it joins. */
  lemma FlowStep(meta: Meta, tokens: set<string>, ts: seq<Transfer>, accounts: set<string>)
    requires ts != []
    ensures var t := ts[|ts| - 1];
      Sum(accounts, FlowFn(meta, tokens, ts)) == Sum(accounts, FlowFn(meta, tokens, ts[..|ts| - 1])) +
        if !Known(meta, tokens, t) then 0
        else (if t.destination in accounts then t.amount else 0) - (if t.source in accounts then t.amount else 0)
  {
    var front, t := ts[..|ts| - 1], ts[|ts| - 1];
    var f, g := FlowFn(meta, tokens, front), FlowFn(meta, tokens, ts);
    if !Known(meta, tokens, t) {
      SumSame(accounts, f, g);
    } else {
      var mid := (a: string) => f(a) + if a == t.destination then t.amount else 0;
      if t.destination in accounts { SumBump(accounts, f, mid, t.destination); } else { SumSame(accounts, f, mid); }
      if t.source in accounts { SumBump(accounts, mid, g, t.source); } else { SumSame(accounts, mid, g); }
    }
  }

  // ----- events -----------------------------------------------------------------------------------------

  lemma NetOfOne(e: Event, o: string, m: string)
    ensures Net([e], o, m) == if e.address != o || e.asset != m then 0 else if e.Deposit? then e.amount else -e.amount
  {
    assert [e][..0] == [];
  }

  /** For a watched owner, one transfer is either published in full or internal. */
  lemma TransferNet(tx: Tx, watch: Watch, meta: Meta, t: Transfer, o: string, m: string)
    requires o in watch.wallets
    ensures Net(TransferEvents(tx, watch, meta, t), o, m) +
      (if Joins(meta, watch, t) && MintOf(meta, t) == m then Share(meta, t, o) else 0) ==
      if Known(meta, watch.tokens, t) && MintOf(meta, t) == m then Share(meta, t, o) else 0
  {
    var es := TransferEvents(tx, watch, meta, t);
    if es != [] { NetOfOne(es[0], o, m); }
  }

  lemma {:induction false} MovedIsPublishedOrInternal(tx: Tx, watch: Watch, meta: Meta, ts: seq<Transfer>,
                                                      o: string, m: string)
    requires o in watch.wallets
    ensures Moved(meta, watch.tokens, ts, o, m) ==
      Net(InstructionEvents(tx, watch, meta, ts), o, m) + Internal(meta, watch, ts, o, m)
    decreases |ts|
  {
    if ts != [] {
      var front, t := ts[..|ts| - 1], ts[|ts| - 1];
      MovedIsPublishedOrInternal(tx, watch, meta, front, o, m);
      TransferNet(tx, watch, meta, t, o, m);
      var before, es := InstructionEvents(tx, watch, meta, front), TransferEvents(tx, watch, meta, t);
      if es == [] {
        assert before + es == before;
      } else {
        assert es == [es[0]];
        NetSnoc(before, es[0], o, m);
      }
    }
  }

  // ----- the two paths ------------------------------------------------------------------------------------

  lemma ChangeIsMoved(tx: Tx, tokens: set<string>, o: string, m: string)
    requires m in tokens && o != "" && Stable(tx.accountKeys, tx.pre + tx.post)
    requires MintsMatch(MetaFor(tx), tokens, tx.transfers) && Explained(tx, tokens)
    ensures Held(tx.post, tokens, o, m) - Held(tx.pre, tokens, o, m) == Moved(MetaFor(tx), tokens, tx.transfers, o, m)
  {
    var keys, meta, all := tx.accountKeys, MetaFor(tx), tx.pre + tx.post;
    var accounts := AccountsOf(meta, o, m);
    forall i | 0 <= i < |tx.pre| ensures Places(keys, tx.pre[i], accounts, o, m) {
      assert all[i] == tx.pre[i];
      MetaStable(keys, all, i);
    }
    forall i | 0 <= i < |tx.post| ensures Places(keys, tx.post[i], accounts, o, m) {
      assert all[|tx.pre| + i] == tx.post[i];
      MetaStable(keys, all, |tx.pre| + i);
    }
    HeldByAccount(keys, tx.pre, tokens, accounts, o, m);
    HeldByAccount(keys, tx.post, tokens, accounts, o, m);
    SumDifference(accounts, BalanceFn(keys, tx.post), BalanceFn(keys, tx.pre), FlowFn(meta, tokens, tx.transfers));
    FlowByAccount(meta, tokens, tx.transfers, o, m);
  }

  /** For a watched owner the delta is what the instruction path publishes plus what moved between two
      watched owners. */
  lemma DeltaIsPublishedPlusInternal(tx: Tx, watch: Watch, o: string, m: string)
    requires m in watch.tokens && o in watch.wallets && o != "" && Unambiguous(watch.tokens)
    requires Stable(tx.accountKeys, tx.pre + tx.post)
    requires MintsMatch(MetaFor(tx), watch.tokens, tx.transfers) && Explained(tx, watch.tokens)
    ensures AmountAt(Delta(tx.pre, tx.post, watch.tokens), Key(o, m)) ==
      Net(InstructionEvents(tx, watch, MetaFor(tx), tx.transfers), o, m) +
      Internal(MetaFor(tx), watch, tx.transfers, o, m)
  {
    DeltaExact(tx.pre, tx.post, watch.tokens, o, m);
    ChangeIsMoved(tx, watch.tokens, o, m);
    MovedIsPublishedOrInternal(tx, watch, MetaFor(tx), tx.transfers, o, m);
  }

  /** The two paths publish the same net amount for every watched owner exactly when transfers between
      watched owners cancel out for it; in particular when there are none. */
  lemma PathsAgree(tx: Tx, watch: Watch, byDeltas: seq<Event>, o: string, m: string)
    requires m in watch.tokens && o in watch.wallets && o != "" && Unambiguous(watch.tokens)
    requires Stable(tx.accountKeys, tx.pre + tx.post)
    requires MintsMatch(MetaFor(tx), watch.tokens, tx.transfers) && Explained(tx, watch.tokens)
    requires var d := Delta(tx.pre, tx.post, watch.tokens); Settled(d, watch, byDeltas)
    ensures Net(InstructionEvents(tx, watch, MetaFor(tx), tx.transfers), o, m) == Net(byDeltas, o, m) <==>
      Internal(MetaFor(tx), watch, tx.transfers, o, m) == 0
    ensures (forall i :: 0 <= i < |tx.transfers| ==> !Joins(MetaFor(tx), watch, tx.transfers[i])) ==>
      Internal(MetaFor(tx), watch, tx.transfers, o, m) == 0
  {
    DeltaIsPublishedPlusInternal(tx, watch, o, m);
    SettledNet(tx, watch, byDeltas, o, m);
    DeltaExact(tx.pre, tx.post, watch.tokens, o, m);
    if forall i :: 0 <= i < |tx.transfers| ==> !Joins(MetaFor(tx), watch, tx.transfers[i]) {
      NothingInternal(MetaFor(tx), watch, tx.transfers, o, m);
    }
  }

  /** Owner `o` is watched, and transfers of mint `m` between watched owners cancel out for it. */
  ghost predicate NoInternal(tx: Tx, watch: Watch, o: string, m: string) {
    m in watch.tokens && o in watch.wallets && o != "" && Internal(MetaFor(tx), watch, tx.transfers, o, m) == 0
  }

  /** What agreement needs of a transaction that has transfers. */
  ghost predicate Explainable(tx: Tx, watch: Watch) {
    Unambiguous(watch.tokens) &&
    (tx.transfers != [] ==>
      && Stable(tx.accountKeys, tx.pre + tx.post)
      && MintsMatch(MetaFor(tx), watch.tokens, tx.transfers)
      && Explained(tx, watch.tokens))
  }

  /** The net amount published for every watched owner is the change of its holding. */
  ghost predicate SettlesChange(tx: Tx, watch: Watch, published: seq<Event>) {
    forall o, m :: NoInternal(tx, watch, o, m) ==>
      Net(published, o, m) == Held(tx.post, watch.tokens, o, m) - Held(tx.pre, watch.tokens, o, m)
  }

  lemma InstructionsSettle(tx: Tx, watch: Watch)
    requires Explainable(tx, watch) && tx.transfers != []
    ensures SettlesChange(tx, watch, InstructionEvents(tx, watch, MetaFor(tx), tx.transfers))
  {
    forall o, m | NoInternal(tx, watch, o, m)
      ensures Net(InstructionEvents(tx, watch, MetaFor(tx), tx.transfers), o, m) ==
              Held(tx.post, watch.tokens, o, m) - Held(tx.pre, watch.tokens, o, m)
    {
      DeltaIsPublishedPlusInternal(tx, watch, o, m);
      DeltaExact(tx.pre, tx.post, watch.tokens, o, m);
    }
  }

  lemma DeltasSettle(tx: Tx, watch: Watch, published: seq<Event>)
    requires Unambiguous(watch.tokens)
    requires var d := Delta(tx.pre, tx.post, watch.tokens); Settled(d, watch, published)
    ensures SettlesChange(tx, watch, published)
  {
    forall o, m | NoInternal(tx, watch, o, m)
      ensures Net(published, o, m) == Held(tx.post, watch.tokens, o, m) - Held(tx.pre, watch.tokens, o, m)
    {
      SettledNet(tx, watch, published, o, m);
    }
  }

  /** What a transaction's tokens call for: its transfers if it has any, its deltas otherwise. */
  ghost predicate TokenDerives(tx: Tx, watch: Watch, events: seq<Event>) {
    if tx.transfers != [] then events == InstructionEvents(tx, watch, MetaFor(tx), tx.transfers)
    else DeltaListing(tx, Delta(tx.pre, tx.post, watch.tokens), watch, events)
  }

  /** Whichever path is taken, a watched owner's net amount is the change of its holding. */
  lemma TokensSettle(tx: Tx, watch: Watch, events: seq<Event>)
    requires Explainable(tx, watch) && TokenDerives(tx, watch, events)
    ensures SettlesChange(tx, watch, events)
  {
    if tx.transfers != [] {
      InstructionsSettle(tx, watch);
    } else {
      DeltaWellKeyed(tx, watch.tokens);
      ListingSettles(tx, Delta(tx.pre, tx.post, watch.tokens), watch, events);
      DeltasSettle(tx, watch, events);
    }
  }

  lemma {:induction false} NothingInternal(meta: Meta, watch: Watch, ts: seq<Transfer>, o: string, m: string)
    requires forall i :: 0 <= i < |ts| ==> !Joins(meta, watch, ts[i])
    ensures Internal(meta, watch, ts, o, m) == 0
    decreases |ts|
  {
    if ts != [] {
      var front := ts[..|ts| - 1];
      assert forall i :: 0 <= i < |front| ==> front[i] == ts[i];
      NothingInternal(meta, watch, front, o, m);
    }
  }

  // ----- a transfer between two watched owners ------------------------------------------------------------

  const SHARED: Watch := Watch({"usdc"}, map["alice" := "w1", "bob" := "w2"])

  /** Alice's account sends bob's account all of its 5 units. */
  const GIFT: Tx := Tx("sig", false, ["acc0", "acc1"], [],
    [TokenBalance(0, "usdc", "alice", Some(5)), TokenBalance(1, "usdc", "bob", Some(0))],
    [TokenBalance(0, "usdc", "alice", Some(0)), TokenBalance(1, "usdc", "bob", Some(5))],
    [Transfer("acc0", "acc1", "usdc", 5)])

  lemma GiftMeta()
    ensures MetaFor(GIFT) == Meta(map["acc0" := "alice", "acc1" := "bob"], map["acc0" := "usdc", "acc1" := "usdc"])
  {
    MetaUpToNext(GIFT, 0);
    MetaUpToNext(GIFT, 1);
    var half := MetaUpTo(GIFT, 2);
    assert half == Meta(map["acc0" := "alice", "acc1" := "bob"], map["acc0" := "usdc", "acc1" := "usdc"]);
    MetaUpToNext(GIFT, 2);
    MetaUpToNext(GIFT, 3);
    assert (GIFT.pre + GIFT.post)[..4] == GIFT.pre + GIFT.post;
  }

  lemma BalanceOfTwo(keys: seq<string>, x: TokenBalance, y: TokenBalance, a: string)
    requires x.amount.Some? && y.amount.Some?
    ensures Balance(keys, [x, y], a) ==
      (if AccountKeyAt(keys, x.accountIndex) == Some(a) then x.amount.value else 0) +
      (if AccountKeyAt(keys, y.accountIndex) == Some(a) then y.amount.value else 0)
  {
    assert [x, y][..1] == [x] && [x][..0] == [];
    assert Balance(keys, [], a) == 0;
    assert Balance(keys, [x], a) == if AccountKeyAt(keys, x.accountIndex) == Some(a) then x.amount.value else 0;
  }

  lemma GiftStable()
    ensures Stable(GIFT.accountKeys, GIFT.pre + GIFT.post)
  {
    var es := GIFT.pre + GIFT.post;
    assert es == [GIFT.pre[0], GIFT.pre[1], GIFT.post[0], GIFT.post[1]];
    assert "acc0"[3] != "acc1"[3];
  }

  lemma GiftExplained()
    ensures MintsMatch(MetaFor(GIFT), SHARED.tokens, GIFT.transfers) && Explained(GIFT, SHARED.tokens)
  {
    GiftMeta();
    var meta := MetaFor(GIFT);
    assert GIFT.transfers[..0] == [];
    forall a | a in meta.owners
      ensures Balance(GIFT.accountKeys, GIFT.post, a) - Balance(GIFT.accountKeys, GIFT.pre, a) ==
              Flow(meta, SHARED.tokens, GIFT.transfers, a)
    {
      BalanceOfTwo(GIFT.accountKeys, GIFT.pre[0], GIFT.pre[1], a);
      BalanceOfTwo(GIFT.accountKeys, GIFT.post[0], GIFT.post[1], a);
    }
  }

  lemma GiftInternal()
    ensures InstructionEvents(GIFT, SHARED, MetaFor(GIFT), GIFT.transfers) == []
    ensures Internal(MetaFor(GIFT), SHARED, GIFT.transfers, "bob", "usdc") == 5
  {
    GiftMeta();
    var meta, t := MetaFor(GIFT), GIFT.transfers[0];
    assert GIFT.transfers[..0] == [];
    assert Get(meta.owners, "acc0") == "alice" && Get(meta.owners, "acc1") == "bob" && |"alice"| != |"bob"|;
    assert Joins(meta, SHARED, t) && MintOf(meta, t) == "usdc";
    assert TransferEvents(GIFT, SHARED, meta, t) == [];
  }

  /** The two paths really differ: bob's delta is 5, and the instruction path publishes nothing. */
  lemma WatchedToWatchedUnseen()
    ensures InstructionEvents(GIFT, SHARED, MetaFor(GIFT), GIFT.transfers) == []
    ensures AmountAt(Delta(GIFT.pre, GIFT.post, SHARED.tokens), Key("bob", "usdc")) == 5
  {
    GiftStable();
    GiftExplained();
    GiftInternal();
    ColonFreeUnambiguous(SHARED.tokens);
    DeltaIsPublishedPlusInternal(GIFT, SHARED, "bob", "usdc");
  }
}
