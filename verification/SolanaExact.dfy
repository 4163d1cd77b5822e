/** Every event of a Solana block, field by field, and what a block's events add up to for one owner. */
module SolanaExact {
  import opened Common
  import opened Events
  import opened SolanaDeltas
  import opened SolanaTransfers
  import opened SolanaAgreement
  import opened SolanaBlock
  import opened Places

  // ----- movements --------------------------------------------------------------------------------------

  /** One side of the movement is watched and the other is not. */
  predicate Crosses(wallets: Wallets, from: string, dest: string) {
    (from in wallets) != (dest in wallets)
  }

  /** The event of such a movement: of the watched side, naming the other one. */
  predicate MoveEvent(signature: string, wallets: Wallets, from: string, dest: string, asset: string, amount: int,
                      e: Event) {
    && Crosses(wallets, from, dest)
    && (dest in wallets ==> e == Deposit(signature, wallets[dest], dest, from, [], asset, amount))
    && (from in wallets ==> e == Withdrawal(signature, wallets[from], from, dest, [], asset, amount))
  }

  // ----- native transfers -------------------------------------------------------------------------------

  /** The transfer moves something between a watched and an unwatched address. */
  predicate Moves(watch: Watch, t: NativeTransfer) {
    t.lamports > 0 && Crosses(watch.wallets, t.source, t.destination)
  }

  predicate NativeEvent(tx: Tx, watch: Watch, t: NativeTransfer, e: Event) {
    t.lamports > 0 && MoveEvent(tx.signature, watch.wallets, t.source, t.destination, "", t.lamports, e)
  }

  ghost function MovesFn(watch: Watch): NativeTransfer -> bool {
    (t: NativeTransfer) => Moves(watch, t)
  }

  ghost function NativeEventFn(tx: Tx, watch: Watch): (NativeTransfer, Event) -> bool {
    (t: NativeTransfer, e: Event) => NativeEvent(tx, watch, t, e)
  }

  lemma OneNative(tx: Tx, watch: Watch, t: NativeTransfer)
    ensures var es := NativeAt(tx, watch, t);
      if Moves(watch, t) then |es| == 1 && NativeEvent(tx, watch, t, es[0]) else es == []
  {
  }

  /** The native path calls for one event for each transfer that moves something between a watched and an
      unwatched address, in order. */
  lemma {:induction false} NativeEventsAre(tx: Tx, watch: Watch, ts: seq<NativeTransfer>) returns (at: seq<nat>)
    ensures Placed(ts, MovesFn(watch), NativeEventFn(tx, watch), at, NativeEvents(tx, watch, ts))
    decreases |ts|
  {
    if ts == [] {
      at := [];
    } else {
      var front, t := ts[..|ts| - 1], ts[|ts| - 1];
      at := NativeEventsAre(tx, watch, front);
      OneNative(tx, watch, t);
      at := PlacedNext(front, MovesFn(watch), NativeEventFn(tx, watch), at, NativeEvents(tx, watch, front), t,
                       NativeAt(tx, watch, t));
      assert front + [t] == ts;
    }
  }

  /** Reference: lamports that reach `o` from unwatched addresses. */
  function Received(wallets: Wallets, ts: seq<NativeTransfer>, o: string): int {
    if ts == [] then 0 else
      var t := ts[|ts| - 1];
      Received(wallets, ts[..|ts| - 1], o) + if t.destination == o && t.source !in wallets then t.lamports else 0
  }

  /** Reference: lamports that leave `o` for unwatched addresses. */
  function Spent(wallets: Wallets, ts: seq<NativeTransfer>, o: string): int {
    if ts == [] then 0 else
      var t := ts[|ts| - 1];
      Spent(wallets, ts[..|ts| - 1], o) + if t.source == o && t.destination !in wallets then t.lamports else 0
  }

  lemma {:induction false} NetConcat(a: seq<Event>, b: seq<Event>, o: string, m: string)
    ensures Net(a + b, o, m) == Net(a, o, m) + Net(b, o, m)
    decreases |b|
  {
    if b == [] {
      assert a + b == a;
    } else {
      var front, e := b[..|b| - 1], b[|b| - 1];
      NetConcat(a, front, o, m);
      assert a + b == (a + front) + [e] && b == front + [e];
      NetSnoc(a + front, e, o, m);
      NetSnoc(front, e, o, m);
    }
  }

  lemma NativeAtNet(tx: Tx, watch: Watch, t: NativeTransfer, o: string, m: string)
    ensures Net(NativeAt(tx, watch, t), o, m) ==
      if o !in watch.wallets || m != "" then 0
      else (if t.destination == o && t.source !in watch.wallets then t.lamports else 0) -
           (if t.source == o && t.destination !in watch.wallets then t.lamports else 0)
  {
    var es := NativeAt(tx, watch, t);
    if es != [] { NetOfOne(es[0], o, m); }
  }

  /** The net amount published for a watched address is what it received from unwatched ones minus what it
      sent to unwatched ones; for any other address it is 0. */
  lemma {:induction false} NativeNet(tx: Tx, watch: Watch, ts: seq<NativeTransfer>, o: string, m: string)
    ensures Net(NativeEvents(tx, watch, ts), o, m) ==
      if o in watch.wallets && m == "" then Received(watch.wallets, ts, o) - Spent(watch.wallets, ts, o) else 0
    decreases |ts|
  {
    if ts != [] {
      var front, t := ts[..|ts| - 1], ts[|ts| - 1];
      NativeNet(tx, watch, front, o, m);
      NativeAtNet(tx, watch, t, o, m);
      NetConcat(NativeEvents(tx, watch, front), NativeAt(tx, watch, t), o, m);
    }
  }

  // ----- token transfers --------------------------------------------------------------------------------

  const OWNER: TokenBalance -> string := (b: TokenBalance) => b.owner
  const MINT: TokenBalance -> string := (b: TokenBalance) => b.mint

  /** `x` is the last non-empty one of what the entries list for account `a`; the empty string when there is
      none. */
  ghost predicate LastListed(keys: seq<string>, entries: seq<TokenBalance>, a: string, f: TokenBalance -> string, x: string) {
    if x == "" then NoneFrom(keys, entries, a, f, 0)
    else exists i :: ListedAt(keys, entries, a, f, x, i) && NoneFrom(keys, entries, a, f, i + 1)
  }

  predicate ListedAt(keys: seq<string>, entries: seq<TokenBalance>, a: string, f: TokenBalance -> string, x: string,
                     i: int) {
    0 <= i < |entries| && AccountKeyAt(keys, entries[i].accountIndex) == Some(a) && f(entries[i]) == x
  }

  /** From the `n`-th on the entries list nothing for account `a`. */
  predicate NoneFrom(keys: seq<string>, entries: seq<TokenBalance>, a: string, f: TokenBalance -> string, n: nat) {
    forall i :: n <= i < |entries| && AccountKeyAt(keys, entries[i].accountIndex) == Some(a) ==> f(entries[i]) == ""
  }

  lemma LastListedNext(keys: seq<string>, entries: seq<TokenBalance>, a: string, f: TokenBalance -> string, x: string)
    requires entries != [] && LastListed(keys, entries[..|entries| - 1], a, f, x)
    ensures var e := entries[|entries| - 1];
      LastListed(keys, entries, a, f, if AccountKeyAt(keys, e.accountIndex) == Some(a) && f(e) != "" then f(e) else x)
  {
    var n := |entries| - 1;
    var front, e := entries[..n], entries[n];
    assert forall i :: 0 <= i < n ==> front[i] == entries[i];
    if AccountKeyAt(keys, e.accountIndex) == Some(a) && f(e) != "" {
      assert ListedAt(keys, entries, a, f, f(e), n);
    } else if x != "" {
      var i :| ListedAt(keys, front, a, f, x, i) && NoneFrom(keys, front, a, f, i + 1);
      assert ListedAt(keys, entries, a, f, x, i);
    }
  }

  lemma LastListedOnce(keys: seq<string>, entries: seq<TokenBalance>, a: string, f: TokenBalance -> string,
                       x: string, y: string)
    requires LastListed(keys, entries, a, f, x) && LastListed(keys, entries, a, f, y)
    ensures x == y
  {
  }

  /** The metadata of an account is the last owner and the last mint listed for it. */
  lemma {:induction false} MetaIsLast(keys: seq<string>, entries: seq<TokenBalance>, a: string)
    ensures LastListed(keys, entries, a, OWNER, Get(MetaOf(keys, entries).owners, a))
    ensures LastListed(keys, entries, a, MINT, Get(MetaOf(keys, entries).mints, a))
    decreases |entries|
  {
    if entries != [] {
      var front := entries[..|entries| - 1];
      MetaIsLast(keys, front, a);
      LastListedNext(keys, entries, a, OWNER, Get(MetaOf(keys, front).owners, a));
      LastListedNext(keys, entries, a, MINT, Get(MetaOf(keys, front).mints, a));
    }
  }

  /** What the transaction lists about its accounts, before and then after, gives the transfer an amount, a
      configured mint and two owners; the mint is the one it names, or else that of its source, or else of
      its destination. */
  ghost predicate Reads(tx: Tx, tokens: set<string>, t: Transfer, from: string, dest: string, mint: string) {
    var keys, all := tx.accountKeys, tx.pre + tx.post;
    && t.amount != 0 && mint in tokens && from != "" && dest != ""
    && LastListed(keys, all, t.source, OWNER, from) && LastListed(keys, all, t.destination, OWNER, dest)
    && (t.mint != "" ==> mint == t.mint)
    && (t.mint == "" && !LastListed(keys, all, t.source, MINT, "") ==> LastListed(keys, all, t.source, MINT, mint))
    && (t.mint == "" && LastListed(keys, all, t.source, MINT, "") ==> LastListed(keys, all, t.destination, MINT, mint))
  }

  /** Exactly the transfers read that way are known, with these owners and this mint. */
  lemma KnownIffReads(tx: Tx, tokens: set<string>, t: Transfer, from: string, dest: string, mint: string)
    ensures var meta := MetaFor(tx);
      Reads(tx, tokens, t, from, dest, mint) <==>
        Known(meta, tokens, t) && from == Get(meta.owners, t.source) && dest == Get(meta.owners, t.destination) &&
        mint == MintOf(meta, t)
  {
    var keys, all, meta := tx.accountKeys, tx.pre + tx.post, MetaFor(tx);
    MetaIsLast(keys, all, t.source);
    MetaIsLast(keys, all, t.destination);
    if Get(meta.mints, t.source) != "" && LastListed(keys, all, t.source, MINT, "") {
      LastListedOnce(keys, all, t.source, MINT, "", Get(meta.mints, t.source));
    }
    if Reads(tx, tokens, t, from, dest, mint) {
      LastListedOnce(keys, all, t.source, OWNER, from, Get(meta.owners, t.source));
      LastListedOnce(keys, all, t.destination, OWNER, dest, Get(meta.owners, t.destination));
      if t.mint == "" {
        if LastListed(keys, all, t.source, MINT, "") {
          LastListedOnce(keys, all, t.destination, MINT, mint, Get(meta.mints, t.destination));
        } else {
          LastListedOnce(keys, all, t.source, MINT, mint, Get(meta.mints, t.source));
        }
      }
    }
  }

  ghost predicate TransferEvent(tx: Tx, watch: Watch, t: Transfer, e: Event) {
    exists from, dest, mint ::
      Reads(tx, watch.tokens, t, from, dest, mint) &&
      MoveEvent(tx.signature, watch.wallets, from, dest, mint, t.amount, e)
  }

  /** The transfer is read as moving something between a watched and an unwatched owner. */
  ghost predicate Called(tx: Tx, watch: Watch, t: Transfer) {
    exists from, dest, mint ::
      Reads(tx, watch.tokens, t, from, dest, mint) && Crosses(watch.wallets, from, dest)
  }

  ghost function CalledFn(tx: Tx, watch: Watch): Transfer -> bool {
    (t: Transfer) => Called(tx, watch, t)
  }

  ghost function TransferEventFn(tx: Tx, watch: Watch): (Transfer, Event) -> bool {
    (t: Transfer, e: Event) => TransferEvent(tx, watch, t, e)
  }

  lemma OneTransfer(tx: Tx, watch: Watch, t: Transfer)
    ensures var es := TransferEvents(tx, watch, MetaFor(tx), t);
      if Called(tx, watch, t) then |es| == 1 && TransferEvent(tx, watch, t, es[0]) else es == []
  {
    var meta := MetaFor(tx);
    var from, dest, mint := Get(meta.owners, t.source), Get(meta.owners, t.destination), MintOf(meta, t);
    KnownIffReads(tx, watch.tokens, t, from, dest, mint);
    forall f, d, m | Reads(tx, watch.tokens, t, f, d, m) ensures f == from && d == dest && m == mint {
      KnownIffReads(tx, watch.tokens, t, f, d, m);
    }
    var es := TransferEvents(tx, watch, meta, t);
    if es != [] {
      assert MoveEvent(tx.signature, watch.wallets, from, dest, mint, t.amount, es[0]);
    }
  }

  /** The instruction path calls for one event for each transfer that is read as moving something between a
      watched and an unwatched owner, in order. */
  lemma {:induction false} InstructionEventsAre(tx: Tx, watch: Watch, ts: seq<Transfer>) returns (at: seq<nat>)
    ensures Placed(ts, CalledFn(tx, watch), TransferEventFn(tx, watch), at,
      InstructionEvents(tx, watch, MetaFor(tx), ts))
    decreases |ts|
  {
    if ts == [] {
      at := [];
    } else {
      var front, t := ts[..|ts| - 1], ts[|ts| - 1];
      at := InstructionEventsAre(tx, watch, front);
      OneTransfer(tx, watch, t);
      at := PlacedNext(front, CalledFn(tx, watch), TransferEventFn(tx, watch), at,
                       InstructionEvents(tx, watch, MetaFor(tx), front), t, TransferEvents(tx, watch, MetaFor(tx), t));
      assert front + [t] == ts;
    }
  }

  // ----- token deltas -----------------------------------------------------------------------------------

  /** What owner `o` holds of mint `m` after the transaction more than before. */
  function Change(tx: Tx, tokens: set<string>, o: string, m: string): int {
    Held(tx.post, tokens, o, m) - Held(tx.pre, tokens, o, m)
  }

  /** One of the two holds more than before and the other less. */
  predicate Opposed(tx: Tx, tokens: set<string>, o: string, m: string, x: string) {
    Change(tx, tokens, x, m) < 0 < Change(tx, tokens, o, m) || Change(tx, tokens, o, m) < 0 < Change(tx, tokens, x, m)
  }

  /** `x` is an owner opposed to `o`, or the empty string when there is none. */
  ghost predicate Other(tx: Tx, tokens: set<string>, o: string, m: string, x: string) {
    if x == "" then forall y :: !Opposed(tx, tokens, o, m, y) else Opposed(tx, tokens, o, m, x)
  }

  /** The event of a watched owner whose holding changed: a deposit of what it gained or a withdrawal of
      what it lost, naming an owner opposed to it. */
  ghost predicate ChangeEvent(tx: Tx, watch: Watch, o: string, m: string, e: Event) {
    var change := Change(tx, watch.tokens, o, m);
    && o in watch.wallets && m in watch.tokens && change != 0 && e.Deposit? == (change > 0)
    && Other(tx, watch.tokens, o, m, if e.Deposit? then e.from else e.to)
    && e == if e.Deposit? then Deposit(tx.signature, watch.wallets[o], o, e.from, [], m, change)
            else Withdrawal(tx.signature, watch.wallets[o], o, e.to, [], m, -change)
  }

  datatype Holding = Holding(owner: string, mint: string)

  /** The events are those of the `holdings`, one each: all holdings of watched owners that changed. */
  ghost predicate ChangesOf(tx: Tx, watch: Watch, holdings: seq<Holding>, es: seq<Event>) {
    && |holdings| == |es|
    && (forall i :: 0 <= i < |es| ==> ChangeEvent(tx, watch, holdings[i].owner, holdings[i].mint, es[i]))
    && (forall i, j :: 0 <= i < j < |es| ==> holdings[i] != holdings[j])
    && (forall o, m :: o in watch.wallets && m in watch.tokens && Change(tx, watch.tokens, o, m) != 0 ==>
          Holding(o, m) in holdings)
  }

  /** Under each key is the change of its owner's holding. */
  lemma KeyIsChange(tx: Tx, tokens: set<string>, k: string)
    requires Unambiguous(tokens) && k in Delta(tx.pre, tx.post, tokens)
    ensures var t := Delta(tx.pre, tx.post, tokens)[k];
      && k == Key(t.owner, t.mint) && t.mint in tokens && t.owner != "" && t.amount == Change(tx, tokens, t.owner, t.mint)
  {
    DeltaKeys(tx.pre, tx.post, tokens, k);
    var t := Delta(tx.pre, tx.post, tokens)[k];
    DeltaExact(tx.pre, tx.post, tokens, t.owner, t.mint);
  }

  lemma CounterpartyIsOther(tx: Tx, tokens: set<string>, k: string, x: string)
    requires Unambiguous(tokens)
    requires var d := Delta(tx.pre, tx.post, tokens); k in d && d[k].amount != 0 && IsCounterparty(d, k, x)
    ensures var t := Delta(tx.pre, tx.post, tokens)[k]; Other(tx, tokens, t.owner, t.mint, x)
  {
    var d := Delta(tx.pre, tx.post, tokens);
    var o, m := d[k].owner, d[k].mint;
    KeyIsChange(tx, tokens, k);
    if exists l :: Opposite(d, k, l) {
      var l :| Opposite(d, k, l) && d[l].owner == x;
      KeyIsChange(tx, tokens, l);
    } else {
      forall y ensures !Opposed(tx, tokens, o, m, y) {
        DeltaExact(tx.pre, tx.post, tokens, y, m);
        if Opposed(tx, tokens, o, m, y) { assert Opposite(d, k, Key(y, m)); }
      }
    }
  }

  lemma KeyEvent(tx: Tx, watch: Watch, k: string, e: Event)
    requires Unambiguous(watch.tokens) && FromKey(tx, Delta(tx.pre, tx.post, watch.tokens), watch, k, e)
    ensures var t := Delta(tx.pre, tx.post, watch.tokens)[k]; ChangeEvent(tx, watch, t.owner, t.mint, e)
  {
    KeyIsChange(tx, watch.tokens, k);
    CounterpartyIsOther(tx, watch.tokens, k, if e.Deposit? then e.from else e.to);
  }

  function HoldingsOf(d: Deltas, keys: seq<string>): (hs: seq<Holding>)
    requires forall k :: k in keys ==> k in d
    ensures |hs| == |keys| && forall i :: 0 <= i < |hs| ==> hs[i] == Holding(d[keys[i]].owner, d[keys[i]].mint)
  {
    seq(|keys|, i requires 0 <= i < |keys| => Holding(d[keys[i]].owner, d[keys[i]].mint))
  }

  /** The delta path calls for exactly the changes of watched owners' holdings. */
  lemma DeltaEventsAre(tx: Tx, watch: Watch, events: seq<Event>) returns (holdings: seq<Holding>)
    requires Unambiguous(watch.tokens)
    requires DeltaListing(tx, Delta(tx.pre, tx.post, watch.tokens), watch, events)
    ensures ChangesOf(tx, watch, holdings, events)
  {
    var d := Delta(tx.pre, tx.post, watch.tokens);
    var keys :| ListsDone(tx, d, watch, d.Keys, keys, events);
    holdings := HoldingsOf(d, keys);
    forall i | 0 <= i < |events| ensures ChangeEvent(tx, watch, holdings[i].owner, holdings[i].mint, events[i]) {
      KeyEvent(tx, watch, keys[i], events[i]);
    }
    forall i, j | 0 <= i < j < |events| ensures holdings[i] != holdings[j] {
      KeyIsChange(tx, watch.tokens, keys[i]);
      KeyIsChange(tx, watch.tokens, keys[j]);
    }
    forall o, m | o in watch.wallets && m in watch.tokens && Change(tx, watch.tokens, o, m) != 0
      ensures Holding(o, m) in holdings
    {
      DeltaExact(tx.pre, tx.post, watch.tokens, o, m);
      assert Owed(d, watch, Key(o, m)) && Key(o, m) in keys;
      var i :| 0 <= i < |keys| && keys[i] == Key(o, m);
      assert holdings[i] == Holding(o, m);
    }
  }

  // ----- transactions and blocks ------------------------------------------------------------------------

  /** A transaction that did not fail and has a signature calls for its native events and then its token
      events; any other for nothing. */
  predicate Counted(tx: Tx) {
    !tx.failed && tx.signature != ""
  }

  lemma TxDerivesIff(tx: Tx, watch: Watch, events: seq<Event>)
    ensures TxDerives(tx, watch, events) <==>
      if !Counted(tx) then events == []
      else NativeEvents(tx, watch, tx.native) <= events &&
           TokenDerives(tx, watch, events[|NativeEvents(tx, watch, tx.native)|..])
  {
    var native := NativeEvents(tx, watch, tx.native);
    if native <= events { assert events == native + events[|native|..]; }
    if Counted(tx) && TxDerives(tx, watch, events) {
      var token :| TokenDerives(tx, watch, token) && events == native + token;
      assert events[|native|..] == token;
    }
  }

  /** The first `cut` of the events are those of `a`, the others those of `b`. */
  ghost predicate CutAt(a: seq<Tx>, b: seq<Tx>, watch: Watch, events: seq<Event>, cut: int) {
    0 <= cut <= |events| && BlockDerives(a, watch, events[..cut]) && BlockDerives(b, watch, events[cut..])
  }

  lemma LastOfBlock(txs: seq<Tx>, watch: Watch, events: seq<Event>) returns (mid: nat)
    requires txs != [] && BlockDerives(txs, watch, events)
    ensures mid <= |events| && BlockDerives(txs[..|txs| - 1], watch, events[..mid])
    ensures TxDerives(txs[|txs| - 1], watch, events[mid..])
  {
    mid :| 0 <= mid <= |events| && BlockDerives(txs[..|txs| - 1], watch, events[..mid]) &&
      TxDerives(txs[|txs| - 1], watch, events[mid..]);
  }

  lemma LastAdded(txs: seq<Tx>, watch: Watch, events: seq<Event>, mid: nat)
    requires txs != [] && mid <= |events| && BlockDerives(txs[..|txs| - 1], watch, events[..mid])
    requires TxDerives(txs[|txs| - 1], watch, events[mid..])
    ensures BlockDerives(txs, watch, events)
  {
  }

  lemma Slices(events: seq<Event>, cut: nat, mid: nat)
    requires cut <= mid <= |events|
    ensures events[..mid][..cut] == events[..cut] && events[..mid][cut..] == events[cut..][..mid - cut]
    ensures events[mid..] == events[cut..][mid - cut..]
  {
  }

  lemma CutEarlier(a: seq<Tx>, b: seq<Tx>, watch: Watch, events: seq<Event>, mid: nat, cut: nat)
    requires b != [] && cut <= mid <= |events| && CutAt(a, b[..|b| - 1], watch, events[..mid], cut)
    requires TxDerives(b[|b| - 1], watch, events[mid..])
    ensures CutAt(a, b, watch, events, cut)
  {
    Slices(events, cut, mid);
    LastAdded(b, watch, events[cut..], mid - cut);
  }

  lemma CutLater(a: seq<Tx>, b: seq<Tx>, watch: Watch, events: seq<Event>, cut: nat) returns (mid: nat)
    requires b != [] && CutAt(a, b, watch, events, cut)
    ensures mid <= |events| && CutAt(a, b[..|b| - 1], watch, events[..mid], cut)
    ensures TxDerives(b[|b| - 1], watch, events[mid..])
  {
    var n := LastOfBlock(b, watch, events[cut..]);
    mid := cut + n;
    Slices(events, cut, mid);
  }

  lemma FrontOf(a: seq<Tx>, b: seq<Tx>)
    requires b != []
    ensures (a + b)[..|a + b| - 1] == a + b[..|b| - 1] && (a + b)[|a + b| - 1] == b[|b| - 1]
  {
  }

  lemma {:induction false} SplitsThere(a: seq<Tx>, b: seq<Tx>, watch: Watch, events: seq<Event>) returns (cut: nat)
    requires BlockDerives(a + b, watch, events)
    ensures CutAt(a, b, watch, events, cut)
    decreases |b|
  {
    if b == [] {
      assert a + b == a && events[..|events|] == events;
      cut := |events|;
    } else {
      FrontOf(a, b);
      var mid := LastOfBlock(a + b, watch, events);
      cut := SplitsThere(a, b[..|b| - 1], watch, events[..mid]);
      CutEarlier(a, b, watch, events, mid, cut);
    }
  }

  lemma {:induction false} SplitsBack(a: seq<Tx>, b: seq<Tx>, watch: Watch, events: seq<Event>, cut: nat)
    requires CutAt(a, b, watch, events, cut)
    ensures BlockDerives(a + b, watch, events)
    decreases |b|
  {
    if b == [] {
      assert a + b == a && events[cut..] == [] && events[..cut] == events;
    } else {
      FrontOf(a, b);
      var mid := CutLater(a, b, watch, events, cut);
      SplitsBack(a, b[..|b| - 1], watch, events[..mid], cut);
      LastAdded(a + b, watch, events, mid);
    }
  }

  /** What a block calls for can be cut between any two transactions. */
  lemma BlockDerivesConcat(a: seq<Tx>, b: seq<Tx>, watch: Watch, events: seq<Event>)
    ensures BlockDerives(a + b, watch, events) <==> exists cut :: CutAt(a, b, watch, events, cut)
  {
    if BlockDerives(a + b, watch, events) {
      var cut := SplitsThere(a, b, watch, events);
    }
    if cut :| CutAt(a, b, watch, events, cut) { SplitsBack(a, b, watch, events, cut); }
  }

  // ----- what a block adds up to ------------------------------------------------------------------------

  function NativeGainOf(tx: Tx, wallets: Wallets, o: string): int {
    if Counted(tx) then Received(wallets, tx.native, o) - Spent(wallets, tx.native, o) else 0
  }

  function TokenGainOf(tx: Tx, tokens: set<string>, o: string, m: string): int {
    if Counted(tx) then Change(tx, tokens, o, m) else 0
  }

  /** Reference: what the transactions of a block move natively to `o` from unwatched addresses, less what
      they move the other way. */
  function NativeGain(txs: seq<Tx>, wallets: Wallets, o: string): int {
    if txs == [] then 0
    else NativeGain(txs[..|txs| - 1], wallets, o) + NativeGainOf(txs[|txs| - 1], wallets, o)
  }

  /** Reference: how the holding changes over the transactions of a block. */
  function TokenGain(txs: seq<Tx>, tokens: set<string>, o: string, m: string): int {
    if txs == [] then 0
    else TokenGain(txs[..|txs| - 1], tokens, o, m) + TokenGainOf(txs[|txs| - 1], tokens, o, m)
  }

  lemma {:induction false} InstructionsNet(tx: Tx, watch: Watch, ts: seq<Transfer>, o: string, m: string)
    requires m !in watch.tokens
    ensures Net(InstructionEvents(tx, watch, MetaFor(tx), ts), o, m) == 0
    decreases |ts|
  {
    if ts != [] {
      var front, es := ts[..|ts| - 1], TransferEvents(tx, watch, MetaFor(tx), ts[|ts| - 1]);
      InstructionsNet(tx, watch, front, o, m);
      NetConcat(InstructionEvents(tx, watch, MetaFor(tx), front), es, o, m);
      if es != [] { NetOfOne(es[0], o, m); }
    }
  }

  /** Token events are in configured mints. */
  lemma TokensNet(tx: Tx, watch: Watch, events: seq<Event>, o: string, m: string)
    requires Unambiguous(watch.tokens) && TokenDerives(tx, watch, events) && m !in watch.tokens
    ensures Net(events, o, m) == 0
  {
    if tx.transfers != [] {
      InstructionsNet(tx, watch, tx.transfers, o, m);
    } else {
      DeltaWellKeyed(tx, watch.tokens);
      ListingSettles(tx, Delta(tx.pre, tx.post, watch.tokens), watch, events);
      assert Net(events, o, m) == Due(Delta(tx.pre, tx.post, watch.tokens), watch, o, m);
    }
  }

  /** What is published of mint `m` for `o` settles the change of its holding: transfers explain the
      balances, and none that is left uncancelled joins two watched owners. */
  ghost predicate Settles(tx: Tx, watch: Watch, o: string, m: string) {
    Counted(tx) ==> Explainable(tx, watch) && NoInternal(tx, watch, o, m)
  }

  lemma TxNet(tx: Tx, watch: Watch, events: seq<Event>, o: string, m: string)
    requires Unambiguous(watch.tokens) && "" !in watch.tokens && TxDerives(tx, watch, events) && o in watch.wallets
    ensures m == "" ==> Net(events, o, m) == NativeGainOf(tx, watch.wallets, o)
    ensures m in watch.tokens && Settles(tx, watch, o, m) ==> Net(events, o, m) == TokenGainOf(tx, watch.tokens, o, m)
  {
    if Counted(tx) {
      var native := NativeEvents(tx, watch, tx.native);
      var token :| TokenDerives(tx, watch, token) && events == native + token;
      NetConcat(native, token, o, m);
      NativeNet(tx, watch, tx.native, o, m);
      if m == "" { TokensNet(tx, watch, token, o, m); }
      if Explainable(tx, watch) && NoInternal(tx, watch, o, m) { TokensSettle(tx, watch, token); }
    }
  }

  lemma NetOfParts(events: seq<Event>, mid: nat, o: string, m: string)
    requires mid <= |events|
    ensures Net(events, o, m) == Net(events[..mid], o, m) + Net(events[mid..], o, m)
  {
    NetConcat(events[..mid], events[mid..], o, m);
    assert events == events[..mid] + events[mid..];
  }

  /** Over a block, the net amount of the native coin published for a watched owner is what it received
      from unwatched addresses less what it sent to them. */
  lemma {:induction false} BlockNativeNet(txs: seq<Tx>, watch: Watch, events: seq<Event>, o: string)
    requires Unambiguous(watch.tokens) && "" !in watch.tokens && BlockDerives(txs, watch, events) && o in watch.wallets
    ensures Net(events, o, "") == NativeGain(txs, watch.wallets, o)
    decreases |txs|
  {
    if txs != [] {
      var mid := LastOfBlock(txs, watch, events);
      BlockNativeNet(txs[..|txs| - 1], watch, events[..mid], o);
      TxNet(txs[|txs| - 1], watch, events[mid..], o, "");
      NetOfParts(events, mid, o, "");
    }
  }

  /** And of a mint it is the change of its holding, where each transaction settles that. */
  lemma {:induction false} BlockTokenNet(txs: seq<Tx>, watch: Watch, events: seq<Event>, o: string, m: string)
    requires Unambiguous(watch.tokens) && "" !in watch.tokens && BlockDerives(txs, watch, events)
    requires o in watch.wallets && m in watch.tokens
    requires forall i :: 0 <= i < |txs| ==> Settles(txs[i], watch, o, m)
    ensures Net(events, o, m) == TokenGain(txs, watch.tokens, o, m)
    decreases |txs|
  {
    if txs != [] {
      var front := txs[..|txs| - 1];
      var mid := LastOfBlock(txs, watch, events);
      assert forall i :: 0 <= i < |front| ==> front[i] == txs[i];
      BlockTokenNet(front, watch, events[..mid], o, m);
      TxNet(txs[|txs| - 1], watch, events[mid..], o, m);
      NetOfParts(events, mid, o, m);
    }
  }
}
