/** The two ways a Solana transaction's token events are derived, from its transfer instructions and
    from its balance deltas, and when they publish the same net amounts. */
module SolanaTransfers {
  import opened Common
  import opened Events
  import opened Publishing
  import opened Sums
  import opened SolanaDeltas

  datatype Transfer = Transfer(source: string, destination: string, mint: string, amount: int)

  /** A transfer of the native coin. */
  datatype NativeTransfer = NativeTransfer(source: string, destination: string, lamports: nat)

  /** The parts of a transaction that the processor reads; transfers are parsed already. */
  datatype Tx = Tx(
    signature: string,   // the first signature, empty when there is none
    failed: bool,
    accountKeys: seq<string>,
    native: seq<NativeTransfer>,
    pre: seq<TokenBalance>,
    post: seq<TokenBalance>,
    transfers: seq<Transfer>)

  /** Configured mints and watched wallets. */
  datatype Watch = Watch(tokens: set<string>, wallets: Wallets)

  // ----- account metadata -----------------------------------------------------------------------------

  function AccountKeyAt(keys: seq<string>, index: int): Option<string> {
    if index < 0 || index >= |keys| || keys[index] == "" then None else Some(keys[index])
  }

  datatype Meta = Meta(owners: map<string, string>, mints: map<string, string>)

  function Get(m: map<string, string>, k: string): string {
    if k in m then m[k] else ""
  }

  function AddMeta(keys: seq<string>, meta: Meta, b: TokenBalance): Meta {
    match AccountKeyAt(keys, b.accountIndex)
    case None => meta
    case Some(a) =>
      Meta(if b.owner != "" then meta.owners[a := b.owner] else meta.owners,
           if b.mint != "" then meta.mints[a := b.mint] else meta.mints)
  }

  function MetaOf(keys: seq<string>, entries: seq<TokenBalance>): Meta {
    if entries == [] then Meta(map[], map[])
    else AddMeta(keys, MetaOf(keys, entries[..|entries| - 1]), entries[|entries| - 1])
  }

  /** The metadata of the first `i` entries, those before the transaction first. */
  function MetaUpTo(tx: Tx, i: nat): Meta
    requires i <= |tx.pre| + |tx.post|
  {
    MetaOf(tx.accountKeys, (tx.pre + tx.post)[..i])
  }

  function MetaFor(tx: Tx): Meta {
    MetaOf(tx.accountKeys, tx.pre + tx.post)
  }

  method TokenAccountMetadata(tx: Tx) returns (meta: Meta)
    ensures meta == MetaFor(tx)
  {
    meta := Meta(map[], map[]);
    for i := 0 to |tx.pre|
      invariant meta == MetaUpTo(tx, i)
    {
      MetaUpToNext(tx, i);
      meta := AddMeta(tx.accountKeys, meta, tx.pre[i]);
    }
    for i := 0 to |tx.post|
      invariant meta == MetaUpTo(tx, |tx.pre| + i)
    {
      MetaUpToNext(tx, |tx.pre| + i);
      meta := AddMeta(tx.accountKeys, meta, tx.post[i]);
    }
    assert (tx.pre + tx.post)[..|tx.pre| + |tx.post|] == tx.pre + tx.post;
  }

  lemma MetaUpToNext(tx: Tx, i: nat)
    requires i < |tx.pre| + |tx.post|
    ensures MetaUpTo(tx, i + 1) ==
      AddMeta(tx.accountKeys, MetaUpTo(tx, i), if i < |tx.pre| then tx.pre[i] else tx.post[i - |tx.pre|])
  {
    MetaNext(tx.accountKeys, tx.pre + tx.post, i);
  }

  lemma MetaNext(keys: seq<string>, entries: seq<TokenBalance>, i: nat)
    requires i < |entries|
    ensures MetaOf(keys, entries[..i + 1]) == AddMeta(keys, MetaOf(keys, entries[..i]), entries[i])
  {
    assert entries[..i + 1][..i] == entries[..i];
  }

  // ----- the instruction path -------------------------------------------------------------------------

  function MintOf(meta: Meta, t: Transfer): string {
    if t.mint != "" then t.mint
    else if Get(meta.mints, t.source) != "" then Get(meta.mints, t.source)
    else Get(meta.mints, t.destination)
  }

  /** The transfers the instruction path does not skip: a configured mint and two known owners. */
  predicate Known(meta: Meta, tokens: set<string>, t: Transfer) {
    t.amount != 0 && MintOf(meta, t) in tokens &&
    Get(meta.owners, t.source) != "" && Get(meta.owners, t.destination) != ""
  }

  /** What a movement from one owner to another calls for: a deposit or a withdrawal when exactly one of
      the two is watched. */
  function MoveEvents(signature: string, wallets: Wallets, from: string, dest: string, asset: string, amount: int)
    : seq<Event>
  {
    if dest in wallets && from !in wallets then
      [Deposit(signature, wallets[dest], dest, from, [], asset, amount)]
    else if from in wallets && dest !in wallets then
      [Withdrawal(signature, wallets[from], from, dest, [], asset, amount)]
    else []
  }

  function TransferEvents(tx: Tx, watch: Watch, meta: Meta, t: Transfer): seq<Event> {
    if !Known(meta, watch.tokens, t) then [] else
      MoveEvents(tx.signature, watch.wallets, Get(meta.owners, t.source), Get(meta.owners, t.destination),
                 MintOf(meta, t), t.amount)
  }

  function InstructionEvents(tx: Tx, watch: Watch, meta: Meta, transfers: seq<Transfer>): seq<Event> {
    if transfers == [] then []
    else InstructionEvents(tx, watch, meta, transfers[..|transfers| - 1]) +
         TransferEvents(tx, watch, meta, transfers[|transfers| - 1])
  }

  /** Both sides are looked up, then the event, if any, is published. */
  method PublishMove(p: Session, signature: string, from: string, dest: string, asset: string, amount: int)
    returns (o: Outcome)
    modifies p
    ensures p.Sent(old(p.published), MoveEvents(signature, p.wallets, from, dest, asset, amount), o)
  {
    var fromID, fromFailed := p.IsWatchedWallet(from);
    if fromFailed { return LookupFailed; }
    var destID, destFailed := p.IsWatchedWallet(dest);
    if destFailed { return LookupFailed; }
    var ok := true;
    if destID.Some? && fromID.None? {
      ok := p.Publish(Deposit(signature, destID.value, dest, from, [], asset, amount));
    } else if fromID.Some? && destID.None? {
      ok := p.Publish(Withdrawal(signature, fromID.value, from, dest, [], asset, amount));
    }
    o := if ok then Processed else PublishRefused;
  }

  /** One transfer: skipped unless its amount, mint and owners are known. */
  method PublishTransfer(p: Session, tx: Tx, tokens: set<string>, meta: Meta, t: Transfer) returns (o: Outcome)
    modifies p
    ensures p.Sent(old(p.published), TransferEvents(tx, Watch(tokens, p.wallets), meta, t), o)
  {
    if t.amount == 0 { return Processed; }
    var mint := t.mint;
    if mint == "" {
      mint := Get(meta.mints, t.source);
      if mint == "" { mint := Get(meta.mints, t.destination); }
    }
    if mint !in tokens { return Processed; }
    var from, dest := Get(meta.owners, t.source), Get(meta.owners, t.destination);
    if from == "" || dest == "" { return Processed; }
    o := PublishMove(p, tx.signature, from, dest, mint, t.amount);
  }

  /** Account metadata first, then one event at most per transfer, in order. */
  method ProcessTokenInstructionTransfers(p: Session, tx: Tx, tokens: set<string>) returns (o: Outcome)
    modifies p
    ensures p.Sent(old(p.published), InstructionEvents(tx, Watch(tokens, p.wallets), MetaFor(tx), tx.transfers), o)
  {
    var meta := TokenAccountMetadata(tx);
    ghost var before, watch, ts := p.published, Watch(tokens, p.wallets), tx.transfers;
    var i := 0;
    while i < |tx.transfers|
      invariant 0 <= i <= |ts|
      invariant SoFar(p.accepts, before, InstructionEvents(tx, watch, meta, ts[..i]), p.published)
    {
      InstructionNext(tx, watch, meta, ts, i);
      ghost var done, next := InstructionEvents(tx, watch, meta, ts[..i]), TransferEvents(tx, watch, meta, ts[i]);
      o := PublishTransfer(p, tx, tokens, meta, tx.transfers[i]);
      Continue(p.accepts, before, done, next, InstructionEvents(tx, watch, meta, ts), o, p.published);
      if !o.Processed? { return; }
      i := i + 1;
    }
    assert ts[..i] == ts;
    o := Processed;
  }

  lemma InstructionNext(tx: Tx, watch: Watch, meta: Meta, ts: seq<Transfer>, i: nat)
    requires i < |ts|
    ensures var next := InstructionEvents(tx, watch, meta, ts[..i]) + TransferEvents(tx, watch, meta, ts[i]);
      InstructionEvents(tx, watch, meta, ts[..i + 1]) == next <= InstructionEvents(tx, watch, meta, ts)
    ensures |TransferEvents(tx, watch, meta, ts[i])| <= 1
  {
    assert ts[..i + 1][..i] == ts[..i];
    InstructionPrefix(tx, watch, meta, ts, i + 1);
  }

  lemma {:induction false} InstructionPrefix(tx: Tx, watch: Watch, meta: Meta, ts: seq<Transfer>, i: nat)
    requires i <= |ts|
    ensures InstructionEvents(tx, watch, meta, ts[..i]) <= InstructionEvents(tx, watch, meta, ts)
    decreases |ts|
  {
    if i < |ts| {
      var front := ts[..|ts| - 1];
      InstructionPrefix(tx, watch, meta, front, i);
      assert front[..i] == ts[..i];
    } else {
      assert ts[..i] == ts;
    }
  }

  // ----- the delta path -------------------------------------------------------------------------------

  /** Deposits minus withdrawals of `mint` published for address `o`. */
  function Net(events: seq<Event>, o: string, mint: string): int {
    if events == [] then 0 else
      var e := events[|events| - 1];
      Net(events[..|events| - 1], o, mint) +
      if e.address != o || e.asset != mint then 0 else if e.Deposit? then e.amount else -e.amount
  }

  lemma NetSnoc(events: seq<Event>, e: Event, o: string, mint: string)
    ensures Net(events + [e], o, mint) == Net(events, o, mint) + Net([e], o, mint)
  {
    assert (events + [e])[..|events|] == events;
    assert [e][..0] == [];
  }

  /** What the delta path owes address `o` in mint `m`. */
  ghost function Due(d: Deltas, watch: Watch, o: string, m: string): int {
    if o in watch.wallets && m in watch.tokens then AmountAt(d, Key(o, m)) else 0
  }

  ghost predicate Settled(d: Deltas, watch: Watch, published: seq<Event>) {
    forall o, m :: Net(published, o, m) == Due(d, watch, o, m)
  }

  ghost predicate WellKeyed(d: Deltas, tokens: set<string>) {
    forall k :: k in d ==> k == Key(d[k].owner, d[k].mint) && d[k].mint in tokens
  }

  function DeltaEvent(tx: Tx, t: TokenDelta, walletID: string, counterparty: string): Event {
    if t.amount > 0 then Deposit(tx.signature, walletID, t.owner, counterparty, [], t.mint, t.amount)
    else Withdrawal(tx.signature, walletID, t.owner, counterparty, [], t.mint, -t.amount)
  }

  /** The event of entry `key`: its wallet, owner, mint and amount, and a counterparty of it. */
  ghost predicate FromKey(tx: Tx, d: Deltas, watch: Watch, key: string, e: Event) {
    && key in d && d[key].amount != 0 && d[key].owner in watch.wallets
    && var counterparty := if e.Deposit? then e.from else e.to;
    && IsCounterparty(d, key, counterparty)
    && e == DeltaEvent(tx, d[key], watch.wallets[d[key].owner], counterparty)
  }

  predicate Owed(d: Deltas, watch: Watch, k: string) {
    k in d && d[k].amount != 0 && d[k].owner in watch.wallets
  }

  /** The events are those of `keys`, one each. */
  ghost predicate Lists(tx: Tx, d: Deltas, watch: Watch, keys: seq<string>, events: seq<Event>) {
    && |keys| == |events|
    && (forall i :: 0 <= i < |keys| ==> FromKey(tx, d, watch, keys[i], events[i]))
    && (forall i, j :: 0 <= i < j < |keys| ==> keys[i] != keys[j])
  }

  /** The events are those of the owed entries in `done`, one each. */
  ghost predicate ListsDone(tx: Tx, d: Deltas, watch: Watch, done: set<string>, keys: seq<string>, events: seq<Event>) {
    Lists(tx, d, watch, keys, events) && forall k :: k in keys <==> k in done && Owed(d, watch, k)
  }

  /** What the delta path calls for: one event for every owed entry, in some order. */
  ghost predicate DeltaListing(tx: Tx, d: Deltas, watch: Watch, events: seq<Event>) {
    exists keys :: ListsDone(tx, d, watch, d.Keys, keys, events)
  }

  /** What one entry calls for. */
  ghost predicate EntryEvents(tx: Tx, d: Deltas, watch: Watch, key: string, es: seq<Event>) {
    if Owed(d, watch, key) then |es| == 1 && FromKey(tx, d, watch, key, es[0]) else es == []
  }

  lemma ListsNext(tx: Tx, d: Deltas, watch: Watch, done: set<string>, keys: seq<string>, events: seq<Event>,
                  key: string, es: seq<Event>) returns (keys': seq<string>)
    requires ListsDone(tx, d, watch, done, keys, events) && key !in done && EntryEvents(tx, d, watch, key, es)
    ensures ListsDone(tx, d, watch, done + {key}, keys', events + es)
  {
    if Owed(d, watch, key) {
      keys' := keys + [key];
      assert key !in keys;
      forall k ensures k in keys' <==> k in keys || k == key {}
    } else {
      keys' := keys;
      assert events + es == events;
    }
  }

  lemma SomeEntryEvents(tx: Tx, d: Deltas, watch: Watch, key: string) returns (es: seq<Event>)
    ensures EntryEvents(tx, d, watch, key, es)
  {
    es := [];
    if Owed(d, watch, key) {
      var owner := "";
      if k :| Opposite(d, key, k) { owner := d[k].owner; }
      es := [DeltaEvent(tx, d[key], watch.wallets[d[key].owner], owner)];
    }
  }

  /** Whatever has been listed so far can be completed. */
  lemma {:induction false} ListingCompletes(tx: Tx, d: Deltas, watch: Watch, done: set<string>, keys: seq<string>,
                                           events: seq<Event>) returns (all: seq<Event>)
    requires done <= d.Keys && ListsDone(tx, d, watch, done, keys, events)
    ensures events <= all && DeltaListing(tx, d, watch, all)
    decreases d.Keys - done
  {
    if forall key :: key in d.Keys ==> key in done {
      assert done == d.Keys;
      all := events;
    } else {
      var key :| key in d.Keys && key !in done;
      var es := SomeEntryEvents(tx, d, watch, key);
      var keys' := ListsNext(tx, d, watch, done, keys, events, key, es);
      all := ListingCompletes(tx, d, watch, done + {key}, keys', events + es);
    }
  }

  /** One entry of the deltas. */
  method PublishDelta(p: Session, tx: Tx, tokens: set<string>, d: Deltas, key: string)
    returns (o: Outcome, ghost es: seq<Event>)
    requires key in d
    modifies p
    ensures EntryEvents(tx, d, Watch(tokens, p.wallets), key, es) && p.Sent(old(p.published), es, o)
  {
    var delta := d[key];
    es := [];
    if delta.amount == 0 { return Processed, es; }
    es := SomeEntryEvents(tx, d, Watch(tokens, p.wallets), key);
    var id, failed := p.IsWatchedWallet(delta.owner);
    if failed { return LookupFailed, es; }
    if id.None? { return Processed, es; }
    var counterparty := OppositeTokenOwner(d, key);
    var e := DeltaEvent(tx, delta, id.value, counterparty);
    es := [e];
    var ok := p.Publish(e);
    o := if ok then Processed else PublishRefused;
  }

  /** The map loop over the deltas, in whatever order. */
  method PublishDeltas(p: Session, tx: Tx, tokens: set<string>, d: Deltas)
    returns (o: Outcome, ghost events: seq<Event>)
    modifies p
    ensures DeltaListing(tx, d, Watch(tokens, p.wallets), events) && p.Sent(old(p.published), events, o)
  {
    ghost var before, watch := p.published, Watch(tokens, p.wallets);
    ghost var done, keys := {}, [];
    events := [];
    var left := d.Keys;
    while left != {}
      invariant done + left == d.Keys && done !! left
      invariant ListsDone(tx, d, watch, done, keys, events)
      invariant SoFar(p.accepts, before, events, p.published)
      decreases |left|
    {
      var key :| key in left;
      assert key in d.Keys;
      ghost var es;
      o, es := PublishDelta(p, tx, tokens, d, key);
      keys := ListsNext(tx, d, watch, done, keys, events, key, es);
      MoveOver(done, left, key);
      left, done := left - {key}, done + {key};
      ghost var all := ListingCompletes(tx, d, watch, done, keys, events + es);
      Continue(p.accepts, before, events, es, all, o, p.published);
      if !o.Processed? { return o, all; }
      events := events + es;
    }
    assert done == d.Keys;
    o := Processed;
  }

  /** One event for every nonzero delta of a watched owner, in whatever order, up to the first failure. */
  method ProcessTokenDeltas(p: Session, tx: Tx, tokens: set<string>) returns (o: Outcome, ghost events: seq<Event>)
    modifies p
    ensures DeltaListing(tx, Delta(tx.pre, tx.post, tokens), Watch(tokens, p.wallets), events)
    ensures p.Sent(old(p.published), events, o)
  {
    var d := TokenDeltas(tx.pre, tx.post, tokens);
    o, events := PublishDeltas(p, tx, tokens, d);
  }

  /** The net amount listed for an address is the delta under its key, if that key is listed. */
  lemma {:induction false} ListedNet(tx: Tx, d: Deltas, watch: Watch, keys: seq<string>, events: seq<Event>,
                                     o: string, m: string)
    requires Unambiguous(watch.tokens) && WellKeyed(d, watch.tokens) && Lists(tx, d, watch, keys, events)
    ensures Net(events, o, m) == if m in watch.tokens && Key(o, m) in keys then AmountAt(d, Key(o, m)) else 0
    decreases |keys|
  {
    if keys != [] {
      var n := |keys| - 1;
      var front, key, e := keys[..n], keys[n], events[n];
      ListsFront(tx, d, watch, keys, events);
      ListedNet(tx, d, watch, front, events[..n], o, m);
      NetSnoc(events[..n], e, o, m);
      KeyNet(tx, d, watch, key, e, o, m);
    }
  }

  lemma ListsFront(tx: Tx, d: Deltas, watch: Watch, keys: seq<string>, events: seq<Event>)
    requires Lists(tx, d, watch, keys, events) && keys != []
    ensures var n := |keys| - 1;
      && Lists(tx, d, watch, keys[..n], events[..n]) && FromKey(tx, d, watch, keys[n], events[n])
      && keys[n] !in keys[..n] && keys == keys[..n] + [keys[n]] && events == events[..n] + [events[n]]
  {
  }

  lemma KeyNet(tx: Tx, d: Deltas, watch: Watch, key: string, e: Event, o: string, m: string)
    requires Unambiguous(watch.tokens) && WellKeyed(d, watch.tokens) && FromKey(tx, d, watch, key, e)
    ensures Net([e], o, m) == if m in watch.tokens && Key(o, m) == key then d[key].amount else 0
  {
    assert [e][..0] == [];
    if m in watch.tokens && Key(o, m) == key { KeysIdentify(watch.tokens); }
  }

  /** A listing settles every delta: the net amount for a watched owner is its delta, for others 0. */
  lemma ListingSettles(tx: Tx, d: Deltas, watch: Watch, events: seq<Event>)
    requires Unambiguous(watch.tokens) && WellKeyed(d, watch.tokens) && DeltaListing(tx, d, watch, events)
    ensures Settled(d, watch, events)
  {
    var keys :| ListsDone(tx, d, watch, d.Keys, keys, events);
    forall o, m ensures Net(events, o, m) == Due(d, watch, o, m) {
      ListedNet(tx, d, watch, keys, events, o, m);
      if m in watch.tokens && Key(o, m) in d { KeysIdentify(watch.tokens); }
    }
  }

  lemma DeltaWellKeyed(tx: Tx, tokens: set<string>)
    ensures WellKeyed(Delta(tx.pre, tx.post, tokens), tokens)
  {
    var d := Delta(tx.pre, tx.post, tokens);
    forall k | k in d ensures k == Key(d[k].owner, d[k].mint) && d[k].mint in tokens {
      DeltaKeys(tx.pre, tx.post, tokens, k);
    }
  }

  /** Read through: the net amount for a watched owner is what it holds after minus what it held before. */
  lemma SettledNet(tx: Tx, watch: Watch, published: seq<Event>, o: string, m: string)
    requires Unambiguous(watch.tokens) && m in watch.tokens
    requires var d := Delta(tx.pre, tx.post, watch.tokens); Settled(d, watch, published)
    ensures Net(published, o, m) ==
      if o in watch.wallets then Held(tx.post, watch.tokens, o, m) - Held(tx.pre, watch.tokens, o, m) else 0
  {
    var d := Delta(tx.pre, tx.post, watch.tokens);
    assert Net(published, o, m) == Due(d, watch, o, m);
    DeltaExact(tx.pre, tx.post, watch.tokens, o, m);
  }
}
