/** ProcessBlock of the Solana processor: native transfers, then tokens, transaction by transaction,
    published in order up to the first failure. */
module SolanaBlock {
  import opened Common
  import opened Events
  import opened Publishing
  import opened SolanaDeltas
  import opened SolanaTransfers
  import opened SolanaAgreement

  // ----- native transfers -----------------------------------------------------------------------------

  /** The native coin has no mint. */
  function NativeAt(tx: Tx, watch: Watch, t: NativeTransfer): seq<Event> {
    if t.lamports == 0 then []
    else MoveEvents(tx.signature, watch.wallets, t.source, t.destination, "", t.lamports)
  }

  function NativeEvents(tx: Tx, watch: Watch, ts: seq<NativeTransfer>): seq<Event> {
    if ts == [] then [] else NativeEvents(tx, watch, ts[..|ts| - 1]) + NativeAt(tx, watch, ts[|ts| - 1])
  }

  lemma {:induction false} NativePrefix(tx: Tx, watch: Watch, ts: seq<NativeTransfer>, i: nat)
    requires i <= |ts|
    ensures NativeEvents(tx, watch, ts[..i]) <= NativeEvents(tx, watch, ts)
    decreases |ts|
  {
    if i < |ts| {
      var front := ts[..|ts| - 1];
      NativePrefix(tx, watch, front, i);
      assert front[..i] == ts[..i];
    } else {
      assert ts[..i] == ts;
    }
  }

  lemma NativeNext(tx: Tx, watch: Watch, ts: seq<NativeTransfer>, i: nat)
    requires i < |ts|
    ensures var next := NativeEvents(tx, watch, ts[..i]) + NativeAt(tx, watch, ts[i]);
      NativeEvents(tx, watch, ts[..i + 1]) == next <= NativeEvents(tx, watch, ts)
  {
    assert ts[..i + 1][..i] == ts[..i];
    NativePrefix(tx, watch, ts, i + 1);
  }

  method ProcessNativeDeltas(p: Session, tx: Tx, tokens: set<string>) returns (o: Outcome)
    modifies p
    ensures p.Sent(old(p.published), NativeEvents(tx, Watch(tokens, p.wallets), tx.native), o)
  {
    ghost var before, watch, ts := p.published, Watch(tokens, p.wallets), tx.native;
    var i := 0;
    while i < |tx.native|
      invariant 0 <= i <= |ts|
      invariant SoFar(p.accepts, before, NativeEvents(tx, watch, ts[..i]), p.published)
    {
      NativeNext(tx, watch, ts, i);
      ghost var done, next := NativeEvents(tx, watch, ts[..i]), NativeAt(tx, watch, ts[i]);
      var t := tx.native[i];
      o := Processed;
      if t.lamports != 0 { o := PublishMove(p, tx.signature, t.source, t.destination, "", t.lamports); }
      Continue(p.accepts, before, done, next, NativeEvents(tx, watch, ts), o, p.published);
      if !o.Processed? { return; }
      i := i + 1;
    }
    assert ts[..i] == ts;
    o := Processed;
  }

  // ----- transactions ---------------------------------------------------------------------------------

  /** Transfers if the transaction has any, deltas otherwise. */
  method ProcessTokenTransfers(p: Session, tx: Tx, tokens: set<string>) returns (o: Outcome, ghost events: seq<Event>)
    modifies p
    ensures TokenDerives(tx, Watch(tokens, p.wallets), events) && p.Sent(old(p.published), events, o)
  {
    if tx.transfers != [] {
      events := InstructionEvents(tx, Watch(tokens, p.wallets), MetaFor(tx), tx.transfers);
      o := ProcessTokenInstructionTransfers(p, tx, tokens);
    } else {
      o, events := ProcessTokenDeltas(p, tx, tokens);
    }
  }

  /** What a transaction calls for: nothing when it failed or has no signature. */
  ghost predicate TxDerives(tx: Tx, watch: Watch, events: seq<Event>) {
    if tx.failed || tx.signature == "" then events == [] else
      exists token :: TokenDerives(tx, watch, token) && events == NativeEvents(tx, watch, tx.native) + token
  }

  lemma SomeTokens(tx: Tx, watch: Watch) returns (events: seq<Event>)
    ensures TokenDerives(tx, watch, events)
  {
    if tx.transfers != [] {
      events := InstructionEvents(tx, watch, MetaFor(tx), tx.transfers);
    } else {
      var d := Delta(tx.pre, tx.post, watch.tokens);
      assert ListsDone(tx, d, watch, {}, [], []);
      events := ListingCompletes(tx, d, watch, {}, [], []);
    }
  }

  lemma SomeTxEvents(tx: Tx, watch: Watch) returns (events: seq<Event>)
    ensures TxDerives(tx, watch, events)
  {
    events := [];
    if !tx.failed && tx.signature != "" {
      var token := SomeTokens(tx, watch);
      events := NativeEvents(tx, watch, tx.native) + token;
    }
  }

  method ProcessTransaction(p: Session, tx: Tx, tokens: set<string>) returns (o: Outcome, ghost events: seq<Event>)
    modifies p
    ensures !tx.failed ==> TxDerives(tx, Watch(tokens, p.wallets), events)
    ensures p.Sent(old(p.published), events, o)
  {
    events := [];
    if tx.signature == "" { return Processed, events; }
    ghost var before, watch := p.published, Watch(tokens, p.wallets);
    ghost var native := NativeEvents(tx, watch, tx.native);
    assert before + [] == before && [] + native == native;
    o := ProcessNativeDeltas(p, tx, tokens);
    if !o.Processed? {
      ghost var some := SomeTokens(tx, watch);
      events := native + some;
      Continue(p.accepts, before, [], native, events, o, p.published);
      return;
    }
    ghost var token;
    o, token := ProcessTokenTransfers(p, tx, tokens);
    events := native + token;
    Continue(p.accepts, before, native, token, events, o, p.published);
  }

  // ----- blocks ---------------------------------------------------------------------------------------

  /** What a block calls for, transaction by transaction. */
  ghost predicate BlockDerives(txs: seq<Tx>, watch: Watch, events: seq<Event>)
    decreases |txs|
  {
    if txs == [] then events == [] else
      exists cut :: 0 <= cut <= |events| &&
        BlockDerives(txs[..|txs| - 1], watch, events[..cut]) && TxDerives(txs[|txs| - 1], watch, events[cut..])
  }

  lemma BlockDerivesNext(txs: seq<Tx>, i: nat, watch: Watch, events: seq<Event>, es: seq<Event>)
    requires i < |txs| && BlockDerives(txs[..i], watch, events) && TxDerives(txs[i], watch, es)
    ensures BlockDerives(txs[..i + 1], watch, events + es)
  {
    var front, all := txs[..i + 1], events + es;
    assert front[..|front| - 1] == txs[..i];
    assert all[..|events|] == events && all[|events|..] == es;
  }

  /** Whatever a part of the block calls for can be completed. */
  lemma {:induction false} BlockCompletes(txs: seq<Tx>, i: nat, watch: Watch, events: seq<Event>)
    returns (all: seq<Event>)
    requires i <= |txs| && BlockDerives(txs[..i], watch, events)
    ensures events <= all && BlockDerives(txs, watch, all)
    decreases |txs| - i
  {
    if i == |txs| {
      assert txs[..i] == txs;
      all := events;
    } else {
      var es := SomeTxEvents(txs[i], watch);
      BlockDerivesNext(txs, i, watch, events, es);
      all := BlockCompletes(txs, i + 1, watch, events + es);
    }
  }

  /** One transaction of the loop: failed ones are skipped. */
  method ProcessNext(p: Session, tx: Tx, tokens: set<string>) returns (o: Outcome, ghost events: seq<Event>)
    modifies p
    ensures TxDerives(tx, Watch(tokens, p.wallets), events) && p.Sent(old(p.published), events, o)
  {
    events := [];
    if tx.failed { return Processed, events; }
    o, events := ProcessTransaction(p, tx, tokens);
  }

  /** ProcessBlock on an answered slot: a skipped slot has no block and counts as processed; otherwise it
      succeeds only once every event of the block was accepted in order. */
  method ProcessBlock(p: Session, slot: Option<seq<Tx>>, tokens: set<string>)
    returns (o: Outcome, ghost events: seq<Event>)
    modifies p
    ensures SlotDerives(slot, Watch(tokens, p.wallets), events) && p.Sent(old(p.published), events, o)
  {
    events := [];
    if slot.None? { return Processed, events; }
    var txs := slot.value;
    ghost var before, watch := p.published, Watch(tokens, p.wallets);
    var i := 0;
    while i < |txs|
      invariant 0 <= i <= |txs|
      invariant BlockDerives(txs[..i], watch, events) && SoFar(p.accepts, before, events, p.published)
    {
      ghost var es;
      o, es := ProcessNext(p, txs[i], tokens);
      BlockDerivesNext(txs, i, watch, events, es);
      ghost var all := BlockCompletes(txs, i + 1, watch, events + es);
      Continue(p.accepts, before, events, es, all, o, p.published);
      if !o.Processed? { return o, all; }
      events := events + es;
      i := i + 1;
    }
    assert txs[..i] == txs;
    o := Processed;
  }

  ghost predicate SlotDerives(slot: Option<seq<Tx>>, watch: Watch, events: seq<Event>) {
    BlockDerives(if slot.Some? then slot.value else [], watch, events)
  }
}
