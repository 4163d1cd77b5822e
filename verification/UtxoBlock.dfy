/** The loops of ProcessBlock, with wallet lookups that may fail and a publisher that may refuse:
    the published events are those of the block, in order, up to the first failure. */
module UtxoBlock {
  import opened Common
  import opened Events
  import opened Publishing
  import opened Utxo

  method ScanTxInputs(p: Session, tx: Tx) returns (s: Scan, o: Outcome)
    modifies p`lookups
    ensures o.Processed? ==> s == ScanInputs(tx.vin, p.wallets)
    ensures o.Processed? || (o.LookupFailed? && exists n :: p.fails(n))
  {
    s := NOTHING;
    var i := 0;
    while i < |tx.vin|
      invariant 0 <= i <= |tx.vin|
      invariant s == ScanInputs(tx.vin[..i], p.wallets) && !s.multi
    {
      var v := tx.vin[i];
      assert tx.vin[..i + 1][..i] == tx.vin[..i];
      if v.address != "" {
        ghost var was := s;
        s := s.(from := if s.from == "" then v.address else s.from, inputs := s.inputs + [Leg(v.address, v.value)]);
        var id, failed := p.IsWatchedWallet(v.address);
        if failed { return s, LookupFailed; }
        if id.Some? {
          if s.walletID == "" {
            s := s.(walletID := id.value, address := v.address);
          } else if id.value != s.walletID {
            s := s.(multi := true);
            MultiStays(tx.vin, i + 1, p.wallets);
            return s, Processed;
          }
        }
      }
      i := i + 1;
    }
    assert tx.vin[..i] == tx.vin;
    o := Processed;
  }

  method ExternalOutputs(p: Session, tx: Tx) returns (legs: seq<Leg>, amount: int, to: string, o: Outcome)
    modifies p`lookups
    ensures o.Processed? ==> legs == ExternalLegs(tx.vout, p.wallets)
    ensures o.Processed? ==> amount == LegSum(legs) && to == FirstNamed(legs)
    ensures o.Processed? || (o.LookupFailed? && exists n :: p.fails(n))
  {
    legs, amount, to := [], 0, "";
    var i := 0;
    while i < |tx.vout|
      invariant 0 <= i <= |tx.vout|
      invariant legs == ExternalLegs(tx.vout[..i], p.wallets)
      invariant amount == LegSum(legs) && to == FirstNamed(legs)
    {
      var v := tx.vout[i];
      ExternalNext(tx.vout, p.wallets, i);
      if v.addresses != [] {
        var id, failed := p.IsWatchedWallet(v.addresses[0]);
        if failed { return legs, amount, to, LookupFailed; }
        if id.None? {
          var leg := Leg(v.addresses[0], v.value);
          LegSumSnoc(legs, leg);
          FirstNamedSnoc(legs, leg);
          amount := amount + v.value;
          legs := legs + [leg];
          if to == "" { to := v.addresses[0]; }
        }
      }
      i := i + 1;
    }
    assert tx.vout[..i] == tx.vout;
    o := Processed;
  }

  method PublishWithdrawal(p: Session, tx: Tx, s: Scan) returns (o: Outcome)
    modifies p
    ensures p.Sent(old(p.published), WithdrawalEvents(tx, s, p.wallets), o)
  {
    if s.walletID != "" && !s.multi {
      var legs, amount, to;
      legs, amount, to, o := ExternalOutputs(p, tx);
      if !o.Processed? { return; }
      if amount > 0 {
        var ok := p.Publish(Withdrawal(tx.txid, s.walletID, s.address, to, legs, "", amount));
        if !ok { return PublishRefused; }
      }
    }
    o := Processed;
  }

  /** One address of one output. */
  method PublishAddress(p: Session, tx: Tx, s: Scan, address: string, value: nat) returns (o: Outcome)
    modifies p
    ensures p.Sent(old(p.published), DepositAt(tx, s, p.wallets, address, value), o)
  {
    var id, failed := p.IsWatchedWallet(address);
    if failed { return LookupFailed; }
    if id.Some? && !(s.walletID != "" && id.value == s.walletID) {
      var ok := p.Publish(Deposit(tx.txid, id.value, address, s.from, s.inputs, "", value));
      if !ok { return PublishRefused; }
    }
    o := Processed;
  }

  method PublishOutput(p: Session, tx: Tx, s: Scan, v: Vout) returns (o: Outcome)
    modifies p
    ensures p.Sent(old(p.published), OutputDeposits(tx, s, p.wallets, v.addresses, v.value), o)
  {
    ghost var before, all := p.published, OutputDeposits(tx, s, p.wallets, v.addresses, v.value);
    var i := 0;
    while i < |v.addresses|
      invariant 0 <= i <= |v.addresses|
      invariant SoFar(p.accepts, before, OutputDeposits(tx, s, p.wallets, v.addresses[..i], v.value), p.published)
    {
      OutputNext(tx, s, p.wallets, v.addresses, v.value, i);
      ghost var done := OutputDeposits(tx, s, p.wallets, v.addresses[..i], v.value);
      o := PublishAddress(p, tx, s, v.addresses[i], v.value);
      Continue(p.accepts, before, done, DepositAt(tx, s, p.wallets, v.addresses[i], v.value), all, o, p.published);
      if !o.Processed? { return; }
      i := i + 1;
    }
    assert v.addresses[..i] == v.addresses;
    o := Processed;
  }

  method PublishDeposits(p: Session, tx: Tx, s: Scan) returns (o: Outcome)
    modifies p
    ensures p.Sent(old(p.published), DepositEvents(tx, s, p.wallets, tx.vout), o)
  {
    var i := 0;
    while i < |tx.vout|
      invariant 0 <= i <= |tx.vout|
      invariant SoFar(p.accepts, old(p.published), DepositEvents(tx, s, p.wallets, tx.vout[..i]), p.published)
    {
      DepositsNext(tx, s, p.wallets, tx.vout, i);
      ghost var done, v := DepositEvents(tx, s, p.wallets, tx.vout[..i]), tx.vout[i];
      o := PublishOutput(p, tx, s, tx.vout[i]);
      Continue(p.accepts, old(p.published), done, OutputDeposits(tx, s, p.wallets, v.addresses, v.value),
               DepositEvents(tx, s, p.wallets, tx.vout), o, p.published);
      if !o.Processed? { return; }
      i := i + 1;
    }
    assert tx.vout[..i] == tx.vout;
    o := Processed;
  }

  method ProcessTransaction(p: Session, tx: Tx) returns (o: Outcome)
    modifies p
    ensures p.Sent(old(p.published), TxEvents(tx, p.wallets), o)
  {
    var s;
    s, o := ScanTxInputs(p, tx);
    if !o.Processed? { return; }
    ghost var before, w, d := p.published, WithdrawalEvents(tx, s, p.wallets), DepositEvents(tx, s, p.wallets, tx.vout);
    assert before + [] == before && [] + w == w;
    o := PublishWithdrawal(p, tx, s);
    Continue(p.accepts, before, [], w, w + d, o, p.published);
    if !o.Processed? { return; }
    o := PublishDeposits(p, tx, s);
    Continue(p.accepts, before, w, d, w + d, o, p.published);
  }

  /** ProcessBlock on a fetched block: it succeeds only once all its events were accepted in order. */
  method ProcessBlock(p: Session, txs: seq<Tx>) returns (o: Outcome)
    modifies p
    ensures p.Sent(old(p.published), BlockEvents(txs, p.wallets), o)
  {
    var i := 0;
    while i < |txs|
      invariant 0 <= i <= |txs|
      invariant SoFar(p.accepts, old(p.published), BlockEvents(txs[..i], p.wallets), p.published)
    {
      BlockNext(txs, p.wallets, i);
      ghost var done := BlockEvents(txs[..i], p.wallets);
      o := ProcessTransaction(p, txs[i]);
      Continue(p.accepts, old(p.published), done, TxEvents(txs[i], p.wallets), BlockEvents(txs, p.wallets), o,
               p.published);
      if !o.Processed? { return; }
      i := i + 1;
    }
    assert txs[..i] == txs;
    o := Processed;
  }

  lemma ExternalNext(vout: seq<Vout>, wallets: Wallets, i: nat)
    requires i < |vout|
    ensures ExternalLegs(vout[..i + 1], wallets) == if External(vout[i], wallets)
      then ExternalLegs(vout[..i], wallets) + [Leg(vout[i].addresses[0], vout[i].value)]
      else ExternalLegs(vout[..i], wallets)
  {
    assert vout[..i + 1][..i] == vout[..i];
  }

  lemma OutputNext(tx: Tx, s: Scan, wallets: Wallets, addresses: seq<string>, value: nat, i: nat)
    requires i < |addresses|
    ensures var next :=
        OutputDeposits(tx, s, wallets, addresses[..i], value) + DepositAt(tx, s, wallets, addresses[i], value);
      OutputDeposits(tx, s, wallets, addresses[..i + 1], value) == next &&
      next <= OutputDeposits(tx, s, wallets, addresses, value)
  {
    assert addresses[..i + 1][..i] == addresses[..i];
    OutputDepositsPrefix(tx, s, wallets, addresses, value, i + 1);
  }

  lemma DepositsNext(tx: Tx, s: Scan, wallets: Wallets, vout: seq<Vout>, i: nat)
    requires i < |vout|
    ensures var next :=
        DepositEvents(tx, s, wallets, vout[..i]) + OutputDeposits(tx, s, wallets, vout[i].addresses, vout[i].value);
      DepositEvents(tx, s, wallets, vout[..i + 1]) == next <= DepositEvents(tx, s, wallets, vout)
  {
    assert vout[..i + 1][..i] == vout[..i];
    DepositEventsPrefix(tx, s, wallets, vout, i + 1);
  }

  lemma BlockNext(txs: seq<Tx>, wallets: Wallets, i: nat)
    requires i < |txs|
    ensures var next := BlockEvents(txs[..i], wallets) + TxEvents(txs[i], wallets);
      BlockEvents(txs[..i + 1], wallets) == next <= BlockEvents(txs, wallets)
  {
    assert txs[..i + 1][..i] == txs[..i];
    BlockEventsPrefix(txs, wallets, i + 1);
  }

  /** Once several wallets were seen, the rest of the inputs changes nothing. */
  lemma {:induction false} MultiStays(vin: seq<Vin>, i: nat, wallets: Wallets)
    requires i <= |vin| && ScanInputs(vin[..i], wallets).multi
    ensures ScanInputs(vin, wallets) == ScanInputs(vin[..i], wallets)
    decreases |vin|
  {
    if i < |vin| {
      var front := vin[..|vin| - 1];
      assert front[..i] == vin[..i];
      MultiStays(front, i, wallets);
    } else {
      assert vin[..i] == vin;
    }
  }

  lemma {:induction false} OutputDepositsPrefix(tx: Tx, s: Scan, wallets: Wallets, addresses: seq<string>,
                                               value: nat, i: nat)
    requires i <= |addresses|
    ensures OutputDeposits(tx, s, wallets, addresses[..i], value) <= OutputDeposits(tx, s, wallets, addresses, value)
    decreases |addresses|
  {
    if i < |addresses| {
      var front := addresses[..|addresses| - 1];
      assert front[..i] == addresses[..i];
      OutputDepositsPrefix(tx, s, wallets, front, value, i);
    } else {
      assert addresses[..i] == addresses;
    }
  }

  lemma {:induction false} DepositEventsPrefix(tx: Tx, s: Scan, wallets: Wallets, vout: seq<Vout>, i: nat)
    requires i <= |vout|
    ensures DepositEvents(tx, s, wallets, vout[..i]) <= DepositEvents(tx, s, wallets, vout)
    decreases |vout|
  {
    if i < |vout| {
      var front := vout[..|vout| - 1];
      assert front[..i] == vout[..i];
      DepositEventsPrefix(tx, s, wallets, front, i);
    } else {
      assert vout[..i] == vout;
    }
  }

  lemma {:induction false} BlockEventsPrefix(txs: seq<Tx>, wallets: Wallets, i: nat)
    requires i <= |txs|
    ensures BlockEvents(txs[..i], wallets) <= BlockEvents(txs, wallets)
    decreases |txs|
  {
    if i < |txs| {
      var front := txs[..|txs| - 1];
      assert front[..i] == txs[..i];
      BlockEventsPrefix(front, wallets, i);
    } else {
      assert txs[..i] == txs;
    }
  }
}
