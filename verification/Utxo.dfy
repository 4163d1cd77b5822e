/** ProcessBlock of the UTXO processor: which wallet spends, what leaves it, what is a deposit and what
    is change. Amounts are integer satoshis. */
module Utxo {
  import opened Common
  import opened Events

  datatype Vin = Vin(address: string, value: nat)
  datatype Vout = Vout(addresses: seq<string>, value: nat)
  datatype Tx = Tx(txid: string, vin: seq<Vin>, vout: seq<Vout>)

  // ----- the input scan -------------------------------------------------------------------------------

  /** What the scan of the inputs has found; `walletID` is empty while no watched input was seen. */
  datatype Scan = Scan(walletID: string, address: string, multi: bool, from: string, inputs: seq<Leg>)

  const NOTHING: Scan := Scan("", "", false, "", [])

  function ScanInput(s: Scan, v: Vin, wallets: Wallets): Scan {
    if s.multi || v.address == "" then s else
      var s1 := s.(from := if s.from == "" then v.address else s.from,
                   inputs := s.inputs + [Leg(v.address, v.value)]);
      if v.address !in wallets then s1
      else if s.walletID == "" then s1.(walletID := wallets[v.address], address := v.address)
      else if wallets[v.address] != s.walletID then s1.(multi := true)
      else s1
  }

  function ScanInputs(vin: seq<Vin>, wallets: Wallets): Scan {
    if vin == [] then NOTHING
    else ScanInput(ScanInputs(vin[..|vin| - 1], wallets), vin[|vin| - 1], wallets)
  }

  /** Reference: the wallets that fund the transaction. */
  function Spenders(vin: seq<Vin>, wallets: Wallets): set<string> {
    set i | 0 <= i < |vin| && vin[i].address != "" && vin[i].address in wallets :: wallets[vin[i].address]
  }

  /** Reference: the wallet of the first watched input, empty when there is none. */
  function FirstSpender(vin: seq<Vin>, wallets: Wallets): string {
    if vin == [] then ""
    else if vin[0].address != "" && vin[0].address in wallets then wallets[vin[0].address]
    else FirstSpender(vin[1..], wallets)
  }

  /** No wallet id is empty: the HTTP handler refuses those. */
  predicate Named(wallets: Wallets) {
    forall a :: a in wallets ==> wallets[a] != ""
  }

  lemma SpendersSnoc(vin: seq<Vin>, wallets: Wallets)
    requires vin != []
    ensures var v := vin[|vin| - 1];
      Spenders(vin, wallets) == Spenders(vin[..|vin| - 1], wallets) +
        if v.address != "" && v.address in wallets then {wallets[v.address]} else {}
  {
    var front, v := vin[..|vin| - 1], vin[|vin| - 1];
    forall id | id in Spenders(vin, wallets)
      ensures id in Spenders(front, wallets) || (v.address != "" && v.address in wallets && id == wallets[v.address])
    {
      var i :| 0 <= i < |vin| && vin[i].address != "" && vin[i].address in wallets && wallets[vin[i].address] == id;
      if i < |front| { assert front[i] == vin[i]; }
    }
    forall id | id in Spenders(front, wallets) ensures id in Spenders(vin, wallets) {
      var i :| 0 <= i < |front| && front[i].address != "" && front[i].address in wallets &&
        wallets[front[i].address] == id;
      assert vin[i] == front[i];
    }
    if v.address != "" && v.address in wallets {
      assert vin[|vin| - 1] == v;
    }
  }

  /** The scan finds no spender, the one spender, or that there are several. */
  lemma {:induction false} ScanFindsSpenders(vin: seq<Vin>, wallets: Wallets)
    requires Named(wallets)
    ensures var s, ids := ScanInputs(vin, wallets), Spenders(vin, wallets);
      && (s.walletID == "" <==> ids == {})
      && (s.walletID != "" ==> s.walletID in ids)
      && (s.multi <==> exists id :: id in ids && id != s.walletID)
      && (s.walletID != "" && !s.multi <==> ids == {s.walletID})
    decreases |vin|
  {
    if vin != [] {
      ScanFindsSpenders(vin[..|vin| - 1], wallets);
      SpendersSnoc(vin, wallets);
    }
  }

  lemma {:induction false} FirstSpenderSnoc(vin: seq<Vin>, v: Vin, wallets: Wallets)
    requires Named(wallets)
    ensures var first := FirstSpender(vin, wallets);
      FirstSpender(vin + [v], wallets) ==
        if first != "" then first else if v.address != "" && v.address in wallets then wallets[v.address] else ""
    decreases |vin|
  {
    if vin == [] {
      assert ([] + [v])[1..] == [] && FirstSpender([], wallets) == "";
    } else {
      assert (vin + [v])[1..] == vin[1..] + [v];
      FirstSpenderSnoc(vin[1..], v, wallets);
    }
  }

  /** The wallet the scan settles on is that of the first watched input. */
  lemma {:induction false} ScanFindsFirst(vin: seq<Vin>, wallets: Wallets)
    requires Named(wallets)
    ensures ScanInputs(vin, wallets).walletID == FirstSpender(vin, wallets)
    decreases |vin|
  {
    if vin != [] {
      var front, v := vin[..|vin| - 1], vin[|vin| - 1];
      assert vin == front + [v];
      ScanFindsFirst(front, wallets);
      ScanFindsSpenders(front, wallets);
      FirstSpenderSnoc(front, v, wallets);
    }
  }

  // ----- what a transaction means ---------------------------------------------------------------------

  predicate External(v: Vout, wallets: Wallets) {
    v.addresses != [] && v.addresses[0] !in wallets
  }

  /** The outputs that leave the watched wallets. */
  function ExternalLegs(vout: seq<Vout>, wallets: Wallets): seq<Leg> {
    if vout == [] then [] else
      var v := vout[|vout| - 1];
      ExternalLegs(vout[..|vout| - 1], wallets) +
      if External(v, wallets) then [Leg(v.addresses[0], v.value)] else []
  }

  function LegSum(legs: seq<Leg>): int {
    if legs == [] then 0 else LegSum(legs[..|legs| - 1]) + legs[|legs| - 1].amount
  }

  /** The first address that is not empty. */
  function FirstNamed(legs: seq<Leg>): string {
    if legs == [] then "" else
      var first := FirstNamed(legs[..|legs| - 1]);
      if first == "" then legs[|legs| - 1].address else first
  }

  function WithdrawalEvents(tx: Tx, s: Scan, wallets: Wallets): seq<Event> {
    var legs := ExternalLegs(tx.vout, wallets);
    if s.walletID != "" && !s.multi && LegSum(legs) > 0 then
      [Withdrawal(tx.txid, s.walletID, s.address, FirstNamed(legs), legs, "", LegSum(legs))]
    else []
  }

  function DepositAt(tx: Tx, s: Scan, wallets: Wallets, address: string, value: nat): seq<Event> {
    if address in wallets && !(s.walletID != "" && wallets[address] == s.walletID) then
      [Deposit(tx.txid, wallets[address], address, s.from, s.inputs, "", value)]
    else []
  }

  function OutputDeposits(tx: Tx, s: Scan, wallets: Wallets, addresses: seq<string>, value: nat): seq<Event> {
    if addresses == [] then []
    else OutputDeposits(tx, s, wallets, addresses[..|addresses| - 1], value) +
         DepositAt(tx, s, wallets, addresses[|addresses| - 1], value)
  }

  function DepositEvents(tx: Tx, s: Scan, wallets: Wallets, vout: seq<Vout>): seq<Event> {
    if vout == [] then [] else
      var v := vout[|vout| - 1];
      DepositEvents(tx, s, wallets, vout[..|vout| - 1]) + OutputDeposits(tx, s, wallets, v.addresses, v.value)
  }

  function TxEvents(tx: Tx, wallets: Wallets): seq<Event> {
    var s := ScanInputs(tx.vin, wallets);
    WithdrawalEvents(tx, s, wallets) + DepositEvents(tx, s, wallets, tx.vout)
  }

  function BlockEvents(txs: seq<Tx>, wallets: Wallets): seq<Event> {
    if txs == [] then []
    else BlockEvents(txs[..|txs| - 1], wallets) + TxEvents(txs[|txs| - 1], wallets)
  }

  // ----- conservation ---------------------------------------------------------------------------------

  function Withdrawn(events: seq<Event>): int {
    if events == [] then 0 else
      var e := events[|events| - 1];
      Withdrawn(events[..|events| - 1]) + if e.Withdrawal? then e.amount else 0
  }

  function Deposited(events: seq<Event>): int {
    if events == [] then 0 else
      var e := events[|events| - 1];
      Deposited(events[..|events| - 1]) + if e.Deposit? then e.amount else 0
  }

  function TotalOut(vout: seq<Vout>): int {
    if vout == [] then 0 else TotalOut(vout[..|vout| - 1]) + vout[|vout| - 1].value
  }

  /** Reference: outputs back to wallet `id`. */
  function Change(vout: seq<Vout>, wallets: Wallets, id: string): int {
    if vout == [] then 0 else
      var v := vout[|vout| - 1];
      Change(vout[..|vout| - 1], wallets, id) +
      if v.addresses != [] && v.addresses[0] in wallets && wallets[v.addresses[0]] == id then v.value else 0
  }

  function Addressless(vout: seq<Vout>): int {
    if vout == [] then 0 else
      var v := vout[|vout| - 1];
      Addressless(vout[..|vout| - 1]) + if v.addresses == [] then v.value else 0
  }

  /** The clients give each output at most one address. */
  predicate SingleAddress(vout: seq<Vout>) {
    forall i :: 0 <= i < |vout| ==> |vout[i].addresses| <= 1
  }

  lemma {:induction false} SumsConcat(a: seq<Event>, b: seq<Event>)
    ensures Withdrawn(a + b) == Withdrawn(a) + Withdrawn(b)
    ensures Deposited(a + b) == Deposited(a) + Deposited(b)
    decreases |b|
  {
    if b == [] {
      assert a + b == a;
    } else {
      SumsConcat(a, b[..|b| - 1]);
      assert (a + b)[..|a + b| - 1] == a + b[..|b| - 1];
    }
  }

  lemma LegSumSnoc(legs: seq<Leg>, l: Leg)
    ensures LegSum(legs + [l]) == LegSum(legs) + l.amount
  {
    assert (legs + [l])[..|legs|] == legs;
  }

  lemma FirstNamedSnoc(legs: seq<Leg>, l: Leg)
    ensures FirstNamed(legs + [l]) == if FirstNamed(legs) == "" then l.address else FirstNamed(legs)
  {
    assert (legs + [l])[..|legs|] == legs;
  }

  lemma {:induction false} OutputsSplit(tx: Tx, s: Scan, wallets: Wallets, vout: seq<Vout>)
    requires SingleAddress(vout)
    ensures TotalOut(vout) == LegSum(ExternalLegs(vout, wallets)) + Deposited(DepositEvents(tx, s, wallets, vout)) +
      (if s.walletID == "" then 0 else Change(vout, wallets, s.walletID)) + Addressless(vout)
    decreases |vout|
  {
    if vout != [] {
      var front, v := vout[..|vout| - 1], vout[|vout| - 1];
      assert forall i :: 0 <= i < |front| ==> front[i] == vout[i];
      OutputsSplit(tx, s, wallets, front);
      ExternalSnoc(vout, wallets);
      DepositedSnoc(tx, s, wallets, vout);
      OneOutput(tx, s, wallets, v);
    }
  }

  lemma ExternalSnoc(vout: seq<Vout>, wallets: Wallets)
    requires vout != []
    ensures var front, v := vout[..|vout| - 1], vout[|vout| - 1];
      LegSum(ExternalLegs(vout, wallets)) ==
      LegSum(ExternalLegs(front, wallets)) + if External(v, wallets) then v.value else 0
  {
    var before, v := ExternalLegs(vout[..|vout| - 1], wallets), vout[|vout| - 1];
    if External(v, wallets) {
      LegSumSnoc(before, Leg(v.addresses[0], v.value));
    } else {
      assert before + [] == before;
    }
  }

  lemma DepositedSnoc(tx: Tx, s: Scan, wallets: Wallets, vout: seq<Vout>)
    requires vout != []
    ensures var front, v := vout[..|vout| - 1], vout[|vout| - 1];
      Deposited(DepositEvents(tx, s, wallets, vout)) ==
      Deposited(DepositEvents(tx, s, wallets, front)) + Deposited(OutputDeposits(tx, s, wallets, v.addresses, v.value))
  {
    var front, v := vout[..|vout| - 1], vout[|vout| - 1];
    SumsConcat(DepositEvents(tx, s, wallets, front), OutputDeposits(tx, s, wallets, v.addresses, v.value));
  }

  lemma OneOutput(tx: Tx, s: Scan, wallets: Wallets, v: Vout)
    requires |v.addresses| <= 1
    ensures Deposited(OutputDeposits(tx, s, wallets, v.addresses, v.value)) ==
      if v.addresses != [] && v.addresses[0] in wallets &&
         (s.walletID == "" || wallets[v.addresses[0]] != s.walletID) then v.value else 0
  {
    if v.addresses != [] {
      assert v.addresses[..0] == [];
      var e := DepositAt(tx, s, wallets, v.addresses[0], v.value);
      assert OutputDeposits(tx, s, wallets, v.addresses, v.value) == e;
      if e != [] { assert e[..0] == []; }
    }
  }

  lemma {:induction false} DepositsOnly(tx: Tx, s: Scan, wallets: Wallets, vout: seq<Vout>)
    ensures forall i :: 0 <= i < |DepositEvents(tx, s, wallets, vout)| ==>
      var e := DepositEvents(tx, s, wallets, vout)[i];
      e.Deposit? && e.address in wallets && e.wallet == wallets[e.address] &&
      (s.walletID == "" || e.wallet != s.walletID)
    decreases |vout|
  {
    if vout != [] {
      DepositsOnly(tx, s, wallets, vout[..|vout| - 1]);
      OutputDepositsOnly(tx, s, wallets, vout[|vout| - 1].addresses, vout[|vout| - 1].value);
    }
  }

  lemma {:induction false} OutputDepositsOnly(tx: Tx, s: Scan, wallets: Wallets, addresses: seq<string>, value: nat)
    ensures forall i :: 0 <= i < |OutputDeposits(tx, s, wallets, addresses, value)| ==>
      var e := OutputDeposits(tx, s, wallets, addresses, value)[i];
      e.Deposit? && e.address in wallets && e.wallet == wallets[e.address] &&
      (s.walletID == "" || e.wallet != s.walletID)
    decreases |addresses|
  {
    if addresses != [] {
      OutputDepositsOnly(tx, s, wallets, addresses[..|addresses| - 1], value);
    }
  }

  lemma {:induction false} NoWithdrawal(events: seq<Event>)
    requires forall i :: 0 <= i < |events| ==> events[i].Deposit?
    ensures Withdrawn(events) == 0
    decreases |events|
  {
    if events != [] { NoWithdrawal(events[..|events| - 1]); }
  }

  /** A transaction funded by exactly one watched wallet: the withdrawal, deposits to other watched
      wallets, change and addressless outputs add up to the outputs; there is at most one withdrawal,
      it comes first and is of that wallet; no deposit is credited to it. */
  lemma SpendConserves(tx: Tx, wallets: Wallets, id: string)
    requires Named(wallets) && SingleAddress(tx.vout) && Spenders(tx.vin, wallets) == {id}
    ensures var events := TxEvents(tx, wallets);
      && Withdrawn(events) + Deposited(events) + Change(tx.vout, wallets, id) + Addressless(tx.vout) ==
         TotalOut(tx.vout)
      && (forall i :: 0 <= i < |events| ==>
            if events[i].Withdrawal? then i == 0 && events[i].wallet == id && events[i].amount > 0
            else events[i].wallet != id)
  {
    ScanFindsSpenders(tx.vin, wallets);
    var s := ScanInputs(tx.vin, wallets);
    assert s.walletID == id && !s.multi;
    Split(tx, s, wallets);
  }

  /** A transaction no watched wallet funds: nothing is withdrawn and every watched output is credited. */
  lemma ReceiveConserves(tx: Tx, wallets: Wallets)
    requires Named(wallets) && SingleAddress(tx.vout) && Spenders(tx.vin, wallets) == {}
    ensures var events := TxEvents(tx, wallets);
      && Withdrawn(events) == 0
      && Deposited(events) + LegSum(ExternalLegs(tx.vout, wallets)) + Addressless(tx.vout) == TotalOut(tx.vout)
  {
    ScanFindsSpenders(tx.vin, wallets);
    Split(tx, ScanInputs(tx.vin, wallets), wallets);
  }

  /** A transaction several watched wallets fund: no withdrawal is published for any of them. */
  lemma MultiSpendPublishesNoWithdrawal(tx: Tx, wallets: Wallets, a: string, b: string)
    requires Named(wallets) && a in Spenders(tx.vin, wallets) && b in Spenders(tx.vin, wallets) && a != b
    ensures forall i :: 0 <= i < |TxEvents(tx, wallets)| ==> TxEvents(tx, wallets)[i].Deposit?
  {
    ScanFindsSpenders(tx.vin, wallets);
    var s := ScanInputs(tx.vin, wallets);
    assert s.multi;
    DepositsOnly(tx, s, wallets, tx.vout);
  }

  lemma Split(tx: Tx, s: Scan, wallets: Wallets)
    requires SingleAddress(tx.vout) && s == ScanInputs(tx.vin, wallets)
    ensures var events := TxEvents(tx, wallets); var legs := LegSum(ExternalLegs(tx.vout, wallets));
      && Withdrawn(events) == (if s.walletID != "" && !s.multi then legs else 0)
      && Deposited(events) + legs + (if s.walletID == "" then 0 else Change(tx.vout, wallets, s.walletID)) +
         Addressless(tx.vout) == TotalOut(tx.vout)
      && (forall i :: 0 <= i < |events| ==>
            if events[i].Withdrawal? then i == 0 && events[i].wallet == s.walletID && events[i].amount > 0
            else s.walletID == "" || events[i].wallet != s.walletID)
  {
    var w, d := WithdrawalEvents(tx, s, wallets), DepositEvents(tx, s, wallets, tx.vout);
    OutputsSplit(tx, s, wallets, tx.vout);
    DepositsOnly(tx, s, wallets, tx.vout);
    NoWithdrawal(d);
    SumsConcat(w, d);
    WithdrawalSums(tx, s, wallets);
  }

  lemma WithdrawalSums(tx: Tx, s: Scan, wallets: Wallets)
    ensures var w := WithdrawalEvents(tx, s, wallets);
      && Withdrawn(w) == (if s.walletID != "" && !s.multi then LegSum(ExternalLegs(tx.vout, wallets)) else 0)
      && Deposited(w) == 0
      && |w| <= 1 && (w != [] ==> w[0].Withdrawal? && w[0].wallet == s.walletID && w[0].amount > 0)
  {
    LegsNonNegative(tx.vout, wallets);
    var w := WithdrawalEvents(tx, s, wallets);
    if w != [] { assert w[..0] == []; }
  }

  lemma {:induction false} LegsNonNegative(vout: seq<Vout>, wallets: Wallets)
    ensures LegSum(ExternalLegs(vout, wallets)) >= 0
    decreases |vout|
  {
    if vout != [] {
      LegsNonNegative(vout[..|vout| - 1], wallets);
      ExternalSnoc(vout, wallets);
    }
  }

  /** Output `v` goes back to a wallet that funded the transaction, but not to that of the first watched input. */
  predicate ReturnsToCoSpender(tx: Tx, wallets: Wallets, v: Vout) {
    v.addresses != [] && v.addresses[0] in wallets && wallets[v.addresses[0]] in Spenders(tx.vin, wallets) &&
    wallets[v.addresses[0]] != FirstSpender(tx.vin, wallets)
  }

  /** A wallet that helped fund a transaction is credited with a deposit exactly when one of several
      funding wallets other than the first gets something back. */
  lemma SpenderCreditedIff(tx: Tx, wallets: Wallets)
    requires Named(wallets) && SingleAddress(tx.vout)
    ensures (exists e :: e in TxEvents(tx, wallets) && e.Deposit? && e.wallet in Spenders(tx.vin, wallets)) <==>
      (exists v :: v in tx.vout && ReturnsToCoSpender(tx, wallets, v))
  {
    var s, ids := ScanInputs(tx.vin, wallets), Spenders(tx.vin, wallets);
    ScanFindsSpenders(tx.vin, wallets);
    ScanFindsFirst(tx.vin, wallets);
    if e :| e in TxEvents(tx, wallets) && e.Deposit? && e.wallet in ids {
      assert e !in WithdrawalEvents(tx, s, wallets);
      var v := DepositOrigin(tx, s, wallets, tx.vout, e);
      assert ReturnsToCoSpender(tx, wallets, v);
    }
    if v :| v in tx.vout && ReturnsToCoSpender(tx, wallets, v) {
      var e := DepositOf(tx, s, wallets, tx.vout, v);
      assert e in TxEvents(tx, wallets);
    }
  }

  lemma {:induction false} DepositOrigin(tx: Tx, s: Scan, wallets: Wallets, vout: seq<Vout>, e: Event) returns (v: Vout)
    requires SingleAddress(vout) && e in DepositEvents(tx, s, wallets, vout)
    ensures v in vout && v.addresses != [] && v.addresses[0] in wallets
    ensures e.wallet == wallets[v.addresses[0]] && (s.walletID == "" || e.wallet != s.walletID)
    decreases |vout|
  {
    var front := vout[..|vout| - 1];
    v := vout[|vout| - 1];
    if e in DepositEvents(tx, s, wallets, front) {
      assert forall i :: 0 <= i < |front| ==> front[i] == vout[i];
      v := DepositOrigin(tx, s, wallets, front, e);
    } else {
      assert e in OutputDeposits(tx, s, wallets, v.addresses, v.value);
      assert v.addresses != [] && v.addresses[..0] == [];
      assert OutputDeposits(tx, s, wallets, v.addresses, v.value) == DepositAt(tx, s, wallets, v.addresses[0], v.value);
    }
  }

  lemma {:induction false} DepositOf(tx: Tx, s: Scan, wallets: Wallets, vout: seq<Vout>, v: Vout) returns (e: Event)
    requires SingleAddress(vout) && v in vout && v.addresses != [] && v.addresses[0] in wallets
    requires s.walletID == "" || wallets[v.addresses[0]] != s.walletID
    ensures e in DepositEvents(tx, s, wallets, vout) && e.Deposit? && e.wallet == wallets[v.addresses[0]]
    decreases |vout|
  {
    var front, last := vout[..|vout| - 1], vout[|vout| - 1];
    if v == last {
      assert v.addresses[..0] == [];
      e := DepositAt(tx, s, wallets, v.addresses[0], v.value)[0];
    } else {
      assert forall i :: 0 <= i < |front| ==> front[i] == vout[i];
      e := DepositOf(tx, s, wallets, front, v);
    }
  }

  // ----- a co-spender credited its change -----------------------------------------------------------------

  const PAIR: Wallets := map["alice" := "w1", "bob" := "w2"]

  /** Alice and bob fund a transaction together; 3 go back to bob, 6 to somebody else. */
  const JOINT: Tx := Tx("t", [Vin("alice", 5), Vin("bob", 5)], [Vout(["bob"], 3), Vout(["carol"], 6)])

  lemma JointScan()
    ensures Named(PAIR) && SingleAddress(JOINT.vout) && "w2" in Spenders(JOINT.vin, PAIR)
    ensures FirstSpender(JOINT.vin, PAIR) == "w1"
  {
    assert JOINT.vin[0].address in PAIR && PAIR["alice"] == "w1";
    assert JOINT.vin[1].address in PAIR && PAIR["bob"] == "w2";
  }

  /** Nothing is withdrawn from either wallet, and bob's change is published as a deposit to bob. */
  lemma CoSpenderCredited() returns (e: Event)
    ensures e in TxEvents(JOINT, PAIR) && e.Deposit? && e.wallet == "w2" && "w2" in Spenders(JOINT.vin, PAIR)
    ensures forall i :: 0 <= i < |TxEvents(JOINT, PAIR)| ==> TxEvents(JOINT, PAIR)[i].Deposit?
  {
    JointScan();
    assert "w1" in Spenders(JOINT.vin, PAIR) by { assert PAIR[JOINT.vin[0].address] == "w1"; }
    assert "w1"[1] != "w2"[1];
    MultiSpendPublishesNoWithdrawal(JOINT, PAIR, "w1", "w2");
    ScanFindsFirst(JOINT.vin, PAIR);
    e := DepositOf(JOINT, ScanInputs(JOINT.vin, PAIR), PAIR, JOINT.vout, JOINT.vout[0]);
  }
}
