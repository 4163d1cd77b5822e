/** Every event of a UTXO transaction, field by field, in terms of its inputs and outputs. */
module UtxoExact {
  import opened Common
  import opened Events
  import opened Utxo
  import opened Places

  // ----- the inputs -----------------------------------------------------------------------------------

  predicate WatchedInput(v: Vin, wallets: Wallets) {
    v.address != "" && v.address in wallets
  }

  /** Input `i` is the first one of a watched address. */
  predicate FirstWatched(vin: seq<Vin>, wallets: Wallets, i: nat) {
    i < |vin| && WatchedInput(vin[i], wallets) && forall j :: 0 <= j < i ==> !WatchedInput(vin[j], wallets)
  }

  /** The wallet and address that the scan settles on are those of the first watched input. */
  lemma {:induction false} ScanSettles(vin: seq<Vin>, wallets: Wallets) returns (i: nat)
    requires Named(wallets)
    ensures var s := ScanInputs(vin, wallets);
      && (s.walletID != "" ==> FirstWatched(vin, wallets, i) && s.address == vin[i].address)
      && (s.walletID != "" ==> s.walletID == wallets[s.address])
      && (s.walletID == "" ==> s.address == "" && forall j :: 0 <= j < |vin| ==> !WatchedInput(vin[j], wallets))
    decreases |vin|
  {
    i := 0;
    if vin != [] {
      var n := |vin| - 1;
      var front := vin[..n];
      i := ScanSettles(front, wallets);
      assert forall j :: 0 <= j < n ==> front[j] == vin[j];
      ScanFindsSpenders(front, wallets);
      if ScanInputs(front, wallets).walletID == "" { i := n; }
    }
  }

  /** Reference: the first input address that is not empty. */
  function FirstInput(vin: seq<Vin>): string {
    if vin == [] then "" else if vin[0].address != "" then vin[0].address else FirstInput(vin[1..])
  }

  lemma {:induction false} FirstInputSnoc(vin: seq<Vin>, v: Vin)
    ensures FirstInput(vin + [v]) == if FirstInput(vin) != "" then FirstInput(vin) else v.address
    decreases |vin|
  {
    if vin == [] {
      assert ([] + [v])[1..] == [] && FirstInput([]) == "";
    } else {
      assert (vin + [v])[1..] == vin[1..] + [v];
      FirstInputSnoc(vin[1..], v);
    }
  }

  lemma {:induction false} ScanFrom(vin: seq<Vin>, wallets: Wallets)
    ensures ScanInputs(vin, wallets).from == FirstInput(vin)
    ensures ScanInputs(vin, wallets).walletID != "" || ScanInputs(vin, wallets).multi ==> FirstInput(vin) != ""
    decreases |vin|
  {
    if vin != [] {
      var front, v := vin[..|vin| - 1], vin[|vin| - 1];
      ScanFrom(front, wallets);
      FirstInputSnoc(front, v);
      assert vin == front + [v];
    }
  }

  /** Reference: the inputs that have an address, in order. */
  function AddressLegs(vin: seq<Vin>): seq<Leg> {
    if vin == [] then []
    else LegOf(vin[0]) + AddressLegs(vin[1..])
  }

  function LegOf(v: Vin): seq<Leg> {
    if v.address != "" then [Leg(v.address, v.value)] else []
  }

  lemma {:induction false} AddressLegsSnoc(vin: seq<Vin>, v: Vin)
    ensures AddressLegs(vin + [v]) == AddressLegs(vin) + LegOf(v)
    decreases |vin|
  {
    var all := vin + [v];
    if vin == [] {
      assert all[1..] == [] && AddressLegs(all[1..]) == [] && AddressLegs(vin) == [];
      assert LegOf(v) + [] == LegOf(v) == [] + LegOf(v);
    } else {
      assert all[1..] == vin[1..] + [v] && all[0] == vin[0];
      AddressLegsSnoc(vin[1..], v);
      assert LegOf(vin[0]) + (AddressLegs(vin[1..]) + LegOf(v)) == LegOf(vin[0]) + AddressLegs(vin[1..]) + LegOf(v);
    }
  }

  /** No second watched wallet among the inputs. */
  predicate OneFunder(vin: seq<Vin>, wallets: Wallets) {
    forall id :: id in Spenders(vin, wallets) ==> id == FirstSpender(vin, wallets)
  }

  lemma MultiIsSecondFunder(vin: seq<Vin>, wallets: Wallets)
    requires Named(wallets)
    ensures ScanInputs(vin, wallets).multi <==> !OneFunder(vin, wallets)
  {
    ScanFindsSpenders(vin, wallets);
    ScanFindsFirst(vin, wallets);
  }

  /** The inputs reported are those among the first `k` that have an address: all inputs, or up to and
      including the first of a second wallet. */
  predicate Reported(vin: seq<Vin>, wallets: Wallets, k: nat, legs: seq<Leg>) {
    && k <= |vin| && legs == AddressLegs(vin[..k])
    && (k > 0 ==> OneFunder(vin[..k - 1], wallets))
    && (k < |vin| ==> !OneFunder(vin[..k], wallets))
  }

  lemma {:induction false} ScanReports(vin: seq<Vin>, wallets: Wallets) returns (k: nat)
    requires Named(wallets)
    ensures var s := ScanInputs(vin, wallets);
      Reported(vin, wallets, k, s.inputs) && if s.multi then !OneFunder(vin[..k], wallets) else k == |vin|
    decreases |vin|
  {
    k := 0;
    if vin != [] {
      var front, v := vin[..|vin| - 1], vin[|vin| - 1];
      k := ScanReports(front, wallets);
      assert vin[..k] == front[..k] && (k > 0 ==> vin[..k - 1] == front[..k - 1]);
      if !ScanInputs(front, wallets).multi {
        MultiIsSecondFunder(front, wallets);
        k := |vin|;
        AddressLegsSnoc(front, v);
        assert front[..|front|] == front && vin == front + [v] && vin[..k] == vin;
        MultiIsSecondFunder(vin, wallets);
      }
    }
  }

  // ----- the withdrawal -------------------------------------------------------------------------------

  /** The output's first address is not watched. */
  predicate Leaves(v: Vout, wallets: Wallets) {
    v.addresses != [] && v.addresses[0] !in wallets
  }

  ghost function LeavesFn(wallets: Wallets): Vout -> bool {
    (v: Vout) => Leaves(v, wallets)
  }

  ghost function LegFn(wallets: Wallets): (Vout, Leg) -> bool {
    (v: Vout, l: Leg) => Leaves(v, wallets) && l == Leg(v.addresses[0], v.value)
  }

  /** `legs` are the outputs at positions `at`: all those whose first address is not watched, in order. */
  ghost predicate LegsAt(vout: seq<Vout>, wallets: Wallets, at: seq<nat>, legs: seq<Leg>) {
    Placed(vout, LeavesFn(wallets), LegFn(wallets), at, legs)
  }

  lemma {:induction false} ExternalAt(vout: seq<Vout>, wallets: Wallets) returns (at: seq<nat>)
    ensures LegsAt(vout, wallets, at, ExternalLegs(vout, wallets))
    decreases |vout|
  {
    if vout == [] {
      at := [];
    } else {
      var front, v := vout[..|vout| - 1], vout[|vout| - 1];
      at := ExternalAt(front, wallets);
      at := PlacedNext(front, LeavesFn(wallets), LegFn(wallets), at, ExternalLegs(front, wallets), v,
                       if External(v, wallets) then [Leg(v.addresses[0], v.value)] else []);
      assert front + [v] == vout;
    }
  }

  /** The first address that is not empty, or the empty string when all are. */
  predicate FirstOf(legs: seq<Leg>, to: string) {
    if to == "" then forall k :: 0 <= k < |legs| ==> legs[k].address == ""
    else exists k :: 0 <= k < |legs| && legs[k].address == to && forall j :: 0 <= j < k ==> legs[j].address == ""
  }

  lemma {:induction false} FirstNamedIs(legs: seq<Leg>)
    ensures FirstOf(legs, FirstNamed(legs))
    decreases |legs|
  {
    if legs != [] {
      var n := |legs| - 1;
      var front := legs[..n];
      FirstNamedIs(front);
      assert forall k :: 0 <= k < n ==> front[k] == legs[k];
      var first := FirstNamed(front);
      if first != "" {
        var k :| 0 <= k < n && front[k].address == first && forall j :: 0 <= j < k ==> front[j].address == "";
        assert legs[k].address == first;
      } else if legs[n].address != "" {
        assert legs[n].address == FirstNamed(legs);
      }
    }
  }

  /** A withdrawal is of the first watched input: its address and wallet; it lists the outputs to addresses
      not watched, in order and with their sum, and names the first of these. */
  ghost predicate WithdrawalOf(tx: Tx, wallets: Wallets, i: nat, at: seq<nat>, e: Event) {
    && e.Withdrawal? && e.tx == tx.txid && e.asset == ""
    && FirstWatched(tx.vin, wallets, i)
    && e.address == tx.vin[i].address && e.wallet == wallets[tx.vin[i].address]
    && LegsAt(tx.vout, wallets, at, e.legs) && FirstOf(e.legs, e.to)
    && e.amount == LegSum(e.legs) > 0
  }

  /** A watched wallet funds the transaction alone, and something leaves the watched wallets. */
  predicate Pays(tx: Tx, wallets: Wallets) {
    && Spenders(tx.vin, wallets) != {} && OneFunder(tx.vin, wallets)
    && exists j :: 0 <= j < |tx.vout| && Leaves(tx.vout[j], wallets) && tx.vout[j].value > 0
  }

  lemma {:induction false} LegSumPositive(vout: seq<Vout>, wallets: Wallets)
    ensures LegSum(ExternalLegs(vout, wallets)) > 0 <==>
      exists j :: 0 <= j < |vout| && Leaves(vout[j], wallets) && vout[j].value > 0
    decreases |vout|
  {
    if vout != [] {
      var n := |vout| - 1;
      var front := vout[..n];
      LegSumPositive(front, wallets);
      ExternalSnoc(vout, wallets);
      LegsNonNegative(front, wallets);
      assert forall j :: 0 <= j < n ==> front[j] == vout[j];
    }
  }

  lemma WithdrawalIs(tx: Tx, wallets: Wallets) returns (i: nat, at: seq<nat>)
    requires Named(wallets)
    ensures var w := WithdrawalEvents(tx, ScanInputs(tx.vin, wallets), wallets);
      if Pays(tx, wallets) then |w| == 1 && WithdrawalOf(tx, wallets, i, at, w[0]) else w == []
  {
    i := ScanSettles(tx.vin, wallets);
    at := ExternalAt(tx.vout, wallets);
    FirstNamedIs(ExternalLegs(tx.vout, wallets));
    LegSumPositive(tx.vout, wallets);
    ScanFindsSpenders(tx.vin, wallets);
    MultiIsSecondFunder(tx.vin, wallets);
  }

  // ----- the deposits ---------------------------------------------------------------------------------

  /** Position `j` of output `i` is a watched address of a wallet other than that of the first watched
      input. */
  predicate Credited(tx: Tx, wallets: Wallets, i: nat, j: nat) {
    i < |tx.vout| && j < |tx.vout[i].addresses| && tx.vout[i].addresses[j] in wallets &&
    wallets[tx.vout[i].addresses[j]] != FirstSpender(tx.vin, wallets)
  }

  datatype Place = Place(output: nat, position: nat)

  predicate Before(p: Place, q: Place) {
    p.output < q.output || (p.output == q.output && p.position < q.position)
  }

  /** The deposit at place `p`. */
  predicate DepositOfPlace(tx: Tx, wallets: Wallets, p: Place, inputs: seq<Leg>, e: Event) {
    Credited(tx, wallets, p.output, p.position) &&
    var v := tx.vout[p.output];
    var a := v.addresses[p.position];
    e == Deposit(tx.txid, wallets[a], a, FirstInput(tx.vin), inputs, "", v.value)
  }

  /** The events are the deposits of the credited places among the first `n` outputs and the first `m`
      addresses of the next one, one each, in order. */
  ghost predicate DepositsOf(tx: Tx, wallets: Wallets, n: nat, m: nat, inputs: seq<Leg>, at: seq<Place>, es: seq<Event>) {
    && |at| == |es|
    && (forall k :: 0 <= k < |at| ==> DepositOfPlace(tx, wallets, at[k], inputs, es[k]) && Before(at[k], Place(n, m)))
    && (forall k, l :: 0 <= k < l < |at| ==> Before(at[k], at[l]))
    && (forall i, j :: Credited(tx, wallets, i, j) && Before(Place(i, j), Place(n, m)) ==> Place(i, j) in at)
  }

  lemma OneAddress(tx: Tx, wallets: Wallets, i: nat, j: nat, s: Scan, at: seq<Place>, es: seq<Event>)
    returns (at': seq<Place>)
    requires Named(wallets) && i < |tx.vout| && j < |tx.vout[i].addresses|
    requires s.walletID == FirstSpender(tx.vin, wallets) && s.from == FirstInput(tx.vin)
    requires DepositsOf(tx, wallets, i, j, s.inputs, at, es)
    ensures DepositsOf(tx, wallets, i, j + 1, s.inputs, at',
      es + DepositAt(tx, s, wallets, tx.vout[i].addresses[j], tx.vout[i].value))
  {
    var d := DepositAt(tx, s, wallets, tx.vout[i].addresses[j], tx.vout[i].value);
    at' := at;
    if Credited(tx, wallets, i, j) {
      at' := at + [Place(i, j)];
      assert DepositOfPlace(tx, wallets, Place(i, j), s.inputs, d[0]);
    } else {
      assert d == [] && es + d == es;
    }
  }

  lemma {:induction false} OneOutputPlaces(tx: Tx, wallets: Wallets, i: nat, m: nat, s: Scan, at: seq<Place>,
                                           es: seq<Event>) returns (at': seq<Place>)
    requires Named(wallets) && i < |tx.vout| && m <= |tx.vout[i].addresses|
    requires s.walletID == FirstSpender(tx.vin, wallets) && s.from == FirstInput(tx.vin)
    requires DepositsOf(tx, wallets, i, 0, s.inputs, at, es)
    ensures DepositsOf(tx, wallets, i, m, s.inputs, at',
      es + OutputDeposits(tx, s, wallets, tx.vout[i].addresses[..m], tx.vout[i].value))
    decreases m
  {
    if m == 0 {
      at' := at;
      assert es + [] == es;
    } else {
      var as_, v := tx.vout[i].addresses, tx.vout[i].value;
      at' := OneOutputPlaces(tx, wallets, i, m - 1, s, at, es);
      var so := OutputDeposits(tx, s, wallets, as_[..m - 1], v);
      at' := OneAddress(tx, wallets, i, m - 1, s, at', es + so);
      assert as_[..m][..m - 1] == as_[..m - 1];
      assert es + so + DepositAt(tx, s, wallets, as_[m - 1], v) == es + (so + DepositAt(tx, s, wallets, as_[m - 1], v));
    }
  }

  lemma NextOutput(tx: Tx, wallets: Wallets, i: nat, inputs: seq<Leg>, at: seq<Place>, es: seq<Event>)
    requires i < |tx.vout| && DepositsOf(tx, wallets, i, |tx.vout[i].addresses|, inputs, at, es)
    ensures DepositsOf(tx, wallets, i + 1, 0, inputs, at, es)
  {
  }

  lemma {:induction false} DepositPlaces(tx: Tx, wallets: Wallets, n: nat, s: Scan) returns (at: seq<Place>)
    requires Named(wallets) && n <= |tx.vout|
    requires s.walletID == FirstSpender(tx.vin, wallets) && s.from == FirstInput(tx.vin)
    ensures DepositsOf(tx, wallets, n, 0, s.inputs, at, DepositEvents(tx, s, wallets, tx.vout[..n]))
    decreases n
  {
    if n == 0 {
      at := [];
    } else {
      var v := tx.vout[n - 1];
      at := DepositPlaces(tx, wallets, n - 1, s);
      var es := DepositEvents(tx, s, wallets, tx.vout[..n - 1]);
      at := OneOutputPlaces(tx, wallets, n - 1, |v.addresses|, s, at, es);
      assert v.addresses[..|v.addresses|] == v.addresses && tx.vout[..n][..n - 1] == tx.vout[..n - 1];
      NextOutput(tx, wallets, n - 1, s.inputs, at, es + OutputDeposits(tx, s, wallets, v.addresses, v.value));
    }
  }

  // ----- whole transactions and blocks ----------------------------------------------------------------

  /** The first `n` events are the withdrawal, if a watched wallet alone pays somebody; then comes a deposit
      for every credited place, in the order of outputs and addresses. */
  ghost predicate EventsAt(tx: Tx, wallets: Wallets, events: seq<Event>, n: nat, i: nat, at: seq<nat>, k: nat,
                           inputs: seq<Leg>, places: seq<Place>) {
    && n <= |events| && n == (if Pays(tx, wallets) then 1 else 0)
    && (n == 1 ==> WithdrawalOf(tx, wallets, i, at, events[0]))
    && Reported(tx.vin, wallets, k, inputs)
    && DepositsOf(tx, wallets, |tx.vout|, 0, inputs, places, events[n..])
  }

  /** That is what a transaction calls for. */
  lemma TxEventsAre(tx: Tx, wallets: Wallets)
    returns (n: nat, i: nat, at: seq<nat>, k: nat, inputs: seq<Leg>, places: seq<Place>)
    requires Named(wallets)
    ensures EventsAt(tx, wallets, TxEvents(tx, wallets), n, i, at, k, inputs, places)
  {
    var s := ScanInputs(tx.vin, wallets);
    ScanFindsFirst(tx.vin, wallets);
    ScanFrom(tx.vin, wallets);
    i, at := WithdrawalIs(tx, wallets);
    k := ScanReports(tx.vin, wallets);
    places := DepositPlaces(tx, wallets, |tx.vout|, s);
    inputs := s.inputs;
    assert tx.vout[..|tx.vout|] == tx.vout;
    var w := WithdrawalEvents(tx, s, wallets);
    n := |w|;
    assert TxEvents(tx, wallets)[n..] == DepositEvents(tx, s, wallets, tx.vout);
  }

  lemma BlockSnoc(txs: seq<Tx>, tx: Tx, wallets: Wallets)
    ensures BlockEvents(txs + [tx], wallets) == BlockEvents(txs, wallets) + TxEvents(tx, wallets)
  {
    assert (txs + [tx])[..|txs|] == txs;
  }

  lemma Assoc<T>(a: seq<T>, b: seq<T>, c: seq<T>)
    ensures a + (b + c) == a + b + c
  {
  }

  /** A block calls for the events of its transactions one after the other. */
  lemma {:induction false} BlockEventsConcat(a: seq<Tx>, b: seq<Tx>, wallets: Wallets)
    ensures BlockEvents(a + b, wallets) == BlockEvents(a, wallets) + BlockEvents(b, wallets)
    decreases |b|
  {
    if b == [] {
      assert a + b == a;
    } else {
      var front, last := b[..|b| - 1], b[|b| - 1];
      BlockEventsConcat(a, front, wallets);
      Assoc(a, front, [last]);
      assert b == front + [last];
      BlockSnoc(a + front, last, wallets);
      BlockSnoc(front, last, wallets);
      Assoc(BlockEvents(a, wallets), BlockEvents(front, wallets), TxEvents(last, wallets));
    }
  }

  lemma BlockOfOne(tx: Tx, wallets: Wallets)
    ensures BlockEvents([tx], wallets) == TxEvents(tx, wallets)
  {
    assert [tx][..0] == [];
  }
}
