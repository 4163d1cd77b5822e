/** What a list yields item by item: some items one result each, in order, the others nothing. */
module Places {

  /** The results are those of the items at positions `at`: all items that call for one, in order. */
  ghost predicate Placed<T, R>(ts: seq<T>, calls: T -> bool, makes: (T, R) -> bool, at: seq<nat>, rs: seq<R>) {
    && |at| == |rs|
    && (forall k :: 0 <= k < |at| ==> at[k] < |ts| && makes(ts[at[k]], rs[k]))
    && (forall k, l :: 0 <= k < l < |at| ==> at[k] < at[l])
    && (forall j :: 0 <= j < |ts| && calls(ts[j]) ==> j in at)
  }

  /** One more item. */
  lemma PlacedNext<T, R>(ts: seq<T>, calls: T -> bool, makes: (T, R) -> bool, at: seq<nat>, rs: seq<R>, t: T,
                         more: seq<R>) returns (at': seq<nat>)
    requires Placed(ts, calls, makes, at, rs)
    requires if calls(t) then |more| == 1 && makes(t, more[0]) else more == []
    ensures Placed(ts + [t], calls, makes, at', rs + more)
  {
    var all := ts + [t];
    assert forall j :: 0 <= j < |ts| ==> all[j] == ts[j];
    if calls(t) {
      at' := at + [|ts|];
      assert |ts| in at';
    } else {
      at' := at;
      assert rs + more == rs;
    }
  }
}
