/** Publish or fail, as the UTXO and Solana processors do it: wallets are looked up, events published in
    order, and the first failure ends the call. */
module Publishing {
  import opened Common
  import opened Events

  /** How such a call ends. */
  datatype Outcome = Processed | LookupFailed | PublishRefused

  /** On top of `before`, accepted events were published in order: all of `events` when processed, up to
      the refused one when refused, some prefix when a lookup failed. `accepts(k)` says whether the
      publisher takes the k-th event. */
  ghost predicate SentUpTo(accepts: nat -> bool, before: seq<Event>, events: seq<Event>,
                           o: Outcome, published: seq<Event>) {
    && before <= published <= before + events
    && (forall k :: |before| <= k < |published| ==> accepts(k))
    && (o.Processed? ==> published == before + events)
    && (o.PublishRefused? ==> |published| < |before + events| && !accepts(|published|))
  }

  /** Nothing failed so far: `done` is out. */
  ghost predicate SoFar(accepts: nat -> bool, before: seq<Event>, done: seq<Event>, published: seq<Event>) {
    published == before + done && forall k :: |before| <= k < |published| ==> accepts(k)
  }

  /** What one part of the work sends on top of what is out already. */
  lemma Continue(accepts: nat -> bool, before: seq<Event>, done: seq<Event>, next: seq<Event>, all: seq<Event>,
                 o: Outcome, published: seq<Event>)
    requires done + next <= all
    requires forall k :: |before| <= k < |before + done| ==> accepts(k)
    requires SentUpTo(accepts, before + done, next, o, published)
    ensures o.Processed? ==> SoFar(accepts, before, done + next, published)
    ensures !o.Processed? ==> SentUpTo(accepts, before, all, o, published)
  {
    assert before + done + next == before + (done + next);
    assert before + (done + next) <= before + all;
  }

  /** Storage and publisher as one block sees them: the n-th lookup fails when `fails(n)`, the k-th
      event is taken when `accepts(k)`. */
  class Session {
    const wallets: Wallets
    const fails: nat -> bool
    const accepts: nat -> bool
    var lookups: nat
    var published: seq<Event>

    constructor (wallets: Wallets, fails: nat -> bool, accepts: nat -> bool)
      ensures this.wallets == wallets && this.fails == fails && this.accepts == accepts
      ensures lookups == 0 && published == []
    {
      this.wallets, this.fails, this.accepts := wallets, fails, accepts;
      lookups, published := 0, [];
    }

    method IsWatchedWallet(address: string) returns (id: Option<string>, failed: bool)
      modifies `lookups
      ensures failed ==> exists n :: fails(n)
      ensures !failed ==> id == if address in wallets then Some(wallets[address]) else None
    {
      failed := fails(lookups);
      lookups := lookups + 1;
      id := if address in wallets then Some(wallets[address]) else None;
    }

    method Publish(e: Event) returns (ok: bool)
      modifies `published
      ensures ok <==> accepts(|old(published)|)
      ensures published == old(published) + if ok then [e] else []
    {
      ok := accepts(|published|);
      if ok { published := published + [e]; }
    }

    /** The session has published, on top of `before`, a prefix of `events`; all of them if it is done. */
    ghost predicate Sent(before: seq<Event>, events: seq<Event>, o: Outcome)
      reads this
    {
      SentUpTo(accepts, before, events, o, published) && (o.LookupFailed? ==> exists n :: fails(n))
    }
  }
}
