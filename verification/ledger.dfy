/** The append-only ledger: signed money movements, from which every balance is derived. */
module Ledger {

  import opened Common

  type UserId = nat
  type OrderId = nat

  /** The four kinds of ledger entry. */
  datatype Kind = Deposit | Hold | Release | Refund

  /** One immutable ledger row: owner, optional order it belongs to, signed amount, kind. */
  datatype Entry = Entry(userId: UserId, orderId: Option<OrderId>, amount: real, kind: Kind)

  /** The rows a `select amount from ledger where user_id = u` returns, in ledger order. */
  function OwnEntries(l: seq<Entry>, u: UserId): (r: seq<Entry>)
    ensures forall i :: 0 <= i < |r| ==> r[i].userId == u
    ensures |r| <= |l|
    decreases |l|
  {
    if |l| == 0 then []
    else
      var own := OwnEntries(l[..|l| - 1], u);
      if l[|l| - 1].userId == u then own + [l[|l| - 1]] else own
  }

  /** Python's `sum(...)` over the amounts, left to right. */
  function SumAmounts(es: seq<Entry>): real
    decreases |es|
  {
    if |es| == 0 then 0.0 else SumAmounts(es[..|es| - 1]) + es[|es| - 1].amount
  }

  /** A user's balance: the sum of that user's entries, zero when there are none.
      It is never stored; every reader recomputes it from the ledger. */
  function Balance(l: seq<Entry>, u: UserId): real
  {
    var own := OwnEntries(l, u);
    if |own| == 0 then 0.0 else SumAmounts(own)
  }

  /** Appending an entry moves its owner's balance by exactly its amount and no one else's. */
  lemma BalanceAppend(l: seq<Entry>, e: Entry, u: UserId)
    ensures Balance(l + [e], u) == Balance(l, u) + (if e.userId == u then e.amount else 0.0)
  {
    assert (l + [e])[..|l|] == l;
    var own := OwnEntries(l, u);
    if e.userId == u {
      assert OwnEntries(l + [e], u) == own + [e];
      assert (own + [e])[..|own|] == own;
    }
  }

  /** A user with no entries has balance zero. */
  lemma BalanceNoEntries(l: seq<Entry>, u: UserId)
    requires forall i :: 0 <= i < |l| ==> l[i].userId != u
    ensures Balance(l, u) == 0.0
  {
    assert |OwnEntries(l, u)| == 0 by {
      NoOwnEntries(l, u);
    }
  }

  lemma {:induction false} NoOwnEntries(l: seq<Entry>, u: UserId)
    requires forall i :: 0 <= i < |l| ==> l[i].userId != u
    ensures OwnEntries(l, u) == []
    decreases |l|
  {
    if |l| > 0 {
      NoOwnEntries(l[..|l| - 1], u);
    }
  }

  /** The balance over two stretches of ledger is the sum of the balances over each. */
  lemma {:induction false} BalanceConcat(a: seq<Entry>, b: seq<Entry>, u: UserId)
    ensures Balance(a + b, u) == Balance(a, u) + Balance(b, u)
    decreases |b|
  {
    if |b| == 0 {
      assert a + b == a;
      assert Balance(b, u) == 0.0;
    } else {
      var init := b[..|b| - 1];
      var e := b[|b| - 1];
      BalanceConcat(a, init, u);
      assert a + b == (a + init) + [e];
      assert b == init + [e];
      BalanceAppend(a + init, e, u);
      BalanceAppend(init, e, u);
    }
  }

  /** Number of entries of kind k that belong to order o. */
  function CountTagged(l: seq<Entry>, o: OrderId, k: Kind): nat
    decreases |l|
  {
    if |l| == 0 then 0
    else
      var e := l[|l| - 1];
      CountTagged(l[..|l| - 1], o, k) + (if e.orderId == Some(o) && e.kind == k then 1 else 0)
  }

  /** Appending an entry adds one to the count it matches and leaves every other count alone. */
  lemma CountTaggedAppend(l: seq<Entry>, e: Entry, o: OrderId, k: Kind)
    ensures CountTagged(l + [e], o, k) == CountTagged(l, o, k) + (if e.orderId == Some(o) && e.kind == k then 1 else 0)
  {
    assert (l + [e])[..|l|] == l;
  }

  /** An order none of whose entries are in the ledger has all counts zero. */
  lemma {:induction false} CountTaggedAbsent(l: seq<Entry>, o: OrderId, k: Kind)
    requires forall i :: 0 <= i < |l| ==> l[i].orderId != Some(o)
    ensures CountTagged(l, o, k) == 0
    decreases |l|
  {
    if |l| > 0 {
      CountTaggedAbsent(l[..|l| - 1], o, k);
    }
  }
}
