/** Concurrent order handlers. A system is the tables plus the handlers in flight; a
    schedule says which handler makes its next round trip, and when. Every interleaving
    of round trips is some schedule.

    The invariant `Inv` holds of every state any schedule reaches. In both variants it
    gives "no double sale" (at most one buyer wins an order) and a count of holds: the
    holds tagged with an order number its refunds, plus the buyers still in flight, plus
    one for an order in escrow or completed. In the corrected variant
    it also gives at most one release per order, no negative balance, and at most one
    active listing per channel; the three counterexample lemmas show each failing as
    written. */
module Races {

  import opened Common
  import opened Ledger
  import opened Store
  import opened Orders

  datatype System = System(state: State, procs: seq<Proc>)

  /** Handler `proc` makes its next round trip at time `now`. */
  datatype Tick = Tick(proc: nat, now: int)

  predicate AllConsistent(ps: seq<Proc>)
  {
    forall i :: 0 <= i < |ps| ==> Consistent(ps[i])
  }

  /** One round trip of one handler; a tick naming no handler changes nothing. */
  function Advance(v: Variant, sys: System, t: Tick): (r: System)
    requires AllConsistent(sys.procs)
    ensures AllConsistent(r.procs) && |r.procs| == |sys.procs|
  {
    if t.proc < |sys.procs| then
      var next := Step(v, sys.state, sys.procs[t.proc], t.now);
      System(next.0, sys.procs[t.proc := next.1])
    else sys
  }

  /** The system after a whole schedule. */
  function Execute(v: Variant, sys: System, schedule: seq<Tick>): (r: System)
    requires AllConsistent(sys.procs)
    ensures AllConsistent(r.procs) && |r.procs| == |sys.procs|
    decreases |schedule|
  {
    if |schedule| == 0 then sys else Execute(v, Advance(v, sys, schedule[0]), schedule[1..])
  }

  /** Running two schedules one after the other is running their concatenation. */
  lemma {:induction false} ExecuteConcat(v: Variant, sys: System, a: seq<Tick>, b: seq<Tick>)
    requires AllConsistent(sys.procs)
    ensures Execute(v, sys, a + b) == Execute(v, Execute(v, sys, a), b)
    decreases |a|
  {
    if |a| > 0 {
      assert (a + b)[0] == a[0] && (a + b)[1..] == a[1..] + b;
      ExecuteConcat(v, Advance(v, sys, a[0]), a[1..], b);
    } else {
      assert a + b == b;
    }
  }

  /** A one-tick schedule is one round trip. */
  lemma ExecuteOne(v: Variant, sys: System, t: Tick)
    requires AllConsistent(sys.procs)
    ensures Execute(v, sys, [t]) == Advance(v, sys, t)
  {
    assert [t][1..] == [];
  }

  /** Two ticks in a row are two round trips, in that order. */
  lemma ExecutePair(v: Variant, sys: System, t0: Tick, t1: Tick)
    requires AllConsistent(sys.procs)
    ensures Execute(v, sys, [t0] + [t1]) == Advance(v, Advance(v, sys, t0), t1)
  {
    ExecuteConcat(v, sys, [t0], [t1]);
    ExecuteOne(v, sys, t0);
    ExecuteOne(v, Advance(v, sys, t0), t1);
  }

  // ---------------------------------------------------------------------------------
  // Counting handlers by what they are doing to an order

  datatype Role =
    | InFlightHold   // a buyer whose hold is in the ledger but whose claim is unresolved
    | Winner         // a buyer whose claim moved the order to escrow
    | PendingPay     // a corrected confirm that completed the order and still owes the release

  function Weight(role: Role, p: Proc, o: OrderId): nat
  {
    match role
    case InFlightHold =>
      if p.req.Buy? && p.req.orderId == o && (p.at.BuyClaim? || p.at.BuyRefund?) then 1 else 0
    case Winner =>
      if p.req.Buy? && p.req.orderId == o && p.at.Done? && p.at.response == Ok(EscrowStarted) then 1 else 0
    case PendingPay =>
      if p.req.Confirm? && p.req.orderId == o && p.at.ConfirmPay? then 1 else 0
  }

  function Count(ps: seq<Proc>, o: OrderId, role: Role): nat
    decreases |ps|
  {
    if |ps| == 0 then 0 else Count(ps[..|ps| - 1], o, role) + Weight(role, ps[|ps| - 1], o)
  }

  /** Replacing one handler changes a count by the difference of its two weights. */
  lemma {:induction false} CountUpdate(ps: seq<Proc>, i: nat, q: Proc, o: OrderId, role: Role)
    requires i < |ps|
    ensures Count(ps[i := q], o, role) == Count(ps, o, role) - Weight(role, ps[i], o) + Weight(role, q, o)
    decreases |ps|
  {
    if i == |ps| - 1 {
      assert ps[i := q][..|ps| - 1] == ps[..|ps| - 1];
    } else {
      CountUpdate(ps[..|ps| - 1], i, q, o, role);
      assert ps[i := q][..|ps| - 1] == ps[..|ps| - 1][i := q];
    }
  }

  // ---------------------------------------------------------------------------------
  // The invariant

  /** Everything the invariant needs to know about one order. */
  datatype View = View(
    holds: nat, refunds: nat, releases: nat,
    inFlight: nat, winners: nat, pendingPays: nat,
    status: Option<Status>)

  function StatusOf(s: State, o: OrderId): Option<Status>
  {
    if o in s.orders then Some(s.orders[o].status) else None
  }

  function ViewOf(s: State, ps: seq<Proc>, o: OrderId): View
  {
    View(
      CountTagged(s.ledger, o, Hold), CountTagged(s.ledger, o, Refund), CountTagged(s.ledger, o, Release),
      Count(ps, o, InFlightHold), Count(ps, o, Winner), Count(ps, o, PendingPay),
      StatusOf(s, o))
  }

  /** 1 while the order holds its buyer's money: in escrow or completed. */
  function Held(st: Option<Status>): nat
  {
    if st == Some(Escrow) || st == Some(Completed) then 1 else 0
  }

  /** The per-order part of the invariant. Holds: every hold is refunded, still in flight,
      or the single hold of the buyer who won. Winners: nobody wins an order that is still
      active or does not exist, and at most one buyer wins. Releases (corrected): one
      release, owed or paid, exactly when the order is completed. */
  predicate ViewOk(v: Variant, w: View)
  {
    && w.holds == w.refunds + w.inFlight + Held(w.status)
    && w.winners <= (if w.status.Some? && w.status.value != Active then 1 else 0)
    && (v == Corrected ==> w.releases + w.pendingPays == (if w.status == Some(Completed) then 1 else 0))
  }

  /** What a handler has read still describes the order: the order exists with that price
      and seller, and a pending insert of a listing was validated. */
  predicate Agrees(s: State, p: Proc)
  {
    match p.at
    case BuyBalance(price) => Priced(s, p.req, price)
    case BuyHold(price) => Priced(s, p.req, price)
    case BuyClaim(price) => Priced(s, p.req, price)
    case BuyRefund(price) => Priced(s, p.req, price)
    case ConfirmRelease(seller, price) => Priced(s, p.req, price) && s.orders[p.req.orderId].sellerId == seller
    case ConfirmComplete(seller, price) => Priced(s, p.req, price) && s.orders[p.req.orderId].sellerId == seller
    case ConfirmPay(seller, price) => Priced(s, p.req, price) && s.orders[p.req.orderId].sellerId == seller
    case CreateInsert => p.req.Create? && ValidListing(p.req.channel, p.req.price)
    case _ => true
  }

  predicate Priced(s: State, req: Request, price: real)
  {
    !req.Create? && req.orderId in s.orders && s.orders[req.orderId].price == price
  }

  /** Fresh order ids and positive prices. */
  predicate OrdersWellFormed(s: State)
  {
    && FreshIds(s)
    && forall id :: id in s.orders ==> s.orders[id].price > 0.0
  }

  /** The corrected handlers never stand at a position only the as-written ones have. */
  predicate CorrectedPositions(ps: seq<Proc>)
  {
    forall i :: 0 <= i < |ps| ==> !(ps[i].at.BuyHold? || ps[i].at.ConfirmRelease? || ps[i].at.CreateInsert?)
  }

  ghost predicate NoNegativeBalance(l: seq<Entry>)
  {
    forall u :: Balance(l, u) >= 0.0
  }

  ghost predicate Inv(v: Variant, sys: System)
  {
    && AllConsistent(sys.procs)
    && OrdersWellFormed(sys.state)
    && (forall i :: 0 <= i < |sys.procs| ==> Agrees(sys.state, sys.procs[i]))
    && (forall o :: ViewOk(v, ViewOf(sys.state, sys.procs, o)))
    && (v == Corrected ==>
          && CorrectedPositions(sys.procs)
          && NoNegativeBalance(sys.state.ledger)
          && OneActivePerChannel(sys.state.orders))
  }

  // ---------------------------------------------------------------------------------
  // Preservation

  /** Existing orders keep their id, price, seller and channel; only status-side fields move. */
  predicate Extends(s: State, s': State)
  {
    && s.nextOrderId <= s'.nextOrderId
    && forall id :: id in s.orders ==>
         && id in s'.orders
         && s'.orders[id].price == s.orders[id].price
         && s'.orders[id].sellerId == s.orders[id].sellerId
         && s'.orders[id].channel == s.orders[id].channel
  }

  lemma AgreesExtends(s: State, s': State, p: Proc)
    requires Agrees(s, p) && Extends(s, s')
    ensures Agrees(s', p)
  {
  }

  /** The order a handler's step can affect: its own, or the next id for a listing. */
  function Touched(s: State, p: Proc): OrderId
  {
    if p.req.Create? then s.nextOrderId else p.req.orderId
  }

  /** The view of one order after one handler moved from p to q and the ledger grew by `added`. */
  lemma ViewAfter(s: State, ps: seq<Proc>, i: nat, s': State, q: Proc, o: OrderId, added: seq<Entry>)
    requires i < |ps| && |added| <= 1
    requires s'.ledger == s.ledger + added
    ensures var w, w' := ViewOf(s, ps, o), ViewOf(s', ps[i := q], o);
      var tag := (k: Kind) => if |added| == 1 && added[0].orderId == Some(o) && added[0].kind == k then 1 else 0;
      && w'.holds == w.holds + tag(Hold)
      && w'.refunds == w.refunds + tag(Refund)
      && w'.releases == w.releases + tag(Release)
      && w'.inFlight == w.inFlight - Weight(InFlightHold, ps[i], o) + Weight(InFlightHold, q, o)
      && w'.winners == w.winners - Weight(Winner, ps[i], o) + Weight(Winner, q, o)
      && w'.pendingPays == w.pendingPays - Weight(PendingPay, ps[i], o) + Weight(PendingPay, q, o)
      && w'.status == StatusOf(s', o)
  {
    CountUpdate(ps, i, q, o, InFlightHold);
    CountUpdate(ps, i, q, o, Winner);
    CountUpdate(ps, i, q, o, PendingPay);
    if |added| == 1 {
      CountTaggedAppend(s.ledger, added[0], o, Hold);
      CountTaggedAppend(s.ledger, added[0], o, Refund);
      CountTaggedAppend(s.ledger, added[0], o, Release);
    } else {
      assert s'.ledger == s.ledger;
    }
  }

  /** Appending an entry of non-negative amount keeps every balance non-negative. */
  lemma CreditKeepsNonNegative(l: seq<Entry>, e: Entry)
    requires NoNegativeBalance(l) && e.amount >= 0.0
    ensures NoNegativeBalance(l + [e])
  {
    forall u ensures Balance(l + [e], u) >= 0.0 {
      BalanceAppend(l, e, u);
    }
  }

  /** Changing one order's status to something other than `active` keeps listings unique. */
  lemma DeactivateKeepsUnique(orders: map<OrderId, Order>, id: OrderId, o': Order)
    requires OneActivePerChannel(orders) && id in orders && o'.status != Active
    ensures OneActivePerChannel(orders[id := o'])
  {
  }

  /** The frame argument shared by every step: a step that keeps what other handlers have
      read, writes only entries of the order it touches and changes no other order's status
      keeps the invariant, once the touched order's own view is known to be fine. */
  lemma Assemble(v: Variant, sys: System, i: nat, s': State, q: Proc, added: seq<Entry>)
    requires Inv(v, sys) && i < |sys.procs|
    requires q.req == sys.procs[i].req && Consistent(q) && Agrees(s', q)
    requires OrdersWellFormed(s') && Extends(sys.state, s')
    requires s'.ledger == sys.state.ledger + added && |added| <= 1
    requires forall e :: e in added ==> e.orderId == Some(Touched(sys.state, q))
    requires forall o :: o != Touched(sys.state, q) ==> StatusOf(s', o) == StatusOf(sys.state, o)
    requires ViewOk(v, ViewOf(s', sys.procs[i := q], Touched(sys.state, q)))
    requires v == Corrected ==>
      && !(q.at.BuyHold? || q.at.ConfirmRelease? || q.at.CreateInsert?)
      && NoNegativeBalance(s'.ledger)
      && OneActivePerChannel(s'.orders)
    ensures Inv(v, System(s', sys.procs[i := q]))
  {
    var s, ps, t := sys.state, sys.procs, Touched(sys.state, q);
    var ps' := ps[i := q];
    forall j | 0 <= j < |ps'| ensures Agrees(s', ps'[j]) {
      if j != i {
        AgreesExtends(s, s', ps[j]);
      }
    }
    forall o | o != t ensures ViewOk(v, ViewOf(s', ps', o)) {
      assert ViewOk(v, ViewOf(s, ps, o));
      if |added| == 1 {
        assert added[0] in added;
      }
      ViewAfter(s, ps, i, s', q, o, added);
    }
    assert forall o :: ViewOk(v, ViewOf(s', ps', o));
  }

  /** The first round trip of a buy only reads. */
  lemma BuyStartPreserves(v: Variant, sys: System, i: nat, now: int)
    requires Inv(v, sys) && i < |sys.procs| && sys.procs[i].req.Buy? && sys.procs[i].at.Start?
    ensures Inv(v, Advance(v, sys, Tick(i, now)))
  {
    var s, p := sys.state, sys.procs[i];
    var next := Step(v, s, p, now);
    assert next.0 == s;
    ViewAfter(s, sys.procs, i, next.0, next.1, p.req.orderId, []);
    assert ViewOk(v, ViewOf(s, sys.procs, p.req.orderId));
    Assemble(v, sys, i, next.0, next.1, []);
  }

  /** The balance check: as written it only reads; corrected, it also places the hold, and
      only when the balance covers it. */
  lemma BuyBalancePreserves(v: Variant, sys: System, i: nat, now: int)
    requires Inv(v, sys) && i < |sys.procs| && sys.procs[i].req.Buy? && sys.procs[i].at.BuyBalance?
    ensures Inv(v, Advance(v, sys, Tick(i, now)))
  {
    var s, p := sys.state, sys.procs[i];
    var id, buyer, price := p.req.orderId, p.req.buyer, p.at.price;
    var next := Step(v, s, p, now);
    assert Agrees(s, p);
    var added: seq<Entry> := [];
    if Balance(s.ledger, buyer) >= price && v == Corrected {
      added := [HoldEntry(buyer, id, price)];
      forall u ensures Balance(next.0.ledger, u) >= 0.0 {
        BalanceAppend(s.ledger, added[0], u);
      }
    }
    assert next.0.ledger == s.ledger + added;
    ViewAfter(s, sys.procs, i, next.0, next.1, id, added);
    assert ViewOk(v, ViewOf(s, sys.procs, id));
    Assemble(v, sys, i, next.0, next.1, added);
  }

  /** The as-written hold, placed after the balance was read. */
  lemma BuyHoldPreserves(v: Variant, sys: System, i: nat, now: int)
    requires Inv(v, sys) && i < |sys.procs| && sys.procs[i].req.Buy? && sys.procs[i].at.BuyHold?
    ensures Inv(v, Advance(v, sys, Tick(i, now)))
  {
    var s, p := sys.state, sys.procs[i];
    var id, buyer, price := p.req.orderId, p.req.buyer, p.at.price;
    var next := Step(v, s, p, now);
    assert Agrees(s, p);
    var added := [HoldEntry(buyer, id, price)];
    assert next.0.ledger == s.ledger + added;
    ViewAfter(s, sys.procs, i, next.0, next.1, id, added);
    assert ViewOk(v, ViewOf(s, sys.procs, id));
    Assemble(v, sys, i, next.0, next.1, added);
  }

  /** The guarded claim: the winner moves the order to escrow, a loser goes on to refund. */
  lemma BuyClaimPreserves(v: Variant, sys: System, i: nat, now: int)
    requires Inv(v, sys) && i < |sys.procs| && sys.procs[i].req.Buy? && sys.procs[i].at.BuyClaim?
    ensures Inv(v, Advance(v, sys, Tick(i, now)))
  {
    var s, p := sys.state, sys.procs[i];
    var id := p.req.orderId;
    var next := Step(v, s, p, now);
    assert Agrees(s, p);
    if s.orders[id].status == Active {
      assert next.0.orders == s.orders[id := next.0.orders[id]];
      if v == Corrected {
        DeactivateKeepsUnique(s.orders, id, next.0.orders[id]);
      }
    } else {
      assert next.0 == s;
    }
    assert next.0.ledger == s.ledger + [];
    ViewAfter(s, sys.procs, i, next.0, next.1, id, []);
    assert ViewOk(v, ViewOf(s, sys.procs, id));
    Assemble(v, sys, i, next.0, next.1, []);
  }

  /** The loser's refund. */
  lemma BuyRefundPreserves(v: Variant, sys: System, i: nat, now: int)
    requires Inv(v, sys) && i < |sys.procs| && sys.procs[i].req.Buy? && sys.procs[i].at.BuyRefund?
    ensures Inv(v, Advance(v, sys, Tick(i, now)))
  {
    var s, p := sys.state, sys.procs[i];
    var id, buyer, price := p.req.orderId, p.req.buyer, p.at.price;
    var next := Step(v, s, p, now);
    assert Agrees(s, p);
    var added := [RefundEntry(buyer, id, price)];
    assert next.0.ledger == s.ledger + added;
    if v == Corrected {
      CreditKeepsNonNegative(s.ledger, added[0]);
    }
    ViewAfter(s, sys.procs, i, next.0, next.1, id, added);
    assert ViewOk(v, ViewOf(s, sys.procs, id));
    Assemble(v, sys, i, next.0, next.1, added);
  }

  /** The first round trip of a confirm only reads. */
  lemma ConfirmStartPreserves(v: Variant, sys: System, i: nat, now: int)
    requires Inv(v, sys) && i < |sys.procs| && sys.procs[i].req.Confirm? && sys.procs[i].at.Start?
    ensures Inv(v, Advance(v, sys, Tick(i, now)))
  {
    var s, p := sys.state, sys.procs[i];
    var next := Step(v, s, p, now);
    assert next.0 == s;
    ViewAfter(s, sys.procs, i, next.0, next.1, p.req.orderId, []);
    assert ViewOk(v, ViewOf(s, sys.procs, p.req.orderId));
    Assemble(v, sys, i, next.0, next.1, []);
  }

  /** A release entry, as written before the completion and corrected after it. */
  lemma ConfirmPayPreserves(v: Variant, sys: System, i: nat, now: int)
    requires Inv(v, sys) && i < |sys.procs| && sys.procs[i].req.Confirm?
    requires sys.procs[i].at.ConfirmRelease? || sys.procs[i].at.ConfirmPay?
    ensures Inv(v, Advance(v, sys, Tick(i, now)))
  {
    var s, p := sys.state, sys.procs[i];
    var id, seller, price := p.req.orderId, p.at.seller, p.at.price;
    var next := Step(v, s, p, now);
    assert Agrees(s, p);
    var added := [ReleaseEntry(seller, id, price)];
    assert next.0.ledger == s.ledger + added;
    if v == Corrected {
      CreditKeepsNonNegative(s.ledger, added[0]);
    }
    ViewAfter(s, sys.procs, i, next.0, next.1, id, added);
    assert ViewOk(v, ViewOf(s, sys.procs, id));
    Assemble(v, sys, i, next.0, next.1, added);
  }

  /** The guarded completion. */
  lemma ConfirmCompletePreserves(v: Variant, sys: System, i: nat, now: int)
    requires Inv(v, sys) && i < |sys.procs| && sys.procs[i].req.Confirm? && sys.procs[i].at.ConfirmComplete?
    ensures Inv(v, Advance(v, sys, Tick(i, now)))
  {
    var s, p := sys.state, sys.procs[i];
    var id := p.req.orderId;
    var next := Step(v, s, p, now);
    assert Agrees(s, p);
    if s.orders[id].status == Escrow {
      assert next.0.orders == s.orders[id := next.0.orders[id]];
      if v == Corrected {
        DeactivateKeepsUnique(s.orders, id, next.0.orders[id]);
      }
    } else {
      assert next.0 == s;
    }
    assert next.0.ledger == s.ledger + [];
    ViewAfter(s, sys.procs, i, next.0, next.1, id, []);
    assert ViewOk(v, ViewOf(s, sys.procs, id));
    Assemble(v, sys, i, next.0, next.1, []);
  }

  /** Cancelling reads, then moves an active order to cancelled. */
  lemma CancelPreserves(v: Variant, sys: System, i: nat, now: int)
    requires Inv(v, sys) && i < |sys.procs| && sys.procs[i].req.Cancel? && !sys.procs[i].at.Done?
    ensures Inv(v, Advance(v, sys, Tick(i, now)))
  {
    var s, p := sys.state, sys.procs[i];
    var id := p.req.orderId;
    var next := Step(v, s, p, now);
    assert Consistent(p);
    if p.at.CancelUpdate? && id in s.orders && s.orders[id].status == Active {
      assert next.0.orders == s.orders[id := next.0.orders[id]];
      if v == Corrected {
        DeactivateKeepsUnique(s.orders, id, next.0.orders[id]);
      }
    } else {
      assert next.0 == s;
    }
    assert next.0.ledger == s.ledger + [];
    ViewAfter(s, sys.procs, i, next.0, next.1, id, []);
    assert ViewOk(v, ViewOf(s, sys.procs, id));
    Assemble(v, sys, i, next.0, next.1, []);
  }

  /** Listing a channel: the new order is active, has a fresh id and a positive price. */
  lemma CreatePreserves(v: Variant, sys: System, i: nat, now: int)
    requires Inv(v, sys) && i < |sys.procs| && sys.procs[i].req.Create? && !sys.procs[i].at.Done?
    ensures Inv(v, Advance(v, sys, Tick(i, now)))
  {
    var s, p := sys.state, sys.procs[i];
    var next := Step(v, s, p, now);
    assert Consistent(p) && Agrees(s, p);
    var n := s.nextOrderId;
    assert n !in s.orders;
    assert next.0.ledger == s.ledger + [];
    ViewAfter(s, sys.procs, i, next.0, next.1, n, []);
    assert ViewOk(v, ViewOf(s, sys.procs, n));
    Assemble(v, sys, i, next.0, next.1, []);
  }

  /** Every round trip of every handler keeps the invariant. */
  lemma AdvancePreserves(v: Variant, sys: System, t: Tick)
    requires Inv(v, sys)
    ensures Inv(v, Advance(v, sys, t))
  {
    if t.proc < |sys.procs| {
      var p := sys.procs[t.proc];
      if p.at.Done? {
        assert sys.procs[t.proc := p] == sys.procs;
      } else {
        assert Consistent(p);
        if p.req.Create? {
          CreatePreserves(v, sys, t.proc, t.now);
        } else if p.req.Cancel? {
          CancelPreserves(v, sys, t.proc, t.now);
        } else if p.req.Buy? {
          if p.at.Start? {
            BuyStartPreserves(v, sys, t.proc, t.now);
          } else if p.at.BuyBalance? {
            BuyBalancePreserves(v, sys, t.proc, t.now);
          } else if p.at.BuyHold? {
            BuyHoldPreserves(v, sys, t.proc, t.now);
          } else if p.at.BuyClaim? {
            BuyClaimPreserves(v, sys, t.proc, t.now);
          } else {
            BuyRefundPreserves(v, sys, t.proc, t.now);
          }
        } else {
          if p.at.Start? {
            ConfirmStartPreserves(v, sys, t.proc, t.now);
          } else if p.at.ConfirmComplete? {
            ConfirmCompletePreserves(v, sys, t.proc, t.now);
          } else {
            ConfirmPayPreserves(v, sys, t.proc, t.now);
          }
        }
      }
    }
  }

  /** Every schedule keeps the invariant. */
  lemma {:induction false} ExecutePreserves(v: Variant, sys: System, schedule: seq<Tick>)
    requires Inv(v, sys)
    ensures Inv(v, Execute(v, sys, schedule))
    decreases |schedule|
  {
    if |schedule| > 0 {
      AdvancePreserves(v, sys, schedule[0]);
      ExecutePreserves(v, Advance(v, sys, schedule[0]), schedule[1..]);
    }
  }

  // ---------------------------------------------------------------------------------
  // What the invariant gives, for every schedule

  /** Whatever the interleaving, at most one buyer is told the purchase succeeded, and
      only once the order has left `active`. */
  lemma NoDoubleSale(v: Variant, sys: System, schedule: seq<Tick>, o: OrderId)
    requires Inv(v, sys)
    ensures var r := Execute(v, sys, schedule);
      && Count(r.procs, o, Winner) <= 1
      && (Count(r.procs, o, Winner) == 1 ==> o in r.state.orders && r.state.orders[o].status != Active)
  {
    ExecutePreserves(v, sys, schedule);
    var r := Execute(v, sys, schedule);
    assert ViewOk(v, ViewOf(r.state, r.procs, o));
  }

  /** The number of holds tagged with an order equals the number of its refunds, plus the
      buyers still in flight, plus one if the order is in escrow or completed. Amounts and
      owners of those entries are not part of this count. */
  lemma HoldsAccounted(v: Variant, sys: System, schedule: seq<Tick>, o: OrderId)
    requires Inv(v, sys)
    ensures var r := Execute(v, sys, schedule);
      CountTagged(r.state.ledger, o, Hold)
        == CountTagged(r.state.ledger, o, Refund) + Count(r.procs, o, InFlightHold) + Held(StatusOf(r.state, o))
  {
    ExecutePreserves(v, sys, schedule);
    var r := Execute(v, sys, schedule);
    assert ViewOk(v, ViewOf(r.state, r.procs, o));
  }

  /** Corrected: the seller is paid at most once per order, and exactly once when the
      order is completed and its confirm has finished. */
  lemma AtMostOneRelease(sys: System, schedule: seq<Tick>, o: OrderId)
    requires Inv(Corrected, sys)
    ensures var r := Execute(Corrected, sys, schedule);
      && CountTagged(r.state.ledger, o, Release) <= 1
      && (CountTagged(r.state.ledger, o, Release) == 1 ==> StatusOf(r.state, o) == Some(Completed))
      && (StatusOf(r.state, o) == Some(Completed) && Count(r.procs, o, PendingPay) == 0 ==>
            CountTagged(r.state.ledger, o, Release) == 1)
  {
    ExecutePreserves(Corrected, sys, schedule);
    var r := Execute(Corrected, sys, schedule);
    assert ViewOk(Corrected, ViewOf(r.state, r.procs, o));
  }

  /** Corrected: no interleaving of purchases drives a balance below zero. */
  lemma NoOverdraft(sys: System, schedule: seq<Tick>, u: UserId)
    requires Inv(Corrected, sys)
    ensures Balance(Execute(Corrected, sys, schedule).state.ledger, u) >= 0.0
  {
    ExecutePreserves(Corrected, sys, schedule);
  }

  /** Corrected: no interleaving of listings puts two active orders on one channel. */
  lemma ListingsStayUnique(sys: System, schedule: seq<Tick>)
    requires Inv(Corrected, sys)
    ensures OneActivePerChannel(Execute(Corrected, sys, schedule).state.orders)
  {
    ExecutePreserves(Corrected, sys, schedule);
  }

  // ---------------------------------------------------------------------------------
  // Where executions start

  /** A batch of requests arriving at a store, none of them begun. */
  function Launch(s: State, reqs: seq<Request>): (r: System)
    ensures AllConsistent(r.procs) && |r.procs| == |reqs|
    ensures forall i :: 0 <= i < |reqs| ==> r.procs[i] == Proc(reqs[i], Start)
  {
    System(s, seq(|reqs|, i requires 0 <= i < |reqs| => Proc(reqs[i], Start)))
  }

  /** Handlers that have not begun are counted in no role. */
  lemma {:induction false} CountIdle(ps: seq<Proc>, o: OrderId, role: Role)
    requires forall i :: 0 <= i < |ps| ==> ps[i].at.Start?
    ensures Count(ps, o, role) == 0
    decreases |ps|
  {
    if |ps| > 0 {
      CountIdle(ps[..|ps| - 1], o, role);
    }
  }

  /** A ledger of credits only leaves nobody below zero. */
  lemma {:induction false} CreditsNonNegative(l: seq<Entry>)
    requires forall i :: 0 <= i < |l| ==> l[i].amount >= 0.0
    ensures NoNegativeBalance(l)
    decreases |l|
  {
    if |l| == 0 {
      forall u ensures Balance(l, u) >= 0.0 {
      }
    } else {
      CreditsNonNegative(l[..|l| - 1]);
      assert l == l[..|l| - 1] + [l[|l| - 1]];
      CreditKeepsNonNegative(l[..|l| - 1], l[|l| - 1]);
    }
  }

  /** Any batch of fresh requests against a store whose listings are all active and unique
      and whose ledger holds only untagged credits satisfies the invariant, so every
      theorem above applies to every schedule from it. */
  lemma LaunchInv(v: Variant, s: State, reqs: seq<Request>)
    requires OrdersWellFormed(s) && OneActivePerChannel(s.orders)
    requires forall id :: id in s.orders ==> s.orders[id].status == Active
    requires forall i :: 0 <= i < |s.ledger| ==> s.ledger[i].orderId.None? && s.ledger[i].amount >= 0.0
    ensures Inv(v, Launch(s, reqs))
  {
    var sys := Launch(s, reqs);
    forall o ensures ViewOk(v, ViewOf(s, sys.procs, o)) {
      CountIdle(sys.procs, o, InFlightHold);
      CountIdle(sys.procs, o, Winner);
      CountIdle(sys.procs, o, PendingPay);
      CountTaggedAbsent(s.ledger, o, Hold);
      CountTaggedAbsent(s.ledger, o, Refund);
      CountTaggedAbsent(s.ledger, o, Release);
    }
    CreditsNonNegative(s.ledger);
  }
}
