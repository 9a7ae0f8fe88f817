/** The order handlers of the marketplace (create, buy, confirm, cancel), each cut into its
    storage round trips. A round trip is one atomic step over the tables; a handler is the
    sequence of its steps, and concurrent handlers are interleavings of those steps.

    Two variants of the protocol are modelled. `AsWritten` is the handlers as they stand.
    `Corrected` differs in three places, each closing a race shown in the `Races` module:
    creating checks for an active listing and inserts in one step, buying checks the
    balance and inserts the hold in one step, and confirming completes the order (guarded
    on `escrow`) before it releases the money. */
module Orders {

  import opened Common
  import opened Ledger
  import opened Store

  /** A successful purchase holds the order in escrow for 90 minutes. */
  const EscrowSeconds: int := 90 * 60

  datatype Variant = AsWritten | Corrected

  /** One call of a handler, by an already authenticated user. */
  datatype Request =
    | Create(seller: UserId, channel: string, price: real)
    | Buy(orderId: OrderId, buyer: UserId)
    | Confirm(orderId: OrderId, caller: UserId)
    | Cancel(orderId: OrderId, caller: UserId)

  /** The body of a successful response. */
  datatype Reply = OrderCreated(id: OrderId) | EscrowStarted | OrderCompleted | OrderCancelled

  type Response = Result<Reply, HttpError>

  /** Where a handler stands: the next round trip it will make, with what it has read so far. */
  datatype At =
    | Start
    | BuyBalance(price: real)                       // order read and checked; next: read the ledger
    | BuyHold(price: real)                          // balance sufficient; next: insert the hold
    | BuyClaim(price: real)                         // hold inserted; next: update guarded on `active`
    | BuyRefund(price: real)                        // guarded update missed; next: insert the refund
    | ConfirmRelease(seller: UserId, price: real)   // order read and checked; next: insert the release
    | ConfirmComplete(seller: UserId, price: real)  // next: update guarded on `escrow`
    | ConfirmPay(seller: UserId, price: real)       // completion won; next: insert the release
    | CancelUpdate                                  // order read and checked; next: update guarded on `active`
    | CreateInsert                                  // no active listing seen; next: insert the order
    | Done(response: Response)

  /** A handler in flight. */
  datatype Proc = Proc(req: Request, at: At)

  /** The position belongs to the handler of the request. */
  predicate Consistent(p: Proc)
  {
    match p.at
    case Start => true
    case Done(_) => true
    case BuyBalance(_) => p.req.Buy?
    case BuyHold(_) => p.req.Buy?
    case BuyClaim(_) => p.req.Buy?
    case BuyRefund(_) => p.req.Buy?
    case ConfirmRelease(_, _) => p.req.Confirm?
    case ConfirmComplete(_, _) => p.req.Confirm?
    case ConfirmPay(_, _) => p.req.Confirm?
    case CancelUpdate => p.req.Cancel?
    case CreateInsert => p.req.Create?
  }

  /** An upper bound on the round trips a handler still has to make. */
  function Rank(at: At): nat
  {
    match at
    case Start => 5
    case BuyBalance(_) => 4
    case BuyHold(_) => 3
    case BuyClaim(_) => 2
    case BuyRefund(_) => 1
    case ConfirmRelease(_, _) => 3
    case ConfirmComplete(_, _) => 2
    case ConfirmPay(_, _) => 1
    case CancelUpdate => 1
    case CreateInsert => 1
    case Done(_) => 0
  }

  function HoldEntry(buyer: UserId, id: OrderId, price: real): Entry
  {
    Entry(buyer, Some(id), -price, Hold)
  }

  function RefundEntry(buyer: UserId, id: OrderId, price: real): Entry
  {
    Entry(buyer, Some(id), price, Refund)
  }

  function ReleaseEntry(seller: UserId, id: OrderId, price: real): Entry
  {
    Entry(seller, Some(id), price, Release)
  }

  /** The `CreateOrderRequest` schema: a channel name of at least 3 characters and a positive price. */
  predicate ValidListing(channel: string, price: real)
  {
    |channel| >= 3 && price > 0.0
  }

  /** Insert a new active order for the seller under the next free id. */
  function InsertOrder(s: State, seller: UserId, channel: string, price: real): (State, At)
  {
    var id := s.nextOrderId;
    var order := Order(id, seller, None, channel, price, Active, None, None);
    (s.(orders := s.orders[id := order], nextOrderId := id + 1), Done(Ok(OrderCreated(id))))
  }

  /** The round trips of `create_order`. A request failing the schema never reaches storage. */
  function CreateStep(v: Variant, s: State, seller: UserId, channel: string, price: real, at: At): (r: (State, At))
    requires at.Start? || at.CreateInsert?
    ensures Consistent(Proc(Create(seller, channel, price), r.1)) && Rank(r.1) < Rank(at)
  {
    if at.CreateInsert? then InsertOrder(s, seller, channel, price)
    else if !ValidListing(channel, price) then (s, Done(Fail(422, "Unprocessable Entity")))
    else if ActiveListing(s.orders, channel) then (s, Done(Fail(400, "Channel already listed")))
    else if v == AsWritten then (s, CreateInsert)
    else InsertOrder(s, seller, channel, price)
  }

  /** Whether a position is one of the buy handler's. */
  predicate BuyPosition(at: At)
  {
    at.Start? || at.BuyBalance? || at.BuyHold? || at.BuyClaim? || at.BuyRefund?
  }

  /** The round trips of `buy_order`. */
  function BuyStep(v: Variant, s: State, id: OrderId, buyer: UserId, at: At, now: int): (r: (State, At))
    requires BuyPosition(at)
    ensures Consistent(Proc(Buy(id, buyer), r.1)) && Rank(r.1) < Rank(at)
  {
    if at.Start? then
      if id !in s.orders then (s, Done(Fail(404, "Order not found")))
      else if s.orders[id].status != Active then (s, Done(Fail(400, "Order not active")))
      else if s.orders[id].sellerId == buyer then (s, Done(Fail(400, "Cannot buy your own order")))
      else (s, BuyBalance(s.orders[id].price))
    else if at.BuyBalance? then
      if Balance(s.ledger, buyer) < at.price then (s, Done(Fail(400, "Insufficient balance")))
      else if v == AsWritten then (s, BuyHold(at.price))
      else (AppendEntry(s, HoldEntry(buyer, id, at.price)), BuyClaim(at.price))
    else if at.BuyHold? then
      (AppendEntry(s, HoldEntry(buyer, id, at.price)), BuyClaim(at.price))
    else if at.BuyClaim? then
      if id in s.orders && s.orders[id].status == Active then
        var won := s.orders[id].(status := Escrow, buyerId := Some(buyer), escrowUntil := Some(now + EscrowSeconds));
        (s.(orders := s.orders[id := won]), Done(Ok(EscrowStarted)))
      else (s, BuyRefund(at.price))
    else
      (AppendEntry(s, RefundEntry(buyer, id, at.price)), Done(Fail(400, "Order already taken")))
  }

  predicate ConfirmPosition(at: At)
  {
    at.Start? || at.ConfirmRelease? || at.ConfirmComplete? || at.ConfirmPay?
  }

  /** The round trips of `confirm_order`. */
  function ConfirmStep(v: Variant, s: State, id: OrderId, caller: UserId, at: At, now: int): (r: (State, At))
    requires ConfirmPosition(at)
    ensures Consistent(Proc(Confirm(id, caller), r.1)) && Rank(r.1) < Rank(at)
  {
    if at.Start? then
      if id !in s.orders then (s, Done(Fail(404, "Order not found")))
      else
        var o := s.orders[id];
        if o.status != Escrow then (s, Done(Fail(400, "Order not in escrow")))
        else if o.sellerId != caller then (s, Done(Fail(403, "Only seller can confirm")))
        else if v == AsWritten then (s, ConfirmRelease(o.sellerId, o.price))
        else (s, ConfirmComplete(o.sellerId, o.price))
    else if at.ConfirmRelease? then
      (AppendEntry(s, ReleaseEntry(at.seller, id, at.price)), ConfirmComplete(at.seller, at.price))
    else if at.ConfirmComplete? then
      if id in s.orders && s.orders[id].status == Escrow then
        var done := s.orders[id].(status := Completed, completedAt := Some(now));
        var s' := s.(orders := s.orders[id := done]);
        if v == AsWritten then (s', Done(Ok(OrderCompleted))) else (s', ConfirmPay(at.seller, at.price))
      else if v == AsWritten then (s, Done(Fail(500, "Failed to complete order")))
      else (s, Done(Fail(400, "Order not in escrow")))
    else
      (AppendEntry(s, ReleaseEntry(at.seller, id, at.price)), Done(Ok(OrderCompleted)))
  }

  /** The round trips of `cancel_order`. */
  function CancelStep(s: State, id: OrderId, caller: UserId, at: At): (r: (State, At))
    requires at.Start? || at.CancelUpdate?
    ensures Consistent(Proc(Cancel(id, caller), r.1)) && Rank(r.1) < Rank(at)
  {
    if at.CancelUpdate? then
      if id in s.orders && s.orders[id].status == Active then
        (s.(orders := s.orders[id := s.orders[id].(status := Cancelled)]), Done(Ok(OrderCancelled)))
      else (s, Done(Fail(500, "Failed to cancel")))
    else if id !in s.orders then (s, Done(Fail(404, "Order not found")))
    else if s.orders[id].sellerId != caller then (s, Done(Fail(403, "Only seller can cancel")))
    else if s.orders[id].status != Active then (s, Done(Fail(400, "Only active orders can be cancelled")))
    else (s, CancelUpdate)
  }

  /** One round trip of a handler; a finished handler makes none. */
  function Step(v: Variant, s: State, p: Proc, now: int): (r: (State, Proc))
    requires Consistent(p)
    ensures Consistent(r.1) && r.1.req == p.req
    ensures p.at.Done? ==> r == (s, p)
    ensures !p.at.Done? ==> Rank(r.1.at) < Rank(p.at)
  {
    if p.at.Done? then (s, p)
    else
      var next := match p.req
        case Create(seller, channel, price) => CreateStep(v, s, seller, channel, price, p.at)
        case Buy(id, buyer) => BuyStep(v, s, id, buyer, p.at, now)
        case Confirm(id, caller) => ConfirmStep(v, s, id, caller, p.at, now)
        case Cancel(id, caller) => CancelStep(s, id, caller, p.at);
      (next.0, Proc(p.req, next.1))
  }

  /** A handler run to its response with no other handler interleaved. */
  function Run(v: Variant, s: State, p: Proc, now: int): (r: (State, Proc))
    requires Consistent(p)
    ensures r.1.at.Done? && r.1.req == p.req
    decreases Rank(p.at)
  {
    if p.at.Done? then (s, p)
    else
      var next := Step(v, s, p, now);
      Run(v, next.0, next.1, now)
  }

  /** Running a handler that has not finished is making its next round trip and running on. */
  lemma RunStep(v: Variant, s: State, p: Proc, now: int)
    requires Consistent(p) && !p.at.Done?
    ensures Run(v, s, p, now) == Run(v, Step(v, s, p, now).0, Step(v, s, p, now).1, now)
  {
  }

  /** Serve one request on its own: the tables afterwards and the response. */
  function Serve(v: Variant, s: State, req: Request, now: int): (State, Response)
  {
    var r := Run(v, s, Proc(req, Start), now);
    (r.0, r.1.at.response)
  }

  /** Order ids are handed out fresh: every existing order's id is below the next one. */
  predicate FreshIds(s: State)
  {
    forall id :: id in s.orders ==> id < s.nextOrderId
  }

  /** At most one `active` order per channel. */
  predicate OneActivePerChannel(orders: map<OrderId, Order>)
  {
    forall a, b :: a in orders && b in orders && a != b && orders[a].status == Active && orders[b].status == Active
      ==> orders[a].channel != orders[b].channel
  }

  /** `create_order` on its own: a malformed request (422) or an already listed channel (400)
      changes nothing; otherwise exactly one order is added, active, owned by the caller,
      and the ledger is untouched. */
  lemma CreateServed(v: Variant, s: State, seller: UserId, channel: string, price: real, now: int)
    requires FreshIds(s)
    ensures var (s', resp) := Serve(v, s, Create(seller, channel, price), now);
      && (!ValidListing(channel, price) ==> resp == Fail(422, "Unprocessable Entity") && s' == s)
      && (ValidListing(channel, price) && ActiveListing(s.orders, channel) ==>
            resp == Fail(400, "Channel already listed") && s' == s)
      && (ValidListing(channel, price) && !ActiveListing(s.orders, channel) ==>
            var id := s.nextOrderId;
            && resp == Ok(OrderCreated(id))
            && id !in s.orders
            && s'.orders == s.orders[id := Order(id, seller, None, channel, price, Active, None, None)]
            && s'.orders.Keys == s.orders.Keys + {id}
            && s'.ledger == s.ledger && s'.users == s.users && s'.deposits == s.deposits
            && FreshIds(s'))
  {
    var p0 := Proc(Create(seller, channel, price), Start);
    RunStep(v, s, p0, now);
    var r1 := Step(v, s, p0, now);
    if r1.1.at.CreateInsert? {
      RunStep(v, r1.0, r1.1, now);
    }
  }

  /** Served on its own, creating never breaks "one active order per channel". */
  lemma CreateKeepsListingsUnique(v: Variant, s: State, seller: UserId, channel: string, price: real, now: int)
    requires FreshIds(s) && OneActivePerChannel(s.orders)
    ensures OneActivePerChannel(Serve(v, s, Create(seller, channel, price), now).0.orders)
  {
    CreateServed(v, s, seller, channel, price, now);
  }

  /** `buy_order` rejections: a missing order (404), an order not active (400), the caller's
      own order (400) and a balance below the price (400) each leave every table unchanged. */
  lemma BuyRejected(v: Variant, s: State, id: OrderId, buyer: UserId, now: int)
    ensures var (s', resp) := Serve(v, s, Buy(id, buyer), now);
      && (id !in s.orders ==> resp == Fail(404, "Order not found") && s' == s)
      && (id in s.orders && s.orders[id].status != Active ==> resp == Fail(400, "Order not active") && s' == s)
      && (id in s.orders && s.orders[id].status == Active && s.orders[id].sellerId == buyer ==>
            resp == Fail(400, "Cannot buy your own order") && s' == s)
      && (id in s.orders && s.orders[id].status == Active && s.orders[id].sellerId != buyer
          && Balance(s.ledger, buyer) < s.orders[id].price ==>
            resp == Fail(400, "Insufficient balance") && s' == s)
  {
    var p0 := Proc(Buy(id, buyer), Start);
    RunStep(v, s, p0, now);
    var r1 := Step(v, s, p0, now);
    if r1.1.at.BuyBalance? {
      RunStep(v, r1.0, r1.1, now);
    }
  }

  /** `buy_order` succeeding on its own: exactly one hold of minus the price, tagged with the
      order, and the order moves to escrow with the caller as buyer and a 90-minute deadline;
      the buyer's balance drops by exactly the price. */
  lemma BuySucceeds(v: Variant, s: State, id: OrderId, buyer: UserId, now: int)
    requires id in s.orders && s.orders[id].status == Active && s.orders[id].sellerId != buyer
    requires Balance(s.ledger, buyer) >= s.orders[id].price
    ensures var (s', resp) := Serve(v, s, Buy(id, buyer), now);
      var o := s.orders[id];
      && resp == Ok(EscrowStarted)
      && s'.ledger == s.ledger + [Entry(buyer, Some(id), -o.price, Hold)]
      && s'.orders == s.orders[id := o.(status := Escrow, buyerId := Some(buyer), escrowUntil := Some(now + 5400))]
      && Balance(s'.ledger, buyer) == Balance(s.ledger, buyer) - o.price
      && s'.users == s.users && s'.deposits == s.deposits && s'.nextOrderId == s.nextOrderId
  {
    var o := s.orders[id];
    var p0 := Proc(Buy(id, buyer), Start);
    RunStep(v, s, p0, now);
    var r1 := Step(v, s, p0, now);
    assert r1 == (s, Proc(Buy(id, buyer), BuyBalance(o.price)));
    RunStep(v, r1.0, r1.1, now);
    var r2 := Step(v, r1.0, r1.1, now);
    var r3 := r2;
    if v == AsWritten {
      RunStep(v, r2.0, r2.1, now);
      r3 := Step(v, r2.0, r2.1, now);
    }
    assert r3 == (AppendEntry(s, HoldEntry(buyer, id, o.price)), Proc(Buy(id, buyer), BuyClaim(o.price)));
    RunStep(v, r3.0, r3.1, now);
    BalanceAppend(s.ledger, HoldEntry(buyer, id, o.price), buyer);
  }

  /** `confirm_order` on its own: the status is checked before ownership (400 before 403);
      a confirmed order becomes completed and the seller gets exactly one release of the price;
      no other table changes. */
  lemma ConfirmServed(v: Variant, s: State, id: OrderId, caller: UserId, now: int)
    ensures var (s', resp) := Serve(v, s, Confirm(id, caller), now);
      && (id !in s.orders ==> resp == Fail(404, "Order not found") && s' == s)
      && (id in s.orders && s.orders[id].status != Escrow ==> resp == Fail(400, "Order not in escrow") && s' == s)
      && (id in s.orders && s.orders[id].status == Escrow && s.orders[id].sellerId != caller ==>
            resp == Fail(403, "Only seller can confirm") && s' == s)
      && (id in s.orders && s.orders[id].status == Escrow && s.orders[id].sellerId == caller ==>
            var o := s.orders[id];
            && resp == Ok(OrderCompleted)
            && s'.ledger == s.ledger + [Entry(caller, Some(id), o.price, Release)]
            && s'.orders == s.orders[id := o.(status := Completed, completedAt := Some(now))]
            && s'.users == s.users && s'.deposits == s.deposits && s'.nextOrderId == s.nextOrderId
            && Balance(s'.ledger, caller) == Balance(s.ledger, caller) + o.price)
  {
    var p0 := Proc(Confirm(id, caller), Start);
    RunStep(v, s, p0, now);
    var r1 := Step(v, s, p0, now);
    if id in s.orders && s.orders[id].status == Escrow && s.orders[id].sellerId == caller {
      var o := s.orders[id];
      RunStep(v, r1.0, r1.1, now);
      var r2 := Step(v, r1.0, r1.1, now);
      RunStep(v, r2.0, r2.1, now);
      BalanceAppend(s.ledger, ReleaseEntry(caller, id, o.price), caller);
    }
  }

  /** `cancel_order` on its own: ownership is checked before status (403 before 400); only an
      active order is cancelled, and cancelling writes no ledger entry and touches no other table. */
  lemma CancelServed(v: Variant, s: State, id: OrderId, caller: UserId, now: int)
    ensures var (s', resp) := Serve(v, s, Cancel(id, caller), now);
      && (id !in s.orders ==> resp == Fail(404, "Order not found") && s' == s)
      && (id in s.orders && s.orders[id].sellerId != caller ==> resp == Fail(403, "Only seller can cancel") && s' == s)
      && (id in s.orders && s.orders[id].sellerId == caller && s.orders[id].status != Active ==>
            resp == Fail(400, "Only active orders can be cancelled") && s' == s)
      && (id in s.orders && s.orders[id].sellerId == caller && s.orders[id].status == Active ==>
            && resp == Ok(OrderCancelled)
            && s'.orders == s.orders[id := s.orders[id].(status := Cancelled)]
            && s'.ledger == s.ledger
            && s'.users == s.users && s'.deposits == s.deposits && s'.nextOrderId == s.nextOrderId)
  {
    var p0 := Proc(Cancel(id, caller), Start);
    RunStep(v, s, p0, now);
    var r1 := Step(v, s, p0, now);
    if r1.1.at.CancelUpdate? {
      RunStep(v, r1.0, r1.1, now);
    }
  }

  /** The lost race of `buy_order`: once the hold is in and the order is no longer active, the
      guarded update matches nothing, the handler appends a refund of exactly the price it
      held, leaves the orders untouched and answers 400 "Order already taken". */
  lemma BuyLosesRace(v: Variant, s: State, id: OrderId, buyer: UserId, price: real, now: int, later: int)
    requires !(id in s.orders && s.orders[id].status == Active)
    ensures var (s1, p1) := Step(v, s, Proc(Buy(id, buyer), BuyClaim(price)), now);
      && s1 == s && p1.at == BuyRefund(price)
      && var (s2, p2) := Step(v, s1, p1, later);
         && s2.ledger == s.ledger + [Entry(buyer, Some(id), price, Refund)]
         && s2.orders == s.orders
         && p2.at == Done(Fail(400, "Order already taken"))
  {
  }

  /** A hold and its compensating refund cancel out whatever was appended around and between
      them: the loser of a race ends with the balance it would have had without buying. */
  lemma HoldRefundCancel(a: seq<Entry>, b: seq<Entry>, c: seq<Entry>, buyer: UserId, id: OrderId, price: real, u: UserId)
    ensures Balance(a + [HoldEntry(buyer, id, price)] + b + [RefundEntry(buyer, id, price)] + c, u)
         == Balance(a + b + c, u)
  {
    var h := [HoldEntry(buyer, id, price)];
    var f := [RefundEntry(buyer, id, price)];
    BalanceConcat(a + h + b + f, c, u);
    BalanceConcat(a + h + b, f, u);
    BalanceConcat(a + h, b, u);
    BalanceConcat(a, h, u);
    BalanceConcat(a + b, c, u);
    BalanceConcat(a, b, u);
    BalanceAppend([], h[0], u);
    BalanceAppend([], f[0], u);
    assert [] + h == h;
    assert [] + f == f;
  }

  /** As written, a completion that loses its race keeps the release already appended: the
      step answers 500 and leaves every table, the ledger included, as it was. */
  lemma ConfirmCompletionMissed(s: State, id: OrderId, caller: UserId, seller: UserId, price: real, now: int)
    requires !(id in s.orders && s.orders[id].status == Escrow)
    ensures Step(AsWritten, s, Proc(Confirm(id, caller), ConfirmComplete(seller, price)), now)
         == (s, Proc(Confirm(id, caller), Done(Fail(500, "Failed to complete order"))))
  {
  }
}
