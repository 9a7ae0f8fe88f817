/** Concrete interleavings. The lost race is how the handlers are meant to behave when two
    buyers want the same order. The other three are the as-written handlers going wrong
    under a schedule the server allows: each is the witness for one finding, beside the
    same schedule run by the corrected handlers where that makes the contrast plain. */
module Scenarios {

  import opened Common
  import opened Ledger
  import opened Store
  import opened Orders
  import opened Races

  const Seller: UserId := 1
  const Alice: UserId := 2
  const Bob: UserId := 3
  const Now: int := 1000

  function Credit(u: UserId, amount: real): Entry
  {
    Entry(u, None, amount, Deposit)
  }

  function Listed(id: OrderId, channel: string, price: real): Order
  {
    Order(id, Seller, None, channel, price, Active, None, None)
  }

  /** Handler `i` makes its round trip at `Now`. */
  function T(i: nat): Tick
  {
    Tick(i, Now)
  }

  // ---------------------------------------------------------------------------------
  // Two buyers, one order: the loser's hold is refunded

  function LostRaceStart(): System
  {
    System(
      State([], map[0 := Listed(0, "@news", 10.0)], 1, [Credit(Alice, 15.0), Credit(Bob, 15.0)], []),
      [Proc(Buy(0, Alice), Start), Proc(Buy(0, Bob), Start)])
  }

  /** The ledger once both holds are placed and Bob's is refunded. */
  function LostRaceLedger(): seq<Entry>
  {
    [Credit(Alice, 15.0), Credit(Bob, 15.0), HoldEntry(Alice, 0, 10.0), HoldEntry(Bob, 0, 10.0),
     RefundEntry(Bob, 0, 10.0)]
  }

  /** Alice's handler makes a round trip, then Bob's. */
  function Round(now: int): seq<Tick>
  {
    [Tick(0, now)] + [Tick(1, now)]
  }

  /** The buyers take turns: each reads the order, then the ledger. */
  function FirstRounds(now: int): seq<Tick>
  {
    Round(now) + Round(now)
  }

  /** Each places a hold and tries to claim; the loser then makes one more round trip. */
  function LastRounds(now: int): seq<Tick>
  {
    Round(now) + Round(now) + [Tick(1, now)]
  }

  /** Both buyers have read the order and their balances and are about to place holds. */
  function LostRaceMid(): System
  {
    System(LostRaceStart().state, [Proc(Buy(0, Alice), BuyHold(10.0)), Proc(Buy(0, Bob), BuyHold(10.0))])
  }

  function LostRaceEnd(now: int): System
  {
    var won := Listed(0, "@news", 10.0).(status := Escrow, buyerId := Some(Alice), escrowUntil := Some(now + EscrowSeconds));
    System(LostRaceStart().state.(ledger := LostRaceLedger(), orders := map[0 := won]),
           [Proc(Buy(0, Alice), Done(Ok(EscrowStarted))), Proc(Buy(0, Bob), Done(Fail(400, "Order already taken")))])
  }

  /** Both buyers pass every check and both place a hold; Alice's claim lands first, Bob's
      guarded claim misses, and his hold is returned. Bob ends with his deposit intact. The
      outcome is the same whatever the clock reads. */
  lemma LostRace(now: int)
    ensures var r := Execute(AsWritten, LostRaceStart(), FirstRounds(now) + LastRounds(now));
      && r.procs[0].at == Done(Ok(EscrowStarted))
      && r.procs[1].at == Done(Fail(400, "Order already taken"))
      && 0 in r.state.orders && r.state.orders[0].status == Escrow && r.state.orders[0].buyerId == Some(Alice)
      && Balance(r.state.ledger, Alice) == 5.0
      && Balance(r.state.ledger, Bob) == 15.0
  {
    LostRaceOpening(now);
    LostRaceClosing(now);
    ExecuteConcat(AsWritten, LostRaceStart(), FirstRounds(now), LastRounds(now));
    LostRaceOutcome(now);
  }

  lemma LostRaceOutcome(now: int)
    ensures var r := LostRaceEnd(now);
      && r.procs[0].at == Done(Ok(EscrowStarted))
      && r.procs[1].at == Done(Fail(400, "Order already taken"))
      && 0 in r.state.orders && r.state.orders[0].status == Escrow && r.state.orders[0].buyerId == Some(Alice)
      && Balance(r.state.ledger, Alice) == 5.0
      && Balance(r.state.ledger, Bob) == 15.0
  {
    LostRaceBalances();
  }

  /** Both buyers have read the order and go on to read their balances. */
  function LostRaceRead(): System
  {
    System(LostRaceStart().state, [Proc(Buy(0, Alice), BuyBalance(10.0)), Proc(Buy(0, Bob), BuyBalance(10.0))])
  }

  /** Both holds are in; both buyers go on to claim the order. */
  function LostRaceHeld(): System
  {
    var l := LostRaceStart().state.ledger + [HoldEntry(Alice, 0, 10.0)] + [HoldEntry(Bob, 0, 10.0)];
    System(LostRaceStart().state.(ledger := l), [Proc(Buy(0, Alice), BuyClaim(10.0)), Proc(Buy(0, Bob), BuyClaim(10.0))])
  }

  /** Alice's claim landed; Bob's missed and he goes on to refund his hold. */
  function LostRaceClaimed(now: int): System
  {
    var won := Listed(0, "@news", 10.0).(status := Escrow, buyerId := Some(Alice), escrowUntil := Some(now + EscrowSeconds));
    System(LostRaceHeld().state.(orders := map[0 := won]),
           [Proc(Buy(0, Alice), Done(Ok(EscrowStarted))), Proc(Buy(0, Bob), BuyRefund(10.0))])
  }

  lemma LostRaceOpening(now: int)
    ensures Execute(AsWritten, LostRaceStart(), FirstRounds(now)) == LostRaceMid()
  {
    ExecuteConcat(AsWritten, LostRaceStart(), Round(now), Round(now));
    LostRaceReads(now);
    LostRaceChecks(now);
  }

  lemma LostRaceReads(now: int)
    ensures Execute(AsWritten, LostRaceStart(), Round(now)) == LostRaceRead()
  {
    ExecutePair(AsWritten, LostRaceStart(), Tick(0, now), Tick(1, now));
  }

  lemma LostRaceChecks(now: int)
    ensures Execute(AsWritten, LostRaceRead(), Round(now)) == LostRaceMid()
  {
    ExecutePair(AsWritten, LostRaceRead(), Tick(0, now), Tick(1, now));
    StartBalances();
  }

  lemma StartBalances()
    ensures Balance(LostRaceStart().state.ledger, Alice) == 15.0
    ensures Balance(LostRaceStart().state.ledger, Bob) == 15.0
  {
    BalanceAppend([Credit(Alice, 15.0)], Credit(Bob, 15.0), Alice);
    BalanceAppend([Credit(Alice, 15.0)], Credit(Bob, 15.0), Bob);
    BalanceAppend([], Credit(Alice, 15.0), Alice);
    BalanceAppend([], Credit(Alice, 15.0), Bob);
    assert [] + [Credit(Alice, 15.0)] == [Credit(Alice, 15.0)];
    assert [Credit(Alice, 15.0)] + [Credit(Bob, 15.0)] == LostRaceStart().state.ledger;
  }

  lemma LostRaceClosing(now: int)
    ensures Execute(AsWritten, LostRaceMid(), LastRounds(now)) == LostRaceEnd(now)
  {
    var v := AsWritten;
    ExecuteConcat(v, LostRaceMid(), Round(now) + Round(now), [Tick(1, now)]);
    ExecuteConcat(v, LostRaceMid(), Round(now), Round(now));
    LostRaceHolds(now);
    LostRaceClaims(now);
    LostRaceRefund(now);
  }

  lemma LostRaceHolds(now: int)
    ensures Execute(AsWritten, LostRaceMid(), Round(now)) == LostRaceHeld()
  {
    ExecutePair(AsWritten, LostRaceMid(), Tick(0, now), Tick(1, now));
  }

  lemma LostRaceClaims(now: int)
    ensures Execute(AsWritten, LostRaceHeld(), Round(now)) == LostRaceClaimed(now)
  {
    ExecutePair(AsWritten, LostRaceHeld(), Tick(0, now), Tick(1, now));
  }

  lemma LostRaceRefund(now: int)
    ensures Execute(AsWritten, LostRaceClaimed(now), [Tick(1, now)]) == LostRaceEnd(now)
  {
    ExecuteOne(AsWritten, LostRaceClaimed(now), Tick(1, now));
    assert LostRaceHeld().state.ledger + [RefundEntry(Bob, 0, 10.0)] == LostRaceLedger();
  }

  /** Alice paid 10 of her 15; Bob's hold and refund cancel out. */
  lemma LostRaceBalances()
    ensures Balance(LostRaceLedger(), Alice) == 5.0 && Balance(LostRaceLedger(), Bob) == 15.0
  {
    var l0 := [Credit(Alice, 15.0), Credit(Bob, 15.0)];
    var l1 := l0 + [HoldEntry(Alice, 0, 10.0)];
    var l2 := l1 + [HoldEntry(Bob, 0, 10.0)];
    var l3 := l2 + [RefundEntry(Bob, 0, 10.0)];
    assert l3 == LostRaceLedger();
    BalanceAppend([Credit(Alice, 15.0)], Credit(Bob, 15.0), Alice);
    BalanceAppend([Credit(Alice, 15.0)], Credit(Bob, 15.0), Bob);
    BalanceAppend([], Credit(Alice, 15.0), Alice);
    BalanceAppend([], Credit(Alice, 15.0), Bob);
    assert [] + [Credit(Alice, 15.0)] == [Credit(Alice, 15.0)];
    assert [Credit(Alice, 15.0)] + [Credit(Bob, 15.0)] == l0;
    HoldRefundCancel(l1, [], [], Bob, 0, 10.0, Bob);
    assert l3 == l1 + [HoldEntry(Bob, 0, 10.0)] + [] + [RefundEntry(Bob, 0, 10.0)] + [];
    BalanceAppend(l0, HoldEntry(Alice, 0, 10.0), Bob);
    BalanceAppend(l0, HoldEntry(Alice, 0, 10.0), Alice);
    BalanceAppend(l1, HoldEntry(Bob, 0, 10.0), Alice);
    BalanceAppend(l2, RefundEntry(Bob, 0, 10.0), Alice);
  }

  // ---------------------------------------------------------------------------------
  // Finding: two confirms of one order both pay the seller

  function InEscrow(): Order
  {
    Order(0, Seller, Some(Alice), "@news", 10.0, Escrow, Some(Now), None)
  }

  function DoubleConfirmStart(): System
  {
    System(
      State([], map[0 := InEscrow()], 1, [Credit(Alice, 10.0), HoldEntry(Alice, 0, 10.0)], []),
      [Proc(Confirm(0, Seller), Start), Proc(Confirm(0, Seller), Start)])
  }

  /** The ledger of DoubleConfirmStart pays the seller nothing and has no release. */
  lemma DoubleConfirmLedger()
    ensures Balance(DoubleConfirmStart().state.ledger, Seller) == 0.0
    ensures CountTagged(DoubleConfirmStart().state.ledger, 0, Release) == 0
  {
    var l0 := DoubleConfirmStart().state.ledger;
    BalanceNoEntries(l0, Seller);
    assert l0 == [] + [Credit(Alice, 10.0)] + [HoldEntry(Alice, 0, 10.0)];
    CountTaggedAppend([], Credit(Alice, 10.0), 0, Release);
    CountTaggedAppend([Credit(Alice, 10.0)], HoldEntry(Alice, 0, 10.0), 0, Release);
  }

  /** As written, the seller confirms twice at once: both requests read the order in escrow,
      both insert a release, one completion lands and the other reports 500 without taking
      its release back. The seller is paid twice the price. */
  lemma TwoConfirmsReleaseTwice()
    ensures var r := Execute(AsWritten, DoubleConfirmStart(), [T(0), T(1), T(0), T(1), T(0), T(1)]);
      && r.procs[0].at == Done(Ok(OrderCompleted))
      && r.procs[1].at == Done(Fail(500, "Failed to complete order"))
      && 0 in r.state.orders && r.state.orders[0].status == Completed
      && CountTagged(r.state.ledger, 0, Release) == 2
      && Balance(r.state.ledger, Seller) == 20.0
  {
    var v := AsWritten;
    var c := Confirm(0, Seller);
    var x0 := DoubleConfirmStart();
    var l0 := x0.state.ledger;
    DoubleConfirmLedger();
    var rel := ReleaseEntry(Seller, 0, 10.0);
    var x1 := Advance(v, x0, T(0));
    assert x1 == System(x0.state, [Proc(c, ConfirmRelease(Seller, 10.0)), Proc(c, Start)]);
    var x2 := Advance(v, x1, T(1));
    assert x2 == System(x0.state, [Proc(c, ConfirmRelease(Seller, 10.0)), Proc(c, ConfirmRelease(Seller, 10.0))]);
    var l1 := l0 + [rel];
    var x3 := Advance(v, x2, T(0));
    assert x3 == System(x0.state.(ledger := l1), [Proc(c, ConfirmComplete(Seller, 10.0)), Proc(c, ConfirmRelease(Seller, 10.0))]);
    var l2 := l1 + [rel];
    var x4 := Advance(v, x3, T(1));
    assert x4 == System(x0.state.(ledger := l2), [Proc(c, ConfirmComplete(Seller, 10.0)), Proc(c, ConfirmComplete(Seller, 10.0))]);
    var st5 := x0.state.(ledger := l2, orders := map[0 := InEscrow().(status := Completed, completedAt := Some(Now))]);
    var x5 := Advance(v, x4, T(0));
    assert x5 == System(st5, [Proc(c, Done(Ok(OrderCompleted))), Proc(c, ConfirmComplete(Seller, 10.0))]);
    var x6 := Advance(v, x5, T(1));
    assert x6 == System(st5, [Proc(c, Done(Ok(OrderCompleted))), Proc(c, Done(Fail(500, "Failed to complete order")))]);

    assert Execute(v, x4, [T(0), T(1)]) == x6;
    assert Execute(v, x2, [T(0), T(1), T(0), T(1)]) == x6;

    CountTaggedAppend(l0, rel, 0, Release);
    CountTaggedAppend(l1, rel, 0, Release);
    BalanceAppend(l0, rel, Seller);
    BalanceAppend(l1, rel, Seller);
  }

  /** The same schedule, corrected: the second completion misses and inserts nothing. */
  lemma TwoConfirmsReleaseOnce()
    ensures var r := Execute(Corrected, DoubleConfirmStart(), [T(0), T(1), T(0), T(1), T(0), T(1)]);
      && r.procs[0].at == Done(Ok(OrderCompleted))
      && r.procs[1].at == Done(Fail(400, "Order not in escrow"))
      && CountTagged(r.state.ledger, 0, Release) == 1
      && Balance(r.state.ledger, Seller) == 10.0
  {
    var v := Corrected;
    var c := Confirm(0, Seller);
    var x0 := DoubleConfirmStart();
    var l0 := x0.state.ledger;
    DoubleConfirmLedger();
    var rel := ReleaseEntry(Seller, 0, 10.0);
    var x1 := Advance(v, x0, T(0));
    assert x1 == System(x0.state, [Proc(c, ConfirmComplete(Seller, 10.0)), Proc(c, Start)]);
    var x2 := Advance(v, x1, T(1));
    assert x2 == System(x0.state, [Proc(c, ConfirmComplete(Seller, 10.0)), Proc(c, ConfirmComplete(Seller, 10.0))]);
    var st3 := x0.state.(orders := map[0 := InEscrow().(status := Completed, completedAt := Some(Now))]);
    var x3 := Advance(v, x2, T(0));
    assert x3 == System(st3, [Proc(c, ConfirmPay(Seller, 10.0)), Proc(c, ConfirmComplete(Seller, 10.0))]);
    var x4 := Advance(v, x3, T(1));
    assert x4 == System(st3, [Proc(c, ConfirmPay(Seller, 10.0)), Proc(c, Done(Fail(400, "Order not in escrow")))]);
    var x5 := Advance(v, x4, T(0));
    assert x5 == System(st3.(ledger := l0 + [rel]), [Proc(c, Done(Ok(OrderCompleted))), Proc(c, Done(Fail(400, "Order not in escrow")))]);
    var x6 := Advance(v, x5, T(1));
    assert x6 == x5 by {
      assert x5.procs[1 := x5.procs[1]] == x5.procs;
    }

    assert Execute(v, x4, [T(0), T(1)]) == x6;
    assert Execute(v, x2, [T(0), T(1), T(0), T(1)]) == x6;

    CountTaggedAppend(l0, rel, 0, Release);
    BalanceAppend(l0, rel, Seller);
  }

  // ---------------------------------------------------------------------------------
  // Finding: two purchases by one buyer overdraw the balance

  function OverdraftStart(): System
  {
    System(
      State([], map[0 := Listed(0, "@news", 10.0), 1 := Listed(1, "@sport", 10.0)], 2, [Credit(Alice, 10.0)], []),
      [Proc(Buy(0, Alice), Start), Proc(Buy(1, Alice), Start)])
  }

  /** As written, Alice buys two orders at once with money for one: both balance checks
      read 10 before either hold lands, and both purchases succeed. */
  lemma TwoBuysOverdraw()
    ensures var r := Execute(AsWritten, OverdraftStart(), [T(0), T(1), T(0), T(1), T(0), T(1), T(0), T(1)]);
      && r.procs[0].at == Done(Ok(EscrowStarted))
      && r.procs[1].at == Done(Ok(EscrowStarted))
      && Balance(r.state.ledger, Alice) == -10.0
  {
    var v := AsWritten;
    var a, b := Buy(0, Alice), Buy(1, Alice);
    var x0 := OverdraftStart();
    var l0 := x0.state.ledger;
    BalanceAppend([], Credit(Alice, 10.0), Alice);
    assert [] + [Credit(Alice, 10.0)] == l0;
    var x1 := Advance(v, x0, T(0));
    assert x1 == System(x0.state, [Proc(a, BuyBalance(10.0)), Proc(b, Start)]);
    var x2 := Advance(v, x1, T(1));
    assert x2 == System(x0.state, [Proc(a, BuyBalance(10.0)), Proc(b, BuyBalance(10.0))]);
    var x3 := Advance(v, x2, T(0));
    assert x3 == System(x0.state, [Proc(a, BuyHold(10.0)), Proc(b, BuyBalance(10.0))]);
    var x4 := Advance(v, x3, T(1));
    assert x4 == System(x0.state, [Proc(a, BuyHold(10.0)), Proc(b, BuyHold(10.0))]);
    var l1 := l0 + [HoldEntry(Alice, 0, 10.0)];
    var x5 := Advance(v, x4, T(0));
    assert x5 == System(x0.state.(ledger := l1), [Proc(a, BuyClaim(10.0)), Proc(b, BuyHold(10.0))]);
    var l2 := l1 + [HoldEntry(Alice, 1, 10.0)];
    var x6 := Advance(v, x5, T(1));
    assert x6 == System(x0.state.(ledger := l2), [Proc(a, BuyClaim(10.0)), Proc(b, BuyClaim(10.0))]);
    var won0 := Listed(0, "@news", 10.0).(status := Escrow, buyerId := Some(Alice), escrowUntil := Some(Now + EscrowSeconds));
    var won1 := Listed(1, "@sport", 10.0).(status := Escrow, buyerId := Some(Alice), escrowUntil := Some(Now + EscrowSeconds));
    var x7 := Advance(v, x6, T(0));
    assert x7 == System(x0.state.(ledger := l2, orders := x0.state.orders[0 := won0]),
                        [Proc(a, Done(Ok(EscrowStarted))), Proc(b, BuyClaim(10.0))]);
    var x8 := Advance(v, x7, T(1));
    assert x8 == System(x0.state.(ledger := l2, orders := x0.state.orders[0 := won0][1 := won1]),
                        [Proc(a, Done(Ok(EscrowStarted))), Proc(b, Done(Ok(EscrowStarted)))]);

    assert Execute(v, x6, [T(0), T(1)]) == x8;
    assert Execute(v, x4, [T(0), T(1), T(0), T(1)]) == x8;
    assert Execute(v, x2, [T(0), T(1), T(0), T(1), T(0), T(1)]) == x8;

    BalanceAppend(l0, HoldEntry(Alice, 0, 10.0), Alice);
    BalanceAppend(l1, HoldEntry(Alice, 1, 10.0), Alice);
  }

  /** The same schedule, corrected: the first hold lands with its check, and the second
      check sees the money gone. */
  lemma TwoBuysRefused()
    ensures var r := Execute(Corrected, OverdraftStart(), [T(0), T(1), T(0), T(1), T(0), T(1), T(0), T(1)]);
      && r.procs[0].at == Done(Ok(EscrowStarted))
      && r.procs[1].at == Done(Fail(400, "Insufficient balance"))
      && Balance(r.state.ledger, Alice) == 0.0
  {
    var v := Corrected;
    var a, b := Buy(0, Alice), Buy(1, Alice);
    var x0 := OverdraftStart();
    var l0 := x0.state.ledger;
    BalanceAppend([], Credit(Alice, 10.0), Alice);
    assert [] + [Credit(Alice, 10.0)] == l0;
    var l1 := l0 + [HoldEntry(Alice, 0, 10.0)];
    BalanceAppend(l0, HoldEntry(Alice, 0, 10.0), Alice);
    var x1 := Advance(v, x0, T(0));
    assert x1 == System(x0.state, [Proc(a, BuyBalance(10.0)), Proc(b, Start)]);
    var x2 := Advance(v, x1, T(1));
    assert x2 == System(x0.state, [Proc(a, BuyBalance(10.0)), Proc(b, BuyBalance(10.0))]);
    var x3 := Advance(v, x2, T(0));
    assert x3 == System(x0.state.(ledger := l1), [Proc(a, BuyClaim(10.0)), Proc(b, BuyBalance(10.0))]);
    var x4 := Advance(v, x3, T(1));
    assert x4 == System(x0.state.(ledger := l1), [Proc(a, BuyClaim(10.0)), Proc(b, Done(Fail(400, "Insufficient balance")))]);
    var won0 := Listed(0, "@news", 10.0).(status := Escrow, buyerId := Some(Alice), escrowUntil := Some(Now + EscrowSeconds));
    var x5 := Advance(v, x4, T(0));
    assert x5 == System(x0.state.(ledger := l1, orders := x0.state.orders[0 := won0]),
                        [Proc(a, Done(Ok(EscrowStarted))), Proc(b, Done(Fail(400, "Insufficient balance")))]);
    assert x5.procs[0 := x5.procs[0]] == x5.procs && x5.procs[1 := x5.procs[1]] == x5.procs;
    assert Advance(v, x5, T(1)) == x5;
    assert Advance(v, x5, T(0)) == x5;

    assert Execute(v, x5, [T(1), T(0), T(1)]) == x5;
    assert Execute(v, x3, [T(1), T(0), T(1), T(0), T(1)]) == x5;
    assert Execute(v, x1, [T(1), T(0), T(1), T(0), T(1), T(0), T(1)]) == x5;
  }

  // ---------------------------------------------------------------------------------
  // Finding: two listings of one channel both go in

  function DoubleListingStart(): System
  {
    System(
      State([], map[], 0, [], []),
      [Proc(Create(Seller, "@news", 10.0), Start), Proc(Create(Bob, "@news", 12.0), Start)])
  }

  /** As written, two sellers list the same channel at once: both see no active listing
      before either inserts, and the channel ends up with two active orders. */
  lemma TwoListingsOfOneChannel()
    ensures var r := Execute(AsWritten, DoubleListingStart(), [T(0), T(1), T(0), T(1)]);
      && r.procs[0].at == Done(Ok(OrderCreated(0)))
      && r.procs[1].at == Done(Ok(OrderCreated(1)))
      && !OneActivePerChannel(r.state.orders)
  {
    var v := AsWritten;
    var a, b := Create(Seller, "@news", 10.0), Create(Bob, "@news", 12.0);
    var x0 := DoubleListingStart();
    var x1 := Advance(v, x0, T(0));
    assert x1 == System(x0.state, [Proc(a, CreateInsert), Proc(b, Start)]);
    var x2 := Advance(v, x1, T(1));
    assert x2 == System(x0.state, [Proc(a, CreateInsert), Proc(b, CreateInsert)]);
    var o0 := Listed(0, "@news", 10.0);
    var o1 := Order(1, Bob, None, "@news", 12.0, Active, None, None);
    var x3 := Advance(v, x2, T(0));
    assert x3 == System(x0.state.(orders := map[0 := o0], nextOrderId := 1), [Proc(a, Done(Ok(OrderCreated(0)))), Proc(b, CreateInsert)]);
    var x4 := Advance(v, x3, T(1));
    assert x4 == System(x0.state.(orders := map[0 := o0][1 := o1], nextOrderId := 2),
                        [Proc(a, Done(Ok(OrderCreated(0)))), Proc(b, Done(Ok(OrderCreated(1))))]);
    assert Execute(v, x2, [T(0), T(1)]) == x4;
    assert x4.state.orders[0].channel == x4.state.orders[1].channel;
  }

  /** The same schedule, corrected: the second create sees the first listing. */
  lemma SecondListingRefused()
    ensures var r := Execute(Corrected, DoubleListingStart(), [T(0), T(1), T(0), T(1)]);
      && r.procs[0].at == Done(Ok(OrderCreated(0)))
      && r.procs[1].at == Done(Fail(400, "Channel already listed"))
      && OneActivePerChannel(r.state.orders)
  {
    var v := Corrected;
    var a, b := Create(Seller, "@news", 10.0), Create(Bob, "@news", 12.0);
    var x0 := DoubleListingStart();
    var o0 := Listed(0, "@news", 10.0);
    var st := x0.state.(orders := map[0 := o0], nextOrderId := 1);
    var x1 := Advance(v, x0, T(0));
    assert x1 == System(st, [Proc(a, Done(Ok(OrderCreated(0)))), Proc(b, Start)]);
    assert ActiveListing(st.orders, "@news") by {
      assert st.orders[0].channel == "@news" && st.orders[0].status == Active;
    }
    var x2 := Advance(v, x1, T(1));
    assert x2 == System(st, [Proc(a, Done(Ok(OrderCreated(0)))), Proc(b, Done(Fail(400, "Channel already listed")))]);
    assert x2.procs[0 := x2.procs[0]] == x2.procs && x2.procs[1 := x2.procs[1]] == x2.procs;
    assert Advance(v, x2, T(0)) == x2;
    assert Advance(v, x2, T(1)) == x2;
    assert Execute(v, x2, [T(0), T(1)]) == x2;
  }
}
