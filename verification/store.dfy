/** The tables the handlers read and write, held as one immutable value. Each storage
    round trip of a handler is a function from one such value to the next. */
module Store {

  import opened Common
  import opened Ledger
  import opened JsonValue

  /** A row of `users`: internal id, Telegram identity and profile fields. */
  datatype User = User(id: UserId, telegramId: int, username: Option<string>, firstName: Option<string>)

  /** The status column of `orders`. */
  datatype Status = Active | Escrow | Completed | Cancelled

  /** A row of `orders`. Times are seconds since the epoch. */
  datatype Order = Order(
    id: OrderId,
    sellerId: UserId,
    buyerId: Option<UserId>,
    channel: string,
    price: real,
    status: Status,
    escrowUntil: Option<int>,
    completedAt: Option<int>)

  /** A row of `deposits`: the transaction hash as received, the payer's Telegram id and the amount. */
  datatype DepositRecord = DepositRecord(txHash: Json, telegramId: int, amount: real)

  /** All tables. Order ids below `nextOrderId` have been handed out. */
  datatype State = State(
    users: seq<User>,
    orders: map<OrderId, Order>,
    nextOrderId: OrderId,
    ledger: seq<Entry>,
    deposits: seq<DepositRecord>)

  /** `select * from users where telegram_id = t`, first row. */
  function FindUser(users: seq<User>, t: int): (r: Option<User>)
    ensures r.Some? ==> r.value in users && r.value.telegramId == t
    ensures r.None? <==> forall i :: 0 <= i < |users| ==> users[i].telegramId != t
    decreases |users|
  {
    if |users| == 0 then None
    else if users[0].telegramId == t then Some(users[0])
    else
      var r := FindUser(users[1..], t);
      assert forall i :: 1 <= i < |users| ==> users[i] == users[1..][i - 1];
      r
  }

  /** A lookup only sees the first row with the identity: rows appended later are invisible. */
  lemma {:induction false} FindUserAppend(users: seq<User>, extra: User, t: int)
    requires FindUser(users, t).Some?
    ensures FindUser(users + [extra], t) == FindUser(users, t)
    decreases |users|
  {
    if users[0].telegramId != t {
      FindUserAppend(users[1..], extra, t);
      assert (users + [extra])[1..] == users[1..] + [extra];
    }
  }

  /** Insert one ledger row. */
  function AppendEntry(s: State, e: Entry): (r: State)
    ensures r.ledger == s.ledger + [e]
    ensures r.users == s.users && r.orders == s.orders && r.nextOrderId == s.nextOrderId
    ensures r.deposits == s.deposits
  {
    s.(ledger := s.ledger + [e])
  }

  /** Whether some order for this channel currently has status `active`. */
  predicate ActiveListing(orders: map<OrderId, Order>, channel: string)
  {
    exists id :: id in orders && orders[id].channel == channel && orders[id].status == Active
  }
}
