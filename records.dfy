/**
 * The records the engine keeps: orders, bots, armed timers, and the
 * per-record updates the engine applies with object spread.
 *
 * Ids start at 1 (the counters in App.jsx start at 1), so the source's
 * truthiness tests on `currentOrderId` coincide with the `Some?` tests here.
 */
module Records {
  import opened Wrappers

  /** Service time of one assignment, in milliseconds. */
  const ProcessTime: nat := 5000

  datatype OrderType = Normal | Vip

  datatype Status = Pending | Processing | Complete

  /** `kind` is the source's `type` field (a keyword in Dafny). */
  datatype Order = Order(
    id: nat,
    kind: OrderType,
    status: Status,
    assignedBotId: Option<nat>,
    startedAt: Option<nat>,
    duration: Option<nat>,
    completedAt: Option<nat>)

  datatype Bot = Bot(id: nat, busy: bool, currentOrderId: Option<nat>)

  /** A completion callback armed for one bot: the order it completes and the time it is due. */
  datatype Timer = Timer(orderId: nat, due: nat)

  /** The shared state of the floor: the order list, the bot pool and the timer registry (keyed by bot id). */
  datatype Floor = Floor(orders: seq<Order>, bots: seq<Bot>, timers: map<nat, Timer>)

  function NewOrder(id: nat, kind: OrderType): Order
  {
    Order(id, kind, Pending, None, None, None, None)
  }

  function NewBot(id: nat): Bot
  {
    Bot(id, false, None)
  }

  // ---- single-record updates ----

  function Started(o: Order, botId: nat, now: nat): Order
  {
    o.(status := Processing, assignedBotId := Some(botId), startedAt := Some(now), duration := Some(ProcessTime))
  }

  function Finished(o: Order, now: nat): Order
  {
    o.(status := Complete, completedAt := Some(now))
  }

  function Released(o: Order): Order
  {
    o.(status := Pending, assignedBotId := None)
  }

  function Occupied(b: Bot, orderId: nat): Bot
  {
    b.(busy := true, currentOrderId := Some(orderId))
  }

  function Freed(b: Bot): Bot
  {
    b.(busy := false, currentOrderId := None)
  }

  // ---- the `list.map(x => x.id === id ? {...x, ...} : x)` updates ----

  function StartOrder(orders: seq<Order>, orderId: nat, botId: nat, now: nat): seq<Order>
  {
    seq(|orders|, k requires 0 <= k < |orders| =>
      if orders[k].id == orderId then Started(orders[k], botId, now) else orders[k])
  }

  function FinishOrder(orders: seq<Order>, orderId: nat, now: nat): seq<Order>
  {
    seq(|orders|, k requires 0 <= k < |orders| =>
      if orders[k].id == orderId then Finished(orders[k], now) else orders[k])
  }

  function ReleaseOrder(orders: seq<Order>, orderId: nat): seq<Order>
  {
    seq(|orders|, k requires 0 <= k < |orders| =>
      if orders[k].id == orderId then Released(orders[k]) else orders[k])
  }

  function OccupyBot(bots: seq<Bot>, botId: nat, orderId: nat): seq<Bot>
  {
    seq(|bots|, k requires 0 <= k < |bots| =>
      if bots[k].id == botId then Occupied(bots[k], orderId) else bots[k])
  }

  function FreeBot(bots: seq<Bot>, botId: nat): seq<Bot>
  {
    seq(|bots|, k requires 0 <= k < |bots| =>
      if bots[k].id == botId then Freed(bots[k]) else bots[k])
  }

  // ---- id orderings of the two lists ----

  /** Strictly ascending ids: how the counters leave a list that is only appended to or cut at its end. */
  predicate OrderIdsAscending(orders: seq<Order>)
  {
    forall i, j :: 0 <= i < j < |orders| ==> orders[i].id < orders[j].id
  }

  predicate BotIdsAscending(bots: seq<Bot>)
  {
    forall i, j :: 0 <= i < j < |bots| ==> bots[i].id < bots[j].id
  }
}
