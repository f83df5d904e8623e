/** The two selections the matching pass starts from: the idle bots and the pending orders. */
module Selection {
  import opened Wrappers
  import opened Records

  /** A bot is free when it is not busy and holds no order. */
  predicate IsIdle(b: Bot)
  {
    !b.busy && b.currentOrderId.None?
  }

  /** The idle bots, in pool order. */
  function IdleBots(bots: seq<Bot>): (r: seq<Bot>)
    ensures |r| <= |bots|
    ensures forall b :: b in r <==> b in bots && IsIdle(b)
  {
    if bots == [] then []
    else if IsIdle(bots[0]) then [bots[0]] + IdleBots(bots[1..])
    else IdleBots(bots[1..])
  }

  /** The orders waiting for a bot, in list (arrival) order. */
  function PendingOrders(orders: seq<Order>): (r: seq<Order>)
    ensures |r| <= |orders|
    ensures forall o :: o in r <==> o in orders && o.status == Pending
  {
    if orders == [] then []
    else if orders[0].status == Pending then [orders[0]] + PendingOrders(orders[1..])
    else PendingOrders(orders[1..])
  }

  /** The selection keeps pool order: on a pool with ascending ids, the idle bots come out with ascending ids. */
  lemma {:induction false} IdleBotsInPoolOrder(bots: seq<Bot>)
    requires BotIdsAscending(bots)
    ensures BotIdsAscending(IdleBots(bots))
  {
    if bots != [] {
      IdleBotsInPoolOrder(bots[1..]);
      var rest := IdleBots(bots[1..]);
      forall j | 0 <= j < |rest| ensures bots[0].id < rest[j].id {
        assert rest[j] in bots[1..];
      }
    }
  }

  /** The selection keeps arrival order. */
  lemma {:induction false} PendingOrdersInArrivalOrder(orders: seq<Order>)
    requires OrderIdsAscending(orders)
    ensures OrderIdsAscending(PendingOrders(orders))
  {
    if orders != [] {
      PendingOrdersInArrivalOrder(orders[1..]);
      var rest := PendingOrders(orders[1..]);
      forall j | 0 <= j < |rest| ensures orders[0].id < rest[j].id {
        assert rest[j] in orders[1..];
      }
    }
  }
}
