/**
 * The invariant every engine step keeps: ids as the counters issue them, and the busy-bot /
 * processing-order / armed-timer cross-reference.
 */
module Consistency {
  import opened Wrappers
  import opened Records

  /** Orders are never deleted and ids are issued 1, 2, 3, ...: the order with id `n` sits at index `n - 1`. */
  predicate Numbered(orders: seq<Order>)
  {
    forall i :: 0 <= i < |orders| ==> orders[i].id == i + 1
  }

  /** The fields an order carries in each status. */
  predicate OrderWellFormed(o: Order, timers: map<nat, Timer>)
  {
    match o.status
    case Pending =>
      o.assignedBotId.None? && o.completedAt.None?
    case Processing =>
      && o.assignedBotId.Some? && o.startedAt.Some? && o.duration == Some(ProcessTime) && o.completedAt.None?
      && o.assignedBotId.value in timers
      && timers[o.assignedBotId.value] == Timer(o.id, o.startedAt.value + ProcessTime)
    case Complete =>
      && o.startedAt.Some? && o.duration == Some(ProcessTime) && o.completedAt.Some?
      && o.startedAt.value + o.duration.value <= o.completedAt.value
  }

  /** A bot is busy exactly when it holds an order, and that order is processing on it. */
  predicate BotWellFormed(b: Bot, orders: seq<Order>)
  {
    && (b.busy <==> b.currentOrderId.Some?)
    && (b.currentOrderId.Some? ==>
          var oid := b.currentOrderId.value;
          && 1 <= oid <= |orders|
          && orders[oid - 1].status == Processing
          && orders[oid - 1].assignedBotId == Some(b.id))
  }

  /** An armed timer belongs to a bot of the pool that holds the timer's order. */
  predicate TimerOwned(botId: nat, t: Timer, bots: seq<Bot>)
  {
    exists k :: 0 <= k < |bots| && bots[k].id == botId && bots[k].currentOrderId == Some(t.orderId)
  }

  predicate Consistent(f: Floor)
  {
    && Numbered(f.orders)
    && BotIdsAscending(f.bots)
    && (forall i :: 0 <= i < |f.orders| ==> OrderWellFormed(f.orders[i], f.timers))
    && (forall k :: 0 <= k < |f.bots| ==> BotWellFormed(f.bots[k], f.orders))
    && (forall id :: id in f.timers ==> TimerOwned(id, f.timers[id], f.bots))
  }

  /** The edges of the order state machine, plus staying put. No edge leaves COMPLETE. */
  predicate Edge(s: Status, s': Status)
  {
    || s == s'
    || (s == Pending && s' == Processing)
    || (s == Processing && s' == Complete)
    || (s == Processing && s' == Pending)
  }

  /**
   * `after` is a successor of `before`: orders are kept (possibly with new ones appended), ids and types
   * never change, every status change is an edge of the state machine and completed orders are frozen.
   */
  predicate Advances(before: seq<Order>, after: seq<Order>)
  {
    && |before| <= |after|
    && forall i :: 0 <= i < |before| ==>
         && after[i].id == before[i].id
         && after[i].kind == before[i].kind
         && Edge(before[i].status, after[i].status)
         && (before[i].status == Complete ==> after[i] == before[i])
  }

  /**
   * The cross-reference is one-to-one: no two bots hold the same order, every processing order is held
   * by exactly the busy bot it names, and every busy bot holds a processing order that names it.
   */
  lemma AssignmentIsOneToOne(f: Floor)
    requires Consistent(f)
    ensures forall k1, k2 ::
              (0 <= k1 < |f.bots| && 0 <= k2 < |f.bots| && f.bots[k1].currentOrderId.Some?
               && f.bots[k1].currentOrderId == f.bots[k2].currentOrderId) ==> k1 == k2
    ensures forall i :: 0 <= i < |f.orders| && f.orders[i].status == Processing ==>
              exists k :: 0 <= k < |f.bots| && f.bots[k].busy && f.bots[k].currentOrderId == Some(f.orders[i].id)
                          && f.orders[i].assignedBotId == Some(f.bots[k].id)
    ensures forall k :: 0 <= k < |f.bots| && f.bots[k].busy ==>
              var oid := f.bots[k].currentOrderId.value;
              1 <= oid <= |f.orders| && f.orders[oid - 1].status == Processing
              && f.orders[oid - 1].assignedBotId == Some(f.bots[k].id)
  {
    forall k1, k2 | 0 <= k1 < |f.bots| && 0 <= k2 < |f.bots| && f.bots[k1].currentOrderId.Some?
                    && f.bots[k1].currentOrderId == f.bots[k2].currentOrderId
      ensures k1 == k2
    {
      assert BotWellFormed(f.bots[k1], f.orders) && BotWellFormed(f.bots[k2], f.orders);
      assert f.bots[k1].id == f.bots[k2].id;
    }
    forall i | 0 <= i < |f.orders| && f.orders[i].status == Processing
      ensures exists k :: 0 <= k < |f.bots| && f.bots[k].busy && f.bots[k].currentOrderId == Some(f.orders[i].id)
                          && f.orders[i].assignedBotId == Some(f.bots[k].id)
    {
      assert OrderWellFormed(f.orders[i], f.timers);
      var b := f.orders[i].assignedBotId.value;
      assert TimerOwned(b, f.timers[b], f.bots);
      var k :| 0 <= k < |f.bots| && f.bots[k].id == b && f.bots[k].currentOrderId == Some(f.timers[b].orderId);
      assert BotWellFormed(f.bots[k], f.orders);
    }
  }

  /** In a numbered list an order is found at the index its id names. */
  lemma NumberedLookup(orders: seq<Order>, o: Order)
    requires Numbered(orders) && o in orders
    ensures 1 <= o.id <= |orders| && orders[o.id - 1] == o
  {
    var k :| 0 <= k < |orders| && orders[k] == o;
  }

  lemma NumberedIsAscending(orders: seq<Order>)
    requires Numbered(orders)
    ensures OrderIdsAscending(orders)
  {
  }

  /**
   * Finishing a processing order keeps the numbering, completes that order alone, and is a step of the
   * state machine.
   */
  lemma {:induction false} FinishAdvances(orders: seq<Order>, oid: nat, now: nat)
    requires Numbered(orders) && 1 <= oid <= |orders| && orders[oid - 1].status == Processing
    ensures Numbered(FinishOrder(orders, oid, now))
    ensures |FinishOrder(orders, oid, now)| == |orders|
    ensures FinishOrder(orders, oid, now)[oid - 1] == Finished(orders[oid - 1], now)
    ensures FinishOrder(orders, oid, now)[oid - 1].status == Complete
    ensures forall i :: 0 <= i < |orders| && i != oid - 1 ==> FinishOrder(orders, oid, now)[i] == orders[i]
    ensures Advances(orders, FinishOrder(orders, oid, now))
  {
  }

  /**
   * Sending a processing order back to PENDING keeps the numbering, releases that order alone, and is a
   * step of the state machine.
   */
  lemma {:induction false} ReleaseAdvances(orders: seq<Order>, oid: nat)
    requires Numbered(orders) && 1 <= oid <= |orders| && orders[oid - 1].status == Processing
    ensures Numbered(ReleaseOrder(orders, oid))
    ensures |ReleaseOrder(orders, oid)| == |orders|
    ensures ReleaseOrder(orders, oid)[oid - 1] == Released(orders[oid - 1])
    ensures ReleaseOrder(orders, oid)[oid - 1].status == Pending && ReleaseOrder(orders, oid)[oid - 1].assignedBotId.None?
    ensures forall i :: 0 <= i < |orders| && i != oid - 1 ==> ReleaseOrder(orders, oid)[i] == orders[i]
    ensures Advances(orders, ReleaseOrder(orders, oid))
  {
  }
}
