/**
 * The intake operations, bot withdrawal with cancellation, and the completion event, as transitions
 * of the floor state, with what each keeps and what each changes.
 */
module Lifecycle {
  import opened Wrappers
  import opened Records
  import opened Selection
  import opened Consistency

  /** Appends a new PENDING order with id `id`. */
  function Created(f: Floor, id: nat, kind: OrderType): (g: Floor)
    ensures |g.orders| == |f.orders| + 1 && g.orders[..|f.orders|] == f.orders
    ensures var o := g.orders[|f.orders|];
      o.id == id && o.kind == kind && o.status == Pending && o.assignedBotId.None?
    ensures g.bots == f.bots && g.timers == f.timers
  {
    f.(orders := f.orders + [NewOrder(id, kind)])
  }

  /** Appends a new idle bot with id `id`. */
  function Added(f: Floor, id: nat): (g: Floor)
    ensures |g.bots| == |f.bots| + 1 && g.bots[..|f.bots|] == f.bots
    ensures var b := g.bots[|f.bots|]; b.id == id && !b.busy && b.currentOrderId.None?
    ensures g.orders == f.orders && g.timers == f.timers
  {
    f.(bots := f.bots + [NewBot(id)])
  }

  /**
   * Withdraws the most recently added bot; an empty pool is left alone. A bot that holds an order has
   * its timer cancelled and its order sent back to PENDING first.
   */
  function Removed(f: Floor): (g: Floor)
    ensures |f.bots| == 0 ==> g == f
    ensures |f.bots| > 0 ==> g.bots == f.bots[..|f.bots| - 1]
    ensures |g.orders| == |f.orders|
    ensures forall b :: b in g.timers ==> b in f.timers && g.timers[b] == f.timers[b]
    ensures |f.bots| > 0 && f.bots[|f.bots| - 1].currentOrderId.Some? ==> f.bots[|f.bots| - 1].id !in g.timers
  {
    if |f.bots| == 0 then f
    else
      var last := f.bots[|f.bots| - 1];
      var rest := f.bots[..|f.bots| - 1];
      match last.currentOrderId
      case None => f.(bots := rest)
      case Some(oid) => Floor(ReleaseOrder(f.orders, oid), rest, f.timers - {last.id})
  }

  /** The timer of bot `botId` is still armed and due at time `now`. */
  predicate Fires(f: Floor, botId: nat, now: nat)
  {
    botId in f.timers && f.timers[botId].due <= now
  }

  /** The completion callback of bot `botId` at time `now`; a cancelled or not yet due timer does nothing. */
  function Completed(f: Floor, botId: nat, now: nat): (g: Floor)
    ensures !Fires(f, botId, now) ==> g == f
    ensures Fires(f, botId, now) ==> botId !in g.timers
    ensures forall b :: b in g.timers ==> b in f.timers && g.timers[b] == f.timers[b]
    ensures |g.orders| == |f.orders| && |g.bots| == |f.bots|
  {
    if !Fires(f, botId, now) then f
    else
      var t := f.timers[botId];
      Floor(FinishOrder(f.orders, t.orderId, now), FreeBot(f.bots, botId), f.timers - {botId})
  }

  // ---- intake ----

  /** A new order takes the next id, greater than every id issued so far, and keeps the floor consistent. */
  lemma {:induction false} CreateKeepsConsistency(f: Floor, kind: OrderType)
    requires Consistent(f)
    ensures forall o :: o in f.orders ==> o.id < |f.orders| + 1
    ensures Consistent(Created(f, |f.orders| + 1, kind))
    ensures Advances(f.orders, Created(f, |f.orders| + 1, kind).orders)
  {
    var g := Created(f, |f.orders| + 1, kind);
    forall i | 0 <= i < |g.orders| ensures OrderWellFormed(g.orders[i], g.timers) {
      if i < |f.orders| {
        assert OrderWellFormed(f.orders[i], f.timers);
      }
    }
    forall k | 0 <= k < |g.bots| ensures BotWellFormed(g.bots[k], g.orders) {
      assert BotWellFormed(f.bots[k], f.orders);
    }
  }

  /** A new bot with an id above every id in the pool is idle and keeps the floor consistent. */
  lemma {:induction false} AddBotKeepsConsistency(f: Floor, id: nat)
    requires Consistent(f)
    requires forall k :: 0 <= k < |f.bots| ==> f.bots[k].id < id
    ensures Consistent(Added(f, id))
    ensures Added(f, id).bots[|f.bots|] in IdleBots(Added(f, id).bots)
  {
    var g := Added(f, id);
    forall k | 0 <= k < |g.bots| ensures BotWellFormed(g.bots[k], g.orders) {
      if k < |f.bots| {
        assert BotWellFormed(f.bots[k], f.orders);
      }
    }
    forall b | b in g.timers ensures TimerOwned(b, g.timers[b], g.bots) {
      assert TimerOwned(b, f.timers[b], f.bots);
      var k :| 0 <= k < |f.bots| && f.bots[k].id == b && f.bots[k].currentOrderId == Some(f.timers[b].orderId);
      assert g.bots[k] == f.bots[k];
    }
  }

  // ---- withdrawal ----

  /**
   * Withdrawal is LIFO: exactly the last bot leaves. If it held an order, that order, and only that one,
   * goes back to PENDING with no bot (its start time and duration stay), and no armed timer is left for
   * the bot or for the order. Otherwise the orders and timers are unchanged.
   */
  lemma {:induction false} RemoveReleasesOrder(f: Floor)
    requires Consistent(f) && |f.bots| > 0
    ensures var last := f.bots[|f.bots| - 1]; var g := Removed(f);
      && g.bots == f.bots[..|f.bots| - 1]
      && last.id !in g.timers
      && |g.orders| == |f.orders|
      && (last.currentOrderId.None? ==> g.orders == f.orders && g.timers == f.timers)
      && (last.currentOrderId.Some? ==>
            var oid := last.currentOrderId.value;
            && 1 <= oid <= |f.orders|
            && f.orders[oid - 1].status == Processing
            && g.orders[oid - 1] == f.orders[oid - 1].(status := Pending, assignedBotId := None)
            && (forall i :: 0 <= i < |f.orders| && i != oid - 1 ==> g.orders[i] == f.orders[i])
            && g.timers == f.timers - {last.id}
            && (forall b :: b in g.timers ==> g.timers[b].orderId != oid))
  {
    var n := |f.bots|;
    var last := f.bots[n - 1];
    var g := Removed(f);
    assert BotWellFormed(last, f.orders);
    if last.currentOrderId.None? {
      assert last.id !in f.timers;
    } else {
      ReleasedOrderHasNoTimer(f);
    }
  }

  /** The order the last bot holds has no armed timer other than that bot's. */
  lemma {:induction false} ReleasedOrderHasNoTimer(f: Floor)
    requires Consistent(f) && |f.bots| > 0 && f.bots[|f.bots| - 1].currentOrderId.Some?
    ensures var last := f.bots[|f.bots| - 1];
      forall b :: b in f.timers && b != last.id ==> f.timers[b].orderId != last.currentOrderId.value
  {
    var n := |f.bots|;
    var last := f.bots[n - 1];
    forall b | b in f.timers && b != last.id ensures f.timers[b].orderId != last.currentOrderId.value {
      assert TimerOwned(b, f.timers[b], f.bots);
      var k :| 0 <= k < n && f.bots[k].id == b && f.bots[k].currentOrderId == Some(f.timers[b].orderId);
      assert BotWellFormed(f.bots[k], f.orders) && BotWellFormed(last, f.orders);
    }
  }

  /** Withdrawal keeps the floor consistent and is a step of the state machine (`RemoveReleasesOrder` says which order moves). */
  lemma {:induction false} RemoveKeepsConsistency(f: Floor)
    requires Consistent(f)
    ensures Consistent(Removed(f))
    ensures Advances(f.orders, Removed(f).orders)
  {
    if |f.bots| > 0 {
      RemoveAdvancesOrders(f);
      RemoveKeepsOrdersWellFormed(f);
      RemoveKeepsBotsWellFormed(f);
      RemoveKeepsTimersOwned(f);
    }
  }

  lemma {:induction false} RemoveAdvancesOrders(f: Floor)
    requires Consistent(f) && |f.bots| > 0
    ensures Numbered(Removed(f).orders) && BotIdsAscending(Removed(f).bots)
    ensures Advances(f.orders, Removed(f).orders)
  {
    var last := f.bots[|f.bots| - 1];
    assert BotWellFormed(last, f.orders);
    if last.currentOrderId.Some? {
      ReleaseAdvances(f.orders, last.currentOrderId.value);
    }
  }

  lemma {:induction false} RemoveKeepsOrdersWellFormed(f: Floor)
    requires Consistent(f) && |f.bots| > 0
    ensures var g := Removed(f);
      forall i :: 0 <= i < |g.orders| ==> OrderWellFormed(g.orders[i], g.timers)
  {
    var n := |f.bots|;
    var last := f.bots[n - 1];
    var g := Removed(f);
    RemoveReleasesOrder(f);
    forall i | 0 <= i < |g.orders| ensures OrderWellFormed(g.orders[i], g.timers) {
      assert OrderWellFormed(f.orders[i], f.timers);
      if f.orders[i].status == Processing && g.orders[i] == f.orders[i] {
        var b := f.orders[i].assignedBotId.value;
        assert TimerOwned(b, f.timers[b], f.bots);
        var k :| 0 <= k < n && f.bots[k].id == b && f.bots[k].currentOrderId == Some(f.timers[b].orderId);
        assert BotWellFormed(f.bots[k], f.orders);
      }
    }
  }

  lemma {:induction false} RemoveKeepsBotsWellFormed(f: Floor)
    requires Consistent(f) && |f.bots| > 0
    ensures var g := Removed(f);
      forall k :: 0 <= k < |g.bots| ==> BotWellFormed(g.bots[k], g.orders)
  {
    var n := |f.bots|;
    var last := f.bots[n - 1];
    var g := Removed(f);
    RemoveReleasesOrder(f);
    forall k | 0 <= k < |g.bots| ensures BotWellFormed(g.bots[k], g.orders) {
      assert BotWellFormed(f.bots[k], f.orders);
      assert f.bots[k].id < last.id;
    }
  }

  lemma {:induction false} RemoveKeepsTimersOwned(f: Floor)
    requires Consistent(f) && |f.bots| > 0
    ensures var g := Removed(f);
      forall b :: b in g.timers ==> TimerOwned(b, g.timers[b], g.bots)
  {
    var n := |f.bots|;
    var last := f.bots[n - 1];
    var g := Removed(f);
    RemoveReleasesOrder(f);
    forall b | b in g.timers ensures TimerOwned(b, g.timers[b], g.bots) {
      assert TimerOwned(b, f.timers[b], f.bots);
      var k :| 0 <= k < n && f.bots[k].id == b && f.bots[k].currentOrderId == Some(f.timers[b].orderId);
      assert k < n - 1;
      assert g.bots[k] == f.bots[k];
    }
  }

  /** After a withdrawal the withdrawn bot's completion can never fire: its timer is gone. */
  lemma {:induction false} RemovedBotNeverCompletes(f: Floor, now: nat)
    requires Consistent(f) && |f.bots| > 0
    ensures !Fires(Removed(f), f.bots[|f.bots| - 1].id, now)
    ensures Completed(Removed(f), f.bots[|f.bots| - 1].id, now) == Removed(f)
  {
    RemoveReleasesOrder(f);
  }

  // ---- completion ----

  /**
   * A due timer completes its order: the order the bot holds becomes COMPLETE at `now`, which is at least
   * its start time plus its duration; the bot becomes idle and is eligible for the next pass; the timer is
   * retired; every other order and bot is unchanged.
   */
  lemma {:induction false} CompleteFinishesOrder(f: Floor, botId: nat, now: nat)
    requires Consistent(f) && Fires(f, botId, now)
    ensures var oid := f.timers[botId].orderId; var g := Completed(f, botId, now);
      && 1 <= oid <= |f.orders| && |g.orders| == |f.orders|
      && f.orders[oid - 1].status == Processing && f.orders[oid - 1].assignedBotId == Some(botId)
      && g.orders[oid - 1] == f.orders[oid - 1].(status := Complete, completedAt := Some(now))
      && f.orders[oid - 1].startedAt.Some? && f.orders[oid - 1].duration.Some?
      && f.orders[oid - 1].startedAt.value + f.orders[oid - 1].duration.value <= now
      && (forall i :: 0 <= i < |f.orders| && i != oid - 1 ==> g.orders[i] == f.orders[i])
      && Bot(botId, false, None) in IdleBots(g.bots)
      && |g.bots| == |f.bots|
      && (forall k :: 0 <= k < |f.bots| && f.bots[k].id != botId ==> g.bots[k] == f.bots[k])
      && g.timers == f.timers - {botId}
  {
    var g := Completed(f, botId, now);
    var k0 := TimerHolder(f, botId);
    assert g.bots[k0] == Bot(botId, false, None);
    assert g.bots[k0] in g.bots;
  }

  /** Completion keeps the floor consistent and is a step of the state machine (`CompleteFinishesOrder` says which order moves). */
  lemma {:induction false} CompleteKeepsConsistency(f: Floor, botId: nat, now: nat)
    requires Consistent(f)
    ensures Consistent(Completed(f, botId, now))
    ensures Advances(f.orders, Completed(f, botId, now).orders)
  {
    if Fires(f, botId, now) {
      CompleteAdvancesOrders(f, botId, now);
      CompleteKeepsOrdersWellFormed(f, botId, now);
      CompleteKeepsBotsWellFormed(f, botId, now);
      CompleteKeepsTimersOwned(f, botId, now);
    }
  }

  /** The bot of an armed timer sits at some index of the pool and holds the timer's order, which is processing on it. */
  lemma {:induction false} TimerHolder(f: Floor, botId: nat) returns (k: nat)
    requires Consistent(f) && botId in f.timers
    ensures var oid := f.timers[botId].orderId;
      && k < |f.bots| && f.bots[k].id == botId && f.bots[k].currentOrderId == Some(oid)
      && 1 <= oid <= |f.orders| && f.orders[oid - 1].id == oid
      && f.orders[oid - 1].status == Processing && f.orders[oid - 1].assignedBotId == Some(botId)
      && f.orders[oid - 1].startedAt.Some? && f.orders[oid - 1].duration == Some(ProcessTime)
      && f.timers[botId].due == f.orders[oid - 1].startedAt.value + ProcessTime
  {
    var oid := f.timers[botId].orderId;
    assert TimerOwned(botId, f.timers[botId], f.bots);
    k :| 0 <= k < |f.bots| && f.bots[k].id == botId && f.bots[k].currentOrderId == Some(oid);
    assert BotWellFormed(f.bots[k], f.orders);
    assert OrderWellFormed(f.orders[oid - 1], f.timers);
  }

  lemma {:induction false} CompleteKeepsOrdersWellFormed(f: Floor, botId: nat, now: nat)
    requires Consistent(f) && Fires(f, botId, now)
    ensures var g := Completed(f, botId, now);
      forall i :: 0 <= i < |g.orders| ==> OrderWellFormed(g.orders[i], g.timers)
  {
    var oid := f.timers[botId].orderId;
    var g := Completed(f, botId, now);
    var k0 := TimerHolder(f, botId);
    forall i | 0 <= i < |g.orders| ensures OrderWellFormed(g.orders[i], g.timers) {
      assert OrderWellFormed(f.orders[i], f.timers);
      if i != oid - 1 && f.orders[i].status == Processing {
        assert f.orders[i].assignedBotId.value != botId;
      }
    }
  }

  lemma {:induction false} CompleteKeepsBotsWellFormed(f: Floor, botId: nat, now: nat)
    requires Consistent(f) && Fires(f, botId, now)
    ensures var g := Completed(f, botId, now);
      forall k :: 0 <= k < |g.bots| ==> BotWellFormed(g.bots[k], g.orders)
  {
    var oid := f.timers[botId].orderId;
    var g := Completed(f, botId, now);
    var k0 := TimerHolder(f, botId);
    forall k | 0 <= k < |g.bots| ensures BotWellFormed(g.bots[k], g.orders) {
      assert BotWellFormed(f.bots[k], f.orders);
      if k != k0 {
        assert f.bots[k].id != botId;
        assert g.bots[k] == f.bots[k];
        if f.bots[k].currentOrderId.Some? {
          assert f.bots[k].currentOrderId.value != oid;
        }
      }
    }
  }

  lemma {:induction false} CompleteKeepsTimersOwned(f: Floor, botId: nat, now: nat)
    requires Consistent(f) && Fires(f, botId, now)
    ensures var g := Completed(f, botId, now);
      forall b :: b in g.timers ==> TimerOwned(b, g.timers[b], g.bots)
  {
    var g := Completed(f, botId, now);
    forall b | b in g.timers ensures TimerOwned(b, g.timers[b], g.bots) {
      assert TimerOwned(b, f.timers[b], f.bots);
      var k :| 0 <= k < |f.bots| && f.bots[k].id == b && f.bots[k].currentOrderId == Some(f.timers[b].orderId);
      assert g.bots[k] == f.bots[k];
    }
  }

  lemma {:induction false} CompleteAdvancesOrders(f: Floor, botId: nat, now: nat)
    requires Consistent(f) && Fires(f, botId, now)
    ensures Numbered(Completed(f, botId, now).orders) && BotIdsAscending(Completed(f, botId, now).bots)
    ensures Advances(f.orders, Completed(f, botId, now).orders)
  {
    var oid := f.timers[botId].orderId;
    var g := Completed(f, botId, now);
    var k0 := TimerHolder(f, botId);
    assert forall k :: 0 <= k < |g.bots| ==> g.bots[k].id == f.bots[k].id;
    FinishAdvances(f.orders, oid, now);
  }
}
