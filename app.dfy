/**
 * The engine object: the order list, the bot pool, the timer registry and the two id counters,
 * updated in place by the intake operations, the matching pass and the timer callbacks.
 * The UI calls a matching pass after every change (the source does it from a state-change hook).
 */
module App {
  import opened Wrappers
  import opened Records
  import opened Selection
  import opened Priority
  import opened Consistency
  import opened Scheduler
  import opened Lifecycle

  class Engine {
    var orders: seq<Order>
    var bots: seq<Bot>
    /** The timer registry, keyed by bot id. */
    var timers: map<nat, Timer>
    /** The id the next order gets. */
    var nextOrderId: nat
    /** The id the next bot gets. */
    var nextBotId: nat

    /** Bot ids are issued from 1 upwards, and `next` is above all of them. */
    static predicate IdsBelow(bots: seq<Bot>, next: nat)
    {
      1 <= next && forall k :: 0 <= k < |bots| ==> 1 <= bots[k].id < next
    }

    function Current(): Floor
      reads this
    {
      Floor(orders, bots, timers)
    }

    /** The floor is consistent, and the counters are ahead of every id issued so far. */
    static ghost predicate Invariant(f: Floor, nextOrder: nat, nextBot: nat)
    {
      && Consistent(f)
      && nextOrder == |f.orders| + 1
      && IdsBelow(f.bots, nextBot)
    }

    ghost predicate Valid()
      reads this
    {
      Invariant(Current(), nextOrderId, nextBotId)
    }

    static lemma CompleteKeepsInvariant(f: Floor, botId: nat, now: nat, nextOrder: nat, nextBot: nat)
      requires Invariant(f, nextOrder, nextBot)
      ensures Invariant(Completed(f, botId, now), nextOrder, nextBot)
      ensures Advances(f.orders, Completed(f, botId, now).orders)
    {
      CompleteKeepsConsistency(f, botId, now);
      var g := Completed(f, botId, now);
      assert forall k :: 0 <= k < |g.bots| ==> g.bots[k].id == f.bots[k].id;
    }

    static lemma RemoveKeepsInvariant(f: Floor, nextOrder: nat, nextBot: nat)
      requires Invariant(f, nextOrder, nextBot)
      ensures Invariant(Removed(f), nextOrder, nextBot)
      ensures Advances(f.orders, Removed(f).orders)
    {
      RemoveKeepsConsistency(f);
    }

    static lemma MatchKeepsInvariant(f: Floor, now: nat, nextOrder: nat, nextBot: nat)
      requires Invariant(f, nextOrder, nextBot)
      ensures Invariant(Matched(f, now), nextOrder, nextBot)
    {
      MatchKeepsConsistency(f, now);
      AssignAllKeepsBotIds(f, Pairs(f), now);
    }

    constructor ()
      ensures Valid()
      ensures orders == [] && bots == [] && timers == map[]
      ensures nextOrderId == 1 && nextBotId == 1
    {
      orders, bots, timers := [], [], map[];
      nextOrderId, nextBotId := 1, 1;
    }

    /** Appends a PENDING order of the given type with the next order id. */
    method CreateOrder(kind: OrderType)
      requires Valid()
      modifies this
      ensures Valid()
      ensures Current() == Created(old(Current()), old(nextOrderId), kind)
      ensures orders == old(orders) + [Order(old(nextOrderId), kind, Pending, None, None, None, None)]
      ensures nextOrderId == old(nextOrderId) + 1 && nextBotId == old(nextBotId)
      ensures forall o :: o in old(orders) ==> o.id < old(nextOrderId)
      ensures Advances(old(orders), orders)
    {
      CreateKeepsConsistency(Current(), kind);
      orders := orders + [NewOrder(nextOrderId, kind)];
      nextOrderId := nextOrderId + 1;
    }

    /** Appends an idle bot with the next bot id, which is above every id in the pool. */
    method AddBot()
      requires Valid()
      modifies this
      ensures Valid()
      ensures Current() == Added(old(Current()), old(nextBotId))
      ensures bots == old(bots) + [Bot(old(nextBotId), false, None)]
      ensures nextBotId == old(nextBotId) + 1 && nextOrderId == old(nextOrderId)
      ensures forall k :: 0 <= k < |old(bots)| ==> old(bots)[k].id < old(nextBotId)
    {
      AddBotKeepsConsistency(Current(), nextBotId);
      bots := bots + [NewBot(nextBotId)];
      nextBotId := nextBotId + 1;
    }

    /**
     * Withdraws the most recently added bot (nothing happens on an empty pool). A busy bot's timer is
     * cancelled and its order goes back to PENDING.
     */
    method RemoveBot()
      requires Valid()
      modifies this
      ensures Valid()
      ensures Current() == Removed(old(Current()))
      ensures old(|bots|) == 0 ==> Current() == old(Current())
      ensures nextOrderId == old(nextOrderId) && nextBotId == old(nextBotId)
      ensures Advances(old(orders), orders)
    {
      if |bots| == 0 {
        return;
      }
      RemoveKeepsInvariant(Current(), nextOrderId, nextBotId);
      Withdraw();
    }

    /** The state change of a withdrawal from a non-empty pool. */
    method Withdraw()
      requires |bots| > 0
      modifies this
      ensures Current() == Removed(old(Current()))
      ensures nextOrderId == old(nextOrderId) && nextBotId == old(nextBotId)
    {
      var removed := bots[|bots| - 1];
      if removed.currentOrderId.Some? {
        timers := timers - {removed.id};
        orders := ReleaseOrder(orders, removed.currentOrderId.value);
      }
      bots := bots[..|bots| - 1];
    }

    /**
     * One matching pass at time `now`, over a snapshot of the idle bots and the sorted pending orders:
     * the i-th idle bot takes the i-th order, for as long as both lists last.
     */
    method MatchPass(now: nat)
      requires Valid()
      modifies this
      ensures Valid()
      ensures Current() == Matched(old(Current()), now)
      ensures nextOrderId == old(nextOrderId) && nextBotId == old(nextBotId)
      ensures Advances(old(orders), orders)
    {
      MatchOnlyStartsPendingOrders(Current(), now);
      MatchKeepsInvariant(Current(), now, nextOrderId, nextBotId);
      var free := IdleBots(bots);
      if |free| == 0 {
        MatchWithNothingToPairIsNoOp(Current(), now);
        return;
      }
      var pending := SortByPriority(PendingOrders(orders));
      AssignPairs(free, pending, now);
    }

    /**
     * The loop of the pass: the i-th bot of `free` takes the i-th order of `pending`, for as long as
     * both lists last.
     */
    method AssignPairs(free: seq<Bot>, pending: seq<Order>, now: nat)
      modifies this
      ensures Current() == AssignAll(old(Current()), Pairing(free, pending), now)
      ensures nextOrderId == old(nextOrderId) && nextBotId == old(nextBotId)
    {
      ghost var ps := Pairing(free, pending);
      var i := 0;
      while i < |free|
        invariant 0 <= i <= |free|
        invariant nextOrderId == old(nextOrderId) && nextBotId == old(nextBotId)
        invariant AssignAll(Current(), ps[Min(i, |ps|)..], now) == AssignAll(old(Current()), ps, now)
      {
        if i < |pending| {
          var p := Pair(free[i].id, pending[i].id);
          assert ps[i..][0] == p;
          assert ps[i..][1..] == ps[Min(i + 1, |ps|)..];
          Dispatch(p, now);
        }
        i := i + 1;
      }
    }

    /** Hands order `p.orderId` to bot `p.botId` at time `now` and arms the bot's timer. */
    method Dispatch(p: Pair, now: nat)
      modifies this
      ensures Current() == Assign(old(Current()), p, now)
      ensures nextOrderId == old(nextOrderId) && nextBotId == old(nextBotId)
    {
      bots := OccupyBot(bots, p.botId, p.orderId);
      orders := StartOrder(orders, p.orderId, p.botId, now);
      timers := timers[p.botId := Timer(p.orderId, now + ProcessTime)];
    }

    /**
     * The completion callback of bot `botId` at time `now`. It fires only while the bot's timer is still
     * armed and due; a cancelled or early callback changes nothing and reports `fired == false`.
     */
    method Complete(botId: nat, now: nat) returns (fired: bool)
      requires Valid()
      modifies this
      ensures Valid()
      ensures fired == Fires(old(Current()), botId, now)
      ensures Current() == Completed(old(Current()), botId, now)
      ensures !fired ==> Current() == old(Current())
      ensures nextOrderId == old(nextOrderId) && nextBotId == old(nextBotId)
      ensures Advances(old(orders), orders)
    {
      fired := botId in timers && timers[botId].due <= now;
      if !fired {
        return;
      }
      CompleteKeepsInvariant(Current(), botId, now, nextOrderId, nextBotId);
      Retire(botId, now);
    }

    /** The state change of a completion that fires: the order finishes, the bot is freed, the timer retired. */
    method Retire(botId: nat, now: nat)
      requires Fires(Current(), botId, now)
      modifies this
      ensures Current() == Completed(old(Current()), botId, now)
      ensures nextOrderId == old(nextOrderId) && nextBotId == old(nextBotId)
    {
      var t := timers[botId];
      orders := FinishOrder(orders, t.orderId, now);
      bots := FreeBot(bots, botId);
      timers := timers - {botId};
    }
  }
}
