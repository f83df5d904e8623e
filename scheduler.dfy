/**
 * The matching pass: from a snapshot of the pool and the order list, pair the i-th idle bot with the
 * i-th waiting order in service order, and apply each pairing to the bot, the order and the timer registry.
 */
module Scheduler {
  import opened Wrappers
  import opened Records
  import opened Selection
  import opened Priority
  import opened Consistency

  /** One assignment of the pass: bot `botId` takes order `orderId`. */
  datatype Pair = Pair(botId: nat, orderId: nat)

  function Min(a: nat, b: nat): nat
  {
    if a < b then a else b
  }

  /** The i-th free bot with the i-th waiting order, until either list runs out. */
  function Pairing(free: seq<Bot>, waiting: seq<Order>): seq<Pair>
  {
    seq(Min(|free|, |waiting|), i requires 0 <= i < Min(|free|, |waiting|) => Pair(free[i].id, waiting[i].id))
  }

  /** The pairings a pass computes from the snapshot `f`. */
  function Pairs(f: Floor): seq<Pair>
  {
    Pairing(IdleBots(f.bots), SortByPriority(PendingOrders(f.orders)))
  }

  /** One assignment: the bot becomes busy, the order processing, and a timer is armed for the bot. */
  function Assign(f: Floor, p: Pair, now: nat): Floor
  {
    Floor(StartOrder(f.orders, p.orderId, p.botId, now),
          OccupyBot(f.bots, p.botId, p.orderId),
          f.timers[p.botId := Timer(p.orderId, now + ProcessTime)])
  }

  /** The assignments applied one after another, as the pass's loop does. */
  function AssignAll(f: Floor, ps: seq<Pair>, now: nat): (g: Floor)
    ensures |g.orders| == |f.orders| && |g.bots| == |f.bots|
    decreases |ps|
  {
    if ps == [] then f else AssignAll(Assign(f, ps[0], now), ps[1..], now)
  }

  /** The state after one matching pass at time `now`. */
  function Matched(f: Floor, now: nat): (g: Floor)
    ensures |g.orders| == |f.orders| && |g.bots| == |f.bots|
  {
    AssignAll(f, Pairs(f), now)
  }

  // ---- where a bot or an order ends up in a list of pairings (the last pairing wins) ----

  function OrderFor(ps: seq<Pair>, botId: nat): Option<nat>
    decreases |ps|
  {
    if ps == [] then None
    else
      var later := OrderFor(ps[1..], botId);
      if later.Some? then later
      else if ps[0].botId == botId then Some(ps[0].orderId)
      else None
  }

  function BotFor(ps: seq<Pair>, orderId: nat): Option<nat>
    decreases |ps|
  {
    if ps == [] then None
    else
      var later := BotFor(ps[1..], orderId);
      if later.Some? then later
      else if ps[0].orderId == orderId then Some(ps[0].botId)
      else None
  }

  predicate BotPaired(ps: seq<Pair>, botId: nat)
  {
    exists i :: 0 <= i < |ps| && ps[i].botId == botId
  }

  predicate OrderPaired(ps: seq<Pair>, orderId: nat)
  {
    exists i :: 0 <= i < |ps| && ps[i].orderId == orderId
  }

  predicate DistinctPairs(ps: seq<Pair>)
  {
    forall i, j :: 0 <= i < j < |ps| ==> ps[i].botId != ps[j].botId && ps[i].orderId != ps[j].orderId
  }

  lemma {:induction false} OrderForFindsPaired(ps: seq<Pair>, botId: nat)
    ensures OrderFor(ps, botId).Some? <==> BotPaired(ps, botId)
    decreases |ps|
  {
    if ps != [] {
      OrderForFindsPaired(ps[1..], botId);
      if BotPaired(ps[1..], botId) {
        var i :| 0 <= i < |ps[1..]| && ps[1..][i].botId == botId;
        assert ps[i + 1].botId == botId;
      }
      if BotPaired(ps, botId) && ps[0].botId != botId {
        var i :| 0 <= i < |ps| && ps[i].botId == botId;
        assert ps[1..][i - 1].botId == botId;
      }
    }
  }

  lemma {:induction false} BotForFindsPaired(ps: seq<Pair>, orderId: nat)
    ensures BotFor(ps, orderId).Some? <==> OrderPaired(ps, orderId)
    decreases |ps|
  {
    if ps != [] {
      BotForFindsPaired(ps[1..], orderId);
      if OrderPaired(ps[1..], orderId) {
        var i :| 0 <= i < |ps[1..]| && ps[1..][i].orderId == orderId;
        assert ps[i + 1].orderId == orderId;
      }
      if OrderPaired(ps, orderId) && ps[0].orderId != orderId {
        var i :| 0 <= i < |ps| && ps[i].orderId == orderId;
        assert ps[1..][i - 1].orderId == orderId;
      }
    }
  }

  lemma {:induction false} OrderForAtPair(ps: seq<Pair>, i: nat)
    requires DistinctPairs(ps) && i < |ps|
    ensures OrderFor(ps, ps[i].botId) == Some(ps[i].orderId)
    decreases |ps|
  {
    if i == 0 {
      OrderForFindsPaired(ps[1..], ps[0].botId);
    } else {
      OrderForAtPair(ps[1..], i - 1);
    }
  }

  lemma {:induction false} BotForAtPair(ps: seq<Pair>, i: nat)
    requires DistinctPairs(ps) && i < |ps|
    ensures BotFor(ps, ps[i].orderId) == Some(ps[i].botId)
    decreases |ps|
  {
    if i == 0 {
      BotForFindsPaired(ps[1..], ps[0].orderId);
    } else {
      BotForAtPair(ps[1..], i - 1);
    }
  }

  function OccupiedBy(b: Bot, orderId: Option<nat>): Bot
  {
    match orderId
    case None => b
    case Some(o) => Occupied(b, o)
  }

  function StartedBy(o: Order, botId: Option<nat>, now: nat): Order
  {
    match botId
    case None => o
    case Some(b) => Started(o, b, now)
  }

  /** What a run of assignments does to each bot: a paired bot is occupied by the order it was paired with. */
  lemma {:induction false} AssignAllBots(f: Floor, ps: seq<Pair>, now: nat)
    ensures forall k :: 0 <= k < |f.bots| ==>
              AssignAll(f, ps, now).bots[k] == OccupiedBy(f.bots[k], OrderFor(ps, f.bots[k].id))
    decreases |ps|
  {
    if ps != [] {
      AssignAllBots(Assign(f, ps[0], now), ps[1..], now);
    }
  }

  /** What a run of assignments does to each order: a paired order is started on the bot it was paired with. */
  lemma {:induction false} AssignAllOrders(f: Floor, ps: seq<Pair>, now: nat)
    ensures forall i :: 0 <= i < |f.orders| ==>
              AssignAll(f, ps, now).orders[i] == StartedBy(f.orders[i], BotFor(ps, f.orders[i].id), now)
    decreases |ps|
  {
    if ps != [] {
      AssignAllOrders(Assign(f, ps[0], now), ps[1..], now);
    }
  }

  /** What a run of assignments does to the registry: each paired bot gets a timer for its order. */
  lemma {:induction false} AssignAllTimers(f: Floor, ps: seq<Pair>, now: nat)
    ensures var g := AssignAll(f, ps, now);
      && (forall id :: id in g.timers <==> id in f.timers || OrderFor(ps, id).Some?)
      && (forall id :: id in g.timers && OrderFor(ps, id).Some? ==>
            g.timers[id] == Timer(OrderFor(ps, id).value, now + ProcessTime))
      && (forall id :: id in g.timers && OrderFor(ps, id).None? ==> g.timers[id] == f.timers[id])
    decreases |ps|
  {
    if ps != [] {
      AssignAllTimers(Assign(f, ps[0], now), ps[1..], now);
    }
  }

  // ---- eligibility of the snapshot's pairings ----

  predicate IdleIn(bots: seq<Bot>, botId: nat)
  {
    exists k :: 0 <= k < |bots| && bots[k].id == botId && IsIdle(bots[k])
  }

  predicate PendingIn(orders: seq<Order>, orderId: nat)
  {
    1 <= orderId <= |orders| && orders[orderId - 1].status == Pending
  }

  /** Every pairing still names an idle bot and a pending order, and no bot or order is paired twice. */
  predicate Eligible(f: Floor, ps: seq<Pair>)
  {
    && DistinctPairs(ps)
    && forall i :: 0 <= i < |ps| ==> IdleIn(f.bots, ps[i].botId) && PendingIn(f.orders, ps[i].orderId)
  }

  /** One assignment of an idle bot to a pending order keeps the floor consistent. */
  lemma {:induction false} AssignKeepsConsistency(f: Floor, p: Pair, now: nat)
    requires Consistent(f)
    requires IdleIn(f.bots, p.botId) && PendingIn(f.orders, p.orderId)
    ensures Consistent(Assign(f, p, now))
  {
    var g := Assign(f, p, now);
    assert forall i :: 0 <= i < |g.orders| ==> g.orders[i].id == f.orders[i].id;
    assert forall k :: 0 <= k < |g.bots| ==> g.bots[k].id == f.bots[k].id;
    AssignKeepsOrdersWellFormed(f, p, now);
    AssignKeepsBotsWellFormed(f, p, now);
    AssignKeepsTimersOwned(f, p, now);
  }

  lemma {:induction false} AssignKeepsOrdersWellFormed(f: Floor, p: Pair, now: nat)
    requires Consistent(f)
    requires IdleIn(f.bots, p.botId) && PendingIn(f.orders, p.orderId)
    ensures var g := Assign(f, p, now);
      forall i :: 0 <= i < |g.orders| ==> OrderWellFormed(g.orders[i], g.timers)
  {
    var g := Assign(f, p, now);
    var k0 :| 0 <= k0 < |f.bots| && f.bots[k0].id == p.botId && IsIdle(f.bots[k0]);
    assert p.botId !in f.timers;
    forall i | 0 <= i < |g.orders| ensures OrderWellFormed(g.orders[i], g.timers) {
      assert OrderWellFormed(f.orders[i], f.timers);
    }
  }

  lemma {:induction false} AssignKeepsBotsWellFormed(f: Floor, p: Pair, now: nat)
    requires Consistent(f)
    requires IdleIn(f.bots, p.botId) && PendingIn(f.orders, p.orderId)
    ensures var g := Assign(f, p, now);
      forall k :: 0 <= k < |g.bots| ==> BotWellFormed(g.bots[k], g.orders)
  {
    var g := Assign(f, p, now);
    var k0 :| 0 <= k0 < |f.bots| && f.bots[k0].id == p.botId && IsIdle(f.bots[k0]);
    forall k | 0 <= k < |g.bots| ensures BotWellFormed(g.bots[k], g.orders) {
      assert BotWellFormed(f.bots[k], f.orders);
      if k != k0 {
        assert f.bots[k].id != p.botId;
      }
    }
  }

  lemma {:induction false} AssignKeepsTimersOwned(f: Floor, p: Pair, now: nat)
    requires Consistent(f)
    requires IdleIn(f.bots, p.botId) && PendingIn(f.orders, p.orderId)
    ensures var g := Assign(f, p, now);
      forall id :: id in g.timers ==> TimerOwned(id, g.timers[id], g.bots)
  {
    var g := Assign(f, p, now);
    var k0 :| 0 <= k0 < |f.bots| && f.bots[k0].id == p.botId && IsIdle(f.bots[k0]);
    forall id | id in g.timers ensures TimerOwned(id, g.timers[id], g.bots) {
      if id == p.botId {
        assert g.bots[k0].id == id && g.bots[k0].currentOrderId == Some(p.orderId);
      } else {
        assert TimerOwned(id, f.timers[id], f.bots);
        var k :| 0 <= k < |f.bots| && f.bots[k].id == id && f.bots[k].currentOrderId == Some(f.timers[id].orderId);
        assert g.bots[k] == f.bots[k];
      }
    }
  }

  /** After the first assignment the remaining pairings are still eligible. */
  lemma {:induction false} AssignKeepsRestEligible(f: Floor, ps: seq<Pair>, now: nat)
    requires Numbered(f.orders) && Eligible(f, ps) && ps != []
    ensures Eligible(Assign(f, ps[0], now), ps[1..])
  {
    var g := Assign(f, ps[0], now);
    forall i | 0 <= i < |ps[1..]| ensures IdleIn(g.bots, ps[1..][i].botId) && PendingIn(g.orders, ps[1..][i].orderId) {
      assert ps[1..][i] == ps[i + 1];
      assert ps[i + 1].botId != ps[0].botId && ps[i + 1].orderId != ps[0].orderId;
      var k :| 0 <= k < |f.bots| && f.bots[k].id == ps[i + 1].botId && IsIdle(f.bots[k]);
      assert g.bots[k] == f.bots[k];
    }
  }

  lemma {:induction false} AssignAllKeepsConsistency(f: Floor, ps: seq<Pair>, now: nat)
    requires Consistent(f) && Eligible(f, ps)
    ensures Consistent(AssignAll(f, ps, now))
    decreases |ps|
  {
    if ps != [] {
      AssignKeepsConsistency(f, ps[0], now);
      AssignKeepsRestEligible(f, ps, now);
      AssignAllKeepsConsistency(Assign(f, ps[0], now), ps[1..], now);
    }
  }

  /** The pairings of a consistent snapshot are eligible. */
  lemma {:induction false} PairsEligible(f: Floor)
    requires Numbered(f.orders) && BotIdsAscending(f.bots)
    ensures Eligible(f, Pairs(f))
  {
    var free := IdleBots(f.bots);
    var ps := Pairs(f);
    IdleBotsInPoolOrder(f.bots);
    PendingIdsDistinct(f.orders);
    PairingDistinct(free, SortByPriority(PendingOrders(f.orders)));
    forall i | 0 <= i < |ps| ensures IdleIn(f.bots, ps[i].botId) && PendingIn(f.orders, ps[i].orderId) {
      assert free[i] in free;
      SortedPendingLookup(f.orders, i);
    }
  }

  lemma {:induction false} PairingDistinct(free: seq<Bot>, waiting: seq<Order>)
    requires BotIdsAscending(free) && DistinctIds(waiting)
    ensures DistinctPairs(Pairing(free, waiting))
  {
  }

  lemma {:induction false} PendingIdsDistinct(orders: seq<Order>)
    requires Numbered(orders)
    ensures DistinctIds(PendingOrders(orders))
    ensures DistinctIds(SortByPriority(PendingOrders(orders)))
  {
    NumberedIsAscending(orders);
    PendingOrdersInArrivalOrder(orders);
  }

  /** The i-th order in service order is a pending order of the list, at the index its id names. */
  lemma {:induction false} SortedPendingLookup(orders: seq<Order>, i: nat)
    requires Numbered(orders) && i < |PendingOrders(orders)|
    ensures var o := SortByPriority(PendingOrders(orders))[i];
      && o in orders && o.status == Pending && 1 <= o.id <= |orders| && orders[o.id - 1] == o
  {
    var sorted := SortByPriority(PendingOrders(orders));
    assert sorted[i] in multiset(sorted);
    NumberedLookup(orders, sorted[i]);
  }

  /** The service-order rank of a pending order: its index in the sorted waiting list. */
  lemma {:induction false} SortedRank(f: Floor, o: Order) returns (r: nat)
    requires Numbered(f.orders) && o in f.orders && o.status == Pending
    ensures var sorted := SortByPriority(PendingOrders(f.orders)); r < |sorted| && sorted[r] == o
  {
    var sorted := SortByPriority(PendingOrders(f.orders));
    assert o in multiset(PendingOrders(f.orders));
    assert o in multiset(sorted);
    r :| 0 <= r < |sorted| && sorted[r] == o;
  }

  /** Assignments change no bot id. */
  lemma {:induction false} AssignAllKeepsBotIds(f: Floor, ps: seq<Pair>, now: nat)
    ensures forall k :: 0 <= k < |f.bots| ==> AssignAll(f, ps, now).bots[k].id == f.bots[k].id
    decreases |ps|
  {
    if ps != [] {
      AssignAllKeepsBotIds(Assign(f, ps[0], now), ps[1..], now);
    }
  }

  /** A matching pass keeps the floor consistent. */
  lemma {:induction false} MatchKeepsConsistency(f: Floor, now: nat)
    requires Consistent(f)
    ensures Consistent(Matched(f, now))
  {
    PairsEligible(f);
    AssignAllKeepsConsistency(f, Pairs(f), now);
  }

  /** A matching pass moves orders only from PENDING to PROCESSING. */
  lemma {:induction false} MatchOnlyStartsPendingOrders(f: Floor, now: nat)
    requires Numbered(f.orders) && BotIdsAscending(f.bots)
    ensures Advances(f.orders, Matched(f, now).orders)
    ensures forall i :: 0 <= i < |f.orders| && Matched(f, now).orders[i] != f.orders[i] ==>
              f.orders[i].status == Pending && Matched(f, now).orders[i].status == Processing
  {
    var ps := Pairs(f);
    PairsEligible(f);
    AssignAllOrders(f, ps, now);
    forall i | 0 <= i < |f.orders|
      ensures BotFor(ps, f.orders[i].id).Some? ==> f.orders[i].status == Pending
    {
      PairedOrderIsPending(f, ps, i);
    }
  }

  lemma {:induction false} PairedOrderIsPending(f: Floor, ps: seq<Pair>, i: nat)
    requires Numbered(f.orders) && Eligible(f, ps) && i < |f.orders|
    ensures BotFor(ps, f.orders[i].id).Some? ==> f.orders[i].status == Pending
  {
    if BotFor(ps, f.orders[i].id).Some? {
      BotForFindsPaired(ps, f.orders[i].id);
      var q :| 0 <= q < |ps| && ps[q].orderId == f.orders[i].id;
      assert PendingIn(f.orders, ps[q].orderId);
    }
  }

  /** The pass pairs the i-th idle bot, in pool order, with the i-th pending order, in service order. */
  lemma {:induction false} MatchPairsIthIdleBotWithIthOrder(f: Floor, now: nat, i: nat)
    requires Numbered(f.orders) && BotIdsAscending(f.bots)
    requires i < |IdleBots(f.bots)| && i < |PendingOrders(f.orders)|
    ensures var bot := IdleBots(f.bots)[i];
      var order := SortByPriority(PendingOrders(f.orders))[i];
      var g := Matched(f, now);
      && bot in f.bots && IsIdle(bot)
      && order in f.orders && order.status == Pending
      && |g.orders| == |f.orders| && 1 <= order.id <= |f.orders|
      && Occupied(bot, order.id) in g.bots
      && g.orders[order.id - 1] == Started(order, bot.id, now)
      && bot.id in g.timers && g.timers[bot.id] == Timer(order.id, now + ProcessTime)
  {
    var ps := Pairs(f);
    var bot := IdleBots(f.bots)[i];
    var order := SortByPriority(PendingOrders(f.orders))[i];
    var g := Matched(f, now);
    PairsEligible(f);
    assert ps[i] == Pair(bot.id, order.id);
    assert bot in IdleBots(f.bots);
    SortedPendingLookup(f.orders, i);
    var k :| 0 <= k < |f.bots| && f.bots[k] == bot;
    AssignAllAtPairBot(f, ps, now, i, k);
    AssignAllAtPairOrder(f, ps, now, i, order.id - 1);
    AssignAllAtPairTimer(f, ps, now, i);
    assert g.bots[k] in g.bots;
  }

  lemma {:induction false} AssignAllAtPairBot(f: Floor, ps: seq<Pair>, now: nat, q: nat, k: nat)
    requires DistinctPairs(ps) && q < |ps| && k < |f.bots| && f.bots[k].id == ps[q].botId
    ensures AssignAll(f, ps, now).bots[k] == Occupied(f.bots[k], ps[q].orderId)
  {
    OrderForAtPair(ps, q);
    AssignAllBots(f, ps, now);
  }

  lemma {:induction false} AssignAllAtPairOrder(f: Floor, ps: seq<Pair>, now: nat, q: nat, i: nat)
    requires DistinctPairs(ps) && q < |ps| && i < |f.orders| && f.orders[i].id == ps[q].orderId
    ensures AssignAll(f, ps, now).orders[i] == Started(f.orders[i], ps[q].botId, now)
  {
    BotForAtPair(ps, q);
    AssignAllOrders(f, ps, now);
  }

  lemma {:induction false} AssignAllAtPairTimer(f: Floor, ps: seq<Pair>, now: nat, q: nat)
    requires DistinctPairs(ps) && q < |ps|
    ensures var g := AssignAll(f, ps, now);
      ps[q].botId in g.timers && g.timers[ps[q].botId] == Timer(ps[q].orderId, now + ProcessTime)
  {
    OrderForAtPair(ps, q);
    AssignAllTimers(f, ps, now);
  }

  /**
   * The pass makes min(#idle, #pending) assignments and touches nothing else: unpaired bots and orders
   * are unchanged, existing timers stay, and new timers belong to paired bots.
   */
  lemma {:induction false} MatchChangesOnlyPaired(f: Floor, now: nat)
    requires Consistent(f)
    ensures |Pairs(f)| == Min(|IdleBots(f.bots)|, |PendingOrders(f.orders)|)
    ensures var ps := Pairs(f); var g := Matched(f, now);
      && |g.bots| == |f.bots| && |g.orders| == |f.orders|
      && (forall k :: 0 <= k < |f.bots| && !BotPaired(ps, f.bots[k].id) ==> g.bots[k] == f.bots[k])
      && (forall i :: 0 <= i < |f.orders| && !OrderPaired(ps, f.orders[i].id) ==> g.orders[i] == f.orders[i])
      && (forall id :: id in f.timers ==> id in g.timers && g.timers[id] == f.timers[id])
      && (forall id :: id in g.timers ==> id in f.timers || BotPaired(ps, id))
  {
    var sorted := SortByPriority(PendingOrders(f.orders));
    assert |sorted| == |multiset(sorted)| == |PendingOrders(f.orders)|;
    MatchKeepsUnpairedBots(f, now);
    MatchKeepsUnpairedOrders(f, now);
    MatchKeepsArmedTimers(f, now);
  }

  lemma {:induction false} MatchKeepsUnpairedBots(f: Floor, now: nat)
    ensures forall k :: 0 <= k < |f.bots| && !BotPaired(Pairs(f), f.bots[k].id) ==>
              Matched(f, now).bots[k] == f.bots[k]
  {
    var ps := Pairs(f);
    AssignAllBots(f, ps, now);
    forall k | 0 <= k < |f.bots| ensures OrderFor(ps, f.bots[k].id).Some? <==> BotPaired(ps, f.bots[k].id) {
      OrderForFindsPaired(ps, f.bots[k].id);
    }
  }

  lemma {:induction false} MatchKeepsUnpairedOrders(f: Floor, now: nat)
    ensures forall i :: 0 <= i < |f.orders| && !OrderPaired(Pairs(f), f.orders[i].id) ==>
              Matched(f, now).orders[i] == f.orders[i]
  {
    var ps := Pairs(f);
    AssignAllOrders(f, ps, now);
    forall i | 0 <= i < |f.orders| ensures BotFor(ps, f.orders[i].id).Some? <==> OrderPaired(ps, f.orders[i].id) {
      BotForFindsPaired(ps, f.orders[i].id);
    }
  }

  /** An armed timer belongs to a busy bot, which the pass does not pair, so the pass leaves it alone. */
  lemma {:induction false} MatchKeepsArmedTimers(f: Floor, now: nat)
    requires Consistent(f)
    ensures var g := Matched(f, now);
      && (forall id :: id in f.timers ==> id in g.timers && g.timers[id] == f.timers[id])
      && (forall id :: id in g.timers ==> id in f.timers || BotPaired(Pairs(f), id))
  {
    var ps := Pairs(f);
    PairsEligible(f);
    AssignAllTimers(f, ps, now);
    forall id | id in f.timers ensures OrderFor(ps, id).None? {
      OrderForFindsPaired(ps, id);
      ArmedBotIsUnpaired(f, ps, id);
    }
    forall id | id in Matched(f, now).timers ensures id in f.timers || BotPaired(ps, id) {
      OrderForFindsPaired(ps, id);
    }
  }

  /** A bot with an armed timer is busy, so no eligible pairing names it. */
  lemma {:induction false} ArmedBotIsUnpaired(f: Floor, ps: seq<Pair>, id: nat)
    requires Consistent(f) && Eligible(f, ps) && id in f.timers
    ensures !BotPaired(ps, id)
  {
    assert TimerOwned(id, f.timers[id], f.bots);
    var k' :| 0 <= k' < |f.bots| && f.bots[k'].id == id && f.bots[k'].currentOrderId == Some(f.timers[id].orderId);
    forall q | 0 <= q < |ps| ensures ps[q].botId != id {
      assert IdleIn(f.bots, ps[q].botId);
      var k :| 0 <= k < |f.bots| && f.bots[k].id == ps[q].botId && IsIdle(f.bots[k]);
      assert k != k';
    }
  }

  /** With no idle bot or no pending order, the pass is a no-op. */
  lemma {:induction false} MatchWithNothingToPairIsNoOp(f: Floor, now: nat)
    requires |IdleBots(f.bots)| == 0 || |PendingOrders(f.orders)| == 0
    ensures Matched(f, now) == f
  {
    var sorted := SortByPriority(PendingOrders(f.orders));
    assert |sorted| == |multiset(sorted)| == |PendingOrders(f.orders)|;
    assert Pairs(f) == [];
  }

  /** When the idle bots do not outnumber the pending orders, a pass leaves no bot idle. */
  lemma {:induction false} MatchLeavesNoIdleBot(f: Floor, now: nat)
    requires |IdleBots(f.bots)| <= |PendingOrders(f.orders)|
    ensures IdleBots(Matched(f, now).bots) == []
  {
    var ps := Pairs(f);
    var g := Matched(f, now);
    var free := IdleBots(f.bots);
    AssignAllBots(f, ps, now);
    forall k | 0 <= k < |g.bots| ensures !IsIdle(g.bots[k]) {
      OrderForFindsPaired(ps, f.bots[k].id);
      if IsIdle(f.bots[k]) {
        assert f.bots[k] in free;
        var j :| 0 <= j < |free| && free[j] == f.bots[k];
        assert ps[j].botId == f.bots[k].id;
      }
    }
    if IdleBots(g.bots) != [] {
      assert IdleBots(g.bots)[0] in IdleBots(g.bots);
    }
  }

  /** When the pending orders do not outnumber the idle bots, a pass leaves no order pending. */
  lemma {:induction false} MatchLeavesNoPendingOrder(f: Floor, now: nat)
    requires Numbered(f.orders)
    requires |PendingOrders(f.orders)| <= |IdleBots(f.bots)|
    ensures PendingOrders(Matched(f, now).orders) == []
  {
    var ps := Pairs(f);
    var g := Matched(f, now);
    AssignAllOrders(f, ps, now);
    forall i | 0 <= i < |g.orders| ensures g.orders[i].status != Pending {
      BotForFindsPaired(ps, f.orders[i].id);
      if f.orders[i].status == Pending {
        var j := SortedRank(f, f.orders[i]);
        assert ps[j].orderId == f.orders[i].id;
      }
    }
    if PendingOrders(g.orders) != [] {
      assert PendingOrders(g.orders)[0] in PendingOrders(g.orders);
    }
  }

  /**
   * After a pass there is nothing left to pair: a second pass, at any time, changes nothing and
   * does not disturb the assignments the first one made.
   */
  lemma {:induction false} MatchIsIdempotent(f: Floor, now: nat, later: nat)
    requires Numbered(f.orders)
    ensures Pairs(Matched(f, now)) == []
    ensures Matched(Matched(f, now), later) == Matched(f, now)
  {
    var g := Matched(f, now);
    if |IdleBots(f.bots)| <= |PendingOrders(f.orders)| {
      MatchLeavesNoIdleBot(f, now);
    } else {
      MatchLeavesNoPendingOrder(f, now);
    }
    MatchWithNothingToPairIsNoOp(g, later);
    assert |SortByPriority(PendingOrders(g.orders))| == |PendingOrders(g.orders)|;
  }

  /**
   * Priority then first come first served: if a pending order that the comparator puts ahead of another
   * is passed over, so is the other. In particular a waiting VIP order is never passed over in favour of
   * a NORMAL one, nor an older order for a newer one of the same type.
   */
  lemma {:induction false} MatchServesInPriorityOrder(f: Floor, now: nat, i: nat, j: nat)
    requires Numbered(f.orders)
    requires i < |f.orders| && j < |f.orders|
    requires f.orders[i].status == Pending && f.orders[j].status == Pending
    requires Compare(f.orders[i], f.orders[j]) < 0
    ensures Matched(f, now).orders[j].status == Processing ==> Matched(f, now).orders[i].status == Processing
  {
    var ps := Pairs(f);
    AssignAllOrders(f, ps, now);
    BotForFindsPaired(ps, f.orders[j].id);
    BotForFindsPaired(ps, f.orders[i].id);
    if OrderPaired(ps, f.orders[j].id) {
      PairedAheadIsPaired(f, i, j);
    }
  }

  /** If the pass pairs a pending order, it pairs every pending order the comparator puts ahead of it. */
  lemma {:induction false} PairedAheadIsPaired(f: Floor, i: nat, j: nat)
    requires Numbered(f.orders)
    requires i < |f.orders| && j < |f.orders|
    requires f.orders[i].status == Pending && f.orders[j].status == Pending
    requires Compare(f.orders[i], f.orders[j]) < 0
    requires OrderPaired(Pairs(f), f.orders[j].id)
    ensures OrderPaired(Pairs(f), f.orders[i].id)
  {
    var ps := Pairs(f);
    var sorted := SortByPriority(PendingOrders(f.orders));
    var q :| 0 <= q < |ps| && ps[q].orderId == f.orders[j].id;
    SortedPendingLookup(f.orders, q);
    assert sorted[q] == f.orders[j];
    var ri := SortedRank(f, f.orders[i]);
    RankFollowsCompare(sorted, ri, q);
    assert ps[ri].orderId == f.orders[i].id;
  }

  /** In a sorted list, an element the comparator puts strictly ahead of another sits at a smaller index. */
  lemma RankFollowsCompare(s: seq<Order>, a: nat, b: nat)
    requires Sorted(s) && a < |s| && b < |s| && Compare(s[a], s[b]) < 0
    ensures a < b
  {
  }
}
