# Order/bot scheduling engine — Dafny model

This project models the scheduling engine of an order-processing front end (`frontend/src/App.jsx`,
lines 3–110). Customers place NORMAL or VIP orders. Cooking bots are added to a pool and withdrawn
from it, newest first. After every change a matching pass pairs each idle bot with a waiting order:
VIP orders go first, and older orders go before newer ones of the same type. Each assignment arms a
completion timer for its bot. When the timer fires, the order becomes COMPLETE and the bot is idle
again. Withdrawing a busy bot cancels its timer and puts its order back in the queue.

Layout, one module per file:

- `wrappers.dfy`: `Option`.
- `records.dfy`: the records.
  - `Order`, `Bot`, `Timer` and `Floor` (the order list, the bot pool and the timer registry).
  - The service time `ProcessTime = 5000` ms. The source comment says "3 seconds", but the constant is 5000.
  - The object-spread updates of single records, and the `list.map(x => x.id === id ? … : x)` updates.
- `selection.dfy`: the two `filter` selections, idle bots and pending orders.
- `priority.dfy`: the sort comparator, and an insertion sort with its permutation, sortedness and uniqueness lemmas.
- `consistency.dfy`: the invariant every step keeps, and `Advances`.
  - The invariant: ids as the counters issue them, plus the busy-bot / processing-order / armed-timer cross-reference.
  - `Advances` says that every status change is an edge of the order state machine.
- `scheduler.dfy`: the matching pass as a function (`Matched`), with its lemmas.
- `lifecycle.dfy`: order intake, bot intake, withdrawal and completion as functions on `Floor`, with their lemmas.
- `app.dfy`: the imperative engine, class `Engine`.
  - Fields: `orders`, `bots`, `timers`, and the two counters.
  - Methods: `CreateOrder`, `AddBot`, `RemoveBot`, `MatchPass(now)` and `Complete(botId, now)`.
  - Each method is proved against the function of the same step, and keeps `Valid()` (the consistency invariant plus the counter bounds).

Modelling decisions:

- **Time.** The wall clock is a `nat` parameter `now`.
- **Timers.** `setTimeout` becomes an entry `Timer(orderId, due)` in the registry, keyed by bot id. Firing is an explicit call, `Complete(botId, now)`. It takes effect only while the bot's entry is still registered and due. So `clearTimeout` is the removal of that entry.
- **The matching pass.** It runs over a snapshot of the idle bots and the sorted pending orders, as the `forEach` at App.jsx:60 does over `freeBots`.
- **Field names.** The source's `type` field is called `kind`, because `type` is a Dafny keyword.
- **Id truthiness.** Ids start at 1, so the source's truthiness tests on ids (`removed.currentOrderId`, `!b.currentOrderId`) are `Some?` tests here.

The model follows the code in two places where the documented behaviour says otherwise:

- A COMPLETE order keeps its `assignedBotId`, because App.jsx:96 spreads the old record.
- An order sent back to PENDING by a withdrawal keeps its `startedAt` and `duration` (App.jsx:38).

## Model

| member | source | states |
|---|---|---|
| Selection.IdleBots | frontend/src/App.jsx:50 | a bot is selected exactly when it is in the pool, not busy and holds no order |
| Selection.PendingOrders | frontend/src/App.jsx:53-54 | an order is selected exactly when it is in the list with status PENDING |
| Selection.IdleBotsInPoolOrder | frontend/src/App.jsx:50 | the selection keeps pool order, so ids still ascend |
| Selection.PendingOrdersInArrivalOrder | frontend/src/App.jsx:53-54 | the selection keeps arrival order, so ids still ascend |
| Priority.Compare | frontend/src/App.jsx:55-58 | the comparator ranks a VIP order before a NORMAL one, and within one type ranks by ascending id, with a tie only for equal ids; `SortedServesVipFirstThenById` states what this means for the sorted list |
| Priority.SortByPriority | frontend/src/App.jsx:55-58 | the result is sorted by the comparator, and it is a permutation of the input (same multiset, same length); distinct ids stay distinct |
| Priority.InsertKeepsSorted | frontend/src/App.jsx:55-58 | inserting into a sorted list keeps it sorted |
| Priority.InsertKeepsElements | frontend/src/App.jsx:55-58 | insertion adds exactly the one element |
| Priority.SortedServesVipFirstThenById | frontend/src/App.jsx:55-58 | in the sorted list every VIP order precedes every NORMAL one, and within one type ids strictly ascend |
| Priority.SortedArrangementIsUnique | frontend/src/App.jsx:55-58 | two sorted arrangements of the same orders with distinct ids are equal: the comparator leaves no ties |
| Priority.SortIsCanonical | frontend/src/App.jsx:55-58 | any sorted permutation of the pending orders is the order the pass serves them in |
| Consistency.AssignmentIsOneToOne | frontend/src/App.jsx:67-88 | in a consistent state no two bots hold the same order; every PROCESSING order is held by exactly the busy bot it names; every busy bot holds a PROCESSING order that names it |
| Consistency.FinishAdvances | frontend/src/App.jsx:93-99 | finishing a PROCESSING order keeps the numbering and moves only that order, along PROCESSING→COMPLETE |
| Consistency.ReleaseAdvances | frontend/src/App.jsx:35-41 | releasing a PROCESSING order keeps the numbering and moves only that order, along PROCESSING→PENDING |
| Scheduler.AssignAll | frontend/src/App.jsx:60-109 | the forEach's assignments applied in turn keep both list lengths; `AssignAllBots`, `AssignAllOrders` and `AssignAllTimers` state what happens to each bot, order and timer |
| Scheduler.AssignAllBots | frontend/src/App.jsx:67-73 | after a run of assignments each bot is occupied by the order it was last paired with, and an unpaired bot is unchanged |
| Scheduler.AssignAllOrders | frontend/src/App.jsx:76-88 | after a run of assignments each order is started on the bot it was paired with, at `now` with duration 5000, and an unpaired order is unchanged |
| Scheduler.AssignAllTimers | frontend/src/App.jsx:90 | after a run of assignments exactly the paired bots gain a timer due at `now + 5000` for their order; every other timer is unchanged |
| Scheduler.Matched | frontend/src/App.jsx:49-110 | the pass keeps both list lengths; what it does to each bot, order and timer is stated by `MatchPairsIthIdleBotWithIthOrder` and `MatchChangesOnlyPaired`, and its order of service by `MatchServesInPriorityOrder` |
| Scheduler.PairsEligible | frontend/src/App.jsx:50-62 | every pairing of a pass names an idle bot and a pending order, and no bot or order is paired twice |
| Scheduler.AssignKeepsConsistency | frontend/src/App.jsx:66-90 | assigning an idle bot to a pending order keeps the cross-reference invariant |
| Scheduler.AssignKeepsRestEligible | frontend/src/App.jsx:60-90 | after one assignment the remaining pairings are still eligible |
| Scheduler.AssignAllKeepsConsistency | frontend/src/App.jsx:60-109 | a run of eligible assignments keeps the invariant |
| Scheduler.MatchKeepsConsistency | frontend/src/App.jsx:49-110 | a matching pass keeps the invariant |
| Scheduler.MatchOnlyStartsPendingOrders | frontend/src/App.jsx:76-88 | a pass is a step of the state machine, and every order it changes went from PENDING to PROCESSING |
| Scheduler.MatchPairsIthIdleBotWithIthOrder | frontend/src/App.jsx:60-90 | the i-th idle bot (pool order) becomes busy with the i-th order in service order; that order is started on it at `now` with duration 5000; a timer due at `now + 5000` is armed for the bot |
| Scheduler.MatchChangesOnlyPaired | frontend/src/App.jsx:60-62 | the pass makes exactly min(#idle, #pending) pairings; unpaired bots and orders are unchanged; armed timers stay; new timers belong to paired bots |
| Scheduler.MatchKeepsArmedTimers | frontend/src/App.jsx:90 | an armed timer belongs to a busy bot, which the pass does not pair, so it is kept |
| Scheduler.MatchWithNothingToPairIsNoOp | frontend/src/App.jsx:49-62 | with no idle bot or no pending order, the pass changes nothing |
| Scheduler.MatchLeavesNoIdleBot | frontend/src/App.jsx:60-62 | when idle bots do not outnumber pending orders, no bot is idle after the pass |
| Scheduler.MatchLeavesNoPendingOrder | frontend/src/App.jsx:60-62 | when pending orders do not outnumber idle bots, no order is pending after the pass |
| Scheduler.MatchIsIdempotent | frontend/src/App.jsx:49-110 | after a pass nothing is left to pair, and a second pass at any time changes nothing |
| Scheduler.MatchServesInPriorityOrder | frontend/src/App.jsx:53-62 | if a pass starts a pending order, it also starts every pending order the comparator puts ahead of it |
| Scheduler.PairedAheadIsPaired | frontend/src/App.jsx:53-62 | if a pending order is paired, every pending order ahead of it in service order is paired too |
| Lifecycle.Created | frontend/src/App.jsx:14-19 | existing orders are unchanged and exactly one order is appended: PENDING, with the given id and type and no bot; bots and timers are unchanged |
| Lifecycle.Added | frontend/src/App.jsx:23-25 | existing bots are unchanged and exactly one bot is appended: idle, with the given id and no order; orders and timers are unchanged |
| Lifecycle.Removed | frontend/src/App.jsx:27-45 | an empty pool is left alone; otherwise exactly the last bot leaves, no timer is added or changed, and a busy withdrawn bot loses its timer; `RemoveReleasesOrder` states what happens to its order |
| Lifecycle.Completed | frontend/src/App.jsx:90-108 | a timer that is not armed or not yet due does nothing; a firing one is retired, with no timer added or changed and both lists keeping their lengths; `CompleteFinishesOrder` states what happens to the order and the bot |
| Lifecycle.CreateKeepsConsistency | frontend/src/App.jsx:14-19 | the new order's id exceeds every existing id; the invariant is kept; the step only adds a PENDING order, so it advances the state machine |
| Lifecycle.AddBotKeepsConsistency | frontend/src/App.jsx:23-25 | a bot with an id above the pool's keeps the invariant, and is idle for the next pass |
| Lifecycle.RemoveReleasesOrder | frontend/src/App.jsx:27-45 | exactly the last bot leaves. If it held an order, that order alone goes back to PENDING with no bot, the bot's timer is cancelled, and no armed timer is left for the order. Otherwise orders and timers are unchanged |
| Lifecycle.RemoveKeepsConsistency | frontend/src/App.jsx:27-45 | withdrawal keeps the invariant and is a step of the state machine |
| Lifecycle.RemovedBotNeverCompletes | frontend/src/App.jsx:33-34 | after a withdrawal, the withdrawn bot's completion can never fire, and calling it changes nothing |
| Lifecycle.CompleteFinishesOrder | frontend/src/App.jsx:90-108 | a due timer makes its order COMPLETE at `now` (at least start plus duration) and frees its bot, which becomes eligible for the next pass; it retires the timer; every other order and bot is unchanged |
| Lifecycle.CompleteKeepsConsistency | frontend/src/App.jsx:90-108 | completion keeps the invariant and is a step of the state machine |
| Lifecycle.TimerHolder | frontend/src/App.jsx:90 | the bot of an armed timer is in the pool, holds the timer's order, and that order is PROCESSING on it with the timer due at start plus 5000 |
| App.Engine.constructor | frontend/src/App.jsx:3-10 | empty lists and registry, both counters at 1, invariant holds |
| App.Engine.CreateOrder | frontend/src/App.jsx:14-19 | appends exactly `Order(nextOrderId, kind, PENDING)` and increments the order counter; the new id exceeds every earlier id; the invariant holds and the step advances the state machine |
| App.Engine.AddBot | frontend/src/App.jsx:23-25 | appends exactly an idle bot with the next bot id, which exceeds every earlier id, and increments the bot counter; the invariant holds |
| App.Engine.RemoveBot | frontend/src/App.jsx:27-45 | the new state is the withdrawal of the old one; an empty pool is left unchanged; the counters stay; the invariant holds |
| App.Engine.Withdraw | frontend/src/App.jsx:30-43 | drops the last bot, cancels its timer and releases its order if it held one |
| App.Engine.MatchPass | frontend/src/App.jsx:49-62 | the new state is the matching pass of the old one; the invariant holds; orders only advance |
| App.Engine.AssignPairs | frontend/src/App.jsx:60-109 | the loop applies the pairings of the snapshot in order: the result is `AssignAll` of the pairing |
| App.Engine.Dispatch | frontend/src/App.jsx:66-90 | occupies the bot, starts the order and arms the bot's timer |
| App.Engine.Complete | frontend/src/App.jsx:90-108 | fires exactly when the bot's timer is registered and due; then the new state is the completion of the old one, otherwise nothing changes; the invariant holds |
| App.Engine.Retire | frontend/src/App.jsx:91-107 | finishes the timer's order, frees the bot and retires the timer |

## Left out

- The JSX view (App.jsx:113-233), `frontend/src/components/OrderColumn.jsx` and `frontend/src/components/ProgressBar.jsx`. They only render. The progress bar works with floating-point fractions of the wall clock.
- React mechanics: `useState` setters and batching, `useEffect` dependency tracking, `useRef`. Each operation is one atomic method call, and the caller runs `MatchPass` after every change, as the effect does after every render. The model assumes each state updater runs exactly once. The source has side effects inside updaters: `orderId++` inside the `setOrders` updater (App.jsx:17), and `clearTimeout` and `setOrders` inside the `setBots` updater (App.jsx:34-41). If React ran an updater twice, as its development-mode double invocation does, ids would skip. The invariant `nextOrderId == |orders| + 1` and the dense numbering `Numbered` would then no longer hold.
- Real time, `Date.now()`, `setTimeout` and `clearTimeout`. Time is a parameter. A timer is a registry entry that `Complete` fires and `RemoveBot` deletes.
- Completion timing: a `setTimeout` callback runs no earlier than `PROCESS_TIME` after the start, possibly later. `Fires` allows completion at any `now` at or after the due time, and never earlier, so this is the source's behaviour and not a loosening.
- `timers.current` keeps spent timer handles after they fire. The model deletes the entry when the timer fires or is cancelled. A spent handle has no further effect in the source, so nothing observable is lost.
- Module-level counters shared between several mounted components: the model has one engine. It keeps its counters as fields.
- App.Engine.MatchPass: one `now` stamps every pairing of a pass, while App.jsx:64 reads `Date.now()` afresh for each pairing. Within one pass the source's start times may therefore differ by the time the loop takes. No proved property depends on start times beyond `due == startedAt + 5000` for each order.
