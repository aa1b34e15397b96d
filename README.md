# bot_paradex decision core, modelled in Dafny

A model of the decision core of a market-making bot for the Paradex options
market. For each open bid on an option market the bot subscribes to that
market's order book and copies each pushed snapshot into a shared four-slot view
(three bid slots, one ask slot), a later snapshot overwriting the slots it
writes. It waits for the callback's notification, unsubscribes, and then decides two things: where the bid should be repriced (join the best bid,
pull back towards the second bid, step ahead of a shared best bid, or hold), and
whether the order should be cancelled because too little size rests near the
new price.

Files and modules:

- `wrappers.dfy` (`Wrappers`): Rust's `Option`.
- `structs.dfy` (`Structs`): the exchange client's types (`Level`, `OrderBook`,
  `OrderUpdate`, `Position`) and the abstraction of the feed's `f64` values.
  Decimals are exact `real`s. A feed `f64` is a `Float`: either `Exact(v)`, a
  value whose decimal form is `v`, or `NoDecimal` (NaN, infinities, out of
  range). `FromF64` stands for `Decimal::from_f64`: it yields `v` or nothing,
  and where it yields nothing the source skips the comparison. `AddF64` stands
  for `f64` addition: the exact sum of two decimal values, and `NoDecimal` as
  soon as either operand is.
- `notify.dfy` (`Notification`): `tokio::sync::Notify` as the bot uses it, as a
  class with a stored permit and one waiter. A signal sent before the wait is
  kept as a permit and is not lost; permits do not stack.
- `orderbook_state.dfy` (`OrderbookState`): the shared view as a class with four
  `Option<Level>` fields and a `Notify`, the snapshot ingestion as a method
  proved against the function `Ingest`, and the first-SELL scan as a loop
  proved against `FirstSell`.
- `reprice.dfy` (`Reprice`): `determine_new_bid_price` as a function.
- `safeguard.dfy` (`Safeguard`): `check_liquidity_and_cancel_if_low` as a method
  that keeps the source's running total. It is proved against the rule
  `ShouldCancel`.
- `backend.dfy` (`Backend`): the `-PERP` filters, and the pass over the open
  orders as a loop that returns the modify and cancel requests it would send.

Behaviour of the code worth knowing:

- An order without a price is read as priced at zero (src/lib.rs:87). The
  decider then returns `Some(0)`, which differs from `None`, so a modify
  request to price zero is always issued (src/lib.rs:208).
- The safeguard adds the level sizes as `f64` and converts the total to a
  decimal afterwards (src/lib.rs:149-172). A counted level whose size has no
  decimal form leaves the total without one, and then nothing is cancelled.
  The size of a level that is not counted is never added and plays no part.
- When the order shares the best bid, the step-ahead price is
  `first_bid.price + step`, which equals `order.price + step` on that branch
  (src/lib.rs:116-117). The step is refused only when it lands exactly on the
  best ask. On prices off the 0.1 grid it can therefore reach above the ask:
  with the best bid at 100.0 and the ask at 100.05 the new price is 100.1.

## Model

| member | source | states |
|---|---|---|
| Notification.Notify.constructor | src/orderbook_state.rs:24 | A fresh notification owes no wake-up and has no waiter |
| Notification.Notify.NotifyOne | src/orderbook_state.rs:77 | Afterwards a wake-up is always owed: a registered waiter is woken, otherwise one permit is stored; counts the call |
| Notification.Notify.Notified | src/lib.rs:51-53 | The wait completes exactly when a wake-up was owed, consuming it; otherwise the waiter is registered |
| Notification.SignalBeforeWait | src/lib.rs:51-53 | A notification sent before the wait begins still completes the wait |
| Notification.WaitBeforeSignal | src/lib.rs:51-53 | A wait registered first stays pending, and the later notification completes it |
| Notification.PermitsDoNotAccumulate | src/orderbook_state.rs:77 | Two notifications with no waiter let only one wait complete |
| OrderbookState.OrderBookState.constructor | src/orderbook_state.rs:18-26 | All four level slots start as `None`, with a fresh notification that owes nothing |
| OrderbookState.FirstSellIndex | src/orderbook_state.rs:69-71 | The index found holds a SELL level and no earlier index does, or no SELL level exists |
| OrderbookState.FirstSellIndexIs | src/orderbook_state.rs:69-71 | Any index with those two properties is the first SELL index |
| OrderbookState.FirstSell | src/orderbook_state.rs:69-71 | The search finds nothing iff no insert is a SELL level; what it finds is a SELL insert |
| OrderbookState.FindFirstSell | src/orderbook_state.rs:69-74 | The scan over the inserts returns the first SELL level, or nothing |
| OrderbookState.ExtractDataFromSnapshot | src/orderbook_state.rs:49-79 | The four slots become `Ingest` of their old values and the inserts; exactly one `notify_one` per call, even for an empty snapshot: a registered waiter is woken, otherwise a permit is stored, so a wake-up is owed |
| OrderbookState.IngestSlots | src/orderbook_state.rs:58-74 | Bid slot k takes insert k when k is below the insert count and keeps its value otherwise; the ask slot takes the lowest-index SELL insert, and is unchanged when there is none |
| OrderbookState.SellLevelCanBeFirstBid | src/orderbook_state.rs:58-74 | Bid slots are filled by position without a side check, so a SELL level can be the first bid |
| OrderbookState.LaterSnapshotWins | src/orderbook_state.rs:59-73 | If a later snapshot writes every slot the earlier one wrote, the earlier snapshot leaves no trace |
| OrderbookState.IngestIdempotent | src/orderbook_state.rs:59-73 | Ingesting the same snapshot twice gives the same slots as ingesting it once |
| OrderbookState.IngestAllKeepsFilled | src/orderbook_state.rs:58-74 | A slot holding a level keeps holding one through any further snapshots |
| Reprice.DetermineNewBidPrice | src/lib.rs:81-133 | The result is always `Some`. With no best bid, or when a needed feed value has no decimal form, the order keeps its price; an order with no price gets `Some(0)`, which differs from `None` and so triggers a modify to zero. An order away from the best bid joins it. Alone at the top, it pulls back to second bid + step, strictly below its price, when more than a step above the second bid, and holds otherwise. When it shares the top, it steps to best bid + step unless that equals the ask or there is no ask |
| Reprice.NeverOutbidsByMoreThanAStep | src/lib.rs:92-126 | With a positive step, the new price is at most best bid + step, and it exceeds the best bid only if the order was already at it |
| Reprice.StaysBelowAsk | src/lib.rs:112-121 | On an uncrossed book priced on the 0.1 grid, the new price is strictly below the best ask |
| Reprice.OffGridStepPassesAsk | src/lib.rs:112-121 | Off the grid the guard is not enough: best bid 100.0, ask 100.05, an order sharing the best bid steps to 100.1, above the ask |
| Safeguard.Counted | src/lib.rs:153-157 | A level counts iff its price converts and lies less than `MAX_SPREAD_PRICE` below the new price; a level at or above the new price always counts |
| Safeguard.AbsorbableSizeOfThree | src/lib.rs:149-169 | When every counted level's size has a decimal form, the running total over the three bids equals the sum of the counted sizes; it has no decimal form when a counted size has none |
| Safeguard.ShouldCancel | src/lib.rs:145-175 | No cancellation unless all three bid slots and the new price are set. With them set and every counted level's size decimal, cancel iff the counted sizes sum below order size × 5, whatever the sizes of uncounted levels. Never cancel when a counted size has no decimal form |
| Safeguard.CheckLiquidityAndCancelIfLow | src/lib.rs:135-184 | The three-step running total over the bid slots reaches the decision of `ShouldCancel` |
| Safeguard.AbsorbableSizeGrows | src/lib.rs:149-172 | Raising one level's size never lowers the running total, and does not change whether it has a decimal form |
| Safeguard.MoreSizeNeverCancels | src/lib.rs:149-175 | Adding size to one bid level never turns "keep" into "cancel" |
| Backend.Contains | src/lib.rs:192 | The substring test is true iff the pattern occurs at some index of the market name |
| Backend.OpenOptionPositions | src/lib.rs:242-250 | Keeps exactly the open positions whose market is not a `-PERP` market |
| Backend.OpenOptionPositionsAppend | src/lib.rs:242-250 | Filtering a concatenation concatenates the filtered parts, so order and repetitions are kept |
| Backend.OpenOptionPositionsSingle | src/lib.rs:246-249 | A single position is kept iff it is open and its market is not a `-PERP` market |
| Backend.EvaluateOrder | src/lib.rs:192-220 | For one option-market order: the view built from its pushes, the completed wait, a modify only when the price changed, then the safeguard's cancel; equals `OrderCalls` |
| Backend.ProcessOptionOpenOrders | src/lib.rs:186-223 | The requests of one pass are those `PlannedCalls` prescribes, order by order |
| Backend.PlannedCallsSound | src/lib.rs:192-217 | Every request concerns an order on a non-`-PERP` market. A modify request is a BUY with that order's id, market and size, and a price that differs from the order's |
| Backend.PricelessOrderMovedToZero | src/lib.rs:204-217 | An order with no price is always sent a modify request to price zero |

## Left out

- Websocket subscribe and unsubscribe (src/lib.rs:22-59) are network I/O. The
  pushes a market delivers before the wait ends are a parameter of
  `EvaluateOrder` and `ProcessOptionOpenOrders`. The model ingests all of them
  before the wait.
- The model requires at least one push per option-market order. With no push,
  the source waits forever.
- The `Err` branch after the subscription (src/lib.rs:195-199) is not modelled.
  `run_orderbook_subscription` panics on failure through `unwrap` and otherwise
  returns `Ok`, so that branch never runs.
- ProcessOptionOpenOrders: the returned requests assume every modify
  succeeds. In the source a failed modify panics through `unwrap`
  (src/lib.rs:77) and the pass stops there, so neither that order's cancel nor
  any later order's requests are sent. `PlannedCalls` has the same
  assumption. A failed cancel is only logged (src/lib.rs:177-178) and does not
  stop the pass.
- REST calls are not performed: `modify_order`, `cancel_order`, `positions`,
  `open_orders`, `cancel_all_orders_for_market` and `create_order`
  (src/lib.rs:61-79, 177, 225-305). Modify and cancel appear as returned
  request values. The closing of open option positions stops at
  `OpenOptionPositions`.
- The `Arc<Mutex<…>>` slots and the thread interleavings of the callback and
  the decision loop are not modelled. Slots are plain fields, and the callback
  runs before the wait. `Notify` keeps tokio's permit semantics for a single
  waiter.
- Floating point: a feed `f64` is modelled only through the `Float`
  abstraction of `structs.dfy`. The rounding of `Decimal::from_f64` and of
  `f64` addition is not modelled. A feed value is its decimal value, and the running total
  is exact. A total that overflows the decimal range is not modelled.
- Decimal overflow in `Decimal` arithmetic, which panics in the source, is not
  modelled.
- Logging, the 10-second refresh loop (src/lib.rs:306), `clone_for_callback`
  and `OrderBookStateCallbackClones` (src/orderbook_state.rs:29-47) are not
  modelled. The clones are the same object here.
- `app/main.rs` (user interface and runtime start-up) is not modelled.
