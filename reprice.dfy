/**
 * The reprice decision of src/lib.rs (`determine_new_bid_price`): where the
 * bot's resting bid should sit, given the book view captured for its market.
 */
module Reprice {
  import opened Wrappers
  import opened Structs
  import opened OrderbookState

  /** `STEP_SIZE` after its conversion to a decimal. */
  const Step: real := 0.1

  /**
   * `determine_new_bid_price`. Starting from the order's own price (zero when it
   * has none): join the best bid when the order is not at it; when the order is
   * alone at the best bid, pull back to one step above the second bid if it is
   * more than a step below; when others share the best bid, step ahead by one
   * step unless that lands exactly on the best ask. Every value the feed
   * delivers that has no decimal form leaves the price where it is.
   */
  function DetermineNewBidPrice(order: OrderUpdate, state: BookSlots, stepSize: real): (r: Option<real>)
    ensures r.Some?
    // no best bid, or no order price: hold (a missing price reads as zero)
    ensures state.firstBid.None? || order.price.None? ==> r == Some(order.price.UnwrapOr(0.0))
    // the best bid's price has no decimal form: hold
    ensures state.firstBid.Some? && FromF64(state.firstBid.value.price).None? ==>
      r == Some(order.price.UnwrapOr(0.0))
    ensures state.firstBid.Some? && order.price.Some? && FromF64(state.firstBid.value.price).Some? ==>
      var price, bid := order.price.value, state.firstBid.value.price.value;
      // not the best bid: join it
      (price != bid ==> r == Some(bid)) &&
      // at the best bid, the bid's size has no decimal form: hold
      (price == bid && state.firstBid.value.size.NoDecimal? ==> r == Some(price)) &&
      // alone at the best bid
      (price == bid && FromF64(state.firstBid.value.size) == Some(order.size) ==>
        if state.secondBid.Some? && state.secondBid.value.price.Exact? &&
           price - state.secondBid.value.price.value > stepSize
        then r == Some(state.secondBid.value.price.value + stepSize) && r.value < price
        else r == Some(price)) &&
      // sharing the best bid with other size
      (price == bid && state.firstBid.value.size.Exact? && state.firstBid.value.size.value != order.size ==>
        if state.firstAsk.Some? && state.firstAsk.value.price.Exact? &&
           state.firstAsk.value.price.value != bid + stepSize
        then r == Some(bid + stepSize)
        else r == Some(price))
  {
    var currentPrice := order.price.UnwrapOr(0.0);
    var newPrice :=
      match state.firstBid
      case None => currentPrice
      case Some(bid) =>
        match order.price
        case None => currentPrice
        case Some(decimalPrice) =>
          match FromF64(bid.price)
          case None => currentPrice
          case Some(bidPrice) =>
            if decimalPrice == bidPrice then
              match FromF64(bid.size)
              case None => currentPrice
              case Some(bidSize) =>
                if order.size == bidSize then
                  match state.secondBid
                  case None => currentPrice
                  case Some(secBid) =>
                    match FromF64(secBid.price)
                    case None => currentPrice
                    case Some(secBidPrice) =>
                      if currentPrice - secBidPrice > stepSize then secBidPrice + stepSize else currentPrice
                else
                  match state.firstAsk
                  case None => currentPrice
                  case Some(ask) =>
                    match FromF64(ask.price)
                    case None => currentPrice
                    case Some(askPrice) =>
                      if askPrice != bidPrice + stepSize then bidPrice + stepSize else currentPrice
            else bidPrice;
    Some(newPrice)
  }

  /**
   * With a positive step, and decimal prices for the order and the best bid, the
   * new price is never more than one step above the best bid; it moves above the
   * best bid only when the order was already at it.
   */
  lemma NeverOutbidsByMoreThanAStep(order: OrderUpdate, state: BookSlots, stepSize: real)
    requires stepSize > 0.0
    requires order.price.Some? && state.firstBid.Some? && state.firstBid.value.price.Exact?
    ensures DetermineNewBidPrice(order, state, stepSize).value <= state.firstBid.value.price.value + stepSize
    ensures DetermineNewBidPrice(order, state, stepSize).value > state.firstBid.value.price.value ==>
      order.price.value == state.firstBid.value.price.value
  {
  }

  /**
   * Off the step grid the ask guard is not enough: with the best bid at 100.0 and
   * the best ask at 100.05, an order sharing the best bid steps to 100.1, above
   * the ask, because the step is refused only when it lands exactly on the ask.
   */
  lemma OffGridStepPassesAsk(id: string, market: string)
    ensures var state := BookSlots(Some(Level(Buy, Exact(100.0), Exact(2.0))), None, None,
                                   Some(Level(Sell, Exact(100.05), Exact(1.0))));
            var order := OrderUpdate(id, market, Buy, 1.0, Some(100.0));
            DetermineNewBidPrice(order, state, Step) == Some(100.1) && 100.1 > 100.05
  {
  }

  /** A price on the grid of `Step`: `ticks` steps above zero. */
  ghost predicate OnGrid(price: real, ticks: int)
  {
    price == ticks as real * Step
  }

  /**
   * On an uncrossed book whose prices lie on the step grid, the new bid always
   * stays strictly below the best ask: joining, holding and pulling back stay at
   * or under the best bid, and stepping ahead is refused exactly when it would
   * touch the ask.
   */
  lemma StaysBelowAsk(order: OrderUpdate, state: BookSlots, bidTicks: int, askTicks: int)
    requires order.price.Some? && state.firstBid.Some? && state.firstAsk.Some?
    requires state.firstBid.value.price.Exact? && state.firstAsk.value.price.Exact?
    requires OnGrid(state.firstBid.value.price.value, bidTicks)
    requires OnGrid(state.firstAsk.value.price.value, askTicks)
    requires state.firstBid.value.price.value < state.firstAsk.value.price.value
    ensures DetermineNewBidPrice(order, state, Step).value < state.firstAsk.value.price.value
  {
    var bid, ask := state.firstBid.value.price.value, state.firstAsk.value.price.value;
    if ask != bid + Step {
      assert askTicks > bidTicks;
      assert askTicks != bidTicks + 1;
    }
  }
}
