/**
 * The decision pass of src/lib.rs over the account's open orders and positions:
 * which markets are handled at all (option markets, not perpetuals), and which
 * order-management requests one pass over the open orders issues. The requests
 * are returned as values; sending them is the REST client's business.
 */
module Backend {
  import opened Wrappers
  import opened Structs
  import opened OrderbookState
  import opened Reprice
  import opened Safeguard

  /** `pat` occurs in `s` starting at index `i`. */
  ghost predicate OccursAt(s: string, pat: string, i: int)
  {
    0 <= i && i + |pat| <= |s| && s[i..i + |pat|] == pat
  }

  /** Occurrences in `s` past its first character are the occurrences in `s[1..]`, shifted by one. */
  lemma ShiftOccurrences(s: string, pat: string)
    requires s != []
    ensures forall i :: 1 <= i ==> (OccursAt(s, pat, i) <==> OccursAt(s[1..], pat, i - 1))
  {
    forall i | 1 <= i
      ensures OccursAt(s, pat, i) <==> OccursAt(s[1..], pat, i - 1)
    {
      if i + |pat| <= |s| {
        assert s[1..][i - 1..i - 1 + |pat|] == s[i..i + |pat|];
      }
    }
  }

  /** `str::contains`: whether `pat` occurs anywhere in `s`. */
  function Contains(s: string, pat: string): (b: bool)
    ensures b <==> exists i :: OccursAt(s, pat, i)
    decreases |s|
  {
    if |pat| > |s| then false
    else if s[..|pat|] == pat then assert OccursAt(s, pat, 0); true
    else
      assert !OccursAt(s, pat, 0);
      ShiftOccurrences(s, pat);
      var rest := Contains(s[1..], pat);
      assert rest ==> exists i :: OccursAt(s[1..], pat, i) && OccursAt(s, pat, i + 1);
      rest
  }

  /** A market the bot trades in: anything that is not a perpetual (`-PERP`) market. */
  predicate IsOptionMarket(market: string)
  {
    !Contains(market, "-PERP")
  }

  /** The positions the bot closes at the start of a pass: the open ones on option markets. */
  function OpenOptionPositions(positions: seq<Position>): (r: seq<Position>)
    ensures forall x :: x in r <==> x in positions && x.status == Open && IsOptionMarket(x.market)
    ensures |r| <= |positions|
  {
    if positions == [] then []
    else
      var p := positions[0];
      (if p.status == Open && IsOptionMarket(p.market) then [p] else []) + OpenOptionPositions(positions[1..])
  }

  /**
   * The filter keeps the positions' order and repetitions: filtering a
   * concatenation is concatenating the filtered parts.
   */
  lemma {:induction false} OpenOptionPositionsAppend(a: seq<Position>, b: seq<Position>)
    ensures OpenOptionPositions(a + b) == OpenOptionPositions(a) + OpenOptionPositions(b)
  {
    if a == [] {
      assert a + b == b;
    } else {
      assert (a + b)[0] == a[0] && (a + b)[1..] == a[1..] + b;
      OpenOptionPositionsAppend(a[1..], b);
    }
  }

  /** A single position is kept exactly when it is open and on an option market. */
  lemma OpenOptionPositionsSingle(p: Position)
    ensures OpenOptionPositions([p]) == if p.status == Open && IsOptionMarket(p.market) then [p] else []
  {
  }

  /** The body of `adjust_order`'s request: a BUY limit order moved to `price`. */
  datatype ModifyOrderRequest = ModifyOrderRequest(id: string, market: string, price: Option<real>, side: Side, size: real)

  /** An order-management request issued by a pass over the open orders. */
  datatype RestCall = ModifyOrder(request: ModifyOrderRequest) | CancelOrder(id: string)

  /** The requests issued for one option-market order once its book view is captured. */
  function OrderCalls(order: OrderUpdate, state: BookSlots): seq<RestCall>
  {
    var newPrice := DetermineNewBidPrice(order, state, Step);
    (if newPrice != order.price
     then [ModifyOrder(ModifyOrderRequest(order.id, order.market, newPrice, Buy, order.size))]
     else []) +
    (if ShouldCancel(order, state, newPrice) then [CancelOrder(order.id)] else [])
  }

  /**
   * The requests of one pass: per order in turn, nothing for a perpetual market,
   * otherwise the requests for the view left by the snapshots delivered for it.
   */
  function PlannedCalls(orders: seq<OrderUpdate>, deliveries: seq<seq<OrderBook>>): seq<RestCall>
    requires |deliveries| == |orders|
  {
    if orders == [] then []
    else
      var n := |orders| - 1;
      PlannedCalls(orders[..n], deliveries[..n]) +
      (if IsOptionMarket(orders[n].market) then OrderCalls(orders[n], IngestAll(NoData, deliveries[n])) else [])
  }

  /**
   * One turn of `process_option_open_orders` for an order on an option market: a
   * fresh shared view, the snapshots the subscription delivers for the market
   * (at least one, or the wait would never end), the wait for the notification,
   * then a modify request when the new price differs from the order's and a
   * cancel request when the safeguard trips.
   */
  method EvaluateOrder(order: OrderUpdate, pushes: seq<OrderBook>) returns (calls: seq<RestCall>)
    requires pushes != []
    ensures calls == OrderCalls(order, IngestAll(NoData, pushes))
  {
    var state := new OrderBookState();
    var j := 0;
    while j < |pushes|
      invariant 0 <= j <= |pushes|
      invariant state.Slots() == IngestAll(NoData, pushes[..j])
      invariant state.notify.Valid()
      invariant j > 0 ==> state.notify.Pending()
    {
      assert pushes[..j + 1][..j] == pushes[..j];
      ExtractDataFromSnapshot(pushes[j], state);
      j := j + 1;
    }
    assert pushes[..j] == pushes;
    var ready := state.notify.Notified();
    assert ready;
    calls := [];
    var newPrice := DetermineNewBidPrice(order, state.Slots(), Step);
    if newPrice != order.price {
      calls := calls + [ModifyOrder(ModifyOrderRequest(order.id, order.market, newPrice, Buy, order.size))];
    }
    var cancel := CheckLiquidityAndCancelIfLow(order, state, newPrice);
    if cancel {
      calls := calls + [CancelOrder(order.id)];
    }
  }

  /**
   * `process_option_open_orders`: every order in turn, skipping perpetual
   * markets. `deliveries[i]` are the pushes received for `orders[i]`'s market.
   */
  method ProcessOptionOpenOrders(orders: seq<OrderUpdate>, deliveries: seq<seq<OrderBook>>)
    returns (calls: seq<RestCall>)
    requires |deliveries| == |orders|
    requires forall i :: 0 <= i < |orders| && IsOptionMarket(orders[i].market) ==> deliveries[i] != []
    ensures calls == PlannedCalls(orders, deliveries)
  {
    calls := [];
    var i := 0;
    while i < |orders|
      invariant 0 <= i <= |orders|
      invariant calls == PlannedCalls(orders[..i], deliveries[..i])
    {
      var order := orders[i];
      assert orders[..i + 1][..i] == orders[..i] && deliveries[..i + 1][..i] == deliveries[..i];
      if IsOptionMarket(order.market) {
        var orderCalls := EvaluateOrder(order, deliveries[i]);
        calls := calls + orderCalls;
      }
      i := i + 1;
    }
    assert orders[..i] == orders && deliveries[..i] == deliveries;
  }

  /** Request `c` is one the bot may issue for order `o`. */
  predicate Concerns(c: RestCall, o: OrderUpdate)
  {
    match c
    case ModifyOrder(req) =>
      req.id == o.id && req.market == o.market && req.side == Buy && req.size == o.size &&
      req.price.Some? && req.price != o.price
    case CancelOrder(id) => id == o.id
  }

  /**
   * Every request of a pass concerns an order on an option market, and a modify
   * request always carries a price different from the order's current one.
   */
  lemma {:induction false} PlannedCallsSound(orders: seq<OrderUpdate>, deliveries: seq<seq<OrderBook>>)
    requires |deliveries| == |orders|
    ensures forall c :: c in PlannedCalls(orders, deliveries) ==>
      exists o :: o in orders && IsOptionMarket(o.market) && Concerns(c, o)
  {
    if orders != [] {
      var n := |orders| - 1;
      PlannedCallsSound(orders[..n], deliveries[..n]);
      var o := orders[n];
      forall c | c in PlannedCalls(orders, deliveries)
        ensures exists o :: o in orders && IsOptionMarket(o.market) && Concerns(c, o)
      {
        if c in PlannedCalls(orders[..n], deliveries[..n]) {
          var w :| w in orders[..n] && IsOptionMarket(w.market) && Concerns(c, w);
          assert w in orders;
        } else {
          assert o in orders;
          assert Concerns(c, o);
        }
      }
    }
  }

  /**
   * An order without a price is always sent a modify request, to the price zero
   * that `unwrap_or_default` supplies.
   */
  lemma PricelessOrderMovedToZero(order: OrderUpdate, state: BookSlots)
    requires order.price.None?
    ensures OrderCalls(order, state) != [] &&
      OrderCalls(order, state)[0] == ModifyOrder(ModifyOrderRequest(order.id, order.market, Some(0.0), Buy, order.size))
  {
  }
}
