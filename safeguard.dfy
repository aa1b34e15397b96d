/**
 * The liquidity safeguard of src/lib.rs (`check_liquidity_and_cancel_if_low`):
 * cancel the bid when the three best bid levels near the new price hold too
 * little size to absorb a fill of a multiple of the order's own size. Only the
 * decision is modelled; the cancellation request itself is a REST call.
 */
module Safeguard {
  import opened Wrappers
  import opened Structs
  import opened OrderbookState

  /** `MAX_SPREAD_PRICE`: how far below the new price a level still counts. */
  const MaxSpreadPrice: real := 5.0
  /** `SIZE_MULTIPLIER_BIDDING_MARGIN`: how many times the order size must be resting nearby. */
  const SizeMultiplierBiddingMargin: real := 5.0

  /** Whether a bid level counts as absorbable liquidity for a bid at `priceToAdjust`. */
  function Counted(level: Level, priceToAdjust: real): (counted: bool)
    ensures counted <==> level.price.Exact? && priceToAdjust - level.price.value < MaxSpreadPrice
    // a level at or above the new price always counts
    ensures level.price.Exact? && level.price.value >= priceToAdjust ==> counted
  {
    match FromF64(level.price)
    case Some(levelPrice) => priceToAdjust - levelPrice < MaxSpreadPrice
    case None => false
  }

  /** The `f64` running total of the sizes of the counted levels, taken in order. */
  function AbsorbableSize(levels: seq<Level>, priceToAdjust: real): Float
  {
    if levels == [] then Exact(0.0)
    else
      var before := AbsorbableSize(levels[..|levels| - 1], priceToAdjust);
      var last := levels[|levels| - 1];
      if Counted(last, priceToAdjust) then AddF64(before, last.size) else before
  }

  /**
   * The size a level adds to the total: nothing when it is not counted, whatever
   * its size; its size when it is counted and that size has a decimal form.
   */
  function Contribution(level: Level, priceToAdjust: real): real
  {
    if Counted(level, priceToAdjust) && level.size.Exact? then level.size.value else 0.0
  }

  /** A counted level's size has a decimal form, so the running total can have one. */
  predicate DecimalIfCounted(level: Level, priceToAdjust: real)
  {
    Counted(level, priceToAdjust) ==> level.size.Exact?
  }

  /** The running total over three levels, in terms of each level's contribution. */
  lemma AbsorbableSizeOfThree(b1: Level, b2: Level, b3: Level, priceToAdjust: real)
    ensures DecimalIfCounted(b1, priceToAdjust) && DecimalIfCounted(b2, priceToAdjust) &&
            DecimalIfCounted(b3, priceToAdjust) ==>
      AbsorbableSize([b1, b2, b3], priceToAdjust) ==
      Exact(Contribution(b1, priceToAdjust) + Contribution(b2, priceToAdjust) + Contribution(b3, priceToAdjust))
    ensures (Counted(b1, priceToAdjust) && b1.size.NoDecimal?) || (Counted(b2, priceToAdjust) && b2.size.NoDecimal?) ||
            (Counted(b3, priceToAdjust) && b3.size.NoDecimal?) ==>
      AbsorbableSize([b1, b2, b3], priceToAdjust).NoDecimal?
  {
    var p := priceToAdjust;
    assert [b1][..0] == [];
    assert AbsorbableSize([b1][..0], p) == Exact(0.0);
    var s1 := AbsorbableSize([b1], p);
    assert s1 == if Counted(b1, p) then AddF64(Exact(0.0), b1.size) else Exact(0.0);
    assert [b1, b2][..1] == [b1];
    var s2 := AbsorbableSize([b1, b2], p);
    assert s2 == if Counted(b2, p) then AddF64(s1, b2.size) else s1;
    assert [b1, b2, b3][..2] == [b1, b2];
    assert AbsorbableSize([b1, b2, b3], p) == if Counted(b3, p) then AddF64(s2, b3.size) else s2;
  }

  /**
   * The cancellation rule: with all three bid slots set and a new price, cancel
   * exactly when the summed size of the counted levels is below the order size
   * times the margin (the size of a level that is not counted plays no part);
   * abstain when any slot or the price is missing, or when a counted size has no
   * decimal form.
   */
  function ShouldCancel(order: OrderUpdate, state: BookSlots, newPrice: Option<real>): (cancel: bool)
    ensures cancel ==> state.firstBid.Some? && state.secondBid.Some? && state.thirdBid.Some? && newPrice.Some?
    ensures state.firstBid.Some? && state.secondBid.Some? && state.thirdBid.Some? && newPrice.Some? ==>
      var b1, b2, b3, p := state.firstBid.value, state.secondBid.value, state.thirdBid.value, newPrice.value;
      (DecimalIfCounted(b1, p) && DecimalIfCounted(b2, p) && DecimalIfCounted(b3, p) ==>
        (cancel <==> Contribution(b1, p) + Contribution(b2, p) + Contribution(b3, p) <
                     order.size * SizeMultiplierBiddingMargin)) &&
      (((Counted(b1, p) && b1.size.NoDecimal?) || (Counted(b2, p) && b2.size.NoDecimal?) ||
        (Counted(b3, p) && b3.size.NoDecimal?)) ==> !cancel)
  {
    match (state.firstBid, state.secondBid, state.thirdBid, newPrice)
    case (Some(b1), Some(b2), Some(b3), Some(p)) =>
      var levels := [b1, b2, b3];
      AbsorbableSizeOfThree(b1, b2, b3, p);
      var globSize := FromF64(AbsorbableSize(levels, p));
      globSize.Some? && globSize.value < order.size * SizeMultiplierBiddingMargin
    case _ => false
  }

  /**
   * `check_liquidity_and_cancel_if_low`, reading the three bid slots of the shared
   * view and adding up the counted sizes one level at a time; returns whether the
   * order is to be cancelled.
   */
  method CheckLiquidityAndCancelIfLow(order: OrderUpdate, state: OrderBookState, newPrice: Option<real>)
    returns (cancel: bool)
    ensures cancel == ShouldCancel(order, state.Slots(), newPrice)
  {
    cancel := false;
    if state.firstBid.Some? && state.secondBid.Some? && state.thirdBid.Some? {
      var bid1, bid2, bid3 := state.firstBid.value, state.secondBid.value, state.thirdBid.value;
      if newPrice.Some? {
        var priceToAdjust := newPrice.value;
        var globSize := Exact(0.0);
        assert globSize == AbsorbableSize([], priceToAdjust);
        if Counted(bid1, priceToAdjust) {
          globSize := AddF64(globSize, bid1.size);
        }
        assert [bid1][..0] == [];
        assert globSize == AbsorbableSize([bid1], priceToAdjust);
        if Counted(bid2, priceToAdjust) {
          globSize := AddF64(globSize, bid2.size);
        }
        assert [bid1, bid2][..1] == [bid1];
        assert globSize == AbsorbableSize([bid1, bid2], priceToAdjust);
        if Counted(bid3, priceToAdjust) {
          globSize := AddF64(globSize, bid3.size);
        }
        assert [bid1, bid2, bid3][..2] == [bid1, bid2];
        assert globSize == AbsorbableSize([bid1, bid2, bid3], priceToAdjust);
        var globSizeDecimal := FromF64(globSize);
        if globSizeDecimal.Some? && globSizeDecimal.value < order.size * SizeMultiplierBiddingMargin {
          cancel := true;
        }
      }
    }
  }

  /**
   * Raising the size of one level never lowers the running total, and leaves it
   * with a decimal form exactly when it had one.
   */
  lemma {:induction false} AbsorbableSizeGrows(levels: seq<Level>, bigger: seq<Level>, priceToAdjust: real, k: nat)
    requires |bigger| == |levels| && k < |levels|
    requires forall i :: 0 <= i < |levels| && i != k ==> bigger[i] == levels[i]
    requires bigger[k].price == levels[k].price
    requires levels[k].size.Exact? && bigger[k].size.Exact? && bigger[k].size.value >= levels[k].size.value
    ensures AbsorbableSize(bigger, priceToAdjust).Exact? <==> AbsorbableSize(levels, priceToAdjust).Exact?
    ensures AbsorbableSize(levels, priceToAdjust).Exact? ==>
      AbsorbableSize(bigger, priceToAdjust).value >= AbsorbableSize(levels, priceToAdjust).value
  {
    var n := |levels|;
    if k == n - 1 {
      assert bigger[..n - 1] == levels[..n - 1];
    } else {
      AbsorbableSizeGrows(levels[..n - 1], bigger[..n - 1], priceToAdjust, k);
      assert bigger[n - 1] == levels[n - 1];
    }
  }

  /**
   * Adding size to one of the three bid levels never turns "keep the order" into
   * "cancel it".
   */
  lemma MoreSizeNeverCancels(order: OrderUpdate, state: BookSlots, bigger: BookSlots,
                             newPrice: Option<real>, k: nat)
    requires k < 3
    requires forall i :: 0 <= i < 3 && i != k ==> BidSlot(bigger, i) == BidSlot(state, i)
    requires BidSlot(state, k).Some? && BidSlot(bigger, k).Some?
    requires BidSlot(bigger, k).value.price == BidSlot(state, k).value.price
    requires BidSlot(state, k).value.size.Exact? && BidSlot(bigger, k).value.size.Exact?
    requires BidSlot(bigger, k).value.size.value >= BidSlot(state, k).value.size.value
    ensures ShouldCancel(order, bigger, newPrice) ==> ShouldCancel(order, state, newPrice)
  {
    assert BidSlot(bigger, 0) == bigger.firstBid && BidSlot(state, 0) == state.firstBid;
    assert BidSlot(bigger, 1) == bigger.secondBid && BidSlot(state, 1) == state.secondBid;
    assert BidSlot(bigger, 2) == bigger.thirdBid && BidSlot(state, 2) == state.thirdBid;
    if state.firstBid.Some? && state.secondBid.Some? && state.thirdBid.Some? && newPrice.Some? {
      var levels := [state.firstBid.value, state.secondBid.value, state.thirdBid.value];
      var more := [bigger.firstBid.value, bigger.secondBid.value, bigger.thirdBid.value];
      AbsorbableSizeGrows(levels, more, newPrice.value, k);
    }
  }
}
