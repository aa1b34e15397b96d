/**
 * The exchange-client types the bot consumes (`paradex::structs`) and the
 * numeric conversion it relies on (`rust_decimal::Decimal::from_f64`).
 *
 * Decimals are exact, so a `Decimal` is a `real`. The feed delivers prices and
 * sizes as `f64`; such a value is either one that converts to an exact decimal
 * (carried here by that decimal value) or one that has no decimal form (NaN,
 * an infinity, a magnitude beyond the decimal range), for which `from_f64`
 * yields nothing.
 */
module Structs {
  import opened Wrappers

  datatype Side = Buy | Sell

  /** An `f64` as delivered by the feed. */
  datatype Float = Exact(value: real) | NoDecimal

  /** `Decimal::from_f64`: the decimal value, or nothing for a value without one. */
  function FromF64(x: Float): Option<real>
  {
    match x
    case Exact(v) => Some(v)
    case NoDecimal => None
  }

  /** `f64` addition: exact on decimal values; a value without a decimal form absorbs. */
  function AddF64(a: Float, b: Float): Float
  {
    if a.Exact? && b.Exact? then Exact(a.value + b.value) else NoDecimal
  }

  /** One aggregated price level of an order book (`structs::Level`). */
  datatype Level = Level(side: Side, price: Float, size: Float)

  /** One order-book push; only its `inserts` are read by the bot. */
  datatype OrderBook = OrderBook(inserts: seq<Level>)

  /** A resting order as returned by `open_orders` (`structs::OrderUpdate`). */
  datatype OrderUpdate = OrderUpdate(id: string, market: string, side: Side, size: real, price: Option<real>)

  datatype PositionStatus = Open | Closed

  /** An account position as returned by `positions` (`structs::Position`). */
  datatype Position = Position(market: string, status: PositionStatus, size: Float)
}
