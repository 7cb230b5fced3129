/**
 * The domain entities the simulated exchange, the strategy and its statistics
 * exchange: sides, statuses, bars, ticks, orders and the four outbound events.
 */
module Domain {

  // Order sides, compared as strings exactly as the C# constants are.
  const BUY: string := "BUY"
  const SELL: string := "SELL"
  const SHORT: string := "SHORT"
  const COVER: string := "COVER"
  const NONE: string := "NONE"

  /** Provider tag the simulated exchange stamps on executions and rejections. */
  const SimulatedExchange: string := "SimulatedExchange"

  /** The single, coarse rejection reason (the misspelling is the exchange's own). */
  const RejectReason: string := "Invaild Price Or Size"

  /** `Submitted` stands for whatever status the caller gave the order before the exchange saw it. */
  datatype OrderStatus = Submitted | Open | Executed | Cancelled | Rejected

  datatype Bar = Bar(open: real, high: real, low: real, close: real, dateTime: int)

  datatype Tick = Tick(lastPrice: real, dateTime: int)

  /**
   * A market or limit order. The C# Order, LimitOrder and MarketOrder share this
   * one class: `limitPrice` is read only on the limit path, `triggerPrice` only on
   * the market path. The exchange changes `status`, `remarks` and `triggerPrice`;
   * each OHLC annotation it appends to the remarks is recorded as a bar in `audit`.
   */
  class Order {
    const id: string
    const side: string
    const size: int
    const tif: string
    const currency: string
    const symbol: string
    const provider: string
    const strategyId: string
    const orderDateTime: int
    const limitPrice: real
    const slippage: real
    var triggerPrice: real
    var remarks: string
    var audit: seq<Bar>
    var status: OrderStatus

    constructor (id: string, side: string, size: int, tif: string, currency: string, symbol: string,
                 provider: string, strategyId: string, orderDateTime: int, limitPrice: real,
                 slippage: real, triggerPrice: real, remarks: string, status: OrderStatus)
      ensures this.id == id && this.side == side && this.size == size && this.tif == tif
      ensures this.currency == currency && this.symbol == symbol && this.provider == provider
      ensures this.strategyId == strategyId && this.orderDateTime == orderDateTime
      ensures this.limitPrice == limitPrice && this.slippage == slippage
      ensures this.triggerPrice == triggerPrice && this.remarks == remarks
      ensures this.audit == [] && this.status == status
    {
      this.id, this.side, this.size, this.tif, this.currency := id, side, size, tif, currency;
      this.symbol, this.provider, this.strategyId := symbol, provider, strategyId;
      this.orderDateTime, this.limitPrice, this.slippage := orderDateTime, limitPrice, slippage;
      this.triggerPrice, this.remarks, this.audit, this.status := triggerPrice, remarks, [], status;
    }
  }

  /** The fresh order copy handed to the Accepted event. */
  datatype OrderView = OrderView(id: string, side: string, size: int, tif: string, currency: string,
                                 symbol: string, provider: string, strategyId: string, status: OrderStatus)

  /** A full fill; `order` refers back to the order that produced it. */
  datatype Execution = Execution(orderId: string, side: string, size: int, price: real, averagePrice: real,
                                 leavesQuantity: int, cumulativeQuantity: int, dateTime: int,
                                 provider: string, order: Order)

  datatype Rejection = Rejection(symbol: string, provider: string, orderId: string, reason: string)

  /** The four outbound notifications, named after the exchange's events. */
  datatype Event =
    | NewOrderArrived(view: OrderView)
    | ExecutionArrived(execution: Execution)
    | CancellationArrived(order: Order)
    | RejectionArrived(rejection: Rejection)
}
