/** The parsed market events. Prices are exact numbers and quantities unbounded integers. */
module FixTypes {
  datatype Side = Buy | Sell {
    function Opposite(): Side { if Buy? then Sell else Buy }
  }

  datatype OrderType = Limit | Market

  datatype OrderStatus = New | Cancelled | Replaced

  datatype Order = Order(
    orderId: string, accountId: string, instrumentId: string, side: Side, price: real, qty: int,
    orderType: OrderType, timestampNs: int, status: OrderStatus, venue: string, origOrderId: string)

  datatype Execution = Execution(
    tradeId: string, orderId: string, accountId: string, instrumentId: string, side: Side, price: real,
    qty: int, timestampNs: int, counterpartyAccountId: string, venue: string)

  datatype Event = OrderEvent(order: Order) | ExecutionEvent(execution: Execution) {
    function InstrumentId(): string {
      if OrderEvent? then order.instrumentId else execution.instrumentId
    }

    function TimestampNs(): int {
      if OrderEvent? then order.timestampNs else execution.timestampNs
    }
  }
}
