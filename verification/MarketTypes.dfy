/** The value types shared by the book, the connectors and the research layer. */
module MarketTypes {

  datatype Option<+T> = None | Some(value: T)

  type OrderId = nat
  type Price = int
  type Quantity = nat

  datatype Side = Buy | Sell

  function Opposite(side: Side): Side {
    if side == Buy then Sell else Buy
  }

  datatype EventType = Add | Modify | Cancel | Trade | Reduce | Replace

  datatype MarketDataEvent = MarketDataEvent(
    sequence: nat,
    exchangeTimestampNs: nat,
    symbol: nat,
    kind: EventType,
    orderId: OrderId,
    newOrderId: OrderId,
    side: Side,
    priceTicks: Price,
    quantity: Quantity)

  datatype ProcessResult =
    | Applied
    | DuplicateOrderId
    | OrderNotFound
    | InvalidQuantity
    | CapacityExhausted

  datatype OrderType = Limit | Market
  datatype TimeInForce = GTC | IOC | FOK
  datatype RequestType = New | CancelOrder

  datatype OrderRequest = OrderRequest(
    kind: RequestType,
    id: OrderId,
    side: Side,
    priceTicks: Price,
    quantity: Quantity,
    orderType: OrderType,
    tif: TimeInForce)

  datatype Fill = Fill(
    takerId: OrderId,
    makerId: OrderId,
    takerSide: Side,
    priceTicks: Price,
    quantity: Quantity,
    sequence: nat)

  datatype SubmitResult =
    | FilledComplete
    | RestedNoFill
    | PartialFillRested
    | PartialFillKilled
    | NoFillKilled
    | Canceled
    | RejectedFOK
    | RejectedDuplicate
    | RejectedCapacity
    | RejectedInvalid

  /** A resting order as the snapshots and the reference books see it. */
  datatype RefOrder = RefOrder(side: Side, price: Price, quantity: Quantity, priority: nat)

  datatype OrderView = OrderView(id: OrderId, side: Side, priceTicks: Price, quantity: Quantity, priority: nat)
  datatype LevelView = LevelView(side: Side, priceTicks: Price, totalQuantity: Quantity, orderCount: nat)

  /** Whether a price is closer to the top of its side's ladder than another. */
  predicate BetterPrice(side: Side, a: Price, b: Price) {
    if side == Buy then a > b else a < b
  }
}
