/**
 The value types shared by the execution and portfolio components: the records of
 include/core/types.hpp and the order record of include/storage/storage_interfaces.hpp,
 restricted to the fields those components read.
 A `double` is a `real` here, so no rounding takes place.
 */
module Types {

  datatype Option<+T> = None | Some(value: T)

  /**
   An identifier.  The program uses strings, and only compares them for equality, tests them
   for emptiness and sorts them: `Empty` is the empty string, the next three are the strings the
   matching engine and the tracker generate from their counters ("match-order-7", "match-client-7",
   "match-fill-7" or "live-fill-7"), and `Other` numbers all remaining strings.
   */
  datatype Name =
    | Empty
    | OrderName(n: nat)
    | ClientName(n: nat)
    | FillName(n: nat)
    | Other(code: nat)

  /** The tolerance used by every quantity comparison of the book and the matching engine. */
  const TOLERANCE: real := 0.000000001

  function Min(a: real, b: real): real {
    if a <= b then a else b
  }

  function Max(a: real, b: real): real {
    if a >= b then a else b
  }

  function Abs(a: real): real {
    if a >= 0.0 then a else -a
  }

  /** Quantity times price; the only place where two unknowns are multiplied. */
  function Times(quantity: real, price: real): real {
    quantity * price
  }

  datatype OrderSide = Buy | Sell

  function Opposite(side: OrderSide): OrderSide {
    if side.Buy? then Sell else Buy
  }

  datatype OrderType = Market | Limit

  datatype OrderStatus =
    | Created
    | PendingSubmit
    | Acknowledged
    | PartiallyFilled
    | Filled
    | PendingCancel
    | Canceled
    | Rejected
    | Expired

  predicate Terminal(status: OrderStatus) {
    status.Filled? || status.Canceled? || status.Rejected? || status.Expired?
  }

  datatype Instrument = Instrument(instrumentId: Name, baseAsset: Name, quoteAsset: Name)

  datatype BookLevel = BookLevel(price: real, quantity: real)

  datatype OrderRequest = OrderRequest(
    requestId: Name,
    strategyId: Name,
    instrument: Instrument,
    side: OrderSide,
    orderType: OrderType,
    quantity: real,
    price: Option<real>)

  datatype Reason =
    | Unstated
    | MarketOrdersUnsupported
    | InvalidRequest
    | FailedToRest
    | OpenOrderNotFound
    | NotCancelable
    | Reported(text: nat)

  datatype OrderUpdate = OrderUpdate(
    orderId: Name,
    clientOrderId: Name,
    status: OrderStatus,
    filledQuantity: real,
    reason: Reason)

  datatype FillEvent = FillEvent(
    fillId: Name,
    orderId: Name,
    instrument: Instrument,
    side: OrderSide,
    price: real,
    quantity: real,
    fee: real)

  datatype OrderRecord = OrderRecord(
    orderId: Name,
    clientOrderId: Name,
    strategyId: Name,
    instrumentId: Name,
    side: OrderSide,
    orderType: OrderType,
    status: OrderStatus,
    quantity: real,
    price: Option<real>,
    filledQuantity: real)

  datatype ExecutionResult = ExecutionResult(
    orderId: Name,
    clientOrderId: Name,
    updates: seq<OrderUpdate>,
    fills: seq<FillEvent>)

  /** The quantity of the fills of one order. */
  function VolumeOf(fills: seq<FillEvent>, id: Name): real {
    if fills == [] then 0.0
    else (if fills[0].orderId == id then fills[0].quantity else 0.0) + VolumeOf(fills[1..], id)
  }
}
