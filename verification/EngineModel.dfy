/**
 The reference model of the matching engine: pure transitions over the order ledger and the
 priority lists of BookModel.dfy.  The class in MatchingEngine.dfy is proved to compute them.
 */
module EngineModel {
  import opened Types
  import opened BookModel

  datatype Engine = Engine(
    books: map<Name, Book>,
    orders: map<Name, OrderRecord>,
    nextOrderId: nat,
    nextClientOrderId: nat,
    nextFillId: nat)

  const EMPTY_ENGINE: Engine := Engine(map[], map[], 1, 1, 1)

  // ---------- Matching one taker against one side ----------

  /** What resting orders are matched against: an incoming order, or one external price level. */
  datatype Taker =
    | Incoming(orderId: Name, request: OrderRequest)
    | External(instrument: Instrument, price: real)

  predicate Crosses(incoming: OrderRequest, resting: RestingOrder) {
    && incoming.price.Some? && resting.request.price.Some?
    && if incoming.side == Buy then incoming.price.value >= resting.request.price.value
       else incoming.price.value <= resting.request.price.value
  }

  predicate Executable(taker: Taker, o: RestingOrder) {
    match taker
    case Incoming(_, request) => Crosses(request, o)
    case External(_, price) =>
      && o.request.price.Some?
      && if o.request.side == Buy then o.request.price.value + TOLERANCE >= price
         else o.request.price.value - TOLERANCE <= price
  }

  datatype Trade = Trade(resting: RestingOrder, quantity: real)

  datatype Sweep = Sweep(trades: seq<Trade>, left: seq<RestingOrder>, rest: real)

  /**
   Walks a priority list from the front, fully consuming each executable order, until the taker
   has at most the tolerance left.
   */
  function Walk(taker: Taker, orders: seq<RestingOrder>, quantity: real): Sweep {
    if quantity <= TOLERANCE || orders == [] || !Executable(taker, orders[0]) then Sweep([], orders, quantity)
    else
      var executed := Min(quantity, orders[0].remaining);
      var residue := Residue(orders[0], executed);
      var rest := Max(0.0, quantity - executed);
      if residue == [] then
        var tail := Walk(taker, orders[1..], rest);
        Sweep([Trade(orders[0], executed)] + tail.trades, tail.left, tail.rest)
      else Sweep([Trade(orders[0], executed)], residue + orders[1..], rest)
  }

  function FillOf(taker: Taker, resting: RestingOrder, quantity: real, fillId: Name): FillEvent {
    match taker
    case Incoming(orderId, request) =>
      FillEvent(fillId, orderId, request.instrument, request.side, Price(resting), quantity, 0.0)
    case External(instrument, price) =>
      var known := resting.request.instrument;
      FillEvent(fillId, resting.orderId,
                if known.baseAsset == Empty && known.quoteAsset == Empty then instrument else known,
                resting.request.side, price, quantity, 0.0)
  }

  function FillsOf(taker: Taker, trades: seq<Trade>, nextFillId: nat): (fills: seq<FillEvent>)
    ensures |fills| == |trades|
  {
    if trades == [] then []
    else
      var fill := FillOf(taker, trades[0].resting, trades[0].quantity, FillName(nextFillId));
      [fill] + FillsOf(taker, trades[1..], nextFillId + 1)
  }

  // ---------- The ledger ----------

  function FilledRecord(r: OrderRecord, quantity: real): OrderRecord {
    var filled0 := Min(r.quantity, r.filledQuantity + quantity);
    var filled := if Abs(filled0 - r.quantity) <= TOLERANCE then r.quantity else filled0;
    r.(filledQuantity := filled,
       status := if filled >= r.quantity - TOLERANCE then Filled else PartiallyFilled)
  }

  function FillOrder(orders: map<Name, OrderRecord>, id: Name, quantity: real): map<Name, OrderRecord> {
    if id !in orders || quantity <= TOLERANCE then orders
    else orders[id := FilledRecord(orders[id], quantity)]
  }

  function FillOrders(orders: map<Name, OrderRecord>, trades: seq<Trade>): (r: map<Name, OrderRecord>)
    ensures r.Keys == orders.Keys
    decreases |trades|
  {
    if trades == [] then orders
    else FillOrders(FillOrder(orders, trades[0].resting.orderId, trades[0].quantity), trades[1..])
  }

  function NewRecord(id: Name, clientId: Name, request: OrderRequest, status: OrderStatus, filled: real): OrderRecord {
    OrderRecord(id, clientId, request.strategyId, request.instrument.instrumentId, request.side, request.orderType,
                status, request.quantity, request.price, filled)
  }

  // ---------- Transitions ----------

  function BookFor(e: Engine, instrument: Instrument): Book {
    if instrument.instrumentId in e.books then e.books[instrument.instrumentId] else Book(instrument, [], [], 1)
  }

  /** Matches a taker against one side of one book, updating book, ledger and fill counter. */
  function Match(e: Engine, key: Name, side: OrderSide, taker: Taker, quantity: real): (Engine, Sweep)
    requires key in e.books
  {
    var sweep := Walk(taker, Orders(e.books[key], side), quantity);
    (e.(books := e.books[key := WithOrders(e.books[key], side, sweep.left)],
        orders := FillOrders(e.orders, sweep.trades),
        nextFillId := e.nextFillId + |sweep.trades|),
     sweep)
  }

  function Submit(e: Engine, request: OrderRequest): (Engine, ExecutionResult) {
    var id, clientId := OrderName(e.nextOrderId), ClientName(e.nextClientOrderId);
    var e1 := e.(nextOrderId := e.nextOrderId + 1, nextClientOrderId := e.nextClientOrderId + 1);
    if request.orderType == Market then Refuse(e1, id, clientId, request, MarketOrdersUnsupported)
    else if request.price.None? || request.price.value <= 0.0 || request.quantity <= 0.0 then
      Refuse(e1, id, clientId, request, InvalidRequest)
    else
      var (e2, sweep) := Take(e1, id, clientId, request);
      var (e3, updates) := Settle(e2, id, clientId, request, sweep.rest);
      (e3, ExecutionResult(id, clientId, [OrderUpdate(id, clientId, Acknowledged, 0.0, Unstated)] + updates,
                           FillsOf(Incoming(id, request), sweep.trades, e.nextFillId)))
  }

  function Refuse(e: Engine, id: Name, clientId: Name, request: OrderRequest, reason: Reason)
    : (Engine, ExecutionResult)
  {
    (e.(orders := e.orders[id := NewRecord(id, clientId, request, Rejected, 0.0)]),
     ExecutionResult(id, clientId, [OrderUpdate(id, clientId, Rejected, 0.0, reason)], []))
  }

  /** Acknowledges an order and matches it against the opposite side. */
  function Take(e: Engine, id: Name, clientId: Name, request: OrderRequest): (Engine, Sweep) {
    var key := request.instrument.instrumentId;
    Match(e.(books := e.books[key := BookFor(e, request.instrument)],
             orders := e.orders[id := NewRecord(id, clientId, request, Acknowledged, 0.0)]),
          key, Opposite(request.side), Incoming(id, request), request.quantity)
  }

  /** Rests what is left of an order when it exceeds the tolerance. */
  function RestLeft(b: Book, id: Name, clientId: Name, request: OrderRequest, filled: real, rest: real): (Book, bool) {
    if rest > TOLERANCE then Add(b, request, id, clientId, filled) else (b, true)
  }

  function SettledRecord(r: OrderRecord, request: OrderRequest, filled: real, rested: bool): OrderRecord {
    if !rested then r.(status := Rejected, filledQuantity := filled)
    else if Abs(filled - request.quantity) <= TOLERANCE then r.(status := Filled, filledQuantity := request.quantity)
    else if filled > TOLERANCE then r.(status := PartiallyFilled, filledQuantity := filled)
    else r.(filledQuantity := filled)
  }

  function SettledUpdates(id: Name, clientId: Name, request: OrderRequest, filled: real,
                          rested: bool): seq<OrderUpdate> {
    if !rested then [OrderUpdate(id, clientId, Rejected, filled, FailedToRest)]
    else if Abs(filled - request.quantity) <= TOLERANCE then [OrderUpdate(id, clientId, Filled, filled, Unstated)]
    else if filled > TOLERANCE then [OrderUpdate(id, clientId, PartiallyFilled, filled, Unstated)]
    else []
  }

  /** Rests what is left of an order, writes its record and reports its state. */
  function Settle(e: Engine, id: Name, clientId: Name, request: OrderRequest, rest: real): (Engine, seq<OrderUpdate>)
    requires request.instrument.instrumentId in e.books && id in e.orders
  {
    var key := request.instrument.instrumentId;
    var filled := Max(0.0, request.quantity - rest);
    var (book, rested) := RestLeft(e.books[key], id, clientId, request, filled, rest);
    (e.(books := e.books[key := book], orders := e.orders[id := SettledRecord(e.orders[id], request, filled, rested)]),
     SettledUpdates(id, clientId, request, filled, rested))
  }

  /** Matches external levels, one after the other, against one side of the book. */
  function MatchLevels(e: Engine, key: Name, side: OrderSide, instrument: Instrument,
                       levels: seq<BookLevel>): (r: (Engine, seq<FillEvent>))
    requires key in e.books
    ensures key in r.0.books
    decreases |levels|
  {
    if levels == [] then (e, [])
    else
      var taker := External(instrument, levels[0].price);
      var (e1, sweep) := Match(e, key, side, taker, levels[0].quantity);
      var (e2, fills) := MatchLevels(e1, key, side, instrument, levels[1..]);
      (e2, FillsOf(taker, sweep.trades, e.nextFillId) + fills)
  }

  function MarketEvent(e: Engine, instrument: Instrument, bidLevels: seq<BookLevel>,
                       askLevels: seq<BookLevel>): (Engine, ExecutionResult) {
    var key := instrument.instrumentId;
    if key !in e.books then (e, ExecutionResult(Empty, Empty, [], []))
    else
      var (e1, fills1) := MatchLevels(e, key, Buy, instrument, askLevels);
      var (e2, fills2) := MatchLevels(e1, key, Sell, instrument, bidLevels);
      (e2, ExecutionResult(Empty, Empty, UpdatesFor(e2.orders, SortUnique(Touched(fills1 + fills2))), fills1 + fills2))
  }

  function CancelRefused(id: Name, r: OrderRecord, reason: Reason): ExecutionResult {
    ExecutionResult(id, r.clientOrderId, [OrderUpdate(id, r.clientOrderId, Rejected, r.filledQuantity, reason)], [])
  }

  function Cancel(e: Engine, id: Name, clientId: Name): (Engine, ExecutionResult) {
    if id !in e.orders
      then (e, ExecutionResult(id, clientId, [OrderUpdate(id, clientId, Rejected, 0.0, OpenOrderNotFound)], []))
    else
      var r := e.orders[id];
      if Terminal(r.status) then (e, CancelRefused(id, r, NotCancelable))
      else if r.instrumentId !in e.books ||
        !BookModel.Cancel(e.books[r.instrumentId], id).1 then (e, CancelRefused(id, r, OpenOrderNotFound))
      else
        (e.(books := e.books[r.instrumentId := BookModel.Cancel(e.books[r.instrumentId], id).0],
            orders := e.orders[id := r.(status := Canceled)]),
         ExecutionResult(id, r.clientOrderId,
                         [OrderUpdate(id, r.clientOrderId, PendingCancel, r.filledQuantity, Unstated),
                          OrderUpdate(id, r.clientOrderId, Canceled, r.filledQuantity, Unstated)], []))
  }

  predicate Restorable(request: OrderRequest, filled: real) {
    && request.price.Some? && request.price.value > 0.0 && request.quantity > 0.0
    && 0.0 <= filled < request.quantity - TOLERANCE
  }

  function Restore(e: Engine, id: Name, clientId: Name, request: OrderRequest, filled: real): Engine {
    if !Restorable(request, filled) then e
    else
      var key := request.instrument.instrumentId;
      var (book, restored) := Add(BookFor(e, request.instrument), request, id, clientId, filled);
      var r := NewRecord(id, clientId, request, if filled > 0.0 then PartiallyFilled else Acknowledged, filled);
      e.(books := e.books[key := book],
         orders := if restored then e.orders[id := r] else e.orders - {id})
  }

  // ---------- Touched orders: sorted, without repetition ----------

  function Rank(a: Name): (nat, nat) {
    match a
    case Empty => (0, 0)
    case OrderName(n) => (1, n)
    case ClientName(n) => (2, n)
    case FillName(n) => (3, n)
    case Other(n) => (4, n)
  }

  predicate Less(a: Name, b: Name) {
    Rank(a).0 < Rank(b).0 || (Rank(a).0 == Rank(b).0 && Rank(a).1 < Rank(b).1)
  }

  function Touched(fills: seq<FillEvent>): seq<Name> {
    seq(|fills|, i requires 0 <= i < |fills| => fills[i].orderId)
  }

  ghost predicate Increasing(ids: seq<Name>) {
    forall i, j :: 0 <= i < j < |ids| ==> Less(ids[i], ids[j])
  }

  function InsertName(ids: seq<Name>, id: Name): seq<Name> {
    if ids == [] || Less(id, ids[0]) then [id] + ids
    else if id == ids[0] then ids
    else [ids[0]] + InsertName(ids[1..], id)
  }

  function SortUnique(ids: seq<Name>): seq<Name> {
    if ids == [] then [] else InsertName(SortUnique(ids[1..]), ids[0])
  }

  function UpdatesFor(orders: map<Name, OrderRecord>, ids: seq<Name>): seq<OrderUpdate> {
    if ids == [] then []
    else
      var rest := UpdatesFor(orders, ids[1..]);
      if ids[0] !in orders then rest
      else
        var r := orders[ids[0]];
        [OrderUpdate(r.orderId, r.clientOrderId, r.status, r.filledQuantity, Unstated)] + rest
  }

  // ---------- Runs ----------

  datatype Operation =
    | SubmitOrder(request: OrderRequest)
    | ApplyMarketEvent(instrument: Instrument, bidLevels: seq<BookLevel>, askLevels: seq<BookLevel>)
    | CancelOrder(orderId: Name, clientOrderId: Name)
    | RestoreOpenOrder(orderId: Name, clientOrderId: Name, request: OrderRequest, filled: real)

  function Step(e: Engine, op: Operation): Engine {
    match op
    case SubmitOrder(request) => Submit(e, request).0
    case ApplyMarketEvent(instrument, bidLevels, askLevels) => MarketEvent(e, instrument, bidLevels, askLevels).0
    case CancelOrder(id, clientId) => Cancel(e, id, clientId).0
    case RestoreOpenOrder(id, clientId, request, filled) => Restore(e, id, clientId, request, filled)
  }

  function Run(e: Engine, ops: seq<Operation>): Engine
    decreases |ops|
  {
    if ops == [] then e else Run(Step(e, ops[0]), ops[1..])
  }
}
