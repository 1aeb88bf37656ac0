/** What a submit answers and leaves behind: the order that rests, its record, its updates, and the makers it met. */
module SubmitLaws {
  import opened Types
  import opened BookModel
  import opened BookLaws
  import opened EngineModel
  import opened EngineLaws
  import opened EngineSteps
  import opened MatchingLaws

  /** `t` is `s` with `o` behind every order whose price is at least as good, and before all others. */
  ghost predicate PlacedAt(side: OrderSide, s: seq<RestingOrder>, t: seq<RestingOrder>, o: RestingOrder, i: int) {
    && 0 <= i <= |s| && t == s[..i] + [o] + s[i..]
    && (forall k :: 0 <= k < i ==> !Better(side, Price(o), Price(s[k])))
    && (forall k :: i <= k < |s| ==> Better(side, Price(o), Price(s[k])))
  }

  ghost predicate Placed(side: OrderSide, s: seq<RestingOrder>, t: seq<RestingOrder>, o: RestingOrder) {
    exists i :: PlacedAt(side, s, t, o, i)
  }

  lemma {:induction false} InsertPlaces(side: OrderSide, s: seq<RestingOrder>, o: RestingOrder)
    requires Ordered(side, s)
    ensures Placed(side, s, Insert(side, s, o), o)
  {
    var i := InsertSplits(side, s, o);
    forall k | i <= k < |s|
      ensures Better(side, Price(o), Price(s[k]))
    {
      assert i == k || Before(side, s[i], s[k]);
    }
    assert PlacedAt(side, s, Insert(side, s, o), o, i);
  }

  /** Nothing but the book of one instrument changed. */
  ghost predicate OnlyBook(e: Engine, e': Engine, key: Name) {
    && (forall k :: k != key ==> (k in e'.books <==> k in e.books))
    && (forall k :: k != key && k in e.books ==> e'.books[k] == e.books[k])
  }

  // ---------- The order itself ----------

  /** A book is opened for the instrument of the first order, and stays the book of that instrument. */
  ghost predicate KeepsInstrument(e: Engine, e': Engine, instrument: Instrument)
    requires instrument.instrumentId in e'.books
  {
    var key := instrument.instrumentId;
    e'.books[key].instrument == if key in e.books then e.books[key].instrument else instrument
  }

  /** How the pieces of an accepted submit fit together. */
  lemma {:induction false} AcceptedSubmit(e: Engine, request: OrderRequest)
    requires Acceptable(request)
    ensures var id, clientId := OrderName(e.nextOrderId), ClientName(e.nextClientOrderId);
            var b, key := BookFor(e, request.instrument), request.instrument.instrumentId;
            var w := Walk(Incoming(id, request), Opposing(e, request), request.quantity);
            var filled := Max(0.0, request.quantity - w.rest);
            var b1 := WithOrders(b, Opposite(request.side), w.left);
            var (b2, rested) := RestLeft(b1, id, clientId, request, filled, w.rest);
            var record := NewRecord(id, clientId, request, Acknowledged, 0.0);
            var orders := FillOrders(e.orders[id := record], w.trades);
            var (e', result) := Submit(e, request);
            && e' == Engine(e.books[key := b2], orders[id := SettledRecord(orders[id], request, filled, rested)],
                            e.nextOrderId + 1, e.nextClientOrderId + 1, e.nextFillId + |w.trades|)
            && result.orderId == id && result.clientOrderId == clientId
            && result.updates == [OrderUpdate(id, clientId, Acknowledged, 0.0, Unstated)] +
                                 SettledUpdates(id, clientId, request, filled, rested)
  {
    hide Walk, FillsOf, FillOrders, RestLeft, SettledRecord, SettledUpdates, NewRecord;
    var id, key := OrderName(e.nextOrderId), request.instrument.instrumentId;
    var b := BookFor(e, request.instrument);
    var w := Walk(Incoming(id, request), Opposing(e, request), request.quantity);
    assert e.books[key := b][key := WithOrders(b, Opposite(request.side), w.left)] ==
           e.books[key := WithOrders(b, Opposite(request.side), w.left)];
  }

  /** The own record of an order that does not rest yet is not touched by matching. */
  lemma {:induction false} OwnRecord(e: Engine, request: OrderRequest)
    requires Agree(e, {}) && !OpenId(e, OrderName(e.nextOrderId))
    ensures var id := OrderName(e.nextOrderId);
            var record := NewRecord(id, ClientName(e.nextClientOrderId), request, Acknowledged, 0.0);
            var w := Walk(Incoming(id, request), Opposing(e, request), request.quantity);
            FillOrders(e.orders[id := record], w.trades)[id] == record
  {
    var id, key := OrderName(e.nextOrderId), request.instrument.instrumentId;
    var s := Opposing(e, request);
    WalkTrades(Incoming(id, request), s, request.quantity);
    if key in e.books {
      ClosedDoesNotRest(e, key, id);
    }
    var trades := Walk(Incoming(id, request), s, request.quantity).trades;
    forall t | t in trades
      ensures t.resting.orderId != id
    {
      assert t.resting in s;
    }
    FillOrdersFrame(e.orders[id := NewRecord(id, ClientName(e.nextClientOrderId), request, Acknowledged, 0.0)], trades,
                    id);
  }

  /** The book accepts what is left of the order. */
  lemma {:induction false} LeftFits(e: Engine, request: OrderRequest, left: seq<RestingOrder>, filled: real)
    requires Agree(e, {}) && !OpenId(e, OrderName(e.nextOrderId)) && Acceptable(request)
    requires forall o :: o in left ==> exists x :: x in Opposing(e, request) && x.orderId == o.orderId
    requires 0.0 <= filled < request.quantity - TOLERANCE
    ensures Compatible(WithOrders(BookFor(e, request.instrument), Opposite(request.side), left), request,
                       OrderName(e.nextOrderId), ClientName(e.nextClientOrderId), filled)
  {
    var id, key := OrderName(e.nextOrderId), request.instrument.instrumentId;
    var b := BookFor(e, request.instrument);
    if key in e.books {
      ClosedDoesNotRest(e, key, id);
    }
    hide Agree;
    var b1 := WithOrders(b, Opposite(request.side), left);
    KnownIs(b, id);
    KnownIs(b1, id);
  }

  lemma {:induction false} LeftIds(s: seq<RestingOrder>, trades: seq<Trade>, o: RestingOrder)
    requires |trades| <= |s| && o in Remainder(s, trades)
    ensures exists x :: x in s && x.orderId == o.orderId
  {
    if trades != [] && o !in s[|trades|..] {
      assert s[|trades| - 1] in s && o.orderId == s[|trades| - 1].orderId;
    } else {
      assert o in s;
    }
  }

  /** What an accepted submit leaves to do, in terms of its fills. */
  ghost predicate Settles(e: Engine, request: OrderRequest, e': Engine, result: ExecutionResult) {
    var id, clientId, v := OrderName(e.nextOrderId), ClientName(e.nextClientOrderId), Volume(result.fills);
    var own, own' := Orders(BookFor(e, request.instrument), request.side),
      Orders(BookFor(e', request.instrument), request.side);
    var acknowledged := OrderUpdate(id, clientId, Acknowledged, 0.0, Unstated);
    && id in e'.orders
    && if request.quantity - v > TOLERANCE then
         && Placed(request.side, own, own', RestingOrder(id, clientId, request, request.quantity - v,
                                                        BookFor(e, request.instrument).nextSequence))
         && RecordIs(e'.orders[id], id, clientId, request, if v > 0.0 then PartiallyFilled else Acknowledged, v)
         && result.updates == [acknowledged] +
              if v > 0.0 then [OrderUpdate(id, clientId, PartiallyFilled, v, Unstated)] else []
       else
         && own' == own
         && RecordIs(e'.orders[id], id, clientId, request, Filled, request.quantity)
         && result.updates == [acknowledged] + [OrderUpdate(id, clientId, Filled, v, Unstated)]
  }

  predicate RecordIs(r: OrderRecord, id: Name, clientId: Name, request: OrderRequest, status: OrderStatus,
                     filled: real) {
    match r
    case OrderRecord(orderId, clientOrderId, strategyId, instrumentId, side, orderType, s, quantity, price, f) =>
      && orderId == id && clientOrderId == clientId && strategyId == request.strategyId
      && instrumentId == request.instrument.instrumentId && side == request.side && orderType == request.orderType
      && quantity == request.quantity && price == request.price && s == status && f == filled
  }

  lemma {:induction false} SettlesWith(e: Engine, request: OrderRequest, e': Engine, result: ExecutionResult,
                                       rest: real, left: seq<RestingOrder>, record: OrderRecord)
    requires Agree(e, {}) && Acceptable(request)
    requires Volume(result.fills) + rest == request.quantity && rest >= 0.0
    requires Volume(result.fills) == 0.0 || Volume(result.fills) > TOLERANCE
    requires record == NewRecord(OrderName(e.nextOrderId), ClientName(e.nextClientOrderId), request, Acknowledged, 0.0)
    requires rest > TOLERANCE ==>
               Compatible(WithOrders(BookFor(e, request.instrument), Opposite(request.side), left), request,
                          OrderName(e.nextOrderId), ClientName(e.nextClientOrderId), Volume(result.fills))
    requires result.updates == [OrderUpdate(OrderName(e.nextOrderId), ClientName(e.nextClientOrderId), Acknowledged,
                                            0.0, Unstated)] +
                               SettledUpdates(OrderName(e.nextOrderId), ClientName(e.nextClientOrderId), request,
                                              Volume(result.fills), true)
    requires OrderName(e.nextOrderId) in e'.orders && request.instrument.instrumentId in e'.books
    requires e'.orders[OrderName(e.nextOrderId)] == SettledRecord(record, request, Volume(result.fills), true)
    requires e'.books[request.instrument.instrumentId] ==
             RestLeft(WithOrders(BookFor(e, request.instrument), Opposite(request.side), left),
                      OrderName(e.nextOrderId), ClientName(e.nextClientOrderId), request, Volume(result.fills), rest).0
    ensures Settles(e, request, e', result)
  {
    var v := Volume(result.fills);
    hide Volume, Compatible;
    var b := BookFor(e, request.instrument);
    if rest > TOLERANCE {
      OwnSideOrdered(e, request);
      hide Agree;
      var o := RestingOrder(OrderName(e.nextOrderId), ClientName(e.nextClientOrderId), request, rest, b.nextSequence);
      InsertPlaces(request.side, Orders(b, request.side), o);
    }
  }

  lemma {:induction false} OwnSideOrdered(e: Engine, request: OrderRequest)
    requires Agree(e, {})
    ensures Ordered(request.side, Orders(BookFor(e, request.instrument), request.side))
    ensures BookOk(BookFor(e, request.instrument))
  {
    var b := BookFor(e, request.instrument);
    assert request.instrument.instrumentId in e.books ==> SideOk(b, request.side);
  }

  /**
   An accepted order whose quantity is not filled rests: its own side is the old one with exactly that order, holding
   the unfilled quantity, in its place by price and time; the record is open and says how much was filled.  Otherwise
   its own side is as before and the record is filled.  No other book changes, and the updates say the same.
   */
  lemma {:induction false} SubmitRests(e: Engine, request: OrderRequest)
    requires Agree(e, {}) && !OpenId(e, OrderName(e.nextOrderId)) && Acceptable(request)
    ensures var (e', result) := Submit(e, request);
            && result.orderId == OrderName(e.nextOrderId) && result.clientOrderId == ClientName(e.nextClientOrderId)
            && request.instrument.instrumentId in e'.books && OnlyBook(e, e', request.instrument.instrumentId)
            && KeepsInstrument(e, e', request.instrument)
            && Settles(e, request, e', result)
  {
    hide Settles, Agree, Walk, FillOrders, FillsOf, Volume, RestLeft, SettledRecord, SettledUpdates, NewRecord,
         Executes, Compatible, BookOk, Live, Submit;
    var id, clientId := OrderName(e.nextOrderId), ClientName(e.nextClientOrderId);
    var (e', result) := Submit(e, request);
    var s := Opposing(e, request);
    var w := Walk(Incoming(id, request), s, request.quantity);
    OwnSideOrdered(e, request);
    AcceptedSubmit(e, request);
    OwnRecord(e, request);
    OpposingLive(e, request);
    SubmitSettles(e, request);
    WalkExecutes(request, id, s, request.quantity, e.nextFillId);
    WalkRests(e, request, w);
    var v := Volume(result.fills);
    if w.rest > TOLERANCE {
      LeftFits(e, request, w.left, v);
    }
    RestsFully(WithOrders(BookFor(e, request.instrument), Opposite(request.side), w.left), id, clientId, request, v,
               w.rest);
    SettlesWith(e, request, e', result, w.rest, w.left, NewRecord(id, clientId, request, Acknowledged, 0.0));
  }

  lemma {:induction false} RestsFully(b: Book, id: Name, clientId: Name, request: OrderRequest, filled: real,
                                      rest: real)
    requires rest > TOLERANCE ==> Compatible(b, request, id, clientId, filled)
    ensures var (b', rested) := RestLeft(b, id, clientId, request, filled, rest);
            rested && b'.instrument == b.instrument
  {
  }

  /** What a walk leaves comes from the list, and it trades nothing or more than the tolerance. */
  lemma {:induction false} WalkRests(e: Engine, request: OrderRequest, w: Sweep)
    requires BookOk(BookFor(e, request.instrument)) && Acceptable(request)
    requires w == Walk(Incoming(OrderName(e.nextOrderId), request), Opposing(e, request), request.quantity)
    ensures forall o :: o in w.left ==> exists x :: x in Opposing(e, request) && x.orderId == o.orderId
    ensures w.rest == request.quantity || (0.0 <= w.rest && request.quantity - w.rest > TOLERANCE)
  {
    var s := Opposing(e, request);
    OpposingLive(e, request);
    WalkLaw(Incoming(OrderName(e.nextOrderId), request), s, request.quantity);
    WalkRest(Incoming(OrderName(e.nextOrderId), request), s, request.quantity);
    hide Walk, Remainder, BookOk;
    forall o | o in w.left
      ensures exists x :: x in s && x.orderId == o.orderId
    {
      LeftIds(s, w.trades, o);
    }
  }

  // ---------- A refused order ----------

  /** An order that is not acceptable is rejected under fresh ids with the reason, and nothing else happens. */
  lemma {:induction false} SubmitRefuses(e: Engine, request: OrderRequest)
    requires !Acceptable(request)
    ensures var (e', result) := Submit(e, request);
            var id, clientId := OrderName(e.nextOrderId), ClientName(e.nextClientOrderId);
            var reason := if request.orderType == Market then MarketOrdersUnsupported else InvalidRequest;
            && result == ExecutionResult(id, clientId, [OrderUpdate(id, clientId, Rejected, 0.0, reason)], [])
            && e'.books == e.books && e'.nextFillId == e.nextFillId
            && e'.nextOrderId == e.nextOrderId + 1 && e'.nextClientOrderId == e.nextClientOrderId + 1
            && id in e'.orders && RecordIs(e'.orders[id], id, clientId, request, Rejected, 0.0)
            && OtherRecords(e, e', id)
  {
  }

  ghost predicate OtherRecords(e: Engine, e': Engine, id: Name) {
    && (forall x :: x != id ==> (x in e'.orders <==> x in e.orders))
    && (forall x :: x != id && x in e.orders ==> e'.orders[x] == e.orders[x])
  }

  // ---------- The makers ----------

  /** Each trade fills the record of its own resting order. */
  lemma {:induction false} FillOrdersAt(orders: map<Name, OrderRecord>, trades: seq<Trade>, k: nat)
    requires k < |trades| && trades[k].resting.orderId in orders && trades[k].quantity > TOLERANCE
    requires forall i, j :: 0 <= i < j < |trades| ==> trades[i].resting.orderId != trades[j].resting.orderId
    ensures var id := trades[k].resting.orderId;
            FillOrders(orders, trades)[id] == FilledRecord(orders[id], trades[k].quantity)
    decreases |trades|
  {
    hide FilledRecord;
    var t := trades[0];
    var rest := FillOrder(orders, t.resting.orderId, t.quantity);
    if k == 0 {
      FillOrdersFrame(rest, trades[1..], t.resting.orderId);
    } else {
      assert t.resting.orderId != trades[k].resting.orderId;
      FillOrdersAt(rest, trades[1..], k - 1);
    }
  }

  /** What a fill does to the record of the order it met. */
  ghost predicate Meets(e: Engine, e': Engine, o: RestingOrder, fill: FillEvent) {
    && o.orderId in e.orders && o.orderId in e'.orders
    && var r, r' := e.orders[o.orderId], e'.orders[o.orderId];
       if Residue(o, fill.quantity) == [] then r' == r.(status := Filled, filledQuantity := r.quantity)
       else r' == r.(status := PartiallyFilled, filledQuantity := r.filledQuantity + fill.quantity)
  }

  lemma {:induction false} FilledRecordMeets(r: OrderRecord, o: RestingOrder, key: Name, quantity: real)
    requires RecordOf(r, o, key) && TOLERANCE < quantity <= o.remaining
    ensures var r' := FilledRecord(r, quantity);
            if Residue(o, quantity) == [] then r' == r.(status := Filled, filledQuantity := r.quantity)
            else r' == r.(status := PartiallyFilled, filledQuantity := r.filledQuantity + quantity)
  {
  }

  /** The records of all orders that the fills did not meet are as before. */
  ghost predicate OthersKeep(e: Engine, e': Engine, id: Name, s: seq<RestingOrder>, n: nat)
    requires n <= |s|
  {
    forall x :: x in e.orders && x != id && !HasId(s[..n], x) ==> x in e'.orders && e'.orders[x] == e.orders[x]
  }

  /** The opposing orders that the fills met, one by one, and no others, have their records filled. */
  lemma {:induction false} SubmitFillsMakers(e: Engine, request: OrderRequest)
    requires Agree(e, {}) && !OpenId(e, OrderName(e.nextOrderId)) && Acceptable(request)
    ensures var (e', result) := Submit(e, request);
            var s := Opposing(e, request);
            && |result.fills| <= |s| && e'.orders.Keys == e.orders.Keys + {result.orderId}
            && (forall k :: 0 <= k < |result.fills| ==> Meets(e, e', s[k], result.fills[k]))
            && OthersKeep(e, e', result.orderId, s, |result.fills|)
  {
    hide Agree, Walk, FillOrders, FillsOf, RestLeft, SettledRecord, SettledUpdates, NewRecord, BookOk, Live, Submit,
         OthersKeep, Meets, OpenId;
    var id := OrderName(e.nextOrderId);
    var (e', result) := Submit(e, request);
    var s := Opposing(e, request);
    var w := Walk(Incoming(id, request), s, request.quantity);
    OwnSideOrdered(e, request);
    OpposingLive(e, request);
    AcceptedSubmit(e, request);
    SubmitSettles(e, request);
    WalkLaw(Incoming(id, request), s, request.quantity);
    hide Remainder, Executable, Traded, Opposing, Orders, WithOrders;
    var record := NewRecord(id, ClientName(e.nextClientOrderId), request, Acknowledged, 0.0);
    hide InPriorityOrder;
    assert |w.trades| <= |s| by {
      AtMostAll(Incoming(id, request), s, w.trades);
    }
    forall k | 0 <= k < |w.trades|
      ensures Meets(e, e', s[k], result.fills[k])
    {
      MakerMet(e, request, e', record, e'.orders[id], w.trades, k);
    }
    OthersKept(e, request, e', record, e'.orders[id], w.trades);
  }

  lemma {:induction false} AtMostAll(taker: Taker, s: seq<RestingOrder>, trades: seq<Trade>)
    requires InPriorityOrder(taker, s, trades)
    ensures |trades| <= |s|
  {
  }

  lemma {:induction false} OthersKept(e: Engine, request: OrderRequest, e': Engine, r: OrderRecord, r': OrderRecord,
                                      trades: seq<Trade>)
    requires InPriorityOrder(Incoming(OrderName(e.nextOrderId), request), Opposing(e, request), trades)
    requires e'.orders == FillOrders(e.orders[OrderName(e.nextOrderId) := r], trades)[OrderName(e.nextOrderId) := r']
    ensures OthersKeep(e, e', OrderName(e.nextOrderId), Opposing(e, request), |trades|)
  {
    hide FillOrders, Opposing, Executable;
    var id, s := OrderName(e.nextOrderId), Opposing(e, request);
    forall x | x in e.orders && x != id && !HasId(s[..|trades|], x)
      ensures x in e'.orders && e'.orders[x] == e.orders[x]
    {
      forall t | t in trades
        ensures t.resting.orderId != x
      {
        var k :| 0 <= k < |trades| && trades[k] == t;
        assert s[..|trades|][k].orderId == t.resting.orderId;
      }
      FillOrdersFrame(e.orders[id := r], trades, x);
    }
  }

  lemma {:induction false} MakerMet(e: Engine, request: OrderRequest, e': Engine, r: OrderRecord, r': OrderRecord,
                                    trades: seq<Trade>, k: nat)
    requires Agree(e, {}) && !OpenId(e, OrderName(e.nextOrderId)) && k < |trades| <= |Opposing(e, request)|
    requires InPriorityOrder(Incoming(OrderName(e.nextOrderId), request), Opposing(e, request), trades)
    requires e'.orders == FillOrders(e.orders[OrderName(e.nextOrderId) := r], trades)[OrderName(e.nextOrderId) := r']
    ensures Meets(e, e', Opposing(e, request)[k],
                  FillsOf(Incoming(OrderName(e.nextOrderId), request), trades, e.nextFillId)[k])
  {
    var id, s := OrderName(e.nextOrderId), Opposing(e, request);
    var key := request.instrument.instrumentId;
    assert s[k] in s && s[k] in Orders(e.books[key], Opposite(request.side));
    ClosedDoesNotRest(e, key, id);
    assert s[k].orderId != id && RecordOf(e.orders[s[k].orderId], s[k], key);
    assert Distinct(s) by {
      assert SideOk(e.books[key], Opposite(request.side));
    }
    hide Agree, FillOrders, RecordOf, Executable, FillsOf, Residue, FilledRecord;
    FillsAt(Incoming(id, request), trades, e.nextFillId, k);
    FilledRecordMeets(e.orders[s[k].orderId], s[k], key, trades[k].quantity);
    FillOrdersAt(e.orders[id := r], trades, k);
  }

  // ---------- Numbering ----------

  /** The fills of an operation. */
  function FillsOfStep(e: Engine, op: Operation): seq<FillEvent> {
    match op
    case SubmitOrder(request) => Submit(e, request).1.fills
    case ApplyMarketEvent(instrument, bidLevels, askLevels) => MarketEvent(e, instrument, bidLevels, askLevels).1.fills
    case CancelOrder(orderId, clientOrderId) => EngineModel.Cancel(e, orderId, clientOrderId).1.fills
    case RestoreOpenOrder(_, _, _, _) => []
  }

  function FillsOfRun(e: Engine, ops: seq<Operation>): seq<FillEvent>
    decreases |ops|
  {
    if ops == [] then [] else FillsOfStep(e, ops[0]) + FillsOfRun(Step(e, ops[0]), ops[1..])
  }

  /** Fills are numbered one after the other from `n` up to `n'`. */
  ghost predicate Numbered(fills: seq<FillEvent>, n: nat, n': nat) {
    n' == n + |fills| && forall k :: 0 <= k < |fills| ==> fills[k].fillId == FillName(n + k)
  }

  lemma {:induction false} NumberedConcat(a: seq<FillEvent>, b: seq<FillEvent>, n: nat, m: nat, n': nat)
    requires Numbered(a, n, m) && Numbered(b, m, n')
    ensures Numbered(a + b, n, n')
  {
  }

  lemma {:induction false} FillsNumbered(taker: Taker, trades: seq<Trade>, n: nat)
    ensures Numbered(FillsOf(taker, trades, n), n, n + |trades|)
  {
    forall k | 0 <= k < |trades|
      ensures FillsOf(taker, trades, n)[k].fillId == FillName(n + k)
    {
      FillsAt(taker, trades, n, k);
    }
  }

  lemma {:induction false} LevelsNumbered(e: Engine, key: Name, side: OrderSide, instrument: Instrument,
                                          levels: seq<BookLevel>)
    requires key in e.books
    ensures var m := MatchLevels(e, key, side, instrument, levels);
            Numbered(m.1, e.nextFillId, m.0.nextFillId)
    decreases |levels|
  {
    if levels != [] {
      hide FillsOf, Walk, Numbered;
      var taker := External(instrument, levels[0].price);
      var (e1, sweep) := Match(e, key, side, taker, levels[0].quantity);
      FillsNumbered(taker, sweep.trades, e.nextFillId);
      LevelsNumbered(e1, key, side, instrument, levels[1..]);
      NumberedConcat(FillsOf(taker, sweep.trades, e.nextFillId), MatchLevels(e1, key, side, instrument, levels[1..]).1,
                     e.nextFillId, e1.nextFillId, MatchLevels(e1, key, side, instrument, levels[1..]).0.nextFillId);
    } else {
      assert MatchLevels(e, key, side, instrument, levels) == (e, []);
    }
  }

  lemma {:induction false} SubmitNumbered(e: Engine, request: OrderRequest)
    ensures var (e', result) := Submit(e, request);
            && Numbered(result.fills, e.nextFillId, e'.nextFillId)
            && e'.nextOrderId == e.nextOrderId + 1 && e'.nextClientOrderId == e.nextClientOrderId + 1
            && result.orderId == OrderName(e.nextOrderId)
  {
    hide Submit, Walk, FillsOf, RestLeft, SettledRecord, SettledUpdates, NewRecord, FillOrders, Numbered;
    if Acceptable(request) {
      AcceptedSubmit(e, request);
      SubmitSettles(e, request);
      hide Acceptable;
      var id := OrderName(e.nextOrderId);
      FillsNumbered(Incoming(id, request), Walk(Incoming(id, request), Opposing(e, request), request.quantity).trades,
                    e.nextFillId);
    } else {
      SubmitRefuses(e, request);
      NoneNumbered(e.nextFillId);
    }
  }

  lemma {:induction false} LevelsKeepCounters(e: Engine, key: Name, side: OrderSide, instrument: Instrument,
                                              levels: seq<BookLevel>)
    requires key in e.books
    ensures var e' := MatchLevels(e, key, side, instrument, levels).0;
            e'.nextOrderId == e.nextOrderId && e'.nextClientOrderId == e.nextClientOrderId
    decreases |levels|
  {
    if levels != [] {
      hide Walk;
      LevelsKeepCounters(Match(e, key, side, External(instrument, levels[0].price), levels[0].quantity).0, key, side,
                         instrument, levels[1..]);
    }
  }

  lemma {:induction false} EventNumbered(e: Engine, instrument: Instrument, bidLevels: seq<BookLevel>,
                                         askLevels: seq<BookLevel>)
    ensures var (e', result) := MarketEvent(e, instrument, bidLevels, askLevels);
            && Numbered(result.fills, e.nextFillId, e'.nextFillId)
            && e'.nextOrderId == e.nextOrderId && e'.nextClientOrderId == e.nextClientOrderId
  {
    var key := instrument.instrumentId;
    if key in e.books {
      var (e1, fills1) := MatchLevels(e, key, Buy, instrument, askLevels);
      var (e2, fills2) := MatchLevels(e1, key, Sell, instrument, bidLevels);
      LevelsNumbered(e, key, Buy, instrument, askLevels);
      LevelsNumbered(e1, key, Sell, instrument, bidLevels);
      LevelsKeepCounters(e, key, Buy, instrument, askLevels);
      LevelsKeepCounters(e1, key, Sell, instrument, bidLevels);
      hide MatchLevels, UpdatesFor, SortUnique;
      NumberedConcat(fills1, fills2, e.nextFillId, e1.nextFillId, e2.nextFillId);
    }
  }

  lemma {:induction false} StepNumbered(e: Engine, op: Operation)
    ensures var e' := Step(e, op);
            && Numbered(FillsOfStep(e, op), e.nextFillId, e'.nextFillId)
            && e'.nextOrderId == e.nextOrderId + (if op.SubmitOrder? then 1 else 0)
            && e'.nextClientOrderId == e.nextClientOrderId + (if op.SubmitOrder? then 1 else 0)
  {
    hide Numbered, Submit, MarketEvent;
    match op
    case SubmitOrder(request) => SubmitNumbered(e, request);
    case ApplyMarketEvent(instrument, bidLevels, askLevels) => EventNumbered(e, instrument, bidLevels, askLevels);
    case CancelOrder(orderId, clientOrderId) => NoneNumbered(e.nextFillId);
    case RestoreOpenOrder(_, _, _, _) => NoneNumbered(e.nextFillId);
  }

  lemma {:induction false} NoneNumbered(n: nat)
    ensures Numbered([], n, n)
  {
  }

  function Submits(ops: seq<Operation>): nat {
    if ops == [] then 0 else (if ops[0].SubmitOrder? then 1 else 0) + Submits(ops[1..])
  }

  /** In every run fills and submitted orders are numbered one after the other, so no id is given out twice. */
  lemma {:induction false} RunNumbered(e: Engine, ops: seq<Operation>)
    ensures Numbered(FillsOfRun(e, ops), e.nextFillId, Run(e, ops).nextFillId)
    ensures Run(e, ops).nextOrderId == e.nextOrderId + Submits(ops)
    ensures Run(e, ops).nextClientOrderId == e.nextClientOrderId + Submits(ops)
    decreases |ops|
  {
    if ops != [] {
      hide FillsOfStep, Step, Numbered;
      StepNumbered(e, ops[0]);
      var e1 := Step(e, ops[0]);
      RunNumbered(e1, ops[1..]);
      NumberedConcat(FillsOfStep(e, ops[0]), FillsOfRun(e1, ops[1..]), e.nextFillId, e1.nextFillId,
                     Run(e1, ops[1..]).nextFillId);
    }
  }
}
