/** What cancelling and restoring answer and leave behind, for every id and every request. */
module AnswerLaws {
  import opened Types
  import opened BookModel
  import opened BookLaws
  import opened EngineModel
  import opened EngineLaws
  import opened EngineSteps
  import opened RestoreLaws
  import opened SubmitLaws

  // ---------- Cancel ----------

  /** `t` is `s` without its one order with the id. */
  ghost predicate Dropped(s: seq<RestingOrder>, t: seq<RestingOrder>, id: Name) {
    exists i :: 0 <= i < |s| && s[i].orderId == id && t == Cut(s, i, [])
  }

  /**
   Cancelling an open order takes exactly that order out of its book, closes its record and nothing else, and reports
   both steps under the record's client id with what was filled of it.
   */
  lemma {:induction false} CancelLaw(e: Engine, id: Name, clientId: Name)
    requires Agree(e, {}) && OpenId(e, id)
    ensures var (e', result) := EngineModel.Cancel(e, id, clientId);
            var r := e.orders[id];
            && result.orderId == id && result.clientOrderId == r.clientOrderId && result.fills == []
            && result.updates == [OrderUpdate(id, r.clientOrderId, PendingCancel, r.filledQuantity, Unstated),
                                  OrderUpdate(id, r.clientOrderId, Canceled, r.filledQuantity, Unstated)]
            && OtherRecords(e, e', id) && id in e'.orders && e'.orders[id] == r.(status := Canceled)
            && OnlyBook(e, e', r.instrumentId) && r.instrumentId in e.books && r.instrumentId in e'.books
            && var b, b' := e.books[r.instrumentId], e'.books[r.instrumentId];
               && Dropped(Orders(b, r.side), Orders(b', r.side), id)
               && Orders(b', Opposite(r.side)) == Orders(b, Opposite(r.side))
  {
    hide Agree, BookModel.Cancel, Known, BookOk, OnlyBook, OtherRecords, Resting, RecordOf;
    var r := e.orders[id];
    var i := LocateOpen(e, id);
    var b := e.books[r.instrumentId];
    assert Orders(b, r.side)[i].orderId == id && BookOk(b) by {
      LocatedIs(e, id, i);
    }
    CancelCuts(b, r.side, i);
    assert Dropped(Orders(b, r.side), Cut(Orders(b, r.side), i, []), id);
    hide Cut, Dropped;
    CancelOnly(e, id, clientId, WithOrders(b, r.side, Cut(Orders(b, r.side), i, [])));
  }

  lemma {:induction false} LocatedIs(e: Engine, id: Name, i: nat)
    requires Agree(e, {}) && OpenId(e, id) && e.orders[id].instrumentId in e.books
    requires i < |Orders(e.books[e.orders[id].instrumentId], e.orders[id].side)|
    requires RecordOf(e.orders[id], Orders(e.books[e.orders[id].instrumentId], e.orders[id].side)[i],
                      e.orders[id].instrumentId)
    ensures Orders(e.books[e.orders[id].instrumentId], e.orders[id].side)[i].orderId == id
    ensures BookOk(e.books[e.orders[id].instrumentId])
  {
  }

  lemma {:induction false} CancelOnly(e: Engine, id: Name, clientId: Name, b': Book)
    requires OpenId(e, id) && e.orders[id].instrumentId in e.books
    requires BookModel.Cancel(e.books[e.orders[id].instrumentId], id) == (b', true)
    ensures var (e', result) := EngineModel.Cancel(e, id, clientId);
            var r := e.orders[id];
            && result == ExecutionResult(id, r.clientOrderId,
                                         [OrderUpdate(id, r.clientOrderId, PendingCancel, r.filledQuantity, Unstated),
                                          OrderUpdate(id, r.clientOrderId, Canceled, r.filledQuantity, Unstated)], [])
            && OtherRecords(e, e', id) && id in e'.orders && e'.orders[id] == r.(status := Canceled)
            && OnlyBook(e, e', r.instrumentId) && r.instrumentId in e'.books && e'.books[r.instrumentId] == b'
  {
    hide BookModel.Cancel;
  }

  /** Cancelling anything else changes nothing and says why, with what the record knows. */
  lemma {:induction false} CancelRefuses(e: Engine, id: Name, clientId: Name)
    requires !OpenId(e, id) || !Rests(e, id)
    ensures var (e', result) := EngineModel.Cancel(e, id, clientId);
            var known := id in e.orders;
            var client := if known then e.orders[id].clientOrderId else clientId;
            var filled := if known then e.orders[id].filledQuantity else 0.0;
            var reason := if known && Terminal(e.orders[id].status) then NotCancelable else OpenOrderNotFound;
            && e' == e
            && result == ExecutionResult(id, client, [OrderUpdate(id, client, Rejected, filled, reason)], [])
  {
    hide HasId;
  }

  // ---------- Restore ----------

  /** What the engine itself demands of a restored order. */
  predicate Plausible(request: OrderRequest, filled: real) {
    && request.price.Some? && request.price.value > 0.0 && request.quantity > 0.0
    && filled >= 0.0 && filled < request.quantity - TOLERANCE
  }

  /** What the book demands besides. */
  ghost predicate Fits(e: Engine, id: Name, clientId: Name, request: OrderRequest) {
    && id != Empty && clientId != Empty && request.orderType == Limit
    && forall side, o :: o in Orders(BookFor(e, request.instrument), side) ==> o.orderId != id
  }

  /**
   Restoring: an implausible order is ignored; one that fits its book rests there with what is not filled of it, in its
   place by price and time, under an open record; any other loses its record.  Other records and books stay.
   */
  lemma {:induction false} RestoreLaw(e: Engine, id: Name, clientId: Name, request: OrderRequest, filled: real)
    requires Agree(e, {})
    ensures var e' := Restore(e, id, clientId, request, filled);
            var key, b := request.instrument.instrumentId, BookFor(e, request.instrument);
            && (!Plausible(request, filled) ==> e' == e)
            && (Plausible(request, filled) ==>
                  && OtherRecords(e, e', id) && OnlyBook(e, e', key) && key in e'.books
                  && Orders(e'.books[key], Opposite(request.side)) == Orders(b, Opposite(request.side))
                  && if Fits(e, id, clientId, request) then
                       && Placed(request.side, Orders(b, request.side), Orders(e'.books[key], request.side),
                                 RestingOrder(id, clientId, request, request.quantity - filled, b.nextSequence))
                       && id in e'.orders
                       && RecordIs(e'.orders[id], id, clientId, request,
                                   if filled > 0.0 then PartiallyFilled else Acknowledged, filled)
                     else id !in e'.orders && Orders(e'.books[key], request.side) == Orders(b, request.side))
  {
    hide Agree, Known, Fits, Placed, Insert, BookOk, Add, OtherRecords, OnlyBook, RecordIs;
    OwnSideOrdered(e, request);
    FitsIs(e, id, clientId, request);
    if Plausible(request, filled) {
      RestoreIs(e, id, clientId, request, filled);
      if Fits(e, id, clientId, request) {
        AddPlaces(BookFor(e, request.instrument), request, id, clientId, filled);
      } else {
        AddNothing(BookFor(e, request.instrument), request, id, clientId, filled);
      }
    }
  }

  lemma {:induction false} RestoreIs(e: Engine, id: Name, clientId: Name, request: OrderRequest, filled: real)
    requires Plausible(request, filled)
    ensures var e' := Restore(e, id, clientId, request, filled);
            var key := request.instrument.instrumentId;
            var (b', restored) := Add(BookFor(e, request.instrument), request, id, clientId, filled);
            && OtherRecords(e, e', id) && OnlyBook(e, e', key) && key in e'.books && e'.books[key] == b'
            && (id in e'.orders <==> restored)
            && (restored ==> RecordIs(e'.orders[id], id, clientId, request,
                                      if filled > 0.0 then PartiallyFilled else Acknowledged, filled))
  {
    hide Add;
  }

  lemma {:induction false} AddPlaces(b: Book, request: OrderRequest, id: Name, clientId: Name, filled: real)
    requires Ordered(request.side, Orders(b, request.side))
    requires b.instrument.instrumentId == request.instrument.instrumentId && Plausible(request, filled)
    requires id != Empty && clientId != Empty && request.orderType == Limit && !Known(b, id)
    ensures var (b', added) := Add(b, request, id, clientId, filled);
            && added && Orders(b', Opposite(request.side)) == Orders(b, Opposite(request.side))
            && Placed(request.side, Orders(b, request.side), Orders(b', request.side),
                      RestingOrder(id, clientId, request, request.quantity - filled, b.nextSequence))
  {
    hide Known, Insert, Placed;
    InsertPlaces(request.side, Orders(b, request.side),
                 RestingOrder(id, clientId, request, request.quantity - filled, b.nextSequence));
  }

  lemma {:induction false} AddNothing(b: Book, request: OrderRequest, id: Name, clientId: Name, filled: real)
    requires id == Empty || clientId == Empty || request.orderType != Limit || Known(b, id)
    ensures Add(b, request, id, clientId, filled) == (b, false)
  {
    hide Known, Insert;
  }

  lemma {:induction false} FitsIs(e: Engine, id: Name, clientId: Name, request: OrderRequest)
    requires Agree(e, {})
    ensures var b := BookFor(e, request.instrument);
            && b.instrument.instrumentId == request.instrument.instrumentId
            && (Fits(e, id, clientId, request) <==>
                id != Empty && clientId != Empty && request.orderType == Limit && !Known(b, id))
  {
    var b := BookFor(e, request.instrument);
    KnownIs(b, id);
    assert Orders(b, Buy) == b.bids && Orders(b, Sell) == b.asks;
    hide Agree, Known;
  }
}
