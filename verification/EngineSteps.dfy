/** Submitting, cancelling and restoring keep ledger and books in agreement. */
module EngineSteps {
  import opened Types
  import opened BookModel
  import opened BookLaws
  import opened EngineModel
  import opened EngineLaws
  import opened MatchingLaws

  /** A pending order that is closed is simply settled. */
  lemma {:induction false} ReleaseAgrees(e: Engine, id: Name)
    requires Agree(e, {id}) && (id in e.orders ==> Terminal(e.orders[id].status))
    ensures Agree(e, {})
  {
  }

  function RestingRecord(id: Name, clientId: Name, request: OrderRequest, filled: real): OrderRecord {
    NewRecord(id, clientId, request, if filled > 0.0 then PartiallyFilled else Acknowledged, filled)
  }

  /** Resting a pending order under its record settles it. */
  lemma {:induction false} AddAgrees(e: Engine, id: Name, clientId: Name, request: OrderRequest, filled: real)
    requires Agree(e, {id}) && request.instrument.instrumentId in e.books && id in e.orders
    requires Compatible(e.books[request.instrument.instrumentId], request, id, clientId, filled)
    requires e.orders[id] == RestingRecord(id, clientId, request, filled)
    ensures var key := request.instrument.instrumentId;
            Agree(e.(books := e.books[key := Add(e.books[key], request, id, clientId, filled).0]), {})
  {
    var key := request.instrument.instrumentId;
    var b := e.books[key];
    var b' := Add(b, request, id, clientId, filled).0;
    var e' := e.(books := e.books[key := b']);
    AddKeepsBook(b, request, id, clientId, filled);
    assert b'.instrument == b.instrument;
    hide BookOk, Insert, Known;
    forall key', side, o | key' in e'.books && o in Orders(e'.books[key'], side)
      ensures o.orderId in e'.orders && RecordOf(e'.orders[o.orderId], o, key')
    {
      AddedOrders(b, request, id, clientId, filled, side);
      if key' != key || o in Orders(b, side) {
        assert o in Orders(e.books[key'], side);
      }
    }
    forall x | x in e'.orders && !Terminal(e'.orders[x].status)
      ensures Rests(e', x)
    {
      AddedKnown(b, request, id, clientId, filled, x);
      assert x == id || Rests(e, x);
    }
  }

  lemma {:induction false} AddedOrders(b: Book, request: OrderRequest, id: Name, clientId: Name, filled: real,
                                       side: OrderSide)
    requires Compatible(b, request, id, clientId, filled)
    ensures var o := RestingOrder(id, clientId, request, request.quantity - filled, b.nextSequence);
            forall x :: x in Orders(Add(b, request, id, clientId, filled).0, side) <==>
                        x in Orders(b, side) || (x == o && side == request.side)
  {
    var o := RestingOrder(id, clientId, request, request.quantity - filled, b.nextSequence);
    InsertMembers(request.side, Orders(b, request.side), o);
  }

  lemma {:induction false} AddedKnown(b: Book, request: OrderRequest, id: Name, clientId: Name, filled: real, x: Name)
    requires Compatible(b, request, id, clientId, filled)
    ensures Known(Add(b, request, id, clientId, filled).0, x) <==> x == id || Known(b, x)
  {
    var b' := Add(b, request, id, clientId, filled).0;
    var o := RestingOrder(id, clientId, request, request.quantity - filled, b.nextSequence);
    AddedOrders(b, request, id, clientId, filled, Buy);
    AddedOrders(b, request, id, clientId, filled, Sell);
    KnownIs(b, x);
    KnownIs(b', x);
    assert o in Orders(b', request.side);
  }

  /** Matching an admitted order keeps agreement and leaves its own record alone. */
  lemma {:induction false} TakeAgrees(e: Engine, id: Name, clientId: Name, request: OrderRequest)
    requires Agree(e, {}) && !OpenId(e, id)
    ensures var (e', sweep) := Take(e, id, clientId, request);
            && Agree(e', {id})
            && request.instrument.instrumentId in e'.books
            && id in e'.orders && e'.orders[id] == NewRecord(id, clientId, request, Acknowledged, 0.0)
            && (sweep.rest == request.quantity || (0.0 <= sweep.rest && request.quantity - sweep.rest > TOLERANCE))
  {
    var key := request.instrument.instrumentId;
    var r := NewRecord(id, clientId, request, Acknowledged, 0.0);
    var e1 := e.(books := e.books[key := BookFor(e, request.instrument)], orders := e.orders[id := r]);
    AdmitAgrees(e, request.instrument, id, r);
    MatchAgrees(e1, {id}, key, Opposite(request.side), Incoming(id, request), request.quantity);
    var s := Orders(e1.books[key], Opposite(request.side));
    assert SideOk(e1.books[key], Opposite(request.side));
    WalkRest(Incoming(id, request), s, request.quantity);
    WalkTrades(Incoming(id, request), s, request.quantity);
    FillOrdersFrame(e1.orders, Walk(Incoming(id, request), s, request.quantity).trades, id);
  }

  /** Settling keeps agreement, and what is left of the order always finds its place in the book. */
  lemma {:induction false} SettleAgrees(e: Engine, id: Name, clientId: Name, request: OrderRequest, rest: real)
    requires Agree(e, {id}) && request.instrument.instrumentId in e.books && id in e.orders
    requires e.orders[id] == NewRecord(id, clientId, request, Acknowledged, 0.0)
    requires id != Empty && clientId != Empty && request.orderType == Limit
    requires request.price.Some? && request.price.value > 0.0 && request.quantity > 0.0
    requires rest == request.quantity || (0.0 <= rest && request.quantity - rest > TOLERANCE)
    ensures var (e', updates) := Settle(e, id, clientId, request, rest);
            Agree(e', {}) && forall u :: u in updates ==> u.reason == Unstated
  {
    hide Agree, Add;
    var key := request.instrument.instrumentId;
    var filled := request.quantity - rest;
    var (e', updates) := Settle(e, id, clientId, request, rest);
    if rest > TOLERANCE {
      PendingUnknown(e, id, key);
      var e1 := e.(orders := e.orders[id := RestingRecord(id, clientId, request, filled)]);
      RewriteAgrees(e, id, RestingRecord(id, clientId, request, filled));
      assert Add(e1.books[key], request, id, clientId, filled).1 by {
        AddsWhen(e1.books[key], request, id, clientId, filled);
      }
      AddAgrees(e1, id, clientId, request, filled);
      assert e'.orders == e1.orders;
      AgreeFrame(e1.(books := e1.books[key := Add(e1.books[key], request, id, clientId, filled).0]), e', {});
    } else {
      var e1 := e.(orders := e.orders[id := e.orders[id].(status := Filled, filledQuantity := request.quantity)]);
      RewriteAgrees(e, id, e1.orders[id]);
      ReleaseAgrees(e1, id);
      assert e'.books == e.books;
      AgreeFrame(e1, e', {});
    }
  }

  lemma {:induction false} AddsWhen(b: Book, request: OrderRequest, id: Name, clientId: Name, filled: real)
    ensures Add(b, request, id, clientId, filled).1 <==> Compatible(b, request, id, clientId, filled)
    ensures !Add(b, request, id, clientId, filled).1 ==> Add(b, request, id, clientId, filled).0 == b
  {
  }

  lemma {:induction false} PendingUnknown(e: Engine, id: Name, key: Name)
    requires Agree(e, {id}) && key in e.books
    ensures e.books[key].instrument.instrumentId == key && !Known(e.books[key], id)
  {
    KnownIs(e.books[key], id);
    assert forall side, o :: o in Orders(e.books[key], side) ==> o.orderId != id;
    assert e.books[key].bids == Orders(e.books[key], Buy) && e.books[key].asks == Orders(e.books[key], Sell);
  }

  lemma {:induction false} RewriteAgrees(e: Engine, id: Name, r: OrderRecord)
    requires Agree(e, {id}) && r.orderId == id
    ensures Agree(e.(orders := e.orders[id := r]), {id})
  {
    var e' := e.(orders := e.orders[id := r]);
    forall x | x in e'.orders && x != id && !Terminal(e'.orders[x].status)
      ensures Rests(e', x)
    {
      assert Rests(e, x);
    }
  }

  /** A submitted order keeps agreement when its generated id is not an open order already; it never fails to rest. */
  lemma {:induction false} SubmitAgrees(e: Engine, request: OrderRequest)
    requires Agree(e, {}) && !OpenId(e, OrderName(e.nextOrderId))
    ensures Agree(Submit(e, request).0, {})
    ensures forall u :: u in Submit(e, request).1.updates ==> u.reason != FailedToRest
  {
    hide Agree, Take, Settle;
    var id, clientId := OrderName(e.nextOrderId), ClientName(e.nextClientOrderId);
    var e1 := e.(nextOrderId := e.nextOrderId + 1, nextClientOrderId := e.nextClientOrderId + 1);
    AgreeFrame(e, e1, {});
    if request.orderType == Market || request.price.None? || request.price.value <= 0.0 || request.quantity <= 0.0 {
      RefuseAgrees(e1, id, NewRecord(id, clientId, request, Rejected, 0.0));
    } else {
      TakeAgrees(e1, id, clientId, request);
      var (e2, sweep) := Take(e1, id, clientId, request);
      SettleAgrees(e2, id, clientId, request, sweep.rest);
    }
  }

  /** The last update of a settlement reports the record, or there is none and the record is as it was acknowledged. */
  lemma {:induction false} SettleReports(e: Engine, id: Name, clientId: Name, request: OrderRequest, rest: real)
    requires request.instrument.instrumentId in e.books && id in e.orders
    requires var r := e.orders[id];
             r == NewRecord(id, clientId, request, r.status, r.filledQuantity) &&
               (rest == request.quantity ==> r.status == Acknowledged)
    requires rest == request.quantity || (0.0 <= rest && request.quantity - rest > TOLERANCE)
    ensures var (e', updates) := Settle(e, id, clientId, request, rest);
            && id in e'.orders && |updates| <= 1
            && Reports(if updates == [] then OrderUpdate(id, clientId, Acknowledged, 0.0, Unstated) else updates[0],
                       e'.orders[id])
  {
    hide Add;
  }

  /** The update tells the record's status and its filled quantity, up to the tolerance that closing absorbs. */
  predicate Reports(u: OrderUpdate, r: OrderRecord) {
    && u.orderId == r.orderId && u.clientOrderId == r.clientOrderId
    && u.status == r.status && Abs(u.filledQuantity - r.filledQuantity) <= TOLERANCE
  }

  /** Matching changes at most status and filled quantity of the taker's own record, and neither if nothing traded. */
  lemma {:induction false} TakeRecord(e: Engine, id: Name, clientId: Name, request: OrderRequest)
    requires BookOk(BookFor(e, request.instrument))
    ensures var (e', sweep) := Take(e, id, clientId, request);
            && request.instrument.instrumentId in e'.books && id in e'.orders
            && e'.orders[id] == NewRecord(id, clientId, request, e'.orders[id].status, e'.orders[id].filledQuantity)
            && (sweep.rest == request.quantity ==> e'.orders[id].status == Acknowledged)
            && (sweep.rest == request.quantity || (0.0 <= sweep.rest && request.quantity - sweep.rest > TOLERANCE))
  {
    var r0 := NewRecord(id, clientId, request, Acknowledged, 0.0);
    var (e', sweep) := Take(e, id, clientId, request);
    assert SideOk(BookFor(e, request.instrument), Opposite(request.side));
    WalkLaw(Incoming(id, request), Opposing(e, request), request.quantity);
    WalkRest(Incoming(id, request), Opposing(e, request), request.quantity);
    hide Walk, BookOk, SideOk, Remainder;
    FillOrdersShape(e.orders[id := r0], sweep.trades, id);
    if sweep.trades != [] {
      TradedPositive(sweep.trades[1..]);
    }
  }

  /** A submit starts with an acknowledgement or a rejection, and its last update reports the record it leaves. */
  lemma {:induction false} SubmitReports(e: Engine, request: OrderRequest)
    requires BookOk(BookFor(e, request.instrument))
    ensures var (e', result) := Submit(e, request);
            var n := |result.updates|;
            && 1 <= n <= 2 && result.updates[0].status == (if Acceptable(request) then Acknowledged else Rejected)
            && result.orderId in e'.orders && Reports(result.updates[n - 1], e'.orders[result.orderId])
  {
    hide BookOk, Take, Settle;
    if Acceptable(request) {
      var id, clientId := OrderName(e.nextOrderId), ClientName(e.nextClientOrderId);
      var e1 := e.(nextOrderId := e.nextOrderId + 1, nextClientOrderId := e.nextClientOrderId + 1);
      TakeRecord(e1, id, clientId, request);
      var (e2, sweep) := Take(e1, id, clientId, request);
      SettleReports(e2, id, clientId, request, sweep.rest);
    }
  }

  lemma {:induction false} RefuseAgrees(e: Engine, id: Name, r: OrderRecord)
    requires Agree(e, {}) && !OpenId(e, id) && r.orderId == id && Terminal(r.status)
    ensures Agree(e.(orders := e.orders[id := r]), {})
  {
    var e' := e.(orders := e.orders[id := r]);
    forall key, side, o | key in e'.books && o in Orders(e'.books[key], side)
      ensures o.orderId in e'.orders && RecordOf(e'.orders[o.orderId], o, key)
    {
      assert o in Orders(e.books[key], side);
    }
    forall x | x in e'.orders && !Terminal(e'.orders[x].status)
      ensures Rests(e', x)
    {
      assert Rests(e, x);
    }
  }

  /** Cancelling keeps agreement, and cancelling an open order always succeeds. */
  lemma {:induction false} CancelAgrees(e: Engine, id: Name, clientId: Name)
    requires Agree(e, {})
    ensures var (e', result) := EngineModel.Cancel(e, id, clientId);
            && Agree(e', {})
            && (OpenId(e, id) ==>
                  && |result.updates| == 2
                  && result.updates[0].status == PendingCancel && result.updates[1].status == Canceled
                  && id in e'.orders && e'.orders[id] == e.orders[id].(status := Canceled)
                  && !Known(e'.books[e.orders[id].instrumentId], id))
            && (!OpenId(e, id) ==> e' == e && |result.updates| == 1 && result.updates[0].status == Rejected)
  {
    if OpenId(e, id) {
      var key := e.orders[id].instrumentId;
      assert Rests(e, id);
      var b := e.books[key];
      var side := if HasId(b.bids, id) then Buy else Sell;
      var i := IndexOf(Orders(b, side), id);
      CancelIs(b, side, i);
      var b' := BookModel.Cancel(b, id).0;
      CancelledUnknown(b, b', id);
      CancelBookAgrees(e, id, key, b');
    }
  }

  lemma {:induction false} CancelledUnknown(b: Book, b': Book, id: Name)
    requires forall side, x :: x in Orders(b', side) <==> x in Orders(b, side) && x.orderId != id
    ensures forall x :: Known(b', x) <==> Known(b, x) && x != id
  {
    assert Orders(b, Buy) == b.bids && Orders(b, Sell) == b.asks && Orders(b', Buy) == b'.bids &&
           Orders(b', Sell) == b'.asks;
    forall x
      ensures Known(b', x) <==> Known(b, x) && x != id
    {
      KnownIs(b, x);
      KnownIs(b', x);
    }
  }

  lemma {:induction false} CancelBookAgrees(e: Engine, id: Name, key: Name, b': Book)
    requires Agree(e, {}) && key in e.books && id in e.orders && e.orders[id].instrumentId == key
    requires b'.instrument == e.books[key].instrument && BookOk(b')
    requires forall side, x :: x in Orders(b', side) <==> x in Orders(e.books[key], side) && x.orderId != id
    requires forall x :: Known(b', x) <==> Known(e.books[key], x) && x != id
    ensures Agree(e.(books := e.books[key := b'], orders := e.orders[id := e.orders[id].(status := Canceled)]), {})
  {
    var e' := e.(books := e.books[key := b'], orders := e.orders[id := e.orders[id].(status := Canceled)]);
    forall key', side, o | key' in e'.books && o in Orders(e'.books[key'], side)
      ensures o.orderId in e'.orders && RecordOf(e'.orders[o.orderId], o, key')
    {
      assert o in Orders(e.books[key'], side) && RecordOf(e.orders[o.orderId], o, key');
    }
    forall x | x in e'.orders && !Terminal(e'.orders[x].status)
      ensures Rests(e', x)
    {
      assert Rests(e, x);
    }
  }

  /** A restore is harmless exactly when it is refused outright or its id is not an open order. */
  ghost predicate HarmlessRestore(e: Engine, id: Name, request: OrderRequest, filled: real) {
    !Restorable(request, filled) || !OpenId(e, id)
  }

  lemma {:induction false} RestoreAgrees(e: Engine, id: Name, clientId: Name, request: OrderRequest, filled: real)
    requires Agree(e, {}) && HarmlessRestore(e, id, request, filled)
    ensures Agree(Restore(e, id, clientId, request, filled), {})
  {
    hide Agree, Add;
    if Restorable(request, filled) {
      var key := request.instrument.instrumentId;
      var r := RestingRecord(id, clientId, request, filled);
      AdmitAgrees(e, request.instrument, id, r);
      var e1 := e.(books := e.books[key := BookFor(e, request.instrument)], orders := e.orders[id := r]);
      var e' := Restore(e, id, clientId, request, filled);
      AddsWhen(e1.books[key], request, id, clientId, filled);
      if Compatible(e1.books[key], request, id, clientId, filled) {
        AddAgrees(e1, id, clientId, request, filled);
        AgreeFrame(e1.(books := e1.books[key := Add(e1.books[key], request, id, clientId, filled).0]), e', {});
      } else {
        ForgetAgrees(e1, id);
        assert e'.orders == e1.orders - {id};
        AgreeFrame(e1.(orders := e1.orders - {id}), e', {});
      }
    }
  }

  lemma {:induction false} ForgetAgrees(e: Engine, id: Name)
    requires Agree(e, {id})
    ensures Agree(e.(orders := e.orders - {id}), {})
  {
    var e' := e.(orders := e.orders - {id});
    forall x | x in e'.orders && !Terminal(e'.orders[x].status)
      ensures Rests(e', x)
    {
      assert Rests(e, x);
    }
  }

  /** Restoring over an open order leaves it resting without its record, or with a record of another order. */
  lemma {:induction false} RestoreBreaksAgreement(e: Engine, id: Name, clientId: Name, request: OrderRequest,
                                                  filled: real)
    requires Agree(e, {}) && !HarmlessRestore(e, id, request, filled)
    ensures !Agree(Restore(e, id, clientId, request, filled), {})
  {
    hide BookOk, Insert;
    assert Rests(e, id);
    var key := e.orders[id].instrumentId;
    var b := e.books[key];
    KnownIs(b, id);
    var o :| (o in b.bids || o in b.asks) && o.orderId == id;
    var side := if o in b.bids then Buy else Sell;
    assert o in Orders(b, side);
    var e' := Restore(e, id, clientId, request, filled);
    AddsWhen(BookFor(e, request.instrument), request, id, clientId, filled);
    assert e'.books[key] == b;
    assert id in e'.orders ==> e'.orders[id].instrumentId != key;
    assert Agree(e', {}) ==> id in e'.orders && RecordOf(e'.orders[id], o, key) by {
      assert o in Orders(e'.books[key], side);
    }
  }

  /** Restoring keeps ledger and books in agreement if and only if it is harmless. */
  lemma {:induction false} RestoreAgreesExactly(e: Engine, id: Name, clientId: Name, request: OrderRequest,
                                                filled: real)
    requires Agree(e, {})
    ensures Agree(Restore(e, id, clientId, request, filled), {}) <==> HarmlessRestore(e, id, request, filled)
  {
    if HarmlessRestore(e, id, request, filled) {
      RestoreAgrees(e, id, clientId, request, filled);
    } else {
      RestoreBreaksAgreement(e, id, clientId, request, filled);
    }
  }
}
