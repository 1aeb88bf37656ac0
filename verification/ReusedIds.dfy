/**
 Submitting under an id that is in use.  The counters restart at 1, so a generated id can be the id of a restored order;
 the submit then keeps ledger and books in agreement only if matching removes that order on the way.
 */
module ReusedIds {
  import opened Types
  import opened BookModel
  import opened BookLaws
  import opened EngineModel
  import opened EngineLaws
  import opened EngineSteps
  import opened MatchingLaws

  // ---------- Which orders a walk removes ----------

  /** The quantity resting ahead of position `i`. */
  function Ahead(s: seq<RestingOrder>, i: nat): real
    requires i <= |s|
  {
    if i == 0 then 0.0 else s[0].remaining + Ahead(s[1..], i - 1)
  }

  /** The order at `i` executes, its turn comes with more than the tolerance left, and that suffices for it. */
  predicate Consumed(taker: Taker, s: seq<RestingOrder>, quantity: real, i: nat)
    requires i < |s|
  {
    && Executable(taker, s[i])
    && quantity - Ahead(s, i) > TOLERANCE
    && Ahead(s, i) + s[i].remaining <= quantity + TOLERANCE
  }

  /** Whoever trades with an order would also trade with those ahead of it. */
  ghost predicate Monotone(taker: Taker, s: seq<RestingOrder>) {
    forall j, k :: 0 <= j < k < |s| && Executable(taker, s[k]) ==> Executable(taker, s[j])
  }

  lemma {:induction false} AheadPositive(s: seq<RestingOrder>, i: nat)
    requires Live(s) && i <= |s|
    ensures Ahead(s, i) >= 0.0
  {
    if i > 0 {
      assert s[0] in s;
      AheadPositive(s[1..], i - 1);
    }
  }

  /** A walk removes exactly the orders it can consume. */
  lemma {:induction false} WalkRemoves(taker: Taker, s: seq<RestingOrder>, quantity: real, i: nat)
    requires Live(s) && Distinct(s) && Monotone(taker, s) && i < |s|
    ensures HasId(Walk(taker, s, quantity).left, s[i].orderId) <==> !Consumed(taker, s, quantity, i)
  {
    WalkStep(taker, s, quantity);
    AheadPositive(s, i);
    hide Walk, Executable;
    var left := Walk(taker, s, quantity).left;
    assert s[0] in s && s[i] in s;
    var executed := Min(quantity, s[0].remaining);
    if quantity <= TOLERANCE || !Executable(taker, s[0]) {
      assert left[i].orderId == s[i].orderId;
    } else if Residue(s[0], executed) != [] {
      assert left == Residue(s[0], executed) + s[1..];
      assert left[i].orderId == s[i].orderId;
      if i > 0 {
        AheadPositive(s[1..], i - 1);
      }
    } else {
      var rest := Max(0.0, quantity - executed);
      if i == 0 {
        WalkKeepsIds(taker, s[1..], rest, s[0].orderId);
        assert !HasId(s[1..], s[0].orderId);
      } else {
        assert s[1..][i - 1] == s[i];
        WalkRemoves(taker, s[1..], rest, i - 1);
        AheadPositive(s[1..], i - 1);
      }
    }
  }

  lemma {:induction false} WalkKeepsIds(taker: Taker, s: seq<RestingOrder>, quantity: real, id: Name)
    ensures HasId(Walk(taker, s, quantity).left, id) ==> HasId(s, id)
  {
    WalkStep(taker, s, quantity);
    hide Walk, Executable;
    var left := Walk(taker, s, quantity).left;
    if k :| 0 <= k < |left| && left[k].orderId == id {
      if quantity <= TOLERANCE || s == [] || !Executable(taker, s[0]) {
      } else if Residue(s[0], Min(quantity, s[0].remaining)) != [] {
        assert s[k].orderId == id;
      } else {
        WalkKeepsIds(taker, s[1..], Max(0.0, quantity - Min(quantity, s[0].remaining)), id);
        var j :| 0 <= j < |s[1..]| && s[1..][j].orderId == id;
        assert s[j + 1].orderId == id;
      }
    }
  }

  // ---------- Matching with a record overwritten ----------

  /** What fills do to other records does not depend on the record of `id`. */
  lemma {:induction false} FillOrdersExcept(orders: map<Name, OrderRecord>, trades: seq<Trade>, id: Name,
                                            r: OrderRecord)
    requires id in orders
    ensures FillOrders(orders[id := r], trades) ==
            FillOrders(orders, trades)[id := FillOrders(orders[id := r], trades)[id]]
    decreases |trades|
  {
    if trades != [] {
      var t := trades[0];
      var next := FillOrder(orders, t.resting.orderId, t.quantity);
      var r' := FillOrder(orders[id := r], t.resting.orderId, t.quantity)[id];
      assert FillOrder(orders[id := r], t.resting.orderId, t.quantity) == next[id := r'];
      FillOrdersExcept(next, trades[1..], id, r');
    }
  }

  /** The engine in which matching starts, its book opened and its counters advanced. */
  function Ready(e: Engine, request: OrderRequest): Engine {
    e.(nextOrderId := e.nextOrderId + 1, nextClientOrderId := e.nextClientOrderId + 1,
       books := e.books[request.instrument.instrumentId := BookFor(e, request.instrument)])
  }

  /** The engine after matching, had the submit written no record. */
  function Matched(e: Engine, request: OrderRequest): (Engine, Sweep) {
    Match(Ready(e, request), request.instrument.instrumentId, Opposite(request.side),
          Incoming(OrderName(e.nextOrderId), request), request.quantity)
  }

  /** An accepted submit settles an engine that differs from the matched one in its own record only. */
  lemma {:induction false} SubmitIs(e: Engine, request: OrderRequest) returns (r: OrderRecord)
    requires Acceptable(request) && OrderName(e.nextOrderId) in e.orders
    ensures var id, clientId := OrderName(e.nextOrderId), ClientName(e.nextClientOrderId);
            var (m, sweep) := Matched(e, request);
            && r == NewRecord(id, clientId, request, r.status, r.filledQuantity)
            && request.instrument.instrumentId in m.books
            && var (e', updates) := Settle(m.(orders := m.orders[id := r]), id, clientId, request, sweep.rest);
               Submit(e, request).0 == e' &&
                 Submit(e, request).1.updates == [OrderUpdate(id, clientId, Acknowledged, 0.0, Unstated)] + updates
  {
    var id, clientId := OrderName(e.nextOrderId), ClientName(e.nextClientOrderId);
    var (m, sweep) := Matched(e, request);
    var r0 := NewRecord(id, clientId, request, Acknowledged, 0.0);
    FillOrdersExcept(e.orders, sweep.trades, id, r0);
    FillOrdersShape(e.orders[id := r0], sweep.trades, id);
    r := FillOrders(e.orders[id := r0], sweep.trades)[id];
    hide Walk, FillOrders, Settle, BookFor;
    assert Take(e.(nextOrderId := e.nextOrderId + 1, nextClientOrderId := e.nextClientOrderId + 1), id, clientId,
                request)
        == (m.(orders := m.orders[id := r]), sweep);
  }

  lemma {:induction false} ReadyAgrees(e: Engine, request: OrderRequest)
    requires Agree(e, {})
    ensures Agree(Ready(e, request), {})
    ensures forall key, side :: key in e.books ==>
            Orders(Ready(e, request).books[key], side) == Orders(e.books[key], side)
  {
    var e' := Ready(e, request);
    forall key, side, o | key in e'.books && o in Orders(e'.books[key], side)
      ensures o.orderId in e'.orders && RecordOf(e'.orders[o.orderId], o, key)
    {
      assert key in e.books && o in Orders(e.books[key], side);
    }
    forall x | x in e'.orders && !Terminal(e'.orders[x].status)
      ensures Rests(e', x)
    {
      assert Rests(e, x);
    }
  }

  /** Matching changes the opposite side of the request's book only, and there leaves what the walk leaves. */
  lemma {:induction false} MatchedSides(e: Engine, request: OrderRequest, key: Name, side: OrderSide)
    requires key in Ready(e, request).books
    ensures var m := Matched(e, request).0;
            && key in m.books
            && Orders(m.books[key], side) ==
               if key == request.instrument.instrumentId && side == Opposite(request.side)
               then Walk(Incoming(OrderName(e.nextOrderId), request), Opposing(e, request), request.quantity).left
               else Orders(Ready(e, request).books[key], side)
  {
    hide Walk, FillOrders;
  }

  /** What the walk needs to know about the opposing orders. */
  lemma {:induction false} OpposingOrders(e: Engine, request: OrderRequest, id: Name)
    requires Agree(e, {})
    ensures BookOk(BookFor(e, request.instrument))
    ensures var s := Opposing(e, request);
            Live(s) && Distinct(s) && Monotone(Incoming(id, request), s)
  {
    var side := Opposite(request.side);
    var b := BookFor(e, request.instrument);
    assert SideOk(b, side);
    var s := Opposing(e, request);
    forall j, k | 0 <= j < k < |s| && Executable(Incoming(id, request), s[k])
      ensures Executable(Incoming(id, request), s[j])
    {
      assert s[j] in s && Resting(s[j], b.instrument.instrumentId, side, b.nextSequence);
      assert Before(side, s[j], s[k]);
    }
  }

  /** Matching the request consumes the open order that has the id the submit is about to use. */
  ghost predicate Replaces(e: Engine, request: OrderRequest) {
    var id, s := OrderName(e.nextOrderId), Opposing(e, request);
    && Acceptable(request)
    && exists i: nat :: i < |s| && s[i].orderId == id && Consumed(Incoming(id, request), s, request.quantity, i)
  }

  /** An opposing order under the id is the order of the id's record, and does not rest on the other side too. */
  lemma {:induction false} OpposingRecord(e: Engine, request: OrderRequest, i: nat)
    requires Agree(e, {}) && i < |Opposing(e, request)|
    ensures var id, key := Opposing(e, request)[i].orderId, request.instrument.instrumentId;
            && key in e.books && id in e.orders && e.orders[id].instrumentId == key
            && !HasId(Orders(Ready(e, request).books[key], request.side), id)
  {
    var key := request.instrument.instrumentId;
    var s := Opposing(e, request);
    assert s[i] in Orders(e.books[key], Opposite(request.side));
    OneSide(e.books[key], Opposite(request.side), i);
  }

  lemma {:induction false} NowhereIsClosed(m: Engine, id: Name, key: Name)
    requires Agree(m, {}) && id in m.orders && m.orders[id].instrumentId == key && key in m.books
    requires forall side :: !HasId(Orders(m.books[key], side), id)
    ensures !OpenId(m, id)
  {
    assert m.books[key].bids == Orders(m.books[key], Buy) && m.books[key].asks == Orders(m.books[key], Sell);
    assert !Known(m.books[key], id);
    assert OpenId(m, id) ==> Rests(m, id);
  }

  lemma {:induction false} MatchedRecord(e: Engine, request: OrderRequest, id: Name)
    requires id in e.orders
    ensures var m := Matched(e, request).0;
            id in m.orders && m.orders[id].instrumentId == e.orders[id].instrumentId
  {
    hide Walk;
    FillOrdersShape(e.orders, Matched(e, request).1.trades, id);
  }

  lemma {:induction false} MatchedAgrees(e: Engine, request: OrderRequest)
    requires Agree(e, {})
    ensures Agree(Matched(e, request).0, {})
  {
    hide Agree, Match;
    ReadyAgrees(e, request);
    MatchAgrees(Ready(e, request), {}, request.instrument.instrumentId, Opposite(request.side),
                Incoming(OrderName(e.nextOrderId), request), request.quantity);
  }

  /** The opposing order that is consumed, and that the taker traded. */
  lemma {:induction false} ReplacedOrder(e: Engine, request: OrderRequest) returns (i: nat)
    requires Agree(e, {}) && Replaces(e, request)
    ensures var id, s := OrderName(e.nextOrderId), Opposing(e, request);
            var w := Walk(Incoming(id, request), s, request.quantity);
            && i < |s| && s[i].orderId == id && !HasId(w.left, id)
            && w.rest == Matched(e, request).1.rest && 0.0 <= w.rest && request.quantity - w.rest > TOLERANCE
  {
    var id, s := OrderName(e.nextOrderId), Opposing(e, request);
    var taker := Incoming(id, request);
    i :| i < |s| && s[i].orderId == id && Consumed(taker, s, request.quantity, i);
    OpposingOrders(e, request, id);
    hide *;
    WalkRemoves(taker, s, request.quantity, i);
    RemovalTrades(taker, s, request.quantity, i);
    MatchedRest(e, request);
  }

  lemma {:induction false} MatchedRest(e: Engine, request: OrderRequest)
    ensures Matched(e, request).1 ==
            Walk(Incoming(OrderName(e.nextOrderId), request), Opposing(e, request), request.quantity)
  {
    hide Walk;
  }

  /** A walk that removes an order has traded. */
  lemma {:induction false} RemovalTrades(taker: Taker, s: seq<RestingOrder>, quantity: real, i: nat)
    requires Live(s) && i < |s| && !HasId(Walk(taker, s, quantity).left, s[i].orderId)
    ensures var w := Walk(taker, s, quantity);
            0.0 <= w.rest && quantity - w.rest > TOLERANCE
  {
    WalkStep(taker, s, quantity);
    assert HasId(s, s[i].orderId) && s[0] in s;
    hide Walk, Executable, HasId;
    assert quantity > TOLERANCE && Executable(taker, s[0]);
    WalkRest(taker, s[1..], Max(0.0, quantity - Min(quantity, s[0].remaining)));
  }

  /** A consumed order is closed by matching. */
  lemma {:induction false} ReplacedIsClosed(e: Engine, request: OrderRequest)
    requires Agree(e, {}) && Replaces(e, request)
    ensures OrderName(e.nextOrderId) in Matched(e, request).0.orders &&
            !OpenId(Matched(e, request).0, OrderName(e.nextOrderId))
  {
    hide Agree, Matched, Match, Walk, Opposing, HasId, OpenId, Replaces, BookFor;
    var id, key := OrderName(e.nextOrderId), request.instrument.instrumentId;
    var i := ReplacedOrder(e, request);
    OpposingRecord(e, request, i);
    MatchedAgrees(e, request);
    MatchedRecord(e, request, id);
    var m := Matched(e, request).0;
    MatchedSides(e, request, key, request.side);
    MatchedSides(e, request, key, Opposite(request.side));
    NowhereIsClosed(m, id, key);
  }

  // ---------- When a submit keeps agreement ----------

  /** Once the taker traded, settling overwrites whatever matching did to the record. */
  lemma {:induction false} SettleIgnoresRecord(e: Engine, id: Name, clientId: Name, request: OrderRequest, rest: real,
                                               r: OrderRecord)
    requires request.instrument.instrumentId in e.books && request.quantity - rest > TOLERANCE
    requires r == NewRecord(id, clientId, request, r.status, r.filledQuantity)
    ensures Settle(e.(orders := e.orders[id := r]), id, clientId, request, rest) ==
            Settle(e.(orders := e.orders[id := NewRecord(id, clientId, request, Acknowledged, 0.0)]), id, clientId,
                   request, rest)
  {
    hide Add;
    var r0 := NewRecord(id, clientId, request, Acknowledged, 0.0);
    var one := Settle(e.(orders := e.orders[id := r]), id, clientId, request, rest);
    var two := Settle(e.(orders := e.orders[id := r0]), id, clientId, request, rest);
    assert one.0.orders == e.orders[id := one.0.orders[id]] && two.0.orders == e.orders[id := two.0.orders[id]];
    assert one.0.orders[id] == two.0.orders[id];
  }

  lemma {:induction false} ReplacingAgrees(e: Engine, request: OrderRequest)
    requires Agree(e, {}) && OpenId(e, OrderName(e.nextOrderId)) && Replaces(e, request)
    ensures Agree(Submit(e, request).0, {})
    ensures forall u :: u in Submit(e, request).1.updates ==> u.reason != FailedToRest
  {
    hide Agree, Submit, Matched, Match, Walk, Opposing, HasId, Settle;
    var id, clientId := OrderName(e.nextOrderId), ClientName(e.nextClientOrderId);
    var (m, sweep) := Matched(e, request);
    var r := SubmitIs(e, request);
    var i := ReplacedOrder(e, request);
    ReplacedIsClosed(e, request);
    MatchedAgrees(e, request);
    SettleIgnoresRecord(m, id, clientId, request, sweep.rest, r);
    var r0 := NewRecord(id, clientId, request, Acknowledged, 0.0);
    AdmitAgrees(m, request.instrument, id, r0);
    var e2 := m.(orders := m.orders[id := r0]);
    AgreeFrame(m.(books := m.books[request.instrument.instrumentId := BookFor(m, request.instrument)],
                  orders := m.orders[id := r0]), e2, {id});
    SettleAgrees(e2, id, clientId, request, sweep.rest);
    var updates := Settle(e2, id, clientId, request, sweep.rest).1;
    assert Submit(e, request).1.updates == [OrderUpdate(id, clientId, Acknowledged, 0.0, Unstated)] + updates;
  }

  /** An open order that is not consumed still rests after matching. */
  lemma {:induction false} StillRests(e: Engine, request: OrderRequest)
    returns (key: Name, side: OrderSide, o: RestingOrder)
    requires Agree(e, {}) && OpenId(e, OrderName(e.nextOrderId)) && Acceptable(request) && !Replaces(e, request)
    ensures var m := Matched(e, request).0;
            key in m.books && o in Orders(m.books[key], side) && o.orderId == OrderName(e.nextOrderId)
  {
    var id := OrderName(e.nextOrderId);
    assert Rests(e, id);
    key := e.orders[id].instrumentId;
    side := if HasId(e.books[key].bids, id) then Buy else Sell;
    var i := IndexOf(Orders(e.books[key], side), id);
    OpposingOrders(e, request, id);
    ReadyAgrees(e, request);
    hide Agree, Matched, Match, Walk;
    MatchedSides(e, request, key, side);
    var m := Matched(e, request).0;
    if key == request.instrument.instrumentId && side == Opposite(request.side) {
      assert Orders(e.books[key], side) == Opposing(e, request);
      WalkRemoves(Incoming(id, request), Opposing(e, request), request.quantity, i);
    } else {
      assert Orders(m.books[key], side)[i].orderId == id;
    }
    var j := IndexOf(Orders(m.books[key], side), id);
    o := Orders(m.books[key], side)[j];
  }

  /** Settling leaves resting orders where they are, and closes the record unless the id rests again. */
  lemma {:induction false} SettleKeepsResting(e: Engine, id: Name, clientId: Name, request: OrderRequest, rest: real,
                                              key: Name, side: OrderSide, o: RestingOrder)
    requires request.instrument.instrumentId in e.books && id in e.orders &&
             e.orders[id].instrumentId == request.instrument.instrumentId
    requires key in e.books && o in Orders(e.books[key], side) && o.orderId == id
    requires rest == request.quantity || (0.0 <= rest && request.quantity - rest > TOLERANCE)
    requires request.quantity > 0.0
    ensures var e' := Settle(e, id, clientId, request, rest).0;
            && key in e'.books && o in Orders(e'.books[key], side) && id in e'.orders
            && (key != request.instrument.instrumentId ==> e'.orders[id].instrumentId != key)
            && (key == request.instrument.instrumentId ==> Terminal(e'.orders[id].status))
  {
    hide Insert;
    var b := e.books[request.instrument.instrumentId];
    var filled := Max(0.0, request.quantity - rest);
    if key == request.instrument.instrumentId {
      assert Known(b, id) by {
        KnownIs(b, id);
      }
    } else {
      assert Settle(e, id, clientId, request, rest).0.books[key] == e.books[key];
    }
  }

  lemma {:induction false} RestingWithoutRecord(e: Engine, id: Name, key: Name, side: OrderSide, o: RestingOrder)
    requires key in e.books && o in Orders(e.books[key], side) && o.orderId == id && id in e.orders
    requires e.orders[id].instrumentId != key || Terminal(e.orders[id].status)
    ensures !Agree(e, {})
  {
    assert Agree(e, {}) ==> RecordOf(e.orders[id], o, key);
  }

  lemma {:induction false} KeepingBreaksAgreement(e: Engine, request: OrderRequest)
    requires Agree(e, {}) && OpenId(e, OrderName(e.nextOrderId)) && Acceptable(request) && !Replaces(e, request)
    ensures !Agree(Submit(e, request).0, {})
  {
    hide Agree, Submit, Matched, Match, Walk, Opposing, Settle, Replaces;
    var id, clientId := OrderName(e.nextOrderId), ClientName(e.nextClientOrderId);
    var key, side, o := StillRests(e, request);
    var r := SubmitIs(e, request);
    OpposingOrders(e, request, id);
    MatchedRest(e, request);
    WalkRest(Incoming(id, request), Opposing(e, request), request.quantity);
    var (m, sweep) := Matched(e, request);
    SettleKeepsResting(m.(orders := m.orders[id := r]), id, clientId, request, sweep.rest, key, side, o);
    RestingWithoutRecord(Submit(e, request).0, id, key, side, o);
  }

  lemma {:induction false} RefusingBreaksAgreement(e: Engine, request: OrderRequest)
    requires Agree(e, {}) && OpenId(e, OrderName(e.nextOrderId)) && !Acceptable(request)
    ensures !Agree(Submit(e, request).0, {})
  {
    var id := OrderName(e.nextOrderId);
    assert Rests(e, id);
    var key := e.orders[id].instrumentId;
    KnownIs(e.books[key], id);
    var o :| (o in e.books[key].bids || o in e.books[key].asks) && o.orderId == id;
    hide Agree;
    RestingWithoutRecord(Submit(e, request).0, id, key, if o in e.books[key].bids then Buy else Sell, o);
  }

  /** The id the submit will use is not the id of an open order, or matching consumes that order. */
  ghost predicate HarmlessSubmit(e: Engine, request: OrderRequest) {
    !OpenId(e, OrderName(e.nextOrderId)) || Replaces(e, request)
  }

  /** A submit keeps ledger and books in agreement if and only if it is harmless; then the order never fails to rest. */
  lemma {:induction false} SubmitAgreesExactly(e: Engine, request: OrderRequest)
    requires Agree(e, {})
    ensures Agree(Submit(e, request).0, {}) <==> HarmlessSubmit(e, request)
    ensures HarmlessSubmit(e, request) ==> forall u :: u in Submit(e, request).1.updates ==> u.reason != FailedToRest
  {
    hide Agree, Submit, Consumed, Opposing;
    if !OpenId(e, OrderName(e.nextOrderId)) {
      SubmitAgrees(e, request);
    } else if !Acceptable(request) {
      RefusingBreaksAgreement(e, request);
    } else if Replaces(e, request) {
      ReplacingAgrees(e, request);
    } else {
      KeepingBreaksAgreement(e, request);
    }
  }
}
