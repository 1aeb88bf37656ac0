/**
 The ledger and the books agree in every run: a record is open exactly when its id rests in the
 book of its instrument, once, with the record's remaining quantity.
 */
module EngineLaws {
  import opened Types
  import opened BookModel
  import opened BookLaws
  import opened EngineModel

  /** `r` is the open record of the order `o` resting in the book of instrument `key`. */
  predicate RecordOf(r: OrderRecord, o: RestingOrder, key: Name) {
    match o
    case RestingOrder(orderId, clientOrderId, request, remaining, _) =>
      && r.orderId == orderId && r.clientOrderId == clientOrderId
      && r.instrumentId == key
      && r.strategyId == request.strategyId
      && r.side == request.side && r.orderType == request.orderType
      && r.quantity == request.quantity && r.price == request.price
      && r.filledQuantity >= 0.0
      && remaining == r.quantity - r.filledQuantity
      && r.status == (if r.filledQuantity > 0.0 then PartiallyFilled else Acknowledged)
  }

  ghost predicate Rests(e: Engine, id: Name)
    requires id in e.orders
  {
    e.orders[id].instrumentId in e.books && Known(e.books[e.orders[id].instrumentId], id)
  }

  /** Ledger and books agree, apart from the records of `pending` orders, which do not rest. */
  ghost predicate Agree(e: Engine, pending: set<Name>) {
    match e
    case Engine(books, orders, _, _, _) =>
      && (forall key :: key in books ==> books[key].instrument.instrumentId == key && BookOk(books[key]))
      && (forall key, side, o :: key in books && o in Orders(books[key], side) ==>
            o.orderId !in pending && o.orderId in orders && RecordOf(orders[o.orderId], o, key))
      && (forall id :: id in orders && id !in pending && !Terminal(orders[id].status) ==> Rests(e, id))
      && (forall id :: id in orders ==> orders[id].orderId == id)
  }

  /** An id rests at most once in the whole engine. */
  lemma {:induction false} RestsOnce(e: Engine, pending: set<Name>, key: Name, side: OrderSide, i: nat, key': Name,
                                     side': OrderSide, i': nat)
    requires Agree(e, pending) && key in e.books && key' in e.books
    requires i < |Orders(e.books[key], side)| && i' < |Orders(e.books[key'], side')|
    requires Orders(e.books[key], side)[i].orderId == Orders(e.books[key'], side')[i'].orderId
    ensures key == key' && side == side' && i == i'
  {
    var s, s' := Orders(e.books[key], side), Orders(e.books[key'], side');
    assert s[i] in s && s'[i'] in s';
    OneSide(e.books[key], side, i);
  }

  /** Ledger and book apply the tolerance alike: the record closes exactly when the order leaves the book. */
  lemma {:induction false} FilledRecordOf(r: OrderRecord, o: RestingOrder, key: Name, quantity: real)
    requires RecordOf(r, o, key) && TOLERANCE < quantity <= o.remaining
    ensures var r' := FilledRecord(r, quantity);
            if Residue(o, quantity) == [] then r' == r.(status := Filled, filledQuantity := r.quantity)
            else RecordOf(r', Residue(o, quantity)[0], key)
  {
  }

  function FillFront(e: Engine, key: Name, side: OrderSide, quantity: real): Engine
    requires key in e.books && Orders(e.books[key], side) != []
  {
    var s := Orders(e.books[key], side);
    e.(books := e.books[key := WithOrders(e.books[key], side, Residue(s[0], quantity) + s[1..])],
       orders := FillOrder(e.orders, s[0].orderId, quantity))
  }

  /** Filling the front order in book and ledger keeps them in agreement. */
  lemma {:induction false} FillFrontAgrees(e: Engine, pending: set<Name>, key: Name, side: OrderSide, quantity: real)
    requires Agree(e, pending) && key in e.books && Orders(e.books[key], side) != []
    requires TOLERANCE < quantity <= Orders(e.books[key], side)[0].remaining
    ensures Agree(FillFront(e, key, side, quantity), pending)
  {
    var b := e.books[key];
    var s := Orders(b, side);
    var r := Residue(s[0], quantity);
    assert s[0] in s;
    FilledRecordOf(e.orders[s[0].orderId], s[0], key, quantity);
    FillIs(b, side, 0, quantity);
    assert Cut(s, 0, r) == r + s[1..];
    var e' := FillFront(e, key, side, quantity);
    forall key', side', o | key' in e'.books && o in Orders(e'.books[key'], side')
      ensures o.orderId !in pending && o.orderId in e'.orders && RecordOf(e'.orders[o.orderId], o, key')
    {
      FillFrontRecords(e, pending, key, side, quantity, key', side', o);
    }
    forall x | x in e'.orders && x !in pending && !Terminal(e'.orders[x].status)
      ensures Rests(e', x)
    {
      FillFrontRests(e, pending, key, side, quantity, x);
    }
  }

  lemma {:induction false} NotFront(e: Engine, pending: set<Name>, key: Name, side: OrderSide,
                                    key': Name, side': OrderSide, o: RestingOrder)
    requires Agree(e, pending) && key in e.books && key' in e.books && Orders(e.books[key], side) != []
    requires o in if key' == key && side' == side then Orders(e.books[key], side)[1..] else Orders(e.books[key'], side')
    ensures o in Orders(e.books[key'], side') && o.orderId != Orders(e.books[key], side)[0].orderId
  {
    var s, s' := Orders(e.books[key], side), Orders(e.books[key'], side');
    var i' :| 0 <= i' < |s'| && s'[i'] == o && (key' == key && side' == side ==> i' > 0);
    if o.orderId == s[0].orderId {
      RestsOnce(e, pending, key, side, 0, key', side', i');
    }
  }

  lemma {:induction false} FillFrontRecords(e: Engine, pending: set<Name>, key: Name, side: OrderSide, quantity: real,
                                            key': Name, side': OrderSide, o: RestingOrder)
    requires Agree(e, pending) && key in e.books && Orders(e.books[key], side) != []
    requires TOLERANCE < quantity <= Orders(e.books[key], side)[0].remaining
    requires var e' := FillFront(e, key, side, quantity);
             key' in e'.books && o in Orders(e'.books[key'], side')
    ensures var e' := FillFront(e, key, side, quantity);
            o.orderId !in pending && o.orderId in e'.orders && RecordOf(e'.orders[o.orderId], o, key')
  {
    var r := Residue(Orders(e.books[key], side)[0], quantity);
    if key' == key && side' == side && o in r {
      assert o == r[0];
      FrontRecord(e, pending, key, side, quantity);
    } else {
      hide Agree, RecordOf, FilledRecord;
      NotFront(e, pending, key, side, key', side', o);
      OtherRecord(e, pending, key', side', o);
    }
  }

  lemma {:induction false} OtherRecord(e: Engine, pending: set<Name>, key: Name, side: OrderSide, o: RestingOrder)
    requires Agree(e, pending) && key in e.books && o in Orders(e.books[key], side)
    ensures o.orderId !in pending && o.orderId in e.orders && RecordOf(e.orders[o.orderId], o, key)
  {
  }

  /** What is left of the front order has the record that the fill leaves. */
  lemma {:induction false} FrontRecord(e: Engine, pending: set<Name>, key: Name, side: OrderSide, quantity: real)
    requires Agree(e, pending) && key in e.books && Orders(e.books[key], side) != []
    requires TOLERANCE < quantity <= Orders(e.books[key], side)[0].remaining &&
             Residue(Orders(e.books[key], side)[0], quantity) != []
    ensures var s := Orders(e.books[key], side);
            var o := Residue(s[0], quantity)[0];
            var orders' := FillOrder(e.orders, s[0].orderId, quantity);
            o.orderId == s[0].orderId && o.orderId !in pending && o.orderId in orders' &&
              RecordOf(orders'[o.orderId], o, key)
  {
    var s := Orders(e.books[key], side);
    assert s[0] in s;
    OtherRecord(e, pending, key, side, s[0]);
    hide Agree, RecordOf, FilledRecord;
    FilledRecordOf(e.orders[s[0].orderId], s[0], key, quantity);
  }

  lemma {:induction false} FillFrontRests(e: Engine, pending: set<Name>, key: Name, side: OrderSide, quantity: real,
                                          x: Name)
    requires Agree(e, pending) && key in e.books && Orders(e.books[key], side) != []
    requires TOLERANCE < quantity <= Orders(e.books[key], side)[0].remaining
    requires var e' := FillFront(e, key, side, quantity);
             x in e'.orders && x !in pending && !Terminal(e'.orders[x].status)
    ensures Rests(FillFront(e, key, side, quantity), x)
  {
    var s := Orders(e.books[key], side);
    var r := Residue(s[0], quantity);
    assert s[0] in s;
    FilledRecordOf(e.orders[s[0].orderId], s[0], key, quantity);
    assert Rests(e, x);
    if x == s[0].orderId {
      assert r[0].orderId == x;
    }
    if e.orders[x].instrumentId == key {
      StillKnown(e.books[key], side, r, x);
    }
  }

  lemma {:induction false} StillKnown(b: Book, side: OrderSide, r: seq<RestingOrder>, x: Name)
    requires Known(b, x) && Orders(b, side) != []
    requires x == Orders(b, side)[0].orderId ==> HasId(r, x)
    ensures Known(WithOrders(b, side, r + Orders(b, side)[1..]), x)
  {
    var s := Orders(b, side);
    var b' := WithOrders(b, side, r + s[1..]);
    if HasId(s, x) {
      var i := IndexOf(s, x);
      if i == 0 {
        var j := IndexOf(r, x);
        assert (r + s[1..])[j].orderId == x;
      } else {
        assert (r + s[1..])[|r| + i - 1].orderId == x;
      }
      assert HasId(Orders(b', side), x);
    } else {
      assert HasId(Orders(b', Opposite(side)), x);
    }
  }

  /** How much a walk leaves: never more than it got, and if it traded at all, it traded more than the tolerance. */
  lemma {:induction false} WalkRest(taker: Taker, s: seq<RestingOrder>, quantity: real)
    requires forall o :: o in s ==> o.remaining > TOLERANCE
    ensures var w := Walk(taker, s, quantity);
            w.rest == quantity || (0.0 <= w.rest && quantity - w.rest > TOLERANCE)
  {
    if quantity > TOLERANCE && s != [] && Executable(taker, s[0]) {
      assert s[0] in s;
      var executed := Min(quantity, s[0].remaining);
      if Residue(s[0], executed) == [] {
        WalkRest(taker, s[1..], Max(0.0, quantity - executed));
      }
    }
  }

  predicate Stopped(taker: Taker, s: seq<RestingOrder>, quantity: real) {
    quantity <= TOLERANCE || s == [] || !Executable(taker, s[0])
  }

  ghost predicate SameBooksAndOrders(e: Engine, e': Engine) {
    e.books == e'.books && e.orders == e'.orders
  }

  lemma {:induction false} MatchStops(e: Engine, key: Name, side: OrderSide, taker: Taker, quantity: real)
    requires key in e.books && Stopped(taker, Orders(e.books[key], side), quantity)
    ensures Match(e, key, side, taker, quantity).0 == e
  {
    assert e.books[key := WithOrders(e.books[key], side, Orders(e.books[key], side))] == e.books;
  }

  /** A pass of the matching loop that exhausts the taker. */
  lemma {:induction false} MatchEnds(e: Engine, key: Name, side: OrderSide, taker: Taker, quantity: real)
    requires key in e.books && !Stopped(taker, Orders(e.books[key], side), quantity)
    requires var s := Orders(e.books[key], side);
             Residue(s[0], Min(quantity, s[0].remaining)) != []
    ensures var executed := Min(quantity, Orders(e.books[key], side)[0].remaining);
            SameBooksAndOrders(Match(e, key, side, taker, quantity).0, FillFront(e, key, side, executed))
  {
    var s := Orders(e.books[key], side);
    var t := Trade(s[0], Min(quantity, s[0].remaining));
    assert Walk(taker, s, quantity).trades == [t];
    assert [t][1..] == [];
    assert FillOrders(e.orders, [t]) == FillOrders(FillOrder(e.orders, s[0].orderId, t.quantity), []);
  }

  /** A pass of the matching loop that consumes the front order and continues. */
  lemma {:induction false} MatchContinues(e: Engine, key: Name, side: OrderSide, taker: Taker, quantity: real)
    requires key in e.books && !Stopped(taker, Orders(e.books[key], side), quantity)
    requires var s := Orders(e.books[key], side);
             Residue(s[0], Min(quantity, s[0].remaining)) == []
    ensures var s := Orders(e.books[key], side);
            var executed := Min(quantity, s[0].remaining);
            var e1 := FillFront(e, key, side, executed);
            && Orders(e1.books[key], side) == s[1..]
            && SameBooksAndOrders(Match(e, key, side, taker, quantity).0,
                                  Match(e1, key, side, taker, Max(0.0, quantity - executed)).0)
  {
    var s := Orders(e.books[key], side);
    var t := Trade(s[0], Min(quantity, s[0].remaining));
    var e1 := FillFront(e, key, side, t.quantity);
    assert [] + s[1..] == s[1..];
    var tail := Walk(taker, s[1..], Max(0.0, quantity - t.quantity));
    assert Walk(taker, s, quantity) == Sweep([t] + tail.trades, tail.left, tail.rest);
    assert ([t] + tail.trades)[1..] == tail.trades;
  }

  /** Agreement does not depend on the counters. */
  lemma {:induction false} AgreeFrame(e: Engine, e': Engine, pending: set<Name>)
    requires Agree(e, pending) && e'.books == e.books && e'.orders == e.orders
    ensures Agree(e', pending)
  {
    forall x | x in e'.orders && x !in pending && !Terminal(e'.orders[x].status)
      ensures Rests(e', x)
    {
      assert Rests(e, x);
    }
  }

  /** Every executed quantity exceeds the tolerance, so the book accepts the fill. */
  lemma {:induction false} ExecutedIsFillable(e: Engine, pending: set<Name>, key: Name, side: OrderSide, taker: Taker,
                                              quantity: real)
    requires Agree(e, pending) && key in e.books && !Stopped(taker, Orders(e.books[key], side), quantity)
    ensures var o := Orders(e.books[key], side)[0];
            && TOLERANCE < Min(quantity, o.remaining) <= o.remaining
            && Fill(e.books[key], o.orderId, Min(quantity, o.remaining)).1
  {
    var s := Orders(e.books[key], side);
    assert s[0] in s && SideOk(e.books[key], side);
    FillIs(e.books[key], side, 0, Min(quantity, s[0].remaining));
  }

  /** Matching keeps agreement and does not touch pending records. */
  lemma {:induction false} MatchAgrees(e: Engine, pending: set<Name>, key: Name, side: OrderSide, taker: Taker,
                                       quantity: real)
    requires Agree(e, pending) && key in e.books
    ensures Agree(Match(e, key, side, taker, quantity).0, pending)
    decreases |Orders(e.books[key], side)|
  {
    hide Agree, Match, Walk;
    var s := Orders(e.books[key], side);
    if Stopped(taker, s, quantity) {
      MatchStops(e, key, side, taker, quantity);
    } else {
      var executed := Min(quantity, s[0].remaining);
      ExecutedIsFillable(e, pending, key, side, taker, quantity);
      FillFrontAgrees(e, pending, key, side, executed);
      var e1 := FillFront(e, key, side, executed);
      var e' := Match(e, key, side, taker, quantity).0;
      if Residue(s[0], executed) == [] {
        var rest := Max(0.0, quantity - executed);
        MatchContinues(e, key, side, taker, quantity);
        MatchAgrees(e1, pending, key, side, taker, rest);
        AgreeFrame(Match(e1, key, side, taker, rest).0, e', pending);
      } else {
        MatchEnds(e, key, side, taker, quantity);
        AgreeFrame(e1, e', pending);
      }
    }
  }

  /** A walk trades only with orders of the list. */
  lemma {:induction false} WalkTrades(taker: Taker, s: seq<RestingOrder>, quantity: real)
    ensures forall t :: t in Walk(taker, s, quantity).trades ==> t.resting in s
  {
    if !Stopped(taker, s, quantity) {
      var executed := Min(quantity, s[0].remaining);
      if Residue(s[0], executed) == [] {
        WalkTrades(taker, s[1..], Max(0.0, quantity - executed));
      }
    }
  }

  /** Records of orders that were not traded with stay as they are. */
  lemma {:induction false} FillOrdersFrame(orders: map<Name, OrderRecord>, trades: seq<Trade>, id: Name)
    requires id in orders && forall t :: t in trades ==> t.resting.orderId != id
    ensures FillOrders(orders, trades)[id] == orders[id]
    decreases |trades|
  {
    if trades != [] {
      FillOrdersFrame(FillOrder(orders, trades[0].resting.orderId, trades[0].quantity), trades[1..], id);
    }
  }

  /** Fills change only status and filled quantity of a record. */
  lemma {:induction false} FillOrdersShape(orders: map<Name, OrderRecord>, trades: seq<Trade>, id: Name)
    requires id in orders
    ensures var r := FillOrders(orders, trades)[id];
            r == orders[id].(status := r.status, filledQuantity := r.filledQuantity)
    decreases |trades|
  {
    if trades != [] {
      FillOrdersShape(FillOrder(orders, trades[0].resting.orderId, trades[0].quantity), trades[1..], id);
    }
  }

  lemma {:induction false} MatchLevelsCons(e: Engine, key: Name, side: OrderSide, instrument: Instrument,
                                           levels: seq<BookLevel>)
    requires key in e.books && levels != []
    ensures var taker := External(instrument, levels[0].price);
            var m := Match(e, key, side, taker, levels[0].quantity);
            && key in m.0.books
            && MatchLevels(e, key, side, instrument, levels).0 == MatchLevels(m.0, key, side, instrument, levels[1..]).0
            && MatchLevels(e, key, side, instrument, levels).1 ==
               FillsOf(taker, m.1.trades, e.nextFillId) + MatchLevels(m.0, key, side, instrument, levels[1..]).1
  {
  }

  lemma {:induction false} MatchLevelsNil(e: Engine, key: Name, side: OrderSide, instrument: Instrument)
    requires key in e.books
    ensures MatchLevels(e, key, side, instrument, []) == (e, [])
  {
  }

  lemma {:induction false} MatchLevelsAgrees(e: Engine, key: Name, side: OrderSide, instrument: Instrument,
                                             levels: seq<BookLevel>)
    requires Agree(e, {}) && key in e.books
    ensures var e' := MatchLevels(e, key, side, instrument, levels).0;
            Agree(e', {}) && e'.orders.Keys == e.orders.Keys && e'.nextOrderId == e.nextOrderId
    decreases |levels|
  {
    if levels != [] {
      var taker := External(instrument, levels[0].price);
      MatchAgrees(e, {}, key, side, taker, levels[0].quantity);
      MatchLevelsAgrees(Match(e, key, side, taker, levels[0].quantity).0, key, side, instrument, levels[1..]);
    }
  }

  lemma {:induction false} MarketEventAgrees(e: Engine, instrument: Instrument, bidLevels: seq<BookLevel>,
                                             askLevels: seq<BookLevel>)
    requires Agree(e, {})
    ensures var e' := MarketEvent(e, instrument, bidLevels, askLevels).0;
            Agree(e', {}) && e'.orders.Keys == e.orders.Keys && e'.nextOrderId == e.nextOrderId
  {
    var key := instrument.instrumentId;
    if key in e.books {
      MatchLevelsAgrees(e, key, Buy, instrument, askLevels);
      MatchLevelsAgrees(MatchLevels(e, key, Buy, instrument, askLevels).0, key, Sell, instrument, bidLevels);
    }
  }

  ghost predicate OpenId(e: Engine, id: Name) {
    id in e.orders && !Terminal(e.orders[id].status)
  }

  /** An id that is not open does not rest anywhere. */
  lemma {:induction false} ClosedDoesNotRest(e: Engine, key: Name, id: Name)
    requires Agree(e, {}) && !OpenId(e, id) && key in e.books
    ensures !Known(e.books[key], id)
  {
    KnownIs(e.books[key], id);
    assert forall side, o :: o in Orders(e.books[key], side) ==> o.orderId != id;
    assert e.books[key].bids == Orders(e.books[key], Buy) && e.books[key].asks == Orders(e.books[key], Sell);
  }

  /** Opening an empty book and writing the record of an order that does not rest. */
  lemma {:induction false} AdmitAgrees(e: Engine, instrument: Instrument, id: Name, r: OrderRecord)
    requires Agree(e, {}) && !OpenId(e, id) && r.orderId == id
    ensures Agree(e.(books := e.books[instrument.instrumentId := BookFor(e, instrument)], orders := e.orders[id := r]),
                  {id})
  {
    var e' := e.(books := e.books[instrument.instrumentId := BookFor(e, instrument)], orders := e.orders[id := r]);
    forall key, side, o | key in e'.books && o in Orders(e'.books[key], side)
      ensures o.orderId != id && o.orderId in e'.orders && RecordOf(e'.orders[o.orderId], o, key)
    {
      assert key in e.books && o in Orders(e.books[key], side);
    }
    forall x | x in e'.orders && x != id && !Terminal(e'.orders[x].status)
      ensures Rests(e', x)
    {
      assert Rests(e, x);
    }
  }
}
