/**
 The matching engine as the program keeps it: one mutable book per instrument, an order ledger and
 three id counters.  Every method is proved to compute the transition of EngineModel.dfy, with no
 hypothesis beyond the object invariant.
 */
module MatchingEngines {
  import opened Types
  import opened BookModel
  import opened BookLaws
  import opened OrderBooks
  import opened EngineModel
  import opened EngineLaws

  lemma {:induction false} FillsSnoc(taker: Taker, trades: seq<Trade>, t: Trade, n: nat)
    ensures FillsOf(taker, trades + [t], n) == FillsOf(taker, trades, n) +
            [FillOf(taker, t.resting, t.quantity, FillName(n + |trades|))]
  {
    if trades == [] {
      assert [] + [t] == [t] && [t][1..] == [];
    } else {
      assert (trades + [t])[1..] == trades[1..] + [t];
      FillsSnoc(taker, trades[1..], t, n + 1);
    }
  }

  lemma {:induction false} FillOrdersSnoc(orders: map<Name, OrderRecord>, trades: seq<Trade>, t: Trade)
    ensures FillOrders(orders, trades + [t]) == FillOrder(FillOrders(orders, trades), t.resting.orderId, t.quantity)
    decreases |trades|
  {
    if trades == [] {
      assert [] + [t] == [t] && [t][1..] == [];
    } else {
      assert (trades + [t])[1..] == trades[1..] + [t] && (trades + [t])[0] == trades[0];
      FillOrdersSnoc(FillOrder(orders, trades[0].resting.orderId, trades[0].quantity), trades[1..], t);
    }
  }

  /** What remains to be walked, after some trades, still completes the walk over the original list. */
  ghost predicate Continues(taker: Taker, s0: seq<RestingOrder>, quantity0: real, done: seq<Trade>,
                            s: seq<RestingOrder>, quantity: real) {
    var w := Walk(taker, s, quantity);
    Walk(taker, s0, quantity0) == Sweep(done + w.trades, w.left, w.rest)
  }

  /** A walk that does not stop at once is its first trade followed by the walk over what that leaves. */
  lemma {:induction false} WalkGoesOn(taker: Taker, s: seq<RestingOrder>, quantity: real)
    requires !Stopped(taker, s, quantity)
    ensures var executed := Min(quantity, s[0].remaining);
            var w := Walk(taker, Residue(s[0], executed) + s[1..], Max(0.0, quantity - executed));
            Walk(taker, s, quantity) == Sweep([Trade(s[0], executed)] + w.trades, w.left, w.rest)
  {
    var executed := Min(quantity, s[0].remaining);
    if Residue(s[0], executed) == [] {
      assert Residue(s[0], executed) + s[1..] == s[1..];
    } else {
      assert Max(0.0, quantity - executed) == 0.0;
    }
  }

  /** One pass of the loop continues the walk. */
  lemma {:induction false} ContinuesStep(taker: Taker, s0: seq<RestingOrder>, quantity0: real, done: seq<Trade>,
                                         s: seq<RestingOrder>, quantity: real)
    requires Continues(taker, s0, quantity0, done, s, quantity) && !Stopped(taker, s, quantity)
    ensures var executed := Min(quantity, s[0].remaining);
            Continues(taker, s0, quantity0, done + [Trade(s[0], executed)], Residue(s[0], executed) + s[1..],
                      Max(0.0, quantity - executed))
  {
    hide Walk, Residue;
    WalkGoesOn(taker, s, quantity);
    var t := Trade(s[0], Min(quantity, s[0].remaining));
    var w := Walk(taker, Residue(s[0], t.quantity) + s[1..], Max(0.0, quantity - t.quantity));
    assert done + ([t] + w.trades) == done + [t] + w.trades;
  }

  lemma {:induction false} ContinuesStart(taker: Taker, s: seq<RestingOrder>, quantity: real, orders: map<Name,
                                          OrderRecord>, n: nat)
    ensures Continues(taker, s, quantity, [], s, quantity) && FillOrders(orders, []) == orders &&
            FillsOf(taker, [], n) == []
  {
    var w := Walk(taker, s, quantity);
    assert [] + w.trades == w.trades;
  }

  /** Each pass removes the resting order or exhausts the taker. */
  lemma {:induction false} PassProgress(o: RestingOrder, quantity: real)
    ensures var executed := Min(quantity, o.remaining);
            Residue(o, executed) == [] || (|Residue(o, executed)| == 1 && Max(0.0, quantity - executed) == 0.0)
  {
  }

  lemma {:induction false} ContinuesEnd(taker: Taker, s0: seq<RestingOrder>, quantity0: real, done: seq<Trade>,
                                        s: seq<RestingOrder>, quantity: real)
    requires Continues(taker, s0, quantity0, done, s, quantity) && Stopped(taker, s, quantity)
    ensures Walk(taker, s0, quantity0) == Sweep(done, s, quantity)
  {
    assert done + [] == done;
  }

  /** The front order of a side takes any executable quantity. */
  lemma {:induction false} FrontFill(b: Book, side: OrderSide, quantity: real)
    requires BookOk(b) && Orders(b, side) != [] && quantity <= Orders(b, side)[0].remaining
    requires quantity > TOLERANCE || quantity == Orders(b, side)[0].remaining
    ensures var s := Orders(b, side);
            Fill(b, s[0].orderId, quantity) == (WithOrders(b, side, Residue(s[0], quantity) + s[1..]), true)
  {
    var s := Orders(b, side);
    assert s[0] in s && SideOk(b, side);
    FillIs(b, side, 0, quantity);
    assert Cut(s, 0, Residue(s[0], quantity)) == Residue(s[0], quantity) + s[1..];
  }

  /** Matching the levels that are left, from `cur`, completes the matching of all levels from `e`. */
  ghost predicate LevelsLeft(e: Engine, key: Name, side: OrderSide, instrument: Instrument, levels: seq<BookLevel>,
                             cur: Engine, rest: seq<BookLevel>, fills: seq<FillEvent>) {
    && key in e.books && key in cur.books
    && MatchLevels(e, key, side, instrument, levels).0 == MatchLevels(cur, key, side, instrument, rest).0
    && MatchLevels(e, key, side, instrument, levels).1 == fills + MatchLevels(cur, key, side, instrument, rest).1
  }

  lemma {:induction false} LevelsLeftStart(e: Engine, key: Name, side: OrderSide, instrument: Instrument,
                                           levels: seq<BookLevel>)
    requires key in e.books
    ensures LevelsLeft(e, key, side, instrument, levels, e, levels[0..], [])
  {
    hide MatchLevels;
    assert levels[0..] == levels;
  }

  lemma {:induction false} LevelsLeftStep(e: Engine, key: Name, side: OrderSide, instrument: Instrument,
                                          levels: seq<BookLevel>,
                                          cur: Engine, i: nat, fills: seq<FillEvent>)
    requires i < |levels| && LevelsLeft(e, key, side, instrument, levels, cur, levels[i..], fills)
    ensures var taker := External(instrument, levels[i].price);
            var m := Match(cur, key, side, taker, levels[i].quantity);
            LevelsLeft(e, key, side, instrument, levels, m.0, levels[i + 1..],
                       fills + FillsOf(taker, m.1.trades, cur.nextFillId))
  {
    hide Match, FillsOf;
    var rest := levels[i..];
    assert rest[0] == levels[i] && rest[1..] == levels[i + 1..];
    MatchLevelsCons(cur, key, side, instrument, rest);
    hide MatchLevels;
  }

  lemma {:induction false} LevelsLeftEnd(e: Engine, key: Name, side: OrderSide, instrument: Instrument,
                                         levels: seq<BookLevel>,
                                         cur: Engine, fills: seq<FillEvent>)
    requires LevelsLeft(e, key, side, instrument, levels, cur, levels[|levels|..], fills)
    ensures key in e.books && MatchLevels(e, key, side, instrument, levels).0 == cur &&
            MatchLevels(e, key, side, instrument, levels).1 == fills
  {
    assert levels[|levels|..] == [];
    MatchLevelsNil(cur, key, side, instrument);
    hide MatchLevels;
    assert fills + [] == fills;
  }

  /** A cancellation that finds nothing changes nothing. */
  lemma {:induction false} FailedCancel(books: map<Name, Book>, key: Name, id: Name)
    requires key in books
    ensures !BookModel.Cancel(books[key], id).1 ==> books[key := BookModel.Cancel(books[key], id).0] == books
  {
  }

  /** The record written on entry is overwritten before anything reads it. */
  lemma {:induction false} TakeIgnoresRecord(e: Engine, e': Engine, id: Name, clientId: Name, request: OrderRequest)
    requires e' == e.(orders := e'.orders) && id in e'.orders && e'.orders == e.orders[id := e'.orders[id]]
    ensures Take(e', id, clientId, request) == Take(e, id, clientId, request)
  {
    var r := NewRecord(id, clientId, request, Acknowledged, 0.0);
    assert e'.orders[id := r] == e.orders[id := r];
  }

  /** A restore that is not refused outright, in terms of the opened book. */
  lemma {:induction false} RestoreIs(e: Engine, id: Name, clientId: Name, request: OrderRequest, filled: real)
    requires Restorable(request, filled)
    ensures var key := request.instrument.instrumentId;
            var books := e.books[key := BookFor(e, request.instrument)];
            var (book, restored) := Add(books[key], request, id, clientId, filled);
            var r := NewRecord(id, clientId, request, if filled > 0.0 then PartiallyFilled else Acknowledged, filled);
            var orders := e.orders[id := r];
            Restore(e, id, clientId, request, filled) ==
              e.(books := books[key := book], orders := if restored then orders else orders - {id})
  {
    hide Add, BookFor;
    var status := if filled > 0.0 then PartiallyFilled else Acknowledged;
    assert e.orders[id := NewRecord(id, clientId, request, status, filled)] - {id} == e.orders - {id};
  }

  class MatchingEngine {
    var books: map<Name, OrderBook>
    var orders: map<Name, OrderRecord>
    var nextOrderId: nat
    var nextClientOrderId: nat
    var nextFillId: nat

    constructor ()
      ensures Valid() && View() == EMPTY_ENGINE && fresh(books.Values)
    {
      books, orders, nextOrderId, nextClientOrderId, nextFillId := map[], map[], 1, 1, 1;
    }

    /** Each book is well formed, filed under its own instrument id, and shared with no other. */
    ghost predicate Valid()
      reads this`books, books.Values
    {
      && (forall k :: k in books ==> books[k].Valid() && books[k].instrument.instrumentId == k)
      && (forall j, k :: j in books && k in books && j != k ==> books[j] != books[k])
    }

    ghost function Books(): map<Name, Book>
      reads this`books, books.Values
    {
      map k | k in books :: books[k].View()
    }

    ghost function View(): Engine
      reads this, books.Values
    {
      Engine(Books(), orders, nextOrderId, nextClientOrderId, nextFillId)
    }

    lemma KnownBook(key: Name)
      ensures key in books <==> key in View().books
    {
    }

    /** Changing one book leaves the others, and the object invariant, alone. */
    twostate lemma BookChanged(key: Name)
      requires old(Valid()) && books == old(books) && key in books && books[key].Valid()
      requires forall k :: k in books && k != key ==> unchanged(books[k])
      ensures Valid() && Books() == old(Books())[key := books[key].View()] && key in old(Books()) &&
              old(Books())[key] == old(books[key].View())
    {
      hide Represents;
      assert forall k :: k in books && k != key ==> books[k].View() == old(books[k].View());
    }

    /** A new book leaves the others, and the object invariant, alone. */
    twostate lemma BookOpened(key: Name)
      requires old(Valid()) && key !in old(books) && key in books && books == old(books)[key := books[key]]
      requires books[key].Valid() && books[key].instrument.instrumentId == key && books[key] !in old(books.Values)
      requires forall k :: k in old(books) ==> unchanged(old(books[k]))
      ensures Valid() && Books() == old(Books())[key := books[key].View()] && key !in old(Books())
    {
      hide OrderBook.Valid, OrderBook.View;
      assert forall k :: k in old(books) ==> books[k] == old(books[k]);
      assert forall k :: k in old(books) ==> books[k].Valid() && books[k].View() == old(books[k].View());
    }

    method ApplyFillToOrder(orderId: Name, executedQuantity: real)
      modifies this`orders
      ensures orders == FillOrder(old(orders), orderId, executedQuantity)
    {
      if orderId !in orders || executedQuantity <= TOLERANCE {
        return;
      }
      var order := orders[orderId];
      order := order.(filledQuantity := Min(order.quantity, order.filledQuantity + executedQuantity));
      if Abs(order.filledQuantity - order.quantity) <= TOLERANCE {
        order := order.(filledQuantity := order.quantity);
      }
      order := order.(status := if order.filledQuantity >= order.quantity - TOLERANCE then Filled else PartiallyFilled);
      orders := orders[orderId := order];
    }

    /**
     One pass of the matching loop: fills the best order of the side, or reports that there is nothing to match.
     The book never refuses the fill.
     */
    method MatchBest(book: OrderBook, side: OrderSide, taker: Taker, quantity: real)
      returns (fill: Option<FillEvent>, remaining: real)
      requires book.Valid() && quantity > TOLERANCE
      modifies this`orders, this`nextFillId, book
      ensures book.Valid()
      ensures var s := Orders(old(book.View()), side);
              if Stopped(taker, s, quantity) then
                && fill == None && remaining == quantity
                && book.View() == old(book.View()) && orders == old(orders) && nextFillId == old(nextFillId)
              else
                var executed := Min(quantity, s[0].remaining);
                && fill == Some(FillOf(taker, s[0], executed, FillName(old(nextFillId))))
                && remaining == Max(0.0, quantity - executed)
                && book.View() == WithOrders(old(book.View()), side, Residue(s[0], executed) + s[1..])
                && orders == FillOrder(old(orders), s[0].orderId, executed)
                && nextFillId == old(nextFillId) + 1
    {
      fill, remaining := None, quantity;
      var resting := book.BestOrder(side);
      if resting.None? || !Executable(taker, resting.value) {
        return;
      }
      var executed := Min(quantity, resting.value.remaining);
      FrontFill(book.View(), side, executed);
      var applied := book.ApplyFill(resting.value.orderId, executed);
      if !applied {
        return;
      }
      ApplyFillToOrder(resting.value.orderId, executed);
      fill := Some(FillOf(taker, resting.value, executed, FillName(nextFillId)));
      nextFillId := nextFillId + 1;
      remaining := Max(0.0, quantity - executed);
    }

    /** The matching loop that `submit` and the two halves of `process_market_event` share. */
    method MatchLoop(book: OrderBook, side: OrderSide, taker: Taker, quantity: real)
      returns (fills: seq<FillEvent>, remaining: real)
      requires book.Valid()
      modifies this`orders, this`nextFillId, book
      ensures book.Valid()
      ensures var sweep := Walk(taker, Orders(old(book.View()), side), quantity);
              && book.View() == WithOrders(old(book.View()), side, sweep.left)
              && orders == FillOrders(old(orders), sweep.trades)
              && fills == FillsOf(taker, sweep.trades, old(nextFillId))
              && nextFillId == old(nextFillId) + |sweep.trades|
              && remaining == sweep.rest
    {
      hide Continues, Walk, FillOrders, FillsOf, FillOf, FillOrder, Represents, Executable, Residue;
      ghost var b0 := book.View();
      ContinuesStart(taker, Orders(b0, side), quantity, orders, nextFillId);
      ghost var s0, s := Orders(b0, side), Orders(b0, side);
      ghost var done: seq<Trade> := [];
      fills, remaining := [], quantity;
      while remaining > TOLERANCE
        invariant book.Valid() && book.View() == WithOrders(b0, side, s)
        invariant Continues(taker, s0, quantity, done, s, remaining)
        invariant orders == FillOrders(old(orders), done)
        invariant fills == FillsOf(taker, done, old(nextFillId)) && nextFillId == old(nextFillId) + |done|
        decreases |s|, if remaining > TOLERANCE then 1 else 0
      {
        ghost var quantity1 := remaining;
        var fill;
        fill, remaining := MatchBest(book, side, taker, remaining);
        if fill.None? {
          break;
        }
        ghost var t := Trade(s[0], Min(quantity1, s[0].remaining));
        PassProgress(s[0], quantity1);
        ContinuesStep(taker, s0, quantity, done, s, quantity1);
        FillOrdersSnoc(old(orders), done, t);
        FillsSnoc(taker, done, t, old(nextFillId));
        fills := fills + [fill.value];
        done, s := done + [t], Residue(t.resting, t.quantity) + s[1..];
      }
      ContinuesEnd(taker, s0, quantity, done, s, remaining);
    }

    /** The match loop on the book of one instrument, seen as a transition of the whole engine. */
    method MatchIn(key: Name, side: OrderSide, taker: Taker, quantity: real)
      returns (fills: seq<FillEvent>, remaining: real)
      requires Valid() && key in books
      modifies this`orders, this`nextFillId, books[key]
      ensures Valid() && key in old(View()).books && key in View().books && orders.Keys == old(orders).Keys
      ensures View() == Match(old(View()), key, side, taker, quantity).0
      ensures var sweep := Match(old(View()), key, side, taker, quantity).1;
              fills == FillsOf(taker, sweep.trades, old(View()).nextFillId) && remaining == sweep.rest
    {
      hide Walk, FillsOf, FillOrders, Represents;
      fills, remaining := MatchLoop(books[key], side, taker, quantity);
      BookChanged(key);
      hide Valid, Books;
    }

    /** Finds the book of an instrument, creating it when there is none. */
    method OpenBook(instrument: Instrument)
      requires Valid()
      modifies this`books
      ensures Valid() && instrument.instrumentId in books
      ensures fresh(books.Values - old(books.Values))
      ensures Books() == old(Books())[instrument.instrumentId := BookFor(old(View()), instrument)]
    {
      hide Represents;
      if instrument.instrumentId !in books {
        var book := new OrderBook(instrument);
        books := books[instrument.instrumentId := book];
        BookOpened(instrument.instrumentId);
        hide Valid, Books;
      }
    }

    /** Adds an order to the book of its instrument. */
    method AddIn(key: Name, orderId: Name, clientOrderId: Name, request: OrderRequest, filled: real)
      returns (added: bool)
      requires Valid() && key in books
      modifies books[key]
      ensures Valid() && key in old(Books())
      ensures Books() == old(Books())[key := Add(old(Books())[key], request, orderId, clientOrderId, filled).0]
      ensures added == Add(old(Books())[key], request, orderId, clientOrderId, filled).1
    {
      hide Represents, Add;
      added := books[key].AddOrder(request, orderId, clientOrderId, filled);
      BookChanged(key);
      hide Valid, Books;
    }

    /** Rests what is left of an order in the book of its instrument. */
    method RestIn(key: Name, orderId: Name, clientOrderId: Name, request: OrderRequest, filled: real, remaining: real)
      returns (rested: bool)
      requires Valid() && key in books
      modifies books[key]
      ensures Valid() && key in old(Books())
      ensures Books() ==
              old(Books())[key := RestLeft(old(Books())[key], orderId, clientOrderId, request, filled, remaining).0]
      ensures rested == RestLeft(old(Books())[key], orderId, clientOrderId, request, filled, remaining).1
    {
      assert key in Books() && Books() == Books()[key := Books()[key]];
      hide Valid, Books, Add;
      rested := true;
      if remaining > TOLERANCE {
        rested := AddIn(key, orderId, clientOrderId, request, filled);
      }
    }

    method RecordSettlement(orderId: Name, clientOrderId: Name, request: OrderRequest, filled: real, rested: bool)
      returns (updates: seq<OrderUpdate>)
      requires orderId in orders
      modifies this`orders
      ensures orders == old(orders)[orderId := SettledRecord(old(orders)[orderId], request, filled, rested)]
      ensures updates == SettledUpdates(orderId, clientOrderId, request, filled, rested)
    {
      var order := orders[orderId].(filledQuantity := filled);
      updates := [];
      if !rested {
        order := order.(status := Rejected);
        updates := [OrderUpdate(orderId, clientOrderId, Rejected, filled, FailedToRest)];
      } else if Abs(filled - request.quantity) <= TOLERANCE {
        order := order.(filledQuantity := request.quantity, status := Filled);
        updates := [OrderUpdate(orderId, clientOrderId, Filled, filled, Unstated)];
      } else if filled > TOLERANCE {
        order := order.(status := PartiallyFilled);
        updates := [OrderUpdate(orderId, clientOrderId, PartiallyFilled, filled, Unstated)];
      }
      orders := orders[orderId := order];
    }

    method SettleOrder(key: Name, orderId: Name, clientOrderId: Name, request: OrderRequest, remaining: real)
      returns (updates: seq<OrderUpdate>)
      requires Valid() && key in books && orderId in orders && key == request.instrument.instrumentId
      modifies this`orders, books[key]
      ensures Valid() && key in old(Books())
      ensures View() == Settle(old(View()), orderId, clientOrderId, request, remaining).0
      ensures updates == Settle(old(View()), orderId, clientOrderId, request, remaining).1
    {
      hide RestLeft, SettledRecord, SettledUpdates, Valid, Books;
      var filled := Max(0.0, request.quantity - remaining);
      var rested := RestIn(key, orderId, clientOrderId, request, filled, remaining);
      updates := RecordSettlement(orderId, clientOrderId, request, filled, rested);
    }

    /** Acknowledges, matches and settles an order that passed the checks. */
    method Accept(orderId: Name, clientOrderId: Name, request: OrderRequest)
      returns (updates: seq<OrderUpdate>, fills: seq<FillEvent>)
      requires Valid() && orderId in orders &&
               orders[orderId] == NewRecord(orderId, clientOrderId, request, Created, 0.0)
      modifies this, books.Values
      ensures Valid() && fresh(books.Values - old(books.Values))
      ensures var m := Take(old(View()), orderId, clientOrderId, request);
              && View() == Settle(m.0, orderId, clientOrderId, request, m.1.rest).0
              && updates == Settle(m.0, orderId, clientOrderId, request, m.1.rest).1
              && fills == FillsOf(Incoming(orderId, request), m.1.trades, old(nextFillId))
    {
      hide Valid, Settle, FillsOf, Books;
      ghost var e := View();
      var key := request.instrument.instrumentId;
      OpenBook(request.instrument);
      orders := orders[orderId := orders[orderId].(status := Acknowledged)];
      assert View() == e.(books := e.books[key := BookFor(e, request.instrument)],
                          orders := e.orders[orderId := NewRecord(orderId, clientOrderId, request, Acknowledged, 0.0)]);
      hide Match;
      var remaining;
      fills, remaining := MatchIn(key, Opposite(request.side), Incoming(orderId, request), request.quantity);
      updates := SettleOrder(key, orderId, clientOrderId, request, remaining);
    }

    method Submit(request: OrderRequest) returns (result: ExecutionResult)
      requires Valid()
      modifies this, books.Values
      ensures Valid() && fresh(books.Values - old(books.Values))
      ensures View() == EngineModel.Submit(old(View()), request).0
      ensures result == EngineModel.Submit(old(View()), request).1
    {
      hide Valid, Settle, FillsOf, Match, Books;
      var orderId, clientOrderId := OrderName(nextOrderId), ClientName(nextClientOrderId);
      nextOrderId, nextClientOrderId := nextOrderId + 1, nextClientOrderId + 1;
      ghost var e1 := View();
      orders := orders[orderId := NewRecord(orderId, clientOrderId, request, Created, 0.0)];
      if request.orderType == Market {
        orders := orders[orderId := orders[orderId].(status := Rejected)];
        return ExecutionResult(orderId, clientOrderId,
                               [OrderUpdate(orderId, clientOrderId, Rejected, 0.0, MarketOrdersUnsupported)], []);
      }
      if request.price.None? || request.price.value <= 0.0 || request.quantity <= 0.0 {
        orders := orders[orderId := orders[orderId].(status := Rejected)];
        return ExecutionResult(orderId, clientOrderId,
                               [OrderUpdate(orderId, clientOrderId, Rejected, 0.0, InvalidRequest)], []);
      }
      TakeIgnoresRecord(e1, View(), orderId, clientOrderId, request);
      var updates, fills := Accept(orderId, clientOrderId, request);
      result := ExecutionResult(orderId, clientOrderId,
                                [OrderUpdate(orderId, clientOrderId, Acknowledged, 0.0, Unstated)] + updates, fills);
    }

    /** Matches external levels one after the other against one side of a book. */
    method MatchExternal(key: Name, side: OrderSide, instrument: Instrument, levels: seq<BookLevel>)
      returns (fills: seq<FillEvent>)
      requires Valid() && key in books
      modifies this`orders, this`nextFillId, books[key]
      ensures Valid() && key in old(View()).books
      ensures View() == MatchLevels(old(View()), key, side, instrument, levels).0
      ensures fills == MatchLevels(old(View()), key, side, instrument, levels).1
    {
      hide Valid, Books, View, Match, FillsOf, MatchLevels, LevelsLeft;
      KnownBook(key);
      fills := [];
      ghost var e, cur := View(), View();
      LevelsLeftStart(e, key, side, instrument, levels);
      for i := 0 to |levels|
        invariant Valid() && View() == cur && key in cur.books
        invariant LevelsLeft(e, key, side, instrument, levels, cur, levels[i..], fills)
      {
        LevelsLeftStep(e, key, side, instrument, levels, cur, i, fills);
        ghost var next := Match(cur, key, side, External(instrument, levels[i].price), levels[i].quantity).0;
        var level, _ := MatchIn(key, side, External(instrument, levels[i].price), levels[i].quantity);
        fills, cur := fills + level, next;
      }
      LevelsLeftEnd(e, key, side, instrument, levels, cur, fills);
    }

    /** Reports the state of each listed order that is known. */
    method AppendUpdates(ids: seq<Name>) returns (updates: seq<OrderUpdate>)
      ensures updates == UpdatesFor(orders, ids)
    {
      updates := [];
      for i := 0 to |ids|
        invariant updates + UpdatesFor(orders, ids[i..]) == UpdatesFor(orders, ids)
      {
        assert ids[i..][0] == ids[i] && ids[i..][1..] == ids[i + 1..];
        if ids[i] in orders {
          var order := orders[ids[i]];
          updates := updates +
            [OrderUpdate(order.orderId, order.clientOrderId, order.status, order.filledQuantity, Unstated)];
        }
      }
      assert ids[|ids|..] == [];
    }

    method ProcessMarketEvent(instrument: Instrument, bidLevels: seq<BookLevel>, askLevels: seq<BookLevel>)
      returns (result: ExecutionResult)
      requires Valid()
      modifies this`orders, this`nextFillId, books.Values
      ensures Valid()
      ensures View() == MarketEvent(old(View()), instrument, bidLevels, askLevels).0
      ensures result == MarketEvent(old(View()), instrument, bidLevels, askLevels).1
    {
      hide Valid, Books, MatchLevels, SortUnique, UpdatesFor, Touched;
      var key := instrument.instrumentId;
      KnownBook(key);
      if key !in books {
        return ExecutionResult(Empty, Empty, [], []);
      }
      var buys := MatchExternal(key, Buy, instrument, askLevels);
      var sells := MatchExternal(key, Sell, instrument, bidLevels);
      var updates := AppendUpdates(SortUnique(Touched(buys + sells)));
      return ExecutionResult(Empty, Empty, updates, buys + sells);
    }

    method CancelIn(key: Name, orderId: Name) returns (canceled: bool)
      requires Valid() && key in books
      modifies books[key]
      ensures Valid() && key in old(Books())
      ensures Books() == old(Books())[key := BookModel.Cancel(old(Books())[key], orderId).0]
      ensures canceled == BookModel.Cancel(old(Books())[key], orderId).1
      ensures !canceled ==> Books() == old(Books())
    {
      hide Represents;
      FailedCancel(Books(), key, orderId);
      canceled := books[key].CancelOrder(orderId);
      BookChanged(key);
      hide Valid, Books;
    }

    /** Cancels an order whose record is open. */
    method CancelOpen(orderId: Name) returns (result: ExecutionResult)
      requires Valid() && orderId in orders && !Terminal(orders[orderId].status) &&
               orders[orderId].instrumentId in books
      modifies this`orders, books.Values
      ensures Valid()
      ensures View() == EngineModel.Cancel(old(View()), orderId, Empty).0
      ensures result == EngineModel.Cancel(old(View()), orderId, Empty).1
    {
      hide Valid, Books, BookModel.Cancel;
      var order := orders[orderId];
      var canceled := CancelIn(order.instrumentId, orderId);
      if !canceled {
        return CancelRefused(orderId, order, OpenOrderNotFound);
      }
      orders := orders[orderId := order.(status := PendingCancel)];
      var pending := OrderUpdate(orderId, order.clientOrderId, PendingCancel, order.filledQuantity, Unstated);
      orders := orders[orderId := order.(status := Canceled)];
      var done := OrderUpdate(orderId, order.clientOrderId, Canceled, order.filledQuantity, Unstated);
      return ExecutionResult(orderId, order.clientOrderId, [pending, done], []);
    }

    method Cancel(orderId: Name, clientOrderId: Name) returns (result: ExecutionResult)
      requires Valid()
      modifies this`orders, books.Values
      ensures Valid()
      ensures View() == EngineModel.Cancel(old(View()), orderId, clientOrderId).0
      ensures result == EngineModel.Cancel(old(View()), orderId, clientOrderId).1
    {
      assert books.Keys == Books().Keys;
      hide Valid, Books, BookModel.Cancel;
      if orderId !in orders {
        return ExecutionResult(orderId, clientOrderId,
                               [OrderUpdate(orderId, clientOrderId, Rejected, 0.0, OpenOrderNotFound)], []);
      }
      if Terminal(orders[orderId].status) {
        return CancelRefused(orderId, orders[orderId], NotCancelable);
      }
      if orders[orderId].instrumentId !in books {
        return CancelRefused(orderId, orders[orderId], OpenOrderNotFound);
      }
      result := CancelOpen(orderId);
    }

    method RestoreOpenOrder(orderId: Name, clientOrderId: Name, request: OrderRequest, filledQuantity: real)
      requires Valid()
      modifies this`orders, this`books, books.Values
      ensures Valid() && fresh(books.Values - old(books.Values))
      ensures View() == Restore(old(View()), orderId, clientOrderId, request, filledQuantity)
    {
      hide Valid, Books, Add;
      if request.price.None? || request.price.value <= 0.0 || request.quantity <= 0.0 {
        return;
      }
      if filledQuantity < 0.0 || filledQuantity >= request.quantity - TOLERANCE {
        return;
      }
      RestoreChecked(orderId, clientOrderId, request, filledQuantity);
    }

    method RestoreChecked(orderId: Name, clientOrderId: Name, request: OrderRequest, filledQuantity: real)
      requires Valid() && Restorable(request, filledQuantity)
      modifies this`orders, this`books, books.Values
      ensures Valid() && fresh(books.Values - old(books.Values))
      ensures View() == Restore(old(View()), orderId, clientOrderId, request, filledQuantity)
    {
      hide Valid, Books, Add, Restore, NewRecord, Restorable;
      ghost var e := View();
      var status := if filledQuantity > 0.0 then PartiallyFilled else Acknowledged;
      var record := NewRecord(orderId, clientOrderId, request, status, filledQuantity);
      orders := orders[orderId := record];
      OpenBook(request.instrument);
      var restored := AddIn(request.instrument.instrumentId, orderId, clientOrderId, request, filledQuantity);
      if !restored {
        orders := orders - {orderId};
      }
      RestoreIs(e, orderId, clientOrderId, request, filledQuantity);
    }
  }
}
