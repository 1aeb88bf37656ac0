/** A restored engine also reports alike: market events produce the same order updates as before the restart. */
module MirrorLaws {
  import opened Types
  import opened EngineModel
  import opened EngineLaws
  import opened MatchingLaws
  import opened MarketLaws
  import opened RestoreLaws

  /** Every record of the one ledger is in the other. */
  ghost predicate Mirrors(orders': map<Name, OrderRecord>, orders: map<Name, OrderRecord>) {
    forall id :: id in orders' ==> id in orders && orders[id] == orders'[id]
  }

  /** Trades with the same orders and quantities. */
  ghost predicate TradesAlike(v: seq<Trade>, w: seq<Trade>) {
    |v| == |w| && forall k :: 0 <= k < |v| ==>
      v[k].resting.orderId == w[k].resting.orderId && v[k].quantity == w[k].quantity
  }

  lemma {:induction false} ViewsAt(fills: seq<FillEvent>)
    ensures |Views(fills)| == |fills| && forall k :: 0 <= k < |fills| ==> Views(fills)[k] == ViewOf(fills[k])
  {
    if fills != [] {
      ViewsAt(fills[1..]);
    }
  }

  lemma {:induction false} ViewsOfTrades(taker: Taker, v: seq<Trade>, w: seq<Trade>, n: nat, n': nat)
    requires taker.External? && Views(FillsOf(taker, v, n)) == Views(FillsOf(taker, w, n'))
    ensures TradesAlike(v, w)
  {
    hide Views, FillsOf;
    var f, g := FillsOf(taker, v, n), FillsOf(taker, w, n');
    ViewsAt(f);
    ViewsAt(g);
    forall k | 0 <= k < |v|
      ensures v[k].resting.orderId == w[k].resting.orderId && v[k].quantity == w[k].quantity
    {
      FillsAt(taker, v, n, k);
      FillsAt(taker, w, n', k);
      assert ViewOf(f[k]) == ViewOf(g[k]);
    }
  }

  lemma {:induction false} FillOrdersMirror(orders': map<Name, OrderRecord>, orders: map<Name, OrderRecord>,
                                            v: seq<Trade>, w: seq<Trade>)
    requires Mirrors(orders', orders) && TradesAlike(v, w)
    ensures Mirrors(FillOrders(orders', v), FillOrders(orders, w))
    decreases |v|
  {
    if v != [] {
      assert v[0].resting.orderId == w[0].resting.orderId && v[0].quantity == w[0].quantity;
      assert TradesAlike(v[1..], w[1..]);
      hide FilledRecord;
      FillOrdersMirror(FillOrder(orders', v[0].resting.orderId, v[0].quantity),
                       FillOrder(orders, w[0].resting.orderId, w[0].quantity), v[1..], w[1..]);
    }
  }

  lemma {:induction false} MatchMirrors(e': Engine, e: Engine, key: Name, side: OrderSide, taker: Taker, quantity: real)
    requires Alike(e', e) && Mirrors(e'.orders, e.orders) && key in e.books && key in e'.books && taker.External?
    ensures Mirrors(Match(e', key, side, taker, quantity).0.orders, Match(e, key, side, taker, quantity).0.orders)
  {
    MatchAlike(e', e, key, side, taker, quantity);
    var v, w := Match(e', key, side, taker, quantity).1.trades, Match(e, key, side, taker, quantity).1.trades;
    hide Alike, Walk, Mirrors, FillsOf, Views;
    ViewsOfTrades(taker, v, w, e'.nextFillId, e.nextFillId);
    FillOrdersMirror(e'.orders, e.orders, v, w);
  }

  lemma {:induction false} MatchLevelsMirrors(e': Engine, e: Engine, key: Name, side: OrderSide, instrument: Instrument,
                                              levels: seq<BookLevel>)
    requires Alike(e', e) && Mirrors(e'.orders, e.orders) && key in e.books && key in e'.books
    ensures Mirrors(MatchLevels(e', key, side, instrument, levels).0.orders,
                    MatchLevels(e, key, side, instrument, levels).0.orders)
    decreases |levels|
  {
    hide Alike, Match, Mirrors, MatchLevels;
    if levels == [] {
      MatchLevelsNil(e', key, side, instrument);
      MatchLevelsNil(e, key, side, instrument);
    } else {
      var taker := External(instrument, levels[0].price);
      MatchMirrors(e', e, key, side, taker, levels[0].quantity);
      MatchAlike(e', e, key, side, taker, levels[0].quantity);
      MatchLevelsCons(e', key, side, instrument, levels);
      MatchLevelsCons(e, key, side, instrument, levels);
      MatchLevelsMirrors(Match(e', key, side, taker, levels[0].quantity).0,
                         Match(e, key, side, taker, levels[0].quantity).0, key, side, instrument, levels[1..]);
    }
  }

  lemma {:induction false} UpdatesMirror(orders': map<Name, OrderRecord>, orders: map<Name, OrderRecord>,
                                         ids: seq<Name>)
    requires Mirrors(orders', orders) && forall x :: x in ids ==> x in orders'
    ensures UpdatesFor(orders', ids) == UpdatesFor(orders, ids)
  {
    if ids != [] {
      assert ids[0] in ids;
      UpdatesMirror(orders', orders, ids[1..]);
    }
  }

  lemma {:induction false} TouchedAlike(f: seq<FillEvent>, g: seq<FillEvent>)
    requires Views(f) == Views(g)
    ensures Touched(f) == Touched(g)
  {
    hide Views;
    ViewsAt(f);
    ViewsAt(g);
    forall k | 0 <= k < |f|
      ensures f[k].orderId == g[k].orderId
    {
      assert ViewOf(f[k]) == ViewOf(g[k]);
    }
  }

  lemma {:induction false} LedgersMirror(e': Engine, e: Engine, instrument: Instrument, bidLevels: seq<BookLevel>,
                                         askLevels: seq<BookLevel>)
    requires Alike(e', e) && Mirrors(e'.orders, e.orders)
    ensures Mirrors(MarketEvent(e', instrument, bidLevels, askLevels).0.orders,
                    MarketEvent(e, instrument, bidLevels, askLevels).0.orders)
  {
    var key := instrument.instrumentId;
    if key in e'.books && key in e.books {
      hide Alike, Mirrors;
      MatchLevelsMirrors(e', e, key, Buy, instrument, askLevels);
      MatchLevelsAlike(e', e, key, Buy, instrument, askLevels);
      MatchLevelsMirrors(MatchLevels(e', key, Buy, instrument, askLevels).0,
                         MatchLevels(e, key, Buy, instrument, askLevels).0, key, Sell, instrument, bidLevels);
    } else {
      forall d
        ensures OrdersIn(e', key, d) == [] && OrdersIn(e, key, d) == []
      {
        assert |Shapes(OrdersIn(e', key, d))| == |Shapes(OrdersIn(e, key, d))|;
      }
      hide Mirrors, MarketEvent;
      EmptyBookEvent(e', instrument, bidLevels, askLevels);
      EmptyBookEvent(e, instrument, bidLevels, askLevels);
    }
  }

  /** Updates are read off the ledger for the touched orders, whether or not the instrument has a book. */
  lemma {:induction false} EventUpdatesAre(e: Engine, instrument: Instrument, bidLevels: seq<BookLevel>,
                                           askLevels: seq<BookLevel>)
    ensures var (e1, result) := MarketEvent(e, instrument, bidLevels, askLevels);
            result.updates == UpdatesFor(e1.orders, SortUnique(Touched(result.fills)))
  {
    hide MatchLevels;
  }

  lemma {:induction false} MarketEventMirrors(e': Engine, e: Engine, instrument: Instrument, bidLevels: seq<BookLevel>,
                                              askLevels: seq<BookLevel>)
    requires Agree(e', {}) && Alike(e', e) && Mirrors(e'.orders, e.orders)
    ensures MarketEvent(e', instrument, bidLevels, askLevels).1.updates ==
            MarketEvent(e, instrument, bidLevels, askLevels).1.updates
  {
    hide Alike, Agree, Mirrors, MarketEvent, Views, SortUnique, UpdatesFor, Touched;
    var (m', r') := MarketEvent(e', instrument, bidLevels, askLevels);
    var (m, r) := MarketEvent(e, instrument, bidLevels, askLevels);
    LedgersMirror(e', e, instrument, bidLevels, askLevels);
    MarketEventAlike(e', e, instrument, bidLevels, askLevels);
    TouchedAlike(r'.fills, r.fills);
    EventUpdatesAre(e', instrument, bidLevels, askLevels);
    EventUpdatesAre(e, instrument, bidLevels, askLevels);
    TouchedKnown(e', instrument, bidLevels, askLevels);
    UpdatesMirror(m'.orders, m.orders, SortUnique(Touched(r'.fills)));
  }

  lemma {:induction false} TouchedKnown(e: Engine, instrument: Instrument, bidLevels: seq<BookLevel>,
                                        askLevels: seq<BookLevel>)
    requires Agree(e, {})
    ensures var (e1, result) := MarketEvent(e, instrument, bidLevels, askLevels);
            forall x :: x in SortUnique(Touched(result.fills)) ==> x in e1.orders
  {
    hide Agree, SortUnique, MatchLevels;
    TouchedLaw(MarketEvent(e, instrument, bidLevels, askLevels).1.fills);
    if instrument.instrumentId in e.books {
      EventKnown(e, instrument, bidLevels, askLevels);
    }
  }

  /** The order updates of a sequence of market events, in order. */
  function EventUpdates(e: Engine, quotes: seq<Quote>): seq<OrderUpdate>
    decreases |quotes|
  {
    if quotes == [] then []
    else
      var (e1, result) := MarketEvent(e, quotes[0].instrument, quotes[0].bidLevels, quotes[0].askLevels);
      result.updates + EventUpdates(e1, quotes[1..])
  }

  lemma {:induction false} EventsMirror(e': Engine, e: Engine, quotes: seq<Quote>)
    requires Agree(e', {}) && Alike(e', e) && Mirrors(e'.orders, e.orders)
    ensures EventUpdates(e', quotes) == EventUpdates(e, quotes)
    decreases |quotes|
  {
    hide Alike, Agree, Mirrors, MarketEvent;
    if quotes != [] {
      var q := quotes[0];
      LedgersMirror(e', e, q.instrument, q.bidLevels, q.askLevels);
      MarketEventAlike(e', e, q.instrument, q.bidLevels, q.askLevels);
      MarketEventMirrors(e', e, q.instrument, q.bidLevels, q.askLevels);
      MarketEventAgrees(e', q.instrument, q.bidLevels, q.askLevels);
      EventsMirror(MarketEvent(e', q.instrument, q.bidLevels, q.askLevels).0,
                   MarketEvent(e, q.instrument, q.bidLevels, q.askLevels).0, quotes[1..]);
    }
  }

  lemma {:induction false} RestoredMirrors(e: Engine, records: seq<OrderRecord>)
    requires Agree(e, {}) && ListsOpenOrders(e, records)
    ensures var e' := RestoreAll(EMPTY_ENGINE, records);
            Agree(e', {}) && Mirrors(e'.orders, e.orders)
  {
    hide RestoreAll;
    RestoredEngine(e, records);
    assert records[..|records|] == records;
    var e' := RestoreAll(EMPTY_ENGINE, records);
    forall id | id in e'.orders
      ensures id in e.orders && e.orders[id] == e'.orders[id]
    {
      assert Listed(records, id);
      var k :| 0 <= k < |records| && records[k].orderId == id;
      assert records[k] in records;
    }
  }

  /**
   After restoring an engine's open records into an empty one, those of equal price in arrival order, every later
   sequence of market events reports the same updates: orders, client ids, statuses and filled quantities.
   */
  lemma {:induction false} RestoredEngineReportsAlike(e: Engine, records: seq<OrderRecord>, quotes: seq<Quote>)
    requires Agree(e, {}) && ListsOpenOrders(e, records) && InArrivalOrder(e, records)
    ensures EventUpdates(RestoreAll(EMPTY_ENGINE, records), quotes) == EventUpdates(e, quotes)
  {
    hide Agree, ListsOpenOrders, InArrivalOrder, RestoreAll, Mirrors, MarketEvent;
    var e' := RestoreAll(EMPTY_ENGINE, records);
    RestoredMirrors(e, records);
    forall key, side
      ensures Shapes(OrdersIn(e', key, side)) == Shapes(OrdersIn(e, key, side))
    {
      RestoredBooksAreTheSame(e, records, key, side);
    }
    EventsMirror(e', e, quotes);
  }
}
