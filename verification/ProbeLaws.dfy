/**
 Exactly when a restart keeps priority.  One external level that every order of a side accepts, and that is larger than
 the whole side, fills all its orders in priority order; so the fills of later events tell whether the restored books
 are in the old order.
 */
module ProbeLaws {
  import opened Types
  import opened BookModel
  import opened EngineModel
  import opened EngineLaws
  import opened MatchingLaws
  import opened RestoreLaws

  // ---------- A level that sweeps a side ----------

  function Supply(s: seq<RestingOrder>): real {
    if s == [] then 0.0 else s[0].remaining + Supply(s[1..])
  }

  function Highest(s: seq<RestingOrder>): real {
    if s == [] then 0.0 else Max(Price(s[0]), Highest(s[1..]))
  }

  /** The level is large enough for the whole side, at a price that all its orders accept. */
  ghost predicate Sweeps(level: BookLevel, side: OrderSide, s: seq<RestingOrder>) {
    level.quantity >= Supply(s) + 1.0 && (if side == Buy then level.price <= 0.0 else level.price >= Highest(s))
  }

  ghost predicate Sound(side: OrderSide, s: seq<RestingOrder>) {
    forall o :: o in s ==> o.remaining > 0.0 && o.request.side == side && o.request.price.Some? && Price(o) > 0.0
  }

  lemma {:induction false} SupplyIsPositive(side: OrderSide, s: seq<RestingOrder>)
    requires Sound(side, s)
    ensures Supply(s) >= 0.0
  {
    if s != [] {
      assert s[0] in s;
      SupplyIsPositive(side, s[1..]);
    }
  }

  /** Its trades are with all the orders, in their order. */
  lemma {:induction false} SweepsAll(level: BookLevel, instrument: Instrument, side: OrderSide, s: seq<RestingOrder>)
    requires Sound(side, s) && Sweeps(level, side, s)
    ensures var trades := Walk(External(instrument, level.price), s, level.quantity).trades;
            |trades| == |s| && forall k :: 0 <= k < |s| ==> trades[k].resting == s[k]
    decreases |s|
  {
    var taker := External(instrument, level.price);
    WalkStep(taker, s, level.quantity);
    hide Walk;
    if s != [] {
      assert s[0] in s;
      SupplyIsPositive(side, s[1..]);
      assert Executable(taker, s[0]);
      var rest := level.(quantity := level.quantity - s[0].remaining);
      assert Residue(s[0], Min(level.quantity, s[0].remaining)) == [];
      SweepsAll(rest, instrument, side, s[1..]);
    }
  }

  // ---------- The fills it yields ----------

  function Ids(s: seq<RestingOrder>): (ids: seq<Name>)
    ensures |ids| == |s| && forall k :: 0 <= k < |s| ==> ids[k] == s[k].orderId
  {
    seq(|s|, k requires 0 <= k < |s| => s[k].orderId)
  }

  function FilledIds(views: seq<FillView>): (ids: seq<Name>)
    ensures |ids| == |views| && forall k :: 0 <= k < |views| ==> ids[k] == views[k].orderId
  {
    seq(|views|, k requires 0 <= k < |views| => views[k].orderId)
  }

  lemma {:induction false} TradedIds(taker: Taker, trades: seq<Trade>, n: nat)
    requires taker.External?
    ensures var views := Views(FillsOf(taker, trades, n));
            |views| == |trades| && forall k :: 0 <= k < |trades| ==> views[k].orderId == trades[k].resting.orderId
  {
    if trades != [] {
      TradedIds(taker, trades[1..], n + 1);
      var fills := FillsOf(taker, trades, n);
      assert fills[1..] == FillsOf(taker, trades[1..], n + 1);
    }
  }

  /** One level against one side. */
  lemma {:induction false} OneLevel(e: Engine, key: Name, side: OrderSide, instrument: Instrument, level: BookLevel)
    requires key in e.books && Sound(side, Orders(e.books[key], side))
    requires Sweeps(level, side, Orders(e.books[key], side))
    ensures FilledIds(Views(MatchLevels(e, key, side, instrument, [level]).1)) == Ids(Orders(e.books[key], side))
  {
    var taker := External(instrument, level.price);
    var s := Orders(e.books[key], side);
    SweepsAll(level, instrument, side, s);
    var (e1, sweep) := Match(e, key, side, taker, level.quantity);
    assert [level][1..] == [];
    assert MatchLevels(e1, key, side, instrument, []).1 == [];
    var fills := FillsOf(taker, sweep.trades, e.nextFillId);
    assert fills + [] == fills;
    TradedIds(taker, sweep.trades, e.nextFillId);
  }

  /** The event that offers one level to one side of one book. */
  function Probe(key: Name, side: OrderSide, level: BookLevel): Quote {
    Quote(Instrument(key, Empty, Empty), if side == Buy then [] else [level], if side == Buy then [level] else [])
  }

  lemma {:induction false} SidesAreSound(e: Engine, key: Name, side: OrderSide)
    requires Agree(e, {})
    ensures Sound(side, OrdersIn(e, key, side))
  {
    if key in e.books {
      assert SideOk(e.books[key], side);
    }
  }

  /** It fills the orders of that side in priority order. */
  lemma {:induction false} ProbeShows(e: Engine, key: Name, side: OrderSide, level: BookLevel)
    requires Agree(e, {}) && Sweeps(level, side, OrdersIn(e, key, side))
    ensures FilledIds(Views(EventFills(e, [Probe(key, side, level)]))) == Ids(OrdersIn(e, key, side))
  {
    SidesAreSound(e, key, side);
    hide Agree;
    var quote := Probe(key, side, level);
    var (e1, result) := MarketEvent(e, quote.instrument, quote.bidLevels, quote.askLevels);
    assert [quote][1..] == [] && EventFills(e1, []) == [];
    assert EventFills(e, [quote]) == result.fills;
    hide EventFills;
    if key in e.books {
      OneLevel(e, key, side, quote.instrument, level);
      if side == Buy {
        var (e2, fills) := MatchLevels(e, key, Buy, quote.instrument, [level]);
        assert MatchLevels(e2, key, Sell, quote.instrument, []) == (e2, []);
        assert result.fills == fills + [] == fills;
      } else {
        assert MatchLevels(e, key, Buy, quote.instrument, []) == (e, []);
        var fills := MatchLevels(e, key, Sell, quote.instrument, [level]).1;
        assert result.fills == [] + fills == fills;
      }
    }
  }

  /** Some level sweeps two lists. */
  function LevelFor(s: seq<RestingOrder>, t: seq<RestingOrder>, side: OrderSide): (level: BookLevel)
    ensures Sweeps(level, side, s) && Sweeps(level, side, t)
  {
    BookLevel(if side == Buy then 0.0 else Max(Highest(s), Highest(t)), Max(Supply(s), Supply(t)) + 1.0)
  }

  // ---------- What it says about a restored engine ----------

  /** Every later sequence of market events yields the same fills. */
  ghost predicate TradesAlike(e: Engine, e': Engine) {
    forall quotes :: Views(EventFills(e', quotes)) == Views(EventFills(e, quotes))
  }

  lemma {:induction false} SameIds(e: Engine, e': Engine, key: Name, side: OrderSide)
    requires Agree(e, {}) && Agree(e', {}) && TradesAlike(e, e')
    ensures Ids(OrdersIn(e', key, side)) == Ids(OrdersIn(e, key, side))
  {
    hide Agree, EventFills, Views, Sweeps, OrdersIn;
    var level := LevelFor(OrdersIn(e, key, side), OrdersIn(e', key, side), side);
    ProbeShows(e, key, side, level);
    ProbeShows(e', key, side, level);
  }

  /** An order that rests before and after the restart has its price. */
  lemma {:induction false} SamePrice(e: Engine, records: seq<OrderRecord>, key: Name, side: OrderSide, o: RestingOrder,
                                     o': RestingOrder)
    requires Agree(e, {}) && ListsOpenOrders(e, records) && o in OrdersIn(e, key, side)
    requires o' in OrdersIn(RestoreAll(EMPTY_ENGINE, records), key, side) && o'.orderId == o.orderId
    ensures Price(o') == Price(o)
  {
    var e' := RestoreAll(EMPTY_ENGINE, records);
    RestoredAgrees(e, records);
    RestingIsListed(e, records, key, side, o);
    hide RestoreAll, ListsOpenOrders;
    RestingRecordOf(e, key, side, o);
    RestingRecordOf(e', key, side, o');
  }

  /** With the old ids in the old order, orders of equal price were listed in arrival order. */
  lemma {:induction false} ListedInOrder(e: Engine, records: seq<OrderRecord>, key: Name, side: OrderSide, i: int,
                                         j: int)
    requires Agree(e, {}) && ListsOpenOrders(e, records)
    requires Ids(OrdersIn(RestoreAll(EMPTY_ENGINE, records), key, side)) == Ids(OrdersIn(e, key, side))
    requires 0 <= i < j < |OrdersIn(e, key, side)|
    requires Price(OrdersIn(e, key, side)[i]) == Price(OrdersIn(e, key, side)[j])
    ensures var s := OrdersIn(e, key, side);
            Pos(records, s[i].orderId) < Pos(records, s[j].orderId)
  {
    var e' := RestoreAll(EMPTY_ENGINE, records);
    var s, s' := OrdersIn(e, key, side), OrdersIn(e', key, side);
    assert |s'| == |Ids(s')| == |s| && Ids(s')[i] == s[i].orderId && Ids(s')[j] == s[j].orderId;
    assert s[i] in s && s[j] in s && s'[i] in s' && s'[j] in s';
    SamePrice(e, records, key, side, s[i], s'[i]);
    SamePrice(e, records, key, side, s[j], s'[j]);
    RestoredAgrees(e, records);
    hide *;
    SortedByPosition(e', records, key, side, i, j);
  }

  /** In a rebuilt engine orders of equal price are in the order of the list. */
  lemma {:induction false} SortedByPosition(e: Engine, records: seq<OrderRecord>, key: Name, side: OrderSide, i: int,
                                            j: int)
    requires Rebuilt(e, records, |records|)
    requires 0 <= i < j < |OrdersIn(e, key, side)|
    requires Price(OrdersIn(e, key, side)[i]) == Price(OrdersIn(e, key, side)[j])
    ensures Pos(records, OrdersIn(e, key, side)[i].orderId) < Pos(records, OrdersIn(e, key, side)[j].orderId)
  {
    RestoredSorted(e, records, key, side);
    hide Rebuilt;
    var s := OrdersIn(e, key, side);
    assert Prior(side, records, Shapes(s)[i], Shapes(s)[j]);
    assert ShapePrice(Shapes(s)[i]) == Price(s[i]) && ShapePrice(Shapes(s)[j]) == Price(s[j]);
  }

  /**
   Whatever the order in which open records are restored into an empty engine: every later sequence of market events
   yields the same fills, and every book looks the same, if and only if orders of equal price are listed in arrival
   order.
   */
  lemma {:induction false} RestartKeepsPriorityExactly(e: Engine, records: seq<OrderRecord>)
    requires Agree(e, {}) && ListsOpenOrders(e, records)
    ensures var e' := RestoreAll(EMPTY_ENGINE, records);
            && (TradesAlike(e, e') <==> InArrivalOrder(e, records))
            && (Alike(e', e) <==> InArrivalOrder(e, records))
  {
    var e' := RestoreAll(EMPTY_ENGINE, records);
    RestoredAgrees(e, records);
    hide Agree, ListsOpenOrders, RestoreAll, Rebuilt, EventFills, Views;
    if InArrivalOrder(e, records) {
      RestartKeepsPriority(e, records);
    }
    if TradesAlike(e, e') || Alike(e', e) {
      forall key, side
        ensures Ids(OrdersIn(e', key, side)) == Ids(OrdersIn(e, key, side))
      {
        if TradesAlike(e, e') {
          SameIds(e, e', key, side);
        } else {
          AlikeIds(OrdersIn(e', key, side), OrdersIn(e, key, side));
        }
      }
      forall key, side, i, j | key in e.books && 0 <= i < j < |Orders(e.books[key], side)| &&
                               Price(Orders(e.books[key], side)[i]) == Price(Orders(e.books[key], side)[j])
        ensures var s := Orders(e.books[key], side);
                Pos(records, s[i].orderId) < Pos(records, s[j].orderId)
      {
        ListedInOrder(e, records, key, side, i, j);
      }
    }
  }

  lemma {:induction false} AlikeIds(s: seq<RestingOrder>, t: seq<RestingOrder>)
    requires Shapes(s) == Shapes(t)
    ensures Ids(s) == Ids(t)
  {
    assert |s| == |Shapes(t)| == |t|;
    forall k | 0 <= k < |s|
      ensures Ids(s)[k] == Ids(t)[k]
    {
      assert Shapes(s)[k] == Shapes(t)[k];
    }
  }

  lemma {:induction false} RestartKeepsPriority(e: Engine, records: seq<OrderRecord>)
    requires Agree(e, {}) && ListsOpenOrders(e, records) && InArrivalOrder(e, records)
    ensures var e' := RestoreAll(EMPTY_ENGINE, records);
            TradesAlike(e, e') && Alike(e', e)
  {
    hide Agree, ListsOpenOrders, InArrivalOrder, RestoreAll, EventFills, Views;
    forall quotes
      ensures Views(EventFills(RestoreAll(EMPTY_ENGINE, records), quotes)) == Views(EventFills(e, quotes))
    {
      RestoredEngineTradesAlike(e, records, quotes);
    }
    forall key, side
      ensures Shapes(OrdersIn(RestoreAll(EMPTY_ENGINE, records), key, side)) == Shapes(OrdersIn(e, key, side))
    {
      RestoredBooksAreTheSame(e, records, key, side);
    }
  }

  // ---------- Priority can be lost ----------

  /** Any list of the same records, each once, lists the open orders of a rebuilt engine. */
  lemma {:induction false} RebuiltLists(e: Engine, records: seq<OrderRecord>, listing: seq<OrderRecord>)
    requires Rebuilt(e, records, |records|) && DistinctIds(listing)
    requires forall r :: r in records ==> OpenRecord(r)
    requires forall r :: r in listing <==> r in records
    ensures ListsOpenOrders(e, listing)
  {
    assert records[..|records|] == records;
    hide Agree, ArrivesInOrder, DistinctIds;
    forall id
      ensures Listed(listing, id) <==> OpenId(e, id)
    {
      if Listed(listing, id) {
        var k :| 0 <= k < |listing| && listing[k].orderId == id;
        assert listing[k] in listing;
        var n :| 0 <= n < |records| && records[n] == listing[k];
      }
      if OpenId(e, id) {
        assert Listed(records, id);
        var n :| 0 <= n < |records| && records[n].orderId == id;
        assert records[n] in records;
        var k :| 0 <= k < |listing| && listing[k] == records[n];
      }
    }
    forall r | r in listing
      ensures r.orderId in e.orders && r == e.orders[r.orderId]
    {
      var n :| 0 <= n < |records| && records[n] == r;
    }
  }

  lemma {:induction false} RebuiltFromEmpty(records: seq<OrderRecord>)
    requires DistinctIds(records) && forall r :: r in records ==> OpenRecord(r)
    ensures var e := RestoreAll(EMPTY_ENGINE, records);
            Rebuilt(e, records, |records|) && Agree(e, {})
  {
    assert Rebuilt(EMPTY_ENGINE, records, 0);
    RestoreAllRebuilds(EMPTY_ENGINE, records, 0);
    assert records[0..] == records;
    hide RestoreAll, Agree;
  }

  lemma {:induction false} RebuiltHolds(e: Engine, records: seq<OrderRecord>, k: nat)
    requires Rebuilt(e, records, |records|) && k < |records| && OpenRecord(records[k])
    ensures OpenId(e, records[k].orderId) && e.orders[records[k].orderId] == records[k]
  {
    hide Agree, ArrivesInOrder;
  }

  /** Two records of one price, in another order. */
  ghost predicate Swapped(records: seq<OrderRecord>, m: nat, n: nat, listing: seq<OrderRecord>) {
    && m < n < |records|
    && var x, y := records[m], records[n];
       && x.instrumentId == y.instrumentId && x.side == y.side && x.price == y.price
       && Pos(listing, y.orderId) < Pos(listing, x.orderId)
  }

  lemma {:induction false} RebuiltRests(e: Engine, records: seq<OrderRecord>, k: nat) returns (i: nat)
    requires Rebuilt(e, records, |records|) && k < |records| && OpenRecord(records[k])
    ensures var r := records[k];
            && r.instrumentId in e.books && i < |Orders(e.books[r.instrumentId], r.side)|
            && var o := Orders(e.books[r.instrumentId], r.side)[i];
               o.orderId == r.orderId && Price(o) == r.price.value
  {
    RebuiltHolds(e, records, k);
    assert Agree(e, {});
    hide Agree, Rebuilt;
    i := LocateOpen(e, records[k].orderId);
  }

  /** The earlier record of two at one price rests first. */
  lemma {:induction false} EarlierRestsFirst(e: Engine, records: seq<OrderRecord>, m: nat, n: nat,
                                             listing: seq<OrderRecord>)
    returns (i: nat, j: nat)
    requires Rebuilt(e, records, |records|) && DistinctIds(records) && Swapped(records, m, n, listing)
    requires OpenRecord(records[m]) && OpenRecord(records[n])
    ensures Disordered(e, records[m].instrumentId, records[m].side, i, j, listing)
  {
    hide Rebuilt, Pos, OpenRecord, DistinctIds, Price;
    i := RebuiltRests(e, records, m);
    j := RebuiltRests(e, records, n);
    PosAt(records, m);
    PosAt(records, n);
    EarlierIndex(e, records, records[m].instrumentId, records[m].side, i, j);
  }

  lemma {:induction false} EarlierIndex(e: Engine, records: seq<OrderRecord>, key: Name, side: OrderSide, i: nat,
                                        j: nat)
    requires Rebuilt(e, records, |records|) && key in e.books
    requires i < |Orders(e.books[key], side)| && j < |Orders(e.books[key], side)|
    requires Price(Orders(e.books[key], side)[i]) == Price(Orders(e.books[key], side)[j])
    requires Pos(records, Orders(e.books[key], side)[i].orderId) < Pos(records, Orders(e.books[key], side)[j].orderId)
    ensures i < j
  {
    hide Rebuilt, Pos, Price;
    if j < i {
      SortedByPosition(e, records, key, side, j, i);
    }
  }

  ghost predicate Disordered(e: Engine, key: Name, side: OrderSide, i: int, j: int, listing: seq<OrderRecord>) {
    && key in e.books && 0 <= i < j < |Orders(e.books[key], side)|
    && var s := Orders(e.books[key], side);
       Price(s[i]) == Price(s[j]) && Pos(listing, s[j].orderId) < Pos(listing, s[i].orderId)
  }

  lemma {:induction false} OutOfOrder(e: Engine, key: Name, side: OrderSide, i: int, j: int,
                                      listing: seq<OrderRecord>)
    requires Disordered(e, key, side, i, j, listing)
    ensures !InArrivalOrder(e, listing)
  {
    hide Pos, Price;
  }

  /** An engine rebuilt from the records in another order trades differently in some later event. */
  lemma {:induction false} SwappedListLosesPriority(records: seq<OrderRecord>, m: nat, n: nat,
                                                    listing: seq<OrderRecord>)
    requires DistinctIds(records) && DistinctIds(listing) && forall r :: r in records ==> OpenRecord(r)
    requires (forall r :: r in listing <==> r in records) && Swapped(records, m, n, listing)
    ensures var e := RestoreAll(EMPTY_ENGINE, records);
            && Agree(e, {}) && ListsOpenOrders(e, listing)
            && !TradesAlike(e, RestoreAll(EMPTY_ENGINE, listing))
  {
    hide RestoreAll, Agree, Rebuilt, OpenRecord, DistinctIds, ListsOpenOrders, InArrivalOrder, TradesAlike;
    var e := RestoreAll(EMPTY_ENGINE, records);
    RebuiltFromEmpty(records);
    RebuiltLists(e, records, listing);
    var i, j := EarlierRestsFirst(e, records, m, n, listing);
    OutOfOrder(e, records[m].instrumentId, records[m].side, i, j, listing);
    RestartKeepsPriorityExactly(e, listing);
  }

  /** Two open orders at one price, restored in the other order. */
  lemma {:induction false} ReversedListLosesPriority(x: OrderRecord, y: OrderRecord)
    requires OpenRecord(x) && OpenRecord(y) && x.orderId != y.orderId
    requires x.instrumentId == y.instrumentId && x.side == y.side && x.price == y.price
    ensures var e := RestoreAll(EMPTY_ENGINE, [x, y]);
            && Agree(e, {}) && ListsOpenOrders(e, [y, x])
            && !TradesAlike(e, RestoreAll(EMPTY_ENGINE, [y, x]))
  {
    hide RestoreAll, Agree, OpenRecord, ListsOpenOrders, TradesAlike;
    var records, listing := [x, y], [y, x];
    assert records[0] == x && records[1] == y && listing[0] == y && listing[1] == x;
    PosAt(listing, 0);
    PosAt(listing, 1);
    hide Pos;
    SwappedListLosesPriority(records, 0, 1, listing);
  }
}
