/** What a market event does, with any number of levels on both sides: every level is offered to the side it faces. */
module EventLaws {
  import opened Types
  import opened BookModel
  import opened BookLaws
  import opened EngineModel
  import opened EngineLaws
  import opened MatchingLaws
  import opened MarketLaws
  import opened RestoreLaws

  /** One fill of an external level with a resting order. */
  predicate ServesOne(side: OrderSide, instrument: Instrument, level: BookLevel, o: RestingOrder, fill: FillEvent) {
    match fill
    case FillEvent(_, orderId, i, s, price, quantity, fee) =>
      && orderId == o.orderId && s == side && price == level.price && fee == 0.0
      && TOLERANCE < quantity <= o.remaining && Accepts(side, Price(o), level.price)
      && i == if o.request.instrument.baseAsset == Empty && o.request.instrument.quoteAsset == Empty then instrument
              else o.request.instrument
  }

  /**
   One external level offered to a side: its fills run through the orders `s` in priority, all but the last consuming
   their order, and leave `t`; they never exceed the level, and stop only when it is used up or not accepted any more.
   */
  ghost predicate Serves(side: OrderSide, instrument: Instrument, level: BookLevel, s: seq<RestingOrder>,
                         fills: seq<FillEvent>, t: seq<RestingOrder>) {
    && |fills| <= |s|
    && (forall k :: 0 <= k < |fills| ==> ServesOne(side, instrument, level, s[k], fills[k]))
    && (forall k :: 0 <= k < |fills| - 1 ==> fills[k].quantity == s[k].remaining)
    && t == (if fills == [] then s else Residue(s[|fills| - 1], fills[|fills| - 1].quantity) + s[|fills|..])
    && (level.quantity >= 0.0 ==> Volume(fills) <= level.quantity)
    && (Unused(level, fills) <= TOLERANCE || t == [] || !Accepts(side, Price(t[0]), level.price))
  }

  /** What a level still offers. */
  function Unused(level: BookLevel, fills: seq<FillEvent>): real {
    level.quantity - Volume(fills)
  }

  /** The orders of a side before the first level and after each, and the fills of each level. */
  datatype Course = Course(orders: seq<seq<RestingOrder>>, fills: seq<seq<FillEvent>>)

  /** All levels, one after the other, from the orders `s` to the orders `t`. */
  ghost predicate ServesAll(side: OrderSide, instrument: Instrument, levels: seq<BookLevel>, s: seq<RestingOrder>,
                            c: Course, t: seq<RestingOrder>) {
    && |c.fills| == |levels| && |c.orders| == |levels| + 1 && c.orders[0] == s && c.orders[|levels|] == t
    && forall i :: 0 <= i < |levels| ==> Serves(side, instrument, levels[i], c.orders[i], c.fills[i], c.orders[i + 1])
  }

  function Flatten(fills: seq<seq<FillEvent>>): seq<FillEvent> {
    if fills == [] then [] else fills[0] + Flatten(fills[1..])
  }

  // ---------- The model serves every level ----------

  lemma {:induction false} LevelServes(b: Book, side: OrderSide, instrument: Instrument, level: BookLevel,
                                       nextFillId: nat)
    requires BookOk(b)
    ensures var taker := External(instrument, level.price);
            var w := Walk(taker, Orders(b, side), level.quantity);
            Serves(side, instrument, level, Orders(b, side), FillsOf(taker, w.trades, nextFillId), w.left)
  {
    hide Walk, BookOk, FillsOf, Volume, Traded, Residue, ServesOne, Accepts, Executable;
    var s := Orders(b, side);
    var taker := External(instrument, level.price);
    var w := Walk(taker, s, level.quantity);
    SidedOrders(b, side);
    WalkLaw(taker, s, level.quantity);
    FillsVolume(taker, w.trades, nextFillId);
    forall k | 0 <= k < |w.trades|
      ensures ServesOne(side, instrument, level, s[k], FillsOf(taker, w.trades, nextFillId)[k])
      ensures FillsOf(taker, w.trades, nextFillId)[k].quantity == w.trades[k].quantity
    {
      assert s[k] in s;
      FillServes(side, instrument, level, s[k], w.trades, nextFillId, k);
    }
    if w.left != [] {
      RemainderHead(s, w.trades);
      HeadAccepts(side, instrument, level.price, s, w.left[0]);
    }
  }

  lemma {:induction false} FillServes(side: OrderSide, instrument: Instrument, level: BookLevel, o: RestingOrder,
                                      trades: seq<Trade>, nextFillId: nat, k: nat)
    requires k < |trades| && trades[k].resting == o && o.request.side == side && o.request.price.Some?
    requires Executable(External(instrument, level.price), o) && TOLERANCE < trades[k].quantity <= o.remaining
    ensures var fill := FillsOf(External(instrument, level.price), trades, nextFillId)[k];
            ServesOne(side, instrument, level, o, fill) && fill.quantity == trades[k].quantity
  {
    FillsAt(External(instrument, level.price), trades, nextFillId, k);
    hide FillsOf;
  }

  lemma {:induction false} HeadAccepts(side: OrderSide, instrument: Instrument, price: real, s: seq<RestingOrder>,
                                       head: RestingOrder)
    requires forall o :: o in s ==> o.request.side == side && o.request.price.Some?
    requires exists o :: o in s && o.request == head.request
    ensures Executable(External(instrument, price), head) <==> Accepts(side, Price(head), price)
  {
  }

  lemma {:induction false} LevelsServe(e: Engine, key: Name, side: OrderSide, instrument: Instrument,
                                       levels: seq<BookLevel>) returns (c: Course)
    requires Agree(e, {}) && key in e.books
    ensures var m := MatchLevels(e, key, side, instrument, levels);
            ServesAll(side, instrument, levels, OrdersIn(e, key, side), c, OrdersIn(m.0, key, side)) &&
              Flatten(c.fills) == m.1
    decreases |levels|
  {
    if levels == [] {
      c := Course([OrdersIn(e, key, side)], []);
      assert MatchLevels(e, key, side, instrument, levels) == (e, []);
    } else {
      var taker := External(instrument, levels[0].price);
      var (e1, sweep) := Match(e, key, side, taker, levels[0].quantity);
      var fills := FillsOf(taker, sweep.trades, e.nextFillId);
      MatchAgrees(e, {}, key, side, taker, levels[0].quantity);
      MatchChanges(e, key, side, taker, levels[0].quantity, key, side);
      assert BookOk(e.books[key]);
      LevelServes(e.books[key], side, instrument, levels[0], e.nextFillId);
      hide Agree, BookOk, Match, Serves, FillsOf;
      var rest := LevelsServe(e1, key, side, instrument, levels[1..]);
      c := Course([OrdersIn(e, key, side)] + rest.orders, [fills] + rest.fills);
      assert c.fills[1..] == rest.fills;
      MatchLevelsCons(e, key, side, instrument, levels);
      ServesCons(side, instrument, levels, rest, c,
                 OrdersIn(MatchLevels(e1, key, side, instrument, levels[1..]).0, key, side));
    }
  }

  lemma {:induction false} ServesCons(side: OrderSide, instrument: Instrument, levels: seq<BookLevel>, rest: Course,
                                      c: Course, t: seq<RestingOrder>)
    requires levels != [] && |c.orders| == |rest.orders| + 1 && |c.fills| == |rest.fills| + 1 && rest.orders != []
    requires c.orders[1..] == rest.orders && c.fills[1..] == rest.fills
    requires Serves(side, instrument, levels[0], c.orders[0], c.fills[0], rest.orders[0])
    requires ServesAll(side, instrument, levels[1..], rest.orders[0], rest, t)
    ensures ServesAll(side, instrument, levels, c.orders[0], c, t)
  {
    hide Serves;
    forall i | 0 <= i < |levels|
      ensures Serves(side, instrument, levels[i], c.orders[i], c.fills[i], c.orders[i + 1])
    {
      if i > 0 {
        assert levels[1..][i - 1] == levels[i] && c.orders[i] == rest.orders[i - 1] && c.fills[i] == rest.fills[i - 1];
        assert c.orders[i + 1] == rest.orders[i];
      }
    }
  }

  /** Levels against one side leave the other side and all other books alone. */
  lemma {:induction false} LevelsFrame(e: Engine, key: Name, side: OrderSide, instrument: Instrument,
                                       levels: seq<BookLevel>, key': Name, side': OrderSide)
    requires key in e.books && (key' != key || side' != side)
    ensures OrdersIn(MatchLevels(e, key, side, instrument, levels).0, key', side') == OrdersIn(e, key', side')
    decreases |levels|
  {
    if levels != [] {
      var taker := External(instrument, levels[0].price);
      MatchChanges(e, key, side, taker, levels[0].quantity, key', side');
      LevelsFrame(Match(e, key, side, taker, levels[0].quantity).0, key, side, instrument, levels[1..], key', side');
    }
  }

  /** Levels offered to nothing. */
  lemma {:induction false} NothingServed(side: OrderSide, instrument: Instrument, levels: seq<BookLevel>)
    returns (c: Course)
    ensures ServesAll(side, instrument, levels, [], c, []) && Flatten(c.fills) == []
    decreases |levels|
  {
    if levels == [] {
      c := Course([[]], []);
    } else {
      var rest := NothingServed(side, instrument, levels[1..]);
      c := Course([[]] + rest.orders, [[]] + rest.fills);
      assert c.fills[1..] == rest.fills;
      ServesCons(side, instrument, levels, rest, c, []);
    }
  }

  /** The orders of all other instruments are as before. */
  ghost predicate LeavesOrders(e: Engine, e': Engine, key: Name) {
    forall key', side :: key' != key ==> OrdersIn(e', key', side) == OrdersIn(e, key', side)
  }

  /**
   A market event, whatever levels it carries: every ask level is offered to the bids, one after the other, then every
   bid level to the asks; its fills are exactly those, in that order, and no other book changes.
   */
  lemma {:induction false} EventServes(e: Engine, instrument: Instrument, bidLevels: seq<BookLevel>,
                                       askLevels: seq<BookLevel>)
    returns (buys: Course, sells: Course)
    requires Agree(e, {})
    ensures var (e', result) := MarketEvent(e, instrument, bidLevels, askLevels);
            var key := instrument.instrumentId;
            && ServesAll(Buy, instrument, askLevels, OrdersIn(e, key, Buy), buys, OrdersIn(e', key, Buy))
            && ServesAll(Sell, instrument, bidLevels, OrdersIn(e, key, Sell), sells, OrdersIn(e', key, Sell))
            && result.orderId == result.clientOrderId == Empty
            && result.fills == Flatten(buys.fills) + Flatten(sells.fills)
            && LeavesOrders(e, e', key)
  {
    var key := instrument.instrumentId;
    hide ServesAll, Agree, Flatten;
    if key !in e.books {
      buys := NothingServed(Buy, instrument, askLevels);
      sells := NothingServed(Sell, instrument, bidLevels);
    } else {
      var (e1, fills1) := MatchLevels(e, key, Buy, instrument, askLevels);
      var (e2, fills2) := MatchLevels(e1, key, Sell, instrument, bidLevels);
      MatchLevelsAgrees(e, key, Buy, instrument, askLevels);
      buys := LevelsServe(e, key, Buy, instrument, askLevels);
      sells := LevelsServe(e1, key, Sell, instrument, bidLevels);
      LevelsFrame(e, key, Buy, instrument, askLevels, key, Sell);
      LevelsFrame(e1, key, Sell, instrument, bidLevels, key, Buy);
      hide MatchLevels, OrdersIn, UpdatesFor, SortUnique;
      forall key', side | key' != key
        ensures OrdersIn(e2, key', side) == OrdersIn(e, key', side)
      {
        LevelsFrame(e, key, Buy, instrument, askLevels, key', side);
        LevelsFrame(e1, key, Sell, instrument, bidLevels, key', side);
      }
    }
  }

  // ---------- Nothing is left to trade ----------

  /** No order accepts the price. */
  ghost predicate NoneAccepts(side: OrderSide, s: seq<RestingOrder>, price: real) {
    forall o :: o in s ==> !Accepts(side, Price(o), price)
  }

  ghost predicate BestFirst(side: OrderSide, s: seq<RestingOrder>) {
    forall i, j :: 0 <= i < j < |s| ==> !Better(side, Price(s[j]), Price(s[i]))
  }

  /** What is left of a side has its prices, in their order. */
  lemma {:induction false} ServedPrices(side: OrderSide, instrument: Instrument, level: BookLevel,
                                        s: seq<RestingOrder>, fills: seq<FillEvent>, t: seq<RestingOrder>, price: real)
    requires Serves(side, instrument, level, s, fills, t)
    ensures BestFirst(side, s) ==> BestFirst(side, t)
    ensures NoneAccepts(side, s, price) ==> NoneAccepts(side, t, price)
  {
    hide ServesOne, Volume, Accepts, Better;
    if fills != [] {
      var n := |fills|;
      var r := Residue(s[n - 1], fills[n - 1].quantity);
      assert r == [] || (|r| == 1 && Price(r[0]) == Price(s[n - 1]));
      forall i | 0 <= i < |t|
        ensures n - |r| + i < |s| && Price(t[i]) == Price(s[n - |r| + i])
      {
        assert t[i] == if i < |r| then r[i] else s[n + i - |r|];
      }
      hide Residue;
      if NoneAccepts(side, s, price) {
        forall o | o in t
          ensures !Accepts(side, Price(o), price)
        {
          var i :| 0 <= i < |t| && t[i] == o;
          assert s[n - |r| + i] in s;
        }
      }
    }
  }

  lemma {:induction false} BestDecides(side: OrderSide, s: seq<RestingOrder>, price: real)
    requires BestFirst(side, s) && (s == [] || !Accepts(side, Price(s[0]), price))
    ensures NoneAccepts(side, s, price)
  {
    forall o | o in s
      ensures !Accepts(side, Price(o), price)
    {
      var i :| 0 <= i < |s| && s[i] == o;
      assert i == 0 || !Better(side, Price(s[i]), Price(s[0]));
    }
  }

  /** The orders before level `k` are in priority. */
  lemma {:induction false} CourseOrdered(side: OrderSide, instrument: Instrument, levels: seq<BookLevel>,
                                         s: seq<RestingOrder>, c: Course, t: seq<RestingOrder>, k: nat)
    requires ServesAll(side, instrument, levels, s, c, t) && BestFirst(side, s) && k <= |levels|
    ensures BestFirst(side, c.orders[k])
  {
    hide Serves;
    if k > 0 {
      CourseOrdered(side, instrument, levels, s, c, t, k - 1);
      ServedPrices(side, instrument, levels[k - 1], c.orders[k - 1], c.fills[k - 1], c.orders[k], 0.0);
    }
  }

  lemma {:induction false} StaysRefused(side: OrderSide, instrument: Instrument, levels: seq<BookLevel>,
                                        s: seq<RestingOrder>, c: Course, t: seq<RestingOrder>, j: nat, price: real)
    requires ServesAll(side, instrument, levels, s, c, t) && j <= |levels| && NoneAccepts(side, c.orders[j], price)
    ensures NoneAccepts(side, t, price)
    decreases |levels| - j
  {
    hide Serves, NoneAccepts;
    if j < |levels| {
      ServedPrices(side, instrument, levels[j], c.orders[j], c.fills[j], c.orders[j + 1], price);
      StaysRefused(side, instrument, levels, s, c, t, j + 1, price);
    }
  }

  /** After all levels, whatever a level still offers is accepted by no order left on the side it faced. */
  lemma {:induction false} NothingLeftToTrade(side: OrderSide, instrument: Instrument, levels: seq<BookLevel>,
                                              s: seq<RestingOrder>, c: Course, t: seq<RestingOrder>, i: nat)
    requires ServesAll(side, instrument, levels, s, c, t) && BestFirst(side, s) && i < |levels|
    ensures Unused(levels[i], c.fills[i]) <= TOLERANCE || NoneAccepts(side, t, levels[i].price)
  {
    CourseOrdered(side, instrument, levels, s, c, t, i + 1);
    assert Serves(side, instrument, levels[i], c.orders[i], c.fills[i], c.orders[i + 1]);
    if Unused(levels[i], c.fills[i]) > TOLERANCE {
      BestDecides(side, c.orders[i + 1], levels[i].price);
      hide Serves;
      StaysRefused(side, instrument, levels, s, c, t, i + 1, levels[i].price);
    }
  }

  lemma {:induction false} SidesBestFirst(e: Engine, key: Name, side: OrderSide)
    requires Agree(e, {})
    ensures BestFirst(side, OrdersIn(e, key, side))
  {
    if key in e.books {
      assert SideOk(e.books[key], side);
      var s := Orders(e.books[key], side);
      forall i, j | 0 <= i < j < |s|
        ensures !Better(side, Price(s[j]), Price(s[i]))
      {
        assert Before(side, s[i], s[j]);
      }
    }
  }

  /**
   After a market event no level of it that offers more than the tolerance still is accepted by any order left on the
   side it faced; what a level offered is told by the fills that served it.
   */
  lemma {:induction false} EventTradesAll(e: Engine, instrument: Instrument, bidLevels: seq<BookLevel>,
                                          askLevels: seq<BookLevel>)
    returns (buys: Course, sells: Course)
    requires Agree(e, {})
    ensures var (e', result) := MarketEvent(e, instrument, bidLevels, askLevels);
            var key := instrument.instrumentId;
            && ServesAll(Buy, instrument, askLevels, OrdersIn(e, key, Buy), buys, OrdersIn(e', key, Buy))
            && ServesAll(Sell, instrument, bidLevels, OrdersIn(e, key, Sell), sells, OrdersIn(e', key, Sell))
            && result.fills == Flatten(buys.fills) + Flatten(sells.fills)
            && (forall i :: 0 <= i < |askLevels| ==>
                  Unused(askLevels[i], buys.fills[i]) <= TOLERANCE ||
                    NoneAccepts(Buy, OrdersIn(e', key, Buy), askLevels[i].price))
            && (forall i :: 0 <= i < |bidLevels| ==>
                  Unused(bidLevels[i], sells.fills[i]) <= TOLERANCE ||
                    NoneAccepts(Sell, OrdersIn(e', key, Sell), bidLevels[i].price))
  {
    var key := instrument.instrumentId;
    buys, sells := EventServes(e, instrument, bidLevels, askLevels);
    var e' := MarketEvent(e, instrument, bidLevels, askLevels).0;
    SidesBestFirst(e, key, Buy);
    SidesBestFirst(e, key, Sell);
    hide MarketEvent, Agree, OrdersIn, Unused, NoneAccepts, BestFirst, Serves, LeavesOrders;
    forall i | 0 <= i < |askLevels|
      ensures Unused(askLevels[i], buys.fills[i]) <= TOLERANCE ||
              NoneAccepts(Buy, OrdersIn(e', key, Buy), askLevels[i].price)
    {
      NothingLeftToTrade(Buy, instrument, askLevels, OrdersIn(e, key, Buy), buys, OrdersIn(e', key, Buy), i);
    }
    forall i | 0 <= i < |bidLevels|
      ensures Unused(bidLevels[i], sells.fills[i]) <= TOLERANCE ||
              NoneAccepts(Sell, OrdersIn(e', key, Sell), bidLevels[i].price)
    {
      NothingLeftToTrade(Sell, instrument, bidLevels, OrdersIn(e, key, Sell), sells, OrdersIn(e', key, Sell), i);
    }
  }
}
