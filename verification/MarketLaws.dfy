/** What an external market event does to the resting orders, level by level and order by order. */
module MarketLaws {
  import opened Types
  import opened BookModel
  import opened EngineModel
  import opened EngineLaws
  import opened MatchingLaws

  lemma {:induction false} MatchLevelsConcat(e: Engine, key: Name, side: OrderSide, instrument: Instrument,
                                             a: seq<BookLevel>, b: seq<BookLevel>)
    requires key in e.books
    ensures var m := MatchLevels(e, key, side, instrument, a);
            var n := MatchLevels(m.0, key, side, instrument, b);
            var mn := MatchLevels(e, key, side, instrument, a + b);
            mn.0 == n.0 && mn.1 == m.1 + n.1
    decreases |a|
  {
    hide FillsOf, Match, MatchLevels;
    if a == [] {
      assert a + b == b;
      MatchLevelsNil(e, key, side, instrument);
    } else {
      MatchLevelsCons(e, key, side, instrument, a);
      MatchLevelsCons(e, key, side, instrument, a + b);
      var e1 := Match(e, key, side, External(instrument, a[0].price), a[0].quantity).0;
      assert (a + b)[0] == a[0] && (a + b)[1..] == a[1..] + b;
      MatchLevelsConcat(e1, key, side, instrument, a[1..], b);
    }
  }

  /** The engine just before level `i` is matched. */
  function AtLevel(e: Engine, key: Name, side: OrderSide, instrument: Instrument, levels: seq<BookLevel>,
                   i: nat): (r: Engine)
    requires key in e.books && i <= |levels|
    ensures key in r.books
  {
    MatchLevels(e, key, side, instrument, levels[..i]).0
  }

  /** The fills of level `i` alone. */
  function LevelFills(e: Engine, key: Name, side: OrderSide, instrument: Instrument, levels: seq<BookLevel>,
                      i: nat): seq<FillEvent>
    requires key in e.books && i < |levels|
  {
    var ei := AtLevel(e, key, side, instrument, levels, i);
    var taker := External(instrument, levels[i].price);
    FillsOf(taker, Walk(taker, Orders(ei.books[key], side), levels[i].quantity).trades, ei.nextFillId)
  }

  lemma {:induction false} LevelStep(e: Engine, key: Name, side: OrderSide, instrument: Instrument,
                                     levels: seq<BookLevel>, i: nat)
    requires key in e.books && i < |levels|
    ensures var ei := AtLevel(e, key, side, instrument, levels, i);
            && AtLevel(e, key, side, instrument, levels, i + 1) ==
              Match(ei, key, side, External(instrument, levels[i].price), levels[i].quantity).0
            && MatchLevels(e, key, side, instrument, levels[..i + 1]).1 ==
               MatchLevels(e, key, side, instrument, levels[..i]).1 + LevelFills(e, key, side, instrument, levels, i)
  {
    var ei := AtLevel(e, key, side, instrument, levels, i);
    assert levels[..i + 1] == levels[..i] + [levels[i]];
    MatchLevelsConcat(e, key, side, instrument, levels[..i], [levels[i]]);
    assert [levels[i]][1..] == [];
    var taker := External(instrument, levels[i].price);
    var (e1, sweep) := Match(ei, key, side, taker, levels[i].quantity);
    assert MatchLevels(e1, key, side, instrument, []) == (e1, []);
    assert MatchLevels(ei, key, side, instrument, [levels[i]]) ==
           (e1, FillsOf(taker, sweep.trades, ei.nextFillId) + []);
  }

  /** A resting order accepts an external price up to the tolerance. */
  predicate Accepts(side: OrderSide, limit: real, price: real) {
    if side == Buy then limit + TOLERANCE >= price else limit - TOLERANCE <= price
  }

  lemma {:induction false} FillsVolume(taker: Taker, trades: seq<Trade>, nextFillId: nat)
    ensures Volume(FillsOf(taker, trades, nextFillId)) == Traded(trades)
  {
    if trades != [] {
      FillsVolume(taker, trades[1..], nextFillId + 1);
    }
  }

  /**
   The fills of one external level: they run through the side in price-time priority, each at the level's
   price and within the order's limit, all but the last consuming their order; they never exceed the level,
   and they stop only when the level is used up or the next order does not accept its price.
   */
  lemma {:induction false} LevelLaw(e: Engine, key: Name, side: OrderSide, instrument: Instrument,
                                    levels: seq<BookLevel>, i: nat)
    requires Agree(e, {}) && key in e.books && i < |levels|
    ensures var s := Orders(AtLevel(e, key, side, instrument, levels, i).books[key], side);
            var t := Orders(AtLevel(e, key, side, instrument, levels, i + 1).books[key], side);
            var fills := LevelFills(e, key, side, instrument, levels, i);
            && |fills| <= |s|
            && (forall k :: 0 <= k < |fills| ==>
                  && fills[k].orderId == s[k].orderId && fills[k].side == side && fills[k].price == levels[i].price
                  && TOLERANCE < fills[k].quantity <= s[k].remaining
                  && Accepts(side, Price(s[k]), levels[i].price))
            && (forall k :: 0 <= k < |fills| - 1 ==> fills[k].quantity == s[k].remaining)
            && (levels[i].quantity >= 0.0 ==> Volume(fills) <= levels[i].quantity)
            && (levels[i].quantity - Volume(fills) <= TOLERANCE || t == [] ||
                !Accepts(side, Price(t[0]), levels[i].price))
  {
    hide Walk, FillsOf, FillOrders, Volume, Accepts, BookOk;
    var ei := AtLevel(e, key, side, instrument, levels, i);
    MatchLevelsAgrees(e, key, side, instrument, levels[..i]);
    assert BookOk(ei.books[key]);
    hide Agree;
    LevelStep(e, key, side, instrument, levels, i);
    ExternalWalk(ei.books[key], side, instrument, levels[i], ei.nextFillId);
  }

  lemma {:induction false} ExternalWalk(b: Book, side: OrderSide, instrument: Instrument, level: BookLevel,
                                        nextFillId: nat)
    requires BookOk(b)
    ensures var s := Orders(b, side);
            var taker := External(instrument, level.price);
            var w := Walk(taker, s, level.quantity);
            var fills := FillsOf(taker, w.trades, nextFillId);
            && |fills| <= |s|
            && (forall k :: 0 <= k < |fills| ==>
                  && fills[k].orderId == s[k].orderId && fills[k].side == side && fills[k].price == level.price
                  && TOLERANCE < fills[k].quantity <= s[k].remaining
                  && Accepts(side, Price(s[k]), level.price))
            && (forall k :: 0 <= k < |fills| - 1 ==> fills[k].quantity == s[k].remaining)
            && (level.quantity >= 0.0 ==> Volume(fills) <= level.quantity)
            && (level.quantity - Volume(fills) <= TOLERANCE || w.left == [] ||
                !Accepts(side, Price(w.left[0]), level.price))
  {
    hide Walk, BookOk;
    hide FillsOf, Volume, Traded;
    var s := Orders(b, side);
    var taker := External(instrument, level.price);
    var w := Walk(taker, s, level.quantity);
    SidedOrders(b, side);
    WalkLaw(taker, s, level.quantity);
    FillsVolume(taker, w.trades, nextFillId);
    forall k | 0 <= k < |w.trades|
      ensures FillsOf(taker, w.trades, nextFillId)[k] ==
              FillOf(taker, s[k], w.trades[k].quantity, FillName(nextFillId + k))
      ensures s[k].request.side == side && s[k].request.price.Some?
    {
      FillsAt(taker, w.trades, nextFillId, k);
      assert s[k] in s;
    }
    if w.left != [] {
      RemainderHead(s, w.trades);
    }
  }

  lemma {:induction false} SidedOrders(b: Book, side: OrderSide)
    requires BookOk(b)
    ensures Live(Orders(b, side))
    ensures forall o :: o in Orders(b, side) ==> o.request.side == side && o.request.price.Some?
  {
    assert SideOk(b, side);
  }

  /** What is left first comes from the list, with the request it had. */
  lemma {:induction false} RemainderHead(s: seq<RestingOrder>, trades: seq<Trade>)
    requires |trades| <= |s| && Remainder(s, trades) != []
    ensures exists o :: o in s && o.request == Remainder(s, trades)[0].request
  {
    var n := |trades|;
    if n == 0 || Residue(s[n - 1], trades[n - 1].quantity) == [] {
      assert s[n] in s && Remainder(s, trades)[0] == s[n];
    } else {
      assert s[n - 1] in s && Remainder(s, trades)[0].request == s[n - 1].request;
    }
  }

  // ---------- Accounting, order by order ----------

  lemma {:induction false} VolumeOfConcat(a: seq<FillEvent>, b: seq<FillEvent>, id: Name)
    ensures VolumeOf(a + b, id) == VolumeOf(a, id) + VolumeOf(b, id)
  {
    if a == [] {
      assert a + b == b;
    } else {
      assert (a + b)[1..] == a[1..] + b;
      VolumeOfConcat(a[1..], b, id);
    }
  }

  /**
   From `e` to `e'` the record of `id` grew by `volume`, up to the tolerance that closing an order absorbs;
   a record that was closed before did not move, and one that is still open grew exactly.
   */
  ghost predicate Accounted(e: Engine, e': Engine, id: Name, volume: real) {
    && id in e.orders && id in e'.orders
    && var growth := e'.orders[id].filledQuantity - e.orders[id].filledQuantity;
       && volume <= growth <= volume + TOLERANCE
       && (OpenId(e', id) ==> growth == volume)
       && (!OpenId(e, id) ==> volume == 0.0 && e'.orders[id] == e.orders[id])
  }

  lemma {:induction false} AccountedTransitive(e: Engine, e1: Engine, e2: Engine, id: Name, v: real, w: real)
    requires Accounted(e, e1, id, v) && Accounted(e1, e2, id, w)
    ensures Accounted(e, e2, id, v + w)
  {
  }

  lemma {:induction false} AccountedFrame(e: Engine, e1: Engine, e2: Engine, id: Name, v: real)
    requires Accounted(e, e1, id, v) && e1.orders == e2.orders
    ensures Accounted(e, e2, id, v)
  {
  }

  lemma {:induction false} FillFrontAccounts(e: Engine, key: Name, side: OrderSide, quantity: real, id: Name)
    requires Agree(e, {}) && key in e.books && Orders(e.books[key], side) != [] && id in e.orders
    requires TOLERANCE < quantity <= Orders(e.books[key], side)[0].remaining
    ensures Accounted(e, FillFront(e, key, side, quantity), id,
                      if id == Orders(e.books[key], side)[0].orderId then quantity else 0.0)
  {
    var s := Orders(e.books[key], side);
    assert s[0] in s;
    FilledRecordOf(e.orders[s[0].orderId], s[0], key, quantity);
  }

  /** Matching an external level changes every record by exactly its fills, up to the closing tolerance. */
  lemma {:induction false} MatchAccounts(e: Engine, key: Name, side: OrderSide, instrument: Instrument, price: real,
                                         quantity: real, nextFillId: nat, id: Name)
    requires Agree(e, {}) && key in e.books && id in e.orders
    ensures var taker := External(instrument, price);
            var (e', sweep) := Match(e, key, side, taker, quantity);
            Accounted(e, e', id, VolumeOf(FillsOf(taker, sweep.trades, nextFillId), id))
    decreases |Orders(e.books[key], side)|
  {
    hide Agree, Accounted, FillsOf, VolumeOf, Match;
    var taker := External(instrument, price);
    var s := Orders(e.books[key], side);
    if Stopped(taker, s, quantity) {
      MatchStops(e, key, side, taker, quantity);
      NothingTraded(e, key, side, taker, quantity, nextFillId, id);
      AccountedRefl(e, id);
    } else {
      var executed := Min(quantity, s[0].remaining);
      var rest := Max(0.0, quantity - executed);
      ExecutedIsFillable(e, {}, key, side, taker, quantity);
      if Residue(s[0], executed) == [] {
        MatchContinues(e, key, side, taker, quantity);
        FillFrontAgrees(e, {}, key, side, executed);
        MatchAccounts(FillFront(e, key, side, executed), key, side, instrument, price, rest, nextFillId + 1, id);
        ConsumingAccounts(e, key, side, taker, quantity, nextFillId, id);
      } else {
        EndingAccounts(e, key, side, taker, quantity, nextFillId, id);
      }
    }
  }

  lemma {:induction false} NothingTraded(e: Engine, key: Name, side: OrderSide, taker: Taker, quantity: real,
                                         nextFillId: nat, id: Name)
    requires key in e.books && Stopped(taker, Orders(e.books[key], side), quantity)
    ensures VolumeOf(FillsOf(taker, Match(e, key, side, taker, quantity).1.trades, nextFillId), id) == 0.0
  {
  }

  /** The trades of a match: with the front order, and then, if that is consumed, those of matching the rest. */
  lemma {:induction false} MatchTrades(e: Engine, key: Name, side: OrderSide, taker: Taker, quantity: real)
    requires key in e.books && !Stopped(taker, Orders(e.books[key], side), quantity)
    ensures var o := Orders(e.books[key], side)[0];
            var executed := Min(quantity, o.remaining);
            var e1 := FillFront(e, key, side, executed);
            Match(e, key, side, taker, quantity).1.trades == [Trade(o, executed)] +
              if Residue(o, executed) == [] then Match(e1, key, side, taker, Max(0.0, quantity - executed)).1.trades
                else []
  {
    var s := Orders(e.books[key], side);
    var executed := Min(quantity, s[0].remaining);
    WalkStep(taker, s, quantity);
    hide Walk, FillOrder, FillOrders;
    assert Residue(s[0], executed) == [] ==> Residue(s[0], executed) + s[1..] == s[1..];
  }

  /** A pass that ends inside the front order. */
  lemma {:induction false} EndingAccounts(e: Engine, key: Name, side: OrderSide, taker: Taker, quantity: real,
                                          nextFillId: nat, id: Name)
    requires Agree(e, {}) && key in e.books && id in e.orders && taker.External? &&
             !Stopped(taker, Orders(e.books[key], side), quantity)
    requires var o := Orders(e.books[key], side)[0];
             Residue(o, Min(quantity, o.remaining)) != []
    ensures var (e', sweep) := Match(e, key, side, taker, quantity);
            Accounted(e, e', id, VolumeOf(FillsOf(taker, sweep.trades, nextFillId), id))
  {
    hide Agree, Accounted, FillsOf, VolumeOf, Match, FillFront;
    var o := Orders(e.books[key], side)[0];
    var executed := Min(quantity, o.remaining);
    ExecutedIsFillable(e, {}, key, side, taker, quantity);
    FillFrontAccounts(e, key, side, executed, id);
    MatchEnds(e, key, side, taker, quantity);
    MatchTrades(e, key, side, taker, quantity);
    ConsVolume(taker, Trade(o, executed), [], nextFillId, id);
    NoVolume(taker, nextFillId + 1, id);
    AccountedFrame(e, FillFront(e, key, side, executed), Match(e, key, side, taker, quantity).0, id,
                   if id == o.orderId then executed else 0.0);
  }

  lemma {:induction false} NoVolume(taker: Taker, nextFillId: nat, id: Name)
    ensures VolumeOf(FillsOf(taker, [], nextFillId), id) == 0.0
  {
  }

  /** A pass that consumes the front order and goes on. */
  lemma {:induction false} ConsumingAccounts(e: Engine, key: Name, side: OrderSide, taker: Taker, quantity: real,
                                             nextFillId: nat, id: Name)
    requires Agree(e, {}) && key in e.books && id in e.orders && taker.External? &&
             !Stopped(taker, Orders(e.books[key], side), quantity)
    requires var o := Orders(e.books[key], side)[0];
             var executed := Min(quantity, o.remaining);
             var e1 := FillFront(e, key, side, executed);
             && Residue(o, executed) == []
             && var (e2, tail) := Match(e1, key, side, taker, Max(0.0, quantity - executed));
                Accounted(e1, e2, id, VolumeOf(FillsOf(taker, tail.trades, nextFillId + 1), id))
    ensures var (e', sweep) := Match(e, key, side, taker, quantity);
            Accounted(e, e', id, VolumeOf(FillsOf(taker, sweep.trades, nextFillId), id))
  {
    hide Agree, Accounted, FillsOf, VolumeOf, Match;
    var o := Orders(e.books[key], side)[0];
    var executed := Min(quantity, o.remaining);
    var e1 := FillFront(e, key, side, executed);
    var (e2, tail) := Match(e1, key, side, taker, Max(0.0, quantity - executed));
    ExecutedIsFillable(e, {}, key, side, taker, quantity);
    FillFrontAccounts(e, key, side, executed, id);
    MatchContinues(e, key, side, taker, quantity);
    MatchTrades(e, key, side, taker, quantity);
    ConsVolume(taker, Trade(o, executed), tail.trades, nextFillId, id);
    hide FillFront;
    var front := if id == o.orderId then executed else 0.0;
    var more := VolumeOf(FillsOf(taker, tail.trades, nextFillId + 1), id);
    AccountedTransitive(e, e1, e2, id, front, more);
    AccountedFrame(e, e2, Match(e, key, side, taker, quantity).0, id, front + more);
  }

  lemma {:induction false} AccountedRefl(e: Engine, id: Name)
    requires id in e.orders
    ensures Accounted(e, e, id, 0.0)
  {
  }

  lemma {:induction false} ConsVolume(taker: Taker, t: Trade, trades: seq<Trade>, nextFillId: nat, id: Name)
    requires taker.External?
    ensures VolumeOf(FillsOf(taker, [t] + trades, nextFillId), id) ==
            (if id == t.resting.orderId then t.quantity else 0.0) + VolumeOf(FillsOf(taker, trades, nextFillId + 1), id)
  {
    assert ([t] + trades)[1..] == trades;
    var fills := FillsOf(taker, [t] + trades, nextFillId);
    assert fills[1..] == FillsOf(taker, trades, nextFillId + 1);
  }

  lemma {:induction false} MatchLevelsAccounts(e: Engine, key: Name, side: OrderSide, instrument: Instrument,
                                               levels: seq<BookLevel>, id: Name)
    requires Agree(e, {}) && key in e.books && id in e.orders
    ensures var (e', fills) := MatchLevels(e, key, side, instrument, levels);
            Accounted(e, e', id, VolumeOf(fills, id))
    decreases |levels|
  {
    hide Agree, Accounted, Match;
    if levels == [] {
      AccountedRefl(e, id);
    } else {
      var taker := External(instrument, levels[0].price);
      var (e1, sweep) := Match(e, key, side, taker, levels[0].quantity);
      MatchAgrees(e, {}, key, side, taker, levels[0].quantity);
      MatchAccounts(e, key, side, instrument, levels[0].price, levels[0].quantity, e.nextFillId, id);
      MatchKeeps(e, key, side, taker, levels[0].quantity);
      var (e2, fills) := MatchLevels(e1, key, side, instrument, levels[1..]);
      MatchLevelsAccounts(e1, key, side, instrument, levels[1..], id);
      var fills0 := FillsOf(taker, sweep.trades, e.nextFillId);
      VolumeOfConcat(fills0, fills, id);
      AccountedTransitive(e, e1, e2, id, VolumeOf(fills0, id), VolumeOf(fills, id));
    }
  }

  lemma {:induction false} MatchKeeps(e: Engine, key: Name, side: OrderSide, taker: Taker, quantity: real)
    requires key in e.books
    ensures var e' := Match(e, key, side, taker, quantity).0;
            key in e'.books && e'.orders.Keys == e.orders.Keys
  {
  }

  lemma {:induction false} MarketEventAccounts(e: Engine, instrument: Instrument, bidLevels: seq<BookLevel>,
                                               askLevels: seq<BookLevel>, id: Name)
    requires Agree(e, {}) && id in e.orders
    ensures var (e', result) := MarketEvent(e, instrument, bidLevels, askLevels);
            Accounted(e, e', id, VolumeOf(result.fills, id))
  {
    hide Agree, Accounted, MatchLevels;
    var key := instrument.instrumentId;
    if key !in e.books {
      AccountedRefl(e, id);
    } else {
      var (e1, fills1) := MatchLevels(e, key, Buy, instrument, askLevels);
      MatchLevelsAgrees(e, key, Buy, instrument, askLevels);
      MatchLevelsAccounts(e, key, Buy, instrument, askLevels, id);
      var (e2, fills2) := MatchLevels(e1, key, Sell, instrument, bidLevels);
      MatchLevelsAccounts(e1, key, Sell, instrument, bidLevels, id);
      VolumeOfConcat(fills1, fills2, id);
      AccountedTransitive(e, e1, e2, id, VolumeOf(fills1, id), VolumeOf(fills2, id));
    }
  }

  // ---------- One update per touched order ----------

  lemma {:induction false} InsertNameSorted(ids: seq<Name>, id: Name)
    requires Increasing(ids)
    ensures Increasing(InsertName(ids, id))
    ensures forall x :: x in InsertName(ids, id) <==> x == id || x in ids
  {
    if ids != [] && !Less(id, ids[0]) && id != ids[0] {
      InsertNameSorted(ids[1..], id);
      var r := InsertName(ids[1..], id);
      assert forall x :: x in ids <==> x == ids[0] || x in ids[1..];
      forall x | x in r
        ensures Less(ids[0], x)
      {
        if x != id {
          var k :| 0 <= k < |ids[1..]| && ids[1..][k] == x;
          assert ids[k + 1] == x;
        }
      }
    }
  }

  /** Sorting and deduplicating lists each touched id exactly once. */
  lemma {:induction false} SortUniqueLaw(ids: seq<Name>)
    ensures Increasing(SortUnique(ids))
    ensures forall x :: x in SortUnique(ids) <==> x in ids
  {
    if ids != [] {
      SortUniqueLaw(ids[1..]);
      InsertNameSorted(SortUnique(ids[1..]), ids[0]);
      assert forall x :: x in ids <==> x == ids[0] || x in ids[1..];
    }
  }

  lemma {:induction false} UpdatesForLaw(orders: map<Name, OrderRecord>, ids: seq<Name>)
    requires forall x :: x in ids ==> x in orders
    ensures |UpdatesFor(orders, ids)| == |ids|
    ensures forall k :: 0 <= k < |ids| ==>
              var r := orders[ids[k]];
              UpdatesFor(orders, ids)[k] ==
                OrderUpdate(r.orderId, r.clientOrderId, r.status, r.filledQuantity, Unstated)
  {
    if ids != [] {
      assert ids[0] in ids;
      UpdatesForLaw(orders, ids[1..]);
    }
  }

  ghost predicate FillsKnown(e: Engine, fills: seq<FillEvent>) {
    forall f :: f in fills ==> f.orderId in e.orders
  }

  lemma {:induction false} MatchLevelsKnown(e: Engine, key: Name, side: OrderSide, instrument: Instrument,
                                            levels: seq<BookLevel>)
    requires Agree(e, {}) && key in e.books
    ensures FillsKnown(e, MatchLevels(e, key, side, instrument, levels).1)
    decreases |levels|
  {
    if levels != [] {
      var taker := External(instrument, levels[0].price);
      var (e1, sweep) := Match(e, key, side, taker, levels[0].quantity);
      LevelKnown(e, key, side, taker, levels[0].quantity);
      MatchAgrees(e, {}, key, side, taker, levels[0].quantity);
      MatchLevelsKnown(e1, key, side, instrument, levels[1..]);
    }
  }

  lemma {:induction false} LevelKnown(e: Engine, key: Name, side: OrderSide, taker: Taker, quantity: real)
    requires Agree(e, {}) && key in e.books && taker.External?
    ensures FillsKnown(e, FillsOf(taker, Match(e, key, side, taker, quantity).1.trades, e.nextFillId))
  {
    var s := Orders(e.books[key], side);
    var trades := Walk(taker, s, quantity).trades;
    WalkTrades(taker, s, quantity);
    var fills := FillsOf(taker, trades, e.nextFillId);
    forall f | f in fills
      ensures f.orderId in e.orders
    {
      var k :| 0 <= k < |fills| && fills[k] == f;
      FillsAt(taker, trades, e.nextFillId, k);
      assert trades[k] in trades;
    }
  }

  /**
   Every touched order gets exactly one update, in id order, and no other order gets one; it reports the
   record's state, whose filled quantity is the old one plus the order's fills within the tolerance.
   */
  ghost predicate OneUpdateEach(e: Engine, e': Engine, result: ExecutionResult) {
    match result
    case ExecutionResult(_, _, updates, fills) =>
      && (forall i, j :: 0 <= i < j < |updates| ==> Less(updates[i].orderId, updates[j].orderId))
      && (forall f :: f in fills ==> exists u :: u in updates && u.orderId == f.orderId)
      && (forall u :: u in updates ==>
            && (exists f :: f in fills && f.orderId == u.orderId)
            && u.orderId in e.orders && u.orderId in e'.orders
            && u == UpdateOf(e'.orders, u.orderId)
            && Abs(u.filledQuantity - (e.orders[u.orderId].filledQuantity + VolumeOf(fills, u.orderId))) <= TOLERANCE)
  }

  lemma {:induction false} MarketEventUpdates(e: Engine, instrument: Instrument, bidLevels: seq<BookLevel>,
                                              askLevels: seq<BookLevel>)
    requires Agree(e, {})
    ensures var (e', result) := MarketEvent(e, instrument, bidLevels, askLevels);
            OneUpdateEach(e, e', result)
  {
    if instrument.instrumentId in e.books {
      hide MarketEvent, OneUpdateEach, Agree, Accounted;
      var (e', result) := MarketEvent(e, instrument, bidLevels, askLevels);
      EventKnown(e, instrument, bidLevels, askLevels);
      forall x | x in e.orders
        ensures Accounted(e, e', x, VolumeOf(result.fills, x))
      {
        MarketEventAccounts(e, instrument, bidLevels, askLevels, x);
      }
      UpdatesReport(e, e', result);
    }
  }

  lemma {:induction false} UpdatesReport(e: Engine, e': Engine, result: ExecutionResult)
    requires FillsKnown(e, result.fills) && e'.orders.Keys == e.orders.Keys
    requires forall x :: x in e'.orders ==> e'.orders[x].orderId == x
    requires result.updates == UpdatesFor(e'.orders, SortUnique(Touched(result.fills)))
    requires forall x :: x in e.orders ==> Accounted(e, e', x, VolumeOf(result.fills, x))
    ensures OneUpdateEach(e, e', result)
  {
    hide Less, SortUnique, UpdatesFor, VolumeOf;
    var ids := SortUnique(Touched(result.fills));
    TouchedLaw(result.fills);
    assert forall x :: x in ids ==> x in e'.orders;
    UpdatesForLaw(e'.orders, ids);
    forall u | u in result.updates
      ensures u.orderId in ids && u == UpdateOf(e'.orders, u.orderId)
    {
      var k :| 0 <= k < |result.updates| && result.updates[k] == u;
      assert ids[k] in ids && u.orderId == ids[k];
    }
    forall f | f in result.fills
      ensures exists u :: u in result.updates && u.orderId == f.orderId
    {
      assert f.orderId in ids;
      var k :| 0 <= k < |ids| && ids[k] == f.orderId;
      assert result.updates[k] in result.updates;
    }
  }

  function UpdateOf(orders: map<Name, OrderRecord>, id: Name): OrderUpdate
    requires id in orders
  {
    var r := orders[id];
    OrderUpdate(r.orderId, r.clientOrderId, r.status, r.filledQuantity, Unstated)
  }

  lemma {:induction false} TouchedLaw(fills: seq<FillEvent>)
    ensures Increasing(SortUnique(Touched(fills)))
    ensures forall x :: x in SortUnique(Touched(fills)) <==> exists f :: f in fills && f.orderId == x
  {
    var ids := Touched(fills);
    SortUniqueLaw(ids);
    forall x
      ensures x in ids <==> exists f :: f in fills && f.orderId == x
    {
      if x in ids {
        var k :| 0 <= k < |ids| && ids[k] == x;
        assert fills[k] in fills;
      }
      if f :| f in fills && f.orderId == x {
        var k :| 0 <= k < |fills| && fills[k] == f;
        assert ids[k] == x;
      }
    }
  }

  lemma {:induction false} EventKnown(e: Engine, instrument: Instrument, bidLevels: seq<BookLevel>,
                                      askLevels: seq<BookLevel>)
    requires Agree(e, {}) && instrument.instrumentId in e.books
    ensures var (e', result) := MarketEvent(e, instrument, bidLevels, askLevels);
            && FillsKnown(e, result.fills) && e'.orders.Keys == e.orders.Keys
            && (forall x :: x in e'.orders ==> e'.orders[x].orderId == x)
            && result.updates == UpdatesFor(e'.orders, SortUnique(Touched(result.fills)))
  {
    var key := instrument.instrumentId;
    var (e1, fills1) := MatchLevels(e, key, Buy, instrument, askLevels);
    MatchLevelsAgrees(e, key, Buy, instrument, askLevels);
    MatchLevelsKnown(e, key, Buy, instrument, askLevels);
    MatchLevelsKnown(e1, key, Sell, instrument, bidLevels);
    MatchLevelsAgrees(e1, key, Sell, instrument, bidLevels);
  }
}
