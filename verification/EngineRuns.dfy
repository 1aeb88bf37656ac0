/** Ledger and books agree in every run, as long as ids of open orders are not used again. */
module EngineRuns {
  import opened Types
  import opened BookModel
  import opened BookLaws
  import opened EngineModel
  import opened EngineLaws
  import opened EngineSteps
  import opened ReusedIds

  /** The operation does not overwrite the record of an order that stays in its book. */
  ghost predicate Safe(e: Engine, op: Operation) {
    match op
    case SubmitOrder(request) => HarmlessSubmit(e, request)
    case RestoreOpenOrder(id, _, request, filled) => HarmlessRestore(e, id, request, filled)
    case _ => true
  }

  ghost predicate SafeRun(e: Engine, ops: seq<Operation>)
    decreases |ops|
  {
    ops != [] ==> Safe(e, ops[0]) && SafeRun(Step(e, ops[0]), ops[1..])
  }

  /** One operation keeps ledger and books in agreement if and only if it is safe. */
  lemma {:induction false} StepAgreesExactly(e: Engine, op: Operation)
    requires Agree(e, {})
    ensures Agree(Step(e, op), {}) <==> Safe(e, op)
  {
    hide Agree, HarmlessSubmit, HarmlessRestore;
    match op
    case SubmitOrder(request) => SubmitAgreesExactly(e, request);
    case ApplyMarketEvent(instrument, bidLevels, askLevels) => MarketEventAgrees(e, instrument, bidLevels, askLevels);
    case CancelOrder(id, clientId) => CancelAgrees(e, id, clientId);
    case RestoreOpenOrder(id, clientId, request, filled) => RestoreAgreesExactly(e, id, clientId, request, filled);
  }

  /** Ledger and books agree after every prefix of the run. */
  ghost predicate AgreesThroughout(e: Engine, ops: seq<Operation>) {
    forall n :: 0 <= n <= |ops| ==> Agree(Run(e, ops[..n]), {})
  }

  /** Ledger and books agree throughout a run if and only if each of its operations is safe when it is applied. */
  lemma {:induction false} RunAgreesExactly(e: Engine, ops: seq<Operation>)
    requires Agree(e, {})
    ensures AgreesThroughout(e, ops) <==> SafeRun(e, ops)
    decreases |ops|
  {
    hide Agree, Safe, Step;
    assert Run(e, ops[..0]) == e;
    if ops != [] {
      var e1 := Step(e, ops[0]);
      StepAgreesExactly(e, ops[0]);
      assert Run(e, ops[..1]) == e1 by {
        assert ops[..1][1..] == [];
        assert Run(e1, []) == e1;
      }
      if Agree(e1, {}) {
        RunAgreesExactly(e1, ops[1..]);
        forall n | 1 <= n <= |ops|
          ensures Run(e, ops[..n]) == Run(e1, ops[1..][..n - 1])
        {
          assert ops[..n][1..] == ops[1..][..n - 1];
        }
        forall n | 0 <= n <= |ops[1..]|
          ensures Run(e1, ops[1..][..n]) == Run(e, ops[..n + 1])
        {
          assert ops[..n + 1][1..] == ops[1..][..n];
        }
      }
    }
  }

  /** No id the engine has yet to generate is known. */
  ghost predicate Unused(e: Engine) {
    forall n :: n >= e.nextOrderId ==> OrderName(n) !in e.orders
  }

  /** Restored ids are unknown at that moment and are none the engine will generate later. */
  ghost predicate FreshRestores(e: Engine, ops: seq<Operation>)
    decreases |ops|
  {
    ops != [] ==>
      && (ops[0].RestoreOpenOrder? ==>
            && ops[0].orderId !in e.orders
            && (ops[0].orderId.OrderName? ==> ops[0].orderId.n < e.nextOrderId))
      && FreshRestores(Step(e, ops[0]), ops[1..])
  }

  lemma {:induction false} MatchLevelsKeys(e: Engine, key: Name, side: OrderSide, instrument: Instrument,
                                           levels: seq<BookLevel>)
    requires key in e.books
    ensures var e' := MatchLevels(e, key, side, instrument, levels).0;
            e'.orders.Keys == e.orders.Keys && e'.nextOrderId == e.nextOrderId
    decreases |levels|
  {
    if levels != [] {
      MatchLevelsKeys(Match(e, key, side, External(instrument, levels[0].price), levels[0].quantity).0, key, side,
                      instrument, levels[1..]);
    }
  }

  lemma {:induction false} StepKeepsUnused(e: Engine, op: Operation)
    requires Unused(e)
    requires op.RestoreOpenOrder? && op.orderId.OrderName? ==> op.orderId.n < e.nextOrderId
    ensures Unused(Step(e, op))
  {
    match op
    case SubmitOrder(request) =>
    case ApplyMarketEvent(instrument, bidLevels, askLevels) =>
      var key := instrument.instrumentId;
      if key in e.books {
        MatchLevelsKeys(e, key, Buy, instrument, askLevels);
        MatchLevelsKeys(MatchLevels(e, key, Buy, instrument, askLevels).0, key, Sell, instrument, bidLevels);
      }
    case CancelOrder(id, clientId) =>
    case RestoreOpenOrder(id, clientId, request, filled) =>
  }

  lemma {:induction false} FreshRestoresAreSafe(e: Engine, ops: seq<Operation>)
    requires Unused(e) && FreshRestores(e, ops)
    ensures SafeRun(e, ops)
    decreases |ops|
  {
    if ops != [] {
      StepKeepsUnused(e, ops[0]);
      FreshRestoresAreSafe(Step(e, ops[0]), ops[1..]);
    }
  }

  /** In every run from the empty engine whose restores use fresh ids, ledger and books agree. */
  lemma {:induction false} EveryRunAgrees(ops: seq<Operation>)
    requires FreshRestores(EMPTY_ENGINE, ops)
    ensures Agree(Run(EMPTY_ENGINE, ops), {})
  {
    FreshRestoresAreSafe(EMPTY_ENGINE, ops);
    RunAgreesExactly(EMPTY_ENGINE, ops);
    assert ops[..|ops|] == ops;
  }

  ghost predicate RestsAt(e: Engine, key: Name, side: OrderSide, i: nat, id: Name) {
    key in e.books && i < |Orders(e.books[key], side)| && Orders(e.books[key], side)[i].orderId == id
  }

  /** What agreement means for one record: open exactly when its id rests, once, with what is left of it. */
  lemma {:induction false} OpenIffRestsOnce(e: Engine, id: Name)
    requires Agree(e, {}) && id in e.orders
    ensures OpenId(e, id) <==> exists key, side, i: nat :: RestsAt(e, key, side, i, id)
    ensures forall key, side, i: nat, key', side', i': nat ::
              RestsAt(e, key, side, i, id) && RestsAt(e, key', side', i', id) ==>
                key == key' && side == side' && i == i'
    ensures forall key, side, i: nat :: RestsAt(e, key, side, i, id) ==>
              var o, r := Orders(e.books[key], side)[i], e.orders[id];
              && key == r.instrumentId && side == r.side
              && o.remaining == r.quantity - r.filledQuantity > TOLERANCE
              && r.status == (if r.filledQuantity > 0.0 then PartiallyFilled else Acknowledged)
  {
    forall key, side, i: nat | RestsAt(e, key, side, i, id)
      ensures var o, r := Orders(e.books[key], side)[i], e.orders[id];
              RecordOf(r, o, key) && side == r.side && o.remaining > TOLERANCE
    {
      var s := Orders(e.books[key], side);
      assert s[i] in s && SideOk(e.books[key], side);
    }
    forall key, side, i: nat, key', side', i': nat | RestsAt(e, key, side, i, id) && RestsAt(e, key', side', i', id)
      ensures key == key' && side == side' && i == i'
    {
      RestsOnce(e, {}, key, side, i, key', side', i');
    }
    if OpenId(e, id) {
      assert Rests(e, id);
      var b := e.books[e.orders[id].instrumentId];
      var side := if HasId(b.bids, id) then Buy else Sell;
      var i := IndexOf(Orders(b, side), id);
      assert RestsAt(e, e.orders[id].instrumentId, side, i, id);
    }
  }

  /**
   The hypothesis on ids is needed: counters restart at 1, so an order restored under "match-order-1" is overwritten.
   */
  lemma {:induction false} RestartReusesIds()
    ensures var instrument := Instrument(Other(0), Other(1), Other(2));
            var resting := OrderRequest(Other(3), Other(4), instrument, Sell, Limit, 1.0, Some(10.0));
            var refused := resting.(orderType := Market);
            var e := Run(EMPTY_ENGINE,
                         [RestoreOpenOrder(OrderName(1), ClientName(1), resting, 0.0), SubmitOrder(refused)]);
            && Other(0) in e.books && OrderName(1) in e.orders
            && e.books[Other(0)].asks == [RestingOrder(OrderName(1), ClientName(1), resting, 1.0, 1)]
            && e.orders[OrderName(1)].status == Rejected
            && !Agree(e, {})
  {
    var instrument := Instrument(Other(0), Other(1), Other(2));
    var resting := OrderRequest(Other(3), Other(4), instrument, Sell, Limit, 1.0, Some(10.0));
    var refused := resting.(orderType := Market);
    var restore, submit := RestoreOpenOrder(OrderName(1), ClientName(1), resting, 0.0), SubmitOrder(refused);
    var ops := [restore, submit];
    assert ops[1..] == [submit] && [submit][1..] == [];
    var e1 := Step(EMPTY_ENGINE, restore);
    var e := Step(e1, submit);
    assert Run(EMPTY_ENGINE, ops) == Run(e1, [submit]) == Run(e, []) == e;
    var o := RestingOrder(OrderName(1), ClientName(1), resting, 1.0, 1);
    assert e1.books[Other(0)].asks == [o];
    assert o in Orders(e.books[Other(0)], Sell);
  }
}
