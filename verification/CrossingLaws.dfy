/** No book is ever crossed: matching always clears what an incoming order could trade with before it rests. */
module CrossingLaws {
  import opened Types
  import opened BookModel
  import opened BookLaws
  import opened EngineModel
  import opened MatchingLaws

  /** Every resting bid is strictly below every resting ask. */
  ghost predicate Uncrossed(b: Book) {
    forall x, y :: x in b.bids && y in b.asks ==> Price(x) < Price(y)
  }

  /** The book invariant and the absence of a crossing, for one book. */
  ghost predicate Sound(b: Book) {
    match b
    case Book(_, _, _, _) => BookOk(b) && Uncrossed(b)
  }

  /** Every book is well formed and uncrossed, and filed under its own instrument. */
  ghost predicate AllSound(e: Engine) {
    match e
    case Engine(books, _, _, _, _) =>
      forall key :: key in books ==> books[key].instrument.instrumentId == key && Sound(books[key])
  }

  lemma {:induction false} SideIsLive(b: Book, side: OrderSide)
    requires Sound(b)
    ensures Live(Orders(b, side)) && Ordered(side, Orders(b, side))
  {
    assert SideOk(b, side);
  }

  /** Walking one side keeps the book sound. */
  lemma {:induction false} WalkSound(b: Book, side: OrderSide, taker: Taker, quantity: real)
    requires Sound(b)
    ensures Sound(WithOrders(b, side, Walk(taker, Orders(b, side), quantity).left))
  {
    hide Sound, Walk, Executable;
    var s := Orders(b, side);
    var w := Walk(taker, s, quantity);
    SideIsLive(b, side);
    WalkLaw(taker, s, quantity);
    var n := |w.trades|;
    if n > 0 {
      assert s[n - 1] in s;
      DropSound(b, side, n - 1);
      RestSound(b, side, n - 1, w.trades[n - 1].quantity);
    } else {
      assert WithOrders(b, side, s) == b;
    }
  }

  lemma {:induction false} RestSound(b: Book, side: OrderSide, n: nat, quantity: real)
    requires n < |Orders(b, side)| && Sound(WithOrders(b, side, Orders(b, side)[n..])) && quantity >= 0.0
    ensures Sound(WithOrders(b, side, Residue(Orders(b, side)[n], quantity) + Orders(b, side)[n + 1..]))
  {
    hide Sound;
    var s := Orders(b, side);
    var r := Residue(s[n], quantity);
    var b1 := WithOrders(b, side, s[n..]);
    assert Orders(b1, side) == s[n..] && s[n..][0] == s[n];
    ReplaceSound(b1, side, 0, r);
    assert Cut(s[n..], 0, r) == r + s[n + 1..];
    assert WithOrders(b1, side, r + s[n + 1..]) == WithOrders(b, side, r + s[n + 1..]);
  }

  lemma {:induction false} DropSound(b: Book, side: OrderSide, n: nat)
    requires Sound(b) && n <= |Orders(b, side)|
    ensures Sound(WithOrders(b, side, Orders(b, side)[n..]))
    decreases n
  {
    var s := Orders(b, side);
    if n == 0 {
      assert s[0..] == s;
      assert WithOrders(b, side, s) == b;
    } else {
      ReplaceSound(b, side, 0, []);
      assert Cut(s, 0, []) == s[1..];
      var b1 := WithOrders(b, side, s[1..]);
      DropSound(b1, side, n - 1);
      assert s[1..][n - 1..] == s[n..];
      assert WithOrders(b1, side, s[n..]) == WithOrders(b, side, s[n..]);
    }
  }

  lemma {:induction false} ReplaceSound(b: Book, side: OrderSide, j: nat, r: seq<RestingOrder>)
    requires Sound(b) && j < |Orders(b, side)|
    requires r == [] ||
             (|r| == 1 && r[0] == Orders(b, side)[j].(remaining := r[0].remaining) &&
              TOLERANCE < r[0].remaining <= Orders(b, side)[j].remaining)
    ensures Sound(WithOrders(b, side, Cut(Orders(b, side), j, r)))
  {
    ReplaceKeepsBook(b, side, j, r);
    hide BookOk;
    CutPrices(Orders(b, side), j, r);
    ShrinkUncrossed(b, side, Cut(Orders(b, side), j, r));
  }

  lemma {:induction false} CutPrices(s: seq<RestingOrder>, j: nat, r: seq<RestingOrder>)
    requires j < |s| && (r == [] || (|r| == 1 && r[0] == s[j].(remaining := r[0].remaining)))
    ensures forall x :: x in Cut(s, j, r) ==> exists y :: y in s && Price(y) == Price(x)
  {
    forall x | x in Cut(s, j, r)
      ensures exists y :: y in s && Price(y) == Price(x)
    {
      assert x in s || (x in r && s[j] in s && Price(s[j]) == Price(x));
    }
  }

  lemma {:induction false} ShrinkUncrossed(b: Book, side: OrderSide, t: seq<RestingOrder>)
    requires Uncrossed(b)
    requires forall x :: x in t ==> exists y :: y in Orders(b, side) && Price(y) == Price(x)
    ensures Uncrossed(WithOrders(b, side, t))
  {
    var b' := WithOrders(b, side, t);
    forall x, y | x in b'.bids && y in b'.asks
      ensures Price(x) < Price(y)
    {
      var x' :| x' in b.bids && Price(x') == Price(x);
      var y' :| y' in b.asks && Price(y') == Price(y);
    }
  }

  /** After a walk that has quantity left, everything that remains is priced beyond the taker's limit. */
  lemma {:induction false} WalkClears(b: Book, id: Name, request: OrderRequest)
    requires Sound(b) && request.price.Some?
    requires Walk(Incoming(id, request), Orders(b, Opposite(request.side)), request.quantity).rest > TOLERANCE
    ensures var left := Walk(Incoming(id, request), Orders(b, Opposite(request.side)), request.quantity).left;
            forall o :: o in left ==> Better(request.side, Price(o), request.price.value)
  {
    hide Sound, Walk;
    var side := Opposite(request.side);
    var taker := Incoming(id, request);
    var w := Walk(taker, Orders(b, side), request.quantity);
    SideIsLive(b, side);
    WalkLaw(taker, Orders(b, side), request.quantity);
    WalkSound(b, side, taker, request.quantity);
    var b' := WithOrders(b, side, w.left);
    SideIsLive(b', side);
    PricedOrders(b', side);
    forall o | o in w.left
      ensures Better(request.side, Price(o), request.price.value)
    {
      var i :| 0 <= i < |w.left| && w.left[i] == o;
      assert i == 0 || Before(side, w.left[0], w.left[i]);
      assert w.left[0] in w.left;
    }
  }

  lemma {:induction false} PricedOrders(b: Book, side: OrderSide)
    requires Sound(b)
    ensures forall o :: o in Orders(b, side) ==> o.request.price.Some?
  {
    assert SideOk(b, side);
  }

  /** The request would rest beyond every order of the opposite side. */
  ghost predicate Beyond(b: Book, request: OrderRequest) {
    request.price.Some? ==> forall o :: o in Orders(b, Opposite(request.side)) ==>
      Better(request.side, Price(o), request.price.value)
  }

  /** Resting an order leaves the book uncrossed exactly when it is refused or lies beyond the opposite side. */
  lemma {:induction false} AddSound(b: Book, request: OrderRequest, id: Name, clientId: Name, filled: real)
    requires Sound(b)
    ensures Sound(Add(b, request, id, clientId, filled).0) <==>
            (Compatible(b, request, id, clientId, filled) ==> Beyond(b, request))
  {
    if Compatible(b, request, id, clientId, filled) {
      AddKeepsBook(b, request, id, clientId, filled);
      hide BookOk, Insert;
      var b' := Add(b, request, id, clientId, filled).0;
      var o := RestingOrder(id, clientId, request, Max(0.0, request.quantity - filled), b.nextSequence);
      InsertMembers(request.side, Orders(b, request.side), o);
      assert o in Orders(b', request.side);
      assert Orders(b', Opposite(request.side)) == Orders(b, Opposite(request.side));
      assert forall x :: x in Orders(b', request.side) <==> x == o || x in Orders(b, request.side);
    }
  }

  lemma {:induction false} PutSound(e: Engine, key: Name, b: Book)
    requires AllSound(e) && Sound(b) && b.instrument.instrumentId == key
    ensures AllSound(e.(books := e.books[key := b]))
  {
  }

  lemma {:induction false} BookForSound(e: Engine, instrument: Instrument)
    requires AllSound(e)
    ensures Sound(BookFor(e, instrument)) && BookFor(e, instrument).instrument.instrumentId == instrument.instrumentId
  {
  }

  lemma {:induction false} MatchSound(e: Engine, key: Name, side: OrderSide, taker: Taker, quantity: real)
    requires AllSound(e) && key in e.books
    ensures AllSound(Match(e, key, side, taker, quantity).0)
  {
    WalkSound(e.books[key], side, taker, quantity);
    PutSound(e, key, WithOrders(e.books[key], side, Walk(taker, Orders(e.books[key], side), quantity).left));
  }

  lemma {:induction false} MatchLevelsSound(e: Engine, key: Name, side: OrderSide, instrument: Instrument,
                                            levels: seq<BookLevel>)
    requires AllSound(e) && key in e.books
    ensures AllSound(MatchLevels(e, key, side, instrument, levels).0)
    decreases |levels|
  {
    if levels != [] {
      var taker := External(instrument, levels[0].price);
      MatchSound(e, key, side, taker, levels[0].quantity);
      MatchLevelsSound(Match(e, key, side, taker, levels[0].quantity).0, key, side, instrument, levels[1..]);
    }
  }

  lemma {:induction false} SubmitSound(e: Engine, request: OrderRequest)
    requires AllSound(e)
    ensures AllSound(Submit(e, request).0)
  {
    hide AllSound, Sound;
    var id, clientId := OrderName(e.nextOrderId), ClientName(e.nextClientOrderId);
    var e1 := e.(nextOrderId := e.nextOrderId + 1, nextClientOrderId := e.nextClientOrderId + 1);
    if request.orderType == Market || request.price.None? || request.price.value <= 0.0 || request.quantity <= 0.0 {
      SoundFrame(e, Submit(e, request).0);
    } else {
      SoundFrame(e, e1);
      TakeSettleSound(e1, id, clientId, request);
    }
  }

  /** Soundness is about the books only. */
  lemma {:induction false} SoundFrame(e: Engine, e': Engine)
    requires AllSound(e) && e'.books == e.books
    ensures AllSound(e')
  {
  }

  lemma {:induction false} TakeSettleSound(e: Engine, id: Name, clientId: Name, request: OrderRequest)
    requires AllSound(e) && request.price.Some?
    ensures var (e1, sweep) := Take(e, id, clientId, request);
            AllSound(Settle(e1, id, clientId, request, sweep.rest).0)
  {
    hide AllSound, Sound, Walk, Add;
    var key := request.instrument.instrumentId;
    var side := Opposite(request.side);
    var b := BookFor(e, request.instrument);
    var taker := Incoming(id, request);
    var w := Walk(taker, Orders(b, side), request.quantity);
    var b1 := WithOrders(b, side, w.left);
    var (e1, sweep) := Take(e, id, clientId, request);
    var filled := Max(0.0, request.quantity - w.rest);
    BookForSound(e, request.instrument);
    WalkSound(b, side, taker, request.quantity);
    assert e1.books == e.books[key := b1];
    var (e2, _) := Settle(e1, id, clientId, request, w.rest);
    if w.rest > TOLERANCE {
      WalkClears(b, id, request);
      assert Beyond(b1, request);
      AddSound(b1, request, id, clientId, filled);
      var b2 := Add(b1, request, id, clientId, filled).0;
      AddInstrument(b1, request, id, clientId, filled);
      PutSound(e, key, b2);
      assert e2.books == e.books[key := b2];
      SoundFrame(e.(books := e.books[key := b2]), e2);
    } else {
      PutSound(e, key, b1);
      assert e2.books == e.books[key := b1];
      SoundFrame(e.(books := e.books[key := b1]), e2);
    }
  }

  lemma {:induction false} AddInstrument(b: Book, request: OrderRequest, id: Name, clientId: Name, filled: real)
    ensures Add(b, request, id, clientId, filled).0.instrument == b.instrument
  {
  }

  lemma {:induction false} CancelBookSound(b: Book, id: Name)
    requires Sound(b)
    ensures var b' := BookModel.Cancel(b, id).0;
            Sound(b') && b'.instrument == b.instrument
  {
    if Known(b, id) {
      var side := if HasId(b.bids, id) then Buy else Sell;
      var i := IndexOf(Orders(b, side), id);
      hide Uncrossed, HasId, BookOk;
      CancelIs(b, side, i);
      ReplaceSound(b, side, i, []);
    }
  }

  lemma {:induction false} CancelSound(e: Engine, id: Name, clientId: Name)
    requires AllSound(e)
    ensures AllSound(EngineModel.Cancel(e, id, clientId).0)
  {
    hide Sound, BookModel.Cancel;
    if id in e.orders && e.orders[id].instrumentId in e.books {
      var key := e.orders[id].instrumentId;
      CancelBookSound(e.books[key], id);
      PutSound(e, key, BookModel.Cancel(e.books[key], id).0);
    }
  }

  /** The restored order is refused or lies beyond the opposite side. */
  ghost predicate CalmRestore(e: Engine, id: Name, clientId: Name, request: OrderRequest, filled: real) {
    Restorable(request, filled) && Compatible(BookFor(e, request.instrument), request, id, clientId, filled) ==>
      Beyond(BookFor(e, request.instrument), request)
  }

  /**
   Restoring does not match, so it keeps the books uncrossed if and only if the order lies beyond the opposite side.
   */
  lemma {:induction false} RestoreSoundExactly(e: Engine, id: Name, clientId: Name, request: OrderRequest, filled: real)
    requires AllSound(e)
    ensures AllSound(Restore(e, id, clientId, request, filled)) <==> CalmRestore(e, id, clientId, request, filled)
  {
    if Restorable(request, filled) {
      hide Sound, Beyond;
      var key := request.instrument.instrumentId;
      var b := BookFor(e, request.instrument);
      BookForSound(e, request.instrument);
      AddSound(b, request, id, clientId, filled);
      AddInstrument(b, request, id, clientId, filled);
      var b' := Add(b, request, id, clientId, filled).0;
      var e' := Restore(e, id, clientId, request, filled);
      assert key in e'.books && e'.books[key] == b';
      if Sound(b') {
        PutSound(e, key, b');
      }
    }
  }

  /** The operation is no restore, or one that does not cross. */
  ghost predicate Calm(e: Engine, op: Operation) {
    op.RestoreOpenOrder? ==> CalmRestore(e, op.orderId, op.clientOrderId, op.request, op.filled)
  }

  ghost predicate CalmRun(e: Engine, ops: seq<Operation>)
    decreases |ops|
  {
    ops != [] ==> Calm(e, ops[0]) && CalmRun(Step(e, ops[0]), ops[1..])
  }

  lemma {:induction false} StepSoundExactly(e: Engine, op: Operation)
    requires AllSound(e)
    ensures AllSound(Step(e, op)) <==> Calm(e, op)
  {
    match op
    case SubmitOrder(request) => SubmitSound(e, request);
    case ApplyMarketEvent(instrument, bidLevels, askLevels) =>
      var key := instrument.instrumentId;
      if key in e.books {
        MatchLevelsSound(e, key, Buy, instrument, askLevels);
        MatchLevelsSound(MatchLevels(e, key, Buy, instrument, askLevels).0, key, Sell, instrument, bidLevels);
      }
    case CancelOrder(id, clientId) => CancelSound(e, id, clientId);
    case RestoreOpenOrder(id, clientId, request, filled) => RestoreSoundExactly(e, id, clientId, request, filled);
  }

  /** All books are well formed and uncrossed after every prefix of the run. */
  ghost predicate SoundThroughout(e: Engine, ops: seq<Operation>) {
    forall n :: 0 <= n <= |ops| ==> AllSound(Run(e, ops[..n]))
  }

  /** The books stay uncrossed throughout a run if and only if none of its restores crosses when it is applied. */
  lemma {:induction false} RunSoundExactly(e: Engine, ops: seq<Operation>)
    requires AllSound(e)
    ensures SoundThroughout(e, ops) <==> CalmRun(e, ops)
    decreases |ops|
  {
    hide AllSound, Calm, Step;
    assert Run(e, ops[..0]) == e;
    if ops != [] {
      var e1 := Step(e, ops[0]);
      StepSoundExactly(e, ops[0]);
      assert Run(e, ops[..1]) == e1 by {
        assert ops[..1][1..] == [];
        assert Run(e1, []) == e1;
      }
      if AllSound(e1) {
        RunSoundExactly(e1, ops[1..]);
        forall n | 1 <= n <= |ops|
          ensures Run(e, ops[..n]) == Run(e1, ops[1..][..n - 1])
        {
          assert ops[..n][1..] == ops[1..][..n - 1];
        }
        forall n | 0 <= n <= |ops[1..]|
          ensures Run(e1, ops[1..][..n]) == Run(e, ops[..n + 1])
        {
          assert ops[..n + 1][1..] == ops[1..][..n];
        }
      }
    }
  }

  /**
   From the empty engine, no book is ever crossed and every book stays well formed if and only if no restore crosses.
   */
  lemma {:induction false} NoBookIsEverCrossed(ops: seq<Operation>)
    ensures SoundThroughout(EMPTY_ENGINE, ops) <==> CalmRun(EMPTY_ENGINE, ops)
  {
    RunSoundExactly(EMPTY_ENGINE, ops);
  }

  /** A bid and an ask at no higher price, restored one after the other into the empty engine, cross. */
  lemma {:induction false} CrossingRestores(bid: OrderRequest, ask: OrderRequest, id: Name, clientId: Name, id': Name,
                                            clientId': Name)
    requires bid.instrument == ask.instrument && bid.side == Buy && ask.side == Sell &&
             bid.orderType == ask.orderType == Limit
    requires bid.quantity > TOLERANCE && ask.quantity > TOLERANCE && bid.price.Some? && ask.price.Some? &&
             0.0 < ask.price.value <= bid.price.value
    requires id != Empty && clientId != Empty && id' != Empty && clientId' != Empty && id != id'
    ensures var e := Restore(Restore(EMPTY_ENGINE, id, clientId, bid, 0.0), id', clientId', ask, 0.0);
            var key := bid.instrument.instrumentId;
            key in e.books && BookOk(e.books[key]) && !Uncrossed(e.books[key])
  {
    var b0 := Book(bid.instrument, [], [], 1);
    var b1 := Add(b0, bid, id, clientId, 0.0).0;
    AddKeepsBook(b0, bid, id, clientId, 0.0);
    AddKeepsBook(b1, ask, id', clientId', 0.0);
    AddsToEmpty(b0, bid, id, clientId);
    AddsToEmpty(b1, ask, id', clientId');
    hide Add, BookOk, Compatible;
    var b2 := Add(b1, ask, id', clientId', 0.0).0;
    var x, y := RestingOrder(id, clientId, bid, bid.quantity, 1), RestingOrder(id', clientId', ask, ask.quantity, 2);
    assert b2.bids[0] == x && b2.asks[0] == y;
    assert x in b2.bids && y in b2.asks;
  }

  /** The hypothesis on restores is needed: a bid at 10 and an ask at 9. */
  lemma {:induction false} RestoresCanCross()
    ensures var instrument := Instrument(Other(0), Other(1), Other(2));
            var bid := OrderRequest(Other(3), Other(4), instrument, Buy, Limit, 1.0, Some(10.0));
            var ask := OrderRequest(Other(5), Other(4), instrument, Sell, Limit, 1.0, Some(9.0));
            var e := Restore(Restore(EMPTY_ENGINE, Other(6), Other(7), bid, 0.0), Other(8), Other(9), ask, 0.0);
            Other(0) in e.books && BookOk(e.books[Other(0)]) && !Uncrossed(e.books[Other(0)])
  {
    hide Restore, BookOk, Uncrossed;
    var instrument := Instrument(Other(0), Other(1), Other(2));
    var bid := OrderRequest(Other(3), Other(4), instrument, Buy, Limit, 1.0, Some(10.0));
    var ask := OrderRequest(Other(5), Other(4), instrument, Sell, Limit, 1.0, Some(9.0));
    CrossingRestores(bid, ask, Other(6), Other(7), Other(8), Other(9));
  }

  lemma {:induction false} AddsToEmpty(b: Book, request: OrderRequest, id: Name, clientId: Name)
    requires Compatible(b, request, id, clientId, 0.0) && Orders(b, request.side) == []
    ensures Add(b, request, id, clientId, 0.0).0 ==
            WithOrders(b, request.side,
                       [RestingOrder(id, clientId, request, request.quantity,
                                     b.nextSequence)]).(nextSequence := b.nextSequence + 1)
  {
  }

}
