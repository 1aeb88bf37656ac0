/** What one walk over a priority list does, and why it is the best execution there is. */
module MatchingLaws {
  import opened Types
  import opened BookModel
  import opened EngineModel

  function Traded(trades: seq<Trade>): real {
    if trades == [] then 0.0 else trades[0].quantity + Traded(trades[1..])
  }

  ghost predicate Live(s: seq<RestingOrder>) {
    forall o :: o in s ==> o.remaining > TOLERANCE
  }

  /** Trades in list order: every order but the last is consumed fully, and each one was executable. */
  ghost predicate InPriorityOrder(taker: Taker, s: seq<RestingOrder>, trades: seq<Trade>) {
    && |trades| <= |s|
    && (forall k :: 0 <= k < |trades| ==>
        trades[k].resting == s[k] && Executable(taker, s[k]) && TOLERANCE < trades[k].quantity <= s[k].remaining)
    && (forall k :: 0 <= k < |trades| - 1 ==> trades[k].quantity == s[k].remaining)
  }

  /** The untouched tail stays, behind what is left of the last order traded with. */
  function Remainder(s: seq<RestingOrder>, trades: seq<Trade>): seq<RestingOrder>
    requires |trades| <= |s|
  {
    if trades == [] then s
    else Residue(s[|trades| - 1], trades[|trades| - 1].quantity) + s[|trades|..]
  }

  lemma {:induction false} WalkStep(taker: Taker, s: seq<RestingOrder>, quantity: real)
    ensures Walk(taker, s, quantity) ==
            if quantity <= TOLERANCE || s == [] || !Executable(taker, s[0]) then Sweep([], s, quantity)
            else
              var executed := Min(quantity, s[0].remaining);
              var rest := Max(0.0, quantity - executed);
              if Residue(s[0], executed) == [] then
                var tail := Walk(taker, s[1..], rest);
                Sweep([Trade(s[0], executed)] + tail.trades, tail.left, tail.rest)
              else Sweep([Trade(s[0], executed)], Residue(s[0], executed) + s[1..], rest)
  {
  }

  /** A walk trades in priority order, accounts for the whole quantity, and stops only when it has to. */
  lemma {:induction false} WalkLaw(taker: Taker, s: seq<RestingOrder>, quantity: real)
    requires Live(s)
    ensures var w := Walk(taker, s, quantity);
            && InPriorityOrder(taker, s, w.trades)
            && w.left == Remainder(s, w.trades)
            && Traded(w.trades) + w.rest == quantity
            && (w.rest <= TOLERANCE || w.left == [] || !Executable(taker, w.left[0]))
            && (quantity >= 0.0 ==> w.rest >= 0.0)
  {
    WalkStep(taker, s, quantity);
    hide Walk, Residue, Executable;
    if quantity > TOLERANCE && s != [] && Executable(taker, s[0]) {
      assert s[0] in s;
      var executed := Min(quantity, s[0].remaining);
      if Residue(s[0], executed) == [] {
        assert Live(s[1..]);
        WalkStep(taker, s[1..], quantity - executed);
        hide *;
        WalkLaw(taker, s[1..], quantity - executed);
        assert s[0].remaining > TOLERANCE;
        WalkCons(taker, s, executed, quantity, Walk(taker, s[1..], quantity - executed));
      } else {
        WalkOne(taker, s, executed, quantity);
        hide *;
      }
    }
  }

  /** A walk that ends inside its first order. */
  lemma {:induction false} WalkOne(taker: Taker, s: seq<RestingOrder>, executed: real, quantity: real)
    requires s != [] && Executable(taker, s[0]) && quantity > TOLERANCE && s[0].remaining > TOLERANCE
    requires executed == Min(quantity, s[0].remaining) && Residue(s[0], executed) != []
    ensures executed == quantity && Max(0.0, quantity - executed) == 0.0
    ensures var trades := [Trade(s[0], executed)];
            InPriorityOrder(taker, s, trades) && Traded(trades) == quantity &&
              Remainder(s, trades) == Residue(s[0], executed) + s[1..]
  {
    assert [Trade(s[0], executed)][1..] == [];
  }

  /** A walk that consumes its first order and goes on. */
  lemma {:induction false} WalkCons(taker: Taker, s: seq<RestingOrder>, executed: real, quantity: real, tail: Sweep)
    requires s != [] && Executable(taker, s[0]) && quantity > TOLERANCE && s[0].remaining > TOLERANCE
    requires executed == Min(quantity, s[0].remaining) && Residue(s[0], executed) == []
    requires tail.trades != [] ==> quantity - executed > TOLERANCE
    requires InPriorityOrder(taker, s[1..], tail.trades) && tail.left == Remainder(s[1..], tail.trades)
    ensures executed <= quantity && Max(0.0, quantity - executed) == quantity - executed
    ensures var trades := [Trade(s[0], executed)] + tail.trades;
            && InPriorityOrder(taker, s, trades) && tail.left == Remainder(s, trades)
            && Traded(trades) == executed + Traded(tail.trades)
  {
    var trades := [Trade(s[0], executed)] + tail.trades;
    assert trades[1..] == tail.trades;
    assert Traded(trades) == executed + Traded(tail.trades);
    hide Traded, Residue, Executable;
    assert forall k :: 0 < k < |trades| ==> trades[k] == tail.trades[k - 1] && s[k] == s[1..][k - 1];
    assert s[|trades|..] == s[1..][|tail.trades|..];
  }

  // ---------- Best execution ----------

  function Total(a: seq<real>): real {
    if a == [] then 0.0 else a[0] + Total(a[1..])
  }

  function Cost(a: seq<real>, s: seq<RestingOrder>): real
    requires |a| == |s|
  {
    if a == [] then 0.0 else Times(a[0], Price(s[0])) + Cost(a[1..], s[1..])
  }

  /** Quantities to take from each resting order. */
  ghost predicate Allocation(a: seq<real>, s: seq<RestingOrder>) {
    |a| == |s| && forall i :: 0 <= i < |a| ==> 0.0 <= a[i] <= s[i].remaining
  }

  /** What the walk takes from each order of the list. */
  function Taken(s: seq<RestingOrder>, trades: seq<Trade>): seq<real> {
    seq(|s|, i requires 0 <= i < |s| => if i < |trades| then trades[i].quantity else 0.0)
  }

  /** `g` takes at least as much wherever the price beats `p`, and at most as much wherever `p` beats the price. */
  ghost predicate Greedier(side: OrderSide, g: seq<real>, a: seq<real>, s: seq<RestingOrder>, p: real) {
    && |g| == |a| == |s|
    && forall i :: 0 <= i < |s| ==>
         && (Better(side, Price(s[i]), p) ==> g[i] >= a[i])
         && (Better(side, p, Price(s[i])) ==> g[i] <= a[i])
  }

  /** `x` is at least as good a bill as `y` for whoever trades against resting orders of `side`. */
  predicate NoWorse(side: OrderSide, x: real, y: real) {
    if side == Sell then x <= y else x >= y
  }

  /** Moving one order's quantity, on top of what moving the others' does. */
  lemma ExchangeOne(side: OrderSide, g: real, a: real, price: real, p: real, costG: real, costA: real, totalG: real,
                    totalA: real)
    requires Better(side, price, p) ==> g >= a
    requires Better(side, p, price) ==> g <= a
    requires NoWorse(side, costG - Times(totalG, p), costA - Times(totalA, p))
    ensures NoWorse(side, Times(g, price) + costG - Times(g + totalG, p),
                    Times(a, price) + costA - Times(a + totalA, p))
  {
    var d, q := g - a, price - p;
    assert if side == Sell then d * q <= 0.0 else d * q >= 0.0;
    assert d * q == g * price - p * g - (a * price - p * a);
    assert (g + totalG) * p == p * g + totalG * p;
    assert (a + totalA) * p == p * a + totalA * p;
  }

  /** Moving quantity from behind `p` to before `p` never makes the bill worse. */
  lemma {:induction false} Exchange(side: OrderSide, g: seq<real>, a: seq<real>, s: seq<RestingOrder>, p: real)
    requires Greedier(side, g, a, s, p)
    ensures NoWorse(side, Cost(g, s) - Times(Total(g), p), Cost(a, s) - Times(Total(a), p))
  {
    hide Times;
    if s != [] {
      Exchange(side, g[1..], a[1..], s[1..], p);
      ExchangeOne(side, g[0], a[0], Price(s[0]), p, Cost(g[1..], s[1..]), Cost(a[1..], s[1..]), Total(g[1..]),
                  Total(a[1..]));
    }
  }

  lemma {:induction false} TakenTotals(s: seq<RestingOrder>, trades: seq<Trade>)
    requires |trades| <= |s|
    ensures Total(Taken(s, trades)) == Traded(trades)
  {
    if s != [] {
      if trades == [] {
        assert Taken(s, [])[1..] == Taken(s[1..], []);
        TakenTotals(s[1..], []);
      } else {
        assert Taken(s, trades)[1..] == Taken(s[1..], trades[1..]);
        TakenTotals(s[1..], trades[1..]);
      }
    }
  }

  lemma {:induction false} NothingTaken(a: seq<real>, s: seq<RestingOrder>)
    requires Allocation(a, s)
    ensures Total(a) >= 0.0 && (Total(a) == 0.0 ==> Cost(a, s) == 0.0)
  {
    if a != [] {
      NothingTaken(a[1..], s[1..]);
      assert a[0] == 0.0 ==> Times(a[0], Price(s[0])) == 0.0;
    }
  }

  /** No way to take the same total from the same resting orders gives a better bill than the walk. */
  lemma {:induction false} WalkIsBest(side: OrderSide, taker: Taker, s: seq<RestingOrder>, quantity: real, a: seq<real>)
    requires Ordered(side, s) && Live(s) && Allocation(a, s)
    requires Total(a) == Traded(Walk(taker, s, quantity).trades)
    ensures NoWorse(side, Cost(Taken(s, Walk(taker, s, quantity).trades), s), Cost(a, s))
  {
    hide Times, Live, Walk;
    var trades := Walk(taker, s, quantity).trades;
    var g := Taken(s, trades);
    var n := |trades|;
    WalkLaw(taker, s, quantity);
    TakenTotals(s, trades);
    if n == 0 {
      NothingTaken(a, s);
      assert Allocation(g, s);
      NothingTaken(g, s);
    } else {
      WalkIsGreedy(side, taker, s, trades, a);
      Exchange(side, g, a, s, Price(s[n - 1]));
    }
  }

  /** Better prices than the last one traded at are exhausted, worse ones untouched. */
  lemma {:induction false} WalkIsGreedy(side: OrderSide, taker: Taker, s: seq<RestingOrder>, trades: seq<Trade>,
                                        a: seq<real>)
    requires Ordered(side, s) && Allocation(a, s) && trades != [] && InPriorityOrder(taker, s, trades)
    ensures Greedier(side, Taken(s, trades), a, s, Price(s[|trades| - 1]))
  {
    var n := |trades|;
    forall i | 0 <= i < |s|
      ensures Better(side, Price(s[i]), Price(s[n - 1])) ==> Taken(s, trades)[i] >= a[i]
      ensures Better(side, Price(s[n - 1]), Price(s[i])) ==> Taken(s, trades)[i] <= a[i]
    {
      if i < n - 1 {
        assert Before(side, s[i], s[n - 1]);
      } else if i > n - 1 {
        assert Before(side, s[n - 1], s[i]);
      }
    }
  }

  function Bill(fills: seq<FillEvent>): real {
    if fills == [] then 0.0 else Times(fills[0].quantity, fills[0].price) + Bill(fills[1..])
  }

  function Volume(fills: seq<FillEvent>): real {
    if fills == [] then 0.0 else fills[0].quantity + Volume(fills[1..])
  }

  /** The fills of an incoming order carry the walk's quantities at the resting prices. */
  lemma {:induction false} FillsBill(id: Name, request: OrderRequest, s: seq<RestingOrder>, trades: seq<Trade>,
                                     nextFillId: nat)
    requires |trades| <= |s| && forall k :: 0 <= k < |trades| ==> trades[k].resting == s[k]
    ensures var fills := FillsOf(Incoming(id, request), trades, nextFillId);
            Bill(fills) == Cost(Taken(s, trades), s) && Volume(fills) == Traded(trades)
  {
    if s != [] {
      if trades == [] {
        assert Taken(s, [])[1..] == Taken(s[1..], []);
        FillsBill(id, request, s[1..], [], nextFillId);
      } else {
        assert Taken(s, trades)[1..] == Taken(s[1..], trades[1..]);
        FillsBill(id, request, s[1..], trades[1..], nextFillId + 1);
      }
    }
  }

  /** The orders an incoming request could trade with before the call. */
  function Opposing(e: Engine, request: OrderRequest): seq<RestingOrder> {
    Orders(BookFor(e, request.instrument), Opposite(request.side))
  }

  lemma {:induction false} FillsAt(taker: Taker, trades: seq<Trade>, nextFillId: nat, k: nat)
    requires k < |trades|
    ensures FillsOf(taker, trades, nextFillId)[k] ==
            FillOf(taker, trades[k].resting, trades[k].quantity, FillName(nextFillId + k))
  {
    if k > 0 {
      FillsAt(taker, trades[1..], nextFillId + 1, k - 1);
    }
  }

  lemma {:induction false} TradedPositive(trades: seq<Trade>)
    requires forall k :: 0 <= k < |trades| ==> trades[k].quantity > TOLERANCE
    ensures Traded(trades) >= 0.0
  {
    if trades != [] {
      TradedPositive(trades[1..]);
    }
  }

  predicate Acceptable(request: OrderRequest) {
    request.orderType != Market && request.price.Some? && request.price.value > 0.0 && request.quantity > 0.0
  }

  /** What an accepted submit leaves on the opposite side and in its own record. */
  lemma {:induction false} SubmitSettles(e: Engine, request: OrderRequest)
    requires Acceptable(request)
    ensures var w := Walk(Incoming(OrderName(e.nextOrderId), request), Opposing(e, request), request.quantity);
            var (e', result) := Submit(e, request);
            && result.orderId == OrderName(e.nextOrderId) && result.orderId in e'.orders
            && result.fills == FillsOf(Incoming(result.orderId, request), w.trades, e.nextFillId)
            && Opposing(e', request) == w.left
            && (w.rest <= request.quantity ==>
                Abs(e'.orders[result.orderId].filledQuantity - (request.quantity - w.rest)) <= TOLERANCE)
  {
    hide Walk, FillsOf, FillOrders, Insert;
  }

  /**
   The fills run through the opposing orders `s` in price-time priority, each at the resting price and each crossing,
   all but the last consuming their order; `t` is exactly what stays of `s`.
   */
  ghost predicate Executes(request: OrderRequest, id: Name, s: seq<RestingOrder>, fills: seq<FillEvent>,
                           t: seq<RestingOrder>) {
    && |fills| <= |s|
    && (forall k :: 0 <= k < |fills| ==> ExecutesOne(request, id, s[k], fills[k]))
    && (forall k :: 0 <= k < |fills| - 1 ==> fills[k].quantity == s[k].remaining)
    && t == if fills == [] then s else Residue(s[|fills| - 1], fills[|fills| - 1].quantity) + s[|fills|..]
  }

  predicate ExecutesOne(request: OrderRequest, id: Name, o: RestingOrder, fill: FillEvent) {
    match fill
    case FillEvent(_, orderId, instrument, side, price, quantity, fee) =>
      && orderId == id && instrument == request.instrument && side == request.side && price == Price(o) && fee == 0.0
      && WithinLimit(request, price) && TOLERANCE < quantity <= o.remaining
  }

  /** The price is no worse for the request than its limit. */
  predicate WithinLimit(request: OrderRequest, price: real) {
    request.price.Some? && if request.side == Buy then price <= request.price.value else price >= request.price.value
  }

  ghost predicate Priced(s: seq<RestingOrder>) {
    forall o :: o in s ==> o.request.price.Some?
  }

  lemma {:induction false} StopsBeyond(request: OrderRequest, id: Name, s: seq<RestingOrder>, fills: seq<FillEvent>,
                                       t: seq<RestingOrder>)
    requires Priced(s) && Executes(request, id, s, fills, t) && t != [] && !Crosses(request, t[0])
    requires request.price.Some?
    ensures !WithinLimit(request, Price(t[0]))
  {
    hide ExecutesOne;
    if fills != [] {
      var n := |fills|;
      assert t[0].request == if |t| > |s| - n then s[n - 1].request else s[n].request;
    }
    assert t[0].request.price.Some?;
  }

  lemma {:induction false} TradesExecute(request: OrderRequest, id: Name, s: seq<RestingOrder>, trades: seq<Trade>,
                                         nextFillId: nat)
    requires InPriorityOrder(Incoming(id, request), s, trades)
    ensures Executes(request, id, s, FillsOf(Incoming(id, request), trades, nextFillId), Remainder(s, trades))
  {
    hide FillsOf;
    var taker := Incoming(id, request);
    var fills := FillsOf(taker, trades, nextFillId);
    forall k | 0 <= k < |trades|
      ensures fills[k].quantity == trades[k].quantity && ExecutesOne(request, id, s[k], fills[k])
    {
      FillsAt(taker, trades, nextFillId, k);
    }
  }

  lemma {:induction false} WalkExecutes(request: OrderRequest, id: Name, s: seq<RestingOrder>, quantity: real,
                                        nextFillId: nat)
    requires Live(s) && quantity >= 0.0
    ensures var w := Walk(Incoming(id, request), s, quantity);
            var fills := FillsOf(Incoming(id, request), w.trades, nextFillId);
            && Executes(request, id, s, fills, w.left)
            && Volume(fills) + w.rest == quantity && Volume(fills) >= 0.0 && w.rest >= 0.0
            && (w.rest <= TOLERANCE || w.left == [] || !Crosses(request, w.left[0]))
  {
    hide Walk, FillsOf, Executes, Traded, Volume, Bill, Cost;
    var w := Walk(Incoming(id, request), s, quantity);
    WalkLaw(Incoming(id, request), s, quantity);
    TradedPositive(w.trades);
    FillsBill(id, request, s, w.trades, nextFillId);
    TradesExecute(request, id, s, w.trades, nextFillId);
  }

  lemma {:induction false} OpposingLive(e: Engine, request: OrderRequest)
    requires BookOk(BookFor(e, request.instrument)) && Acceptable(request)
    ensures Live(Opposing(e, request)) && Priced(Opposing(e, request))
    ensures request.quantity > 0.0 && request.price.Some?
  {
    assert SideOk(BookFor(e, request.instrument), Opposite(request.side));
  }

  /**
   What a submit executes.  Its fills follow price-time priority at prices within the limit, add up to no more than
   the quantity, and stop only when at most the tolerance is left or the next opposing order lies beyond the limit;
   the record's filled quantity is what was filled, up to the tolerance.
   */
  lemma {:induction false} SubmitLaw(e: Engine, request: OrderRequest)
    requires BookOk(BookFor(e, request.instrument)) && Acceptable(request)
    ensures var (e', result) := Submit(e, request);
            var left := Opposing(e', request);
            && Executes(request, result.orderId, Opposing(e, request), result.fills, left)
            && 0.0 <= Volume(result.fills) <= request.quantity
            && (request.quantity - Volume(result.fills) <= TOLERANCE || left == [] ||
                !WithinLimit(request, Price(left[0])))
            && result.orderId in e'.orders
            && Abs(e'.orders[result.orderId].filledQuantity - Volume(result.fills)) <= TOLERANCE
  {
    hide *;
    OpposingLive(e, request);
    WalkExecutes(request, OrderName(e.nextOrderId), Opposing(e, request), request.quantity, e.nextFillId);
    SubmitSettles(e, request);
    var (e', result) := Submit(e, request);
    var left := Opposing(e', request);
    if left != [] && !Crosses(request, left[0]) {
      StopsBeyond(request, result.orderId, Opposing(e, request), result.fills, left);
    }
  }

  /**
   Best execution.  A buyer pays no more, and a seller receives no less, than under any other way of
   taking the same quantity from the orders that rested before the call.
   */
  lemma {:induction false} SubmitIsBestExecution(e: Engine, request: OrderRequest, a: seq<real>)
    requires BookOk(BookFor(e, request.instrument))
    requires Allocation(a, Opposing(e, request)) && Total(a) == Volume(Submit(e, request).1.fills)
    ensures NoWorse(Opposite(request.side), Bill(Submit(e, request).1.fills), Cost(a, Opposing(e, request)))
  {
    var s := Opposing(e, request);
    assert SideOk(BookFor(e, request.instrument), Opposite(request.side));
    var fills := Submit(e, request).1.fills;
    if fills == [] {
      NothingTaken(a, s);
    } else {
      var taker := Incoming(OrderName(e.nextOrderId), request);
      var w := Walk(taker, s, request.quantity);
      assert fills == FillsOf(taker, w.trades, e.nextFillId);
      WalkLaw(taker, s, request.quantity);
      FillsBill(OrderName(e.nextOrderId), request, s, w.trades, e.nextFillId);
      WalkIsBest(Opposite(request.side), taker, s, request.quantity, a);
    }
  }
}
