/**
 Recovery of the matching engine: restoring every open record into an empty engine rebuilds the books,
 and from then on every market event produces the same fills.
 */
module RestoreLaws {
  import opened Types
  import opened BookModel
  import opened BookLaws
  import opened EngineModel
  import opened EngineLaws
  import opened EngineSteps
  import opened MatchingLaws

  /** The request under which the runtime restores a record; of the instrument only the id survives. */
  function RequestOf(r: OrderRecord): OrderRequest {
    OrderRequest(r.orderId, r.strategyId, Instrument(r.instrumentId, Empty, Empty), r.side, r.orderType, r.quantity,
                 r.price)
  }

  function RestoreRecord(e: Engine, r: OrderRecord): Engine {
    Restore(e, r.orderId, r.clientOrderId, RequestOf(r), r.filledQuantity)
  }

  function RestoreAll(e: Engine, records: seq<OrderRecord>): Engine
    decreases |records|
  {
    if records == [] then e else RestoreAll(RestoreRecord(e, records[0]), records[1..])
  }

  function OrdersIn(e: Engine, key: Name, side: OrderSide): seq<RestingOrder> {
    if key in e.books then Orders(e.books[key], side) else []
  }

  /** What matching external levels can see of a resting order. */
  datatype Shape = Shape(orderId: Name, side: OrderSide, price: Option<real>, remaining: real)

  function ShapeOf(o: RestingOrder): Shape {
    Shape(o.orderId, o.request.side, o.request.price, o.remaining)
  }

  function Shapes(s: seq<RestingOrder>): (t: seq<Shape>)
    ensures |t| == |s| && forall i :: 0 <= i < |s| ==> t[i] == ShapeOf(s[i])
  {
    seq(|s|, i requires 0 <= i < |s| => ShapeOf(s[i]))
  }

  // ---------- The list of open records ----------

  ghost predicate Listed(records: seq<OrderRecord>, id: Name) {
    exists k :: 0 <= k < |records| && records[k].orderId == id
  }

  ghost predicate DistinctIds(records: seq<OrderRecord>) {
    forall j, k :: 0 <= j < k < |records| ==> records[j].orderId != records[k].orderId
  }

  /** `records` lists the open records of `e`, each once. */
  ghost predicate ListsOpenOrders(e: Engine, records: seq<OrderRecord>) {
    && DistinctIds(records)
    && (forall id :: Listed(records, id) <==> OpenId(e, id))
    && (forall r :: r in records ==> r.orderId in e.orders && r == e.orders[r.orderId])
  }

  /** Position of an id in the list. */
  function Pos(records: seq<OrderRecord>, id: Name): nat {
    if records == [] || records[0].orderId == id then 0 else 1 + Pos(records[1..], id)
  }

  lemma {:induction false} PosAt(records: seq<OrderRecord>, k: nat)
    requires DistinctIds(records) && k < |records|
    ensures Pos(records, records[k].orderId) == k
  {
    if k > 0 {
      assert records[0].orderId != records[k].orderId;
      PosAt(records[1..], k - 1);
    }
  }

  /** Orders of equal price come in the list in the order in which they arrived. */
  ghost predicate InArrivalOrder(e: Engine, records: seq<OrderRecord>) {
    forall key, side, i, j :: key in e.books && 0 <= i < j < |Orders(e.books[key], side)| &&
                              Price(Orders(e.books[key], side)[i]) == Price(Orders(e.books[key], side)[j]) ==>
      Pos(records, Orders(e.books[key], side)[i].orderId) < Pos(records, Orders(e.books[key], side)[j].orderId)
  }

  // ---------- A strictly sorted list is determined by its elements ----------

  function ShapePrice(a: Shape): real {
    if a.price.Some? then a.price.value else 0.0
  }

  /** Price priority, then position in the list of records. */
  predicate Prior(side: OrderSide, records: seq<OrderRecord>, a: Shape, b: Shape) {
    Better(side, ShapePrice(a), ShapePrice(b)) ||
      (ShapePrice(a) == ShapePrice(b) && Pos(records, a.orderId) < Pos(records, b.orderId))
  }

  ghost predicate SortedShapes(side: OrderSide, records: seq<OrderRecord>, s: seq<Shape>) {
    forall i, j :: 0 <= i < j < |s| ==> Prior(side, records, s[i], s[j])
  }

  lemma {:induction false} SortedHeads(side: OrderSide, records: seq<OrderRecord>, s: seq<Shape>, t: seq<Shape>)
    requires SortedShapes(side, records, s) && SortedShapes(side, records, t)
    requires s != [] && t != [] && s[0] in t && t[0] in s
    ensures s[0] == t[0]
  {
    var i :| 0 <= i < |s| && s[i] == t[0];
    var j :| 0 <= j < |t| && t[j] == s[0];
    assert i == 0 || Prior(side, records, s[0], s[i]);
    assert j == 0 || Prior(side, records, t[0], t[j]);
  }

  lemma {:induction false} SortedTail(side: OrderSide, records: seq<OrderRecord>, s: seq<Shape>)
    requires SortedShapes(side, records, s) && s != []
    ensures SortedShapes(side, records, s[1..])
    ensures forall x :: x in s[1..] <==> x in s && x != s[0]
  {
    forall x
      ensures x in s[1..] <==> x in s && x != s[0]
    {
      if x in s[1..] {
        var i :| 0 <= i < |s[1..]| && s[1..][i] == x;
        assert Prior(side, records, s[0], s[i + 1]);
      }
    }
  }

  lemma {:induction false} SortedUnique(side: OrderSide, records: seq<OrderRecord>, s: seq<Shape>, t: seq<Shape>)
    requires SortedShapes(side, records, s) && SortedShapes(side, records, t)
    requires forall x :: x in s <==> x in t
    ensures s == t
  {
    hide SortedShapes;
    assert t != [] ==> t[0] in t;
    if s != [] {
      assert s[0] in s && s[0] in t;
      SortedHeads(side, records, s, t);
      SortedTail(side, records, s);
      SortedTail(side, records, t);
      SortedUnique(side, records, s[1..], t[1..]);
      assert s == [s[0]] + s[1..] && t == [t[0]] + t[1..];
    }
  }

  // ---------- Restoring the list ----------

  /** `e'` is the engine rebuilt from the first records of the list: their records, and arrival in list order. */
  ghost predicate Rebuilt(e': Engine, records: seq<OrderRecord>, n: nat) {
    match e'
    case Engine(books, orders, _, _, _) =>
      && n <= |records|
      && Agree(e', {})
      && (forall id :: id in orders <==> Listed(records[..n], id))
      && (forall k :: 0 <= k < n ==> records[k].orderId in orders && orders[records[k].orderId] == records[k])
      && (forall key, side :: key in books ==> ArrivesInOrder(Orders(books[key], side), records, n))
  }

  /** What an open record satisfies. */
  predicate OpenRecord(r: OrderRecord) {
    && r.orderId != Empty && r.clientOrderId != Empty
    && r.orderType == Limit && r.price.Some? && r.price.value > 0.0
    && r.quantity > 0.0 && 0.0 <= r.filledQuantity < r.quantity - TOLERANCE
    && r.status == (if r.filledQuantity > 0.0 then PartiallyFilled else Acknowledged)
  }

  /** Where an open record's order rests. */
  lemma {:induction false} LocateOpen(e: Engine, id: Name) returns (i: nat)
    requires Agree(e, {}) && OpenId(e, id)
    ensures var r := e.orders[id];
            && r.instrumentId in e.books && i < |Orders(e.books[r.instrumentId], r.side)|
            && var o := Orders(e.books[r.instrumentId], r.side)[i];
               RecordOf(r, o, r.instrumentId) && Resting(o, r.instrumentId, r.side, o.sequence + 1)
  {
    assert Rests(e, id);
    var key := e.orders[id].instrumentId;
    var b := e.books[key];
    var side := if HasId(b.bids, id) then Buy else Sell;
    i := IndexOf(Orders(b, side), id);
    var o := Orders(b, side)[i];
    assert o in Orders(b, side) && SideOk(b, side);
    assert RecordOf(e.orders[id], o, key);
  }

  lemma {:induction false} OpenRecords(e: Engine, id: Name)
    requires Agree(e, {}) && OpenId(e, id)
    ensures OpenRecord(e.orders[id]) && e.orders[id].orderId == id
  {
    var i := LocateOpen(e, id);
  }

  lemma {:induction false} RestoredBook(e: Engine, r: OrderRecord)
    requires Agree(e, {}) && OpenRecord(r) && r.orderId !in e.orders
    ensures var request := RequestOf(r);
            var b := BookFor(e, request.instrument);
            && Compatible(b, request, r.orderId, r.clientOrderId, r.filledQuantity)
            && RestoreRecord(e, r).books ==
              e.books[r.instrumentId := Add(b, request, r.orderId, r.clientOrderId, r.filledQuantity).0]
            && RestoreRecord(e, r).orders == e.orders[r.orderId := r]
  {
    if r.instrumentId in e.books {
      ClosedDoesNotRest(e, r.instrumentId, r.orderId);
    }
  }

  /** One more record restored. */
  lemma {:induction false} RestoreStep(e: Engine, records: seq<OrderRecord>, n: nat)
    requires Rebuilt(e, records, n) && n < |records| && DistinctIds(records) && OpenRecord(records[n])
    ensures Rebuilt(RestoreRecord(e, records[n]), records, n + 1)
  {
    hide Agree, RestoreRecord, Pos;
    var r := records[n];
    assert r.orderId !in e.orders by {
      assert !Listed(records[..n], r.orderId);
    }
    var e' := RestoreRecord(e, r);
    RestoredBook(e, r);
    RestoreRecordAgrees(e, r);
    ListedNext(records, n);
    PosAt(records, n);
    forall key, side | key in e'.books
      ensures ArrivesInOrder(Orders(e'.books[key], side), records, n + 1)
    {
      RestoreArrival(e, records, n, key, side);
    }
  }

  lemma {:induction false} RestoreRecordAgrees(e: Engine, r: OrderRecord)
    requires Agree(e, {}) && r.orderId !in e.orders
    ensures Agree(RestoreRecord(e, r), {})
  {
    RestoreAgrees(e, r.orderId, r.clientOrderId, RequestOf(r), r.filledQuantity);
  }

  ghost predicate ArrivesInOrder(s: seq<RestingOrder>, records: seq<OrderRecord>, n: nat) {
    && (forall o :: o in s ==> Pos(records, o.orderId) < n)
    && (forall x, y {:trigger x in s, y in s} :: x in s && y in s && x.sequence < y.sequence ==>
        Pos(records, x.orderId) < Pos(records, y.orderId))
  }

  lemma {:induction false} ListedNext(records: seq<OrderRecord>, n: nat)
    requires n < |records|
    ensures forall id :: Listed(records[..n + 1], id) <==> Listed(records[..n], id) || id == records[n].orderId
  {
    var p, q := records[..n], records[..n + 1];
    assert q == p + [records[n]];
    forall id
      ensures Listed(q, id) <==> Listed(p, id) || id == records[n].orderId
    {
      if id == records[n].orderId {
        assert q[n].orderId == id;
      }
      if k :| 0 <= k < |p| && p[k].orderId == id {
        assert q[k].orderId == id;
      }
      if k :| 0 <= k < |q| && q[k].orderId == id {
        assert k == n || p[k].orderId == id;
      }
    }
  }

  lemma {:induction false} RestoreArrival(e: Engine, records: seq<OrderRecord>, n: nat, key: Name, side: OrderSide)
    requires Rebuilt(e, records, n) && n < |records| && DistinctIds(records) && OpenRecord(records[n])
    requires records[n].orderId !in e.orders && key in RestoreRecord(e, records[n]).books
    ensures ArrivesInOrder(Orders(RestoreRecord(e, records[n]).books[key], side), records, n + 1)
  {
    hide Agree, RestoreRecord, Pos, Add;
    var r := records[n];
    var request := RequestOf(r);
    var b := BookFor(e, request.instrument);
    RestoredBook(e, r);
    PosAt(records, n);
    if key == r.instrumentId {
      AddedOrders(b, request, r.orderId, r.clientOrderId, r.filledQuantity, side);
      assert key in e.books ==> ArrivesInOrder(Orders(e.books[key], side), records, n);
      NumberedBelow(e, request.instrument, side);
    } else {
      assert ArrivesInOrder(Orders(e.books[key], side), records, n);
    }
  }

  lemma {:induction false} NumberedBelow(e: Engine, instrument: Instrument, side: OrderSide)
    requires Agree(e, {})
    ensures var b := BookFor(e, instrument);
            forall o :: o in Orders(b, side) ==> o.sequence < b.nextSequence
  {
    var key := instrument.instrumentId;
    assert key in e.books ==> SideOk(e.books[key], side);
  }

  /** Restoring all open records in any order rebuilds the ledger, with arrival in that order. */
  lemma {:induction false} RestoreAllRebuilds(e: Engine, records: seq<OrderRecord>, n: nat)
    requires Rebuilt(e, records, n) && DistinctIds(records) && forall r :: r in records ==> OpenRecord(r)
    ensures Rebuilt(RestoreAll(e, records[n..]), records, |records|)
    decreases |records| - n
  {
    if n < |records| {
      assert records[n] in records;
      RestoreStep(e, records, n);
      RestoreAllRebuilds(RestoreRecord(e, records[n]), records, n + 1);
      assert records[n..][0] == records[n] && records[n..][1..] == records[n + 1..];
    } else {
      assert records[n..] == [];
    }
  }

  // ---------- The rebuilt books ----------

  /** An order resting in `e` rests in every engine that agrees and holds the same record for it, in the same shape. */
  lemma {:induction false} SameRecordSameShape(e: Engine, e': Engine, key: Name, side: OrderSide, o: RestingOrder)
    requires Agree(e, {}) && Agree(e', {})
    requires o in OrdersIn(e, key, side)
    requires o.orderId in e'.orders && e'.orders[o.orderId] == e.orders[o.orderId]
    ensures ShapeOf(o) in Shapes(OrdersIn(e', key, side))
  {
    var id := o.orderId;
    RestingRecordOf(e, key, side, o);
    hide Agree;
    var i := LocateOpen(e', id);
    var s := Orders(e'.books[key], side);
    assert ShapeOf(o) == ShapeOf(s[i]) == Shapes(s)[i];
  }

  lemma {:induction false} RestingRecordOf(e: Engine, key: Name, side: OrderSide, o: RestingOrder)
    requires Agree(e, {}) && o in OrdersIn(e, key, side)
    ensures o.orderId in e.orders && RecordOf(e.orders[o.orderId], o, key) && OpenId(e, o.orderId) &&
            e.orders[o.orderId].side == side
  {
    assert o in Orders(e.books[key], side);
    assert SideOk(e.books[key], side);
  }

  /** Orders of equal price come in the order of the list. */
  ghost predicate InListOrder(s: seq<RestingOrder>, records: seq<OrderRecord>) {
    forall i, j :: 0 <= i < j < |s| && Price(s[i]) == Price(s[j]) ==>
      Pos(records, s[i].orderId) < Pos(records, s[j].orderId)
  }

  lemma {:induction false} ShapesSorted(e: Engine, records: seq<OrderRecord>, key: Name, side: OrderSide)
    requires Agree(e, {})
    requires InListOrder(OrdersIn(e, key, side), records)
    ensures SortedShapes(side, records, Shapes(OrdersIn(e, key, side)))
  {
    var s := OrdersIn(e, key, side);
    var t := Shapes(s);
    assert key in e.books ==> SideOk(e.books[key], side);
    forall i, j | 0 <= i < j < |t|
      ensures Prior(side, records, t[i], t[j])
    {
      assert Before(side, s[i], s[j]);
      assert ShapePrice(t[i]) == Price(s[i]) && ShapePrice(t[j]) == Price(s[j]);
    }
  }

  /**
   Restoring the open records of an engine, those of equal price in arrival order, gives every book the
   same ids, sides, prices and remaining quantities in the same priority.
   */
  lemma {:induction false} RestoredBooksAreTheSame(e: Engine, records: seq<OrderRecord>, key: Name, side: OrderSide)
    requires Agree(e, {}) && ListsOpenOrders(e, records) && InArrivalOrder(e, records)
    ensures Shapes(OrdersIn(RestoreAll(EMPTY_ENGINE, records), key, side)) == Shapes(OrdersIn(e, key, side))
  {
    var e' := RestoreAll(EMPTY_ENGINE, records);
    RestoredAgrees(e, records);
    hide Agree, Rebuilt, RestoreAll, ListsOpenOrders, SortedShapes;
    var s, t := Shapes(OrdersIn(e, key, side)), Shapes(OrdersIn(e', key, side));
    assert InListOrder(OrdersIn(e, key, side), records);
    ShapesSorted(e, records, key, side);
    RestoredSorted(e', records, key, side);
    forall x
      ensures x in s <==> x in t
    {
      if x in s {
        RestingIsRestored(e, records, key, side, x);
      }
      if x in t {
        RestoredIsResting(e, records, key, side, x);
      }
    }
    SortedUnique(side, records, t, s);
  }

  lemma {:induction false} RestingIsRestored(e: Engine, records: seq<OrderRecord>, key: Name, side: OrderSide, x: Shape)
    requires Agree(e, {}) && ListsOpenOrders(e, records) && x in Shapes(OrdersIn(e, key, side))
    ensures x in Shapes(OrdersIn(RestoreAll(EMPTY_ENGINE, records), key, side))
  {
    var e' := RestoreAll(EMPTY_ENGINE, records);
    RestoredAgrees(e, records);
    hide Agree, RestoreAll, ListsOpenOrders, OrdersIn;
    var s := OrdersIn(e, key, side);
    var i :| 0 <= i < |s| && Shapes(s)[i] == x;
    RestingIsListed(e, records, key, side, s[i]);
    SameRecordSameShape(e, e', key, side, s[i]);
  }

  lemma {:induction false} RestoredIsResting(e: Engine, records: seq<OrderRecord>, key: Name, side: OrderSide, x: Shape)
    requires Agree(e, {}) && ListsOpenOrders(e, records) &&
             x in Shapes(OrdersIn(RestoreAll(EMPTY_ENGINE, records), key, side))
    ensures x in Shapes(OrdersIn(e, key, side))
  {
    var e' := RestoreAll(EMPTY_ENGINE, records);
    RestoredAgrees(e, records);
    hide Agree, RestoreAll, ListsOpenOrders, OrdersIn, Rebuilt;
    var t := OrdersIn(e', key, side);
    var i :| 0 <= i < |t| && Shapes(t)[i] == x;
    RestoredIsKnown(e, e', records, key, side, t[i]);
    SameRecordSameShape(e', e, key, side, t[i]);
  }

  lemma {:induction false} RestoredAgrees(e: Engine, records: seq<OrderRecord>)
    requires Agree(e, {}) && ListsOpenOrders(e, records)
    ensures var e' := RestoreAll(EMPTY_ENGINE, records);
            Rebuilt(e', records, |records|) && Agree(e', {})
  {
    hide RestoreAll;
    RestoredEngine(e, records);
  }

  lemma {:induction false} RestoredEngine(e: Engine, records: seq<OrderRecord>)
    requires Agree(e, {}) && ListsOpenOrders(e, records)
    ensures Rebuilt(RestoreAll(EMPTY_ENGINE, records), records, |records|)
  {
    forall r | r in records
      ensures OpenRecord(r)
    {
      var k :| 0 <= k < |records| && records[k] == r;
      assert Listed(records, r.orderId);
      OpenRecords(e, r.orderId);
    }
    assert Rebuilt(EMPTY_ENGINE, records, 0);
    RestoreAllRebuilds(EMPTY_ENGINE, records, 0);
    assert records[0..] == records;
  }

  lemma {:induction false} RestoredSorted(e': Engine, records: seq<OrderRecord>, key: Name, side: OrderSide)
    requires Rebuilt(e', records, |records|)
    ensures SortedShapes(side, records, Shapes(OrdersIn(e', key, side)))
  {
    var s := OrdersIn(e', key, side);
    assert key in e'.books ==>
           SideOk(e'.books[key], side) && ArrivesInOrder(Orders(e'.books[key], side), records, |records|);
    forall i, j | 0 <= i < j < |s| && Price(s[i]) == Price(s[j])
      ensures Pos(records, s[i].orderId) < Pos(records, s[j].orderId)
    {
      assert Before(side, s[i], s[j]);
      assert s[i] in s && s[j] in s;
    }
    ShapesSorted(e', records, key, side);
  }

  lemma {:induction false} RestingIsListed(e: Engine, records: seq<OrderRecord>, key: Name, side: OrderSide,
                                           o: RestingOrder)
    requires Agree(e, {}) && ListsOpenOrders(e, records) && o in OrdersIn(e, key, side)
    ensures var e' := RestoreAll(EMPTY_ENGINE, records);
            o.orderId in e'.orders && e'.orders[o.orderId] == e.orders[o.orderId]
  {
    RestoredEngine(e, records);
    assert o in Orders(e.books[key], side) && RecordOf(e.orders[o.orderId], o, key);
    assert Listed(records, o.orderId);
    var k :| 0 <= k < |records| && records[k].orderId == o.orderId;
    assert records[k] in records;
  }

  lemma {:induction false} RestoredIsKnown(e: Engine, e': Engine, records: seq<OrderRecord>, key: Name, side: OrderSide,
                                           o: RestingOrder)
    requires ListsOpenOrders(e, records) && Rebuilt(e', records, |records|) && o in OrdersIn(e', key, side)
    ensures o.orderId in e.orders && o.orderId in e'.orders && e'.orders[o.orderId] == e.orders[o.orderId]
  {
    assert o in Orders(e'.books[key], side) && RecordOf(e'.orders[o.orderId], o, key);
    assert records[..|records|] == records;
    assert Listed(records, o.orderId);
    var k :| 0 <= k < |records| && records[k].orderId == o.orderId;
    assert records[k] in records;
  }

  // ---------- Market events after recovery ----------

  /** Both engines rest the same orders, as far as external levels can tell. */
  ghost predicate Alike(e: Engine, e': Engine) {
    forall key, side :: Shapes(OrdersIn(e, key, side)) == Shapes(OrdersIn(e', key, side))
  }

  /** What of a fill must agree: order, side, price and quantity. */
  datatype FillView = FillView(orderId: Name, side: OrderSide, price: real, quantity: real)

  function ViewOf(f: FillEvent): FillView {
    FillView(f.orderId, f.side, f.price, f.quantity)
  }

  function Views(fills: seq<FillEvent>): seq<FillView> {
    if fills == [] then [] else [ViewOf(fills[0])] + Views(fills[1..])
  }

  lemma {:induction false} ViewsConcat(a: seq<FillEvent>, b: seq<FillEvent>)
    ensures Views(a + b) == Views(a) + Views(b)
  {
    if a == [] {
      assert a + b == b;
    } else {
      assert (a + b)[1..] == a[1..] + b;
      ViewsConcat(a[1..], b);
    }
  }

  lemma {:induction false} ShapesTail(s: seq<RestingOrder>, t: seq<RestingOrder>)
    requires Shapes(s) == Shapes(t) && s != []
    ensures t != [] && ShapeOf(s[0]) == ShapeOf(t[0]) && Shapes(s[1..]) == Shapes(t[1..])
  {
    assert |Shapes(s)| == |Shapes(t)| && Shapes(s)[0] == Shapes(t)[0];
    forall i | 0 <= i < |s| - 1
      ensures Shapes(s[1..])[i] == Shapes(t[1..])[i]
    {
      assert Shapes(s)[i + 1] == Shapes(t)[i + 1];
    }
  }

  lemma {:induction false} ShapesConcat(r: seq<RestingOrder>, r': seq<RestingOrder>, s: seq<RestingOrder>,
                                        t: seq<RestingOrder>)
    requires Shapes(s) == Shapes(t) && Shapes(r) == Shapes(r')
    ensures Shapes(r + s) == Shapes(r' + t)
  {
    assert Shapes(r + s) == Shapes(r) + Shapes(s);
    assert Shapes(r' + t) == Shapes(r') + Shapes(t);
  }

  lemma {:induction false} ResidueShapes(o: RestingOrder, o': RestingOrder, quantity: real)
    requires ShapeOf(o) == ShapeOf(o')
    ensures Shapes(Residue(o, quantity)) == Shapes(Residue(o', quantity))
    ensures Residue(o, quantity) == [] <==> Residue(o', quantity) == []
  {
  }

  /** A walk sees shapes only. */
  lemma {:induction false} WalkAlike(taker: Taker, s: seq<RestingOrder>, t: seq<RestingOrder>, quantity: real, n: nat,
                                     n': nat)
    requires taker.External? && Shapes(s) == Shapes(t)
    ensures var v, w := Walk(taker, s, quantity), Walk(taker, t, quantity);
            Shapes(v.left) == Shapes(w.left) &&
              Views(FillsOf(taker, v.trades, n)) == Views(FillsOf(taker, w.trades, n'))
  {
    WalkStep(taker, s, quantity);
    WalkStep(taker, t, quantity);
    hide Walk, Views, FillsOf, Residue;
    NoViews(taker, n, n');
    NoViews(taker, n + 1, n' + 1);
    if s != [] {
      ShapesTail(s, t);
      if quantity > TOLERANCE && Executable(taker, s[0]) {
        var executed := Min(quantity, s[0].remaining);
        var rest := Max(0.0, quantity - executed);
        var a, b := Trade(s[0], executed), Trade(t[0], executed);
        ResidueShapes(s[0], t[0], executed);
        if Residue(s[0], executed) == [] {
          WalkAlike(taker, s[1..], t[1..], rest, n + 1, n' + 1);
          TradeViews(taker, a, b, Walk(taker, s[1..], rest).trades, Walk(taker, t[1..], rest).trades, n, n');
        } else {
          TradeViews(taker, a, b, [], [], n, n');
          assert [a] + [] == [a] && [b] + [] == [b];
          ShapesConcat(Residue(s[0], executed), Residue(t[0], executed), s[1..], t[1..]);
        }
      }
    } else {
      assert |Shapes(t)| == 0;
    }
  }

  lemma {:induction false} NoViews(taker: Taker, n: nat, n': nat)
    ensures Views(FillsOf(taker, [], n)) == Views(FillsOf(taker, [], n'))
  {
  }

  lemma {:induction false} TradeViews(taker: Taker, a: Trade, b: Trade, v: seq<Trade>, w: seq<Trade>, n: nat, n': nat)
    requires taker.External? && ShapeOf(a.resting) == ShapeOf(b.resting) && a.quantity == b.quantity
    requires Views(FillsOf(taker, v, n + 1)) == Views(FillsOf(taker, w, n' + 1))
    ensures Views(FillsOf(taker, [a] + v, n)) == Views(FillsOf(taker, [b] + w, n'))
  {
    assert ([a] + v)[1..] == v && ([b] + w)[1..] == w;
    var f, g := FillsOf(taker, [a] + v, n), FillsOf(taker, [b] + w, n');
    assert f[1..] == FillsOf(taker, v, n + 1) && g[1..] == FillsOf(taker, w, n' + 1);
  }

  lemma {:induction false} MatchChanges(e: Engine, key: Name, side: OrderSide, taker: Taker, quantity: real, key': Name,
                                        side': OrderSide)
    requires key in e.books
    ensures var (e1, sweep) := Match(e, key, side, taker, quantity);
            && key in e1.books
            && sweep == Walk(taker, OrdersIn(e, key, side), quantity)
            && OrdersIn(e1, key', side') == if key' == key &&
              side' == side then sweep.left else OrdersIn(e, key', side')
  {
  }

  lemma {:induction false} MatchAlike(e: Engine, e': Engine, key: Name, side: OrderSide, taker: Taker, quantity: real)
    requires Alike(e, e') && key in e.books && key in e'.books && taker.External?
    ensures var (e1, sweep) := Match(e, key, side, taker, quantity);
            var (e1', sweep') := Match(e', key, side, taker, quantity);
            && key in e1.books && key in e1'.books
            && Alike(e1, e1')
            && Views(FillsOf(taker, sweep.trades, e.nextFillId)) == Views(FillsOf(taker, sweep'.trades, e'.nextFillId))
  {
    hide Match;
    var (e1, sweep) := Match(e, key, side, taker, quantity);
    var (e1', sweep') := Match(e', key, side, taker, quantity);
    assert Shapes(OrdersIn(e, key, side)) == Shapes(OrdersIn(e', key, side));
    WalkAlike(taker, OrdersIn(e, key, side), OrdersIn(e', key, side), quantity, e.nextFillId, e'.nextFillId);
    forall k, d
      ensures Shapes(OrdersIn(e1, k, d)) == Shapes(OrdersIn(e1', k, d))
    {
      MatchChanges(e, key, side, taker, quantity, k, d);
      MatchChanges(e', key, side, taker, quantity, k, d);
    }
    MatchChanges(e, key, side, taker, quantity, key, side);
    MatchChanges(e', key, side, taker, quantity, key, side);
  }

  lemma {:induction false} MatchLevelsAlike(e: Engine, e': Engine, key: Name, side: OrderSide, instrument: Instrument,
                                            levels: seq<BookLevel>)
    requires Alike(e, e') && key in e.books && key in e'.books
    ensures var m, m' := MatchLevels(e, key, side, instrument, levels), MatchLevels(e', key, side, instrument, levels);
            Alike(m.0, m'.0) && Views(m.1) == Views(m'.1)
    decreases |levels|
  {
    if levels != [] {
      var taker := External(instrument, levels[0].price);
      var (e1, sweep) := Match(e, key, side, taker, levels[0].quantity);
      var (e1', sweep') := Match(e', key, side, taker, levels[0].quantity);
      MatchAlike(e, e', key, side, taker, levels[0].quantity);
      hide Match, Alike;
      MatchLevelsAlike(e1, e1', key, side, instrument, levels[1..]);
      ViewsConcat(FillsOf(taker, sweep.trades, e.nextFillId), MatchLevels(e1, key, side, instrument, levels[1..]).1);
      ViewsConcat(FillsOf(taker, sweep'.trades, e'.nextFillId), MatchLevels(e1', key, side, instrument, levels[1..]).1);
    }
  }

  /** A side without orders yields no fills. */
  lemma {:induction false} NothingToMatch(e: Engine, key: Name, side: OrderSide, instrument: Instrument,
                                          levels: seq<BookLevel>)
    requires key in e.books && Orders(e.books[key], side) == []
    ensures MatchLevels(e, key, side, instrument, levels) == (e, [])
    decreases |levels|
  {
    if levels != [] {
      var taker := External(instrument, levels[0].price);
      MatchStops(e, key, side, taker, levels[0].quantity);
      var m := Match(e, key, side, taker, levels[0].quantity);
      assert m.0 == e && m.1.trades == [];
      NothingToMatch(e, key, side, instrument, levels[1..]);
      assert MatchLevels(m.0, key, side, instrument, levels[1..]) == (e, []);
      assert MatchLevels(e, key, side, instrument, levels).0 == e;
      assert MatchLevels(e, key, side, instrument, levels).1 == [];
    }
  }

  lemma {:induction false} EmptyBookEvent(e: Engine, instrument: Instrument, bidLevels: seq<BookLevel>,
                                          askLevels: seq<BookLevel>)
    requires OrdersIn(e, instrument.instrumentId, Buy) == [] && OrdersIn(e, instrument.instrumentId, Sell) == []
    ensures MarketEvent(e, instrument, bidLevels, askLevels).0 == e
    ensures MarketEvent(e, instrument, bidLevels, askLevels).1.fills == []
  {
    var key := instrument.instrumentId;
    if key in e.books {
      NothingToMatch(e, key, Buy, instrument, askLevels);
      NothingToMatch(e, key, Sell, instrument, bidLevels);
    }
  }

  lemma {:induction false} MarketEventAlike(e: Engine, e': Engine, instrument: Instrument, bidLevels: seq<BookLevel>,
                                            askLevels: seq<BookLevel>)
    requires Alike(e, e')
    ensures var m, m' := MarketEvent(e, instrument, bidLevels, askLevels),
            MarketEvent(e', instrument, bidLevels, askLevels);
            Alike(m.0, m'.0) && Views(m.1.fills) == Views(m'.1.fills)
  {
    var key := instrument.instrumentId;
    if key in e.books && key in e'.books {
      hide Alike;
      var (e1, fills1) := MatchLevels(e, key, Buy, instrument, askLevels);
      var (e1', fills1') := MatchLevels(e', key, Buy, instrument, askLevels);
      MatchLevelsAlike(e, e', key, Buy, instrument, askLevels);
      MatchLevelsAlike(e1, e1', key, Sell, instrument, bidLevels);
      hide MatchLevels;
      ViewsConcat(fills1, MatchLevels(e1, key, Sell, instrument, bidLevels).1);
      ViewsConcat(fills1', MatchLevels(e1', key, Sell, instrument, bidLevels).1);
    } else {
      forall d
        ensures OrdersIn(e, key, d) == [] && OrdersIn(e', key, d) == []
      {
        assert |Shapes(OrdersIn(e, key, d))| == |Shapes(OrdersIn(e', key, d))|;
      }
      EmptyBookEvent(e, instrument, bidLevels, askLevels);
      EmptyBookEvent(e', instrument, bidLevels, askLevels);
    }
  }

  datatype Quote = Quote(instrument: Instrument, bidLevels: seq<BookLevel>, askLevels: seq<BookLevel>)

  /** The fills of a sequence of market events, in order. */
  function EventFills(e: Engine, quotes: seq<Quote>): seq<FillEvent>
    decreases |quotes|
  {
    if quotes == [] then []
    else
      var (e1, result) := MarketEvent(e, quotes[0].instrument, quotes[0].bidLevels, quotes[0].askLevels);
      result.fills + EventFills(e1, quotes[1..])
  }

  lemma {:induction false} EventsAlike(e: Engine, e': Engine, quotes: seq<Quote>)
    requires Alike(e, e')
    ensures Views(EventFills(e, quotes)) == Views(EventFills(e', quotes))
    decreases |quotes|
  {
    if quotes != [] {
      hide Alike, MarketEvent;
      var q := quotes[0];
      var (e1, r) := MarketEvent(e, q.instrument, q.bidLevels, q.askLevels);
      var (e1', r') := MarketEvent(e', q.instrument, q.bidLevels, q.askLevels);
      assert EventFills(e, quotes) == r.fills + EventFills(e1, quotes[1..]);
      assert EventFills(e', quotes) == r'.fills + EventFills(e1', quotes[1..]);
      MarketEventAlike(e, e', q.instrument, q.bidLevels, q.askLevels);
      EventsAlike(e1, e1', quotes[1..]);
      ViewsConcat(r.fills, EventFills(e1, quotes[1..]));
      ViewsConcat(r'.fills, EventFills(e1', quotes[1..]));
    }
  }

  /**
   After restoring an engine's open records into an empty one, those of equal price in arrival order, every
   later sequence of market events fills the same orders at the same prices with the same quantities.
   */
  lemma {:induction false} RestoredEngineTradesAlike(e: Engine, records: seq<OrderRecord>, quotes: seq<Quote>)
    requires Agree(e, {}) && ListsOpenOrders(e, records) && InArrivalOrder(e, records)
    ensures Views(EventFills(RestoreAll(EMPTY_ENGINE, records), quotes)) == Views(EventFills(e, quotes))
  {
    var e' := RestoreAll(EMPTY_ENGINE, records);
    forall key, side
      ensures Shapes(OrdersIn(e', key, side)) == Shapes(OrdersIn(e, key, side))
    {
      RestoredBooksAreTheSame(e, records, key, side);
    }
    EventsAlike(e', e, quotes);
  }
}
