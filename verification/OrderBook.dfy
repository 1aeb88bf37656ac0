/**
 The order book as the program keeps it: two ordered maps of price levels with FIFO queues,
 an index from order id to side and price, and a counter.  Every operation is proved to
 refine the corresponding operation on the priority lists of BookModel.dfy.
 */
module OrderBooks {
  import opened Types
  import opened BookModel
  import opened BookLaws
  import opened Levels

  datatype Locator = Locator(side: OrderSide, price: real)

  lemma {:induction false} InsertInThree(side: OrderSide, pre: seq<RestingOrder>, queue: seq<RestingOrder>,
                                         post: seq<RestingOrder>, o: RestingOrder)
    requires AllBetter(side, pre, Price(o)) && AllWorse(side, post, Price(o))
    requires forall x :: x in queue ==> Price(x) == Price(o)
    ensures Insert(side, pre + queue + post, o) == pre + (queue + [o]) + post
  {
    assert post != [] ==> post[0] in post;
    forall x | x in pre + queue
      ensures !Better(side, Price(o), Price(x))
    {
      assert x in pre || x in queue;
    }
    InsertAt(side, pre + queue, post, o);
    assert pre + queue + [o] == pre + (queue + [o]);
  }

  /** Appending to the queue of an order's price is insertion by price-time priority. */
  lemma {:induction false} PushRefines(side: OrderSide, levels: LevelMap, o: RestingOrder)
    requires Shaped(side, levels)
    ensures Shaped(side, Push(side, levels, Price(o), o))
    ensures Flat(Push(side, levels, Price(o), o)) == Insert(side, Flat(levels), o)
  {
    var p := Price(o);
    var queue := Queue(side, levels, p);
    SplicePrices(side, levels, p);
    StoreSplices(side, levels, p, queue + [o]);
    StoreShaped(side, levels, p, queue + [o]);
    InsertInThree(side, Flat(levels[..LowerBound(side, levels, p)]), queue, Flat(Behind(side, levels, p)), o);
  }

  function Push(side: OrderSide, levels: LevelMap, p: real, o: RestingOrder): LevelMap {
    Store(side, levels, p, Queue(side, levels, p) + [o])
  }

  lemma {:induction false} SpliceEdit(pre: seq<RestingOrder>, queue: seq<RestingOrder>, post: seq<RestingOrder>, j: nat,
                                      r: seq<RestingOrder>)
    requires Distinct(pre + queue + post) && j < |queue|
    ensures Replace(pre + queue + post, queue[j].orderId, r) == pre + (queue[..j] + r + queue[j + 1..]) + post
    ensures Lookup(pre + queue + post, queue[j].orderId) == Some(queue[j])
  {
    var flat := pre + queue + post;
    var k := |pre| + j;
    assert flat[k] == queue[j];
    FirstOccurrence(flat, k, r);
    assert flat[..k] == pre + queue[..j] && flat[k + 1..] == queue[j + 1..] + post;
  }

  /** Replacing the order at position `j` of a queue replaces the order with its id in the list. */
  lemma {:induction false} EditRefines(side: OrderSide, levels: LevelMap, p: real, j: nat, r: seq<RestingOrder>)
    requires Shaped(side, levels) && Distinct(Flat(levels)) && j < |Queue(side, levels, p)|
    requires forall x :: x in r ==> Price(x) == p
    ensures var queue := Queue(side, levels, p);
            var levels' := Store(side, levels, p, queue[..j] + r + queue[j + 1..]);
            && Shaped(side, levels')
            && Flat(levels') == Replace(Flat(levels), queue[j].orderId, r)
            && Lookup(Flat(levels), queue[j].orderId) == Some(queue[j])
  {
    hide Flat, Distinct, Replace, Lookup, LowerBound, Behind;
    var queue := Queue(side, levels, p);
    var queue' := queue[..j] + r + queue[j + 1..];
    SplicePrices(side, levels, p);
    StoreSplices(side, levels, p, queue');
    StoreShaped(side, levels, p, queue');
    SpliceEdit(Flat(levels[..LowerBound(side, levels, p)]), queue, Flat(Behind(side, levels, p)), j, r);
  }

  /** An order is queued under its price. */
  lemma {:induction false} QueuedUnderPrice(side: OrderSide, levels: LevelMap, o: RestingOrder)
    requires Shaped(side, levels) && o in Flat(levels)
    ensures Contains(side, levels, Price(o)) && o in Queue(side, levels, Price(o))
  {
    SplicePrices(side, levels, Price(o));
    StoreSplices(side, levels, Price(o), []);
  }

  /** Each resting order is indexed under its side and price, and nothing else is indexed. */
  ghost predicate Indexes(index: map<Name, Locator>, b: Book) {
    && (forall side, o :: o in Orders(b, side) ==>
          o.orderId in index && index[o.orderId] == Locator(side, Price(o)))
    && (forall id :: id in index ==> Known(b, id))
  }

  lemma {:induction false} AddIndexes(index: map<Name, Locator>, b: Book, request: OrderRequest, id: Name,
                                      clientId: Name, filled: real)
    requires Indexes(index, b) && Compatible(b, request, id, clientId, filled)
    ensures var b' := Add(b, request, id, clientId, filled).0;
            && Indexes(index[id := Locator(request.side, request.price.value)], b')
            && |b'.bids| + |b'.asks| == |b.bids| + |b.asks| + 1
  {
    hide Insert;
    var o := RestingOrder(id, clientId, request, Max(0.0, request.quantity - filled), b.nextSequence);
    var b' := Add(b, request, id, clientId, filled).0;
    InsertMembers(request.side, Orders(b, request.side), o);
    KnownIs(b, id);
    var index' := index[id := Locator(request.side, request.price.value)];
    assert o in Orders(b', request.side) && Orders(b', Opposite(request.side)) == Orders(b, Opposite(request.side));
    hide Add, Known, Compatible;
    forall side, x | x in Orders(b', side)
      ensures x.orderId in index' && index'[x.orderId] == Locator(side, Price(x))
    {
      assert x in Orders(b, side) || (x == o && side == request.side);
    }
    forall x | x in index'
      ensures Known(b', x)
    {
      KnownIs(b, x);
      KnownIs(b', x);
      assert o in Orders(b', request.side);
    }
  }

  /** Level maps, index and counter that stand for the reference book `b`. */
  ghost predicate Represents(bids: LevelMap, asks: LevelMap, index: map<Name, Locator>, count: nat, b: Book) {
    match b
    case Book(_, buys, sells, _) =>
      && Shaped(Buy, bids) && Flat(bids) == buys
      && Shaped(Sell, asks) && Flat(asks) == sells
      && Indexes(index, b)
      && count == |buys| + |sells|
      && BookOk(b)
  }

  lemma {:induction false} AddRepresents(bids: LevelMap, asks: LevelMap, index: map<Name, Locator>, count: nat, b: Book,
                                         request: OrderRequest, id: Name, clientId: Name, filled: real)
    requires Represents(bids, asks, index, count, b) && Compatible(b, request, id, clientId, filled)
    ensures var o := RestingOrder(id, clientId, request, Max(0.0, request.quantity - filled), b.nextSequence);
            var p := request.price.value;
            Represents(if request.side == Buy then Push(Buy, bids, p, o) else bids,
                       if request.side == Sell then Push(Sell, asks, p, o) else asks,
                       index[id := Locator(request.side, p)], count + 1,
                       Add(b, request, id, clientId, filled).0)
  {
    hide Push, Insert, Shaped, Flat, Indexes, BookOk;
    var o := RestingOrder(id, clientId, request, Max(0.0, request.quantity - filled), b.nextSequence);
    PushRefines(request.side, if request.side == Buy then bids else asks, o);
    AddKeepsBook(b, request, id, clientId, filled);
    AddIndexes(index, b, request, id, clientId, filled);
  }

  lemma {:induction false} AddCounts(b: Book, request: OrderRequest, id: Name, clientId: Name, filled: real)
    ensures var (b', added) := Add(b, request, id, clientId, filled);
            && added == Compatible(b, request, id, clientId, filled)
            && (added ==> request.price.Some? && b'.instrument == b.instrument && b'.nextSequence == b.nextSequence + 1)
            && (!added ==> b' == b)
  {
    hide Insert;
  }

  lemma {:induction false} RepresentedView(bids: LevelMap, asks: LevelMap, index: map<Name, Locator>, count: nat,
                                           b: Book)
    requires Represents(bids, asks, index, count, b)
    ensures b == Book(b.instrument, Flat(bids), Flat(asks), b.nextSequence)
  {
  }

  /** The locator of an indexed order leads to the queue that holds it. */
  lemma {:induction false} Located(bids: LevelMap, asks: LevelMap, index: map<Name, Locator>, count: nat, b: Book,
                                   id: Name)
    requires Represents(bids, asks, index, count, b)
    ensures id in index <==> Known(b, id)
    ensures id in index ==>
              var Locator(side, p) := index[id];
              var levels := if side.Buy? then bids else asks;
              && Contains(side, levels, p)
              && HasId(Queue(side, levels, p), id)
              && HasId(Orders(b, side), id)
              && !HasId(Orders(b, Opposite(side)), id)
  {
    KnownIs(b, id);
    if id in index {
      var side := if HasId(b.bids, id) then Buy else Sell;
      var i := IndexOf(Orders(b, side), id);
      var o := Orders(b, side)[i];
      assert o in Orders(b, side);
      QueuedUnderPrice(side, if side.Buy? then bids else asks, o);
    }
  }

  /** Edits one queue of the side that the locator names. */
  function EditSide(side: OrderSide, loc: Locator, levels: LevelMap, queue: seq<RestingOrder>): LevelMap {
    if loc.side == side then Store(side, levels, loc.price, queue) else levels
  }

  function QueueAt(bids: LevelMap, asks: LevelMap, loc: Locator): seq<RestingOrder> {
    Queue(loc.side, if loc.side.Buy? then bids else asks, loc.price)
  }

  /** The index leads from `id` to position `j` of `queue`. */
  ghost predicate LeadsTo(bids: LevelMap, asks: LevelMap, index: map<Name, Locator>, id: Name, loc: Locator,
                          queue: seq<RestingOrder>, j: nat) {
    && id in index && loc == index[id]
    && queue == QueueAt(bids, asks, loc)
    && j < |queue| && queue[j].orderId == id
  }

  lemma {:induction false} EditSides(bids: LevelMap, asks: LevelMap, index: map<Name, Locator>, count: nat, b: Book,
                                     id: Name, loc: Locator, queue: seq<RestingOrder>, j: nat, r: seq<RestingOrder>)
    requires Represents(bids, asks, index, count, b) && LeadsTo(bids, asks, index, id, loc, queue, j)
    requires forall x :: x in r ==> Price(x) == loc.price
    ensures var bids', asks' := EditSide(Buy, loc, bids, Cut(queue, j, r)), EditSide(Sell, loc, asks, Cut(queue, j, r));
            && Shaped(Buy, bids') && Shaped(Sell, asks')
            && Flat(bids') == (if loc.side.Buy? then Replace(b.bids, id, r) else b.bids)
            && Flat(asks') == (if loc.side.Sell? then Replace(b.asks, id, r) else b.asks)
            && Lookup(Orders(b, loc.side), id) == Some(queue[j])
  {
    hide Represents, Shaped, Flat, Store, Queue, Replace, Lookup, Distinct;
    RepresentsSides(bids, asks, index, count, b);
    if loc.side.Buy? {
      EditRefines(Buy, bids, loc.price, j, r);
    } else {
      EditRefines(Sell, asks, loc.price, j, r);
    }
  }

  lemma {:induction false} RepresentsSides(bids: LevelMap, asks: LevelMap, index: map<Name, Locator>, count: nat,
                                           b: Book)
    requires Represents(bids, asks, index, count, b)
    ensures Shaped(Buy, bids) && Flat(bids) == b.bids && Distinct(b.bids)
    ensures Shaped(Sell, asks) && Flat(asks) == b.asks && Distinct(b.asks)
  {
    assert SideOk(b, Buy) && SideOk(b, Sell);
  }

  lemma {:induction false} FindsIt(bids: LevelMap, asks: LevelMap, index: map<Name, Locator>, count: nat, b: Book,
                                   id: Name, loc: Locator, queue: seq<RestingOrder>, j: nat)
    requires Represents(bids, asks, index, count, b) && LeadsTo(bids, asks, index, id, loc, queue, j)
    ensures Find(b, id) == Some(queue[j])
    ensures HasId(b.bids, id) == loc.side.Buy?
    ensures HasId(b.asks, id) == loc.side.Sell?
  {
    Located(bids, asks, index, count, b, id);
    EditSides(bids, asks, index, count, b, id, loc, queue, j, []);
  }

  lemma {:induction false} CancelRepresents(bids: LevelMap, asks: LevelMap, index: map<Name, Locator>, count: nat,
                                            b: Book,
                                            id: Name, loc: Locator, queue: seq<RestingOrder>, j: nat)
    requires Represents(bids, asks, index, count, b) && LeadsTo(bids, asks, index, id, loc, queue, j)
    ensures count > 0 && Cancel(b, id).1
    ensures Represents(EditSide(Buy, loc, bids, Cut(queue, j, [])), EditSide(Sell, loc, asks, Cut(queue, j, [])),
                       index - {id}, count - 1, Cancel(b, id).0)
  {
    hide Indexes, BookOk, Shaped, FirstAt, Flat, EditSide, Replace, Lookup, LeadsTo;
    FindsIt(bids, asks, index, count, b, id, loc, queue, j);
    var i := IndexOf(Orders(b, loc.side), id);
    CancelIs(b, loc.side, i);
    FirstOccurrence(Orders(b, loc.side), i, []);
    EditSides(bids, asks, index, count, b, id, loc, queue, j, []);
    UnindexCancelled(index, b, Cancel(b, id).0, id);
  }

  lemma {:induction false} UnindexCancelled(index: map<Name, Locator>, b: Book, b': Book, id: Name)
    requires Indexes(index, b)
    requires forall side, x :: x in Orders(b', side) <==> x in Orders(b, side) && x.orderId != id
    ensures Indexes(index - {id}, b')
  {
    forall x | x in index - {id}
      ensures Known(b', x)
    {
      KnownIs(b, x);
      KnownIs(b', x);
      var o :| (o in b.bids || o in b.asks) && o.orderId == x;
      assert o in Orders(b', if o in b.bids then Buy else Sell);
    }
  }

  /** A partial fill leaves index and counter alone. */
  lemma {:induction false} ShrinkRepresents(bids: LevelMap, asks: LevelMap, index: map<Name, Locator>, count: nat,
                                            b: Book,
                                            id: Name, loc: Locator, queue: seq<RestingOrder>, j: nat, quantity: real)
    requires Represents(bids, asks, index, count, b) && LeadsTo(bids, asks, index, id, loc, queue, j)
    requires TOLERANCE < quantity <= queue[j].remaining + TOLERANCE && Residue(queue[j], quantity) != []
    ensures Fill(b, id, quantity).1
    ensures var r := Residue(queue[j], quantity);
            Represents(EditSide(Buy, loc, bids, Cut(queue, j, r)), EditSide(Sell, loc, asks, Cut(queue, j, r)),
                       index, count, Fill(b, id, quantity).0)
  {
    hide Indexes, BookOk, Shaped, FirstAt, Flat, EditSide, Replace, Queue;
    var r := Residue(queue[j], quantity);
    FindsIt(bids, asks, index, count, b, id, loc, queue, j);
    var i := IndexOf(Orders(b, loc.side), id);
    FirstOccurrence(Orders(b, loc.side), i, r);
    assert Orders(b, loc.side)[i] == queue[j];
    FillIs(b, loc.side, i, quantity);
    assert Price(queue[j]) == loc.price by {
      SplicePrices(loc.side, if loc.side.Buy? then bids else asks, loc.price);
      assert queue[j] in queue;
    }
    EditSides(bids, asks, index, count, b, id, loc, queue, j, r);
    ReindexReduced(index, b, loc.side, i, r);
  }

  /** A fill that leaves at most the tolerance is a cancellation. */
  lemma {:induction false} FullFillIsCancel(bids: LevelMap, asks: LevelMap, index: map<Name, Locator>, count: nat,
                                            b: Book,
                                            id: Name, loc: Locator, queue: seq<RestingOrder>, j: nat, quantity: real)
    requires Represents(bids, asks, index, count, b) && LeadsTo(bids, asks, index, id, loc, queue, j)
    requires TOLERANCE < quantity <= queue[j].remaining + TOLERANCE && Residue(queue[j], quantity) == []
    ensures Fill(b, id, quantity) == Cancel(b, id) && Cancel(b, id).1
  {
    FindsIt(bids, asks, index, count, b, id, loc, queue, j);
  }

  lemma {:induction false} ReindexReduced(index: map<Name, Locator>, b: Book, side: OrderSide, i: nat,
                                          r: seq<RestingOrder>)
    requires Indexes(index, b) && i < |Orders(b, side)|
    requires |r| == 1 && r[0] == Orders(b, side)[i].(remaining := r[0].remaining)
    ensures Indexes(index, WithOrders(b, side, Cut(Orders(b, side), i, r)))
  {
    hide Cut, Known;
    var b' := WithOrders(b, side, Cut(Orders(b, side), i, r));
    forall side', x | x in Orders(b', side')
      ensures x.orderId in index && index[x.orderId] == Locator(side', Price(x))
    {
      ReducedOrder(b, side, i, r, side', x);
    }
    forall x | x in index
      ensures Known(b', x)
    {
      ReducedKnown(b, side, i, r, x);
    }
  }

  /** Every order of the reduced book stands for one of the book before, at the same side and price. */
  lemma {:induction false} ReducedOrder(b: Book, side: OrderSide, i: nat, r: seq<RestingOrder>, side': OrderSide,
                                        x: RestingOrder)
    requires i < |Orders(b, side)| && |r| == 1 && r[0] == Orders(b, side)[i].(remaining := r[0].remaining)
    requires x in Orders(WithOrders(b, side, Cut(Orders(b, side), i, r)), side')
    ensures exists y :: y in Orders(b, side') && y.orderId == x.orderId && Price(y) == Price(x)
  {
    var s := Orders(b, side);
    if side' == side {
      assert s[i] in s && (x in s || x == r[0]);
    }
  }

  lemma {:induction false} ReducedKnown(b: Book, side: OrderSide, i: nat, r: seq<RestingOrder>, id: Name)
    requires i < |Orders(b, side)| && |r| == 1 && r[0] == Orders(b, side)[i].(remaining := r[0].remaining) &&
             Known(b, id)
    ensures Known(WithOrders(b, side, Cut(Orders(b, side), i, r)), id)
  {
    hide Cut, HasId;
    if HasId(Orders(b, side), id) {
      ReducedIds(Orders(b, side), i, r, id);
    }
  }

  lemma {:induction false} ReducedIds(s: seq<RestingOrder>, i: nat, r: seq<RestingOrder>, id: Name)
    requires i < |s| && |r| == 1 && r[0].orderId == s[i].orderId && HasId(s, id)
    ensures HasId(Cut(s, i, r), id)
  {
    var k :| 0 <= k < |s| && s[k].orderId == id;
    assert Cut(s, i, r)[k].orderId == id;
  }

  function Total(queue: seq<RestingOrder>): real {
    if queue == [] then 0.0 else queue[0].remaining + Total(queue[1..])
  }

  /** A queue of equal prices in front of other prices is one depth level. */
  lemma {:induction false} DepthOfQueue(p: real, queue: seq<RestingOrder>, rest: seq<RestingOrder>)
    requires queue != [] && forall o :: o in queue ==> Price(o) == p
    requires rest != [] ==> Price(rest[0]) != p
    ensures Depth(queue + rest) == [DepthLevel(p, Total(queue), |queue|)] + Depth(rest)
  {
    assert queue[0] in queue;
    assert (queue + rest)[1..] == queue[1..] + rest;
    if |queue| == 1 {
      assert queue[1..] + rest == rest;
    } else {
      DepthOfQueue(p, queue[1..], rest);
    }
  }

  /** The depth of the flat list is read off the stored levels one by one. */
  lemma {:induction false} DepthOfLevels(side: OrderSide, levels: LevelMap)
    requires Shaped(side, levels)
    ensures |Depth(Flat(levels))| == |levels|
    ensures forall k :: 0 <= k < |levels| ==>
              Depth(Flat(levels))[k] == DepthLevel(levels[k].price, Total(levels[k].orders), |levels[k].orders|)
  {
    if levels != [] {
      var rest := levels[1..];
      assert LevelOk(levels[0]);
      assert Shaped(side, rest);
      DepthOfLevels(side, rest);
      if rest != [] {
        assert LevelOk(rest[0]) && rest[0].orders[0] in rest[0].orders;
        assert Flat(rest)[0] == rest[0].orders[0];
        assert Better(side, levels[0].price, levels[1].price);
      }
      DepthOfQueue(levels[0].price, levels[0].orders, Flat(rest));
    }
  }

  class OrderBook {
    const instrument: Instrument
    var bidLevels: LevelMap
    var askLevels: LevelMap
    var orderIndex: map<Name, Locator>
    var orderCount: nat
    var nextSequenceNumber: nat

    constructor (instrument: Instrument)
      ensures Valid()
      ensures View() == Book(instrument, [], [], 1)
    {
      this.instrument := instrument;
      bidLevels, askLevels, orderIndex, orderCount, nextSequenceNumber := [], [], map[], 0, 1;
    }

    ghost function View(): Book
      reads this
    {
      Book(instrument, Flat(bidLevels), Flat(askLevels), nextSequenceNumber)
    }

    ghost predicate Valid()
      reads this
    {
      Represents(bidLevels, askLevels, orderIndex, orderCount, View())
    }

    method AddOrder(request: OrderRequest, orderId: Name, clientOrderId: Name, filledQuantity: real)
      returns (added: bool)
      requires Valid()
      modifies this
      ensures Valid()
      ensures View() == Add(old(View()), request, orderId, clientOrderId, filledQuantity).0
      ensures added == Add(old(View()), request, orderId, clientOrderId, filledQuantity).1
    {
      hide Represents, Push, Flat, Insert, Add, Compatible;
      AddCounts(View(), request, orderId, clientOrderId, filledQuantity);
      added := IsRequestCompatible(request, orderId, clientOrderId, filledQuantity);
      if !added {
        return;
      }
      AddRepresents(bidLevels, askLevels, orderIndex, orderCount, View(), request, orderId, clientOrderId,
                    filledQuantity);
      ghost var next := Add(View(), request, orderId, clientOrderId, filledQuantity).0;
      var order := RestingOrder(orderId, clientOrderId, request, Max(0.0, request.quantity - filledQuantity),
                                nextSequenceNumber);
      nextSequenceNumber := nextSequenceNumber + 1;
      var price := request.price.value;
      if request.side == Buy {
        bidLevels := Push(Buy, bidLevels, price, order);
      } else {
        askLevels := Push(Sell, askLevels, price, order);
      }
      orderIndex := orderIndex[orderId := Locator(request.side, price)];
      orderCount := orderCount + 1;
      RepresentedView(bidLevels, askLevels, orderIndex, orderCount, next);
    }

    method IsRequestCompatible(request: OrderRequest, orderId: Name, clientOrderId: Name, filledQuantity: real)
      returns (ok: bool)
      requires Valid()
      ensures ok == Compatible(View(), request, orderId, clientOrderId, filledQuantity)
    {
      KnownIs(View(), orderId);
      if orderId == Empty || clientOrderId == Empty {
        return false;
      }
      if request.instrument.instrumentId != instrument.instrumentId {
        return false;
      }
      if request.orderType != Limit {
        return false;
      }
      if request.price.None? || request.price.value <= 0.0 {
        return false;
      }
      if request.quantity <= 0.0 || filledQuantity < 0.0 || filledQuantity >= request.quantity - TOLERANCE {
        return false;
      }
      return orderId !in orderIndex;
    }

    /** The position of the first order with this id, or the length of the queue. */
    static method Search(queue: seq<RestingOrder>, orderId: Name) returns (j: nat)
      ensures j <= |queue| && forall i :: 0 <= i < j ==> queue[i].orderId != orderId
      ensures j < |queue| ==> queue[j].orderId == orderId
    {
      j := 0;
      while j < |queue| && queue[j].orderId != orderId
        invariant j <= |queue| && forall i :: 0 <= i < j ==> queue[i].orderId != orderId
      {
        j := j + 1;
      }
    }

    /** Follows the index to the order's queue and searches it there. */
    method Locate(orderId: Name) returns (found: bool, locator: Locator, queue: seq<RestingOrder>, j: nat)
      requires Valid()
      ensures found <==> Known(View(), orderId)
      ensures found <==> orderId in orderIndex
      ensures found ==> LeadsTo(bidLevels, askLevels, orderIndex, orderId, locator, queue, j)
      ensures found ==> Find(View(), orderId) == Some(queue[j])
    {
      Located(bidLevels, askLevels, orderIndex, orderCount, View(), orderId);
      found, locator, queue, j := false, Locator(Buy, 0.0), [], 0;
      if orderId !in orderIndex {
        return;
      }
      locator := orderIndex[orderId];
      var levels := if locator.side == Buy then bidLevels else askLevels;
      if !Contains(locator.side, levels, locator.price) {
        return;
      }
      queue := Queue(locator.side, levels, locator.price);
      j := Search(queue, orderId);
      found := j < |queue|;
      if found {
        FindsIt(bidLevels, askLevels, orderIndex, orderCount, View(), orderId, locator, queue, j);
      }
    }

    /** Writes a queue back under its locator, erasing the level when the queue is empty. */
    method StoreQueue(locator: Locator, queue: seq<RestingOrder>)
      modifies this`bidLevels, this`askLevels
      ensures bidLevels == EditSide(Buy, locator, old(bidLevels), queue)
      ensures askLevels == EditSide(Sell, locator, old(askLevels), queue)
    {
      if locator.side == Buy {
        bidLevels := Store(Buy, bidLevels, locator.price, queue);
      } else {
        askLevels := Store(Sell, askLevels, locator.price, queue);
      }
    }

    method FindOrder(orderId: Name) returns (order: Option<RestingOrder>)
      requires Valid()
      ensures order == Find(View(), orderId)
    {
      var found, _, queue, j := Locate(orderId);
      order := if found then Some(queue[j]) else None;
    }

    /** Removes a located order from its queue, the index and the count. */
    method Erase(orderId: Name, locator: Locator, queue: seq<RestingOrder>, j: nat)
      requires Valid() && LeadsTo(bidLevels, askLevels, orderIndex, orderId, locator, queue, j)
      modifies this
      ensures Valid()
      ensures View() == Cancel(old(View()), orderId).0 && Cancel(old(View()), orderId).1
    {
      CancelRepresents(bidLevels, askLevels, orderIndex, orderCount, View(), orderId, locator, queue, j);
      hide BookOk, Indexes, Shaped, LeadsTo, Store, Flat;
      StoreQueue(locator, Cut(queue, j, []));
      orderIndex := orderIndex - {orderId};
      orderCount := orderCount - 1;
      assert View() == Cancel(old(View()), orderId).0;
    }

    /** Writes the reduced quantity of a located order back into its queue. */
    method Shrink(orderId: Name, locator: Locator, queue: seq<RestingOrder>, j: nat, executedQuantity: real)
      requires Valid() && LeadsTo(bidLevels, askLevels, orderIndex, orderId, locator, queue, j)
      requires TOLERANCE < executedQuantity <= queue[j].remaining + TOLERANCE &&
               Residue(queue[j], executedQuantity) != []
      modifies this
      ensures Valid()
      ensures View() == Fill(old(View()), orderId, executedQuantity).0 && Fill(old(View()), orderId, executedQuantity).1
    {
      ShrinkRepresents(bidLevels, askLevels, orderIndex, orderCount, View(), orderId, locator, queue, j,
                       executedQuantity);
      hide BookOk, Indexes, Shaped, LeadsTo, Store, Flat;
      StoreQueue(locator, Cut(queue, j, Residue(queue[j], executedQuantity)));
      assert View() == Fill(old(View()), orderId, executedQuantity).0;
    }

    method CancelOrder(orderId: Name) returns (canceled: bool)
      requires Valid()
      modifies this
      ensures Valid()
      ensures View() == Cancel(old(View()), orderId).0
      ensures canceled == Cancel(old(View()), orderId).1
    {
      hide Represents;
      var found, locator, queue, j := Locate(orderId);
      if !found {
        return false;
      }
      Erase(orderId, locator, queue, j);
      return true;
    }

    method ApplyFill(orderId: Name, executedQuantity: real) returns (applied: bool)
      requires Valid()
      modifies this
      ensures Valid()
      ensures View() == Fill(old(View()), orderId, executedQuantity).0
      ensures applied == Fill(old(View()), orderId, executedQuantity).1
    {
      hide Represents;
      if executedQuantity <= TOLERANCE {
        return false;
      }
      var found, locator, queue, j := Locate(orderId);
      if !found || executedQuantity > queue[j].remaining + TOLERANCE {
        return false;
      }
      if Residue(queue[j], executedQuantity) == [] {
        FullFillIsCancel(bidLevels, askLevels, orderIndex, orderCount, View(), orderId, locator, queue, j,
                         executedQuantity);
        Erase(orderId, locator, queue, j);
      } else {
        Shrink(orderId, locator, queue, j, executedQuantity);
      }
      return true;
    }

    method BestOrder(side: OrderSide) returns (order: Option<RestingOrder>)
      requires Valid()
      ensures var orders := Orders(View(), side);
              order == if orders == [] then None else Some(orders[0])
    {
      var levels := if side == Buy then bidLevels else askLevels;
      assert levels != [] ==> LevelOk(levels[0]);
      if levels == [] || levels[0].orders == [] {
        order := None;
      } else {
        order := Some(levels[0].orders[0]);
      }
    }

    static method MakeLevel(level: PriceLevel) returns (depth: DepthLevel)
      ensures depth == DepthLevel(level.price, Total(level.orders), |level.orders|)
    {
      var total := 0.0;
      for i := 0 to |level.orders|
        invariant total + Total(level.orders[i..]) == Total(level.orders)
      {
        total := total + level.orders[i].remaining;
      }
      return DepthLevel(level.price, total, |level.orders|);
    }

    /** The visible levels of one side; the first of them is the best bid or ask. */
    method LevelSnapshot(side: OrderSide) returns (snapshot: seq<DepthLevel>)
      requires Valid()
      ensures snapshot == Depth(Orders(View(), side))
    {
      hide Represents, Shaped, Flat, Depth, Total;
      RepresentsSides(bidLevels, askLevels, orderIndex, orderCount, View());
      var levels := if side == Buy then bidLevels else askLevels;
      DepthOfLevels(side, levels);
      snapshot := [];
      for i := 0 to |levels|
        invariant snapshot == Depth(Flat(levels))[..i]
      {
        var depth := MakeLevel(levels[i]);
        snapshot := snapshot + [depth];
      }
    }

    method BestLevel(side: OrderSide) returns (best: Option<DepthLevel>)
      requires Valid()
      ensures var depth := Depth(Orders(View(), side));
              best == if depth == [] then None else Some(depth[0])
    {
      hide Represents, Shaped, Flat, Depth, Total;
      RepresentsSides(bidLevels, askLevels, orderIndex, orderCount, View());
      var levels := if side == Buy then bidLevels else askLevels;
      DepthOfLevels(side, levels);
      if levels == [] {
        return None;
      }
      var depth := MakeLevel(levels[0]);
      return Some(depth);
    }
  }
}
