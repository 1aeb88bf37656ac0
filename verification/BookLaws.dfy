/** What insertion, removal and reduction do to a priority list. */
module BookLaws {
  import opened Types
  import opened BookModel

  /** The insertion point lies behind every order that is not worse and before the first that is. */
  lemma {:induction false} InsertAt(side: OrderSide, s: seq<RestingOrder>, t: seq<RestingOrder>, o: RestingOrder)
    requires forall x :: x in s ==> !Better(side, Price(o), Price(x))
    requires t != [] ==> Better(side, Price(o), Price(t[0]))
    ensures Insert(side, s + t, o) == s + [o] + t
  {
    if s == [] {
      assert s + t == t;
    } else {
      assert (s + t)[1..] == s[1..] + t;
      InsertAt(side, s[1..], t, o);
    }
  }

  /** Index `j` holds the first order with its id. */
  ghost predicate FirstAt(s: seq<RestingOrder>, j: nat) {
    j < |s| && forall i :: 0 <= i < j ==> s[i].orderId != s[j].orderId
  }

  /** The first order with an id is the one that is found and replaced. */
  lemma {:induction false} FirstOccurrence(s: seq<RestingOrder>, j: nat, r: seq<RestingOrder>)
    requires FirstAt(s, j)
    ensures Replace(s, s[j].orderId, r) == Cut(s, j, r)
    ensures Lookup(s, s[j].orderId) == Some(s[j])
  {
    if j > 0 {
      var t := s[1..];
      assert t[j - 1] == s[j];
      FirstOccurrence(t, j - 1, r);
      assert [s[0]] + (t[..j - 1] + r + t[j..]) == s[..j] + r + s[j + 1..];
    }
  }

  /** An insertion adds one order and keeps the rest in place. */
  lemma {:induction false} InsertSplits(side: OrderSide, s: seq<RestingOrder>, o: RestingOrder) returns (i: nat)
    ensures i <= |s| && Insert(side, s, o) == s[..i] + [o] + s[i..]
    ensures forall k :: 0 <= k < i ==> !Better(side, Price(o), Price(s[k]))
    ensures i < |s| ==> Better(side, Price(o), Price(s[i]))
  {
    if s == [] || Better(side, Price(o), Price(s[0])) {
      i := 0;
    } else {
      var j := InsertSplits(side, s[1..], o);
      i := j + 1;
      assert s[..i] == [s[0]] + s[1..][..j] && s[i..] == s[1..][j..];
    }
  }

  lemma {:induction false} InsertMembers(side: OrderSide, s: seq<RestingOrder>, o: RestingOrder)
    ensures |Insert(side, s, o)| == |s| + 1
    ensures forall x :: x in Insert(side, s, o) <==> x == o || x in s
  {
    var i := InsertSplits(side, s, o);
    assert s == s[..i] + s[i..];
  }

  /** A newer order inserted into a priority list gives a priority list. */
  lemma {:induction false} InsertOrdered(side: OrderSide, s: seq<RestingOrder>, o: RestingOrder)
    requires Ordered(side, s) && Distinct(s) && !HasId(s, o.orderId)
    requires forall x :: x in s ==> x.sequence < o.sequence
    ensures Ordered(side, Insert(side, s, o)) && Distinct(Insert(side, s, o))
  {
    var i := InsertSplits(side, s, o);
    var r := s[..i] + [o] + s[i..];
    forall j, k | 0 <= j < k < |r|
      ensures Before(side, r[j], r[k]) && r[j].orderId != r[k].orderId
    {
      if k == i {
        assert r[j] == s[j];
      } else if j == i {
        assert r[k] == s[k - 1];
        assert i == k - 1 || Before(side, s[i], s[k - 1]);
      } else {
        assert r[j] == s[if j < i then j else j - 1] && r[k] == s[if k < i then k else k - 1];
      }
    }
  }

  /** Replacing one order by its residue, or removing it, keeps priority and distinctness. */
  lemma {:induction false} ResidueOrdered(side: OrderSide, s: seq<RestingOrder>, j: nat, r: seq<RestingOrder>)
    requires Ordered(side, s) && Distinct(s) && j < |s|
    requires r == [] || (|r| == 1 && r[0] == s[j].(remaining := r[0].remaining))
    ensures Ordered(side, Cut(s, j, r)) && Distinct(Cut(s, j, r))
  {
    var v := Cut(s, j, r);
    var shift := 1 - |r|;
    forall i, k | 0 <= i < k < |v|
      ensures Before(side, v[i], v[k]) && v[i].orderId != v[k].orderId
    {
      var i', k' := if i < j then i else i + shift, if k < j then k else k + shift;
      assert Before(side, s[i'], s[k']);
      assert v[i] == s[i'].(remaining := v[i].remaining) && v[k] == s[k'].(remaining := v[k].remaining);
    }
  }

  lemma {:induction false} IndexOf(s: seq<RestingOrder>, id: Name) returns (j: nat)
    requires HasId(s, id)
    ensures FirstAt(s, j) && s[j].orderId == id
  {
    j :| j < |s| && s[j].orderId == id;
    if i :| 0 <= i < j && s[i].orderId == id {
      assert HasId(s[..j], id);
      j := IndexOf(s[..j], id);
    }
  }

  lemma KnownIs(b: Book, id: Name)
    ensures Known(b, id) <==> exists o :: (o in b.bids || o in b.asks) && o.orderId == id
  {
  }

  /** Adding an order keeps the book invariant. */
  lemma {:induction false} AddKeepsBook(b: Book, request: OrderRequest, id: Name, clientId: Name, filled: real)
    requires BookOk(b)
    ensures BookOk(Add(b, request, id, clientId, filled).0)
  {
    if Compatible(b, request, id, clientId, filled) {
      var o := RestingOrder(id, clientId, request, Max(0.0, request.quantity - filled), b.nextSequence);
      var s := Orders(b, request.side);
      KnownIs(b, id);
      InsertOrdered(request.side, s, o);
      InsertMembers(request.side, s, o);
    }
  }

  /** Removing an order, or shrinking it to what is left of it, keeps the book invariant. */
  lemma {:induction false} ReplaceKeepsBook(b: Book, side: OrderSide, j: nat, r: seq<RestingOrder>)
    requires BookOk(b) && j < |Orders(b, side)|
    requires r == [] ||
             (|r| == 1 && r[0] == Orders(b, side)[j].(remaining := r[0].remaining) &&
              TOLERANCE < r[0].remaining <= Orders(b, side)[j].remaining)
    ensures BookOk(WithOrders(b, side, Cut(Orders(b, side), j, r)))
  {
    var s := Orders(b, side);
    var t := Cut(s, j, r);
    ResidueOrdered(side, s, j, r);
    assert s[j] in s;
    forall x | x in t
      ensures Resting(x, b.instrument.instrumentId, side, b.nextSequence)
      ensures exists y :: y in s && y.orderId == x.orderId
    {
      assert x in s || (x in r && x.orderId == s[j].orderId);
    }
    var b' := WithOrders(b, side, t);
    assert Orders(b', side) == t && Orders(b', Opposite(side)) == Orders(b, Opposite(side));
    assert SideOk(b', side) && SideOk(b', Opposite(side));
  }

  lemma {:induction false} RemovedMembers(s: seq<RestingOrder>, j: nat)
    requires Distinct(s) && j < |s|
    ensures forall x :: x in s[..j] + s[j + 1..] <==> x in s && x.orderId != s[j].orderId
  {
    forall x
      ensures x in s[..j] + s[j + 1..] <==> x in s && x.orderId != s[j].orderId
    {
      if x in s && x.orderId != s[j].orderId {
        var i :| 0 <= i < |s| && s[i] == x;
        assert if i < j then s[..j][i] == x else s[j + 1..][i - j - 1] == x;
      }
    }
  }

  /** An id rests on one side only. */
  lemma {:induction false} OneSide(b: Book, side: OrderSide, i: nat)
    requires BookOk(b) && i < |Orders(b, side)|
    ensures HasId(b.bids, Orders(b, side)[i].orderId) == side.Buy?
    ensures HasId(b.asks, Orders(b, side)[i].orderId) == side.Sell?
  {
    var id := Orders(b, side)[i].orderId;
    assert Orders(b, side)[i] in Orders(b, side);
    if HasId(Orders(b, Opposite(side)), id) {
      var k := IndexOf(Orders(b, Opposite(side)), id);
    }
  }

  lemma {:induction false} CancelCuts(b: Book, side: OrderSide, i: nat)
    requires BookOk(b) && i < |Orders(b, side)|
    ensures Cancel(b, Orders(b, side)[i].orderId) == (WithOrders(b, side, Cut(Orders(b, side), i, [])), true)
  {
    var s := Orders(b, side);
    OneSide(b, side, i);
    assert SideOk(b, side) && FirstAt(s, i);
    hide BookOk, SideOk, Distinct, FirstAt, HasId, Replace;
    FirstOccurrence(s, i, []);
  }

  /** Cancelling a resting order removes exactly that order and keeps the book invariant. */
  lemma {:induction false} CancelIs(b: Book, side: OrderSide, i: nat)
    requires BookOk(b) && i < |Orders(b, side)|
    ensures var s := Orders(b, side);
            var b' := WithOrders(b, side, Cut(s, i, []));
            Cancel(b, s[i].orderId) == (b', true) && BookOk(b')
    ensures forall side', x :: x in Orders(Cancel(b, Orders(b, side)[i].orderId).0, side') <==>
                               x in Orders(b, side') && x.orderId != Orders(b, side)[i].orderId
  {
    var s := Orders(b, side);
    assert SideOk(b, side) && Apart(s, Orders(b, Opposite(side)));
    assert forall x :: x in Orders(b, Opposite(side)) ==> x.orderId != s[i].orderId by {
      assert s[i] in s;
    }
    RemovedMembers(s, i);
    ReplaceKeepsBook(b, side, i, []);
    CancelCuts(b, side, i);
    hide BookOk, SideOk, Distinct, Apart, Cancel;
    assert Cut(s, i, []) == s[..i] + s[i + 1..];
  }

  /** A fill on a resting order replaces that order by what is left of it, keeping the book invariant. */
  lemma {:induction false} FillIs(b: Book, side: OrderSide, i: nat, quantity: real)
    requires BookOk(b) && i < |Orders(b, side)|
    requires TOLERANCE < quantity <= Orders(b, side)[i].remaining + TOLERANCE
    ensures var s := Orders(b, side);
            var b' := WithOrders(b, side, Cut(s, i, Residue(s[i], quantity)));
            Fill(b, s[i].orderId, quantity) == (b', true) && BookOk(b')
  {
    var s := Orders(b, side);
    var o := s[i];
    assert o in s;
    OneSide(b, side, i);
    FirstOccurrence(s, i, Residue(o, quantity));
    ReplaceKeepsBook(b, side, i, Residue(o, quantity));
  }

  // ---------- Refusals ----------

  /** A book refuses a fill that is tiny, too large or for an order that does not rest, and then does not change. */
  lemma {:induction false} FillRefuses(b: Book, id: Name, quantity: real)
    requires BookOk(b)
    ensures var (b', done) := Fill(b, id, quantity);
            && (done <==> quantity > TOLERANCE && exists side, o :: o in Orders(b, side) && o.orderId == id &&
                                                     quantity <= o.remaining + TOLERANCE)
            && (!done ==> b' == b)
  {
    if o :| o in b.bids && o.orderId == id {
      var i :| 0 <= i < |b.bids| && b.bids[i] == o;
      assert o in Orders(b, Buy);
      FoundIs(b, Buy, i);
    } else if o :| o in b.asks && o.orderId == id {
      var i :| 0 <= i < |b.asks| && b.asks[i] == o;
      assert o in Orders(b, Sell);
      FoundIs(b, Sell, i);
    } else {
      KnownIs(b, id);
    }
  }

  /** No other resting order has the id of a resting order. */
  lemma {:induction false} OnlyOne(b: Book, side: OrderSide, i: nat, side': OrderSide, x: RestingOrder)
    requires BookOk(b) && i < |Orders(b, side)|
    requires x in Orders(b, side') && x.orderId == Orders(b, side)[i].orderId
    ensures x == Orders(b, side)[i]
  {
    hide Ordered, Resting;
    var s := Orders(b, side);
    assert s[i] in s;
    if side' == side {
      var k :| 0 <= k < |s| && s[k] == x;
      assert SideOk(b, side) && Distinct(s);
    }
  }

  /** The order with an id is the one that is found. */
  lemma {:induction false} FoundIs(b: Book, side: OrderSide, i: nat)
    requires BookOk(b) && i < |Orders(b, side)|
    ensures var o := Orders(b, side)[i];
            && Find(b, o.orderId) == Some(o)
            && forall side', x :: x in Orders(b, side') && x.orderId == o.orderId ==> x == o
  {
    var s := Orders(b, side);
    OneSide(b, side, i);
    assert SideOk(b, side) && FirstAt(s, i);
    hide SideOk, Distinct, Apart, FirstAt, HasId, Replace, Lookup;
    FirstOccurrence(s, i, []);
    forall side', x | x in Orders(b, side') && x.orderId == s[i].orderId
      ensures x == s[i]
    {
      OnlyOne(b, side, i, side', x);
    }
  }

  /** Cancelling an order that does not rest is refused and changes nothing. */
  lemma {:induction false} CancelRefuses(b: Book, id: Name)
    requires forall side, o :: o in Orders(b, side) ==> o.orderId != id
    ensures Cancel(b, id) == (b, false)
  {
    assert Orders(b, Buy) == b.bids && Orders(b, Sell) == b.asks;
    KnownIs(b, id);
  }

  // ---------- Visible depth ----------

  function TotalAt(s: seq<RestingOrder>, price: real): real {
    if s == [] then 0.0 else (if Price(s[0]) == price then s[0].remaining else 0.0) + TotalAt(s[1..], price)
  }

  function CountAt(s: seq<RestingOrder>, price: real): nat {
    if s == [] then 0 else (if Price(s[0]) == price then 1 else 0) + CountAt(s[1..], price)
  }

  /** What a list of levels shows at a price. */
  function ShownTotal(levels: seq<DepthLevel>, price: real): real {
    if levels == [] then 0.0
    else (if levels[0].price == price then levels[0].totalQuantity else 0.0) + ShownTotal(levels[1..], price)
  }

  function ShownCount(levels: seq<DepthLevel>, price: real): nat {
    if levels == [] then 0
    else (if levels[0].price == price then levels[0].orderCount else 0) + ShownCount(levels[1..], price)
  }

  /** Levels are in strict priority, none is empty, and at every price they show exactly the orders at that price. */
  ghost predicate DepthOf(side: OrderSide, s: seq<RestingOrder>, levels: seq<DepthLevel>) {
    && (forall i, j :: 0 <= i < j < |levels| ==> Better(side, levels[i].price, levels[j].price))
    && (forall i :: 0 <= i < |levels| ==> levels[i].orderCount > 0)
    && (forall price :: ShownTotal(levels, price) == TotalAt(s, price))
    && (forall price :: ShownCount(levels, price) == CountAt(s, price))
  }

  lemma {:induction false} CountedAt(s: seq<RestingOrder>, price: real) returns (o: RestingOrder)
    requires CountAt(s, price) > 0
    ensures o in s && Price(o) == price
  {
    if Price(s[0]) == price {
      o := s[0];
    } else {
      o := CountedAt(s[1..], price);
    }
  }

  /**
   The visible depth of a side: one level for each price that some order has, best first, with the total quantity and
   the number of exactly the orders at that price.
   */
  lemma {:induction false} DepthLaw(side: OrderSide, s: seq<RestingOrder>)
    requires Ordered(side, s)
    ensures DepthOf(side, s, Depth(s))
  {
    if s != [] {
      var rest := s[1..];
      DepthLaw(side, rest);
      var levels := Depth(rest);
      var p := Price(s[0]);
      if levels != [] {
        var o := CountedAt(rest, levels[0].price);
        var i :| 0 <= i < |rest| && rest[i] == o;
        assert Before(side, s[0], s[i + 1]);
      }
      DepthCons(side, s, levels);
    }
  }

  lemma {:induction false} DepthCons(side: OrderSide, s: seq<RestingOrder>, levels: seq<DepthLevel>)
    requires s != [] && levels == Depth(s[1..]) && DepthOf(side, s[1..], levels)
    requires levels != [] ==> levels[0].price == Price(s[0]) || Better(side, Price(s[0]), levels[0].price)
    ensures DepthOf(side, s, Depth(s))
  {
    var p, all := Price(s[0]), Depth(s);
    if levels != [] && levels[0].price == p {
      assert all[1..] == levels[1..];
    } else {
      assert all == [DepthLevel(p, s[0].remaining, 1)] + levels && all[1..] == levels;
    }
    forall price
      ensures ShownTotal(all, price) == TotalAt(s, price) && ShownCount(all, price) == CountAt(s, price)
    {
      assert ShownTotal(levels, price) == TotalAt(s[1..], price) && ShownCount(levels, price) == CountAt(s[1..], price);
    }
  }
}
