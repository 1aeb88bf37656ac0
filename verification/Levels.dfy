/**
 A side of the book as it is stored: an ordered map from price to a queue of orders,
 here the sequence of its entries in key order (best price first).
 `Flat` reads such a map as the single priority list of the reference model.
 */
module Levels {
  import opened Types
  import opened BookModel

  datatype PriceLevel = PriceLevel(price: real, orders: seq<RestingOrder>)

  type LevelMap = seq<PriceLevel>

  /** Keys in strict priority order, hence each at most once. */
  ghost predicate Sorted(side: OrderSide, levels: LevelMap) {
    forall i, j :: 0 <= i < j < |levels| ==> Better(side, levels[i].price, levels[j].price)
  }

  /** How many keys come strictly before `p`. */
  function LowerBound(side: OrderSide, levels: LevelMap, p: real): (i: nat)
    ensures i <= |levels|
    ensures forall k :: 0 <= k < i ==> Better(side, levels[k].price, p)
    ensures i < |levels| ==> !Better(side, levels[i].price, p)
  {
    if levels == [] || !Better(side, levels[0].price, p) then 0
    else 1 + LowerBound(side, levels[1..], p)
  }

  predicate Contains(side: OrderSide, levels: LevelMap, p: real) {
    var i := LowerBound(side, levels, p);
    i < |levels| && levels[i].price == p
  }

  function Queue(side: OrderSide, levels: LevelMap, p: real): seq<RestingOrder> {
    if Contains(side, levels, p) then levels[LowerBound(side, levels, p)].orders else []
  }

  function Entry(p: real, queue: seq<RestingOrder>): LevelMap {
    if queue == [] then [] else [PriceLevel(p, queue)]
  }

  function Behind(side: OrderSide, levels: LevelMap, p: real): LevelMap {
    var i := LowerBound(side, levels, p);
    if Contains(side, levels, p) then levels[i + 1..] else levels[i..]
  }

  /** Stores a queue under a key; an emptied level is erased. */
  function Store(side: OrderSide, levels: LevelMap, p: real, queue: seq<RestingOrder>): LevelMap {
    levels[..LowerBound(side, levels, p)] + Entry(p, queue) + Behind(side, levels, p)
  }

  function Flat(levels: LevelMap): seq<RestingOrder> {
    if levels == [] then [] else levels[0].orders + Flat(levels[1..])
  }

  lemma {:induction false} FlatConcat(a: LevelMap, b: LevelMap)
    ensures Flat(a + b) == Flat(a) + Flat(b)
  {
    if a == [] {
      assert a + b == b;
    } else {
      assert (a + b)[1..] == a[1..] + b;
      FlatConcat(a[1..], b);
    }
  }

  lemma {:induction false} FlatThree(a: LevelMap, p: real, queue: seq<RestingOrder>, b: LevelMap)
    ensures Flat(a + Entry(p, queue) + b) == Flat(a) + queue + Flat(b)
  {
    FlatConcat(a + Entry(p, queue), b);
    FlatConcat(a, Entry(p, queue));
    if queue != [] {
      assert Entry(p, queue)[1..] == [];
    }
  }

  /** Looking a key up cuts the flat list in three, and storing there replaces the middle only. */
  lemma {:induction false} StoreSplices(side: OrderSide, levels: LevelMap, p: real, queue: seq<RestingOrder>)
    requires Sorted(side, levels)
    requires forall k :: 0 <= k < |levels| ==> levels[k].orders != []
    ensures var i := LowerBound(side, levels, p);
            var pre, post := Flat(levels[..i]), Flat(Behind(side, levels, p));
            && Flat(levels) == pre + Queue(side, levels, p) + post
            && Flat(Store(side, levels, p, queue)) == pre + queue + post
  {
    var i := LowerBound(side, levels, p);
    var queue0 := Queue(side, levels, p);
    LookedUp(side, levels, p);
    hide Flat, Queue, Behind, Entry, Sorted, LowerBound;
    FlatThree(levels[..i], p, queue0, Behind(side, levels, p));
    FlatThree(levels[..i], p, queue, Behind(side, levels, p));
  }

  lemma {:induction false} LookedUp(side: OrderSide, levels: LevelMap, p: real)
    requires forall k :: 0 <= k < |levels| ==> levels[k].orders != []
    ensures levels == levels[..LowerBound(side, levels, p)] + Entry(p, Queue(side, levels, p)) + Behind(side, levels, p)
  {
    hide LowerBound, Flat;
    var i := LowerBound(side, levels, p);
    if Contains(side, levels, p) {
      assert levels == levels[..i] + [levels[i]] + levels[i + 1..];
    } else {
      assert levels == levels[..i] + [] + levels[i..];
    }
  }

  /** The flat list holds exactly the queued orders. */
  lemma {:induction false} FlatMember(levels: LevelMap, o: RestingOrder)
    ensures o in Flat(levels) <==> exists k :: 0 <= k < |levels| && o in levels[k].orders
  {
    if levels != [] {
      FlatMember(levels[1..], o);
      if k :| 0 <= k < |levels| && o in levels[k].orders {
        assert k == 0 || o in levels[1..][k - 1].orders;
      }
      if k :| 0 <= k < |levels[1..]| && o in levels[1..][k].orders {
        assert o in levels[k + 1].orders;
      }
    }
  }

  /** The stored shape: sorted keys, no empty level, every order under its own price. */
  ghost predicate Shaped(side: OrderSide, levels: LevelMap) {
    && Sorted(side, levels)
    && forall k :: 0 <= k < |levels| ==> LevelOk(levels[k])
  }

  ghost predicate LevelOk(level: PriceLevel) {
    level.orders != [] && forall o :: o in level.orders ==> Price(o) == level.price
  }

  ghost predicate AllBetter(side: OrderSide, s: seq<RestingOrder>, p: real) {
    forall o :: o in s ==> Better(side, Price(o), p)
  }

  ghost predicate AllWorse(side: OrderSide, s: seq<RestingOrder>, p: real) {
    forall o :: o in s ==> Better(side, p, Price(o))
  }

  /** In a well-shaped map the three parts are the strictly better, the equal and the strictly worse prices. */
  lemma {:induction false} SplicePrices(side: OrderSide, levels: LevelMap, p: real)
    requires Shaped(side, levels)
    ensures AllBetter(side, Flat(levels[..LowerBound(side, levels, p)]), p)
    ensures forall o :: o in Queue(side, levels, p) ==> Price(o) == p
    ensures AllWorse(side, Flat(Behind(side, levels, p)), p)
  {
    var front, behind := levels[..LowerBound(side, levels, p)], Behind(side, levels, p);
    forall o | o in Flat(front)
      ensures Better(side, Price(o), p)
    {
      FlatMember(front, o);
    }
    forall o | o in Flat(behind)
      ensures Better(side, p, Price(o))
    {
      FlatMember(behind, o);
    }
  }

  lemma {:induction false} ConcatShaped(side: OrderSide, a: LevelMap, b: LevelMap)
    requires Shaped(side, a) && Shaped(side, b)
    requires forall k, l :: 0 <= k < |a| && 0 <= l < |b| ==> Better(side, a[k].price, b[l].price)
    ensures Shaped(side, a + b)
  {
  }

  lemma {:induction false} BehindShaped(side: OrderSide, levels: LevelMap, p: real)
    requires Shaped(side, levels)
    ensures var behind := Behind(side, levels, p);
            Shaped(side, behind) && forall k :: 0 <= k < |behind| ==> Better(side, p, behind[k].price)
  {
    var i := LowerBound(side, levels, p);
    var behind := Behind(side, levels, p);
    forall k | 0 <= k < |behind|
      ensures Better(side, p, behind[k].price)
    {
      var j := |levels| - |behind| + k;
      assert behind[k] == levels[j];
      assert i == j || Better(side, levels[i].price, levels[j].price);
    }
  }

  lemma {:induction false} StoreShaped(side: OrderSide, levels: LevelMap, p: real, queue: seq<RestingOrder>)
    requires Shaped(side, levels)
    requires forall o :: o in queue ==> Price(o) == p
    ensures Shaped(side, Store(side, levels, p, queue))
  {
    var front, entry, behind := levels[..LowerBound(side, levels, p)], Entry(p, queue), Behind(side, levels, p);
    BehindShaped(side, levels, p);
    ConcatShaped(side, front, entry);
    ConcatShaped(side, front + entry, behind);
  }
}
