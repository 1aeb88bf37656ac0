/**
 When the split of profit into realized and unrealized depends on the order of the fills.  It does not exactly when the
 position ends flat, or was never reduced, or everything on the side of the net was filled at one price.
 */
module SplitLaws {
  import opened Types
  import opened Portfolios
  import opened PortfolioLaws

  function Realized(fills: seq<FillEvent>, id: Name): real {
    PositionOf(AfterFills(EMPTY_PORTFOLIO, fills), id).realizedPnl
  }

  /** Every order of the same fills realizes the same profit. */
  ghost predicate SplitIsFixed(fills: seq<FillEvent>, id: Name) {
    forall fills' :: multiset(fills') == multiset(fills) ==> Realized(fills', id) == Realized(fills, id)
  }

  ghost predicate Positive(fills: seq<FillEvent>, id: Name) {
    forall f :: f in fills && Of(f, id) ==> f.quantity > 0.0
  }

  /** All fills of the instrument are on one side. */
  ghost predicate OneSided(fills: seq<FillEvent>, id: Name) {
    forall f, g :: f in fills && g in fills && Of(f, id) && Of(g, id) ==> f.side == g.side
  }

  /** The fill is one of the instrument on the side of a net quantity. */
  predicate OnSide(f: FillEvent, id: Name, net: real) {
    Of(f, id) && Sign(Signed(f)) == Sign(net)
  }

  /** All fills on the side of the net have one price. */
  ghost predicate OnePrice(fills: seq<FillEvent>, id: Name) {
    forall f, g :: f in fills && g in fills && OnSide(f, id, Net(fills, id)) && OnSide(g, id, Net(fills, id)) ==>
      f.price == g.price
  }

  // ---------- A position on its own ----------

  /** What trades read and write of a position. */
  predicate SameCore(a: Position, b: Position) {
    a.netQuantity == b.netQuantity && a.averageEntryPrice == b.averageEntryPrice && a.realizedPnl == b.realizedPnl
  }

  function Fold(q: Position, fills: seq<FillEvent>, id: Name): Position
    decreases |fills|
  {
    if fills == [] then q
    else Fold(if Of(fills[0], id) then Trade(q, Signed(fills[0]), fills[0].price) else q, fills[1..], id)
  }

  lemma {:induction false} FoldConcat(q: Position, a: seq<FillEvent>, b: seq<FillEvent>, id: Name)
    ensures Fold(q, a + b, id) == Fold(Fold(q, a, id), b, id)
    decreases |a|
  {
    hide Trade;
    if a == [] {
      assert a + b == b;
    } else {
      assert (a + b)[0] == a[0] && (a + b)[1..] == a[1..] + b;
      FoldConcat(if Of(a[0], id) then Trade(q, Signed(a[0]), a[0].price) else q, a[1..], b, id);
    }
  }

  lemma {:induction false} FillCore(p: Portfolio, f: FillEvent, id: Name, q: Position)
    requires SameCore(PositionOf(p, id), q)
    ensures SameCore(PositionOf(AfterFill(p, f), id), if Of(f, id) then Trade(q, Signed(f), f.price) else q)
  {
    hide Times;
  }

  lemma {:induction false} FoldCore(p: Portfolio, fills: seq<FillEvent>, id: Name, q: Position)
    requires SameCore(PositionOf(p, id), q)
    ensures SameCore(PositionOf(AfterFills(p, fills), id), Fold(q, fills, id))
    decreases |fills|
  {
    hide AfterFill, Trade;
    if fills != [] {
      FillCore(p, fills[0], id, q);
      hide SameCore;
      FoldCore(AfterFill(p, fills[0]), fills[1..], id,
               if Of(fills[0], id) then Trade(q, Signed(fills[0]), fills[0].price) else q);
    }
  }

  /** Fills on the side of a position, or on any side of a flat one, realize nothing. */
  lemma {:induction false} OneSideRealizesNothing(q: Position, fills: seq<FillEvent>, id: Name, side: OrderSide)
    requires Positive(fills, id) && forall f :: f in fills && Of(f, id) ==> f.side == side
    requires if side == Buy then q.netQuantity >= 0.0 else q.netQuantity <= 0.0
    ensures var q' := Fold(q, fills, id);
            q'.realizedPnl == q.realizedPnl && q'.netQuantity == q.netQuantity + Net(fills, id)
    ensures if side == Buy then Net(fills, id) >= 0.0 else Net(fills, id) <= 0.0
    ensures (exists f :: f in fills && Of(f, id)) ==> Net(fills, id) != 0.0
    decreases |fills|
  {
    hide Times;
    if fills != [] {
      var f := fills[0];
      assert f in fills && forall g :: g in fills <==> g == f || g in fills[1..];
      OneSideRealizesNothing(if Of(f, id) then Trade(q, Signed(f), f.price) else q, fills[1..], id, side);
    }
  }

  // ---------- Where the order does not matter ----------

  /** Prices enter a position only on the side of the net. */
  lemma {:induction false} EntriesOnSide(fills: seq<FillEvent>, id: Name, x: real)
    requires Positive(fills, id) && x in Entries(fills, id)
    ensures exists f :: f in fills && OnSide(f, id, Net(fills, id)) && f.price == x
    decreases |fills|
  {
    hide Times;
    var pre, f := fills[..|fills| - 1], fills[|fills| - 1];
    assert fills == pre + [f];
    NetSnoc(pre, f, id);
    assert f in fills && forall g :: g in pre ==> g in fills;
    if x in Entries(pre, id) {
      EntriesOnSide(pre, id, x);
      var g :| g in pre && OnSide(g, id, Net(pre, id)) && g.price == x;
      if !OnSide(g, id, Net(fills, id)) {
        assert OnSide(f, id, Net(fills, id)) && f.price == x;
      }
    } else {
      assert OnSide(f, id, Net(fills, id)) && f.price == x;
    }
  }

  lemma {:induction false} Rearranged(fills: seq<FillEvent>, fills': seq<FillEvent>)
    requires multiset(fills) == multiset(fills')
    ensures forall f :: f in fills <==> f in fills'
  {
    forall f
      ensures f in fills <==> f in fills'
    {
      assert f in fills <==> f in multiset(fills);
      assert f in fills' <==> f in multiset(fills');
    }
  }

  /**
   A flat position has realized its cash flow; one with a known average, the cash flow plus the cost of the open
   quantity.
   */
  lemma {:induction false} RealizedIs(fills: seq<FillEvent>, id: Name)
    ensures var q := PositionOf(AfterFills(EMPTY_PORTFOLIO, fills), id);
            Realized(fills, id) == Cash(fills, id) + Times(Net(fills, id), q.averageEntryPrice)
  {
    hide Times, AfterFills, Worth;
    PositionAddsUp(EMPTY_PORTFOLIO, fills, id);
    WorthOfNothing();
    WorthIs(PositionOf(AfterFills(EMPTY_PORTFOLIO, fills), id));
  }

  lemma {:induction false} WorthIs(q: Position)
    ensures q.realizedPnl == Worth(q) + Times(q.netQuantity, q.averageEntryPrice)
  {
    hide Times;
  }

  lemma {:induction false} FlatIsFixed(fills: seq<FillEvent>, id: Name)
    requires Net(fills, id) == 0.0
    ensures SplitIsFixed(fills, id)
  {
    forall fills' | multiset(fills') == multiset(fills)
      ensures Realized(fills', id) == Realized(fills, id)
    {
      SameMultisetSameSums(fills, fills', id);
      RealizedIs(fills, id);
      RealizedIs(fills', id);
    }
  }

  lemma {:induction false} OneSidedIsFixed(fills: seq<FillEvent>, id: Name)
    requires Positive(fills, id) && OneSided(fills, id)
    ensures SplitIsFixed(fills, id)
  {
    forall fills' | multiset(fills') == multiset(fills)
      ensures Realized(fills', id) == 0.0
    {
      Rearranged(fills, fills');
      OneSidedRealizes(fills', id);
    }
    OneSidedRealizes(fills, id);
  }

  lemma {:induction false} OneSidedRealizes(fills: seq<FillEvent>, id: Name)
    requires Positive(fills, id) && OneSided(fills, id)
    ensures Realized(fills, id) == 0.0
  {
    hide Fold, AfterFills;
    FoldCore(EMPTY_PORTFOLIO, fills, id, NO_POSITION);
    var side := if f :| f in fills && Of(f, id) then f.side else Buy;
    OneSideRealizesNothing(NO_POSITION, fills, id, side);
  }

  lemma {:induction false} OnePriceIsFixed(fills: seq<FillEvent>, id: Name)
    requires Positive(fills, id) && OnePrice(fills, id) && Net(fills, id) != 0.0
    ensures SplitIsFixed(fills, id)
  {
    var price := SidePrice(fills, id);
    forall fills' | multiset(fills') == multiset(fills)
      ensures Realized(fills', id) == Cash(fills, id) + Times(Net(fills, id), price)
    {
      OnePriceRealizes(fills, fills', id, price);
    }
    OnePriceRealizes(fills, fills, id, price);
  }

  /** The price of the fills on the side of the net. */
  lemma {:induction false} SidePrice(fills: seq<FillEvent>, id: Name) returns (price: real)
    requires Positive(fills, id) && OnePrice(fills, id) && Net(fills, id) != 0.0
    ensures forall f :: f in fills && OnSide(f, id, Net(fills, id)) ==> f.price == price
  {
    if f :| f in fills && OnSide(f, id, Net(fills, id)) {
      price := f.price;
    } else {
      price := 0.0;
    }
  }

  lemma {:induction false} OnePriceRealizes(fills: seq<FillEvent>, fills': seq<FillEvent>, id: Name, price: real)
    requires Positive(fills, id) && Net(fills, id) != 0.0 && multiset(fills') == multiset(fills)
    requires forall f :: f in fills && OnSide(f, id, Net(fills, id)) ==> f.price == price
    ensures Realized(fills', id) == Cash(fills, id) + Times(Net(fills, id), price)
  {
    hide Times, Net, Cash, Entries, AfterFills;
    Rearranged(fills, fills');
    SameMultisetSameSums(fills, fills', id);
    forall x | x in Entries(fills', id)
      ensures x == price
    {
      EntriesOnSide(fills', id, x);
    }
    AverageWithinEntries(fills', id, price, price);
    RealizedIs(fills', id);
  }

  // ---------- Where the order matters ----------

  /** Two trades against a position that they flip together: the first closes what it can, the second the rest. */
  lemma {:induction false} TwoTrades(q: Position, x: real, p: real, y: real, r: real)
    requires q.netQuantity != 0.0 && Sign(x) == Sign(y) == -Sign(q.netQuantity) && Abs(q.netQuantity) < Abs(x) + Abs(y)
    ensures var k, a := Abs(q.netQuantity), q.averageEntryPrice;
            var m := Min(k, Abs(x));
            var profit := Times(m, p - a) + Times(k - m, r - a);
            var q' := Trade(Trade(q, x, p), y, r);
            && q'.netQuantity == q.netQuantity + x + y
            && q'.realizedPnl == q.realizedPnl + (if q.netQuantity > 0.0 then profit else -profit)
  {
    var k, a := Abs(q.netQuantity), q.averageEntryPrice;
    var q1 := Trade(q, x, p);
    if Abs(x) >= k {
      assert Times(k - k, r - a) == 0.0;
    } else {
      assert q1.averageEntryPrice == a && Sign(q1.netQuantity) == Sign(q.netQuantity) &&
             Abs(q1.netQuantity) == k - Abs(x);
      assert Min(Abs(q1.netQuantity), Abs(y)) == k - Abs(x);
    }
    hide Times;
  }

  /** Swapping two closing trades at different prices changes the profit, unless both close fully anyway. */
  lemma SwapProfit(k: real, u: real, p: real, v: real, r: real, a: real)
    requires 0.0 < k < u + v && u > 0.0 && v > 0.0 && p != r
    ensures Times(Min(k, u), p - a) + Times(k - Min(k, u), r - a) != Times(Min(k, v), r - a) +
            Times(k - Min(k, v), p - a)
  {
    Difference(Min(k, u), Min(k, v), k, p - a, r - a);
    NonZero(Min(k, u) + Min(k, v) - k, p - r);
  }

  lemma NonZero(d: real, e: real)
    requires d > 0.0 && e != 0.0
    ensures d * e != 0.0
  {
    if e > 0.0 {
      assert d * e > 0.0;
    } else {
      assert d * e < 0.0;
    }
  }

  lemma Difference(m: real, n: real, k: real, x: real, y: real)
    ensures Times(m, x) + Times(k - m, y) - (Times(n, y) + Times(k - n, x)) == (m + n - k) * (x - y)
  {
    assert (k - m) * y == k * y - m * y && (k - n) * x == k * x - n * x;
    assert (m + n - k) * (x - y) == (m + n - k) * x - (m + n - k) * y;
    assert (m + n - k) * x == m * x + n * x - k * x && (m + n - k) * y == m * y + n * y - k * y;
  }

  function Size(fills: seq<FillEvent>): real {
    if fills == [] then 0.0 else fills[0].quantity + Size(fills[1..])
  }

  /** An arrangement of fills that has two neighbours of different price where a position of size `k` flips. */
  ghost predicate FlipsAt(fills: multiset<FillEvent>, k: real, a: seq<FillEvent>, h: FillEvent, g: FillEvent,
                          b: seq<FillEvent>) {
    && multiset(a) + multiset{h, g} + multiset(b) == fills
    && h.price != g.price && Size(a) < k < Size(a) + h.quantity + g.quantity
  }

  /** Fills of two prices that flip a position can be arranged so that it flips between two prices. */
  lemma {:induction false} Arrange(f: FillEvent, g: FillEvent, rest: seq<FillEvent>, k: real)
    returns (a: seq<FillEvent>, h: FillEvent, h': FillEvent, b: seq<FillEvent>)
    requires f.price != g.price && f.quantity > 0.0 && g.quantity > 0.0 && forall x :: x in rest ==> x.quantity > 0.0
    requires 0.0 < k < f.quantity + g.quantity + Size(rest)
    ensures FlipsAt(multiset{f, g} + multiset(rest), k, a, h, h', b)
  {
    if k < f.quantity + g.quantity {
      a, h, h', b := [], f, g, rest;
      NoFills(multiset{f, g} + multiset(rest));
    } else {
      var x, tail := rest[0], rest[1..];
      assert x in rest && rest == [x] + tail && multiset(rest) == multiset{x} + multiset(tail);
      if k <= x.quantity {
        a, h := [], x;
        if x.price != f.price {
          h', b := f, [g] + tail;
        } else {
          h', b := g, [f] + tail;
        }
        PickTwo(f, g, x, multiset(tail));
        hide FlipsAt;
        FlipsFirst(f, g, x, tail, k, h', b);
      } else {
        var a1;
        a1, h, h', b := Arrange(f, g, tail, k - x.quantity);
        a := [x] + a1;
        Prepend(multiset{f, g}, x, tail, k, a1, h, h', b);
      }
    }
  }

  lemma {:induction false} NoFills(m: multiset<FillEvent>)
    ensures multiset([]) + m == m
  {
  }

  lemma {:induction false} PickTwo<T>(f: T, g: T, x: T, rest: multiset<T>)
    ensures multiset{x, f} + (multiset{g} + rest) == multiset{f, g} + (multiset{x} + rest) == multiset{x, g} +
            (multiset{f} + rest)
  {
  }

  lemma {:induction false} FlipsFirst(f: FillEvent, g: FillEvent, x: FillEvent, tail: seq<FillEvent>, k: real,
                                      h: FillEvent, b: seq<FillEvent>)
    requires (h == f && b == [g] + tail) || (h == g && b == [f] + tail)
    requires x.price != h.price && 0.0 < k <= x.quantity && h.quantity > 0.0
    ensures FlipsAt(multiset{f, g} + (multiset{x} + multiset(tail)), k, [], x, h, b)
  {
    PickTwo(f, g, x, multiset(tail));
    assert multiset(b) == multiset{if h == f then g else f} + multiset(tail);
    NoFills(multiset{x, h});
  }

  lemma {:induction false} Prepend(pair: multiset<FillEvent>, x: FillEvent, tail: seq<FillEvent>, k: real,
                                   a: seq<FillEvent>, h: FillEvent, h': FillEvent, b: seq<FillEvent>)
    requires FlipsAt(pair + multiset(tail), k - x.quantity, a, h, h', b)
    ensures FlipsAt(pair + (multiset{x} + multiset(tail)), k, [x] + a, h, h', b)
  {
    assert ([x] + a)[1..] == a && multiset([x] + a) == multiset{x} + multiset(a);
    Shift(pair, multiset(tail), multiset(a), multiset{h, h'}, multiset(b), x);
  }

  lemma {:induction false} Shift<T>(pair: multiset<T>, tail: multiset<T>, a: multiset<T>, two: multiset<T>,
                                    b: multiset<T>, x: T)
    requires a + two + b == pair + tail
    ensures multiset{x} + a + two + b == pair + (multiset{x} + tail)
  {
    assert multiset{x} + a + two + b == multiset{x} + (a + two + b);
    assert pair + (multiset{x} + tail) == multiset{x} + (pair + tail);
  }

  // ---------- From fills to arrangements ----------

  /** The fills on, or not on, the side of the net. */
  function Part(fills: seq<FillEvent>, id: Name, net: real, on: bool): (part: seq<FillEvent>)
    ensures forall f :: f in part <==> f in fills && OnSide(f, id, net) == on
  {
    if fills == [] then []
    else if OnSide(fills[0], id, net) == on then [fills[0]] + Part(fills[1..], id, net, on)
    else Part(fills[1..], id, net, on)
  }

  lemma {:induction false} Parts(fills: seq<FillEvent>, id: Name, net: real)
    ensures multiset(Part(fills, id, net, false)) + multiset(Part(fills, id, net, true)) == multiset(fills)
  {
    hide OnSide;
    if fills != [] {
      var f, rest := fills[0], fills[1..];
      Parts(rest, id, net);
      assert fills == [f] + rest && multiset(fills) == multiset{f} + multiset(rest);
      var off, on := Part(rest, id, net, false), Part(rest, id, net, true);
      assert multiset([f] + off) == multiset{f} + multiset(off) && multiset([f] + on) == multiset{f} + multiset(on);
      AddToEither(f, multiset(off), multiset(on));
    }
  }

  lemma {:induction false} AddToEither<T>(x: T, a: multiset<T>, b: multiset<T>)
    ensures (multiset{x} + a) + b == multiset{x} + (a + b) == a + (multiset{x} + b)
  {
  }

  lemma {:induction false} TakeOut(fills: seq<FillEvent>, f: FillEvent) returns (rest: seq<FillEvent>)
    requires f in fills
    ensures multiset{f} + multiset(rest) == multiset(fills) && forall g :: g in rest ==> g in fills
    ensures forall g :: g in fills && g != f ==> g in rest
  {
    var i :| 0 <= i < |fills| && fills[i] == f;
    rest := fills[..i] + fills[i + 1..];
    assert fills == fills[..i] + [f] + fills[i + 1..];
    assert multiset(fills) == multiset(fills[..i]) + multiset{f} + multiset(fills[i + 1..]);
  }

  lemma {:induction false} NetConcat(a: seq<FillEvent>, b: seq<FillEvent>, id: Name)
    ensures Net(a + b, id) == Net(a, id) + Net(b, id)
  {
    if a == [] {
      assert a + b == b;
    } else {
      assert (a + b)[0] == a[0] && (a + b)[1..] == a[1..] + b;
      NetConcat(a[1..], b, id);
    }
  }

  /** Fills on one side add their sizes to the net. */
  lemma {:induction false} NetOnSide(fills: seq<FillEvent>, id: Name, net: real)
    requires net != 0.0 && forall f :: f in fills ==> OnSide(f, id, net) && f.quantity > 0.0
    ensures Net(fills, id) == (if net > 0.0 then Size(fills) else -Size(fills)) && Size(fills) >= 0.0
  {
    if fills != [] {
      assert fills[0] in fills;
      NetOnSide(fills[1..], id, net);
    }
  }

  lemma {:induction false} FoldNet(q: Position, fills: seq<FillEvent>, id: Name)
    ensures Fold(q, fills, id).netQuantity == q.netQuantity + Net(fills, id)
    decreases |fills|
  {
    if fills != [] {
      var f := fills[0];
      TradeWorth(q, Signed(f), f.price);
      hide Trade, Times, Worth;
      FoldNet(if Of(f, id) then Trade(q, Signed(f), f.price) else q, fills[1..], id);
    }
  }

  lemma {:induction false} FoldTwo(q: Position, h: FillEvent, g: FillEvent, id: Name)
    requires Of(h, id) && Of(g, id)
    ensures Fold(q, [h] + [g], id) == Trade(Trade(q, Signed(h), h.price), Signed(g), g.price)
  {
    hide Trade;
    var q1 := Trade(q, Signed(h), h.price);
    assert ([h] + [g])[1..] == [g] && [g][1..] == [];
    assert Fold(q1, [g], id) == Fold(Trade(q1, Signed(g), g.price), [], id);
  }

  /**
   Swapping the two fills between which a position flips changes what it realizes, whatever comes after on their side.
   */
  lemma {:induction false} SwapRealizes(q: Position, h: FillEvent, g: FillEvent, rest: seq<FillEvent>, id: Name,
                                        net: real)
    requires net != 0.0 && Sign(q.netQuantity) == -Sign(net) && OnSide(h, id, net) && OnSide(g, id, net)
    requires h.quantity > 0.0 && g.quantity > 0.0 && h.price != g.price && Abs(q.netQuantity) < h.quantity + g.quantity
    requires forall f :: f in rest ==> OnSide(f, id, net) && f.quantity > 0.0
    ensures Fold(Fold(q, [h] + [g], id), rest, id).realizedPnl != Fold(Fold(q, [g] + [h], id), rest, id).realizedPnl
  {
    FoldTwo(q, h, g, id);
    FoldTwo(q, g, h, id);
    hide Fold, Times;
    TwoTrades(q, Signed(h), h.price, Signed(g), g.price);
    TwoTrades(q, Signed(g), g.price, Signed(h), h.price);
    SwapProfit(Abs(q.netQuantity), h.quantity, h.price, g.quantity, g.price, q.averageEntryPrice);
    hide Trade;
    var side := if net > 0.0 then Buy else Sell;
    OneSideRealizesNothing(Fold(q, [h] + [g], id), rest, id, side);
    OneSideRealizesNothing(Fold(q, [g] + [h], id), rest, id, side);
  }

  /** The side of the net can be arranged so that a position of size `k` flips between two prices. */
  lemma {:induction false} ArrangeSide(on: seq<FillEvent>, id: Name, net: real, f: FillEvent, g: FillEvent, k: real)
    returns (a: seq<FillEvent>, h: FillEvent, h': FillEvent, b: seq<FillEvent>)
    requires net != 0.0 && forall x :: x in on ==> OnSide(x, id, net) && x.quantity > 0.0
    requires f in on && g in on && f.price != g.price && 0.0 < k < Abs(Net(on, id))
    ensures FlipsAt(multiset(on), k, a, h, h', b)
    ensures forall x :: x in a || x == h || x == h' || x in b ==> x in on
  {
    var rest1 := TakeOut(on, f);
    var rest := TakeOut(rest1, g);
    var pair := [f] + ([g] + rest);
    assert multiset(pair) == multiset(on) by {
      assert multiset(pair) == multiset{f} + (multiset{g} + multiset(rest));
    }
    SameMultisetSameSums(pair, on, id);
    assert pair[1..] == [g] + rest && pair[1..][1..] == rest && Size(pair) == f.quantity + g.quantity + Size(rest);
    NetOnSide(pair, id, net);
    a, h, h', b := Arrange(f, g, rest, k);
    assert multiset{f, g} + multiset(rest) == multiset(on);
    forall x | x in a || x == h || x == h' || x in b
      ensures x in on
    {
      assert x in multiset(a) + multiset{h, h'} + multiset(b);
    }
  }

  lemma {:induction false} Assemble(off: seq<FillEvent>, a: seq<FillEvent>, h: FillEvent, g: FillEvent,
                                    b: seq<FillEvent>)
    ensures multiset(off + a + ([h] + [g]) + b) == multiset(off) + (multiset(a) + multiset{h, g} + multiset(b))
    ensures multiset(off + a + ([g] + [h]) + b) == multiset(off) + (multiset(a) + multiset{h, g} + multiset(b))
  {
    assert multiset([h] + [g]) == multiset{h, g} == multiset([g] + [h]);
  }

  /** Folding an arrangement in its parts. */
  lemma {:induction false} FoldParts(q: Position, off: seq<FillEvent>, a: seq<FillEvent>, two: seq<FillEvent>,
                                     b: seq<FillEvent>, id: Name)
    ensures Fold(q, off + a + two + b, id) == Fold(Fold(Fold(q, off + a, id), two, id), b, id)
  {
    hide Fold;
    FoldConcat(q, off + a + two, b, id);
    FoldConcat(q, off + a, two, id);
  }

  /** Where the position flips, it has been reduced by what came before. */
  lemma {:induction false} BeforeFlip(off: seq<FillEvent>, a: seq<FillEvent>, id: Name, net: real)
    requires net != 0.0 && Positive(off, id) && forall f :: f in off ==> !OnSide(f, id, net)
    requires forall f :: f in a ==> OnSide(f, id, net) && f.quantity > 0.0
    requires Size(a) < Abs(Net(off, id)) && Sign(Net(off, id)) == -Sign(net)
    ensures var q := Fold(NO_POSITION, off + a, id);
            Sign(q.netQuantity) == -Sign(net) && Abs(q.netQuantity) == Abs(Net(off, id)) - Size(a)
  {
    hide Fold, Net;
    FoldNet(NO_POSITION, off + a, id);
    NetConcat(off, a, id);
    NetOnSide(a, id, net);
  }

  /** Net quantities of the two parts. */
  lemma {:induction false} PartNets(fills: seq<FillEvent>, id: Name)
    requires Positive(fills, id) && Net(fills, id) != 0.0 && !OneSided(fills, id)
    ensures var net := Net(fills, id);
            var off, on := Net(Part(fills, id, net, false), id), Net(Part(fills, id, net, true), id);
            Sign(off) == -Sign(net) && 0.0 < Abs(off) < Abs(on)
  {
    hide Net, Part, Fold;
    var net := Net(fills, id);
    var off, on := Part(fills, id, net, false), Part(fills, id, net, true);
    Parts(fills, id, net);
    assert multiset(off + on) == multiset(fills);
    SameMultisetSameSums(off + on, fills, id);
    NetConcat(off, on, id);
    NetOnSide(on, id, net);
    var f, g :| f in fills && g in fills && Of(f, id) && Of(g, id) && f.side != g.side;
    assert f in off || g in off;
    OneSideRealizesNothing(NO_POSITION, off, id, if net > 0.0 then Sell else Buy);
  }

  /** Otherwise two orders of the fills realize different profits. */
  lemma {:induction false} MixedIsNotFixed(fills: seq<FillEvent>, id: Name)
    requires Positive(fills, id) && Net(fills, id) != 0.0 && !OneSided(fills, id) && !OnePrice(fills, id)
    ensures !SplitIsFixed(fills, id)
  {
    hide Net, Part, Fold, Realized, OneSided;
    var net := Net(fills, id);
    var off, on := Part(fills, id, net, false), Part(fills, id, net, true);
    var f, g :| f in fills && g in fills && OnSide(f, id, net) && OnSide(g, id, net) && f.price != g.price;
    Parts(fills, id, net);
    PartNets(fills, id);
    var a, h, h', b := ArrangeSide(on, id, net, f, g, Abs(Net(off, id)));
    Assemble(off, a, h, h', b);
    var one, two := off + a + ([h] + [h']) + b, off + a + ([h'] + [h]) + b;
    assert multiset(one) == multiset(two) == multiset(fills);
    hide OnePrice, SplitIsFixed;
    ArrangementsDiffer(off, a, h, h', b, id, net);
    hide FlipsAt, OnSide, Positive;
    Refutes(fills, one, two, id);
  }

  lemma {:induction false} Refutes(fills: seq<FillEvent>, one: seq<FillEvent>, two: seq<FillEvent>, id: Name)
    requires multiset(one) == multiset(two) == multiset(fills) && Realized(one, id) != Realized(two, id)
    ensures !SplitIsFixed(fills, id)
  {
    hide Realized;
  }

  lemma {:induction false} ArrangementsDiffer(off: seq<FillEvent>, a: seq<FillEvent>, h: FillEvent, h': FillEvent,
                                              b: seq<FillEvent>, id: Name, net: real)
    requires net != 0.0 && Positive(off, id) && forall f :: f in off ==> !OnSide(f, id, net)
    requires forall f :: f in a || f == h || f == h' || f in b ==> OnSide(f, id, net) && f.quantity > 0.0
    requires Sign(Net(off, id)) == -Sign(net) && h.price != h'.price
    requires Size(a) < Abs(Net(off, id)) < Size(a) + h.quantity + h'.quantity
    ensures Realized(off + a + ([h] + [h']) + b, id) != Realized(off + a + ([h'] + [h]) + b, id)
  {
    hide Net, Fold, AfterFills;
    BeforeFlip(off, a, id, net);
    var q := Fold(NO_POSITION, off + a, id);
    SwapRealizes(q, h, h', b, id, net);
    FoldParts(NO_POSITION, off, a, [h] + [h'], b, id);
    FoldParts(NO_POSITION, off, a, [h'] + [h], b, id);
    FoldCore(EMPTY_PORTFOLIO, off + a + ([h] + [h']) + b, id, NO_POSITION);
    FoldCore(EMPTY_PORTFOLIO, off + a + ([h'] + [h]) + b, id, NO_POSITION);
  }

  /**
   For positive fills, every order realizes the same profit if and only if the position ends flat, or all fills are on
   one side, or all fills on the side of the net have one price.
   */
  lemma {:induction false} SplitIsFixedExactly(fills: seq<FillEvent>, id: Name)
    requires Positive(fills, id)
    ensures SplitIsFixed(fills, id) <==> Net(fills, id) == 0.0 || OneSided(fills, id) || OnePrice(fills, id)
  {
    hide SplitIsFixed, Net, OneSided, OnePrice, Positive;
    if Net(fills, id) == 0.0 {
      FlatIsFixed(fills, id);
    } else if OneSided(fills, id) {
      OneSidedIsFixed(fills, id);
    } else if OnePrice(fills, id) {
      OnePriceIsFixed(fills, id);
    } else {
      MixedIsNotFixed(fills, id);
    }
  }
}
