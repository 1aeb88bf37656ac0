/** The accounting identities behind the portfolio, for every sequence of fills over any instruments. */
module PortfolioLaws {
  import opened Types
  import opened Portfolios

  /** Realized profit less what the open quantity cost: the cash a position has produced. */
  function Worth(p: Position): real {
    p.realizedPnl - Times(p.netQuantity, p.averageEntryPrice)
  }

  lemma IncreaseWorth(p: Position, quantity: real, price: real)
    requires p.netQuantity == 0.0 || Sign(p.netQuantity) == Sign(quantity)
    ensures Worth(Increase(p, quantity, price)) == Worth(p) - Times(quantity, price)
  {
    var n, a := p.netQuantity, p.averageEntryPrice;
    var net := n + quantity;
    var notional := Times(Abs(n), a) + Times(Abs(quantity), price);
    if Abs(net) > 0.0 {
      assert Times(Abs(net), notional / Abs(net)) == notional;
      if net > 0.0 {
        assert Times(Abs(n), a) == Times(n, a) && Times(Abs(quantity), price) == Times(quantity, price);
      } else {
        assert Times(Abs(n), a) == -Times(n, a) && Times(Abs(quantity), price) == -Times(quantity, price);
        assert Times(net, notional / Abs(net)) == -Times(Abs(net), notional / Abs(net));
      }
    } else {
      assert n == 0.0 && quantity == 0.0;
    }
  }

  lemma DecreaseWorth(p: Position, quantity: real, price: real)
    requires p.netQuantity != 0.0 && Sign(p.netQuantity) != Sign(quantity)
    ensures Worth(Decrease(p, quantity, price)) == Worth(p) - Times(quantity, price)
  {
    var n, a := p.netQuantity, p.averageEntryPrice;
    var closing := Min(Abs(n), Abs(quantity));
    var net := n + quantity;
    var p' := Decrease(p, quantity, price);
    if net == 0.0 || Sign(n) != Sign(net) {
      assert closing == Abs(n);
      assert p'.realizedPnl == p.realizedPnl + n * (price - a);
      assert Times(net, p'.averageEntryPrice) == net * price;
      assert n * (price - a) == n * price - n * a;
      assert net * price == n * price + quantity * price;
    } else {
      assert closing == Abs(quantity);
      assert p'.realizedPnl == p.realizedPnl - quantity * (price - a);
      assert quantity * (price - a) == quantity * price - quantity * a;
      assert net * a == n * a + quantity * a;
    }
  }

  /** Every trade, whatever its branch, adds exactly its cash flow to the worth of the position. */
  lemma TradeWorth(p: Position, quantity: real, price: real)
    ensures Worth(Trade(p, quantity, price)) == Worth(p) - Times(quantity, price)
    ensures Trade(p, quantity, price).netQuantity == p.netQuantity + quantity
  {
    if p.netQuantity == 0.0 || Sign(p.netQuantity) == Sign(quantity) {
      IncreaseWorth(p, quantity, price);
    } else {
      DecreaseWorth(p, quantity, price);
    }
  }

  /**
   When profit is realized and when the average moves.  Adding to a position, or opening one, realizes nothing; reducing
   one keeps its average; closing it leaves none; and a flip starts over at the price.  With `TradeWorth` this fixes the
   whole position.
   */
  lemma TradeMoves(p: Position, quantity: real, price: real)
    ensures var p' := Trade(p, quantity, price);
            var n, n' := p.netQuantity, p.netQuantity + quantity;
            && p'.positionId == p.positionId && p'.instrument == p.instrument && p'.unrealizedPnl == p.unrealizedPnl
            && (n * quantity >= 0.0 ==> p'.realizedPnl == p.realizedPnl)
            && (n' == 0.0 ==> p'.averageEntryPrice == 0.0)
            && (n * quantity <= 0.0 && n * n' > 0.0 ==> p'.averageEntryPrice == p.averageEntryPrice)
            && (n * n' < 0.0 ==> p'.averageEntryPrice == price)
  {
    SignsAgree(p.netQuantity, quantity);
    SignsAgree(p.netQuantity, p.netQuantity + quantity);
    assert Times(0.0, price - p.averageEntryPrice) == 0.0;
    hide Times;
  }

  lemma SignsAgree(x: real, y: real)
    ensures x * y > 0.0 <==> (x > 0.0 && y > 0.0) || (x < 0.0 && y < 0.0)
    ensures x * y < 0.0 <==> (x > 0.0 && y < 0.0) || (x < 0.0 && y > 0.0)
  {
  }

  // ---------- What a sequence of fills adds up to ----------

  predicate Of(f: FillEvent, id: Name) {
    f.instrument.instrumentId == id
  }

  function Net(fills: seq<FillEvent>, id: Name): real {
    if fills == [] then 0.0 else (if Of(fills[0], id) then Signed(fills[0]) else 0.0) + Net(fills[1..], id)
  }

  /** Signed cash flow: what was received less what was paid, without fees. */
  function Cash(fills: seq<FillEvent>, id: Name): real {
    if fills == [] then 0.0
      else (if Of(fills[0], id) then -Times(Signed(fills[0]), fills[0].price) else 0.0) + Cash(fills[1..], id)
  }

  function Fees(fills: seq<FillEvent>, id: Name): real {
    if fills == [] then 0.0 else (if Of(fills[0], id) then fills[0].fee else 0.0) + Fees(fills[1..], id)
  }

  /** One fill moves net quantity and worth of its own position, and of no other. */
  lemma {:induction false} FillMoves(p: Portfolio, f: FillEvent, id: Name)
    ensures var q, q' := PositionOf(p, id), PositionOf(AfterFill(p, f), id);
            && q'.netQuantity == q.netQuantity + (if Of(f, id) then Signed(f) else 0.0)
            && Worth(q') == Worth(q) + (if Of(f, id) then -Times(Signed(f), f.price) else 0.0)
  {
    hide Times, Trade;
    if Of(f, id) {
      TradeWorth(Opened(PositionOf(p, id), f.instrument), Signed(f), f.price);
    }
  }

  /** Over any fills, a position's net quantity is the sum of its signed fills and its worth their cash flow. */
  lemma {:induction false} PositionAddsUp(p: Portfolio, fills: seq<FillEvent>, id: Name)
    ensures var q, q' := PositionOf(p, id), PositionOf(AfterFills(p, fills), id);
            && q'.netQuantity == q.netQuantity + Net(fills, id)
            && Worth(q') == Worth(q) + Cash(fills, id)
    decreases |fills|
  {
    hide Worth, Times, AfterFill;
    if fills != [] {
      FillMoves(p, fills[0], id);
      PositionAddsUp(AfterFill(p, fills[0]), fills[1..], id);
    }
  }

  // ---------- Profit and loss ----------

  lemma {:induction false} MarkTotal(q: Position, mark: real)
    ensures Marked(q, mark).realizedPnl + Marked(q, mark).unrealizedPnl == Worth(q) + Times(q.netQuantity, mark)
    ensures Marked(q, mark).netQuantity == q.netQuantity
    ensures Worth(NO_POSITION) == 0.0
  {
    var n, a := q.netQuantity, q.averageEntryPrice;
    assert n * (mark - a) == n * mark - n * a;
  }

  lemma {:induction false} RemoveOne(fills: seq<FillEvent>, i: nat, id: Name)
    requires i < |fills|
    ensures var rest := fills[..i] + fills[i + 1..];
            && Net(fills, id) == Net([fills[i]], id) + Net(rest, id)
            && Cash(fills, id) == Cash([fills[i]], id) + Cash(rest, id)
  {
    hide Times;
    var rest := fills[..i] + fills[i + 1..];
    assert [fills[i]][1..] == [];
    if i == 0 {
      assert rest == fills[1..];
    } else {
      RemoveOne(fills[1..], i - 1, id);
      assert fills[1..][..i - 1] + fills[1..][i..] == rest[1..];
      assert rest[0] == fills[0] && fills[1..][i - 1] == fills[i];
    }
  }

  lemma {:induction false} SameMultisetSameSums(fills: seq<FillEvent>, fills': seq<FillEvent>, id: Name)
    requires multiset(fills) == multiset(fills')
    ensures Net(fills, id) == Net(fills', id) && Cash(fills, id) == Cash(fills', id)
    decreases |fills|
  {
    hide Net, Cash;
    if fills == [] {
      assert |multiset(fills')| == |fills'|;
    } else {
      var i := Matching(fills, fills');
      RemoveOne(fills', i, id);
      RemoveOne(fills, 0, id);
      assert fills[..0] + fills[1..] == fills[1..];
      SameMultisetSameSums(fills[1..], fills'[..i] + fills'[i + 1..], id);
    }
  }

  /** The first element of one sequence can be taken out of any rearrangement of it. */
  lemma {:induction false} Matching<T>(s: seq<T>, t: seq<T>) returns (i: nat)
    requires s != [] && multiset(s) == multiset(t)
    ensures i < |t| && t[i] == s[0] && multiset(s[1..]) == multiset(t[..i] + t[i + 1..])
  {
    assert s[0] in multiset(s);
    assert s[0] in t;
    i :| i < |t| && t[i] == s[0];
    assert s == [s[0]] + s[1..] && multiset(s) == multiset{s[0]} + multiset(s[1..]);
    assert t == t[..i] + [t[i]] + t[i + 1..] && multiset(t) == multiset(t[..i]) + multiset{t[i]} + multiset(t[i + 1..]);
    Cancelled(s[0], multiset(s[1..]), multiset(t[..i]), multiset(t[i + 1..]));
    assert multiset(t[..i] + t[i + 1..]) == multiset(t[..i]) + multiset(t[i + 1..]);
  }

  lemma {:induction false} Cancelled<T>(x: T, rest: multiset<T>, a: multiset<T>, b: multiset<T>)
    requires multiset{x} + rest == a + multiset{x} + b
    ensures rest == a + b
  {
    assert rest == (multiset{x} + rest) - multiset{x};
    assert a + b == (a + multiset{x} + b) - multiset{x};
  }

  /** The split between realized and unrealized does depend on the order. */
  lemma {:induction false} SplitDependsOnOrder() returns (fills: seq<FillEvent>, fills': seq<FillEvent>, id: Name)
    ensures multiset(fills) == multiset(fills')
    ensures PositionOf(AfterFills(EMPTY_PORTFOLIO, fills),
                       id).realizedPnl != PositionOf(AfterFills(EMPTY_PORTFOLIO, fills'), id).realizedPnl
  {
    id := Other(0);
    var i := Instrument(id, Other(1), Other(2));
    var b1 := FillEvent(FillName(1), OrderName(1), i, Buy, 10.0, 1.0, 0.0);
    var b2 := FillEvent(FillName(2), OrderName(2), i, Buy, 20.0, 1.0, 0.0);
    var s := FillEvent(FillName(3), OrderName(3), i, Sell, 30.0, 1.0, 0.0);
    hide AfterFills, AfterFill, PositionOf;
    fills, fills' := [b1, b2, s], [b1, s, b2];
    SwapLast(b1, b2, s);
    ThreeFills(b1, b2, s);
    ThreeFills(b1, s, b2);
    FirstFill(b1);
    RealizedAfter(AfterFill(EMPTY_PORTFOLIO, b1), b2, s, 15.0);
    RealizedAfter(AfterFill(EMPTY_PORTFOLIO, b1), s, b2, 20.0);
  }

  lemma {:induction false} SwapLast(a: FillEvent, b: FillEvent, c: FillEvent)
    ensures multiset([a, b, c]) == multiset([a, c, b])
  {
    assert [a, b, c] == [a] + [b] + [c] && [a, c, b] == [a] + [c] + [b];
  }

  lemma {:induction false} FirstFill(f: FillEvent)
    requires f.side == Buy && f.quantity == 1.0 && f.price == 10.0
    ensures var q := PositionOf(AfterFill(EMPTY_PORTFOLIO, f), f.instrument.instrumentId);
            q.netQuantity == 1.0 && q.averageEntryPrice == 10.0 && q.realizedPnl == 0.0
  {
  }

  lemma {:induction false} RealizedAfter(p: Portfolio, a: FillEvent, b: FillEvent, realized: real)
    requires a.instrument == b.instrument && PositionOf(p, a.instrument.instrumentId).netQuantity == 1.0
    requires PositionOf(p, a.instrument.instrumentId).averageEntryPrice == 10.0
    requires PositionOf(p, a.instrument.instrumentId).realizedPnl == 0.0
    requires a.quantity == b.quantity == 1.0
    requires if a.side == Buy then a.price == 20.0 && b.side == Sell && b.price == 30.0 && realized == 15.0
             else a.price == 30.0 && b.side == Buy && b.price == 20.0 && realized == 20.0
    ensures PositionOf(AfterFill(AfterFill(p, a), b), a.instrument.instrumentId).realizedPnl == realized
  {
    var id := a.instrument.instrumentId;
    var q := PositionOf(AfterFill(p, a), id);
    if a.side == Buy {
      assert q.netQuantity == 2.0 && q.averageEntryPrice == 15.0 && q.realizedPnl == 0.0;
    } else {
      assert q.netQuantity == 0.0 && q.realizedPnl == 20.0;
    }
  }

  lemma {:induction false} ThreeFills(a: FillEvent, b: FillEvent, c: FillEvent)
    ensures AfterFills(EMPTY_PORTFOLIO, [a, b, c]) == AfterFill(AfterFill(AfterFill(EMPTY_PORTFOLIO, a), b), c)
  {
    hide AfterFill;
    assert [a, b, c][1..] == [b, c] && [b, c][1..] == [c] && [c][1..] == [];
    var p1 := AfterFill(EMPTY_PORTFOLIO, a);
    var p2 := AfterFill(p1, b);
    assert AfterFills(p1, [b, c]) == AfterFills(p2, [c]) == AfterFills(AfterFill(p2, c), []);
  }

  // ---------- Balances ----------

  /** Some key of a map that has one. */
  ghost function Pick(m: map<Name, real>): (k: Name)
    requires |m| > 0
    ensures k in m
  {
    assert |m.Keys| > 0;
    assert m.Keys != {};
    var k :| k in m.Keys;
    k
  }

  lemma {:induction false} DropSize(m: map<Name, real>, k: Name)
    requires k in m
    ensures |m - {k}| == |m| - 1
  {
    assert (m - {k}).Keys == m.Keys - {k};
  }

  /** The sum of the values of a map. */
  ghost function Sum(m: map<Name, real>): real
    decreases |m|
  {
    if |m| == 0 then 0.0
    else
      DropSize(m, Pick(m));
      m[Pick(m)] + Sum(m - {Pick(m)})
  }

  lemma {:induction false} SumPick(m: map<Name, real>)
    requires |m| > 0
    ensures Sum(m) == m[Pick(m)] + Sum(m - {Pick(m)})
  {
  }

  /** Any key can be taken out first. */
  lemma {:induction false} SumWithout(m: map<Name, real>, k: Name)
    requires k in m
    ensures Sum(m) == m[k] + Sum(m - {k})
    decreases |m|
  {
    hide Sum, Pick;
    DropSize(m, k);
    var j := Pick(m);
    SumPick(m);
    if j != k {
      DropSize(m, j);
      SumWithout(m - {j}, k);
      SumWithout(m - {k}, j);
      assert m - {j} - {k} == m - {k} - {j};
    }
  }

  lemma {:induction false} SumUpdate(m: map<Name, real>, k: Name, v: real)
    ensures Sum(m[k := v]) == Sum(m) + v - (if k in m then m[k] else 0.0)
  {
    hide Sum;
    SumWithout(m[k := v], k);
    if k in m {
      SumWithout(m, k);
      assert m[k := v] - {k} == m - {k};
    } else {
      assert m[k := v] - {k} == m;
    }
  }

  /** What a position and its fees contribute to the balance of an asset. */
  function Share(q: Position, fees: real, asset: Name): real {
    (if q.instrument.baseAsset == asset then q.netQuantity else 0.0) +
    (if q.instrument.quoteAsset == asset then Worth(q) - fees else 0.0)
  }

  ghost function Shares(p: Portfolio, fills: seq<FillEvent>, asset: Name): map<Name, real> {
    map k | k in p.positions :: Share(p.positions[k], Fees(fills, k), asset)
  }

  /** Fills of one instrument id always name the same base and quote asset. */
  ghost predicate ConsistentMetadata(fills: seq<FillEvent>) {
    forall f, g :: f in fills && g in fills && f.instrument.instrumentId == g.instrument.instrumentId ==>
      f.instrument.baseAsset == g.instrument.baseAsset && f.instrument.quoteAsset == g.instrument.quoteAsset
  }

  lemma {:induction false} AfterFillsSnoc(p: Portfolio, fills: seq<FillEvent>, f: FillEvent)
    ensures AfterFills(p, fills + [f]) == AfterFill(AfterFills(p, fills), f)
    decreases |fills|
  {
    hide AfterFill;
    if fills == [] {
      assert fills + [f] == [f] && [f][1..] == [];
      assert AfterFills(p, [f]) == AfterFills(AfterFill(p, f), []);
    } else {
      assert (fills + [f])[0] == fills[0] && (fills + [f])[1..] == fills[1..] + [f];
      AfterFillsSnoc(AfterFill(p, fills[0]), fills[1..], f);
    }
  }

  lemma {:induction false} FeesSnoc(fills: seq<FillEvent>, f: FillEvent, id: Name)
    ensures Fees(fills + [f], id) == Fees(fills, id) + (if Of(f, id) then f.fee else 0.0)
  {
    if fills == [] {
      assert fills + [f] == [f] && [f][1..] == [];
    } else {
      assert (fills + [f])[0] == fills[0] && (fills + [f])[1..] == fills[1..] + [f];
      FeesSnoc(fills[1..], f, id);
    }
  }

  /** Positions remember the instrument of one of their fills. */
  ghost predicate Remembers(p: Portfolio, fills: seq<FillEvent>) {
    forall k :: k in p.positions ==>
      p.positions[k].positionId.Some? && exists f :: f in fills && Of(f, k) && p.positions[k].instrument == f.instrument
  }

  lemma {:induction false} RemembersSnoc(p: Portfolio, fills: seq<FillEvent>, f: FillEvent)
    requires Remembers(p, fills)
    ensures Remembers(AfterFill(p, f), fills + [f])
  {
    hide Trade, Times;
    var p', id := AfterFill(p, f), f.instrument.instrumentId;
    TradeKeepsInstrument(Opened(PositionOf(p, id), f.instrument), Signed(f), f.price);
    forall k | k in p'.positions
      ensures p'.positions[k].positionId.Some?
      ensures exists g :: g in fills + [f] && Of(g, k) && p'.positions[k].instrument == g.instrument
    {
      if k in p.positions {
        var g :| g in fills && Of(g, k) && p.positions[k].instrument == g.instrument;
        assert g in fills + [f];
      } else {
        assert f in fills + [f];
      }
    }
  }

  lemma {:induction false} TradeKeepsInstrument(q: Position, quantity: real, price: real)
    ensures Trade(q, quantity, price).instrument == q.instrument && Trade(q, quantity, price).positionId == q.positionId
  {
    hide Times;
  }

  /** One fill changes the share of its position by what it credits to the balance. */
  lemma {:induction false} ShareMoves(p: Portfolio, f: FillEvent, fees: real, asset: Name)
    requires var q := PositionOf(p, f.instrument.instrumentId);
             q.positionId.Some? ==>
               q.instrument.baseAsset == f.instrument.baseAsset && q.instrument.quoteAsset == f.instrument.quoteAsset
    requires PositionOf(p, f.instrument.instrumentId).positionId.None? ==>
               PositionOf(p, f.instrument.instrumentId) == NO_POSITION && fees == 0.0
    ensures var q := PositionOf(p, f.instrument.instrumentId);
            Share(FillPosition(p, f), fees + f.fee, asset) ==
            (if q.positionId.Some? then Share(q, fees, asset) else 0.0) +
            (if f.instrument.baseAsset == asset then Signed(f) else 0.0) +
              (if f.instrument.quoteAsset == asset then Proceeds(f) else 0.0)
  {
    hide Times, Worth, FillPosition, AfterFill;
    FillMoves(p, f, f.instrument.instrumentId);
    FilledPosition(p, f);
    WorthOfNothing();
  }

  lemma {:induction false} FilledPosition(p: Portfolio, f: FillEvent)
    ensures var id := f.instrument.instrumentId;
            && PositionOf(AfterFill(p, f), id) == FillPosition(p, f)
            && FillPosition(p, f).instrument == Opened(PositionOf(p, id), f.instrument).instrument
  {
    hide Trade;
    TradeKeepsInstrument(Opened(PositionOf(p, f.instrument.instrumentId), f.instrument), Signed(f), f.price);
  }

  lemma {:induction false} WorthOfNothing()
    ensures Worth(NO_POSITION) == 0.0
  {
  }

  lemma {:induction false} CreditMoves(p: Portfolio, f: FillEvent, asset: Name)
    ensures BalanceOf(AfterFill(p, f), asset).total == BalanceOf(p, asset).total +
            (if f.instrument.baseAsset == asset then Signed(f) else 0.0) +
              (if f.instrument.quoteAsset == asset then Proceeds(f) else 0.0)
  {
    hide Proceeds, FillPosition;
  }

  lemma {:induction false} NoFees(p: Portfolio, fills: seq<FillEvent>, id: Name)
    requires p == AfterFills(EMPTY_PORTFOLIO, fills) && id !in p.positions
    ensures Fees(fills, id) == 0.0
    decreases |fills|
  {
    hide AfterFill, AfterFills;
    if fills != [] {
      var pre, f := fills[..|fills| - 1], fills[|fills| - 1];
      assert fills == pre + [f];
      AfterFillsSnoc(EMPTY_PORTFOLIO, pre, f);
      FeesSnoc(pre, f, id);
      KeysAfter(AfterFills(EMPTY_PORTFOLIO, pre), f);
      NoFees(AfterFills(EMPTY_PORTFOLIO, pre), pre, id);
    }
  }

  lemma {:induction false} KeysAfter(p: Portfolio, f: FillEvent)
    ensures AfterFill(p, f).positions == p.positions[f.instrument.instrumentId := FillPosition(p, f)]
  {
  }

  /** Whatever the fills, all of a balance is available if it was so before. */
  lemma {:induction false} AllAvailable(p: Portfolio, fills: seq<FillEvent>, asset: Name)
    requires BalanceOf(p, asset).available == BalanceOf(p, asset).total
    ensures var p' := AfterFills(p, fills);
            BalanceOf(p', asset).available == BalanceOf(p', asset).total
    decreases |fills|
  {
    hide Proceeds, FillPosition;
    if fills != [] {
      AllAvailable(AfterFill(p, fills[0]), fills[1..], asset);
    }
  }

  /**
   For any fills with consistent metadata, the balance of every asset, all of it available, is the net quantity of
   the positions that have it as base, plus realized profit less the cost of the open quantity and less fees, of
   the positions that have it as quote.
   */
  lemma {:induction false} BalancesMatchPositions(fills: seq<FillEvent>, asset: Name)
    requires ConsistentMetadata(fills)
    ensures var p := AfterFills(EMPTY_PORTFOLIO, fills);
            && Remembers(p, fills)
            && BalanceOf(p, asset).available == BalanceOf(p, asset).total == Sum(Shares(p, fills, asset))
    decreases |fills|
  {
    AllAvailable(EMPTY_PORTFOLIO, fills, asset);
    if fills == [] {
      assert Shares(EMPTY_PORTFOLIO, [], asset) == map[];
    } else {
      var pre, f := fills[..|fills| - 1], fills[|fills| - 1];
      assert fills == pre + [f];
      BalancesMatchPositions(pre, asset);
      AfterFillsSnoc(EMPTY_PORTFOLIO, pre, f);
      RemembersSnoc(AfterFills(EMPTY_PORTFOLIO, pre), pre, f);
      BalanceStep(AfterFills(EMPTY_PORTFOLIO, pre), pre, f, asset);
    }
  }

  lemma {:induction false} BalanceStep(p: Portfolio, fills: seq<FillEvent>, f: FillEvent, asset: Name)
    requires p == AfterFills(EMPTY_PORTFOLIO, fills) && Remembers(p, fills) && ConsistentMetadata(fills + [f])
    requires BalanceOf(p, asset).total == Sum(Shares(p, fills, asset))
    ensures var p' := AfterFill(p, f);
            BalanceOf(p', asset).total == Sum(Shares(p', fills + [f], asset))
  {
    hide AfterFill, AfterFills, Share, Sum, FillPosition, Proceeds, Fees;
    var id := f.instrument.instrumentId;
    var fees := Fees(fills, id);
    CreditMoves(p, f, asset);
    if id in p.positions {
      SameAssets(p, fills, f);
    } else {
      NoFees(p, fills, id);
    }
    ShareMoves(p, f, fees, asset);
    SharesSnoc(p, fills, f, asset);
    var m := Shares(p, fills, asset);
    SumUpdate(m, id, Share(FillPosition(p, f), fees + f.fee, asset));
  }

  lemma {:induction false} SameAssets(p: Portfolio, fills: seq<FillEvent>, f: FillEvent)
    requires Remembers(p, fills) && ConsistentMetadata(fills + [f]) && f.instrument.instrumentId in p.positions
    ensures var q := p.positions[f.instrument.instrumentId];
            q.positionId.Some? && q.instrument.baseAsset == f.instrument.baseAsset &&
              q.instrument.quoteAsset == f.instrument.quoteAsset
  {
    var id := f.instrument.instrumentId;
    var g :| g in fills && Of(g, id) && p.positions[id].instrument == g.instrument;
    assert g in fills + [f] && f in fills + [f];
  }

  lemma {:induction false} SharesSnoc(p: Portfolio, fills: seq<FillEvent>, f: FillEvent, asset: Name)
    ensures var id := f.instrument.instrumentId;
            Shares(AfterFill(p, f), fills + [f], asset) ==
            Shares(p, fills, asset)[id := Share(FillPosition(p, f), Fees(fills, id) + f.fee, asset)]
  {
    hide AfterFill, Share, FillPosition, Fees;
    KeysAfter(p, f);
    forall k
      ensures Fees(fills + [f], k) == Fees(fills, k) + (if Of(f, k) then f.fee else 0.0)
    {
      FeesSnoc(fills, f, k);
    }
  }

  // ---------- The average entry price ----------

  /** The prices that entered the open position, since it was last opened from flat or flipped. */
  function Entries(fills: seq<FillEvent>, id: Name): seq<real> {
    if fills == [] then []
    else
      var pre, f := fills[..|fills| - 1], fills[|fills| - 1];
      var before := Net(pre, id);
      var after := before + Signed(f);
      if !Of(f, id) then Entries(pre, id)
      else if after == 0.0 then []
      else if before == 0.0 || Sign(before) != Sign(after) then [f.price]
      else if Sign(before) == Sign(Signed(f)) then Entries(pre, id) + [f.price]
      else Entries(pre, id)
  }

  ghost predicate Within(prices: seq<real>, low: real, high: real) {
    forall x :: x in prices ==> low <= x <= high
  }

  lemma {:induction false} NetSnoc(fills: seq<FillEvent>, f: FillEvent, id: Name)
    ensures Net(fills + [f], id) == Net(fills, id) + (if Of(f, id) then Signed(f) else 0.0)
  {
    if fills == [] {
      assert fills + [f] == [f] && [f][1..] == [];
    } else {
      assert (fills + [f])[0] == fills[0] && (fills + [f])[1..] == fills[1..] + [f];
      NetSnoc(fills[1..], f, id);
    }
  }

  lemma Scale(k: real, x: real, y: real)
    requires k >= 0.0 && (k > 0.0 ==> x <= y)
    ensures Times(k, x) <= Times(k, y)
  {
    if k > 0.0 && x < y {
      assert k * (y - x) > 0.0;
    }
  }

  lemma Distribute(a: real, b: real, x: real)
    ensures Times(a + b, x) == Times(a, x) + Times(b, x)
  {
  }

  lemma Quotient(total: real, weight: real, bound: real)
    requires weight > 0.0
    ensures Times(weight, bound) <= total ==> bound <= total / weight
    ensures total <= Times(weight, bound) ==> total / weight <= bound
  {
    var mean := total / weight;
    assert mean * weight == total;
    if bound > mean {
      assert (bound - mean) * weight > 0.0;
    }
    if mean > bound {
      assert (mean - bound) * weight > 0.0;
    }
  }

  lemma WeightedMean(a: real, x: real, b: real, y: real, low: real, high: real)
    requires a >= 0.0 && b > 0.0 && low <= y <= high && (a > 0.0 ==> low <= x <= high)
    ensures low <= (Times(a, x) + Times(b, y)) / (a + b) <= high
  {
    hide Times;
    Scale(a, low, x);
    Scale(a, x, high);
    Scale(b, low, y);
    Scale(b, y, high);
    Distribute(a, b, low);
    Distribute(a, b, high);
    Quotient(Times(a, x) + Times(b, y), a + b, low);
    Quotient(Times(a, x) + Times(b, y), a + b, high);
  }

  /** One trade of positive size keeps the average within any bounds on the entries. */
  lemma {:induction false} TradeAverage(p: Position, quantity: real, price: real, low: real, high: real)
    requires quantity != 0.0 && p.netQuantity + quantity != 0.0
    requires var opens := p.netQuantity == 0.0 || Sign(p.netQuantity) != Sign(p.netQuantity + quantity);
             && (opens || Sign(p.netQuantity) == Sign(quantity) ==> low <= price <= high)
             && (!opens ==> low <= p.averageEntryPrice <= high)
    ensures low <= Trade(p, quantity, price).averageEntryPrice <= high
  {
    hide Times;
    if p.netQuantity == 0.0 || Sign(p.netQuantity) == Sign(quantity) {
      WeightedMean(Abs(p.netQuantity), p.averageEntryPrice, Abs(quantity), price, low, high);
      assert Abs(p.netQuantity + quantity) == Abs(p.netQuantity) + Abs(quantity);
    }
  }

  /**
   While a position is open, its average entry price lies within any bounds on the prices that entered it
   since it was last opened or flipped, for all fills of positive quantity.
   */
  lemma {:induction false} AverageWithinEntries(fills: seq<FillEvent>, id: Name, low: real, high: real)
    requires forall f :: f in fills && Of(f, id) ==> f.quantity > 0.0
    requires Net(fills, id) != 0.0 && Within(Entries(fills, id), low, high)
    ensures Entries(fills, id) != []
    ensures low <= PositionOf(AfterFills(EMPTY_PORTFOLIO, fills), id).averageEntryPrice <= high
    decreases |fills|
  {
    hide AfterFills, AfterFill, Trade, Net, Worth, Cash;
    NetOfNothing(id);
    var pre, f := fills[..|fills| - 1], fills[|fills| - 1];
    assert fills == pre + [f] && f in fills;
    NetSnoc(pre, f, id);
    AfterFillsSnoc(EMPTY_PORTFOLIO, pre, f);
    var p := AfterFills(EMPTY_PORTFOLIO, pre);
    PositionAddsUp(EMPTY_PORTFOLIO, pre, id);
    AverageAfter(p, f, id);
    var before := Net(pre, id);
    if !Of(f, id) {
      AverageWithinEntries(pre, id, low, high);
    } else if before == 0.0 || Sign(before) != Sign(before + Signed(f)) {
      assert f.price in Entries(fills, id);
      TradeAverage(Opened(PositionOf(p, id), f.instrument), Signed(f), f.price, low, high);
    } else {
      assert forall x :: x in Entries(pre, id) ==> x in Entries(fills, id);
      AverageWithinEntries(pre, id, low, high);
      assert Sign(before) == Sign(Signed(f)) ==> f.price in Entries(fills, id);
      TradeAverage(Opened(PositionOf(p, id), f.instrument), Signed(f), f.price, low, high);
    }
  }

  lemma {:induction false} NetOfNothing(id: Name)
    ensures Net([], id) == 0.0
  {
  }

  lemma {:induction false} AverageAfter(p: Portfolio, f: FillEvent, id: Name)
    ensures PositionOf(AfterFill(p, f), id).averageEntryPrice ==
            if Of(f, id) then Trade(Opened(PositionOf(p, id), f.instrument), Signed(f), f.price).averageEntryPrice
            else PositionOf(p, id).averageEntryPrice
  {
    hide Trade;
  }
}
