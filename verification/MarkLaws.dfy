/** Total profit at every moment of a history in which fills and mark prices come in any order. */
module MarkLaws {
  import opened Types
  import opened Portfolios
  import opened PortfolioLaws

  datatype Posting = Filling(fill: FillEvent) | Marking(id: Name, price: real)

  function Post(p: Portfolio, x: Posting): Portfolio {
    match x
    case Filling(fill) => AfterFill(p, fill)
    case Marking(id, price) => SetMark(p, id, price)
  }

  function Posted(postings: seq<Posting>): Portfolio {
    if postings == [] then EMPTY_PORTFOLIO else Post(Posted(postings[..|postings| - 1]), postings[|postings| - 1])
  }

  /** The fills of a history, in order. */
  function FillsIn(postings: seq<Posting>): seq<FillEvent> {
    if postings == [] then []
    else
      var pre, x := FillsIn(postings[..|postings| - 1]), postings[|postings| - 1];
      if x.Filling? then pre + [x.fill] else pre
  }

  function LastMark(postings: seq<Posting>, id: Name): Option<real> {
    if postings == [] then None
    else
      var x := postings[|postings| - 1];
      if x.Marking? && x.id == id then Some(x.price) else LastMark(postings[..|postings| - 1], id)
  }

  /** The price at which an open quantity counts: the last mark, or else the price of the last fill. */
  function Valuation(postings: seq<Posting>, id: Name): real {
    var mark := LastMark(postings, id);
    if mark.Some? then mark.value else LastFill(FillsIn(postings), id)
  }

  function LastFill(fills: seq<FillEvent>, id: Name): real {
    if fills == [] then 0.0
    else if Of(fills[|fills| - 1], id) then fills[|fills| - 1].price
    else LastFill(fills[..|fills| - 1], id)
  }

  lemma {:induction false} CashSnoc(fills: seq<FillEvent>, f: FillEvent, id: Name)
    ensures Cash(fills + [f], id) == Cash(fills, id) + (if Of(f, id) then -Times(Signed(f), f.price) else 0.0)
  {
    hide Times;
    if fills == [] {
      assert fills + [f] == [f] && [f][1..] == [];
    } else {
      assert (fills + [f])[0] == fills[0] && (fills + [f])[1..] == fills[1..] + [f];
      CashSnoc(fills[1..], f, id);
    }
  }

  /** The position adds up to the fills, its mark is the last one, and its unrealized profit is up to date. */
  ghost predicate UpToDate(p: Portfolio, postings: seq<Posting>, id: Name) {
    var q, fills := PositionOf(p, id), FillsIn(postings);
    && q.netQuantity == Net(fills, id) && Worth(q) == Cash(fills, id)
    && (id in p.marks <==> LastMark(postings, id).Some?) &&
       (id in p.marks ==> p.marks[id] == LastMark(postings, id).value)
    && q == Marked(q, Valuation(postings, id))
  }

  lemma {:induction false} MarkedWorth(q: Position, mark: real)
    ensures Worth(Marked(q, mark)) == Worth(q) && Marked(q, mark).netQuantity == q.netQuantity
    ensures Marked(Marked(q, mark), mark) == Marked(q, mark)
  {
    hide Times;
  }

  lemma {:induction false} FillUpToDate(p: Portfolio, postings: seq<Posting>, f: FillEvent, id: Name)
    requires UpToDate(p, postings, id)
    ensures UpToDate(AfterFill(p, f), postings + [Filling(f)], id)
  {
    hide Times, Worth, Net, Cash, Trade;
    var more := postings + [Filling(f)];
    assert more[..|more| - 1] == postings && more[|more| - 1] == Filling(f);
    var fills := FillsIn(postings);
    assert FillsIn(more) == fills + [f] && LastMark(more, id) == LastMark(postings, id);
    assert (fills + [f])[..|fills + [f]| - 1] == fills;
    NetSnoc(fills, f, id);
    CashSnoc(fills, f, id);
    FillMoves(p, f, id);
    hide FillsIn, LastMark;
    if Of(f, id) {
      var q := Trade(Opened(PositionOf(p, id), f.instrument), Signed(f), f.price);
      assert PositionOf(AfterFill(p, f), id) == Marked(q, Valuation(more, id));
      MarkedWorth(q, Valuation(more, id));
    } else {
      assert PositionOf(AfterFill(p, f), id) == PositionOf(p, id);
    }
  }

  lemma {:induction false} MarkHistory(postings: seq<Posting>, key: Name, price: real, id: Name)
    ensures var more := postings + [Marking(key, price)];
            && FillsIn(more) == FillsIn(postings)
            && LastMark(more, id) == (if key == id then Some(price) else LastMark(postings, id))
  {
    var more := postings + [Marking(key, price)];
    assert more[..|more| - 1] == postings && more[|more| - 1] == Marking(key, price);
  }

  lemma {:induction false} MarkUpToDate(p: Portfolio, postings: seq<Posting>, key: Name, price: real, id: Name)
    requires UpToDate(p, postings, id)
    ensures UpToDate(SetMark(p, key, price), postings + [Marking(key, price)], id)
  {
    hide Times, Worth, Net, Cash, FillsIn, LastMark, LastFill;
    MarkHistory(postings, key, price, id);
    MarkedWorth(PositionOf(p, id), price);
    if key == id {
      MarkMoves(p, id, price);
    } else {
      assert PositionOf(SetMark(p, key, price), id) == PositionOf(p, id);
    }
  }

  lemma {:induction false} MarkMoves(p: Portfolio, id: Name, price: real)
    ensures PositionOf(SetMark(p, id, price), id) == Marked(PositionOf(p, id), price)
  {
    hide Times;
  }

  lemma {:induction false} AlwaysUpToDate(postings: seq<Posting>, id: Name)
    ensures UpToDate(Posted(postings), postings, id)
  {
    hide UpToDate, AfterFill, SetMark;
    if postings == [] {
      StartsUpToDate(id);
    } else {
      var pre, x := postings[..|postings| - 1], postings[|postings| - 1];
      assert postings == pre + [x];
      AlwaysUpToDate(pre, id);
      match x
      case Filling(fill) => FillUpToDate(Posted(pre), pre, fill, id);
      case Marking(key, price) => MarkUpToDate(Posted(pre), pre, key, price, id);
    }
  }

  lemma {:induction false} StartsUpToDate(id: Name)
    ensures UpToDate(EMPTY_PORTFOLIO, [], id)
  {
    WorthOfNothing();
    hide Worth;
  }

  /**
   At every moment of every history of fills and marks, realized plus unrealized profit is the cash flow of the fills
   plus the open quantity at the last mark, or at the last fill's price before any mark.
   */
  lemma {:induction false} TotalThroughout(postings: seq<Posting>, id: Name)
    ensures var q, fills := PositionOf(Posted(postings), id), FillsIn(postings);
            q.realizedPnl + q.unrealizedPnl == Cash(fills, id) + Times(Net(fills, id), Valuation(postings, id))
  {
    AlwaysUpToDate(postings, id);
    hide Times, Worth, Net, Cash, Posted, FillsIn, Valuation;
    MarkTotal(PositionOf(Posted(postings), id), Valuation(postings, id));
  }

  /** So total and net depend only on which fills there were and on the price that counts, however interleaved. */
  lemma {:induction false} TotalIgnoresInterleaving(postings: seq<Posting>, postings': seq<Posting>, id: Name)
    requires multiset(FillsIn(postings)) == multiset(FillsIn(postings')) &&
             Valuation(postings, id) == Valuation(postings', id)
    ensures var q, q' := PositionOf(Posted(postings), id), PositionOf(Posted(postings'), id);
            q.realizedPnl + q.unrealizedPnl == q'.realizedPnl + q'.unrealizedPnl && q.netQuantity == q'.netQuantity
  {
    TotalThroughout(postings, id);
    TotalThroughout(postings', id);
    AlwaysUpToDate(postings, id);
    AlwaysUpToDate(postings', id);
    hide Times, Worth, Net, Cash, Posted, FillsIn, Valuation, Marked;
    SameMultisetSameSums(FillsIn(postings), FillsIn(postings'), id);
  }
}
