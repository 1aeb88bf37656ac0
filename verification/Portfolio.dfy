/**
 Portfolio accounting: positions with average entry price and realized and unrealized profit,
 balances per asset, and mark prices, updated in place by every fill and mark.
 */
module Portfolios {
  import opened Types

  datatype Position = Position(
    positionId: Option<Name>,
    instrument: Instrument,
    netQuantity: real,
    averageEntryPrice: real,
    realizedPnl: real,
    unrealizedPnl: real)

  datatype Balance = Balance(total: real, available: real)

  datatype Portfolio = Portfolio(positions: map<Name, Position>, balances: map<Name, Balance>, marks: map<Name, real>)

  const EMPTY_PORTFOLIO: Portfolio := Portfolio(map[], map[], map[])

  const NO_POSITION: Position := Position(None, Instrument(Empty, Empty, Empty), 0.0, 0.0, 0.0, 0.0)

  function Sign(x: real): int {
    if x > 0.0 then 1 else if x < 0.0 then -1 else 0
  }

  function Signed(f: FillEvent): real {
    if f.side == Buy then f.quantity else -f.quantity
  }

  // ---------- One position ----------

  /** Adding to a position, or opening one: the average is weighted by quantity. */
  function Increase(p: Position, quantity: real, price: real): Position {
    var net := p.netQuantity + quantity;
    var notional := Times(Abs(p.netQuantity), p.averageEntryPrice) + Times(Abs(quantity), price);
    p.(netQuantity := net, averageEntryPrice := if Abs(net) > 0.0 then notional / Abs(net) else 0.0)
  }

  /** Trading against a position: profit is realized on what closes; a flip starts over at the fill price. */
  function Decrease(p: Position, quantity: real, price: real): Position {
    var closing := Min(Abs(p.netQuantity), Abs(quantity));
    var profit := Times(closing, price - p.averageEntryPrice);
    var net := p.netQuantity + quantity;
    p.(realizedPnl := p.realizedPnl +
       (if p.netQuantity > 0.0 then profit else if p.netQuantity < 0.0 then -profit else 0.0),
       netQuantity := net,
       averageEntryPrice := if net == 0.0 then 0.0
                            else if Sign(p.netQuantity) != Sign(net) then price
                            else p.averageEntryPrice)
  }

  function Trade(p: Position, quantity: real, price: real): Position {
    if p.netQuantity == 0.0 || Sign(p.netQuantity) == Sign(quantity) then Increase(p, quantity, price)
    else Decrease(p, quantity, price)
  }

  function Marked(p: Position, mark: real): Position {
    p.(unrealizedPnl := if p.netQuantity == 0.0 then 0.0 else Times(p.netQuantity, mark - p.averageEntryPrice))
  }

  // ---------- The portfolio ----------

  function PositionOf(p: Portfolio, id: Name): Position {
    if id in p.positions then p.positions[id] else NO_POSITION
  }

  function BalanceOf(p: Portfolio, asset: Name): Balance {
    if asset in p.balances then p.balances[asset] else Balance(0.0, 0.0)
  }

  function Opened(q: Position, instrument: Instrument): Position {
    if q.positionId == None then q.(positionId := Some(instrument.instrumentId), instrument := instrument) else q
  }

  function FillPosition(p: Portfolio, f: FillEvent): Position {
    var id := f.instrument.instrumentId;
    Marked(Trade(Opened(PositionOf(p, id), f.instrument), Signed(f), f.price),
           if id in p.marks then p.marks[id] else f.price)
  }

  /** The change of the quote balance. */
  function Proceeds(f: FillEvent): real {
    -Times(Signed(f), f.price) - f.fee
  }

  function Credit(balances: map<Name, Balance>, asset: Name, amount: real): map<Name, Balance> {
    var total := (if asset in balances then balances[asset].total else 0.0) + amount;
    balances[asset := Balance(total, total)]
  }

  function AfterFill(p: Portfolio, f: FillEvent): Portfolio {
    p.(positions := p.positions[f.instrument.instrumentId := FillPosition(p, f)],
       balances := Credit(Credit(p.balances, f.instrument.baseAsset, Signed(f)), f.instrument.quoteAsset, Proceeds(f)))
  }

  function AfterFills(p: Portfolio, fills: seq<FillEvent>): Portfolio
    decreases |fills|
  {
    if fills == [] then p else AfterFills(AfterFill(p, fills[0]), fills[1..])
  }

  function SetMark(p: Portfolio, id: Name, price: real): Portfolio {
    p.(marks := p.marks[id := price],
       positions := if id in p.positions then p.positions[id := Marked(p.positions[id], price)] else p.positions)
  }

  class PortfolioService {
    var positions: map<Name, Position>
    var balances: map<Name, Balance>
    var markPrices: map<Name, real>

    constructor ()
      ensures View() == EMPTY_PORTFOLIO
    {
      positions, balances, markPrices := map[], map[], map[];
    }

    ghost function View(): Portfolio
      reads this
    {
      Portfolio(positions, balances, markPrices)
    }

    static method UpdateUnrealized(position: Position, markPrice: real) returns (updated: Position)
      ensures updated == Marked(position, markPrice)
    {
      updated := position;
      if position.netQuantity == 0.0 {
        return position.(unrealizedPnl := 0.0);
      }
      updated := position.(unrealizedPnl := Times(position.netQuantity, markPrice - position.averageEntryPrice));
    }

    method ApplyFillToPosition(position: Position, fill: FillEvent) returns (updated: Position)
      ensures var id := fill.instrument.instrumentId;
              updated ==
                Marked(Trade(position, Signed(fill), fill.price),
                       if id in markPrices then markPrices[id] else fill.price)
    {
      hide Times;
      var signedQuantity := if fill.side == Buy then fill.quantity else -fill.quantity;
      var previous := position.netQuantity;
      updated := position;
      if previous == 0.0 || Sign(previous) == Sign(signedQuantity) {
        var newQuantity := previous + signedQuantity;
        var weightedNotional := Times(Abs(previous), position.averageEntryPrice) +
          Times(Abs(signedQuantity), fill.price);
        updated := updated.(netQuantity := newQuantity,
                            averageEntryPrice := if Abs(newQuantity) > 0.0 then weightedNotional / Abs(newQuantity)
                              else 0.0);
      } else {
        var closing := Min(Abs(previous), Abs(signedQuantity));
        var profit := Times(closing, fill.price - position.averageEntryPrice);
        updated := updated.(realizedPnl := updated.realizedPnl + (if Sign(previous) > 0 then profit else -profit),
                            netQuantity := previous + signedQuantity);
        if updated.netQuantity == 0.0 {
          updated := updated.(averageEntryPrice := 0.0);
        } else if Sign(previous) != Sign(updated.netQuantity) {
          updated := updated.(averageEntryPrice := fill.price);
        }
      }
      var id := fill.instrument.instrumentId;
      updated := UpdateUnrealized(updated, if id in markPrices then markPrices[id] else fill.price);
    }

    method ApplyFillToBalances(fill: FillEvent)
      modifies this`balances
      ensures balances ==
              Credit(Credit(old(balances), fill.instrument.baseAsset, Signed(fill)), fill.instrument.quoteAsset,
                     Proceeds(fill))
    {
      var base, quote := fill.instrument.baseAsset, fill.instrument.quoteAsset;
      var notional := Times(fill.quantity, fill.price);
      assert Times(Signed(fill), fill.price) == if fill.side == Buy then notional else -notional;
      hide Times;
      if fill.side == Buy {
        AddToBalance(base, fill.quantity);
        AddToBalance(quote, -(notional + fill.fee));
      } else {
        AddToBalance(base, -fill.quantity);
        AddToBalance(quote, notional - fill.fee);
      }
    }

    /** Creates the balance when it is missing, changes its total and makes all of it available. */
    method AddToBalance(asset: Name, amount: real)
      modifies this`balances
      ensures balances == Credit(old(balances), asset, amount)
    {
      var balance := if asset in balances then balances[asset] else Balance(0.0, 0.0);
      balance := balance.(total := balance.total + amount);
      balance := balance.(available := balance.total);
      balances := balances[asset := balance];
    }

    method ApplyFill(fill: FillEvent)
      modifies this
      ensures View() == AfterFill(old(View()), fill)
    {
      var id := fill.instrument.instrumentId;
      var position := if id in positions then positions[id] else NO_POSITION;
      if position.positionId == None {
        position := position.(positionId := Some(id), instrument := fill.instrument);
      }
      var updated := ApplyFillToPosition(position, fill);
      positions := positions[id := updated];
      ApplyFillToBalances(fill);
    }

    /** The runtime's loop over the fills of one execution result. */
    method HandleFills(fills: seq<FillEvent>)
      modifies this
      ensures View() == AfterFills(old(View()), fills)
    {
      for i := 0 to |fills|
        invariant AfterFills(View(), fills[i..]) == AfterFills(old(View()), fills)
      {
        assert fills[i..][0] == fills[i] && fills[i..][1..] == fills[i + 1..];
        ApplyFill(fills[i]);
      }
    }

    method SetMarkPrice(id: Name, price: real)
      modifies this
      ensures View() == SetMark(old(View()), id, price)
    {
      markPrices := markPrices[id := price];
      if id in positions {
        var updated := UpdateUnrealized(positions[id], price);
        positions := positions[id := updated];
      }
    }
  }
}
