/** The live execution tracker: reconciles duplicated, late and reordered exchange reports with local order state. */
module Trackers {
  import opened Types

  datatype ExecutionReport = ExecutionReport(
    reportId: Name,
    orderId: Name,
    clientOrderId: Name,
    instrument: Instrument,
    side: OrderSide,
    status: OrderStatus,
    cumulativeFilled: real,
    lastFillPrice: Option<real>,
    lastFillFee: real,
    reason: Reason,
    exchangeTimestamp: int)

  datatype LocalOrder = LocalOrder(
    request: OrderRequest,
    orderId: Name,
    clientOrderId: Name,
    status: OrderStatus,
    filledQuantity: real,
    lastExchangeTimestamp: int)

  datatype Reconciliation = Reconciliation(
    applied: bool,
    ignoredDuplicate: bool,
    ignoredStale: bool,
    updates: seq<OrderUpdate>,
    fills: seq<FillEvent>)

  datatype Tracker = Tracker(orders: map<Name, LocalOrder>, processed: set<Name>, nextFillId: nat)

  const DUPLICATE: Reconciliation := Reconciliation(false, true, false, [], [])
  const STALE: Reconciliation := Reconciliation(false, false, true, [], [])

  predicate IsStale(o: LocalOrder, r: ExecutionReport) {
    || r.cumulativeFilled < o.filledQuantity
    || (r.exchangeTimestamp > 0 && o.lastExchangeTimestamp > 0 && r.exchangeTimestamp < o.lastExchangeTimestamp
        && r.cumulativeFilled <= o.filledQuantity)
    || (Terminal(o.status) && r.cumulativeFilled <= o.filledQuantity && r.status != o.status)
  }

  predicate ShouldApplyStatus(current: OrderStatus, incoming: OrderStatus) {
    && incoming != current
    && !Terminal(current)
    && match current
       case Created => true
       case PendingSubmit => true
       case Acknowledged => incoming in {PartiallyFilled, Filled, PendingCancel, Canceled, Rejected, Expired}
       case PartiallyFilled => incoming in {PartiallyFilled, Filled, PendingCancel, Canceled, Rejected, Expired}
       case PendingCancel => incoming in {Canceled, Filled, PartiallyFilled}
       case _ => false
  }

  function FillFor(o: LocalOrder, r: ExecutionReport, fillId: Name): FillEvent {
    FillEvent(fillId, r.orderId, if r.instrument.instrumentId == Empty then o.request.instrument else r.instrument,
              r.side,
              if r.lastFillPrice.Some? then r.lastFillPrice.value
              else if o.request.price.Some? then o.request.price.value else 0.0,
              r.cumulativeFilled - o.filledQuantity, r.lastFillFee)
  }

  /** A report that is neither a duplicate nor stale: a fill when the cumulative quantity grew, then the status. */
  function Accept(o: LocalOrder, r: ExecutionReport, fillId: Name): (LocalOrder, Reconciliation) {
    var grew := r.cumulativeFilled > o.filledQuantity;
    var filled := Max(r.cumulativeFilled, o.filledQuantity);
    var fills := if grew then [FillFor(o, r, fillId)] else [];
    if ShouldApplyStatus(o.status, r.status) || grew then
      var clientId := if r.clientOrderId == Empty then o.clientOrderId else r.clientOrderId;
      (o.(status := r.status, clientOrderId := clientId, filledQuantity := filled,
          lastExchangeTimestamp := if r.exchangeTimestamp > o.lastExchangeTimestamp then r.exchangeTimestamp
            else o.lastExchangeTimestamp),
       Reconciliation(true, false, false, [OrderUpdate(r.orderId, clientId, r.status, filled, r.reason)], fills))
    else
      (o.(lastExchangeTimestamp := if r.exchangeTimestamp > o.lastExchangeTimestamp then r.exchangeTimestamp
          else o.lastExchangeTimestamp),
       Reconciliation(false, false, false, [], []))
  }

  function ApplyOne(t: Tracker, r: ExecutionReport): (Tracker, Reconciliation) {
    if r.reportId != Empty && r.reportId in t.processed then (t, DUPLICATE)
    else
      var t1 := if r.reportId != Empty then t.(processed := t.processed + {r.reportId}) else t;
      if r.orderId !in t.orders then (t1, STALE)
      else
        var o := t.orders[r.orderId];
        if IsStale(o, r) then (t1, STALE)
        else
          var generated := r.reportId == Empty && r.cumulativeFilled > o.filledQuantity;
          var (o', result) := Accept(o, r, if r.reportId != Empty then r.reportId else FillName(t.nextFillId));
          (t1.(orders := t.orders[r.orderId := o'], nextFillId := if generated then t.nextFillId + 1 else t.nextFillId),
           result)
  }

  function ApplyAll(t: Tracker, reports: seq<ExecutionReport>): (Tracker, seq<Reconciliation>)
    decreases |reports|
  {
    if reports == [] then (t, [])
    else
      var (t1, result) := ApplyOne(t, reports[0]);
      var (t2, results) := ApplyAll(t1, reports[1..]);
      (t2, [result] + results)
  }

  function Registered(request: OrderRequest, orderId: Name, clientOrderId: Name): LocalOrder {
    LocalOrder(request, orderId, clientOrderId, PendingSubmit, 0.0, 0)
  }

  function Recovered(r: OrderRecord): LocalOrder {
    LocalOrder(OrderRequest(r.orderId, r.strategyId, Instrument(r.instrumentId, Empty, Empty), r.side, r.orderType,
                            r.quantity, r.price),
               r.orderId, r.clientOrderId, r.status, r.filledQuantity, 0)
  }

  /** An order as the tracker hands it out. */
  function RecordFor(o: LocalOrder): OrderRecord {
    OrderRecord(o.orderId, o.clientOrderId, o.request.strategyId, o.request.instrument.instrumentId, o.request.side,
                o.request.orderType, o.status, o.request.quantity, o.request.price, o.filledQuantity)
  }

  class LiveExecutionTracker {
    var orders: map<Name, LocalOrder>
    var processedReportIds: set<Name>
    var nextFillId: nat

    constructor ()
      ensures View() == Tracker(map[], {}, 1)
    {
      orders, processedReportIds, nextFillId := map[], {}, 1;
    }

    ghost function View(): Tracker
      reads this
    {
      Tracker(orders, processedReportIds, nextFillId)
    }

    method RegisterOrder(request: OrderRequest, orderId: Name, clientOrderId: Name)
      modifies this`orders
      ensures orders == old(orders)[orderId := Registered(request, orderId, clientOrderId)]
    {
      orders := orders[orderId := LocalOrder(request, orderId, clientOrderId, PendingSubmit, 0.0, 0)];
    }

    method RestoreOrder(order: OrderRecord)
      modifies this`orders
      ensures orders == old(orders)[order.orderId := Recovered(order)]
    {
      orders := orders[order.orderId := Recovered(order)];
    }

    method GetOrder(orderId: Name) returns (order: Option<OrderRecord>)
      ensures order == if orderId in orders then Some(RecordFor(orders[orderId])) else None
    {
      if orderId !in orders {
        return None;
      }
      order := Some(RecordFor(orders[orderId]));
    }

    method ApplyReport(report: ExecutionReport) returns (result: Reconciliation)
      modifies this
      ensures View() == ApplyOne(old(View()), report).0
      ensures result == ApplyOne(old(View()), report).1
    {
      result := Reconciliation(false, false, false, [], []);
      if report.reportId != Empty {
        if report.reportId in processedReportIds {
          return result.(ignoredDuplicate := true);
        }
        processedReportIds := processedReportIds + {report.reportId};
      }
      if report.orderId !in orders {
        return result.(ignoredStale := true);
      }
      var state := orders[report.orderId];
      if IsStale(state, report) {
        return result.(ignoredStale := true);
      }
      var newCumulative := Max(report.cumulativeFilled, state.filledQuantity);
      var fillDelta := newCumulative - state.filledQuantity;
      if fillDelta > 0.0 {
        var fillId := report.reportId;
        if report.reportId == Empty {
          fillId := FillName(nextFillId);
          nextFillId := nextFillId + 1;
        }
        result := result.(fills := [FillFor(state, report, fillId)], applied := true);
        state := state.(filledQuantity := newCumulative);
      }
      if ShouldApplyStatus(state.status, report.status) || result.applied {
        var clientId := if report.clientOrderId == Empty then state.clientOrderId else report.clientOrderId;
        state := state.(status := report.status, clientOrderId := clientId);
        if report.exchangeTimestamp > state.lastExchangeTimestamp {
          state := state.(lastExchangeTimestamp := report.exchangeTimestamp);
        }
        result := result.(updates := [OrderUpdate(report.orderId, clientId, report.status, state.filledQuantity,
                                                  report.reason)], applied := true);
      } else if report.exchangeTimestamp > state.lastExchangeTimestamp {
        state := state.(lastExchangeTimestamp := report.exchangeTimestamp);
      }
      orders := orders[report.orderId := state];
    }

    method Reconcile(reports: seq<ExecutionReport>) returns (results: seq<Reconciliation>)
      modifies this
      ensures View() == ApplyAll(old(View()), reports).0
      ensures results == ApplyAll(old(View()), reports).1
    {
      results := [];
      ghost var t0 := View();
      assert reports[0..] == reports;
      for i := 0 to |reports|
        invariant ApplyAll(t0, reports).0 == ApplyAll(View(), reports[i..]).0
        invariant ApplyAll(t0, reports).1 == results + ApplyAll(View(), reports[i..]).1
      {
        hide ApplyOne;
        assert reports[i..][0] == reports[i] && reports[i..][1..] == reports[i + 1..];
        var result := ApplyReport(reports[i]);
        results := results + [result];
      }
      assert reports[|reports|..] == [];
    }
  }
}
