/** What the tracker answers to one report, for every report: what it does to the order, and what it tells. */
module ReportLaws {
  import opened Types
  import opened Trackers
  import opened TrackerLaws
  import opened TieLaws

  /** The statuses that a report at the quantity the order holds may bring an order to. */
  function Successors(status: OrderStatus): set<OrderStatus> {
    match status
    case Created =>
      {PendingSubmit, Acknowledged, PartiallyFilled, Filled, PendingCancel, Canceled, Rejected, Expired}
    case PendingSubmit => {Created, Acknowledged, PartiallyFilled, Filled, PendingCancel, Canceled, Rejected, Expired}
    case Acknowledged => {PartiallyFilled, Filled, PendingCancel, Canceled, Rejected, Expired}
    case PartiallyFilled => {Filled, PendingCancel, Canceled, Rejected, Expired}
    case PendingCancel => {PartiallyFilled, Filled, Canceled}
    case Filled => {}
    case Canceled => {}
    case Rejected => {}
    case Expired => {}
  }

  /** The order after an applied report: its status and quantity, and its client id and timestamp if it brings any. */
  predicate Applies(o: LocalOrder, r: ExecutionReport, o': LocalOrder) {
    match o'
    case LocalOrder(request, orderId, clientOrderId, status, filled, timestamp) =>
      && request == o.request && orderId == o.orderId && status == r.status && filled == r.cumulativeFilled
      && clientOrderId == (if r.clientOrderId == Empty then o.clientOrderId else r.clientOrderId)
      && timestamp == Later(o.lastExchangeTimestamp, r.exchangeTimestamp)
  }

  /** The answer to an applied report: exactly one update, with the report's status, quantity and reason. */
  predicate Tells(o': LocalOrder, r: ExecutionReport, result: Reconciliation) {
    && result.applied && !result.ignoredDuplicate && !result.ignoredStale
    && result.updates == [OrderUpdate(r.orderId, o'.clientOrderId, r.status, r.cumulativeFilled, r.reason)]
  }

  /** The fill of a report that raises the quantity. */
  predicate Fills(t: Tracker, o: LocalOrder, r: ExecutionReport, fill: FillEvent) {
    match fill
    case FillEvent(fillId, orderId, instrument, side, price, quantity, fee) =>
      && fillId == (if r.reportId == Empty then FillName(t.nextFillId) else r.reportId)
      && orderId == r.orderId && side == r.side && fee == r.lastFillFee
      && quantity == r.cumulativeFilled - o.filledQuantity
      && instrument == (if r.instrument.instrumentId == Empty then o.request.instrument else r.instrument)
      && price == if r.lastFillPrice.Some? then r.lastFillPrice.value
                  else if o.request.price.Some? then o.request.price.value else 0.0
  }

  /** A report that raises the quantity is applied, whatever its status and time, with one fill of the difference. */
  ghost predicate Raises(t: Tracker, o: LocalOrder, r: ExecutionReport, t': Tracker, o': LocalOrder,
                         result: Reconciliation) {
    && Applies(o, r, o') && Tells(o', r, result)
    && |result.fills| == 1 && Fills(t, o, r, result.fills[0])
    && t'.nextFillId == t.nextFillId + if r.reportId == Empty then 1 else 0
  }

  /** A report that is dropped. */
  predicate Drops(o: LocalOrder, o': LocalOrder, result: Reconciliation, duplicate: bool) {
    && o' == o && result.updates == [] && result.fills == [] && !result.applied
    && result.ignoredDuplicate == duplicate && result.ignoredStale == !duplicate
  }

  /** A report that only moves the clock. */
  predicate Ticks(o: LocalOrder, r: ExecutionReport, o': LocalOrder, result: Reconciliation) {
    && o' == o.(lastExchangeTimestamp := Later(o.lastExchangeTimestamp, r.exchangeTimestamp))
    && result.updates == [] && result.fills == [] && !result.applied
    && !result.ignoredDuplicate && !result.ignoredStale
  }

  /** A report at the quantity the order holds. */
  ghost predicate Confirms(o: LocalOrder, r: ExecutionReport, o': LocalOrder, result: Reconciliation) {
    if Older(r, o.lastExchangeTimestamp) || (Terminal(o.status) && r.status != o.status)
    then Drops(o, o', result, false)
    else if r.status in Successors(o.status) then Applies(o, r, o') && Tells(o', r, result) && result.fills == []
    else Ticks(o, r, o', result)
  }

  /**
   Every report about a known order: one seen before is dropped as a duplicate, one with less than the order holds is
   stale; one with more is applied with one fill of the difference; and one with as much is stale if it is older or the
   order is closed with another status, is applied exactly if its status is a successor of the order's, and otherwise
   only moves the clock.  No other order changes.
   */
  lemma {:induction false} ReportLaw(t: Tracker, r: ExecutionReport)
    requires r.orderId in t.orders
    ensures var (t', result) := ApplyOne(t, r);
            var o := t.orders[r.orderId];
            && t'.orders.Keys == t.orders.Keys
            && (forall id :: id in t.orders && id != r.orderId ==> t'.orders[id] == t.orders[id])
            && t'.processed == t.processed + (if r.reportId == Empty then {} else {r.reportId})
            && var o' := t'.orders[r.orderId];
               if Seen(t, r) then Drops(o, o', result, true) && t' == t
               else if r.cumulativeFilled > o.filledQuantity then Raises(t, o, r, t', o', result)
               else if r.cumulativeFilled < o.filledQuantity then Drops(o, o', result, false)
               else Confirms(o, r, o', result) && t'.nextFillId == t.nextFillId
  {
    var (t', result) := ApplyOne(t, r);
    assert Seen(t, r) ==> t.processed + {r.reportId} == t.processed;
    TableIs(t.orders[r.orderId].status, r.status);
    hide ShouldApplyStatus, Successors;
  }

  lemma {:induction false} TableIs(status: OrderStatus, incoming: OrderStatus)
    ensures ShouldApplyStatus(status, incoming) <==> incoming in Successors(status)
  {
  }

  /** A report about an unknown order changes no order and is stale, unless its id was seen before. */
  lemma {:induction false} UnknownOrder(t: Tracker, r: ExecutionReport)
    requires r.orderId !in t.orders
    ensures var (t', result) := ApplyOne(t, r);
            && t'.orders == t.orders && t'.nextFillId == t.nextFillId
            && result.updates == [] && result.fills == [] && !result.applied
            && result.ignoredDuplicate == Seen(t, r) && result.ignoredStale == !Seen(t, r)
  {
  }

  // ---------- Reading an order back ----------

  /** An order restored from a record reads back as that record. */
  lemma {:induction false} RestoredReadsBack(record: OrderRecord)
    ensures RecordFor(Recovered(record)) == record
    ensures Recovered(record).lastExchangeTimestamp == 0 && Recovered(record).request.requestId == record.orderId
  {
  }

  /** A registered order reads back as submitted, with nothing filled. */
  lemma {:induction false} RegisteredReadsBack(request: OrderRequest, id: Name, clientId: Name)
    ensures RecordFor(Registered(request, id, clientId)) ==
            OrderRecord(id, clientId, request.strategyId, request.instrument.instrumentId, request.side,
                        request.orderType, PendingSubmit, request.quantity, request.price, 0.0)
    ensures Registered(request, id, clientId).lastExchangeTimestamp == 0
  {
  }
}
