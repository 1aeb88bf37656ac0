/** Whatever the order and repetition of reports, a tracked order converges. */
module TrackerLaws {
  import opened Types
  import opened Trackers

  // ---------- One report ----------

  /** What one report may do to one order. */
  ghost predicate Progress(o: LocalOrder, o': LocalOrder, r: ExecutionReport, id: Name) {
    && o'.filledQuantity >= o.filledQuantity && o'.lastExchangeTimestamp >= o.lastExchangeTimestamp
    && (r.orderId != id ==> o' == o)
    && (Terminal(o.status) && o'.status != o.status ==> r.orderId == id && r.cumulativeFilled > o.filledQuantity)
  }

  function EmittedTotal(results: seq<Reconciliation>, id: Name): real {
    if results == [] then 0.0 else VolumeOf(results[0].fills, id) + EmittedTotal(results[1..], id)
  }

  lemma {:induction false} StepLaw(t: Tracker, r: ExecutionReport, id: Name)
    requires id in t.orders
    ensures var (t', result) := ApplyOne(t, r);
            && id in t'.orders
            && Progress(t.orders[id], t'.orders[id], r, id)
            && (forall f :: f in result.fills ==> f.quantity > 0.0)
            && VolumeOf(result.fills, id) == t'.orders[id].filledQuantity - t.orders[id].filledQuantity
  {
    var (t', result) := ApplyOne(t, r);
    if result.fills != [] {
      assert result.fills[1..] == [];
    }
  }

  /**
   Over every run of reports, filled quantity and timestamp of an order never decrease, and the fills emitted
   for it are positive and add up to what its filled quantity gained.
   */
  lemma {:induction false} RunLaw(t: Tracker, reports: seq<ExecutionReport>, id: Name)
    requires id in t.orders
    ensures var (t', results) := ApplyAll(t, reports);
            && id in t'.orders
            && t'.orders[id].filledQuantity >= t.orders[id].filledQuantity
            && t'.orders[id].lastExchangeTimestamp >= t.orders[id].lastExchangeTimestamp
            && (forall result, f :: result in results && f in result.fills ==> f.quantity > 0.0)
            && EmittedTotal(results, id) == t'.orders[id].filledQuantity - t.orders[id].filledQuantity
    decreases |reports|
  {
    hide ApplyOne;
    if reports != [] {
      StepLaw(t, reports[0], id);
      var (t1, result) := ApplyOne(t, reports[0]);
      RunLaw(t1, reports[1..], id);
      var (t2, results) := ApplyAll(t1, reports[1..]);
      assert ([result] + results)[1..] == results;
    }
  }

  /** A terminal status is left, in any run, only if some report carries more than the order had filled. */
  lemma {:induction false} TerminalIsLeftByFillsOnly(t: Tracker, reports: seq<ExecutionReport>, id: Name)
    requires id in t.orders && Terminal(t.orders[id].status)
    requires forall r :: r in reports && r.orderId == id ==> r.cumulativeFilled <= t.orders[id].filledQuantity
    ensures var t' := ApplyAll(t, reports).0;
            id in t'.orders && t'.orders[id].status == t.orders[id].status &&
              t'.orders[id].filledQuantity == t.orders[id].filledQuantity
    decreases |reports|
  {
    hide ApplyOne;
    if reports != [] {
      assert reports[0] in reports;
      StepLaw(t, reports[0], id);
      FilledAfter(t, reports[0], id);
      TerminalIsLeftByFillsOnly(ApplyOne(t, reports[0]).0, reports[1..], id);
    }
  }

  // ---------- Convergence ----------

  /** The report is dropped because its id was processed before. */
  predicate Seen(t: Tracker, r: ExecutionReport) {
    r.reportId != Empty && r.reportId in t.processed
  }

  /** Filled quantity is a max-register of the reports that are not dropped. */
  lemma {:induction false} FilledAfter(t: Tracker, r: ExecutionReport, id: Name)
    requires id in t.orders
    ensures var t' := ApplyOne(t, r).0;
            && id in t'.orders
            && t'.orders[id].filledQuantity ==
               (if r.orderId == id &&
                !Seen(t, r) then Max(t.orders[id].filledQuantity, r.cumulativeFilled) else t.orders[id].filledQuantity)
            && (forall x :: x in t'.processed <==> x in t.processed || (x == r.reportId && x != Empty))
  {
  }

  /** A non-empty report id stands for one report. */
  ghost predicate IdsIdentify(reports: seq<ExecutionReport>) {
    forall r, s :: r in reports && s in reports && r.reportId == s.reportId && r.reportId != Empty ==> r == s
  }

  /** Reports dropped as duplicates have nothing to add. */
  ghost predicate Absorbed(t: Tracker, reports: seq<ExecutionReport>, id: Name)
    requires id in t.orders
  {
    forall r :: r in reports && r.orderId == id && Seen(t, r) ==> r.cumulativeFilled <= t.orders[id].filledQuantity
  }

  function Greatest(initial: real, reports: seq<ExecutionReport>, id: Name): real
    decreases |reports|
  {
    if reports == [] then initial
    else Greatest(if reports[0].orderId == id then Max(initial, reports[0].cumulativeFilled) else initial, reports[1..],
                  id)
  }

  lemma {:induction false} GreatestIs(initial: real, reports: seq<ExecutionReport>, id: Name)
    ensures Greatest(initial, reports, id) >= initial
    ensures forall r :: r in reports && r.orderId == id ==> Greatest(initial, reports, id) >= r.cumulativeFilled
    ensures Greatest(initial, reports, id) == initial ||
            exists r :: r in reports && r.orderId == id && r.cumulativeFilled == Greatest(initial, reports, id)
    decreases |reports|
  {
    if reports != [] {
      var next := if reports[0].orderId == id then Max(initial, reports[0].cumulativeFilled) else initial;
      GreatestIs(next, reports[1..], id);
      assert forall r :: r in reports <==> r == reports[0] || r in reports[1..];
    }
  }

  lemma {:induction false} AbsorbedNext(t: Tracker, reports: seq<ExecutionReport>, id: Name)
    requires id in t.orders && reports != [] && IdsIdentify(reports) && Absorbed(t, reports, id)
    ensures var t' := ApplyOne(t, reports[0]).0;
            id in t'.orders && IdsIdentify(reports[1..]) && Absorbed(t', reports[1..], id)
  {
    hide ApplyOne;
    var r0 := reports[0];
    FilledAfter(t, r0, id);
    assert r0 in reports;
    forall r | r in reports[1..]
      ensures r in reports
    {
    }
  }

  /**
   For any delivery of reports whose ids were not processed before, in any order and with any repetitions,
   the order ends with the greatest cumulative quantity reported, or what it had.
   */
  lemma {:induction false} ConvergesFrom(t: Tracker, reports: seq<ExecutionReport>, id: Name)
    requires id in t.orders && IdsIdentify(reports) && Absorbed(t, reports, id)
    ensures var t' := ApplyAll(t, reports).0;
            id in t'.orders && t'.orders[id].filledQuantity == Greatest(t.orders[id].filledQuantity, reports, id)
    decreases |reports|
  {
    hide ApplyOne;
    if reports != [] {
      AbsorbedNext(t, reports, id);
      FilledAfter(t, reports[0], id);
      assert reports[0] in reports;
      ConvergesFrom(ApplyOne(t, reports[0]).0, reports[1..], id);
    }
  }

  ghost predicate Fresh(t: Tracker, reports: seq<ExecutionReport>) {
    forall r :: r in reports ==> !Seen(t, r)
  }

  /** Deliveries of the same reports agree on the filled quantity, whatever their order and repetitions. */
  lemma {:induction false} FilledConverges(t: Tracker, reports: seq<ExecutionReport>, reports': seq<ExecutionReport>,
                                           id: Name)
    requires id in t.orders && Fresh(t, reports) && IdsIdentify(reports)
    requires forall r :: r in reports <==> r in reports'
    ensures var t1, t2 := ApplyAll(t, reports).0, ApplyAll(t, reports').0;
            && id in t1.orders && id in t2.orders
            && t1.orders[id].filledQuantity == t2.orders[id].filledQuantity ==
              Greatest(t.orders[id].filledQuantity, reports, id)
  {
    ConvergesFrom(t, reports, id);
    ConvergesFrom(t, reports', id);
    GreatestIs(t.orders[id].filledQuantity, reports, id);
    GreatestIs(t.orders[id].filledQuantity, reports', id);
  }

  /** A newly registered order converges to the greatest quantity reported, whatever the tracker held under its id. */
  lemma {:induction false} RegisteredConverges(t: Tracker, request: OrderRequest, id: Name, clientId: Name,
                                               reports: seq<ExecutionReport>)
    requires Fresh(t, reports) && IdsIdentify(reports)
    ensures var (t', results) := ApplyAll(t.(orders := t.orders[id := Registered(request, id, clientId)]), reports);
            && id in t'.orders && t'.orders[id].filledQuantity == Greatest(0.0, reports, id)
            && EmittedTotal(results, id) == Greatest(0.0, reports, id)
  {
    hide ApplyAll;
    var t1 := t.(orders := t.orders[id := Registered(request, id, clientId)]);
    ConvergesFrom(t1, reports, id);
    RunLaw(t1, reports, id);
  }

  /**
   An order restored from its record converges from the quantity on record, and only what is new is emitted as fills.
   */
  lemma {:induction false} RestoredConverges(t: Tracker, record: OrderRecord, reports: seq<ExecutionReport>)
    requires Fresh(t, reports) && IdsIdentify(reports)
    ensures var id := record.orderId;
            var (t', results) := ApplyAll(t.(orders := t.orders[id := Recovered(record)]), reports);
            && id in t'.orders && t'.orders[id].filledQuantity == Greatest(record.filledQuantity, reports, id)
            && EmittedTotal(results, id) == Greatest(record.filledQuantity, reports, id) - record.filledQuantity
  {
    hide ApplyAll;
    var t1 := t.(orders := t.orders[record.orderId := Recovered(record)]);
    ConvergesFrom(t1, reports, record.orderId);
    RunLaw(t1, reports, record.orderId);
  }

  // ---------- The final status ----------

  /** `top` is the report of the order with strictly the greatest cumulative quantity. */
  ghost predicate Tops(top: ExecutionReport, reports: seq<ExecutionReport>, id: Name) {
    top.orderId == id && forall r :: r in reports && r.orderId == id && r != top ==>
      r.cumulativeFilled < top.cumulativeFilled
  }

  lemma {:induction false} SettledStep(t: Tracker, r: ExecutionReport, top: ExecutionReport, id: Name)
    requires id in t.orders && t.orders[id].filledQuantity == top.cumulativeFilled && t.orders[id].status == top.status
    requires r.orderId == id && r != top ==> r.cumulativeFilled < top.cumulativeFilled
    ensures var t' := ApplyOne(t, r).0;
            id in t'.orders && t'.orders[id].filledQuantity == top.cumulativeFilled &&
              t'.orders[id].status == top.status
  {
  }

  /** Once the top report is applied, nothing that follows changes the status. */
  lemma {:induction false} Settled(t: Tracker, reports: seq<ExecutionReport>, top: ExecutionReport, id: Name)
    requires id in t.orders && t.orders[id].filledQuantity == top.cumulativeFilled && t.orders[id].status == top.status
    requires Tops(top, reports, id)
    ensures var t' := ApplyAll(t, reports).0;
            id in t'.orders && t'.orders[id].status == top.status
    decreases |reports|
  {
    hide ApplyOne;
    if reports != [] {
      assert reports[0] in reports;
      SettledStep(t, reports[0], top, id);
      Settled(ApplyOne(t, reports[0]).0, reports[1..], top, id);
    }
  }

  lemma {:induction false} TopApplies(t: Tracker, top: ExecutionReport)
    requires top.orderId in t.orders && !Seen(t, top) && top.cumulativeFilled > t.orders[top.orderId].filledQuantity
    ensures var t' := ApplyOne(t, top).0;
            top.orderId in t'.orders && t'.orders[top.orderId].filledQuantity == top.cumulativeFilled &&
              t'.orders[top.orderId].status == top.status
  {
  }

  /** If one report tops the others and what the order had, its status is the final one, in every delivery. */
  lemma {:induction false} TopStatusWins(t: Tracker, reports: seq<ExecutionReport>, top: ExecutionReport, id: Name)
    requires id in t.orders && IdsIdentify(reports) && top in reports && Tops(top, reports, id)
    requires !Seen(t, top) && top.cumulativeFilled > t.orders[id].filledQuantity
    ensures var t' := ApplyAll(t, reports).0;
            id in t'.orders && t'.orders[id].status == top.status
    decreases |reports|
  {
    hide ApplyOne;
    var r := reports[0];
    var t1 := ApplyOne(t, r).0;
    assert r in reports && forall s :: s in reports <==> s == r || s in reports[1..];
    if r == top {
      TopApplies(t, top);
      Settled(t1, reports[1..], top, id);
    } else {
      FilledAfter(t, r, id);
      TopStatusWins(t1, reports[1..], top, id);
    }
  }

  /** A tie can depend on the order of arrival: of a fill and a cancellation with equal quantity, the first stays. */
  lemma {:induction false} TieDependsOnOrder(t: Tracker, a: ExecutionReport, b: ExecutionReport)
    requires a.orderId == b.orderId && a.orderId in t.orders && a.reportId != b.reportId && !Seen(t, a) && !Seen(t, b)
    requires a.cumulativeFilled == b.cumulativeFilled > t.orders[a.orderId].filledQuantity
    requires a.status == Filled && b.status == Canceled
    ensures var t1, t2 := ApplyAll(t, [a, b]).0, ApplyAll(t, [b, a]).0;
            && a.orderId in t1.orders && t1.orders[a.orderId].status == Filled
            && a.orderId in t2.orders && t2.orders[a.orderId].status == Canceled
  {
    TwoReports(t, a, b);
    TwoReports(t, b, a);
  }

  lemma {:induction false} TwoReports(t: Tracker, a: ExecutionReport, b: ExecutionReport)
    ensures ApplyAll(t, [a, b]).0 == ApplyOne(ApplyOne(t, a).0, b).0
  {
    hide ApplyOne;
    assert [a, b][1..] == [b] && [b][1..] == [];
    var t1 := ApplyOne(t, a).0;
    assert ApplyAll(t1, [b]).0 == ApplyAll(ApplyOne(t1, b).0, []).0;
  }
}
