/** Exactly when the final status of an order does not depend on how its reports are delivered. */
module FinalStatus {
  import opened Types
  import opened Trackers
  import opened TrackerLaws
  import opened TieLaws
  import opened HigherTies
  import opened HeldTies

  /** The greatest cumulative quantity reported for the order, or what it has. */
  function Top(t: Tracker, reports: seq<ExecutionReport>, id: Name): real
    requires id in t.orders
  {
    Greatest(t.orders[id].filledQuantity, reports, id)
  }

  /**
   The reports of the greatest quantity decide for the status: if the quantity is new to the order, by a decisive report
   at every timestamp the order can have by then; otherwise by a prevailing report, or by not moving the order at all.
   */
  ghost predicate Settles(t: Tracker, reports: seq<ExecutionReport>, id: Name, status: OrderStatus)
    requires id in t.orders
  {
    var o, c := t.orders[id], Top(t, reports, id);
    if o.filledQuantity < c then Decided(o, reports, id, c, status) else Kept(o, reports, id, c, status)
  }

  /** Every delivery of the reports ends with the same status. */
  ghost predicate StatusIsFixed(t: Tracker, reports: seq<ExecutionReport>, id: Name)
    requires id in t.orders
  {
    exists status :: EndsWith(t, reports, id, status)
  }

  // ---------- Reports processed before ----------

  /** The reports that are not dropped as duplicates of what was processed before. */
  function Unseen(t: Tracker, reports: seq<ExecutionReport>): (kept: seq<ExecutionReport>)
    ensures forall r :: r in kept <==> r in reports && !Seen(t, r)
  {
    if reports == [] then []
    else if Seen(t, reports[0]) then Unseen(t, reports[1..])
    else [reports[0]] + Unseen(t, reports[1..])
  }

  lemma {:induction false} SeenDropped(t: Tracker, r: ExecutionReport)
    requires Seen(t, r)
    ensures ApplyOne(t, r).0 == t
  {
  }

  lemma {:induction false} AllDropped(t: Tracker, delivery: seq<ExecutionReport>)
    requires forall r :: r in delivery ==> Seen(t, r)
    ensures After(t, delivery) == t
    decreases |delivery|
  {
    hide ApplyOne, Seen;
    if delivery != [] {
      assert delivery[0] in delivery;
      SeenDropped(t, delivery[0]);
      AllDropped(t, delivery[1..]);
    }
  }

  /** Leaving out what was seen at some point before makes no difference. */
  lemma {:induction false} UnseenSuffices(t0: Tracker, t: Tracker, delivery: seq<ExecutionReport>)
    requires forall s :: Seen(t0, s) ==> Seen(t, s)
    ensures After(t, delivery) == After(t, Unseen(t0, delivery))
    decreases |delivery|
  {
    hide ApplyOne, Seen;
    if delivery != [] {
      var r := delivery[0];
      var t1 := ApplyOne(t, r).0;
      forall s | Seen(t0, s)
        ensures Seen(t1, s)
      {
        SeenNext(t, r, s);
      }
      UnseenSuffices(t0, t1, delivery[1..]);
      if Seen(t0, r) {
        SeenDropped(t, r);
      } else {
        assert Unseen(t0, delivery)[1..] == Unseen(t0, delivery[1..]);
      }
    }
  }

  /** Every delivery of the reports ends with the status exactly if every delivery of the unseen ones does. */
  lemma {:induction false} UnseenDecide(t: Tracker, reports: seq<ExecutionReport>, id: Name, status: OrderStatus)
    requires id in t.orders
    ensures EndsWith(t, reports, id, status) <==> EndsWith(t, Unseen(t, reports), id, status)
  {
    hide ApplyAll, After, Seen;
    var unseen := Unseen(t, reports);
    if EndsWith(t, reports, id, status) {
      forall delivery | SameReports(delivery, unseen)
        ensures var t' := ApplyAll(t, delivery).0;
                id in t'.orders && t'.orders[id].status == status
      {
        var seen := Filter(reports, r => Seen(t, r));
        assert SameReports(seen + delivery, reports);
        AfterIs(t, seen + delivery);
        AfterIs(t, delivery);
        AfterConcat(t, seen, delivery);
        AllDropped(t, seen);
      }
    }
    if EndsWith(t, unseen, id, status) {
      forall delivery | SameReports(delivery, reports)
        ensures var t' := ApplyAll(t, delivery).0;
                id in t'.orders && t'.orders[id].status == status
      {
        assert SameReports(Unseen(t, delivery), unseen);
        UnseenSuffices(t, t, delivery);
        AfterIs(t, delivery);
        AfterIs(t, Unseen(t, delivery));
      }
    }
  }

  // ---------- Main results ----------

  /**
   Every delivery of the reports, in any order and with any repetitions, ends with `status` if and only if those of the
   greatest quantity among the unseen ones decide for it.
   */
  lemma {:induction false} TieEndsExactly(t: Tracker, reports: seq<ExecutionReport>, id: Name, status: OrderStatus)
    requires id in t.orders && IdsIdentify(Unseen(t, reports))
    ensures EndsWith(t, reports, id, status) <==> Settles(t, Unseen(t, reports), id, status)
  {
    UnseenDecide(t, reports, id, status);
    var unseen := Unseen(t, reports);
    assert Fresh(t, unseen);
    hide Unseen, EndsWith, Decided, Kept, Fresh;
    var o, c := t.orders[id], Top(t, unseen, id);
    GreatestIs(o.filledQuantity, unseen, id);
    hide Top;
    if o.filledQuantity < c {
      assert exists a :: a in unseen && Ties(a, id, c);
      HigherEndsExactly(t, unseen, id, c, status);
    } else {
      HeldEndsExactly(t, unseen, id, status);
    }
  }

  /** The final status does not depend on the delivery if and only if the unseen reports decide for some status. */
  lemma {:induction false} TieSettlesExactly(t: Tracker, reports: seq<ExecutionReport>, id: Name)
    requires id in t.orders && IdsIdentify(Unseen(t, reports))
    ensures StatusIsFixed(t, reports, id) <==> exists status :: Settles(t, Unseen(t, reports), id, status)
  {
    hide EndsWith, Settles;
    forall status
      ensures EndsWith(t, reports, id, status) <==> Settles(t, Unseen(t, reports), id, status)
    {
      TieEndsExactly(t, reports, id, status);
    }
  }

  // ---------- Two reports ----------

  /** Both set the status if they come first: they have to agree, or exactly one takes over from the other. */
  predicate Agree(time: int, a: ExecutionReport, b: ExecutionReport) {
    a.status == b.status || Takes(time, a, b) != Takes(time, b, a)
  }

  /**
   Only `a` changes the status of the order by itself: `b` must neither take over from it nor outdate it, or do both and
   carry the status that the order had.
   */
  predicate Absorbs(o: LocalOrder, a: ExecutionReport, b: ExecutionReport) {
    var time := o.lastExchangeTimestamp;
    var outdates := Older(a, Later(time, b.exchangeTimestamp));
    if Takes(time, a, b) then outdates && b.status == o.status else !outdates
  }

  /** Two tied reports lead to one status in both orders of arrival. */
  predicate Commute(o: LocalOrder, a: ExecutionReport, b: ExecutionReport) {
    var time := o.lastExchangeTimestamp;
    var movesA, movesB := TakesAt(time, o.status, a), TakesAt(time, o.status, b);
    if a.cumulativeFilled < o.filledQuantity then true
    else if a.cumulativeFilled > o.filledQuantity || (movesA && movesB) then Agree(time, a, b)
    else if movesA then Absorbs(o, a, b)
    else if movesB then Absorbs(o, b, a)
    else true
  }

  /** For any two tied reports the order of arrival does not matter if and only if they commute. */
  lemma {:induction false} TieOfTwo(t: Tracker, a: ExecutionReport, b: ExecutionReport)
    requires a.orderId == b.orderId && a.orderId in t.orders && !Seen(t, a) && !Seen(t, b)
    requires a.cumulativeFilled == b.cumulativeFilled && (a.reportId != b.reportId || a.reportId == Empty)
    ensures var t1, t2 := ApplyAll(t, [a, b]).0, ApplyAll(t, [b, a]).0;
            && a.orderId in t1.orders && a.orderId in t2.orders
            && (t1.orders[a.orderId].status == t2.orders[a.orderId].status <==> Commute(t.orders[a.orderId], a, b))
  {
    PairEnds(t, a, b);
    PairEnds(t, b, a);
    CommuteIs(t.orders[a.orderId], a, b);
    hide *;
  }

  /** The status after two tied reports. */
  function PairStatus(o: LocalOrder, a: ExecutionReport, b: ExecutionReport): OrderStatus {
    var time := o.lastExchangeTimestamp;
    if a.cumulativeFilled < o.filledQuantity then o.status
    else if a.cumulativeFilled > o.filledQuantity || TakesAt(time, o.status, a) then
      if Takes(time, a, b) then b.status else a.status
    else if TakesAt(Later(time, a.exchangeTimestamp), o.status, b) then b.status
    else o.status
  }

  lemma {:induction false} CommuteIs(o: LocalOrder, a: ExecutionReport, b: ExecutionReport)
    requires a.cumulativeFilled == b.cumulativeFilled
    ensures PairStatus(o, a, b) == PairStatus(o, b, a) <==> Commute(o, a, b)
  {
    ChangesStatus(o.status);
    ChangesStatus(a.status);
    hide ShouldApplyStatus;
  }

  lemma {:induction false} PairEnds(t: Tracker, a: ExecutionReport, b: ExecutionReport)
    requires a.orderId == b.orderId && a.orderId in t.orders && !Seen(t, a) && !Seen(t, b)
    requires a.cumulativeFilled == b.cumulativeFilled && (a.reportId != b.reportId || a.reportId == Empty)
    ensures var t' := ApplyAll(t, [a, b]).0;
            a.orderId in t'.orders && t'.orders[a.orderId].status == PairStatus(t.orders[a.orderId], a, b)
  {
    TwoReports(t, a, b);
    SeenNext(t, a, b);
    var id, c := a.orderId, a.cumulativeFilled;
    var o := t.orders[id];
    var t1 := ApplyOne(t, a).0;
    hide ApplyAll;
    if c < o.filledQuantity {
      LesserTie(t, a, id);
      LesserTie(t1, b, id);
    } else {
      if c > o.filledQuantity {
        FirstTie(t, a, id, c);
      } else {
        NextTie(t, a, id, c);
      }
      hide ApplyOne, Seen;
      NextTie(t1, b, id, c);
    }
  }

  lemma {:induction false} LesserTie(t: Tracker, r: ExecutionReport, id: Name)
    requires id in t.orders && r.orderId == id && r.cumulativeFilled < t.orders[id].filledQuantity
    ensures id in ApplyOne(t, r).0.orders && ApplyOne(t, r).0.orders[id] == t.orders[id]
  {
  }

  /**
   The cancellation and the rejection of a newly registered order that never fills: whichever arrives first stays.
   */
  lemma {:induction false} UnfilledDependsOnOrder(t: Tracker, request: OrderRequest, clientId: Name,
                                                  a: ExecutionReport, b: ExecutionReport)
    requires a.orderId == b.orderId && a.reportId != b.reportId && !Seen(t, a) && !Seen(t, b)
    requires a.cumulativeFilled == b.cumulativeFilled == 0.0 && a.status == Canceled && b.status == Rejected
    ensures var id := a.orderId;
            var t0 := t.(orders := t.orders[id := Registered(request, id, clientId)]);
            var t1, t2 := ApplyAll(t0, [a, b]).0, ApplyAll(t0, [b, a]).0;
            && id in t1.orders && t1.orders[id].status == Canceled
            && id in t2.orders && t2.orders[id].status == Rejected
  {
    var t0 := t.(orders := t.orders[a.orderId := Registered(request, a.orderId, clientId)]);
    PairEnds(t0, a, b);
    PairEnds(t0, b, a);
    hide ApplyAll;
  }
}
