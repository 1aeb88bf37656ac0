/**
 Reports that tie for the quantity the order already has, such as the acknowledgement, rejection or cancellation of an
 order that never fills.  No fill forces their status on the order, so each has to be accepted by the status it meets.
 */
module HeldTies {
  import opened Types
  import opened Trackers
  import opened TrackerLaws
  import opened TieLaws

  /** Some tied report changes the status if it comes first. */
  ghost predicate Moves(o: LocalOrder, all: seq<ExecutionReport>, id: Name, c: real) {
    exists r :: r in all && Ties(r, id, c) && TakesAt(o.lastExchangeTimestamp, o.status, r)
  }

  /** The order can get to the status of `a` in one or two steps. */
  ghost predicate Reached(o: LocalOrder, all: seq<ExecutionReport>, id: Name, c: real, a: ExecutionReport) {
    && a.status != o.status
    && (|| TakesAt(o.lastExchangeTimestamp, o.status, a)
        || exists b :: b in all && Ties(b, id, c) && TakesAt(o.lastExchangeTimestamp, o.status, b) &&
                       Takes(o.lastExchangeTimestamp, b, a))
  }

  /** `k` carries the status of the order or takes it over. */
  predicate Enters(o: LocalOrder, k: ExecutionReport) {
    k.status == o.status || TakesAt(o.lastExchangeTimestamp, o.status, k)
  }

  /** `a` neither outdates `k` nor takes over from it, and gives way to it if the order can get to its status. */
  ghost predicate Yields(o: LocalOrder, all: seq<ExecutionReport>, id: Name, c: real, k: ExecutionReport,
                         a: ExecutionReport) {
    && !Older(k, Later(o.lastExchangeTimestamp, a.exchangeTimestamp))
    && !Takes(o.lastExchangeTimestamp, k, a)
    && (Reached(o, all, id, c, a) ==> Takes(o.lastExchangeTimestamp, a, k))
  }

  /** All tied reports of another status yield to `k`. */
  ghost predicate Prevailing(o: LocalOrder, all: seq<ExecutionReport>, id: Name, c: real, k: ExecutionReport) {
    && k in all && Ties(k, id, c) && Enters(o, k)
    && forall a :: a in all && Ties(a, id, c) && a.status != k.status ==> Yields(o, all, id, c, k, a)
  }

  /** A report of the status prevails, or the status is that of the order and no report changes it. */
  ghost predicate Kept(o: LocalOrder, all: seq<ExecutionReport>, id: Name, c: real, status: OrderStatus) {
    if Moves(o, all, id, c) then exists k :: Prevailing(o, all, id, c, k) && k.status == status
    else status == o.status
  }

  // ---------- A prevailing report decides ----------

  /** Nothing tied makes `k` older. */
  ghost predicate Freshest(o: LocalOrder, all: seq<ExecutionReport>, id: Name, c: real, k: ExecutionReport) {
    && !Older(k, o.lastExchangeTimestamp)
    && forall a :: a in all && Ties(a, id, c) ==> !Older(k, a.exchangeTimestamp)
  }

  /** Of the reports that prevail, some is the freshest. */
  lemma {:induction false} FreshestPrevailing(o: LocalOrder, all: seq<ExecutionReport>, id: Name, c: real,
                                              k: ExecutionReport)
    returns (k': ExecutionReport)
    requires Moves(o, all, id, c) && Prevailing(o, all, id, c, k)
    ensures Prevailing(o, all, id, c, k') && k'.status == k.status && Freshest(o, all, id, c, k')
  {
    hide ShouldApplyStatus, Reached;
    var r :| r in all && Ties(r, id, c) && TakesAt(o.lastExchangeTimestamp, o.status, r);
    assert r.status != k.status ==> Yields(o, all, id, c, k, r);
    assert r.status != o.status by {
      if r.status == o.status {
        ChangesStatus(o.status);
      }
    }
    assert !Older(k, o.lastExchangeTimestamp);
    if k.exchangeTimestamp <= 0 {
      k' := k;
    } else {
      k' := Latest(Tied(all, id, c, k.status, true));
      forall a | a in all && Ties(a, id, c) && a.status != k'.status
        ensures Yields(o, all, id, c, k', a) && !Older(k', a.exchangeTimestamp)
      {
        assert Yields(o, all, id, c, k, a);
      }
    }
  }

  lemma {:induction false} ChangesStatus(status: OrderStatus)
    ensures !ShouldApplyStatus(status, status)
  {
  }

  /** The status of an order that was `o0`, at a later time: its own, or one that it could get to. */
  ghost predicate Standing(o0: LocalOrder, all: seq<ExecutionReport>, id: Name, c: real, status: OrderStatus,
                           time: int) {
    || status == o0.status
    || exists a :: a in all && Ties(a, id, c) && Reached(o0, all, id, c, a) && a.status == status &&
                   a.exchangeTimestamp <= time
  }

  /** Two steps are enough: whatever takes over from such a status leads to such a status. */
  lemma {:induction false} TwoStepsSuffice(o0: LocalOrder, all: seq<ExecutionReport>, id: Name, c: real,
                                           status: OrderStatus, time: int, r: ExecutionReport, time': int)
    requires Standing(o0, all, id, c, status, time) && o0.lastExchangeTimestamp <= time
    requires r in all && Ties(r, id, c) && TakesAt(time, status, r) && r.exchangeTimestamp <= time'
    ensures Standing(o0, all, id, c, r.status, time')
  {
    if status != o0.status && r.status != o0.status {
      var a :| a in all && Ties(a, id, c) && Reached(o0, all, id, c, a) && a.status == status &&
        a.exchangeTimestamp <= time;
      assert Takes(o0.lastExchangeTimestamp, a, r);
      assert Reached(o0, all, id, c, r);
    }
  }

  ghost predicate Holding(o0: LocalOrder, t: Tracker, all: seq<ExecutionReport>, id: Name, c: real,
                          k: ExecutionReport, delivered: bool) {
    && id in t.orders
    && var o := t.orders[id];
       && o.filledQuantity == c && o.lastExchangeTimestamp >= o0.lastExchangeTimestamp
       && !Older(k, o.lastExchangeTimestamp) && Standing(o0, all, id, c, o.status, o.lastExchangeTimestamp)
       && if delivered then o.status == k.status && o.lastExchangeTimestamp >= k.exchangeTimestamp else !Seen(t, k)
  }

  /** Once delivered, nothing takes over from `k`. */
  lemma {:induction false} NothingTakes(o0: LocalOrder, all: seq<ExecutionReport>, id: Name, c: real,
                                        k: ExecutionReport, r: ExecutionReport, time: int)
    requires Prevailing(o0, all, id, c, k) && r in all && Ties(r, id, c)
    requires time >= o0.lastExchangeTimestamp && time >= k.exchangeTimestamp
    ensures !TakesAt(time, k.status, r)
  {
    hide Reached, Enters;
    if r.status == k.status {
      ChangesStatus(r.status);
    } else {
      hide ShouldApplyStatus;
      assert Yields(o0, all, id, c, k, r);
    }
  }

  /** `k` itself enters from every status the order can have. */
  lemma {:induction false} KeyTakes(o0: LocalOrder, all: seq<ExecutionReport>, id: Name, c: real, k: ExecutionReport,
                                    status: OrderStatus, time: int)
    requires Prevailing(o0, all, id, c, k) && Standing(o0, all, id, c, status, time) && !Older(k, time)
    requires status != k.status
    ensures TakesAt(time, status, k)
  {
    hide ShouldApplyStatus, Reached;
    if status != o0.status {
      var a :| a in all && Ties(a, id, c) && Reached(o0, all, id, c, a) && a.status == status;
      assert Yields(o0, all, id, c, k, a);
    }
  }

  lemma {:induction false} HoldingNext(o0: LocalOrder, t: Tracker, r: ExecutionReport, all: seq<ExecutionReport>,
                                       id: Name, c: real, k: ExecutionReport, delivered: bool)
    requires Contest(all, id, c) && Prevailing(o0, all, id, c, k) && Freshest(o0, all, id, c, k)
    requires Holding(o0, t, all, id, c, k, delivered) && r in all
    ensures Holding(o0, ApplyOne(t, r).0, all, id, c, k, delivered || r == k)
  {
    var o := t.orders[id];
    NextTie(t, r, id, c);
    SeenNext(t, r, k);
    hide ApplyOne, Seen;
    var o' := ApplyOne(t, r).0.orders[id];
    if Live(t, r, id, c) {
      if delivered {
        NothingTakes(o0, all, id, c, k, r, o.lastExchangeTimestamp);
      } else if r == k && o.status != k.status {
        KeyTakes(o0, all, id, c, k, o.status, o.lastExchangeTimestamp);
      }
      hide Prevailing;
      if TakesAt(o.lastExchangeTimestamp, o.status, r) {
        TwoStepsSuffice(o0, all, id, c, o.status, o.lastExchangeTimestamp, r, o'.lastExchangeTimestamp);
      }
    }
  }

  lemma {:induction false} Prevails(o0: LocalOrder, t: Tracker, rest: seq<ExecutionReport>, all: seq<ExecutionReport>,
                                    id: Name, c: real, k: ExecutionReport, delivered: bool)
    requires Contest(all, id, c) && Prevailing(o0, all, id, c, k) && Freshest(o0, all, id, c, k)
    requires Holding(o0, t, all, id, c, k, delivered) && (delivered || k in rest) && Within(rest, all)
    ensures id in After(t, rest).orders && After(t, rest).orders[id].status == k.status
    decreases |rest|
  {
    if rest != [] {
      hide ApplyOne, Seen, Prevailing, Freshest, Contest;
      var r := rest[0];
      assert r in rest && (k in rest ==> k == r || k in rest[1..]);
      HoldingNext(o0, t, r, all, id, c, k, delivered);
      hide Holding;
      Prevails(o0, ApplyOne(t, r).0, rest[1..], all, id, c, k, delivered || r == k);
    }
  }

  lemma {:induction false} KeptEnds(t: Tracker, reports: seq<ExecutionReport>, id: Name, c: real, status: OrderStatus,
                                    delivery: seq<ExecutionReport>)
    requires id in t.orders && Fresh(t, reports) && Contest(reports, id, c) && t.orders[id].filledQuantity == c
    requires Kept(t.orders[id], reports, id, c, status) && SameReports(delivery, reports)
    ensures id in After(t, delivery).orders && After(t, delivery).orders[id].status == status
  {
    hide Seen, After, ShouldApplyStatus;
    var o := t.orders[id];
    if Moves(o, reports, id, c) {
      var k :| Prevailing(o, reports, id, c, k) && k.status == status;
      var k' := FreshestPrevailing(o, reports, id, c, k);
      assert k' in delivery;
      Prevails(o, t, delivery, reports, id, c, k', false);
    } else {
      NoneTakes(t, delivery, id, c, o.status, o.lastExchangeTimestamp);
    }
  }

  // ---------- Without a prevailing report some deliveries differ ----------

  /** No tied report was seen, and the order has the tied quantity. */
  ghost predicate Untouched(t: Tracker, all: seq<ExecutionReport>, id: Name, c: real) {
    && id in t.orders && t.orders[id].filledQuantity == c
    && forall a :: a in all && Ties(a, id, c) ==> !Seen(t, a)
  }

  /** A report that enters first: its status and timestamp, and what else is tied is still unseen. */
  lemma {:induction false} Opens(t: Tracker, all: seq<ExecutionReport>, id: Name, c: real, a: ExecutionReport,
                                 round: seq<ExecutionReport>)
    requires Contest(all, id, c) && Untouched(t, all, id, c) && a in all && Ties(a, id, c)
    requires Enters(t.orders[id], a) && !Older(a, t.orders[id].lastExchangeTimestamp)
    ensures var t1 := ApplyOne(t, a).0;
            && After(t, [a] + round) == After(t1, round)
            && At(t1, id, c, a.status, Later(t.orders[id].lastExchangeTimestamp, a.exchangeTimestamp))
            && forall b :: b in all && Ties(b, id, c) ==> !Seen(t1, b) || b == a
  {
    NextTie(t, a, id, c);
    var t1 := ApplyOne(t, a).0;
    forall b | b in all && Ties(b, id, c)
      ensures !Seen(t1, b) || b == a
    {
      SeenNext(t, a, b);
    }
    hide ApplyOne, Seen;
    AfterOne(t, a);
    AfterConcat(t, [a], round);
  }

  /** The final status is the one of the order, or one that the order accepts. */
  lemma {:induction false} MustEnter(t: Tracker, all: seq<ExecutionReport>, id: Name, c: real, status: OrderStatus)
    requires Contest(all, id, c) && Untouched(t, all, id, c) && EndsWith(t, all, id, status)
    ensures status == t.orders[id].status || ShouldApplyStatus(t.orders[id].status, status)
  {
    hide After, Seen, Tied, EndsWith, ShouldApplyStatus, Contest;
    var o := t.orders[id];
    var round := Tied(all, id, c, status, true) + Tied(all, id, c, status, false);
    assert After(t, []) == t by {
      AfterNone(t);
    }
    Trial(t, all, id, c, status, [], round);
    if status != o.status && !ShouldApplyStatus(o.status, status) {
      Stuck(t, all, id, c, o.status, o.lastExchangeTimestamp, status);
    }
  }

  /** Some report of the final status is not outdated by those of another. */
  lemma {:induction false} SomeCurrent(t: Tracker, all: seq<ExecutionReport>, id: Name, c: real, status: OrderStatus,
                                       r: ExecutionReport)
    requires Contest(all, id, c) && Untouched(t, all, id, c) && EndsWith(t, all, id, status)
    requires r in all && Ties(r, id, c) && TakesAt(t.orders[id].lastExchangeTimestamp, t.orders[id].status, r)
    ensures Currents(all, id, c, t.orders[id].lastExchangeTimestamp, status, true) != []
  {
    var o := t.orders[id];
    var time := o.lastExchangeTimestamp;
    var others, same := Tied(all, id, c, status, false), Tied(all, id, c, status, true);
    AfterNone(t);
    hide After, Seen, Tied, Currents, EndsWith, Contest;
    if Currents(all, id, c, time, status, true) == [] {
      if status == o.status {
        ChangesStatus(status);
        hide ShouldApplyStatus;
        Trial(t, all, id, c, status, [], [r] + (others + same));
        Opens(t, all, id, c, r, others + same);
        Outdated(ApplyOne(t, r).0, all, id, c, r.status, time, Later(time, r.exchangeTimestamp), status, same);
      } else {
        hide ShouldApplyStatus;
        Trial(t, all, id, c, status, [], others + same);
        Outdated(t, all, id, c, o.status, time, time, status, same);
      }
    }
  }

  /** No report of another status takes over from the latest of those that are not outdated. */
  lemma {:induction false} NoTakeover(t: Tracker, all: seq<ExecutionReport>, id: Name, c: real, status: OrderStatus,
                                      k: ExecutionReport, a: ExecutionReport)
    requires Contest(all, id, c) && Untouched(t, all, id, c) && EndsWith(t, all, id, status) && k.status == status
    requires k in Currents(all, id, c, t.orders[id].lastExchangeTimestamp, status, true)
    requires forall r :: r in Currents(all, id, c, t.orders[id].lastExchangeTimestamp, status, true) ==>
               r.exchangeTimestamp <= k.exchangeTimestamp
    requires Enters(t.orders[id], k) && !Older(k, t.orders[id].lastExchangeTimestamp)
    requires a in all && Ties(a, id, c) && a.status != status
    ensures !Takes(t.orders[id].lastExchangeTimestamp, k, a)
  {
    var time := t.orders[id].lastExchangeTimestamp;
    AfterNone(t);
    hide After, Seen, Tied, Currents, EndsWith, ShouldApplyStatus, Older, Contest, Enters;
    var round := Takeover(all, id, c, time, status, a);
    Trial(t, all, id, c, status, [], [k] + round);
    Opens(t, all, id, c, k, round);
    if Takes(time, k, a) {
      Overtaken(ApplyOne(t, k).0, all, id, c, time, k, a);
    }
  }

  /** A status that the order can get to has to accept the final one. */
  lemma {:induction false} MustYield(t: Tracker, all: seq<ExecutionReport>, id: Name, c: real, status: OrderStatus,
                                     a: ExecutionReport)
    requires Contest(all, id, c) && Untouched(t, all, id, c) && EndsWith(t, all, id, status)
    requires a in all && Ties(a, id, c) && a.status != status && Reached(t.orders[id], all, id, c, a)
    ensures ShouldApplyStatus(a.status, status)
  {
    var o := t.orders[id];
    var time := o.lastExchangeTimestamp;
    var round := Tied(all, id, c, status, true) + Tied(all, id, c, status, false);
    AfterNone(t);
    if !ShouldApplyStatus(a.status, status) {
      hide After, Seen, Tied, EndsWith, ShouldApplyStatus, Contest;
      if TakesAt(time, o.status, a) {
        Trial(t, all, id, c, status, [], [a] + round);
        Opens(t, all, id, c, a, round);
        Stuck(ApplyOne(t, a).0, all, id, c, a.status, Later(time, a.exchangeTimestamp), status);
      } else {
        var b :| b in all && Ties(b, id, c) && TakesAt(time, o.status, b) && Takes(time, b, a);
        assert b != a;
        Trial(t, all, id, c, status, [], [b] + ([a] + round));
        Opens(t, all, id, c, b, [a] + round);
        TakesSecond(ApplyOne(t, b).0, id, c, b.status, Later(time, b.exchangeTimestamp), a, round);
        var t2 := ApplyOne(ApplyOne(t, b).0, a).0;
        Stuck(t2, all, id, c, a.status, t2.orders[id].lastExchangeTimestamp, status);
      }
    }
  }

  lemma {:induction false} TakesSecond(t: Tracker, id: Name, c: real, status: OrderStatus, time: int,
                                       a: ExecutionReport, round: seq<ExecutionReport>)
    requires At(t, id, c, status, time) && Live(t, a, id, c) && TakesAt(time, status, a)
    ensures var t1 := ApplyOne(t, a).0;
            && After(t, [a] + round) == After(t1, round)
            && id in t1.orders && At(t1, id, c, a.status, t1.orders[id].lastExchangeTimestamp)
  {
    NextTie(t, a, id, c);
    hide ApplyOne;
    AfterOne(t, a);
    AfterConcat(t, [a], round);
  }

  /** If every delivery ends with a status and some report moves the order, a report of that status prevails. */
  lemma {:induction false} SomePrevailing(t: Tracker, all: seq<ExecutionReport>, id: Name, c: real,
                                          status: OrderStatus)
    returns (k: ExecutionReport)
    requires Contest(all, id, c) && Untouched(t, all, id, c) && EndsWith(t, all, id, status)
    requires Moves(t.orders[id], all, id, c)
    ensures Prevailing(t.orders[id], all, id, c, k) && k.status == status
  {
    hide After, Seen, Tied, Currents, EndsWith, ShouldApplyStatus, Contest;
    var o := t.orders[id];
    hide Untouched;
    var time := o.lastExchangeTimestamp;
    var r :| r in all && Ties(r, id, c) && TakesAt(time, o.status, r);
    MustEnter(t, all, id, c, status);
    var others := Tied(all, id, c, status, false);
    if others == [] {
      k := r;
      assert r !in others;
    } else {
      SomeCurrent(t, all, id, c, status, r);
      k := Latest(Currents(all, id, c, time, status, true));
      var a0 := others[0];
      assert a0 in others;
      assert !Older(k, Later(time, a0.exchangeTimestamp));
      forall a | a in all && Ties(a, id, c) && a.status != k.status
        ensures Yields(o, all, id, c, k, a)
      {
        NoTakeover(t, all, id, c, status, k, a);
        if Reached(o, all, id, c, a) {
          MustYield(t, all, id, c, status, a);
        }
      }
    }
  }

  /**
   Every delivery of reports of which none exceeds what the order has ends with `status` if and only if one of them with
   that status prevails, or none of them moves the order and it has that status.
   */
  lemma {:induction false} HeldEndsExactly(t: Tracker, reports: seq<ExecutionReport>, id: Name, status: OrderStatus)
    requires id in t.orders && Fresh(t, reports) && Contest(reports, id, t.orders[id].filledQuantity)
    ensures EndsWith(t, reports, id, status) <==>
            Kept(t.orders[id], reports, id, t.orders[id].filledQuantity, status)
  {
    hide After, ShouldApplyStatus, Prevailing, Contest;
    var o, c := t.orders[id], t.orders[id].filledQuantity;
    if EndsWith(t, reports, id, status) {
      if Moves(o, reports, id, c) {
        var k := SomePrevailing(t, reports, id, c, status);
      } else {
        assert SameReports(reports, reports);
        AfterIs(t, reports);
        KeptEnds(t, reports, id, c, o.status, reports);
      }
    }
    if Kept(o, reports, id, c, status) {
      forall delivery | SameReports(delivery, reports)
        ensures var t' := ApplyAll(t, delivery).0;
                id in t'.orders && t'.orders[id].status == status
      {
        AfterIs(t, delivery);
        KeptEnds(t, reports, id, c, status, delivery);
      }
    }
  }
}
