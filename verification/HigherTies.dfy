/**
 Reports that tie for a quantity the order does not have yet.  The first of them to arrive sets the status, and the
 others may take it over.
 */
module HigherTies {
  import opened Types
  import opened Trackers
  import opened TrackerLaws
  import opened TieLaws

  /** `k` takes over from `a`, and not the other way round. */
  predicate Beats(time: int, k: ExecutionReport, a: ExecutionReport) {
    Takes(time, a, k) && !Takes(time, k, a)
  }

  /**
   A timestamp the order can have when the first tied report arrives: its own, or that of a report with less
   that is not stale.
   */
  ghost predicate BaseTime(o: LocalOrder, reports: seq<ExecutionReport>, id: Name, c: real, time: int) {
    || time == o.lastExchangeTimestamp
    || (time > o.lastExchangeTimestamp &&
        exists r :: r in reports && r.orderId == id && r.cumulativeFilled < c && !IsStale(o, r) &&
          r.exchangeTimestamp == time)
  }

  /** `k` is tied and beats every tied report of another status. */
  ghost predicate Decisive(reports: seq<ExecutionReport>, id: Name, c: real, time: int, k: ExecutionReport) {
    k in reports && Ties(k, id, c) &&
    forall a :: a in reports && Ties(a, id, c) && a.status != k.status ==> Beats(time, k, a)
  }

  ghost predicate Decided(o: LocalOrder, reports: seq<ExecutionReport>, id: Name, c: real, status: OrderStatus) {
    forall time :: BaseTime(o, reports, id, c, time) ==>
      exists k :: Decisive(reports, id, c, time, k) && k.status == status
  }

  /** The first tied report sets status and quantity. */
  lemma {:induction false} FirstTie(t: Tracker, r: ExecutionReport, id: Name, c: real)
    requires id in t.orders && t.orders[id].filledQuantity < c && Ties(r, id, c) && !Seen(t, r)
    ensures At(ApplyOne(t, r).0, id, c, r.status, Later(t.orders[id].lastExchangeTimestamp, r.exchangeTimestamp))
  {
  }

  // ---------- A decisive report prevails ----------

  /** Nothing tied makes `k` older. */
  ghost predicate Freshest(reports: seq<ExecutionReport>, id: Name, c: real, time: int, k: ExecutionReport) {
    !Older(k, time) && forall a :: a in reports && Ties(a, id, c) ==> !Older(k, a.exchangeTimestamp)
  }

  /** If tied reports disagree, some decisive one is the freshest. */
  lemma {:induction false} FreshestDecisive(reports: seq<ExecutionReport>, id: Name, c: real, time: int,
                                            k: ExecutionReport, a: ExecutionReport)
    returns (k': ExecutionReport)
    requires Decisive(reports, id, c, time, k) && a in reports && Ties(a, id, c) && a.status != k.status
    ensures Decisive(reports, id, c, time, k') && k'.status == k.status && Freshest(reports, id, c, time, k')
  {
    if k.exchangeTimestamp <= 0 {
      k' := k;
    } else {
      var same := Tied(reports, id, c, k.status, true);
      k' := Latest(same);
      assert Beats(time, k, a);
      forall b | b in reports && Ties(b, id, c) && b.status != k'.status
        ensures Beats(time, k', b)
      {
        assert Beats(time, k, b);
      }
    }
  }

  /**
   The order has the tied quantity and the status of a tied report; `k` is not outdated, and has prevailed once it was
   delivered.
   */
  ghost predicate Leading(t: Tracker, all: seq<ExecutionReport>, id: Name, c: real, time: int, k: ExecutionReport,
                          delivered: bool) {
    && id in t.orders
    && var o := t.orders[id];
       && o.filledQuantity == c && o.lastExchangeTimestamp >= time && !Older(k, o.lastExchangeTimestamp)
       && (exists a :: a in all && Ties(a, id, c) && a.status == o.status)
       && if delivered then o.status == k.status && o.lastExchangeTimestamp >= k.exchangeTimestamp else !Seen(t, k)
  }

  lemma {:induction false} LeadingNext(t: Tracker, r: ExecutionReport, all: seq<ExecutionReport>, id: Name, c: real,
                                       time: int, k: ExecutionReport, delivered: bool)
    requires Contest(all, id, c) && Decisive(all, id, c, time, k) && Freshest(all, id, c, time, k)
    requires Leading(t, all, id, c, time, k, delivered) && r in all
    ensures Leading(ApplyOne(t, r).0, all, id, c, time, k, delivered || r == k)
  {
    hide ApplyOne, Seen;
    var o := t.orders[id];
    NextTie(t, r, id, c);
    SeenNext(t, r, k);
    var a :| a in all && Ties(a, id, c) && a.status == o.status;
    if Live(t, r, id, c) {
      if r == k {
        assert a.status != k.status ==> Beats(time, k, a);
      } else {
        assert r.status != k.status ==> Beats(time, k, r);
      }
      assert exists b :: b in all && Ties(b, id, c) && b.status == ApplyOne(t, r).0.orders[id].status by {
        assert (if TakesAt(o.lastExchangeTimestamp, o.status, r) then r else a) in all;
      }
    }
  }

  lemma {:induction false} Prevails(t: Tracker, rest: seq<ExecutionReport>, all: seq<ExecutionReport>, id: Name,
                                    c: real, time: int, k: ExecutionReport, delivered: bool)
    requires Contest(all, id, c) && Decisive(all, id, c, time, k) && Freshest(all, id, c, time, k)
    requires Leading(t, all, id, c, time, k, delivered) && (delivered || k in rest) && Within(rest, all)
    ensures id in After(t, rest).orders && After(t, rest).orders[id].status == k.status
    decreases |rest|
  {
    if rest != [] {
      hide ApplyOne, Seen, Decisive, Freshest, Contest;
      var r := rest[0];
      assert r in rest && (k in rest ==> k == r || k in rest[1..]);
      LeadingNext(t, r, all, id, c, time, k, delivered);
      hide Leading;
      Prevails(ApplyOne(t, r).0, rest[1..], all, id, c, time, k, delivered || r == k);
    }
  }

  /** The order before any tied report: what can have happened to it since it was `o0`. */
  ghost predicate Waiting(o0: LocalOrder, t: Tracker, all: seq<ExecutionReport>, id: Name, c: real) {
    && id in t.orders
    && var o := t.orders[id];
       && o0.filledQuantity <= o.filledQuantity < c
       && BaseTime(o0, all, id, c, o.lastExchangeTimestamp) && o0.lastExchangeTimestamp <= o.lastExchangeTimestamp
       && (Terminal(o0.status) && o.filledQuantity == o0.filledQuantity ==> o.status == o0.status)
  }

  lemma {:induction false} WaitingNext(o0: LocalOrder, t: Tracker, r: ExecutionReport, all: seq<ExecutionReport>,
                                       id: Name, c: real)
    requires Waiting(o0, t, all, id, c) && r in all && (r.orderId == id ==> r.cumulativeFilled < c)
    ensures Waiting(o0, ApplyOne(t, r).0, all, id, c)
  {
  }

  /** If every possible timestamp has a decisive report of the status, every delivery ends with it. */
  lemma {:induction false} Arrives(o0: LocalOrder, t: Tracker, rest: seq<ExecutionReport>, all: seq<ExecutionReport>,
                                   id: Name, c: real, status: OrderStatus)
    requires Contest(all, id, c) && Decided(o0, all, id, c, status) && Waiting(o0, t, all, id, c)
    requires Within(rest, all)
    requires forall a :: a in all && Ties(a, id, c) ==> a in rest && !Seen(t, a)
    requires exists a :: a in all && Ties(a, id, c)
    ensures id in After(t, rest).orders && After(t, rest).orders[id].status == status
    decreases |rest|
  {
    var r := rest[0];
    assert r in rest && forall s :: s in rest <==> s == r || s in rest[1..];
    var t1 := ApplyOne(t, r).0;
    if Ties(r, id, c) {
      Contested(o0, t, r, rest[1..], all, id, c, status);
    } else {
      forall a | a in all && Ties(a, id, c)
        ensures !Seen(t1, a)
      {
        SeenNext(t, r, a);
      }
      hide ApplyOne, Decided;
      WaitingNext(o0, t, r, all, id, c);
      hide Waiting;
      Arrives(o0, t1, rest[1..], all, id, c, status);
    }
  }

  lemma {:induction false} Contested(o0: LocalOrder, t: Tracker, r: ExecutionReport, rest: seq<ExecutionReport>,
                                     all: seq<ExecutionReport>, id: Name, c: real, status: OrderStatus)
    requires Contest(all, id, c) && Decided(o0, all, id, c, status) && Waiting(o0, t, all, id, c)
    requires Ties(r, id, c) && r in all && Within(rest, all)
    requires forall a :: a in all && Ties(a, id, c) ==> (a == r || a in rest) && !Seen(t, a)
    ensures var t' := After(ApplyOne(t, r).0, rest);
            id in t'.orders && t'.orders[id].status == status
  {
    var time := t.orders[id].lastExchangeTimestamp;
    var k :| Decisive(all, id, c, time, k) && k.status == status;
    var t1 := ApplyOne(t, r).0;
    FirstTie(t, r, id, c);
    hide ApplyOne, Waiting, Decided, Beats;
    if a :| a in all && Ties(a, id, c) && a.status != k.status {
      var k' := FreshestDecisive(all, id, c, time, k, a);
      SeenNext(t, r, k');
      hide Seen;
      assert Leading(t1, all, id, c, time, k', r == k');
      Prevails(t1, rest, all, id, c, time, k', r == k');
    } else {
      hide Seen;
      NoneTakes(t1, rest, id, c, status, t1.orders[id].lastExchangeTimestamp);
    }
  }

  // ---------- Without a decisive report some deliveries differ ----------

  /** What a round of deliveries starts from: less than the tied quantity, and no tied report seen. */
  ghost predicate Open(t: Tracker, all: seq<ExecutionReport>, id: Name, c: real, time: int) {
    && id in t.orders && t.orders[id].filledQuantity < c && t.orders[id].lastExchangeTimestamp == time
    && forall a :: a in all && Ties(a, id, c) ==> !Seen(t, a)
  }

  /** A round that a tied report opens: its status and timestamp, and what was not seen before is still unseen. */
  lemma {:induction false} Opens(t: Tracker, all: seq<ExecutionReport>, id: Name, c: real, time: int,
                                 a: ExecutionReport, round: seq<ExecutionReport>)
    requires Contest(all, id, c) && Open(t, all, id, c, time) && a in all && Ties(a, id, c)
    ensures var t1 := ApplyOne(t, a).0;
            && After(t, [a] + round) == After(t1, round)
            && At(t1, id, c, a.status, Later(time, a.exchangeTimestamp))
            && forall b :: b in all && Ties(b, id, c) ==> !Seen(t1, b) || b == a
  {
    FirstTie(t, a, id, c);
    var t1 := ApplyOne(t, a).0;
    forall b | b in all && Ties(b, id, c)
      ensures !Seen(t1, b) || b == a
    {
      SeenNext(t, a, b);
    }
    AfterOne(t, a);
    AfterConcat(t, [a], round);
  }

  /**
   If every delivery ends with a status, then for each timestamp the order can have some report of the status is
   decisive.
   */
  lemma {:induction false} SomeDecisive(t: Tracker, all: seq<ExecutionReport>, id: Name, c: real, status: OrderStatus,
                                        pre: seq<ExecutionReport>, time: int)
    returns (k: ExecutionReport)
    requires id in t.orders && Contest(all, id, c) && EndsWith(t, all, id, status) && Within(pre, all)
    requires Open(After(t, pre), all, id, c, time) && exists a :: a in all && Ties(a, id, c)
    ensures Decisive(all, id, c, time, k) && k.status == status
  {
    hide After, Seen, Tied, Currents, EndsWith, ShouldApplyStatus, Older, Contest, Ties;
    var t1 := After(t, pre);
    var others, same := Tied(all, id, c, status, false), Tied(all, id, c, status, true);
    var ks := Currents(all, id, c, time, status, true);
    if others == [] {
      k :| k in all && Ties(k, id, c);
    } else {
      var a0 := others[0];
      var round := [a0] + (others + same);
      assert Ready(t1, all, id, c);
      Trial(t, all, id, c, status, pre, round);
      Opens(t1, all, id, c, time, a0, others + same);
      if ks == [] {
        Outdated(ApplyOne(t1, a0).0, all, id, c, a0.status, time, Later(time, a0.exchangeTimestamp), status, same);
      }
      k := Latest(ks);
      forall a | a in all && Ties(a, id, c) && a.status != status
        ensures Beats(time, k, a)
      {
        MustBeat(t, all, id, c, status, pre, time, k, a);
      }
    }
  }

  lemma {:induction false} MustBeat(t: Tracker, all: seq<ExecutionReport>, id: Name, c: real, status: OrderStatus,
                                    pre: seq<ExecutionReport>, time: int, k: ExecutionReport, a: ExecutionReport)
    requires id in t.orders && Contest(all, id, c) && EndsWith(t, all, id, status) && Within(pre, all)
    requires Open(After(t, pre), all, id, c, time) && k.status == status
    requires k in Currents(all, id, c, time, status, true)
    requires forall r :: r in Currents(all, id, c, time, status, true) ==> r.exchangeTimestamp <= k.exchangeTimestamp
    requires a in all && Ties(a, id, c) && a.status != status
    ensures Beats(time, k, a)
  {
    hide After, Seen, Tied, Currents, EndsWith, ShouldApplyStatus, Older, Contest;
    var t1 := After(t, pre);
    var round := Tied(all, id, c, status, true) + Tied(all, id, c, status, false);
    assert Ready(t1, all, id, c);
    Trial(t, all, id, c, status, pre, [a] + round);
    Opens(t1, all, id, c, time, a, round);
    if !ShouldApplyStatus(a.status, status) {
      Stuck(ApplyOne(t1, a).0, all, id, c, a.status, Later(time, a.exchangeTimestamp), status);
    }
    var round' := Takeover(all, id, c, time, status, a);
    Trial(t, all, id, c, status, pre, [k] + round');
    Opens(t1, all, id, c, time, k, round');
    if Takes(time, k, a) {
      Overtaken(ApplyOne(t1, k).0, all, id, c, time, k, a);
    }
  }

  /** Each of the timestamps can come about. */
  lemma {:induction false} Stamping(t: Tracker, all: seq<ExecutionReport>, id: Name, c: real, time: int)
    returns (pre: seq<ExecutionReport>)
    requires id in t.orders && Contest(all, id, c) && Fresh(t, all) && t.orders[id].filledQuantity < c
    requires BaseTime(t.orders[id], all, id, c, time)
    ensures Within(pre, all) && Open(After(t, pre), all, id, c, time)
  {
    var o := t.orders[id];
    if time == o.lastExchangeTimestamp {
      pre := [];
    } else {
      var r :| r in all && r.orderId == id && r.cumulativeFilled < c && !IsStale(o, r) && r.exchangeTimestamp == time;
      pre := [r];
      AfterOne(t, r);
      forall a | a in all && Ties(a, id, c)
        ensures !Seen(ApplyOne(t, r).0, a)
      {
        SeenNext(t, r, a);
      }
    }
  }

  /**
   Every delivery of the reports, in any order and with any repetitions, ends with `status` if and only if, for every
   timestamp the order can have when the first report of the greatest quantity arrives, some such report with that
   status beats all those with another.
   */
  lemma {:induction false} HigherEndsExactly(t: Tracker, reports: seq<ExecutionReport>, id: Name, c: real,
                                             status: OrderStatus)
    requires id in t.orders && Fresh(t, reports) && Contest(reports, id, c) && t.orders[id].filledQuantity < c
    requires exists a :: a in reports && Ties(a, id, c)
    ensures EndsWith(t, reports, id, status) <==> Decided(t.orders[id], reports, id, c, status)
  {
    var o := t.orders[id];
    hide After, Decisive;
    if EndsWith(t, reports, id, status) {
      forall time | BaseTime(o, reports, id, c, time)
        ensures exists k :: Decisive(reports, id, c, time, k) && k.status == status
      {
        var pre := Stamping(t, reports, id, c, time);
        var k := SomeDecisive(t, reports, id, c, status, pre, time);
      }
    }
    if Decided(o, reports, id, c, status) {
      forall delivery | SameReports(delivery, reports)
        ensures var t' := ApplyAll(t, delivery).0;
                id in t'.orders && t'.orders[id].status == status
      {
        AfterIs(t, delivery);
        Arrives(o, t, delivery, reports, id, c, status);
      }
    }
  }
}
