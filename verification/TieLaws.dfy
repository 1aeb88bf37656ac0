/**
 Reports that tie for the greatest cumulative quantity: what happens once the order has that quantity, and deliveries
 that keep it from a status.
 */
module TieLaws {
  import opened Types
  import opened Trackers
  import opened TrackerLaws

  function Later(a: int, b: int): int {
    if a >= b then a else b
  }

  /** The report is older than what the order has seen; a missing timestamp is never older. */
  predicate Older(r: ExecutionReport, time: int) {
    r.exchangeTimestamp > 0 && time > 0 && r.exchangeTimestamp < time
  }

  /** A tied report takes over the status of an order that was last stamped `time`. */
  predicate TakesAt(time: int, status: OrderStatus, r: ExecutionReport) {
    ShouldApplyStatus(status, r.status) && !Older(r, time)
  }

  /** `b` takes over from `a` when `a` was the first of the tied reports, on an order stamped `time` before. */
  predicate Takes(time: int, a: ExecutionReport, b: ExecutionReport) {
    TakesAt(Later(time, a.exchangeTimestamp), a.status, b)
  }

  predicate Ties(r: ExecutionReport, id: Name, c: real) {
    r.orderId == id && r.cumulativeFilled == c
  }

  // ---------- Single reports ----------

  /**
   At the tied quantity, only tied reports that were not seen matter, and they either take over or leave the status
   alone.
   */
  lemma {:induction false} NextTie(t: Tracker, r: ExecutionReport, id: Name, c: real)
    requires id in t.orders && t.orders[id].filledQuantity == c && (r.orderId == id ==> r.cumulativeFilled <= c)
    ensures var o, t' := t.orders[id], ApplyOne(t, r).0;
            && id in t'.orders && t'.orders[id].filledQuantity == c
            && var o' := t'.orders[id];
               if !Ties(r, id, c) || Seen(t, r) then o'.status == o.status &&
                 o'.lastExchangeTimestamp == o.lastExchangeTimestamp
               else
                 && o'.status == (if TakesAt(o.lastExchangeTimestamp, o.status, r) then r.status else o.status)
                 && (o'.lastExchangeTimestamp == o.lastExchangeTimestamp ||
                     o'.lastExchangeTimestamp == Later(o.lastExchangeTimestamp, r.exchangeTimestamp))
                 && (!Terminal(o.status) || r.status == o.status ==>
                       o'.lastExchangeTimestamp == Later(o.lastExchangeTimestamp, r.exchangeTimestamp))
  {
  }

  /** Which ids are processed afterwards. */
  lemma {:induction false} SeenNext(t: Tracker, r: ExecutionReport, s: ExecutionReport)
    ensures Seen(ApplyOne(t, r).0, s) <==> Seen(t, s) || (s.reportId != Empty && s.reportId == r.reportId)
  {
  }

  // ---------- Deliveries ----------

  function After(t: Tracker, reports: seq<ExecutionReport>): Tracker
    decreases |reports|
  {
    if reports == [] then t else After(ApplyOne(t, reports[0]).0, reports[1..])
  }

  lemma {:induction false} AfterIs(t: Tracker, reports: seq<ExecutionReport>)
    ensures After(t, reports) == ApplyAll(t, reports).0
    decreases |reports|
  {
    hide ApplyOne;
    if reports != [] {
      AfterIs(ApplyOne(t, reports[0]).0, reports[1..]);
    }
  }

  lemma {:induction false} AfterConcat(t: Tracker, a: seq<ExecutionReport>, b: seq<ExecutionReport>)
    ensures After(t, a + b) == After(After(t, a), b)
    decreases |a|
  {
    hide ApplyOne;
    if a == [] {
      assert a + b == b;
    } else {
      assert (a + b)[0] == a[0] && (a + b)[1..] == a[1..] + b;
      AfterConcat(ApplyOne(t, a[0]).0, a[1..], b);
    }
  }

  /** A report with an id is seen afterwards exactly if it was before, or one with its id was delivered. */
  lemma {:induction false} SeenAfter(t: Tracker, reports: seq<ExecutionReport>, s: ExecutionReport)
    ensures Seen(After(t, reports), s) <==>
            Seen(t, s) || (s.reportId != Empty && exists r :: r in reports && r.reportId == s.reportId)
    decreases |reports|
  {
    hide ApplyOne, Seen;
    if reports != [] {
      SeenNext(t, reports[0], s);
      SeenAfter(ApplyOne(t, reports[0]).0, reports[1..], s);
      assert forall r :: r in reports <==> r == reports[0] || r in reports[1..];
    }
  }

  /** Status and timestamp of an order that has reached the tied quantity. */
  ghost predicate At(t: Tracker, id: Name, c: real, status: OrderStatus, time: int) {
    id in t.orders && t.orders[id].filledQuantity == c && t.orders[id].status == status &&
      t.orders[id].lastExchangeTimestamp == time
  }

  ghost predicate Capped(reports: seq<ExecutionReport>, id: Name, c: real) {
    forall r :: r in reports && r.orderId == id ==> r.cumulativeFilled <= c
  }

  /** Tied reports that were not seen: what can still change the status. */
  predicate Live(t: Tracker, r: ExecutionReport, id: Name, c: real) {
    Ties(r, id, c) && !Seen(t, r)
  }
  /** Reports none of which takes over leave the status alone. */
  lemma {:induction false} NoneTakes(t: Tracker, reports: seq<ExecutionReport>, id: Name, c: real, status: OrderStatus,
                                     time: int)
    requires At(t, id, c, status, time) && Capped(reports, id, c)
    requires forall r :: r in reports && Live(t, r, id, c) ==> !TakesAt(time, status, r)
    ensures exists time' :: At(After(t, reports), id, c, status, time') && time <= time'
    decreases |reports|
  {
    hide ApplyOne, Seen, ShouldApplyStatus;
    if reports != [] {
      var r := reports[0];
      assert r in reports;
      NextTie(t, r, id, c);
      var t1 := ApplyOne(t, r).0;
      var time1 := t1.orders[id].lastExchangeTimestamp;
      forall s | s in reports[1..] && Live(t1, s, id, c)
        ensures !TakesAt(time1, status, s)
      {
        assert s in reports;
        SeenNext(t, r, s);
      }
      NoneTakes(t1, reports[1..], id, c, status, time1);
      var time' :| At(After(t1, reports[1..]), id, c, status, time') && time1 <= time';
      assert At(After(t, reports), id, c, status, time');
    } else {
      assert At(After(t, reports), id, c, status, time);
    }
  }

  /** Reports that do not carry a status do not lead to it; an order that stays open is stamped by all of them. */
  lemma {:induction false} AvoidStatus(t: Tracker, reports: seq<ExecutionReport>, id: Name, c: real,
                                       status: OrderStatus, time: int, avoided: OrderStatus)
    requires At(t, id, c, status, time) && Capped(reports, id, c) && status != avoided && IdsIdentify(reports)
    requires forall r :: r in reports && Ties(r, id, c) ==> r.status != avoided
    ensures var t' := After(t, reports);
            && id in t'.orders && t'.orders[id].filledQuantity == c && t'.orders[id].status != avoided
            && t'.orders[id].lastExchangeTimestamp >= time
            && (!Terminal(t'.orders[id].status) ==>
                  forall r :: r in reports && Live(t, r, id, c) ==>
                    r.exchangeTimestamp <= t'.orders[id].lastExchangeTimestamp)
            && (Terminal(status) ==> t'.orders[id].status == status)
    decreases |reports|
  {
    hide ApplyOne, Seen;
    if reports != [] {
      var r := reports[0];
      assert r in reports;
      NextTie(t, r, id, c);
      var t1 := ApplyOne(t, r).0;
      var o1 := t1.orders[id];
      AvoidStatus(t1, reports[1..], id, c, o1.status, o1.lastExchangeTimestamp, avoided);
      forall s | s in reports[1..] && Live(t, s, id, c) && !Live(t1, s, id, c)
        ensures s == r
      {
        SeenNext(t, r, s);
      }
    }
  }
  /** Reports of the status the order has leave it, and stamp it. */
  lemma {:induction false} Stamped(t: Tracker, reports: seq<ExecutionReport>, id: Name, c: real, status: OrderStatus,
                                   time: int)
    requires At(t, id, c, status, time)
    requires forall r :: r in reports ==> Ties(r, id, c) && r.status == status && r.exchangeTimestamp <= time
    ensures At(After(t, reports), id, c, status, time)
    decreases |reports|
  {
    hide ApplyOne, Seen, TakesAt;
    if reports != [] {
      assert reports[0] in reports;
      NextTie(t, reports[0], id, c);
      Stamped(ApplyOne(t, reports[0]).0, reports[1..], id, c, status, time);
    }
  }

  lemma {:induction false} AfterNone(t: Tracker)
    ensures After(t, []) == t
  {
  }

  lemma {:induction false} AfterOne(t: Tracker, r: ExecutionReport)
    ensures After(t, [r]) == ApplyOne(t, r).0
  {
    hide ApplyOne;
    assert [r][1..] == [];
    assert After(t, [r]) == After(ApplyOne(t, r).0, []);
  }

  // ---------- What every delivery leads to ----------

  /** The same reports, in any order and with any repetitions. */
  ghost predicate SameReports(a: seq<ExecutionReport>, b: seq<ExecutionReport>) {
    forall r :: r in a <==> r in b
  }

  /** Every delivery of the reports ends with the status. */
  ghost predicate EndsWith(t: Tracker, reports: seq<ExecutionReport>, id: Name, status: OrderStatus)
    requires id in t.orders
  {
    forall delivery :: SameReports(delivery, reports) ==>
      var t' := ApplyAll(t, delivery).0;
      id in t'.orders && t'.orders[id].status == status
  }

  /** Reports of which none exceeds the tied quantity, and whose ids identify them. */
  ghost predicate Contest(reports: seq<ExecutionReport>, id: Name, c: real) {
    Capped(reports, id, c) && IdsIdentify(reports)
  }

  ghost predicate Within(a: seq<ExecutionReport>, b: seq<ExecutionReport>) {
    forall r :: r in a ==> r in b
  }

  ghost predicate Covers(a: seq<ExecutionReport>, all: seq<ExecutionReport>, id: Name, c: real) {
    forall r :: r in all && Ties(r, id, c) ==> r in a
  }

  /** The reports that satisfy a condition. */
  ghost function Filter(reports: seq<ExecutionReport>, keep: ExecutionReport -> bool): (kept: seq<ExecutionReport>)
    ensures forall r :: r in kept <==> r in reports && keep(r)
  {
    if reports == [] then []
    else if keep(reports[0]) then [reports[0]] + Filter(reports[1..], keep)
    else Filter(reports[1..], keep)
  }

  ghost function Untied(all: seq<ExecutionReport>, id: Name, c: real): (kept: seq<ExecutionReport>)
    ensures forall r :: r in kept <==> r in all && !Ties(r, id, c)
  {
    Filter(all, r => !Ties(r, id, c))
  }

  /** A tied report brings the order to the tied quantity. */
  lemma {:induction false} ReachesTie(t: Tracker, reports: seq<ExecutionReport>, id: Name, c: real)
    requires id in t.orders && t.orders[id].filledQuantity <= c && Contest(reports, id, c)
    requires t.orders[id].filledQuantity == c || exists r :: r in reports && Live(t, r, id, c)
    ensures id in After(t, reports).orders && After(t, reports).orders[id].filledQuantity == c
    decreases |reports|
  {
    if reports != [] {
      var r := reports[0];
      assert r in reports && forall s :: s in reports <==> s == r || s in reports[1..];
      FilledAfter(t, r, id);
      var t1 := ApplyOne(t, r).0;
      if t.orders[id].filledQuantity != c && !Live(t, r, id, c) {
        var s :| s in reports && Live(t, s, id, c);
        SeenNext(t, r, s);
        assert Live(t1, s, id, c);
      }
      hide ApplyOne;
      ReachesTie(t1, reports[1..], id, c);
    }
  }

  /** The order has the tied quantity, or gets it with some tied report. */
  ghost predicate Ready(t: Tracker, all: seq<ExecutionReport>, id: Name, c: real) {
    && id in t.orders && t.orders[id].filledQuantity <= c
    && (t.orders[id].filledQuantity == c || exists r :: r in all && Live(t, r, id, c))
  }

  /** Whatever round delivers all tied reports, the status after it is the one in which every delivery ends. */
  lemma {:induction false} Trial(t: Tracker, all: seq<ExecutionReport>, id: Name, c: real, status: OrderStatus,
                                 pre: seq<ExecutionReport>, round: seq<ExecutionReport>)
    requires id in t.orders && Contest(all, id, c) && EndsWith(t, all, id, status)
    requires Within(pre, all) && Within(round, all) && Covers(round, all, id, c) && Ready(After(t, pre), all, id, c)
    ensures var t' := After(After(t, pre), round);
            id in t'.orders && t'.orders[id].status == status
  {
    var t1 := After(t, pre);
    var t2 := After(t1, round);
    var untied := Untied(all, id, c);
    assert t1.orders[id].filledQuantity == c || exists r :: r in round && Live(t1, r, id, c);
    ReachesTie(t1, round, id, c);
    hide After, Seen, Ready, Untied;
    var o := t2.orders[id];
    NoneTakes(t2, untied, id, c, o.status, o.lastExchangeTimestamp);
    var delivery := pre + round + untied;
    AfterConcat(t, pre, round);
    AfterConcat(t, pre + round, untied);
    AfterIs(t, delivery);
    assert SameReports(delivery, all);
  }

  /** What is not delivered is not seen. */
  lemma {:induction false} StaysUnseen(t: Tracker, round: seq<ExecutionReport>, all: seq<ExecutionReport>,
                                       s: ExecutionReport)
    requires IdsIdentify(all) && Within(round, all) && s in all && s !in round && !Seen(t, s)
    ensures !Seen(After(t, round), s)
  {
    hide After;
    SeenAfter(t, round, s);
  }

  // ---------- Deliveries that end without a status ----------

  /** The tied reports with, or without, a status. */
  ghost function Tied(all: seq<ExecutionReport>, id: Name, c: real, status: OrderStatus,
                      with: bool): (kept: seq<ExecutionReport>)
    ensures forall r :: r in kept <==> r in all && Ties(r, id, c) && (r.status == status) == with
  {
    Filter(all, r => Ties(r, id, c) && (r.status == status) == with)
  }

  /** The report is not outdated by any tied report of another status. */
  ghost predicate Current(all: seq<ExecutionReport>, id: Name, c: real, time: int, k: ExecutionReport) {
    forall a :: a in all && Ties(a, id, c) && a.status != k.status ==> !Older(k, Later(time, a.exchangeTimestamp))
  }

  /** The tied reports of a status that are, or are not, current. */
  ghost function Currents(all: seq<ExecutionReport>, id: Name, c: real, time: int, status: OrderStatus,
                          with: bool): (kept: seq<ExecutionReport>)
    ensures forall r :: r in kept <==>
                        r in all && Ties(r, id, c) && r.status == status && Current(all, id, c, time, r) == with
  {
    Filter(Tied(all, id, c, status, true), r => Current(all, id, c, time, r) == with)
  }

  /** One of the reports has the latest timestamp. */
  lemma {:induction false} Latest(reports: seq<ExecutionReport>) returns (k: ExecutionReport)
    requires reports != []
    ensures k in reports && forall r :: r in reports ==> r.exchangeTimestamp <= k.exchangeTimestamp
  {
    if |reports| == 1 {
      k := reports[0];
    } else {
      var rest := Latest(reports[1..]);
      k := if reports[0].exchangeTimestamp >= rest.exchangeTimestamp then reports[0] else rest;
      assert forall r :: r in reports <==> r == reports[0] || r in reports[1..];
    }
  }

  /** From a status that does not give way to another, the other is not reached if its reports come first. */
  lemma {:induction false} Stuck(t: Tracker, all: seq<ExecutionReport>, id: Name, c: real, held: OrderStatus, time: int,
                                 status: OrderStatus)
    requires Contest(all, id, c) && At(t, id, c, held, time) && held != status && !ShouldApplyStatus(held, status)
    ensures var t' := After(t, Tied(all, id, c, status, true) + Tied(all, id, c, status, false));
            id in t'.orders && t'.orders[id].status != status
  {
    var same, others := Tied(all, id, c, status, true), Tied(all, id, c, status, false);
    AfterConcat(t, same, others);
    hide After, Seen, Tied;
    NoneTakes(t, same, id, c, held, time);
    var time' :| At(After(t, same), id, c, held, time');
    AvoidStatus(After(t, same), others, id, c, held, time', status);
  }

  /** From another status, one is not reached if its reports come last and are outdated by then. */
  lemma {:induction false} Outdated(t: Tracker, all: seq<ExecutionReport>, id: Name, c: real, held: OrderStatus,
                                    time0: int, time: int, status: OrderStatus, late: seq<ExecutionReport>)
    requires Contest(all, id, c) && At(t, id, c, held, time) && held != status && time0 <= time
    requires forall b :: b in Tied(all, id, c, status, false) ==> !Seen(t, b) || b.exchangeTimestamp <= time
    requires forall k :: k in late ==>
               k in all && Ties(k, id, c) && k.status == status && !Current(all, id, c, time0, k)
    ensures var t' := After(t, Tied(all, id, c, status, false) + late);
            id in t'.orders && t'.orders[id].status != status
  {
    var others := Tied(all, id, c, status, false);
    AfterConcat(t, others, late);
    hide After, Seen, Tied;
    AvoidStatus(t, others, id, c, held, time, status);
    var t1 := After(t, others);
    var o := t1.orders[id];
    forall s | s in late
      ensures !TakesAt(o.lastExchangeTimestamp, o.status, s)
    {
      var a :| a in all && Ties(a, id, c) && a.status != s.status && Older(s, Later(time0, a.exchangeTimestamp));
      assert a in others;
    }
    NoneTakes(t1, late, id, c, o.status, o.lastExchangeTimestamp);
  }

  /** The round in which the current reports of a status come first, and then one that takes over. */
  ghost function Takeover(all: seq<ExecutionReport>, id: Name, c: real, time: int, status: OrderStatus,
                          a: ExecutionReport): seq<ExecutionReport> {
    Currents(all, id, c, time, status, true) + [a] +
      (Tied(all, id, c, status, false) + Currents(all, id, c, time, status, false))
  }

  /** After a takeover no report of the status is left that could take it back. */
  lemma {:induction false} Overtaken(t: Tracker, all: seq<ExecutionReport>, id: Name, c: real, time: int,
                                     k: ExecutionReport, a: ExecutionReport)
    requires Contest(all, id, c) && At(t, id, c, k.status, Later(time, k.exchangeTimestamp))
    requires forall r :: r in Currents(all, id, c, time, k.status, true) ==> r.exchangeTimestamp <= k.exchangeTimestamp
    requires forall b :: b in Tied(all, id, c, k.status, false) ==> !Seen(t, b)
    requires a in all && Ties(a, id, c) && a.status != k.status && Takes(time, k, a)
    ensures var t' := After(t, Takeover(all, id, c, time, k.status, a));
            id in t'.orders && t'.orders[id].status != k.status
  {
    hide After, Seen, Tied, Currents;
    var ks, others, late := Currents(all, id, c, time, k.status, true), Tied(all, id, c, k.status, false),
      Currents(all, id, c, time, k.status, false);
    var t1 := After(t, ks);
    Stamped(t, ks, id, c, k.status, Later(time, k.exchangeTimestamp));
    forall b | b in others
      ensures !Seen(t1, b)
    {
      StaysUnseen(t, ks, all, b);
    }
    AfterConcat(t, ks, [a]);
    AfterConcat(t, ks + [a], others + late);
    AfterOne(t1, a);
    var t2 := ApplyOne(t1, a).0;
    NextTie(t1, a, id, c);
    forall b | b in others
      ensures !Seen(t2, b) || b == a
    {
      SeenNext(t1, a, b);
    }
    hide ApplyOne;
    Outdated(t2, all, id, c, a.status, time, t2.orders[id].lastExchangeTimestamp, k.status, late);
  }
}
