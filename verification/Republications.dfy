/**
 How often messages are published, for every source: each crash leads to a second publication of at most the messages
 that it rewinds, those published and passed by, at or behind the offset at which ingestion resumes.
 */
module Republications {
  import opened Types
  import opened Ingestion
  import opened IngestionLaws
  import opened IngestionLosses

  predicate Ahead(s: State, x: Slot) {
    x.partition in s.position && x.offset >= s.position[x.partition]
  }

  predicate AboutToPublish(s: State, x: Slot) {
    (s.stage.Polled? || s.stage.Stored?) && x == s.stage.slot
  }

  /** Published messages that are still to be read, or are on their way to be published again. */
  ghost function Pending(s: State): set<Slot> {
    set x | x in s.published && (Ahead(s, x) || AboutToPublish(s, x))
  }

  /** Published messages that were not pending, and that a crash would make ingestion read again. */
  ghost function Rewound(source: Source, s: State): set<Slot> {
    set x | x in s.published && x.partition in source.log &&
            x.offset >= Resume(s.records, s.committed, x.partition) && !Ahead(s, x) && !AboutToPublish(s, x)
  }

  /** The messages rewound by the crashes of a run, counted at each crash. */
  ghost function RewoundTotal(source: Source, s: State, actions: seq<Action>): nat
    requires Runnable(source, s, actions)
    decreases |actions|
  {
    if actions == [] then 0
    else (if actions[0].Crash? then |Rewound(source, s)| else 0) +
         RewoundTotal(source, Next(source, s, actions[0]), actions[1..])
  }

  /** Publications so far, and those to be expected, are covered by `total`. */
  ghost predicate Covered(s: State, total: nat) {
    && |s.published| + |Pending(s)| <= |Distinct(s.published)| + total
    && (s.stage != Idle ==>
          s.stage.slot.partition in s.position && s.stage.slot.offset < s.position[s.stage.slot.partition])
  }

  lemma {:induction false} PublishCovered(s: State, s': State, x: Slot, total: nat)
    requires Covered(s, total) && s.stage == Stored(x)
    requires s' == s.(stage := Published(x), published := s.published + [x])
    ensures Covered(s', total)
  {
    assert forall y :: y in s'.published <==> y in s.published || y == x;
    if x in s.published {
      assert x in Pending(s) && Pending(s') == Pending(s) - {x};
      assert Distinct(s'.published) == Distinct(s.published);
    } else {
      assert Pending(s') == Pending(s);
      assert Distinct(s'.published) == Distinct(s.published) + {x};
    }
  }

  lemma {:induction false} CrashPends(source: Source, s: State)
    ensures Pending(Next(source, s, Crash)) <= Pending(s) + Rewound(source, s)
  {
    hide Resume;
  }

  lemma {:induction false} CrashCovered(source: Source, s: State, total: nat)
    requires Covered(s, total)
    ensures Covered(Next(source, s, Crash), total + |Rewound(source, s)|)
  {
    hide Pending, Rewound, Resume, Distinct;
    CrashPends(source, s);
    Subset(Pending(Next(source, s, Crash)), Pending(s) + Rewound(source, s));
  }

  lemma {:induction false} StepCovered(source: Source, s: State, a: Action, total: nat)
    requires Covered(s, total) && Enabled(source, s, a)
    ensures Covered(Next(source, s, a), total + if a.Crash? then |Rewound(source, s)| else 0)
  {
    var s' := Next(source, s, a);
    hide SetStatus, Resume;
    match a
    case Publish => PublishCovered(s, s', s.stage.slot, total);
    case Crash => CrashCovered(source, s, total);
    case _ => Subset(Pending(s'), Pending(s));
  }

  lemma {:induction false} RunCovered(source: Source, s: State, actions: seq<Action>, total: nat)
    requires Covered(s, total) && Runnable(source, s, actions)
    ensures Covered(Run(source, s, actions), total + RewoundTotal(source, s, actions))
    decreases |actions|
  {
    hide Covered, Rewound;
    if actions != [] {
      StepCovered(source, s, actions[0], total);
      var more := if actions[0].Crash? then |Rewound(source, s)| else 0;
      RunCovered(source, Next(source, s, actions[0]), actions[1..], total + more);
    }
  }

  /**
   In every run of every source, publications exceed the distinct messages published by at most what the crashes rewind.
   */
  lemma {:induction false} RepublicationsAreRewound(source: Source, actions: seq<Action>)
    requires Runnable(source, Start(source), actions)
    ensures var s := Run(source, Start(source), actions);
            |s.published| <= |Distinct(s.published)| + RewoundTotal(source, Start(source), actions)
  {
    assert Pending(Start(source)) == {} && Distinct([]) == {};
    RunCovered(source, Start(source), actions, 0);
  }

  // ---------- One crash can rewind more than one message ----------

  const SHARED: Command := Command(Other(1), Other(2), Other(3), Other(4), 1.0)
  const ONLY: Partition := Partition(Other(0), 0)
  const THRICE: Source := Source(Other(0), map[ONLY := [Parsed(SHARED), Parsed(SHARED), Parsed(SHARED)]])

  /** The record of the first of them is the only one that is ever marked. */
  predicate OnlyFirstMarked(records: seq<TransactionRecord>) {
    && records != [] && records[0] == TransactionRecord(Other(1), Processed, Slot(ONLY, 0))
    && forall r :: r in records[1..] ==> r.status == Received
  }

  lemma {:induction false} OneMore(s: State, k: int) returns (trace: seq<Action>, s': State)
    requires s.stage == Idle && s.position == map[ONLY := k] && 0 <= k < 3
    requires if k == 0 then s.records == [] else OnlyFirstMarked(s.records)
    ensures Leads(THRICE, s, trace, s')
    ensures s'.stage == Idle && s'.position == map[ONLY := k + 1] && OnlyFirstMarked(s'.records)
    ensures s'.published == s.published + [Slot(ONLY, k)] && s'.crashes == s.crashes
  {
    hide Leads;
    assert THRICE.log[ONLY][k] == Parsed(SHARED);
    var trace1, s1 := Receive(THRICE, s, ONLY, Empty);
    var trace2;
    trace2, s' := Finish(THRICE, s1);
    LeadsOn(THRICE, s, trace1, s1, trace2, s');
    trace := trace1 + trace2;
    assert s'.records[1..] == s1.records[1..];
    assert s'.position == map[ONLY := k][ONLY := k + 1];
  }

  lemma {:induction false} ResumesBehindFirst(records: seq<TransactionRecord>, committed: map<Partition, int>)
    requires OnlyFirstMarked(records)
    ensures Resume(records, committed, ONLY) == 1
  {
    CheckpointLaw(records, ONLY);
    hide Checkpoint;
    assert records[0] in records;
    forall r | r in records && r.status == Processed
      ensures r.slot == Slot(ONLY, 0)
    {
    }
  }

  /**
   Own ids are needed: three valid commands with one id in one partition can be published five times with one crash.
   */
  lemma {:induction false} SharedIdIsPublishedAgain() returns (trace: seq<Action>)
    ensures Runnable(THRICE, Start(THRICE), trace)
    ensures var s := Run(THRICE, Start(THRICE), trace);
            s.crashes == 1 && |s.published| == 5 && |Distinct(s.published)| == 3
  {
    hide Leads, OnlyFirstMarked, Enabled, Next, Run, Runnable;
    var s0 := Start(THRICE);
    StartsAtFirst();
    var t1, s1 := OneMore(s0, 0);
    var t2, s2 := TwoMore(s1);
    LeadsOn(THRICE, s0, t1, s1, t2, s2);
    CrashesToSecond(s2);
    LeadsStep(THRICE, s0, t1 + t2, s2, Crash);
    var s3 := Next(THRICE, s2, Crash);
    var t4, s4 := TwoMore(s3);
    trace := t1 + t2 + [Crash] + t4;
    LeadsOn(THRICE, s0, t1 + t2 + [Crash], s3, t4, s4);
    Counted(s4.published);
    LeadsTo(s0, trace, s4);
  }

  lemma {:induction false} StartsAtFirst()
    ensures Start(THRICE).position == map[ONLY := 0]
  {
  }

  lemma {:induction false} TwoMore(s: State) returns (trace: seq<Action>, s': State)
    requires s.stage == Idle && s.position == map[ONLY := 1] && OnlyFirstMarked(s.records)
    ensures Leads(THRICE, s, trace, s') && s'.stage == Idle && OnlyFirstMarked(s'.records)
    ensures s'.published == s.published + [Slot(ONLY, 1)] + [Slot(ONLY, 2)] && s'.crashes == s.crashes
  {
    hide Leads, OnlyFirstMarked;
    var t1, s1 := OneMore(s, 1);
    var t2;
    t2, s' := OneMore(s1, 2);
    LeadsOn(THRICE, s, t1, s1, t2, s');
    trace := t1 + t2;
  }

  lemma {:induction false} CrashesToSecond(s: State)
    requires OnlyFirstMarked(s.records)
    ensures Enabled(THRICE, s, Crash)
    ensures var s' := Next(THRICE, s, Crash);
            && s'.stage == Idle && s'.position == map[ONLY := 1] && s'.records == s.records
            && s'.published == s.published && s'.crashes == s.crashes + 1
  {
    ResumesBehindFirst(s.records, s.committed);
    hide Resume;
  }

  lemma {:induction false} LeadsTo(s: State, trace: seq<Action>, s': State)
    requires Leads(THRICE, s, trace, s')
    ensures Runnable(THRICE, s, trace) && Run(THRICE, s, trace) == s'
  {
  }

  lemma {:induction false} Counted(slots: seq<Slot>)
    requires slots == [Slot(ONLY, 0)] + [Slot(ONLY, 1)] + [Slot(ONLY, 2)] + [Slot(ONLY, 1)] + [Slot(ONLY, 2)]
    ensures |slots| == 5 && |Distinct(slots)| == 3
  {
    assert slots[0] == Slot(ONLY, 0) && slots[1] == Slot(ONLY, 1) && slots[2] == Slot(ONLY, 2);
    assert Distinct(slots) == {Slot(ONLY, 0), Slot(ONLY, 1), Slot(ONLY, 2)};
  }
}
