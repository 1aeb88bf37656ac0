/** What ingestion delivers and records: exactly once and in order without a crash, and never falsely in any run. */
module DeliveryLaws {
  import opened Types
  import opened Ingestion
  import opened IngestionLaws

  function CommittedTo(s: State, p: Partition): int {
    if p in s.committed then s.committed[p] else 0
  }

  /** The message was read and is no longer in flight. */
  predicate Passed(s: State, x: Slot) {
    && x.partition in s.position && 0 <= x.offset < s.position[x.partition]
    && (s.stage != Idle ==> x != s.stage.slot)
  }

  predicate Recorded(s: State, x: Slot) {
    Passed(s, x) || ((s.stage.Stored? || s.stage.Published? || s.stage.Settled?) && x == s.stage.slot)
  }

  predicate Released(s: State, x: Slot) {
    Passed(s, x) || ((s.stage.Published? || s.stage.Settled?) && x == s.stage.slot)
  }

  predicate Ended(s: State, x: Slot) {
    Passed(s, x) || (s.stage.Settled? && x == s.stage.slot)
  }

  /** The messages of each partition appear by increasing offset; in particular none appears twice. */
  ghost predicate InOrder(slots: seq<Slot>) {
    forall i, j :: 0 <= i < j < |slots| && slots[i].partition == slots[j].partition ==>
      slots[i].offset < slots[j].offset
  }

  function Places(records: seq<TransactionRecord>): (places: seq<Slot>)
    ensures |places| == |records| && forall i :: 0 <= i < |records| ==> places[i] == records[i].slot
  {
    if records == [] then [] else [records[0].slot] + Places(records[1..])
  }

  ghost predicate Rejectable(source: Source, x: Slot) {
    IsCommand(source, x) && !IsValid(CommandAt(source, x), x)
  }

  /** The message in flight is the last one read from its partition. */
  ghost predicate InFlight(source: Source, s: State) {
    s.stage != Idle ==>
      var x := s.stage.slot;
      && Exists(source, x) && x.partition in s.position && x.offset == s.position[x.partition] - 1
      && (s.stage.Skipping? <==> Skippable(source, x))
      && (s.stage.Published? ==> IsValid(CommandAt(source, x), x))
  }

  ghost predicate OffsetsOk(source: Source, s: State) {
    && s.position.Keys == source.log.Keys && s.committed.Keys <= source.log.Keys
    && forall p :: p in s.position ==>
         && 0 <= s.position[p] <= |source.log[p]|
         && CommittedTo(s, p) == s.position[p] - if s.stage != Idle && s.stage.slot.partition == p then 1 else 0
  }

  ghost predicate OutcomesOk(source: Source, s: State) {
    && (forall x :: x in s.published <==> Publishable(source, x) && Released(s, x))
    && (forall x :: x in s.rejected <==> Rejectable(source, x) && Ended(s, x))
    && InOrder(s.published)
  }

  ghost predicate RecordsOk(source: Source, s: State) {
    && (forall x :: x in Places(s.records) <==> IsCommand(source, x) && Recorded(s, x))
    && InOrder(Places(s.records))
    && forall r :: r in s.records ==> OwnId(source, r)
  }

  /** The record has the id of the command at its place. */
  ghost predicate OwnId(source: Source, r: TransactionRecord) {
    IsCommand(source, r.slot) && r.transactionId == CommandAt(source, r.slot).transactionId
  }

  /** Some record with the id says how processing ended. */
  ghost predicate Marked(records: seq<TransactionRecord>, id: Name) {
    exists r :: r in records && r.transactionId == id && r.status != Received
  }

  ghost predicate MarksOk(source: Source, s: State) {
    forall x :: IsCommand(source, x) && Ended(s, x) ==> Marked(s.records, CommandAt(source, x).transactionId)
  }

  ghost predicate Orderly(source: Source, s: State) {
    match s
    case State(_, _, _, _, _, _, _) =>
      InFlight(source, s) && OffsetsOk(source, s) && OutcomesOk(source, s) && RecordsOk(source, s) && MarksOk(source, s)
  }

  // ---------- Every step but a crash is orderly ----------

  lemma {:induction false} AppendInOrder(slots: seq<Slot>, x: Slot)
    requires InOrder(slots)
    requires forall y :: y in slots && y.partition == x.partition ==> y.offset < x.offset
    ensures InOrder(slots + [x])
  {
    var longer := slots + [x];
    forall i, j | 0 <= i < j < |longer| && longer[i].partition == longer[j].partition
      ensures longer[i].offset < longer[j].offset
    {
      if j == |slots| {
        assert longer[i] in slots;
      }
    }
  }

  lemma {:induction false} SetStatusKeepsPlaces(records: seq<TransactionRecord>, id: Name, status: TransactionStatus)
    requires exists r :: r in records && r.transactionId == id
    ensures Places(SetStatus(records, id, status)) == Places(records)
  {
    if records[0].transactionId == id {
      assert SetStatus(records, id, status)[1..] == records[1..];
    } else {
      assert exists r :: r in records[1..] && r.transactionId == id;
      SetStatusKeepsPlaces(records[1..], id, status);
      assert SetStatus(records, id, status) == [records[0]] + SetStatus(records[1..], id, status);
    }
  }

  lemma {:induction false} SetStatusOwned(source: Source, records: seq<TransactionRecord>, id: Name,
                                          status: TransactionStatus)
    requires forall r :: r in records ==> OwnId(source, r)
    requires exists r :: r in records && r.transactionId == id
    ensures forall r :: r in SetStatus(records, id, status) ==> OwnId(source, r)
  {
    hide IsCommand;
    assert OwnId(source, records[0]) && OwnId(source, records[0].(status := status));
    if records[0].transactionId != id {
      assert exists r :: r in records[1..] && r.transactionId == id;
      SetStatusOwned(source, records[1..], id, status);
    }
  }

  lemma {:induction false} SetStatusMarks(records: seq<TransactionRecord>, id: Name, status: TransactionStatus)
    requires status != Received
    ensures Marked(SetStatus(records, id, status), id)
    ensures forall other :: Marked(records, other) ==> Marked(SetStatus(records, id, status), other)
  {
    SetStatusLaw(records, id, status);
    var records' := SetStatus(records, id, status);
    assert Changed(records, id, status) in records';
    forall other | Marked(records, other)
      ensures Marked(records', other)
    {
      var r :| r in records && r.transactionId == other && r.status != Received;
      if other != id {
        assert r in records';
      }
    }
  }

  /** A step that ends no message but perhaps `x`, and keeps all marks. */
  lemma {:induction false} MarksStay(source: Source, s: State, s': State, x: Slot)
    requires MarksOk(source, s)
    requires forall y :: Ended(s', y) ==> Ended(s, y) || y == x
    requires forall id :: Marked(s.records, id) ==> Marked(s'.records, id)
    requires IsCommand(source, x) && Ended(s', x) ==> Marked(s'.records, CommandAt(source, x).transactionId)
    ensures MarksOk(source, s')
  {
    hide Ended, Marked;
  }

  lemma {:induction false} PollOrderly(source: Source, s: State, p: Partition, s': State)
    requires Orderly(source, s) && CanPoll(source, s, p)
    requires var x := Slot(p, s.position[p]);
             s' == s.(stage := if Skippable(source, x) then Skipping(x) else Polled(x),
                      position := s.position[p := s.position[p] + 1])
    ensures Orderly(source, s')
  {
    assert forall x :: Passed(s', x) <==> Passed(s, x);
    hide Publishable, Rejectable, IsCommand, InOrder, Places, Marked;
    assert s'.position.Keys == s.position.Keys;
  }

  lemma {:induction false} ReceiveRecords(source: Source, s: State, s': State, x: Slot)
    requires Orderly(source, s) && s.stage == Polled(x) && IsCommand(source, x)
    requires s' == s.(stage := Stored(x),
                      records := s.records + [TransactionRecord(CommandAt(source, x).transactionId, Received, x)])
    ensures RecordsOk(source, s')
  {
    hide OutcomesOk, InOrder, IsCommand, CommandAt;
    assert forall y :: Recorded(s', y) <==> Recorded(s, y) || y == x;
    var places, places' := Places(s.records), Places(s'.records);
    assert places' == places + [x];
    assert forall y :: y in places && y.partition == x.partition ==> Passed(s, y);
    hide Places, Recorded;
    AppendInOrder(places, x);
  }

  /** A step that releases and ends no message. */
  lemma {:induction false} SameOutcomes(source: Source, s: State, s': State)
    requires OutcomesOk(source, s) && s'.published == s.published && s'.rejected == s.rejected
    requires forall x :: Released(s', x) <==> Released(s, x)
    requires forall x :: Ended(s', x) <==> Ended(s, x)
    ensures OutcomesOk(source, s')
  {
    hide Publishable, Rejectable, InOrder;
  }

  lemma {:induction false} ReceiveOrderly(source: Source, s: State)
    requires Orderly(source, s) && Enabled(source, s, SaveReceived)
    ensures Orderly(source, Next(source, s, SaveReceived))
  {
    hide OutcomesOk, RecordsOk, MarksOk;
    var s', x := Next(source, s, SaveReceived), s.stage.slot;
    ReceiveRecords(source, s, s', x);
    SameOutcomes(source, s, s');
    assert forall r :: r in s.records ==> r in s'.records;
    MarksStay(source, s, s', x);
  }

  lemma {:induction false} PublishOutcomes(source: Source, s: State, s': State, x: Slot)
    requires OutcomesOk(source, s) && InFlight(source, s) && s.stage == Stored(x) && Publishable(source, x)
    requires s' == s.(stage := Published(x), published := s.published + [x])
    ensures OutcomesOk(source, s')
  {
    assert forall y :: Released(s', y) <==> Released(s, y) || y == x;
    assert forall y :: Ended(s', y) <==> Ended(s, y);
    assert forall y :: y in s.published && y.partition == x.partition ==> Passed(s, y);
    AppendInOrder(s.published, x);
    hide Released, Ended, InOrder, Rejectable;
  }

  lemma {:induction false} PublishOrderly(source: Source, s: State)
    requires Orderly(source, s) && Enabled(source, s, Publish)
    ensures Orderly(source, Next(source, s, Publish))
  {
    hide OutcomesOk, Places, Marked, InOrder;
    var s', x := Next(source, s, Publish), s.stage.slot;
    PublishOutcomes(source, s, s', x);
    assert forall y :: Recorded(s', y) <==> Recorded(s, y);
    assert forall y :: Ended(s', y) <==> Ended(s, y);
    hide Recorded, Ended;
  }

  lemma {:induction false} RecordAt(records: seq<TransactionRecord>, x: Slot) returns (r: TransactionRecord)
    requires x in Places(records)
    ensures r in records && r.slot == x
  {
    var i :| 0 <= i < |records| && Places(records)[i] == x;
    r := records[i];
  }

  lemma {:induction false} SaveRecords(source: Source, s: State, status: TransactionStatus, s': State, x: Slot)
    requires RecordsOk(source, s) && IsCommand(source, x)
    requires Recorded(s, x) && forall y :: Recorded(s', y) <==> Recorded(s, y)
    requires s'.records == SetStatus(s.records, CommandAt(source, x).transactionId, status)
    ensures RecordsOk(source, s')
  {
    hide SetStatus, Places, InOrder, Recorded, Exists, Skippable;
    var id := CommandAt(source, x).transactionId;
    var r := RecordAt(s.records, x);
    assert OwnId(source, r);
    SetStatusOwned(source, s.records, id, status);
    SetStatusKeepsPlaces(s.records, id, status);
  }

  lemma {:induction false} SaveOrderly(source: Source, s: State, status: TransactionStatus, s': State)
    requires Orderly(source, s) && (s.stage.Stored? || s.stage.Published?) && status != Received
    requires var x := s.stage.slot;
             && Exists(source, x) && !Skippable(source, x)
             && (IsValid(CommandAt(source, x), x) <==> s.stage.Published?)
             && s' == s.(stage := Settled(x), rejected := if s.stage.Published? then s.rejected else s.rejected + {x},
                         records := SetStatus(s.records, CommandAt(source, x).transactionId, status))
    ensures Orderly(source, s')
  {
    hide SetStatus, Places, InOrder, RecordsOk, MarksOk, Marked;
    var x := s.stage.slot;
    assert forall y :: Passed(s', y) <==> Passed(s, y);
    assert IsCommand(source, x) && Recorded(s, x);
    SaveRecords(source, s, status, s', x);
    SetStatusMarks(s.records, CommandAt(source, x).transactionId, status);
    MarksStay(source, s, s', x);
  }

  lemma {:induction false} CommitOrderly(source: Source, s: State, s': State)
    requires Orderly(source, s) && (s.stage.Skipping? || s.stage.Settled?)
    requires var x := s.stage.slot; s' == s.(stage := Idle, committed := s.committed[x.partition := x.offset + 1])
    ensures Orderly(source, s')
  {
    hide Places, InOrder, Marked;
    var x := s.stage.slot;
    assert forall y :: Passed(s', y) <==> Passed(s, y) || y == x;
    assert s'.committed.Keys == s.committed.Keys + {x.partition};
    hide Passed;
    if s.stage.Skipping? {
      assert !IsCommand(source, x);
    }
  }

  lemma {:induction false} StepOrderly(source: Source, s: State, a: Action)
    requires Orderly(source, s) && Enabled(source, s, a) && a != Crash
    ensures Orderly(source, Next(source, s, a))
  {
    hide OffsetsOk, OutcomesOk, RecordsOk, MarksOk;
    match a
    case PollSkip(p) => PollOrderly(source, s, p, Next(source, s, a));
    case PollCommand(p) => PollOrderly(source, s, p, Next(source, s, a));
    case SaveReceived => ReceiveOrderly(source, s);
    case SaveRejected => SaveOrderly(source, s, Refused, Next(source, s, a));
    case Publish => PublishOrderly(source, s);
    case SaveProcessed => SaveOrderly(source, s, Processed, Next(source, s, a));
    case CommitSkip => CommitOrderly(source, s, Next(source, s, a));
    case Commit => CommitOrderly(source, s, Next(source, s, a));
  }

  lemma {:induction false} RunOrderly(source: Source, s: State, actions: seq<Action>)
    requires Orderly(source, s) && Runnable(source, s, actions) && Crash !in actions
    ensures Orderly(source, Run(source, s, actions))
    decreases |actions|
  {
    hide Orderly, Enabled, Next;
    if actions != [] {
      assert actions[0] in actions;
      StepOrderly(source, s, actions[0]);
      RunOrderly(source, Next(source, s, actions[0]), actions[1..]);
    }
  }

  /**
   Between two messages of any run without a crash: exactly the valid commands read so far were published, each once
   and by offset within its partition; exactly the invalid ones were rejected; each has exactly one record, under its
   own id, and the end of processing is on record for that id; and what is committed is exactly what was read.
   */
  lemma {:induction false} DeliversExactlyOnce(source: Source, actions: seq<Action>)
    requires Runnable(source, Start(source), actions) && Crash !in actions
    ensures var s := Run(source, Start(source), actions);
            s.stage == Idle ==>
              && (forall x :: x in s.published <==>
                              Publishable(source, x) && x.offset < CommittedTo(s, x.partition))
              && (forall x :: x in s.rejected <==>
                              Rejectable(source, x) && x.offset < CommittedTo(s, x.partition))
              && (forall x :: x in Places(s.records) <==>
                              IsCommand(source, x) && x.offset < CommittedTo(s, x.partition))
              && InOrder(s.published) && InOrder(Places(s.records))
              && (forall r :: r in s.records ==> OwnId(source, r) && Marked(s.records, r.transactionId))
              && (forall p :: p in source.log ==> p in s.position && s.position[p] == CommittedTo(s, p))
  {
    var s := Run(source, Start(source), actions);
    assert Orderly(source, Start(source));
    RunOrderly(source, Start(source), actions);
    if s.stage == Idle {
      assert forall x :: Exists(source, x) ==> (Passed(s, x) <==> x.offset < CommittedTo(s, x.partition));
      hide InOrder, Runnable, Run, Marked;
      forall r | r in s.records
        ensures Marked(s.records, r.transactionId)
      {
        var i :| 0 <= i < |s.records| && s.records[i] == r;
        assert Places(s.records)[i] == r.slot && OwnId(source, r) && Recorded(s, r.slot);
      }
      hide Places;
    }
  }

  // ---------- Records never speak falsely ----------

  /** A record says processed only of an id that was published, and rejected only of an id that was rejected. */
  ghost predicate Truthful(source: Source, s: State) {
    && (forall r :: r in s.records && r.status == Processed ==> Tells(source, Distinct(s.published), r.transactionId))
    && (forall r :: r in s.records && r.status == Refused ==> Tells(source, s.rejected, r.transactionId))
  }

  /** Some command among these has the id. */
  ghost predicate Tells(source: Source, slots: set<Slot>, id: Name) {
    exists x :: x in slots && IsCommand(source, x) && CommandAt(source, x).transactionId == id
  }

  ghost predicate SentInFlight(source: Source, s: State) {
    s.stage.Published? ==> s.stage.slot in s.published
  }

  lemma {:induction false} TellsMore(source: Source, slots: set<Slot>, more: set<Slot>, id: Name)
    requires Tells(source, slots, id) && slots <= more
    ensures Tells(source, more, id)
  {
  }

  lemma {:induction false} StepTruthful(source: Source, s: State, a: Action)
    requires Truthful(source, s) && SentInFlight(source, s) && Enabled(source, s, a)
    ensures Truthful(source, Next(source, s, a)) && SentInFlight(source, Next(source, s, a))
  {
    var s' := Next(source, s, a);
    var sent, sent' := Distinct(s.published), Distinct(s'.published);
    assert sent <= sent' && s.rejected <= s'.rejected;
    if a.SaveRejected? || a.SaveProcessed? {
      var id := CommandAt(source, s.stage.slot).transactionId;
      var status := if a.SaveRejected? then Refused else Processed;
      SetStatusLaw(s.records, id, status);
      assert Tells(source, if a.SaveRejected? then s'.rejected else sent', id) by {
        assert IsCommand(source, s.stage.slot);
      }
    }
    hide SetStatus, IsCommand, Resume;
    forall r | r in s'.records
      ensures r.status == Processed ==> Tells(source, sent', r.transactionId)
      ensures r.status == Refused ==> Tells(source, s'.rejected, r.transactionId)
    {
      if r in s.records && r.status == Processed {
        TellsMore(source, sent, sent', r.transactionId);
      }
      if r in s.records && r.status == Refused {
        TellsMore(source, s.rejected, s'.rejected, r.transactionId);
      }
    }
  }

  lemma {:induction false} RunTruthful(source: Source, s: State, actions: seq<Action>)
    requires Truthful(source, s) && SentInFlight(source, s) && Runnable(source, s, actions)
    ensures Truthful(source, Run(source, s, actions))
    decreases |actions|
  {
    hide Truthful, SentInFlight, Enabled, Next;
    if actions != [] {
      StepTruthful(source, s, actions[0]);
      RunTruthful(source, Next(source, s, actions[0]), actions[1..]);
    }
  }

  /** In every run of every source, with any crashes, no record says processed or rejected of an id that was not. */
  lemma {:induction false} RecordsAreTruthful(source: Source, actions: seq<Action>)
    requires Runnable(source, Start(source), actions)
    ensures Truthful(source, Run(source, Start(source), actions))
  {
    RunTruthful(source, Start(source), actions);
  }

  /** Nothing published has the id of a command of this partition. */
  ghost predicate Unshared(source: Source, s: State, p: Partition) {
    forall x: Slot, y: Slot :: x in s.published && y.partition == p ==> !SameId(source, x, y)
  }

  /**
   A restart after a run without a crash goes on where it was in every partition whose commands share no id with
   anything published.
   */
  lemma {:induction false} RestartKeepsProgress(source: Source, actions: seq<Action>, p: Partition)
    requires Runnable(source, Start(source), actions) && Crash !in actions && p in source.log
    ensures var s := Run(source, Start(source), actions);
            s.stage == Idle && Unshared(source, s, p) ==>
              p in s.position && Next(source, s, Crash).position[p] == s.position[p]
  {
    hide Runnable, Run, Truthful, InOrder, Places, Marked;
    var s := Run(source, Start(source), actions);
    if s.stage == Idle && Unshared(source, s, p) {
      DeliversExactlyOnce(source, actions);
      RecordsAreTruthful(source, actions);
      NothingProcessed(source, s, p);
      CheckpointLaw(s.records, p);
      hide Checkpoint;
    }
  }

  lemma {:induction false} NothingProcessed(source: Source, s: State, p: Partition)
    requires Truthful(source, s) && forall r :: r in s.records ==> OwnId(source, r)
    requires Unshared(source, s, p)
    ensures forall r :: r in s.records ==> !(r.status == Processed && r.slot.partition == p)
  {
    forall r | r in s.records && r.status == Processed && r.slot.partition == p
      ensures false
    {
      assert Tells(source, Distinct(s.published), r.transactionId) && OwnId(source, r);
      var x :| x in Distinct(s.published) && IsCommand(source, x) &&
               CommandAt(source, x).transactionId == r.transactionId;
      assert SameId(source, x, r.slot);
    }
  }
}
