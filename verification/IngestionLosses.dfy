/**
 Crash safety holds exactly for the sources that do not share the id of a valid command between partitions: for every
 other source there is a run, with one crash, after which resuming skips a message that was never handled.
 */
module IngestionLosses {
  import opened Types
  import opened Ingestion
  import opened IngestionLaws

  /** What handling messages of partition `p` from offset `k` up to `n` may change; `id` is any id of interest. */
  ghost predicate HandlesOnly(source: Source, s: State, s': State, p: Partition, k: int, n: int, id: Name) {
    match s'
    case State(records, committed, position, stage, published, rejected, _) =>
      && stage == Idle && position == s.position[p := n]
      && (forall x :: x in published && x !in s.published ==> x.partition == p && k <= x.offset < n)
      && (forall x :: x in rejected && x !in s.rejected ==> x.partition == p && k <= x.offset < n)
      && (forall r :: r in records ==> HasRecord(s.records, r.slot) || r.slot.partition == p)
      && (forall q :: q in committed ==> q in s.committed || q == p)
      && (FirstSlot(s.records, id).Some? ==> FirstSlot(records, id) == FirstSlot(s.records, id))
      && (FirstSlot(s.records, id).None? && NotIn(source, p, k, n, id) ==> FirstSlot(records, id).None?)
  }

  /** No command with this id lies in the partition between the two offsets. */
  ghost predicate NotIn(source: Source, p: Partition, k: int, n: int, id: Name) {
    forall o :: k <= o < n && IsCommand(source, Slot(p, o)) ==> CommandAt(source, Slot(p, o)).transactionId != id
  }

  lemma {:induction false} Skip(source: Source, s: State, p: Partition, id: Name)
    returns (trace: seq<Action>, s': State)
    requires CanPoll(source, s, p) && Skippable(source, Slot(p, s.position[p]))
    ensures Leads(source, s, trace, s') && HandlesOnly(source, s, s', p, s.position[p], s.position[p] + 1, id)
  {
    hide Leads;
    LeadsItself(source, s);
    LeadsStep(source, s, [], s, PollSkip(p));
    var s1 := Next(source, s, PollSkip(p));
    LeadsStep(source, s, [] + [PollSkip(p)], s1, CommitSkip);
    trace, s' := [] + [PollSkip(p)] + [CommitSkip], Next(source, s1, CommitSkip);
    forall r | r in s'.records
      ensures HasRecord(s.records, r.slot)
    {
    }
  }

  /** Polling a command and recording its receipt. */
  lemma {:induction false} Receive(source: Source, s: State, p: Partition, id: Name)
    returns (trace: seq<Action>, s': State)
    requires CanPoll(source, s, p) && !Skippable(source, Slot(p, s.position[p]))
    ensures Leads(source, s, trace, s')
    ensures var x := Slot(p, s.position[p]);
            var r := TransactionRecord(CommandAt(source, x).transactionId, Received, x);
            && s' == s.(position := s.position[p := x.offset + 1], stage := Stored(x), records := s.records + [r])
            && FirstSlot(s'.records, id) ==
               if FirstSlot(s.records, id).Some? || r.transactionId != id then FirstSlot(s.records, id) else Some(x)
  {
    hide Leads, FirstSlot;
    var x := Slot(p, s.position[p]);
    LeadsItself(source, s);
    LeadsStep(source, s, [], s, PollCommand(p));
    var s1 := Next(source, s, PollCommand(p));
    LeadsStep(source, s, [] + [PollCommand(p)], s1, SaveReceived);
    trace, s' := [] + [PollCommand(p)] + [SaveReceived], Next(source, s1, SaveReceived);
    FirstSlotAppend(s.records, TransactionRecord(CommandAt(source, x).transactionId, Received, x), id);
  }

  /**
   The rest of the way: a valid command is published and marked as processed, an invalid one is recorded as rejected.
   */
  lemma {:induction false} Finish(source: Source, s: State) returns (trace: seq<Action>, s': State)
    requires s.stage.Stored? && IsCommand(source, s.stage.slot)
    ensures Leads(source, s, trace, s')
    ensures var x := s.stage.slot;
            var valid := IsValid(CommandAt(source, x), x);
            s' == s.(stage := Idle,
                     committed := s.committed[x.partition := x.offset + 1],
                     published := if valid then s.published + [x] else s.published,
                     rejected := if valid then s.rejected else s.rejected + {x},
                     records := SetStatus(s.records, CommandAt(source, x).transactionId,
                                          if valid then Processed else Refused))
  {
    hide Leads, SetStatus, IsValid;
    var x := s.stage.slot;
    LeadsItself(source, s);
    if IsValid(CommandAt(source, x), x) {
      LeadsStep(source, s, [], s, Publish);
      var s1 := Next(source, s, Publish);
      LeadsStep(source, s, [] + [Publish], s1, SaveProcessed);
      var s2 := Next(source, s1, SaveProcessed);
      LeadsStep(source, s, [] + [Publish] + [SaveProcessed], s2, Commit);
      trace, s' := [] + [Publish] + [SaveProcessed] + [Commit], Next(source, s2, Commit);
    } else {
      LeadsStep(source, s, [], s, SaveRejected);
      var s1 := Next(source, s, SaveRejected);
      LeadsStep(source, s, [] + [SaveRejected], s1, Commit);
      trace, s' := [] + [SaveRejected] + [Commit], Next(source, s1, Commit);
    }
  }

  /** A command handled from poll to commit; a valid one with the id marks the first record with the id. */
  lemma {:induction false} Handle(source: Source, s: State, p: Partition, id: Name)
    returns (trace: seq<Action>, s': State)
    requires CanPoll(source, s, p) && !Skippable(source, Slot(p, s.position[p]))
    ensures Leads(source, s, trace, s') && HandlesOnly(source, s, s', p, s.position[p], s.position[p] + 1, id)
    ensures var x := Slot(p, s.position[p]);
            IsValid(CommandAt(source, x), x) && CommandAt(source, x).transactionId == id ==>
              FirstSlot(s'.records, id).Some? &&
                TransactionRecord(id, Processed, FirstSlot(s'.records, id).value) in s'.records
  {
    hide Leads, SetStatus, IsValid, FirstSlot;
    var x := Slot(p, s.position[p]);
    var own := CommandAt(source, x).transactionId;
    var trace1, s1 := Receive(source, s, p, id);
    var trace2;
    trace2, s' := Finish(source, s1);
    LeadsOn(source, s, trace1, s1, trace2, s');
    trace := trace1 + trace2;
    var status := if IsValid(CommandAt(source, x), x) then Processed else Refused;
    SetStatusLaw(s1.records, own, status);
    FirstSlotAppend(s.records, TransactionRecord(own, Received, x), own);
    forall r | r in s'.records
      ensures HasRecord(s.records, r.slot) || r.slot.partition == p
    {
      FirstSlotLaw(s.records, own);
    }
    assert IsCommand(source, x);
  }

  /** All messages of a partition up to `n`, handled one after the other. */
  lemma {:induction false} HandleUpTo(source: Source, s: State, p: Partition, n: int, id: Name)
    returns (trace: seq<Action>, s': State)
    requires s.stage == Idle && p in source.log && p in s.position && 0 <= s.position[p] <= n <= |source.log[p]|
    ensures Leads(source, s, trace, s') && HandlesOnly(source, s, s', p, s.position[p], n, id)
    decreases n - s.position[p]
  {
    hide Leads, FirstSlot;
    var k := s.position[p];
    if k == n {
      LeadsItself(source, s);
      trace, s' := [], s;
      forall r | r in s'.records
        ensures HasRecord(s.records, r.slot)
      {
      }
    } else {
      var trace1, s1;
      if Skippable(source, Slot(p, k)) {
        trace1, s1 := Skip(source, s, p, id);
      } else {
        trace1, s1 := Handle(source, s, p, id);
      }
      var trace2;
      trace2, s' := HandleUpTo(source, s1, p, n, id);
      LeadsOn(source, s, trace1, s1, trace2, s');
      trace := trace1 + trace2;
      HandlesBoth(source, s, s1, s', p, k, n, id);
    }
  }

  lemma {:induction false} HandlesBoth(source: Source, s: State, s1: State, s': State, p: Partition, k: int, n: int,
                                       id: Name)
    requires k < n && HandlesOnly(source, s, s1, p, k, k + 1, id) && HandlesOnly(source, s1, s', p, k + 1, n, id)
    ensures HandlesOnly(source, s, s', p, k, n, id)
  {
    forall r | r in s'.records
      ensures HasRecord(s.records, r.slot) || r.slot.partition == p
    {
      if HasRecord(s1.records, r.slot) {
        var q :| q in s1.records && q.slot == r.slot;
      }
    }
  }

  // ---------- The run that loses a message ----------

  /** The first command of a partition with this id. */
  lemma {:induction false} FirstCommand(source: Source, x: Slot) returns (first: Slot)
    requires IsCommand(source, x)
    ensures SameId(source, first, x) && first.partition == x.partition
    ensures NotIn(source, x.partition, 0, first.offset, CommandAt(source, x).transactionId)
    decreases x.offset
  {
    var id := CommandAt(source, x).transactionId;
    if o :| 0 <= o < x.offset && SameId(source, Slot(x.partition, o), x) {
      first := FirstCommand(source, Slot(x.partition, o));
    } else {
      first := x;
    }
  }

  /** The process crashes after the receipt of `x`, which is the first record with its id; nothing was read from `q`. */
  lemma {:induction false} CrashAfterReceipt(source: Source, x: Slot, q: Partition)
    returns (trace: seq<Action>, s: State)
    requires IsCommand(source, x) && q in source.log && q != x.partition
    requires NotIn(source, x.partition, 0, x.offset, CommandAt(source, x).transactionId)
    ensures Leads(source, Start(source), trace, s) && s.stage == Idle && q in s.position && s.position[q] == 0
    ensures x !in s.published && x !in s.rejected
    ensures FirstSlot(s.records, CommandAt(source, x).transactionId) == Some(x)
  {
    hide Leads, FirstSlot;
    var id := CommandAt(source, x).transactionId;
    FirstSlotLaw([], id);
    var trace1, s1 := HandleUpTo(source, Start(source), x.partition, x.offset, id);
    var trace2, s2 := Receive(source, s1, x.partition, id);
    LeadsOn(source, Start(source), trace1, s1, trace2, s2);
    LeadsStep(source, Start(source), trace1 + trace2, s2, Crash);
    trace, s := trace1 + trace2 + [Crash], Next(source, s2, Crash);
    CheckpointLaw(s2.records, q);
    hide Checkpoint, HandlesOnly;
    assert Checkpoint(s2.records, q).None?;
  }

  /** If a command shares its id with a valid command in another partition, some run loses a message. */
  lemma {:induction false} SharingLosesMessage(source: Source, x: Slot, y: Slot)
    returns (trace: seq<Action>, lost: Slot)
    requires SameId(source, x, y) && IsValid(CommandAt(source, y), y) && x.partition != y.partition
    ensures Runnable(source, Start(source), trace) && Exists(source, lost)
    ensures var s := Run(source, Start(source), trace);
            lost.offset < Resume(s.records, s.committed, lost.partition) && !Handled(source, s, lost)
  {
    var id, q := CommandAt(source, x).transactionId, y.partition;
    lost := FirstCommand(source, x);
    var trace1, s1 := CrashAfterReceipt(source, lost, q);
    var trace2, s2 := HandleUpTo(source, s1, q, y.offset, id);
    var trace3, s3 := Handle(source, s2, q, id);
    hide FirstSlot;
    trace := trace1 + trace2 + trace3;
    LeadsOn(source, Start(source), trace1, s1, trace2, s2);
    LeadsOn(source, Start(source), trace1 + trace2, s2, trace3, s3);
    CheckpointLaw(s3.records, lost.partition);
    assert Run(source, Start(source), trace) == s3;
    hide Leads, Checkpoint;
    assert TransactionRecord(id, Processed, lost) in s3.records;
  }

  /** No run from the start, however often it crashes, gets to a state from which resuming skips a message. */
  ghost predicate CrashSafe(source: Source) {
    forall trace :: Runnable(source, Start(source), trace) ==> SkipsNothing(source, Run(source, Start(source), trace))
  }

  /** Ingestion is crash safe if and only if no command shares its id with a valid command in another partition. */
  lemma {:induction false} CrashSafetyExactly(source: Source)
    ensures CrashSafe(source) <==> Separated(source)
  {
    if Separated(source) {
      forall trace | Runnable(source, Start(source), trace)
        ensures SkipsNothing(source, Run(source, Start(source), trace))
      {
        ResumeSkipsNothing(source, trace);
      }
    } else {
      var x, y :| SameId(source, x, y) && IsValid(CommandAt(source, y), y) && x.partition != y.partition;
      var trace, lost := SharingLosesMessage(source, x, y);
    }
  }

  /** A source for which it fails: two partitions, one valid command in each, and the same id in both. */
  lemma {:induction false} SharedIdLosesMessage() returns (source: Source)
    ensures !CrashSafe(source)
  {
    var c := Command(Other(1), Other(2), Other(3), Other(4), 1.0);
    var p, q := Partition(Other(0), 0), Partition(Other(0), 1);
    source := Source(Other(0), map[p := [Parsed(c)], q := [Parsed(c)]]);
    assert SameId(source, Slot(p, 0), Slot(q, 0));
    assert !Separated(source);
    CrashSafetyExactly(source);
  }
}
