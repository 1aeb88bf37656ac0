/** Crash safety of ingestion: nothing is skipped, and only the message in flight can be published again. */
module IngestionLaws {
  import opened Types
  import opened Ingestion

  predicate IsCommand(source: Source, x: Slot) {
    Exists(source, x) && !Skippable(source, x)
  }

  ghost predicate SameId(source: Source, x: Slot, y: Slot) {
    IsCommand(source, x) && IsCommand(source, y) &&
      CommandAt(source, x).transactionId == CommandAt(source, y).transactionId
  }

  /** The transaction id of a valid command does not occur in any other partition. */
  ghost predicate Separated(source: Source) {
    forall x, y :: SameId(source, x, y) && IsValid(CommandAt(source, y), y) ==> x.partition == y.partition
  }

  /** The transaction id of a valid command does not occur anywhere else. */
  ghost predicate OwnIds(source: Source) {
    forall x, y :: SameId(source, x, y) && IsValid(CommandAt(source, y), y) ==> x == y
  }

  /** The message was published, recorded as rejected, or cannot be a command at all. */
  ghost predicate Handled(source: Source, s: State, x: Slot)
    requires Exists(source, x)
  {
    Skippable(source, x) || x in s.published || x in s.rejected
  }

  ghost predicate ProcessedAt(records: seq<TransactionRecord>, x: Slot) {
    exists r :: r in records && r.status == Processed && r.slot == x
  }

  /** All messages of a partition before `n` were handled. */
  ghost predicate HandledBefore(source: Source, s: State, p: Partition, n: int)
    requires p in source.log && n <= |source.log[p]|
  {
    forall o :: 0 <= o < n ==> Handled(source, s, Slot(p, o))
  }

  ghost predicate HasRecord(records: seq<TransactionRecord>, x: Slot) {
    exists r :: r in records && r.slot == x
  }

  /** A record stands for the command at its slot, received after everything before it was handled. */
  ghost predicate RecordOk(source: Source, s: State, r: TransactionRecord) {
    && IsCommand(source, r.slot)
    && r.transactionId == CommandAt(source, r.slot).transactionId
    && HandledBefore(source, s, r.slot.partition, r.slot.offset)
    && (r.status == Processed ==>
          && Handled(source, s, r.slot)
          && r.slot.partition in s.position && r.slot.offset < s.position[r.slot.partition])
  }

  /** Of the records with one id in one partition, the first has the least offset. */
  ghost predicate FirstOk(records: seq<TransactionRecord>) {
    forall r :: r in records ==>
      var first := FirstSlot(records, r.transactionId);
      first.Some? && first.value.partition == r.slot.partition ==> first.value.offset <= r.slot.offset
  }

  ghost predicate PositionOk(source: Source, s: State, p: Partition)
    requires p in source.log
  {
    && p in s.position && 0 <= s.position[p] <= |source.log[p]|
    && (p in s.committed ==> 0 <= s.committed[p] <= |source.log[p]| && HandledBefore(source, s, p, s.committed[p]))
    && (if s.stage != Idle && s.stage.slot.partition == p
        then s.stage.slot.offset == s.position[p] - 1 && HandledBefore(source, s, p, s.position[p] - 1)
        else HandledBefore(source, s, p, s.position[p]))
  }

  /** The message in flight exists, and fits its stage. */
  ghost predicate StageOk(source: Source, s: State) {
    s.stage != Idle ==>
      var x := s.stage.slot;
      && Exists(source, x)
      && (s.stage.Skipping? <==> Skippable(source, x))
      && (s.stage.Stored? || s.stage.Published? ==> HasRecord(s.records, x))
      && (s.stage.Polled? || s.stage.Stored? || s.stage.Published? ==>
            forall r :: r in s.records && r.status == Processed && r.slot.partition == x.partition ==>
              r.slot.offset < x.offset)
      && (s.stage.Published? ==> x in s.published && IsValid(CommandAt(source, x), x))
      && (s.stage.Settled? ==> Handled(source, s, x))
  }

  /** Whatever was published is a valid command with a record, and whatever was rejected has a record. */
  ghost predicate HistoryOk(source: Source, s: State) {
    && (forall x :: x in s.published ==> Publishable(source, x) && HasRecord(s.records, x))
    && (forall x :: x in s.rejected ==> HasRecord(s.records, x))
  }

  ghost predicate Inv(source: Source, s: State) {
    match s
    case State(records, committed, position, stage, published, rejected, _) =>
      && (forall r :: r in records ==> RecordOk(source, s, r))
      && FirstOk(records)
      && (forall p :: p in source.log ==> PositionOk(source, s, p))
      && (forall p :: p in committed ==> p in source.log)
      && HistoryOk(source, s)
      && StageOk(source, s)
  }

  /** Only valid commands are published. */
  ghost predicate Publishable(source: Source, x: Slot) {
    IsCommand(source, x) && IsValid(CommandAt(source, x), x)
  }

  // ---------- Setting a status ----------

  /** Where the first record with this id says its command is. */
  function FirstSlot(records: seq<TransactionRecord>, id: Name): Option<Slot> {
    if records == [] then None
    else if records[0].transactionId == id then Some(records[0].slot)
    else FirstSlot(records[1..], id)
  }

  lemma {:induction false} FirstSlotLaw(records: seq<TransactionRecord>, id: Name)
    ensures var first := FirstSlot(records, id);
            && (first.None? <==> forall r :: r in records ==> r.transactionId != id)
            && (first.Some? ==> exists r :: r in records && r.transactionId == id && r.slot == first.value)
  {
    if records != [] {
      FirstSlotLaw(records[1..], id);
      assert records[0] in records;
      assert forall r :: r in records <==> r == records[0] || r in records[1..];
    }
  }

  lemma {:induction false} FirstSlotAppend(records: seq<TransactionRecord>, r: TransactionRecord, id: Name)
    ensures FirstSlot(records + [r], id) ==
            if FirstSlot(records, id).Some? || r.transactionId != id then FirstSlot(records, id) else Some(r.slot)
  {
    if records == [] {
      assert records + [r] == [r] && [r][1..] == [];
    } else {
      assert (records + [r])[1..] == records[1..] + [r];
      FirstSlotAppend(records[1..], r, id);
    }
  }

  /** The record whose status is set: the first with the id, or else a new one without a place in Kafka. */
  function Changed(records: seq<TransactionRecord>, id: Name, status: TransactionStatus): TransactionRecord {
    var first := FirstSlot(records, id);
    TransactionRecord(id, status, if first.Some? then first.value else Slot(Partition(Empty, 0), 0))
  }

  /**
   Setting a status changes one record, the first with the id: it carries the new status, no other record is
   touched, and no record loses its id or its place.
   */
  lemma {:induction false} SetStatusLaw(records: seq<TransactionRecord>, id: Name, status: TransactionStatus)
    ensures var records' := SetStatus(records, id, status);
            && Changed(records, id, status) in records'
            && (forall r :: r in records' ==> r in records || r == Changed(records, id, status))
            && (forall r :: r in records && (r.transactionId != id || r.slot != Changed(records, id, status).slot) ==>
                r in records')
            && (forall x :: HasRecord(records, x) ==> HasRecord(records', x))
            && (forall other :: FirstSlot(records', other) ==
                                if other == id then Some(Changed(records, id, status).slot)
                                  else FirstSlot(records, other))
  {
    var records', c := SetStatus(records, id, status), Changed(records, id, status);
    if records == [] {
      assert records' == [c] && [c][1..] == [];
    } else if records[0].transactionId == id {
      assert records' == [c] + records[1..] && records'[1..] == records[1..];
      assert forall r :: r in records <==> r == records[0] || r in records[1..];
      forall x | HasRecord(records, x)
        ensures HasRecord(records', x)
      {
        var r :| r in records && r.slot == x;
        assert (if r == records[0] then c else r) in records';
      }
    } else {
      SetStatusLaw(records[1..], id, status);
      var rest := SetStatus(records[1..], id, status);
      assert records' == [records[0]] + rest && records'[1..] == rest && records'[0] == records[0];
      assert forall r :: r in records <==> r == records[0] || r in records[1..];
      forall x | HasRecord(records, x)
        ensures HasRecord(records', x)
      {
        var r :| r in records && r.slot == x;
        if r != records[0] {
          assert HasRecord(records[1..], x);
          var q :| q in rest && q.slot == x;
          assert q in records';
        } else {
          assert r in records';
        }
      }
    }
  }

  // ---------- Checkpoints ----------

  lemma {:induction false} CheckpointFromLaw(best: Option<int>, records: seq<TransactionRecord>, p: Partition)
    ensures var c := CheckpointFrom(best, records, p);
            && (c.None? <==> best.None? && forall r :: r in records ==>
                !(r.status == Processed && r.slot.partition == p))
            && (c.Some? ==>
                  && (c == best || exists r :: r in records && r.status == Processed && r.slot == Slot(p, c.value))
                  && (best.Some? ==> best.value <= c.value)
                  && (forall r :: r in records && r.status == Processed && r.slot.partition == p ==>
                      r.slot.offset <= c.value))
    decreases |records|
  {
    if records != [] {
      var r := records[0];
      var better := r.status == Processed && r.slot.partition == p && (best.None? || r.slot.offset > best.value);
      CheckpointFromLaw(if better then Some(r.slot.offset) else best, records[1..], p);
      assert forall q :: q in records <==> q == r || q in records[1..];
    }
  }

  /** The checkpoint of a partition is the offset of a processed record, and the greatest such. */
  lemma {:induction false} CheckpointLaw(records: seq<TransactionRecord>, p: Partition)
    ensures var c := Checkpoint(records, p);
            && (c.None? <==> forall r :: r in records ==> !(r.status == Processed && r.slot.partition == p))
            && (c.Some? ==>
                  && (exists r :: r in records && r.status == Processed && r.slot == Slot(p, c.value))
                  && (forall r :: r in records && r.status == Processed && r.slot.partition == p ==>
                      r.slot.offset <= c.value))
  {
    CheckpointFromLaw(None, records, p);
  }

  /** Everything before the resume point was handled. */
  lemma {:induction false} ResumeIsSafe(source: Source, s: State, p: Partition)
    requires Inv(source, s) && p in source.log
    ensures var n := Resume(s.records, s.committed, p);
            0 <= n <= |source.log[p]| && HandledBefore(source, s, p, n)
    ensures forall r :: r in s.records && r.status == Processed && r.slot.partition == p ==>
            r.slot.offset < Resume(s.records, s.committed, p)
  {
    CheckpointLaw(s.records, p);
    var c := Checkpoint(s.records, p);
    if c.Some? {
      var r :| r in s.records && r.status == Processed && r.slot == Slot(p, c.value);
      assert RecordOk(source, s, r);
    } else {
      assert PositionOk(source, s, p);
    }
  }

  // ---------- Every step keeps the invariant ----------

  lemma {:induction false} StartOk(source: Source)
    ensures Inv(source, Start(source))
  {
  }

  /** Handling is never undone. */
  ghost predicate Grows(s: State, s': State) {
    (forall x :: x in s.published ==> x in s'.published) && s.rejected <= s'.rejected
  }

  lemma {:induction false} GrowsHandled(source: Source, s: State, s': State, p: Partition, n: int)
    requires Grows(s, s') && p in source.log && n <= |source.log[p]| && HandledBefore(source, s, p, n)
    ensures HandledBefore(source, s', p, n)
  {
  }

  lemma {:induction false} GrowsRecord(source: Source, s: State, s': State, r: TransactionRecord)
    requires Grows(s, s') && RecordOk(source, s, r)
    requires forall p :: p in s.position ==> p in s'.position && s.position[p] <= s'.position[p]
    ensures RecordOk(source, s', r)
  {
    GrowsHandled(source, s, s', r.slot.partition, r.slot.offset);
  }

  lemma {:induction false} PollKeeps(source: Source, s: State, p: Partition, s': State)
    requires Inv(source, s) && CanPoll(source, s, p)
    requires var x := Slot(p, s.position[p]);
             s' == s.(stage := if Skippable(source, x) then Skipping(x) else Polled(x),
                      position := s.position[p := x.offset + 1])
    ensures Inv(source, s')
  {
    forall r | r in s'.records
      ensures RecordOk(source, s', r)
    {
      GrowsRecord(source, s, s', r);
    }
    forall q | q in source.log
      ensures PositionOk(source, s', q)
    {
      assert PositionOk(source, s, q);
      GrowsHandled(source, s, s', q, s.position[q]);
      if q in s.committed {
        GrowsHandled(source, s, s', q, s.committed[q]);
      }
    }
    assert StageOk(source, s') by {
      assert forall r :: r in s.records ==> RecordOk(source, s, r);
    }
  }

  /** A step that moves the stage forward, adds to the history and rewrites records. */
  lemma {:induction false} AdvanceKeeps(source: Source, s: State, s': State)
    requires Inv(source, s) && Grows(s, s') && s.stage != Idle
    requires s'.position == s.position && s'.committed == s.committed
    requires s'.stage != Idle && s'.stage.slot == s.stage.slot
    requires (forall r :: r in s'.records ==> RecordOk(source, s', r)) && FirstOk(s'.records)
    requires HistoryOk(source, s') && StageOk(source, s')
    ensures Inv(source, s')
  {
    forall q | q in source.log
      ensures PositionOk(source, s', q)
    {
      assert PositionOk(source, s, q);
      if q in s.committed {
        GrowsHandled(source, s, s', q, s.committed[q]);
      }
      if s.stage.slot.partition == q {
        GrowsHandled(source, s, s', q, s.position[q] - 1);
      } else {
        GrowsHandled(source, s, s', q, s.position[q]);
      }
    }
  }

  /** The first record with the id of a command, if in its partition, does not lie behind it. */
  lemma {:induction false} FirstIsBefore(source: Source, s: State, x: Slot)
    requires Inv(source, s) && IsCommand(source, x)
    ensures var first := FirstSlot(s.records, CommandAt(source, x).transactionId);
            first.Some? && first.value.partition == x.partition ==> first.value.offset <= x.offset
  {
    var id := CommandAt(source, x).transactionId;
    var first := FirstSlot(s.records, id);
    FirstSlotLaw(s.records, id);
    if HasRecord(s.records, x) {
      var r :| r in s.records && r.slot == x;
      assert RecordOk(source, s, r);
    } else if first.Some? && first.value.partition == x.partition {
      var f :| f in s.records && f.transactionId == id && f.slot == first.value;
      assert RecordOk(source, s, f);
      assert !Handled(source, s, Slot(x.partition, x.offset));
    }
  }

  lemma {:induction false} AppendKeepsFirst(records: seq<TransactionRecord>, r: TransactionRecord)
    requires FirstOk(records)
    requires var first := FirstSlot(records, r.transactionId);
             first.Some? && first.value.partition == r.slot.partition ==> first.value.offset <= r.slot.offset
    ensures FirstOk(records + [r])
  {
    var records' := records + [r];
    forall q | q in records'
      ensures var first := FirstSlot(records', q.transactionId);
              first.Some? && first.value.partition == q.slot.partition ==> first.value.offset <= q.slot.offset
    {
      FirstSlotAppend(records, r, q.transactionId);
      FirstSlotLaw(records, q.transactionId);
      assert q in records || q == r;
    }
  }

  lemma {:induction false} SaveReceivedKeeps(source: Source, s: State)
    requires Inv(source, s) && Enabled(source, s, SaveReceived)
    ensures Inv(source, Next(source, s, SaveReceived))
  {
    var s' := Next(source, s, SaveReceived);
    var x := s.stage.slot;
    var r' := TransactionRecord(CommandAt(source, x).transactionId, Received, x);
    assert r' in s'.records && forall r :: r in s.records ==> r in s'.records;
    FirstIsBefore(source, s, x);
    AppendKeepsFirst(s.records, r');
    forall r | r in s'.records
      ensures RecordOk(source, s', r)
    {
      if r in s.records {
        GrowsRecord(source, s, s', r);
      } else {
        assert r == r' && PositionOk(source, s, x.partition);
      }
    }
    assert HistoryOk(source, s');
    assert StageOk(source, s') by {
      assert forall r :: r in s'.records ==> r in s.records || r == r';
    }
    AdvanceKeeps(source, s, s');
  }

  lemma {:induction false} PublishKeeps(source: Source, s: State)
    requires Inv(source, s) && Enabled(source, s, Publish)
    ensures Inv(source, Next(source, s, Publish))
  {
    var s' := Next(source, s, Publish);
    forall r | r in s'.records
      ensures RecordOk(source, s', r)
    {
      GrowsRecord(source, s, s', r);
    }
    AdvanceKeeps(source, s, s');
  }

  lemma {:induction false} SetStatusKeepsFirst(records: seq<TransactionRecord>, id: Name, status: TransactionStatus)
    requires FirstOk(records) && FirstSlot(records, id).Some?
    ensures FirstOk(SetStatus(records, id, status))
  {
    SetStatusLaw(records, id, status);
    FirstSlotLaw(records, id);
  }

  /** The record marked as processed stands for the message in flight, or for an earlier one with its id. */
  lemma {:induction false} ChangedRecordOk(source: Source, s: State, status: TransactionStatus, s': State)
    requires Separated(source) && Inv(source, s) && (s.stage.Stored? || s.stage.Published?) && Grows(s, s')
    requires s'.position == s.position && (status == Processed ==> s.stage.Published?)
    ensures var id := CommandAt(source, s.stage.slot).transactionId;
            FirstSlot(s.records, id).Some? && RecordOk(source, s', Changed(s.records, id, status))
  {
    var x := s.stage.slot;
    var id := CommandAt(source, x).transactionId;
    var r0 :| r0 in s.records && r0.slot == x;
    assert RecordOk(source, s, r0);
    FirstSlotLaw(s.records, id);
    var first := FirstSlot(s.records, id).value;
    var f :| f in s.records && f.transactionId == id && f.slot == first;
    assert RecordOk(source, s, f) && PositionOk(source, s, x.partition);
    FirstIsBefore(source, s, x);
    GrowsHandled(source, s, s', first.partition, first.offset);
    if status == Processed {
      assert SameId(source, first, x);
      assert first.partition == x.partition && first.offset <= x.offset;
      assert first == x || Handled(source, s, Slot(x.partition, first.offset));
    }
  }

  lemma {:induction false} SaveStatusKeeps(source: Source, s: State, status: TransactionStatus, s': State)
    requires Separated(source) && Inv(source, s) && (s.stage.Stored? || s.stage.Published?)
    requires var id := CommandAt(source, s.stage.slot).transactionId;
             s' == s.(stage := Settled(s.stage.slot), records := SetStatus(s.records, id, status),
                      rejected := s'.rejected)
    requires if status == Processed then s.stage.Published? && s'.rejected == s.rejected
             else status == Refused && s'.rejected == s.rejected + {s.stage.slot}
    ensures Inv(source, s')
  {
    var id := CommandAt(source, s.stage.slot).transactionId;
    SetStatusLaw(s.records, id, status);
    ChangedRecordOk(source, s, status, s');
    SetStatusKeepsFirst(s.records, id, status);
    forall r | r in s'.records
      ensures RecordOk(source, s', r)
    {
      if r in s.records {
        GrowsRecord(source, s, s', r);
      }
    }
    assert HistoryOk(source, s');
    AdvanceKeeps(source, s, s');
  }

  lemma {:induction false} CommitKeeps(source: Source, s: State, s': State)
    requires Inv(source, s) && (s.stage.Skipping? || s.stage.Settled?)
    requires s' == s.(stage := Idle, committed := s.committed[s.stage.slot.partition := s.stage.slot.offset + 1])
    ensures Inv(source, s')
  {
    var x := s.stage.slot;
    forall r | r in s'.records
      ensures RecordOk(source, s', r)
    {
      GrowsRecord(source, s, s', r);
    }
    forall q | q in source.log
      ensures PositionOk(source, s', q)
    {
      assert PositionOk(source, s, q);
      if q == x.partition {
        GrowsHandled(source, s, s', q, s.position[q] - 1);
        assert Handled(source, s', x);
      } else {
        GrowsHandled(source, s, s', q, s.position[q]);
        if q in s.committed {
          GrowsHandled(source, s, s', q, s.committed[q]);
        }
      }
    }
  }

  lemma {:induction false} CrashKeeps(source: Source, s: State)
    requires Inv(source, s)
    ensures Inv(source, Next(source, s, Crash))
  {
    var s' := Next(source, s, Crash);
    forall r | r in s'.records
      ensures RecordOk(source, s', r)
    {
      assert RecordOk(source, s, r);
      GrowsHandled(source, s, s', r.slot.partition, r.slot.offset);
      if r.status == Processed {
        ResumeIsSafe(source, s, r.slot.partition);
      }
    }
    forall q | q in source.log
      ensures PositionOk(source, s', q)
    {
      assert PositionOk(source, s, q);
      ResumeIsSafe(source, s, q);
      GrowsHandled(source, s, s', q, s'.position[q]);
      if q in s.committed {
        GrowsHandled(source, s, s', q, s.committed[q]);
      }
    }
  }

  lemma {:induction false} StepKeeps(source: Source, s: State, a: Action)
    requires Separated(source) && Inv(source, s) && Enabled(source, s, a)
    ensures Inv(source, Next(source, s, a))
  {
    hide Inv;
    match a
    case PollSkip(p) => PollKeeps(source, s, p, Next(source, s, a));
    case PollCommand(p) => PollKeeps(source, s, p, Next(source, s, a));
    case SaveReceived => SaveReceivedKeeps(source, s);
    case SaveRejected => SaveStatusKeeps(source, s, Refused, Next(source, s, a));
    case Publish => PublishKeeps(source, s);
    case SaveProcessed => SaveStatusKeeps(source, s, Processed, Next(source, s, a));
    case CommitSkip => CommitKeeps(source, s, Next(source, s, a));
    case Commit => CommitKeeps(source, s, Next(source, s, a));
    case Crash => CrashKeeps(source, s);
  }

  lemma {:induction false} RunKeeps(source: Source, s: State, actions: seq<Action>)
    requires Separated(source) && Inv(source, s) && Runnable(source, s, actions)
    ensures Inv(source, Run(source, s, actions))
    decreases |actions|
  {
    hide Inv;
    if actions != [] {
      StepKeeps(source, s, actions[0]);
      RunKeeps(source, Next(source, s, actions[0]), actions[1..]);
    }
  }

  /** The state `s'` is reached from `s` by `trace`. */
  ghost predicate Leads(source: Source, s: State, trace: seq<Action>, s': State) {
    match s'
    case State(_, _, _, _, _, _, _) => Runnable(source, s, trace) && Run(source, s, trace) == s'
  }

  lemma {:induction false} LeadsItself(source: Source, s: State)
    ensures Leads(source, s, [], s)
  {
  }

  lemma {:induction false} LeadsStep(source: Source, s: State, trace: seq<Action>, s': State, a: Action)
    requires Leads(source, s, trace, s') && Enabled(source, s', a)
    ensures Leads(source, s, trace + [a], Next(source, s', a))
    decreases |trace|
  {
    hide Enabled, Next;
    var longer := trace + [a];
    if trace == [] {
      assert longer == [a] && longer[1..] == [];
      assert Run(source, s, longer) == Run(source, Next(source, s, a), []);
    } else {
      assert longer[0] == trace[0] && longer[1..] == trace[1..] + [a];
      LeadsStep(source, Next(source, s, trace[0]), trace[1..], s', a);
    }
  }

  lemma {:induction false} LeadsOn(source: Source, s: State, trace: seq<Action>, s': State, trace': seq<Action>,
                                   s'': State)
    requires Leads(source, s, trace, s') && Leads(source, s', trace', s'')
    ensures Leads(source, s, trace + trace', s'')
    decreases |trace|
  {
    hide Enabled, Next;
    if trace == [] {
      assert trace + trace' == trace';
    } else {
      assert (trace + trace')[0] == trace[0] && (trace + trace')[1..] == trace[1..] + trace';
      LeadsOn(source, Next(source, s, trace[0]), trace[1..], s', trace', s'');
    }
  }

  /**
   Resuming from this state would skip no message that was not published, recorded as rejected, or no command at all.
   */
  ghost predicate SkipsNothing(source: Source, s: State) {
    forall x :: Exists(source, x) && x.offset < Resume(s.records, s.committed, x.partition) ==> Handled(source, s, x)
  }

  /**
   Crash safety: in every run, however often it crashed and between whichever steps, resuming now would skip nothing.
   */
  lemma {:induction false} ResumeSkipsNothing(source: Source, actions: seq<Action>)
    requires Separated(source) && Runnable(source, Start(source), actions)
    ensures SkipsNothing(source, Run(source, Start(source), actions))
  {
    var s := Run(source, Start(source), actions);
    StartOk(source);
    RunKeeps(source, Start(source), actions);
    forall x | Exists(source, x) && x.offset < Resume(s.records, s.committed, x.partition)
      ensures Handled(source, s, x)
    {
      ResumeIsSafe(source, s, x.partition);
      assert Slot(x.partition, x.offset) == x;
    }
  }

  // ---------- How often messages are published ----------

  ghost function Distinct(slots: seq<Slot>): set<Slot> {
    set x | x in slots
  }

  /**
   Published messages whose processing is not on record, apart from the one in flight: they may be published again.
   */
  ghost function Exposed(s: State): set<Slot> {
    set x | x in s.published && !ProcessedAt(s.records, x) && s.stage != Published(x)
  }

  ghost predicate Budget(s: State) {
    && |s.published| + |Exposed(s)| <= |Distinct(s.published)| + s.crashes
    && forall x :: ProcessedAt(s.records, x) ==> x in s.published
  }

  lemma {:induction false} SameExposure(s: State, s': State)
    requires Budget(s) && s'.published == s.published && s'.crashes == s.crashes
    requires forall x :: x in s.published ==>
               (!ProcessedAt(s.records, x) && s.stage != Published(x) <==>
                !ProcessedAt(s'.records, x) && s'.stage != Published(x))
    requires forall x :: ProcessedAt(s'.records, x) ==> ProcessedAt(s.records, x) || x in s.published
    ensures Budget(s')
  {
    assert Exposed(s') == Exposed(s);
  }

  lemma {:induction false} PublishCounts(s: State, s': State, x: Slot)
    requires s.stage == Stored(x) && s' == s.(stage := Published(x), published := s.published + [x])
    requires !ProcessedAt(s.records, x) && Budget(s)
    ensures Budget(s')
  {
    hide ProcessedAt;
    assert forall y :: y in s'.published <==> y in s.published || y == x;
    if x in s.published {
      assert Exposed(s') == Exposed(s) - {x} && x in Exposed(s);
      assert Distinct(s'.published) == Distinct(s.published);
    } else {
      assert Exposed(s') == Exposed(s);
      assert Distinct(s'.published) == Distinct(s.published) + {x};
    }
  }

  lemma {:induction false} PublishBudget(source: Source, s: State)
    requires Inv(source, s) && Budget(s) && Enabled(source, s, Publish)
    ensures Budget(Next(source, s, Publish))
  {
    assert !ProcessedAt(s.records, s.stage.slot);
    PublishCounts(s, Next(source, s, Publish), s.stage.slot);
  }

  lemma {:induction false} CrashBudget(source: Source, s: State)
    requires Budget(s)
    ensures Budget(Next(source, s, Crash))
  {
    var s' := Next(source, s, Crash);
    if s.stage.Published? {
      var x := s.stage.slot;
      assert x !in Exposed(s);
      assert Exposed(s') <= Exposed(s) + {x};
      Subset(Exposed(s'), Exposed(s) + {x});
    } else {
      assert Exposed(s') == Exposed(s);
    }
  }

  lemma {:induction false} Subset(a: set<Slot>, b: set<Slot>)
    requires a <= b
    ensures |a| <= |b|
  {
    assert b == a + (b - a);
  }

  /** When ids are not shared, exactly the message in flight becomes processed, and no other stops being so. */
  lemma {:induction false} SaveStatusProcessed(source: Source, s: State, status: TransactionStatus, s': State, y: Slot)
    requires OwnIds(source) && Inv(source, s) && Budget(s) && (s.stage.Stored? || s.stage.Published?)
    requires s'.records == SetStatus(s.records, CommandAt(source, s.stage.slot).transactionId, status)
    requires if status == Processed then s.stage.Published?
             else status == Refused && !IsValid(CommandAt(source, s.stage.slot), s.stage.slot)
    ensures ProcessedAt(s'.records, y) <==> ProcessedAt(s.records, y) || (y == s.stage.slot && status == Processed)
  {
    var x := s.stage.slot;
    var id := CommandAt(source, x).transactionId;
    var c := Changed(s.records, id, status);
    SetStatusLaw(s.records, id, status);
    FirstSlotLaw(s.records, id);
    var r0 :| r0 in s.records && r0.slot == x;
    assert RecordOk(source, s, r0);
    var f :| f in s.records && f.transactionId == id && f.slot == c.slot;
    assert RecordOk(source, s, f) && SameId(source, f.slot, x) && SameId(source, x, f.slot);
    if ProcessedAt(s.records, y) {
      var r :| r in s.records && r.status == Processed && r.slot == y;
      assert RecordOk(source, s, r) && Publishable(source, y) && y != x;
      assert !SameId(source, x, y);
      assert r in s'.records;
    }
  }

  lemma {:induction false} SaveBudget(source: Source, s: State, status: TransactionStatus, s': State)
    requires OwnIds(source) && Inv(source, s) && Budget(s)
    requires if status == Processed then Enabled(source, s, SaveProcessed) && s' == Next(source, s, SaveProcessed)
             else status == Refused && Enabled(source, s, SaveRejected) && s' == Next(source, s, SaveRejected)
    ensures Budget(s')
  {
    var x := s.stage.slot;
    forall y
      ensures ProcessedAt(s'.records, y) <==> ProcessedAt(s.records, y) || (y == x && status == Processed)
    {
      SaveStatusProcessed(source, s, status, s', y);
    }
    assert !ProcessedAt(s.records, x);
    assert status == Refused ==> x !in s.published;
    SameExposure(s, s');
  }

  lemma {:induction false} SaveReceivedBudget(source: Source, s: State)
    requires Budget(s) && Enabled(source, s, SaveReceived)
    ensures Budget(Next(source, s, SaveReceived))
  {
    var s' := Next(source, s, SaveReceived);
    forall x
      ensures ProcessedAt(s'.records, x) <==> ProcessedAt(s.records, x)
    {
      if ProcessedAt(s.records, x) {
        var r :| r in s.records && r.status == Processed && r.slot == x;
        assert r in s'.records;
      }
    }
    SameExposure(s, s');
  }

  lemma {:induction false} StepBudget(source: Source, s: State, a: Action)
    requires OwnIds(source) && Inv(source, s) && Budget(s) && Enabled(source, s, a)
    ensures Budget(Next(source, s, a))
  {
    hide Inv, Budget;
    match a
    case PollSkip(p) => SameExposure(s, Next(source, s, a));
    case PollCommand(p) => SameExposure(s, Next(source, s, a));
    case SaveReceived => SaveReceivedBudget(source, s);
    case SaveRejected => SaveBudget(source, s, Refused, Next(source, s, a));
    case Publish => PublishBudget(source, s);
    case SaveProcessed => SaveBudget(source, s, Processed, Next(source, s, a));
    case CommitSkip => SameExposure(s, Next(source, s, a));
    case Commit => SameExposure(s, Next(source, s, a));
    case Crash => CrashBudget(source, s);
  }

  lemma {:induction false} RunBudget(source: Source, s: State, actions: seq<Action>)
    requires OwnIds(source) && Inv(source, s) && Budget(s) && Runnable(source, s, actions)
    ensures Budget(Run(source, s, actions))
    decreases |actions|
  {
    hide Inv, Budget;
    if actions != [] {
      StepKeeps(source, s, actions[0]);
      StepBudget(source, s, actions[0]);
      RunBudget(source, Next(source, s, actions[0]), actions[1..]);
    }
  }

  /** In every run, publications exceed the distinct messages published by at most one for each crash. */
  lemma {:induction false} RepublicationsAreBounded(source: Source, actions: seq<Action>)
    requires OwnIds(source) && Runnable(source, Start(source), actions)
    ensures var s := Run(source, Start(source), actions);
            |s.published| <= |Distinct(s.published)| + s.crashes
  {
    StartOk(source);
    assert Exposed(Start(source)) == {};
    RunBudget(source, Start(source), actions);
  }
}
