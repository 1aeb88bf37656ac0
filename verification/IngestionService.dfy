/**
 The objects behind the protocol: the transaction repository, the Kafka consumer, the ingestor and the recovery
 service.
 */
module IngestionService {
  import opened Types
  import opened Ingestion
  import opened IngestionLaws

  // ---------- The transaction repository ----------

  /** Setting a status is an update at the first record with the id, or an append when there is none. */
  lemma {:induction false} SetStatusAt(records: seq<TransactionRecord>, id: Name, status: TransactionStatus, j: nat)
    requires j <= |records| && forall i :: 0 <= i < j ==> records[i].transactionId != id
    requires j < |records| ==> records[j].transactionId == id
    ensures SetStatus(records, id, status) ==
            if j < |records| then records[j := records[j].(status := status)]
            else records + [TransactionRecord(id, status, Slot(Partition(Empty, 0), 0))]
  {
    if j > 0 {
      SetStatusAt(records[1..], id, status, j - 1);
      assert records == [records[0]] + records[1..];
    }
  }

  class TransactionRepository {
    var records: seq<TransactionRecord>
    var checkpoints: seq<Slot>

    constructor ()
      ensures records == [] && checkpoints == []
    {
      records, checkpoints := [], [];
    }

    method SaveReceived(transactionId: Name, slot: Slot)
      modifies this`records
      ensures records == old(records) + [TransactionRecord(transactionId, Received, slot)]
    {
      records := records + [TransactionRecord(transactionId, Received, slot)];
    }

    method SaveProcessed(transactionId: Name, status: TransactionStatus)
      modifies this`records
      ensures records == SetStatus(old(records), transactionId, status)
    {
      hide SetStatus;
      var i := 0;
      while i < |records| && records[i].transactionId != transactionId
        invariant 0 <= i <= |records|
        invariant forall k :: 0 <= k < i ==> records[k].transactionId != transactionId
      {
        i := i + 1;
      }
      SetStatusAt(records, transactionId, status, i);
      if i < |records| {
        records := records[i := records[i].(status := status)];
      } else {
        records := records + [TransactionRecord(transactionId, status, Slot(Partition(Empty, 0), 0))];
      }
    }
  }

  // ---------- The Kafka client ----------

  /** Messages the client has not handed out yet. */
  ghost function Unread(source: Source, position: map<Partition, int>): set<Slot> {
    set p, o | p in source.log && p in position && position[p] <= o < |source.log[p]| :: Slot(p, o)
  }

  predicate HasNext(source: Source, position: map<Partition, int>, p: Partition) {
    p in source.log && p in position && Exists(source, Slot(p, position[p]))
  }

  /** Where a consumer starts: each partition at its committed offset, or else at the beginning. */
  function Subscribed(source: Source, committed: map<Partition, int>): map<Partition, int> {
    map p | p in source.log :: if p in committed then committed[p] else 0
  }

  /** Hands out the messages of each partition in order; which partition comes next is left open. */
  class KafkaClient {
    const source: Source
    var position: map<Partition, int>
    var committed: map<Partition, int>

    constructor (source: Source)
      ensures this.source == source
      ensures position == Start(source).position && committed == Start(source).committed
    {
      this.source := source;
      position, committed := map p | p in source.log :: 0, map[];
    }

    method Poll() returns (slot: Option<Slot>)
      modifies this`position
      ensures slot.None? ==> position == old(position) && forall p :: !HasNext(source, position, p)
      ensures slot.Some? ==>
                var p := slot.value.partition;
                && HasNext(source, old(position), p)
                && slot.value.offset == old(position)[p]
                && position == old(position)[p := old(position)[p] + 1]
                && Unread(source, position) < Unread(source, old(position))
    {
      if p :| p in position.Keys && HasNext(source, position, p) {
        slot := Some(Slot(p, position[p]));
        ghost var before := Unread(source, position);
        position := position[p := position[p] + 1];
        assert slot.value in before && slot.value !in Unread(source, position);
        assert forall x :: x in Unread(source, position) ==> x in before;
      } else {
        slot := None;
      }
    }

    method Commit(slot: Slot)
      modifies this`committed
      ensures committed == old(committed)[slot.partition := slot.offset + 1]
    {
      committed := committed[slot.partition := slot.offset + 1];
    }

    method Seek(p: Partition, offset: int)
      modifies this`position
      ensures position == old(position)[p := offset]
    {
      position := position[p := offset];
    }

    /** A new consumer process. */
    method Subscribe()
      modifies this`position
      ensures position == Subscribed(source, committed)
    {
      position := Subscribed(source, committed);
    }
  }

  // ---------- The consumer ----------

  /** Actions of an undisturbed process. */
  ghost predicate NoCrash(trace: seq<Action>) {
    forall a :: a in trace ==> a != Crash
  }

  /** The state `s'` is reached from `s` by `trace`, without a crash. */
  ghost predicate Reaches(source: Source, s: State, trace: seq<Action>, s': State) {
    match s'
    case State(_, _, _, _, _, _, _) => Leads(source, s, trace, s') && NoCrash(trace)
  }

  lemma {:induction false} ReachesStep(source: Source, s: State, trace: seq<Action>, s': State, a: Action)
    requires Reaches(source, s, trace, s') && Enabled(source, s', a) && a != Crash
    ensures Reaches(source, s, trace + [a], Next(source, s', a))
  {
    LeadsStep(source, s, trace, s', a);
  }

  lemma {:induction false} ReachesItself(source: Source, s: State)
    ensures Reaches(source, s, [], s)
  {
    LeadsItself(source, s);
  }

  /** A consumer's state with everything else taken from `s`. */
  ghost function With(s: State, position: map<Partition, int>, committed: map<Partition, int>, stage: Stage): State {
    s.(position := position, committed := committed, stage := stage)
  }

  class KafkaTransactionConsumer {
    const client: KafkaClient

    constructor (client: KafkaClient)
      ensures this.client == client
    {
      this.client := client;
    }

    /**
     Commits and skips messages that are no commands, up to the next command or the end of all partitions; `s` is any
     state around this consumer, and `trace` are the protocol steps taken from it.
     */
    method Poll(ghost s: State) returns (slot: Option<Slot>, ghost trace: seq<Action>)
      requires s.stage == Idle && s.position == client.position && s.committed == client.committed
      modifies client
      ensures slot.Some? ==> Exists(client.source, slot.value) && !Skippable(client.source, slot.value)
      ensures slot.None? ==> forall p :: !HasNext(client.source, client.position, p)
      ensures Reaches(client.source, s, trace,
                      With(s, client.position, client.committed, if slot.Some? then Polled(slot.value) else Idle))
    {
      hide Reaches, Unread;
      trace := [];
      ReachesItself(client.source, s);
      while true
        invariant Reaches(client.source, s, trace, With(s, client.position, client.committed, Idle))
        decreases Unread(client.source, client.position)
      {
        ghost var now := With(s, client.position, client.committed, Idle);
        slot := client.Poll();
        if slot.None? {
          return;
        }
        var x := slot.value;
        if x.partition.topic == client.source.topic && client.source.log[x.partition][x.offset].Parsed? {
          ReachesStep(client.source, s, trace, now, PollCommand(x.partition));
          trace := trace + [PollCommand(x.partition)];
          return;
        }
        ReachesStep(client.source, s, trace, now, PollSkip(x.partition));
        trace := trace + [PollSkip(x.partition)];
        now := With(s, client.position, client.committed, Skipping(x));
        client.Commit(x);
        ReachesStep(client.source, s, trace, now, CommitSkip);
        trace := trace + [CommitSkip];
      }
    }

    method Commit(slot: Slot)
      modifies client`committed
      ensures client.committed == old(client.committed)[slot.partition := slot.offset + 1]
    {
      client.Commit(slot);
    }
  }

  // ---------- The ingestor ----------

  class TransactionIngestor {
    const consumer: KafkaTransactionConsumer
    const repository: TransactionRepository
    var published: seq<Slot>
    ghost var rejected: set<Slot>
    ghost var crashes: nat
    ghost var stage: Stage

    ghost function View(): State
      reads this, consumer.client, repository
    {
      State(repository.records, consumer.client.committed, consumer.client.position, stage, published, rejected,
            crashes)
    }

    constructor (source: Source)
      ensures fresh(consumer.client) && fresh(repository)
      ensures consumer.client.source == source && View() == Start(source) && repository.checkpoints == []
    {
      var client := new KafkaClient(source);
      consumer := new KafkaTransactionConsumer(client);
      repository := new TransactionRepository();
      published, rejected, crashes, stage := [], {}, 0, Idle;
    }

    /** Receipt is persisted before anything else happens. */
    method StoreReceived(command: Command, x: Slot)
      requires Enabled(consumer.client.source, View(), SaveReceived)
      requires x == stage.slot && command == CommandAt(consumer.client.source, x)
      modifies this`stage, repository`records
      ensures View() == Next(consumer.client.source, old(View()), SaveReceived)
    {
      repository.SaveReceived(command.transactionId, x);
      stage := Stored(x);
    }

    method Reject(command: Command, x: Slot)
      requires Enabled(consumer.client.source, View(), SaveRejected)
      requires x == stage.slot && command == CommandAt(consumer.client.source, x)
      modifies this`stage, this`rejected, repository`records
      ensures View() == Next(consumer.client.source, old(View()), SaveRejected)
    {
      hide SetStatus;
      repository.SaveProcessed(command.transactionId, Refused);
      stage, rejected := Settled(x), rejected + {x};
    }

    method Dispatch(x: Slot)
      requires Enabled(consumer.client.source, View(), Publish) && x == stage.slot
      modifies this`stage, this`published
      ensures View() == Next(consumer.client.source, old(View()), Publish)
    {
      published, stage := published + [x], Published(x);
    }

    method StoreProcessed(command: Command, x: Slot)
      requires Enabled(consumer.client.source, View(), SaveProcessed)
      requires x == stage.slot && command == CommandAt(consumer.client.source, x)
      modifies this`stage, repository`records
      ensures View() == Next(consumer.client.source, old(View()), SaveProcessed)
    {
      hide SetStatus;
      repository.SaveProcessed(command.transactionId, Processed);
      stage := Settled(x);
    }

    method CommitOffset(x: Slot)
      requires Enabled(consumer.client.source, View(), Commit) && x == stage.slot
      modifies this`stage, consumer.client`committed
      ensures View() == Next(consumer.client.source, old(View()), Commit)
    {
      consumer.Commit(x);
      stage := Idle;
    }

    /**
     One message: every effect on the client, the repository and the dispatcher is the next step of the protocol, in
     this order, so a crash between two effects is a crash between two steps of `trace`.
     */
    method ProcessNext() returns (found: bool, ghost slot: Option<Slot>, ghost trace: seq<Action>)
      requires stage == Idle
      modifies this, consumer.client, repository`records
      ensures stage == Idle && Reaches(consumer.client.source, old(View()), trace, View())
      ensures found == slot.Some?
      ensures slot.None? ==> forall p :: !HasNext(consumer.client.source, consumer.client.position, p)
      ensures slot.None? ==> published == old(published) && rejected == old(rejected)
      ensures slot.Some? ==>
                && Exists(consumer.client.source, slot.value) && !Skippable(consumer.client.source, slot.value)
                && if IsValid(CommandAt(consumer.client.source, slot.value), slot.value)
                   then published == old(published) + [slot.value] && rejected == old(rejected)
                   else published == old(published) && rejected == old(rejected) + {slot.value}
    {
      hide Reaches, SetStatus, IsValid;
      ghost var start := View();
      ghost var source := consumer.client.source;
      var next;
      next, trace := consumer.Poll(start);
      slot, found := next, next.Some?;
      if next.None? {
        return;
      }
      var x := next.value;
      var command := CommandAt(consumer.client.source, x);
      stage := Polled(x);

      ReachesStep(source, start, trace, View(), SaveReceived);
      trace := trace + [SaveReceived];
      StoreReceived(command, x);

      if !IsValid(command, x) {
        ReachesStep(source, start, trace, View(), SaveRejected);
        trace := trace + [SaveRejected];
        Reject(command, x);
      } else {
        ReachesStep(source, start, trace, View(), Publish);
        trace := trace + [Publish];
        Dispatch(x);
        ReachesStep(source, start, trace, View(), SaveProcessed);
        trace := trace + [SaveProcessed];
        StoreProcessed(command, x);
      }

      ReachesStep(source, start, trace, View(), Commit);
      trace := trace + [Commit];
      CommitOffset(x);
    }

    /**
     A new process: the consumer subscribes, and recovery seeks behind the checkpoints.  Without stored checkpoints this
     is the protocol's crash step; with them, they alone decide for their partitions.
     */
    method Restart()
      modifies this`stage, this`crashes, consumer.client`position
      ensures View() == old(View()).(stage := Idle, crashes := old(crashes) + 1, position := consumer.client.position)
      ensures repository.checkpoints == [] && RecordsPlaced(consumer.client.source, repository.records) ==>
                View() == Next(consumer.client.source, old(View()), Crash)
      ensures repository.checkpoints != [] ==>
                Sought(Subscribed(consumer.client.source, consumer.client.committed), repository.checkpoints,
                       consumer.client.position)
    {
      consumer.client.Subscribe();
      var found := Recover(repository.records, repository.checkpoints);
      ResumeKafka(found, consumer.client);
      if repository.checkpoints == [] && RecordsPlaced(consumer.client.source, repository.records) {
        RecoveredPosition(consumer.client.source, repository.records, consumer.client.committed, found,
                          consumer.client.position);
      }
      stage, crashes := Idle, crashes + 1;
    }
  }

  // ---------- Recovery ----------

  function OffsetIn(best: map<Partition, int>, p: Partition): Option<int> {
    if p in best then Some(best[p]) else None
  }

  /** The entries of a map, in some order. */
  method Entries(best: map<Partition, int>) returns (found: seq<Slot>)
    ensures forall c :: c in found <==> OffsetIn(best, c.partition) == Some(c.offset)
    ensures forall i, j :: 0 <= i < j < |found| ==> found[i].partition != found[j].partition
  {
    found := [];
    var rest := best;
    while rest != map[]
      invariant forall p :: p in rest ==> p in best && rest[p] == best[p]
      invariant forall c :: c in found <==> c.partition !in rest && OffsetIn(best, c.partition) == Some(c.offset)
      invariant forall i, j :: 0 <= i < j < |found| ==> found[i].partition != found[j].partition
      decreases rest.Keys
    {
      var p :| p in rest;
      ghost var before := found;
      found := found + [Slot(p, rest[p])];
      rest := rest - {p};
      assert forall c :: c in found <==> c in before || c == Slot(p, best[p]);
    }
  }

  /** The checkpoints that recovery hands out: stored ones if there are any, or else those of the processed records. */
  method Recover(records: seq<TransactionRecord>, explicit: seq<Slot>) returns (found: seq<Slot>)
    ensures explicit != [] ==> found == explicit
    ensures explicit == [] ==> forall c :: c in found <==> Checkpoint(records, c.partition) == Some(c.offset)
    ensures explicit == [] ==> forall i, j :: 0 <= i < j < |found| ==> found[i].partition != found[j].partition
  {
    var best: map<Partition, int> := map[];
    assert records[0..] == records;
    for i := 0 to |records|
      invariant explicit == [] ==>
                  forall p :: CheckpointFrom(OffsetIn(best, p), records[i..], p) == Checkpoint(records, p)
    {
      var r := records[i];
      if explicit == [] {
        assert records[i..][0] == r && records[i..][1..] == records[i + 1..];
        ghost var before := best;
        if r.status == Processed {
          if r.slot.partition !in best || r.slot.offset > best[r.slot.partition] {
            best := best[r.slot.partition := r.slot.offset];
          }
        }
        forall p
          ensures CheckpointFrom(OffsetIn(best, p), records[i + 1..], p) == Checkpoint(records, p)
        {
          assert CheckpointFrom(OffsetIn(before, p), records[i..], p) == Checkpoint(records, p);
        }
      }
    }
    if explicit != [] {
      found := explicit;
    } else {
      found := Entries(best);
    }
  }

  /** Every processed record names a partition that exists. */
  ghost predicate RecordsPlaced(source: Source, records: seq<TransactionRecord>) {
    forall r :: r in records && r.status == Processed ==> r.slot.partition in source.log
  }

  /** `position'` is `position` with each checkpointed partition one behind its last checkpoint. */
  ghost predicate Sought(position: map<Partition, int>, checkpoints: seq<Slot>, position': map<Partition, int>) {
    && position'.Keys == position.Keys + Partitions(checkpoints)
    && (forall i :: 0 <= i < |checkpoints| && IsLast(checkpoints, i) ==>
          position'[checkpoints[i].partition] == checkpoints[i].offset + 1)
    && (forall p :: p in position && p !in Partitions(checkpoints) ==> position'[p] == position[p])
  }

  ghost function Partitions(checkpoints: seq<Slot>): set<Partition> {
    set c | c in checkpoints :: c.partition
  }

  ghost predicate IsLast(checkpoints: seq<Slot>, i: nat)
    requires i < |checkpoints|
  {
    forall j :: i < j < |checkpoints| ==> checkpoints[j].partition != checkpoints[i].partition
  }

  /** Positions taken from the committed offsets and moved behind the checkpoints are the ones to resume from. */
  lemma {:induction false} RecoveredPosition(
      source: Source, records: seq<TransactionRecord>, committed: map<Partition, int>, found: seq<Slot>,
        position: map<Partition, int>)
    requires forall c :: c in found <==> Checkpoint(records, c.partition) == Some(c.offset)
    requires forall i, j :: 0 <= i < j < |found| ==> found[i].partition != found[j].partition
    requires RecordsPlaced(source, records)
    requires Sought(Subscribed(source, committed), found, position)
    ensures position == map p | p in source.log :: Resume(records, committed, p)
  {
    forall c | c in found
      ensures c.partition in source.log
    {
      CheckpointLaw(records, c.partition);
    }
    forall p | p in source.log
      ensures p in position && position[p] == Resume(records, committed, p)
    {
      var checkpoint := Checkpoint(records, p);
      if checkpoint.Some? {
        var c := Slot(p, checkpoint.value);
        assert c in found;
        var i :| 0 <= i < |found| && found[i] == c;
        assert IsLast(found, i);
      } else {
        assert p !in Partitions(found);
      }
    }
  }

  /** A record for every command in flight, and every record at a place that exists. */
  ghost predicate Placed(source: Source, s: State) {
    && (forall r :: r in s.records ==> Exists(source, r.slot))
    && (s.stage.Stored? || s.stage.Published? ==>
          IsCommand(source, s.stage.slot) && FirstSlot(s.records, CommandAt(source, s.stage.slot).transactionId).Some?)
  }

  lemma {:induction false} StepKeepsPlaced(source: Source, s: State, a: Action)
    requires Placed(source, s) && Enabled(source, s, a)
    ensures Placed(source, Next(source, s, a))
  {
    var s' := Next(source, s, a);
    if a.SaveReceived? {
      var id := CommandAt(source, s.stage.slot).transactionId;
      FirstSlotAppend(s.records, TransactionRecord(id, Received, s.stage.slot), id);
    } else if a.SaveRejected? || a.SaveProcessed? {
      var id := CommandAt(source, s.stage.slot).transactionId;
      FirstSlotLaw(s.records, id);
      SetStatusLaw(s.records, id, if a.SaveProcessed? then Processed else Refused);
    }
  }

  lemma {:induction false} RunKeepsPlaced(source: Source, s: State, actions: seq<Action>)
    requires Placed(source, s) && Runnable(source, s, actions)
    ensures Placed(source, Run(source, s, actions))
    decreases |actions|
  {
    hide Placed, Next;
    if actions != [] {
      StepKeepsPlaced(source, s, actions[0]);
      RunKeepsPlaced(source, Next(source, s, actions[0]), actions[1..]);
    }
  }

  /** In every run, for every source, the records are placed as a restart needs them. */
  lemma {:induction false} RestartApplies(source: Source, actions: seq<Action>)
    requires Runnable(source, Start(source), actions)
    ensures RecordsPlaced(source, Run(source, Start(source), actions).records)
  {
    RunKeepsPlaced(source, Start(source), actions);
  }

  /** Each checkpointed partition resumes one behind its last checkpoint; the others stay where they are. */
  method ResumeKafka(checkpoints: seq<Slot>, client: KafkaClient)
    modifies client`position
    ensures Sought(old(client.position), checkpoints, client.position)
  {
    for i := 0 to |checkpoints|
      invariant Sought(old(client.position), checkpoints[..i], client.position)
    {
      ghost var before := client.position;
      client.Seek(checkpoints[i].partition, checkpoints[i].offset + 1);
      SoughtNext(old(client.position), checkpoints[..i], checkpoints[i], before);
      assert checkpoints[..i + 1] == checkpoints[..i] + [checkpoints[i]];
    }
    assert checkpoints[..|checkpoints|] == checkpoints;
  }

  lemma {:induction false} SoughtNext(position: map<Partition, int>, done: seq<Slot>, c: Slot, before: map<Partition,
                                      int>)
    requires Sought(position, done, before)
    ensures Sought(position, done + [c], before[c.partition := c.offset + 1])
  {
    var more := done + [c];
    assert Partitions(more) == Partitions(done) + {c.partition};
    hide Partitions;
    var after := before[c.partition := c.offset + 1];
    forall k | 0 <= k < |more| && IsLast(more, k)
      ensures more[k].partition in after && after[more[k].partition] == more[k].offset + 1
    {
      if k < |done| {
        assert more[|done|] == c && more[k] == done[k];
        assert IsLast(done, k) by {
          assert forall j :: k < j < |done| ==> done[j] == more[j];
        }
      }
    }
  }
}
