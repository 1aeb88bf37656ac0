/**
 Ingestion and recovery as a protocol: poll, save_received, publish, save_processed, commit, with a crash possible
 between any two steps, after which the consumer resumes where the durable records say.
 */
module Ingestion {
  import opened Types

  datatype Partition = Partition(topic: Name, index: int)

  datatype Slot = Slot(partition: Partition, offset: int)

  datatype Command = Command(
    transactionId: Name,
    accountId: Name,
    commandType: Name,
    instrumentSymbol: Name,
    quantity: real)

  /** A message as the consumer reads it: a command, or a payload it cannot parse. */
  datatype Message = Malformed | Parsed(command: Command)

  datatype TransactionStatus = Received | Processed | Refused

  datatype TransactionRecord = TransactionRecord(transactionId: Name, status: TransactionStatus, slot: Slot)

  /** The topic the consumer reads and what Kafka holds; offsets are positions in a partition. */
  datatype Source = Source(topic: Name, log: map<Partition, seq<Message>>)

  predicate Exists(source: Source, x: Slot) {
    x.partition in source.log && 0 <= x.offset < |source.log[x.partition]|
  }

  /** The consumer commits and skips messages of other topics and messages it cannot parse. */
  predicate Skippable(source: Source, x: Slot)
    requires Exists(source, x)
  {
    x.partition.topic != source.topic || source.log[x.partition][x.offset].Malformed?
  }

  function CommandAt(source: Source, x: Slot): Command
    requires Exists(source, x) && !Skippable(source, x)
  {
    source.log[x.partition][x.offset].command
  }

  predicate IsValid(c: Command, x: Slot) {
    && c.transactionId != Empty && x.partition.topic != Empty && x.offset >= 0
    && c.accountId != Empty && c.commandType != Empty && c.instrumentSymbol != Empty
    && c.quantity > 0.0
  }

  // ---------- Durable records ----------

  /** Overwrites the status of the first record with this id, or adds a record without a place in Kafka. */
  function SetStatus(records: seq<TransactionRecord>, id: Name, status: TransactionStatus): seq<TransactionRecord> {
    if records == [] then [TransactionRecord(id, status, Slot(Partition(Empty, 0), 0))]
    else if records[0].transactionId == id then [records[0].(status := status)] + records[1..]
    else [records[0]] + SetStatus(records[1..], id, status)
  }

  /** The greatest processed offset of a partition, scanning the records from `best` on. */
  function CheckpointFrom(best: Option<int>, records: seq<TransactionRecord>, p: Partition): Option<int>
    decreases |records|
  {
    if records == [] then best
    else
      var r := records[0];
      var better := r.status == Processed && r.slot.partition == p && (best.None? || r.slot.offset > best.value);
      CheckpointFrom(if better then Some(r.slot.offset) else best, records[1..], p)
  }

  function Checkpoint(records: seq<TransactionRecord>, p: Partition): Option<int> {
    CheckpointFrom(None, records, p)
  }

  /** Where the consumer resumes: behind the checkpoint, or else at the committed offset, or else at the start. */
  function Resume(records: seq<TransactionRecord>, committed: map<Partition, int>, p: Partition): int {
    var checkpoint := Checkpoint(records, p);
    if checkpoint.Some? then checkpoint.value + 1
    else if p in committed then committed[p]
    else 0
  }

  // ---------- The protocol ----------

  /** How far the message in flight has come. */
  datatype Stage =
    | Idle
    | Skipping(slot: Slot)
    | Polled(slot: Slot)
    | Stored(slot: Slot)
    | Published(slot: Slot)
    | Settled(slot: Slot)

  /**
   `records` and `committed` are durable; `position` and `stage` are lost in a crash; the rest is history:
   every publication in order, the commands recorded as rejected, and how often the process crashed.
   */
  datatype State = State(
    records: seq<TransactionRecord>,
    committed: map<Partition, int>,
    position: map<Partition, int>,
    stage: Stage,
    published: seq<Slot>,
    rejected: set<Slot>,
    crashes: nat)

  datatype Action =
    | PollSkip(partition: Partition)
    | CommitSkip
    | PollCommand(partition: Partition)
    | SaveReceived
    | SaveRejected
    | Publish
    | SaveProcessed
    | Commit
    | Crash

  predicate CanPoll(source: Source, s: State, p: Partition) {
    s.stage.Idle? && p in source.log && p in s.position && Exists(source, Slot(p, s.position[p]))
  }

  predicate Enabled(source: Source, s: State, a: Action) {
    match a
    case PollSkip(p) => CanPoll(source, s, p) && Skippable(source, Slot(p, s.position[p]))
    case CommitSkip => s.stage.Skipping?
    case PollCommand(p) => CanPoll(source, s, p) && !Skippable(source, Slot(p, s.position[p]))
    case SaveReceived => s.stage.Polled? && Exists(source, s.stage.slot) && !Skippable(source, s.stage.slot)
    case SaveRejected =>
      && s.stage.Stored? && Exists(source, s.stage.slot) && !Skippable(source, s.stage.slot)
      && !IsValid(CommandAt(source, s.stage.slot), s.stage.slot)
    case Publish =>
      && s.stage.Stored? && Exists(source, s.stage.slot) && !Skippable(source, s.stage.slot)
      && IsValid(CommandAt(source, s.stage.slot), s.stage.slot)
    case SaveProcessed => s.stage.Published? && Exists(source, s.stage.slot) && !Skippable(source, s.stage.slot)
    case Commit => s.stage.Settled?
    case Crash => true
  }

  function Next(source: Source, s: State, a: Action): State
    requires Enabled(source, s, a)
  {
    match a
    case PollSkip(p) =>
      s.(stage := Skipping(Slot(p, s.position[p])), position := s.position[p := s.position[p] + 1])
    case PollCommand(p) =>
      s.(stage := Polled(Slot(p, s.position[p])), position := s.position[p := s.position[p] + 1])
    case SaveReceived =>
      var x := s.stage.slot;
      s.(stage := Stored(x),
         records := s.records + [TransactionRecord(CommandAt(source, x).transactionId, Received, x)])
    case SaveRejected =>
      var x := s.stage.slot;
      s.(stage := Settled(x), records := SetStatus(s.records, CommandAt(source, x).transactionId, Refused),
         rejected := s.rejected + {x})
    case Publish => s.(stage := Published(s.stage.slot), published := s.published + [s.stage.slot])
    case SaveProcessed =>
      var x := s.stage.slot;
      s.(stage := Settled(x), records := SetStatus(s.records, CommandAt(source, x).transactionId, Processed))
    case CommitSkip =>
      s.(stage := Idle, committed := s.committed[s.stage.slot.partition := s.stage.slot.offset + 1])
    case Commit =>
      s.(stage := Idle, committed := s.committed[s.stage.slot.partition := s.stage.slot.offset + 1])
    case Crash =>
      s.(stage := Idle, position := map p | p in source.log :: Resume(s.records, s.committed, p),
         crashes := s.crashes + 1)
  }

  function Start(source: Source): State {
    State([], map[], map p | p in source.log :: 0, Idle, [], {}, 0)
  }

  predicate Runnable(source: Source, s: State, actions: seq<Action>)
    decreases |actions|
  {
    actions != [] ==> Enabled(source, s, actions[0]) && Runnable(source, Next(source, s, actions[0]), actions[1..])
  }

  function Run(source: Source, s: State, actions: seq<Action>): State
    requires Runnable(source, s, actions)
    decreases |actions|
  {
    if actions == [] then s else Run(source, Next(source, s, actions[0]), actions[1..])
  }
}
