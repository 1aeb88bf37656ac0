/**
 From payload text to the protocol: the source that ingestion reads holds what the consumer's parser makes of the raw
 messages, so the round trip of the payload and the crash safety of the protocol join into one statement about
 producers.
 */
module KafkaSource {
  import opened Types
  import opened Text
  import opened KafkaCodec
  import opened Ingestion
  import opened IngestionLaws
  import opened IngestionLosses

  datatype RawPartition = RawPartition(topic: string, index: int)

  /** Which name stands for a string. */
  datatype Naming = Naming(of: string -> Name)

  /** A numbering of strings, one to one, with the empty string as the empty name. */
  ghost predicate Numbering(name: Naming) {
    name.of("") == Empty && forall a, b :: name.of(a) == name.of(b) ==> a == b
  }

  /** More than the greatest character code. */
  const BASE: nat := 0x11_0001

  /** Strings as numbers in that base; no digit is 0, so leading ones are not lost. */
  function Code(text: string): nat {
    if text == "" then 0 else text[0] as int + 1 + BASE * Code(text[1..])
  }

  lemma {:induction false} CodesDiffer(a: string, b: string)
    requires Code(a) == Code(b)
    ensures a == b
  {
    if a != "" && b != "" {
      var m, n := Code(a[1..]), Code(b[1..]);
      assert a[0] as int + BASE * m == b[0] as int + BASE * n;
      assert m == n && a[0] == b[0];
      CodesDiffer(a[1..], b[1..]);
      assert a == [a[0]] + a[1..] && b == [b[0]] + b[1..];
    }
  }

  function NameOf(text: string): Name {
    if text == "" then Empty else Other(Code(text))
  }

  /** There is such a numbering. */
  lemma {:induction false} NamesAreNumbered()
    ensures Numbering(Naming(NameOf))
  {
    forall a, b | NameOf(a) == NameOf(b)
      ensures a == b
    {
      if a != "" && b != "" {
        CodesDiffer(a, b);
      }
    }
  }

  function PartitionOf(name: Naming, p: RawPartition): Partition {
    Partition(name.of(p.topic), p.index)
  }

  function CommandOf(name: Naming, c: TransactionCommand): Command {
    Command(name.of(c.transactionId), name.of(c.accountId), name.of(c.commandType), name.of(c.instrumentSymbol),
            c.quantity)
  }

  /** What the protocol sees of one raw message. */
  function MessageOf(fmt: NumberFormat, name: Naming, m: RawMessage): Message {
    var c := Parse(fmt, m);
    if c.None? then Malformed else Parsed(CommandOf(name, c.value))
  }

  /** The source holds the parsed messages of the raw log. */
  ghost predicate Reads(fmt: NumberFormat, name: Naming, topic: string, raw: map<RawPartition, seq<string>>,
                        source: Source) {
    && source.topic == name.of(topic)
    && (forall p :: p in raw ==>
        PartitionOf(name, p) in source.log && ReadsPartition(fmt, name, p, raw[p], source.log[PartitionOf(name, p)]))
    && (forall q :: q in source.log ==> exists p :: p in raw && PartitionOf(name, p) == q)
  }

  ghost predicate ReadsPartition(fmt: NumberFormat, name: Naming, p: RawPartition, payloads: seq<string>,
                                 messages: seq<Message>) {
    && |messages| == |payloads|
    && forall o :: 0 <= o < |payloads| ==>
      messages[o] == MessageOf(fmt, name, RawMessage(p.topic, p.index, o, payloads[o]))
  }

  function MessagesOf(fmt: NumberFormat, name: Naming, p: RawPartition, payloads: seq<string>): seq<Message> {
    seq(|payloads|, o requires 0 <= o < |payloads| =>
      MessageOf(fmt, name, RawMessage(p.topic, p.index, o, payloads[o])))
  }

  /** Every raw log is read as some source. */
  lemma {:induction false} SomeSourceReads(fmt: NumberFormat, name: Naming, topic: string,
                                           raw: map<RawPartition, seq<string>>) returns (source: Source)
    requires Numbering(name)
    ensures Reads(fmt, name, topic, raw, source)
  {
    hide MessageOf;
    source := Source(name.of(topic), map p | p in raw :: PartitionOf(name, p) := MessagesOf(fmt, name, p, raw[p]));
    forall p | p in raw
      ensures PartitionOf(name, p) in source.log && source.log[PartitionOf(name, p)] == MessagesOf(fmt, name, p, raw[p])
    {
    }
  }

  /** The raw log holds the payloads of these commands, all of which survive their text. */
  ghost predicate Publishes(fmt: NumberFormat, produced: map<RawPartition, seq<TransactionCommand>>,
                            raw: map<RawPartition, seq<string>>) {
    && raw.Keys == produced.Keys
    && forall p :: p in produced ==>
         && |raw[p]| == |produced[p]|
         && forall o :: 0 <= o < |produced[p]| ==>
              && raw[p][o] == Serialize(fmt, produced[p][o])
              && Clean(produced[p][o]) && ExactNumbers(fmt, produced[p][o])
  }

  /** A command at a place in a produced log. */
  ghost predicate IsProduced(produced: map<RawPartition, seq<TransactionCommand>>, p: RawPartition, o: int) {
    p in produced && 0 <= o < |produced[p]|
  }

  /** What the ingestor requires of a command, apart from its place. */
  predicate Complete(c: TransactionCommand) {
    && c.transactionId != "" && c.accountId != "" && c.commandType != "" && c.instrumentSymbol != "" && c.quantity > 0.0
  }

  /** Ingestion of a topic sees exactly the produced commands of that topic, with their fields. */
  lemma {:induction false} ReadsProduced(fmt: NumberFormat, name: Naming, topic: string,
                                         produced: map<RawPartition, seq<TransactionCommand>>,
                                         raw: map<RawPartition, seq<string>>, source: Source, p: RawPartition, o: int)
    requires Numbering(name) && Reads(fmt, name, topic, raw, source) && Publishes(fmt, produced, raw) &&
             IsProduced(produced, p, o)
    ensures var x := Slot(PartitionOf(name, p), o);
            && Exists(source, x)
            && (IsCommand(source, x) <==> p.topic == topic)
            && (p.topic == topic ==>
                  && CommandAt(source, x) == CommandOf(name, produced[p][o])
                  && (IsValid(CommandAt(source, x), x) <==> topic != "" && Complete(produced[p][o])))
  {
    var c := produced[p][o];
    RoundTrip(fmt, c, RawMessage(p.topic, p.index, o, raw[p][o]));
    hide Parse, Serialize, Clean, ExactNumbers;
    assert ReadsPartition(fmt, name, p, raw[p], source.log[PartitionOf(name, p)]);
  }

  /** Conversely, every command the protocol sees was produced. */
  lemma {:induction false} ReadIsProduced(fmt: NumberFormat, name: Naming, topic: string,
                                          produced: map<RawPartition, seq<TransactionCommand>>,
                                          raw: map<RawPartition, seq<string>>, source: Source,
                                            x: Slot) returns (p: RawPartition)
    requires Numbering(name) && Reads(fmt, name, topic, raw, source) && Publishes(fmt, produced, raw) &&
             IsCommand(source, x)
    ensures PartitionOf(name, p) == x.partition && p.topic == topic && IsProduced(produced, p, x.offset)
  {
    hide Parse, Serialize, Clean, ExactNumbers;
    p :| p in raw && PartitionOf(name, p) == x.partition;
    assert ReadsPartition(fmt, name, p, raw[p], source.log[PartitionOf(name, p)]);
  }

  /** No two partitions of the topic hold the same transaction id, one of the two commands being complete. */
  ghost predicate IdsSeparated(topic: string, produced: map<RawPartition, seq<TransactionCommand>>) {
    topic != "" ==>
      forall p, o, q, k :: ProducedAlike(topic, produced, p, o, q, k) && Complete(produced[q][k]) ==> p == q
  }

  ghost predicate ProducedAlike(topic: string, produced: map<RawPartition, seq<TransactionCommand>>, p: RawPartition,
                                o: int, q: RawPartition, k: int) {
    && IsProduced(produced, p, o) && IsProduced(produced, q, k) && p.topic == topic && q.topic == topic
    && produced[p][o].transactionId == produced[q][k].transactionId
  }

  lemma {:induction false} SeparatedIffProduced(fmt: NumberFormat, name: Naming, topic: string,
                                                produced: map<RawPartition, seq<TransactionCommand>>,
                                                raw: map<RawPartition, seq<string>>, source: Source)
    requires Numbering(name) && Reads(fmt, name, topic, raw, source) && Publishes(fmt, produced, raw)
    ensures Separated(source) <==> IdsSeparated(topic, produced)
  {
    hide Reads, Publishes, Exists, Skippable, IsValid, Complete;
    if IdsSeparated(topic, produced) {
      forall x, y | SameId(source, x, y) && IsValid(CommandAt(source, y), y)
        ensures x.partition == y.partition
      {
        var p := ReadIsProduced(fmt, name, topic, produced, raw, source, x);
        var q := ReadIsProduced(fmt, name, topic, produced, raw, source, y);
        ReadsProduced(fmt, name, topic, produced, raw, source, p, x.offset);
        ReadsProduced(fmt, name, topic, produced, raw, source, q, y.offset);
        assert Slot(PartitionOf(name, p), x.offset) == x && Slot(PartitionOf(name, q), y.offset) == y;
        assert ProducedAlike(topic, produced, p, x.offset, q, y.offset);
      }
    } else {
      var p, o, q, k :| ProducedAlike(topic, produced, p, o, q, k) && Complete(produced[q][k]) && p != q;
      ReadsProduced(fmt, name, topic, produced, raw, source, p, o);
      ReadsProduced(fmt, name, topic, produced, raw, source, q, k);
      assert SameId(source, Slot(PartitionOf(name, p), o), Slot(PartitionOf(name, q), k));
    }
  }

  /**
   From the producer to recovery: when commands that survive their text are published, ingestion of the topic is crash
   safe if and only if no transaction id of a complete command occurs in two of its partitions.
   */
  lemma {:induction false} ProducedIsCrashSafeExactly(fmt: NumberFormat, name: Naming, topic: string,
                                                      produced: map<RawPartition, seq<TransactionCommand>>,
                                                      raw: map<RawPartition, seq<string>>, source: Source)
    requires Numbering(name) && Reads(fmt, name, topic, raw, source) && Publishes(fmt, produced, raw)
    ensures CrashSafe(source) <==> IdsSeparated(topic, produced)
  {
    hide *;
    SeparatedIffProduced(fmt, name, topic, produced, raw, source);
    CrashSafetyExactly(source);
  }
}
