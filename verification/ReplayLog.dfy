/** The replay log: every runtime event is one tab-separated line, and replaying the file delivers the events again. */
module ReplayLog {
  import opened Types
  import opened Text
  import opened KafkaCodec

  datatype TextInstrument = TextInstrument(
    instrumentId: string,
    exchange: string,
    symbol: string,
    baseAsset: string,
    quoteAsset: string,
    tickSize: real,
    lotSize: real)

  datatype EngineEvent =
    | MarketEvent(
        eventId: string,
        eventType: int,
        instrument: TextInstrument,
        price: real,
        quantity: real,
        bidPrice: Option<real>,
        askPrice: Option<real>,
        bidLevels: seq<BookLevel>,
        askLevels: seq<BookLevel>,
        exchangeTimestamp: int,
        receiveTimestamp: int,
        processTimestamp: int)
    | TransactionEvent(command: TransactionCommand)
    | TimerEvent(timerId: string, timestamp: int)

  const INT_MIN: int := -0x8000_0000
  const INT_MAX: int := 0x7fff_ffff
  const LONG_MIN: int := -0x8000_0000_0000_0000
  const LONG_MAX: int := 0x7fff_ffff_ffff_ffff

  // ---------- Book levels ----------

  function ShowLevel(fmt: NumberFormat, l: BookLevel): string {
    fmt.show(l.price) + ":" + fmt.show(l.quantity)
  }

  function ShowLevels(fmt: NumberFormat, levels: seq<BookLevel>): seq<string> {
    if levels == [] then [] else [ShowLevel(fmt, levels[0])] + ShowLevels(fmt, levels[1..])
  }

  function EncodeLevels(fmt: NumberFormat, levels: seq<BookLevel>): string {
    Join(ShowLevels(fmt, levels), ',')
  }

  method EncodeBookLevels(fmt: NumberFormat, levels: seq<BookLevel>) returns (text: string)
    ensures text == EncodeLevels(fmt, levels)
  {
    text := "";
    ghost var done: seq<string> := [];
    assert levels[0..] == levels;
    for i := 0 to |levels|
      invariant done + ShowLevels(fmt, levels[i..]) == ShowLevels(fmt, levels) && |done| == i && text == Join(done, ',')
    {
      var level := ShowLevel(fmt, levels[i]);
      assert levels[i..][0] == levels[i] && levels[i..][1..] == levels[i + 1..];
      assert ShowLevels(fmt, levels[i..]) == [level] + ShowLevels(fmt, levels[i + 1..]);
      hide ShowLevel, ShowLevels, Join;
      assert done + ([level] + ShowLevels(fmt, levels[i + 1..])) == done + [level] + ShowLevels(fmt, levels[i + 1..]);
      if i > 0 {
        JoinSnoc(done, level, ',');
        text := text + ",";
      } else {
        JoinOne(level, ',');
        assert done == [] && [] + [level] == [level];
      }
      text := text + level;
      done := done + [level];
    }
    assert levels[|levels|..] == [] && done + [] == done;
  }

  function ReadLevel(fmt: NumberFormat, s: string): Option<BookLevel> {
    var i := IndexOf(s, ':');
    if i == |s| then None
    else
      var price, quantity := fmt.read(s[..i]), fmt.read(s[i + 1..]);
      if price.None? || quantity.None? then None else Some(BookLevel(price.value, quantity.value))
  }

  function ReadLevels(fmt: NumberFormat, pieces: seq<string>): Option<seq<BookLevel>> {
    if pieces == [] then Some([])
    else
      var first, rest := ReadLevel(fmt, pieces[0]), ReadLevels(fmt, pieces[1..]);
      if first.None? || rest.None? then None else Some([first.value] + rest.value)
  }

  function DecodeLevels(fmt: NumberFormat, s: string): Option<seq<BookLevel>> {
    ReadLevels(fmt, Split(s, ','))
  }

  method DecodeBookLevels(fmt: NumberFormat, s: string) returns (levels: Option<seq<BookLevel>>)
    ensures levels == DecodeLevels(fmt, s)
  {
    if s == "" {
      return Some([]);
    }
    var pieces := SplitText(s, ',');
    hide Split;
    var read: seq<BookLevel> := [];
    ghost var all := ReadLevels(fmt, pieces);
    assert pieces[0..] == pieces && (all.Some? ==> [] + all.value == all.value);
    for i := 0 to |pieces|
      invariant Resumes(ReadLevels(fmt, pieces), read, ReadLevels(fmt, pieces[i..]))
    {
      assert pieces[i..][0] == pieces[i] && pieces[i..][1..] == pieces[i + 1..];
      var level := ReadLevel(fmt, pieces[i]);
      hide ReadLevel;
      if level.None? {
        return None;
      }
      ghost var rest := ReadLevels(fmt, pieces[i + 1..]);
      assert rest.Some? ==> read + ([level.value] + rest.value) == read + [level.value] + rest.value;
      read := read + [level.value];
    }
    assert pieces[|pieces|..] == [] && read + [] == read;
    return Some(read);
  }

  /** Reading everything is reading the rest behind what was read. */
  ghost predicate Resumes(all: Option<seq<BookLevel>>, read: seq<BookLevel>, rest: Option<seq<BookLevel>>) {
    all == if rest.None? then None else Some(read + rest.value)
  }

  ghost predicate ExactLevels(fmt: NumberFormat, levels: seq<BookLevel>) {
    forall l :: l in levels ==> Exact(fmt, l.price) && Exact(fmt, l.quantity)
  }

  lemma {:induction false} ReadShowLevel(fmt: NumberFormat, l: BookLevel)
    requires Exact(fmt, l.price) && Exact(fmt, l.quantity)
    ensures ReadLevel(fmt, ShowLevel(fmt, l)) == Some(l)
    ensures ShowLevel(fmt, l) != "" && forall c :: c in ShowLevel(fmt, l) ==> c !in {'\t', '\n', ','}
  {
    var p, q := fmt.show(l.price), fmt.show(l.quantity);
    IndexOfFirst(p, ':', q);
    var s := p + [':'] + q;
    assert ShowLevel(fmt, l) == s && s[..|p|] == p && s[|p| + 1..] == q;
  }

  lemma {:induction false} ReadShowLevels(fmt: NumberFormat, levels: seq<BookLevel>)
    requires ExactLevels(fmt, levels)
    ensures ReadLevels(fmt, ShowLevels(fmt, levels)) == Some(levels)
    ensures |ShowLevels(fmt, levels)| == |levels| && forall p :: p in ShowLevels(fmt, levels) ==>
            p != "" && forall c :: c in p ==> c !in {'\t', '\n', ','}
  {
    if levels != [] {
      assert levels[0] in levels;
      ReadShowLevel(fmt, levels[0]);
      ReadShowLevels(fmt, levels[1..]);
      var shown := ShowLevels(fmt, levels);
      assert shown[0] == ShowLevel(fmt, levels[0]) && shown[1..] == ShowLevels(fmt, levels[1..]);
      assert levels == [levels[0]] + levels[1..];
    }
  }

  lemma {:induction false} JoinChars(pieces: seq<string>, d: char, bad: char)
    requires bad != d && forall p :: p in pieces ==> bad !in p
    ensures bad !in Join(pieces, d)
  {
    if pieces != [] {
      assert pieces[0] in pieces;
      if |pieces| > 1 {
        JoinChars(pieces[1..], d, bad);
      }
    }
  }

  /** Nested lists survive: decoding undoes encoding, and the text has no tab or newline. */
  lemma {:induction false} LevelsRoundTrip(fmt: NumberFormat, levels: seq<BookLevel>)
    requires ExactLevels(fmt, levels)
    ensures DecodeLevels(fmt, EncodeLevels(fmt, levels)) == Some(levels)
    ensures '\t' !in EncodeLevels(fmt, levels) && '\n' !in EncodeLevels(fmt, levels)
  {
    ReadShowLevels(fmt, levels);
    var shown := ShowLevels(fmt, levels);
    assert shown != [] ==> shown[|shown| - 1] in shown;
    SplitJoin(shown, ',');
    JoinChars(shown, ',', '\t');
    JoinChars(shown, ',', '\n');
  }

  // ---------- Events ----------

  function ShowOptional(fmt: NumberFormat, x: Option<real>): string {
    if x.Some? then fmt.showFixed(x.value) else ""
  }

  /** An absent number is an empty field; text that is no number makes the whole record unreadable. */
  datatype OptionalNumber = Unreadable | Number(value: Option<real>)

  function ReadOptional(fmt: NumberFormat, s: string): OptionalNumber {
    if s == "" then Number(None)
    else
      var x := fmt.read(s);
      if x.None? then Unreadable else Number(x)
  }

  function EventFields(fmt: NumberFormat, e: EngineEvent): seq<string> {
    match e
    case MarketEvent(eventId, eventType, i, price, quantity, bidPrice, askPrice, bidLevels, askLevels, exchanged,
                     received, processed) =>
      ["market", eventId, ShowInt(eventType),
       i.instrumentId, i.exchange, i.symbol, i.baseAsset, i.quoteAsset, fmt.show(i.tickSize), fmt.show(i.lotSize),
       fmt.show(price), fmt.show(quantity), ShowOptional(fmt, bidPrice), ShowOptional(fmt, askPrice),
       EncodeLevels(fmt, bidLevels), EncodeLevels(fmt, askLevels),
       ShowInt(exchanged), ShowInt(received), ShowInt(processed)]
    case TransactionEvent(c) =>
      ["transaction", c.transactionId, c.userId, c.accountId, c.commandType, c.instrumentSymbol, fmt.show(c.quantity),
       ShowOptional(fmt, c.price), c.kafkaTopic, ShowInt(c.kafkaPartition), ShowInt(c.kafkaOffset)]
    case TimerEvent(timerId, timestamp) => ["timer", timerId, ShowInt(timestamp)]
  }

  /** One event as one line. */
  function SerializeEvent(fmt: NumberFormat, e: EngineEvent): string {
    Join(EventFields(fmt, e), '\t')
  }

  /** Lines written before book levels were logged have 17 fields; today's have 19. */
  function ReadMarket(fmt: NumberFormat, f: seq<string>): Option<EngineEvent>
    requires |f| == 17 || |f| == 19
  {
    var bidLevels := if |f| == 19 then DecodeLevels(fmt, f[14]) else Some([]);
    var askLevels := if |f| == 19 then DecodeLevels(fmt, f[15]) else Some([]);
    var eventType := ReadInt(f[2], INT_MIN, INT_MAX);
    var tickSize, lotSize, price, quantity := fmt.read(f[8]), fmt.read(f[9]), fmt.read(f[10]), fmt.read(f[11]);
    var bidPrice, askPrice := ReadOptional(fmt, f[12]), ReadOptional(fmt, f[13]);
    var exchanged := ReadInt(f[|f| - 3], LONG_MIN, LONG_MAX);
    var received := ReadInt(f[|f| - 2], LONG_MIN, LONG_MAX);
    var processed := ReadInt(f[|f| - 1], LONG_MIN, LONG_MAX);
    if bidLevels.None? || askLevels.None? || eventType.None? || tickSize.None? || lotSize.None? || price.None? ||
      quantity.None? ||
       bidPrice.Unreadable? || askPrice.Unreadable? || exchanged.None? || received.None? || processed.None? then None
    else Some(MarketEvent(f[1], eventType.value,
                          TextInstrument(f[3], f[4], f[5], f[6], f[7], tickSize.value, lotSize.value),
                     price.value, quantity.value, bidPrice.value, askPrice.value, bidLevels.value, askLevels.value,
                     exchanged.value, received.value, processed.value))
  }

  function ReadTransaction(fmt: NumberFormat, f: seq<string>): Option<EngineEvent>
    requires |f| == 11
  {
    var quantity, price := fmt.read(f[6]), ReadOptional(fmt, f[7]);
    var partition, offset := ReadInt(f[9], INT_MIN, INT_MAX), ReadInt(f[10], LONG_MIN, LONG_MAX);
    if quantity.None? || price.Unreadable? || partition.None? || offset.None? then None
    else Some(TransactionEvent(TransactionCommand(f[1], f[2], f[3], f[4], f[5], quantity.value, price.value, f[8],
                                                  partition.value, offset.value)))
  }

  function ReadFields(fmt: NumberFormat, f: seq<string>): Option<EngineEvent> {
    if f == [] then None
    else if f[0] == "market" then (if |f| == 17 || |f| == 19 then ReadMarket(fmt, f) else None)
    else if f[0] == "transaction" then (if |f| == 11 then ReadTransaction(fmt, f) else None)
    else if f[0] == "timer" && |f| == 3 then
      var timestamp := ReadInt(f[2], LONG_MIN, LONG_MAX);
      if timestamp.None? then None else Some(TimerEvent(f[1], timestamp.value))
    else None
  }

  function DeserializeEvent(fmt: NumberFormat, line: string): Option<EngineEvent> {
    ReadFields(fmt, Split(line, '\t'))
  }

  /** The free text of an event. */
  function Strings(e: EngineEvent): seq<string> {
    match e
    case MarketEvent(eventId, _, i, _, _, _, _, _, _, _, _, _) => [eventId, i.instrumentId, i.exchange, i.symbol,
                                                                   i.baseAsset, i.quoteAsset]
    case TransactionEvent(c) => [c.transactionId, c.userId, c.accountId, c.commandType, c.instrumentSymbol,
                                 c.kafkaTopic]
    case TimerEvent(timerId, _) => [timerId]
  }

  ghost predicate CleanEvent(e: EngineEvent) {
    forall s :: s in Strings(e) ==> '\t' !in s && '\n' !in s
  }

  /** Numbers that print exactly, and integers of the width the program stores. */
  ghost predicate ExactEvent(fmt: NumberFormat, e: EngineEvent) {
    match e
    case MarketEvent(_, eventType, i, price, quantity, bidPrice, askPrice, bidLevels, askLevels, exchanged, received,
                     processed) =>
      && INT_MIN <= eventType <= INT_MAX
      && Exact(fmt, i.tickSize) && Exact(fmt, i.lotSize) && Exact(fmt, price) && Exact(fmt, quantity)
      && ExactFixed(fmt, bidPrice) && ExactFixed(fmt, askPrice)
      && ExactLevels(fmt, bidLevels) && ExactLevels(fmt, askLevels)
      && LONG_MIN <= exchanged <= LONG_MAX && LONG_MIN <= received <= LONG_MAX && LONG_MIN <= processed <= LONG_MAX
    case TransactionEvent(c) =>
      && Exact(fmt, c.quantity) && ExactFixed(fmt, c.price)
      && INT_MIN <= c.kafkaPartition <= INT_MAX && LONG_MIN <= c.kafkaOffset <= LONG_MAX
    case TimerEvent(_, timestamp) => LONG_MIN <= timestamp <= LONG_MAX
  }

  lemma {:induction false} ReadShowOptional(fmt: NumberFormat, x: Option<real>)
    requires ExactFixed(fmt, x)
    ensures ReadOptional(fmt, ShowOptional(fmt, x)) == Number(x)
    ensures '\t' !in ShowOptional(fmt, x) && '\n' !in ShowOptional(fmt, x)
  {
  }

  lemma {:induction false} FieldsRead(fmt: NumberFormat, e: EngineEvent)
    requires ExactEvent(fmt, e)
    ensures ReadFields(fmt, EventFields(fmt, e)) == Some(e)
  {
    match e
    case MarketEvent(_, eventType, i, price, quantity, bidPrice, askPrice, bidLevels, askLevels, exchanged, received,
                     processed) =>
      ReadShowInt(eventType, INT_MIN, INT_MAX);
      ReadShowOptional(fmt, bidPrice);
      ReadShowOptional(fmt, askPrice);
      LevelsRoundTrip(fmt, bidLevels);
      LevelsRoundTrip(fmt, askLevels);
      ReadShowInt(exchanged, LONG_MIN, LONG_MAX);
      ReadShowInt(received, LONG_MIN, LONG_MAX);
      ReadShowInt(processed, LONG_MIN, LONG_MAX);
      hide ReadInt, ShowInt, DecodeLevels, EncodeLevels, ReadOptional, ShowOptional;
      MarketRead(fmt, e);
    case TransactionEvent(c) =>
      ReadShowOptional(fmt, c.price);
      ReadShowInt(c.kafkaPartition, INT_MIN, INT_MAX);
      ReadShowInt(c.kafkaOffset, LONG_MIN, LONG_MAX);
      hide ReadInt, ShowInt, ReadOptional, ShowOptional;
    case TimerEvent(_, timestamp) =>
      ReadShowInt(timestamp, LONG_MIN, LONG_MAX);
      hide ReadInt, ShowInt;
  }

  lemma {:induction false} MarketRead(fmt: NumberFormat, e: EngineEvent)
    requires e.MarketEvent?
    requires DecodeLevels(fmt, EncodeLevels(fmt, e.bidLevels)) == Some(e.bidLevels) &&
             DecodeLevels(fmt, EncodeLevels(fmt, e.askLevels)) == Some(e.askLevels)
    requires ReadInt(ShowInt(e.eventType), INT_MIN, INT_MAX) == Some(e.eventType)
    requires fmt.read(fmt.show(e.instrument.tickSize)) == Some(e.instrument.tickSize) &&
             fmt.read(fmt.show(e.instrument.lotSize)) == Some(e.instrument.lotSize)
    requires fmt.read(fmt.show(e.price)) == Some(e.price) && fmt.read(fmt.show(e.quantity)) == Some(e.quantity)
    requires ReadOptional(fmt, ShowOptional(fmt, e.bidPrice)) == Number(e.bidPrice) &&
             ReadOptional(fmt, ShowOptional(fmt, e.askPrice)) == Number(e.askPrice)
    requires ReadInt(ShowInt(e.exchangeTimestamp), LONG_MIN, LONG_MAX) == Some(e.exchangeTimestamp)
    requires ReadInt(ShowInt(e.receiveTimestamp), LONG_MIN, LONG_MAX) == Some(e.receiveTimestamp)
    requires ReadInt(ShowInt(e.processTimestamp), LONG_MIN, LONG_MAX) == Some(e.processTimestamp)
    ensures ReadFields(fmt, EventFields(fmt, e)) == Some(e)
  {
    hide ReadInt, ShowInt, DecodeLevels, EncodeLevels, ReadOptional, ShowOptional;
    var f := EventFields(fmt, e);
    assert |f| == 19 && f[0] == "market";
  }

  // ---------- Lines ----------

  predicate NoTabOrNewline(s: string) {
    '\t' !in s && '\n' !in s
  }

  lemma {:induction false} IntIsPlain(n: int)
    ensures ShowInt(n) != "" && NoTabOrNewline(ShowInt(n))
  {
    ShowIntPlain(n);
  }

  lemma {:induction false} NumberIsPlain(fmt: NumberFormat, x: real)
    requires Exact(fmt, x)
    ensures NoTabOrNewline(fmt.show(x))
  {
  }

  lemma {:induction false} TagsArePlain()
    ensures NoTabOrNewline("market") && NoTabOrNewline("transaction") && NoTabOrNewline("timer")
  {
  }

  lemma {:induction false} TextsArePlain(e: EngineEvent, k: nat)
    requires CleanEvent(e) && k < |Strings(e)|
    ensures NoTabOrNewline(Strings(e)[k])
  {
    assert Strings(e)[k] in Strings(e);
  }

  lemma {:induction false} MarketFieldsPlain(fmt: NumberFormat, e: EngineEvent)
    requires ExactEvent(fmt, e) && CleanEvent(e) && e.MarketEvent?
    ensures forall f :: f in EventFields(fmt, e) ==> NoTabOrNewline(f)
  {
    TagsArePlain();
    TextsArePlain(e, 0);
    TextsArePlain(e, 1);
    TextsArePlain(e, 2);
    TextsArePlain(e, 3);
    TextsArePlain(e, 4);
    TextsArePlain(e, 5);
    IntIsPlain(e.eventType);
    NumberIsPlain(fmt, e.instrument.tickSize);
    NumberIsPlain(fmt, e.instrument.lotSize);
    NumberIsPlain(fmt, e.price);
    NumberIsPlain(fmt, e.quantity);
    ReadShowOptional(fmt, e.bidPrice);
    ReadShowOptional(fmt, e.askPrice);
    LevelsRoundTrip(fmt, e.bidLevels);
    LevelsRoundTrip(fmt, e.askLevels);
    assert NoTabOrNewline(ShowOptional(fmt, e.bidPrice)) && NoTabOrNewline(ShowOptional(fmt, e.askPrice));
    assert NoTabOrNewline(EncodeLevels(fmt, e.bidLevels)) && NoTabOrNewline(EncodeLevels(fmt, e.askLevels));
    IntIsPlain(e.exchangeTimestamp);
    IntIsPlain(e.receiveTimestamp);
    IntIsPlain(e.processTimestamp);
    hide NoTabOrNewline, ShowInt, ShowOptional, EncodeLevels, Exact, ExactFixed, ExactLevels, CleanEvent, ExactEvent;
  }

  lemma {:induction false} TransactionFieldsPlain(fmt: NumberFormat, e: EngineEvent)
    requires ExactEvent(fmt, e) && CleanEvent(e) && e.TransactionEvent?
    ensures forall f :: f in EventFields(fmt, e) ==> NoTabOrNewline(f)
  {
    TagsArePlain();
    TextsArePlain(e, 0);
    TextsArePlain(e, 1);
    TextsArePlain(e, 2);
    TextsArePlain(e, 3);
    TextsArePlain(e, 4);
    TextsArePlain(e, 5);
    NumberIsPlain(fmt, e.command.quantity);
    ReadShowOptional(fmt, e.command.price);
    assert NoTabOrNewline(ShowOptional(fmt, e.command.price));
    IntIsPlain(e.command.kafkaPartition);
    IntIsPlain(e.command.kafkaOffset);
    hide NoTabOrNewline, ShowInt, ShowOptional, Exact, ExactFixed, CleanEvent, ExactEvent;
  }

  lemma {:induction false} EventFieldsPlain(fmt: NumberFormat, e: EngineEvent)
    requires ExactEvent(fmt, e) && CleanEvent(e)
    ensures forall f :: f in EventFields(fmt, e) ==> NoTabOrNewline(f)
    ensures EventFields(fmt, e)[|EventFields(fmt, e)| - 1] != ""
  {
    hide NoTabOrNewline;
    match e
    case MarketEvent(_, _, _, _, _, _, _, _, _, _, _, processed) =>
      MarketFieldsPlain(fmt, e);
      IntIsPlain(processed);
    case TransactionEvent(c) =>
      TransactionFieldsPlain(fmt, e);
      IntIsPlain(c.kafkaOffset);
    case TimerEvent(timerId, timestamp) =>
      TagsArePlain();
      TextsArePlain(e, 0);
      IntIsPlain(timestamp);
  }

  /** Reading a written line gives the event back, and the line is one line. */
  lemma {:induction false} EventRoundTrip(fmt: NumberFormat, e: EngineEvent)
    requires ExactEvent(fmt, e) && CleanEvent(e)
    ensures DeserializeEvent(fmt, SerializeEvent(fmt, e)) == Some(e)
    ensures '\n' !in SerializeEvent(fmt, e)
  {
    hide EventFields, ReadFields;
    EventFieldsPlain(fmt, e);
    SplitJoin(EventFields(fmt, e), '\t');
    FieldsRead(fmt, e);
    JoinChars(EventFields(fmt, e), '\t', '\n');
  }

  lemma {:induction false} ReadStrings(fmt: NumberFormat, f: seq<string>)
    ensures var e := ReadFields(fmt, f);
            e.Some? ==> forall s :: s in Strings(e.value) ==> s in f
  {
    hide ReadInt, ReadOptional, DecodeLevels;
    var e := ReadFields(fmt, f);
    if e.Some? {
      forall s | s in Strings(e.value)
        ensures s in f
      {
        if e.value.MarketEvent? {
          assert f[1] in f && f[3] in f && f[4] in f && f[5] in f && f[6] in f && f[7] in f;
        } else if e.value.TransactionEvent? {
          assert f[1] in f && f[2] in f && f[3] in f && f[4] in f && f[5] in f && f[8] in f;
        } else {
          assert f[1] in f;
        }
      }
    }
  }

  /** Whatever a line yields has no tab in it, and no newline if the line has none. */
  lemma {:induction false} ReadIsClean(fmt: NumberFormat, line: string)
    requires '\n' !in line
    ensures var e := DeserializeEvent(fmt, line);
            e.Some? ==> CleanEvent(e.value)
  {
    hide ReadFields;
    SplitPieces(line, '\t');
    ReadStrings(fmt, Split(line, '\t'));
  }

  // ---------- Any line ----------

  /** The piece is the price, a colon and the quantity. */
  predicate SpellsLevel(fmt: NumberFormat, piece: string, l: BookLevel) {
    var i := IndexOf(piece, ':');
    i < |piece| && fmt.read(piece[..i]) == Some(l.price) && fmt.read(piece[i + 1..]) == Some(l.quantity)
  }

  /** The text is the levels, one by one, between commas. */
  ghost predicate SpellsLevels(fmt: NumberFormat, text: string, levels: seq<BookLevel>) {
    var pieces := Split(text, ',');
    |pieces| == |levels| && forall i :: 0 <= i < |pieces| ==> SpellsLevel(fmt, pieces[i], levels[i])
  }

  lemma {:induction false} ReadLevelsExactly(fmt: NumberFormat, pieces: seq<string>, levels: seq<BookLevel>)
    ensures ReadLevels(fmt, pieces) == Some(levels) <==>
            |pieces| == |levels| && forall i :: 0 <= i < |pieces| ==> SpellsLevel(fmt, pieces[i], levels[i])
  {
    if pieces != [] && levels != [] {
      ReadLevelsExactly(fmt, pieces[1..], levels[1..]);
      assert ReadLevel(fmt, pieces[0]) == Some(levels[0]) <==> SpellsLevel(fmt, pieces[0], levels[0]);
      hide ReadLevel, SpellsLevel;
      assert levels == [levels[0]] + levels[1..];
      var first, rest := ReadLevel(fmt, pieces[0]), ReadLevels(fmt, pieces[1..]);
      if first.Some? && rest.Some? {
        assert ([first.value] + rest.value)[1..] == rest.value;
      }
      if |pieces| == |levels| {
        assert forall i :: 1 <= i < |pieces| ==> pieces[i] == pieces[1..][i - 1] && levels[i] == levels[1..][i - 1];
      }
    }
  }

  predicate SpellsOptional(fmt: NumberFormat, text: string, x: Option<real>) {
    if text == "" then x == None else x.Some? && fmt.read(text) == x
  }

  /** The fields spell the market event; lines written before levels were logged have none. */
  ghost predicate SpellsMarket(fmt: NumberFormat, f: seq<string>, e: EngineEvent)
    requires e.MarketEvent?
  {
    && (|f| == 17 || |f| == 19) && f[0] == "market" && f[1] == e.eventId && f[3] == e.instrument.instrumentId
    && f[4] == e.instrument.exchange && f[5] == e.instrument.symbol && f[6] == e.instrument.baseAsset
    && f[7] == e.instrument.quoteAsset
    && fmt.read(f[8]) == Some(e.instrument.tickSize) && fmt.read(f[9]) == Some(e.instrument.lotSize)
    && fmt.read(f[10]) == Some(e.price) && fmt.read(f[11]) == Some(e.quantity)
    && SpellsOptional(fmt, f[12], e.bidPrice) && SpellsOptional(fmt, f[13], e.askPrice)
    && (if |f| == 17 then e.bidLevels == e.askLevels == []
        else SpellsLevels(fmt, f[14], e.bidLevels) && SpellsLevels(fmt, f[15], e.askLevels))
    && ReadInt(f[2], INT_MIN, INT_MAX) == Some(e.eventType)
    && ReadInt(f[|f| - 3], LONG_MIN, LONG_MAX) == Some(e.exchangeTimestamp)
    && ReadInt(f[|f| - 2], LONG_MIN, LONG_MAX) == Some(e.receiveTimestamp)
    && ReadInt(f[|f| - 1], LONG_MIN, LONG_MAX) == Some(e.processTimestamp)
  }

  ghost predicate SpellsTransaction(fmt: NumberFormat, f: seq<string>, c: TransactionCommand) {
    && |f| == 11 && f[0] == "transaction" && f[1] == c.transactionId && f[2] == c.userId && f[3] == c.accountId
    && f[4] == c.commandType && f[5] == c.instrumentSymbol && f[8] == c.kafkaTopic
    && fmt.read(f[6]) == Some(c.quantity) && SpellsOptional(fmt, f[7], c.price)
    && ReadInt(f[9], INT_MIN, INT_MAX) == Some(c.kafkaPartition)
    && ReadInt(f[10], LONG_MIN, LONG_MAX) == Some(c.kafkaOffset)
  }

  ghost predicate SpellsEvent(fmt: NumberFormat, f: seq<string>, e: EngineEvent) {
    match e
    case MarketEvent(_, _, _, _, _, _, _, _, _, _, _, _) => SpellsMarket(fmt, f, e)
    case TransactionEvent(c) => SpellsTransaction(fmt, f, c)
    case TimerEvent(timerId, timestamp) =>
      |f| == 3 && f[0] == "timer" && f[1] == timerId && ReadInt(f[2], LONG_MIN, LONG_MAX) == Some(timestamp)
  }

  lemma {:induction false} MarketReadsExactly(fmt: NumberFormat, f: seq<string>, e: EngineEvent)
    requires e.MarketEvent? && (|f| == 17 || |f| == 19) && f[0] == "market"
    ensures ReadMarket(fmt, f) == Some(e) <==> SpellsMarket(fmt, f, e)
  {
    if |f| == 19 {
      ReadLevelsExactly(fmt, Split(f[14], ','), e.bidLevels);
      ReadLevelsExactly(fmt, Split(f[15], ','), e.askLevels);
    }
    hide ReadLevels, ReadInt, SpellsLevel, Split;
  }

  /** For any line at all, replay delivers an event if and only if the fields of the line spell that event. */
  lemma {:induction false} ReadsExactly(fmt: NumberFormat, line: string, e: EngineEvent)
    ensures DeserializeEvent(fmt, line) == Some(e) <==> SpellsEvent(fmt, Split(line, '\t'), e)
  {
    var f := Split(line, '\t');
    hide Split, ReadInt, SpellsMarket, ReadMarket;
    TagsDiffer();
    if f != [] && f[0] == "market" && (|f| == 17 || |f| == 19) {
      if e.MarketEvent? {
        MarketReadsExactly(fmt, f, e);
      } else {
        MarketYieldsMarket(fmt, f);
      }
    } else if e.MarketEvent? {
      MarketNeeds(fmt, f, e);
    }
  }

  lemma {:induction false} TagsDiffer()
    ensures "market" != "transaction" && "market" != "timer" && "transaction" != "timer"
  {
    assert |"market"| == 6 && |"transaction"| == 11 && |"timer"| == 5;
  }

  lemma {:induction false} MarketYieldsMarket(fmt: NumberFormat, f: seq<string>)
    requires |f| == 17 || |f| == 19
    ensures ReadMarket(fmt, f).Some? ==> ReadMarket(fmt, f).value.MarketEvent?
  {
    hide ReadInt, DecodeLevels, ReadOptional;
  }

  lemma {:induction false} MarketNeeds(fmt: NumberFormat, f: seq<string>, e: EngineEvent)
    requires e.MarketEvent?
    ensures SpellsMarket(fmt, f, e) ==> (|f| == 17 || |f| == 19) && f[0] == "market"
  {
  }

  // ---------- The log ----------

  function SerializeAll(fmt: NumberFormat, events: seq<EngineEvent>): seq<string> {
    if events == [] then [] else [SerializeEvent(fmt, events[0])] + SerializeAll(fmt, events[1..])
  }

  /** The file after appending one event. */
  function AppendEvent(fmt: NumberFormat, log: string, e: EngineEvent): string {
    log + SerializeEvent(fmt, e) + "\n"
  }

  function AppendAll(fmt: NumberFormat, log: string, events: seq<EngineEvent>): string
    decreases |events|
  {
    if events == [] then log else AppendAll(fmt, AppendEvent(fmt, log, events[0]), events[1..])
  }

  lemma {:induction false} AppendAllIsLines(fmt: NumberFormat, log: string, events: seq<EngineEvent>)
    ensures AppendAll(fmt, log, events) == log + Lines(SerializeAll(fmt, events), '\n')
    decreases |events|
  {
    hide SerializeEvent;
    if events == [] {
      assert log + "" == log;
    } else {
      var line, rest := SerializeEvent(fmt, events[0]), SerializeAll(fmt, events[1..]);
      AppendAllIsLines(fmt, AppendEvent(fmt, log, events[0]), events[1..]);
      assert ([line] + rest)[1..] == rest;
      assert log + line + "\n" + Lines(rest, '\n') == log + (line + ['\n'] + Lines(rest, '\n'));
    }
  }

  datatype ReplayStats = ReplayStats(totalRecords: nat, replayedRecords: nat, skippedRecords: nat)

  function Delivered(fmt: NumberFormat, lines: seq<string>): seq<EngineEvent> {
    if lines == [] then []
    else
      var first := DeserializeEvent(fmt, lines[0]);
      (if first.Some? then [first.value] else []) + Delivered(fmt, lines[1..])
  }

  /** Reads the log line by line, delivering what can be read and counting the rest. */
  method Replay(fmt: NumberFormat, log: string) returns (delivered: seq<EngineEvent>, stats: ReplayStats)
    ensures delivered == Delivered(fmt, Split(log, '\n'))
    ensures stats.totalRecords == |Split(log, '\n')| && stats.replayedRecords == |delivered|
    ensures stats.skippedRecords == stats.totalRecords - stats.replayedRecords
  {
    var lines := SplitText(log, '\n');
    hide DeserializeEvent, Split;
    delivered := [];
    var total, replayed, skipped := 0, 0, 0;
    assert lines[0..] == lines;
    for i := 0 to |lines|
      invariant delivered + Delivered(fmt, lines[i..]) == Delivered(fmt, lines)
      invariant total == i && replayed == |delivered| && total == replayed + skipped
    {
      assert lines[i..][0] == lines[i] && lines[i..][1..] == lines[i + 1..];
      total := total + 1;
      var event := DeserializeEvent(fmt, lines[i]);
      if event.Some? {
        delivered := delivered + [event.value];
        replayed := replayed + 1;
      } else {
        skipped := skipped + 1;
      }
    }
    assert lines[|lines|..] == [];
    stats := ReplayStats(total, replayed, skipped);
  }

  lemma {:induction false} CleanLinesDeliver(fmt: NumberFormat, events: seq<EngineEvent>)
    requires forall e :: e in events ==> ExactEvent(fmt, e) && CleanEvent(e)
    ensures Without(SerializeAll(fmt, events), '\n')
    ensures Delivered(fmt, SerializeAll(fmt, events)) == events && |SerializeAll(fmt, events)| == |events|
  {
    hide SerializeEvent, DeserializeEvent, ExactEvent, CleanEvent;
    if events != [] {
      assert events[0] in events;
      EventRoundTrip(fmt, events[0]);
      CleanLinesDeliver(fmt, events[1..]);
      var lines := SerializeAll(fmt, events);
      assert lines[0] == SerializeEvent(fmt, events[0]) && lines[1..] == SerializeAll(fmt, events[1..]);
      assert events == [events[0]] + events[1..];
    }
  }

  lemma {:induction false} DeliveredIsClean(fmt: NumberFormat, lines: seq<string>)
    requires Without(lines, '\n')
    ensures forall e :: e in Delivered(fmt, lines) ==> CleanEvent(e)
  {
    hide DeserializeEvent, CleanEvent;
    if lines != [] {
      assert lines[0] in lines;
      ReadIsClean(fmt, lines[0]);
      DeliveredIsClean(fmt, lines[1..]);
    }
  }

  /**
   Appending events to an empty log and replaying it delivers the same events with no record skipped, if and
   only if no string of any event contains a tab or a newline.
   */
  lemma {:induction false} ReplayRoundTripExactly(fmt: NumberFormat, events: seq<EngineEvent>)
    requires forall e :: e in events ==> ExactEvent(fmt, e)
    ensures var lines := Split(AppendAll(fmt, "", events), '\n');
            Delivered(fmt, lines) == events && |lines| == |events| <==> forall e :: e in events ==> CleanEvent(e)
  {
    hide SerializeAll, Delivered, ExactEvent, CleanEvent, AppendAll;
    var log := AppendAll(fmt, "", events);
    AppendAllIsLines(fmt, "", events);
    assert log == Lines(SerializeAll(fmt, events), '\n');
    if forall e :: e in events ==> CleanEvent(e) {
      CleanLinesDeliver(fmt, events);
      SplitLines(SerializeAll(fmt, events), '\n');
    }
    SplitPieces(log, '\n');
    DeliveredIsClean(fmt, Split(log, '\n'));
  }
}
