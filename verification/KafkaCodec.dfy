/** The Kafka payload of a transaction command: the producer's serializer and the consumer's parser. */
module KafkaCodec {
  import opened Types
  import opened Text

  datatype TransactionCommand = TransactionCommand(
    transactionId: string,
    userId: string,
    accountId: string,
    commandType: string,
    instrumentSymbol: string,
    quantity: real,
    price: Option<real>,
    kafkaTopic: string,
    kafkaPartition: int,
    kafkaOffset: int)

  datatype RawMessage = RawMessage(topic: string, partition: int, offset: int, payload: string)

  const ID := "transaction_id"
  const USER := "user_id"
  const ACCOUNT := "account_id"
  const COMMAND := "command_type"
  const SYMBOL := "instrument_symbol"
  const QUANTITY := "quantity"
  const PRICE := "price"

  /** The payload without the price. */
  function Head(fmt: NumberFormat, c: TransactionCommand): string {
    "transaction_id=" + c.transactionId
    + ";user_id=" + c.userId
    + ";account_id=" + c.accountId
    + ";command_type=" + c.commandType
    + ";instrument_symbol=" + c.instrumentSymbol
    + ";quantity=" + fmt.show(c.quantity)
  }

  function Serialize(fmt: NumberFormat, c: TransactionCommand): string {
    Head(fmt, c) + (if c.price.Some? then ";price=" + fmt.show(c.price.value) else "")
  }

  /** One token between semicolons: everything after the first '=' is the value; a token without '=' is skipped. */
  function ParseToken(fields: map<string, string>, token: string): map<string, string> {
    var i := IndexOf(token, '=');
    if i == |token| then fields else fields[token[..i] := token[i + 1..]]
  }

  function ParseTokens(fields: map<string, string>, tokens: seq<string>): map<string, string>
    decreases |tokens|
  {
    if tokens == [] then fields else ParseTokens(ParseToken(fields, tokens[0]), tokens[1..])
  }

  method ParseKeyValuePayload(payload: string) returns (fields: map<string, string>)
    ensures fields == ParseTokens(map[], Split(payload, ';'))
  {
    fields := map[];
    var tokens := SplitText(payload, ';');
    assert tokens[0..] == tokens;
    for i := 0 to |tokens|
      invariant ParseTokens(fields, tokens[i..]) == ParseTokens(map[], tokens)
    {
      assert tokens[i..][0] == tokens[i] && tokens[i..][1..] == tokens[i + 1..];
      var separator := IndexOf(tokens[i], '=');
      if separator < |tokens[i]| {
        fields := fields[tokens[i][..separator] := tokens[i][separator + 1..]];
      }
    }
    assert tokens[|tokens|..] == [];
  }

  /** What the consumer makes of a message, if it makes anything of it. */
  function Parse(fmt: NumberFormat, m: RawMessage): Option<TransactionCommand> {
    Build(fmt, ParseTokens(map[], Split(m.payload, ';')), m)
  }

  function Build(fmt: NumberFormat, fields: map<string, string>, m: RawMessage): Option<TransactionCommand> {
    if !(ID in fields && USER in fields && ACCOUNT in fields && COMMAND in fields && SYMBOL in fields &&
         QUANTITY in fields) then None
    else
      var quantity := fmt.read(fields[QUANTITY]);
      var priced := PRICE in fields && fields[PRICE] != "";
      var price := if priced then fmt.read(fields[PRICE]) else None;
      if quantity.None? || (priced && price.None?) then None
      else Some(TransactionCommand(fields[ID], fields[USER], fields[ACCOUNT], fields[COMMAND], fields[SYMBOL],
                                   quantity.value, price, m.topic, m.partition, m.offset))
  }

  // ---------- Round trip ----------

  predicate Clean(c: TransactionCommand) {
    ';' !in c.transactionId && ';' !in c.userId && ';' !in c.accountId && ';' !in c.commandType &&
      ';' !in c.instrumentSymbol
  }

  predicate ExactNumbers(fmt: NumberFormat, c: TransactionCommand) {
    Exact(fmt, c.quantity) && (c.price.Some? ==> Exact(fmt, c.price.value))
  }

  function Token(key: string, value: string): string {
    key + "=" + value
  }

  function SixTokens(fmt: NumberFormat, c: TransactionCommand): seq<string> {
    [Token(ID, c.transactionId)] + [Token(USER, c.userId)] + [Token(ACCOUNT, c.accountId)] +
      [Token(COMMAND, c.commandType)]
    + [Token(SYMBOL, c.instrumentSymbol)] + [Token(QUANTITY, fmt.show(c.quantity))]
  }

  function Tokens(fmt: NumberFormat, c: TransactionCommand): seq<string> {
    SixTokens(fmt, c) + (if c.price.Some? then [Token(PRICE, fmt.show(c.price.value))] else [])
  }

  lemma {:induction false} TokenParses(fields: map<string, string>, key: string, value: string)
    requires '=' !in key
    ensures ParseToken(fields, Token(key, value)) == fields[key := value]
  {
    IndexOfFirst(key, '=', value);
    var t := key + ['='] + value;
    assert t == Token(key, value) && t[..|key|] == key && t[|key| + 1..] == value;
  }

  lemma {:induction false} TokenNext(fields: map<string, string>, tokens: seq<string>, i: nat, key: string,
                                     value: string)
    requires '=' !in key && i < |tokens| && tokens[i] == Token(key, value)
    ensures ParseTokens(fields, tokens[i..]) == ParseTokens(fields[key := value], tokens[i + 1..])
  {
    TokenParses(fields, key, value);
    assert tokens[i..][0] == tokens[i] && tokens[i..][1..] == tokens[i + 1..];
  }

  lemma {:induction false} SnocToken(text: string, pieces: seq<string>, label_: string, key: string, value: string)
    requires pieces != [] && text == Join(pieces, ';') && label_ == [';'] + key + "="
    ensures text + label_ + value == Join(pieces + [Token(key, value)], ';')
  {
    JoinSnoc(pieces, Token(key, value), ';');
    assert text + label_ + value == text + [';'] + Token(key, value);
  }

  lemma {:induction false} HeadIsJoin(fmt: NumberFormat, c: TransactionCommand)
    ensures Head(fmt, c) == Join(SixTokens(fmt, c), ';')
  {
    hide Join, Token;
    Labels();
    var t1, t2, t3 := Token(ID, c.transactionId), Token(USER, c.userId), Token(ACCOUNT, c.accountId);
    var t4, t5 := Token(COMMAND, c.commandType), Token(SYMBOL, c.instrumentSymbol);
    FirstToken("transaction_id=", ID, c.transactionId);
    var s1 := "transaction_id=" + c.transactionId;
    SnocToken(s1, [t1], ";user_id=", USER, c.userId);
    var s2 := s1 + ";user_id=" + c.userId;
    SnocToken(s2, [t1] + [t2], ";account_id=", ACCOUNT, c.accountId);
    var s3 := s2 + ";account_id=" + c.accountId;
    SnocToken(s3, [t1] + [t2] + [t3], ";command_type=", COMMAND, c.commandType);
    var s4 := s3 + ";command_type=" + c.commandType;
    SnocToken(s4, [t1] + [t2] + [t3] + [t4], ";instrument_symbol=", SYMBOL, c.instrumentSymbol);
    var s5 := s4 + ";instrument_symbol=" + c.instrumentSymbol;
    SnocToken(s5, [t1] + [t2] + [t3] + [t4] + [t5], ";quantity=", QUANTITY, fmt.show(c.quantity));
  }

  lemma {:induction false} Labels()
    ensures "transaction_id=" == ID + "=" && ";user_id=" == [';'] + USER + "=" &&
            ";account_id=" == [';'] + ACCOUNT + "="
    ensures ";command_type=" == [';'] + COMMAND + "=" && ";instrument_symbol=" == [';'] + SYMBOL + "=" &&
            ";quantity=" == [';'] + QUANTITY + "="
  {
  }

  lemma {:induction false} FirstToken(label_: string, key: string, value: string)
    requires label_ == key + "="
    ensures label_ + value == Join([Token(key, value)], ';')
  {
    JoinOne(Token(key, value), ';');
  }

  lemma {:induction false} TokensAre(fmt: NumberFormat, c: TransactionCommand)
    ensures Tokens(fmt, c) == if c.price.Some? then SixTokens(fmt, c) + [Token(PRICE, fmt.show(c.price.value))]
            else SixTokens(fmt, c)
  {
    hide Token;
  }

  /** The payload is the tokens joined by semicolons. */
  lemma {:induction false} SerializeIsJoin(fmt: NumberFormat, c: TransactionCommand)
    ensures Serialize(fmt, c) == Join(Tokens(fmt, c), ';')
  {
    hide Join, Token, Tokens, SixTokens;
    HeadIsJoin(fmt, c);
    TokensAre(fmt, c);
    var head := Head(fmt, c);
    if c.price.Some? {
      assert SixTokens(fmt, c) != [] by {
        SixIsSome(fmt, c);
      }
      SnocToken(head, SixTokens(fmt, c), ";price=", PRICE, fmt.show(c.price.value));
      hide Head;
      Associate(head, ";price=", fmt.show(c.price.value));
    } else {
      Associate(head, "", "");
    }
  }

  lemma {:induction false} SixIsSome(fmt: NumberFormat, c: TransactionCommand)
    ensures SixTokens(fmt, c) != []
  {
  }

  lemma {:induction false} Associate(a: string, b: string, c: string)
    ensures a + (b + c) == a + b + c && a + "" == a
  {
  }

  /** The fields the parser finds. */
  function Fields(fmt: NumberFormat, c: TransactionCommand): map<string, string> {
    var three := map[ID := c.transactionId][USER := c.userId][ACCOUNT := c.accountId];
    var six := three[COMMAND := c.commandType][SYMBOL := c.instrumentSymbol][QUANTITY := fmt.show(c.quantity)];
    if c.price.Some? then six[PRICE := fmt.show(c.price.value)] else six
  }

  lemma {:induction false} TokensListed(fmt: NumberFormat, c: TransactionCommand)
    ensures var tokens := Tokens(fmt, c);
            && |tokens| == (if c.price.Some? then 7 else 6)
            && tokens[0] == Token(ID, c.transactionId) && tokens[1] == Token(USER, c.userId)
            && tokens[2] == Token(ACCOUNT, c.accountId) && tokens[3] == Token(COMMAND, c.commandType)
            && tokens[4] == Token(SYMBOL, c.instrumentSymbol) && tokens[5] == Token(QUANTITY, fmt.show(c.quantity))
            && (c.price.Some? ==> tokens[6] == Token(PRICE, fmt.show(c.price.value)))
  {
    hide Token;
  }

  lemma {:induction false} TokensParse(fmt: NumberFormat, c: TransactionCommand)
    ensures ParseTokens(map[], Tokens(fmt, c)) == Fields(fmt, c)
  {
    hide Token, ParseTokens, Tokens;
    var tokens := Tokens(fmt, c);
    TokensListed(fmt, c);
    assert tokens[0..] == tokens && tokens[|tokens|..] == [];
    var m1 := map[ID := c.transactionId];
    var m2 := m1[USER := c.userId];
    var m3 := m2[ACCOUNT := c.accountId];
    var m4 := m3[COMMAND := c.commandType];
    var m5 := m4[SYMBOL := c.instrumentSymbol];
    var m6 := m5[QUANTITY := fmt.show(c.quantity)];
    TokenNext(map[], tokens, 0, ID, c.transactionId);
    TokenNext(m1, tokens, 1, USER, c.userId);
    TokenNext(m2, tokens, 2, ACCOUNT, c.accountId);
    TokenNext(m3, tokens, 3, COMMAND, c.commandType);
    TokenNext(m4, tokens, 4, SYMBOL, c.instrumentSymbol);
    TokenNext(m5, tokens, 5, QUANTITY, fmt.show(c.quantity));
    if c.price.Some? {
      TokenNext(m6, tokens, 6, PRICE, fmt.show(c.price.value));
    }
    NoTokens(Fields(fmt, c));
  }

  lemma {:induction false} NoTokens(fields: map<string, string>)
    ensures ParseTokens(fields, []) == fields
  {
  }

  lemma {:induction false} TokensAreClean(fmt: NumberFormat, c: TransactionCommand)
    requires Clean(c) && ExactNumbers(fmt, c)
    ensures Without(Tokens(fmt, c), ';') && Tokens(fmt, c)[|Tokens(fmt, c)| - 1] != ""
  {
  }

  /** The command as the consumer sees it: its place in Kafka comes from the message. */
  function At(c: TransactionCommand, m: RawMessage): TransactionCommand {
    c.(kafkaTopic := m.topic, kafkaPartition := m.partition, kafkaOffset := m.offset)
  }

  lemma {:induction false} BuildFields(fmt: NumberFormat, c: TransactionCommand, m: RawMessage)
    requires ExactNumbers(fmt, c)
    ensures Build(fmt, Fields(fmt, c), m) == Some(At(c, m))
  {
    assert |ID| == 14 && |USER| == 7 && |ACCOUNT| == 10 && |COMMAND| == 12 && |SYMBOL| == 17 && |QUANTITY| == 8 &&
           |PRICE| == 5;
  }

  lemma {:induction false} RoundTrip(fmt: NumberFormat, c: TransactionCommand, m: RawMessage)
    requires Clean(c) && ExactNumbers(fmt, c) && m.payload == Serialize(fmt, c)
    ensures Parse(fmt, m) == Some(At(c, m))
  {
    SerializeIsJoin(fmt, c);
    TokensAreClean(fmt, c);
    SplitJoin(Tokens(fmt, c), ';');
    TokensParse(fmt, c);
    BuildFields(fmt, c, m);
  }

  ghost predicate CleanValues(fields: map<string, string>) {
    forall k :: k in fields ==> ';' !in fields[k]
  }

  lemma {:induction false} ParsedValuesAreClean(fields: map<string, string>, tokens: seq<string>)
    requires CleanValues(fields) && Without(tokens, ';')
    ensures CleanValues(ParseTokens(fields, tokens))
    decreases |tokens|
  {
    if tokens != [] {
      assert tokens[0] in tokens;
      ParsedValuesAreClean(ParseToken(fields, tokens[0]), tokens[1..]);
    }
  }

  /**
   Serializing a command and parsing the payload gives the command back, with its place in Kafka taken from the
   message, if and only if none of its strings contains a semicolon; '=' is harmless.
   */
  lemma {:induction false} RoundTripExactly(fmt: NumberFormat, c: TransactionCommand, m: RawMessage)
    requires ExactNumbers(fmt, c) && m.payload == Serialize(fmt, c)
    ensures Parse(fmt, m) == Some(At(c, m)) <==> Clean(c)
  {
    if Clean(c) {
      RoundTrip(fmt, c, m);
    }
    SplitPieces(m.payload, ';');
    ParsedValuesAreClean(map[], Split(m.payload, ';'));
  }

  /** The consumer's place comes from the message, whatever the payload. */
  lemma {:induction false} ParsedPlace(fmt: NumberFormat, m: RawMessage)
    ensures var c := Parse(fmt, m);
            c.Some? ==>
              c.value.kafkaTopic == m.topic && c.value.kafkaPartition == m.partition && c.value.kafkaOffset == m.offset
  {
    hide ParseTokens;
  }

  // ---------- Any payload ----------

  /** The token assigns a value to the key. */
  predicate Assigns(token: string, key: string) {
    |key| < |token| && token[..|key|] == key && token[|key|] == '='
  }

  /** What the last token that assigns the key assigns to it. */
  function LastValue(tokens: seq<string>, key: string): Option<string> {
    if tokens == [] then None
    else
      var token := tokens[|tokens| - 1];
      if Assigns(token, key) then Some(token[|key| + 1..]) else LastValue(tokens[..|tokens| - 1], key)
  }

  lemma {:induction false} TokenAssigns(fields: map<string, string>, token: string, key: string)
    requires '=' !in key
    ensures var fields' := ParseToken(fields, token);
            if Assigns(token, key) then key in fields' && fields'[key] == token[|key| + 1..]
            else (key in fields' <==> key in fields) && (key in fields ==> fields'[key] == fields[key])
  {
    var i := IndexOf(token, '=');
    if Assigns(token, key) {
      assert forall j :: 0 <= j < |key| ==> token[j] == token[..|key|][j] == key[j];
      assert i == |key|;
    } else if i < |token| && token[..i] == key {
      assert false;
    }
  }

  lemma {:induction false} ParseTokensSnoc(fields: map<string, string>, tokens: seq<string>, token: string)
    ensures ParseTokens(fields, tokens + [token]) == ParseToken(ParseTokens(fields, tokens), token)
    decreases |tokens|
  {
    hide ParseToken;
    if tokens == [] {
      assert [] + [token] == [token] && [token][1..] == [];
      assert ParseTokens(fields, [token]) == ParseTokens(ParseToken(fields, token), []);
    } else {
      assert (tokens + [token])[0] == tokens[0] && (tokens + [token])[1..] == tokens[1..] + [token];
      ParseTokensSnoc(ParseToken(fields, tokens[0]), tokens[1..], token);
    }
  }

  /** The field map holds, under each key, what the last token that assigns the key assigns to it. */
  lemma {:induction false} ParsedFields(tokens: seq<string>, key: string)
    requires '=' !in key
    ensures var fields := ParseTokens(map[], tokens);
            LastValue(tokens, key) == if key in fields then Some(fields[key]) else None
    decreases |tokens|
  {
    hide ParseToken, Assigns;
    if tokens != [] {
      var pre, token := tokens[..|tokens| - 1], tokens[|tokens| - 1];
      assert tokens == pre + [token];
      ParseTokensSnoc(map[], pre, token);
      TokenAssigns(ParseTokens(map[], pre), token, key);
      ParsedFields(pre, key);
    }
  }

  /** A price is absent, or empty, or a number. */
  predicate PriceReads(fmt: NumberFormat, text: Option<string>, price: Option<real>) {
    if text.None? || text.value == "" then price == None else price.Some? && fmt.read(text.value) == price
  }

  /** The payload spells the command: six keys have values, the quantity is a number, and so is a price, if any. */
  ghost predicate Spells(fmt: NumberFormat, m: RawMessage, c: TransactionCommand) {
    var tokens := Split(m.payload, ';');
    && LastValue(tokens, ID) == Some(c.transactionId)
    && LastValue(tokens, USER) == Some(c.userId)
    && LastValue(tokens, ACCOUNT) == Some(c.accountId)
    && LastValue(tokens, COMMAND) == Some(c.commandType)
    && LastValue(tokens, SYMBOL) == Some(c.instrumentSymbol)
    && LastValue(tokens, QUANTITY).Some? && fmt.read(LastValue(tokens, QUANTITY).value) == Some(c.quantity)
    && PriceReads(fmt, LastValue(tokens, PRICE), c.price)
    && c.kafkaTopic == m.topic && c.kafkaPartition == m.partition && c.kafkaOffset == m.offset
  }

  /** For any payload at all, the consumer reads a command if and only if the payload spells that command. */
  lemma {:induction false} ParsesExactly(fmt: NumberFormat, m: RawMessage, c: TransactionCommand)
    ensures Parse(fmt, m) == Some(c) <==> Spells(fmt, m, c)
  {
    hide ParseTokens, LastValue, Split;
    var tokens := Split(m.payload, ';');
    ParsedFields(tokens, ID);
    ParsedFields(tokens, USER);
    ParsedFields(tokens, ACCOUNT);
    ParsedFields(tokens, COMMAND);
    ParsedFields(tokens, SYMBOL);
    ParsedFields(tokens, QUANTITY);
    ParsedFields(tokens, PRICE);
  }
}
