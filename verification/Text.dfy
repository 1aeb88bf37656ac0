/** Text building blocks of the two codecs: splitting as `std::getline` does it, joining, and decimal integers. */
module Text {
  import opened Types

  // ---------- Searching and splitting ----------

  /** Position of the first `d`, or the length of the text. */
  function IndexOf(s: string, d: char): (i: nat)
    ensures i <= |s| && (forall k :: 0 <= k < i ==> s[k] != d) && (i < |s| ==> s[i] == d)
  {
    if s == "" || s[0] == d then 0 else 1 + IndexOf(s[1..], d)
  }

  /** The pieces a `getline` loop yields: text between delimiters, without a last empty piece. */
  function Split(s: string, d: char): seq<string> {
    if s == "" then []
    else
      var i := IndexOf(s, d);
      if i == |s| then [s] else [s[..i]] + Split(s[i + 1..], d)
  }

  function Join(pieces: seq<string>, d: char): string {
    if pieces == [] then ""
    else if |pieces| == 1 then pieces[0]
    else pieces[0] + [d] + Join(pieces[1..], d)
  }

  /** Every piece followed by the delimiter, as lines in a file. */
  function Lines(pieces: seq<string>, d: char): string {
    if pieces == [] then "" else pieces[0] + [d] + Lines(pieces[1..], d)
  }

  lemma {:induction false} IndexOfFirst(a: string, d: char, b: string)
    requires d !in a
    ensures IndexOf(a + [d] + b, d) == |a|
  {
    var s := a + [d] + b;
    assert s[|a|] == d;
    assert forall k :: 0 <= k < |a| ==> s[k] == a[k];
  }

  lemma {:induction false} SplitFirst(a: string, d: char, b: string)
    requires d !in a
    ensures Split(a + [d] + b, d) == [a] + Split(b, d)
  {
    var s := a + [d] + b;
    IndexOfFirst(a, d, b);
    assert s[..|a|] == a && s[|a| + 1..] == b;
  }

  lemma {:induction false} SplitOne(a: string, d: char)
    requires d !in a && a != ""
    ensures Split(a, d) == [a]
  {
    var i := IndexOf(a, d);
    assert i == |a|;
  }

  ghost predicate Without(pieces: seq<string>, d: char) {
    forall p :: p in pieces ==> d !in p
  }

  lemma {:induction false} SplitJoinMore(first: string, rest: seq<string>, d: char)
    requires d !in first && rest != [] && Split(Join(rest, d), d) == rest
    ensures Split(Join([first] + rest, d), d) == [first] + rest
  {
    hide Split;
    assert ([first] + rest)[1..] == rest;
    SplitFirst(first, d, Join(rest, d));
  }

  lemma {:induction false} WithoutRest(pieces: seq<string>, d: char)
    requires Without(pieces, d) && pieces != []
    ensures d !in pieces[0] && Without(pieces[1..], d)
  {
    assert pieces[0] in pieces;
  }

  /** Splitting undoes joining, empty middle pieces included, as long as the last piece is not empty. */
  lemma {:induction false} SplitJoin(pieces: seq<string>, d: char)
    requires Without(pieces, d) && (pieces != [] ==> pieces[|pieces| - 1] != "")
    ensures Split(Join(pieces, d), d) == pieces
  {
    if pieces != [] {
      hide Split, Without;
      WithoutRest(pieces, d);
      if |pieces| == 1 {
        SplitOne(pieces[0], d);
      } else {
        hide Join;
        var rest := pieces[1..];
        SplitJoin(rest, d);
        SplitJoinMore(pieces[0], rest, d);
        assert [pieces[0]] + rest == pieces;
      }
    }
  }

  lemma {:induction false} JoinOne(p: string, d: char)
    ensures Join([p], d) == p
  {
  }

  lemma {:induction false} JoinSnoc(pieces: seq<string>, p: string, d: char)
    requires pieces != []
    ensures Join(pieces + [p], d) == Join(pieces, d) + [d] + p
  {
    assert (pieces + [p])[1..] == pieces[1..] + [p];
    if |pieces| == 1 {
      assert pieces[1..] + [p] == [p];
    } else {
      JoinSnoc(pieces[1..], p, d);
      assert pieces[0] + [d] + (Join(pieces[1..], d) + [d] + p) == pieces[0] + [d] + Join(pieces[1..], d) + [d] + p;
    }
  }

  /** Reading back lines gives the lines. */
  lemma {:induction false} SplitLines(pieces: seq<string>, d: char)
    requires Without(pieces, d)
    ensures Split(Lines(pieces, d), d) == pieces
  {
    if pieces != [] {
      assert pieces[0] in pieces;
      SplitFirst(pieces[0], d, Lines(pieces[1..], d));
      SplitLines(pieces[1..], d);
    }
  }

  /** No piece holds the delimiter, and pieces hold only characters of the text. */
  lemma {:induction false} SplitPieces(s: string, d: char)
    ensures Without(Split(s, d), d)
    ensures forall p, c :: p in Split(s, d) && c in p ==> c in s
  {
    if s != "" {
      var i := IndexOf(s, d);
      if i == |s| {
        assert Split(s, d) == [s];
      } else {
        var first, rest := s[..i], s[i + 1..];
        assert d !in first && Split(s, d) == [first] + Split(rest, d);
        SplitPieces(rest, d);
        hide Split, IndexOf;
        forall p | p in [first] + Split(rest, d)
          ensures d !in p && forall c :: c in p ==> c in s
        {
          if p != first {
            assert p in Split(rest, d) && forall c :: c in p ==> c in rest;
          }
        }
      }
    }
  }

  /** The `getline` loop. */
  method SplitText(s: string, d: char) returns (pieces: seq<string>)
    ensures pieces == Split(s, d)
  {
    pieces := [];
    var rest := s;
    while rest != ""
      invariant pieces + Split(rest, d) == Split(s, d)
      decreases |rest|
    {
      var i := IndexOf(rest, d);
      assert i == |rest| ==> rest[..i] == rest && Split(rest, d) == [rest] && Split("", d) == [];
      pieces := pieces + [rest[..i]];
      rest := if i == |rest| then "" else rest[i + 1..];
    }
  }

  // ---------- Decimal integers ----------

  predicate IsDigit(c: char) {
    '0' <= c <= '9'
  }

  function Digit(n: nat): char
    requires n < 10
  {
    ['0', '1', '2', '3', '4', '5', '6', '7', '8', '9'][n]
  }

  function ShowNat(n: nat): string {
    if n < 10 then [Digit(n)] else ShowNat(n / 10) + [Digit(n % 10)]
  }

  function ShowInt(n: int): string {
    if n < 0 then "-" + ShowNat(-n) else ShowNat(n)
  }

  function DigitValue(c: char): nat
    requires IsDigit(c)
  {
    c as int - '0' as int
  }

  /** How many digits the text starts with. */
  function DigitCount(s: string): (k: nat)
    ensures k <= |s| && forall i :: 0 <= i < k ==> IsDigit(s[i])
  {
    if s == "" || !IsDigit(s[0]) then 0 else 1 + DigitCount(s[1..])
  }

  function Value(s: string): int
    requires forall i :: 0 <= i < |s| ==> IsDigit(s[i])
  {
    if s == "" then 0 else Value(s[..|s| - 1]) * 10 + DigitValue(s[|s| - 1])
  }

  predicate IsSpace(c: char) {
    c in {' ', '\t', '\n', '\r', 11 as char, 12 as char}
  }

  lemma {:induction false} SpaceCodes(c: char)
    ensures IsSpace(c) <==> c == ' ' || 9 <= c as int <= 13
  {
    assert c as int == 9 ==> c == '\t';
    assert c as int == 10 ==> c == '\n';
    assert c as int == 11 ==> c == 11 as char;
    assert c as int == 12 ==> c == 12 as char;
    assert c as int == 13 ==> c == '\r';
  }

  function SkipSpaces(s: string): string {
    if s != "" && IsSpace(s[0]) then SkipSpaces(s[1..]) else s
  }

  /** The number the leading digits denote, if there are any. */
  function ReadDigits(s: string): Option<int> {
    var k := DigitCount(s);
    if k == 0 then None else Some(Value(s[..k]))
  }

  /**
   `std::stoi` and `std::stoll`: leading space, sign and digits; trailing text is ignored; failure when out of range.
   */
  function ReadInt(s: string, low: int, high: int): Option<int> {
    var t := SkipSpaces(s);
    var signed := t != "" && (t[0] == '-' || t[0] == '+');
    var digits := ReadDigits(if signed then t[1..] else t);
    if digits.None? then None
    else
      var v := if signed && t[0] == '-' then -digits.value else digits.value;
      if low <= v <= high then Some(v) else None
  }

  ghost predicate AllDigits(s: string) {
    s != "" && forall i :: 0 <= i < |s| ==> IsDigit(s[i])
  }

  lemma {:induction false} ShowNatDigits(n: nat)
    ensures AllDigits(ShowNat(n)) && Value(ShowNat(n)) == n
  {
    if n >= 10 {
      ShowNatDigits(n / 10);
      var s := ShowNat(n);
      assert s[..|s| - 1] == ShowNat(n / 10);
    } else {
      assert ShowNat(n)[..0] == "";
    }
  }

  lemma {:induction false} DigitCountAll(s: string)
    requires forall i :: 0 <= i < |s| ==> IsDigit(s[i])
    ensures DigitCount(s) == |s|
  {
    if s != "" {
      DigitCountAll(s[1..]);
    }
  }

  lemma {:induction false} ReadShowNat(n: nat)
    ensures ReadDigits(ShowNat(n)) == Some(n) && ShowNat(n) != "" && IsDigit(ShowNat(n)[0])
  {
    var u := ShowNat(n);
    ShowNatDigits(n);
    DigitCountAll(u);
    assert u[..|u|] == u;
  }

  /** Reading a printed integer gives it back. */
  lemma {:induction false} ReadShowInt(n: int, low: int, high: int)
    requires low <= n <= high
    ensures ReadInt(ShowInt(n), low, high) == Some(n)
  {
    hide ShowNat, ReadDigits;
    var m := if n < 0 then -n else n;
    ReadShowNat(m);
    var s, u := ShowInt(n), ShowNat(m);
    if n < 0 {
      assert s[0] == '-' && s[1..] == u;
    } else {
      assert s == u;
    }
  }

  lemma {:induction false} SkipsSpaces(spaces: string, t: string)
    requires (forall c :: c in spaces ==> IsSpace(c)) && (t == "" || !IsSpace(t[0]))
    ensures SkipSpaces(spaces + t) == t
  {
    if spaces == "" {
      assert spaces + t == t;
    } else {
      assert spaces[0] in spaces && (spaces + t)[1..] == spaces[1..] + t;
      SkipsSpaces(spaces[1..], t);
    }
  }

  lemma {:induction false} CountsDigits(digits: string, rest: string)
    requires (forall i :: 0 <= i < |digits| ==> IsDigit(digits[i])) && (rest == "" || !IsDigit(rest[0]))
    ensures DigitCount(digits + rest) == |digits|
  {
    if digits == "" {
      assert digits + rest == rest;
    } else {
      assert (digits + rest)[1..] == digits[1..] + rest;
      CountsDigits(digits[1..], rest);
    }
  }

  /**
   Reading an integer skips leading space, takes an optional sign and all the digits that follow, and ignores the rest;
   it fails when the value is out of range.
   */
  lemma {:induction false} ReadIntText(spaces: string, sign: string, n: nat, rest: string, low: int, high: int)
    requires forall c :: c in spaces ==> c == ' ' || 9 <= c as int <= 13
    requires sign in {"", "+", "-"} && (rest == "" || !IsDigit(rest[0]))
    ensures var v: int := if sign == "-" then -(n as int) else n;
            ReadInt(spaces + (sign + ShowNat(n) + rest), low, high) == if low <= v <= high then Some(v) else None
  {
    var digits := ShowNat(n);
    ShowNatDigits(n);
    hide ShowNat;
    forall c | c in spaces
      ensures IsSpace(c)
    {
      SpaceCodes(c);
    }
    var t := sign + digits + rest;
    assert t[0] == if sign == "" then digits[0] else sign[0];
    SkipsSpaces(spaces, t);
    hide SkipSpaces;
    DigitsRead(digits, rest);
    hide ReadDigits, Value;
    if sign == "" {
      assert t == digits + rest;
    } else {
      assert t[1..] == digits + rest;
    }
  }

  lemma {:induction false} DigitsRead(digits: string, rest: string)
    requires AllDigits(digits) && (rest == "" || !IsDigit(rest[0]))
    ensures ReadDigits(digits + rest) == Some(Value(digits))
  {
    CountsDigits(digits, rest);
    assert (digits + rest)[..|digits|] == digits;
    hide Value, DigitCount;
  }

  /** Text that does not continue with a digit after space and sign is no integer. */
  lemma {:induction false} ReadIntNeedsDigits(spaces: string, sign: string, rest: string, low: int, high: int)
    requires forall c :: c in spaces ==> IsSpace(c)
    requires sign in {"", "+", "-"} && (rest == "" || !IsDigit(rest[0]))
    requires sign == "" && rest != "" ==> !IsSpace(rest[0]) && rest[0] != '-' && rest[0] != '+'
    ensures ReadInt(spaces + (sign + rest), low, high) == None
  {
    var t := sign + rest;
    assert t != "" ==> t[0] == if sign == "" then rest[0] else sign[0];
    SkipsSpaces(spaces, t);
    assert sign != "" ==> t[1..] == rest;
    assert sign == "" ==> t == rest;
    hide SkipSpaces;
  }

  /** A printed integer is not empty and consists of digits and a sign. */
  lemma {:induction false} ShowIntPlain(n: int)
    ensures ShowInt(n) != "" && forall c :: c in ShowInt(n) ==> IsDigit(c) || c == '-'
  {
    ShowNatDigits(if n < 0 then -n else n);
  }

  /** Distinct integers print differently. */
  lemma {:induction false} ShowIntInjective(m: int, n: int)
    requires ShowInt(m) == ShowInt(n)
    ensures m == n
  {
    var low, high := if m < n then m else n, if m < n then n else m;
    ReadShowInt(m, low, high);
    ReadShowInt(n, low, high);
  }

  /** The recovery service files checkpoints under topic, '#' and partition; the key tells them apart. */
  function CheckpointKey(topic: string, partition: int): string {
    topic + "#" + ShowInt(partition)
  }

  lemma {:induction false} LastHash(a: string, b: string, a': string, b': string)
    requires a + ['#'] + b == a' + ['#'] + b' && '#' !in b && '#' !in b'
    ensures a == a' && b == b'
  {
    var s := a + ['#'] + b;
    assert s[|a|] == '#' && s[|a'|] == '#';
    assert forall k :: |a| < k < |s| ==> s[k] == b[k - |a| - 1];
    assert forall k :: |a'| < k < |s| ==> s[k] == b'[k - |a'| - 1];
    assert |a| == |a'|;
    assert a == s[..|a|] && b == s[|a| + 1..];
  }

  lemma {:induction false} CheckpointKeysDiffer(topic: string, partition: int, topic': string, partition': int)
    requires CheckpointKey(topic, partition) == CheckpointKey(topic', partition')
    ensures topic == topic' && partition == partition'
  {
    ShowIntPlain(partition);
    ShowIntPlain(partition');
    hide ShowInt;
    LastHash(topic, ShowInt(partition), topic', ShowInt(partition'));
    ShowIntInjective(partition, partition');
  }

  // ---------- Numbers ----------

  /**
   How floating-point numbers are written and read: `show` is stream output, `showFixed` is
   `std::to_string`, and `read` is `std::stod`, which fails on text that is no number.
   */
  datatype NumberFormat = NumberFormat(show: real -> string, showFixed: real -> string, read: string -> Option<real>)

  /** Text that no codec mistakes for structure. */
  predicate Plain(s: string) {
    s != "" && forall c :: c in s ==> c !in {'\t', '\n', ';', ',', ':'}
  }

  /** `x` survives stream output. */
  predicate Exact(fmt: NumberFormat, x: real) {
    Plain(fmt.show(x)) && fmt.read(fmt.show(x)) == Some(x)
  }

  /** `x`, when present, survives `std::to_string`. */
  predicate ExactFixed(fmt: NumberFormat, x: Option<real>) {
    x.Some? ==> Plain(fmt.showFixed(x.value)) && fmt.read(fmt.showFixed(x.value)) == Some(x.value)
  }
}
