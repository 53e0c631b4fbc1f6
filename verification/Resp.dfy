/**
 * The Redis request printer of the draft store, internal/bot/draft.go, and a parser for what it
 * prints: an array of bulk strings, as the Arrays and Bulk strings sections of the Redis
 * serialization protocol specification define them.
 */
module Resp {
  import opened Prelude
  import opened Decimal

  newtype Byte = b: int | 0 <= b < 256

  type Bytes = seq<Byte>

  const CR: Byte := 13

  const LF: Byte := 10

  const STAR: Byte := 42

  const DOLLAR: Byte := 36

  const ZERO: Byte := 48

  // ---------- Printing ----------

  predicate IsDigit(b: Byte) {
    ZERO <= b < ZERO + 10
  }

  function Ascii(ds: seq<Digit>): (text: Bytes)
    ensures |text| == |ds|
    ensures forall i :: 0 <= i < |ds| ==> IsDigit(text[i]) && text[i] == ZERO + ds[i] as Byte
  {
    seq(|ds|, i requires 0 <= i < |ds| => ZERO + ds[i] as Byte)
  }

  function Header(tag: Byte, n: nat): Bytes {
    [tag] + Ascii(Digits(n)) + [CR, LF]
  }

  function Bulk(value: Bytes): Bytes {
    Header(DOLLAR, |value|) + value + [CR, LF]
  }

  function Bulks(values: seq<Bytes>): Bytes {
    if values == [] then [] else Bulk(values[0]) + Bulks(values[1..])
  }

  function Request(values: seq<Bytes>): Bytes {
    Header(STAR, |values|) + Bulks(values)
  }

  /** *1 $4 PING, each part ended by CR LF. */
  lemma PingIsPrinted()
    ensures Request([[80, 73, 78, 71]]) == [42, 49, 13, 10, 36, 52, 13, 10, 80, 73, 78, 71, 13, 10]
  {
    assert [[80, 73, 78, 71]][1..] == [];
    assert Digits(1) == [1] && Digits(4) == [4];
    assert Bulks([[80, 73, 78, 71]]) == Bulk([80, 73, 78, 71]);
  }

  lemma {:induction false} BulksAppend(values: seq<Bytes>, value: Bytes)
    ensures Bulks(values + [value]) == Bulks(values) + Bulk(value)
  {
    hide Bulk;
    if values == [] {
      assert Bulks([value][1..]) == [];
      assert values + [value] == [value];
    } else {
      BulksAppend(values[1..], value);
      assert (values + [value])[0] == values[0];
      assert (values + [value])[1..] == values[1..] + [value];
    }
  }

  lemma NoBulks(values: seq<Bytes>)
    requires values == []
    ensures Bulks(values) == []
  {
  }

  /** The request builder loop of `command`. */
  method BuildRequest(values: seq<Bytes>) returns (request: Bytes)
    ensures request == Request(values)
  {
    hide Header, Bulks;
    assert Bulks(values[..0]) == [] by {
      NoBulks(values[..0]);
    }
    request := Header(STAR, |values|);
    for i := 0 to |values|
      invariant request == Header(STAR, |values|) + Bulks(values[..i])
    {
      request := request + Header(DOLLAR, |values[i]|);
      request := request + values[i] + [CR, LF];
      assert values[..i + 1] == values[..i] + [values[i]];
      BulksAppend(values[..i], values[i]);
      assert Bulk(values[i]) == Header(DOLLAR, |values[i]|) + values[i] + [CR, LF];
    }
    assert values[..|values|] == values;
  }

  // ---------- Parsing ----------

  /** The number of digits at the head of `input`. */
  function DigitRun(input: Bytes): (k: nat)
    ensures k <= |input|
    ensures forall i :: 0 <= i < k ==> IsDigit(input[i])
    ensures k < |input| ==> !IsDigit(input[k])
  {
    if input == [] || !IsDigit(input[0]) then 0 else 1 + DigitRun(input[1..])
  }

  function DigitValue(b: Byte): Digit
    requires IsDigit(b)
  {
    (b as int) - (ZERO as int)
  }

  function DigitValues(text: Bytes): seq<Digit>
    requires forall i :: 0 <= i < |text| ==> IsDigit(text[i])
  {
    seq(|text|, i requires 0 <= i < |text| => DigitValue(text[i]))
  }

  /** A header `<tag><digits>CR LF`: the number and what follows. */
  function ParseHeader(tag: Byte, input: Bytes): Option<(nat, Bytes)> {
    if input == [] || input[0] != tag then None
    else
      var rest := input[1..];
      var k := DigitRun(rest);
      if k == 0 || k + 2 > |rest| || rest[k] != CR || rest[k + 1] != LF then None
      else Some((Value(DigitValues(rest[..k])), rest[k + 2..]))
  }

  function ParseBulk(input: Bytes): Option<(Bytes, Bytes)> {
    match ParseHeader(DOLLAR, input)
    case None => None
    case Some((n, rest)) =>
      if n + 2 > |rest| || rest[n] != CR || rest[n + 1] != LF then None
      else Some((rest[..n], rest[n + 2..]))
  }

  function ParseBulks(n: nat, input: Bytes): Option<(seq<Bytes>, Bytes)> {
    if n == 0 then Some(([], input))
    else
      match ParseBulk(input)
      case None => None
      case Some((value, rest)) =>
        match ParseBulks(n - 1, rest)
        case None => None
        case Some((values, tail)) => Some(([value] + values, tail))
  }

  function ParseRequest(input: Bytes): Option<(seq<Bytes>, Bytes)> {
    match ParseHeader(STAR, input)
    case None => None
    case Some((n, rest)) => ParseBulks(n, rest)
  }

  // ---------- The printer is uniquely decodable ----------

  lemma HeaderRoundTrip(tag: Byte, n: nat, rest: Bytes)
    ensures ParseHeader(tag, Header(tag, n) + rest) == Some((n, rest))
  {
    var input := Header(tag, n) + rest;
    var text := Ascii(Digits(n));
    var tail := input[1..];
    assert tail == text + [CR, LF] + rest;
    var k := DigitRun(tail);
    assert k == |text| by {
      assert tail[|text|] == CR;
      assert forall i :: 0 <= i < |text| ==> tail[i] == text[i];
    }
    assert tail[..k] == text;
    assert DigitValues(text) == Digits(n);
    assert tail[k + 2..] == rest;
    ValueOfDigits(n);
  }

  lemma BulkRoundTrip(value: Bytes, rest: Bytes)
    ensures ParseBulk(Bulk(value) + rest) == Some((value, rest))
  {
    var body := value + [CR, LF] + rest;
    assert Bulk(value) + rest == Header(DOLLAR, |value|) + body;
    HeaderRoundTrip(DOLLAR, |value|, body);
    assert body[..|value|] == value;
    assert body[|value| + 2..] == rest;
  }

  lemma Regroup(a: Bytes, b: Bytes, c: Bytes)
    ensures (a + b) + c == a + (b + c)
  {
  }

  lemma {:induction false} BulksRoundTrip(values: seq<Bytes>, rest: Bytes)
    ensures ParseBulks(|values|, Bulks(values) + rest) == Some((values, rest))
  {
    hide Bulk, ParseBulk;
    if values == [] {
      assert Bulks(values) + rest == rest;
    } else {
      var tail := Bulks(values[1..]) + rest;
      BulksRoundTrip(values[1..], rest);
      Regroup(Bulk(values[0]), Bulks(values[1..]), rest);
      BulkRoundTrip(values[0], tail);
      assert ParseBulk(Bulks(values) + rest) == Some((values[0], tail));
      assert [values[0]] + values[1..] == values;
    }
  }

  /** The parser recovers every list of values, whatever bytes they hold and whatever follows. */
  lemma RequestRoundTrip(values: seq<Bytes>, rest: Bytes)
    ensures ParseRequest(Request(values) + rest) == Some((values, rest))
  {
    hide Header, Bulks, ParseHeader, ParseBulks;
    Regroup(Header(STAR, |values|), Bulks(values), rest);
    HeaderRoundTrip(STAR, |values|, Bulks(values) + rest);
    BulksRoundTrip(values, rest);
  }

  /** So no request is a prefix of the request of another list. */
  lemma RequestsArePrefixFree(values: seq<Bytes>, others: seq<Bytes>)
    requires Request(values) <= Request(others)
    ensures values == others
  {
    var rest := Request(others)[|Request(values)|..];
    assert Request(others) == Request(values) + rest;
    RequestRoundTrip(values, rest);
    assert Request(others) == Request(others) + [];
    RequestRoundTrip(others, []);
  }
}

