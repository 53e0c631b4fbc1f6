/** Amounts: the client's text, what big.Rat says of it, and what a NUMERIC(14,2) column makes of it. */
module Money {
  import opened Prelude
  import opened Decimal

  /**
   * `positive` is the answer of ValidAmount. `cents` is the value the column stores, rounded to
   * two places; None when the database rejects the text or the value does not fit.
   */
  datatype Amount = Amount(text: string, positive: bool, cents: Option<nat>)

  function Text(ds: seq<Digit>): (text: string)
    ensures |text| == |ds|
    ensures forall i :: 0 <= i < |ds| ==> text[i] == ('0' as int + ds[i]) as char
  {
    seq(|ds|, i requires 0 <= i < |ds| => ('0' as int + ds[i]) as char)
  }

  function Cents(cents: nat): seq<Digit> {
    [cents / 10 % 10, cents % 10]
  }

  /** The column's normal form, as SELECT amount::text prints it. */
  function Render(cents: nat): string {
    Text(Digits(cents / 100)) + "." + Text(Cents(cents))
  }

  function Stored(cents: nat): Amount {
    Amount(Render(cents), cents > 0, Some(cents))
  }

  predicate Storable(a: Amount) {
    a.cents.Some? && a.cents.value > 0
  }

  function Settle(a: Amount): Amount {
    if a.cents.Some? then Stored(a.cents.value) else a
  }

  /** The database reads its own normal form back as the value it printed. */
  ghost predicate WellRead(a: Amount) {
    forall c: nat :: a.text == Render(c) ==> a.cents == Some(c) && a.positive == (c > 0)
  }

  /** What a text of decimal digits denotes; a full stop among them is passed over. */
  function Denoted(text: string): nat {
    if text == "" then 0
    else
      var c := text[|text| - 1];
      if '0' <= c <= '9' then Denoted(text[..|text| - 1]) * 10 + (c as int - '0' as int)
      else Denoted(text[..|text| - 1])
  }

  lemma {:induction false} TextDenotes(ds: seq<Digit>)
    ensures Denoted(Text(ds)) == Value(ds)
  {
    if ds != [] {
      TextDenotes(ds[..|ds| - 1]);
      assert Text(ds)[..|ds| - 1] == Text(ds[..|ds| - 1]);
    }
  }

  lemma OneMoreIsDenoted(text: string, c: char)
    ensures Denoted(text + [c]) == if '0' <= c <= '9' then Denoted(text) * 10 + (c as int - '0' as int)
        else Denoted(text)
  {
    assert (text + [c])[..|text|] == text;
  }

  lemma HundredthsDenote(whole: string, cents: nat)
    ensures Denoted(whole + "." + Text(Cents(cents))) == Denoted(whole) * 100 + cents % 100
  {
    hide Denoted;
    var tail := Text(Cents(cents));
    OneMoreIsDenoted(whole, '.');
    OneMoreIsDenoted(whole + ".", tail[0]);
    OneMoreIsDenoted(whole + "." + [tail[0]], tail[1]);
    assert tail == [tail[0]] + [tail[1]];
    assert whole + "." + tail == whole + "." + [tail[0]] + [tail[1]];
    assert cents / 10 % 10 * 10 + cents % 10 == cents % 100;
  }

  /** The printed amount denotes the stored one: its digits read as hundredths, the full stop before the last two. */
  lemma RenderDenotes(cents: nat)
    ensures Denoted(Render(cents)) == cents
    ensures |Render(cents)| >= 4 && Render(cents)[|Render(cents)| - 3] == '.'
  {
    hide Denoted, Value, Digits;
    TextDenotes(Digits(cents / 100));
    ValueOfDigits(cents / 100);
    HundredthsDenote(Text(Digits(cents / 100)), cents);
  }

  lemma RenderInjective(a: nat, b: nat)
    requires Render(a) == Render(b)
    ensures a == b
  {
    hide Render;
    RenderDenotes(a);
    RenderDenotes(b);
  }

  /** Stored amounts are well read, so the assumption on requests is met by every amount read before. */
  lemma StoredIsWellRead(cents: nat)
    ensures WellRead(Stored(cents))
  {
    forall c: nat | Render(cents) == Render(c)
      ensures c == cents
    {
      RenderInjective(cents, c);
    }
  }
}

