/** `events/cursor.ts`: the `<epoch>:<sequence>` resume cursor of the published event protocol. */
module EventCursor {
  import opened Outcomes
  import Decimal

  const EPOCH_LENGTH: nat := 32
  const MAX_DIGITS: nat := 20
  const MAX_SEQUENCE: nat := 18446744073709551615

  datatype Cursor = Cursor(epoch: string, sequence: nat)

  predicate IsLowerHex(c: char) {
    '0' <= c <= '9' || 'a' <= c <= 'f'
  }

  predicate IsEpoch(s: string) {
    |s| == EPOCH_LENGTH && forall i :: 0 <= i < |s| ==> IsLowerHex(s[i])
  }

  /** The test `^[0-9a-f]{32}:` that decides whether two ids are compared as cursors. */
  predicate HasEpochPrefix(value: string) {
    |value| > EPOCH_LENGTH && IsEpoch(value[..EPOCH_LENGTH]) && value[EPOCH_LENGTH] == ':'
  }

  predicate Valid(c: Cursor) {
    IsEpoch(c.epoch) && c.sequence <= MAX_SEQUENCE
  }

  /** `None` is the protocol error the source throws. */
  function Parse(value: string): Option<Cursor> {
    if !HasEpochPrefix(value) then None
    else
      var digits := value[EPOCH_LENGTH + 1..];
      if !Decimal.Canonical(digits) || |digits| > MAX_DIGITS then None
      else if Decimal.Value(digits) > MAX_SEQUENCE then None
      else Some(Cursor(value[..EPOCH_LENGTH], Decimal.Value(digits)))
  }

  /** How a server writes a cursor. */
  function Format(c: Cursor): string {
    c.epoch + ":" + Decimal.Render(c.sequence)
  }

  lemma ParseFormat(c: Cursor)
    requires Valid(c)
    ensures Parse(Format(c)) == Some(c) && HasEpochPrefix(Format(c))
  {
    var value := Format(c);
    assert value[..EPOCH_LENGTH] == c.epoch;
    assert value[EPOCH_LENGTH + 1..] == Decimal.Render(c.sequence);
    Decimal.ValueOfRender(c.sequence);
    assert Decimal.Pow10(5) == 100000;
    assert Decimal.Pow10(10) == 10000000000;
    assert Decimal.Pow10(15) == 1000000000000000;
    assert Decimal.Pow10(MAX_DIGITS) == 100000000000000000000;
    Decimal.RenderLength(c.sequence, MAX_DIGITS);
  }

  /** Parsing accepts only what `Format` writes, so a parsed id determines its text. */
  lemma FormatParse(value: string)
    requires Parse(value).Some?
    ensures Valid(Parse(value).value) && Format(Parse(value).value) == value
  {
    var digits := value[EPOCH_LENGTH + 1..];
    Decimal.RenderOfValue(digits);
    assert value == value[..EPOCH_LENGTH] + ":" + digits;
  }

  /** `/^…$/` rejects a sequence that does not fit in an unsigned 64-bit integer or is not canonical. */
  lemma ParseAccepts(value: string)
    ensures Parse(value).Some? <==> exists c :: Valid(c) && Format(c) == value
  {
    if Parse(value).Some? {
      FormatParse(value);
    }
    forall c | Valid(c) && Format(c) == value ensures Parse(value).Some? {
      ParseFormat(c);
    }
  }
}
