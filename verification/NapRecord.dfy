/** The text of one redundant slot file of the NAP sequence allocator. The checksum is a parameter. */
module NapRecord {
  import opened Base
  import Decimal
  import opened Texts

  const MAX_LEGACY_BYTES: nat := 64
  const MAX_RECORD_BYTES: nat := 256
  const HEADER: string := "NETA-NAP-SEQUENCE/1\nsequence="
  const CHECKSUM_PREFIX: string := "\nchecksum=sha256:"

  datatype ParseError =
    | EmptyValue | ValueTooLarge | NonDecimal | InvalidInteger
    | Malformed | InvalidHeader | InvalidStructure | ChecksumMismatch

  /** A checksum function that renders like a SHA-256 digest: 64 characters, none of them NUL. */
  ghost predicate HexDigest(h: string -> string) {
    forall s: string :: |h(s)| == 64 && '\0' !in h(s)
  }

  function DropTrailing(text: string, c: char): string {
    if text != [] && text[|text| - 1] == c then text[..|text| - 1] else text
  }

  function ParseDecimal(text: string): (r: Result<nat, ParseError>)
    ensures r.Ok? ==> r.value <= U64_MAX
  {
    var digits := DropTrailing(DropTrailing(text, '\n'), '\r');
    if digits == [] then Err(EmptyValue)
    else if |digits| > MAX_LEGACY_BYTES then Err(ValueTooLarge)
    else if !Decimal.AllDigits(digits) then Err(NonDecimal)
    else if Decimal.Value(digits) > U64_MAX then Err(InvalidInteger)
    else Ok(Decimal.Value(digits))
  }

  function Body(n: nat): string { HEADER + Decimal.ToText(n) + "\n" }

  function MakeRecord(h: string -> string, n: nat): string {
    Body(n) + "checksum=sha256:" + h(Body(n)) + "\n"
  }

  function ParseRecord(h: string -> string, text: string): (r: Result<nat, ParseError>)
    ensures r.Ok? ==> r.value <= U64_MAX && text == MakeRecord(h, r.value)
  {
    if text == [] || |text| > MAX_RECORD_BYTES then Err(Malformed)
    else if '\0' in text || !(HEADER <= text) then Err(InvalidHeader)
    else
      var at := Find(text, CHECKSUM_PREFIX, |HEADER|);
      if at.None? || at.value == |HEADER| then Err(InvalidStructure)
      else
        var sequence := ParseDecimal(text[|HEADER|..at.value]);
        if sequence.Err? then sequence
        else if text != MakeRecord(h, sequence.value) then Err(ChecksumMismatch)
        else sequence
  }

  /** The value line written by the agent is read back as the value, with or without its newline. */
  lemma ParseDecimalOfText(n: nat)
    requires n <= U64_MAX
    ensures ParseDecimal(Decimal.ToText(n)) == Ok(n)
    ensures ParseDecimal(Decimal.ToText(n) + "\n") == Ok(n)
  {
    var text := Decimal.ToText(n);
    Decimal.ValueOfText(n);
    Decimal.TextLengthU64(n);
    assert Decimal.IsDigit(text[|text| - 1]);
    assert (text + "\n")[..|text|] == text;
    assert DropTrailing(text, '\n') == text == DropTrailing(text, '\r');
    assert DropTrailing(text + "\n", '\n') == text;
  }

  lemma NoNewline(digits: string)
    requires Decimal.AllDigits(digits)
    ensures '\n' !in digits && '\0' !in digits
  {
    forall i | 0 <= i < |digits| ensures digits[i] != '\n' && digits[i] != '\0' {
      assert Decimal.IsDigit(digits[i]);
    }
  }

  /** The search for the marker in a cut text `head + digits + marker + tail`. */
  lemma MarkerIn(head: string, digits: string, marker: string, tail: string, k: nat)
    requires Decimal.AllDigits(digits) && marker != [] && marker[0] == '\n'
    requires k <= |head + digits + marker + tail|
    ensures var text := (head + digits + marker + tail)[..k];
            var at := Find(text, marker, |head|);
            if |head| + |digits| + |marker| <= k
            then at == Some(|head| + |digits|) && text[|head|..at.value] == digits
            else at.None?
  {
    var full := head + digits + marker + tail;
    var text := full[..k];
    var mark := |head| + |digits|;
    var stop := Min(mark, k);
    assert full[|head|..mark] == digits && full[mark..mark + |marker|] == marker;
    if |head| < stop {
      assert text[|head|..stop] == full[|head|..mark][..stop - |head|];
      NoNewline(digits[..stop - |head|]);
    }
    if |head| <= stop {
      FindSkips(text, marker, |head|, stop);
    }
    if mark + |marker| <= k {
      assert text[mark..mark + |marker|] == full[mark..mark + |marker|];
      assert text[|head|..mark] == full[|head|..mark];
    }
  }

  lemma Reassociate(a: string, b: string, c: string, d: string, e: string, f: string)
    ensures a + b + c + d + e + f == a + b + (c + d) + (e + f)
  {
  }

  lemma RecordShape(h: string -> string, n: nat)
    ensures MakeRecord(h, n) == HEADER + Decimal.ToText(n) + CHECKSUM_PREFIX + (h(Body(n)) + "\n")
  {
    var digits := Decimal.ToText(n);
    assert "\n" + "checksum=sha256:" == CHECKSUM_PREFIX;
    Reassociate(HEADER, digits, "\n", "checksum=sha256:", h(Body(n)), "\n");
  }

  /** A record passes the size, character and header tests of the parser. */
  lemma RecordIsPlain(h: string -> string, n: nat)
    requires HexDigest(h) && n <= U64_MAX
    ensures var record := MakeRecord(h, n);
            0 < |record| <= MAX_RECORD_BYTES && '\0' !in record && HEADER <= record
  {
    RecordShape(h, n);
    hide MakeRecord, Body;
    var digits := Decimal.ToText(n);
    Decimal.TextLengthU64(n);
    NoNewline(digits);
    assert |HEADER| == 29 && |CHECKSUM_PREFIX| == 17;
    assert '\0' !in HEADER && '\0' !in CHECKSUM_PREFIX;
    var tail := h(Body(n)) + "\n";
    assert '\0' !in tail;
  }

  /** Every 64-bit number survives the trip through its record. */
  lemma RecordRoundTrip(h: string -> string, n: nat)
    requires HexDigest(h) && n <= U64_MAX
    ensures ParseRecord(h, MakeRecord(h, n)) == Ok(n)
  {
    var record := MakeRecord(h, n);
    RecordIsPlain(h, n);
    RecordShape(h, n);
    MarkerIn(HEADER, Decimal.ToText(n), CHECKSUM_PREFIX, h(Body(n)) + "\n", |record|);
    ParseDecimalOfText(n);
    hide MakeRecord, ParseDecimal, Body, Find;
    assert record[..|record|] == record;
  }

  /** The parser accepts exactly the records of 64-bit numbers. */
  lemma AcceptsExactlyRecords(h: string -> string, text: string)
    requires HexDigest(h)
    ensures ParseRecord(h, text).Ok? <==> exists n: nat :: n <= U64_MAX && text == MakeRecord(h, n)
  {
    if n: nat :| n <= U64_MAX && text == MakeRecord(h, n) {
      RecordRoundTrip(h, n);
    }
  }

  /** A record cut short is never accepted, whatever the checksum function is. */
  lemma NoProperPrefixAccepted(h: string -> string, n: nat, k: nat)
    requires n <= U64_MAX && k < |MakeRecord(h, n)|
    ensures ParseRecord(h, MakeRecord(h, n)[..k]).Err?
  {
    RecordShape(h, n);
    hide MakeRecord, ParseDecimal, Body, Find, Decimal.ToText;
    MarkerIn(HEADER, Decimal.ToText(n), CHECKSUM_PREFIX, h(Body(n)) + "\n", k);
    ParseDecimalOfText(n);
  }
}
