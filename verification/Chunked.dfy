/** The chunked transfer coding of section 7.1 of RFC 9112, as the artifact download decodes it. */
module Chunked {
  import opened Base
  import opened Texts
  import opened UpgradeJson

  const CRLF: string := "\r\n"

  type Decoded = Result<string, string>

  // ---------- The size line ----------

  predicate IsHex(c: char) { '0' <= c <= '9' || 'a' <= c <= 'f' || 'A' <= c <= 'F' }

  function HexValue(c: char): nat
    requires IsHex(c)
  {
    if c <= '9' then c as nat - '0' as nat else if c <= 'F' then c as nat - 'A' as nat + 10 else c as nat - 'a' as nat + 10
  }

  predicate AllHex(s: string) { forall k | 0 <= k < |s| :: IsHex(s[k]) }

  function HexNumber(s: string): nat
    requires AllHex(s)
  {
    if s == "" then 0 else 16 * HexNumber(s[..|s| - 1]) + HexValue(s[|s| - 1])
  }

  /** `from_chars` in base sixteen over the whole text, into 64 bits. */
  function ParseHex(s: string): Option<nat> {
    if s == "" || !AllHex(s) || HexNumber(s) > U64_MAX then None else Some(HexNumber(s))
  }

  /** A number in base sixteen, as a sender writes it in either case. */
  function HexText(n: nat, upper: bool): string {
    var digit := (if upper then "0123456789ABCDEF" else "0123456789abcdef")[n % 16];
    if n < 16 then [digit] else HexText(n / 16, upper) + [digit]
  }

  /** Every 64-bit number a sender writes is read back, and larger ones are refused. */
  lemma HexTextIsRead(n: nat, upper: bool)
    ensures ParseHex(HexText(n, upper)) == if n <= U64_MAX then Some(n) else None
  {
    HexTextValue(n, upper);
  }

  lemma {:induction false} HexTextValue(n: nat, upper: bool)
    ensures var text := HexText(n, upper); text != "" && AllHex(text) && HexNumber(text) == n
  {
    var text := HexText(n, upper);
    DigitValue(n % 16, upper);
    if n < 16 {
      assert text[..0] == "";
    } else {
      HexTextValue(n / 16, upper);
      assert text[..|text| - 1] == HexText(n / 16, upper);
    }
  }

  lemma DigitValue(d: nat, upper: bool)
    requires d < 16
    ensures var c := (if upper then "0123456789ABCDEF" else "0123456789abcdef")[d]; IsHex(c) && HexValue(c) == d
  {
  }

  function TrimEnd(s: string): string { if s != "" && IsSpace(s[|s| - 1]) then TrimEnd(s[..|s| - 1]) else s }

  function Trim(s: string): string { TrimEnd(SkipSpace(s)) }

  /** The size a line announces: a chunk extension after a semicolon is cut off. */
  function SizeOf(line: string): Option<nat> {
    var semicolon := Find(line, ";", 0);
    ParseHex(Trim(if semicolon.Some? then line[..semicolon.value] else line))
  }

  // ---------- Decoding ----------

  /** What the decoder does with the next line: stop, or go on after a chunk. */
  datatype Next = Stop(result: Decoded) | More(rest: string, output: string)

  function NextChunk(rest: string, output: string, max: nat): (r: Next)
    requires |output| <= max
    ensures r.More? ==> |r.rest| < |rest| && |r.output| <= max
    ensures r.Stop? && r.result.Ok? ==> r.result.value == output
  {
    var end := Find(rest, CRLF, 0);
    if end.None? then Stop(Err("invalid chunked artifact response"))
    else NextSized(SizeOf(rest[..end.value]), rest[end.value + 2..], output, max)
  }

  function NextSized(size: Option<nat>, data: string, output: string, max: nat): (r: Next)
    requires |output| <= max
    ensures r.More? ==> |r.rest| <= |data| && |r.output| <= max
    ensures r.Stop? && r.result.Ok? ==> r.result.value == output
  {
    if size.None? then Stop(Err("invalid chunk size in artifact response"))
    else if size.value == 0 then Stop(Ok(output))
    else if size.value > max - |output| then Stop(Err("upgrade artifact exceeds configured size limit"))
    else if size.value > |data| then Stop(Err("truncated chunked artifact response"))
    else if !OccursAt(data, CRLF, size.value) then Stop(Err("invalid chunk terminator in artifact response"))
    else More(data[size.value + 2..], output + data[..size.value])
  }

  /** Decodes what is left, after `output` has been decoded. */
  function Decode(rest: string, output: string, max: nat): (r: Decoded)
    requires |output| <= max
    ensures r.Ok? ==> |r.value| <= max
    decreases |rest|
  {
    match NextChunk(rest, output, max)
    case Stop(result) => result
    case More(rest', output') => Decode(rest', output', max)
  }

  function DecodeChunked(input: string, max: nat): (r: Decoded)
    ensures r.Ok? ==> |r.value| <= max
  {
    Decode(input, "", max)
  }

  /** The same with one position that moves through the input. */
  method DecodeChunks(input: string, max: nat) returns (r: Decoded)
    ensures r == DecodeChunked(input, max)
  {
    hide NextChunk;
    var pos, output := 0, "";
    assert input[0..] == input;
    while true
      invariant pos <= |input| && |output| <= max && Decode(input[pos..], output, max) == DecodeChunked(input, max)
      decreases |input| - pos
    {
      var stop;
      stop, pos, output := DecodeChunk(input, pos, output, max);
      if stop.Some? {
        return stop.value;
      }
    }
  }

  method DecodeChunk(input: string, from: nat, before: string, max: nat)
    returns (stop: Option<Decoded>, pos: nat, output: string)
    requires from <= |input| && |before| <= max
    ensures pos <= |input|
    ensures match NextChunk(input[from..], before, max)
            case Stop(result) => stop == Some(result)
            case More(rest, output') => stop.None? && rest == input[pos..] && output == output' && pos > from
  {
    hide SizeOf, Find, NextSized;
    pos, output := from, before;
    var end := FindFrom(input, CRLF, pos);
    if end.None? {
      return Some(Err("invalid chunked artifact response")), pos, output;
    }
    var size := SizeOf(input[pos..end.value]);
    assert input[from..][..end.value - from] == input[from..end.value];
    assert input[from..][end.value - from + 2..] == input[end.value + 2..];
    stop, pos, output := TakeData(input, end.value + 2, size, output, max);
  }

  method TakeData(input: string, from: nat, size: Option<nat>, before: string, max: nat)
    returns (stop: Option<Decoded>, pos: nat, output: string)
    requires from <= |input| && |before| <= max
    ensures from <= pos <= |input|
    ensures match NextSized(size, input[from..], before, max)
            case Stop(result) => stop == Some(result)
            case More(rest, output') => stop.None? && rest == input[pos..] && output == output'
  {
    stop, pos, output := None, from, before;
    if size.None? {
      return Some(Err("invalid chunk size in artifact response")), pos, output;
    }
    var n := size.value;
    if n == 0 {
      return Some(Ok(output)), pos, output;
    }
    if n > max - |output| {
      return Some(Err("upgrade artifact exceeds configured size limit")), pos, output;
    }
    if n > |input| - pos {
      return Some(Err("truncated chunked artifact response")), pos, output;
    }
    ghost var data := input[from..];
    assert data[..n] == input[from..from + n];
    ShiftedMatch(input, CRLF, from, n);
    output := output + input[pos..pos + n];
    pos := pos + n;
    if |input| - pos < 2 || input[pos..pos + 2] != CRLF {
      return Some(Err("invalid chunk terminator in artifact response")), pos, output;
    }
    assert data[n + 2..] == input[pos + 2..];
    pos := pos + 2;
  }

  /** `find` from a position finds what a search of the rest finds. */
  method FindFrom(text: string, pattern: string, from: nat) returns (r: Option<nat>)
    requires from <= |text|
    ensures match Find(text[from..], pattern, 0)
            case Some(k) => r == Some(from + k)
            case None => r.None?
    ensures r.Some? ==> from <= r.value && r.value + |pattern| <= |text|
  {
    r := Find(text, pattern, from);
    ShiftedSearch(text, pattern, from);
  }

  lemma ShiftedSearch(text: string, pattern: string, from: nat)
    requires from <= |text|
    ensures match Find(text[from..], pattern, 0)
            case Some(k) => Find(text, pattern, from) == Some(from + k)
            case None => Find(text, pattern, from).None?
  {
    hide OccursAt;
    var near, far := Find(text[from..], pattern, 0), Find(text, pattern, from);
    forall k: nat ensures OccursAt(text[from..], pattern, k) <==> OccursAt(text, pattern, from + k) {
      ShiftedMatch(text, pattern, from, k);
    }
    if far.Some? {
      assert OccursAt(text[from..], pattern, far.value - from);
    }
    if near.Some? {
      assert OccursAt(text, pattern, from + near.value);
    }
  }

  lemma ShiftedMatch(text: string, pattern: string, from: nat, k: nat)
    requires from <= |text|
    ensures OccursAt(text[from..], pattern, k) <==> OccursAt(text, pattern, from + k)
  {
    if k + |pattern| <= |text| - from {
      assert text[from..][k..k + |pattern|] == text[from + k..from + k + |pattern|];
    }
  }

  // ---------- Encoding ----------

  /** One chunk: the line that announces its size, and its data. */
  datatype Chunk = Chunk(line: string, data: string)

  predicate HasCrlf(s: string) { exists k: nat | k < |s| :: OccursAt(s, CRLF, k) }

  predicate ValidChunk(c: Chunk) { !HasCrlf(c.line) && c.data != "" && SizeOf(c.line) == Some(|c.data|) }

  predicate LastLine(line: string) { !HasCrlf(line) && SizeOf(line) == Some(0) }

  function Encode(chunks: seq<Chunk>, last: string): string {
    if chunks == [] then last + CRLF
    else chunks[0].line + CRLF + chunks[0].data + CRLF + Encode(chunks[1..], last)
  }

  function Content(chunks: seq<Chunk>): string { if chunks == [] then "" else chunks[0].data + Content(chunks[1..]) }

  lemma LineEnds(line: string, tail: string)
    requires !HasCrlf(line)
    ensures Find(line + CRLF + tail, CRLF, 0) == Some(|line|)
  {
    var text := line + CRLF + tail;
    assert text[|line|..|line| + 2] == CRLF;
    assert OccursAt(text, CRLF, |line|);
    forall k: nat | k < |line| ensures !OccursAt(text, CRLF, k) {
      assert !OccursAt(line, CRLF, k);
      if k + 1 < |line| {
        assert text[k..k + 2] == line[k..k + 2];
      } else {
        assert text[k..k + 2][1] == '\r';
      }
    }
  }

  lemma NextOfChunk(c: Chunk, more: string, output: string, max: nat)
    requires ValidChunk(c) && |output| <= max
    ensures var next := NextChunk(c.line + CRLF + (c.data + CRLF + more), output, max);
            if |output| + |c.data| <= max then next == More(more, output + c.data) else next.Stop? && next.result.Err?
  {
    hide SizeOf, Find, HasCrlf;
    var data := c.data + CRLF + more;
    var text := c.line + CRLF + data;
    LineEnds(c.line, data);
    assert text[..|c.line|] == c.line && text[|c.line| + 2..] == data;
    assert data[..|c.data|] == c.data && data[|c.data|..|c.data| + 2] == CRLF && data[|c.data| + 2..] == more;
  }

  lemma NextOfLast(last: string, rest: string, output: string, max: nat)
    requires LastLine(last) && |output| <= max
    ensures NextChunk(last + CRLF + rest, output, max) == Stop(Ok(output))
  {
    hide SizeOf, Find, HasCrlf;
    LineEnds(last, rest);
    assert (last + CRLF + rest)[..|last|] == last;
  }

  lemma EncodeFirst(chunks: seq<Chunk>, last: string, rest: string)
    ensures Encode(chunks, last) + rest
            == if chunks == [] then last + CRLF + rest
               else chunks[0].line + CRLF + (chunks[0].data + CRLF + (Encode(chunks[1..], last) + rest))
  {
  }

  /** Decoding an encoded list of chunks, whatever follows it, gives their content when that fits. */
  lemma {:induction false} DecodesEncoded(chunks: seq<Chunk>, last: string, rest: string, output: string, max: nat)
    requires (forall c | c in chunks :: ValidChunk(c)) && LastLine(last) && |output| <= max
    ensures var r := Decode(Encode(chunks, last) + rest, output, max);
            if |output| + |Content(chunks)| <= max then r == Ok(output + Content(chunks)) else r.Err?
  {
    hide NextChunk, ValidChunk, LastLine, Encode;
    EncodeFirst(chunks, last, rest);
    if chunks == [] {
      NextOfLast(last, rest, output, max);
      assert output + Content(chunks) == output;
    } else {
      var c, more := chunks[0], Encode(chunks[1..], last) + rest;
      NextOfChunk(c, more, output, max);
      assert output + Content(chunks) == output + c.data + Content(chunks[1..]);
      if |output| + |c.data| <= max {
        DecodesEncoded(chunks[1..], last, rest, output + c.data, max);
      }
    }
  }

  lemma NextWasChunk(text: string, output: string, max: nat) returns (c: Chunk)
    requires |output| <= max && NextChunk(text, output, max).More?
    ensures var next := NextChunk(text, output, max);
            ValidChunk(c) && text == c.line + CRLF + (c.data + CRLF + next.rest) && next.output == output + c.data
  {
    hide SizeOf, HasCrlf, Find;
    var end := Find(text, CRLF, 0).value;
    var line, data := text[..end], text[end + 2..];
    LineHasNoCrlf(text, end);
    var size := SizeOf(line).value;
    c := Chunk(line, data[..size]);
    assert data[size..size + 2] == CRLF;
    assert data == c.data + CRLF + data[size + 2..];
    assert text == line + CRLF + data;
  }

  lemma NextWasLast(text: string, output: string, max: nat) returns (last: string, rest: string)
    requires |output| <= max && NextChunk(text, output, max).Stop? && NextChunk(text, output, max).result.Ok?
    ensures LastLine(last) && text == last + CRLF + rest
  {
    hide SizeOf, HasCrlf, Find;
    var end := Find(text, CRLF, 0).value;
    last, rest := text[..end], text[end + 2..];
    LineHasNoCrlf(text, end);
  }

  /** The chunks the decoder saw. */
  lemma {:induction false} DecodedWasEncoded(text: string, output: string, max: nat)
    returns (chunks: seq<Chunk>, last: string, rest: string)
    requires |output| <= max && Decode(text, output, max).Ok?
    ensures (forall c | c in chunks :: ValidChunk(c)) && LastLine(last)
    ensures text == Encode(chunks, last) + rest && Decode(text, output, max).value == output + Content(chunks)
    decreases |text|
  {
    hide NextChunk, ValidChunk, LastLine, Encode;
    var next := NextChunk(text, output, max);
    if next.Stop? {
      chunks := [];
      last, rest := NextWasLast(text, output, max);
      assert output + Content(chunks) == output;
    } else {
      var c := NextWasChunk(text, output, max);
      var later;
      later, last, rest := DecodedWasEncoded(next.rest, next.output, max);
      chunks := [c] + later;
      assert chunks[1..] == later;
      assert output + Content(chunks) == output + c.data + Content(later);
    }
    EncodeFirst(chunks, last, rest);
  }

  lemma LineHasNoCrlf(text: string, end: nat)
    requires Find(text, CRLF, 0) == Some(end)
    ensures !HasCrlf(text[..end])
  {
    forall k: nat | k < end ensures !OccursAt(text[..end], CRLF, k) {
      assert !OccursAt(text, CRLF, k);
      if k + 2 <= end {
        assert text[..end][k..k + 2] == text[k..k + 2];
      }
    }
  }

  /** The decoder gives a content exactly for the encodings of chunks with that content that fit. */
  lemma DecodesExactly(input: string, max: nat, content: string)
    ensures DecodeChunked(input, max) == Ok(content)
            <==> |content| <= max && exists chunks, last, rest :: Encodes(input, chunks, last, rest) && Content(chunks) == content
  {
    hide Decode, Encode, Content, ValidChunk, LastLine;
    if DecodeChunked(input, max) == Ok(content) {
      var chunks, last, rest := DecodedWasEncoded(input, "", max);
      assert "" + Content(chunks) == Content(chunks);
      assert Encodes(input, chunks, last, rest);
    }
    if |content| <= max && exists chunks, last, rest :: Encodes(input, chunks, last, rest) && Content(chunks) == content {
      var chunks, last, rest :| Encodes(input, chunks, last, rest) && Content(chunks) == content;
      DecodesEncoded(chunks, last, rest, "", max);
      assert "" + Content(chunks) == Content(chunks);
    }
  }

  ghost predicate Encodes(input: string, chunks: seq<Chunk>, last: string, rest: string) {
    input == Encode(chunks, last) + rest && (forall c | c in chunks :: ValidChunk(c)) && LastLine(last)
  }

  // ---------- The standard's own lines ----------

  predicate Blank(s: string) { forall k | 0 <= k < |s| :: s[k] == ' ' || s[k] == '\t' }

  /** A size in any case and with any leading zeros, blanks, and an extension. */
  predicate StandardLine(size: string, blank: string, extension: string) {
    && size != "" && AllHex(size) && HexNumber(size) <= U64_MAX && Blank(blank)
    && (extension == "" || extension[0] == ';') && '\r' !in extension
  }

  lemma {:induction false} TrimEndBlank(size: string, blank: string)
    requires size != "" && AllHex(size) && Blank(blank)
    ensures TrimEnd(size + blank) == size
  {
    if blank == "" {
      assert size + blank == size;
      assert IsHex(size[|size| - 1]);
    } else {
      var shorter := blank[..|blank| - 1];
      TrimEndBlank(size, shorter);
      assert (size + blank)[..|size + blank| - 1] == size + shorter;
    }
  }

  /** The decoder reads every size line the standard allows. */
  lemma StandardLineIsRead(size: string, blank: string, extension: string)
    requires StandardLine(size, blank, extension)
    ensures SizeOf(size + blank + extension) == Some(HexNumber(size)) && !HasCrlf(size + blank + extension)
  {
    hide HexNumber, HasCrlf, TrimEnd, Find;
    var head := size + blank;
    HeadIsPlain(size, blank);
    CutAtExtension(head, extension);
    assert IsHex(size[0]) && head[0] == size[0];
    assert SkipSpace(head) == head;
    TrimEndBlank(size, blank);
    NoLineEnd(head, extension);
  }

  lemma HeadIsPlain(size: string, blank: string)
    requires AllHex(size) && Blank(blank)
    ensures forall k | 0 <= k < |size + blank| :: (size + blank)[k] != ';' && (size + blank)[k] != '\r'
  {
    var head := size + blank;
    forall k | 0 <= k < |head| ensures head[k] != ';' && head[k] != '\r' {
      if k < |size| {
        assert head[k] == size[k];
      } else {
        assert head[k] == blank[k - |size|];
      }
    }
  }

  lemma NoMatchAt(line: string, k: nat)
    requires k < |line|
    ensures line[k] != '\r' ==> !OccursAt(line, CRLF, k)
  {
    if k + 2 <= |line| {
      assert line[k..k + 2][0] == line[k];
    }
  }

  lemma NoLineEnd(head: string, extension: string)
    requires (forall k | 0 <= k < |head| :: head[k] != '\r') && '\r' !in extension
    ensures !HasCrlf(head + extension)
  {
    var line := head + extension;
    forall k: nat | k < |line| ensures !OccursAt(line, CRLF, k) {
      assert line[k] == if k < |head| then head[k] else extension[k - |head|];
      NoMatchAt(line, k);
    }
  }

  lemma CutAtExtension(head: string, extension: string)
    requires (forall k | 0 <= k < |head| :: head[k] != ';') && (extension == "" || extension[0] == ';')
    ensures var semicolon := Find(head + extension, ";", 0);
            (if semicolon.Some? then (head + extension)[..semicolon.value] else head + extension) == head
  {
    var line := head + extension;
    forall k: nat | k < |head| ensures !OccursAt(line, ";", k) {
      assert line[k..k + 1][0] == head[k];
    }
    if extension == "" {
      assert line == head;
    } else {
      assert line[|head|..|head| + 1] == ";";
      assert OccursAt(line, ";", |head|);
    }
  }
}
