/** The broker's wire layer: little-endian numbers, fixed-size texts, flag bits and frames. */
module Wire {
  import opened Base

  type Byte = n: nat | n < 256

  type Bytes = seq<Byte>

  // ---------- Numbers ----------

  function Range(width: nat): nat { if width == 0 then 1 else 256 * Range(width - 1) }

  function Little(n: nat, width: nat): (r: Bytes)
    ensures |r| == width
  {
    if width == 0 then [] else [n % 256] + Little(n / 256, width - 1)
  }

  function FromLittle(bytes: Bytes): (n: nat)
    ensures n < Range(|bytes|)
  {
    if bytes == [] then 0 else bytes[0] + 256 * FromLittle(bytes[1..])
  }

  lemma {:induction false} LittleRoundTrip(n: nat, width: nat)
    requires n < Range(width)
    ensures FromLittle(Little(n, width)) == n
  {
    if width > 0 {
      LittleRoundTrip(n / 256, width - 1);
      assert Little(n, width)[1..] == Little(n / 256, width - 1);
    }
  }

  lemma {:induction false} FromLittleRoundTrip(bytes: Bytes)
    ensures Little(FromLittle(bytes), |bytes|) == bytes
  {
    hide Range;
    if bytes != [] {
      var first, rest := bytes[0], FromLittle(bytes[1..]);
      FromLittleRoundTrip(bytes[1..]);
      LowByte(first, rest);
      assert bytes == [first] + bytes[1..];
    }
  }

  lemma LowByte(first: Byte, rest: nat)
    ensures (first + 256 * rest) % 256 == first && (first + 256 * rest) / 256 == rest
  {
  }

  // ---------- Rows of numbers ----------

  function Total(widths: seq<nat>): nat { if widths == [] then 0 else widths[0] + Total(widths[1..]) }

  predicate Fits(values: seq<nat>, widths: seq<nat>) {
    |values| == |widths| && forall k | 0 <= k < |values| :: values[k] < Range(widths[k])
  }

  function Pack(values: seq<nat>, widths: seq<nat>): (r: Bytes)
    requires |values| == |widths|
    ensures |r| == Total(widths)
  {
    if values == [] then [] else Little(values[0], widths[0]) + Pack(values[1..], widths[1..])
  }

  function Unpack(bytes: Bytes, widths: seq<nat>): (r: seq<nat>)
    requires |bytes| >= Total(widths)
    ensures |r| == |widths|
  {
    if widths == [] then [] else [FromLittle(bytes[..widths[0]])] + Unpack(bytes[widths[0]..], widths[1..])
  }

  lemma PackFirst(values: seq<nat>, widths: seq<nat>, rest: Bytes)
    requires |values| == |widths| > 0
    ensures var bytes, w := Pack(values, widths) + rest, widths[0];
            bytes[..w] == Little(values[0], w) && bytes[w..] == Pack(values[1..], widths[1..]) + rest
  {
    hide Little, Range;
    var first, others := Little(values[0], widths[0]), Pack(values[1..], widths[1..]);
    SplitFirst(first, others, rest);
    assert Pack(values, widths) == first + others;
  }

  lemma SplitFirst<T>(first: seq<T>, others: seq<T>, rest: seq<T>)
    ensures (first + others + rest)[..|first|] == first && (first + others + rest)[|first|..] == others + rest
  {
  }

  lemma {:induction false} PackRoundTrip(values: seq<nat>, widths: seq<nat>, rest: Bytes)
    requires Fits(values, widths)
    ensures Unpack(Pack(values, widths) + rest, widths) == values
  {
    hide Range, Little, FromLittle;
    if values != [] {
      LittleRoundTrip(values[0], widths[0]);
      PackRoundTrip(values[1..], widths[1..], rest);
      PackFirst(values, widths, rest);
    }
  }

  lemma {:induction false} UnpackFits(bytes: Bytes, widths: seq<nat>)
    requires |bytes| >= Total(widths)
    ensures Fits(Unpack(bytes, widths), widths)
  {
    hide Range;
    if widths != [] {
      UnpackFits(bytes[widths[0]..], widths[1..]);
    }
  }

  lemma {:induction false} TotalSplits(a: seq<nat>, b: seq<nat>)
    ensures Total(a + b) == Total(a) + Total(b)
  {
    if a == [] {
      assert a + b == b;
    } else {
      TotalSplits(a[1..], b);
      assert (a + b)[1..] == a[1..] + b;
    }
  }

  lemma TotalFew(b: nat, c: nat, d: nat, e: nat)
    ensures Total([e]) == e && Total([d, e]) == d + e && Total([c, d, e]) == c + d + e && Total([b, c, d, e]) == b + c + d + e
  {
    assert [b, c, d, e][1..] == [c, d, e] && [c, d, e][1..] == [d, e] && [d, e][1..] == [e] && [e][1..] == [];
  }

  lemma TotalFive(a: nat, b: nat, c: nat, d: nat, e: nat)
    ensures Total([a, b, c, d, e]) == a + b + c + d + e
  {
    TotalFew(b, c, d, e);
    assert [a, b, c, d, e][1..] == [b, c, d, e];
  }

  lemma TotalSix(a: nat, b: nat, c: nat, d: nat, e: nat, f: nat)
    ensures Total([a, b, c, d, e, f]) == a + b + c + d + e + f
  {
    TotalFive(b, c, d, e, f);
    assert [a, b, c, d, e, f][1..] == [b, c, d, e, f];
  }

  // ---------- Signed numbers ----------

  const TWO_63: nat := 0x8000_0000_0000_0000
  const TWO_31: nat := 0x8000_0000

  type I64 = x: int | -0x8000_0000_0000_0000 <= x < 0x8000_0000_0000_0000
  type I32 = x: int | -0x8000_0000 <= x < 0x8000_0000
  type U64 = n: nat | n <= U64_MAX
  type U32 = n: nat | n < 0x1_0000_0000
  type U16 = n: nat | n < 0x1_0000

  /** Two's complement in 2 * half values. */
  function Unsigned(x: int, half: int): nat
    requires -half <= x < half
  {
    if x < 0 then x + 2 * half else x
  }

  function Signed(n: nat, half: int): int { if n >= half then n - 2 * half else n }

  lemma Ranges()
    ensures Range(1) == 0x100 && Range(2) == 0x1_0000 && Range(4) == 0x1_0000_0000 && Range(8) == U64_MAX + 1
  {
    assert Range(3) == 0x100_0000 && Range(5) == 0x100_0000_0000;
    assert Range(6) == 0x1_0000_0000_0000 && Range(7) == 0x100_0000_0000_0000;
  }

  // ---------- Flags ----------

  function FlagsOf(bits: seq<bool>): nat { if bits == [] then 0 else (if bits[0] then 1 else 0) + 2 * FlagsOf(bits[1..]) }

  predicate Flag(flags: nat, k: nat) { if k == 0 then flags % 2 == 1 else Flag(flags / 2, k - 1) }

  lemma {:induction false} FlagRoundTrip(bits: seq<bool>, k: nat)
    requires k < |bits|
    ensures Flag(FlagsOf(bits), k) == bits[k]
  {
    hide FlagsOf;
    FlagsHalved(bits);
    if k > 0 {
      FlagRoundTrip(bits[1..], k - 1);
    }
  }

  lemma FlagsHalved(bits: seq<bool>)
    requires bits != []
    ensures FlagsOf(bits) / 2 == FlagsOf(bits[1..]) && (FlagsOf(bits) % 2 == 1 <==> bits[0])
  {
    var rest := FlagsOf(bits[1..]);
    assert FlagsOf(bits) == (if bits[0] then 1 else 0) + 2 * rest;
  }

  function Power2(k: nat): nat { if k == 0 then 1 else 2 * Power2(k - 1) }

  lemma {:induction false} FlagsBelow(bits: seq<bool>)
    ensures FlagsOf(bits) < Power2(|bits|)
  {
    if bits != [] {
      FlagsBelow(bits[1..]);
    }
  }

  // ---------- Texts ----------

  /** `strnlen`: the text up to the first NUL. */
  function ReadText(raw: Bytes): Bytes { if raw == [] || raw[0] == 0 then [] else [raw[0]] + ReadText(raw[1..]) }

  /** What a field of `size` bytes keeps of a text: it is cut at the first NUL and at size - 1 bytes. */
  function Cut(text: Bytes, size: nat): Bytes
    requires size > 0
  {
    ReadText(text[..Min(|text|, size - 1)])
  }

  function Zeros(count: nat): (r: Bytes)
    ensures |r| == count && forall k | 0 <= k < count :: r[k] == 0
  {
    seq(count, _ => 0)
  }

  function TextField(text: Bytes, size: nat): (r: Bytes)
    requires size > 0
    ensures |r| == size
  {
    var count := Min(|text|, size - 1);
    text[..count] + Zeros(size - count)
  }

  /** Fills the buffer in place: zeros first, then the text as far as it fits. */
  method CopyText(target: array<Byte>, value: Bytes)
    requires target.Length > 0
    modifies target
    ensures target[..] == TextField(value, target.Length)
  {
    var k := 0;
    while k < target.Length
      invariant 0 <= k <= target.Length && forall j | 0 <= j < k :: target[j] == 0
    {
      target[k] := 0;
      k := k + 1;
    }
    var count := Min(|value|, target.Length - 1);
    k := 0;
    while k < count
      invariant 0 <= k <= count
      invariant forall j | 0 <= j < target.Length :: target[j] == if j < k then value[j] else 0
    {
      target[k] := value[k];
      k := k + 1;
    }
  }

  lemma {:induction false} ReadPadded(text: Bytes, zeros: nat)
    requires zeros > 0
    ensures ReadText(text + Zeros(zeros)) == ReadText(text)
  {
    if text == [] {
      assert text + Zeros(zeros) == Zeros(zeros);
    } else {
      ReadPadded(text[1..], zeros);
      assert (text + Zeros(zeros))[1..] == text[1..] + Zeros(zeros);
    }
  }

  lemma TextRoundTrip(text: Bytes, size: nat)
    requires size > 0
    ensures ReadText(TextField(text, size)) == Cut(text, size)
  {
    ReadPadded(text[..Min(|text|, size - 1)], size - Min(|text|, size - 1));
  }

  lemma {:induction false} ReadTwice(raw: Bytes)
    ensures ReadText(ReadText(raw)) == ReadText(raw) && |ReadText(raw)| <= |raw|
  {
    if raw != [] && raw[0] != 0 {
      ReadTwice(raw[1..]);
    }
  }

  /** Cutting twice cuts no more. */
  lemma CutTwice(text: Bytes, size: nat)
    requires size > 0
    ensures Cut(Cut(text, size), size) == Cut(text, size)
  {
    var cut := Cut(text, size);
    ReadTwice(text[..Min(|text|, size - 1)]);
    assert cut[..|cut|] == cut;
  }

  // ---------- Frames ----------

  const MAGIC: nat := 0x4e534231
  const PROTOCOL_VERSION: nat := 1
  const MAX_FRAME: nat := 8192
  const HEADER_SIZE: nat := 24
  const HEADER: seq<nat> := [4, 2, 2, 8, 4, 4]

  lemma HeaderTotal()
    ensures Total(HEADER) == HEADER_SIZE
  {
    TotalSix(4, 2, 2, 8, 4, 4);
  }

  function MakeFrame(kind: nat, sequence: nat, payload: Bytes): Bytes {
    Pack([MAGIC, PROTOCOL_VERSION, kind, sequence, |payload|, 0], HEADER) + payload
  }

  function FrameHeader(bytes: Bytes): Option<seq<nat>> {
    HeaderTotal();
    if |bytes| < HEADER_SIZE then None
    else
      var h := Unpack(bytes, HEADER);
      if h[0] != MAGIC || h[1] != PROTOCOL_VERSION then None
      else if h[4] > MAX_FRAME || |bytes| != HEADER_SIZE + h[4] then None
      else Some(h)
  }

  function FramePayload(bytes: Bytes, kind: nat, size: nat): Option<Bytes> {
    var h := FrameHeader(bytes);
    if h.None? || h.value[2] != kind || h.value[4] != size then None else Some(bytes[HEADER_SIZE..])
  }

  lemma FrameRoundTrip(kind: nat, sequence: nat, payload: Bytes)
    requires kind < 0x1_0000 && sequence <= U64_MAX && |payload| <= MAX_FRAME
    ensures FramePayload(MakeFrame(kind, sequence, payload), kind, |payload|) == Some(payload)
  {
    HeaderTotal();
    Ranges();
    var values := [MAGIC, PROTOCOL_VERSION, kind, sequence, |payload|, 0];
    assert Fits(values, HEADER);
    PackRoundTrip(values, HEADER, payload);
  }

  /** A frame is accepted exactly when its magic, version, type, size field and length are all right. */
  lemma AcceptedFrames(bytes: Bytes, kind: nat, size: nat)
    requires kind < 0x1_0000 && size <= MAX_FRAME
    ensures FramePayload(bytes, kind, size).Some?
            <==> && |bytes| == HEADER_SIZE + size
                 && bytes[0..4] == Little(MAGIC, 4) && bytes[4..6] == Little(PROTOCOL_VERSION, 2)
                 && bytes[6..8] == Little(kind, 2) && bytes[16..20] == Little(size, 4)
  {
    hide Little;
    Ranges();
    if |bytes| >= HEADER_SIZE {
      HeaderFields(bytes);
      FieldIs(bytes[0..4], MAGIC);
      FieldIs(bytes[4..6], PROTOCOL_VERSION);
      FieldIs(bytes[6..8], kind);
      FieldIs(bytes[16..20], size);
    }
  }

  lemma FieldIs(bytes: Bytes, n: nat)
    requires n < Range(|bytes|)
    ensures FromLittle(bytes) == n <==> bytes == Little(n, |bytes|)
  {
    LittleRoundTrip(n, |bytes|);
    FromLittleRoundTrip(bytes);
  }

  /** Where the k-th field starts. */
  function Offset(widths: seq<nat>, k: nat): nat
    requires k <= |widths|
  {
    if k == 0 then 0 else Offset(widths, k - 1) + widths[k - 1]
  }

  lemma {:induction false} OffsetShift(widths: seq<nat>, k: nat)
    requires 0 < k <= |widths|
    ensures Offset(widths, k) == widths[0] + Offset(widths[1..], k - 1)
  {
    if k > 1 {
      OffsetShift(widths, k - 1);
    }
  }

  lemma {:induction false} UnpackAt(bytes: Bytes, widths: seq<nat>, k: nat)
    requires |bytes| >= Total(widths) && k < |widths|
    ensures Offset(widths, k) + widths[k] <= |bytes|
    ensures Unpack(bytes, widths)[k] == FromLittle(bytes[Offset(widths, k)..Offset(widths, k) + widths[k]])
  {
    hide FromLittle;
    var w := widths[0];
    if k == 0 {
      WidthWithin(widths);
    } else {
      OffsetShift(widths, k);
      UnpackAt(bytes[w..], widths[1..], k - 1);
      var from := Offset(widths[1..], k - 1);
      assert bytes[w..][from..from + widths[k]] == bytes[w + from..w + from + widths[k]];
    }
  }

  lemma WidthWithin(widths: seq<nat>)
    requires widths != []
    ensures widths[0] <= Total(widths)
  {
  }

  lemma HeaderOffsets()
    ensures Offset(HEADER, 0) == 0 && Offset(HEADER, 1) == 4 && Offset(HEADER, 2) == 6 && Offset(HEADER, 4) == 16
  {
    assert Offset(HEADER, 3) == 8;
  }

  lemma HeaderFields(bytes: Bytes)
    requires |bytes| >= HEADER_SIZE && Total(HEADER) == HEADER_SIZE
    ensures var h := Unpack(bytes, HEADER);
            && h[0] == FromLittle(bytes[0..4]) && h[1] == FromLittle(bytes[4..6]) && h[2] == FromLittle(bytes[6..8])
            && h[4] == FromLittle(bytes[16..20])
  {
    hide FromLittle, Unpack, Total, Offset, Range;
    HeaderOffsets();
    FieldAt(bytes, HEADER, 0, 0, 4);
    FieldAt(bytes, HEADER, 1, 4, 6);
    FieldAt(bytes, HEADER, 2, 6, 8);
    FieldAt(bytes, HEADER, 4, 16, 20);
  }

  lemma FieldAt(bytes: Bytes, widths: seq<nat>, k: nat, from: nat, to: nat)
    requires |bytes| >= Total(widths) && k < |widths| && Offset(widths, k) == from && to == from + widths[k]
    ensures to <= |bytes| && Unpack(bytes, widths)[k] == FromLittle(bytes[from..to])
  {
    hide FromLittle, Unpack, Total, Offset, Range;
    UnpackAt(bytes, widths, k);
  }
}
