/** The JSON text of a content manifest (transport/native_content.go) as Go's encoder
    writes it, a reader for it, and how long it gets. Digests stand for the bytes whose
    hexadecimal text the manifest holds. */
module ManifestJson {
  import opened Bytes
  import Utf8

  datatype Chunk = Chunk(ordinal: int, offset: int, length: int, digest: bytes)

  datatype Manifest = Manifest(contentId: bytes, purpose: bytes, mime: bytes, size: int, digest: bytes, chunks: seq<Chunk>)
  {
    /** What is left of the manifest in JSON: its text fields become valid UTF-8. */
    function Shown(): Manifest {
      this.(contentId := Utf8.Sanitize(contentId), purpose := Utf8.Sanitize(purpose), mime := Utf8.Sanitize(mime))
    }
  }

  const QUOTE: byte := 0x22
  const BACKSLASH: byte := 0x5C
  const MINUS: byte := 0x2D

  // ---------------------------------------------------------------- strings

  function HexDigit(n: int): (d: byte)
    requires 0 <= n < 16
  {
    if n < 10 then 0x30 + n else 0x57 + n
  }

  function HexValue(d: byte): (r: Option<int>)
    ensures r.Some? ==> 0 <= r.value < 16
  {
    if 0x30 <= d <= 0x39 then Some(d - 0x30) else if 0x61 <= d <= 0x66 then Some(d - 0x57) else None
  }

  lemma HexDigitReads(n: int)
    requires 0 <= n < 16
    ensures HexValue(HexDigit(n)) == Some(n)
  {
  }

  /** A backslash, a `u` and four hexadecimal digits. */
  function Escape(v: int): bytes
    requires 0 <= v < 0x1_0000
  {
    [BACKSLASH, 0x75, HexDigit(v / 16 / 16 / 16), HexDigit(v / 16 / 16 % 16), HexDigit(v / 16 % 16), HexDigit(v % 16)]
  }

  /** The letter that escapes a byte after a backslash. */
  function ShortEscape(b: byte): Option<byte> {
    if b == QUOTE || b == BACKSLASH then Some(b)
    else if b == 0x08 then Some(0x62)
    else if b == 0x0C then Some(0x66)
    else if b == 0x0A then Some(0x6E)
    else if b == 0x0D then Some(0x72)
    else if b == 0x09 then Some(0x74)
    else None
  }

  function ShortValue(letter: byte): Option<byte> {
    if letter == QUOTE || letter == BACKSLASH then Some(letter)
    else if letter == 0x62 then Some(0x08)
    else if letter == 0x66 then Some(0x0C)
    else if letter == 0x6E then Some(0x0A)
    else if letter == 0x72 then Some(0x0D)
    else if letter == 0x74 then Some(0x09)
    else None
  }

  /** Control characters, and the three that HTML would read, are spelt out. */
  function AsciiText(b: byte): bytes {
    if ShortEscape(b).Some? then [BACKSLASH, ShortEscape(b).value]
    else if b < 0x20 || b == 0x3C || b == 0x3E || b == 0x26 then Escape(b)
    else [b]
  }

  /** U+2028 and U+2029, which JavaScript reads as line ends. */
  predicate Separator(s: bytes) {
    |s| >= 3 && s[0] == 0xE2 && s[1] == 0x80 && (s[2] == 0xA8 || s[2] == 0xA9)
  }

  /** How the first character of a string is written; a byte that starts no character
      is written as U+FFFD. */
  function FirstText(s: bytes): (t: bytes)
    requires s != []
    ensures 1 <= |t| <= 6 * FirstSize(s) && t[0] != QUOTE
  {
    var n := Utf8.RuneSize(s);
    if n == 0 then Escape(0xFFFD)
    else if n == 1 then AsciiText(s[0])
    else if Separator(s) then Escape(0x2000 + (s[2] as int - 0x80))
    else s[..n]
  }

  function FirstSize(s: bytes): (n: nat)
    requires s != []
    ensures 1 <= n <= |s|
  {
    if Utf8.RuneSize(s) == 0 then 1 else Utf8.RuneSize(s)
  }

  /** A string between its quotes. */
  function Body(s: bytes): (t: bytes)
    ensures |t| <= 6 * |s|
    decreases |s|
  {
    if s == [] then [] else FirstText(s) + Body(s[FirstSize(s)..])
  }

  /** The UTF-8 of a code point below U+10000. */
  function Rune(v: int): bytes
    requires 0 <= v < 0x1_0000
  {
    if v < 0x80 then [v]
    else if v < 0x800 then [0xC0 + v / 64, 0x80 + v % 64]
    else [0xE0 + v / 4096, 0x80 + v / 64 % 64, 0x80 + v % 64]
  }

  function ReadEscape(raw: bytes): (r: Option<(bytes, nat)>)
    requires raw != []
    ensures r.Some? ==> 1 <= r.value.1 <= |raw|
  {
    if |raw| >= 6 && raw[1] == 0x75 then
      var a, b, c, d := HexValue(raw[2]), HexValue(raw[3]), HexValue(raw[4]), HexValue(raw[5]);
      if a.None? || b.None? || c.None? || d.None? then None
      else Some((Rune(((a.value * 16 + b.value) * 16 + c.value) * 16 + d.value), 6))
    else if |raw| >= 2 && ShortValue(raw[1]).Some? then Some(([ShortValue(raw[1]).value], 2))
    else None
  }

  /** What the text starts with stands for, and how much of the text that is. */
  function ReadChar(raw: bytes): (r: Option<(bytes, nat)>)
    requires raw != []
    ensures r.Some? ==> 1 <= r.value.1 <= |raw|
  {
    if raw[0] == BACKSLASH then ReadEscape(raw)
    else
      var n := Utf8.RuneSize(raw);
      if n == 0 || raw[0] < 0x20 then None else Some((raw[..n], n))
  }

  /** A string up to and with its closing quote. */
  function ReadString(raw: bytes): (r: Option<(bytes, bytes)>)
    ensures r.Some? ==> |r.value.1| < |raw|
    decreases |raw|
  {
    if raw == [] then None
    else if raw[0] == QUOTE then Some(([], raw[1..]))
    else match ReadChar(raw)
         case None => None
         case Some(first) =>
           match ReadString(raw[first.1..])
           case None => None
           case Some(more) => Some((first.0 + more.0, more.1))
  }

  lemma EscapeReads(v: int, rest: bytes)
    requires 0 <= v < 0x1_0000
    ensures ReadEscape(Escape(v) + rest) == Some((Rune(v), 6))
  {
    HexDigitReads(v / 16 / 16 / 16);
    HexDigitReads(v / 16 / 16 % 16);
    HexDigitReads(v / 16 % 16);
    HexDigitReads(v % 16);
  }

  lemma AsciiReads(b: byte, rest: bytes)
    requires b < 0x80
    ensures ReadChar(AsciiText(b) + rest) == Some(([b], |AsciiText(b)|))
  {
    var raw := AsciiText(b) + rest;
    if ShortEscape(b).Some? {
      assert raw[0] == BACKSLASH && raw[1] == ShortEscape(b).value && ShortValue(raw[1]) == Some(b);
    } else if b < 0x20 || b == 0x3C || b == 0x3E || b == 0x26 {
      EscapeReads(b, rest);
    } else {
      assert raw[0] == b && raw[..1] == [b];
    }
  }

  function FirstValue(s: bytes): bytes
    requires s != []
  {
    if Utf8.RuneSize(s) == 0 then Utf8.REPLACEMENT else s[..Utf8.RuneSize(s)]
  }

  lemma RawReads(s: bytes, rest: bytes)
    requires Utf8.RuneSize(s) > 1
    ensures ReadChar(s[..Utf8.RuneSize(s)] + rest) == Some((s[..Utf8.RuneSize(s)], Utf8.RuneSize(s)))
  {
    var n := Utf8.RuneSize(s);
    assert Utf8.RuneSize(s[..n] + rest) == n;
    assert (s[..n] + rest)[..n] == s[..n];
  }

  lemma SeparatorReads(s: bytes, rest: bytes)
    requires Separator(s) && Utf8.RuneSize(s) == 3
    ensures ReadChar(Escape(0x2000 + (s[2] as int - 0x80)) + rest) == Some((s[..3], 6))
  {
    EscapeReads(0x2000 + (s[2] as int - 0x80), rest);
    assert s[..3] == [s[0], s[1], s[2]];
  }

  lemma FirstReads(s: bytes, rest: bytes)
    requires s != []
    ensures ReadChar(FirstText(s) + rest) == Some((FirstValue(s), |FirstText(s)|))
  {
    var n := Utf8.RuneSize(s);
    if n == 0 {
      EscapeReads(0xFFFD, rest);
    } else if n == 1 {
      AsciiReads(s[0], rest);
      assert s[..1] == [s[0]];
    } else if Separator(s) {
      SeparatorReads(s, rest);
    } else {
      RawReads(s, rest);
    }
  }

  /** Reading back a written string gives the string as valid UTF-8. */
  lemma {:induction false} StringReads(s: bytes, rest: bytes)
    ensures ReadString(Body(s) + ([QUOTE] + rest)) == Some((Utf8.Sanitize(s), rest))
    decreases |s|
  {
    var end := [QUOTE] + rest;
    if s == [] {
      assert Body(s) + end == end && end[1..] == rest;
    } else {
      var tail := s[FirstSize(s)..];
      var raw := FirstText(s) + (Body(tail) + end);
      assert Body(s) + end == raw && raw[|FirstText(s)|..] == Body(tail) + end;
      FirstReads(s, Body(tail) + end);
      StringReads(tail, rest);
    }
  }

  // ---------------------------------------------------------------- numbers and digests

  function Digits(n: nat): (t: bytes)
    ensures |t| >= 1 && 0x30 <= t[0] <= 0x39
  {
    if n < 10 then [0x30 + n] else Digits(n / 10) + [0x30 + n % 10]
  }

  function Decimal(n: int): bytes {
    if n < 0 then [MINUS] + Digits(-n) else Digits(n)
  }

  predicate StartsWithDigit(raw: bytes) {
    raw != [] && 0x30 <= raw[0] <= 0x39
  }

  function ReadDigits(raw: bytes, done: nat): (r: (nat, bytes))
    ensures |r.1| <= |raw|
    decreases |raw|
  {
    if StartsWithDigit(raw) then ReadDigits(raw[1..], 10 * done + (raw[0] - 0x30)) else (done, raw)
  }

  function ReadDecimal(raw: bytes): (r: Option<(int, bytes)>)
    ensures r.Some? ==> |r.value.1| <= |raw|
  {
    if StartsWithDigit(raw) then var (n, rest) := ReadDigits(raw, 0); Some((n, rest))
    else if raw != [] && raw[0] == MINUS && StartsWithDigit(raw[1..]) then var (n, rest) := ReadDigits(raw[1..], 0); Some((-(n as int), rest))
    else None
  }

  lemma {:induction false} DigitsRead(n: nat, rest: bytes)
    ensures ReadDigits(Digits(n) + rest, 0) == ReadDigits(rest, n)
    decreases n
  {
    var last := [0x30 + n % 10];
    if n < 10 {
      assert (last + rest)[1..] == rest;
    } else {
      assert Digits(n) + rest == Digits(n / 10) + (last + rest);
      DigitsRead(n / 10, last + rest);
      assert (last + rest)[1..] == rest;
    }
  }

  lemma NumberReads(n: nat, rest: bytes)
    requires !StartsWithDigit(rest)
    ensures StartsWithDigit(Digits(n) + rest) && ReadDigits(Digits(n) + rest, 0) == (n, rest)
  {
    DigitsRead(n, rest);
  }

  lemma NegativeReads(n: nat, rest: bytes)
    requires !StartsWithDigit(rest)
    ensures ReadDecimal([MINUS] + Digits(n) + rest) == Some((-(n as int), rest))
  {
    var raw := [MINUS] + Digits(n) + rest;
    assert raw[1..] == Digits(n) + rest && raw[0] == MINUS;
    NumberReads(n, rest);
  }

  lemma DecimalReads(n: int, rest: bytes)
    requires !StartsWithDigit(rest)
    ensures ReadDecimal(Decimal(n) + rest) == Some((n, rest))
  {
    if n < 0 { NegativeReads(-n, rest); } else { NumberReads(n, rest); }
  }

  function Pow10(k: nat): nat {
    if k == 0 then 1 else 10 * Pow10(k - 1)
  }

  lemma {:induction false} DigitsShort(n: nat, k: nat)
    requires 1 <= k && n < Pow10(k)
    ensures |Digits(n)| <= k
  {
    if n >= 10 {
      assert k >= 2 && n / 10 < Pow10(k - 1) by { assert Pow10(1) == 10; }
      DigitsShort(n / 10, k - 1);
    }
  }

  function HexText(b: bytes): (t: bytes)
    ensures |t| == 2 * |b|
  {
    if b == [] then [] else [HexDigit(b[0] / 16), HexDigit(b[0] % 16)] + HexText(b[1..])
  }

  /** Pairs of digits up to and with a closing quote. */
  function ReadHex(raw: bytes): (r: Option<(bytes, bytes)>)
    ensures r.Some? ==> |r.value.1| < |raw|
    decreases |raw|
  {
    if raw == [] then None
    else if raw[0] == QUOTE then Some(([], raw[1..]))
    else if |raw| < 2 || HexValue(raw[0]).None? || HexValue(raw[1]).None? then None
    else match ReadHex(raw[2..])
         case None => None
         case Some(more) => Some(([16 * HexValue(raw[0]).value + HexValue(raw[1]).value] + more.0, more.1))
  }

  lemma PairReads(v: byte, rest: bytes)
    requires ReadHex(rest).Some?
    ensures ReadHex([HexDigit(v / 16), HexDigit(v % 16)] + rest) == Some(([v] + ReadHex(rest).value.0, ReadHex(rest).value.1))
  {
    HexDigitReads(v / 16);
    HexDigitReads(v % 16);
    var raw := [HexDigit(v / 16), HexDigit(v % 16)] + rest;
    assert raw[2..] == rest && raw[0] != QUOTE;
  }

  lemma {:induction false} HexReads(b: bytes, rest: bytes)
    ensures ReadHex(HexText(b) + ([QUOTE] + rest)) == Some((b, rest))
    decreases |b|
  {
    var end := [QUOTE] + rest;
    if b == [] {
      assert HexText(b) + end == end && end[1..] == rest;
    } else {
      HexReads(b[1..], rest);
      PairReads(b[0], HexText(b[1..]) + end);
      assert HexText(b) + end == [HexDigit(b[0] / 16), HexDigit(b[0] % 16)] + (HexText(b[1..]) + end);
      assert [b[0]] + b[1..] == b;
    }
  }

  // ---------------------------------------------------------------- fields

  /** Text to come after a literal. */
  function Expect(literal: bytes, raw: bytes): (r: Option<bytes>)
    ensures r.Some? ==> |r.value| == |raw| - |literal|
  {
    if literal <= raw then Some(raw[|literal|..]) else None
  }

  lemma ExpectReads(literal: bytes, rest: bytes)
    ensures Expect(literal, literal + rest) == Some(rest)
  {
  }

  function StringField(name: bytes, s: bytes, rest: bytes): (t: bytes)
    ensures |t| <= |name| + 6 * |s| + 1 + |rest|
  {
    name + (Body(s) + ([QUOTE] + rest))
  }

  function ReadStringField(name: bytes, raw: bytes): (r: Option<(bytes, bytes)>)
    ensures r.Some? ==> |r.value.1| < |raw|
  {
    match Expect(name, raw)
    case None => None
    case Some(more) => ReadString(more)
  }

  lemma StringFieldReads(name: bytes, s: bytes, rest: bytes)
    ensures ReadStringField(name, StringField(name, s, rest)) == Some((Utf8.Sanitize(s), rest))
  {
    ExpectReads(name, Body(s) + ([QUOTE] + rest));
    StringReads(s, rest);
  }

  function NumberField(name: bytes, n: int, rest: bytes): bytes {
    name + (Decimal(n) + rest)
  }

  function ReadNumberField(name: bytes, raw: bytes): (r: Option<(int, bytes)>)
    ensures r.Some? ==> |r.value.1| <= |raw|
  {
    match Expect(name, raw)
    case None => None
    case Some(more) => ReadDecimal(more)
  }

  lemma NumberFieldReads(name: bytes, n: int, rest: bytes)
    requires !StartsWithDigit(rest)
    ensures ReadNumberField(name, NumberField(name, n, rest)) == Some((n, rest))
  {
    ExpectReads(name, Decimal(n) + rest);
    DecimalReads(n, rest);
  }

  function HexField(name: bytes, b: bytes, rest: bytes): (t: bytes)
    ensures |t| == |name| + 2 * |b| + 1 + |rest|
  {
    name + (HexText(b) + ([QUOTE] + rest))
  }

  function ReadHexField(name: bytes, raw: bytes): (r: Option<(bytes, bytes)>)
    ensures r.Some? ==> |r.value.1| < |raw|
  {
    match Expect(name, raw)
    case None => None
    case Some(more) => ReadHex(more)
  }

  lemma HexFieldReads(name: bytes, b: bytes, rest: bytes)
    ensures ReadHexField(name, HexField(name, b, rest)) == Some((b, rest))
  {
    ExpectReads(name, HexText(b) + ([QUOTE] + rest));
    HexReads(b, rest);
  }

  // ---------------------------------------------------------------- chunks

  function ChunkText(c: Chunk, rest: bytes): bytes {
    NumberField(Ascii("{\"ordinal\":"), c.ordinal,
      NumberField(Ascii(",\"offset\":"), c.offset,
        NumberField(Ascii(",\"length\":"), c.length,
          HexField(Ascii(",\"plaintextDigest\":\""), c.digest, Ascii("}") + rest))))
  }

  function ReadChunk(raw: bytes): (r: Option<(Chunk, bytes)>)
    ensures r.Some? ==> |r.value.1| < |raw|
  {
    match ReadNumberField(Ascii("{\"ordinal\":"), raw)
    case None => None
    case Some(a) =>
      match ReadNumberField(Ascii(",\"offset\":"), a.1)
      case None => None
      case Some(b) =>
        match ReadNumberField(Ascii(",\"length\":"), b.1)
        case None => None
        case Some(c) =>
          match ReadHexField(Ascii(",\"plaintextDigest\":\""), c.1)
          case None => None
          case Some(d) =>
            match Expect(Ascii("}"), d.1)
            case None => None
            case Some(rest) => Some((Chunk(a.0, b.0, c.0, d.0), rest))
  }

  lemma ChunkReads(c: Chunk, rest: bytes)
    ensures ReadChunk(ChunkText(c, rest)) == Some((c, rest))
  {
    var d := HexField(Ascii(",\"plaintextDigest\":\""), c.digest, Ascii("}") + rest);
    var l := NumberField(Ascii(",\"length\":"), c.length, d);
    var o := NumberField(Ascii(",\"offset\":"), c.offset, l);
    NumberFieldReads(Ascii("{\"ordinal\":"), c.ordinal, o);
    NumberFieldReads(Ascii(",\"offset\":"), c.offset, l);
    NumberFieldReads(Ascii(",\"length\":"), c.length, d);
    HexFieldReads(Ascii(",\"plaintextDigest\":\""), c.digest, Ascii("}") + rest);
    ExpectReads(Ascii("}"), rest);
  }

  const COMMA: byte := 0x2C
  const LEFT: byte := 0x5B
  const RIGHT: byte := 0x5D

  predicate StartsWith(b: byte, raw: bytes) {
    raw != [] && raw[0] == b
  }

  /** The chunks after the first, and the closing bracket. */
  function MoreText(chunks: seq<Chunk>, rest: bytes): bytes {
    if chunks == [] then [RIGHT] + rest else [COMMA] + ChunkText(chunks[0], MoreText(chunks[1..], rest))
  }

  function ReadMore(raw: bytes): Option<(seq<Chunk>, bytes)>
    decreases |raw|, 0
  {
    if StartsWith(RIGHT, raw) then Some(([], raw[1..]))
    else if StartsWith(COMMA, raw) then ReadList(raw[1..])
    else None
  }

  /** A chunk and those after it. */
  function ReadList(raw: bytes): Option<(seq<Chunk>, bytes)>
    decreases |raw|, 1
  {
    match ReadChunk(raw)
    case None => None
    case Some(first) =>
      match ReadMore(first.1)
      case None => None
      case Some(more) => Some(([first.0] + more.0, more.1))
  }

  lemma ListReads(chunks: seq<Chunk>, text: bytes, rest: bytes)
    requires chunks != [] && ReadMore(text) == Some((chunks[1..], rest))
    ensures ReadList(ChunkText(chunks[0], text)) == Some((chunks, rest))
  {
    ChunkReads(chunks[0], text);
    assert [chunks[0]] + chunks[1..] == chunks;
  }

  lemma {:induction false} MoreReads(chunks: seq<Chunk>, rest: bytes)
    ensures ReadMore(MoreText(chunks, rest)) == Some((chunks, rest))
    decreases |chunks|
  {
    if chunks == [] {
      assert ([RIGHT] + rest)[1..] == rest;
    } else {
      var more := MoreText(chunks[1..], rest);
      MoreReads(chunks[1..], rest);
      ListReads(chunks, more, rest);
      assert ([COMMA] + ChunkText(chunks[0], more))[1..] == ChunkText(chunks[0], more);
    }
  }

  /** A list without chunks is null. */
  function ChunksText(chunks: seq<Chunk>, rest: bytes): bytes {
    if chunks == [] then Ascii("null") + rest else [LEFT] + ChunkText(chunks[0], MoreText(chunks[1..], rest))
  }

  function ReadChunks(raw: bytes): Option<(seq<Chunk>, bytes)> {
    if StartsWith(LEFT, raw) then ReadList(raw[1..])
    else match Expect(Ascii("null"), raw)
         case None => None
         case Some(rest) => Some(([], rest))
  }

  lemma ChunksRead(chunks: seq<Chunk>, rest: bytes)
    ensures ReadChunks(ChunksText(chunks, rest)) == Some((chunks, rest))
  {
    if chunks == [] {
      ExpectReads(Ascii("null"), rest);
      assert (Ascii("null") + rest)[0] == Ascii("null")[0] != LEFT;
    } else {
      var more := MoreText(chunks[1..], rest);
      MoreReads(chunks[1..], rest);
      ListReads(chunks, more, rest);
      assert ([LEFT] + ChunkText(chunks[0], more))[1..] == ChunkText(chunks[0], more);
    }
  }

  // ---------------------------------------------------------------- the manifest

  function Opening(): bytes {
    Ascii("{\"format\":\"pagnet.native-content-manifest.v1\",\"contentId\":\"")
  }

  /** The part after the text fields. */
  function Figures(m: Manifest): bytes {
    NumberField(Ascii(",\"plaintextBytes\":"), m.size,
      HexField(Ascii(",\"plaintextDigest\":\""), m.digest,
        Ascii(",\"chunks\":") + ChunksText(m.chunks, Ascii("}"))))
  }

  function Text(m: Manifest): bytes {
    StringField(Opening(), m.contentId,
      StringField(Ascii(",\"purpose\":\""), m.purpose,
        StringField(Ascii(",\"mimeType\":\""), m.mime, Figures(m))))
  }

  function ReadFigures(raw: bytes): Option<(int, bytes, seq<Chunk>)> {
    match ReadNumberField(Ascii(",\"plaintextBytes\":"), raw)
    case None => None
    case Some(size) =>
      match ReadHexField(Ascii(",\"plaintextDigest\":\""), size.1)
      case None => None
      case Some(digest) =>
        match Expect(Ascii(",\"chunks\":"), digest.1)
        case None => None
        case Some(list) =>
          match ReadChunks(list)
          case None => None
          case Some(chunks) => if chunks.1 == Ascii("}") then Some((size.0, digest.0, chunks.0)) else None
  }

  /** Reads the text of a manifest, in the encoder's own layout. */
  function Read(raw: bytes): Option<Manifest> {
    match ReadStringField(Opening(), raw)
    case None => None
    case Some(contentId) =>
      match ReadStringField(Ascii(",\"purpose\":\""), contentId.1)
      case None => None
      case Some(purpose) =>
        match ReadStringField(Ascii(",\"mimeType\":\""), purpose.1)
        case None => None
        case Some(mime) =>
          match ReadFigures(mime.1)
          case None => None
          case Some(figures) => Some(Manifest(contentId.0, purpose.0, mime.0, figures.0, figures.1, figures.2))
  }

  lemma FiguresRead(m: Manifest)
    ensures ReadFigures(Figures(m)) == Some((m.size, m.digest, m.chunks))
  {
    var list := Ascii(",\"chunks\":") + ChunksText(m.chunks, Ascii("}"));
    var digest := HexField(Ascii(",\"plaintextDigest\":\""), m.digest, list);
    NumberFieldReads(Ascii(",\"plaintextBytes\":"), m.size, digest);
    HexFieldReads(Ascii(",\"plaintextDigest\":\""), m.digest, list);
    ExpectReads(Ascii(",\"chunks\":"), ChunksText(m.chunks, Ascii("}")));
    ChunksRead(m.chunks, Ascii("}"));
  }

  /** Reading the text of a manifest gives the manifest, with its text fields as valid
      UTF-8. */
  lemma ReadOfText(m: Manifest)
    ensures Read(Text(m)) == Some(m.Shown())
  {
    var mime := StringField(Ascii(",\"mimeType\":\""), m.mime, Figures(m));
    var purpose := StringField(Ascii(",\"purpose\":\""), m.purpose, mime);
    StringFieldReads(Opening(), m.contentId, purpose);
    StringFieldReads(Ascii(",\"purpose\":\""), m.purpose, mime);
    StringFieldReads(Ascii(",\"mimeType\":\""), m.mime, Figures(m));
    FiguresRead(m);
  }

  // ---------------------------------------------------------------- its length

  predicate Short(n: int) {
    0 <= n < 100_000_000
  }

  predicate ShortChunk(c: Chunk) {
    Short(c.ordinal) && Short(c.offset) && Short(c.length) && |c.digest| == 32
  }

  lemma NumberFieldShort(name: bytes, n: int, rest: bytes)
    requires Short(n)
    ensures |NumberField(name, n, rest)| <= |name| + 8 + |rest|
  {
    assert Pow10(8) == 100_000_000 by {
      assert Pow10(4) == 10_000;
      assert Pow10(8) == 10 * (10 * (10 * (10 * Pow10(4))));
    }
    DigitsShort(n, 8);
  }

  lemma ChunkShort(c: Chunk, rest: bytes)
    requires ShortChunk(c)
    ensures |ChunkText(c, rest)| <= 150 + |rest|
  {
    var d := HexField(Ascii(",\"plaintextDigest\":\""), c.digest, Ascii("}") + rest);
    var l := NumberField(Ascii(",\"length\":"), c.length, d);
    NumberFieldShort(Ascii(",\"length\":"), c.length, d);
    NumberFieldShort(Ascii(",\"offset\":"), c.offset, l);
    NumberFieldShort(Ascii("{\"ordinal\":"), c.ordinal, NumberField(Ascii(",\"offset\":"), c.offset, l));
  }

  lemma {:induction false} MoreShort(chunks: seq<Chunk>, rest: bytes)
    requires forall i :: 0 <= i < |chunks| ==> ShortChunk(chunks[i])
    ensures |MoreText(chunks, rest)| <= 151 * |chunks| + 1 + |rest|
    decreases |chunks|
  {
    if chunks != [] {
      MoreShort(chunks[1..], rest);
      ChunkShort(chunks[0], MoreText(chunks[1..], rest));
    }
  }

  /** A manifest of at most 320 chunks and short names fits in 64 KiB. */
  lemma TextShort(m: Manifest)
    requires |m.contentId| <= 36 && |m.purpose| <= 18 && |m.mime| <= 128 && Short(m.size) && |m.digest| == 32
    requires 1 <= |m.chunks| <= 320 && forall i :: 0 <= i < |m.chunks| ==> ShortChunk(m.chunks[i])
    ensures |Text(m)| <= 64 * 1024
  {
    var close := Ascii("}");
    MoreShort(m.chunks[1..], close);
    ChunkShort(m.chunks[0], MoreText(m.chunks[1..], close));
    assert |ChunksText(m.chunks, close)| <= 151 * 320 + 3;
    var digest := HexField(Ascii(",\"plaintextDigest\":\""), m.digest, Ascii(",\"chunks\":") + ChunksText(m.chunks, close));
    NumberFieldShort(Ascii(",\"plaintextBytes\":"), m.size, digest);
    assert |Figures(m)| <= 151 * 320 + 200;
  }
}
