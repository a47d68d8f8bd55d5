/** What the heads and size lines of HTTP/1.1 answers say as text (`esim-helper/src/https.rs`). */
module HttpHead {
  import opened Prelude
  import opened Text
  import H = HttpReader

  /** UTF-8 decoding: strictly, and with replacement characters. */
  datatype Utf8 = Utf8(strict: seq<byte> -> Option<string>, lossy: seq<byte> -> string)

  predicate IsAscii(text: string) {
    forall i :: 0 <= i < |text| ==> text[i] as int < 128
  }

  function AsciiBytes(text: string): (bytes: seq<byte>)
    requires IsAscii(text)
    ensures |bytes| == |text|
  {
    seq(|text|, i requires 0 <= i < |text| => text[i] as int)
  }

  ghost predicate Decodes(u: Utf8) {
    && (forall bytes :: u.strict(bytes).Some? ==> u.strict(bytes).value == u.lossy(bytes))
    && (forall text | IsAscii(text) :: u.strict(AsciiBytes(text)) == Some(text))
  }

  // ---------------------------------------------------------------------------
  // Heads
  // ---------------------------------------------------------------------------

  function WithoutCr(line: string): string {
    if EndsWith(line, "\r") then line[..|line| - 1] else line
  }

  /** `str::lines`. */
  function Lines(text: string): seq<string> {
    var pieces := Split(text, '\n');
    var ended := seq(|pieces| - 1, i requires 0 <= i < |pieces| - 1 => WithoutCr(pieces[i]));
    var last := pieces[|pieces| - 1];
    if last == "" then ended else ended + [last]
  }

  /** The value of the first header with `name`, letter case aside. */
  function Header(lines: seq<string>, name: string): Option<string> {
    if lines == [] then None
    else
      var line := lines[0];
      var colon := IndexOf(line, ':');
      if colon < |line| && EqualIgnoreCase(Trim(line[..colon]), name) then Some(Trim(line[colon + 1..]))
      else Header(lines[1..], name)
  }

  /** A line that carries the header, letter case and spaces around the name aside. */
  predicate Carries(line: string, name: string) {
    IndexOf(line, ':') < |line| && EqualIgnoreCase(Trim(line[..IndexOf(line, ':')]), name)
  }

  /** A header's value is that of the first line that carries it; without one there is none. */
  lemma {:induction false} HeaderIsFirst(lines: seq<string>, name: string, k: nat)
    requires k <= |lines| && forall i :: 0 <= i < k ==> !Carries(lines[i], name)
    requires k < |lines| ==> Carries(lines[k], name)
    ensures Header(lines, name) == if k < |lines| then Some(Trim(lines[k][IndexOf(lines[k], ':') + 1..])) else None
  {
    if lines != [] {
      if k > 0 {
        assert !Carries(lines[0], name);
        HeaderIsFirst(lines[1..], name, k - 1);
      }
    }
  }

  function WordEnd(text: string): (end: nat)
    ensures end <= |text|
  {
    if text == "" || IsWhitespace(text[0]) then 0 else 1 + WordEnd(text[1..])
  }

  lemma {:induction false} TrimStartShrinks(text: string)
    ensures |TrimStart(text)| <= |text|
  {
    if text != "" && IsWhitespace(text[0]) {
      TrimStartShrinks(text[1..]);
    }
  }

  /** `str::split_whitespace`. */
  function Words(text: string): seq<string>
    decreases |text|
  {
    TrimStartShrinks(text);
    var rest := TrimStart(text);
    var end := WordEnd(rest);
    if end == 0 then [] else [rest[..end]] + Words(rest[end..])
  }

  function Status(line: string): Result<nat, H.Error> {
    var words := Words(line);
    if words == [] || !StartsWith(words[0], "HTTP/1.") then Err(H.NotHttp)
    else if |words| == 1 then Err(H.NoStatus)
    else match ParseUnsigned(words[1], U32_SIZE)
      case None => Err(H.NoStatus)
      case Some(code) => if 100 <= code < 600 then Ok(code) else Err(H.NoStatus)
  }

  function Described(text: string): H.Head {
    var lines := Lines(text);
    var headers := if lines == [] then [] else lines[1..];
    var lower := Lower(text);
    var encoding := Header(headers, "transfer-encoding");
    var length := Header(headers, "content-length");
    H.Head(
      status := Status(if lines == [] then "" else lines[0]),
      noContent := StartsWith(lower, "http/1.1 204") || StartsWith(lower, "http/1.0 204"),
      chunked := encoding.Some? && Contains(Lower(encoding.value), "chunked"),
      length := if length.None? then None else ParseUnsigned(length.value, U64_SIZE))
  }

  // ---------------------------------------------------------------------------
  // Size lines
  // ---------------------------------------------------------------------------

  function HexValue(c: char): nat
    requires IsHexDigit(c)
  {
    if IsDigit(c) then c as int - '0' as int
    else if 'a' <= c <= 'f' then c as int - 'a' as int + 10
    else c as int - 'A' as int + 10
  }

  predicate AllHex(text: string) {
    forall i :: 0 <= i < |text| ==> IsHexDigit(text[i])
  }

  function HexNumber(text: string): nat
    requires AllHex(text)
  {
    if text == "" then 0 else 16 * HexNumber(text[..|text| - 1]) + HexValue(text[|text| - 1])
  }

  /** `usize::from_str_radix` in base 16: an optional `+`, then digits, below 2^64. */
  function ParseHex(text: string): Option<nat> {
    var digits := if text != "" && text[0] == '+' then text[1..] else text;
    if digits == "" || !AllHex(digits) || HexNumber(digits) >= U64_SIZE then None else Some(HexNumber(digits))
  }

  /** The size a chunk's line says, extensions dropped. */
  function LineSize(line: string): Option<nat> {
    ParseHex(Trim(line[..IndexOf(line, ';')]))
  }

  function ReaderFor(u: Utf8): H.Reader {
    H.Reader(
      bytes => Described(u.lossy(bytes)),
      bytes => (match u.strict(bytes) case None => None case Some(text) => Some(Described(text))),
      bytes => (match u.strict(bytes) case None => None case Some(text) => LineSize(text)))
  }

  /** The reader of the helper meets what the reader's theorems ask for. */
  lemma ReaderAgrees(u: Utf8)
    requires Decodes(u)
    ensures H.Agrees(ReaderFor(u))
  {
  }

  // ---------------------------------------------------------------------------
  // Sizes as senders write them
  // ---------------------------------------------------------------------------

  function HexChar(d: nat): (c: char)
    requires d < 16
    ensures IsHexDigit(c) && HexValue(c) == d && c != ';' && !IsWhitespace(c) && c as int < 128
  {
    if d < 10 then ('0' as int + d) as char else ('a' as int + d - 10) as char
  }

  function HexText(n: nat): (text: string)
    ensures text != "" && AllHex(text) && HexNumber(text) == n && IsAscii(text)
  {
    if n < 16 then
      assert HexNumber([HexChar(n)]) == 16 * HexNumber("") + n;
      [HexChar(n)]
    else
      var front := HexText(n / 16);
      var text := front + [HexChar(n % 16)];
      assert text[..|text| - 1] == front;
      text
  }

  lemma HexDigitIsPlain(c: char)
    requires IsHexDigit(c)
    ensures !IsWhitespace(c) && c != ';' && c != '+'
  {
  }

  lemma NoSemicolon(text: string)
    requires AllHex(text)
    ensures ';' !in text
  {
  }

  lemma HexTextParses(text: string)
    requires text != "" && AllHex(text) && HexNumber(text) < U64_SIZE
    ensures LineSize(text) == Some(HexNumber(text))
  {
    NoSemicolon(text);
    assert text[..IndexOf(text, ';')] == text;
    HexDigitIsPlain(text[0]);
    HexDigitIsPlain(text[|text| - 1]);
  }

  lemma {:induction false} IndexOfConcat(a: string, c: char, b: string)
    requires c !in a
    ensures IndexOf(a + [c] + b, c) == |a|
  {
    var text := a + [c] + b;
    if a != "" {
      assert text[1..] == a[1..] + [c] + b;
      IndexOfConcat(a[1..], c, b);
    }
  }

  /** A chunk's extensions change nothing about its size. */
  lemma ExtensionsAreDropped(n: nat, extension: string)
    requires n < U64_SIZE
    ensures LineSize(HexText(n) + ";" + extension) == Some(n)
  {
    var text := HexText(n);
    HexTextParses(text);
    NoSemicolon(text);
    IndexOfConcat(text, ';', extension);
    assert (text + ";" + extension)[..|text|] == text;
    assert text[..|text|] == text;
  }

  lemma {:induction false} NoLineBreak(bytes: seq<byte>)
    requires forall i :: 0 <= i < |bytes| ==> bytes[i] > 32
    ensures H.Find(bytes, H.CRLF).None?
  {
    if |bytes| >= 2 {
      assert bytes[..2][0] == bytes[0];
      NoLineBreak(bytes[1..]);
    }
  }

  lemma HexLineSaysSize(u: Utf8, n: nat)
    requires Decodes(u) && n < U64_SIZE
    ensures H.SaysSize(ReaderFor(u), AsciiBytes(HexText(n)), n)
  {
    var text := HexText(n);
    HexTextParses(text);
    NoLineBreak(AsciiBytes(text));
  }

  function HexPieces(chunks: seq<seq<byte>>): seq<H.Piece> {
    seq(|chunks|, i requires 0 <= i < |chunks| => H.Piece(AsciiBytes(HexText(|chunks[i]|)), chunks[i]))
  }

  function Joined(chunks: seq<seq<byte>>): seq<byte> {
    if chunks == [] then [] else chunks[0] + Joined(chunks[1..])
  }

  lemma {:induction false} BodyOfPieces(chunks: seq<seq<byte>>)
    ensures H.Body(HexPieces(chunks)) == Joined(chunks)
  {
    if chunks != [] {
      assert HexPieces(chunks)[1..] == HexPieces(chunks[1..]);
      BodyOfPieces(chunks[1..]);
    }
  }

  /** The chunked encoding with plain hex sizes. */
  function SendChunked(chunks: seq<seq<byte>>): seq<byte> {
    H.Chunked(HexPieces(chunks), AsciiBytes(HexText(0)))
  }

  /** RFC 9112 section 7.1: the whole of it decodes to the chunks joined, and no proper prefix decodes. */
  lemma ChunkedRoundTrip(u: Utf8, chunks: seq<seq<byte>>, k: nat)
    requires Decodes(u) && forall i :: 0 <= i < |chunks| ==> 0 < |chunks[i]| && |chunks[i]| + 2 < U64_SIZE
    ensures H.Decoded(ReaderFor(u), SendChunked(chunks)) == H.Done(Joined(chunks))
    ensures k < |SendChunked(chunks)| ==> H.Decoded(ReaderFor(u), SendChunked(chunks)[..k]) == H.Unfinished
  {
    var r, pieces, last := ReaderFor(u), HexPieces(chunks), AsciiBytes(HexText(0));
    forall i | 0 <= i < |pieces| ensures H.IsPiece(r, pieces[i]) {
      HexLineSaysSize(u, |chunks[i]|);
    }
    HexLineSaysSize(u, 0);
    H.ChunkedRoundTrip(r, pieces, last, []);
    assert H.Chunked(pieces, last) + [] == H.Chunked(pieces, last);
    BodyOfPieces(chunks);
    if k < |SendChunked(chunks)| {
      H.PrefixIsUnfinished(r, pieces, last, k);
    }
  }
}
