/**
 The HTTP/1.1 answer reader of the eSIM helper (`esim-helper/src/https.rs`). How a head and a
 chunk's size line read as text is a parameter here; `HttpHead` supplies it.
 */
module HttpReader {
  import opened Prelude

  const CR: byte := 13
  const LF: byte := 10
  const CRLF: seq<byte> := [CR, LF]
  const HEAD_END: seq<byte> := [CR, LF, CR, LF]

  datatype Error = HeadIncomplete | HeadNotText | NotHttp | NoStatus | ChunksIncomplete | TooLarge | Broken | Stopped

  /** What a head says. `length` is a declared content length, below 2^64. */
  datatype Head = Head(status: Result<nat, Error>, noContent: bool, chunked: bool, length: Option<nat>)

  /** How bytes read as text: a head with replacement characters, a head strictly, and a chunk's size line. */
  datatype Reader = Reader(lossy: seq<byte> -> Head, strict: seq<byte> -> Option<Head>, size: seq<byte> -> Option<nat>)

  /** A head that is text reads the same both ways. */
  ghost predicate Agrees(r: Reader) {
    forall head :: r.strict(head).Some? ==> r.strict(head).value == r.lossy(head)
  }

  // ---------------------------------------------------------------------------
  // Searching
  // ---------------------------------------------------------------------------

  /** Where `pattern` first occurs. */
  function Find(buf: seq<byte>, pattern: seq<byte>): (i: Option<nat>)
    ensures i.Some? ==> i.value + |pattern| <= |buf|
  {
    if |buf| < |pattern| then None
    else if buf[..|pattern|] == pattern then Some(0)
    else if buf == [] then None
    else match Find(buf[1..], pattern)
      case None => None
      case Some(i) => Some(i + 1)
  }

  lemma {:induction false} FindIsStable(a: seq<byte>, b: seq<byte>, pattern: seq<byte>)
    requires Find(a, pattern).Some?
    ensures Find(a + b, pattern) == Find(a, pattern)
  {
    assert (a + b)[..|pattern|] == a[..|pattern|];
    if a[..|pattern|] != pattern {
      FindIsStable(a[1..], b, pattern);
      assert (a + b)[1..] == a[1..] + b;
    }
  }

  function HeadEnd(answer: seq<byte>): (end: Option<nat>)
    ensures end.Some? ==> end.value <= |answer|
  {
    match Find(answer, HEAD_END)
    case None => None
    case Some(i) => Some(i + 4)
  }

  // ---------------------------------------------------------------------------
  // Chunked bodies
  // ---------------------------------------------------------------------------

  /** `Unfinished` also stands for a malformed body; `Panic` for the slice a wrapped size asks for. */
  datatype Chunks = Unfinished | Panic | Done(body: seq<byte>)

  function Joined(out: seq<byte>, more: Chunks): Chunks {
    if more.Done? then Done(out + more.body) else more
  }

  /** What one round of the decoder finds at the start of `body`. */
  datatype Round = Wait | Fail | Last | Chunk(data: seq<byte>, rest: seq<byte>)

  function NextChunk(r: Reader, body: seq<byte>): (c: Round)
    ensures c.Chunk? ==> |c.rest| < |body|
  {
    match Find(body, CRLF)
    case None => Wait
    case Some(i) =>
      match r.size(body[..i])
      case None => Wait
      case Some(size) =>
        var rest := body[i + 2..];
        if size == 0 then (if Find(rest, CRLF).Some? then Last else Wait)
        else if |rest| < (size + 2) % U64_SIZE then Wait
        else if size + 2 > |rest| then Fail
        else Chunk(rest[..size], rest[size + 2..])
  }

  /** The body of a chunked answer once its last chunk has arrived; trailers are skipped. */
  function Decoded(r: Reader, body: seq<byte>): Chunks
    decreases |body|
  {
    match NextChunk(r, body)
    case Wait => Unfinished
    case Fail => Panic
    case Last => Done([])
    case Chunk(data, rest) => Joined(data, Decoded(r, rest))
  }

  method DecodeChunked(r: Reader, body: seq<byte>) returns (result: Chunks)
    ensures result == Decoded(r, body)
  {
    hide Find;
    var out: seq<byte> := [];
    var rest := body;
    var more := true;
    assert Joined([], Decoded(r, body)) == Decoded(r, body);
    while more
      invariant more ==> Decoded(r, body) == Joined(out, Decoded(r, rest))
      invariant !more ==> Decoded(r, body) == Done(out)
      decreases more, |rest|
    {
      var lineEnd := Find(rest, CRLF);
      if lineEnd.None? {
        return Unfinished;
      }
      var size := r.size(rest[..lineEnd.value]);
      if size.None? {
        return Unfinished;
      }
      var after := rest[lineEnd.value + 2..];
      if size.value == 0 {
        if Find(after, CRLF).None? {
          return Unfinished;
        }
        assert out + [] == out;
        more := false;
      } else {
        if |after| < (size.value + 2) % U64_SIZE {
          return Unfinished;
        }
        if size.value + 2 > |after| {
          return Panic;
        }
        JoinedTwice(out, after[..size.value], Decoded(r, after[size.value + 2..]));
        out := out + after[..size.value];
        rest := after[size.value + 2..];
      }
    }
    return Done(out);
  }

  lemma JoinedTwice(out: seq<byte>, data: seq<byte>, more: Chunks)
    ensures Joined(out, Joined(data, more)) == Joined(out + data, more)
  {
    if more.Done? {
      assert out + (data + more.body) == (out + data) + more.body;
    }
  }

  lemma NextChunkIsStable(r: Reader, a: seq<byte>, b: seq<byte>)
    ensures NextChunk(r, a).Last? ==> NextChunk(r, a + b).Last?
    ensures NextChunk(r, a).Chunk? ==> NextChunk(r, a + b) == NextChunk(r, a).(rest := NextChunk(r, a).rest + b)
  {
    hide Find;
    var i := Find(a, CRLF);
    if i.Some? {
      FindIsStable(a, b, CRLF);
      assert (a + b)[..i.value] == a[..i.value];
      var rest := a[i.value + 2..];
      assert (a + b)[i.value + 2..] == rest + b;
      var size := r.size(a[..i.value]);
      if size.Some? && size.value == 0 {
        if Find(rest, CRLF).Some? {
          FindIsStable(rest, b, CRLF);
        }
      } else if NextChunk(r, a).Chunk? {
        SizeIsStable(rest, b, size.value);
      }
    }
  }

  lemma SizeIsStable(rest: seq<byte>, b: seq<byte>, size: nat)
    requires size + 2 <= |rest|
    ensures (rest + b)[..size] == rest[..size] && (rest + b)[size + 2..] == rest[size + 2..] + b
    ensures (size + 2) % U64_SIZE <= |rest + b|
  {
  }

  /** A decoded body stays what it is when more bytes arrive. */
  lemma {:induction false} DecodedIsStable(r: Reader, a: seq<byte>, b: seq<byte>)
    requires Decoded(r, a).Done?
    ensures Decoded(r, a + b) == Decoded(r, a)
    decreases |a|
  {
    NextChunkIsStable(r, a, b);
    if NextChunk(r, a).Chunk? {
      DecodedIsStable(r, NextChunk(r, a).rest, b);
    }
  }

  lemma PanicIsStable(r: Reader, a: seq<byte>, b: seq<byte>)
    requires NextChunk(r, a).Fail? && |a + b| < U64_SIZE
    ensures NextChunk(r, a + b).Fail?
  {
    var i := Find(a, CRLF).value;
    FindIsStable(a, b, CRLF);
    assert (a + b)[..i] == a[..i];
    assert (a + b)[i + 2..] == a[i + 2..] + b;
  }

  lemma {:induction false} DecodedPanicIsStable(r: Reader, a: seq<byte>, b: seq<byte>)
    requires Decoded(r, a).Panic? && |a + b| < U64_SIZE
    ensures Decoded(r, a + b).Panic?
    decreases |a|
  {
    if NextChunk(r, a).Chunk? {
      NextChunkIsStable(r, a, b);
      DecodedPanicIsStable(r, NextChunk(r, a).rest, b);
    } else {
      PanicIsStable(r, a, b);
    }
  }

  // ---------------------------------------------------------------------------
  // Whole answers
  // ---------------------------------------------------------------------------

  datatype Verdict = Incomplete | Complete | Crashes

  /** Whether the whole answer is in. */
  function Judged(r: Reader, answer: seq<byte>): Verdict {
    match HeadEnd(answer)
    case None => Incomplete
    case Some(end) =>
      var head := r.lossy(answer[..end]);
      if head.noContent then Complete
      else if head.chunked then
        match Decoded(r, answer[end..])
        case Unfinished => Incomplete
        case Panic => Crashes
        case Done(_) => Complete
      else if head.length.Some? && |answer| >= (end + head.length.value) % U64_SIZE then Complete
      else Incomplete
  }

  datatype Outcome = Answer(status: nat, body: seq<byte>) | Failed(error: Error) | Panicked

  function Shorter(body: seq<byte>, length: Option<nat>): seq<byte> {
    if length.Some? then body[..Min(length.value, |body|)] else body
  }

  /** Status and body of an answer. */
  function Parsed(r: Reader, answer: seq<byte>): Outcome {
    match HeadEnd(answer)
    case None => Failed(HeadIncomplete)
    case Some(end) =>
      match r.strict(answer[..end])
      case None => Failed(HeadNotText)
      case Some(head) =>
        if head.status.Err? then Failed(head.status.error)
        else if head.chunked then
          match Decoded(r, answer[end..])
          case Unfinished => Failed(ChunksIncomplete)
          case Panic => Panicked
          case Done(body) => Answer(head.status.value, body)
        else Answer(head.status.value, Shorter(answer[end..], head.length))
  }

  // ---------------------------------------------------------------------------
  // The read loop
  // ---------------------------------------------------------------------------

  /** What one read does. `Got([])` is the end of the connection; `CutOff` is one without a closing notice. */
  datatype Read = Got(bytes: seq<byte>) | Retry | CutOff | Lost | Stop

  /** The outcome of a request whose answer so far is `answer`. */
  function AfterReads(r: Reader, max: nat, answer: seq<byte>, events: seq<Read>): Outcome
    decreases |events|
  {
    if events == [] then Failed(Stopped)
    else
      match events[0]
      case Retry => AfterReads(r, max, answer, events[1..])
      case CutOff => if HeadEnd(answer).Some? then Parsed(r, answer) else Failed(Broken)
      case Lost => Failed(Broken)
      case Stop => Failed(Stopped)
      case Got(bytes) =>
        if bytes == [] then Parsed(r, answer)
        else if |answer| + |bytes| > max then Failed(TooLarge)
        else match Judged(r, answer + bytes)
          case Complete => Parsed(r, answer + bytes)
          case Crashes => Panicked
          case Incomplete => AfterReads(r, max, answer + bytes, events[1..])
  }

  method ReadAnswer(r: Reader, max: nat, events: seq<Read>) returns (outcome: Outcome)
    ensures outcome == AfterReads(r, max, [], events)
  {
    var answer: seq<byte> := [];
    var i := 0;
    while i < |events|
      invariant i <= |events|
      invariant AfterReads(r, max, [], events) == AfterReads(r, max, answer, events[i..])
    {
      var read := events[i];
      i := i + 1;
      match read {
        case Retry =>
        case CutOff =>
          return if HeadEnd(answer).Some? then Parsed(r, answer) else Failed(Broken);
        case Lost =>
          return Failed(Broken);
        case Stop =>
          return Failed(Stopped);
        case Got(bytes) =>
          if bytes == [] {
            return Parsed(r, answer);
          }
          if |answer| + |bytes| > max {
            return Failed(TooLarge);
          }
          answer := answer + bytes;
          match Judged(r, answer) {
            case Complete => return Parsed(r, answer);
            case Crashes => return Panicked;
            case Incomplete =>
          }
      }
    }
    return Failed(Stopped);
  }

  // ---------------------------------------------------------------------------
  // The answer does not depend on how its bytes are split over reads
  // ---------------------------------------------------------------------------

  lemma HeadEndIsStable(a: seq<byte>, b: seq<byte>)
    requires HeadEnd(a).Some?
    ensures HeadEnd(a + b) == HeadEnd(a)
    ensures var end := HeadEnd(a).value; (a + b)[..end] == a[..end] && (a + b)[end..] == a[end..] + b
  {
    FindIsStable(a, b, HEAD_END);
  }

  /** Once the whole answer is in, it stays in; a crash stays a crash. */
  lemma JudgedIsStable(r: Reader, a: seq<byte>, b: seq<byte>)
    requires Judged(r, a) != Incomplete && |a + b| < U64_SIZE
    ensures Judged(r, a + b) == Judged(r, a)
  {
    HeadEndIsStable(a, b);
    var end := HeadEnd(a).value;
    var head := r.lossy(a[..end]);
    if !head.noContent && head.chunked {
      if Decoded(r, a[end..]).Done? {
        DecodedIsStable(r, a[end..], b);
      } else {
        DecodedPanicIsStable(r, a[end..], b);
      }
    }
  }

  /** Not a 204 answer, and a declared length that does not wrap when the head's is added to it. */
  predicate Steady(r: Reader, answer: seq<byte>) {
    match HeadEnd(answer)
    case None => true
    case Some(end) =>
      var head := r.lossy(answer[..end]);
      !head.noContent && (head.chunked || head.length.None? || end + head.length.value < U64_SIZE)
  }

  /** Status and body stay what they are when more bytes arrive after the whole answer. */
  lemma ParsedIsStable(r: Reader, a: seq<byte>, b: seq<byte>)
    requires Agrees(r) && Judged(r, a) == Complete && Steady(r, a)
    ensures Parsed(r, a + b) == Parsed(r, a)
  {
    HeadEndIsStable(a, b);
    var end := HeadEnd(a).value;
    var head := r.lossy(a[..end]);
    if head.chunked {
      DecodedIsStable(r, a[end..], b);
    } else {
      ShorterIsStable(a[end..], b, head.length.value);
    }
  }

  lemma ShorterIsStable(body: seq<byte>, more: seq<byte>, length: nat)
    requires length <= |body|
    ensures Shorter(body + more, Some(length)) == Shorter(body, Some(length))
  {
  }

  /** The reads deliver `bytes`, however split and delayed, and then the end of the connection. */
  predicate Delivers(events: seq<Read>, bytes: seq<byte>)
    decreases |events|
  {
    events != [] &&
    match events[0]
    case Retry => Delivers(events[1..], bytes)
    case Got(part) => if part == [] then bytes == [] else part <= bytes && Delivers(events[1..], bytes[|part|..])
    case _ => false
  }

  /** What any delivery of `answer` comes to. */
  function Final(r: Reader, answer: seq<byte>): Outcome {
    if Judged(r, answer) == Crashes then Panicked else Parsed(r, answer)
  }

  lemma {:induction false} DeliveryGivesFinal(r: Reader, max: nat, answer: seq<byte>, events: seq<Read>,
                                              tail: seq<byte>)
    requires Agrees(r) && |answer + tail| <= max < U64_SIZE && Delivers(events, tail)
    requires Judged(r, answer) == Incomplete && Steady(r, answer + tail)
    ensures AfterReads(r, max, answer, events) == Final(r, answer + tail)
    decreases |events|
  {
    match events[0]
    case Retry =>
      DeliveryGivesFinal(r, max, answer, events[1..], tail);
    case Got(part) =>
      if part == [] {
        assert answer + tail == answer;
      } else {
        var more, rest := answer + part, tail[|part|..];
        assert answer + tail == more + rest;
        if Judged(r, more) == Incomplete {
          DeliveryGivesFinal(r, max, more, events[1..], rest);
        } else {
          JudgedIsStable(r, more, rest);
          HeadEndIsStable(more, rest);
          if Judged(r, more) == Complete {
            ParsedIsStable(r, more, rest);
          }
        }
      }
  }

  /** RFC 9112 section 6.3: two deliveries of the same bytes within the limit give the same status and body. */
  lemma SplitDoesNotMatter(r: Reader, max: nat, one: seq<Read>, other: seq<Read>, answer: seq<byte>)
    requires Agrees(r) && |answer| <= max < U64_SIZE && Steady(r, answer)
    requires Delivers(one, answer) && Delivers(other, answer)
    ensures AfterReads(r, max, [], one) == AfterReads(r, max, [], other) == Final(r, answer)
  {
    assert [] + answer == answer;
    DeliveryGivesFinal(r, max, [], one, answer);
    DeliveryGivesFinal(r, max, [], other, answer);
  }

  /** Bytes after the whole answer change nothing either. */
  lemma TrailingBytesDoNotMatter(r: Reader, max: nat, one: seq<Read>, other: seq<Read>, answer: seq<byte>,
                                 more: seq<byte>)
    requires Agrees(r) && |answer + more| <= max < U64_SIZE && Steady(r, answer) && Judged(r, answer) == Complete
    requires Delivers(one, answer) && Delivers(other, answer + more)
    ensures AfterReads(r, max, [], one) == AfterReads(r, max, [], other)
  {
    HeadEndIsStable(answer, more);
    SplitDoesNotMatter(r, max, one, one, answer);
    SplitDoesNotMatter(r, max, other, other, answer + more);
    JudgedIsStable(r, answer, more);
    ParsedIsStable(r, answer, more);
  }

  /**
   A declared length near 2^64 wraps when the head's length is added: the answer counts as whole
   once the head is, and its body is whatever arrived with the head's last byte.
   */
  lemma WrappedLengthDependsOnSplit(r: Reader, max: nat, head: seq<byte>, body: seq<byte>)
    requires HeadEnd(head) == Some(|head|) && |head + body| <= max < U64_SIZE
    requires var h := r.lossy(head);
             && r.strict(head) == Some(h) && h.status.Ok? && !h.noContent && !h.chunked
             && h.length.Some? && h.length.value < U64_SIZE <= |head| + h.length.value && |body| <= h.length.value
    ensures var code := r.lossy(head).status.value;
            && AfterReads(r, max, [], [Got(head), Got(body), Got([])]) == Answer(code, [])
            && AfterReads(r, max, [], [Got(head + body), Got([])]) == Answer(code, body)
    ensures Delivers([Got(head + body), Got([])], head + body)
    ensures body != [] ==> Delivers([Got(head), Got(body), Got([])], head + body)
  {
    hide Find, HeadEnd;
    HeadEndIsStable(head, body);
    assert head[..|head|] == head && head[|head|..] == [];
    assert [] + head == head && [] + (head + body) == head + body;
    assert [Got(head), Got(body), Got([])][1..] == [Got(body), Got([])];
    assert [Got(body), Got([])][1..] == [Got([])];
    assert [Got(head + body), Got([])][1..] == [Got([])];
    assert (head + body)[|head|..] == body && body[|body|..] == [];
    assert (head + body)[|head + body|..] == [];
  }

  // ---------------------------------------------------------------------------
  // Chunked encoding
  // ---------------------------------------------------------------------------

  /** One chunk as sent: its size line, extensions included, and its data. */
  datatype Piece = Piece(line: seq<byte>, data: seq<byte>)

  /** A size line that says `size` and is ended by the first CRLF. */
  predicate SaysSize(r: Reader, line: seq<byte>, size: nat) {
    Find(line, CRLF).None? && r.size(line) == Some(size)
  }

  predicate IsPiece(r: Reader, p: Piece) {
    p.data != [] && |p.data| + 2 < U64_SIZE && SaysSize(r, p.line, |p.data|)
  }

  ghost predicate ArePieces(r: Reader, pieces: seq<Piece>) {
    forall i :: 0 <= i < |pieces| ==> IsPiece(r, pieces[i])
  }

  function Wire(p: Piece): seq<byte> {
    p.line + CRLF + p.data + CRLF
  }

  /** RFC 9112 section 7.1, without trailers. */
  function Chunked(pieces: seq<Piece>, last: seq<byte>): seq<byte> {
    if pieces == [] then last + CRLF + CRLF else Wire(pieces[0]) + Chunked(pieces[1..], last)
  }

  function Body(pieces: seq<Piece>): seq<byte> {
    if pieces == [] then [] else pieces[0].data + Body(pieces[1..])
  }

  lemma {:induction false} FindAfterLine(line: seq<byte>, tail: seq<byte>)
    requires Find(line, CRLF).None?
    ensures Find(line + CRLF + tail, CRLF) == Some(|line|)
  {
    var buf := line + CRLF + tail;
    if line == [] {
      assert buf[..2] == CRLF;
    } else {
      NoneInTail(line);
      FindAfterLine(line[1..], tail);
      assert buf[1..] == line[1..] + CRLF + tail;
      assert buf[..2] != CRLF by {
        if |line| > 1 {
          assert buf[..2] == line[..2];
        } else {
          assert buf[1] == CR;
        }
      }
    }
  }

  lemma NoneInTail(line: seq<byte>)
    requires line != [] && Find(line, CRLF).None?
    ensures Find(line[1..], CRLF).None? && (|line| >= 2 ==> line[..2] != CRLF)
  {
  }

  /** Cut off before the end of its CRLF, a size line is not yet a line. */
  lemma {:induction false} NoneInCutLine(line: seq<byte>, tail: seq<byte>, k: nat)
    requires Find(line, CRLF).None? && k <= |line| + 1
    ensures k <= |line + CRLF + tail| && Find((line + CRLF + tail)[..k], CRLF).None?
  {
    var buf := line + CRLF + tail;
    if k >= 2 {
      NoneInTail(line);
      NoneInCutLine(line[1..], tail, k - 1);
      assert buf[1..] == line[1..] + CRLF + tail;
      assert buf[..k][1..] == buf[1..][..k - 1];
      assert buf[..k][..2] == buf[..2];
      assert buf[..2] != CRLF by {
        if |line| > 1 {
          assert buf[..2] == line[..2];
        } else {
          assert buf[1] == CR;
        }
      }
    }
  }

  lemma PieceDecodes(r: Reader, p: Piece, tail: seq<byte>)
    requires IsPiece(r, p)
    ensures NextChunk(r, Wire(p) + tail) == Chunk(p.data, tail)
  {
    var buf := Wire(p) + tail;
    var after := p.data + CRLF + tail;
    assert buf == p.line + CRLF + after;
    FindAfterLine(p.line, after);
    assert buf[..|p.line|] == p.line && buf[|p.line| + 2..] == after;
    assert after[..|p.data|] == p.data && after[|p.data| + 2..] == tail;
  }

  lemma LastDecodes(r: Reader, last: seq<byte>, rest: seq<byte>)
    requires SaysSize(r, last, 0)
    ensures NextChunk(r, last + CRLF + CRLF + rest) == Last
  {
    var buf := last + CRLF + (CRLF + rest);
    assert buf == last + CRLF + CRLF + rest;
    FindAfterLine(last, CRLF + rest);
    assert buf[..|last|] == last && buf[|last| + 2..] == CRLF + rest;
    assert (CRLF + rest)[..2] == CRLF;
  }

  /** Decoding a whole chunked encoding gives the chunks' data, whatever follows. */
  lemma {:induction false} ChunkedRoundTrip(r: Reader, pieces: seq<Piece>, last: seq<byte>, rest: seq<byte>)
    requires ArePieces(r, pieces) && SaysSize(r, last, 0)
    ensures Decoded(r, Chunked(pieces, last) + rest) == Done(Body(pieces))
    decreases |pieces|
  {
    if pieces == [] {
      LastDecodes(r, last, rest);
    } else {
      var tail := Chunked(pieces[1..], last) + rest;
      assert Chunked(pieces, last) + rest == Wire(pieces[0]) + tail;
      PieceDecodes(r, pieces[0], tail);
      ChunkedRoundTrip(r, pieces[1..], last, rest);
    }
  }

  /** A piece cut off before its end is waited for. */
  lemma CutPieceWaits(r: Reader, p: Piece, tail: seq<byte>, k: nat)
    requires IsPiece(r, p) && k < |Wire(p)|
    ensures NextChunk(r, (Wire(p) + tail)[..k]) == Wait
  {
    var after := p.data + CRLF + tail;
    var buf := p.line + CRLF + after;
    assert Wire(p) + tail == buf;
    if k <= |p.line| + 1 {
      NoneInCutLine(p.line, after, k);
    } else {
      var got := buf[|p.line| + 2..k];
      assert buf[..k] == p.line + CRLF + got;
      FindAfterLine(p.line, got);
      assert buf[..k][..|p.line|] == p.line && buf[..k][|p.line| + 2..] == got;
    }
  }

  lemma CutLastWaits(r: Reader, last: seq<byte>, k: nat)
    requires SaysSize(r, last, 0) && k < |last| + 4
    ensures NextChunk(r, (last + CRLF + CRLF)[..k]) == Wait
  {
    var buf := last + CRLF + CRLF;
    if k <= |last| + 1 {
      NoneInCutLine(last, CRLF, k);
    } else {
      var got := CRLF[..k - |last| - 2];
      assert buf[..k] == last + CRLF + got;
      FindAfterLine(last, got);
      assert buf[..k][..|last|] == last && buf[..k][|last| + 2..] == got;
      assert Find(got, CRLF).None?;
    }
  }

  /** On any proper prefix there is no body yet. */
  lemma {:induction false} PrefixIsUnfinished(r: Reader, pieces: seq<Piece>, last: seq<byte>, k: nat)
    requires ArePieces(r, pieces) && SaysSize(r, last, 0) && k < |Chunked(pieces, last)|
    ensures Decoded(r, Chunked(pieces, last)[..k]) == Unfinished
    decreases |pieces|
  {
    if pieces == [] {
      CutLastWaits(r, last, k);
    } else {
      var wire, tail := Wire(pieces[0]), Chunked(pieces[1..], last);
      if k < |wire| {
        CutPieceWaits(r, pieces[0], tail, k);
      } else {
        PieceDecodes(r, pieces[0], tail[..k - |wire|]);
        assert (wire + tail)[..k] == wire + tail[..k - |wire|];
        PrefixIsUnfinished(r, pieces[1..], last, k - |wire|);
      }
    }
  }
}
