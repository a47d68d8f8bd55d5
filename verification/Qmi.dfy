/** QMI messages as sent over QRTR (`esim-helper/src/qrtr_uim.rs`). */
module Qmi {
  import opened Prelude

  /** One type-length-value field. */
  datatype Field = Field(id: byte, value: seq<byte>)

  datatype Message = Message(kind: byte, txn: u16, msgId: u16, fields: seq<Field>)

  const U16_SIZE: nat := 0x1_0000

  function Le16(n: u16): (bytes: seq<byte>)
    ensures |bytes| == 2
  {
    [n % 256, n / 256]
  }

  /** The 16-bit number at `i`, low byte first. */
  function At16(buf: seq<byte>, i: nat): Option<u16> {
    if i + 1 < |buf| then Some(256 * buf[i + 1] as int + buf[i]) else None
  }

  lemma ReadsLe16(n: u16, before: seq<byte>, after: seq<byte>)
    ensures At16(before + Le16(n) + after, |before|) == Some(n)
  {
  }

  lemma WritesAt16(buf: seq<byte>, i: nat)
    requires i + 1 < |buf|
    ensures Le16(At16(buf, i).value) == buf[i..i + 2]
  {
  }

  // ---------------------------------------------------------------------------
  // Encoding
  // ---------------------------------------------------------------------------

  /** Lengths are cast to 16 bits. */
  function FieldBytes(f: Field): seq<byte> {
    [f.id] + Le16(|f.value| % U16_SIZE) + f.value
  }

  function BodyBytes(fields: seq<Field>): seq<byte> {
    if fields == [] then [] else FieldBytes(fields[0]) + BodyBytes(fields[1..])
  }

  function Header(m: Message, length: nat): (bytes: seq<byte>)
    ensures |bytes| == 7
  {
    [m.kind] + Le16(m.txn) + Le16(m.msgId) + Le16(length % U16_SIZE)
  }

  function Bytes(m: Message): seq<byte> {
    Header(m, |BodyBytes(m.fields)|) + BodyBytes(m.fields)
  }

  lemma {:induction false} BodyAppend(fields: seq<Field>, last: Field)
    ensures BodyBytes(fields + [last]) == BodyBytes(fields) + FieldBytes(last)
  {
    if fields == [] {
      assert [] + [last] == [last];
      assert BodyBytes([last]) == FieldBytes(last) + BodyBytes([]);
    } else {
      assert (fields + [last])[1..] == fields[1..] + [last];
      BodyAppend(fields[1..], last);
    }
  }

  method Encode(kind: byte, txn: u16, msgId: u16, fields: seq<Field>) returns (out: seq<byte>)
    ensures out == Bytes(Message(kind, txn, msgId, fields))
  {
    var body: seq<byte> := [];
    for k := 0 to |fields|
      invariant body == BodyBytes(fields[..k])
    {
      BodyAppend(fields[..k], fields[k]);
      assert fields[..k + 1] == fields[..k] + [fields[k]];
      body := body + ([fields[k].id] + Le16(|fields[k].value| % U16_SIZE) + fields[k].value);
    }
    assert fields[..|fields|] == fields;
    out := [kind] + Le16(txn) + Le16(msgId) + Le16(|body| % U16_SIZE);
    out := out + body;
  }

  // ---------------------------------------------------------------------------
  // Decoding
  // ---------------------------------------------------------------------------

  /** The field at the start of `rest`. */
  function FirstField(rest: seq<byte>): (f: Option<Field>)
    ensures f.Some? ==> 3 + |f.value.value| <= |rest|
  {
    match At16(rest, 1)
    case None => None
    case Some(length) =>
      if 3 + length > |rest| then None else Some(Field(rest[0], rest[3..3 + length]))
  }

  function Fields(rest: seq<byte>): Option<seq<Field>>
    decreases |rest|
  {
    if rest == [] then Some([])
    else match FirstField(rest)
      case None => None
      case Some(f) =>
        match Fields(rest[3 + |f.value|..])
        case None => None
        case Some(others) => Some([f] + others)
  }

  function Parsed(buf: seq<byte>): Option<Message> {
    match (At16(buf, 1), At16(buf, 3), At16(buf, 5))
    case (Some(txn), Some(msgId), Some(length)) =>
      if 7 + length > |buf| then None
      else (
        match Fields(buf[7..7 + length])
        case None => None
        case Some(fields) => Some(Message(buf[0], txn, msgId, fields)))
    case _ => None
  }

  method Decode(buf: seq<byte>) returns (m: Option<Message>)
    ensures m == Parsed(buf)
  {
    var txn, msgId, length := At16(buf, 1), At16(buf, 3), At16(buf, 5);
    if buf == [] || txn.None? || msgId.None? || length.None? || 7 + length.value > |buf| {
      return None;
    }
    var body := buf[7..7 + length.value];
    var rest, fields := body, [];
    assert Fields(body).Some? ==> [] + Fields(body).value == Fields(body).value;
    while rest != []
      invariant Fields(body) == Prefixed(fields, Fields(rest))
      decreases |rest|
    {
      var l := At16(rest, 1);
      if l.None? || 3 + l.value > |rest| {
        return None;
      }
      PrefixedMore(fields, rest);
      fields := fields + [Field(rest[0], rest[3..3 + l.value])];
      rest := rest[3 + l.value..];
    }
    assert fields + [] == fields;
    return Some(Message(buf[0], txn.value, msgId.value, fields));
  }

  function Prefixed(fields: seq<Field>, more: Option<seq<Field>>): Option<seq<Field>> {
    if more.None? then None else Some(fields + more.value)
  }

  lemma PrefixedMore(fields: seq<Field>, rest: seq<byte>)
    requires rest != [] && FirstField(rest).Some?
    ensures var f := FirstField(rest).value;
            Prefixed(fields, Fields(rest)) == Prefixed(fields + [f], Fields(rest[3 + |f.value|..]))
  {
    var f := FirstField(rest).value;
    var others := Fields(rest[3 + |f.value|..]);
    if others.Some? {
      assert fields + ([f] + others.value) == (fields + [f]) + others.value;
    }
  }

  // ---------------------------------------------------------------------------
  // Mutual inverses
  // ---------------------------------------------------------------------------

  predicate FieldsFit(fields: seq<Field>) {
    forall i :: 0 <= i < |fields| ==> |fields[i].value| < U16_SIZE
  }

  /** The body and every field in it have 16-bit lengths. */
  predicate Fits(m: Message) {
    FieldsFit(m.fields) && |BodyBytes(m.fields)| < U16_SIZE
  }

  lemma FirstOfEncoded(f: Field, rest: seq<byte>)
    requires |f.value| < U16_SIZE
    ensures FirstField(FieldBytes(f) + rest) == Some(f)
    ensures (FieldBytes(f) + rest)[3 + |f.value|..] == rest
  {
    var buf := FieldBytes(f) + rest;
    assert buf == [f.id] + Le16(|f.value|) + (f.value + rest);
    ReadsLe16(|f.value|, [f.id], f.value + rest);
    assert buf[3..3 + |f.value|] == f.value;
  }

  lemma {:induction false} FieldsOfEncoded(fields: seq<Field>)
    requires FieldsFit(fields)
    ensures Fields(BodyBytes(fields)) == Some(fields)
  {
    if fields != [] {
      FirstOfEncoded(fields[0], BodyBytes(fields[1..]));
      FieldsOfEncoded(fields[1..]);
      assert fields == [fields[0]] + fields[1..];
    }
  }

  lemma HeaderReads(m: Message, length: u16, tail: seq<byte>)
    ensures var buf := Header(m, length) + tail;
            && buf[0] == m.kind && At16(buf, 1) == Some(m.txn)
            && At16(buf, 3) == Some(m.msgId) && At16(buf, 5) == Some(length)
  {
    var buf := Header(m, length) + tail;
    var kind, txn, id, len := [m.kind], Le16(m.txn), Le16(m.msgId), Le16(length);
    assert buf == kind + txn + (id + len + tail);
    ReadsLe16(m.txn, kind, id + len + tail);
    assert buf == (kind + txn) + id + (len + tail);
    ReadsLe16(m.msgId, kind + txn, len + tail);
    assert buf == (kind + txn + id) + len + tail;
    ReadsLe16(length, kind + txn + id, tail);
  }

  lemma ParsesEncoded(m: Message, rest: seq<byte>)
    requires Fits(m)
    ensures Parsed(Bytes(m) + rest) == Some(m)
  {
    var body := BodyBytes(m.fields);
    var buf := Bytes(m) + rest;
    assert buf == Header(m, |body|) + (body + rest);
    HeaderReads(m, |body|, body + rest);
    assert buf[7..7 + |body|] == body;
    FieldsOfEncoded(m.fields);
  }

  lemma FirstFieldBytes(rest: seq<byte>)
    requires FirstField(rest).Some?
    ensures var f := FirstField(rest).value;
            |f.value| < U16_SIZE && FieldBytes(f) == rest[..3 + |f.value|]
  {
    var f := FirstField(rest).value;
    WritesAt16(rest, 1);
    assert rest[..3 + |f.value|] == [rest[0]] + rest[1..3] + rest[3..3 + |f.value|];
  }

  lemma {:induction false} EncodesFields(rest: seq<byte>)
    requires Fields(rest).Some?
    ensures FieldsFit(Fields(rest).value) && BodyBytes(Fields(rest).value) == rest
    decreases |rest|
  {
    if rest != [] {
      var f := FirstField(rest).value;
      var tail := rest[3 + |f.value|..];
      EncodesFields(tail);
      FirstFieldBytes(rest);
      var fields := Fields(rest).value;
      assert fields[0] == f && fields[1..] == Fields(tail).value;
      assert rest == rest[..3 + |f.value|] + tail;
    }
  }

  /** Encoding a decoded message gives back the bytes it was decoded from. */
  lemma EncodesDecoded(buf: seq<byte>)
    requires Parsed(buf).Some?
    ensures var m := Parsed(buf).value;
            Fits(m) && |Bytes(m)| == 7 + At16(buf, 5).value <= |buf| && Bytes(m) == buf[..|Bytes(m)|]
  {
    var m := Parsed(buf).value;
    var length := At16(buf, 5).value;
    EncodesFields(buf[7..7 + length]);
    HeaderBytes(buf, m);
    assert buf[..7 + length] == buf[..7] + buf[7..7 + length];
  }

  lemma HeaderBytes(buf: seq<byte>, m: Message)
    requires |buf| >= 7 && m.kind == buf[0]
    requires At16(buf, 1) == Some(m.txn) && At16(buf, 3) == Some(m.msgId)
    ensures Header(m, At16(buf, 5).value) == buf[..7]
  {
    WritesAt16(buf, 1);
    WritesAt16(buf, 3);
    WritesAt16(buf, 5);
    assert buf[..7] == [buf[0]] + buf[1..3] + buf[3..5] + buf[5..7];
  }

  /** Decoding gives a message back, whatever follows it, exactly when its lengths fit 16 bits. */
  lemma RoundTripsExactly(m: Message, rest: seq<byte>)
    ensures Parsed(Bytes(m) + rest) == Some(m) <==> Fits(m)
  {
    if Fits(m) {
      ParsesEncoded(m, rest);
    } else if Parsed(Bytes(m) + rest) == Some(m) {
      EncodesDecoded(Bytes(m) + rest);
    }
  }

  // ---------------------------------------------------------------------------
  // The result of a request
  // ---------------------------------------------------------------------------

  const RESULT: byte := 0x02

  /** Why a request failed. Of the texts the client makes of these, only `Refused` starts with "QMI error". */
  datatype Failure =
    | NoResult
    | ShortResult
    | Refused(code: u16)
    | NotSent
    | NoAnswer
    | ServiceWentAway

  function FirstWith(fields: seq<Field>, id: byte): Option<seq<byte>> {
    if fields == [] then None
    else if fields[0].id == id then Some(fields[0].value)
    else FirstWith(fields[1..], id)
  }

  function CheckResult(fields: seq<Field>): Result<(), Failure> {
    match FirstWith(fields, RESULT)
    case None => Err(NoResult)
    case Some(r) =>
      if |r| < 4 then Err(ShortResult)
      else if At16(r, 0) == Some(0) then Ok(())
      else Err(Refused(At16(r, 2).value))
  }
}
