/** The QMI UIM client: transaction numbers and the one logical channel (`esim-helper/src/qrtr_uim.rs`). */
module UimClient {
  import opened Prelude
  import opened Qmi

  const CONTROL_PORT: nat := 0xFFFF_FFFE
  const DEL_SERVER: nat := 5
  const REQUEST: byte := 0x00
  const RESPONSE: byte := 0x02
  const SEND_APDU: u16 := 0x003B
  const LOGICAL_CHANNEL: u16 := 0x003F
  const OPEN_LOGICAL_CHANNEL: u16 := 0x0042

  // ---------------------------------------------------------------------------
  // Transaction numbers
  // ---------------------------------------------------------------------------

  function NextTxn(txn: u16): u16 {
    Max((txn + 1) % U16_SIZE, 1)
  }

  /** The number of the `n`-th request. */
  function TxnOf(n: nat): u16 {
    if n == 0 then 0 else NextTxn(TxnOf(n - 1))
  }

  lemma NextTxnSkipsZero(txn: u16)
    ensures NextTxn(txn) == if txn == 65535 then 1 else txn + 1
  {
  }

  lemma NextRemainder(n: nat)
    ensures (n + 1) % 65535 == if n % 65535 == 65534 then 0 else n % 65535 + 1
  {
  }

  lemma {:induction false} TxnFormula(n: nat)
    requires n >= 1
    ensures TxnOf(n) == (n - 1) % 65535 + 1
  {
    NextTxnSkipsZero(TxnOf(n - 1));
    if n == 1 {
      assert TxnOf(0) == 0;
    } else {
      TxnFormula(n - 1);
      NextRemainder(n - 2);
    }
  }

  lemma SameRemainder(a: nat, b: nat)
    requires a <= b
    ensures a % 65535 == b % 65535 <==> (b - a) % 65535 == 0
  {
    var qa, ra, qb, rb := a / 65535, a % 65535, b / 65535, b % 65535;
    assert b - a == 65535 * (qb - qa) + (rb - ra);
  }

  /** Numbers are never 0 and repeat exactly at multiples of 65535 requests. */
  lemma TxnRepeatsExactly(i: nat, j: nat)
    requires 1 <= i <= j
    ensures TxnOf(i) != 0
    ensures TxnOf(i) == TxnOf(j) <==> (j - i) % 65535 == 0
  {
    var a, b := i - 1, j - 1;
    SameRemainder(a, b);
    assert b - a == j - i;
    assert TxnOf(i) == a % 65535 + 1 && TxnOf(j) == b % 65535 + 1 by {
      TxnFormula(i);
      TxnFormula(j);
    }
  }

  // ---------------------------------------------------------------------------
  // Waiting for an answer
  // ---------------------------------------------------------------------------

  datatype Peer = Peer(node: nat, port: nat)

  /** What a wait on the socket gives: a datagram, or no more waiting (deadline, stop or socket error). */
  datatype Arrival = Datagram(from: Peer, data: seq<byte>) | GaveUp

  function At32(b: seq<byte>, i: nat): nat
    requires i + 3 < |b|
  {
    ((0x100 * b[i + 3] as int + b[i + 2]) * 0x100 + b[i + 1]) * 0x100 + b[i]
  }

  predicate SaysGone(data: seq<byte>, peer: Peer) {
    |data| >= 20 && At32(data, 0) == DEL_SERVER && At32(data, 12) == peer.node && At32(data, 16) == peer.port
  }

  /** The peer's response to the request numbered `txn`. */
  predicate Answers(a: Arrival, peer: Peer, txn: u16, msgId: u16) {
    && a.Datagram? && a.from == peer && a.from.port != CONTROL_PORT
    && var m := Parsed(a.data); m.Some? && m.value.kind == RESPONSE && m.value.txn == txn && m.value.msgId == msgId
  }

  /** An arrival that ends the wait without an answer. */
  function Ends(a: Arrival, peer: Peer): Option<Failure> {
    match a
    case GaveUp => Some(NoAnswer)
    case Datagram(from, data) =>
      if from.port == CONTROL_PORT && SaysGone(data, peer) then Some(ServiceWentAway) else None
  }

  function Outcome(fields: seq<Field>): Result<seq<Field>, Failure> {
    match CheckResult(fields)
    case Ok(_) => Ok(fields)
    case Err(e) => Err(e)
  }

  /** The outcome of a wait: that of the first arrival that answers or ends it. */
  function Await(peer: Peer, txn: u16, msgId: u16, arrivals: seq<Arrival>): Result<seq<Field>, Failure> {
    if arrivals == [] then Err(NoAnswer)
    else if Ends(arrivals[0], peer).Some? then Err(Ends(arrivals[0], peer).value)
    else if Answers(arrivals[0], peer, txn, msgId) then Outcome(Parsed(arrivals[0].data).value.fields)
    else Await(peer, txn, msgId, arrivals[1..])
  }

  /** The wait came to an answer of the modem, good or bad. */
  predicate Decided(r: Result<seq<Field>, Failure>) {
    r.Ok? || r.error.Refused? || r.error.NoResult? || r.error.ShortResult?
  }

  /** A decision always comes from an answer to this very request, the first one that arrived. */
  lemma {:induction false} DecidedByAnswer(peer: Peer, txn: u16, msgId: u16, arrivals: seq<Arrival>) returns (k: nat)
    requires Decided(Await(peer, txn, msgId, arrivals))
    ensures k < |arrivals| && Answers(arrivals[k], peer, txn, msgId)
    ensures Await(peer, txn, msgId, arrivals) == Outcome(Parsed(arrivals[k].data).value.fields)
    ensures forall i :: 0 <= i < k ==> !Answers(arrivals[i], peer, txn, msgId) && Ends(arrivals[i], peer).None?
  {
    if Ends(arrivals[0], peer).None? && Answers(arrivals[0], peer, txn, msgId) {
      k := 0;
    } else {
      var rest := arrivals[1..];
      var j := DecidedByAnswer(peer, txn, msgId, rest);
      k := j + 1;
      forall i | 0 <= i < k ensures !Answers(arrivals[i], peer, txn, msgId) && Ends(arrivals[i], peer).None? {
        if i > 0 {
          assert arrivals[i] == rest[i - 1];
        }
      }
    }
  }

  /** And the first answer decides, unless the wait ended before it. */
  lemma {:induction false} FirstAnswerDecides(peer: Peer, txn: u16, msgId: u16, arrivals: seq<Arrival>, k: nat)
    requires k < |arrivals| && Answers(arrivals[k], peer, txn, msgId)
    requires forall i :: 0 <= i < k ==> !Answers(arrivals[i], peer, txn, msgId) && Ends(arrivals[i], peer).None?
    ensures Await(peer, txn, msgId, arrivals) == Outcome(Parsed(arrivals[k].data).value.fields)
  {
    if k > 0 {
      assert !Answers(arrivals[0], peer, txn, msgId) && Ends(arrivals[0], peer).None?;
      var rest := arrivals[1..];
      assert rest[k - 1] == arrivals[k];
      forall i | 0 <= i < k - 1 ensures !Answers(rest[i], peer, txn, msgId) && Ends(rest[i], peer).None? {
        assert rest[i] == arrivals[i + 1];
      }
      FirstAnswerDecides(peer, txn, msgId, rest, k - 1);
    }
  }

  /** `a` answers the request whose number is `origin`, whatever message it was. */
  predicate AnswersRequest(a: Arrival, peer: Peer, origin: nat) {
    && a.Datagram? && a.from == peer
    && var m := Parsed(a.data); m.Some? && m.value.kind == RESPONSE && m.value.txn == TxnOf(origin)
  }

  predicate IsResponse(a: Arrival, peer: Peer) {
    a.Datagram? && a.from == peer && var m := Parsed(a.data); m.Some? && m.value.kind == RESPONSE
  }

  /** A late answer to any of the 65534 requests before the `n`-th never decides it. */
  lemma StaleAnswersNeverDecide(peer: Peer, n: nat, msgId: u16, arrivals: seq<Arrival>, origin: seq<nat>)
    returns (k: nat)
    requires n >= 1 && |origin| == |arrivals|
    requires forall i :: 0 <= i < |arrivals| && IsResponse(arrivals[i], peer) ==>
                           1 <= origin[i] <= n && n - origin[i] < 65535 && AnswersRequest(arrivals[i], peer, origin[i])
    requires Decided(Await(peer, TxnOf(n), msgId, arrivals))
    ensures k < |arrivals| && origin[k] == n && Answers(arrivals[k], peer, TxnOf(n), msgId)
    ensures Await(peer, TxnOf(n), msgId, arrivals) == Outcome(Parsed(arrivals[k].data).value.fields)
  {
    k := DecidedByAnswer(peer, TxnOf(n), msgId, arrivals);
    TxnRepeatsExactly(origin[k], n);
  }

  // ---------------------------------------------------------------------------
  // Opening and closing the channel
  // ---------------------------------------------------------------------------

  /** The client, and whether the helper will report a channel that may still be open. */
  datatype Client = Client(txn: u16, channel: Option<byte>, unknown: bool, leakNoted: bool)

  type Answer = Result<seq<Field>, Failure>

  const CHANNEL_FIELD: byte := 0x10

  function ChannelId(fields: seq<Field>): Option<byte> {
    match FirstWith(fields, CHANNEL_FIELD)
    case None => None
    case Some(v) => if v != [] && v[0] != 0 then Some(v[0]) else None
  }

  predicate CanOpen(c: Client, aid: seq<byte>) {
    c.channel.None? && !c.unknown && aid != [] && |aid| <= 255
  }

  /** Once a switch was accepted the card resets, which closes every channel: nothing is noted then. */
  function Noted(c: Client, cardReset: bool): Client {
    c.(unknown := true, leakNoted := c.leakNoted || !cardReset)
  }

  function AfterOpen(c: Client, aid: seq<byte>, answer: Answer, cardReset: bool): Client {
    if !CanOpen(c, aid) then c
    else
      var sent := c.(txn := NextTxn(c.txn));
      match answer
      case Err(Refused(_)) => sent
      case Err(_) => Noted(sent, cardReset)
      case Ok(fields) => sent.(channel := ChannelId(fields))
  }

  function AfterClose(c: Client, channel: byte, answer: Answer, cardReset: bool): Client {
    if c.channel != Some(channel) then c
    else
      var sent := c.(txn := NextTxn(c.txn), channel := None);
      if answer.Ok? then sent else Noted(sent, cardReset)
  }

  // ---------------------------------------------------------------------------
  // APDUs
  // ---------------------------------------------------------------------------

  const APDU_RESPONSE: byte := 0x10

  function ApduFields(slot: byte, channel: byte, apdu: seq<byte>): seq<Field>
    requires |apdu| < U16_SIZE
  {
    [Field(0x01, [slot]), Field(0x02, Le16(|apdu|) + apdu), Field(0x10, [channel])]
  }

  function ApduMessage(txn: u16, slot: byte, channel: byte, apdu: seq<byte>): Message
    requires |apdu| < U16_SIZE
  {
    Message(REQUEST, txn, SEND_APDU, ApduFields(slot, channel, apdu))
  }

  lemma ApduBodyLength(slot: byte, channel: byte, apdu: seq<byte>)
    requires |apdu| < U16_SIZE
    ensures |BodyBytes(ApduFields(slot, channel, apdu))| == |apdu| + 13
  {
    var fields := ApduFields(slot, channel, apdu);
    assert fields[1..] == [fields[1], fields[2]];
    assert fields[1..][1..] == [fields[2]];
    assert BodyBytes([fields[2]]) == FieldBytes(fields[2]) + BodyBytes([]);
  }

  /** The client accepts APDUs of up to 65535 bytes, but only those under 65523 make a message the modem can read. */
  lemma ApduReadableExactly(txn: u16, slot: byte, channel: byte, apdu: seq<byte>)
    requires |apdu| < U16_SIZE
    ensures Parsed(Bytes(ApduMessage(txn, slot, channel, apdu))) == Some(ApduMessage(txn, slot, channel, apdu))
            <==> |apdu| < 65523
  {
    var m := ApduMessage(txn, slot, channel, apdu);
    RoundTripsExactly(m, []);
    assert Bytes(m) + [] == Bytes(m);
    ApduBodyLength(slot, channel, apdu);
  }

  function ApduResponse(answer: Answer): Result<seq<byte>, Fault> {
    match answer
    case Err(e) => Err(Failed(e))
    case Ok(fields) =>
      match FirstWith(fields, APDU_RESPONSE)
      case None => Err(NoResponse)
      case Some(v) =>
        if |v| < 2 || 2 + At16(v, 0).value > |v| then Err(BadResponse) else Ok(v[2..2 + At16(v, 0).value])
  }

  /** The card's answer comes through whole, whatever the modem appends to it. */
  lemma ResponseComesThrough(fields: seq<Field>, data: seq<byte>, extra: seq<byte>)
    requires |data| < U16_SIZE && FirstWith(fields, APDU_RESPONSE) == Some(Le16(|data|) + data + extra)
    ensures ApduResponse(Ok(fields)) == Ok(data)
  {
    var v := Le16(|data|) + data + extra;
    ReadsLe16(|data|, [], data + extra);
    assert v == [] + Le16(|data|) + (data + extra);
    assert v[2..2 + |data|] == data;
  }

  datatype Fault = WrongState | Failed(failure: Failure) | NoChannelId | TooLong | NoResponse | BadResponse

  class Uim {
    const peer: Peer
    const slot: byte
    var txn: u16
    var channel: Option<byte>
    var channelUnknown: bool
    var leakNoted: bool

    constructor (peer: Peer, slot: byte)
      ensures this.peer == peer && this.slot == slot && View() == Client(0, None, false, false)
    {
      this.peer, this.slot := peer, slot;
      txn, channel, channelUnknown, leakNoted := 0, None, false, false;
    }

    ghost function View(): Client
      reads this
    {
      Client(txn, channel, channelUnknown, leakNoted)
    }

    /** What a request with the given fate comes to. */
    ghost function Fate(msgId: u16, sent: bool, arrivals: seq<Arrival>): Answer
      reads this`txn
    {
      if sent then Await(peer, NextTxn(txn), msgId, arrivals) else Err(NotSent)
    }

    /** Sends one request and waits for its answer; `sent` and `arrivals` are what the socket does. */
    method Request(msgId: u16, fields: seq<Field>, sent: bool, arrivals: seq<Arrival>)
      returns (answer: Answer, packet: seq<byte>)
      modifies this`txn
      ensures View() == old(View()).(txn := NextTxn(old(txn)))
      ensures packet == Bytes(Message(REQUEST, txn, msgId, fields))
      ensures answer == old(Fate(msgId, sent, arrivals))
    {
      txn := Max((txn + 1) % U16_SIZE, 1);
      packet := Encode(REQUEST, txn, msgId, fields);
      if !sent {
        return Err(NotSent), packet;
      }
      var rest := arrivals;
      while rest != []
        invariant txn == NextTxn(old(txn))
        invariant Await(peer, txn, msgId, arrivals) == Await(peer, txn, msgId, rest)
        decreases |rest|
      {
        var a := rest[0];
        if a.GaveUp? {
          return Err(NoAnswer), packet;
        }
        if a.from.port == CONTROL_PORT {
          if SaysGone(a.data, peer) {
            return Err(ServiceWentAway), packet;
          }
        } else if a.from == peer {
          var m := Decode(a.data);
          if m.Some? && m.value.kind == RESPONSE && m.value.txn == txn && m.value.msgId == msgId {
            var result := CheckResult(m.value.fields);
            return if result.Ok? then Ok(m.value.fields) else Err(result.error), packet;
          }
        }
        rest := rest[1..];
      }
      return Err(NoAnswer), packet;
    }

    method OpenChannel(aid: seq<byte>, sent: bool, arrivals: seq<Arrival>, cardReset: bool)
      returns (r: Result<byte, Fault>)
      modifies this
      ensures View() == AfterOpen(old(View()), aid, old(Fate(OPEN_LOGICAL_CHANNEL, sent, arrivals)), cardReset)
      ensures r.Ok? ==> channel == Some(r.value)
      ensures r.Err? ==> channel == old(channel)
      ensures r == Err(WrongState) <==> !CanOpen(old(View()), aid)
    {
      if channel.Some? || channelUnknown || aid == [] || |aid| > 255 {
        return Err(WrongState);
      }
      var answer, _ := Request(OPEN_LOGICAL_CHANNEL, [Field(0x01, [slot]), Field(0x10, [|aid|] + aid)], sent, arrivals);
      if answer.Err? {
        channelUnknown := !answer.error.Refused?;
        if channelUnknown && !cardReset {
          leakNoted := true;
        }
        return Err(Failed(answer.error));
      }
      var id := ChannelId(answer.value);
      if id.None? {
        return Err(NoChannelId);
      }
      channel := id;
      return Ok(id.value);
    }

    method CloseChannel(ch: byte, sent: bool, arrivals: seq<Arrival>, cardReset: bool)
      modifies this
      ensures View() == AfterClose(old(View()), ch, old(Fate(LOGICAL_CHANNEL, sent, arrivals)), cardReset)
    {
      if channel != Some(ch) {
        return;
      }
      channel := None;
      var answer, _ := Request(LOGICAL_CHANNEL, [Field(0x01, [slot]), Field(0x11, [ch])], sent, arrivals);
      if answer.Err? {
        channelUnknown := true;
        if !cardReset {
          leakNoted := true;
        }
      }
    }

    /** Sends one APDU, on the owned channel only. */
    method Transmit(apdu: seq<byte>, sent: bool, arrivals: seq<Arrival>)
      returns (r: Result<seq<byte>, Fault>, packet: Option<seq<byte>>)
      modifies this`txn
      ensures packet.Some? <==> channel.Some? && |apdu| < U16_SIZE
      ensures packet.None? ==> View() == old(View()) && r.Err?
      ensures packet.Some? ==> View() == old(View()).(txn := NextTxn(old(txn)))
      ensures packet.Some? ==> packet.value == Bytes(ApduMessage(txn, slot, channel.value, apdu))
      ensures packet.Some? ==> r == ApduResponse(old(Fate(SEND_APDU, sent, arrivals)))
    {
      if channel.None? {
        return Err(WrongState), None;
      }
      if |apdu| > 0xFFFF {
        return Err(TooLong), None;
      }
      var fields := ApduFields(slot, channel.value, apdu);
      var answer, bytes := Request(SEND_APDU, fields, sent, arrivals);
      packet := Some(bytes);
      if answer.Err? {
        return Err(Failed(answer.error)), packet;
      }
      var resp := FirstWith(answer.value, APDU_RESPONSE);
      if resp.None? {
        return Err(NoResponse), packet;
      }
      if |resp.value| < 2 {
        return Err(BadResponse), packet;
      }
      var len := At16(resp.value, 0).value;
      if 2 + len > |resp.value| {
        return Err(BadResponse), packet;
      }
      return Ok(resp.value[2..2 + len]), packet;
    }

    /** Dropping the client closes the channel it still owns. */
    method Drop(sent: bool, arrivals: seq<Arrival>, cardReset: bool)
      modifies this
      ensures channel.None?
      ensures View() == if old(channel).None? then old(View())
                        else AfterClose(old(View()), old(channel).value, old(Fate(LOGICAL_CHANNEL, sent, arrivals)),
                                        cardReset)
    {
      if channel.Some? {
        CloseChannel(channel.value, sent, arrivals, cardReset);
      }
    }
  }

  // ---------------------------------------------------------------------------
  // Whole runs against a modem that may lose any answer
  // ---------------------------------------------------------------------------

  /**
   The client, the channels the card holds open for it, whether the card has been reset by an
   accepted switch, and how often each channel was named to the client and asked to be closed.
   */
  datatype Session = Session(client: Client, open: set<byte>, cardReset: bool, named: multiset<byte>,
                             closes: multiset<byte>)

  /** One call, with the answer that reached the client and what the modem really did. */
  datatype Call =
    | Open(aid: seq<byte>, answer: Answer, granted: Option<byte>)
    | Close(channel: byte, answer: Answer, closed: bool)
    | Apdu
    | SwitchAccepted

  /**
   A modem error on an open means nothing was opened, a success names the channel opened; a lost answer means
   either.
   */
  predicate TruthfulOpen(answer: Answer, granted: Option<byte>) {
    match answer
    case Ok(fields) => granted.Some? && ChannelId(fields) == granted
    case Err(Refused(_)) => granted.None?
    case Err(NotSent) => granted.None?
    case Err(_) => true
  }

  /** The modem tells the truth, and a session is not opened again after its switch was accepted. */
  predicate Allowed(s: Session, call: Call) {
    match call
    case Open(aid, answer, granted) => !s.cardReset && TruthfulOpen(answer, granted)
    case Close(_, answer, closed) => answer.Ok? ==> closed
    case Apdu => true
    case SwitchAccepted => true
  }

  function One(channel: Option<byte>): multiset<byte> {
    if channel.Some? then multiset{channel.value} else multiset{}
  }

  function Next(s: Session, call: Call): Session {
    match call
    case Open(aid, answer, granted) =>
      if !CanOpen(s.client, aid) then s
      else
        var client := AfterOpen(s.client, aid, answer, s.cardReset);
        s.(client := client,
           open := if granted.Some? then s.open + {granted.value} else s.open,
           named := s.named + One(client.channel))
    case Close(channel, answer, closed) =>
      if s.client.channel != Some(channel) then s
      else s.(client := AfterClose(s.client, channel, answer, s.cardReset),
              open := if closed then s.open - {channel} else s.open,
              closes := s.closes + multiset{channel})
    case Apdu => if s.client.channel.None? then s else s.(client := s.client.(txn := NextTxn(s.client.txn)))
    case SwitchAccepted => s.(open := {}, cardReset := true)
  }

  function Run(s: Session, calls: seq<Call>): Session
    decreases |calls|
  {
    if calls == [] then s else Run(Next(s, calls[0]), calls[1..])
  }

  predicate AllowedRun(s: Session, calls: seq<Call>)
    decreases |calls|
  {
    calls != [] ==> Allowed(s, calls[0]) && AllowedRun(Next(s, calls[0]), calls[1..])
  }

  const FRESH := Session(Client(0, None, false, false), {}, false, multiset{}, multiset{})

  ghost predicate AtMostOne(open: set<byte>) {
    forall a, b :: a in open && b in open ==> a == b
  }

  ghost predicate Safe(s: Session) {
    && AtMostOne(s.open)
    && (s.client.channel.Some? ==> !s.client.unknown && s.open == if s.cardReset then {} else {s.client.channel.value})
    && (s.client.channel.None? && !s.client.unknown ==> s.open == {})
    && (s.cardReset ==> s.open == {})
    && (s.client.unknown ==> s.client.leakNoted || s.open == {})
    && s.named == s.closes + One(s.client.channel)
  }

  /** An open request leaves only while nothing can be open; nothing is opened once the state is uncertain. */
  lemma OpensOnlyWhenNothingIs(s: Session, aid: seq<byte>)
    requires Safe(s) && CanOpen(s.client, aid)
    ensures s.open == {} && s.client.channel.None? && !s.client.unknown
  {
  }

  lemma OpenKeepsSafe(s: Session, call: Call)
    requires call.Open? && Safe(s) && Allowed(s, call)
    ensures Safe(Next(s, call))
  {
    if CanOpen(s.client, call.aid) {
      OpensOnlyWhenNothingIs(s, call.aid);
      assert One(s.client.channel) == multiset{};
    }
  }

  lemma CloseKeepsSafe(s: Session, call: Call)
    requires call.Close? && Safe(s) && Allowed(s, call)
    ensures Safe(Next(s, call))
  {
  }

  lemma NextKeepsSafe(s: Session, call: Call)
    requires Safe(s) && Allowed(s, call)
    ensures Safe(Next(s, call))
  {
    match call
    case Open(_, _, _) => OpenKeepsSafe(s, call);
    case Close(_, _, _) => CloseKeepsSafe(s, call);
    case Apdu =>
    case SwitchAccepted =>
  }

  /** In every run at most one channel is possibly open, and every channel named is asked to be closed at most once. */
  lemma {:induction false} RunKeepsSafe(s: Session, calls: seq<Call>)
    requires Safe(s) && AllowedRun(s, calls)
    ensures Safe(Run(s, calls))
    decreases |calls|
  {
    if calls != [] {
      NextKeepsSafe(s, calls[0]);
      RunKeepsSafe(Next(s, calls[0]), calls[1..]);
    }
  }

  /** Uncertainty never clears: from then on nothing is opened or closed by this client. */
  lemma {:induction false} UncertaintyIsFinal(s: Session, calls: seq<Call>)
    requires Safe(s) && s.client.unknown && AllowedRun(s, calls)
    ensures Run(s, calls).client == s.client && Run(s, calls).closes == s.closes && Run(s, calls).named == s.named
    decreases |calls|
  {
    if calls != [] {
      NextKeepsSafe(s, calls[0]);
      UncertaintyIsFinal(Next(s, calls[0]), calls[1..]);
    }
  }

  /** What dropping the client does. */
  function Dropped(s: Session, answer: Answer, closed: bool): Session {
    if s.client.channel.None? then s else Next(s, Close(s.client.channel.value, answer, closed))
  }

  /**
   After the drop no channel is open, or the leak was noted; every channel named was asked to be closed exactly
   once.
   */
  lemma DropLeavesNothingUnnoted(calls: seq<Call>, answer: Answer, closed: bool)
    requires AllowedRun(FRESH, calls) && (answer.Ok? ==> closed)
    ensures var s := Dropped(Run(FRESH, calls), answer, closed);
            (s.open == {} || s.client.leakNoted) && s.named == s.closes && s.client.channel.None?
  {
    RunKeepsSafe(FRESH, calls);
    var s := Run(FRESH, calls);
    if s.client.channel.Some? {
      NextKeepsSafe(s, Close(s.client.channel.value, answer, closed));
    }
  }

  /**
   Without the assumption that a success names the channel: opening and dropping leaves an
   unnoted open channel exactly when the modem opened one and answered success without its number.
   */
  lemma NamelessSuccessLeaksExactly(aid: seq<byte>, opening: Answer, granted: Option<byte>, closing: Answer,
                                    closed: bool)
    requires aid != [] && |aid| <= 255
    requires opening.Ok? && ChannelId(opening.value).Some? ==> ChannelId(opening.value) == granted
    requires opening.Err? ==> TruthfulOpen(opening, granted)
    requires closing.Ok? ==> closed
    ensures var s := Dropped(Next(FRESH, Open(aid, opening, granted)), closing, closed);
            s.open != {} && !s.client.leakNoted <==> opening.Ok? && ChannelId(opening.value).None? && granted.Some?
  {
  }

  // ---------------------------------------------------------------------------
  // One run of the helper: a fresh client for every session
  // ---------------------------------------------------------------------------

  /** The calls of one session, and what the drop of its client comes to. */
  datatype Visit = Visit(calls: seq<Call>, answer: Answer, closed: bool)

  /** Between sessions: the channels open on the card that no client owns, the leak note, and the reset. */
  datatype Helper = Helper(left: set<byte>, leakNoted: bool, cardReset: bool)

  const START := Helper({}, false, false)

  /** A new session: the client knows nothing of earlier ones, the notes are the helper's. */
  function Entered(h: Helper): Session {
    Session(Client(0, None, false, h.leakNoted), {}, h.cardReset, multiset{}, multiset{})
  }

  /** Everything open on the card during a session. */
  function OnCard(h: Helper, s: Session): set<byte> {
    if s.cardReset then {} else h.left + s.open
  }

  function Ended(h: Helper, v: Visit): Session {
    Dropped(Run(Entered(h), v.calls), v.answer, v.closed)
  }

  function Visited(h: Helper, v: Visit): Helper {
    var s := Ended(h, v);
    Helper(OnCard(h, s), s.client.leakNoted, s.cardReset)
  }

  predicate AllowedVisit(h: Helper, v: Visit) {
    AllowedRun(Entered(h), v.calls) && (v.answer.Ok? ==> v.closed)
  }

  function VisitedAll(h: Helper, visits: seq<Visit>): Helper
    decreases |visits|
  {
    if visits == [] then h else VisitedAll(Visited(h, visits[0]), visits[1..])
  }

  predicate AllowedVisits(h: Helper, visits: seq<Visit>)
    decreases |visits|
  {
    visits != [] ==> AllowedVisit(h, visits[0]) && AllowedVisits(Visited(h, visits[0]), visits[1..])
  }

  /** Sessions that ended without knowing whether their channel was closed. */
  function Uncertain(h: Helper, visits: seq<Visit>): nat
    decreases |visits|
  {
    if visits == [] then 0
    else (if Ended(h, visits[0]).client.unknown then 1 else 0) + Uncertain(Visited(h, visits[0]), visits[1..])
  }

  predicate Noting(h: Helper) {
    (h.left != {} ==> h.leakNoted) && (h.cardReset ==> h.left == {})
  }

  lemma SafeIsSmall(s: Session)
    requires Safe(s)
    ensures |s.open| <= 1
  {
    if s.open != {} {
      var a :| a in s.open;
      assert s.open == {a};
    }
  }

  lemma EnteredRunIsSafe(h: Helper, calls: seq<Call>)
    requires Noting(h) && AllowedRun(Entered(h), calls)
    ensures Safe(Run(Entered(h), calls))
    ensures h.cardReset ==> Run(Entered(h), calls).cardReset
    ensures h.leakNoted ==> Run(Entered(h), calls).client.leakNoted
  {
    RunKeepsSafe(Entered(h), calls);
    NotesStay(Entered(h), calls);
  }

  lemma {:induction false} NotesStay(s: Session, calls: seq<Call>)
    ensures s.cardReset ==> Run(s, calls).cardReset
    ensures s.client.leakNoted ==> Run(s, calls).client.leakNoted
    decreases |calls|
  {
    if calls != [] {
      NotesStay(Next(s, calls[0]), calls[1..]);
    }
  }

  lemma EndedIsSafe(h: Helper, v: Visit)
    requires Noting(h) && AllowedVisit(h, v)
    ensures Safe(Ended(h, v)) && Ended(h, v).client.channel.None?
    ensures h.cardReset ==> Ended(h, v).cardReset
    ensures h.leakNoted ==> Ended(h, v).client.leakNoted
  {
    EnteredRunIsSafe(h, v.calls);
    var s := Run(Entered(h), v.calls);
    if s.client.channel.Some? {
      NextKeepsSafe(s, Close(s.client.channel.value, v.answer, v.closed));
    }
  }

  lemma VisitNotes(h: Helper, v: Visit)
    requires Noting(h) && AllowedVisit(h, v)
    ensures Noting(Visited(h, v))
    ensures |Visited(h, v).left| <= |h.left| + if Ended(h, v).client.unknown then 1 else 0
  {
    EndedIsSafe(h, v);
    var s := Ended(h, v);
    SafeIsSmall(s);
    hide Ended;
    assert |h.left + s.open| <= |h.left| + |s.open|;
    assert s.open == {} ==> h.left + s.open == h.left;
  }

  lemma {:induction false} VisitsNote(h: Helper, visits: seq<Visit>)
    requires Noting(h) && AllowedVisits(h, visits)
    ensures Noting(VisitedAll(h, visits))
    ensures |VisitedAll(h, visits).left| <= |h.left| + Uncertain(h, visits)
    decreases |visits|
  {
    if visits != [] {
      VisitNotes(h, visits[0]);
      VisitsNote(Visited(h, visits[0]), visits[1..]);
    }
  }

  /**
   At every moment of a helper's run, whatever its sessions: a channel outlives its client only when a
   leak was noted, and besides the session's own at most one channel is open for each earlier session
   that ended uncertain.
   */
  lemma ChannelsOfTheHelper(visits: seq<Visit>, calls: seq<Call>)
    requires AllowedVisits(START, visits) && AllowedRun(Entered(VisitedAll(START, visits)), calls)
    ensures var h := VisitedAll(START, visits);
            var s := Run(Entered(h), calls);
            && (h.left != {} ==> h.leakNoted) && |s.open| <= 1
            && |OnCard(h, s)| <= 1 + Uncertain(START, visits)
            && (|OnCard(h, s)| > 1 ==> s.client.leakNoted)
  {
    VisitsNote(START, visits);
    var h := VisitedAll(START, visits);
    EnteredRunIsSafe(h, calls);
    var s := Run(Entered(h), calls);
    SafeIsSmall(s);
    assert |h.left + s.open| <= |h.left| + |s.open|;
    assert h.left == {} ==> h.left + s.open == s.open;
  }

  /**
   Delivering receipts takes two sessions, the second after the first has served its reads: while the
   second has its channel, two are open exactly when the close of the first was not carried out.
   */
  lemma NotifyOpensTwoExactly(first: Visit, aid: seq<byte>, opening: Answer, granted: byte)
    requires AllowedVisit(START, first) && Run(FRESH, first.calls).client.channel.Some?
    requires !Run(FRESH, first.calls).cardReset && aid != [] && |aid| <= 255
    requires var h := Visited(START, first); TruthfulOpen(opening, Some(granted)) && granted !in h.left
    ensures var h := Visited(START, first);
            var s := Next(Entered(h), Open(aid, opening, Some(granted)));
            && (|OnCard(h, s)| == 2 <==> !first.closed)
            && (!first.closed ==> h.leakNoted)
  {
    EnteredRunIsSafe(START, first.calls);
    assert Entered(START) == FRESH;
    var h := Visited(START, first);
    var own := Run(FRESH, first.calls).client.channel.value;
    assert h.left == if first.closed then {} else {own};
    assert h.left + {granted} == if first.closed then {granted} else {own, granted};
  }
}
