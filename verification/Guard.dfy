/** The command guard between an eSIM operation and the card (`esim-helper/src/main.rs`, `euicc/src/lib.rs`). */
module Guard {
  import opened Prelude

  const GET_RESPONSE: byte := 0xC0
  const STORE_DATA: byte := 0xE2
  const MORE_BLOCKS: byte := 0x11
  const LAST_BLOCK: byte := 0x91

  const ENABLE: u16 := 0xBF31
  const DISABLE: u16 := 0xBF32
  const SET_NICKNAME: u16 := 0xBF29
  const REMOVE_NOTIFICATION: u16 := 0xBF30
  const DELETE: u16 := 0xBF33

  const WRITES: set<u16> := {ENABLE, DISABLE, SET_NICKNAME, REMOVE_NOTIFICATION, DELETE}

  /** The segments of a bound profile package, SGP.22 section 2.5.5. */
  const INSTALL: set<u16> := {0xBF36, 0xA0, 0xA1, 0x88, 0xA2, 0xA3, 0x86}

  /** The BER tag at the start of a request, one or two bytes. */
  function LeadingTag(data: seq<byte>): Option<u16> {
    if data == [] then None
    else if data[0] % 32 != 31 then Some(data[0])
    else if |data| < 2 then None
    else Some(256 * data[0] as int + data[1])
  }

  // ---------------------------------------------------------------------------
  // One APDU
  // ---------------------------------------------------------------------------

  /** What the guard remembers; `installing` and the stop flag belong to the whole helper. */
  datatype State = State(continuing: Option<u16>, writeSent: bool, installing: bool)

  predicate IsStoreData(apdu: seq<byte>) {
    |apdu| >= 4 && apdu[1] == STORE_DATA && (apdu[2] == MORE_BLOCKS || apdu[2] == LAST_BLOCK)
  }

  predicate IsGetResponse(apdu: seq<byte>) {
    |apdu| >= 2 && apdu[1] == GET_RESPONSE
  }

  predicate IsFirstBlock(apdu: seq<byte>) {
    IsStoreData(apdu) && apdu[3] == 0
  }

  function Payload(apdu: seq<byte>): seq<byte> {
    if |apdu| >= 5 then apdu[5..] else []
  }

  /** The tag a STORE DATA block belongs to, `pending` being that of a command whose next block is due. */
  function TagOf(apdu: seq<byte>, pending: Option<u16>): Option<u16>
    requires IsStoreData(apdu)
  {
    if IsFirstBlock(apdu) then LeadingTag(Payload(apdu)) else pending
  }

  /** The tag of an APDU that may pass, 0 for GET RESPONSE. */
  function Allowed(allowed: set<u16>, continuing: Option<u16>, apdu: seq<byte>): Option<u16> {
    if IsGetResponse(apdu) then Some(0)
    else if !IsStoreData(apdu) then None
    else
      var t := TagOf(apdu, continuing);
      if IsFirstBlock(apdu) && t.Some? && t.value !in allowed then None else t
  }

  function Continuing(continuing: Option<u16>, apdu: seq<byte>, tag: u16): Option<u16> {
    if !IsStoreData(apdu) then continuing
    else if apdu[2] == MORE_BLOCKS then Some(tag)
    else None
  }

  predicate Stops(s: State, stopped: bool) {
    stopped && !s.writeSent && !s.installing
  }

  predicate Forwards(allowed: set<u16>, s: State, apdu: seq<byte>, stopped: bool) {
    Allowed(allowed, s.continuing, apdu).Some? && !Stops(s, stopped)
  }

  /** The state after one APDU. An allowed block that a stop holds back still counts as the command's latest. */
  function After(allowed: set<u16>, s: State, apdu: seq<byte>, stopped: bool): State {
    match Allowed(allowed, s.continuing, apdu)
    case None => s
    case Some(t) =>
      var next := s.(continuing := Continuing(s.continuing, apdu, t));
      if Stops(s, stopped) then next
      else next.(writeSent := s.writeSent || t in INSTALL || t in WRITES, installing := s.installing || t in INSTALL)
  }

  class Gate {
    const allowed: set<u16>
    var continuing: Option<u16>
    var writeSent: bool
    var installing: bool
    /** What went through to the card. */
    var forwarded: seq<seq<byte>>

    constructor (allowed: set<u16>, installing: bool)
      ensures this.allowed == allowed && forwarded == [] && View() == State(None, false, installing)
    {
      this.allowed, this.installing := allowed, installing;
      continuing, writeSent, forwarded := None, false, [];
    }

    ghost function View(): State
      reads this
    {
      State(continuing, writeSent, installing)
    }

    method Allows(apdu: seq<byte>) returns (tag: Option<u16>)
      modifies this`continuing
      ensures tag == Allowed(allowed, old(continuing), apdu)
      ensures continuing == if tag.Some? then Continuing(old(continuing), apdu, tag.value) else old(continuing)
    {
      if |apdu| < 2 {
        return None;
      }
      if apdu[1] == GET_RESPONSE {
        return Some(0);
      }
      if apdu[1] != STORE_DATA || |apdu| < 4 {
        return None;
      }
      var p1, block := apdu[2], apdu[3];
      if p1 != MORE_BLOCKS && p1 != LAST_BLOCK {
        return None;
      }
      if block == 0 {
        if |apdu| < 5 {
          return None;
        }
        tag := LeadingTag(apdu[5..]);
        if tag.None? || tag.value !in allowed {
          return None;
        }
      } else {
        tag := continuing;
        if tag.None? {
          return None;
        }
      }
      continuing := if p1 == MORE_BLOCKS then tag else None;
    }

    /** Passes `apdu` on or refuses it; `awaited` says whether a stop leaves the wait for its answer alone. */
    method Transmit(apdu: seq<byte>, stopped: bool) returns (sent: bool, awaited: bool)
      modifies this
      ensures View() == After(allowed, old(View()), apdu, stopped)
      ensures sent == Forwards(allowed, old(View()), apdu, stopped)
      ensures forwarded == if sent then old(forwarded) + [apdu] else old(forwarded)
      ensures awaited <==> sent && (installing || Allowed(allowed, old(continuing), apdu).value in WRITES)
    {
      var t := Allows(apdu);
      if t.None? {
        return false, false;
      }
      if stopped && !writeSent && !installing {
        return false, false;
      }
      if t.value in INSTALL {
        writeSent, installing := true, true;
      }
      awaited := installing;
      if t.value in WRITES {
        writeSent, awaited := true, true;
      }
      forwarded := forwarded + [apdu];
      return true, awaited;
    }
  }

  // ---------------------------------------------------------------------------
  // Whole sessions
  // ---------------------------------------------------------------------------

  /** An APDU handed to the guard, and whether the helper had been asked to stop by then. */
  datatype Offer = Offer(apdu: seq<byte>, stopped: bool)

  /** A stop is never taken back. */
  predicate StopsForGood(offers: seq<Offer>) {
    forall i, j :: 0 <= i <= j < |offers| && offers[i].stopped ==> offers[j].stopped
  }

  /** What reaches the card. */
  function Forwarded(allowed: set<u16>, s: State, offers: seq<Offer>): seq<seq<byte>>
    decreases |offers|
  {
    if offers == [] then []
    else
      (if Forwards(allowed, s, offers[0].apdu, offers[0].stopped) then [offers[0].apdu] else [])
      + Forwarded(allowed, After(allowed, s, offers[0].apdu, offers[0].stopped), offers[1..])
  }

  /** The tag of the last command the card has received only a part of. */
  function Unfinished(received: seq<seq<byte>>): Option<u16> {
    if received == [] then None
    else
      var last, before := received[|received| - 1], Unfinished(received[..|received| - 1]);
      if !IsStoreData(last) then before
      else if last[2] == LAST_BLOCK then None
      else TagOf(last, before)
  }

  /**
   The card may receive `apdu` after `received`: a first block whose tag is allowed, or the next of the last
   unfinished command.
   */
  predicate InOrder(allowed: set<u16>, received: seq<seq<byte>>, apdu: seq<byte>) {
    || IsGetResponse(apdu)
    || (IsFirstBlock(apdu) && LeadingTag(Payload(apdu)).Some? && LeadingTag(Payload(apdu)).value in allowed)
    || (IsStoreData(apdu) && !IsFirstBlock(apdu) && Unfinished(received).Some? && Unfinished(received).value in allowed)
  }

  ghost predicate AllInOrder(allowed: set<u16>, received: seq<seq<byte>>) {
    forall k :: 0 <= k < |received| ==> InOrder(allowed, received[..k], received[k])
  }

  /** The guard's memory agrees with what the card received, unless a stop holds everything back for good. */
  predicate Tracks(allowed: set<u16>, s: State, received: seq<seq<byte>>, stopped: bool) {
    || Stops(s, stopped)
    || (s.continuing == Unfinished(received) && (s.continuing.Some? ==> s.continuing.value in allowed))
  }

  lemma UnfinishedStep(received: seq<seq<byte>>, apdu: seq<byte>)
    ensures Unfinished(received + [apdu]) ==
            if !IsStoreData(apdu) then Unfinished(received)
            else if apdu[2] == LAST_BLOCK then None
            else TagOf(apdu, Unfinished(received))
  {
    assert (received + [apdu])[..|received|] == received;
  }

  lemma AllInOrderStep(allowed: set<u16>, received: seq<seq<byte>>, apdu: seq<byte>)
    requires AllInOrder(allowed, received) && InOrder(allowed, received, apdu)
    ensures AllInOrder(allowed, received + [apdu])
  {
    var more := received + [apdu];
    forall k | 0 <= k < |more| ensures InOrder(allowed, more[..k], more[k]) {
      if k < |received| {
        assert more[..k] == received[..k];
      } else {
        assert more[..k] == received;
      }
    }
  }

  /** Each APDU that passes is in order after what the card received before. */
  lemma OfferKeepsOrder(allowed: set<u16>, s: State, received: seq<seq<byte>>, o: Offer)
    requires Tracks(allowed, s, received, o.stopped)
    ensures Forwards(allowed, s, o.apdu, o.stopped) ==>
              && InOrder(allowed, received, o.apdu)
              && Tracks(allowed, After(allowed, s, o.apdu, o.stopped), received + [o.apdu], o.stopped)
    ensures !Forwards(allowed, s, o.apdu, o.stopped) ==>
              Tracks(allowed, After(allowed, s, o.apdu, o.stopped), received, o.stopped)
  {
    UnfinishedStep(received, o.apdu);
  }

  /** Every session: what reaches the card are allowed commands, whole or cut off, their blocks in order. */
  lemma {:induction false} SessionInOrder(allowed: set<u16>, s: State, received: seq<seq<byte>>, offers: seq<Offer>)
    requires StopsForGood(offers) && AllInOrder(allowed, received)
    requires offers != [] ==> Tracks(allowed, s, received, offers[0].stopped)
    ensures AllInOrder(allowed, received + Forwarded(allowed, s, offers))
    decreases |offers|
  {
    if offers == [] {
      assert received + [] == received;
    } else {
      var o, rest := offers[0], offers[1..];
      var next := After(allowed, s, o.apdu, o.stopped);
      OfferKeepsOrder(allowed, s, received, o);
      if Forwards(allowed, s, o.apdu, o.stopped) {
        AllInOrderStep(allowed, received, o.apdu);
        SessionInOrder(allowed, next, received + [o.apdu], rest);
        assert received + ([o.apdu] + Forwarded(allowed, next, rest))
            == (received + [o.apdu]) + Forwarded(allowed, next, rest);
      } else {
        SessionInOrder(allowed, next, received, rest);
        assert received + ([] + Forwarded(allowed, next, rest)) == received + Forwarded(allowed, next, rest);
      }
    }
  }

  lemma FreshSessionInOrder(allowed: set<u16>, installing: bool, offers: seq<Offer>)
    requires StopsForGood(offers)
    ensures AllInOrder(allowed, Forwarded(allowed, State(None, false, installing), offers))
  {
    var s := State(None, false, installing);
    SessionInOrder(allowed, s, [], offers);
    assert [] + Forwarded(allowed, s, offers) == Forwarded(allowed, s, offers);
  }

  /** Once a stop finds no write on its way, nothing further reaches the card. */
  lemma {:induction false} StopWithoutWriteIsFinal(allowed: set<u16>, s: State, offers: seq<Offer>)
    requires forall i :: 0 <= i < |offers| ==> offers[i].stopped
    requires !s.writeSent && !s.installing
    ensures Forwarded(allowed, s, offers) == []
    decreases |offers|
  {
    if offers != [] {
      StopWithoutWriteIsFinal(allowed, After(allowed, s, offers[0].apdu, true), offers[1..]);
    }
  }

  /** What would reach the card if nobody asked the helper to stop. */
  function Unstopped(offers: seq<Offer>): seq<Offer> {
    seq(|offers|, i requires 0 <= i < |offers| => offers[i].(stopped := false))
  }

  /** Once a write has left, an install segment included, no allowed block is held back by a stop. */
  lemma {:induction false} WriteIsNeverCutOff(allowed: set<u16>, s: State, offers: seq<Offer>)
    requires s.writeSent || s.installing
    ensures Forwarded(allowed, s, offers) == Forwarded(allowed, s, Unstopped(offers))
    decreases |offers|
  {
    if offers != [] {
      var o := offers[0];
      assert After(allowed, s, o.apdu, o.stopped) == After(allowed, s, o.apdu, false);
      WriteIsNeverCutOff(allowed, After(allowed, s, o.apdu, o.stopped), offers[1..]);
      assert Unstopped(offers)[1..] == Unstopped(offers[1..]);
    }
  }

  // ---------------------------------------------------------------------------
  // A command in blocks
  // ---------------------------------------------------------------------------

  /** Largest STORE DATA block. */
  const BLOCK: nat := 120

  function BlockApdu(cla: byte, number: nat, last: bool, data: seq<byte>): (apdu: seq<byte>)
    requires |data| <= BLOCK
  {
    var header: seq<byte> := [cla, STORE_DATA, if last then LAST_BLOCK else MORE_BLOCKS, number % 256, |data|];
    header + data
  }

  /** The blocks a request is sent in, `seq` the number of the first; the number's low byte is what the card sees. */
  function Blocks(cla: byte, der: seq<byte>, number: nat): seq<seq<byte>>
    decreases |der|
  {
    if der == [] then []
    else
      var n := Min(BLOCK, |der|);
      [BlockApdu(cla, number, n == |der|, der[..n])] + Blocks(cla, der[n..], number + 1)
  }

  method Command(cla: byte, der: seq<byte>) returns (blocks: seq<seq<byte>>)
    ensures blocks == Blocks(cla, der, 0)
  {
    blocks := [];
    var rest, number := der, 0;
    while rest != []
      invariant Blocks(cla, der, 0) == blocks + Blocks(cla, rest, number)
      decreases |rest|
    {
      var n := Min(BLOCK, |rest|);
      var apdu := BlockApdu(cla, number, n == |rest|, rest[..n]);
      assert blocks + ([apdu] + Blocks(cla, rest[n..], number + 1))
          == (blocks + [apdu]) + Blocks(cla, rest[n..], number + 1);
      blocks, rest, number := blocks + [apdu], rest[n..], number + 1;
    }
  }

  function Offers(apdus: seq<seq<byte>>): seq<Offer> {
    seq(|apdus|, i requires 0 <= i < |apdus| => Offer(apdus[i], false))
  }

  predicate Passes(allowed: set<u16>, data: seq<byte>) {
    LeadingTag(data).Some? && LeadingTag(data).value in allowed
  }

  /** The guard judges a block as the start of a command whenever its number's low byte is zero. */
  predicate EveryJudgedBlockPasses(allowed: set<u16>, der: seq<byte>, number: nat)
    decreases |der|
  {
    der != [] ==>
      && (number % 256 == 0 ==> Passes(allowed, der[..Min(BLOCK, |der|)]))
      && EveryJudgedBlockPasses(allowed, der[Min(BLOCK, |der|)..], number + 1)
  }

  /**
   Unstopped, a request passes whole exactly when every block whose number is a multiple of 256
   starts with an allowed tag.
   */
  lemma {:induction false} CommandPassesExactly(allowed: set<u16>, s: State, cla: byte, der: seq<byte>, number: nat)
    requires number % 256 != 0 ==> s.continuing.Some?
    ensures Forwarded(allowed, s, Offers(Blocks(cla, der, number))) == Blocks(cla, der, number)
            <==> EveryJudgedBlockPasses(allowed, der, number)
    decreases |der|
  {
    if der != [] {
      var n := Min(BLOCK, |der|);
      var blocks := Blocks(cla, der, number);
      var apdu, rest := blocks[0], blocks[1..];
      assert rest == Blocks(cla, der[n..], number + 1);
      assert Offers(blocks)[0] == Offer(apdu, false) && Offers(blocks)[1..] == Offers(rest);
      assert Payload(apdu) == der[..n];
      var next := After(allowed, s, apdu, false);
      if Forwards(allowed, s, apdu, false) {
        if der[n..] != [] {
          CommandPassesExactly(allowed, next, cla, der[n..], number + 1);
        }
        FirstThenRest(apdu, Forwarded(allowed, next, Offers(rest)), rest);
      } else {
        ForwardedAtMost(allowed, next, Offers(rest));
      }
    }
  }

  lemma FirstThenRest(first: seq<byte>, got: seq<seq<byte>>, rest: seq<seq<byte>>)
    ensures [first] + got == [first] + rest <==> got == rest
  {
    assert ([first] + got)[1..] == got && ([first] + rest)[1..] == rest;
  }

  lemma {:induction false} ForwardedAtMost(allowed: set<u16>, s: State, offers: seq<Offer>)
    ensures |Forwarded(allowed, s, offers)| <= |offers|
    decreases |offers|
  {
    if offers != [] {
      ForwardedAtMost(allowed, After(allowed, s, offers[0].apdu, offers[0].stopped), offers[1..]);
    }
  }

  /** Later blocks of a request of up to 256 blocks are never judged. */
  lemma {:induction false} LaterBlocksAreNotJudged(allowed: set<u16>, der: seq<byte>, number: nat)
    requires 0 < number && |der| <= (256 - number) * BLOCK
    ensures EveryJudgedBlockPasses(allowed, der, number)
    decreases |der|
  {
    if der != [] {
      LaterBlocksAreNotJudged(allowed, der[Min(BLOCK, |der|)..], number + 1);
    }
  }

  /** A request of up to 30720 bytes passes whole exactly when its own tag is allowed. */
  lemma ShortCommandPassesExactly(allowed: set<u16>, s: State, cla: byte, der: seq<byte>)
    requires der != [] && |der| <= 256 * BLOCK
    ensures Forwarded(allowed, s, Offers(Blocks(cla, der, 0))) == Blocks(cla, der, 0) <==> Passes(allowed, der)
  {
    CommandPassesExactly(allowed, s, cla, der, 0);
    var n := Min(BLOCK, |der|);
    LaterBlocksAreNotJudged(allowed, der[n..], 1);
    assert Passes(allowed, der[..n]) <==> Passes(allowed, der);
  }

  /** One byte more and the guard takes the 257th block for a command of its own. */
  lemma LongCommandIsCut(cla: byte)
    ensures var der: seq<byte> := [0xBF, 0x21] + seq(30719, _ => 0);
            && Passes({0xBF21}, der)
            && Forwarded({0xBF21}, State(None, false, false), Offers(Blocks(cla, der, 0))) != Blocks(cla, der, 0)
  {
    var der: seq<byte> := [0xBF, 0x21] + seq(30719, _ => 0);
    CommandPassesExactly({0xBF21}, State(None, false, false), cla, der, 0);
    if EveryJudgedBlockPasses({0xBF21}, der, 0) {
      JudgedLater({0xBF21}, der, 0);
    }
  }

  /** What is judged 256 blocks on. */
  lemma {:induction false} JudgedLater(allowed: set<u16>, der: seq<byte>, number: nat)
    requires number <= 256 && |der| > (256 - number) * BLOCK
    requires EveryJudgedBlockPasses(allowed, der, number)
    ensures var at := (256 - number) * BLOCK; Passes(allowed, der[at..Min(at + BLOCK, |der|)])
    decreases |der|
  {
    if number < 256 {
      JudgedLater(allowed, der[BLOCK..], number + 1);
      var at := (256 - number) * BLOCK;
      assert der[BLOCK..][at - BLOCK..Min(at, |der| - BLOCK)] == der[at..Min(at + BLOCK, |der|)];
    }
  }
}
