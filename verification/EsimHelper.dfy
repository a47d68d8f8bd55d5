/** The helper's profile writes: enable, disable, delete and rename (`esim-helper/src/main.rs`). */
module EsimHelper {
  import opened Prelude
  import opened EsimCard
  import Text

  /** Why a session could not be opened or a read failed. */
  datatype Fault = WasStopped | NoIsdr | NoManagement | NoTransport

  datatype Failure =
    | Faulty(fault: Fault)
    | InvalidRequest
    | CardChanged
    | StateChanged
    | Refused(code: nat)
    | OutcomeUnknown

  /**
   What becomes of a write: the card answers with a result code, or the answer is lost after the
   command left, or the command never leaves. `more` are the receipts an applied change creates.
   */
  datatype Fate = Answered(code: nat, more: seq<nat>) | Lost(applied: bool, more: seq<nat>) | NotSent(fault: Fault)

  /** How each step of a request fares; `stopped` is a stop noticed right before the write. */
  datatype Weather = Weather(open: Option<Fault>, eid: Option<Fault>, profiles: Option<Fault>,
                             receipts: Option<Fault>, stopped: bool, write: Fate)

  /**
   What a request comes to: the card, the writes that left for it, and the helper's answer with the receipts
   before.
   */
  datatype Report = Report(card: Card, sent: seq<Write>, answer: Result<seq<nat>, Failure>)

  // ---------------------------------------------------------------------------
  // Specifications
  // ---------------------------------------------------------------------------

  /** A write is atomic: code 0 means applied, another code unchanged, and no answer either. */
  function CardAfter(card: Card, w: Write, fate: Fate): Card {
    match fate
    case Answered(code, more) => if code == 0 then Applied(card, w, more) else card
    case Lost(applied, more) => if applied then Applied(card, w, more) else card
    case NotSent(_) => card
  }

  /** The write is applied. */
  predicate Takes(fate: Fate) {
    (fate.Answered? && fate.code == 0) || (fate.Lost? && fate.applied)
  }

  function AnswerTo(fate: Fate, before: seq<nat>): Result<seq<nat>, Failure> {
    match fate
    case Answered(code, _) => if code == 0 then Ok(before) else Err(Refused(code))
    case Lost(_, _) => Err(OutcomeUnknown)
    case NotSent(fault) => Err(Faulty(fault))
  }

  function Wrote(card: Card, w: Write, before: seq<nat>, fate: Fate): Report {
    Report(CardAfter(card, w, fate), if fate.NotSent? then [] else [w], AnswerTo(fate, before))
  }

  /** What speaks against a switch on the card as it is. */
  function SwitchObstacle(card: Card, w: Write, expectEnabled: Option<string>): bool
    requires w.Enable? || w.Disable?
  {
    var target := Lookup(card.profiles, w.iccid);
    var enabled := EnabledOnes(card.profiles);
    || target.None?
    || enabled != (if expectEnabled.Some? then [expectEnabled.value] else [])
    || (w.Enable? && !(target.value.operational && target.value.standing == Disabled))
    || (w.Disable? && target.value.standing != Enabled)
  }

  predicate Obstacle(card: Card, w: Write, expectEnabled: Option<string>) {
    match w
    case Enable(_) => SwitchObstacle(card, w, expectEnabled)
    case Disable(_) => SwitchObstacle(card, w, expectEnabled)
    case Delete(iccid) =>
      var target := Lookup(card.profiles, iccid); target.None? || target.value.standing != Disabled
    case Rename(iccid, _) => Lookup(card.profiles, iccid).None?
  }

  /** A request carried through; a nickname request does not read the receipts. */
  function Handled(card: Card, w: Write, expectEid: string, expectEnabled: Option<string>, how: Weather): Report {
    var failed := (f: Failure) => Report(card, [], Err(f));
    if w.Rename? && !ValidNickname(w.name) then failed(InvalidRequest)
    else if how.open.Some? then failed(Faulty(how.open.value))
    else if how.eid.Some? then failed(Faulty(how.eid.value))
    else if !Text.EqualIgnoreCase(expectEid, card.eid) then failed(CardChanged)
    else if how.profiles.Some? then failed(Faulty(how.profiles.value))
    else if Obstacle(card, w, expectEnabled) then failed(StateChanged)
    else if !w.Rename? && how.receipts.Some? then failed(Faulty(how.receipts.value))
    else if how.stopped then failed(Faulty(WasStopped))
    else Wrote(card, w, if w.Rename? then [] else card.receipts, how.write)
  }

  // ---------------------------------------------------------------------------
  // Nicknames
  // ---------------------------------------------------------------------------

  const NICKNAME_MAX_BYTES: nat := 64

  /** Invisible format characters, general category Cf. */
  predicate IsFormatChar(c: char) {
    var n := c as int;
    || n == 0xAD || 0x600 <= n <= 0x605 || n == 0x61C || n == 0x6DD || n == 0x70F || n == 0x8E2 || n == 0x180E
    || 0x200B <= n <= 0x200F || 0x202A <= n <= 0x202E || 0x2060 <= n <= 0x2064 || 0x2066 <= n <= 0x206F
    || n == 0xFEFF || 0xFFF9 <= n <= 0xFFFB || n == 0x110BD || n == 0x110CD || 0x13430 <= n <= 0x1343F
    || 0x1BCA0 <= n <= 0x1BCA3 || 0x1D173 <= n <= 0x1D17A || n == 0xE0001 || 0xE0020 <= n <= 0xE007F
  }

  predicate ValidNickname(name: string) {
    && Text.Utf8Length(name) <= NICKNAME_MAX_BYTES
    && forall i :: 0 <= i < |name| ==> !Text.IsControl(name[i]) && !IsFormatChar(name[i])
  }

  // ---------------------------------------------------------------------------
  // The helper
  // ---------------------------------------------------------------------------

  class Helper {
    var card: Card
    var sent: seq<Write>
    /** A switch was accepted: the card resets and closes every channel. */
    var cardReset: bool

    constructor (card: Card)
      ensures this.card == card && sent == [] && !cardReset
    {
      this.card, sent, cardReset := card, [], false;
    }

    /** Hands a write to the card, and says whether it left and what came back. */
    method Send(w: Write, fate: Fate) returns (answer: Result<nat, ()>, left: bool)
      modifies this`card, this`sent
      ensures card == CardAfter(old(card), w, fate)
      ensures left <==> !fate.NotSent?
      ensures sent == if left then old(sent) + [w] else old(sent)
      ensures answer == if fate.Answered? then Ok(fate.code) else Err(())
    {
      match fate
      case NotSent(_) =>
        return Err(()), false;
      case Lost(applied, more) =>
        sent := sent + [w];
        if applied {
          card := Applied(card, w, more);
        }
        return Err(()), true;
      case Answered(code, more) =>
        sent := sent + [w];
        if code == 0 {
          card := Applied(card, w, more);
        }
        return Ok(code), true;
    }

    /** Sends the write and maps its answer; a write is never repeated. */
    method WriteResult(w: Write, before: seq<nat>, fate: Fate) returns (r: Result<seq<nat>, Failure>)
      modifies this
      ensures var report := Wrote(old(card), w, before, fate);
              card == report.card && sent == old(sent) + report.sent && r == report.answer
      ensures cardReset == (old(cardReset) || (r.Ok? && (w.Enable? || w.Disable?)))
    {
      var answer, left := Send(w, fate);
      if answer.Ok? {
        if answer.value == 0 {
          if w.Enable? || w.Disable? {
            cardReset := true;
          }
          return Ok(before);
        }
        return Err(Refused(answer.value));
      }
      return Err(if left then OutcomeUnknown else Faulty(fate.fault));
    }

    method CheckEid(expectEid: string, fault: Option<Fault>) returns (bad: Option<Failure>)
      ensures bad == if fault.Some? then Some(Faulty(fault.value))
                     else if Text.EqualIgnoreCase(expectEid, card.eid) then None else Some(CardChanged)
    {
      if fault.Some? {
        return Some(Faulty(fault.value));
      }
      return if Text.EqualIgnoreCase(expectEid, card.eid) then None else Some(CardChanged);
    }

    /** Enables or disables a profile, with SIM refresh. */
    method Switch(w: Write, expectEid: string, expectEnabled: Option<string>,
                  how: Weather) returns (r: Result<seq<nat>, Failure>)
      requires w.Enable? || w.Disable?
      modifies this
      ensures var report := Handled(old(card), w, expectEid, expectEnabled, how);
              card == report.card && sent == old(sent) + report.sent && r == report.answer
      ensures cardReset == (old(cardReset) || r.Ok?)
    {
      if how.open.Some? {
        return Err(Faulty(how.open.value));
      }
      var bad := CheckEid(expectEid, how.eid);
      if bad.Some? {
        return Err(bad.value);
      }
      if how.profiles.Some? {
        return Err(Faulty(how.profiles.value));
      }
      var target := Lookup(card.profiles, w.iccid);
      if target.None? {
        return Err(StateChanged);
      }
      var enabled := EnabledOnes(card.profiles);
      var first := if enabled == [] then None else Some(enabled[0]);
      if first != expectEnabled || |enabled| > 1 {
        return Err(StateChanged);
      }
      if w.Enable? {
        if !target.value.operational || target.value.standing != Disabled {
          return Err(StateChanged);
        }
      } else if target.value.standing != Enabled {
        return Err(StateChanged);
      }
      if how.receipts.Some? {
        return Err(Faulty(how.receipts.value));
      }
      if how.stopped {
        return Err(Faulty(WasStopped));
      }
      r := WriteResult(w, card.receipts, how.write);
    }

    method DeleteProfile(iccid: string, expectEid: string, how: Weather) returns (r: Result<seq<nat>, Failure>)
      modifies this
      ensures var report := Handled(old(card), Delete(iccid), expectEid, None, how);
              card == report.card && sent == old(sent) + report.sent && r == report.answer
      ensures cardReset == old(cardReset)
    {
      if how.open.Some? {
        return Err(Faulty(how.open.value));
      }
      var bad := CheckEid(expectEid, how.eid);
      if bad.Some? {
        return Err(bad.value);
      }
      if how.profiles.Some? {
        return Err(Faulty(how.profiles.value));
      }
      var target := Lookup(card.profiles, iccid);
      if target.None? || target.value.standing != Disabled {
        return Err(StateChanged);
      }
      if how.receipts.Some? {
        return Err(Faulty(how.receipts.value));
      }
      if how.stopped {
        return Err(Faulty(WasStopped));
      }
      r := WriteResult(Delete(iccid), card.receipts, how.write);
    }

    method Nickname(iccid: string, expectEid: string, name: string, how: Weather) returns (r: Result<seq<nat>, Failure>)
      modifies this
      ensures var report := Handled(old(card), Rename(iccid, name), expectEid, None, how);
              card == report.card && sent == old(sent) + report.sent && r == report.answer
      ensures cardReset == old(cardReset)
    {
      if !ValidNickname(name) {
        return Err(InvalidRequest);
      }
      if how.open.Some? {
        return Err(Faulty(how.open.value));
      }
      var bad := CheckEid(expectEid, how.eid);
      if bad.Some? {
        return Err(bad.value);
      }
      if how.profiles.Some? {
        return Err(Faulty(how.profiles.value));
      }
      if Lookup(card.profiles, iccid).None? {
        return Err(StateChanged);
      }
      if how.stopped {
        return Err(Faulty(WasStopped));
      }
      r := WriteResult(Rename(iccid, name), [], how.write);
    }
  }

  // ---------------------------------------------------------------------------
  // What an answer says about the card
  // ---------------------------------------------------------------------------

  /** Profiles as they were, or as the write leaves them. */
  predicate Either(before: Card, after: Card, w: Write) {
    after.profiles == before.profiles || after.profiles == WrittenAll(before.profiles, w)
  }

  /** A request either stops short, with nothing sent, or sends its write to a card that has the profile. */
  lemma StopsShortOrWrites(card: Card, w: Write, expectEid: string, expectEnabled: Option<string>, how: Weather)
    ensures var report := Handled(card, w, expectEid, expectEnabled, how);
            || (report.card == card && report.sent == [] && report.answer.Err?
                && !report.answer.error.Refused? && report.answer.error != OutcomeUnknown)
            || (report == Wrote(card, w, if w.Rename? then [] else card.receipts, how.write)
                && Lookup(card.profiles, w.iccid).Some? && Text.EqualIgnoreCase(expectEid, card.eid))
  {
  }

  ghost predicate Honest(card: Card, w: Write, report: Report) {
    && (report.sent == [] || report.sent == [w])
    && report.card.eid == card.eid
    && (report.answer.Ok? ==>
          report.sent == [w] && report.card.profiles == WrittenAll(card.profiles, w) && Shows(report.card.profiles, w))
    && (report.answer == Err(OutcomeUnknown) ==> report.sent == [w] && Either(card, report.card, w))
    && (report.answer.Err? && report.answer.error != OutcomeUnknown ==> report.card == card)
    && (report.answer.Err? && report.answer.error.Refused? ==> report.sent == [w] && report.answer.error.code != 0)
    && (report.answer.Err? && !report.answer.error.Refused? && report.answer.error != OutcomeUnknown ==>
          report.sent == [])
  }

  lemma WroteIsHonest(card: Card, w: Write, before: seq<nat>, fate: Fate)
    requires Lookup(card.profiles, w.iccid).Some?
    ensures Honest(card, w, Wrote(card, w, before, fate))
  {
    AppliedShows(card.profiles, w);
  }

  /**
   Under every fault and stop: at most one write leaves, it is the one asked for, and the answer is
   the truth. Success means the card it was meant for now shows the change; a lost answer leaves
   both outcomes open; every other answer means the card is as it was.
   */
  lemma AnswerIsTruthful(card: Card, w: Write, expectEid: string, expectEnabled: Option<string>, how: Weather)
    ensures Honest(card, w, Handled(card, w, expectEid, expectEnabled, how))
    ensures Handled(card, w, expectEid, expectEnabled, how).answer.Ok? ==> Text.EqualIgnoreCase(expectEid, card.eid)
  {
    StopsShortOrWrites(card, w, expectEid, expectEnabled, how);
    if Lookup(card.profiles, w.iccid).Some? {
      WroteIsHonest(card, w, if w.Rename? then [] else card.receipts, how.write);
    }
  }

  lemma ProfilesAfter(card: Card, w: Write, expectEid: string, expectEnabled: Option<string>, how: Weather)
    ensures var report := Handled(card, w, expectEid, expectEnabled, how);
            && Either(card, report.card, w)
            && (report.sent != [] ==> !Obstacle(card, w, expectEnabled))
  {
  }

  lemma UnobstructedSwitchLeavesOne(card: Card, w: Write, expectEnabled: Option<string>)
    requires (w.Enable? || w.Disable?) && Distinct(card.profiles) && !Obstacle(card, w, expectEnabled)
    ensures EnabledOnes(WrittenAll(card.profiles, w)) == if w.Enable? then [w.iccid] else []
  {
    if w.Disable? {
      EnabledIsListed(card.profiles, Lookup(card.profiles, w.iccid).value);
      forall p | p in card.profiles && p.standing == Enabled ensures p.iccid == w.iccid {
        EnabledIsListed(card.profiles, p);
      }
    }
    SwitchLeavesOne(card.profiles, w);
  }

  /** An accepted switch leaves the one profile enabled that it was asked for, or none. */
  lemma AcceptedSwitchLeavesOne(card: Card, w: Write, expectEid: string, expectEnabled: Option<string>, how: Weather)
    requires (w.Enable? || w.Disable?) && Distinct(card.profiles)
    requires Handled(card, w, expectEid, expectEnabled, how).answer.Ok?
    ensures EnabledOnes(Handled(card, w, expectEid, expectEnabled, how).card.profiles)
         == if w.Enable? then [w.iccid] else []
  {
    ProfilesAfter(card, w, expectEid, expectEnabled, how);
    AnswerIsTruthful(card, w, expectEid, expectEnabled, how);
    UnobstructedSwitchLeavesOne(card, w, expectEnabled);
  }

  lemma {:induction false} EnabledIsListed(profiles: seq<Profile>, p: Profile)
    requires p in profiles && p.standing == Enabled
    ensures p.iccid in EnabledOnes(profiles)
  {
    if profiles[0] != p {
      EnabledIsListed(profiles[1..], p);
    }
  }

  /** A deletion is sent only for a profile that is not enabled, and leaves every other profile as it was. */
  lemma DeletionSparesTheRest(card: Card, iccid: string, expectEid: string, how: Weather, other: string)
    requires other != iccid
    ensures var report := Handled(card, Delete(iccid), expectEid, None, how);
            && (report.sent != [] ==>
                  Lookup(card.profiles, iccid).Some? && Lookup(card.profiles, iccid).value.standing == Disabled)
            && Lookup(report.card.profiles, other) == Lookup(card.profiles, other)
  {
    var w := Delete(iccid);
    ProfilesAfter(card, w, expectEid, None, how);
    OthersStay(card.profiles, w, other);
  }

  /** Whatever becomes of a request, the profiles are as they were or show the change. */
  lemma UnchangedOrShown(card: Card, w: Write, expectEid: string, expectEnabled: Option<string>, how: Weather)
    ensures var after := Handled(card, w, expectEid, expectEnabled, how).card;
            after.eid == card.eid && (after == card || Shows(after.profiles, w))
  {
    StopsShortOrWrites(card, w, expectEid, expectEnabled, how);
    if Lookup(card.profiles, w.iccid).Some? {
      AppliedShows(card.profiles, w);
    }
  }

  /**
   A write leaves exactly when every step worked, the card is the expected one, nothing stands in the way and no
   stop came.
   */
  lemma WriteLeavesExactly(card: Card, w: Write, expectEid: string, expectEnabled: Option<string>, how: Weather)
    ensures Handled(card, w, expectEid, expectEnabled, how).sent == [w] <==>
              && (w.Rename? ==> ValidNickname(w.name))
              && how.open.None? && how.eid.None? && how.profiles.None? && (w.Rename? || how.receipts.None?)
              && Text.EqualIgnoreCase(expectEid, card.eid) && !Obstacle(card, w, expectEnabled)
              && !how.stopped && !how.write.NotSent?
  {
  }
}
