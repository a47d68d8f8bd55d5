/** What the agent's verdict on a download says about the card: helper and agent together. */
module EsimDownloadVerdict {
  import opened Prelude
  import C = EsimCard
  import D = EsimDownload
  import opened EsimAgent
  import opened EsimVerdict

  /**
   A download on the card in the slot: whether it began, how its steps fared, the profile it is
   about, whether the card installed it, and what the agent learns.
   */
  datatype Transfer = Transfer(card: C.Card, begun: bool, steps: D.Weather, profile: C.Profile, installs: bool,
                               ran: DownloadRan)

  function CardThen(t: Transfer): C.Card {
    if t.installs then t.card.(profiles := t.card.profiles + [t.profile]) else t.card
  }

  /** A card installs only what it was sent, and never what it said it refused; the profile is new to it. */
  predicate Plausible(t: Transfer) {
    && (t.installs ==>
          && t.begun && t.ran != DownloadHelperBusy && t.ran != DownloadNotThere
          && D.Steps(t.steps).sent > 0 && !D.Refused(t.steps.segments, D.Steps(t.steps).sent))
    && forall p :: p in t.card.profiles ==> p.iccid != t.profile.iccid
  }

  function EndOf(t: Transfer): DownloadEnd {
    if !t.begun then DownloadNotStarted
    else match D.Downloaded(t.steps).outcome
      case Ok(_) => Installed
      case Err(Cancelled) => DownloadCancelled
      case Err(Failed) => DownloadFailed
      case Err(Unknown) => DownloadUnknown
  }

  /** An answer that arrives is the helper's own. */
  predicate HeardEnd(t: Transfer) {
    t.ran.Ended? ==> t.ran.end == EndOf(t)
  }

  /** The reads are of the same card, to which nobody else writes. */
  ghost predicate OfThisCard(readings: seq<Reading>, after: C.Card) {
    forall i :: 0 <= i < |readings| && readings[i].outcome.Read? ==>
                  readings[i].outcome.card.eid == after.eid && readings[i].outcome.card.profiles == after.profiles
  }

  /** What was on the card when the download was admitted. */
  predicate Remembers(a: Agent, card: C.Card) {
    a.operation.Some? && forall p :: p in card.profiles ==> p.iccid in a.operation.value.profilesBefore
  }

  predicate IsNew(a: Agent, t: Transfer) {
    a.operation.Some? && t.profile.iccid !in a.operation.value.profilesBefore
  }

  lemma {:induction false} NewProfileFound(profiles: seq<C.Profile>, last: seq<C.Profile>, before: seq<string>)
    requires forall p :: p in profiles ==> p.iccid in before
    ensures NewProfile(profiles + last, before) == NewProfile(last, before)
  {
    if profiles == [] {
      assert profiles + last == last;
    } else {
      assert (profiles + last)[1..] == profiles[1..] + last;
      NewProfileFound(profiles[1..], last, before);
    }
  }

  /** On the card itself, the first new profile is the downloaded one, if it was installed. */
  lemma NewOnCard(a: Agent, t: Transfer)
    requires Remembers(a, t.card) && IsNew(a, t)
    ensures NewProfile(CardThen(t).profiles, a.operation.value.profilesBefore)
         == if t.installs then Some(t.profile.iccid) else None
  {
    var before := a.operation.value.profilesBefore;
    NewProfileFound(t.card.profiles, [t.profile], before);
    NewProfileFound(t.card.profiles, [], before);
    assert t.card.profiles + [] == t.card.profiles;
  }

  // ---------------------------------------------------------------------------
  // The read that decides
  // ---------------------------------------------------------------------------

  /** The card of the first read that decides: one with a new profile, or any when nothing was reported. */
  function Deciding(readings: seq<Reading>, before: seq<string>, reported: bool): Option<C.Card> {
    if readings == [] then None
    else
      var outcome := readings[0].outcome;
      if outcome.Read? && (!reported || NewProfile(outcome.card.profiles, before).Some?) then Some(outcome.card)
      else Deciding(readings[1..], before, reported)
  }

  /** What is made of a download by the card that decides: its new profile, none, or nothing when no card does. */
  predicate Judged(end: Agent, card: Option<C.Card>, before: seq<string>) {
    end.operation.Some? &&
    var found := if card.None? then None else NewProfile(card.value.profiles, before);
    if card.None? then end.operation.value.state == Unknown
    else if found.None? then end.operation.value.state == Failed
    else end.operation.value.state == Succeeded && end.operation.value.target == found.value
  }

  lemma {:induction false} SettledByDecidingRead(a: Agent, reported: bool, readings: seq<Reading>, refresh: Reading,
                                                 clears: bool)
    requires a.operation.Some?
    ensures var before := a.operation.value.profilesBefore;
            Judged(Settled(a, reported, readings, refresh, clears), Deciding(readings, before, reported), before)
    decreases |readings|
  {
    if readings != [] {
      var next := Absorbed(a, readings[0]);
      AbsorbKeepsOperation(a, readings[0]);
      if readings[0].outcome.Read? && Found(next).Some? {
        AbsorbKeepsOperation(WithTarget(next, Found(next).value), refresh);
      } else if !readings[0].outcome.Read? || reported {
        SettledByDecidingRead(next, reported, readings[1..], refresh, clears);
      }
    }
  }

  predicate Reported(ran: DownloadRan) {
    ran.Ended? && ran.end.Installed?
  }

  /** The outcomes of a helper's run that are followed by a read-back. */
  predicate IsReadBack(ran: DownloadRan) {
    Reported(ran) || (ran.Ended? && ran.end.DownloadUnknown?) || ran.DownloadKilled? || ran.DownloadGarbled?
  }

  lemma DownloadJudged(a: Agent, t: Transfer, w: Weather)
    requires a.operation.Some? && IsReadBack(t.ran)
    ensures var before := a.operation.value.profilesBefore;
            Judged(DownloadSettled(a, t.ran, w), Deciding(w.readings, before, Reported(t.ran)), before)
  {
    match t.ran
    case Ended(end, before) =>
      var told := WithReceiptsBefore(a, before);
      SettledByDecidingRead(if end.Installed? then WithState(told, Verifying) else told, end.Installed?, w.readings,
                            w.refresh, w.clears);
    case DownloadKilled | DownloadGarbled => SettledByDecidingRead(a, false, w.readings, w.refresh, w.clears);
  }

  lemma {:induction false} DecidingIsRead(readings: seq<Reading>, before: seq<string>, reported: bool, after: C.Card,
                                          iccid: string)
    requires Deciding(readings, before, reported).Some? && AllCurrent(readings, after, iccid)
    ensures var card := Deciding(readings, before, reported).value;
            && (if card.eid == after.eid then card.profiles == after.profiles else C.Lookup(card.profiles, iccid).None?)
            && (reported ==> NewProfile(card.profiles, before).Some?)
    decreases |readings|
  {
    assert Current(readings[0], after, iccid);
    var outcome := readings[0].outcome;
    if !(outcome.Read? && (!reported || NewProfile(outcome.card.profiles, before).Some?)) {
      DecidingIsRead(readings[1..], before, reported, after, iccid);
    }
  }

  lemma {:induction false} NewProfileIsThere(profiles: seq<C.Profile>, before: seq<string>)
    requires NewProfile(profiles, before).Some?
    ensures C.Lookup(profiles, NewProfile(profiles, before).value).Some?
  {
    if profiles[0].iccid in before {
      NewProfileIsThere(profiles[1..], before);
    }
  }

  // ---------------------------------------------------------------------------
  // Truth of the verdict
  // ---------------------------------------------------------------------------

  lemma EndMeansNoInstall(t: Transfer)
    requires Plausible(t) && EndOf(t) in {DownloadNotStarted, DownloadCancelled, DownloadFailed}
    ensures !t.installs
  {
    D.EndingIsTruthful(t.steps);
  }

  /** A verdict without a read-back is Cancelled or Failed, and nothing was installed. */
  lemma DirectDownloadVerdict(a: Agent, t: Transfer, w: Weather)
    requires a.operation.Some? && Plausible(t) && HeardEnd(t) && !IsReadBack(t.ran)
    ensures StateOf(DownloadSettled(a, t.ran, w)) in {Some(Cancelled), Some(Failed)} && !t.installs
  {
    if t.ran.Ended? {
      EndMeansNoInstall(t);
    }
  }

  /** The downloaded profile is the operation's target, and on the card. */
  predicate SuccessIsTrue(end: Agent, t: Transfer) {
    end.operation.Some? && t.installs && end.operation.value.target == t.profile.iccid
  }

  /** The world of a download: the agent knows the card's earlier profiles, and nobody else writes to the card. */
  ghost predicate World(a: Agent, t: Transfer, w: Weather) {
    && Remembers(a, t.card) && IsNew(a, t) && Plausible(t) && HeardEnd(t)
    && AllCurrent(w.readings, CardThen(t), t.profile.iccid)
  }

  /**
   SGP.22 section 3.1.3, for every fault of helper, server, card and read-back, and every card that is
   put in: the download is resolved. Succeeded is untrue exactly when the read that decides is of
   another card, with a profile that is new to the agent.
   */
  lemma DownloadSuccessUntrueExactly(a: Agent, t: Transfer, w: Weather)
    requires World(a, t, w)
    ensures var end, before := DownloadSettled(a, t.ran, w), a.operation.value.profilesBefore;
            var card := Deciding(w.readings, before, Reported(t.ran));
            && end.operation.Some? && Resolved(end.operation.value.state)
            && ((end.operation.value.state == Succeeded && !SuccessIsTrue(end, t))
                <==> (&& IsReadBack(t.ran) && OfAnother(card, t.card.eid)
                      && NewProfile(card.value.profiles, before).Some?))
  {
    if IsReadBack(t.ran) {
      var before := a.operation.value.profilesBefore;
      var card := Deciding(w.readings, before, Reported(t.ran));
      DownloadJudged(a, t, w);
      NewOnCard(a, t);
      if card.Some? {
        DecidingIsRead(w.readings, before, Reported(t.ran), CardThen(t), t.profile.iccid);
        if NewProfile(card.value.profiles, before).Some? {
          NewProfileIsThere(card.value.profiles, before);
        }
      }
    } else {
      DirectDownloadVerdict(a, t, w);
    }
  }

  /**
   Cancelled is always true: nothing was installed. Failed is untrue of a profile that was installed
   exactly when the helper did not report it and the read that decides is of another card, without a
   profile that is new to the agent.
   */
  lemma DownloadFailureUntrueExactly(a: Agent, t: Transfer, w: Weather)
    requires World(a, t, w)
    ensures var end, before := DownloadSettled(a, t.ran, w), a.operation.value.profilesBefore;
            var card := Deciding(w.readings, before, Reported(t.ran));
            && (StateOf(end) == Some(Cancelled) ==> !t.installs)
            && ((StateOf(end) == Some(Failed) && t.installs)
                <==> (&& t.installs && IsReadBack(t.ran) && !Reported(t.ran) && OfAnother(card, t.card.eid)
                      && NewProfile(card.value.profiles, before).None?))
  {
    if IsReadBack(t.ran) {
      var before := a.operation.value.profilesBefore;
      DownloadJudged(a, t, w);
      NewOnCard(a, t);
      if Deciding(w.readings, before, Reported(t.ran)).Some? {
        DecidingIsRead(w.readings, before, Reported(t.ran), CardThen(t), t.profile.iccid);
      }
    } else {
      DirectDownloadVerdict(a, t, w);
    }
  }

  /**
   With one card in the slot throughout, the verdict is true of it. Succeeded: the new profile is on
   it. Cancelled and Failed: it is not. Anything else is Unknown.
   */
  lemma DownloadVerdictIsTruthful(a: Agent, t: Transfer, w: Weather)
    requires Remembers(a, t.card) && IsNew(a, t) && Plausible(t) && HeardEnd(t) && OfThisCard(w.readings, CardThen(t))
    ensures var end := DownloadSettled(a, t.ran, w);
            && end.operation.Some? && Resolved(end.operation.value.state)
            && match end.operation.value.state
               case Succeeded => t.installs && end.operation.value.target == t.profile.iccid
               case Cancelled | Failed => !t.installs
               case Unknown => true
               case _ => false
  {
    var before := a.operation.value.profilesBefore;
    DownloadSuccessUntrueExactly(a, t, w);
    DownloadFailureUntrueExactly(a, t, w);
    DecidingIsOfThisCard(w.readings, before, Reported(t.ran), CardThen(t));
    if IsReadBack(t.ran) {
      DownloadJudged(a, t, w);
    } else {
      DirectDownloadVerdict(a, t, w);
    }
  }

  lemma {:induction false} DecidingIsOfThisCard(readings: seq<Reading>, before: seq<string>, reported: bool,
                                                after: C.Card)
    requires OfThisCard(readings, after)
    ensures !OfAnother(Deciding(readings, before, reported), after.eid)
    decreases |readings|
  {
    if readings != [] {
      DecidingIsOfThisCard(readings[1..], before, reported, after);
    }
  }

  /** Another card that is put in settles a download by whatever profile it carries, or does not carry. */
  lemma DownloadFooledBySwap(a: Agent, t: Transfer, other: C.Card, w: Weather)
    requires a.operation.Some? && t.ran == DownloadKilled && other.eid != t.card.eid
    requires w.readings == [Reading(Read(other), true, false)]
    ensures StateOf(DownloadSettled(a, t.ran, w))
         == Some(if NewProfile(other.profiles, a.operation.value.profilesBefore).Some? then Succeeded else Failed)
  {
    DownloadJudged(a, t, w);
    assert Deciding(w.readings, a.operation.value.profilesBefore, false) == Some(other);
  }

  /**
   The verdict on a download whose agent crashed, whatever its helper came to: that of a run that was
   killed, untrue in the same cases.
   */
  lemma RecoveredDownloadExactly(a: Agent, t: Transfer, w: Weather)
    requires a.journal.Some? && a.journal.value.kind == Download && t.ran.DownloadKilled? && World(Resumed(a), t, w)
    ensures var end, before := Recovered(a, w), a.journal.value.profilesBefore;
            var card := Deciding(w.readings, before, false);
            && end.operation.Some? && end.operation.value.state in {Succeeded, Failed, Unknown}
            && ((end.operation.value.state == Succeeded && !SuccessIsTrue(end, t))
                <==> (OfAnother(card, t.card.eid) && NewProfile(card.value.profiles, before).Some?))
            && ((end.operation.value.state == Failed && t.installs)
                <==> (t.installs && OfAnother(card, t.card.eid) && NewProfile(card.value.profiles, before).None?))
  {
    hide Settled, Deciding, NewProfile;
    DownloadSuccessUntrueExactly(Resumed(a), t, w);
    DownloadFailureUntrueExactly(Resumed(a), t, w);
    DownloadJudged(Resumed(a), t, w);
  }
}
