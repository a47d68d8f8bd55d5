/** What the agent's verdict on an eSIM change says about the card: helper and agent together. */
module EsimVerdict {
  import opened Prelude
  import C = EsimCard
  import H = EsimHelper
  import Text
  import opened EsimAgent

  function KindOf(w: C.Write): Kind {
    match w
    case Enable(_) => Kind.Enable
    case Disable(_) => Kind.Disable
    case Delete(_) => Kind.Delete
    case Rename(_, _) => Nickname
  }

  // ---------------------------------------------------------------------------
  // The world a change runs in
  // ---------------------------------------------------------------------------

  /**
   The helper's run on the card in the slot, whatever becomes of it: how it fared, and what the agent learns of
   it.
   */
  datatype Run = Run(card: C.Card, write: C.Write, expectEid: string, expectEnabled: Option<string>,
                     how: H.Weather, ran: Ran)

  function ReportOf(r: Run): H.Report {
    H.Handled(r.card, r.write, r.expectEid, r.expectEnabled, r.how)
  }

  /** The card after the run: a helper that is not there, or finds the card taken, touches nothing. */
  function CardAfter(r: Run): C.Card {
    if r.ran.HelperBusy? || r.ran.NotThere? then r.card else ReportOf(r).card
  }

  /** An answer that arrives is the helper's own; a run that is killed or garbled may have come to anything. */
  predicate Heard(r: Run) {
    r.ran.Answered? ==> r.ran.answer == ReportOf(r).answer
  }

  /** Nobody else writes to the card; another card that is put in has another EID, and not the ICCID at stake. */
  predicate Current(reading: Reading, after: C.Card, iccid: string) {
    reading.outcome.Read? ==>
      var seen := reading.outcome.card;
      if seen.eid == after.eid then seen.profiles == after.profiles else C.Lookup(seen.profiles, iccid).None?
  }

  predicate SameCard(reading: Reading, after: C.Card) {
    reading.outcome.Read? ==> reading.outcome.card.eid == after.eid
  }

  ghost predicate AllCurrent(readings: seq<Reading>, after: C.Card, iccid: string) {
    forall i :: 0 <= i < |readings| ==> Current(readings[i], after, iccid)
  }

  ghost predicate AllSameCard(readings: seq<Reading>, after: C.Card) {
    forall i :: 0 <= i < |readings| ==> SameCard(readings[i], after)
  }

  /** Some read showed the requested state. */
  ghost predicate Seen(readings: seq<Reading>, w: C.Write) {
    exists i :: 0 <= i < |readings| && readings[i].outcome.Read? && C.Shows(readings[i].outcome.card.profiles, w)
  }

  // ---------------------------------------------------------------------------
  // One read-back
  // ---------------------------------------------------------------------------

  function StateOf(a: Agent): Option<OpState> {
    if a.operation.None? then None else Some(a.operation.value.state)
  }

  predicate Targets(a: Agent, w: C.Write) {
    a.operation.Some? && a.operation.value.target == w.iccid
  }

  lemma ReadShows(a: Agent, reading: Reading, w: C.Write)
    requires Targets(a, w) && reading.outcome.Read?
    ensures Absorbed(a, reading).operation == a.operation
    ensures TargetShown(Absorbed(a, reading)) == C.Lookup(reading.outcome.card.profiles, w.iccid)
  {
  }

  lemma AbsorbKeepsOperation(a: Agent, reading: Reading)
    ensures Absorbed(a, reading).operation == a.operation
  {
  }

  /** A read that shows the profile, but not in the requested state. */
  predicate ShowsOtherwise(reading: Reading, w: C.Write) {
    && reading.outcome.Read? && C.Lookup(reading.outcome.card.profiles, w.iccid).Some?
    && !C.Shows(reading.outcome.card.profiles, w)
  }

  /** The verdicts a read-back can reach, each with a read that stands behind it. */
  ghost predicate Backed(state: OpState, accepted: bool, readings: seq<Reading>, w: C.Write) {
    match state
    case Succeeded => Seen(readings, w)
    case Failed =>
      !accepted && exists i :: 0 <= i < |readings| && ShowsOtherwise(readings[i], w)
    case Unknown => true
    case _ => false
  }

  lemma BackedLater(state: OpState, accepted: bool, readings: seq<Reading>, w: C.Write)
    requires readings != [] && Backed(state, accepted, readings[1..], w)
    ensures Backed(state, accepted, readings, w)
  {
    var rest := readings[1..];
    if state == Succeeded {
      var i :| 0 <= i < |rest| && rest[i].outcome.Read? && C.Shows(rest[i].outcome.card.profiles, w);
      assert readings[i + 1] == rest[i];
    } else if state == Failed {
      var i :| 0 <= i < |rest| && ShowsOtherwise(rest[i], w);
      assert readings[i + 1] == rest[i];
    }
  }

  /** Every read-back ends in a verdict, of the same operation, that its reads back. */
  lemma {:induction false} VerifiedIsBacked(a: Agent, w: C.Write, accepted: bool, readings: seq<Reading>, clears: bool)
    requires Targets(a, w) && !w.Rename?
    ensures var end := Verified(a, KindOf(w), accepted, readings, clears);
            && end.operation.Some? && Backed(end.operation.value.state, accepted, readings, w)
            && end.operation.value == a.operation.value.(state := end.operation.value.state)
    decreases |readings|
  {
    if readings != [] {
      var reading, rest := readings[0], readings[1..];
      var next := Absorbed(a, reading);
      AbsorbKeepsOperation(a, reading);
      if reading.outcome.Read? {
        ReadShows(a, reading, w);
        var verdict := Decided(KindOf(w), accepted, TargetShown(next));
        if verdict == Some(Succeeded) {
          assert C.Shows(readings[0].outcome.card.profiles, w);
        } else if verdict == Some(Failed) {
          assert ShowsOtherwise(readings[0], w);
        } else if verdict.None? {
          VerifiedIsBacked(next, w, accepted, rest, clears);
          BackedLater(Verified(next, KindOf(w), accepted, rest, clears).operation.value.state, accepted, readings, w);
        }
      } else {
        var error := ReadErrorOf(a, reading).value;
        var waiting := KindOf(w) != Kind.Delete && error in {SimReloading, ManagementUnavailable, CardBusy};
        var after := if waiting then WithState(next, if accepted then Reloading else Verifying) else next;
        VerifiedIsBacked(after, w, accepted, rest, clears);
        BackedLater(Verified(after, KindOf(w), accepted, rest, clears).operation.value.state, accepted, readings, w);
      }
    }
  }

  // ---------------------------------------------------------------------------
  // Enable, disable and delete
  // ---------------------------------------------------------------------------

  lemma RunLeavesEither(r: Run)
    ensures CardAfter(r).eid == r.card.eid && (CardAfter(r) == r.card || C.Shows(CardAfter(r).profiles, r.write))
  {
    H.UnchangedOrShown(r.card, r.write, r.expectEid, r.expectEnabled, r.how);
  }

  /** A read that shows a profile of the change's own is of the card the change ran on. */
  lemma ShownIsOfTheCard(reading: Reading, after: C.Card, w: C.Write)
    requires Current(reading, after, w.iccid) && reading.outcome.Read?
    requires C.Lookup(reading.outcome.card.profiles, w.iccid).Some?
    ensures reading.outcome.card.profiles == after.profiles
  {
  }

  /** Truth of a verdict, `after` being the card once the helper is done. */
  ghost predicate Truthful(state: OpState, before: C.Card, after: C.Card, w: C.Write, readings: seq<Reading>) {
    match state
    case Succeeded =>
      Seen(readings, w) && ((w.Delete? && !AllSameCard(readings, after)) || C.Shows(after.profiles, w))
    case Busy | Refused | Failed => after.profiles == before.profiles
    case Unknown => true
    case _ => false
  }

  lemma BackedIsTruthful(state: OpState, accepted: bool, r: Run, readings: seq<Reading>)
    requires Backed(state, accepted, readings, r.write) && !r.write.Rename?
    requires AllCurrent(readings, CardAfter(r), r.write.iccid)
    ensures Truthful(state, r.card, CardAfter(r), r.write, readings)
  {
    RunLeavesEither(r);
    var after := CardAfter(r);
    if state == Succeeded {
      var i :| 0 <= i < |readings| && readings[i].outcome.Read? && C.Shows(readings[i].outcome.card.profiles, r.write);
      assert Current(readings[i], after, r.write.iccid);
      if !r.write.Delete? {
        ShownIsOfTheCard(readings[i], after, r.write);
      } else if AllSameCard(readings, after) {
        assert SameCard(readings[i], after);
      }
    } else if state == Failed {
      var i :| 0 <= i < |readings| && ShowsOtherwise(readings[i], r.write);
      ShownIsOfTheCard(readings[i], after, r.write);
    }
  }

  /** The helper's answer, heard by the agent, that something stood in the way: the card is as it was. */
  lemma FailureLeavesCard(r: Run)
    requires Heard(r)
    requires r.ran.HelperBusy? || r.ran.NotThere?
             || (r.ran.Answered? && r.ran.answer.Err? && r.ran.answer.error != H.OutcomeUnknown)
    ensures CardAfter(r) == r.card
  {
    H.AnswerIsTruthful(r.card, r.write, r.expectEid, r.expectEnabled, r.how);
  }

  predicate ReadsBack(ran: Ran) {
    ran.Killed? || ran.Garbled? || (ran.Answered? && (ran.answer.Ok? || ran.answer.error == H.OutcomeUnknown))
  }

  lemma DirectVerdict(a: Agent, kind: Kind, ran: Ran, w: Weather)
    requires a.operation.Some? && !ReadsBack(ran)
    ensures var end := Switched(a, kind, ran, w);
            && end.operation.Some? && end.operation.value.state in {Busy, Refused, Failed}
            && end.operation.value == a.operation.value.(state := end.operation.value.state)
  {
  }

  lemma ReadBackVerdict(a: Agent, r: Run, w: Weather)
    requires Targets(a, r.write) && !r.write.Rename? && ReadsBack(r.ran)
    ensures var end := Switched(a, KindOf(r.write), r.ran, w);
            && end.operation.Some?
            && Backed(end.operation.value.state, r.ran.Answered? && r.ran.answer.Ok?, w.readings, r.write)
            && end.operation.value == a.operation.value.(state := end.operation.value.state)
  {
    var accepted := r.ran.Answered? && r.ran.answer.Ok?;
    var state := if accepted && !r.write.Delete? then Reloading else Verifying;
    VerifiedIsBacked(WithState(a, state), r.write, accepted, w.readings, w.clears);
  }

  /**
   SGP.22 sections 5.7.16 to 5.7.18, for every fault of helper, modem and read-back: the operation is
   resolved and its verdict is true. Succeeded: a later read showed the requested state, and the card has
   it. Busy, Refused and Failed: the profiles are as they were. Anything else is Unknown.
   */
  lemma VerdictIsTruthful(a: Agent, r: Run, w: Weather)
    requires Targets(a, r.write) && !r.write.Rename? && Heard(r)
    requires AllCurrent(w.readings, CardAfter(r), r.write.iccid)
    ensures var end := Switched(a, KindOf(r.write), r.ran, w);
            && end.operation.Some? && Resolved(end.operation.value.state)
            && end.operation.value == a.operation.value.(state := end.operation.value.state)
            && Truthful(end.operation.value.state, r.card, CardAfter(r), r.write, w.readings)
  {
    if ReadsBack(r.ran) {
      ReadBackVerdict(a, r, w);
      var accepted := r.ran.Answered? && r.ran.answer.Ok?;
      BackedIsTruthful(Switched(a, KindOf(r.write), r.ran, w).operation.value.state, accepted, r, w.readings);
    } else {
      DirectVerdict(a, KindOf(r.write), r.ran, w);
      FailureLeavesCard(r);
    }
  }

  /** With the same card in the slot throughout, Succeeded means the card shows the change, deletions included. */
  lemma SuccessOnTheSameCard(a: Agent, r: Run, w: Weather)
    requires Targets(a, r.write) && !r.write.Rename? && Heard(r)
    requires AllCurrent(w.readings, CardAfter(r), r.write.iccid) && AllSameCard(w.readings, CardAfter(r))
    requires StateOf(Switched(a, KindOf(r.write), r.ran, w)) == Some(Succeeded)
    ensures C.Shows(CardAfter(r).profiles, r.write)
  {
    VerdictIsTruthful(a, r, w);
  }

  /** The card that the first successful read is of. */
  function FirstRead(readings: seq<Reading>): Option<C.Card> {
    if readings == [] then None
    else if readings[0].outcome.Read? then Some(readings[0].outcome.card)
    else FirstRead(readings[1..])
  }

  predicate OfAnother(card: Option<C.Card>, eid: string) {
    card.Some? && card.value.eid != eid
  }

  /** The first read decides a deletion that was not carried out, one way or the other. */
  lemma {:induction false} UndoneDeletionRead(a: Agent, w: C.Write, after: C.Card, readings: seq<Reading>, clears: bool)
    requires Targets(a, w) && w.Delete? && !C.Shows(after.profiles, w) && AllCurrent(readings, after, w.iccid)
    ensures StateOf(Verified(a, Kind.Delete, false, readings, clears)) == Some(Succeeded)
       <==> OfAnother(FirstRead(readings), after.eid)
    decreases |readings|
  {
    if readings != [] {
      assert Current(readings[0], after, w.iccid);
      if readings[0].outcome.Read? {
        ReadShows(a, readings[0], w);
      } else {
        UndoneDeletionRead(Absorbed(a, readings[0]), w, after, readings[1..], clears);
      }
    }
  }

  /**
   When Succeeded is untrue, for every change and every fault: exactly when a deletion that was not
   carried out is read back and the first read is of another card. The EID is not compared.
   */
  lemma SuccessUntrueExactly(a: Agent, r: Run, w: Weather)
    requires Targets(a, r.write) && !r.write.Rename? && Heard(r)
    requires AllCurrent(w.readings, CardAfter(r), r.write.iccid)
    ensures (&& StateOf(Switched(a, KindOf(r.write), r.ran, w)) == Some(Succeeded)
             && !C.Shows(CardAfter(r).profiles, r.write))
       <==> (&& r.write.Delete? && C.Lookup(CardAfter(r).profiles, r.write.iccid).Some?
             && ReadsBack(r.ran) && OfAnother(FirstRead(w.readings), CardAfter(r).eid))
  {
    VerdictIsTruthful(a, r, w);
    if !ReadsBack(r.ran) {
      DirectVerdict(a, KindOf(r.write), r.ran, w);
    } else if r.write.Delete? && !C.Shows(CardAfter(r).profiles, r.write) {
      H.AnswerIsTruthful(r.card, r.write, r.expectEid, r.expectEnabled, r.how);
      assert !(r.ran.Answered? && r.ran.answer.Ok?);
      UndoneDeletionRead(WithState(a, Verifying), r.write, CardAfter(r), w.readings, w.clears);
    }
  }

  /** But a read-back of another card proves any deletion: the EID is not compared. */
  lemma DeletionFooledBySwap(a: Agent, r: Run, other: C.Card, w: Weather)
    requires Targets(a, r.write) && r.write.Delete? && r.ran.Killed? && r.how.open.Some?
    requires C.Lookup(r.card.profiles, r.write.iccid).Some?
    requires C.Lookup(other.profiles, r.write.iccid).None? && other.eid != r.card.eid
    requires w.readings == [Reading(Read(other), true, false)]
    ensures AllCurrent(w.readings, CardAfter(r), r.write.iccid)
    ensures StateOf(Switched(a, Kind.Delete, r.ran, w)) == Some(Succeeded)
    ensures CardAfter(r) == r.card && !C.Shows(CardAfter(r).profiles, r.write)
  {
    var waiting := WithState(a, Verifying);
    ReadShows(waiting, w.readings[0], r.write);
    var next := Absorbed(waiting, w.readings[0]);
  }

  // ---------------------------------------------------------------------------
  // Recovery
  // ---------------------------------------------------------------------------

  /**
   The verdict on an operation whose agent crashed, whatever its helper came to: as true as that of a
   run that was killed, and Succeeded untrue in the same case.
   */
  lemma RecoveredVerdictIsTruthful(a: Agent, r: Run, w: Weather)
    requires a.journal.Some? && a.journal.value.kind == KindOf(r.write) && a.journal.value.target == r.write.iccid
    requires r.write.iccid != "" && !r.write.Rename? && r.ran.Killed?
    requires AllCurrent(w.readings, CardAfter(r), r.write.iccid)
    ensures var end := Recovered(a, w);
            && end.operation.Some? && Resolved(end.operation.value.state)
            && end.operation.value.id == a.journal.value.id
            && Truthful(end.operation.value.state, r.card, CardAfter(r), r.write, w.readings)
            && ((end.operation.value.state == Succeeded && !C.Shows(CardAfter(r).profiles, r.write))
                <==> (&& r.write.Delete? && C.Lookup(CardAfter(r).profiles, r.write.iccid).Some?
                      && OfAnother(FirstRead(w.readings), CardAfter(r).eid)))
  {
    hide Verified, Truthful, C.Shows, FirstRead;
    var back := Resumed(a);
    assert WithState(back, Verifying) == back;
    VerdictIsTruthful(back, r, w);
    SuccessUntrueExactly(back, r, w);
  }

  // ---------------------------------------------------------------------------
  // Nicknames
  // ---------------------------------------------------------------------------

  /**
   A rename, which is not read back: Succeeded is true, and Refused or Failed is untrue exactly when the
   answer could not be read and the helper had sent the write, the card applied it, and the name is new.
   */
  lemma RenameVerdictExactly(a: Agent, r: Run, refresh: Reading)
    requires Targets(a, r.write) && r.write.Rename? && Heard(r)
    ensures var end := Renamed(a, r.ran, refresh);
            && end.operation.Some? && Resolved(end.operation.value.state)
            && (end.operation.value.state == Succeeded ==> C.Shows(CardAfter(r).profiles, r.write))
            && ((end.operation.value.state in {OpState.Refused, Failed} && CardAfter(r).profiles != r.card.profiles)
                <==> (&& r.ran.Garbled? && H.ValidNickname(r.write.name) && !r.how.stopped && H.Takes(r.how.write)
                      && r.how.open.None? && r.how.eid.None? && r.how.profiles.None?
                      && Text.EqualIgnoreCase(r.expectEid, r.card.eid)
                      && C.Lookup(r.card.profiles, r.write.iccid).Some?
                      && C.WrittenAll(r.card.profiles, r.write) != r.card.profiles))
  {
    hide H.Handled, H.ValidNickname, RenameState, C.Shows, C.WrittenAll;
    AbsorbKeepsOperation(WithState(a, RenameState(r.ran)), refresh);
    RenameAnswerIsTrue(r);
    H.WriteLeavesExactly(r.card, r.write, r.expectEid, r.expectEnabled, r.how);
    WriteTakesExactly(r);
  }

  lemma RenameAnswerIsTrue(r: Run)
    requires r.write.Rename? && Heard(r)
    ensures Resolved(RenameState(r.ran)) && (r.ran.Garbled? ==> RenameState(r.ran) == Failed)
    ensures RenameState(r.ran) == Succeeded ==> C.Shows(CardAfter(r).profiles, r.write)
    ensures RenameState(r.ran) in {OpState.Refused, Failed} && !r.ran.Garbled? ==> CardAfter(r) == r.card
  {
    H.AnswerIsTruthful(r.card, r.write, r.expectEid, r.expectEnabled, r.how);
  }

  /** A rename changes the card exactly when its write leaves, is applied, and gives a new name. */
  lemma WriteTakesExactly(r: Run)
    requires r.write.Rename?
    ensures ReportOf(r).card.profiles != r.card.profiles
       <==> (&& ReportOf(r).sent == [r.write] && H.Takes(r.how.write)
             && C.WrittenAll(r.card.profiles, r.write) != r.card.profiles)
  {
  }
}
