/** The revision a client names when it asks for a change (`agent/src/esim.rs`). */
module EsimRevision {
  import opened Prelude
  import C = EsimCard
  import H = EsimHelper
  import opened EsimAgent

  /** What a revision stands for: the card and its profiles, or that there are none to show. */
  function Content(a: Agent): Option<(string, seq<C.Profile>)> {
    if a.inventory.None? then None else Some((a.inventory.value.eid, a.inventory.value.profiles))
  }

  /** From one moment to a later one: the same revision with the same content, or a higher one. */
  predicate Steady(a: Agent, b: Agent) {
    b.revision > a.revision || (b.revision == a.revision && Content(b) == Content(a))
  }

  lemma AbsorbIsSteady(a: Agent, r: Reading)
    ensures Steady(a, Absorbed(a, r))
    ensures Content(Absorbed(a, r)) != Content(a) ==> Absorbed(a, r).revision == a.revision + 1
    ensures Content(Absorbed(a, r)) == Content(a) ==> Absorbed(a, r).revision == a.revision
  {
  }

  lemma {:induction false} VerifiedIsSteady(a: Agent, kind: Kind, accepted: bool, readings: seq<Reading>, clears: bool)
    ensures Steady(a, Verified(a, kind, accepted, readings, clears))
    decreases |readings|
  {
    if readings != [] {
      var next, rest := Absorbed(a, readings[0]), readings[1..];
      AbsorbIsSteady(a, readings[0]);
      var error := ReadErrorOf(a, readings[0]);
      if error.None? {
        VerifiedIsSteady(next, kind, accepted, rest, clears);
      } else {
        var waiting := kind != Delete && error.value in {SimReloading, ManagementUnavailable, CardBusy};
        VerifiedIsSteady(if waiting then WithState(next, if accepted then Reloading else Verifying) else next,
                         kind, accepted, rest, clears);
      }
    }
  }

  lemma {:induction false} SettledIsSteady(a: Agent, reported: bool, readings: seq<Reading>, refresh: Reading,
                                           clears: bool)
    ensures Steady(a, Settled(a, reported, readings, refresh, clears))
    decreases |readings|
  {
    if readings != [] {
      var next := Absorbed(a, readings[0]);
      AbsorbIsSteady(a, readings[0]);
      SettledIsSteady(next, reported, readings[1..], refresh, clears);
      if Found(next).Some? {
        AbsorbIsSteady(WithTarget(next, Found(next).value), refresh);
      }
    }
  }

  lemma SwitchIsSteady(a: Agent, kind: Kind, ran: Ran, w: Weather)
    ensures Steady(a, Switched(a, kind, ran, w))
  {
    match ran
    case Answered(Ok(_)) =>
      VerifiedIsSteady(WithState(a, if kind == Delete then Verifying else Reloading), kind, true, w.readings, w.clears);
    case Answered(Err(failure)) =>
      if failure == H.OutcomeUnknown {
        VerifiedIsSteady(WithState(a, Verifying), kind, false, w.readings, w.clears);
      } else {
        AbsorbIsSteady(Finished(a, Refused, w.clears), w.refresh);
      }
    case Killed | Garbled =>
      VerifiedIsSteady(WithState(a, Verifying), kind, false, w.readings, w.clears);
    case HelperBusy | NotThere =>
  }

  lemma DownloadIsSteady(a: Agent, ran: DownloadRan, w: Weather)
    ensures Steady(a, DownloadSettled(a, ran, w))
  {
    match ran
    case Ended(end, before) =>
      var told := WithReceiptsBefore(a, before);
      SettledIsSteady(WithState(told, Verifying), true, w.readings, w.refresh, w.clears);
      SettledIsSteady(told, false, w.readings, w.refresh, w.clears);
    case DownloadKilled | DownloadGarbled => SettledIsSteady(a, false, w.readings, w.refresh, w.clears);
    case DownloadHelperBusy | DownloadNotThere =>
  }

  lemma RecoveryIsSteady(a: Agent, w: Weather)
    ensures Steady(a, Recovered(a, w))
  {
    if a.journal.Some? {
      var op := a.journal.value;
      var back := Resumed(a);
      SettledIsSteady(back, false, w.readings, w.refresh, w.clears);
      VerifiedIsSteady(back, op.kind, false, w.readings, w.clears);
    }
  }

  // ---------------------------------------------------------------------------
  // Whole lives of an agent
  // ---------------------------------------------------------------------------

  /** Everything that happens to the agent's memory between two restarts. */
  datatype Event =
    | Reads(reading: Reading)
    | Admits(id: string, kind: Kind, target: string, seen: nat)
    | Changes(change: Kind, ran: Ran, weather: Weather)
    | Renames(ran: Ran, refresh: Reading)
    | Claims(operation: Operation)
    | Downloads(end: DownloadRan, weather: Weather)
    | Notifies(left: seq<nat>)
    | Locks(profile: string, on: bool)
    | Forgets
    | Recovers(weather: Weather)

  function Next(a: Agent, e: Event): Agent {
    match e
    case Reads(reading) => Absorbed(a, reading)
    case Admits(id, kind, target, seen) =>
      if Denied(a, id, kind, target, seen).Some? then a else a.(operation := Some(NewOperation(a, id, kind, target)))
    case Changes(kind, ran, w) => Switched(a, kind, ran, w)
    case Renames(ran, refresh) => Renamed(a, ran, refresh)
    // A download is claimed without naming a revision.
    case Claims(operation) => a.(operation := Some(operation))
    case Downloads(end, w) => DownloadSettled(a, end, w)
    // The worker sends what is queued, and takes out what is settled.
    case Notifies(left) => a.(receipts := left)
    case Locks(profile, on) => a.(locked := if on then a.locked + {profile} else a.locked - {profile})
    // The journal could not be written: the claim is given up.
    case Forgets => a.(operation := None)
    // The first thing after a start: what the journal says was in flight is read back.
    case Recovers(w) => Recovered(a, w)
  }

  function Life(a: Agent, events: seq<Event>): Agent
    decreases |events|
  {
    if events == [] then a else Life(Next(a, events[0]), events[1..])
  }

  lemma NextIsSteady(a: Agent, e: Event)
    ensures Steady(a, Next(a, e))
  {
    match e
    case Reads(reading) => AbsorbIsSteady(a, reading);
    case Changes(kind, ran, w) => SwitchIsSteady(a, kind, ran, w);
    case Downloads(end, w) => DownloadIsSteady(a, end, w);
    case Admits(_, _, _, _) =>
    case Locks(_, _) =>
    case Renames(ran, refresh) => AbsorbIsSteady(WithState(a, RenameState(ran)), refresh);
    case Claims(_) =>
    case Notifies(_) =>
    case Forgets =>
    case Recovers(w) => RecoveryIsSteady(a, w);
  }

  /** Within one life of the agent, two moments with the same revision have the same card and profiles. */
  lemma {:induction false} RevisionNamesContent(a: Agent, events: seq<Event>)
    ensures Steady(a, Life(a, events))
    decreases |events|
  {
    if events != [] {
      NextIsSteady(a, events[0]);
      RevisionNamesContent(Next(a, events[0]), events[1..]);
    }
  }

  /** The profile a client saw at the revision it names. */
  function SeenProfile(a: Agent, iccid: string): Option<C.Profile> {
    if a.inventory.None? then None else C.Lookup(a.inventory.value.profiles, iccid)
  }

  /**
   A change is admitted only of a profile that is exactly as the client saw it, on the card it saw,
   and only when no earlier change is in progress.
   */
  lemma AdmittedTargetWasSeen(seen: Agent, events: seq<Event>, id: string, kind: Kind, target: string)
    requires Denied(Life(seen, events), id, kind, target, seen.revision).None?
    ensures var now := Life(seen, events);
            && SeenProfile(seen, target).Some? && SeenProfile(now, target) == SeenProfile(seen, target)
            && now.inventory.value.eid == seen.inventory.value.eid
            && var p := SeenProfile(seen, target).value;
            && (kind == Enable ==> p.operational && p.standing == C.Disabled && target !in now.locked)
            && (kind == Disable ==> p.standing == C.Enabled)
            && (kind == Delete ==> p.standing == C.Disabled && target !in now.locked)
            && !InProgress(now)
  {
    RevisionNamesContent(seen, events);
  }

  // ---------------------------------------------------------------------------
  // Across a restart
  // ---------------------------------------------------------------------------

  /** A new life: the journal, and of the memory what was saved last; the revision is not saved. */
  function Restarted(journal: Option<Operation>, card: Option<string>, locked: set<string>, receipts: seq<nat>): Agent {
    FRESH.(journal := journal, card := card, locked := locked, receipts := receipts)
  }

  predicate IsStart(a: Agent) {
    a == Restarted(a.journal, a.card, a.locked, a.receipts)
  }

  function ReadOf(card: C.Card): Event {
    Reads(Reading(Read(card), true, false))
  }

  /** `n` reads, of `last` and of `other` in turn. */
  function InTurn(last: C.Card, other: C.Card, n: nat): seq<Event>
    decreases n
  {
    if n == 0 then [] else InTurn(other, last, n - 1) + [ReadOf(last)]
  }

  lemma {:induction false} LifeAppend(a: Agent, events: seq<Event>, e: Event)
    ensures Life(a, events + [e]) == Next(Life(a, events), e)
    decreases |events|
  {
    if events == [] {
      assert [] + [e] == [e] && [e][1..] == [];
    } else {
      assert (events + [e])[1..] == events[1..] + [e];
      LifeAppend(Next(a, events[0]), events[1..], e);
    }
  }

  /** Reading two cards in turn counts to any revision. */
  lemma {:induction false} InTurnCounts(start: Agent, last: C.Card, other: C.Card, n: nat)
    requires IsStart(start) && last.profiles != other.profiles
    ensures var now := Life(start, InTurn(last, other, n));
            && now.revision == n && now.operation.None? && now.locked == start.locked
            && if n == 0 then now == start else now.inventory == Some(InventoryOf(last)) && now.status == Ready
    decreases n
  {
    if n > 0 {
      InTurnCounts(start, other, last, n - 1);
      LifeAppend(start, InTurn(other, last, n - 1), ReadOf(last));
    }
  }

  /** A number of `before` stands for the same in every life that begins as `start`. */
  ghost predicate NamesSame(before: Agent, start: Agent) {
    forall events: seq<Event> ::
      Life(start, events).revision == before.revision ==> Content(Life(start, events)) == Content(before)
  }

  /**
   A revision names its content for good exactly while no restart comes between: in every later moment
   of the same life it does; in the life after a restart it does only when no card was read before.
   */
  lemma RevisionNamesContentExactly(first: Agent, life: seq<Event>, start: Agent)
    requires IsStart(first) && IsStart(start)
    ensures var before := Life(first, life);
            && NamesSame(before, before)
            && (NamesSame(before, start) <==> before.revision == 0)
  {
    var before := Life(first, life);
    forall events: seq<Event> | Life(before, events).revision == before.revision
      ensures Content(Life(before, events)) == Content(before)
    {
      RevisionNamesContent(before, events);
    }
    RevisionNamesContent(first, life);
    if before.revision == 0 {
      forall events: seq<Event> | Life(start, events).revision == before.revision
        ensures Content(Life(start, events)) == Content(before)
      {
        RevisionNamesContent(start, events);
      }
    } else {
      var bare, full := C.Card("", [], []), C.Card("", [C.Profile("", C.Disabled, true, "")], []);
      InTurnCounts(start, bare, full, before.revision);
      InTurnCounts(start, full, bare, before.revision);
      var one := Life(start, InTurn(bare, full, before.revision));
      var two := Life(start, InTurn(full, bare, before.revision));
      assert one.revision == before.revision == two.revision && Content(one) != Content(two);
    }
  }

  /** A profile that a change of this kind is admitted of, and that is not `seen`. */
  function Impostor(kind: Kind, target: string, seen: Option<C.Profile>): (p: C.Profile)
    ensures p.iccid == target && Some(p) != seen
    ensures forall locked: set<string> :: target !in locked ==> TargetDenial(kind, p, locked).None?
  {
    var p := C.Profile(target, if kind == Disable then C.Enabled else C.Disabled, true, "");
    if Some(p) == seen then p.(nickname := "x") else p
  }

  /**
   So after a restart a change is admitted at the revision the client named of a profile it never
   saw: of any kind, for any target it has not locked, from every revision at which a card was read.
   */
  lemma RestartAdmitsUnseen(seen: Agent, start: Agent, id: string, kind: Kind, target: string)
    returns (events: seq<Event>)
    requires IsStart(start) && seen.revision >= 1 && target !in start.locked
    ensures var now := Life(start, events);
            Denied(now, id, kind, target, seen.revision).None? && SeenProfile(now, target) != SeenProfile(seen, target)
  {
    var p := Impostor(kind, target, SeenProfile(seen, target));
    var card, bare := C.Card("", [p], []), C.Card("", [], []);
    InTurnCounts(start, card, bare, seen.revision);
    events := InTurn(card, bare, seen.revision);
    assert C.Lookup([p], target) == Some(p);
  }
}
