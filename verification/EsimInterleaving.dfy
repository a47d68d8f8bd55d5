/**
 Every interleaving of eSIM requests, workers, crashes and restarts (`agent/src/esim.rs`): the
 operation's slot, its journal, and the requests handed to the helper.
 */
module EsimInterleaving {
  import opened Prelude

  /**
   Where the thread of one admission is. A rename is only claimed and sent; any other change is
   journalled, sent and read back, and `finish` decides, stamps and clears in separate steps.
   */
  datatype Phase = Claimed | Renaming | Journaling | Ready | Running | Stamping | Clearing

  /** `alone`: no earlier thread was still finishing when this one's journal was written. */
  datatype Thread = Thread(phase: Phase, alone: bool)

  /** Admissions are numbered; the operation's slot holds one of them. */
  datatype Slot = Slot(ticket: nat, resolved: bool)

  datatype World = World(up: bool, slot: Option<Slot>, journal: Option<nat>, threads: map<nat, Thread>,
                         next: nat, issued: multiset<nat>)

  /** A write of the journal that fails may have put the file in place before. */
  datatype Event =
    | Admit
    | Write(ticket: nat, ok: bool, written: bool)
    | Abandon(ticket: nat)
    | Issue(ticket: nat)
    | Progress(ticket: nat)
    | Decide(ticket: nat)
    | AdmitRename
    | Rename(ticket: nat)
    | Settle(ticket: nat)
    | Stamp(ticket: nat)
    | Clear(ticket: nat, ok: bool)
    | Crash
    | Start

  predicate IsAt(s: World, ticket: nat, phase: Phase) {
    ticket in s.threads && s.threads[ticket].phase == phase
  }

  predicate IsUnsent(s: World, t: nat) {
    IsAt(s, t, Claimed) || IsAt(s, t, Journaling) || IsAt(s, t, Ready)
  }

  predicate IsActive(s: World, ticket: nat) {
    ticket in s.threads && s.threads[ticket].phase !in {Stamping, Clearing}
  }

  predicate IsFinishing(s: World, ticket: nat) {
    ticket in s.threads && s.threads[ticket].phase in {Stamping, Clearing}
  }

  predicate NoneFinishing(s: World) {
    forall t :: t in s.threads ==> s.threads[t].phase !in {Stamping, Clearing}
  }

  function MovedTo(s: World, ticket: nat, phase: Phase): World
    requires ticket in s.threads
  {
    s.(threads := s.threads[ticket := s.threads[ticket].(phase := phase)])
  }

  /** Writes the state of whatever operation is in the slot, as the workers do. */
  function SetOp(s: World, resolved: bool): World {
    if s.slot.None? then s else s.(slot := Some(s.slot.value.(resolved := resolved)))
  }

  /** One step of one thread; a step that cannot happen changes nothing. */
  function Next(s: World, e: Event): World {
    match e
    case Admit =>
      if !s.up || (s.slot.Some? && !s.slot.value.resolved) then s
      else s.(slot := Some(Slot(s.next, false)), threads := s.threads[s.next := Thread(Journaling, false)],
              next := s.next + 1)
    case Write(t, ok, written) =>
      if !IsAt(s, t, Journaling) then s
      else if ok then s.(journal := Some(t), threads := s.threads[t := Thread(Ready, NoneFinishing(s))])
      else s.(slot := None, journal := if written then Some(t) else s.journal, threads := s.threads - {t})
    case Abandon(t) =>
      if !IsAt(s, t, Journaling) then s else s.(slot := None, threads := s.threads - {t})
    case Issue(t) =>
      if !IsAt(s, t, Ready) then s else MovedTo(s, t, Running).(issued := s.issued + multiset{t})
    case Progress(t) =>
      if !IsAt(s, t, Running) then s else SetOp(s, false)
    case Decide(t) =>
      if !IsAt(s, t, Running) then s else MovedTo(SetOp(s, true), t, Stamping)
    case AdmitRename =>
      if !s.up || (s.slot.Some? && !s.slot.value.resolved) then s
      else s.(slot := Some(Slot(s.next, false)), threads := s.threads[s.next := Thread(Claimed, false)],
              next := s.next + 1)
    case Rename(t) =>
      if !IsAt(s, t, Claimed) then s else MovedTo(s, t, Renaming).(issued := s.issued + multiset{t})
    case Settle(t) =>
      if !IsAt(s, t, Renaming) then s
      else SetOp(s, true).(threads := s.threads - {t})
    case Stamp(t) =>
      if !IsAt(s, t, Stamping) then s else MovedTo(s, t, Clearing)
    case Clear(t, ok) =>
      if !IsAt(s, t, Clearing) then s
      else s.(journal := if ok then None else s.journal, threads := s.threads - {t})
    case Crash => s.(up := false, slot := None, threads := map[])
    case Start =>
      if s.up then s
      else if s.journal.None? then s.(up := true)
      else s.(up := true, slot := Some(Slot(s.journal.value, false)),
              threads := map[s.journal.value := Thread(Running, true)])
  }

  function Run(s: World, events: seq<Event>): World
    decreases |events|
  {
    if events == [] then s else Run(Next(s, events[0]), events[1..])
  }

  const BOOT := World(false, None, None, map[], 0, multiset{})

  // ---------------------------------------------------------------------------
  // What every interleaving keeps
  // ---------------------------------------------------------------------------

  /** Every thread that has not decided yet owns the slot, and an unresolved slot has such a thread. */
  ghost predicate Owned(s: World) {
    && (forall t :: IsActive(s, t) ==> s.slot == Some(Slot(t, false)))
    && (s.slot.Some? && !s.slot.value.resolved ==> IsActive(s, s.slot.value.ticket))
    && (!s.up ==> s.slot.None? && s.threads == map[])
  }

  ghost predicate Numbered(s: World) {
    && (forall t :: t in s.threads ==> t < s.next)
    && (s.slot.Some? ==> s.slot.value.ticket < s.next)
    && (s.journal.Some? ==> s.journal.value < s.next)
    && (forall t :: t in s.issued ==> t < s.next)
  }

  /** One request for each admission, and none before its journal is written. */
  ghost predicate IssuedOnce(s: World) {
    && (forall t: nat :: s.issued[t] <= 1)
    && (forall t: nat :: IsUnsent(s, t) ==> t !in s.issued)
  }

  /** While a thread works whose journal was written with nobody else finishing, the journal is its own. */
  ghost predicate JournalKept(s: World) {
    forall t :: t in s.threads && s.threads[t].alone && s.threads[t].phase in {Ready, Running} ==>
      s.journal == Some(t) && NoneFinishing(s)
  }

  /** The journal is never that of a rename, nor of an operation whose own is still to be written. */
  ghost predicate Unrecorded(s: World) {
    forall t :: t in s.threads && s.threads[t].phase in {Claimed, Renaming, Journaling} ==> s.journal != Some(t)
  }

  ghost predicate Valid(s: World) {
    Owned(s) && Numbered(s) && IssuedOnce(s) && JournalKept(s) && Unrecorded(s)
  }

  lemma ActiveBefore(s: World, e: Event, u: nat)
    requires Owned(s) && IsActive(Next(s, e), u)
    ensures IsActive(s, u) || ((e.Admit? || e.AdmitRename?) && u == s.next) || (e.Start? && s.journal == Some(u))
  {
  }

  /** A step of the working part of a thread. */
  predicate IsWork(e: Event) {
    e.Write? || e.Abandon? || e.Issue? || e.Progress? || e.Decide? || e.Rename? || e.Settle?
  }

  predicate Ends(e: Event, u: nat) {
    (e.Decide? || e.Settle? || e.Abandon? || (e.Write? && !e.ok)) && e.ticket == u
  }

  lemma StillActive(s: World, e: Event, u: nat)
    requires IsActive(s, u) && !e.Crash?
    requires !Ends(e, u)
    requires e.Start? ==> s.up
    ensures IsActive(Next(s, e), u)
  {
  }

  /** The thread that takes a step, when it has not decided, owns the slot. */
  lemma StepperOwns(s: World, e: Event)
    requires Owned(s) && IsWork(e)
    ensures IsActive(s, e.ticket) ==> s.slot == Some(Slot(e.ticket, false))
  {
  }

  lemma OwnerKeepsSlot(s: World, e: Event, u: nat)
    requires Owned(s) && Numbered(s) && IsActive(Next(s, e), u)
    ensures Next(s, e).slot == Some(Slot(u, false))
  {
    ActiveBefore(s, e, u);
    if IsWork(e) {
      StepperOwns(s, e);
    }
  }

  lemma NextKeepsOwned(s: World, e: Event)
    requires Owned(s) && Numbered(s)
    ensures Owned(Next(s, e))
  {
    var next := Next(s, e);
    forall u | IsActive(next, u) ensures next.slot == Some(Slot(u, false)) {
      OwnerKeepsSlot(s, e, u);
    }
    if next.slot.Some? && !next.slot.value.resolved {
      var u := next.slot.value.ticket;
      SlotActive(s, e, u);
    }
  }

  lemma SlotActive(s: World, e: Event, u: nat)
    requires Owned(s) && Numbered(s) && Next(s, e).slot == Some(Slot(u, false))
    ensures IsActive(Next(s, e), u)
  {
    if IsWork(e) {
      StepperOwns(s, e);
    }
    if s.slot == Some(Slot(u, false)) && !e.Crash? && !(e.Start? && !s.up) {
      assert IsActive(s, u);
      if !Ends(e, u) {
        StillActive(s, e, u);
      }
    }
  }

  lemma NextKeepsNumbered(s: World, e: Event)
    requires Owned(s) && Numbered(s)
    ensures Numbered(Next(s, e))
  {
  }

  /** What is issued is issued by the thread itself, which had not issued anything. */
  lemma IssuesOnce(s: World, e: Event, t: nat)
    requires IssuedOnce(s)
    ensures Next(s, e).issued[t] <= 1
    ensures t in Next(s, e).issued && t !in s.issued ==> (e.Issue? || e.Rename?) && e.ticket == t
  {
    if e.Issue? && IsAt(s, e.ticket, Ready) {
      assert e.ticket !in s.issued;
    } else if e.Rename? && IsAt(s, e.ticket, Claimed) {
      assert e.ticket !in s.issued;
    }
  }

  lemma UnsentBefore(s: World, e: Event, t: nat)
    requires IsUnsent(Next(s, e), t)
    ensures IsUnsent(s, t) || ((e.Admit? || e.AdmitRename?) && t == s.next)
    ensures !((e.Issue? || e.Rename?) && e.ticket == t && IsUnsent(s, t)) || Next(s, e).issued == s.issued
  {
  }

  lemma NextKeepsIssuedOnce(s: World, e: Event)
    requires Owned(s) && Numbered(s) && IssuedOnce(s)
    ensures IssuedOnce(Next(s, e))
  {
    var next := Next(s, e);
    forall t: nat ensures next.issued[t] <= 1 {
      IssuesOnce(s, e, t);
    }
    forall t: nat | IsUnsent(next, t) ensures t !in next.issued {
      IssuesOnce(s, e, t);
      UnsentBefore(s, e, t);
      assert t !in s.issued;
    }
  }

  lemma NextKeepsJournal(s: World, e: Event)
    requires Owned(s) && Numbered(s) && JournalKept(s)
    ensures JournalKept(Next(s, e))
  {
    var next := Next(s, e);
    forall t | t in next.threads && next.threads[t].alone && next.threads[t].phase in {Ready, Running}
      ensures next.journal == Some(t) && NoneFinishing(next)
    {
      ActiveBefore(s, e, t);
      KeptThere(s, e, t);
    }
  }

  /** Nobody else is active or finishing, so nobody else touches the journal. */
  lemma OthersLeaveJournal(s: World, e: Event, t: nat)
    requires Owned(s) && JournalKept(s) && !e.Crash? && !e.Start?
    requires t in s.threads && s.threads[t].alone && s.threads[t].phase in {Ready, Running}
    requires t in Next(s, e).threads && Next(s, e).threads[t].phase in {Ready, Running}
    ensures Next(s, e).journal == Some(t) && NoneFinishing(Next(s, e))
  {
    assert IsActive(s, t);
    if IsWork(e) && IsActive(s, e.ticket) {
      assert e.ticket == t;
    }
  }

  lemma KeptThere(s: World, e: Event, t: nat)
    requires Owned(s) && Numbered(s) && JournalKept(s)
    requires t in Next(s, e).threads && Next(s, e).threads[t].alone && Next(s, e).threads[t].phase in {Ready, Running}
    ensures Next(s, e).journal == Some(t) && NoneFinishing(Next(s, e))
  {
    if e.Write? && e.ticket == t && IsAt(s, t, Journaling) {
      assert NoneFinishing(s);
    } else if !e.Start? {
      assert t in s.threads && s.threads[t].alone && s.threads[t].phase in {Ready, Running};
      OthersLeaveJournal(s, e, t);
    }
  }

  lemma NextKeepsUnrecorded(s: World, e: Event)
    requires Numbered(s) && Unrecorded(s)
    ensures Unrecorded(Next(s, e))
  {
  }

  lemma NextKeepsValid(s: World, e: Event)
    requires Valid(s)
    ensures Valid(Next(s, e))
  {
    NextKeepsOwned(s, e);
    NextKeepsNumbered(s, e);
    NextKeepsIssuedOnce(s, e);
    NextKeepsJournal(s, e);
    NextKeepsUnrecorded(s, e);
  }

  /**
   Over all interleavings, crashes and restarts: at most one operation is unresolved and at most
   one thread works on it, a worker only ever writes its own operation's state, and each admission
   issues at most one request.
   */
  lemma {:induction false} RunKeepsValid(s: World, events: seq<Event>)
    requires Valid(s)
    ensures Valid(Run(s, events))
    decreases |events|
  {
    if events != [] {
      NextKeepsValid(s, events[0]);
      RunKeepsValid(Next(s, events[0]), events[1..]);
    }
  }

  lemma EveryRunIsValid(events: seq<Event>)
    ensures Valid(Run(BOOT, events))
  {
    RunKeepsValid(BOOT, events);
  }

  /** Two threads that have not decided are one and the same. */
  lemma OneAtWork(events: seq<Event>, t: nat, u: nat)
    requires var s := Run(BOOT, events); IsActive(s, t) && IsActive(s, u)
    ensures t == u && Run(BOOT, events).slot == Some(Slot(t, false))
  {
    EveryRunIsValid(events);
  }

  predicate PastRequest(s: World, t: nat) {
    t < s.next && !IsUnsent(s, t)
  }

  lemma StaysPastRequest(s: World, e: Event, t: nat)
    requires PastRequest(s, t)
    ensures PastRequest(Next(s, e), t) && Next(s, e).issued[t] == s.issued[t]
  {
  }

  /** A thread past its request, as every recovered one is, never issues another. */
  lemma {:induction false} NeverIssuedAgain(s: World, events: seq<Event>, t: nat)
    requires PastRequest(s, t)
    ensures Run(s, events).issued[t] == s.issued[t]
    decreases |events|
  {
    if events != [] {
      StaysPastRequest(s, events[0], t);
      NeverIssuedAgain(Next(s, events[0]), events[1..], t);
    }
  }

  /** After a restart the operation the journal holds is read back, and nothing is sent for it, ever. */
  lemma RecoveredIssuesNothing(before: seq<Event>, after: seq<Event>)
    requires var s := Run(BOOT, before); !s.up && s.journal.Some?
    ensures var s := Run(BOOT, before);
            var t, started := s.journal.value, Next(s, Start);
            && started.slot == Some(Slot(t, false)) && started.issued == s.issued
            && Run(started, after).issued[t] == s.issued[t]
  {
    var s := Run(BOOT, before);
    EveryRunIsValid(before);
    NextKeepsValid(s, Start);
    NeverIssuedAgain(Next(s, Start), after, s.journal.value);
  }

  // ---------------------------------------------------------------------------
  // The journal
  // ---------------------------------------------------------------------------

  /** The journal survives with its operation at work, from now on, whatever happens. */
  ghost predicate Survives(s: World, t: nat) {
    forall events :: var end := Run(s, events);
      (IsAt(end, t, Ready) || IsAt(end, t, Running)) ==> end.journal == Some(t)
  }

  predicate IsAlone(s: World, t: nat) {
    t < s.next && (t in s.threads ==> s.threads[t].alone && s.threads[t].phase != Journaling)
  }

  lemma StaysAlone(s: World, e: Event, t: nat)
    requires IsAlone(s, t)
    ensures IsAlone(Next(s, e), t)
  {
  }

  lemma {:induction false} AloneStays(s: World, events: seq<Event>, t: nat)
    requires IsAlone(s, t)
    ensures IsAlone(Run(s, events), t)
    decreases |events|
  {
    if events != [] {
      StaysAlone(s, events[0], t);
      AloneStays(Next(s, events[0]), events[1..], t);
    }
  }

  lemma RunTwo(s: World, first: Event, second: Event)
    ensures Run(s, [first, second]) == Next(Next(s, first), second)
  {
    assert [first, second][1..] == [second] && [second][1..] == [];
    assert Run(Next(s, first), [second]) == Run(Next(Next(s, first), second), []);
  }

  lemma StaleClearErases(s: World, t: nat, f: nat)
    requires IsAt(s, t, Ready) && IsFinishing(s, f)
    ensures var end := Run(s, [Stamp(f), Clear(f, true)]);
            end.journal.None? && IsAt(end, t, Ready) && end.slot == s.slot
  {
    RunTwo(s, Stamp(f), Clear(f, true));
    var stamped := Next(s, Stamp(f));
    assert IsAt(stamped, f, Clearing) && IsAt(stamped, t, Ready);
  }

  /**
   A journal just written survives until its own operation's end exactly when no earlier thread is
   still between setting its verdict and clearing the journal.
   */
  lemma JournalSurvivesExactly(s: World, t: nat)
    requires Valid(s) && IsAt(s, t, Journaling)
    ensures Survives(Next(s, Write(t, true, true)), t) <==> NoneFinishing(s)
  {
    var written := Next(s, Write(t, true, true));
    NextKeepsValid(s, Write(t, true, true));
    if NoneFinishing(s) {
      forall events ensures var end := Run(written, events);
        (IsAt(end, t, Ready) || IsAt(end, t, Running)) ==> end.journal == Some(t)
      {
        RunKeepsValid(written, events);
        AloneStays(written, events, t);
      }
    } else {
      var f :| f in s.threads && s.threads[f].phase in {Stamping, Clearing};
      StaleClearErases(written, t, f);
    }
  }

  /** While it survives, a crash at any moment is recovered from. */
  lemma CrashIsRecovered(s: World, t: nat)
    requires Valid(s) && (IsAt(s, t, Ready) || IsAt(s, t, Running)) && s.threads[t].alone
    ensures var again := Run(s, [Crash, Start]);
            again.slot == Some(Slot(t, false)) && again.issued == s.issued && IsAt(again, t, Running)
  {
    RunTwo(s, Crash, Start);
  }

  lemma RunThree(s: World, first: Event, second: Event, third: Event)
    ensures Run(s, [first, second, third]) == Next(Next(Next(s, first), second), third)
  {
    assert [first, second, third][1..] == [second, third];
    RunTwo(Next(s, first), second, third);
  }

  /**
   A change refused because its journal could not be written comes back after a crash exactly when the
   file was left behind, and is read back although its request was never sent, and never will be.
   */
  lemma RefusedComesBackExactly(s: World, t: nat, written: bool, later: seq<Event>)
    requires Valid(s) && IsAt(s, t, Journaling)
    ensures var again := Run(s, [Write(t, false, written), Crash, Start]);
            && (again.slot == Some(Slot(t, false)) <==> written)
            && again.issued[t] == 0 && Run(again, later).issued[t] == 0
  {
    RunThree(s, Write(t, false, written), Crash, Start);
    NeverIssuedAgain(Run(s, [Write(t, false, written), Crash, Start]), later, t);
  }

  /** A rename has no journal: a crash always loses sight of one that was sent. */
  lemma RenameIsForgotten(s: World, t: nat)
    requires Valid(s) && IsAt(s, t, Renaming)
    ensures var again := Run(s, [Crash, Start]);
            again.issued == s.issued && (again.slot.Some? ==> again.slot.value.ticket != t) && t !in again.threads
  {
    RunTwo(s, Crash, Start);
  }

  /** When it is erased, a crash loses sight of a request that may have reached the card. */
  lemma ErasedIsForgotten(s: World, t: nat)
    requires IsAt(s, t, Running) && s.journal.None?
    ensures Run(s, [Crash, Start]).slot.None? && Run(s, [Crash, Start]).issued == s.issued
  {
    RunTwo(s, Crash, Start);
  }

  // Such a run: the first operation's thread has set its verdict but not yet cleared the journal
  // when the second is admitted, recorded and sent.

  const DECIDED := World(true, Some(Slot(0, true)), Some(0), map[0 := Thread(Stamping, true)], 1, multiset{0})

  const OVERTAKEN := World(true, Some(Slot(1, false)), None, map[1 := Thread(Running, false)], 2, multiset{0, 1})

  lemma {:induction false} RunConcat(s: World, first: seq<Event>, second: seq<Event>)
    ensures Run(s, first + second) == Run(Run(s, first), second)
    decreases |first|
  {
    if first == [] {
      assert [] + second == second;
    } else {
      assert (first + second)[1..] == first[1..] + second;
      RunConcat(Next(s, first[0]), first[1..], second);
    }
  }

  const ADMITTED := World(true, Some(Slot(0, false)), None, map[0 := Thread(Journaling, false)], 1, multiset{})

  const FIRST_SENT := World(true, Some(Slot(0, false)), Some(0), map[0 := Thread(Running, true)], 1, multiset{0})

  lemma FirstStepsAreReached()
    ensures Run(BOOT, [Start, Admit]) == ADMITTED
    ensures Run(ADMITTED, [Write(0, true, true), Issue(0)]) == FIRST_SENT
  {
    RunTwo(BOOT, Start, Admit);
    RunTwo(ADMITTED, Write(0, true, true), Issue(0));
  }

  lemma VerdictIsReached()
    ensures Run(FIRST_SENT, [Decide(0), Progress(0)]) == DECIDED
  {
    RunTwo(FIRST_SENT, Decide(0), Progress(0));
  }

  lemma DecidedIsReached()
    ensures Run(BOOT, [Start, Admit] + [Write(0, true, true), Issue(0)] + [Decide(0), Progress(0)]) == DECIDED
  {
    hide Run, Next;
    RunConcat(BOOT, [Start, Admit] + [Write(0, true, true), Issue(0)], [Decide(0), Progress(0)]);
    RunConcat(BOOT, [Start, Admit], [Write(0, true, true), Issue(0)]);
    FirstStepsAreReached();
    VerdictIsReached();
  }

  const RECORDED := World(true, Some(Slot(1, false)), Some(1), map[0 := Thread(Stamping, true), 1 := Thread(Ready,
                          false)], 2, multiset{0})

  const SENT := World(true, Some(Slot(1, false)), Some(1), map[0 := Thread(Clearing, true), 1 := Thread(Running,
                      false)], 2, multiset{0, 1})

  lemma RecordedIsReached()
    ensures Run(DECIDED, [Admit, Write(1, true, true)]) == RECORDED
  {
    RunTwo(DECIDED, Admit, Write(1, true, true));
    var admitted := Next(DECIDED, Admit);
    assert 0 in admitted.threads && admitted.threads[0].phase == Stamping;
  }

  lemma SentIsReached()
    ensures Run(RECORDED, [Issue(1), Stamp(0)]) == SENT
  {
    RunTwo(RECORDED, Issue(1), Stamp(0));
  }

  lemma ClearedIsReached()
    ensures Run(SENT, [Clear(0, true), Progress(1)]) == OVERTAKEN
  {
    RunTwo(SENT, Clear(0, true), Progress(1));
  }

  lemma OvertakenIsReached()
    ensures Run(DECIDED, [Admit, Write(1, true, true)] + [Issue(1), Stamp(0)] + [Clear(0, true), Progress(1)])
         == OVERTAKEN
  {
    hide Run, Next;
    RunConcat(DECIDED, [Admit, Write(1, true, true)] + [Issue(1), Stamp(0)], [Clear(0, true), Progress(1)]);
    RunConcat(DECIDED, [Admit, Write(1, true, true)], [Issue(1), Stamp(0)]);
    RecordedIsReached();
    SentIsReached();
    ClearedIsReached();
  }

  /** The second operation is unresolved and sent, its journal is gone, and a crash forgets it. */
  lemma LostOperationExample()
    ensures exists events :: Run(BOOT, events) == OVERTAKEN
    ensures Run(OVERTAKEN, [Crash, Start]).slot.None?
  {
    DecidedIsReached();
    OvertakenIsReached();
    var first := [Start, Admit] + [Write(0, true, true), Issue(0)] + [Decide(0), Progress(0)];
    var second := [Admit, Write(1, true, true)] + [Issue(1), Stamp(0)] + [Clear(0, true), Progress(1)];
    RunConcat(BOOT, first, second);
    assert Run(BOOT, first + second) == OVERTAKEN;
    ErasedIsForgotten(OVERTAKEN, 1);
  }
}
