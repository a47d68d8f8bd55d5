/**
 Confirmed LAN changes with a recovery record (`agent/src/lan.rs`).

 A change is recorded, applied, and then either confirmed by the client or rolled back. The device
 is an adversary: every call into it takes its outcome as a parameter, and power can be cut after
 any write it makes.
 */
module LanProtocol {
  import opened Prelude
  import opened LanRules

  const CONFIRM_SECONDS := 120

  /** The checks settings must pass: `None` accepts. The results below hold for any such rules. */
  type Rules = LanSettings -> Option<SettingsError>

  datatype Journal = Journal(previous: LanSettings, proposed: LanSettings, token: string)

  datatype Pending = Pending(journal: Journal, deadline: int, applied: bool)

  /**
   What survives a power cut. `agreed` is stored nowhere: it is the last agreed configuration, and
   it moves exactly when a confirmation removes the recovery record.
   */
  datatype Device = Device(live: LanSettings, journal: Option<Journal>, agreed: LanSettings)

  datatype Memory = Memory(pending: Option<Pending>, confirmed: Option<Journal>, error: Option<LanError>)

  datatype Listener = Listener(address: string, generation: nat, fixed: bool)

  datatype System = System(device: Device, memory: Memory, listener: Listener)

  datatype LanError =
    | ChangePending
    | LoadFailed
    | ReadFailed
    | InvalidSettings(reason: SettingsError)
    | FixedBinding
    | NoToken
    | SaveFailure
    | ApplyFailure
    | ClearFailure
    | NotConfirmedInTime
    | RestorationFailed
    | RecordNotCleared
    | NothingPending
    | ConfirmationInvalid
    | SettingsMismatch

  datatype Answer = Done | Unchanged | Started(token: string) | Refused(error: LanError)

  // ---------------------------------------------------------------------------
  // The device's possible outcomes
  // ---------------------------------------------------------------------------

  /** A failed apply may leave the settings half changed. */
  datatype ApplyWeather = Applied | ApplyFailed(leaves: LanSettings)

  /** A failed save may have written the record. */
  datatype SaveWeather = Saved | SaveFailed(written: bool)

  /** A failed clear usually leaves the record; it may also fail after removing the file. */
  datatype ClearWeather = Cleared | ClearFailed(removed: bool)

  function DeviceApply(d: Device, settings: LanSettings, w: ApplyWeather): Device {
    d.(live := if w.Applied? then settings else w.leaves)
  }

  function DeviceSave(d: Device, journal: Journal, w: SaveWeather): Device {
    if w.Saved? || w.written then d.(journal := Some(journal)) else d
  }

  /** Removing a record that is not there fails. */
  predicate ClearSucceeds(d: Device, w: ClearWeather) {
    w.Cleared? && d.journal.Some?
  }

  function DeviceClear(d: Device, w: ClearWeather): Device {
    if w.Cleared? || w.removed then d.(journal := None) else d
  }

  // ---------------------------------------------------------------------------
  // Operations
  // ---------------------------------------------------------------------------

  /** One operation: the state it leaves, its answer, and the device after each write it made. */
  datatype Outcome = Outcome(after: System, answer: Answer, trail: seq<Device>)

  function Rebind(l: Listener, ip: string): Listener {
    var desired := ip + ":9090";
    if l.fixed || l.address == desired then l
    else l.(address := desired, generation := l.generation + 1)
  }

  datatype Undo = Undo(apply: ApplyWeather, clear: ClearWeather)

  function RollBack(s: System, w: Undo): Outcome {
    if s.memory.pending.None? then Outcome(s, Done, [])
    else
      var previous := s.memory.pending.value.journal.previous;
      var restored := DeviceApply(s.device, previous, w.apply);
      if w.apply.ApplyFailed? then
        Outcome(s.(device := restored, memory := s.memory.(error := Some(RestorationFailed))), Done, [restored])
      else
        var cleared := DeviceClear(restored, w.clear);
        var memory := if ClearSucceeds(restored, w.clear) then s.memory.(pending := None)
                      else s.memory.(error := Some(RecordNotCleared));
        Outcome(System(cleared, memory, Rebind(s.listener, previous.ipaddr)), Done, [restored, cleared])
  }

  function BeginChange(rules: Rules, s: System, proposed: LanSettings, now: int, load: bool, read: bool,
                       token: Option<string>, save: SaveWeather): Outcome
  {
    var refuse := (e: LanError) => Outcome(s, Refused(e), []);
    if s.memory.pending.Some? then refuse(ChangePending)
    else if !load then refuse(LoadFailed)
    else if s.device.journal.Some? then refuse(ChangePending)
    else if rules(proposed).Some? then refuse(InvalidSettings(rules(proposed).value))
    else if !read then refuse(ReadFailed)
    else
      var previous := s.device.live;
      if rules(previous).Some? then refuse(InvalidSettings(rules(previous).value))
      else if previous == proposed then Outcome(s, Unchanged, [])
      else if s.listener.fixed && previous.ipaddr != proposed.ipaddr then refuse(FixedBinding)
      else if token.None? then refuse(NoToken)
      else
        var journal := Journal(previous, proposed, token.value);
        var device := DeviceSave(s.device, journal, save);
        if save.SaveFailed? then Outcome(s.(device := device), Refused(SaveFailure), [device])
        else
          var pending := Pending(journal, now + CONFIRM_SECONDS, false);
          Outcome(System(device, s.memory.(confirmed := None, pending := Some(pending)), s.listener),
                  Started(token.value), [device])
  }

  function ApplyChange(s: System, apply: ApplyWeather, undo: Undo): Outcome {
    if s.memory.pending.None? then Outcome(s, Done, [])
    else
      var pending := s.memory.pending.value;
      var device := DeviceApply(s.device, pending.journal.proposed, apply);
      if apply.Applied? then
        Outcome(System(device, s.memory.(pending := Some(pending.(applied := true))),
                       Rebind(s.listener, pending.journal.proposed.ipaddr)), Done, [device])
      else
        var failed := s.(device := device, memory := s.memory.(error := Some(ApplyFailure)));
        var back := RollBack(failed, undo);
        back.(trail := [device] + back.trail)
  }

  function ExpireChange(s: System, now: int, undo: Undo): Outcome {
    if s.memory.pending.Some? && now >= s.memory.pending.value.deadline then
      RollBack(s.(memory := s.memory.(error := Some(NotConfirmedInTime))), undo)
    else Outcome(s, Done, [])
  }

  function ConfirmChange(s: System, token: string, now: int, read: bool, clear: ClearWeather): Outcome {
    var refuse := (e: LanError) => Outcome(s, Refused(e), []);
    match s.memory.pending
    case None =>
      if s.memory.confirmed.Some? && token == s.memory.confirmed.value.token then
        if !read then refuse(ReadFailed)
        else if s.device.live == s.memory.confirmed.value.proposed then Outcome(s, Done, [])
        else refuse(NothingPending)
      else refuse(NothingPending)
    case Some(pending) =>
      if !pending.applied || now >= pending.deadline || token != pending.journal.token then
        refuse(ConfirmationInvalid)
      else if !read then refuse(ReadFailed)
      else if s.device.live != pending.journal.proposed then refuse(SettingsMismatch)
      else
        var device := DeviceClear(s.device, clear);
        if ClearSucceeds(s.device, clear) then
          var agreed := device.(agreed := pending.journal.proposed);
          Outcome(System(agreed, Memory(None, Some(pending.journal), None), s.listener), Done, [agreed])
        else Outcome(s.(device := device), Refused(ClearFailure), [device])
  }

  function RecoverChange(rules: Rules, s: System, load: bool, apply: ApplyWeather, clear: ClearWeather): Outcome {
    var fail := (device: Device, e: LanError, trail: seq<Device>) =>
      Outcome(s.(device := device, memory := s.memory.(error := Some(e))), Done, trail);
    if !load then fail(s.device, LoadFailed, [])
    else if s.device.journal.None? then
      Outcome(s.(memory := s.memory.(pending := None, error := None)), Done, [])
    else
      var previous := s.device.journal.value.previous;
      if rules(previous).Some? then fail(s.device, InvalidSettings(rules(previous).value), [])
      else
        var restored := DeviceApply(s.device, previous, apply);
        if apply.ApplyFailed? then fail(restored, ApplyFailure, [restored])
        else
          var cleared := DeviceClear(restored, clear);
          var memory := if ClearSucceeds(restored, clear) then s.memory.(pending := None, error := None)
                        else s.memory.(error := Some(ClearFailure));
          Outcome(System(cleared, memory, Rebind(s.listener, previous.ipaddr)), Done, [restored, cleared])
  }

  datatype Request =
    | Begin(proposed: LanSettings, now: int, load: bool, read: bool, nonce: Option<string>, save: SaveWeather)
    | Apply(apply: ApplyWeather, undo: Undo)
    | Expire(now: int, undo: Undo)
    | Confirm(token: string, now: int, read: bool, clear: ClearWeather)
    | Recover(load: bool, apply: ApplyWeather, clear: ClearWeather)

  function Serve(rules: Rules, s: System, r: Request): Outcome {
    match r
    case Begin(proposed, now, load, read, nonce, save) => BeginChange(rules, s, proposed, now, load, read, nonce, save)
    case Apply(apply, undo) => ApplyChange(s, apply, undo)
    case Expire(now, undo) => ExpireChange(s, now, undo)
    case Confirm(token, now, read, clear) => ConfirmChange(s, token, now, read, clear)
    case Recover(load, apply, clear) => RecoverChange(rules, s, load, apply, clear)
  }

  /** A request served to the end, or power cut after `writes` of its device writes. */
  datatype Event = Served(request: Request) | PowerCut(request: Request, writes: nat, boot: Listener)

  const FreshMemory := Memory(None, None, None)

  function Next(rules: Rules, s: System, e: Event): System {
    var outcome := Serve(rules, s, e.request);
    match e
    case Served(_) => outcome.after
    case PowerCut(_, writes, boot) =>
      var k := Min(writes, |outcome.trail|);
      System(if k == 0 then s.device else outcome.trail[k - 1], FreshMemory, boot)
  }

  function Run(rules: Rules, s: System, events: seq<Event>): System
    decreases |events|
  {
    if events == [] then s else Run(rules, Next(rules, s, events[0]), events[1..])
  }

  // ---------------------------------------------------------------------------
  // Crash safety
  // ---------------------------------------------------------------------------

  /** The device holds the agreed settings, or a record that leads back to exactly them. */
  predicate Restorable(rules: Rules, d: Device) {
    || d.live == d.agreed
    || (d.journal.Some? && d.journal.value.previous == d.agreed && rules(d.agreed).None?)
  }

  predicate DeviceConsistent(rules: Rules, d: Device) {
    && (d.journal.None? ==> d.live == d.agreed)
    && (d.journal.Some? ==> d.journal.value.previous == d.agreed && rules(d.agreed).None?)
  }

  /** A pending change is the recorded one, unless its record was lost to a clear that removed it and then failed. */
  predicate Consistent(rules: Rules, s: System) {
    var d, m := s.device, s.memory;
    && DeviceConsistent(rules, d)
    && (m.pending.Some? ==>
          && var change := m.pending.value.journal;
          && (d.journal == Some(change) || (d.journal.None? && change.previous == d.agreed && rules(d.agreed).None?))
          && change.previous != change.proposed)
    && (m.confirmed.Some? ==> d.agreed == m.confirmed.value.proposed)
  }

  // ---------------------------------------------------------------------------
  // Where the agreed settings are lost
  // ---------------------------------------------------------------------------

  /** A change is pending whose record is gone: a rollback's clear removed it and then failed. */
  predicate RecordGone(s: System) {
    s.memory.pending.Some? && s.device.journal.None?
  }

  /** The confirmation gets as far as removing the record. */
  predicate ReachesClear(s: System, token: string, now: int, read: bool) {
    && s.memory.pending.Some? && read
    && var p := s.memory.pending.value;
    && p.applied && now < p.deadline && token == p.journal.token && s.device.live == p.journal.proposed
  }

  /** An apply that fails and leaves something else than the settings it was to restore. */
  predicate Strays(w: ApplyWeather, settings: LanSettings) {
    w.ApplyFailed? && w.leaves != settings
  }

  /** The writes of a request that are made before the power is cut, or all of them. */
  function WritesDone(e: Event, all: nat): nat {
    match e
    case Served(_) => all
    case PowerCut(_, writes, _) => Min(writes, all)
  }

  /**
   The steps that lose the agreed settings: a confirmation's clear that removes the record and
   fails, and, once a rollback's clear has done so, an apply that ends with other settings.
   */
  predicate Loses(s: System, e: Event) {
    match e.request
    case Confirm(token, now, read, clear) =>
      ReachesClear(s, token, now, read) && clear == ClearFailed(true) && WritesDone(e, 1) == 1
    case Expire(now, undo) =>
      && RecordGone(s) && now >= s.memory.pending.value.deadline
      && Strays(undo.apply, s.memory.pending.value.journal.previous) && WritesDone(e, 1) == 1
    case Apply(apply, undo) =>
      RecordGone(s) && WritesDone(e, 1) == 1 &&
      var previous := s.memory.pending.value.journal.previous;
      if apply.Applied? then true
      else if WritesDone(e, 2) == 1 then Strays(apply, previous)
      else Strays(undo.apply, previous)
    case _ => false
  }

  /** What an outcome leaves at the end of the request, or where the power is cut. */
  function After(rules: Rules, s: System, e: Event): Device {
    Next(rules, s, e).device
  }

  lemma BeginStep(rules: Rules, s: System, e: Event)
    requires Consistent(rules, s) && e.request.Begin?
    ensures Consistent(rules, Next(rules, s, e))
  {
  }

  lemma RecoverStep(rules: Rules, s: System, e: Event)
    requires Consistent(rules, s) && e.request.Recover?
    ensures Consistent(rules, Next(rules, s, e))
  {
  }

  lemma ConfirmStep(rules: Rules, s: System, e: Event)
    requires Consistent(rules, s) && e.request.Confirm?
    ensures Loses(s, e) ==> !Restorable(rules, After(rules, s, e))
    ensures !Loses(s, e) ==> Consistent(rules, Next(rules, s, e))
  {
  }

  lemma ExpireStep(rules: Rules, s: System, e: Event)
    requires Consistent(rules, s) && e.request.Expire?
    ensures Loses(s, e) ==> !Restorable(rules, After(rules, s, e))
    ensures !Loses(s, e) ==> Consistent(rules, Next(rules, s, e))
  {
  }

  lemma ApplyStep(rules: Rules, s: System, e: Event)
    requires Consistent(rules, s) && e.request.Apply?
    ensures Loses(s, e) ==> !Restorable(rules, After(rules, s, e))
    ensures !Loses(s, e) ==> Consistent(rules, Next(rules, s, e))
  {
  }

  /**
   One step, with power cut after any of its writes: it keeps the agreed settings restorable exactly when it is
   none of those.
   */
  lemma StepLosesExactly(rules: Rules, s: System, e: Event)
    requires Consistent(rules, s)
    ensures Restorable(rules, After(rules, s, e)) <==> !Loses(s, e)
    ensures Consistent(rules, Next(rules, s, e)) <==> !Loses(s, e)
  {
    match e.request
    case Begin(_, _, _, _, _, _) => BeginStep(rules, s, e);
    case Recover(_, _, _) => RecoverStep(rules, s, e);
    case Confirm(_, _, _, _) => ConfirmStep(rules, s, e);
    case Expire(_, _) => ExpireStep(rules, s, e);
    case Apply(_, _) => ApplyStep(rules, s, e);
  }

  /** None of a run's steps is one of those. */
  predicate NeverLoses(rules: Rules, s: System, events: seq<Event>)
    decreases |events|
  {
    events != [] ==> !Loses(s, events[0]) && NeverLoses(rules, Next(rules, s, events[0]), events[1..])
  }

  /** The agreed settings can be restored at every moment of a run. */
  predicate AlwaysRestorable(rules: Rules, s: System, events: seq<Event>)
    decreases |events|
  {
    && Restorable(rules, s.device)
    && (events != [] ==> AlwaysRestorable(rules, Next(rules, s, events[0]), events[1..]))
  }

  /**
   Over every run, with power cut at any point and every kind of fault: the agreed settings are live
   or recorded throughout, exactly when no confirmation's clear removes the record and fails, and
   no apply ends with other settings after a rollback's clear has.
   */
  lemma {:induction false} RunLosesExactly(rules: Rules, s: System, events: seq<Event>)
    requires Consistent(rules, s)
    ensures AlwaysRestorable(rules, s, events) <==> NeverLoses(rules, s, events)
    decreases |events|
  {
    if events != [] {
      StepLosesExactly(rules, s, events[0]);
      var next, rest := Next(rules, s, events[0]), events[1..];
      if !Loses(s, events[0]) {
        RunLosesExactly(rules, next, rest);
      }
    }
  }

  lemma {:induction false} RunKeepsConsistent(rules: Rules, s: System, events: seq<Event>)
    requires Consistent(rules, s) && NeverLoses(rules, s, events)
    ensures Consistent(rules, Run(rules, s, events))
    decreases |events|
  {
    if events != [] {
      StepLosesExactly(rules, s, events[0]);
      RunKeepsConsistent(rules, Next(rules, s, events[0]), events[1..]);
    }
  }

  /**
   A confirmation leaves the agreed settings unrestorable exactly when its clear removes the record and then
   fails.
   */
  lemma ConfirmationLosesRecordExactly(rules: Rules, s: System, token: string, now: int, read: bool,
                                       clear: ClearWeather)
    requires Consistent(rules, s)
    ensures !Restorable(rules, ConfirmChange(s, token, now, read, clear).after.device)
            <==> ReachesClear(s, token, now, read) && clear == ClearFailed(true)
  {
    StepLosesExactly(rules, s, Served(Confirm(token, now, read, clear)));
  }

  /**
   A rollback's clear that removes and fails loses nothing by itself: the settings are back, but a change stays
   pending without a record.
   */
  lemma RollbackClearOnlyOrphans(rules: Rules, s: System, now: int, undo: Undo)
    requires Consistent(rules, s) && s.memory.pending.Some? && s.device.journal.Some?
    requires now >= s.memory.pending.value.deadline && undo == Undo(Applied, ClearFailed(true))
    ensures var after := Next(rules, s, Served(Expire(now, undo)));
            RecordGone(after) && after.device.live == after.device.agreed && Consistent(rules, after)
  {
  }

  /** A recovery that reports no error has put the agreed settings back and moved the listener. */
  lemma RecoveryWithoutErrorRestores(rules: Rules, s: System, load: bool, apply: ApplyWeather, clear: ClearWeather)
    requires Consistent(rules, s)
    ensures var after := RecoverChange(rules, s, load, apply, clear).after;
            after.memory.error.None? ==>
              && after.device == Device(s.device.agreed, None, s.device.agreed)
              && after.memory.pending.None?
              && (s.device.journal.Some? && !s.listener.fixed ==>
                    after.listener.address == s.device.agreed.ipaddr + ":9090")
  {
  }

  lemma RestartRestores(rules: Rules, d: Device, boot: Listener)
    requires DeviceConsistent(rules, d)
    ensures var up := RecoverChange(rules, System(d, FreshMemory, boot), true, Applied, Cleared).after;
            up.device.live == d.agreed && up.device.journal.None? && up.memory == FreshMemory
  {
  }

  /**
   Cut power anywhere in any run: a restart with a working device restores the agreed settings
   exactly when the last step was not one that loses them.
   */
  lemma RestartRestoresExactly(rules: Rules, s: System, events: seq<Event>, last: Event, boot: Listener)
    requires Consistent(rules, s) && NeverLoses(rules, s, events)
    ensures var before := Run(rules, s, events);
            var down := Next(rules, before, last).device;
            var up := RecoverChange(rules, System(down, FreshMemory, boot), true, Applied, Cleared).after;
            && (up.device.live == down.agreed <==> !Loses(before, last))
            && (!Loses(before, last) ==> up.device.journal.None? && up.memory == FreshMemory)
  {
    var before := Run(rules, s, events);
    RunKeepsConsistent(rules, s, events);
    StepLosesExactly(rules, before, last);
    var down := Next(rules, before, last).device;
    if Loses(before, last) {
      LostStaysLost(rules, before, last);
    } else {
      RestartRestores(rules, down, boot);
    }
  }

  /** What is lost leaves no record at all, so a restart keeps the settings that are live. */
  lemma LostStaysLost(rules: Rules, s: System, e: Event)
    requires Consistent(rules, s) && Loses(s, e)
    ensures After(rules, s, e).journal.None? && After(rules, s, e).live != After(rules, s, e).agreed
  {
  }

  /** The agreed settings move only when the right token confirms a change that is live, in time. */
  lemma AgreedMovesOnlyByConfirmation(rules: Rules, s: System, e: Event)
    requires Consistent(rules, s)
    ensures var after := Next(rules, s, e).device;
            after.agreed != s.device.agreed ==>
              && e.request.Confirm? && s.memory.pending.Some?
              && var p := s.memory.pending.value;
              && p.applied && e.request.now < p.deadline && e.request.token == p.journal.token
              && s.device.live == p.journal.proposed == after.agreed == after.live
              && after.journal.None?
  {
  }

  predicate IsBegin(e: Event) {
    e.request.Begin?
  }

  /** With no change recorded or pending, nothing but a new change touches the device. */
  lemma {:induction false} SettledDeviceStays(rules: Rules, s: System, events: seq<Event>)
    requires s.device.journal.None? && s.memory.pending.None?
    requires forall i :: 0 <= i < |events| ==> !IsBegin(events[i])
    ensures Run(rules, s, events).device == s.device
    decreases |events|
  {
    if events != [] {
      var next := Next(rules, s, events[0]);
      assert !IsBegin(events[0]);
      assert next.device == s.device && next.memory.pending.None?;
      SettledDeviceStays(rules, next, events[1..]);
    }
  }

  /**
   A pending change is accepted exactly when it is applied and live, the token is its own, in time, and the
   record goes.
   */
  lemma ConfirmationAcceptedExactly(rules: Rules, s: System, token: string, now: int, read: bool, clear: ClearWeather)
    requires Consistent(rules, s) && s.memory.pending.Some?
    ensures ConfirmChange(s, token, now, read, clear).answer == Done
       <==> ReachesClear(s, token, now, read) && clear == Cleared
  {
  }

  /** An accepted confirmation is final: no expiry, recovery or power cut rolls the change back. */
  lemma AcceptedConfirmationIsFinal(rules: Rules, s: System, token: string, now: int, read: bool, clear: ClearWeather,
                                    later: seq<Event>)
    requires Consistent(rules, s) && s.memory.pending.Some?
    requires ConfirmChange(s, token, now, read, clear).answer == Done
    requires forall i :: 0 <= i < |later| ==> !IsBegin(later[i])
    ensures var proposed := s.memory.pending.value.journal.proposed;
            Run(rules, ConfirmChange(s, token, now, read, clear).after, later).device
            == Device(proposed, None, proposed)
  {
    ConfirmationAcceptedExactly(rules, s, token, now, read, clear);
    SettledDeviceStays(rules, ConfirmChange(s, token, now, read, clear).after, later);
  }

  /** The device and listener are back at the agreed settings, and nothing is pending. */
  predicate BackAtAgreed(before: System, after: System) {
    && after.device == Device(before.device.agreed, None, before.device.agreed) && after.memory.pending.None?
    && (!before.listener.fixed ==> after.listener.address == before.device.agreed.ipaddr + ":9090")
  }

  /** On a working device a change that is not confirmed in time, or could not be applied, is undone completely. */
  lemma UnconfirmedIsUndone(rules: Rules, s: System, now: int, leaves: LanSettings)
    requires Consistent(rules, s) && s.memory.pending.Some? && s.device.journal.Some?
    ensures now >= s.memory.pending.value.deadline ==>
              BackAtAgreed(s, ExpireChange(s, now, Undo(Applied, Cleared)).after)
    ensures BackAtAgreed(s, ApplyChange(s, ApplyFailed(leaves), Undo(Applied, Cleared)).after)
  {
  }

  /** A repeated confirmation succeeds only for the change that is agreed and live. */
  lemma RepeatedConfirmationIsTruthful(rules: Rules, s: System, token: string, now: int, read: bool,
                                       clear: ClearWeather)
    requires Consistent(rules, s)
    ensures ConfirmChange(s, token, now, read, clear).answer == Done ==>
              var after := ConfirmChange(s, token, now, read, clear).after;
              && after.memory.confirmed.Some? && after.memory.confirmed.value.token == token
              && after.device.live == after.device.agreed == after.memory.confirmed.value.proposed
  {
  }

  // ---------------------------------------------------------------------------
  // Two runs that lose them
  // ---------------------------------------------------------------------------

  /** Such a run: the client is told the change failed, yet a restart keeps the unconfirmed settings. */
  lemma LostRecordExample(rules: Rules, a: LanSettings, b: LanSettings, l: Listener)
    requires rules(a).None? && rules(b).None? && a.ipaddr == b.ipaddr && a != b
    ensures var start := System(Device(a, None, a), FreshMemory, l);
            var begun := Next(rules, start, Served(Begin(b, 0, true, true, Some("t"), Saved)));
            var before := Next(rules, begun, Served(Apply(Applied, Undo(Applied, Cleared))));
            var confirm := ConfirmChange(before, "t", 10, true, ClearFailed(true));
            && Consistent(rules, start) && Consistent(rules, before)
            && confirm.answer == Refused(ClearFailure)
            && var restarted := System(confirm.after.device, FreshMemory, l);
               var up := RecoverChange(rules, restarted, true, Applied, Cleared).after;
               up.device.live == b && up.device.agreed == a && up.memory.error.None?
  {
    var start := System(Device(a, None, a), FreshMemory, l);
    var begun := Next(rules, start, Served(Begin(b, 0, true, true, Some("t"), Saved)));
    var journal := Journal(a, b, "t");
    assert begun == System(Device(a, Some(journal), a), Memory(Some(Pending(journal, 120, false)), None, None), l);
  }

  /**
   And without any confirmation: at its deadline a change is undone, but the record's clear removes
   and fails; at the next look the undoing is tried again and fails with no record left. The
   recovery after a restart finds nothing wrong.
   */
  lemma LostByRollbackExample(rules: Rules, a: LanSettings, b: LanSettings, x: LanSettings, l: Listener)
    requires rules(a).None? && rules(b).None? && a.ipaddr == b.ipaddr && a != b && x != a
    ensures var start := System(Device(a, None, a), FreshMemory, l);
            var begun := Next(rules, start, Served(Begin(b, 0, true, true, Some("t"), Saved)));
            var tried := Next(rules, begun, Served(Apply(Applied, Undo(Applied, Cleared))));
            var orphan := Next(rules, tried, Served(Expire(120, Undo(Applied, ClearFailed(true)))));
            var late := Served(Expire(121, Undo(ApplyFailed(x), Cleared)));
            && Consistent(rules, start) && RecordGone(orphan) && Loses(orphan, late)
            && var restarted := System(Next(rules, orphan, late).device, FreshMemory, l);
               var up := RecoverChange(rules, restarted, true, Applied, Cleared).after;
               up.device == Device(x, None, a) && up.memory.error.None?
  {
    var start := System(Device(a, None, a), FreshMemory, l);
    var begun := Next(rules, start, Served(Begin(b, 0, true, true, Some("t"), Saved)));
    var journal := Journal(a, b, "t");
    assert begun == System(Device(a, Some(journal), a), Memory(Some(Pending(journal, 120, false)), None, None), l);
    var tried := Next(rules, begun, Served(Apply(Applied, Undo(Applied, Cleared))));
    assert tried.device == Device(b, Some(journal), a) && tried.memory.pending == Some(Pending(journal, 120, true));
    RollbackClearOnlyOrphans(rules, tried, 120, Undo(Applied, ClearFailed(true)));
    var orphan := Next(rules, tried, Served(Expire(120, Undo(Applied, ClearFailed(true)))));
    assert orphan.memory.pending == Some(Pending(journal, 120, true));
  }
}
