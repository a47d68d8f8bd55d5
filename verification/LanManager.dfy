/** The LAN manager's objects, updated step by step, proved against the protocol of `LanProtocol`. */
module LanManager {
  import opened Prelude
  import opened LanRules
  import opened LanProtocol

  /** The firmware settings and the recovery record, with the trail of every state power can be cut in. */
  class Backend {
    var live: LanSettings
    var journal: Option<Journal>
    ghost var agreed: LanSettings
    ghost var trail: seq<Device>

    constructor (live: LanSettings, journal: Option<Journal>, ghost agreed: LanSettings)
      ensures View() == Device(live, journal, agreed) && trail == []
    {
      this.live, this.journal, this.agreed := live, journal, agreed;
      trail := [];
    }

    ghost function View(): Device
      reads this
    {
      Device(live, journal, agreed)
    }

    method Apply(settings: LanSettings, w: ApplyWeather) returns (ok: bool)
      modifies this
      ensures ok == w.Applied? && View() == DeviceApply(old(View()), settings, w)
      ensures trail == old(trail) + [View()]
    {
      ok := w.Applied?;
      live := if ok then settings else w.leaves;
      trail := trail + [View()];
    }

    method Save(record: Journal, w: SaveWeather) returns (ok: bool)
      modifies this
      ensures ok == w.Saved? && View() == DeviceSave(old(View()), record, w)
      ensures trail == old(trail) + [View()]
    {
      ok := w.Saved?;
      if ok || w.written {
        journal := Some(record);
      }
      trail := trail + [View()];
    }

    /** Removes the record; `agreement` is what the removal makes the agreed settings. */
    method Clear(w: ClearWeather, ghost agreement: LanSettings) returns (ok: bool)
      modifies this
      ensures ok == ClearSucceeds(old(View()), w)
      ensures View() == DeviceClear(old(View()), w).(agreed := if ok then agreement else old(agreed))
      ensures trail == old(trail) + [View()]
    {
      ok := w.Cleared? && journal.Some?;
      if w.Cleared? || w.removed {
        journal := None;
      }
      if ok {
        agreed := agreement;
      }
      trail := trail + [View()];
    }
  }

  /** The address the agent listens on; an explicit override is never moved. */
  class Binding {
    var address: string
    var generation: nat
    const fixed: bool

    constructor (address: string, fixed: bool)
      ensures View() == Listener(address, 0, fixed)
    {
      this.address, this.generation, this.fixed := address, 0, fixed;
    }

    function View(): Listener
      reads this
    {
      Listener(address, generation, fixed)
    }

    method Set(ip: string)
      modifies this
      ensures View() == Rebind(old(View()), ip)
    {
      if fixed {
        return;
      }
      var desired := ip + ":9090";
      if address != desired {
        address := desired;
        generation := generation + 1;
      }
    }
  }

  class Manager {
    const backend: Backend
    const binding: Binding
    const rules: Rules
    var pending: Option<Pending>
    var confirmed: Option<Journal>
    var error: Option<LanError>

    constructor (backend: Backend, binding: Binding)
      ensures this.backend == backend && this.binding == binding && rules == Validate
      ensures View() == System(backend.View(), FreshMemory, binding.View())
    {
      this.backend, this.binding, rules := backend, binding, Validate;
      pending, confirmed, error := None, None, None;
    }

    ghost function View(): System
      reads this, backend, binding
    {
      System(backend.View(), Memory(pending, confirmed, error), binding.View())
    }

    /** What an operation promises: the protocol's next state, its answer and its device writes. */
    twostate predicate Performs(outcome: Outcome, answer: Answer)
      reads this, backend, binding
    {
      && View() == outcome.after && answer == outcome.answer
      && backend.trail == old(backend.trail) + outcome.trail
    }

    method RollbackLocked(w: Undo)
      modifies this, backend, binding
      ensures Performs(RollBack(old(View()), w), Done)
    {
      if pending.None? {
        return;
      }
      var previous := pending.value.journal.previous;
      var restored := backend.Apply(previous, w.apply);
      if restored {
        binding.Set(previous.ipaddr);
        var cleared := backend.Clear(w.clear, backend.agreed);
        if cleared {
          pending := None;
        } else {
          error := Some(RecordNotCleared);
        }
      } else {
        error := Some(RestorationFailed);
      }
    }

    method Begin(proposed: LanSettings, now: int, load: bool, read: bool, token: Option<string>,
                 save: SaveWeather) returns (answer: Answer)
      modifies this, backend
      ensures Performs(BeginChange(rules, old(View()), proposed, now, load, read, token, save), answer)
    {
      if pending.Some? {
        return Refused(ChangePending);
      }
      if !load {
        return Refused(LoadFailed);
      }
      if backend.journal.Some? {
        return Refused(ChangePending);
      }
      var problem := rules(proposed);
      if problem.Some? {
        return Refused(InvalidSettings(problem.value));
      }
      if !read {
        return Refused(ReadFailed);
      }
      var previous := backend.live;
      problem := rules(previous);
      if problem.Some? {
        return Refused(InvalidSettings(problem.value));
      }
      if previous == proposed {
        return Unchanged;
      }
      if binding.fixed && previous.ipaddr != proposed.ipaddr {
        return Refused(FixedBinding);
      }
      if token.None? {
        return Refused(NoToken);
      }
      var record := Journal(previous, proposed, token.value);
      var saved := backend.Save(record, save);
      if !saved {
        return Refused(SaveFailure);
      }
      confirmed := None;
      pending := Some(Pending(record, now + CONFIRM_SECONDS, false));
      return Started(token.value);
    }

    method ApplyPending(apply: ApplyWeather, undo: Undo)
      modifies this, backend, binding
      ensures Performs(ApplyChange(old(View()), apply, undo), Done)
    {
      if pending.None? {
        return;
      }
      var change := pending.value;
      var applied := backend.Apply(change.journal.proposed, apply);
      if applied {
        binding.Set(change.journal.proposed.ipaddr);
        pending := Some(change.(applied := true));
      } else {
        error := Some(ApplyFailure);
        RollbackLocked(undo);
      }
    }

    method Expire(now: int, undo: Undo) returns (waiting: bool)
      modifies this, backend, binding
      ensures Performs(ExpireChange(old(View()), now, undo), Done)
      ensures waiting <==> old(pending).Some? && now < old(pending).value.deadline
    {
      if pending.None? {
        return false;
      }
      if now >= pending.value.deadline {
        error := Some(NotConfirmedInTime);
        RollbackLocked(undo);
        return false;
      }
      return true;
    }

    method Confirm(token: string, now: int, read: bool, clear: ClearWeather) returns (answer: Answer)
      modifies this, backend
      ensures Performs(ConfirmChange(old(View()), token, now, read, clear), answer)
    {
      if pending.None? {
        if confirmed.Some? && token == confirmed.value.token {
          if !read {
            return Refused(ReadFailed);
          }
          if backend.live == confirmed.value.proposed {
            return Done;
          }
        }
        return Refused(NothingPending);
      }
      var change := pending.value;
      if !change.applied || now >= change.deadline || token != change.journal.token {
        return Refused(ConfirmationInvalid);
      }
      if !read {
        return Refused(ReadFailed);
      }
      if backend.live != change.journal.proposed {
        return Refused(SettingsMismatch);
      }
      var cleared := backend.Clear(clear, change.journal.proposed);
      if !cleared {
        return Refused(ClearFailure);
      }
      confirmed := Some(change.journal);
      pending := None;
      error := None;
      return Done;
    }

    method Recover(load: bool, apply: ApplyWeather, clear: ClearWeather)
      modifies this, backend, binding
      ensures Performs(RecoverChange(rules, old(View()), load, apply, clear), Done)
    {
      var failure: Option<LanError> := None;
      if !load {
        failure := Some(LoadFailed);
      } else if backend.journal.Some? {
        var previous := backend.journal.value.previous;
        var problem := rules(previous);
        if problem.Some? {
          failure := Some(InvalidSettings(problem.value));
        } else {
          var restored := backend.Apply(previous, apply);
          if !restored {
            failure := Some(ApplyFailure);
          } else {
            binding.Set(previous.ipaddr);
            var cleared := backend.Clear(clear, backend.agreed);
            failure := if cleared then None else Some(ClearFailure);
          }
        }
      }
      if failure.None? {
        pending := None;
      }
      error := failure;
    }
  }
}
