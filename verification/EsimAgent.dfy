/**
 The agent's side of an eSIM change: reads, admission, the helper's answer and the read-back
 (`agent/src/esim.rs`).
 */
module EsimAgent {
  import opened Prelude
  import C = EsimCard
  import H = EsimHelper
  import Q = EsimQueue

  datatype Kind = Enable | Disable | Delete | Nickname | Download

  datatype OpState =
    | Pending | Reloading | Verifying | Connecting | AwaitingConfirmation | Installing
    | Succeeded | Busy | Refused | Failed | Unknown | Cancelled

  predicate Resolved(s: OpState) {
    s in {Succeeded, Busy, Refused, Failed, Unknown, Cancelled}
  }

  /** Profiles are named by their ICCIDs here: the agent's handles stand for them one to one. */
  datatype Operation = Operation(id: string, kind: Kind, target: string, previous: Option<string>, state: OpState,
                                 receiptsBefore: seq<nat>, profilesBefore: seq<string>, nickname: Option<string>)

  datatype Inventory = Inventory(eid: string, profiles: seq<C.Profile>, receipts: seq<nat>)

  datatype Status = Unread | Ready | Unsupported | Unavailable | HelperMissing

  /** The agent's memory, and the operation its journal holds. */
  datatype Agent = Agent(operation: Option<Operation>, inventory: Option<Inventory>, revision: nat,
                         card: Option<string>,
                         status: Status, locked: set<string>, receipts: seq<nat>, journal: Option<Operation>)

  predicate InProgress(a: Agent) {
    a.operation.Some? && !Resolved(a.operation.value.state)
  }

  // ---------------------------------------------------------------------------
  // Reading the card
  // ---------------------------------------------------------------------------

  /** What a read of the card comes to. `NoIsdr`: the SIM has no eSIM management application, or is reloading. */
  datatype Outcome = Read(card: C.Card) | Unreadable | LockBusy | NoIsdr | NoAnswer | Missing

  /** A read, whether the modem calls the SIM ready, and whether a change finished a moment ago. */
  datatype Reading = Reading(outcome: Outcome, simReady: bool, recent: bool)

  datatype ReadError = ReadFailed | CardBusy | SimReloading | NotSupported | ManagementUnavailable | NoHelper

  function InventoryOf(card: C.Card): Inventory {
    Inventory(card.eid, card.profiles, card.receipts)
  }

  predicate SameContent(a: Inventory, b: Inventory) {
    a.eid == b.eid && a.profiles == b.profiles
  }

  function AfterRead(a: Agent, card: C.Card): Agent {
    var inventory := InventoryOf(card);
    var changed := a.inventory.None? || !SameContent(a.inventory.value, inventory);
    a.(inventory := Some(inventory),
       revision := if changed then a.revision + 1 else a.revision,
       card := Some(card.eid),
       receipts := if a.card != Some(card.eid) then [] else a.receipts,
       status := Ready)
  }

  predicate IsReloading(a: Agent, r: Reading) {
    a.card.Some? && (InProgress(a) || r.recent || !r.simReady)
  }

  function Absorbed(a: Agent, r: Reading): Agent {
    match r.outcome
    case Read(card) => AfterRead(a, card)
    case NoIsdr =>
      if IsReloading(a, r) then a
      else a.(status := Unsupported, inventory := None,
              revision := if a.inventory.Some? then a.revision + 1 else a.revision)
    case NoAnswer => if a.card.Some? then a else a.(status := Unavailable)
    case Missing => a.(status := HelperMissing)
    case Unreadable => a
    case LockBusy => a
  }

  function ReadErrorOf(a: Agent, r: Reading): Option<ReadError> {
    match r.outcome
    case Read(_) => None
    case NoIsdr => Some(if IsReloading(a, r) then SimReloading else NotSupported)
    case NoAnswer => Some(ManagementUnavailable)
    case Missing => Some(NoHelper)
    case Unreadable => Some(ReadFailed)
    case LockBusy => Some(CardBusy)
  }

  // ---------------------------------------------------------------------------
  // Admission
  // ---------------------------------------------------------------------------

  datatype Denial = Repeated | IdInUse | StillBusy | HelperGone | NotRead | Stale | NoSuchProfile | NotOperational
                  | NotInactive | NotActive | ProfileLocked

  function FirstEnabled(profiles: seq<C.Profile>): Option<string> {
    var enabled := C.EnabledOnes(profiles);
    if enabled == [] then None else Some(enabled[0])
  }

  /** What speaks against a change of `target`, in the order it is checked. */
  function TargetDenial(kind: Kind, target: C.Profile, locked: set<string>): Option<Denial> {
    match kind
    case Enable =>
      if !target.operational then Some(NotOperational)
      else if target.standing != C.Disabled then Some(NotInactive)
      else if target.iccid in locked then Some(ProfileLocked)
      else None
    case Disable => if target.standing != C.Enabled then Some(NotActive) else None
    case Delete =>
      if target.iccid in locked then Some(ProfileLocked)
      else if target.standing != C.Disabled then Some(NotInactive)
      else None
    case Nickname => None
    case Download => None
  }

  function Denied(a: Agent, id: string, kind: Kind, target: string, revision: nat): Option<Denial> {
    if a.operation.Some? && a.operation.value.id == id then
      Some(if a.operation.value.kind == kind && a.operation.value.target == target then Repeated else IdInUse)
    else if InProgress(a) then Some(StillBusy)
    else if a.status == HelperMissing then Some(HelperGone)
    else if a.inventory.None? then Some(NotRead)
    else if revision != a.revision then Some(Stale)
    else
      var p := C.Lookup(a.inventory.value.profiles, target);
      if p.None? then Some(NoSuchProfile) else TargetDenial(kind, p.value, a.locked)
  }

  function NewOperation(a: Agent, id: string, kind: Kind, target: string): Operation
    requires a.inventory.Some?
  {
    var inventory := a.inventory.value;
    Operation(id, kind, target,
              if kind == Enable || kind == Disable then FirstEnabled(inventory.profiles) else None,
              Pending, inventory.receipts, [], None)
  }

  // ---------------------------------------------------------------------------
  // Settling
  // ---------------------------------------------------------------------------

  function WithState(a: Agent, state: OpState): Agent {
    if a.operation.None? then a else a.(operation := Some(a.operation.value.(state := state)))
  }

  /** The verdict, and the journal's removal, which may fail. */
  function Finished(a: Agent, state: OpState, clears: bool): Agent {
    var decided := WithState(a, state);
    if clears then decided.(journal := None) else decided
  }

  /** Receipts on the card that were not there when the operation began. */
  function NewReceipts(a: Agent): seq<nat> {
    if a.operation.None? || a.inventory.None? then []
    else Newer(a.inventory.value.receipts, a.operation.value.receiptsBefore)
  }

  function Newer(receipts: seq<nat>, before: seq<nat>): seq<nat> {
    if receipts == [] then []
    else (if receipts[0] in before then [] else [receipts[0]]) + Newer(receipts[1..], before)
  }

  function Queued(a: Agent, numbers: seq<nat>): Agent {
    a.(receipts := Q.Queued(a.receipts, numbers))
  }

  function TargetShown(a: Agent): Option<C.Profile> {
    if a.operation.None? || a.inventory.None? then None
    else C.Lookup(a.inventory.value.profiles, a.operation.value.target)
  }

  predicate Done(kind: Kind, target: Option<C.Profile>) {
    match kind
    case Enable => target.Some? && target.value.standing == C.Enabled
    case Delete => target.None?
    case _ => target.Some? && target.value.standing == C.Disabled
  }

  /** What a successful read decides, if anything. */
  function Decided(kind: Kind, accepted: bool, target: Option<C.Profile>): Option<OpState> {
    if Done(kind, target) then Some(Succeeded)
    else if target.Some? && !accepted then Some(Failed)
    else if target.None? then Some(Unknown)
    else None
  }

  /** Reads the card back until a read decides or the window closes with the last one. */
  function Verified(a: Agent, kind: Kind, accepted: bool, readings: seq<Reading>, clears: bool): Agent
    decreases |readings|
  {
    if readings == [] then Finished(a, Unknown, clears)
    else
      var next, error := Absorbed(a, readings[0]), ReadErrorOf(a, readings[0]);
      if error.None? then
        var verdict := Decided(kind, accepted, TargetShown(next));
        if verdict == Some(Succeeded) then Queued(Finished(next, Succeeded, clears), NewReceipts(next))
        else if verdict.Some? then Finished(next, verdict.value, clears)
        else Verified(next, kind, accepted, readings[1..], clears)
      else
        var waiting := kind != Delete && error.value in {SimReloading, ManagementUnavailable, CardBusy};
        Verified(if waiting then WithState(next, if accepted then Reloading else Verifying) else next,
                 kind, accepted, readings[1..], clears)
  }

  /** What the agent makes of the helper's run: its answer, or none that can be read. */
  datatype Ran = Answered(answer: Result<seq<nat>, H.Failure>) | HelperBusy | Killed | Garbled | NotThere

  /**
   Readings after the answer, the one a stale selection or a nickname is followed by, and whether the
   journal can be removed.
   */
  datatype Weather = Weather(readings: seq<Reading>, refresh: Reading, clears: bool)

  function Switched(a: Agent, kind: Kind, ran: Ran, w: Weather): Agent {
    match ran
    case Answered(Ok(_)) =>
      Verified(WithState(a, if kind == Delete then Verifying else Reloading), kind, true, w.readings, w.clears)
    case Answered(Err(failure)) => (
      match failure
      case Refused(code) => Finished(a, if kind != Delete && code == 5 then Busy else Refused, w.clears)
      case StateChanged | CardChanged => Absorbed(Finished(a, Refused, w.clears), w.refresh)
      case OutcomeUnknown => Verified(WithState(a, Verifying), kind, false, w.readings, w.clears)
      case InvalidRequest => Finished(a.(status := HelperMissing), Failed, w.clears)
      case Faulty(_) => Finished(a, Failed, w.clears))
    case HelperBusy => Finished(a, Failed, w.clears)
    case Killed | Garbled => Verified(WithState(a, Verifying), kind, false, w.readings, w.clears)
    case NotThere => Finished(a.(status := HelperMissing), Failed, w.clears)
  }

  /** A rename is neither journalled nor read back: the answer decides, and one that cannot be read is a failure. */
  function RenameState(ran: Ran): OpState {
    match ran
    case Answered(Ok(_)) => Succeeded
    case Answered(Err(failure)) => (
      match failure
      case OutcomeUnknown => Unknown
      case Refused(_) => OpState.Refused
      case StateChanged | CardChanged => OpState.Refused
      case InvalidRequest => Failed
      case Faulty(_) => Failed)
    case Killed => Unknown
    case HelperBusy | Garbled | NotThere => Failed
  }

  function Renamed(a: Agent, ran: Ran, refresh: Reading): Agent {
    Absorbed(WithState(a, RenameState(ran)), refresh)
  }

  // -- downloads

  datatype DownloadEnd = Installed | DownloadCancelled | DownloadFailed | DownloadUnknown | DownloadNotStarted

  /** `before`: the receipts the helper found on the card when it began, if it says. */
  datatype DownloadRan =
    | Ended(end: DownloadEnd, before: Option<seq<nat>>)
    | DownloadHelperBusy | DownloadKilled | DownloadGarbled | DownloadNotThere

  /** A request handed to the helper; reads are not among them. */
  datatype Request =
    | WriteRequest(write: C.Write, expectEid: string, expectEnabled: Option<string>)
    | DownloadRequest(expectEid: string)

  /** The first profile that was not there when the download began. */
  function NewProfile(profiles: seq<C.Profile>, before: seq<string>): Option<string> {
    if profiles == [] then None
    else if profiles[0].iccid !in before then Some(profiles[0].iccid)
    else NewProfile(profiles[1..], before)
  }

  /** The profile found becomes the operation's target; the nickname asked for is used up. */
  function WithTarget(a: Agent, target: string): Agent {
    if a.operation.None? then a else a.(operation := Some(a.operation.value.(target := target, nickname := None)))
  }

  function WithReceiptsBefore(a: Agent, before: Option<seq<nat>>): Agent {
    if a.operation.None? || before.None? then a
    else a.(operation := Some(a.operation.value.(receiptsBefore := before.value)))
  }

  /** The nickname to write on the profile found. */
  function NicknameOf(a: Agent): Option<string> {
    if a.operation.Some? && a.operation.value.nickname.Some? && a.operation.value.nickname.value != ""
    then a.operation.value.nickname else None
  }

  /** A found profile is named, which a read follows, and the download has succeeded. */
  function Installs(a: Agent, found: string, refresh: Reading, clears: bool): Agent {
    var named := WithTarget(a, found);
    var read := if NicknameOf(a).Some? then Absorbed(named, refresh) else named;
    Queued(Finished(read, Succeeded, clears), NewReceipts(read))
  }

  function Found(a: Agent): Option<string> {
    if a.operation.None? || a.inventory.None? then None
    else NewProfile(a.inventory.value.profiles, a.operation.value.profilesBefore)
  }

  /** Reads the card back after a download; `reported`: the helper said the profile is installed. */
  function Settled(a: Agent, reported: bool, readings: seq<Reading>, refresh: Reading, clears: bool): Agent
    decreases |readings|
  {
    if readings == [] then Finished(a, Unknown, clears)
    else
      var next := Absorbed(a, readings[0]);
      if !readings[0].outcome.Read? then Settled(next, reported, readings[1..], refresh, clears)
      else if next.operation.None? then next
      else if Found(next).Some? then Installs(next, Found(next).value, refresh, clears)
      else if !reported then Finished(next, Failed, clears)
      else Settled(next, reported, readings[1..], refresh, clears)
  }

  /** The nickname request that settling a download sends, if any. */
  function Namings(a: Agent, reported: bool, readings: seq<Reading>): seq<Request>
    decreases |readings|
  {
    if readings == [] then []
    else
      var next := Absorbed(a, readings[0]);
      if !readings[0].outcome.Read? then Namings(next, reported, readings[1..])
      else if next.operation.None? || next.inventory.None? then []
      else if Found(next).Some? then
        if NicknameOf(next).None? then []
        else [WriteRequest(C.Rename(Found(next).value, NicknameOf(next).value), next.inventory.value.eid, None)]
      else if !reported then []
      else Namings(next, reported, readings[1..])
  }

  function DownloadSettled(a: Agent, ran: DownloadRan, w: Weather): Agent {
    match ran
    case Ended(end, before) => (
      var told := WithReceiptsBefore(a, before);
      match end
      case Installed => Settled(WithState(told, Verifying), true, w.readings, w.refresh, w.clears)
      case DownloadCancelled => Finished(told, Cancelled, w.clears)
      case DownloadFailed => Queued(Finished(told, Failed, w.clears), NewReceipts(told))
      case DownloadUnknown => Settled(told, false, w.readings, w.refresh, w.clears)
      case DownloadNotStarted => Finished(told, Failed, w.clears))
    case DownloadHelperBusy => Finished(a, Failed, w.clears)
    case DownloadKilled | DownloadGarbled => Settled(a, false, w.readings, w.refresh, w.clears)
    case DownloadNotThere => Finished(a.(status := HelperMissing), Failed, w.clears)
  }

  function DownloadNamings(a: Agent, ran: DownloadRan, w: Weather): seq<Request> {
    match ran
    case Ended(Installed, before) => Namings(WithState(WithReceiptsBefore(a, before), Verifying), true, w.readings)
    case Ended(DownloadUnknown, before) => Namings(WithReceiptsBefore(a, before), false, w.readings)
    case DownloadKilled | DownloadGarbled => Namings(a, false, w.readings)
    case _ => []
  }

  // ---------------------------------------------------------------------------
  // Recovery
  // ---------------------------------------------------------------------------

  /** The operation that was in flight, as it is taken up again. */
  function Resumed(a: Agent): Agent
    requires a.journal.Some?
  {
    a.(operation := Some(a.journal.value.(state := Verifying, nickname := None)))
  }

  /** An operation that was in flight at a restart is read back; nothing is sent again. */
  function Recovered(a: Agent, w: Weather): Agent {
    if a.journal.None? then a
    else
      var op := a.journal.value;
      if op.target == "" && op.kind != Download then (if w.clears then a.(journal := None) else a)
      else
        if op.kind == Download then Settled(Resumed(a), false, w.readings, w.refresh, w.clears)
        else Verified(Resumed(a), op.kind, false, w.readings, w.clears)
  }

  const FRESH := Agent(None, None, 0, None, Unread, {}, [], None)

  // ---------------------------------------------------------------------------
  // The manager
  // ---------------------------------------------------------------------------

  class Manager {
    var operation: Option<Operation>
    var inventory: Option<Inventory>
    var revision: nat
    var card: Option<string>
    var status: Status
    var locked: set<string>
    var receipts: seq<nat>
    var journal: Option<Operation>
    /** What was handed to the helper to change the card. */
    var requests: seq<Request>

    constructor (journal: Option<Operation>)
      ensures View() == FRESH.(journal := journal) && requests == []
    {
      operation, inventory, revision, card, status := None, None, 0, None, Unread;
      locked, receipts, requests := {}, [], [];
      this.journal := journal;
    }

    ghost function View(): Agent
      reads this
    {
      Agent(operation, inventory, revision, card, status, locked, receipts, journal)
    }

    method AbsorbRead(r: Reading) returns (error: Option<ReadError>)
      modifies this
      ensures View() == Absorbed(old(View()), r) && error == old(ReadErrorOf(View(), r))
      ensures requests == old(requests)
    {
      match r.outcome
      case Read(c) =>
        var read := InventoryOf(c);
        if inventory.None? || inventory.value.eid != read.eid || inventory.value.profiles != read.profiles {
          revision := revision + 1;
        }
        if card != Some(c.eid) {
          card := Some(c.eid);
          receipts := [];
        }
        inventory, status := Some(read), Ready;
        return None;
      case NoIsdr =>
        var inChange := (operation.Some? && !Resolved(operation.value.state)) || r.recent;
        if card.Some? && (inChange || !r.simReady) {
          return Some(SimReloading);
        }
        status := Unsupported;
        if inventory.Some? {
          inventory := None;
          revision := revision + 1;
        }
        return Some(NotSupported);
      case NoAnswer =>
        if card.None? {
          status := Unavailable;
        }
        return Some(ManagementUnavailable);
      case Missing =>
        status := HelperMissing;
        return Some(NoHelper);
      case Unreadable =>
        return Some(ReadFailed);
      case LockBusy =>
        return Some(CardBusy);
    }

    /** Admits a change, or says why not; the operation is claimed with the checks. */
    method Admit(id: string, kind: Kind, target: string, seen: nat) returns (denial: Option<Denial>)
      modifies this`operation
      ensures denial == Denied(old(View()), id, kind, target, seen)
      ensures View() == if denial.Some? then old(View())
                        else old(View()).(operation := Some(NewOperation(old(View()), id, kind, target)))
    {
      if operation.Some? && operation.value.id == id {
        return Some(if operation.value.kind == kind && operation.value.target == target then Repeated else IdInUse);
      }
      if operation.Some? && !Resolved(operation.value.state) {
        return Some(StillBusy);
      }
      if status == HelperMissing {
        return Some(HelperGone);
      }
      if inventory.None? {
        return Some(NotRead);
      }
      if seen != revision {
        return Some(Stale);
      }
      var profiles := inventory.value.profiles;
      var p := C.Lookup(profiles, target);
      if p.None? {
        return Some(NoSuchProfile);
      }
      denial := TargetDenial(kind, p.value, locked);
      if denial.Some? {
        return;
      }
      var previous := if kind == Enable || kind == Disable then FirstEnabled(profiles) else None;
      operation := Some(Operation(id, kind, target, previous, Pending, inventory.value.receipts, [], None));
    }

    method SetOp(state: OpState)
      modifies this`operation
      ensures View() == WithState(old(View()), state)
    {
      if operation.Some? {
        operation := Some(operation.value.(state := state));
      }
    }

    method Finish(state: OpState, clears: bool)
      modifies this`operation, this`journal
      ensures View() == Finished(old(View()), state, clears)
    {
      SetOp(state);
      if clears {
        journal := None;
      }
    }

    method Enqueue(numbers: seq<nat>)
      modifies this`receipts
      ensures View() == Queued(old(View()), numbers)
    {
      var i := 0;
      while i < |numbers|
        invariant i <= |numbers|
        invariant Q.Queued(receipts, numbers[i..]) == Q.Queued(old(receipts), numbers)
      {
        if numbers[i] !in receipts {
          receipts := receipts + [numbers[i]];
        }
        i := i + 1;
      }
    }

    /** Reads the card back; sends nothing. */
    method Verify(kind: Kind, accepted: bool, readings: seq<Reading>, clears: bool)
      modifies this
      ensures View() == Verified(old(View()), kind, accepted, readings, clears)
      ensures requests == old(requests)
    {
      var i := 0;
      while i < |readings|
        invariant i <= |readings| && requests == old(requests)
        invariant Verified(View(), kind, accepted, readings[i..], clears)
               == Verified(old(View()), kind, accepted, readings, clears)
      {
        var error := AbsorbRead(readings[i]);
        i := i + 1;
        if error.None? {
          var target := if operation.None? || inventory.None? then None
                        else C.Lookup(inventory.value.profiles, operation.value.target);
          var newer := if operation.None? || inventory.None? then []
                        else Newer(inventory.value.receipts, operation.value.receiptsBefore);
          if Done(kind, target) {
            Finish(Succeeded, clears);
            Enqueue(newer);
            return;
          }
          if target.Some? && !accepted {
            Finish(Failed, clears);
            return;
          }
          if target.None? {
            Finish(Unknown, clears);
            return;
          }
        } else if kind != Delete && error.value in {SimReloading, ManagementUnavailable, CardBusy} {
          SetOp(if accepted then Reloading else Verifying);
        }
      }
      Finish(Unknown, clears);
    }

    /** What the helper's refusals and failures come to. */
    method AfterFailure(kind: Kind, failure: H.Failure, w: Weather)
      modifies this
      ensures View() == Switched(old(View()), kind, Answered(Err(failure)), w)
      ensures requests == old(requests)
    {
      match failure
      case Refused(code) =>
        Finish(if kind != Delete && code == 5 then Busy else Refused, w.clears);
      case StateChanged | CardChanged =>
        Finish(Refused, w.clears);
        var _ := AbsorbRead(w.refresh);
      case OutcomeUnknown =>
        SetOp(Verifying);
        Verify(kind, false, w.readings, w.clears);
      case InvalidRequest =>
        status := HelperMissing;
        Finish(Failed, w.clears);
      case Faulty(_) =>
        Finish(Failed, w.clears);
    }

    /** Hands the one request to the helper and settles its outcome. */
    method RunSwitch(kind: Kind, request: Request, ran: Ran, w: Weather)
      modifies this
      ensures View() == Switched(old(View()), kind, ran, w)
      ensures requests == old(requests) + [request]
    {
      requests := requests + [request];
      match ran
      case Answered(Ok(_)) =>
        SetOp(if kind == Delete then Verifying else Reloading);
        Verify(kind, true, w.readings, w.clears);
      case Answered(Err(failure)) =>
        AfterFailure(kind, failure, w);
      case HelperBusy =>
        Finish(Failed, w.clears);
      case Killed | Garbled =>
        SetOp(Verifying);
        Verify(kind, false, w.readings, w.clears);
      case NotThere =>
        status := HelperMissing;
        Finish(Failed, w.clears);
    }

    /** Hands the nickname request to the helper; a read follows. */
    method RunNickname(request: Request, ran: Ran, refresh: Reading)
      modifies this
      ensures View() == Renamed(old(View()), ran, refresh)
      ensures requests == old(requests) + [request]
    {
      requests := requests + [request];
      var state := OpState.Failed;
      match ran {
        case Answered(Ok(_)) => state := Succeeded;
        case Answered(Err(failure)) =>
          if failure == H.OutcomeUnknown {
            state := Unknown;
          } else if failure.Refused? || failure == H.StateChanged || failure == H.CardChanged {
            state := OpState.Refused;
          }
        case Killed => state := Unknown;
        case HelperBusy | Garbled | NotThere =>
      }
      SetOp(state);
      var _ := AbsorbRead(refresh);
    }

    /** Takes the found profile as the target, and writes the nickname asked for. */
    method InstallFound(found: string, refresh: Reading, clears: bool)
      requires operation.Some? && inventory.Some?
      modifies this
      ensures View() == Installs(old(View()), found, refresh, clears)
      ensures requests == old(requests) +
                (if NicknameOf(old(View())).None? then []
                 else [WriteRequest(C.Rename(found, NicknameOf(old(View())).value), old(inventory.value.eid), None)])
    {
      var name := operation.value.nickname;
      operation := Some(operation.value.(target := found, nickname := None));
      if name.Some? && name.value != "" {
        requests := requests + [WriteRequest(C.Rename(found, name.value), inventory.value.eid, None)];
        var _ := AbsorbRead(refresh);
      }
      Finish(Succeeded, clears);
      if inventory.Some? {
        Enqueue(Newer(inventory.value.receipts, operation.value.receiptsBefore));
      }
    }

    /** Reads the card back after a download; at most a nickname is sent. */
    method SettleDownload(reported: bool, readings: seq<Reading>, refresh: Reading, clears: bool)
      modifies this
      ensures View() == Settled(old(View()), reported, readings, refresh, clears)
      ensures requests == old(requests) + Namings(old(View()), reported, readings)
    {
      var i := 0;
      while i < |readings|
        invariant i <= |readings|
        invariant Settled(View(), reported, readings[i..], refresh, clears)
               == Settled(old(View()), reported, readings, refresh, clears)
        invariant requests == old(requests)
        invariant Namings(View(), reported, readings[i..]) == Namings(old(View()), reported, readings)
      {
        var error := AbsorbRead(readings[i]);
        i := i + 1;
        if error.None? {
          if operation.None? || inventory.None? {
            return;
          }
          var found := NewProfile(inventory.value.profiles, operation.value.profilesBefore);
          if found.Some? {
            InstallFound(found.value, refresh, clears);
            return;
          }
          if !reported {
            Finish(Failed, clears);
            return;
          }
        }
      }
      Finish(Unknown, clears);
    }

    /** What the ending that the helper reports comes to. */
    method AfterDownload(end: DownloadEnd, before: Option<seq<nat>>, w: Weather)
      modifies this
      ensures View() == DownloadSettled(old(View()), Ended(end, before), w)
      ensures requests == old(requests) + DownloadNamings(old(View()), Ended(end, before), w)
    {
      if operation.Some? && before.Some? {
        operation := Some(operation.value.(receiptsBefore := before.value));
      }
      match end
      case Installed =>
        SetOp(Verifying);
        SettleDownload(true, w.readings, w.refresh, w.clears);
      case DownloadCancelled =>
        Finish(Cancelled, w.clears);
      case DownloadFailed =>
        var newer := if operation.None? || inventory.None? then []
                     else Newer(inventory.value.receipts, operation.value.receiptsBefore);
        Finish(Failed, w.clears);
        Enqueue(newer);
      case DownloadUnknown =>
        SettleDownload(false, w.readings, w.refresh, w.clears);
      case DownloadNotStarted =>
        Finish(Failed, w.clears);
    }

    /** Hands the one download request to the helper and settles its outcome. */
    method RunDownload(request: Request, ran: DownloadRan, w: Weather)
      modifies this
      ensures View() == DownloadSettled(old(View()), ran, w)
      ensures requests == old(requests) + [request] + DownloadNamings(old(View()), ran, w)
    {
      requests := requests + [request];
      match ran
      case Ended(end, before) =>
        AfterDownload(end, before, w);
      case DownloadHelperBusy =>
        Finish(Failed, w.clears);
      case DownloadKilled | DownloadGarbled =>
        SettleDownload(false, w.readings, w.refresh, w.clears);
      case DownloadNotThere =>
        status := HelperMissing;
        Finish(Failed, w.clears);
    }

    /** After a restart: reads back what the journal says was in flight. */
    method Recover(w: Weather)
      modifies this
      ensures View() == Recovered(old(View()), w)
      ensures requests == old(requests)
    {
      if journal.None? {
        return;
      }
      var op := journal.value;
      if op.target == "" && op.kind != Download {
        if w.clears {
          journal := None;
        }
        return;
      }
      operation := Some(op.(state := Verifying, nickname := None));
      if op.kind == Download {
        NamelessSendsNothing(View(), false, w.readings);
        SettleDownload(false, w.readings, w.refresh, w.clears);
      } else {
        Verify(op.kind, false, w.readings, w.clears);
      }
    }
  }

  /** Settling a download sends at most one request, a nickname; without one asked for it sends none. */
  lemma {:induction false} NamelessSendsNothing(a: Agent, reported: bool, readings: seq<Reading>)
    ensures |Namings(a, reported, readings)| <= 1
    ensures forall r :: r in Namings(a, reported, readings) ==> r.WriteRequest? && r.write.Rename?
    ensures NicknameOf(a).None? ==> Namings(a, reported, readings) == []
    decreases |readings|
  {
    if readings != [] {
      NamelessSendsNothing(Absorbed(a, readings[0]), reported, readings[1..]);
    }
  }
}
