/**
 One profile download: its steps, its control channel and what ends the card session
 (`esim-helper/src/download.rs`).
 */
module EsimDownload {
  import opened Prelude
  import G = Guard

  datatype Ctl = Accept | Decline | Cancel | PreviewTimeout

  /** SGP.22 section 5.7.14. */
  datatype Reason = EndUserRejection | Postponed | Timeout | LoadBppExecutionError | Undefined

  datatype Ending = Cancelled | Failed | Unknown

  /** Why a download stopped; `reason` is what to cancel the card session with. */
  datatype Stop = Stop(reason: Option<Reason>, notifyServer: bool, ending: Ending)

  datatype CardFault = NoAnswer | BadAnswer

  datatype ServerFault = Unreachable | Reported | Misread

  function Halt(reason: Option<Reason>): Stop {
    Stop(reason, true, Failed)
  }

  function CardStop(fault: CardFault): Stop {
    Halt(Some(if fault.NoAnswer? then Timeout else Undefined))
  }

  /** A server that reported the failure has ended the procedure itself. */
  function ServerStop(fault: ServerFault): Stop {
    match fault
    case Unreachable => Halt(Some(Timeout))
    case Reported => Halt(Some(Undefined)).(notifyServer := false)
    case Misread => Halt(Some(Undefined))
  }

  function UserStop(ctl: Ctl): Stop {
    var reason := match ctl
      case Decline => EndUserRejection
      case PreviewTimeout => Timeout
      case Cancel => Postponed
      case Accept => Postponed;
    Halt(Some(reason)).(ending := Cancelled)
  }

  // ---------------------------------------------------------------------------
  // The control channel
  // ---------------------------------------------------------------------------

  /** What a check for a cancellation meets: the stop signal, and the messages that arrived since the last one. */
  datatype Check = Check(stopped: bool, arrived: seq<Ctl>)

  /** What is left of the messages after looking for a Cancel; others on the way are dropped. */
  function Drained(queue: seq<Ctl>): seq<Ctl> {
    if queue == [] then [] else if queue[0] == Cancel then queue[1..] else Drained(queue[1..])
  }

  predicate IsCancelled(check: Check, queue: seq<Ctl>) {
    check.stopped || Cancel in queue + check.arrived
  }

  function QueueAfter(check: Check, queue: seq<Ctl>): seq<Ctl> {
    if check.stopped then queue + check.arrived else Drained(queue + check.arrived)
  }

  /** One wait for the decision at the preview; `gone` is the agent's end of the channel closed. */
  datatype Moment = Moment(stopped: bool, timeUp: bool, arrived: seq<Ctl>, gone: bool)

  function Decision(moments: seq<Moment>, queue: seq<Ctl>): Ctl
    decreases |moments|
  {
    if moments == [] then PreviewTimeout
    else
      var m := moments[0];
      var waiting := queue + m.arrived;
      if m.stopped then Cancel
      else if m.timeUp then PreviewTimeout
      else if waiting != [] then waiting[0]
      else if m.gone then Cancel
      else Decision(moments[1..], [])
  }

  function QueueAfterDecision(moments: seq<Moment>, queue: seq<Ctl>): seq<Ctl>
    decreases |moments|
  {
    if moments == [] then queue
    else
      var m := moments[0];
      var waiting := queue + m.arrived;
      if m.stopped || m.timeUp then waiting
      else if waiting != [] then waiting[1..]
      else if m.gone then []
      else QueueAfterDecision(moments[1..], [])
  }

  // ---------------------------------------------------------------------------
  // Loading the profile package
  // ---------------------------------------------------------------------------

  /** What the card answers a segment with: nothing yet, or its installation result. */
  datatype Reply = Empty | Success | Refusal

  /** The fate of one segment of the plan: answered, sent with what the card said lost, or never sent. */
  datatype Segment = Replied(reply: Reply) | AnswerLost(said: Reply) | NeverSent

  /** `sent` segments left for the card; `result` is the last answer, or nothing when one was missing. */
  datatype Load = Load(sent: nat, result: Option<Reply>)

  /** Segment by segment, up to the first refusal or failure. */
  function Loaded(segments: seq<Segment>, sent: nat, last: Reply): Load
    decreases |segments|
  {
    if segments == [] then Load(sent, Some(last))
    else match segments[0]
      case NeverSent => Load(sent, None)
      case AnswerLost(_) => Load(sent + 1, None)
      case Replied(reply) =>
        if reply == Refusal then Load(sent + 1, Some(Refusal)) else Loaded(segments[1..], sent + 1, reply)
  }

  // ---------------------------------------------------------------------------
  // A whole download
  // ---------------------------------------------------------------------------

  /**
   How every step fares. `cardOpens`: the card opens its session when it is asked to authenticate
   the server, whether or not its answer arrives. `early`: the messages that arrive after the check
   that follows, while the preview is being prepared.
   */
  datatype Weather = Weather(
    needsCode: bool, challenge: Option<CardFault>, info: Option<CardFault>, check1: Check,
    initiate: Option<ServerFault>, check2: Check, authenticate: Option<CardFault>, cardOpens: bool, check3: Check,
    client: Option<ServerFault>, badMetadata: bool, serverNeedsCode: bool, early: seq<Ctl>, moments: seq<Moment>,
    prepare: Option<CardFault>, check4: Check, package: Option<ServerFault>, check5: Check, timeLeft: bool,
    planned: bool, segments: seq<Segment>, check6: Check, cancelAnswered: bool)

  /** The next step's stop, if it fails, and the messages left. */
  datatype Progress = Progress(stop: Option<Stop>, queue: seq<Ctl>)

  function Fails(stop: Stop, queue: seq<Ctl>): Progress {
    Progress(Some(stop), queue)
  }

  function Checked(check: Check, queue: seq<Ctl>): Progress {
    Progress(if IsCancelled(check, queue) then Some(UserStop(Cancel)) else None, QueueAfter(check, queue))
  }

  /** Up to the card opening its session. */
  function Opening(w: Weather): Progress {
    if w.needsCode then Fails(Halt(None), [])
    else if w.challenge.Some? then Fails(CardStop(w.challenge.value), [])
    else if w.info.Some? then Fails(CardStop(w.info.value), [])
    else
      var one := Checked(w.check1, []);
      if one.stop.Some? then one
      else if w.initiate.Some? then Fails(ServerStop(w.initiate.value), one.queue)
      else
        var two := Checked(w.check2, one.queue);
        if two.stop.Some? then two
        else if w.authenticate.Some? then Fails(CardStop(w.authenticate.value), two.queue)
        else two
  }

  /** From the open session to the preview's decision. */
  function Previewing(w: Weather, queue: seq<Ctl>): Progress {
    var three := Checked(w.check3, queue);
    if three.stop.Some? then three
    else if w.client.Some? then Fails(ServerStop(w.client.value), three.queue)
    else if w.badMetadata then Fails(Halt(Some(Undefined)), three.queue)
    else if w.serverNeedsCode then Fails(Halt(Some(Postponed)), three.queue)
    else
      var queue := three.queue + w.early;
      var decision := Decision(w.moments, queue);
      Progress(if decision == Accept then None else Some(UserStop(decision)), QueueAfterDecision(w.moments, queue))
  }

  /** From the decision to the package in hand. */
  function Fetching(w: Weather, queue: seq<Ctl>): Progress {
    if w.prepare.Some? then Fails(CardStop(w.prepare.value), queue)
    else
      var four := Checked(w.check4, queue);
      if four.stop.Some? then four
      else if w.package.Some? then Fails(ServerStop(w.package.value), four.queue)
      else
        var five := Checked(w.check5, four.queue);
        if five.stop.Some? then five
        else if !w.timeLeft then Fails(Halt(Some(Timeout)), five.queue)
        else five
  }

  /** How far a download got: its result, whether the card's session is still open, and the segments sent. */
  datatype Walk = Walk(result: Result<Reply, Stop>, begun: bool, session: bool, sent: nat, queue: seq<Ctl>)

  function Installing(w: Weather, queue: seq<Ctl>): Walk {
    var load := if w.planned then Loaded(w.segments, 0, Empty) else Load(0, None);
    match load.result
    case None => Walk(Err(Stop(Some(LoadBppExecutionError), true, Unknown)), true, true, load.sent, queue)
    case Some(reply) =>
      if reply == Refusal then Walk(Err(Halt(None)), true, false, load.sent, queue)
      else Walk(Ok(reply), true, true, load.sent, queue)
  }

  function Steps(w: Weather): Walk {
    var opening := Opening(w);
    if opening.stop.Some? then Walk(Err(opening.stop.value), false, false, 0, opening.queue)
    else
      var previewing := Previewing(w, opening.queue);
      if previewing.stop.Some? then Walk(Err(previewing.stop.value), true, true, 0, previewing.queue)
      else
        var fetching := Fetching(w, previewing.queue);
        if fetching.stop.Some? then Walk(Err(fetching.stop.value), true, true, 0, fetching.queue)
        else Installing(w, fetching.queue)
  }

  /** A Cancel that came while the failing step ran still means "postpone". */
  function Reconsidered(stop: Stop, w: Weather, queue: seq<Ctl>): Stop {
    if stop.reason.Some? && stop.ending == Failed && IsCancelled(w.check6, queue) then UserStop(Cancel) else stop
  }

  /** What a download comes to: its end, the CancelSession sent for the card, and whether the server was told. */
  datatype Report = Report(outcome: Result<Reply, Ending>, walk: Walk, cancels: seq<Reason>, serverTold: bool)

  function Downloaded(w: Weather): Report {
    var walk := Steps(w);
    match walk.result
    case Ok(reply) => Report(Ok(reply), walk, [], false)
    case Err(first) =>
      var stop := Reconsidered(first, w, walk.queue);
      var cancels := if walk.session && stop.reason.Some? then [stop.reason.value] else [];
      Report(Err(stop.ending), walk, cancels, cancels != [] && w.cancelAnswered && stop.notifyServer)
  }

  // ---------------------------------------------------------------------------
  // The helper
  // ---------------------------------------------------------------------------

  class Download {
    var queue: seq<Ctl>
    var begun: bool
    /** The card's session is open and would have to be cancelled. */
    var session: bool
    var sent: nat
    var cancels: seq<Reason>
    var serverTold: bool

    constructor ()
      ensures queue == [] && !begun && !session && sent == 0 && cancels == [] && !serverTold
    {
      queue, begun, session, sent, cancels, serverTold := [], false, false, 0, [], false;
    }

    method CancelPending(check: Check) returns (yes: bool)
      modifies this`queue
      ensures yes == IsCancelled(check, old(queue)) && queue == QueueAfter(check, old(queue))
    {
      queue := queue + check.arrived;
      if check.stopped {
        return true;
      }
      ghost var all := queue;
      while queue != []
        invariant Drained(all) == Drained(queue) && (Cancel in all <==> Cancel in queue)
        decreases |queue|
      {
        var first := queue[0];
        queue := queue[1..];
        if first == Cancel {
          return true;
        }
      }
      return false;
    }

    method Decide(moments: seq<Moment>) returns (ctl: Ctl)
      modifies this`queue
      ensures ctl == Decision(moments, old(queue)) && queue == QueueAfterDecision(moments, old(queue))
    {
      var i := 0;
      while i < |moments|
        invariant i <= |moments|
        invariant Decision(moments, old(queue)) == Decision(moments[i..], queue)
        invariant QueueAfterDecision(moments, old(queue)) == QueueAfterDecision(moments[i..], queue)
      {
        var m := moments[i];
        i := i + 1;
        queue := queue + m.arrived;
        if m.stopped {
          return Cancel;
        }
        if m.timeUp {
          return PreviewTimeout;
        }
        if queue != [] {
          ctl := queue[0];
          queue := queue[1..];
          return;
        }
        if m.gone {
          return Cancel;
        }
      }
      return PreviewTimeout;
    }

    method LoadPackage(segments: seq<Segment>) returns (result: Option<Reply>)
      modifies this`sent
      requires sent == 0
      ensures Load(sent, result) == Loaded(segments, 0, Empty)
    {
      var last := Empty;
      for i := 0 to |segments|
        invariant Loaded(segments, 0, Empty) == Loaded(segments[i..], sent, last)
      {
        match segments[i] {
          case NeverSent => return None;
          case AnswerLost(_) =>
            sent := sent + 1;
            return None;
          case Replied(reply) =>
            sent := sent + 1;
            last := reply;
            if reply == Refusal {
              return Some(Refusal);
            }
        }
      }
      return Some(last);
    }

    method Open(w: Weather) returns (stop: Option<Stop>)
      requires queue == []
      modifies this`queue
      ensures Progress(stop, queue) == Opening(w)
    {
      if w.needsCode {
        return Some(Halt(None));
      }
      if w.challenge.Some? {
        return Some(CardStop(w.challenge.value));
      }
      if w.info.Some? {
        return Some(CardStop(w.info.value));
      }
      var cancel := CancelPending(w.check1);
      if cancel {
        return Some(UserStop(Cancel));
      }
      if w.initiate.Some? {
        return Some(ServerStop(w.initiate.value));
      }
      cancel := CancelPending(w.check2);
      if cancel {
        return Some(UserStop(Cancel));
      }
      if w.authenticate.Some? {
        return Some(CardStop(w.authenticate.value));
      }
      return None;
    }

    method Preview(w: Weather) returns (stop: Option<Stop>)
      modifies this`queue
      ensures Progress(stop, queue) == Previewing(w, old(queue))
    {
      var cancel := CancelPending(w.check3);
      if cancel {
        return Some(UserStop(Cancel));
      }
      if w.client.Some? {
        return Some(ServerStop(w.client.value));
      }
      if w.badMetadata {
        return Some(Halt(Some(Undefined)));
      }
      if w.serverNeedsCode {
        return Some(Halt(Some(Postponed)));
      }
      queue := queue + w.early;
      var decision := Decide(w.moments);
      return if decision == Accept then None else Some(UserStop(decision));
    }

    method Fetch(w: Weather) returns (stop: Option<Stop>)
      modifies this`queue
      ensures Progress(stop, queue) == Fetching(w, old(queue))
    {
      if w.prepare.Some? {
        return Some(CardStop(w.prepare.value));
      }
      var cancel := CancelPending(w.check4);
      if cancel {
        return Some(UserStop(Cancel));
      }
      if w.package.Some? {
        return Some(ServerStop(w.package.value));
      }
      cancel := CancelPending(w.check5);
      if cancel {
        return Some(UserStop(Cancel));
      }
      return if w.timeLeft then None else Some(Halt(Some(Timeout)));
    }

    method RunSteps(w: Weather) returns (result: Result<Reply, Stop>)
      requires queue == [] && !begun && !session && sent == 0
      modifies this`queue, this`begun, this`session, this`sent
      ensures Walk(result, begun, session, sent, queue) == Steps(w)
    {
      var stop := Open(w);
      if stop.Some? {
        return Err(stop.value);
      }
      begun, session := true, true;
      stop := Preview(w);
      if stop.Some? {
        return Err(stop.value);
      }
      stop := Fetch(w);
      if stop.Some? {
        return Err(stop.value);
      }
      var reply: Option<Reply> := None;
      if w.planned {
        reply := LoadPackage(w.segments);
      }
      if reply.None? {
        return Err(Stop(Some(LoadBppExecutionError), true, Unknown));
      }
      if reply.value == Refusal {
        session := false;
        return Err(Halt(None));
      }
      return Ok(reply.value);
    }

    method Run(w: Weather) returns (outcome: Result<Reply, Ending>)
      requires queue == [] && !begun && !session && sent == 0 && cancels == [] && !serverTold
      modifies this
      ensures var report := Downloaded(w);
              && outcome == report.outcome && cancels == report.cancels && serverTold == report.serverTold
              && begun == report.walk.begun && session == report.walk.session && sent == report.walk.sent
    {
      var result := RunSteps(w);
      if result.Ok? {
        return Ok(result.value);
      }
      var stop := result.error;
      if stop.reason.Some? && stop.ending == Failed {
        var cancel := CancelPending(w.check6);
        if cancel {
          stop := UserStop(Cancel);
        }
      }
      if session && stop.reason.Some? {
        cancels := cancels + [stop.reason.value];
        if w.cancelAnswered && stop.notifyServer {
          serverTold := true;
        }
      }
      return Err(stop.ending);
    }
  }

  // ---------------------------------------------------------------------------
  // How a download ends
  // ---------------------------------------------------------------------------

  /** What the card said to a segment, heard or not. */
  function Said(segment: Segment): Reply {
    match segment
    case Replied(reply) => reply
    case AnswerLost(said) => said
    case NeverSent => Empty
  }

  /** The card gave an installation result for one of the first `sent` segments. */
  predicate GaveResult(segments: seq<Segment>, sent: nat) {
    exists i :: 0 <= i < sent && i < |segments| && Said(segments[i]) != Empty
  }

  /** The card gave its installation result, heard or not. */
  predicate CardAnswered(w: Weather) {
    GaveResult(w.segments, Steps(w).sent)
  }

  /** The card refused one of the first `sent` segments, and was heard. */
  predicate Refused(segments: seq<Segment>, sent: nat) {
    exists i :: 0 <= i < sent && i < |segments| && segments[i] == Replied(Refusal)
  }

  lemma {:induction false} LoadedResult(segments: seq<Segment>, sent: nat, last: Reply)
    requires last != Refusal
    ensures var load := Loaded(segments, sent, last);
            && sent <= load.sent <= sent + |segments|
            && (load.result == Some(Refusal) ==>
                  load.sent > sent && segments[load.sent - sent - 1] == Replied(Refusal))
            && (load.result.Some? && load.result != Some(Refusal) ==> load.sent == sent + |segments|)
    decreases |segments|
  {
    if segments != [] && segments[0].Replied? && segments[0].reply != Refusal {
      LoadedResult(segments[1..], sent + 1, segments[0].reply);
    }
  }

  predicate Cancellable(p: Progress) {
    p.stop.Some? ==> p.stop.value.reason.Some? && p.stop.value.ending != Unknown
  }

  lemma StopsAreCancellable(w: Weather, queue: seq<Ctl>)
    ensures Cancellable(Previewing(w, queue)) && Cancellable(Fetching(w, queue))
    ensures Opening(w).stop.Some? ==> Opening(w).stop.value.ending != Unknown
  {
  }

  lemma InstallingFacts(w: Weather, queue: seq<Ctl>)
    ensures var walk := Installing(w, queue);
            && walk.begun
            && (walk.result.Ok? ==> walk.session)
            && (walk.result.Err? ==>
                  if walk.session then walk.result.error.ending == Unknown && walk.result.error.reason.Some?
                  else walk.result.error == Halt(None) && Refused(w.segments, walk.sent))
  {
    LoadedResult(w.segments, 0, Empty);
    var load := Loaded(w.segments, 0, Empty);
    if load.result == Some(Refusal) {
      assert w.segments[load.sent - 1] == Replied(Refusal);
    }
  }

  lemma StepsFacts(w: Weather)
    ensures var walk := Steps(w);
            && (walk.session ==> walk.begun) && (walk.sent > 0 ==> walk.begun)
            && (walk.result.Ok? ==> walk.session)
            && (walk.result.Err? && walk.session ==> walk.result.error.reason.Some?)
            && (walk.result.Err? && walk.begun && !walk.session ==>
                  walk.result.error == Halt(None) && Refused(w.segments, walk.sent))
            && (walk.result.Err? && walk.sent > 0 ==> walk.result.error.ending == Unknown || !walk.session)
            && (walk.result.Err? && walk.result.error.ending == Unknown ==> walk.begun && walk.session)
  {
    var opening := Opening(w);
    StopsAreCancellable(w, opening.queue);
    if opening.stop.None? {
      var previewing := Previewing(w, opening.queue);
      if previewing.stop.None? {
        StopsAreCancellable(w, previewing.queue);
        InstallingFacts(w, Fetching(w, previewing.queue).queue);
      }
    }
  }

  /** Nobody asked to stop at this check. */
  predicate Quiet(check: Check) {
    !check.stopped && Cancel !in check.arrived
  }

  lemma {:induction false} DrainedOfNoCancel(queue: seq<Ctl>)
    requires Cancel !in queue
    ensures Drained(queue) == []
  {
    if queue != [] {
      DrainedOfNoCancel(queue[1..]);
    }
  }

  lemma QuietCheck(check: Check, queue: seq<Ctl>)
    requires Checked(check, queue).stop.None?
    ensures Quiet(check) && Checked(check, queue).queue == []
  {
    assert Cancel !in queue + check.arrived;
    assert forall c :: c in check.arrived ==> c in queue + check.arrived;
    DrainedOfNoCancel(queue + check.arrived);
  }

  /** Accept is the first message of the waits, before any stop, the time limit and the agent's end closing. */
  predicate AcceptedInPreview(moments: seq<Moment>) {
    exists i :: 0 <= i < |moments| && AcceptedAt(moments, i)
  }

  predicate AcceptedAt(moments: seq<Moment>, i: nat)
    requires i < |moments|
  {
    && moments[i].arrived != [] && moments[i].arrived[0] == Accept && !moments[i].stopped && !moments[i].timeUp
    && AllWait(moments[..i])
  }

  predicate AllWait(moments: seq<Moment>) {
    forall j :: 0 <= j < |moments| ==> Waits(moments[j])
  }

  predicate Waits(m: Moment) {
    !m.stopped && !m.timeUp && m.arrived == [] && !m.gone
  }

  lemma AcceptedFirst(moments: seq<Moment>)
    requires moments != []
    ensures AcceptedInPreview(moments) <==>
            var m := moments[0];
            !m.stopped && !m.timeUp &&
            if m.arrived != [] then m.arrived[0] == Accept else !m.gone && AcceptedInPreview(moments[1..])
  {
    var m, rest := moments[0], moments[1..];
    if AcceptedInPreview(moments) {
      var i :| 0 <= i < |moments| && AcceptedAt(moments, i);
      if i > 0 {
        assert Waits(moments[..i][0]);
        assert rest[i - 1] == moments[i];
        var cut := rest[..i - 1];
        forall j | 0 <= j < |cut| ensures Waits(cut[j]) {
          assert cut[j] == moments[..i][j + 1];
        }
        assert AcceptedAt(rest, i - 1);
      }
    }
    if !m.stopped && !m.timeUp && m.arrived != [] && m.arrived[0] == Accept {
      assert AcceptedAt(moments, 0);
    }
    if Waits(m) && AcceptedInPreview(rest) {
      var i :| 0 <= i < |rest| && AcceptedAt(rest, i);
      assert moments[i + 1] == rest[i];
      var cut := moments[..i + 1];
      forall j | 0 <= j < |cut| ensures Waits(cut[j]) {
        if j > 0 {
          assert cut[j] == rest[..i][j - 1];
        }
      }
      assert AcceptedAt(moments, i + 1);
    }
  }

  /**
   The preview is accepted exactly by an Accept that comes first: during the preview when nothing
   was waiting by then, and otherwise by the first message that came before it.
   */
  lemma {:induction false} AcceptedExactly(moments: seq<Moment>, early: seq<Ctl>)
    ensures Decision(moments, early) == Accept <==>
            if early == [] then AcceptedInPreview(moments)
            else early[0] == Accept && moments != [] && !moments[0].stopped && !moments[0].timeUp
    decreases |moments|
  {
    if moments != [] {
      AcceptedFirst(moments);
      AcceptedExactly(moments[1..], []);
      if early == [] {
        assert early + moments[0].arrived == moments[0].arrived;
      } else {
        assert (early + moments[0].arrived)[0] == early[0];
      }
    }
  }

  /**
   A segment is sent only when nobody asked to stop at any check, no Cancel was left over from the
   preview, every step worked, time is left to install, and the download was accepted: at the
   preview when no message came before it, and else by the first of those that did.
   */
  lemma InstallNeedsConsent(w: Weather)
    requires Steps(w).sent > 0
    ensures Quiet(w.check1) && Quiet(w.check2) && Quiet(w.check3) && Quiet(w.check4) && Quiet(w.check5)
    ensures Cancel !in QueueAfterDecision(w.moments, w.early)
    ensures if w.early == [] then AcceptedInPreview(w.moments) else w.early[0] == Accept
    ensures w.challenge.None? && w.info.None? && w.initiate.None? && w.authenticate.None? && w.client.None?
    ensures w.prepare.None? && w.package.None? && w.timeLeft && !w.needsCode && !w.serverNeedsCode && !w.badMetadata
  {
    var opening := Opening(w);
    QuietCheck(w.check1, []);
    QuietCheck(w.check2, []);
    QuietCheck(w.check3, opening.queue);
    assert [] + w.early == w.early;
    var previewing := Previewing(w, opening.queue);
    AcceptedExactly(w.moments, w.early);
    QuietCheck(w.check4, previewing.queue);
    QuietCheck(w.check5, []);
  }

  // ---------------------------------------------------------------------------
  // How the card's session ends
  // ---------------------------------------------------------------------------

  /** The card is asked to authenticate the server. */
  predicate AsksCard(w: Weather) {
    !w.needsCode && w.challenge.None? && w.info.None? && Quiet(w.check1) && w.initiate.None? && Quiet(w.check2)
  }

  predicate CardOpened(w: Weather) {
    AsksCard(w) && w.cardOpens
  }

  lemma QuietExactly(check: Check)
    ensures Checked(check, []).stop.None? <==> Quiet(check)
    ensures Quiet(check) ==> Checked(check, []).queue == []
  {
    assert [] + check.arrived == check.arrived;
    if Quiet(check) {
      DrainedOfNoCancel(check.arrived);
    }
  }

  /** The helper knows of a session exactly when it asked and the answer arrived. */
  lemma BegunExactly(w: Weather)
    ensures Steps(w).begun <==> AsksCard(w) && w.authenticate.None?
  {
    QuietExactly(w.check1);
    QuietExactly(w.check2);
  }

  /** The whole package was answered, and never with an installation result. */
  predicate SilentInstall(w: Weather) {
    Steps(w).result.Ok? && forall i :: 0 <= i < |w.segments| ==> w.segments[i] == Replied(Empty)
  }

  /** The install is given up as unknown although the card gave its result: before the loss, or in the lost answer. */
  predicate LostAfterResult(w: Weather) {
    Steps(w).result.Err? && Steps(w).result.error.ending == Unknown && GaveResult(w.segments, Steps(w).sent)
  }

  /** A refused package gave its result; one reported installed gave it exactly when some answer was a success. */
  lemma InstallResult(w: Weather, queue: seq<Ctl>)
    ensures var walk := Installing(w, queue);
            && (walk.result.Err? && !walk.session ==> GaveResult(w.segments, walk.sent))
            && (walk.result.Ok? ==>
                  (GaveResult(w.segments, walk.sent)
                   <==> exists i :: 0 <= i < |w.segments| && w.segments[i] != Replied(Empty)))
  {
    LoadedResult(w.segments, 0, Empty);
    AllSegmentsAnswered(w.segments, 0, Empty);
    var walk := Installing(w, queue);
    if walk.result.Err? && !walk.session {
      assert Said(w.segments[walk.sent - 1]) == Refusal;
    }
    if walk.result.Ok? {
      assert walk.sent == |w.segments|;
      forall i | 0 <= i < |w.segments| && w.segments[i] != Replied(Empty) ensures Said(w.segments[i]) != Empty {
      }
    }
  }

  lemma StepsResult(w: Weather)
    ensures var walk := Steps(w);
            && (walk.result.Err? && walk.begun && !walk.session ==> GaveResult(w.segments, walk.sent))
            && (walk.result.Ok? ==> (GaveResult(w.segments, walk.sent) <==> !SilentInstall(w)))
            && (walk.result.Err? && walk.session && walk.result.error.ending != Unknown ==> walk.sent == 0)
  {
    StepsFacts(w);
    var opening := Opening(w);
    if opening.stop.None? {
      var previewing := Previewing(w, opening.queue);
      if previewing.stop.None? {
        InstallResult(w, Fetching(w, previewing.queue).queue);
      }
    }
  }

  /**
   SGP.22 section 3.1.3: a session the card opened ends in exactly one of its installation result
   and one CancelSession, exactly when the answer that opened it arrived, the card was not silent
   to the end of a package reported as installed, and no answer was lost after or with the result.
   */
  lemma SessionEndsOnceExactly(w: Weather)
    requires CardOpened(w)
    ensures var cancels := |Downloaded(w).cancels|;
            && cancels <= 1
            && (cancels + (if CardAnswered(w) then 1 else 0) == 1
                <==> w.authenticate.None? && !SilentInstall(w) && !LostAfterResult(w))
  {
    BegunExactly(w);
    StepsFacts(w);
    StepsResult(w);
  }

  /** A card that was never asked gets neither: it has nothing to end. */
  lemma NothingToEnd(w: Weather)
    requires !AsksCard(w)
    ensures Downloaded(w).cancels == [] && !CardAnswered(w)
  {
    BegunExactly(w);
    StepsFacts(w);
  }

  /** A session whose opening answer is lost stays open: it gets no CancelSession, and no segment is sent in it. */
  lemma UnheardSessionIsStranded(w: Weather)
    requires CardOpened(w) && w.authenticate.Some?
    ensures Downloaded(w).cancels == [] && Steps(w).sent == 0 && !CardAnswered(w)
  {
    BegunExactly(w);
    StepsFacts(w);
  }

  /** The card gives its result with the last segment or with a refusal, as the standard has it. */
  predicate ConformingCard(segments: seq<Segment>) {
    && segments != []
    && (forall i :: 0 <= i < |segments| - 1 ==> segments[i] != Replied(Success))
    && segments[|segments| - 1] != Replied(Empty)
  }

  lemma NotSilent(segments: seq<Segment>)
    requires ConformingCard(segments)
    ensures exists i :: 0 <= i < |segments| && segments[i] != Replied(Empty)
  {
    assert segments[|segments| - 1] != Replied(Empty);
  }

  /** With such a card one case of each is left: the opening answer lost, and the answer with the result lost. */
  lemma ConformingCardEndsOnceExactly(w: Weather)
    requires CardOpened(w) && ConformingCard(w.segments)
    ensures |Downloaded(w).cancels| + (if CardAnswered(w) then 1 else 0) == 1
            <==> w.authenticate.None? && !LostAfterResult(w)
    ensures LostAfterResult(w) ==>
              exists i :: 0 <= i < |w.segments| && w.segments[i].AnswerLost? && w.segments[i].said != Empty
  {
    SessionEndsOnceExactly(w);
    var n := |w.segments|;
    NotSilent(w.segments);
    if LostAfterResult(w) {
      var i :| 0 <= i < Steps(w).sent && i < n && Said(w.segments[i]) != Empty;
      UnknownHasNoRefusal(w, i);
    }
  }

  lemma {:induction false} LossStops(segments: seq<Segment>, sent: nat, last: Reply, i: nat)
    requires last != Refusal && Loaded(segments, sent, last).result.None? && i < |segments|
    requires sent + i < Loaded(segments, sent, last).sent
    ensures segments[i] != Replied(Refusal)
    ensures i == |segments| - 1 ==> !segments[i].Replied?
    decreases |segments|
  {
    if i > 0 {
      LossStops(segments[1..], sent + 1, segments[0].reply, i - 1);
    }
  }

  lemma UnknownHasNoRefusal(w: Weather, i: nat)
    requires Steps(w).result.Err? && Steps(w).result.error.ending == Unknown && i < Steps(w).sent && i < |w.segments|
    ensures w.segments[i] != Replied(Refusal)
    ensures i == |w.segments| - 1 ==> !w.segments[i].Replied?
  {
    var opening := Opening(w);
    StopsAreCancellable(w, opening.queue);
    StopsAreCancellable(w, Previewing(w, opening.queue).queue);
    LossStops(w.segments, 0, Empty, i);
  }

  /** The preview's decision is what the card's session is cancelled with, and the download counts as cancelled. */
  lemma PreviewReasons(w: Weather)
    requires Opening(w).stop.None? && Checked(w.check3, Opening(w).queue).stop.None?
    requires w.client.None? && !w.badMetadata && !w.serverNeedsCode
    ensures var decision, report := Decision(w.moments, w.early), Downloaded(w);
            && (decision == Decline ==> report.cancels == [EndUserRejection] && report.outcome == Err(Cancelled))
            && (decision == PreviewTimeout ==> report.cancels == [Timeout] && report.outcome == Err(Cancelled))
            && (decision == Cancel ==> report.cancels == [Postponed] && report.outcome == Err(Cancelled))
            && (decision != Accept ==> report.serverTold == w.cancelAnswered)
  {
    hide Decision, QueueAfterDecision, Loaded, Opening;
    QuietCheck(w.check3, Opening(w).queue);
    assert [] + w.early == w.early;
  }

  /** A lost install answer cancels with a load error; a Cancel that comes while another step fails postpones. */
  lemma LateReasons(w: Weather)
    requires Steps(w).begun && Steps(w).session && Steps(w).result.Err?
    ensures var ending, report := Steps(w).result.error.ending, Downloaded(w);
            && (ending == Unknown ==> report.cancels == [LoadBppExecutionError] && report.outcome == Err(Unknown))
            && (ending == Failed && IsCancelled(w.check6, Steps(w).queue) ==>
                  report.cancels == [Postponed] && report.outcome == Err(Cancelled) && Steps(w).sent == 0)
            && (ending == Failed && !IsCancelled(w.check6, Steps(w).queue) ==> report.outcome == Err(Failed))
  {
    StepsFacts(w);
    if Steps(w).result.error.ending == Unknown {
      UnknownReason(w);
    }
  }

  lemma UnknownReason(w: Weather)
    requires Steps(w).result.Err? && Steps(w).result.error.ending == Unknown
    ensures Steps(w).result.error.reason == Some(LoadBppExecutionError)
  {
    var opening := Opening(w);
    StopsAreCancellable(w, opening.queue);
    StopsAreCancellable(w, Previewing(w, opening.queue).queue);
  }

  /**
   Cancelled means no segment was sent; Failed after a segment means the card itself refused; an
   install answer that got lost is Unknown, even with a Cancel pending.
   */
  lemma EndingIsTruthful(w: Weather)
    ensures var report := Downloaded(w);
            && (report.outcome == Err(Cancelled) ==> report.walk.sent == 0)
            && (report.outcome == Err(Failed) && report.walk.sent > 0 ==>
                  Refused(w.segments, report.walk.sent) && !report.walk.session)
            && (report.walk.sent > 0 && report.outcome.Err? && !Refused(w.segments, report.walk.sent) ==>
                  report.outcome == Err(Unknown))
  {
    StepsFacts(w);
  }

  lemma {:induction false} AllSegmentsAnswered(segments: seq<Segment>, sent: nat, last: Reply)
    requires last != Refusal
    ensures Loaded(segments, sent, last).result.Some? && Loaded(segments, sent, last).result != Some(Refusal)
            <==> forall i :: 0 <= i < |segments| ==> segments[i] == Replied(Empty) || segments[i] == Replied(Success)
    ensures var load := Loaded(segments, sent, last);
            load.result.Some? && load.result != Some(Refusal) ==>
              load.result == Some(if segments == [] then last else segments[|segments| - 1].reply)
    decreases |segments|
  {
    if segments != [] && segments[0].Replied? && segments[0].reply != Refusal {
      AllSegmentsAnswered(segments[1..], sent + 1, segments[0].reply);
      assert segments == [segments[0]] + segments[1..];
    }
  }

  /**
   The helper reports an installed profile exactly when every segment was answered and none with a
   refusal; the card's own success stands behind it exactly when it came with the last answer.
   */
  lemma SuccessIsTheLastAnswer(w: Weather, queue: seq<Ctl>)
    requires w.planned && w.segments != []
    ensures Installing(w, queue).result.Ok?
            <==> forall i :: 0 <= i < |w.segments| ==>
                   w.segments[i] == Replied(Empty) || w.segments[i] == Replied(Success)
    ensures Installing(w, queue).result.Ok? ==>
              (Installing(w, queue).result.value == Success <==> w.segments[|w.segments| - 1] == Replied(Success))
  {
    AllSegmentsAnswered(w.segments, 0, Empty);
  }

  /** So a package the card never answered with an installation result counts as installed. */
  lemma SilentCardCountsAsInstalled(w: Weather, queue: seq<Ctl>)
    requires w.planned && w.segments != [] && forall i :: 0 <= i < |w.segments| ==> w.segments[i] == Replied(Empty)
    ensures Installing(w, queue).result == Ok(Empty)
  {
    AllSegmentsAnswered(w.segments, 0, Empty);
  }

  // ---------------------------------------------------------------------------
  // What the guard makes of the CancelSession
  // ---------------------------------------------------------------------------

  function CancelApdu(cla: byte, contents: seq<byte>): seq<byte>
    requires |contents| + 2 <= G.BLOCK
  {
    G.BlockApdu(cla, 0, true, [0xBF, 0x41] + contents)
  }

  /** The card gets a CancelSession exactly when no stop came or the install had begun. */
  lemma CancelReachesCardExactly(allowed: set<u16>, continuing: Option<u16>, cla: byte, contents: seq<byte>,
                                 sent: nat, stopped: bool)
    requires 0xBF41 in allowed && |contents| + 2 <= G.BLOCK
    ensures G.Forwards(allowed, G.State(continuing, sent > 0, sent > 0), CancelApdu(cla, contents), stopped)
            <==> !stopped || sent > 0
  {
    assert G.Payload(CancelApdu(cla, contents)) == [0xBF, 0x41] + contents;
  }

  /** A stop signal during a download: the card's session gets its one CancelSession, which the guard holds back. */
  lemma StopStrandsSession(w: Weather, allowed: set<u16>, continuing: Option<u16>, cla: byte, contents: seq<byte>)
    requires 0xBF41 in allowed && |contents| + 2 <= G.BLOCK
    requires Steps(w).begun && Steps(w).sent == 0 && Steps(w).result.Err?
    ensures |Downloaded(w).cancels| == 1
    ensures !G.Forwards(allowed, G.State(continuing, false, false), CancelApdu(cla, contents), true)
  {
    StepsFacts(w);
    CancelReachesCardExactly(allowed, continuing, cla, contents, 0, true);
  }
}
