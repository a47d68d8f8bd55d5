/** The agent's receipt queue and its worker (`agent/src/esim.rs`). */
module EsimQueue {
  import opened Prelude
  import opened EsimCard
  import R = EsimReceipts

  const MAX_ROUNDS: nat := 24
  /** The helper refuses a request that names more receipts, or none. */
  const MAX_NUMBERS: nat := 32

  /** What the worker asked the helper for: the card it had seen, and every number queued then. */
  datatype Request = Request(eid: string, numbers: seq<nat>)

  /** `card`: the one read last. `sent`: the request that is under way, without the agent's lock. */
  datatype Queue = Queue(card: Option<string>, pending: seq<nat>, round: nat, working: bool, gaveUp: bool,
                         sent: Option<Request>)

  /** What a delivery run comes to for the agent. */
  datatype Outcome = Results(lines: seq<R.Line>) | CardChanged | NoRun

  /** The numbers a run settled: delivered, or no longer on the card. */
  function Settled(lines: seq<R.Line>): set<nat> {
    set l | l in lines && (l.delivered || l.gone) :: l.number
  }

  function Keeping(pending: seq<nat>, settled: set<nat>): seq<nat> {
    if pending == [] then []
    else (if pending[0] in settled then [] else [pending[0]]) + Keeping(pending[1..], settled)
  }

  function AfterRun(pending: seq<nat>, outcome: Outcome): seq<nat> {
    match outcome
    case Results(lines) => Keeping(pending, Settled(lines))
    case CardChanged => []
    case NoRun => pending
  }

  function Queued(pending: seq<nat>, numbers: seq<nat>): seq<nat>
    decreases |numbers|
  {
    if numbers == [] then pending
    else Queued(if numbers[0] in pending then pending else pending + [numbers[0]], numbers[1..])
  }

  predicate Stops(q: Queue) {
    q.pending == [] || q.round >= MAX_ROUNDS
  }

  /**
   What happens under the agent's lock. The worker looks at the queue, `ready` when the card has been
   read and there is data, and takes a request along; later its run returns. Meanwhile other threads
   read the card in the slot, and queue the receipts a change created on the card `of`.
   */
  datatype Turn =
    | Looks(ready: bool) | Returns(outcome: Outcome) | Reads(eid: string) | Adds(of: string, numbers: seq<nat>)

  function After(q: Queue, turn: Turn): Queue {
    match turn
    case Looks(ready) =>
      if !q.working || q.sent.Some? then q
      else if Stops(q) then q.(working := false, gaveUp := q.pending != [])
      else if !ready || q.card.None? then q
      else q.(sent := Some(Request(q.card.value, q.pending)))
    case Returns(outcome) =>
      if q.sent.None? then q
      else q.(pending := AfterRun(q.pending, outcome), round := q.round + 1, sent := None)
    case Reads(eid) =>
      // Receipts belong to the card they were found on.
      if q.card == Some(eid) then q else q.(card := Some(eid), pending := [], round := 0, gaveUp := false)
    case Adds(_, numbers) =>
      if numbers == [] then q
      else q.(pending := Queued(q.pending, numbers), round := 0, gaveUp := false, working := true)
  }

  function Run(q: Queue, turns: seq<Turn>): Queue
    decreases |turns|
  {
    if turns == [] then q else Run(After(q, turns[0]), turns[1..])
  }

  class Receipts {
    var card: Option<string>
    var pending: seq<nat>
    var round: nat
    var working: bool
    var gaveUp: bool
    var sent: Option<Request>

    constructor ()
      ensures View() == Queue(None, [], 0, false, false, None)
    {
      card, pending, round, working, gaveUp, sent := None, [], 0, false, false, None;
    }

    ghost function View(): Queue
      reads this
    {
      Queue(card, pending, round, working, gaveUp, sent)
    }

    /** Adds the receipts a change created and starts over. */
    method Add(numbers: seq<nat>, ghost of: string)
      modifies this
      ensures View() == After(old(View()), Adds(of, numbers))
    {
      if numbers == [] {
        return;
      }
      var i := 0;
      while i < |numbers|
        invariant i <= |numbers| && card == old(card) && sent == old(sent)
        invariant Queued(pending, numbers[i..]) == Queued(old(pending), numbers)
      {
        if numbers[i] !in pending {
          pending := pending + [numbers[i]];
        }
        i := i + 1;
      }
      round, gaveUp, working := 0, false, true;
    }

    /** A card was read: another one than before empties the queue. */
    method Read(eid: string)
      modifies this
      ensures View() == After(old(View()), Reads(eid))
    {
      if card != Some(eid) {
        card, pending, round, gaveUp := Some(eid), [], 0, false;
      }
    }

    /** The worker stops, waits, or takes a request along. */
    method Look(ready: bool)
      requires working && sent.None?
      modifies this
      ensures View() == After(old(View()), Looks(ready))
    {
      if pending == [] || round >= MAX_ROUNDS {
        gaveUp := pending != [] && round >= MAX_ROUNDS;
        working := false;
      } else if ready && card.Some? {
        sent := Some(Request(card.value, pending));
      }
    }

    /** Removes the settled numbers from the queue, one line of the answer after another. */
    method Settle(lines: seq<R.Line>)
      modifies this`pending
      ensures pending == Keeping(old(pending), Settled(lines))
    {
      KeepingNone(pending);
      for i := 0 to |lines|
        invariant pending == Keeping(old(pending), Settled(lines[..i]))
      {
        ghost var before := Settled(lines[..i]);
        var line := lines[i];
        assert lines[..i + 1] == lines[..i] + [line];
        if line.delivered || line.gone {
          KeepingTwice(old(pending), before, {line.number});
          assert Settled(lines[..i + 1]) == before + {line.number};
          pending := Keeping(pending, {line.number});
        } else {
          assert Settled(lines[..i + 1]) == before;
        }
      }
      assert lines[..|lines|] == lines;
    }

    /** The run is over, whatever was read or queued meanwhile. */
    method Return(outcome: Outcome)
      requires sent.Some?
      modifies this
      ensures View() == After(old(View()), Returns(outcome))
    {
      round, sent := round + 1, None;
      match outcome
      case Results(lines) => Settle(lines);
      case CardChanged => pending := [];
      case NoRun =>
    }

    /** The worker's loop, with what other threads do between its steps, until it stops or the turns end. */
    method Work(turns: seq<Turn>) returns (k: nat)
      modifies this
      ensures k <= |turns| && View() == Run(old(View()), turns[..k])
      ensures k < |turns| ==> !working
    {
      k := 0;
      while k < |turns| && working
        invariant k <= |turns| && View() == Run(old(View()), turns[..k])
      {
        RunAppend(old(View()), turns[..k], turns[k]);
        assert turns[..k + 1] == turns[..k] + [turns[k]];
        match turns[k] {
          case Looks(ready) =>
            if sent.None? {
              Look(ready);
            }
          case Returns(outcome) =>
            if sent.Some? {
              Return(outcome);
            }
          case Reads(eid) => Read(eid);
          case Adds(of, numbers) => Add(numbers, of);
        }
        k := k + 1;
      }
    }
  }

  lemma {:induction false} RunAppend(q: Queue, turns: seq<Turn>, turn: Turn)
    ensures Run(q, turns + [turn]) == After(Run(q, turns), turn)
    decreases |turns|
  {
    if turns == [] {
      assert [] + [turn] == [turn] && [turn][1..] == [];
    } else {
      assert (turns + [turn])[1..] == turns[1..] + [turn];
      RunAppend(After(q, turns[0]), turns[1..], turn);
    }
  }

  lemma {:induction false} KeepingNone(pending: seq<nat>)
    ensures Keeping(pending, Settled([])) == pending
  {
    if pending != [] {
      KeepingNone(pending[1..]);
    }
  }

  lemma {:induction false} KeepingTwice(pending: seq<nat>, one: set<nat>, other: set<nat>)
    ensures Keeping(Keeping(pending, one), other) == Keeping(pending, one + other)
  {
    if pending != [] {
      KeepingTwice(pending[1..], one, other);
      var rest := Keeping(pending[1..], one);
      if pending[0] !in one {
        assert ([pending[0]] + rest)[1..] == rest;
      } else {
        assert [] + rest == rest;
      }
    }
  }

  // ---------------------------------------------------------------------------
  // What leaves the queue
  // ---------------------------------------------------------------------------

  lemma {:induction false} KeepingFacts(pending: seq<nat>, settled: set<nat>)
    ensures forall n :: n in Keeping(pending, settled) <==> n in pending && n !in settled
  {
    if pending != [] {
      KeepingFacts(pending[1..], settled);
    }
  }

  lemma {:induction false} QueuedFacts(pending: seq<nat>, numbers: seq<nat>)
    ensures forall n :: n in Queued(pending, numbers) <==> n in pending || n in numbers
    ensures pending <= Queued(pending, numbers)
    decreases |numbers|
  {
    if numbers != [] {
      var next := if numbers[0] in pending then pending else pending + [numbers[0]];
      QueuedFacts(next, numbers[1..]);
      assert numbers == [numbers[0]] + numbers[1..];
    }
  }

  /** A run reported this number delivered or gone, or it or a read found another card. */
  predicate Excuses(turn: Turn, n: nat) {
    || turn.Reads?
    || (turn.Returns? && (turn.outcome.CardChanged? || (turn.outcome.Results? && n in Settled(turn.outcome.lines))))
  }

  ghost predicate Excused(turns: seq<Turn>, n: nat) {
    exists i :: 0 <= i < |turns| && Excuses(turns[i], n)
  }

  lemma StepExcuses(q: Queue, turn: Turn, n: nat)
    requires n in q.pending && n !in After(q, turn).pending
    ensures Excuses(turn, n)
  {
    if turn.Returns? && turn.outcome.Results? {
      KeepingFacts(q.pending, Settled(turn.outcome.lines));
    } else if turn.Adds? {
      QueuedFacts(q.pending, turn.numbers);
    }
  }

  /** A number leaves the queue only when a run reported it delivered or gone, or the card changed. */
  lemma {:induction false} LeavesOnlyExcused(q: Queue, turns: seq<Turn>, n: nat)
    requires n in q.pending && n !in Run(q, turns).pending
    ensures Excused(turns, n)
    decreases |turns|
  {
    var next, rest := After(q, turns[0]), turns[1..];
    if n !in next.pending {
      StepExcuses(q, turns[0], n);
    } else {
      LeavesOnlyExcused(next, rest, n);
      var i :| 0 <= i < |rest| && Excuses(rest[i], n);
      assert turns[i + 1] == rest[i];
    }
  }

  /** Delivered or gone is what the card and the servers say, when the run was made on the card it was meant for. */
  lemma SettledIsTrue(card: Card, eid: string, numbers: seq<nat>, w: R.Weather, n: nat)
    requires var answer := R.Notified(card, eid, numbers, w).answer; answer.Ok? && n in Settled(answer.value)
    ensures R.Accepted(numbers, w, n) || n !in card.receipts
  {
    var lines := R.Notified(card, eid, numbers, w).answer.value;
    var line :| line in lines && (line.delivered || line.gone) && line.number == n;
    R.ResultsTellTruth(card, eid, numbers, w, line);
  }

  // ---------------------------------------------------------------------------
  // What is owed to the card in the slot
  // ---------------------------------------------------------------------------

  /**
   The receipts of the card read last that are still to be delivered: those queued of it, less what a
   run on that very card settled. Another card that is read is owed nothing yet.
   */
  function OwedAfter(q: Queue, owed: set<nat>, turn: Turn): set<nat> {
    match turn
    case Looks(_) => owed
    case Returns(outcome) =>
      if q.sent.Some? && !Stale(q) && outcome.Results? then owed - Settled(outcome.lines) else owed
    case Reads(eid) => if q.card == Some(eid) then owed else {}
    case Adds(of, numbers) => if q.card == Some(of) then owed + Members(numbers) else owed
  }

  function Members(numbers: seq<nat>): set<nat> {
    set n | n in numbers
  }

  /** The request under way is of a card that is no longer the one read last. */
  predicate Stale(q: Queue) {
    q.sent.Some? && q.card != Some(q.sent.value.eid)
  }

  /**
   A run takes numbers out that the card read last is owed: one on an earlier card by settling the same
   numbers there, and one that found another card than it was meant for by emptying the queue.
   */
  predicate Loses(q: Queue, owed: set<nat>, turn: Turn) {
    turn.Returns? && q.sent.Some? &&
    match turn.outcome
    case Results(lines) => Stale(q) && owed * Settled(lines) != {}
    case CardChanged => owed != {}
    case NoRun => false
  }

  /** Receipts are queued that the card in the slot does not owe: another one was read since the change. */
  predicate Strays(q: Queue, owed: set<nat>, turn: Turn) {
    turn.Adds? && q.card != Some(turn.of) && !(Members(turn.numbers) <= owed)
  }

  predicate NeverLoses(q: Queue, owed: set<nat>, turns: seq<Turn>)
    decreases |turns|
  {
    turns != [] ==>
      !Loses(q, owed, turns[0]) && NeverLoses(After(q, turns[0]), OwedAfter(q, owed, turns[0]), turns[1..])
  }

  predicate NeverStrays(q: Queue, owed: set<nat>, turns: seq<Turn>)
    decreases |turns|
  {
    turns != [] ==>
      !Strays(q, owed, turns[0]) && NeverStrays(After(q, turns[0]), OwedAfter(q, owed, turns[0]), turns[1..])
  }

  /** Everything owed is queued, at every moment. */
  predicate AllQueued(q: Queue, owed: set<nat>, turns: seq<Turn>)
    decreases |turns|
  {
    && owed <= Members(q.pending)
    && (turns != [] ==> AllQueued(After(q, turns[0]), OwedAfter(q, owed, turns[0]), turns[1..]))
  }

  /** Nothing else is queued, so no request names anything else, at every moment. */
  predicate OnlyOwed(q: Queue, owed: set<nat>, turns: seq<Turn>)
    decreases |turns|
  {
    && Members(q.pending) <= owed
    && (turns != [] ==> OnlyOwed(After(q, turns[0]), OwedAfter(q, owed, turns[0]), turns[1..]))
  }

  /** One turn, as sets of numbers. */
  lemma MembersAfter(q: Queue, turn: Turn)
    ensures var before, after := Members(q.pending), Members(After(q, turn).pending);
            match turn
            case Looks(_) => after == before
            case Returns(outcome) =>
              after == if q.sent.None? || outcome.NoRun? then before
                       else if outcome.CardChanged? then {} else before - Settled(outcome.lines)
            case Reads(eid) => after == if q.card == Some(eid) then before else {}
            case Adds(_, numbers) => after == before + Members(numbers)
  {
    if turn.Returns? && turn.outcome.Results? {
      KeepingFacts(q.pending, Settled(turn.outcome.lines));
    } else if turn.Adds? {
      QueuedFacts(q.pending, turn.numbers);
    }
  }

  lemma ApartExactly(a: set<nat>, b: set<nat>, c: set<nat>)
    requires a <= b
    ensures a * c == {} <==> a <= b - c
  {
    if a <= b - c {
      assert forall n :: n in a ==> n !in c;
    } else {
      var n :| n in a && n !in b - c;
      assert n in a * c;
    }
  }

  lemma StepLosesExactly(q: Queue, owed: set<nat>, turn: Turn)
    requires owed <= Members(q.pending)
    ensures OwedAfter(q, owed, turn) <= Members(After(q, turn).pending) <==> !Loses(q, owed, turn)
  {
    hide After;
    MembersAfter(q, turn);
    if turn.Returns? && turn.outcome.Results? {
      ApartExactly(owed, Members(q.pending), Settled(turn.outcome.lines));
    }
  }

  lemma StepStraysExactly(q: Queue, owed: set<nat>, turn: Turn)
    requires Members(q.pending) <= owed
    ensures Members(After(q, turn).pending) <= OwedAfter(q, owed, turn) <==> !Strays(q, owed, turn)
  {
    hide After;
    MembersAfter(q, turn);
  }

  /**
   Over every interleaving: no receipt of the card read last ever leaves the queue undelivered exactly
   when no run that was made on another card, or found another, takes out what that card is owed.
   */
  lemma {:induction false} NothingLostExactly(q: Queue, owed: set<nat>, turns: seq<Turn>)
    requires owed <= Members(q.pending)
    ensures AllQueued(q, owed, turns) <==> NeverLoses(q, owed, turns)
    decreases |turns|
  {
    if turns != [] {
      StepLosesExactly(q, owed, turns[0]);
      if !Loses(q, owed, turns[0]) {
        NothingLostExactly(After(q, turns[0]), OwedAfter(q, owed, turns[0]), turns[1..]);
      }
    }
  }

  /**
   And only receipts of changes made on the card read last are ever asked for exactly when none is
   queued after another card was read.
   */
  lemma {:induction false} NothingElseExactly(q: Queue, owed: set<nat>, turns: seq<Turn>)
    requires Members(q.pending) <= owed
    ensures OnlyOwed(q, owed, turns) <==> NeverStrays(q, owed, turns)
    decreases |turns|
  {
    if turns != [] {
      StepStraysExactly(q, owed, turns[0]);
      if !Strays(q, owed, turns[0]) {
        NothingElseExactly(After(q, turns[0]), OwedAfter(q, owed, turns[0]), turns[1..]);
      }
    }
  }

  /** Another card is read while a request is under way. */
  predicate SwapsUnderWay(q: Queue, turns: seq<Turn>)
    decreases |turns|
  {
    turns != [] &&
    ((turns[0].Reads? && q.sent.Some? && q.card != Some(turns[0].eid)) || SwapsUnderWay(After(q, turns[0]), turns[1..]))
  }

  /** A request goes stale only by a read of another card while it is under way. */
  lemma {:induction false} StaleOnlyBySwap(q: Queue, turns: seq<Turn>)
    requires !Stale(q) && Stale(Run(q, turns))
    ensures SwapsUnderWay(q, turns)
    decreases |turns|
  {
    if !Stale(After(q, turns[0])) {
      StaleOnlyBySwap(After(q, turns[0]), turns[1..]);
    }
  }

  /** A loss: the run meant for card `x` finds card `y`, whose receipt was queued while it was under way. */
  lemma StaleRunExample(x: string, y: string, m: nat, n: nat)
    requires x != y
    ensures var start := Queue(Some(x), [m], 0, true, false, None);
            var looked := After(start, Looks(true));
            var swapped := After(looked, Reads(y));
            var added := After(swapped, Adds(y, [n]));
            && OwedAfter(swapped, {}, Adds(y, [n])) == {n} && added.pending == [n]
            && Loses(added, {n}, Returns(CardChanged)) && After(added, Returns(CardChanged)).pending == []
  {
    var swapped := After(After(Queue(Some(x), [m], 0, true, false, None), Looks(true)), Reads(y));
    assert swapped == Queue(Some(y), [], 0, true, false, Some(Request(x, [m])));
    assert Members([n]) == {n};
    assert Queued([], [n]) == [n];
  }

  // ---------------------------------------------------------------------------
  // Rounds
  // ---------------------------------------------------------------------------

  function UnderWay(q: Queue): nat {
    if q.sent.Some? then 1 else 0
  }

  /** Requests made. */
  function Requests(q: Queue, turns: seq<Turn>): nat
    decreases |turns|
  {
    if turns == [] then 0
    else
      var next := After(q, turns[0]);
      (if q.sent.None? && next.sent.Some? then 1 else 0) + Requests(next, turns[1..])
  }

  /** Turns that start the rounds over: new receipts, or another card. */
  function Restarts(q: Queue, turns: seq<Turn>): nat
    decreases |turns|
  {
    if turns == [] then 0
    else
      var t := turns[0];
      (if (t.Adds? && t.numbers != []) || (t.Reads? && q.card != Some(t.eid)) then 1 else 0)
      + Restarts(After(q, t), turns[1..])
  }

  /** At most 24 requests are made, and 24 more for each time new receipts or another card start the rounds over. */
  lemma {:induction false} AtMostRounds(q: Queue, turns: seq<Turn>)
    requires q.round + UnderWay(q) <= MAX_ROUNDS
    ensures Requests(q, turns) + q.round + UnderWay(q) <= MAX_ROUNDS * (1 + Restarts(q, turns))
    decreases |turns|
  {
    if turns != [] {
      AtMostRounds(After(q, turns[0]), turns[1..]);
    }
  }

  /** A worker that is not working has nothing left, or has used its rounds up and says that it gave up. */
  predicate Honest(q: Queue) {
    && (!q.working ==> q.sent.None? && (q.gaveUp <==> q.pending != []))
    && (q.gaveUp ==> !q.working && q.round >= MAX_ROUNDS)
  }

  lemma {:induction false} StopsHonestly(q: Queue, turns: seq<Turn>)
    requires Honest(q)
    ensures Honest(Run(q, turns))
    decreases |turns|
  {
    if turns != [] {
      StopsHonestly(After(q, turns[0]), turns[1..]);
    }
  }

  // ---------------------------------------------------------------------------
  // The helper's limit
  // ---------------------------------------------------------------------------

  predicate AcceptsRequest(numbers: seq<nat>) {
    numbers != [] && |numbers| <= MAX_NUMBERS
  }

  /** Every run is made of a request the helper takes; one it refuses comes to nothing. */
  predicate Possible(q: Queue, turns: seq<Turn>)
    decreases |turns|
  {
    turns != [] ==>
      && (turns[0].Returns? && q.sent.Some? && !AcceptsRequest(q.sent.value.numbers) ==> turns[0].outcome == NoRun)
      && Possible(After(q, turns[0]), turns[1..])
  }

  /**
   With more than 32 receipts in the queue none is ever sent, whatever is queued besides: every
   request names them all and is refused, until another card is read.
   */
  lemma {:induction false} TooManyAreNeverSent(q: Queue, turns: seq<Turn>)
    requires |q.pending| > MAX_NUMBERS && (q.sent.Some? ==> |q.sent.value.numbers| > MAX_NUMBERS)
    requires Possible(q, turns) && forall t :: t in turns && t.Reads? ==> q.card == Some(t.eid)
    ensures q.pending <= Run(q, turns).pending
    decreases |turns|
  {
    if turns != [] {
      var next := After(q, turns[0]);
      if turns[0].Adds? {
        QueuedFacts(q.pending, turns[0].numbers);
      }
      assert turns[0] in turns && q.pending <= next.pending;
      TooManyAreNeverSent(next, turns[1..]);
    }
  }

  /** Up to 32 are taken, in this round and, as without new receipts the queue only shrinks, in every later one. */
  lemma {:induction false} FewAreAlwaysTaken(q: Queue, turns: seq<Turn>)
    requires |q.pending| <= MAX_NUMBERS && (q.sent.Some? ==> AcceptsRequest(q.sent.value.numbers))
    requires forall t :: t in turns ==> !t.Adds?
    ensures var end := Run(q, turns);
            |end.pending| <= MAX_NUMBERS && (end.sent.Some? ==> AcceptsRequest(end.sent.value.numbers))
    decreases |turns|
  {
    if turns != [] {
      assert turns[0] in turns;
      if turns[0].Returns? && turns[0].outcome.Results? {
        KeepingShrinks(q.pending, Settled(turns[0].outcome.lines));
      }
      FewAreAlwaysTaken(After(q, turns[0]), turns[1..]);
    }
  }

  lemma {:induction false} KeepingShrinks(pending: seq<nat>, settled: set<nat>)
    ensures |Keeping(pending, settled)| <= |pending|
  {
    if pending != [] {
      KeepingShrinks(pending[1..], settled);
    }
  }
}
