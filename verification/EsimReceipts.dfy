/**
 Operator receipts: the helper's delivery run (`esim-helper/src/main.rs`) and the agent's queue and
 worker (`agent/src/esim.rs`).
 */
module EsimReceipts {
  import opened Prelude
  import opened EsimCard
  import H = EsimHelper
  import Text

  // ---------------------------------------------------------------------------
  // One delivery run
  // ---------------------------------------------------------------------------

  /** What the helper reports of one number. */
  datatype Line = Line(number: nat, delivered: bool, gone: bool, removed: bool)

  datatype Failure = Faulty(fault: H.Fault) | CardChanged | UntrustedCi

  /**
   What becomes of a removal: the card answers with a code (0 removed, 1 nothing to remove), or the answer is
   lost.
   */
  datatype Removal = Answered(code: nat) | Lost(applied: bool)

  /**
   How a run fares. `retrieve` and `accepts` say of the `k`-th number of the request whether its
   receipt can be read and whether its server accepts it; `remove` what becomes of its removal.
   */
  datatype Weather = Weather(open: Option<H.Fault>, eid: Option<H.Fault>, info: Option<H.Fault>, trusted: bool,
                             list: Option<H.Fault>, retrieve: nat -> Option<H.Fault>, accepts: nat -> bool,
                             reopen: bool, remove: nat -> Removal)

  /** A receipt read off the card: its number and its place in the request. */
  datatype Item = Item(number: nat, place: nat)

  /** The first `k` numbers that the card lists. */
  function Items(numbers: seq<nat>, listed: seq<nat>, k: nat): seq<Item>
    requires k <= |numbers|
  {
    if k == 0 then []
    else Items(numbers, listed, k - 1) + (if numbers[k - 1] in listed then [Item(numbers[k - 1], k - 1)] else [])
  }

  function GoneLine(number: nat): Line {
    Line(number, false, true, false)
  }

  function GoneLines(numbers: seq<nat>, listed: seq<nat>, k: nat): seq<Line>
    requires k <= |numbers|
  {
    if k == 0 then []
    else GoneLines(numbers, listed, k - 1) + (if numbers[k - 1] in listed then [] else [GoneLine(numbers[k - 1])])
  }

  function RetrieveFault(numbers: seq<nat>, listed: seq<nat>, retrieve: nat -> Option<H.Fault>, k: nat): Option<H.Fault>
    requires k <= |numbers|
  {
    if k == 0 then None
    else
      var earlier := RetrieveFault(numbers, listed, retrieve, k - 1);
      if earlier.Some? then earlier else if numbers[k - 1] in listed then retrieve(k - 1) else None
  }

  function Delivered(items: seq<Item>, accepts: nat -> bool, k: nat): seq<Item>
    requires k <= |items|
  {
    if k == 0 then []
    else Delivered(items, accepts, k - 1) + (if accepts(items[k - 1].place) then [items[k - 1]] else [])
  }

  function RejectedLine(number: nat): Line {
    Line(number, false, false, false)
  }

  function RejectedLines(items: seq<Item>, accepts: nat -> bool, k: nat): seq<Line>
    requires k <= |items|
  {
    if k == 0 then []
    else RejectedLines(items, accepts, k - 1)
         + (if accepts(items[k - 1].place) then [] else [RejectedLine(items[k - 1].number)])
  }

  predicate RemovedOk(r: Removal) {
    r.Answered? && r.code <= 1
  }

  predicate TakesEffect(r: Removal) {
    r == Answered(0) || r == Lost(true)
  }

  function DeliveredLines(items: seq<Item>, reopened: bool, remove: nat -> Removal): (lines: seq<Line>)
    ensures |lines| == |items|
  {
    seq(|items|, i requires 0 <= i < |items| =>
      Line(items[i].number, true, false, reopened && RemovedOk(remove(items[i].place))))
  }

  function Without(receipts: seq<nat>, number: nat): seq<nat> {
    if receipts == [] then []
    else (if receipts[0] == number then [] else [receipts[0]]) + Without(receipts[1..], number)
  }

  /** The receipts left on the card after the first `k` removals. */
  function ReceiptsAfter(receipts: seq<nat>, items: seq<Item>, remove: nat -> Removal, k: nat): seq<nat>
    requires k <= |items|
  {
    if k == 0 then receipts
    else
      var left := ReceiptsAfter(receipts, items, remove, k - 1);
      if TakesEffect(remove(items[k - 1].place)) then Without(left, items[k - 1].number) else left
  }

  /** A run: the card after it, the numbers whose delivery was attempted, and the answer. */
  datatype Report = Report(card: Card, posted: seq<nat>, answer: Result<seq<Line>, Failure>)

  function Numbers(items: seq<Item>): (numbers: seq<nat>)
    ensures |numbers| == |items|
  {
    seq(|items|, i requires 0 <= i < |items| => items[i].number)
  }

  function LineNumbers(lines: seq<Line>): (numbers: seq<nat>)
    ensures |numbers| == |lines|
  {
    seq(|lines|, i requires 0 <= i < |lines| => lines[i].number)
  }

  /** What stops a run before anything is sent. */
  function Obstacle(card: Card, expectEid: string, numbers: seq<nat>, w: Weather): Option<Failure> {
    var retrieval := RetrieveFault(numbers, card.receipts, w.retrieve, |numbers|);
    if w.open.Some? then Some(Faulty(w.open.value))
    else if w.eid.Some? then Some(Faulty(w.eid.value))
    else if !Text.EqualIgnoreCase(expectEid, card.eid) then Some(CardChanged)
    else if w.info.Some? then Some(Faulty(w.info.value))
    else if !w.trusted then Some(UntrustedCi)
    else if w.list.Some? then Some(Faulty(w.list.value))
    else if retrieval.Some? then Some(Faulty(retrieval.value))
    else None
  }

  function Sent(card: Card, numbers: seq<nat>, w: Weather): Report {
    var items := Items(numbers, card.receipts, |numbers|);
    var delivered := Delivered(items, w.accepts, |items|);
    Report(
      if w.reopen then card.(receipts := ReceiptsAfter(card.receipts, delivered, w.remove, |delivered|)) else card,
      Numbers(items),
      Ok(GoneLines(numbers, card.receipts, |numbers|) + RejectedLines(items, w.accepts, |items|)
         + DeliveredLines(delivered, w.reopen, w.remove)))
  }

  function Notified(card: Card, expectEid: string, numbers: seq<nat>, w: Weather): Report {
    var obstacle := Obstacle(card, expectEid, numbers, w);
    if obstacle.Some? then Report(card, [], Err(obstacle.value)) else Sent(card, numbers, w)
  }

  lemma {:induction false} FirstFaultStays(numbers: seq<nat>, listed: seq<nat>, retrieve: nat -> Option<H.Fault>,
                                           k: nat, end: nat)
    requires k <= end <= |numbers| && RetrieveFault(numbers, listed, retrieve, k).Some?
    ensures RetrieveFault(numbers, listed, retrieve, end) == RetrieveFault(numbers, listed, retrieve, k)
    decreases end
  {
    if k < end {
      FirstFaultStays(numbers, listed, retrieve, k, end - 1);
    }
  }

  class Helper {
    var card: Card
    /** Numbers whose delivery was attempted. */
    var posted: seq<nat>

    constructor (card: Card)
      ensures this.card == card && posted == []
    {
      this.card, posted := card, [];
    }

    /** Reads the named receipts off the card. */
    method Collect(numbers: seq<nat>, w: Weather) returns (items: seq<Item>, gone: seq<Line>, fault: Option<H.Fault>)
      ensures fault == RetrieveFault(numbers, card.receipts, w.retrieve, |numbers|)
      ensures fault.None? ==>
                && items == Items(numbers, card.receipts, |numbers|)
                && gone == GoneLines(numbers, card.receipts, |numbers|)
    {
      var listed := card.receipts;
      items, gone := [], [];
      for k := 0 to |numbers|
        invariant items == Items(numbers, listed, k) && gone == GoneLines(numbers, listed, k)
        invariant RetrieveFault(numbers, listed, w.retrieve, k).None?
      {
        if numbers[k] !in listed {
          gone := gone + [GoneLine(numbers[k])];
        } else {
          if w.retrieve(k).Some? {
            FirstFaultStays(numbers, listed, w.retrieve, k + 1, |numbers|);
            return items, gone, w.retrieve(k);
          }
          items := items + [Item(numbers[k], k)];
        }
      }
      return items, gone, None;
    }

    /** Tries each receipt at its server; the card session is closed meanwhile. */
    method Post(items: seq<Item>, w: Weather) returns (delivered: seq<Item>, rejected: seq<Line>)
      modifies this`posted
      ensures delivered == Delivered(items, w.accepts, |items|) && rejected == RejectedLines(items, w.accepts, |items|)
      ensures posted == old(posted) + Numbers(items)
    {
      delivered, rejected := [], [];
      for k := 0 to |items|
        invariant delivered == Delivered(items, w.accepts, k) && rejected == RejectedLines(items, w.accepts, k)
        invariant posted == old(posted) + Numbers(items)[..k]
      {
        var item := items[k];
        posted := posted + [item.number];
        if w.accepts(item.place) {
          delivered := delivered + [item];
        } else {
          rejected := rejected + [RejectedLine(item.number)];
        }
      }
    }

    /** Removes the delivered receipts from the card. */
    method Remove(delivered: seq<Item>, w: Weather) returns (lines: seq<Line>)
      modifies this`card
      ensures lines == DeliveredLines(delivered, true, w.remove)
      ensures card == old(card).(receipts := ReceiptsAfter(old(card).receipts, delivered, w.remove, |delivered|))
    {
      lines := [];
      for k := 0 to |delivered|
        invariant lines == DeliveredLines(delivered, true, w.remove)[..k]
        invariant card == old(card).(receipts := ReceiptsAfter(old(card).receipts, delivered, w.remove, k))
      {
        var item := delivered[k];
        var fate := w.remove(item.place);
        if TakesEffect(fate) {
          card := card.(receipts := Without(card.receipts, item.number));
        }
        lines := lines + [Line(item.number, true, false, RemovedOk(fate))];
      }
    }

    method Notify(expectEid: string, numbers: seq<nat>, w: Weather) returns (r: Result<seq<Line>, Failure>)
      modifies this
      ensures var report := Notified(old(card), expectEid, numbers, w);
              card == report.card && posted == old(posted) + report.posted && r == report.answer
    {
      if w.open.Some? {
        return Err(Faulty(w.open.value));
      }
      if w.eid.Some? {
        return Err(Faulty(w.eid.value));
      }
      if !Text.EqualIgnoreCase(expectEid, card.eid) {
        return Err(CardChanged);
      }
      if w.info.Some? {
        return Err(Faulty(w.info.value));
      }
      if !w.trusted {
        return Err(UntrustedCi);
      }
      if w.list.Some? {
        return Err(Faulty(w.list.value));
      }
      var items, results, fault := Collect(numbers, w);
      if fault.Some? {
        return Err(Faulty(fault.value));
      }
      var delivered, rejected := Post(items, w);
      results := results + rejected;
      if delivered != [] {
        if w.reopen {
          var lines := Remove(delivered, w);
          results := results + lines;
        } else {
          results := results + DeliveredLines(delivered, false, w.remove);
        }
      } else {
        assert results + [] == results;
      }
      return Ok(results);
    }
  }

  // ---------------------------------------------------------------------------
  // What a run's answer says
  // ---------------------------------------------------------------------------

  function Count(numbers: seq<nat>, n: nat): nat {
    if numbers == [] then 0
    else Count(numbers[..|numbers| - 1], n) + (if numbers[|numbers| - 1] == n then 1 else 0)
  }

  lemma CountAppend(numbers: seq<nat>, last: nat, n: nat)
    ensures Count(numbers + [last], n) == Count(numbers, n) + (if last == n then 1 else 0)
  {
    assert (numbers + [last])[..|numbers|] == numbers;
  }

  lemma {:induction false} CountConcat(a: seq<nat>, b: seq<nat>, n: nat)
    ensures Count(a + b, n) == Count(a, n) + Count(b, n)
  {
    if b == [] {
      assert a + b == a;
    } else {
      assert (a + b)[..|a + b| - 1] == a + b[..|b| - 1];
      CountConcat(a, b[..|b| - 1], n);
    }
  }

  lemma LineAppend(lines: seq<Line>, last: Line, n: nat)
    ensures Count(LineNumbers(lines + [last]), n) == Count(LineNumbers(lines), n) + (if last.number == n then 1 else 0)
  {
    assert LineNumbers(lines + [last]) == LineNumbers(lines) + [last.number];
    CountAppend(LineNumbers(lines), last.number, n);
  }

  lemma ItemAppend(items: seq<Item>, last: Item, n: nat)
    ensures Count(Numbers(items + [last]), n) == Count(Numbers(items), n) + (if last.number == n then 1 else 0)
  {
    assert Numbers(items + [last]) == Numbers(items) + [last.number];
    CountAppend(Numbers(items), last.number, n);
  }

  lemma NothingMore<T>(s: seq<T>)
    ensures s + [] == s
  {
  }

  lemma {:induction false} GoneAndItems(numbers: seq<nat>, listed: seq<nat>, n: nat, k: nat)
    requires k <= |numbers|
    ensures Count(LineNumbers(GoneLines(numbers, listed, k)), n) + Count(Numbers(Items(numbers, listed, k)), n)
         == Count(numbers[..k], n)
  {
    if k == 0 {
      assert LineNumbers([]) == [] && Numbers([]) == [];
    } else {
      GoneAndItems(numbers, listed, n, k - 1);
      var lines, items := GoneLines(numbers, listed, k - 1), Items(numbers, listed, k - 1);
      NothingMore(lines);
      NothingMore(items);
      LineAppend(lines, GoneLine(numbers[k - 1]), n);
      ItemAppend(items, Item(numbers[k - 1], k - 1), n);
      CountAppend(numbers[..k - 1], numbers[k - 1], n);
      assert numbers[..k] == numbers[..k - 1] + [numbers[k - 1]];
    }
  }

  lemma {:induction false} RejectedAndDelivered(items: seq<Item>, accepts: nat -> bool, n: nat, k: nat)
    requires k <= |items|
    ensures Count(LineNumbers(RejectedLines(items, accepts, k)), n) + Count(Numbers(Delivered(items, accepts, k)), n)
         == Count(Numbers(items[..k]), n)
  {
    if k == 0 {
      assert LineNumbers([]) == [] && Numbers([]) == [] == Numbers(items[..0]);
    } else {
      RejectedAndDelivered(items, accepts, n, k - 1);
      var lines, delivered := RejectedLines(items, accepts, k - 1), Delivered(items, accepts, k - 1);
      NothingMore(lines);
      NothingMore(delivered);
      LineAppend(lines, RejectedLine(items[k - 1].number), n);
      ItemAppend(delivered, items[k - 1], n);
      ItemAppend(items[..k - 1], items[k - 1], n);
      assert items[..k] == items[..k - 1] + [items[k - 1]];
    }
  }

  lemma LinesConcat(a: seq<Line>, b: seq<Line>, n: nat)
    ensures Count(LineNumbers(a + b), n) == Count(LineNumbers(a), n) + Count(LineNumbers(b), n)
  {
    assert LineNumbers(a + b) == LineNumbers(a) + LineNumbers(b);
    CountConcat(LineNumbers(a), LineNumbers(b), n);
  }

  /** A run that answers reports every number exactly as often as it was asked for. */
  lemma OneResultPerNumber(card: Card, expectEid: string, numbers: seq<nat>, w: Weather, n: nat)
    requires Notified(card, expectEid, numbers, w).answer.Ok?
    ensures Count(LineNumbers(Notified(card, expectEid, numbers, w).answer.value), n) == Count(numbers, n)
  {
    var items := Items(numbers, card.receipts, |numbers|);
    var delivered := Delivered(items, w.accepts, |items|);
    SentCounts(numbers, card.receipts, w, items, delivered, n);
  }

  lemma SentCounts(numbers: seq<nat>, listed: seq<nat>, w: Weather, items: seq<Item>, delivered: seq<Item>, n: nat)
    requires items == Items(numbers, listed, |numbers|) && delivered == Delivered(items, w.accepts, |items|)
    ensures var gone, rejected := GoneLines(numbers, listed, |numbers|), RejectedLines(items, w.accepts, |items|);
            Count(LineNumbers(gone + rejected + DeliveredLines(delivered, w.reopen, w.remove)), n) == Count(numbers, n)
  {
    var gone, rejected := GoneLines(numbers, listed, |numbers|), RejectedLines(items, w.accepts, |items|);
    var sent := DeliveredLines(delivered, w.reopen, w.remove);
    LinesConcat(gone + rejected, sent, n);
    LinesConcat(gone, rejected, n);
    assert LineNumbers(sent) == Numbers(delivered);
    GoneAndItems(numbers, listed, n, |numbers|);
    RejectedAndDelivered(items, w.accepts, n, |items|);
    assert numbers[..|numbers|] == numbers && items[..|items|] == items;
  }

  /** The server of some place in the request with this number accepted its receipt. */
  ghost predicate Accepted(numbers: seq<nat>, w: Weather, number: nat) {
    exists k :: 0 <= k < |numbers| && numbers[k] == number && w.accepts(k)
  }

  lemma {:induction false} ItemsAreAsked(numbers: seq<nat>, listed: seq<nat>, k: nat)
    requires k <= |numbers|
    ensures forall item :: item in Items(numbers, listed, k) ==>
              item.place < |numbers| && numbers[item.place] == item.number && item.number in listed
  {
    if k > 0 {
      ItemsAreAsked(numbers, listed, k - 1);
    }
  }

  lemma {:induction false} DeliveredAreAccepted(items: seq<Item>, accepts: nat -> bool, k: nat)
    requires k <= |items|
    ensures forall item :: item in Delivered(items, accepts, k) ==> item in items && accepts(item.place)
  {
    if k > 0 {
      DeliveredAreAccepted(items, accepts, k - 1);
    }
  }

  lemma {:induction false} GoneTellTruth(numbers: seq<nat>, listed: seq<nat>, k: nat)
    requires k <= |numbers|
    ensures forall l :: l in GoneLines(numbers, listed, k) ==> !l.delivered && l.gone && l.number !in listed
  {
    if k > 0 {
      GoneTellTruth(numbers, listed, k - 1);
    }
  }

  lemma {:induction false} RejectedTellTruth(items: seq<Item>, accepts: nat -> bool, k: nat)
    requires k <= |items|
    ensures forall l :: l in RejectedLines(items, accepts, k) ==> !l.delivered && !l.gone
  {
    if k > 0 {
      RejectedTellTruth(items, accepts, k - 1);
    }
  }

  /** Delivered means its server accepted it; gone means the card did not list it. */
  lemma ResultsTellTruth(card: Card, expectEid: string, numbers: seq<nat>, w: Weather, line: Line)
    requires var answer := Notified(card, expectEid, numbers, w).answer; answer.Ok? && line in answer.value
    ensures line.delivered ==> !line.gone && Accepted(numbers, w, line.number) && line.number in card.receipts
    ensures line.gone ==> line.number !in card.receipts
  {
    var items := Items(numbers, card.receipts, |numbers|);
    var delivered := Delivered(items, w.accepts, |items|);
    ItemsAreAsked(numbers, card.receipts, |numbers|);
    DeliveredAreAccepted(items, w.accepts, |items|);
    GoneTellTruth(numbers, card.receipts, |numbers|);
    RejectedTellTruth(items, w.accepts, |items|);
    if line in DeliveredLines(delivered, w.reopen, w.remove) {
      var i :| 0 <= i < |delivered| && line == DeliveredLines(delivered, w.reopen, w.remove)[i];
      assert delivered[i] in delivered;
    }
  }

  lemma {:induction false} WithoutFacts(receipts: seq<nat>, number: nat)
    ensures forall n :: n in Without(receipts, number) <==> n in receipts && n != number
  {
    if receipts != [] {
      WithoutFacts(receipts[1..], number);
    }
  }

  lemma {:induction false} RemovalFacts(receipts: seq<nat>, items: seq<Item>, remove: nat -> Removal, k: nat)
    requires k <= |items|
    ensures forall n :: n in ReceiptsAfter(receipts, items, remove, k) ==> n in receipts
    ensures forall n :: n in receipts && n !in ReceiptsAfter(receipts, items, remove, k) ==>
              exists i :: 0 <= i < k && items[i].number == n
  {
    if k > 0 {
      RemovalFacts(receipts, items, remove, k - 1);
      WithoutFacts(ReceiptsAfter(receipts, items, remove, k - 1), items[k - 1].number);
    }
  }

  /**
   SGP.22 section 5.7.11: a receipt leaves the card only after its server accepted it; none is
   added, the profiles stay, and a run that fails has sent and removed nothing.
   */
  lemma OnlyAcceptedAreRemoved(card: Card, expectEid: string, numbers: seq<nat>, w: Weather)
    ensures var report := Notified(card, expectEid, numbers, w);
            && report.card.profiles == card.profiles && report.card.eid == card.eid
            && (forall n :: n in report.card.receipts ==> n in card.receipts)
            && (forall n :: n in card.receipts && n !in report.card.receipts ==> Accepted(numbers, w, n))
            && (report.answer.Err? ==> report.card == card && report.posted == [])
  {
    var items := Items(numbers, card.receipts, |numbers|);
    var delivered := Delivered(items, w.accepts, |items|);
    RemovedWereAccepted(numbers, card.receipts, w, items, delivered);
  }

  lemma RemovedWereAccepted(numbers: seq<nat>, listed: seq<nat>, w: Weather, items: seq<Item>, delivered: seq<Item>)
    requires items == Items(numbers, listed, |numbers|) && delivered == Delivered(items, w.accepts, |items|)
    ensures var left := ReceiptsAfter(listed, delivered, w.remove, |delivered|);
            && (forall n :: n in left ==> n in listed)
            && (forall n :: n in listed && n !in left ==> Accepted(numbers, w, n))
  {
    ItemsAreAsked(numbers, listed, |numbers|);
    DeliveredAreAccepted(items, w.accepts, |items|);
    RemovalFacts(listed, delivered, w.remove, |delivered|);
    var left := ReceiptsAfter(listed, delivered, w.remove, |delivered|);
    forall n | n in listed && n !in left ensures Accepted(numbers, w, n) {
      var i :| 0 <= i < |delivered| && delivered[i].number == n;
      var item := delivered[i];
      assert item in delivered && numbers[item.place] == n && w.accepts(item.place);
    }
  }
}
