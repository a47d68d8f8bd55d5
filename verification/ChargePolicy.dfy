/** Charge limit enforcement with hysteresis, and its configuration (`agent/src/charge_policy.rs`). */
module ChargePolicy {
  import opened Prelude

  datatype Policy = Policy(enabled: bool, limit: nat, hysteresis: nat)

  predicate InRange(p: Policy) {
    50 <= p.limit <= 100 && 1 <= p.hysteresis <= 20
  }

  datatype Snapshot = Snapshot(stopped: bool, capacity: nat, discharging: bool)

  /** Whether charging should be stopped. */
  function Desired(p: Policy, s: Snapshot): bool {
    if !p.enabled then false
    else if s.discharging && !s.stopped then false
    else if s.capacity >= p.limit then true
    else if s.capacity <= Max(0, p.limit - p.hysteresis) then false
    else s.stopped
  }

  // ---------------------------------------------------------------------------
  // Hardware and storage
  // ---------------------------------------------------------------------------

  /** A call that may fail, and then may or may not have had its effect. */
  datatype Fate = Works | FailsAfter | FailsBefore

  predicate Takes(f: Fate) {
    f != FailsBefore
  }

  /** Everything the enforcer sees and keeps: its own fields, the charger, and the saved policy. */
  datatype World = World(policy: Policy, manual: bool, failed: bool, stopped: bool, capacity: nat,
                         discharging: bool, saved: Policy)

  function Seen(w: World): Snapshot {
    Snapshot(w.stopped, w.capacity, w.discharging)
  }

  function Switched(w: World, stopped: bool, fate: Fate): World {
    if Takes(fate) then w.(stopped := stopped) else w
  }

  function Saved(w: World, policy: Policy, fate: Fate): World {
    if Takes(fate) then w.(saved := policy) else w
  }

  class Charger {
    var stopped: bool
    var capacity: nat
    var discharging: bool
    var saved: Policy

    constructor (stopped: bool, capacity: nat, discharging: bool, saved: Policy)
      ensures this.stopped == stopped && this.capacity == capacity
      ensures this.discharging == discharging && this.saved == saved
    {
      this.stopped, this.capacity, this.discharging, this.saved := stopped, capacity, discharging, saved;
    }

    method SetStopped(value: bool, fate: Fate) returns (ok: bool)
      modifies this`stopped
      ensures stopped == if Takes(fate) then value else old(stopped)
      ensures ok <==> fate == Works
    {
      if fate != FailsBefore {
        stopped := value;
      }
      ok := fate == Works;
    }

    method Persist(policy: Policy, fate: Fate) returns (ok: bool)
      modifies this`saved
      ensures saved == if Takes(fate) then policy else old(saved)
      ensures ok <==> fate == Works
    {
      if fate != FailsBefore {
        saved := policy;
      }
      ok := fate == Works;
    }
  }

  // ---------------------------------------------------------------------------
  // Specifications
  // ---------------------------------------------------------------------------

  predicate Idle(w: World, unplugged: bool) {
    !unplugged && (!w.policy.enabled || w.manual)
  }

  /** One tick of the enforcer, `readable` saying whether the sensors answer. */
  function Ticked(w: World, unplugged: bool, readable: bool, fate: Fate): World {
    if Idle(w, unplugged) then w
    else if !readable then w.(failed := true)
    else
      var stopped := !unplugged && Desired(w.policy, Seen(w));
      if stopped == w.stopped || fate == Works then
        w.(stopped := stopped, manual := if unplugged then false else w.manual, failed := false)
      else Switched(w, stopped, fate).(failed := true)
  }

  datatype Update = Update(stopped: Option<bool>, enabled: Option<bool>, limit: Option<nat>, hysteresis: Option<nat>)

  /** How the calls of an update fare, the last two those that put things back. */
  datatype Weather = Weather(readable: bool, switch: Fate, save: Fate, switchBack: Fate, saveBack: Fate)

  predicate ChangesPolicy(u: Update) {
    u.enabled.Some? || u.limit.Some? || u.hysteresis.Some?
  }

  function Or<T>(o: Option<T>, default: T): T {
    if o.Some? then o.value else default
  }

  function NewPolicy(p: Policy, u: Update): Policy {
    Policy(Or(u.enabled, p.enabled), Or(u.limit, p.limit), Or(u.hysteresis, p.hysteresis))
  }

  predicate Acceptable(p: Policy, u: Update) {
    (ChangesPolicy(u) || u.stopped.Some?) && InRange(NewPolicy(p, u))
  }

  predicate Succeeds(p: Policy, u: Update, how: Weather) {
    Acceptable(p, u) && Lands(ChangesPolicy(u), how)
  }

  function Target(w: World, u: Update): bool {
    Or(u.stopped, Desired(NewPolicy(w.policy, u), Seen(w)))
  }

  /** Charger and storage after an attempt to put `next` into force, and after undoing one that failed. */
  function Attempted(w: World, next: Policy, target: bool, changes: bool, how: Weather): World {
    var switched := Switched(w, target, how.switch);
    if !how.readable then w
    else if how.switch != Works then Switched(switched, w.stopped, how.switchBack)
    else if !changes || how.save == Works then (if changes then switched.(saved := next) else switched)
    else Saved(Switched(Saved(switched, next, how.save), w.stopped, how.switchBack), w.policy, how.saveBack)
  }

  predicate Lands(changes: bool, how: Weather) {
    how.readable && how.switch == Works && (changes ==> how.save == Works)
  }

  /** An update, with everything a failed one leaves behind. */
  function Changed(w: World, u: Update, how: Weather): World {
    if !Acceptable(w.policy, u) then w
    else
      var after := Attempted(w, NewPolicy(w.policy, u), Target(w, u), ChangesPolicy(u), how);
      if !Succeeds(w.policy, u, how) then after.(failed := true)
      else
        after.(policy := NewPolicy(w.policy, u), failed := false,
               manual := Or(u.stopped, if ChangesPolicy(u) then false else w.manual))
  }

  /**
   A failed update keeps the policy in force, and puts charger and storage back exactly when something took
   effect there that could be undone.
   */
  lemma FailedUpdateUndone(w: World, u: Update, how: Weather)
    requires Acceptable(w.policy, u) && how.readable && !Succeeds(w.policy, u, how) && w.saved == w.policy
    ensures var next := Changed(w, u, how);
            && next.policy == w.policy && next.manual == w.manual && next.failed
            && (next.stopped == w.stopped <==> Takes(how.switchBack) || !Takes(how.switch) || Target(w, u) == w.stopped)
            && (next.saved == next.policy <==>
                how.switch != Works || Takes(how.saveBack) || !Takes(how.save) || NewPolicy(w.policy, u) == w.policy)
  {
  }

  /** A successful update is in force everywhere: the charger, the fields, and storage when the policy changed. */
  lemma SuccessIsEverywhere(w: World, u: Update, how: Weather)
    requires Succeeds(w.policy, u, how)
    ensures var next := Changed(w, u, how);
            && next.policy == NewPolicy(w.policy, u) && InRange(next.policy) && !next.failed
            && (ChangesPolicy(u) || w.saved == w.policy ==> next.saved == next.policy)
            && (u.stopped.Some? ==> next.stopped == next.manual == u.stopped.value)
            && (u.stopped.None? ==> !next.manual && next.stopped == Desired(next.policy, Seen(w)))
  {
  }

  // ---------------------------------------------------------------------------
  // The enforcer
  // ---------------------------------------------------------------------------

  class Enforcer {
    const hardware: Charger
    var policy: Policy
    var manual: bool
    var failed: bool

    constructor (hardware: Charger, policy: Policy)
      ensures this.hardware == hardware && this.policy == policy && !manual && !failed
    {
      this.hardware, this.policy, manual, failed := hardware, policy, false, false;
    }

    ghost function View(): World
      reads this, hardware
    {
      World(policy, manual, failed, hardware.stopped, hardware.capacity, hardware.discharging, hardware.saved)
    }

    method Reconcile(unplugged: bool, readable: bool, fate: Fate)
      modifies this, hardware
      ensures View() == Ticked(old(View()), unplugged, readable, fate)
    {
      if !unplugged && (!policy.enabled || manual) {
        return;
      }
      if !readable {
        failed := true;
        return;
      }
      var snapshot := Snapshot(hardware.stopped, hardware.capacity, hardware.discharging);
      var stopped := !unplugged && Desired(policy, snapshot);
      if stopped != snapshot.stopped {
        var ok := hardware.SetStopped(stopped, fate);
        if !ok {
          failed := true;
          return;
        }
      }
      if unplugged {
        manual := false;
      }
      failed := false;
    }

    method Switch(value: bool, fate: Fate) returns (ok: bool)
      modifies hardware
      ensures View() == Switched(old(View()), value, fate) && (ok <==> fate == Works)
    {
      ok := hardware.SetStopped(value, fate);
    }

    method Save(p: Policy, fate: Fate) returns (ok: bool)
      modifies hardware
      ensures View() == Saved(old(View()), p, fate) && (ok <==> fate == Works)
    {
      ok := hardware.Persist(p, fate);
    }

    /** Puts `next` into force, or puts back what it can. */
    method Attempt(next: Policy, command: Option<bool>, changes: bool, how: Weather) returns (ok: bool)
      modifies hardware
      ensures ok <==> Lands(changes, how)
      ensures View() == Attempted(old(View()), next, Or(command, Desired(next, Seen(old(View())))), changes, how)
    {
      if !how.readable {
        return false;
      }
      var before := Snapshot(hardware.stopped, hardware.capacity, hardware.discharging);
      var stopped := Or(command, Desired(next, before));
      ok := Switch(stopped, how.switch);
      if !ok {
        var _ := Switch(before.stopped, how.switchBack);
        return;
      }
      if changes {
        ok := Save(next, how.save);
        if !ok {
          var _ := Switch(before.stopped, how.switchBack);
          var _ := Save(policy, how.saveBack);
        }
      }
    }

    /** Applies an update; when it fails, charger and saved policy are put back as far as they allow. */
    method Change(u: Update, how: Weather) returns (ok: bool)
      modifies this, hardware
      ensures ok <==> Succeeds(old(policy), u, how)
      ensures View() == Changed(old(View()), u, how)
    {
      var policyChanged := u.enabled.Some? || u.limit.Some? || u.hysteresis.Some?;
      if !policyChanged && u.stopped.None? {
        return false;
      }
      var next := Policy(Or(u.enabled, policy.enabled), Or(u.limit, policy.limit), Or(u.hysteresis, policy.hysteresis));
      if !(50 <= next.limit <= 100) || !(1 <= next.hysteresis <= 20) {
        return false;
      }
      ok := Attempt(next, u.stopped, policyChanged, how);
      if ok {
        policy := next;
        manual := Or(u.stopped, if policyChanged then false else manual);
      }
      failed := !ok;
    }
  }

  // ---------------------------------------------------------------------------
  // How often the charger is switched
  // ---------------------------------------------------------------------------

  /** One tick of a run: whether the charger was unplugged, and what the battery shows. */
  datatype Tick = Tick(unplugged: bool, capacity: nat, discharging: bool)

  /** The charger's state after a tick with obedient hardware and no manual command. */
  function Next(p: Policy, stopped: bool, t: Tick): bool {
    !t.unplugged && Desired(p, Snapshot(stopped, t.capacity, t.discharging))
  }

  /** The enforcer's own tick, in such a run. */
  lemma TickIsNext(w: World, t: Tick)
    requires w.policy.enabled && !w.manual
    ensures Ticked(w.(capacity := t.capacity, discharging := t.discharging), t.unplugged, true, Works).stopped
         == Next(w.policy, w.stopped, t)
  {
  }

  function Switches(p: Policy, stopped: bool, ticks: seq<Tick>): nat
    decreases |ticks|
  {
    if ticks == [] then 0
    else
      var next := Next(p, stopped, ticks[0]);
      (if next != stopped then 1 else 0) + Switches(p, next, ticks[1..])
  }

  function Unplugs(ticks: seq<Tick>): nat
    decreases |ticks|
  {
    if ticks == [] then 0 else (if ticks[0].unplugged then 1 else 0) + Unplugs(ticks[1..])
  }

  function Distance(a: int, b: int): nat {
    if a <= b then b - a else a - b
  }

  /** Total movement of the capacity from tick to tick. */
  function Movement(capacity: nat, ticks: seq<Tick>): nat
    decreases |ticks|
  {
    if ticks == [] then 0 else Distance(capacity, ticks[0].capacity) + Movement(ticks[0].capacity, ticks[1..])
  }

  /** How far the capacity has come toward the point where the charger is switched next, at most the hysteresis. */
  function Progress(p: Policy, stopped: bool, capacity: nat): (d: nat)
    ensures d <= p.hysteresis
  {
    if stopped then Max(0, Min(p.hysteresis, p.limit - capacity))
    else Max(0, Min(p.hysteresis, capacity - (p.limit - p.hysteresis)))
  }

  /** A switch costs the hysteresis, paid by movement; an unplugged tick may cost twice that. */
  lemma TickPays(p: Policy, stopped: bool, capacity: nat, t: Tick)
    requires InRange(p) && p.enabled
    ensures var next := Next(p, stopped, t);
            (if next != stopped then p.hysteresis else 0) + Progress(p, next, t.capacity)
            <= Progress(p, stopped, capacity) + Distance(capacity, t.capacity)
               + (if t.unplugged then 2 * p.hysteresis else 0)
  {
  }

  lemma {:induction false} SwitchesArePaid(p: Policy, stopped: bool, capacity: nat, ticks: seq<Tick>)
    requires InRange(p) && p.enabled
    ensures p.hysteresis * Switches(p, stopped, ticks)
            <= Progress(p, stopped, capacity) + Movement(capacity, ticks) + 2 * p.hysteresis * Unplugs(ticks)
    decreases |ticks|
  {
    if ticks != [] {
      var t := ticks[0];
      var next := Next(p, stopped, t);
      TickPays(p, stopped, capacity, t);
      SwitchesArePaid(p, next, t.capacity, ticks[1..]);
      Distribute(p.hysteresis, if next != stopped then 1 else 0, Switches(p, next, ticks[1..]));
      Distribute(2 * p.hysteresis, if t.unplugged then 1 else 0, Unplugs(ticks[1..]));
    }
  }

  lemma Distribute(h: nat, a: nat, b: nat)
    requires a <= 1
    ensures h * (a + b) == (if a == 1 then h else 0) + h * b
  {
  }

  /**
   With a fixed enabled policy, no manual command and obedient hardware: at most one switch, two
   for each unplugged tick, and one for each hysteresis of capacity movement.
   */
  lemma SwitchBound(p: Policy, stopped: bool, ticks: seq<Tick>)
    requires InRange(p) && p.enabled && ticks != []
    ensures Switches(p, stopped, ticks) <= 1 + 2 * Unplugs(ticks) + Movement(ticks[0].capacity, ticks) / p.hysteresis
  {
    SwitchesArePaid(p, stopped, ticks[0].capacity, ticks);
    PaidFor(p.hysteresis, Switches(p, stopped, ticks), Unplugs(ticks), Movement(ticks[0].capacity, ticks));
  }

  lemma PaidFor(h: nat, n: nat, u: nat, m: nat)
    requires h >= 1 && h * n <= h + m + 2 * h * u
    ensures n <= 1 + 2 * u + m / h
  {
    var k := n - 1 - 2 * u;
    Expand(h, n, u);
    AtMostQuotient(h, k, m);
  }

  lemma Expand(h: int, n: int, u: int)
    ensures h * (n - 1 - 2 * u) == h * n - h - 2 * h * u
  {
    assert h * (2 * u) == 2 * h * u;
    assert h * (n - 1 - 2 * u) == h * n - h * 1 - h * (2 * u);
  }

  lemma AtMostQuotient(h: nat, k: int, m: nat)
    requires h >= 1 && h * k <= m
    ensures k <= m / h
  {
    var q := m / h;
    if k >= q + 1 {
      Scale(h, q + 1, k);
      NextMultiple(h, m);
      assert false;
    }
  }

  lemma NextMultiple(h: nat, m: nat)
    requires h >= 1
    ensures m < h * (m / h + 1)
  {
    var q := m / h;
    assert m == h * q + m % h;
    assert h * (q + 1) == h * q + h;
  }

  lemma Scale(h: nat, a: int, b: int)
    requires a <= b
    ensures h * a <= h * b
  {
    assert h * b - h * a == h * (b - a);
    assert h * (b - a) >= 0;
  }

  /** The bound is reached: from the stop's limit down and up again, each hysteresis of movement switches once. */
  lemma {:induction false} BoundIsReached(p: Policy, rounds: nat)
    requires InRange(p) && p.enabled
    ensures var ticks := Swings(p, rounds);
            && Switches(p, false, ticks) == 1 + 2 * rounds && Unplugs(ticks) == 0
            && Movement(p.limit, ticks) == 2 * rounds * p.hysteresis
  {
    var up := Tick(false, p.limit, false);
    assert [up] + SwingsDown(p, rounds) == Swings(p, rounds);
    SwingsSwitch(p, rounds);
  }

  function Swings(p: Policy, rounds: nat): seq<Tick>
    requires InRange(p)
  {
    [Tick(false, p.limit, false)] + SwingsDown(p, rounds)
  }

  function SwingsDown(p: Policy, rounds: nat): seq<Tick>
    requires InRange(p)
  {
    if rounds == 0 then []
    else [Tick(false, p.limit - p.hysteresis, false), Tick(false, p.limit, false)] + SwingsDown(p, rounds - 1)
  }

  lemma {:induction false} SwingsSwitch(p: Policy, rounds: nat)
    requires InRange(p) && p.enabled
    ensures var ticks := SwingsDown(p, rounds);
            && Switches(p, true, ticks) == 2 * rounds && Unplugs(ticks) == 0
            && Movement(p.limit, ticks) == 2 * rounds * p.hysteresis
  {
    if rounds > 0 {
      SwingsSwitch(p, rounds - 1);
      var ticks, rest := SwingsDown(p, rounds), SwingsDown(p, rounds - 1);
      assert ticks[1..][1..] == rest;
      assert 2 * rounds * p.hysteresis == 2 * (rounds - 1) * p.hysteresis + 2 * p.hysteresis;
    }
  }

  // ---------------------------------------------------------------------------
  // Where a tick leaves the charger
  // ---------------------------------------------------------------------------

  /**
   Obedient hardware: stopped at the limit, charging at the lower end and whenever unplugged, unchanged in
   between.
   */
  lemma TickSettles(w: World, unplugged: bool)
    requires w.policy.enabled && !w.manual && InRange(w.policy)
    ensures var next := Ticked(w, unplugged, true, Works);
            && (unplugged ==> !next.stopped && !next.manual)
            && (!unplugged && w.capacity >= w.policy.limit ==> (next.stopped <==> w.stopped || !w.discharging))
            && (w.capacity <= w.policy.limit - w.policy.hysteresis ==> !next.stopped)
            && (!unplugged && w.policy.limit - w.policy.hysteresis < w.capacity < w.policy.limit ==>
                  next.stopped == w.stopped)
  {
  }

  // ---------------------------------------------------------------------------
  // How long a manual command holds
  // ---------------------------------------------------------------------------

  /** A tick of any kind: what the sensors show, if they answer, and how a command to the charger fares. */
  datatype Beat = Beat(unplugged: bool, readable: bool, fate: Fate, capacity: nat, discharging: bool)

  function Beaten(w: World, b: Beat): World {
    Ticked(w.(capacity := b.capacity, discharging := b.discharging), b.unplugged, b.readable, b.fate)
  }

  /** The charger stays as commanded through every tick. */
  predicate Keeps(w: World, stopped: bool, beats: seq<Beat>)
    decreases |beats|
  {
    w.stopped == stopped && (beats != [] ==> Keeps(Beaten(w, beats[0]), stopped, beats[1..]))
  }

  /**
   The ticks that end a manual command: for a stop, the first one unplugged that reaches the charger;
   for a resume, the first plugged one at the limit, off the battery, with the policy enabled.
   */
  predicate Ends(p: Policy, stopped: bool, b: Beat) {
    && b.readable && Takes(b.fate)
    && if stopped then b.unplugged else !b.unplugged && p.enabled && !b.discharging && b.capacity >= p.limit
  }

  lemma {:induction false} KeptUntilEnd(w: World, beats: seq<Beat>)
    requires w.manual == w.stopped && InRange(w.policy)
    ensures Keeps(w, w.stopped, beats) <==> forall b :: b in beats ==> !Ends(w.policy, w.stopped, b)
    decreases |beats|
  {
    if beats != [] {
      var next := Beaten(w, beats[0]);
      assert next.stopped == w.stopped <==> !Ends(w.policy, w.stopped, beats[0]);
      assert beats[0] in beats;
      if next.stopped == w.stopped {
        KeptUntilEnd(next, beats[1..]);
        assert beats == [beats[0]] + beats[1..];
      }
    }
  }

  /** A successful manual command holds, through ticks of every kind and fate, exactly until one that ends it. */
  lemma ManualCommandHoldsExactly(w: World, u: Update, how: Weather, beats: seq<Beat>)
    requires Succeeds(w.policy, u, how) && u.stopped.Some?
    ensures var after := Changed(w, u, how);
            Keeps(after, u.stopped.value, beats)
            <==> forall b :: b in beats ==> !Ends(after.policy, u.stopped.value, b)
  {
    KeptUntilEnd(Changed(w, u, how), beats);
  }
}
