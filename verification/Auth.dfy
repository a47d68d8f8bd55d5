/** Login lockout and sliding session tokens (`agent/src/auth.rs`). */
module Auth {
  import opened Prelude
  import opened Text

  /** Seconds a session lives after its last use. */
  const TOKEN_TTL: nat := 3600
  const MAX_TOKENS: nat := 10
  const MAX_LOGIN_ATTEMPTS: nat := 5
  const LOCKOUT: nat := 30
  /** A client's failures are forgotten this long after the last one. */
  const ATTEMPT_TTL: nat := 3600

  datatype Kind = Password | Pin

  datatype Token = Token(value: string, expires: nat, kind: Kind)

  datatype Attempt = Attempt(count: nat, lockedUntil: nat, lastAttempt: nat)

  type Attempts = map<string, Attempt>

  datatype LoginResult = Accepted(token: string) | Invalid | Locked(retryAfter: nat)

  // ---------------------------------------------------------------------------
  // Failed logins
  // ---------------------------------------------------------------------------

  predicate IsLocked(attempts: Attempts, client: string, now: nat) {
    client in attempts && attempts[client].count >= MAX_LOGIN_ATTEMPTS && now < attempts[client].lockedUntil
  }

  /** The counter is cleared once its lockout is over. */
  function Unlocked(attempts: Attempts, client: string): Attempts {
    if client in attempts && attempts[client].count >= MAX_LOGIN_ATTEMPTS then attempts - {client} else attempts
  }

  predicate Remembered(a: Attempt, now: nat) {
    now < a.lockedUntil || Max(0, now - a.lastAttempt) < ATTEMPT_TTL
  }

  /** One more failure: forgets stale clients, counts this one, and locks it from the fifth on. */
  function Recorded(attempts: Attempts, client: string, now: nat): Attempts {
    var kept := map c | c in attempts && Remembered(attempts[c], now) :: attempts[c];
    var entry := if client in kept then kept[client] else Attempt(0, 0, now);
    var count := entry.count + 1;
    kept[client := Attempt(count, if count >= MAX_LOGIN_ATTEMPTS then now + LOCKOUT else entry.lockedUntil, now)]
  }

  // ---------------------------------------------------------------------------
  // Tokens
  // ---------------------------------------------------------------------------

  /** The tokens that have not expired, in their order. */
  function Live(tokens: seq<Token>, now: nat): (live: seq<Token>)
    ensures |live| <= |tokens|
  {
    if tokens == [] then []
    else (if tokens[0].expires > now then [tokens[0]] else []) + Live(tokens[1..], now)
  }

  /** A new token goes last; the oldest of ten makes room. */
  function Issued(tokens: seq<Token>, token: Token, now: nat): seq<Token> {
    var live := Live(tokens, now);
    (if |live| >= MAX_TOKENS then live[1..] else live) + [token]
  }

  function Position(tokens: seq<Token>, value: string): (i: nat)
    ensures i <= |tokens|
    ensures i < |tokens| ==> tokens[i].value == value
  {
    if tokens == [] || tokens[0].value == value then 0 else 1 + Position(tokens[1..], value)
  }

  /** Tokens after a check of `value`, its expiry moved forward when it is found. */
  function Slid(tokens: seq<Token>, value: string, now: nat): seq<Token> {
    var live := Live(tokens, now);
    var i := Position(live, value);
    if i < |live| then live[i := live[i].(expires := now + TOKEN_TTL)] else live
  }

  // ---------------------------------------------------------------------------
  // The state
  // ---------------------------------------------------------------------------

  predicate IsPin(pin: string) {
    |pin| == 6 && AllDigits(pin)
  }

  class AuthState {
    var password: Option<string>
    var pin: Option<string>
    var tokens: seq<Token>
    var failed: Attempts

    constructor ()
      ensures tokens == [] && failed == map[] && password.None? && pin.None?
    {
      tokens, failed, password, pin := [], map[], None, None;
    }

    method SetPassword(secret: string)
      modifies this`password
      ensures password == Some(secret)
    {
      password := Some(secret);
    }

    method SetPin(secret: string) returns (ok: bool)
      modifies this`pin
      ensures ok <==> IsPin(secret)
      ensures pin == if ok then Some(secret) else old(pin)
    {
      ok := IsPin(secret);
      if ok {
        pin := Some(secret);
      }
    }

    method LoginPassword(secret: string, client: string, now: nat, instant: nat, value: string) returns (r: LoginResult)
      modifies this`tokens, this`failed
      ensures failed == AfterLogin(old(failed), client, now, password == Some(secret))
      ensures r == Answer(old(failed), client, now, password == Some(secret), value)
      ensures tokens == if r.Accepted? then Issued(old(tokens), Token(value, instant + TOKEN_TTL, Password), instant)
                        else old(tokens)
    {
      r := LoginAgainst(secret, password, client, Password, now, instant, value);
    }

    /** A PIN of another shape is a failure that is counted but never compared, locked out or not. */
    method LoginPin(secret: string, client: string, now: nat, instant: nat, value: string) returns (r: LoginResult)
      modifies this`tokens, this`failed
      ensures !IsPin(secret) ==> r == Invalid && failed == Recorded(old(failed), client, now) && tokens == old(tokens)
      ensures IsPin(secret) ==>
                && failed == AfterLogin(old(failed), client, now, pin == Some(secret))
                && r == Answer(old(failed), client, now, pin == Some(secret), value)
                && tokens == (if r.Accepted? then Issued(old(tokens), Token(value, instant + TOKEN_TTL, Pin), instant)
                              else old(tokens))
    {
      if !IsPin(secret) {
        RecordFailedLogin(client, now);
        return Invalid;
      }
      r := LoginAgainst(secret, pin, client, Pin, now, instant, value);
    }

    method LoginAgainst(secret: string, stored: Option<string>, client: string, kind: Kind, now: nat, instant: nat,
                        value: string)
      returns (r: LoginResult)
      modifies this`tokens, this`failed
      ensures failed == AfterLogin(old(failed), client, now, stored == Some(secret))
      ensures r == Answer(old(failed), client, now, stored == Some(secret), value)
      ensures tokens == if r.Accepted? then Issued(old(tokens), Token(value, instant + TOKEN_TTL, kind), instant)
                        else old(tokens)
    {
      if client in failed {
        var attempt := failed[client];
        if attempt.count >= MAX_LOGIN_ATTEMPTS {
          if now < attempt.lockedUntil {
            return Locked(attempt.lockedUntil - now);
          }
          failed := failed - {client};
        }
      }
      if stored != Some(secret) {
        RecordFailedLogin(client, now);
        return Invalid;
      }
      failed := failed - {client};
      tokens := Live(tokens, instant);
      if |tokens| >= MAX_TOKENS {
        tokens := tokens[1..];
      }
      tokens := tokens + [Token(value, instant + TOKEN_TTL, kind)];
      return Accepted(value);
    }

    method RecordFailedLogin(client: string, now: nat)
      modifies this`failed
      ensures failed == Recorded(old(failed), client, now)
    {
      failed := map c | c in failed && Remembered(failed[c], now) :: failed[c];
      if client !in failed {
        failed := failed[client := Attempt(0, 0, now)];
      }
      var entry := failed[client].(count := failed[client].count + 1, lastAttempt := now);
      if entry.count >= MAX_LOGIN_ATTEMPTS {
        entry := entry.(lockedUntil := now + LOCKOUT);
      }
      failed := failed[client := entry];
    }

    /** The kind of the credential that opened the session, whose expiry slides forward. */
    method Validate(value: string, now: nat) returns (kind: Option<Kind>)
      modifies this`tokens
      ensures tokens == Slid(old(tokens), value, now)
      ensures kind == KindOf(old(tokens), value, now)
    {
      tokens := Live(tokens, now);
      var i := Position(tokens, value);
      if i == |tokens| {
        return None;
      }
      kind := Some(tokens[i].kind);
      tokens := tokens[i := tokens[i].(expires := now + TOKEN_TTL)];
    }
  }

  function AfterLogin(attempts: Attempts, client: string, now: nat, matches: bool): Attempts {
    if IsLocked(attempts, client, now) then attempts
    else if matches then Unlocked(attempts, client) - {client}
    else Recorded(Unlocked(attempts, client), client, now)
  }

  function Answer(attempts: Attempts, client: string, now: nat, matches: bool, value: string): LoginResult {
    if IsLocked(attempts, client, now) then Locked(attempts[client].lockedUntil - now)
    else if matches then Accepted(value)
    else Invalid
  }

  function KindOf(tokens: seq<Token>, value: string, now: nat): Option<Kind> {
    var live := Live(tokens, now);
    var i := Position(live, value);
    if i < |live| then Some(live[i].kind) else None
  }

  // ---------------------------------------------------------------------------
  // How often a client can guess
  // ---------------------------------------------------------------------------

  /** One login, by PIN or password; `malformed` is a PIN of another shape, `matches` what the comparison would find. */
  datatype Try = Try(client: string, now: nat, malformed: bool, matches: bool)

  predicate InOrder(tries: seq<Try>) {
    forall i, j :: 0 <= i <= j < |tries| ==> tries[i].now <= tries[j].now
  }

  function After(attempts: Attempts, t: Try): Attempts {
    if t.malformed then Recorded(attempts, t.client, t.now) else AfterLogin(attempts, t.client, t.now, t.matches)
  }

  /** The credential was compared and found wrong. */
  predicate GuessedWrong(attempts: Attempts, t: Try) {
    !t.malformed && !t.matches && !IsLocked(attempts, t.client, t.now)
  }

  predicate Succeeds(attempts: Attempts, t: Try) {
    !t.malformed && t.matches && !IsLocked(attempts, t.client, t.now)
  }

  /** Wrong guesses of `client` at times from `start` up to, but not including, `end`. */
  function Guesses(attempts: Attempts, client: string, start: nat, end: nat, tries: seq<Try>): nat
    decreases |tries|
  {
    if tries == [] then 0
    else
      var t := tries[0];
      (if t.client == client && start <= t.now < end && GuessedWrong(attempts, t) then 1 else 0)
      + Guesses(After(attempts, t), client, start, end, tries[1..])
  }

  predicate NoSuccess(attempts: Attempts, client: string, start: nat, end: nat, tries: seq<Try>)
    decreases |tries|
  {
    tries == [] ||
    var t := tries[0];
    && !(t.client == client && start <= t.now < end && Succeeds(attempts, t))
    && NoSuccess(After(attempts, t), client, start, end, tries[1..])
  }

  /** `k` wrong guesses since `start` are counted, and five of them lock the window out. */
  predicate Counted(attempts: Attempts, client: string, start: nat, k: nat) {
    k > 0 ==>
      && client in attempts && attempts[client].count >= k && attempts[client].lastAttempt >= start
      && (attempts[client].count >= MAX_LOGIN_ATTEMPTS ==> attempts[client].lockedUntil >= start + LOCKOUT)
  }

  lemma RecordedKeepsCount(attempts: Attempts, client: string, other: string, start: nat, k: nat, now: nat)
    requires Counted(attempts, client, start, k) && start <= now < start + LOCKOUT
    ensures other != client ==> Counted(Recorded(attempts, other, now), client, start, k)
    ensures Counted(Recorded(attempts, client, now), client, start, k + 1)
  {
  }

  lemma TryKeepsCount(attempts: Attempts, t: Try, client: string, start: nat, k: nat)
    requires Counted(attempts, client, start, k) && k <= MAX_LOGIN_ATTEMPTS
    requires start <= t.now < start + LOCKOUT && !(t.client == client && Succeeds(attempts, t))
    ensures var wrong := t.client == client && GuessedWrong(attempts, t);
            && (wrong ==> k < MAX_LOGIN_ATTEMPTS)
            && Counted(After(attempts, t), client, start, if wrong then k + 1 else k)
  {
    if t.malformed {
      RecordedKeepsCount(attempts, client, t.client, start, k, t.now);
    } else if !IsLocked(attempts, t.client, t.now) && !t.matches {
      var counted := if t.client == client && k >= MAX_LOGIN_ATTEMPTS then 0 else k;
      RecordedKeepsCount(Unlocked(attempts, t.client), client, t.client, start, counted, t.now);
    }
  }

  lemma {:induction false} GuessesLeft(attempts: Attempts, client: string, start: nat, k: nat, tries: seq<Try>)
    requires InOrder(tries) && Counted(attempts, client, start, k) && k <= MAX_LOGIN_ATTEMPTS
    requires k > 0 && tries != [] ==> start <= tries[0].now
    requires NoSuccess(attempts, client, start, start + LOCKOUT, tries)
    ensures Guesses(attempts, client, start, start + LOCKOUT, tries) <= MAX_LOGIN_ATTEMPTS - k
    decreases |tries|
  {
    if tries != [] {
      var t := tries[0];
      if t.now >= start + LOCKOUT {
        NoGuessesLater(attempts, client, start, tries);
      } else if t.now < start {
        GuessesLeft(After(attempts, t), client, start, 0, tries[1..]);
      } else {
        TryKeepsCount(attempts, t, client, start, k);
        var wrong := t.client == client && GuessedWrong(attempts, t);
        GuessesLeft(After(attempts, t), client, start, if wrong then k + 1 else k, tries[1..]);
      }
    }
  }

  lemma {:induction false} NoGuessesLater(attempts: Attempts, client: string, start: nat, tries: seq<Try>)
    requires InOrder(tries) && (tries != [] ==> tries[0].now >= start + LOCKOUT)
    ensures Guesses(attempts, client, start, start + LOCKOUT, tries) == 0
    decreases |tries|
  {
    if tries != [] {
      NoGuessesLater(After(attempts, tries[0]), client, start, tries[1..]);
    }
  }

  /**
   Sequential logins in time order: any half-open window of 30 clock seconds without a success of
   the client holds at most five of its wrong guesses, by PIN and password together.
   */
  lemma AtMostFiveGuesses(attempts: Attempts, client: string, start: nat, tries: seq<Try>)
    requires InOrder(tries) && NoSuccess(attempts, client, start, start + LOCKOUT, tries)
    ensures Guesses(attempts, client, start, start + LOCKOUT, tries) <= MAX_LOGIN_ATTEMPTS
  {
    GuessesLeft(attempts, client, start, 0, tries);
  }

  function CountOf(attempts: Attempts, client: string): nat {
    if client in attempts then attempts[client].count else 0
  }

  /** Failures of a client in a run: wrong guesses, and PINs of another shape. */
  function Failures(attempts: Attempts, client: string, tries: seq<Try>): nat
    decreases |tries|
  {
    if tries == [] then 0
    else
      var t := tries[0];
      (if t.client == client && (t.malformed || GuessedWrong(attempts, t)) then 1 else 0)
      + Failures(After(attempts, t), client, tries[1..])
  }

  function AfterAll(attempts: Attempts, tries: seq<Try>): Attempts
    decreases |tries|
  {
    if tries == [] then attempts else AfterAll(After(attempts, tries[0]), tries[1..])
  }

  lemma {:induction false} CountedFailures(attempts: Attempts, client: string, tries: seq<Try>)
    ensures CountOf(AfterAll(attempts, tries), client) <= CountOf(attempts, client) + Failures(attempts, client, tries)
    decreases |tries|
  {
    if tries != [] {
      CountedFailures(After(attempts, tries[0]), client, tries[1..]);
    }
  }

  /** Nobody is locked out who has not failed five times, and a success forgets the failures before it. */
  lemma LockedOnlyAfterFive(client: string, tries: seq<Try>, now: nat)
    ensures IsLocked(AfterAll(map[], tries), client, now) ==> Failures(map[], client, tries) >= MAX_LOGIN_ATTEMPTS
    ensures forall attempts: Attempts, t: Try ::
              t.client == client && Succeeds(attempts, t) ==> client !in After(attempts, t)
  {
    CountedFailures(map[], client, tries);
  }

  // ---------------------------------------------------------------------------
  // The same in real time: the clock shows whole seconds
  // ---------------------------------------------------------------------------

  /** Wrong guesses of a run whose `millis[i]` is the real time of the `i`-th login. */
  function RealGuesses(attempts: Attempts, client: string, start: nat, end: nat, tries: seq<Try>, millis: seq<nat>): nat
    requires |tries| == |millis|
    decreases |tries|
  {
    if tries == [] then 0
    else
      var t := tries[0];
      (if t.client == client && start <= millis[0] < end && GuessedWrong(attempts, t) then 1 else 0)
      + RealGuesses(After(attempts, t), client, start, end, tries[1..], millis[1..])
  }

  predicate NoRealSuccess(attempts: Attempts, client: string, start: nat, end: nat, tries: seq<Try>, millis: seq<nat>)
    requires |tries| == |millis|
    decreases |tries|
  {
    tries == [] ||
    var t := tries[0];
    && !(t.client == client && start <= millis[0] < end && Succeeds(attempts, t))
    && NoRealSuccess(After(attempts, t), client, start, end, tries[1..], millis[1..])
  }

  /** The logins are in order, and each sees the clock at its time. */
  predicate Clocked(tries: seq<Try>, millis: seq<nat>) {
    && |tries| == |millis|
    && (forall i :: 0 <= i < |tries| ==> tries[i].now == millis[i] / 1000)
    && forall i, j :: 0 <= i <= j < |millis| ==> millis[i] <= millis[j]
  }

  lemma {:induction false} NoRealGuessesLater(attempts: Attempts, client: string, start: nat, end: nat,
                                              tries: seq<Try>, millis: seq<nat>)
    requires Clocked(tries, millis) && (tries != [] ==> millis[0] >= end)
    ensures RealGuesses(attempts, client, start, end, tries, millis) == 0
    decreases |tries|
  {
    if tries != [] {
      NoRealGuessesLater(After(attempts, tries[0]), client, start, end, tries[1..], millis[1..]);
    }
  }

  /** A real window within 30 clock seconds holds at most five, less the `k` that are counted already. */
  lemma {:induction false} RealGuessesLeft(attempts: Attempts, client: string, start: nat, end: nat, k: nat,
                                           tries: seq<Try>, millis: seq<nat>)
    requires Clocked(tries, millis) && end <= 1000 * (start / 1000 + LOCKOUT)
    requires Counted(attempts, client, start / 1000, k) && k <= MAX_LOGIN_ATTEMPTS
    requires k > 0 && tries != [] ==> start <= millis[0]
    requires NoRealSuccess(attempts, client, start, end, tries, millis)
    ensures RealGuesses(attempts, client, start, end, tries, millis) <= MAX_LOGIN_ATTEMPTS - k
    decreases |tries|
  {
    if tries != [] {
      var t := tries[0];
      if millis[0] >= end {
        NoRealGuessesLater(attempts, client, start, end, tries, millis);
      } else if millis[0] < start {
        RealGuessesLeft(After(attempts, t), client, start, end, 0, tries[1..], millis[1..]);
      } else {
        TryKeepsCount(attempts, t, client, start / 1000, k);
        var wrong := t.client == client && GuessedWrong(attempts, t);
        RealGuessesLeft(After(attempts, t), client, start, end, if wrong then k + 1 else k, tries[1..], millis[1..]);
      }
    }
  }

  lemma {:induction false} SplitWindow(attempts: Attempts, client: string, start: nat, mid: nat, end: nat,
                                       tries: seq<Try>, millis: seq<nat>)
    requires |tries| == |millis| && start <= mid <= end
    ensures RealGuesses(attempts, client, start, end, tries, millis)
         == RealGuesses(attempts, client, start, mid, tries, millis)
            + RealGuesses(attempts, client, mid, end, tries, millis)
    ensures NoRealSuccess(attempts, client, start, end, tries, millis) ==>
              && NoRealSuccess(attempts, client, start, mid, tries, millis)
              && NoRealSuccess(attempts, client, mid, end, tries, millis)
    decreases |tries|
  {
    if tries != [] {
      SplitWindow(After(attempts, tries[0]), client, start, mid, end, tries[1..], millis[1..]);
    }
  }

  /** A run of logins without a success of the client in the 30 real seconds from `start`. */
  predicate RealRun(attempts: Attempts, client: string, start: nat, tries: seq<Try>, millis: seq<nat>) {
    Clocked(tries, millis) && NoRealSuccess(attempts, client, start, start + 1000 * LOCKOUT, tries, millis)
  }

  /** What 30 real seconds from `start` can hold: five when a clock second begins with them, ten otherwise. */
  function RealBound(start: nat): nat {
    if start % 1000 == 0 then MAX_LOGIN_ATTEMPTS else 2 * MAX_LOGIN_ATTEMPTS
  }

  lemma RealGuessesBounded(attempts: Attempts, client: string, start: nat, tries: seq<Try>, millis: seq<nat>)
    requires RealRun(attempts, client, start, tries, millis)
    ensures RealGuesses(attempts, client, start, start + 1000 * LOCKOUT, tries, millis) <= RealBound(start)
  {
    var mid, end := 1000 * (start / 1000 + LOCKOUT), start + 1000 * LOCKOUT;
    if start % 1000 == 0 {
      RealGuessesLeft(attempts, client, start, end, 0, tries, millis);
    } else {
      SplitWindow(attempts, client, start, mid, end, tries, millis);
      RealGuessesLeft(attempts, client, start, mid, 0, tries, millis);
      RealGuessesLeft(attempts, client, mid, end, 0, tries, millis);
    }
  }

  // -- the bound is reached

  /** What is kept of a client after `j` wrong guesses at one time, and of nobody else. */
  function AfterBurst(client: string, now: nat, j: nat): Attempts {
    if j == 0 then map[]
    else map[client := Attempt(j, if j >= MAX_LOGIN_ATTEMPTS then now + LOCKOUT else 0, now)]
  }

  /** `k` wrong guesses at real time `ms`, and then `rest`. */
  function Burst(client: string, ms: nat, k: nat, rest: seq<Try>): seq<Try> {
    if k == 0 then rest else [Try(client, ms / 1000, false, false)] + Burst(client, ms, k - 1, rest)
  }

  function Times(ms: nat, k: nat, rest: seq<nat>): seq<nat> {
    if k == 0 then rest else [ms] + Times(ms, k - 1, rest)
  }

  lemma NextGuess(client: string, now: nat, j: nat)
    requires j < MAX_LOGIN_ATTEMPTS
    ensures var t := Try(client, now, false, false);
            && GuessedWrong(AfterBurst(client, now, j), t)
            && After(AfterBurst(client, now, j), t) == AfterBurst(client, now, j + 1)
  {
    var attempts := AfterBurst(client, now, j);
    var kept := map c | c in attempts && Remembered(attempts[c], now) :: attempts[c];
    assert kept == attempts;
  }

  /** A lockout that ends now lets the next wrong guess start counting anew. */
  lemma GuessAfterLockout(client: string, armed: nat, now: nat)
    requires now >= armed + LOCKOUT
    ensures var t := Try(client, now, false, false);
            var locked := AfterBurst(client, armed, MAX_LOGIN_ATTEMPTS);
            GuessedWrong(locked, t) && After(locked, t) == AfterBurst(client, now, 1)
  {
    var locked := AfterBurst(client, armed, MAX_LOGIN_ATTEMPTS);
    assert Unlocked(locked, client) == map[] == AfterBurst(client, now, 0);
    NextGuess(client, now, 0);
    assert Unlocked(map[], client) == map[];
  }

  /** A run in order, without a success of the client, and with `n` of its wrong guesses. */
  predicate Holds(attempts: Attempts, client: string, start: nat, end: nat, tries: seq<Try>, millis: seq<nat>, n: nat) {
    && Clocked(tries, millis) && NoRealSuccess(attempts, client, start, end, tries, millis)
    && RealGuesses(attempts, client, start, end, tries, millis) == n
  }

  lemma GuessCounts(attempts: Attempts, next: Attempts, client: string, ms: nat, start: nat, end: nat,
                    rest: seq<Try>, restMs: seq<nat>, n: nat)
    requires var t := Try(client, ms / 1000, false, false); GuessedWrong(attempts, t) && After(attempts, t) == next
    requires start <= ms < end && (restMs != [] ==> ms <= restMs[0])
    requires Holds(next, client, start, end, rest, restMs, n)
    ensures Holds(attempts, client, start, end, [Try(client, ms / 1000, false, false)] + rest, [ms] + restMs, n + 1)
  {
    var tries, millis := [Try(client, ms / 1000, false, false)] + rest, [ms] + restMs;
    assert tries[1..] == rest && millis[1..] == restMs;
  }

  lemma BurstGuess(client: string, ms: nat, j: nat, start: nat, end: nat, rest: seq<Try>, restMs: seq<nat>, n: nat)
    requires j < MAX_LOGIN_ATTEMPTS && start <= ms < end && (restMs != [] ==> ms <= restMs[0])
    requires Holds(AfterBurst(client, ms / 1000, j + 1), client, start, end, rest, restMs, n)
    ensures Holds(AfterBurst(client, ms / 1000, j), client, start, end,
                  [Try(client, ms / 1000, false, false)] + rest, [ms] + restMs, n + 1)
  {
    NextGuess(client, ms / 1000, j);
    GuessCounts(AfterBurst(client, ms / 1000, j), AfterBurst(client, ms / 1000, j + 1), client, ms, start, end,
                rest, restMs, n);
  }

  /** From `j` guesses at one time to `all`. */
  lemma {:induction false} BurstCounts(client: string, ms: nat, j: nat, all: nat, start: nat, end: nat,
                                       rest: seq<Try>, restMs: seq<nat>, n: nat)
    requires j <= all <= MAX_LOGIN_ATTEMPTS && start <= ms < end && (restMs != [] ==> ms <= restMs[0])
    requires Holds(AfterBurst(client, ms / 1000, all), client, start, end, rest, restMs, n)
    ensures Holds(AfterBurst(client, ms / 1000, j), client, start, end, Burst(client, ms, all - j, rest),
                  Times(ms, all - j, restMs), n + all - j)
    ensures Times(ms, all - j, restMs) != [] ==> ms <= Times(ms, all - j, restMs)[0]
    decreases all - j
  {
    hide Holds, AfterBurst;
    if j < all {
      BurstCounts(client, ms, j + 1, all, start, end, rest, restMs, n);
      var left := all - j - 1;
      BurstGuess(client, ms, j, start, end, Burst(client, ms, left, rest), Times(ms, left, restMs), n + left);
    }
  }

  /** Five guesses as the window opens; and, unless a clock second begins then, five more before it closes. */
  lemma BoundReached(client: string, start: nat) returns (tries: seq<Try>, millis: seq<nat>)
    ensures RealRun(map[], client, start, tries, millis)
    ensures RealGuesses(map[], client, start, start + 1000 * LOCKOUT, tries, millis) == RealBound(start)
  {
    var end := start + 1000 * LOCKOUT;
    var later, laterMs: seq<nat> := [], [];
    if start % 1000 != 0 {
      var again := 1000 * (start / 1000 + LOCKOUT);
      BurstCounts(client, again, 1, 5, start, end, [], [], 0);
      GuessAfterLockout(client, start / 1000, again / 1000);
      var four, fourMs := Burst(client, again, 4, []), Times(again, 4, []);
      GuessCounts(AfterBurst(client, start / 1000, 5), AfterBurst(client, again / 1000, 1), client, again, start, end,
                  four, fourMs, 4);
      later, laterMs := [Try(client, again / 1000, false, false)] + four, [again] + fourMs;
    }
    BurstCounts(client, start, 0, 5, start, end, later, laterMs, RealBound(start) - 5);
    tries, millis := Burst(client, start, 5, later), Times(start, 5, laterMs);
  }

  /** No run has more than `bound` wrong guesses of a client in the 30 real seconds from `start`. */
  ghost predicate HoldsAtMost(bound: nat, start: nat) {
    forall attempts: Attempts, client: string, tries: seq<Try>, millis: seq<nat> ::
      RealRun(attempts, client, start, tries, millis) ==>
        RealGuesses(attempts, client, start, start + 1000 * LOCKOUT, tries, millis) <= bound
  }

  /**
   In real time five is the bound exactly when the window opens on a whole second; otherwise it is
   ten, and ten are reached from every such moment.
   */
  lemma RealBoundExactly(bound: nat, start: nat)
    ensures HoldsAtMost(bound, start) <==> bound >= RealBound(start)
  {
    if bound >= RealBound(start) {
      forall attempts: Attempts, client: string, tries: seq<Try>, millis: seq<nat>
        | RealRun(attempts, client, start, tries, millis)
        ensures RealGuesses(attempts, client, start, start + 1000 * LOCKOUT, tries, millis) <= bound
      {
        RealGuessesBounded(attempts, client, start, tries, millis);
      }
    } else {
      var tries, millis := BoundReached("", start);
      assert RealRun(map[], "", start, tries, millis);
    }
  }

  // ---------------------------------------------------------------------------
  // How long a session lives
  // ---------------------------------------------------------------------------

  /** What happens to the tokens: a successful login, or a check of some token. */
  datatype Use = Login(token: Token, at: nat) | Check(value: string, at: nat)

  function Used(tokens: seq<Token>, u: Use): seq<Token> {
    match u
    case Login(token, at) => Issued(tokens, token, at)
    case Check(value, at) => Slid(tokens, value, at)
  }

  function UsedAll(tokens: seq<Token>, uses: seq<Use>): seq<Token>
    decreases |uses|
  {
    if uses == [] then tokens else UsedAll(Used(tokens, uses[0]), uses[1..])
  }

  function Logins(uses: seq<Use>): nat {
    if uses == [] then 0 else (if uses[0].Login? then 1 else 0) + Logins(uses[1..])
  }

  /** There are never more than ten tokens. */
  lemma {:induction false} AtMostTenTokens(tokens: seq<Token>, uses: seq<Use>)
    requires |tokens| <= MAX_TOKENS
    ensures |UsedAll(tokens, uses)| <= MAX_TOKENS
    decreases |uses|
  {
    if uses != [] {
      AtMostTenTokens(Used(tokens, uses[0]), uses[1..]);
    }
  }

  /** Nothing happens an hour or more after the last use of `value`, and no other session gets the same token. */
  predicate KeptInUse(value: string, last: nat, uses: seq<Use>)
    decreases |uses|
  {
    uses == [] ||
    var u := uses[0];
    && u.at < last + TOKEN_TTL && (u.Login? ==> u.token.value != value)
    && KeptInUse(value, if u.Check? && u.value == value then u.at else last, uses[1..])
  }

  function LastUse(value: string, last: nat, uses: seq<Use>): nat
    decreases |uses|
  {
    if uses == [] then last
    else LastUse(value, if uses[0].Check? && uses[0].value == value then uses[0].at else last, uses[1..])
  }

  predicate Without(tokens: seq<Token>, value: string) {
    forall i :: 0 <= i < |tokens| ==> tokens[i].value != value
  }

  lemma {:induction false} LiveParts(before: seq<Token>, t: Token, after: seq<Token>, now: nat)
    requires t.expires > now
    ensures Live(before + [t] + after, now) == Live(before, now) + [t] + Live(after, now)
  {
    var tokens := before + [t] + after;
    if before == [] {
      assert tokens[1..] == after;
    } else {
      assert tokens[0] == before[0] && tokens[1..] == before[1..] + [t] + after;
      LiveParts(before[1..], t, after, now);
      var first := if before[0].expires > now then [before[0]] else [];
      var b, a := Live(before[1..], now), Live(after, now);
      assert first + (b + [t] + a) == (first + b) + [t] + a;
    }
  }

  lemma {:induction false} LiveWithout(tokens: seq<Token>, value: string, now: nat)
    requires Without(tokens, value)
    ensures Without(Live(tokens, now), value)
  {
    if tokens != [] {
      LiveWithout(tokens[1..], value, now);
    }
  }

  lemma {:induction false} PositionAfter(before: seq<Token>, t: Token, after: seq<Token>)
    requires Without(before, t.value)
    ensures Position(before + [t] + after, t.value) == |before|
  {
    var tokens := before + [t] + after;
    if before != [] {
      assert tokens[1..] == before[1..] + [t] + after;
      PositionAfter(before[1..], t, after);
    }
  }

  lemma {:induction false} PositionElsewhere(before: seq<Token>, t: Token, after: seq<Token>, value: string)
    requires t.value != value
    ensures Position(before + [t] + after, value) != |before|
  {
    var tokens := before + [t] + after;
    if before != [] && before[0].value != value {
      assert tokens[1..] == before[1..] + [t] + after;
      PositionElsewhere(before[1..], t, after, value);
    }
  }

  lemma LoginKeeps(before: seq<Token>, t: Token, after: seq<Token>, token: Token, at: nat)
    returns (before': seq<Token>, after': seq<Token>)
    requires t.expires > at && |after| + 1 < MAX_TOKENS && token.value != t.value
    requires Without(before, t.value) && Without(after, t.value)
    ensures Issued(before + [t] + after, token, at) == before' + [t] + after'
    ensures |after'| <= |after| + 1 && Without(before', t.value) && Without(after', t.value)
  {
    hide Live;
    LiveParts(before, t, after, at);
    LiveWithout(before, t.value, at);
    LiveWithout(after, t.value, at);
    var b, a := Live(before, at), Live(after, at);
    after' := a + [token];
    before' := if |b| + 1 + |a| >= MAX_TOKENS then b[1..] else b;
    RoomMade(b, t, a, token);
  }

  lemma RoomMade(b: seq<Token>, t: Token, a: seq<Token>, token: Token)
    requires |a| + 1 < MAX_TOKENS
    ensures var live := b + [t] + a;
            var b' := if |live| >= MAX_TOKENS then b[1..] else b;
            (if |live| >= MAX_TOKENS then live[1..] else live) + [token] == b' + [t] + (a + [token])
  {
  }

  lemma ReplaceMiddle(b: seq<Token>, t: Token, a: seq<Token>, other: Token)
    ensures var live := b + [t] + a; live[|b|] == t && live[|b| := other] == b + [other] + a
  {
  }

  lemma CheckKeeps(before: seq<Token>, t: Token, after: seq<Token>, value: string, at: nat)
    returns (before': seq<Token>, t': Token, after': seq<Token>)
    requires t.expires > at && Without(before, t.value) && Without(after, t.value)
    ensures Slid(before + [t] + after, value, at) == before' + [t'] + after'
    ensures t' == if value == t.value then t.(expires := at + TOKEN_TTL) else t
    ensures |after'| <= |after| && Without(before', t.value) && Without(after', t.value)
  {
    LiveParts(before, t, after, at);
    LiveWithout(before, t.value, at);
    LiveWithout(after, t.value, at);
    var b, a := Live(before, at), Live(after, at);
    var live := b + [t] + a;
    if value == t.value {
      PositionAfter(b, t, a);
      before', t', after' := b, t.(expires := at + TOKEN_TTL), a;
      ReplaceMiddle(b, t, a, t');
    } else {
      PositionElsewhere(b, t, a, value);
      t' := t;
      before', after' := SlideElsewhere(b, t, a, Position(live, value), at);
    }
  }

  /** One use of the tokens: `t` stays, with no more tokens after it than logins since. */
  lemma TokenStays(before: seq<Token>, t: Token, after: seq<Token>, u: Use, later: nat)
    returns (before': seq<Token>, t': Token, after': seq<Token>)
    requires t.expires > u.at && |after| <= later && later + (if u.Login? then 1 else 0) < MAX_TOKENS
    requires Without(before, t.value) && Without(after, t.value) && (u.Login? ==> u.token.value != t.value)
    ensures Used(before + [t] + after, u) == before' + [t'] + after'
    ensures t' == if u.Check? && u.value == t.value then t.(expires := u.at + TOKEN_TTL) else t
    ensures |after'| <= later + (if u.Login? then 1 else 0)
    ensures Without(before', t.value) && Without(after', t.value)
  {
    match u
    case Login(token, at) =>
      t' := t;
      before', after' := LoginKeeps(before, t, after, token, at);
    case Check(value, at) =>
      before', t', after' := CheckKeeps(before, t, after, value, at);
  }

  lemma SlideElsewhere(b: seq<Token>, t: Token, a: seq<Token>, i: nat, at: nat) returns (b': seq<Token>, a': seq<Token>)
    requires i != |b| && i <= |b| + 1 + |a| && Without(b, t.value) && Without(a, t.value)
    ensures var live := b + [t] + a;
            b' + [t] + a' == if i < |live| then live[i := live[i].(expires := at + TOKEN_TTL)] else live
    ensures |a'| == |a| && Without(b', t.value) && Without(a', t.value)
  {
    var live := b + [t] + a;
    if i < |b| {
      b', a' := b[i := b[i].(expires := at + TOKEN_TTL)], a;
    } else if i < |live| {
      var j := i - |b| - 1;
      b', a' := b, a[j := a[j].(expires := at + TOKEN_TTL)];
    } else {
      b', a' := b, a;
    }
    assert b' + [t] + a' == if i < |live| then live[i := live[i].(expires := at + TOKEN_TTL)] else live;
  }

  lemma {:induction false} TokenSurvivesFrom(before: seq<Token>, t: Token, after: seq<Token>, last: nat,
                                             later: nat, uses: seq<Use>, now: nat)
    requires t.expires == last + TOKEN_TTL && |after| <= later && later + Logins(uses) < MAX_TOKENS
    requires Without(before, t.value) && Without(after, t.value)
    requires KeptInUse(t.value, last, uses) && now < LastUse(t.value, last, uses) + TOKEN_TTL
    ensures KindOf(UsedAll(before + [t] + after, uses), t.value, now) == Some(t.kind)
    decreases |uses|
  {
    if uses == [] {
      LiveParts(before, t, after, now);
      LiveWithout(before, t.value, now);
      PositionAfter(Live(before, now), t, Live(after, now));
    } else {
      var u := uses[0];
      var before', t', after' := TokenStays(before, t, after, u, later);
      var last' := if u.Check? && u.value == t.value then u.at else last;
      TokenSurvivesFrom(before', t', after', last', later + (if u.Login? then 1 else 0), uses[1..], now);
    }
  }

  /** A session used at intervals under an hour lives until the tenth later login, and is still of its own kind. */
  lemma TokenSurvives(tokens: seq<Token>, t: Token, at: nat, uses: seq<Use>, now: nat)
    requires Without(tokens, t.value) && t.expires == at + TOKEN_TTL && Logins(uses) < MAX_TOKENS
    requires KeptInUse(t.value, at, uses) && now < LastUse(t.value, at, uses) + TOKEN_TTL
    ensures KindOf(UsedAll(Issued(tokens, t, at), uses), t.value, now) == Some(t.kind)
  {
    var live := Live(tokens, at);
    LiveWithout(tokens, t.value, at);
    var before := if |live| >= MAX_TOKENS then live[1..] else live;
    assert before + [t] + [] == Issued(tokens, t, at);
    TokenSurvivesFrom(before, t, [], at, 0, uses, now);
  }
}
