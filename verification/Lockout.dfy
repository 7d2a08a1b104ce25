/**
 Signing in with a password, and the lock that slows guessing down. Attempts on one account are
 handled one at a time. `at` is when an attempt reads the clock to check the lock; the lock it may
 set is computed `lag` later, after the password has been hashed.
 */
module Lockout {
  import opened Common

  const MAX_I32 := 0x7fff_ffff

  /** Validated at start-up: at least one attempt, and a lock that lasts. */
  datatype Config = Config(maxAttempts: nat, lockSeconds: nat, requireVerification: bool) {
    predicate Valid() { maxAttempts > 0 && lockSeconds > 0 }

    /** The column is a 32-bit integer, and so is the limit it is compared with. */
    function Limit(): nat { Min(maxAttempts, MAX_I32) }
  }

  datatype Account = Account(failures: nat, lockedUntil: Option<int>, disabled: bool, verified: bool)

  datatype Outcome = AccountLocked | AccountDisabled | InvalidCredentials | EmailNotVerified | Success

  datatype Event = Attempt(at: int, lag: nat, correct: bool) | Reset(at: int)

  predicate IsLocked(a: Account, at: int) {
    a.lockedUntil.Some? && a.lockedUntil.value > at
  }

  /** Whether the attempt gets as far as checking the password. */
  predicate Checked(a: Account, at: int) {
    !IsLocked(a, at) && !a.disabled
  }

  function Failed(a: Account, at: int, lag: nat, config: Config): Account {
    // A lock that has run out is ignored.
    var counted := if a.lockedUntil.Some? then 1 else a.failures + 1;
    a.(failures := counted,
       lockedUntil := if counted >= config.Limit() then Some(at + lag + config.lockSeconds) else None)
  }

  function Cleared(a: Account): Account {
    a.(failures := 0, lockedUntil := None)
  }

  function Apply(a: Account, event: Event, config: Config): Account {
    match event
    case Reset(_) => Cleared(a)
    case Attempt(at, lag, correct) =>
      if !Checked(a, at) then a
      else if !correct then Failed(a, at, lag, config)
      else if config.requireVerification && !a.verified then a
      else Cleared(a)
  }

  function Answer(a: Account, event: Event, config: Config): Outcome
    requires event.Attempt?
  {
    if IsLocked(a, event.at) then AccountLocked
    else if a.disabled then AccountDisabled
    else if !event.correct then
      if IsLocked(Failed(a, event.at, event.lag, config), event.at) then AccountLocked else InvalidCredentials
    else if config.requireVerification && !a.verified then EmailNotVerified
    else Success
  }

  /**
   What each answer says. A wrong password is called locked when it brings the lock on: at the limit-th
   failure, or the first one after a lock has run out, when the limit is one.
   */
  lemma AnswersExactly(a: Account, at: int, lag: nat, correct: bool, config: Config)
    requires config.Valid()
    ensures var answer := Answer(a, Attempt(at, lag, correct), config);
            var locked := a.lockedUntil.Some? && a.lockedUntil.value > at;
            var last := (if a.lockedUntil.Some? then 0 else a.failures) + 1 >= config.Limit();
            && (answer.Success? <==> correct && !locked && !a.disabled && (config.requireVerification ==> a.verified))
            && (answer.EmailNotVerified? <==>
                  correct && !locked && !a.disabled && config.requireVerification && !a.verified)
            && (answer.AccountDisabled? <==> !locked && a.disabled)
            && (answer.InvalidCredentials? <==> !correct && !locked && !a.disabled && !last)
            && (answer.AccountLocked? <==> locked || (!correct && !a.disabled && last))
  {
  }

  /** What each answer leaves behind: a success clears the count, a compared wrong password adds one to it. */
  lemma AttemptsCount(a: Account, at: int, lag: nat, correct: bool, config: Config)
    requires config.Valid()
    ensures var answer, a' := Answer(a, Attempt(at, lag, correct), config), Apply(a, Attempt(at, lag, correct), config);
            && a'.disabled == a.disabled && a'.verified == a.verified
            && (answer.Success? ==> a'.failures == 0 && a'.lockedUntil.None?)
            && (correct && !answer.Success? ==> a' == a)
            && (!correct && !Checked(a, at) ==> a' == a)
            && (!correct && Checked(a, at) ==>
                  && a'.failures == (if a.lockedUntil.Some? then 1 else a.failures + 1)
                  && (a'.lockedUntil == if answer.AccountLocked? then Some(at + lag + config.lockSeconds) else None))
  {
  }

  // ---------- Counting guesses ----------

  /** A guess: a wrong password that really was compared with the stored one. */
  predicate Guess(a: Account, event: Event) {
    event.Attempt? && !event.correct && Checked(a, event.at)
  }

  /** What clears the failure count: a success, or an unlock or password reset from outside. */
  predicate Clears(a: Account, event: Event, config: Config) {
    event.Reset? || (event.correct && Checked(a, event.at) && (config.requireVerification ==> a.verified))
  }

  /** Each attempt starts once the one before it is done. */
  predicate InTurn(events: seq<Event>) {
    forall i, j :: 0 <= i < j < |events| ==> events[i].at <= events[j].at
  }

  function Guesses(a: Account, events: seq<Event>, from: int, until: int, config: Config): nat
    decreases |events|
  {
    if events == [] then 0
    else
      (if Guess(a, events[0]) && from <= events[0].at < until then 1 else 0)
      + Guesses(Apply(a, events[0], config), events[1..], from, until, config)
  }

  predicate NothingClears(a: Account, events: seq<Event>, from: int, until: int, config: Config)
    decreases |events|
  {
    events == []
    || (&& (from <= events[0].at < until ==> !Clears(a, events[0], config))
        && NothingClears(Apply(a, events[0], config), events[1..], from, until, config))
  }

  /** How many more guesses a window can hold before a lock that outlasts it. */
  function Remaining(a: Account, config: Config): nat {
    if a.lockedUntil.Some? || config.Limit() <= a.failures then config.Limit() else config.Limit() - a.failures
  }

  lemma {:induction false} LockedOut(a: Account, events: seq<Event>, from: int, until: int, config: Config)
    requires InTurn(events) && NothingClears(a, events, from, until, config)
    requires a.lockedUntil.Some? && a.lockedUntil.value >= until
    requires events != [] ==> events[0].at >= from
    ensures Guesses(a, events, from, until, config) == 0
    decreases |events|
  {
    if events != [] {
      assert forall i :: 0 <= i < |events[1..]| ==> events[1..][i] == events[i + 1];
      if events[0].at < until {
        LockedOut(Apply(a, events[0], config), events[1..], from, until, config);
      } else {
        LaterDoNotCount(Apply(a, events[0], config), events[1..], from, until, config);
      }
    }
  }

  lemma {:induction false} LaterDoNotCount(a: Account, events: seq<Event>, from: int, until: int, config: Config)
    requires forall i :: 0 <= i < |events| ==> events[i].at >= until
    ensures Guesses(a, events, from, until, config) == 0
    decreases |events|
  {
    if events != [] {
      assert forall i :: 0 <= i < |events[1..]| ==> events[1..][i] == events[i + 1];
      LaterDoNotCount(Apply(a, events[0], config), events[1..], from, until, config);
    }
  }

  lemma {:induction false} AtMostRemaining(a: Account, events: seq<Event>, from: int, until: int, config: Config)
    requires config.Valid() && InTurn(events) && NothingClears(a, events, from, until, config)
    requires until <= from + config.lockSeconds && (events != [] ==> events[0].at >= from)
    ensures Guesses(a, events, from, until, config) <= Remaining(a, config)
    decreases |events|
  {
    if events != [] {
      var event, rest, a' := events[0], events[1..], Apply(a, events[0], config);
      assert forall i :: 0 <= i < |rest| ==> rest[i] == events[i + 1];
      if event.at >= until {
        LaterDoNotCount(a', rest, from, until, config);
      } else if Guess(a, event) && a'.lockedUntil.Some? {
        LockedOut(a', rest, from, until, config);
      } else {
        AtMostRemaining(a', rest, from, until, config);
      }
    }
  }

  /**
   The rate bound: in any half-open window no longer than the lock, at most `maxAttempts` guesses are
   compared with the password, whatever happened before the window, unless something clears the
   count within it.
   */
  lemma {:induction false} WindowBound(a: Account, events: seq<Event>, from: int, until: int, config: Config)
    requires config.Valid() && InTurn(events) && NothingClears(a, events, from, until, config)
    requires until <= from + config.lockSeconds
    ensures Guesses(a, events, from, until, config) <= config.Limit()
    decreases |events|
  {
    if events != [] && events[0].at < from {
      assert forall i :: 0 <= i < |events[1..]| ==> events[1..][i] == events[i + 1];
      WindowBound(Apply(a, events[0], config), events[1..], from, until, config);
    } else {
      AtMostRemaining(a, events, from, until, config);
    }
  }

  lemma {:induction false} SplitAt(a: Account, events: seq<Event>, from: int, mid: int, until: int, config: Config)
    requires from <= mid <= until && NothingClears(a, events, from, until, config)
    ensures Guesses(a, events, from, until, config)
         == Guesses(a, events, from, mid, config) + Guesses(a, events, mid, until, config)
    ensures NothingClears(a, events, from, mid, config) && NothingClears(a, events, mid, until, config)
    decreases |events|
  {
    if events != [] { SplitAt(Apply(a, events[0], config), events[1..], from, mid, until, config); }
  }

  lemma {:induction false} WindowsBound(a: Account, events: seq<Event>, from: int, windows: nat, until: int,
      config: Config)
    requires config.Valid() && InTurn(events) && NothingClears(a, events, from, until, config)
    requires from <= until <= from + windows * config.lockSeconds
    ensures Guesses(a, events, from, until, config) <= windows * config.Limit()
    decreases windows
  {
    if until <= from + config.lockSeconds {
      if windows == 0 {
        EmptyWindow(a, events, from, config);
      } else {
        WindowBound(a, events, from, until, config);
        AtLeast(windows, config.Limit());
      }
    } else {
      assert windows == 0 ==> windows * config.lockSeconds == 0;
      var mid := from + config.lockSeconds;
      SplitAt(a, events, from, mid, until, config);
      WindowBound(a, events, from, mid, config);
      assert windows * config.lockSeconds == (windows - 1) * config.lockSeconds + config.lockSeconds;
      assert windows * config.Limit() == (windows - 1) * config.Limit() + config.Limit();
      WindowsBound(a, events, mid, windows - 1, until, config);
    }
  }

  lemma AtLeast(k: nat, n: nat)
    requires k > 0
    ensures k * n >= n
  {
  }

  lemma {:induction false} EmptyWindow(a: Account, events: seq<Event>, from: int, config: Config)
    ensures Guesses(a, events, from, from, config) == 0
    decreases |events|
  {
    if events != [] { EmptyWindow(Apply(a, events[0], config), events[1..], from, config); }
  }

  function WindowsIn(span: nat, width: nat): nat
    requires width > 0
  {
    (span + width - 1) / width
  }

  /** Over any span T: at most `maxAttempts` for each lock duration in it, rounded up. */
  lemma SpanBound(a: Account, events: seq<Event>, from: int, span: nat, config: Config)
    requires config.Valid() && InTurn(events) && NothingClears(a, events, from, from + span, config)
    ensures Guesses(a, events, from, from + span, config) <= WindowsIn(span, config.lockSeconds) * config.Limit()
  {
    var n := span + config.lockSeconds - 1;
    var windows := n / config.lockSeconds;
    assert n == windows * config.lockSeconds + n % config.lockSeconds;
    WindowsBound(a, events, from, windows, from + span, config);
  }

  // ---------- The bound is reached ----------

  lemma {:induction false} BurstIsAllowed(a: Account, at: int, events: seq<Event>, config: Config)
    requires config.Valid() && a.lockedUntil.None? && !a.disabled
    requires a.failures + |events| <= config.Limit()
    requires forall i :: 0 <= i < |events| ==> events[i] == Attempt(at, 0, false)
    ensures Guesses(a, events, at, at + config.lockSeconds, config) == |events|
    decreases |events|
  {
    if |events| > 1 {
      BurstIsAllowed(Apply(a, events[0], config), at, events[1..], config);
    }
  }

  /** One failure after another, each checked: the account as the last one leaves it. */
  function AfterAll(a: Account, events: seq<Event>, config: Config): Account {
    if events == [] then a else Apply(AfterAll(a, events[..|events| - 1], config), events[|events| - 1], config)
  }

  /**
   A lock comes into force at the limit-th wrong password since the count was last cleared or the last
   lock ran out, not before, and runs for the lock duration from when that one had been hashed.
   */
  lemma {:induction false} LocksAtTheLimit(a: Account, events: seq<Event>, config: Config)
    requires config.Valid() && !a.disabled && 0 < |events| <= config.Limit()
    requires if a.lockedUntil.None? then a.failures == 0 else a.lockedUntil.value <= events[0].at
    requires forall i :: 0 <= i < |events| ==> events[i].Attempt? && !events[i].correct
    ensures var last, after := events[|events| - 1], AfterAll(a, events, config);
            && after.failures == |events|
            && after.lockedUntil ==
                 (if |events| == config.Limit() then Some(last.at + last.lag + config.lockSeconds) else None)
            && (IsLocked(after, last.at) <==> |events| == config.Limit())
    ensures forall i :: 0 <= i < |events| ==> Guess(AfterAll(a, events[..i], config), events[i])
    decreases |events|
  {
    var before := events[..|events| - 1];
    if before == [] {
      assert AfterAll(a, events[..0], config) == a;
    } else {
      LocksAtTheLimit(a, before, config);
      assert AfterAll(a, before, config).lockedUntil.None?;
      forall i | 0 <= i < |events| ensures Guess(AfterAll(a, events[..i], config), events[i]) {
        if i < |before| { assert before[..i] == events[..i] && before[i] == events[i]; }
      }
    }
  }

  // ---------- The service ----------

  class IdentityService {
    const config: Config
    var users: map<string, Account>

    constructor (config: Config, users: map<string, Account>)
      ensures this.config == config && this.users == users
    {
      this.config, this.users := config, users;
    }

    method ResetLoginFailures(email: string)
      modifies this
      ensures users == if email in old(users) then old(users)[email := Cleared(old(users)[email])] else old(users)
    {
      if email in users {
        users := users[email := users[email].(failures := 0, lockedUntil := None)];
      }
    }

    /** One more failure, and a lock from the limit-th on; the result is what is in force afterwards. */
    method RecordLoginFailure(email: string, lockUntil: int) returns (locked: Option<int>)
      requires email in users
      modifies this
      ensures var a := old(users)[email];
              && locked == (if a.failures + 1 >= config.Limit() then Some(lockUntil) else a.lockedUntil)
              && users == old(users)[email := a.(failures := a.failures + 1, lockedUntil := locked)]
    {
      var a := users[email];
      locked := if a.failures + 1 >= config.Limit() then Some(lockUntil) else a.lockedUntil;
      users := users[email := a.(failures := a.failures + 1, lockedUntil := locked)];
    }

    /** An unknown address is answered like a wrong password; a known one as its account requires. */
    method VerifyCredentials(email: string, correct: bool, now: int, lag: nat) returns (outcome: Outcome)
      modifies this
      ensures email !in old(users) ==> outcome == InvalidCredentials && users == old(users)
      ensures email in old(users) ==>
                var a, event := old(users)[email], Attempt(now, lag, correct);
                outcome == Answer(a, event, config) && users == old(users)[email := Apply(a, event, config)]
      ensures outcome.Success? <==>
                && email in old(users) && correct && !old(users)[email].disabled
                && (config.requireVerification ==> old(users)[email].verified)
                && (old(users)[email].lockedUntil.Some? ==> old(users)[email].lockedUntil.value <= now)
      ensures outcome == InvalidCredentials || outcome == Success ==> email in users ==>
          !IsLocked(old(users)[email], now)
      ensures outcome.Success? ==> users == old(users)[email := old(users)[email].(failures := 0, lockedUntil := None)]
    {
      if email !in users {
        return InvalidCredentials;
      }
      var user := users[email];
      if user.lockedUntil.Some? && user.lockedUntil.value > now {
        return AccountLocked;
      }
      if user.disabled {
        return AccountDisabled;
      }
      if !correct {
        if user.lockedUntil.Some? {
          ResetLoginFailures(email);
        }
        var locked := RecordLoginFailure(email, now + lag + config.lockSeconds);
        if locked.Some? && locked.value > now {
          return AccountLocked;
        }
        return InvalidCredentials;
      }
      if config.requireVerification && !user.verified {
        return EmailNotVerified;
      }
      ResetLoginFailures(email);
      outcome := Success;
    }
  }
}
