/**
 * Login backoff per account, and what it buys: over any stretch without a
 * successful sign-in, wrong passwords are checked at no more than one every
 * three minutes, after the first six.
 */
module LoginBackoff {
  import opened Wrappers

  /** Milliseconds. */
  type Time = int

  const MINUTE := 60_000
  const FREE_FAILURES := 5
  const RUN_WINDOW_MINUTES := 15
  const MAX_WAIT_MINUTES := 15

  function Pow2(n: nat): nat { if n == 0 then 1 else 2 * Pow2(n - 1) }

  /** Minutes to wait once this many guesses have gone wrong one after another. */
  function WaitMinutes(failures: int): nat {
    if failures < FREE_FAILURES then 0
    else if Pow2(failures - FREE_FAILURES) <= MAX_WAIT_MINUTES then Pow2(failures - FREE_FAILURES)
    else MAX_WAIT_MINUTES
  }

  datatype Account = Account(failures: int, failedAt: Option<Time>, backoffUntil: Option<Time>)

  function Latest(a: Time, b: Time): Time { if a <= b then b else a }

  predicate RunContinues(a: Account, now: Time) {
    a.failedAt.Some?
    && now <= Latest(a.failedAt.value, a.backoffUntil.GetOr(a.failedAt.value)) + RUN_WINDOW_MINUTES * MINUTE
  }

  /** The account after a failed sign-in is counted. */
  function Failed(a: Account, now: Time): Account {
    var failures := if RunContinues(a, now) then a.failures + 1 else 1;
    Account(failures, Some(now),
            if failures >= FREE_FAILURES then Some(now + WaitMinutes(failures) * MINUTE) else None)
  }

  const CLEARED := Account(0, None, None)

  /** Refused before the password is looked at; or checked, and right or wrong. */
  datatype Outcome = Refused(waitMs: int) | SignedIn | WrongPassword

  /** One sign-in, checked and counted as one step. */
  function Login(a: Account, now: Time, correct: bool): (Account, Outcome) {
    if a.backoffUntil.Some? && a.backoffUntil.value - now > 0 then (a, Refused(a.backoffUntil.value - now))
    else if !correct then (Failed(a, now), WrongPassword)
    else (if a.failures > 0 || a.backoffUntil.Some? then CLEARED else a, SignedIn)
  }

  class User {
    var failedLoginCount: int
    var failedLoginAt: Option<Time>
    var loginBackoffUntil: Option<Time>

    ghost function Row(): Account
      reads this
    {
      Account(failedLoginCount, failedLoginAt, loginBackoffUntil)
    }

    constructor ()
      ensures Row() == CLEARED
    {
      failedLoginCount, failedLoginAt, loginBackoffUntil := 0, None, None;
    }

    method RecordFailedLogin(now: Time)
      modifies this
      ensures Row() == Failed(old(Row()), now)
    {
      // The right-hand side of an update reads the old columns.
      var failures := 1;
      if failedLoginAt.Some? {
        var runEnds := Latest(failedLoginAt.value, loginBackoffUntil.GetOr(failedLoginAt.value));
        if now <= runEnds + RUN_WINDOW_MINUTES * MINUTE {
          failures := failedLoginCount + 1;
        }
      }
      failedLoginCount, failedLoginAt := failures, Some(now);
      if failures >= FREE_FAILURES {
        loginBackoffUntil := Some(now + WaitMinutes(failures) * MINUTE);
      } else {
        loginBackoffUntil := None;
      }
    }

    method ClearFailedLogins()
      modifies this
      ensures Row() == CLEARED
    {
      failedLoginCount, failedLoginAt, loginBackoffUntil := 0, None, None;
    }

    method LoginUser(now: Time, correct: bool) returns (outcome: Outcome)
      modifies this
      ensures (Row(), outcome) == Login(old(Row()), now, correct)
    {
      var waitMs := 0;
      if loginBackoffUntil.Some? {
        waitMs := loginBackoffUntil.value - now;
      }
      if waitMs > 0 { return Refused(waitMs); }
      if !correct {
        RecordFailedLogin(now);
        return WrongPassword;
      }
      if failedLoginCount > 0 || loginBackoffUntil.Some? {
        ClearFailedLogins();
      }
      return SignedIn;
    }
  }

  // ---------------------------------------------------------------------------
  // One sign-in, in milliseconds
  // ---------------------------------------------------------------------------

  predicate InWait(a: Account, now: Time) { a.backoffUntil.Some? && now < a.backoffUntil.value }

  /** A failure now is one more of the run: a quarter of an hour from the last one, or from the end of its wait. */
  predicate SameRun(a: Account, now: Time) {
    && a.failedAt.Some?
    && (now <= a.failedAt.value + 900_000 || (a.backoffUntil.Some? && now <= a.backoffUntil.value + 900_000))
  }

  /** The wait after so many failures: none up to four, then 1, 2, 4, 8 and 15 minutes. */
  predicate WaitsFor(failures: int, wait: Option<Time>) {
    if failures <= 4 then wait == None
    else if failures == 5 then wait == Some(60_000)
    else if failures == 6 then wait == Some(120_000)
    else if failures == 7 then wait == Some(240_000)
    else if failures == 8 then wait == Some(480_000)
    else wait == Some(900_000)
  }

  /** What a sign-in answers and leaves, on any account whatever. */
  lemma LoginMeans(a: Account, now: Time, correct: bool)
    ensures var (b, r) := Login(a, now, correct);
            && (r.Refused? <==> InWait(a, now)) && (r.SignedIn? <==> !InWait(a, now) && correct)
            && (r.Refused? ==> b == a && r.waitMs == a.backoffUntil.value - now)
            && (r.SignedIn? ==> b.backoffUntil.None? && b.failures <= 0)
            && (r.WrongPassword? ==>
                  && b.failures == (if SameRun(a, now) then a.failures + 1 else 1) && b.failedAt == Some(now)
                  && WaitsFor(b.failures, if b.backoffUntil.Some? then Some(b.backoffUntil.value - now) else None))
  {
    Waits(if SameRun(a, now) then a.failures + 1 else 1);
  }

  /** On an account as the code leaves it, a sign-in starts over: no count, no date, no wait. */
  lemma SignInStartsOver(run: seq<Attempt>, now: Time)
    ensures var a := After(CLEARED, run);
            !InWait(a, now) ==> Login(a, now, true) == (Account(0, None, None), SignedIn)
  {
    CountHasDate(run);
  }

  lemma {:induction false} CountHasDate(run: seq<Attempt>)
    ensures var a := After(CLEARED, run);
            a.failures >= 0 && (a.failures == 0 ==> a.failedAt.None? && a.backoffUntil.None?)
  {
    if run != [] {
      var n := |run| - 1;
      CountHasDate(run[..n]);
      Waits(After(CLEARED, run[..n]).failures + 1);
    }
  }

  // ---------------------------------------------------------------------------
  // Runs of sign-ins
  // ---------------------------------------------------------------------------

  datatype Attempt = Attempt(at: Time, correct: bool)

  /** The account after a run of sign-ins. */
  function After(a: Account, run: seq<Attempt>): Account {
    if run == [] then a
    else
      var last := run[|run| - 1];
      Login(After(a, run[..|run| - 1]), last.at, last.correct).0
  }

  function OutcomeOf(a: Account, run: seq<Attempt>, i: nat): Outcome
    requires i < |run|
  {
    Login(After(a, run[..i]), run[i].at, run[i].correct).1
  }

  /** How many passwords were checked and found wrong. */
  function WrongChecks(a: Account, run: seq<Attempt>): nat {
    if run == [] then 0
    else
      var n := |run| - 1;
      WrongChecks(a, run[..n]) + (if OutcomeOf(a, run, n).WrongPassword? then 1 else 0)
  }

  ghost predicate InOrder(run: seq<Attempt>) { forall i, j :: 0 <= i < j < |run| ==> run[i].at <= run[j].at }

  ghost predicate NobodySignsIn(a: Account, run: seq<Attempt>) {
    forall i :: 0 <= i < |run| ==> !OutcomeOf(a, run, i).SignedIn?
  }

  /** What a failure leaves: the columns a run of `failures` shows at its last failure. */
  ghost predicate JustFailed(a: Account, at: Time) {
    && 1 <= a.failures
    && a.failedAt == Some(at)
    && a.backoffUntil == (if a.failures >= FREE_FAILURES then Some(at + WaitMinutes(a.failures) * MINUTE) else None)
  }

  /**
   * Minutes of credit left at a point of a run. Each checked failure costs
   * three minutes, paid by time passed or by credit; a run that lapses to
   * start over earns the whole credit back by its window.
   */
  function Credit(failures: int): nat {
    if failures <= 5 then (if failures < 1 then 15 else 18 - 3 * failures)
    else if failures == 6 then 1
    else 0
  }

  lemma Waits(failures: int)
    ensures 0 <= WaitMinutes(failures) <= MAX_WAIT_MINUTES
    ensures failures <= 4 ==> WaitMinutes(failures) == 0
    ensures failures == 5 ==> WaitMinutes(failures) == 1
    ensures failures == 6 ==> WaitMinutes(failures) == 2
    ensures failures == 7 ==> WaitMinutes(failures) == 4
    ensures failures == 8 ==> WaitMinutes(failures) == 8
    ensures failures >= 9 ==> WaitMinutes(failures) == 15
  {
    if failures >= 9 {
      AtLeast16(failures - FREE_FAILURES);
    } else {
      assert Pow2(1) == 2 && Pow2(2) == 4 && Pow2(3) == 8;
    }
  }

  lemma {:induction false} AtLeast16(n: nat)
    requires n >= 4
    ensures Pow2(n) >= 16
  {
    if n > 4 {
      AtLeast16(n - 1);
    } else {
      assert Pow2(1) == 2 && Pow2(2) == 4 && Pow2(3) == 8;
    }
  }

  /** The next checked failure pays its three minutes, whether the run continues or lapsed. */
  lemma FailurePays(a: Account, at: Time, now: Time)
    requires JustFailed(a, at) && at <= now && Login(a, now, false).1.WrongPassword?
    ensures JustFailed(Failed(a, now), now)
    ensures 3 * MINUTE <= (now - at) + (Credit(a.failures) - Credit(Failed(a, now).failures)) * MINUTE
  {
    Waits(a.failures);
    Waits(a.failures + 1);
  }

  /**
   * The bound with its credit, after each attempt of a run: `t0` is when the
   * run began, and `lastFailure` when a wrong password was last checked.
   */
  lemma {:induction false} CreditBound(a: Account, run: seq<Attempt>) returns (lastFailure: Time)
    requires a.failures >= 0 && run != [] && InOrder(run) && NobodySignsIn(a, run)
    ensures WrongChecks(a, run) > 0 ==>
              && run[0].at <= lastFailure <= run[|run| - 1].at
              && JustFailed(After(a, run), lastFailure)
              && 3 * MINUTE * (WrongChecks(a, run) - 1)
                   <= lastFailure - run[0].at + (15 - Credit(After(a, run).failures)) * MINUTE
    ensures WrongChecks(a, run) == 0 ==> After(a, run) == a
    decreases |run|
  {
    var n := |run| - 1;
    var now := run[n].at;
    var before := After(a, run[..n]);
    forall i | 0 <= i < n
      ensures !OutcomeOf(a, run[..n], i).SignedIn?
    {
      assert run[..n][..i] == run[..i];
      assert !OutcomeOf(a, run, i).SignedIn?;
    }
    assert !OutcomeOf(a, run, n).SignedIn?;
    lastFailure := now;
    if n > 0 {
      lastFailure := CreditBound(a, run[..n]);
    }
    if OutcomeOf(a, run, n).WrongPassword? {
      if n > 0 && WrongChecks(a, run[..n]) > 0 {
        assert lastFailure <= run[n - 1].at <= now;
        FailurePays(before, lastFailure, now);
      } else {
        FirstFailure(before, now);
      }
      lastFailure := now;
    }
  }

  /** The first checked failure leaves at most the whole credit. */
  lemma FirstFailure(a: Account, now: Time)
    requires a.failures >= 0
    ensures JustFailed(Failed(a, now), now) && 0 <= Credit(Failed(a, now).failures) <= 15
  {
  }

  /**
   * The amortised bound, from any account state whatever: `n` wrong passwords
   * checked with no successful sign-in between take at least 3 * (n - 6)
   * minutes. Letting the window lapse to reset the count does not beat it.
   */
  lemma GuessesAreRateLimited(a: Account, run: seq<Attempt>)
    requires a.failures >= 0 && run != [] && InOrder(run) && NobodySignsIn(a, run)
    ensures 3 * MINUTE * (WrongChecks(a, run) - 6) <= run[|run| - 1].at - run[0].at
  {
    var lastFailure := CreditBound(a, run);
    assert run[0].at <= run[|run| - 1].at;
  }

  /** A run from a cleared account in which every password was checked and wrong. */
  ghost predicate AllWrong(run: seq<Attempt>, a: Account) {
    && InOrder(run) && After(CLEARED, run) == a && WrongChecks(CLEARED, run) == |run|
    && NobodySignsIn(CLEARED, run)
  }

  lemma OneMoreWrong(run: seq<Attempt>, a: Account, now: Time) returns (longer: seq<Attempt>)
    requires AllWrong(run, a) && Login(a, now, false).1.WrongPassword?
    requires run != [] ==> run[|run| - 1].at <= now
    ensures longer == run + [Attempt(now, false)] && AllWrong(longer, Failed(a, now))
  {
    longer := run + [Attempt(now, false)];
    assert longer[..|run|] == run;
    forall i | 0 <= i < |longer|
      ensures !OutcomeOf(CLEARED, longer, i).SignedIn?
    {
      assert longer[..i] == run[..i];
      assert i < |run| ==> !OutcomeOf(CLEARED, run, i).SignedIn?;
    }
  }

  lemma FiveAtOnce() returns (run: seq<Attempt>)
    ensures |run| == 5 && run[0].at == run[4].at == 0 && AllWrong(run, Account(5, Some(0), Some(MINUTE)))
  {
    Waits(5);
    run := OneMoreWrong([], CLEARED, 0);
    run := OneMoreWrong(run, Account(1, Some(0), None), 0);
    run := OneMoreWrong(run, Account(2, Some(0), None), 0);
    run := OneMoreWrong(run, Account(3, Some(0), None), 0);
    run := OneMoreWrong(run, Account(4, Some(0), None), 0);
  }

  /** No smaller allowance than six would do: seven wrong passwords can be checked in three minutes. */
  lemma AllowanceIsTight()
    ensures exists run: seq<Attempt> :: run != [] && InOrder(run) && NobodySignsIn(CLEARED, run)
              && 3 * MINUTE * (WrongChecks(CLEARED, run) - 6) == run[|run| - 1].at - run[0].at
  {
    Waits(5);
    Waits(6);
    var run := FiveAtOnce();
    run := OneMoreWrong(run, Account(5, Some(0), Some(MINUTE)), MINUTE);
    run := OneMoreWrong(run, Account(6, Some(MINUTE), Some(3 * MINUTE)), 3 * MINUTE);
  }

  /** A wait the account is told never exceeds fifteen minutes. */
  lemma WaitIsAtMostFifteenMinutes(a: Account, failure: Time, now: Time, correct: bool)
    requires failure <= now
    ensures var r := Login(Failed(a, failure), now, correct).1; r.Refused? ==> 0 < r.waitMs <= MAX_WAIT_MINUTES * MINUTE
  {
    Waits(Failed(a, failure).failures);
  }
}
