/**
 How often a crashing backend is restarted (`apps/desktop/src/backendSupervisionPolicy.ts`,
 28-118): the growing delays, the breaker after five failed starts, and the one offer of
 migration recovery.
*/
module SupervisionPolicy {
  const BASE_DELAY_MS: nat := 500
  const MAX_DELAY_MS: nat := 10_000
  const MAX_FAILURES: nat := 5

  datatype Failure = Failure(quitting: bool, restartPending: bool, markerPresent: bool)

  datatype Response = Ignore | RecoverMigration | Retry(delayMs: nat, attempt: nat) | GiveUp(failures: nat)

  datatype Event = Reset | Readiness | StartFailed(failure: Failure)

  datatype State = State(failures: nat, givenUp: bool, prompted: bool)

  function Pow2(n: nat): (r: nat)
    ensures r > 0
  {
    if n == 0 then 1 else 2 * Pow2(n - 1)
  }

  function Min(a: nat, b: nat): nat { if a <= b then a else b }

  /** `backendRestartDelayMs`; attempts below the first count as the first. */
  function RestartDelay(attempt: real): nat {
    var step := (if attempt.Floor < 1 then 1 else attempt.Floor) - 1;
    Min(BASE_DELAY_MS * Pow2(step), MAX_DELAY_MS)
  }

  /** From the second attempt on the delay doubles until it stays at its greatest. */
  lemma RestartDelayDoubles(attempt: nat)
    requires attempt >= 1
    ensures RestartDelay((attempt + 1) as real) == Min(2 * RestartDelay(attempt as real), MAX_DELAY_MS)
    ensures RestartDelay(1.0) == BASE_DELAY_MS
    ensures forall x: real | x < 1.0 :: RestartDelay(x) == RestartDelay(1.0)
    ensures forall x: real | attempt as real <= x < (attempt + 1) as real ::
              RestartDelay(x) == RestartDelay(attempt as real)
  {
  }

  // ------------------------------------------------------------- one failure

  /** What a failed start is answered with, and what is remembered of it. */
  function Respond(s: State, f: Failure): (State, Response) {
    if f.quitting || f.restartPending then (s, Ignore)
    else if f.markerPresent && !s.prompted then (s.(prompted := true), RecoverMigration)
    else if s.givenUp then (s, GiveUp(s.failures))
    else
      var failures := s.failures + 1;
      if failures >= MAX_FAILURES then (s.(failures := failures, givenUp := true), GiveUp(failures))
      else (s.(failures := failures), Retry(RestartDelay(failures as real), failures))
  }

  class BackendSupervisionPolicy {
    var failures: nat
    var givenUp: bool
    var migrationRecoveryPrompted: bool

    function Now(): State
      reads this
    {
      State(failures, givenUp, migrationRecoveryPrompted)
    }

    constructor ()
      ensures Now() == After([])
    {
      failures, givenUp, migrationRecoveryPrompted := 0, false, false;
    }

    method ResetCounters()
      modifies this
      ensures Now() == Next(old(Now()), Reset)
    {
      failures, givenUp := 0, false;
    }

    method RecordReadiness()
      modifies this
      ensures Now() == Next(old(Now()), Readiness)
    {
      ResetCounters();
    }

    method RespondToStartFailure(f: Failure) returns (r: Response)
      modifies this
      ensures (Now(), r) == Respond(old(Now()), f)
      ensures Now() == Next(old(Now()), StartFailed(f))
    {
      if f.quitting || f.restartPending { return Ignore; }
      if f.markerPresent && !migrationRecoveryPrompted {
        migrationRecoveryPrompted := true;
        return RecoverMigration;
      }
      if givenUp { return GiveUp(failures); }
      failures := failures + 1;
      if failures >= MAX_FAILURES {
        givenUp := true;
        return GiveUp(failures);
      }
      return Retry(RestartDelay(failures as real), failures);
    }
  }

  // ---------------------------------------------------------------- whole runs

  function Next(s: State, e: Event): State {
    match e
    case StartFailed(f) => Respond(s, f).0
    case _ => State(0, false, s.prompted)
  }

  /** The state after any run of events. */
  function After(events: seq<Event>): State {
    if events == [] then State(0, false, false) else Next(After(events[..|events| - 1]), events[|events| - 1])
  }

  function Answer(events: seq<Event>, i: nat): Response
    requires i < |events| && events[i].StartFailed?
  {
    Respond(After(events[..i]), events[i].failure).1
  }

  /** The answers given since the last reset or readiness. */
  function Recent(events: seq<Event>): seq<Response> {
    if events == [] || !events[|events| - 1].StartFailed? then []
    else Recent(events[..|events| - 1]) + [Answer(events, |events| - 1)]
  }

  function All(events: seq<Event>): seq<Response> {
    if events == [] then []
    else if !events[|events| - 1].StartFailed? then All(events[..|events| - 1])
    else All(events[..|events| - 1]) + [Answer(events, |events| - 1)]
  }

  function Retries(answers: seq<Response>): seq<Response> {
    if answers == [] then []
    else Retries(answers[..|answers| - 1]) + if answers[|answers| - 1].Retry? then [answers[|answers| - 1]] else []
  }

  function TotalDelay(answers: seq<Response>): nat {
    if answers == [] then 0
    else TotalDelay(answers[..|answers| - 1])
         + if answers[|answers| - 1].Retry? then answers[|answers| - 1].delayMs else 0
  }

  function Recoveries(answers: seq<Response>): nat {
    if answers == [] then 0
    else Recoveries(answers[..|answers| - 1]) + if answers[|answers| - 1].RecoverMigration? then 1 else 0
  }

  /** The four retries a run of failures gets, and no more. */
  function Schedule(): seq<Response> { [Retry(500, 1), Retry(1_000, 2), Retry(2_000, 3), Retry(4_000, 4)] }

  lemma RetriesMore(answers: seq<Response>, r: Response)
    ensures Retries(answers + [r]) == Retries(answers) + if r.Retry? then [r] else []
    ensures TotalDelay(answers + [r]) == TotalDelay(answers) + if r.Retry? then r.delayMs else 0
  {
    assert (answers + [r])[..|answers|] == answers;
  }

  /** The breaker trips at five counted failures and not before. */
  predicate Counting(s: State) { s.failures <= MAX_FAILURES && (s.givenUp <==> s.failures == MAX_FAILURES) }

  /** One failure takes at most one step along the schedule. */
  lemma FailureKeepsSchedule(s: State, f: Failure)
    requires Counting(s)
    ensures var (next, r) := Respond(s, f);
            && Counting(next)
            && Schedule()[..Min(next.failures, 4)]
               == Schedule()[..Min(s.failures, 4)] + if r.Retry? then [r] else []
  {
    var n := s.failures;
    if n < 4 {
      assert RestartDelay((n + 1) as real) == Schedule()[n].delayMs;
      assert Schedule()[..n + 1] == Schedule()[..n] + [Schedule()[n]];
    }
  }

  /**
   Between two resets the retries are the first of the schedule, one per counted failure, and
   the policy has given up exactly when five failures have been counted.
   */
  lemma {:induction false} RetriesFollowSchedule(events: seq<Event>)
    ensures var s := After(events);
            && s.failures <= MAX_FAILURES && (s.givenUp <==> s.failures == MAX_FAILURES)
            && Retries(Recent(events)) == Schedule()[..Min(s.failures, 4)]
    decreases |events|
  {
    hide RestartDelay, Schedule, Respond, Retries, TotalDelay;
    if events == [] {
      NoRetriesYet();
    } else {
      var earlier, e := events[..|events| - 1], events[|events| - 1];
      RetriesFollowSchedule(earlier);
      if e.StartFailed? {
        FailureKeepsSchedule(After(earlier), e.failure);
        RetriesMore(Recent(earlier), Answer(events, |events| - 1));
      } else {
        NoRetriesYet();
      }
    }
  }

  lemma NoRetriesYet()
    ensures Retries([]) == Schedule()[..0]
  {
  }

  /** Once it has given up, only a reset or readiness brings another retry. */
  lemma {:induction false} NoRetryAfterGivingUp(events: seq<Event>)
    ensures forall i, j | 0 <= i < j < |Recent(events)| && Recent(events)[i].GiveUp? :: !Recent(events)[j].Retry?
    ensures (exists i :: 0 <= i < |Recent(events)| && Recent(events)[i].GiveUp?) ==> After(events).givenUp
    ensures forall i | 0 <= i < |Recent(events)| && Recent(events)[i].GiveUp? ::
              Recent(events)[i].failures == MAX_FAILURES
    decreases |events|
  {
    hide RestartDelay, Schedule, Retries, After, Respond;
    if events != [] && events[|events| - 1].StartFailed? {
      var earlier := events[..|events| - 1];
      NoRetryAfterGivingUp(earlier);
      RetriesFollowSchedule(earlier);
      AfterFailure(events);
      assert forall i | 0 <= i < |Recent(earlier)| :: Recent(events)[i] == Recent(earlier)[i];
    }
  }

  lemma AfterFailure(events: seq<Event>)
    requires events != [] && events[|events| - 1].StartFailed?
    ensures var s, next, r := After(events[..|events| - 1]), After(events), Answer(events, |events| - 1);
            && (s.givenUp ==> next.givenUp && !r.Retry?) && (r.GiveUp? ==> next.givenUp)
            && (s.failures <= MAX_FAILURES && (s.givenUp <==> s.failures == MAX_FAILURES) && r.GiveUp? ==>
                  r.failures == MAX_FAILURES)
  {
  }

  lemma {:induction false} TotalOfRetries(answers: seq<Response>)
    ensures TotalDelay(answers) == TotalDelay(Retries(answers))
    decreases |answers|
  {
    if answers != [] {
      var earlier, r := answers[..|answers| - 1], answers[|answers| - 1];
      TotalOfRetries(earlier);
      RetriesMore(Retries(earlier), r);
      assert Retries(earlier) + [] == Retries(earlier);
    }
  }

  /** The first retries of the schedule wait so long together. */
  lemma {:induction false} TotalOfSchedule(n: nat)
    requires n <= 4
    ensures TotalDelay(Schedule()[..n]) == BASE_DELAY_MS * (Pow2(n) - 1)
  {
    if n > 0 {
      TotalOfSchedule(n - 1);
      RetriesMore(Schedule()[..n - 1], Schedule()[n - 1]);
      assert Schedule()[..n] == Schedule()[..n - 1] + [Schedule()[n - 1]];
      assert Pow2(n - 1) == if n == 1 then 1 else if n == 2 then 2 else if n == 3 then 4 else 8;
      hide TotalDelay, Retries;
    }
  }

  /** So the waiting between two resets adds up to 7500 ms when the policy gives up, and to less before. */
  lemma WaitingIsBounded(events: seq<Event>)
    ensures TotalDelay(Recent(events)) <= 7_500
    ensures After(events).givenUp ==> TotalDelay(Recent(events)) == 7_500
  {
    hide After, Recent, Retries, TotalDelay, Schedule;
    RetriesFollowSchedule(events);
    TotalOfRetries(Recent(events));
    TotalOfSchedule(Min(After(events).failures, 4));
    assert Pow2(4) == 16 && Pow2(3) == 8 && Pow2(2) == 4;
  }

  /** Migration recovery is offered at most once in the life of the policy, resets or not. */
  lemma {:induction false} RecoveryIsOfferedOnce(events: seq<Event>)
    ensures Recoveries(All(events)) == if After(events).prompted then 1 else 0
    decreases |events|
  {
    if events != [] {
      var earlier := events[..|events| - 1];
      RecoveryIsOfferedOnce(earlier);
      if events[|events| - 1].StartFailed? {
        assert All(events)[..|All(earlier)|] == All(earlier);
      }
    }
  }

  /** And it is offered at the first failure that finds the marker, without counting that failure. */
  lemma RecoveryIsNotAFailure(s: State, f: Failure)
    ensures Respond(s, f).1.RecoverMigration? <==> f.markerPresent && !s.prompted && !f.quitting && !f.restartPending
    ensures Respond(s, f).1.RecoverMigration? || Respond(s, f).1.Ignore? ==>
              Respond(s, f).0.failures == s.failures && Respond(s, f).0.givenUp == s.givenUp
  {
  }
}
