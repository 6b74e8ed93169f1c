/**
 One shutdown of the backend process (`apps/desktop/src/backendShutdown.ts`, 192-271 on
 POSIX and 306-407 on Windows): signals, timers, the exit event and the settling of the
 operation, with everything that may happen inside `kill` or `startRequest`.
*/
module BackendShutdown {
  import opened Wrappers

  datatype Signal = Term | Kill

  /** How an operation ends; on Windows an exit tells whether force was used. */
  datatype Outcome = Resolved | Exited(forced: bool) | TimedOut(forced: bool)

  /** What an operation does to the outside world, in order. */
  datatype Entry =
    | Sent(signal: Signal)
    | RequestStarted
    | RequestCancelled
    | Settled(outcome: Outcome, exited: bool)

  /**
   What a call into the child or the transport brings about before it is over, by returning or
   by an exception that is swallowed; an exit event implies an exit.
   */
  datatype Effect = Effect(exits: bool, event: bool) {
    predicate Real() { event ==> exits }
  }

  function Count(log: seq<Entry>, e: Entry): nat {
    if log == [] then 0 else Count(log[..|log| - 1], e) + if log[|log| - 1] == e then 1 else 0
  }

  function Settlements(log: seq<Entry>): nat {
    if log == [] then 0 else Settlements(log[..|log| - 1]) + if log[|log| - 1].Settled? then 1 else 0
  }

  lemma CountMore(log: seq<Entry>, new_: Entry, e: Entry)
    ensures Count(log + [new_], e) == Count(log, e) + if new_ == e then 1 else 0
    ensures Settlements(log + [new_]) == Settlements(log) + if new_.Settled? then 1 else 0
  {
  }

  lemma {:induction false} CountPositive(log: seq<Entry>, i: nat)
    requires i < |log|
    ensures Count(log, log[i]) >= 1 && (log[i].Settled? ==> Settlements(log) >= 1)
    decreases |log|
  {
    if i < |log| - 1 { CountPositive(log[..|log| - 1], i); }
  }

  /** No signal goes out once the operation has settled. */
  predicate QuietAfterSettling(log: seq<Entry>) {
    forall i, j | 0 <= i < j < |log| && log[i].Settled? :: !log[j].Sent?
  }

  /**
   Success comes only with the child gone and failure only with it running; and with the timers in
   order, failure only after the force attempt.
   */
  predicate ProofOfExit(log: seq<Entry>, force: Signal, ordered: bool) {
    forall i | 0 <= i < |log| && log[i].Settled? ::
      && (log[i].exited <==> !log[i].outcome.TimedOut?)
      && (ordered && log[i].outcome.TimedOut? ==> log[i].outcome.forced)
      && (!log[i].outcome.Resolved? ==> (log[i].outcome.forced <==> SentBefore(log, i, force)))
  }

  /** What was taken for an exit was one. */
  predicate ExitSeen(log: seq<Entry>, childExited: bool) {
    forall i | 0 <= i < |log| && log[i].Settled? && log[i].exited :: childExited
  }

  lemma AnyExitSeen()
    ensures forall log :: ExitSeen(log, true)
  {
  }

  predicate SentBefore(log: seq<Entry>, i: nat, s: Signal)
    requires i <= |log|
  {
    exists j :: 0 <= j < i && log[j] == Sent(s)
  }

  /** What the log of an operation always satisfies. */
  predicate LogOk(log: seq<Entry>, force: Signal, ordered: bool) {
    && Settlements(log) <= 1
    && Count(log, Sent(Term)) <= 1 && Count(log, Sent(Kill)) <= 1
    && Count(log, RequestStarted) <= 1 && Count(log, RequestCancelled) <= Count(log, RequestStarted)
    && QuietAfterSettling(log) && ProofOfExit(log, force, ordered)
  }

  lemma NoneSettled(log: seq<Entry>)
    requires Settlements(log) == 0
    ensures forall i | 0 <= i < |log| :: !log[i].Settled?
  {
  }

  /** A log that has not settled yet may grow by a signal not sent before, or by settling. */
  lemma SignalLogged(log: seq<Entry>, force: Signal, ordered: bool, s: Signal)
    requires LogOk(log, force, ordered) && Settlements(log) == 0 && Count(log, Sent(s)) == 0
    ensures LogOk(log + [Sent(s)], force, ordered) && Settlements(log + [Sent(s)]) == 0
    ensures forall x :: ExitSeen(log, x) ==> ExitSeen(log + [Sent(s)], x)
    ensures forall e :: Count(log + [Sent(s)], e) == Count(log, e) + if e == Sent(s) then 1 else 0
  {
    var more := log + [Sent(s)];
    forall e ensures Count(more, e) == Count(log, e) + if e == Sent(s) then 1 else 0 { CountMore(log, Sent(s), e); }
    CountMore(log, Sent(s), Sent(s));
    NoneSettled(log);
    hide Count, Settlements, SentBefore;
    assert forall i | 0 <= i < |log| :: more[i] == log[i];
    assert forall i | 0 <= i < |more| :: !more[i].Settled?;
  }

  lemma SettlingLogged(log: seq<Entry>, force: Signal, ordered: bool, outcome: Outcome, exited: bool)
    requires LogOk(log, force, ordered) && Settlements(log) == 0
    requires exited <==> !outcome.TimedOut?
    requires ordered && outcome.TimedOut? ==> outcome.forced
    requires !outcome.Resolved? ==> (outcome.forced <==> Count(log, Sent(force)) >= 1)
    ensures LogOk(log + [Settled(outcome, exited)], force, ordered)
            && Settlements(log + [Settled(outcome, exited)]) == 1
    ensures ExitSeen(log, exited) ==> ExitSeen(log + [Settled(outcome, exited)], exited)
    ensures forall e: Entry :: !e.Settled? ==> Count(log + [Settled(outcome, exited)], e) == Count(log, e)
  {
    var more := log + [Settled(outcome, exited)];
    forall e: Entry | !e.Settled?
      ensures Count(more, e) == Count(log, e)
    {
      CountMore(log, Settled(outcome, exited), e);
    }
    CountMore(log, Settled(outcome, exited), Sent(Term));
    NoneSettled(log);
    assert forall i | 0 <= i < |log| :: more[i] == log[i] && !more[i].Settled?;
    assert SentBefore(more, |log|, force) <==> Count(log, Sent(force)) >= 1 by {
      if Count(log, Sent(force)) >= 1 {
        CountedIn(log, Sent(force));
        var j :| 0 <= j < |log| && log[j] == Sent(force);
        assert more[j] == Sent(force);
      }
      if j :| 0 <= j < |log| && more[j] == Sent(force) { CountPositive(log, j); }
    }
    hide Count, Settlements;
  }

  lemma {:induction false} CountedIn(log: seq<Entry>, e: Entry)
    requires Count(log, e) >= 1
    ensures exists i :: 0 <= i < |log| && log[i] == e
    decreases |log|
  {
    if log[|log| - 1] != e {
      CountedIn(log[..|log| - 1], e);
      var i :| 0 <= i < |log| - 1 && log[..|log| - 1][i] == e;
      assert log[i] == e;
    }
  }

  lemma RequestLogged(log: seq<Entry>, force: Signal, ordered: bool, e: Entry)
    requires LogOk(log, force, ordered)
    requires e == RequestStarted || e == RequestCancelled
    requires e == RequestStarted ==> Count(log, RequestStarted) == 0
    requires e == RequestCancelled ==> Count(log, RequestCancelled) < Count(log, RequestStarted)
    ensures LogOk(log + [e], force, ordered) && Settlements(log + [e]) == Settlements(log)
    ensures forall x :: ExitSeen(log, x) ==> ExitSeen(log + [e], x)
    ensures forall d :: Count(log + [e], d) == Count(log, d) + if d == e then 1 else 0
  {
    var more := log + [e];
    forall d ensures Count(more, d) == Count(log, d) + if d == e then 1 else 0 { CountMore(log, e, d); }
    CountMore(log, e, e);
    hide Count, Settlements;
    assert forall i | 0 <= i < |log| :: more[i] == log[i];
    assert QuietAfterSettling(more) && forall x :: ExitSeen(log, x) ==> ExitSeen(more, x);
    hide QuietAfterSettling, ExitSeen;
    RequestKeepsProof(log, force, ordered, e);
    hide ProofOfExit;
  }

  lemma RequestKeepsProof(log: seq<Entry>, force: Signal, ordered: bool, e: Entry)
    requires ProofOfExit(log, force, ordered) && (e == RequestStarted || e == RequestCancelled)
    ensures ProofOfExit(log + [e], force, ordered)
  {
    var more := log + [e];
    assert forall i | 0 <= i < |log| :: more[i] == log[i];
    forall i | 0 <= i <= |log| ensures SentBefore(more, i, force) <==> SentBefore(log, i, force) {
      if j :| 0 <= j < i && more[j] == Sent(force) { assert log[j] == Sent(force); }
      if j :| 0 <= j < i && log[j] == Sent(force) { assert more[j] == Sent(force); }
    }
    hide SentBefore;
  }

  lemma {:induction false} TwoCounted(log: seq<Entry>, i: nat, j: nat)
    requires i < j < |log|
    ensures log[i] == log[j] ==> Count(log, log[i]) >= 2
    ensures log[i].Settled? && log[j].Settled? ==> Settlements(log) >= 2
    decreases |log|
  {
    var rest := log[..|log| - 1];
    if j < |log| - 1 { TwoCounted(rest, i, j); } else { CountPositive(rest, i); }
  }

  /**
   Read off a log: one settlement at most, each signal once at most and none afterwards, and no success without exit.
   */
  lemma LogMeans(log: seq<Entry>, force: Signal, ordered: bool, i: nat, j: nat)
    requires LogOk(log, force, ordered) && i < |log| && j < |log|
    ensures log[i].Settled? && log[j].Settled? ==> i == j
    ensures log[i].Sent? && log[i] == log[j] ==> i == j
    ensures log[i].Sent? && log[j].Settled? ==> i < j
    ensures log[i].Settled? ==> (log[i].exited <==> !log[i].outcome.TimedOut?)
    ensures ordered && log[i].Settled? && log[i].outcome.TimedOut? ==> exists k :: 0 <= k < i && log[k] == Sent(force)
  {
    if i < j { TwoCounted(log, i, j); }
    if j < i { TwoCounted(log, j, i); }
    if log[i].Sent? { assert log[i] == Sent(Term) || log[i] == Sent(Kill); }
  }

  // ------------------------------------------------------------------ timers

  const TIMEOUT_MAX := 2_147_483_647

  /** The milliseconds after which Node.js fires a timer: whole ones, and one for a delay out of range. */
  function NodeDelay(ms: real): (r: real)
    ensures 1.0 <= r <= TIMEOUT_MAX as real
  {
    if 1.0 <= ms <= TIMEOUT_MAX as real then ms.Floor as real else 1.0
  }

  /** The force attempt is not due after the deadline; of two timers due together the first armed fires first. */
  predicate TimersInOrder(forceKillDelay: real, timeout: real) {
    forceKillDelay == 0.0 || NodeDelay(forceKillDelay) <= NodeDelay(timeout)
  }

  /** A force delay before the timeout is not enough: a timeout too long for a timer is due at once. */
  lemma TimersInOrderIff(forceKillDelay: real, timeout: real)
    requires 0.0 <= forceKillDelay < timeout
    ensures TimersInOrder(forceKillDelay, timeout) <==>
              timeout <= TIMEOUT_MAX as real || forceKillDelay < 2.0 || forceKillDelay > TIMEOUT_MAX as real
  {
    if timeout > TIMEOUT_MAX as real {
      assert NodeDelay(timeout) == 1.0;
      assert 1.0 <= forceKillDelay < 2.0 ==> forceKillDelay.Floor == 1;
      assert forceKillDelay >= 2.0 ==> forceKillDelay.Floor >= 2;
    } else if forceKillDelay >= 1.0 {
      assert forceKillDelay.Floor <= timeout.Floor;
    }
  }

  // ------------------------------------------------------------------ events

  /** What may happen to a run once its first turn is over. */
  datatype Event =
    | Exits
    | ExitReported
    | TimePasses(ms: real)
    | TimersFire(effect: Effect)
    /** On Windows: the answer, an error or a cancellation. */
    | RequestEnded
  {
    predicate Real() { (TimePasses? ==> ms >= 0.0) && (TimersFire? ==> effect.Real()) }

    predicate ShowsExit() { Exits? || ExitReported? || (TimersFire? && effect.exits) }

    predicate Quiet() { Exits? || TimePasses? || RequestEnded? }

    function Elapsed(): real { if TimePasses? then ms else 0.0 }
  }

  predicate AllReal(events: seq<Event>) { forall i | 0 <= i < |events| :: events[i].Real() }

  predicate AllQuiet(events: seq<Event>) { forall i | 0 <= i < |events| :: events[i].Quiet() }

  predicate SomeExit(events: seq<Event>) { exists i :: 0 <= i < |events| && events[i].ShowsExit() }

  predicate Reported(events: seq<Event>) { exists i :: 0 <= i < |events| && events[i].ExitReported? }

  function Elapsed(events: seq<Event>): real {
    if events == [] then 0.0 else Elapsed(events[..|events| - 1]) + events[|events| - 1].Elapsed()
  }

  predicate Succeeded(log: seq<Entry>) { exists i :: 0 <= i < |log| && log[i].Settled? && !log[i].outcome.TimedOut? }

  lemma OneMoreEvent(events: seq<Event>, i: nat)
    requires i < |events|
    ensures Elapsed(events[..i + 1]) == Elapsed(events[..i]) + events[i].Elapsed()
    ensures AllQuiet(events[..i + 1]) <==> AllQuiet(events[..i]) && events[i].Quiet()
    ensures SomeExit(events[..i + 1]) <==> SomeExit(events[..i]) || events[i].ShowsExit()
    ensures Reported(events[..i + 1]) <==> Reported(events[..i]) || events[i].ExitReported?
  {
    var more := events[..i + 1];
    assert more[..i] == events[..i] && more == events[..i] + [events[i]];
    assert forall k | 0 <= k < i :: more[k] == events[..i][k];
    assert more[i].ShowsExit() == events[i].ShowsExit();
  }

  lemma NothingHappened(events: seq<Event>)
    ensures Elapsed(events[..0]) == 0.0 && AllQuiet(events[..0]) && !SomeExit(events[..0]) && !Reported(events[..0])
  {
  }

  lemma SuccessMeansExit(log: seq<Entry>, childExited: bool, ordered: bool)
    requires LogOk(log, Kill, ordered) && ExitSeen(log, childExited)
    ensures Succeeded(log) ==> childExited
  {
  }

  /** A failure never comes before the deadline is due, nor force before its delay is over. */
  predicate Timely(log: seq<Entry>, forced: bool, forceKillDelay: real, timeout: real, elapsed: real) {
    && (forall i | 0 <= i < |log| && log[i].Settled? && log[i].outcome.TimedOut? :: elapsed >= NodeDelay(timeout))
    && (forced && forceKillDelay > 0.0 ==> elapsed >= NodeDelay(forceKillDelay))
  }

  lemma TimelyMore(forceKillDelay: real, timeout: real, elapsed: real)
    ensures forall log, forced, e: Entry | Timely(log, forced, forceKillDelay, timeout, elapsed)
                                           && (!(e.Settled? && e.outcome.TimedOut?) || elapsed >= NodeDelay(timeout)) ::
              Timely(log + [e], forced, forceKillDelay, timeout, elapsed)
    ensures forall log, forced, later: real | Timely(log, forced, forceKillDelay, timeout, elapsed)
                                              && later >= elapsed ::
              Timely(log, forced, forceKillDelay, timeout, later)
    ensures forall log | Timely(log, false, forceKillDelay, timeout, elapsed)
                         && (forceKillDelay == 0.0 || elapsed >= NodeDelay(forceKillDelay)) ::
              Timely(log, true, forceKillDelay, timeout, elapsed)
  {
    hide NodeDelay;
  }

  predicate Failed(log: seq<Entry>) { exists i :: 0 <= i < |log| && log[i].Settled? && log[i].outcome.TimedOut? }

  lemma {:induction false} SettledOnce(log: seq<Entry>)
    ensures Settlements(log) >= 1 ==> Failed(log) || Succeeded(log)
    decreases |log|
  {
    if log != [] && !log[|log| - 1].Settled? {
      var rest := log[..|log| - 1];
      SettledOnce(rest);
      if Settlements(rest) >= 1 {
        var i :| 0 <= i < |rest| && rest[i].Settled?;
        assert log[i].Settled?;
      }
    }
  }

  lemma FailureInTime(log: seq<Entry>, forced: bool, forceKillDelay: real, timeout: real, elapsed: real)
    requires Timely(log, forced, forceKillDelay, timeout, elapsed)
    ensures Failed(log) ==> elapsed >= NodeDelay(timeout)
    ensures forced && forceKillDelay > 0.0 ==> elapsed >= NodeDelay(forceKillDelay)
  {
  }

  // ------------------------------------------------------------------- POSIX

  /** `runPosixBackendShutdown` for a child that runs when it is called. */
  class PosixShutdown {
    const forceKillDelay: real
    const timeout: real
    const startedAt: real
    var now: real
    var childExited: bool
    var settled: bool
    var forced: bool
    var listening: bool
    /** When the timers are due; `None` when not armed. */
    var forceTimer: Option<real>
    var deadlineTimer: Option<real>
    var log: seq<Entry>

    ghost predicate Consistent()
      reads this
    {
      && 0.0 <= forceKillDelay < timeout && startedAt <= now
      && LogOk(log, Kill, InOrder())
      && Settlements(log) == (if settled then 1 else 0)
      && Count(log, Sent(Kill)) == (if forced then 1 else 0)
      && Count(log, RequestStarted) == 0
      && (settled ==> !listening && forceTimer == None && deadlineTimer == None)
      && (!settled ==> listening)
      && ExitSeen(log, childExited) && Timely(log, forced, forceKillDelay, timeout, now - startedAt)
    }

    predicate DeadlinePassed()
      reads `now
    {
      now - startedAt >= NodeDelay(timeout)
    }

    predicate ForceDue()
      reads `now
    {
      forceKillDelay == 0.0 || now - startedAt >= NodeDelay(forceKillDelay)
    }

    predicate InOrder() { TimersInOrder(forceKillDelay, timeout) }

    /**
     Between events: a run that has not settled is waiting for exit, with the deadline armed and the force attempt made
     or armed.
     */
    ghost predicate Valid()
      reads this
    {
      && Consistent() && Count(log, Sent(Term)) == 1 && log != [] && log[0] == Sent(Term)
      && (!settled ==>
            && deadlineTimer == Some(startedAt + NodeDelay(timeout))
            && forceTimer == (if forced then None else Some(startedAt + NodeDelay(forceKillDelay)))
            && (forceKillDelay == 0.0 ==> forced))
    }

    constructor (forceKillDelay: real, timeout: real, now: real)
      requires 0.0 <= forceKillDelay < timeout
      ensures Consistent() && !settled && !forced && !childExited && log == [] && forceTimer == None
              && deadlineTimer == None
      ensures this.forceKillDelay == forceKillDelay && this.timeout == timeout && startedAt == now && this.now == now
    {
      this.forceKillDelay, this.timeout, this.startedAt, this.now := forceKillDelay, timeout, now, now;
      childExited, settled, forced, listening := false, false, false, true;
      forceTimer, deadlineTimer, log := None, None, [];
    }

    /** `settle`, with its cleanup. */
    method Settle(outcome: Outcome)
      requires Consistent()
      requires !settled ==>
                 (outcome == Resolved && childExited)
                 || (outcome == TimedOut(forced) && !childExited && (InOrder() ==> forced) && DeadlinePassed())
      modifies `settled, `listening, `forceTimer, `deadlineTimer, `log
      ensures Consistent() && settled
      ensures log == if old(settled) then old(log) else old(log) + [Settled(outcome, childExited)]
      ensures forall e: Entry | !e.Settled? :: Count(log, e) == Count(old(log), e)
    {
      hide LogOk, Count, Settlements, ExitSeen, NodeDelay, Timely;
      AnyExitSeen();
      TimelyMore(forceKillDelay, timeout, now - startedAt);
      if settled { return; }
      SettlingLogged(log, Kill, InOrder(), outcome, childExited);
      settled := true;
      listening, forceTimer, deadlineTimer := false, None, None;
      log := log + [Settled(outcome, childExited)];
    }

    /** `child.kill`: the signal, and whatever it brings about before the call is over. */
    method Signal(s: Signal, effect: Effect)
      requires Consistent() && !settled && effect.Real() && Count(log, Sent(s)) == 0 && (s == Kill ==> ForceDue())
      modifies `childExited, `forced, `settled, `listening, `forceTimer, `deadlineTimer, `log
      ensures Consistent() && forced == (old(forced) || s == Kill)
      ensures childExited == (old(childExited) || effect.exits)
      ensures settled <==> effect.event
      ensures log == old(log) + [Sent(s)] + if effect.event then [Settled(Resolved, true)] else []
      ensures forall e: Entry | !e.Settled? :: Count(log, e) == Count(old(log), e) + if e == Sent(s) then 1 else 0
      ensures !settled ==> forceTimer == old(forceTimer) && deadlineTimer == old(deadlineTimer)
    {
      hide LogOk, Count, Settlements, ExitSeen, NodeDelay, Timely;
      AnyExitSeen();
      TimelyMore(forceKillDelay, timeout, now - startedAt);
      SignalLogged(log, Kill, InOrder(), s);
      if s == Kill { forced := true; }
      log := log + [Sent(s)];
      if effect.exits { childExited := true; }
      if effect.event && listening { Settle(Resolved); }
    }

    /** `forceIfRunning`. */
    method ForceIfRunning(effect: Effect)
      requires Consistent() && effect.Real() && (settled || !forced) && forceTimer == None && ForceDue()
      modifies `childExited, `forced, `settled, `listening, `forceTimer, `deadlineTimer, `log
      ensures Consistent() && (old(settled) ==> log == old(log) && settled)
      ensures settled || (forced && !childExited)
      ensures !old(settled) ==> settled == childExited && forced == (old(forced) || !old(childExited))
      ensures !old(settled) ==>
                log == old(log) + (if old(childExited) then [] else [Sent(Kill)])
                       + (if childExited then [Settled(Resolved, true)] else [])
      ensures !old(settled) ==> childExited == (old(childExited) || effect.exits)
      ensures old(log) <= log
              && (childExited ==> old(childExited) || effect.exits)
              && (old(childExited) ==> childExited)
      ensures Count(log, Sent(Term)) == Count(old(log), Sent(Term))
      ensures !settled ==> forceTimer == None && deadlineTimer == old(deadlineTimer)
    {
      hide LogOk, Count, Settlements, ExitSeen, NodeDelay, Timely;
      AnyExitSeen();
      TimelyMore(forceKillDelay, timeout, now - startedAt);
      if settled || childExited {
        if childExited { Settle(Resolved); }
        return;
      }
      Signal(Kill, effect);
      if childExited { Settle(Resolved); }
    }

    /** The body of the promise; `term` and `kill` say what the two signals do at once. */
    method Run(term: Effect, kill: Effect)
      requires Consistent() && !settled && !forced && !childExited && log == [] && now == startedAt
               && forceTimer == None && deadlineTimer == None
      requires term.Real() && kill.Real()
      modifies `childExited, `forced, `settled, `listening, `forceTimer, `deadlineTimer, `log
      ensures Valid()
      ensures term.exits ==> settled && log == [Sent(Term), Settled(Resolved, true)]
      ensures !term.exits && forceKillDelay > 0.0 ==> !settled && !childExited && log == [Sent(Term)] && !forced
      ensures forceKillDelay == 0.0 ==> settled || forced
      ensures settled ==> childExited && !Failed(log)
    {
      assert Count(log, Sent(Term)) == 0;
      hide LogOk, Count, Settlements, ExitSeen, NodeDelay, Timely;
      AnyExitSeen();
      TimelyMore(forceKillDelay, timeout, now - startedAt);
      Signal(Term, term);
      if childExited {
        Settle(Resolved);
        return;
      }
      if forceKillDelay == 0.0 {
        ForceIfRunning(kill);
      } else {
        forceTimer := Some(now + NodeDelay(forceKillDelay));
      }
      FailureInTime(log, forced, forceKillDelay, timeout, now - startedAt);
      if settled { return; }
      deadlineTimer := Some(now + NodeDelay(timeout));
    }

    // ---- what may happen next

    /** An exit event that is delivered while somebody listens settles; it implies the exit. */
    method ExitEvent()
      requires Valid()
      modifies `childExited, `settled, `listening, `forceTimer, `deadlineTimer, `log
      ensures Valid() && settled && childExited && old(log) <= log && (old(settled) ==> log == old(log))
    {
      hide LogOk, Count, Settlements, ExitSeen, NodeDelay, Timely;
      AnyExitSeen();
      TimelyMore(forceKillDelay, timeout, now - startedAt);
      childExited := true;
      if listening { Settle(Resolved); }
    }

    /** The next due timer fires, if one is due. */
    method FireTimer(kill: Effect)
      requires Valid() && kill.Real()
      modifies `childExited, `forced, `settled, `listening, `forceTimer, `deadlineTimer, `log
      ensures Valid() && (old(settled) ==> settled && log == old(log))
      ensures now >= startedAt + NodeDelay(forceKillDelay) ==> settled || forced
      ensures now >= startedAt + NodeDelay(timeout) && (old(forced) || !InOrder()) ==> settled
      ensures old(settled) || (!ForceDue() && !DeadlinePassed()) ==> settled == old(settled) && log == old(log)
      ensures !old(settled) && old(forceTimer).Some? && ForceDue() && (InOrder() || !DeadlinePassed()) ==>
                && settled == childExited && childExited == (old(childExited) || kill.exits)
                && log == old(log) + (if old(childExited) then [] else [Sent(Kill)])
                          + (if childExited then [Settled(Resolved, true)] else [])
      ensures !old(settled) && DeadlinePassed() && (old(forced) || !InOrder()) ==>
                settled
                && log
                   == old(log)
                   + if old(childExited) then [Settled(Resolved, true)] else [Settled(TimedOut(old(forced)), false)]
      ensures old(log) <= log && (childExited ==> old(childExited) || kill.exits) && (old(childExited) ==> childExited)
    {
      hide LogOk, Count, Settlements, ExitSeen, NodeDelay, Timely;
      AnyExitSeen();
      TimelyMore(forceKillDelay, timeout, now - startedAt);
      if forceTimer.Some? && forceTimer.value <= now
         && (deadlineTimer.None? || forceTimer.value <= deadlineTimer.value) {
        forceTimer := None;
        ForceIfRunning(kill);
      } else if deadlineTimer.Some? && deadlineTimer.value <= now {
        if childExited {
          Settle(Resolved);
          return;
        }
        Settle(TimedOut(forced));
      }
    }

    /** All due timers have their turn: by the deadline the operation has settled. */
    method FireDueTimers(kill: Effect)
      requires Valid() && kill.Real()
      modifies `childExited, `forced, `settled, `listening, `forceTimer, `deadlineTimer, `log
      ensures Valid() && (now >= startedAt + NodeDelay(timeout) ==> settled)
      ensures old(log) <= log && (old(settled) ==> settled && log == old(log))
      ensures (childExited ==> old(childExited) || kill.exits) && (old(childExited) ==> childExited)
    {
      FireTimer(kill);
      FireTimer(kill);
    }

    method Happen(e: Event)
      requires Valid() && e.Real()
      modifies `childExited, `forced, `settled, `listening, `forceTimer, `deadlineTimer, `log, `now
      ensures Valid() && now == old(now) + e.Elapsed()
      ensures old(log) <= log && (old(settled) || e.Quiet() ==> settled == old(settled) && log == old(log))
      ensures (childExited ==> old(childExited) || e.ShowsExit()) && (e.ExitReported? ==> settled)
      ensures e.TimersFire? && now >= startedAt + NodeDelay(timeout) ==> settled
    {
      hide LogOk, Count, Settlements, ExitSeen, NodeDelay, Timely;
      AnyExitSeen();
      TimelyMore(forceKillDelay, timeout, now - startedAt);
      match e
      case Exits => childExited := true;
      case ExitReported => ExitEvent();
      case TimePasses(ms) => now := now + ms;
      case TimersFire(effect) => FireDueTimers(effect);
      case RequestEnded =>
    }

    /**
     Any run from here: success only if the child had exited or something made it exit, nothing
     settles by waiting, and an exit event or the deadline's turn settles.
     */
    method Play(events: seq<Event>)
      requires Valid() && AllReal(events)
      modifies `childExited, `forced, `settled, `listening, `forceTimer, `deadlineTimer, `log, `now
      ensures Valid() && now == old(now) + Elapsed(events)
      ensures old(log) <= log && (old(settled) || AllQuiet(events) ==> settled == old(settled) && log == old(log))
      ensures (childExited || Succeeded(log)) ==> old(childExited) || SomeExit(events)
      ensures settled && !DeadlinePassed() ==> childExited
      ensures (Failed(log) ==> DeadlinePassed()) && (forced ==> ForceDue())
      ensures Reported(events) ==> settled
      ensures events != [] && events[|events| - 1].TimersFire? && now >= startedAt + NodeDelay(timeout) ==> settled
    {
      hide LogOk, Count, Settlements, Elapsed, AllQuiet, SomeExit, Reported, Succeeded, Failed, Timely, NodeDelay;
      NothingHappened(events);
      var i := 0;
      while i < |events|
        invariant 0 <= i <= |events| && Valid() && now == old(now) + Elapsed(events[..i])
        invariant old(log) <= log
                  && (old(settled) || AllQuiet(events[..i]) ==> settled == old(settled) && log == old(log))
        invariant childExited ==> old(childExited) || SomeExit(events[..i])
        invariant Reported(events[..i]) ==> settled
        invariant i > 0 && events[i - 1].TimersFire? && now >= startedAt + NodeDelay(timeout) ==> settled
      {
        OneMoreEvent(events, i);
        Happen(events[i]);
        i := i + 1;
      }
      assert events[..i] == events;
      SuccessMeansExit(log, childExited, InOrder());
      FailureInTime(log, forced, forceKillDelay, timeout, now - startedAt);
      SettledOnce(log);
    }
  }

  /** Whenever `TimersInOrderIff` finds the timers out of order, a run can fail with no force attempt made. */
  method FailUnforced(forceKillDelay: real, timeout: real) returns (run: PosixShutdown)
    requires 2.0 <= forceKillDelay <= TIMEOUT_MAX as real < timeout
    ensures run.forceKillDelay == forceKillDelay && run.timeout == timeout
    ensures run.log == [Sent(Term), Settled(TimedOut(false), false)]
  {
    TimersInOrderIff(forceKillDelay, timeout);
    run := new PosixShutdown(forceKillDelay, timeout, 0.0);
    var nothing := Effect(false, false);
    run.Run(nothing, nothing);
    run.Happen(TimePasses(1.0));
    run.FireTimer(nothing);
  }

  // ----------------------------------------------------------------- Windows

  /** `runWindowsBackendShutdown` for a child that runs when it is called; `Kill` stands for `forceTerminate`. */
  class WindowsShutdown {
    const forceKillDelay: real
    const timeout: real
    const startedAt: real
    var now: real
    var childExited: bool
    var settled: bool
    var forced: bool
    var listening: bool
    var pendingRequest: bool
    var forceTimer: Option<real>
    var deadlineTimer: Option<real>
    var log: seq<Entry>

    /** How the log ends when the run settles: a request under way is cancelled first. */
    ghost function Ending(outcome: Outcome): seq<Entry>
      reads `pendingRequest
    {
      (if pendingRequest then [RequestCancelled] else []) + [Settled(outcome, outcome.Exited?)]
    }

    ghost predicate Consistent()
      reads this
    {
      && 0.0 <= forceKillDelay < timeout && startedAt <= now
      && LogOk(log, Kill, InOrder())
      && Settlements(log) == (if settled then 1 else 0)
      && Count(log, Sent(Kill)) == (if forced then 1 else 0)
      && Count(log, RequestStarted) == (if pendingRequest then 1 else 0)
      && Count(log, RequestCancelled) == (if pendingRequest && settled then 1 else 0)
      && (settled ==> !listening && forceTimer == None && deadlineTimer == None)
      && (!settled ==> listening)
      && ExitSeen(log, childExited) && Timely(log, forced, forceKillDelay, timeout, now - startedAt)
    }

    predicate DeadlinePassed()
      reads `now
    {
      now - startedAt >= NodeDelay(timeout)
    }

    predicate ForceDue()
      reads `now
    {
      forceKillDelay == 0.0 || now - startedAt >= NodeDelay(forceKillDelay)
    }

    predicate InOrder() { TimersInOrder(forceKillDelay, timeout) }

    /** Between events: as on POSIX; a request that was started is cancelled once, when the operation settles. */
    ghost predicate Valid()
      reads this
    {
      && Consistent()
      && (!settled ==>
            && deadlineTimer == Some(startedAt + NodeDelay(timeout))
            && forceTimer == (if forced then None else Some(startedAt + NodeDelay(forceKillDelay)))
            && (forceKillDelay == 0.0 ==> forced))
    }

    constructor (forceKillDelay: real, timeout: real, now: real)
      requires 0.0 <= forceKillDelay < timeout
      ensures Consistent() && !settled && !forced && !childExited && log == [] && !pendingRequest && forceTimer == None
              && deadlineTimer == None
      ensures this.forceKillDelay == forceKillDelay && this.timeout == timeout && startedAt == now && this.now == now
    {
      this.forceKillDelay, this.timeout, this.startedAt, this.now := forceKillDelay, timeout, now, now;
      childExited, settled, forced, listening, pendingRequest := false, false, false, true, false;
      forceTimer, deadlineTimer, log := None, None, [];
    }

    /** `settle`. */
    method Settle(outcome: Outcome)
      requires Consistent()
      requires !settled ==>
                 (outcome == Exited(forced) && childExited)
                 || (outcome == TimedOut(forced) && !childExited && (InOrder() ==> forced) && DeadlinePassed())
      modifies `settled, `listening, `forceTimer, `deadlineTimer, `log
      ensures Consistent() && settled
      ensures log == if old(settled) then old(log) else old(log) + Ending(outcome)
    {
      hide LogOk, Count, Settlements, ExitSeen, NodeDelay, Timely;
      AnyExitSeen();
      TimelyMore(forceKillDelay, timeout, now - startedAt);
      if settled { return; }
      settled := true;
      listening, forceTimer, deadlineTimer := false, None, None;
      if pendingRequest {
        RequestLogged(log, Kill, InOrder(), RequestCancelled);
        log := log + [RequestCancelled];
      }
      SettlingLogged(log, Kill, InOrder(), outcome, childExited);
      log := log + [Settled(outcome, childExited)];
    }

    method OnExit()
      requires Consistent() && childExited
      modifies `settled, `listening, `forceTimer, `deadlineTimer, `log
      ensures Consistent() && settled && old(log) <= log && (old(settled) ==> log == old(log))
      ensures !old(settled) ==>
                log == old(log) + Ending(Exited(forced))
    {
      Settle(Exited(forced));
    }

    /**
     `startRequest` and the lines about its result: an exit inside it is not missed, and its request not left running.
     */
    method StartRequest(effect: Effect, throws: bool)
      requires Consistent() && !settled && !forced && !pendingRequest && !childExited && effect.Real()
      modifies `childExited, `settled, `listening, `forceTimer, `deadlineTimer, `log, `pendingRequest
      ensures Consistent() && childExited == effect.exits && pendingRequest == !throws
      ensures settled <==> effect.event
      ensures log == old(log) + (if effect.event then [Settled(Exited(false), true)] else [])
                     + (if throws then [] else [RequestStarted])
                     + (if effect.event && !throws then [RequestCancelled] else [])
      ensures !settled ==>
                && forceTimer == old(forceTimer) && deadlineTimer == old(deadlineTimer)
                && log == old(log) + if throws then [] else [RequestStarted]
    {
      hide LogOk, Count, Settlements, ExitSeen, NodeDelay, Timely;
      AnyExitSeen();
      TimelyMore(forceKillDelay, timeout, now - startedAt);
      if effect.exits { childExited := true; }
      if effect.event && listening { OnExit(); }
      if throws { return; }
      RequestLogged(log, Kill, InOrder(), RequestStarted);
      pendingRequest := true;
      log := log + [RequestStarted];
      if settled {
        RequestLogged(log, Kill, InOrder(), RequestCancelled);
        log := log + [RequestCancelled];
      }
    }

    /** `forceIfRunning`. */
    method ForceIfRunning(effect: Effect)
      requires Consistent() && effect.Real() && (settled || !forced) && forceTimer == None && ForceDue()
      modifies `childExited, `forced, `settled, `listening, `forceTimer, `deadlineTimer, `log
      ensures Consistent() && (old(settled) ==> log == old(log) && settled)
      ensures settled || (forced && !childExited)
      ensures !old(settled) ==> settled == childExited && forced == (old(forced) || !old(childExited))
      ensures !old(settled) ==>
                log == old(log) + (if old(childExited) then [] else [Sent(Kill)])
                       + (if childExited then Ending(Exited(forced)) else [])
      ensures !old(settled) ==> childExited == (old(childExited) || effect.exits)
      ensures old(log) <= log
              && (childExited ==> old(childExited) || effect.exits)
              && (old(childExited) ==> childExited)
      ensures !settled ==> forceTimer == None && deadlineTimer == old(deadlineTimer)
    {
      hide LogOk, Count, Settlements, ExitSeen, NodeDelay, Timely;
      AnyExitSeen();
      TimelyMore(forceKillDelay, timeout, now - startedAt);
      if settled || childExited {
        if childExited { OnExit(); }
        return;
      }
      SignalLogged(log, Kill, InOrder(), Kill);
      forced := true;
      log := log + [Sent(Kill)];
      if effect.exits { childExited := true; }
      if effect.event && listening { OnExit(); }
      if childExited { OnExit(); }
    }

    /** The body of the promise. */
    method Run(start: Effect, throws: bool, terminate: Effect)
      requires Consistent() && !settled && !forced && !childExited && !pendingRequest && now == startedAt
               && forceTimer == None && deadlineTimer == None
      requires start.Real() && terminate.Real()
      modifies `childExited, `forced, `settled, `listening, `forceTimer, `deadlineTimer, `log, `pendingRequest
      ensures Valid() && pendingRequest == !throws
      ensures start.exits ==> settled && !forced
      ensures !start.exits && forceKillDelay > 0.0 ==>
                !settled && !childExited && !forced && log == old(log) + if throws then [] else [RequestStarted]
      ensures forceKillDelay == 0.0 ==> settled || forced
      ensures settled ==> childExited && !Failed(log)
    {
      hide LogOk, Count, Settlements, ExitSeen, NodeDelay, Timely;
      AnyExitSeen();
      TimelyMore(forceKillDelay, timeout, now - startedAt);
      StartRequest(start, throws);
      FailureInTime(log, forced, forceKillDelay, timeout, now - startedAt);
      if settled { return; }
      if childExited {
        OnExit();
        FailureInTime(log, forced, forceKillDelay, timeout, now - startedAt);
        return;
      }
      if forceKillDelay == 0.0 {
        ForceIfRunning(terminate);
      } else {
        forceTimer := Some(now + NodeDelay(forceKillDelay));
      }
      FailureInTime(log, forced, forceKillDelay, timeout, now - startedAt);
      if settled { return; }
      deadlineTimer := Some(now + NodeDelay(timeout));
    }

    // ---- what may happen next

    /** An exit event that is delivered while somebody listens settles; it implies the exit. */
    method ExitEvent()
      requires Valid()
      modifies `childExited, `settled, `listening, `forceTimer, `deadlineTimer, `log
      ensures Valid() && settled && childExited && old(log) <= log && (old(settled) ==> log == old(log))
    {
      hide LogOk, Count, Settlements, ExitSeen, NodeDelay, Timely;
      AnyExitSeen();
      TimelyMore(forceKillDelay, timeout, now - startedAt);
      childExited := true;
      if listening { OnExit(); }
    }

    method FireTimer(terminate: Effect)
      requires Valid() && terminate.Real()
      modifies `childExited, `forced, `settled, `listening, `forceTimer, `deadlineTimer, `log
      ensures Valid() && (old(settled) ==> settled && log == old(log))
      ensures now >= startedAt + NodeDelay(forceKillDelay) ==> settled || forced
      ensures now >= startedAt + NodeDelay(timeout) && (old(forced) || !InOrder()) ==> settled
      ensures old(settled) || (!ForceDue() && !DeadlinePassed()) ==> settled == old(settled) && log == old(log)
      ensures !old(settled) && old(forceTimer).Some? && ForceDue() && (InOrder() || !DeadlinePassed()) ==>
                && settled == childExited && childExited == (old(childExited) || terminate.exits)
                && log == old(log) + (if old(childExited) then [] else [Sent(Kill)])
                          + (if childExited then Ending(Exited(forced)) else [])
      ensures !old(settled) && DeadlinePassed() && (old(forced) || !InOrder()) ==>
                settled && log == old(log) + Ending(if old(childExited) then Exited(forced) else TimedOut(old(forced)))
      ensures old(log) <= log
              && (childExited ==> old(childExited) || terminate.exits)
              && (old(childExited) ==> childExited)
    {
      hide LogOk, Count, Settlements, ExitSeen, NodeDelay, Timely;
      AnyExitSeen();
      TimelyMore(forceKillDelay, timeout, now - startedAt);
      if forceTimer.Some? && forceTimer.value <= now
         && (deadlineTimer.None? || forceTimer.value <= deadlineTimer.value) {
        forceTimer := None;
        ForceIfRunning(terminate);
      } else if deadlineTimer.Some? && deadlineTimer.value <= now {
        if childExited {
          OnExit();
          return;
        }
        Settle(TimedOut(forced));
      }
    }

    method FireDueTimers(terminate: Effect)
      requires Valid() && terminate.Real()
      modifies `childExited, `forced, `settled, `listening, `forceTimer, `deadlineTimer, `log
      ensures Valid() && (now >= startedAt + NodeDelay(timeout) ==> settled)
      ensures old(log) <= log && (old(settled) ==> settled && log == old(log))
      ensures (childExited ==> old(childExited) || terminate.exits) && (old(childExited) ==> childExited)
    {
      FireTimer(terminate);
      FireTimer(terminate);
    }

    method Happen(e: Event)
      requires Valid() && e.Real()
      modifies `childExited, `forced, `settled, `listening, `forceTimer, `deadlineTimer, `log, `now
      ensures Valid() && now == old(now) + e.Elapsed()
      ensures old(log) <= log && (old(settled) || e.Quiet() ==> settled == old(settled) && log == old(log))
      ensures (childExited ==> old(childExited) || e.ShowsExit()) && (e.ExitReported? ==> settled)
      ensures e.TimersFire? && now >= startedAt + NodeDelay(timeout) ==> settled
    {
      hide LogOk, Count, Settlements, ExitSeen, NodeDelay, Timely;
      AnyExitSeen();
      TimelyMore(forceKillDelay, timeout, now - startedAt);
      match e
      case Exits => childExited := true;
      case ExitReported => ExitEvent();
      case TimePasses(ms) => now := now + ms;
      case TimersFire(effect) => FireDueTimers(effect);
      case RequestEnded =>
    }

    /**
     Any run from here: success only if the child had exited or something made it exit, nothing
     settles by waiting or by an answer to the request, and an exit event or the deadline's turn settles.
     */
    method Play(events: seq<Event>)
      requires Valid() && AllReal(events)
      modifies `childExited, `forced, `settled, `listening, `forceTimer, `deadlineTimer, `log, `now
      ensures Valid() && now == old(now) + Elapsed(events)
      ensures old(log) <= log && (old(settled) || AllQuiet(events) ==> settled == old(settled) && log == old(log))
      ensures (childExited || Succeeded(log)) ==> old(childExited) || SomeExit(events)
      ensures settled && !DeadlinePassed() ==> childExited
      ensures (Failed(log) ==> DeadlinePassed()) && (forced ==> ForceDue())
      ensures Reported(events) ==> settled
      ensures events != [] && events[|events| - 1].TimersFire? && now >= startedAt + NodeDelay(timeout) ==> settled
    {
      hide LogOk, Count, Settlements, Elapsed, AllQuiet, SomeExit, Reported, Succeeded, Failed, Timely, NodeDelay;
      NothingHappened(events);
      var i := 0;
      while i < |events|
        invariant 0 <= i <= |events| && Valid() && now == old(now) + Elapsed(events[..i])
        invariant old(log) <= log
                  && (old(settled) || AllQuiet(events[..i]) ==> settled == old(settled) && log == old(log))
        invariant childExited ==> old(childExited) || SomeExit(events[..i])
        invariant Reported(events[..i]) ==> settled
        invariant i > 0 && events[i - 1].TimersFire? && now >= startedAt + NodeDelay(timeout) ==> settled
      {
        OneMoreEvent(events, i);
        Happen(events[i]);
        i := i + 1;
      }
      assert events[..i] == events;
      SuccessMeansExit(log, childExited, InOrder());
      FailureInTime(log, forced, forceKillDelay, timeout, now - startedAt);
      SettledOnce(log);
    }
  }

  /** On Windows too, and whether or not the request could be started. */
  method FailUnforcedOnWindows(forceKillDelay: real, timeout: real, throws: bool) returns (run: WindowsShutdown)
    requires 2.0 <= forceKillDelay <= TIMEOUT_MAX as real < timeout
    ensures run.forceKillDelay == forceKillDelay && run.timeout == timeout
    ensures run.log
            == (if throws then [] else [RequestStarted, RequestCancelled]) + [Settled(TimedOut(false), false)]
  {
    TimersInOrderIff(forceKillDelay, timeout);
    run := new WindowsShutdown(forceKillDelay, timeout, 0.0);
    var nothing := Effect(false, false);
    run.Run(nothing, throws, nothing);
    run.Happen(TimePasses(1.0));
    run.FireTimer(nothing);
  }
}
