/**
 Which shutdown operation a caller gets (`apps/desktop/src/backendShutdown.ts`, 278-304 on
 POSIX and 414-448 on Windows): one per child process while it lives, whoever asks and in
 whatever order operations end and their clean-up callbacks run.
*/
module ShutdownRegistry {
  import opened Wrappers

  type Child = nat
  type OpId = nat

  /** A JavaScript number as the range checks see it. */
  datatype Number = Finite(value: real) | NotFinite

  datatype RangeError = BadForceDelay | BadTimeout | DelayNotBeforeTimeout

  datatype Ending = Exited | TimedOut

  /** An operation; `done` once the callback that follows its ending has run. */
  datatype Op = Op(child: Child, ending: Option<Ending>, done: bool)

  type Ops = map<OpId, Op>

  datatype Platform = Posix | Windows

  /** An operation that is still handed out: until its callback has run, and on Windows for good if it ended in exit. */
  predicate Posted(op: Op, platform: Platform) {
    !op.done || (platform.Windows? && op.ending == Some(Exited))
  }

  /** The registry lists exactly the operations that are to be handed out, one per child. */
  predicate RegistryOk(registry: map<Child, OpId>, ops: Ops, platform: Platform, next: OpId) {
    && (forall c | c in registry ::
          registry[c] in ops && ops[registry[c]].child == c && Posted(ops[registry[c]], platform))
    && (forall o | o in ops && Posted(ops[o], platform) :: ops[o].child in registry && registry[ops[o].child] == o)
    && (forall o | o in ops :: o < next && (ops[o].done ==> ops[o].ending.Some?))
  }

  /** So a child never has two operations that have not ended. */
  lemma OneLivePerChild(registry: map<Child, OpId>, ops: Ops, platform: Platform, next: OpId, a: OpId, b: OpId)
    requires RegistryOk(registry, ops, platform, next)
    requires a in ops && b in ops && ops[a].child == ops[b].child && ops[a].ending.None? && ops[b].ending.None?
    ensures a == b
  {
  }

  function PosixRange(forceDelay: Number, timeout: Number): Option<RangeError> {
    if forceDelay.NotFinite? || forceDelay.value < 0.0 then Some(BadForceDelay)
    else if timeout.NotFinite? || timeout.value <= 0.0 then Some(BadTimeout)
    else if forceDelay.value >= timeout.value then Some(DelayNotBeforeTimeout)
    else None
  }

  /** The arguments pass exactly if both are numbers and the force delay, not negative, comes before the timeout. */
  lemma PosixRangeIff(forceDelay: Number, timeout: Number)
    ensures PosixRange(forceDelay, timeout).None? <==>
              forceDelay.Finite? && timeout.Finite? && 0.0 <= forceDelay.value < timeout.value
    ensures PosixRange(forceDelay, timeout) == Some(BadForceDelay) <==>
              forceDelay.NotFinite? || forceDelay.value < 0.0
    ensures PosixRange(forceDelay, timeout) == Some(DelayNotBeforeTimeout) <==>
              forceDelay.Finite? && timeout.Finite? && timeout.value > 0.0 && forceDelay.value >= timeout.value
  {
  }

  class PosixRegistry {
    var registry: map<Child, OpId>
    var ops: Ops
    var nextOp: OpId

    predicate Valid()
      reads this
    {
      RegistryOk(registry, ops, Posix, nextOp)
    }

    constructor ()
      ensures Valid() && ops == map[]
    {
      registry, ops, nextOp := map[], map[], 0;
    }

    /** `stopPosixBackendAndWait`: the arguments are judged first, even when an operation is under way. */
    method Stop(child: Child, forceDelay: Number, timeout: Number, exited: bool) returns (r: Result<OpId, RangeError>)
      requires Valid()
      modifies this
      ensures Valid()
      ensures match PosixRange(forceDelay, timeout)
              case Some(e) => r == Err(e) && unchanged(this)
              case None =>
                && r.Ok? && r.value in ops && ops[r.value].child == child && !ops[r.value].done
                && forall o | o in old(ops) :: o in ops && ops[o] == old(ops)[o]
      ensures r.Ok? ==>
                if o :| o in old(ops) && old(ops)[o].child == child && !old(ops)[o].done
                then r.value == o && unchanged(this)
                else r.value !in old(ops)
                     && ops == old(ops)[r.value := Op(child, if exited then Some(Exited) else None, false)]
    {
      var e := PosixRange(forceDelay, timeout);
      if e.Some? { return Err(e.value); }
      if child in registry { return Ok(registry[child]); }
      r := Ok(nextOp);
      ops := ops[nextOp := Op(child, if exited then Some(Exited) else None, false)];
      registry := registry[child := nextOp];
      nextOp := nextOp + 1;
    }

    /** The run behind an operation settles; the operation stays the child's until its callback has run. */
    method End(op: OpId, ending: Ending)
      requires Valid() && op in ops && ops[op].ending.None?
      modifies `ops
      ensures Valid() && ops == old(ops)[op := old(ops)[op].(ending := Some(ending))]
    {
      ops := ops[op := ops[op].(ending := Some(ending))];
    }

    /** The `finally` callback. Its guard never fails: what it takes away is this operation and not a newer one. */
    method CleanUp(op: OpId)
      requires Valid() && op in ops && ops[op].ending.Some? && !ops[op].done
      modifies `ops, `registry
      ensures Valid() && ops == old(ops)[op := old(ops)[op].(done := true)]
      ensures ops[op].child in old(registry) && old(registry)[ops[op].child] == op
      ensures registry == old(registry) - {ops[op].child}
    {
      var child := ops[op].child;
      assert Posted(ops[op], Posix);
      if child in registry && registry[child] == op { registry := registry - {child}; }
      ops := ops[op := ops[op].(done := true)];
    }
  }

  class WindowsRegistry {
    var registry: map<Child, OpId>
    var ops: Ops
    var nextOp: OpId

    predicate Valid()
      reads this
    {
      RegistryOk(registry, ops, Windows, nextOp)
    }

    constructor ()
      ensures Valid() && ops == map[]
    {
      registry, ops, nextOp := map[], map[], 0;
    }

    /**
     `stopWindowsBackendAndWait`: an operation under way, or one that ended in exit, is handed out before the arguments
     are judged.
     */
    method Stop(child: Child, forceDelay: Number, timeout: Number, exited: bool) returns (r: Result<OpId, RangeError>)
      requires Valid()
      modifies this
      ensures Valid()
      ensures if o :| o in old(ops) && old(ops)[o].child == child && Posted(old(ops)[o], Windows)
              then r == Ok(o) && unchanged(this)
              else if PosixRange(forceDelay, timeout).Some? then r.Err? && unchanged(this)
              else r == Ok(old(nextOp)) && old(nextOp) !in old(ops)
                   && ops == old(ops)[old(nextOp) := Op(child, if exited then Some(Exited) else None, false)]
    {
      if child in registry { return Ok(registry[child]); }
      if forceDelay.NotFinite? || timeout.NotFinite? || forceDelay.value < 0.0 || timeout.value <= 0.0
         || forceDelay.value >= timeout.value {
        return Err(DelayNotBeforeTimeout);
      }
      r := Ok(nextOp);
      ops := ops[nextOp := Op(child, if exited then Some(Exited) else None, false)];
      registry := registry[child := nextOp];
      nextOp := nextOp + 1;
    }

    method End(op: OpId, ending: Ending)
      requires Valid() && op in ops && ops[op].ending.None?
      modifies `ops
      ensures Valid() && ops == old(ops)[op := old(ops)[op].(ending := Some(ending))]
    {
      assert Posted(ops[op], Windows);
      ops := ops[op := ops[op].(ending := Some(ending))];
    }

    /** The `then` callback: only a timed-out operation makes way for another, and the guard never fails. */
    method CleanUp(op: OpId)
      requires Valid() && op in ops && ops[op].ending.Some? && !ops[op].done
      modifies `ops, `registry
      ensures Valid() && ops == old(ops)[op := old(ops)[op].(done := true)]
      ensures ops[op].child in old(registry) && old(registry)[ops[op].child] == op
      ensures registry == if ops[op].ending == Some(TimedOut) then old(registry) - {ops[op].child} else old(registry)
    {
      var child := ops[op].child;
      assert Posted(ops[op], Windows);
      assert child in registry && registry[child] == op;
      if ops[op].ending == Some(TimedOut) && child in registry && registry[child] == op {
        registry := registry - {child};
      }
      ops := ops[op := ops[op].(done := true)];
      assert ops[op].ending.value.Exited? || ops[op].ending.value.TimedOut?;
    }
  }
}
