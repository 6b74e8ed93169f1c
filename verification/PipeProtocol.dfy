/**
 One connection of the browser-host pipe (`apps/desktop/src/browserUsePipeServer.ts`,
 348-499 and 556-579): which requests are admitted, answered and forwarded, and to whom
 the connection is bound. Requests and responses are those of sections 4 and 5 of the
 JSON-RPC 2.0 specification.
*/
module PipeProtocol {
  import opened Wrappers
  import opened FrameCodec
  import JsText

  // ---------------------------------------------------------------- messages

  datatype Id = NumberId(value: real) | StringId(text: string) | NullId

  datatype WorkspaceRoot = NoRoot | GoodRoot(path: string) | BadRoot

  /** The members of `params` as strings; `None` for one that is missing or no string. */
  datatype Params = Params(sessionId: Option<string>, capability: Option<string>, provider: Option<string>,
                           threadId: Option<string>, name: Option<string>, workspaceRoot: WorkspaceRoot)

  datatype Method = Ping | GetInfo | ExecuteTool | BrowserControl | OtherMethod

  datatype Incoming = NotAnObject | Message(id: Option<Id>, operation: Option<Method>, params: Params)

  datatype Reason = TooManyInFlight | DuplicateId | SessionMissing | WrongSession | NoHandler | Thrown
                  | InputUnsupported | AuthorizationDenied | TabScopeViolation | HostError

  datatype Body = Pong | Info(sessionId: string) | Returned(value: Bytes) | Failed(code: int, reason: Reason)

  datatype Response = Response(frame: nat, id: Id, body: Body)

  /** A tool call passed on to the host. */
  datatype Call = Call(sessionId: string, provider: string, threadId: string, name: string,
                       workspaceRoot: WorkspaceRoot)

  /**
   A handler's synchronous part returns an answer, which goes out after the next suspension, throws, which
   is answered on the spot, or waits for someone else's answer.
   */
  datatype Verdict = Done(body: Body) | Throws(code: int, reason: Reason) | AwaitsHost(call: Call) | AwaitsControl {
    function OwnBody(): Option<Body> {
      if Done? then Some(body) else if Throws? then Some(Failed(code, reason)) else None
    }
  }

  /** A started handler: registered under its id until it settles, then only holding its place. */
  datatype Task = Registered(id: Id, verdict: Verdict) | Finished

  datatype Binding = Binding(sessionId: Option<string>, threadId: Option<string>)

  datatype Event = InfoGranted(params: Params) | Forwarded(call: Call)

  const BUSY := -32_001
  const HOST_ERROR := -32_010
  const PLAIN_ERROR := -32_000

  /** `asString`: blank text counts as none. */
  function AsString(text: Option<string>): Option<string> {
    if text.Some? && !JsText.AllSpace(text.value) then text else None
  }

  // ---------------------------------------------------------------- handlers

  function InfoVerdict(b: Binding, p: Params, capability: string): Verdict {
    var session := AsString(p.sessionId);
    if session.None? then Throws(PLAIN_ERROR, SessionMissing)
    else if AsString(p.capability) != Some(capability) then Throws(HOST_ERROR, AuthorizationDenied)
    else if b.sessionId.Some? && b.sessionId != session then Throws(PLAIN_ERROR, WrongSession)
    else Done(Info(session.value))
  }

  function ToolVerdict(b: Binding, p: Params): Verdict {
    var session, provider, thread, name := AsString(p.sessionId), AsString(p.provider), AsString(p.threadId),
        AsString(p.name);
    if p.workspaceRoot.BadRoot? || session.None? || session != b.sessionId
       || provider.None? || thread.None? || name.None?
    then Throws(HOST_ERROR, InputUnsupported)
    else if b.threadId.Some? && b.threadId != thread then Throws(HOST_ERROR, TabScopeViolation)
    else AwaitsHost(Call(session.value, provider.value, thread.value, name.value, p.workspaceRoot))
  }

  /** `handleRequest`, up to its first suspension; `browserControl` is asynchronous, so its refusal is a rejection. */
  function Handle(b: Binding, m: Method, p: Params, capability: string, remoteFrames: bool): Verdict {
    match m
    case Ping => Done(Pong)
    case GetInfo => InfoVerdict(b, p, capability)
    case ExecuteTool => ToolVerdict(b, p)
    case BrowserControl =>
      if b.sessionId.None? || !remoteFrames then Done(Failed(HOST_ERROR, AuthorizationDenied)) else AwaitsControl
    case OtherMethod => Throws(PLAIN_ERROR, NoHandler)
  }

  /** What the connection is bound to afterwards. */
  function Bound(b: Binding, v: Verdict): Binding {
    match v
    case Done(Info(session)) => b.(sessionId := Some(session))
    case AwaitsHost(call) => b.(threadId := Some(call.threadId))
    case _ => b
  }

  function Traced(p: Params, v: Verdict): seq<Event> {
    match v
    case Done(Info(_)) => [InfoGranted(p)]
    case AwaitsHost(call) => [Forwarded(call)]
    case _ => []
  }

  /**
   Every call forwarded carries the session and the thread the connection is bound to, and
   comes after a `getInfo` that named this session and knew the capability.
   */
  predicate BindingOk(trace: seq<Event>, b: Binding, capability: string) {
    && (forall i | 0 <= i < |trace| && trace[i].Forwarded? ::
          && Some(trace[i].call.sessionId) == b.sessionId && Some(trace[i].call.threadId) == b.threadId
          && exists j :: 0 <= j < i && trace[j].InfoGranted?)
    && (forall i | 0 <= i < |trace| && trace[i].InfoGranted? ::
          b.sessionId.Some? && AsString(trace[i].params.sessionId) == b.sessionId
          && AsString(trace[i].params.capability) == Some(capability))
    && (b.sessionId.Some? ==> exists j :: 0 <= j < |trace| && trace[j].InfoGranted?)
    && (b.threadId.Some? ==> b.sessionId.Some? && exists j :: 0 <= j < |trace| && trace[j].Forwarded?)
  }

  lemma HandlersOwnVerdict(b: Binding, m: Method, p: Params, capability: string, remoteFrames: bool)
    ensures Handle(b, m, p, capability, remoteFrames).OwnBody() != Some(Failed(BUSY, TooManyInFlight))
  {
  }

  /** Handling a request keeps that, and never rebinds a bound connection. */
  lemma HandleKeepsBinding(trace: seq<Event>, b: Binding, m: Method, p: Params, capability: string, remoteFrames: bool)
    requires BindingOk(trace, b, capability)
    ensures var v := Handle(b, m, p, capability, remoteFrames);
            && BindingOk(trace + Traced(p, v), Bound(b, v), capability)
            && (b.sessionId.Some? ==> Bound(b, v).sessionId == b.sessionId)
            && (b.threadId.Some? ==> Bound(b, v).threadId == b.threadId)
  {
    hide AsString;
    var v := Handle(b, m, p, capability, remoteFrames);
    var after := trace + Traced(p, v);
    assert forall i | 0 <= i < |trace| :: after[i] == trace[i];
    if b.sessionId.Some? {
      var j :| 0 <= j < |trace| && trace[j].InfoGranted?;
      assert after[j].InfoGranted?;
      if b.threadId.Some? {
        var k :| 0 <= k < |trace| && trace[k].Forwarded?;
        assert after[k].Forwarded?;
      }
      if v.AwaitsHost? { assert after[|trace|].Forwarded?; }
    } else if v.Done? && v.body.Info? {
      assert after[|trace|].InfoGranted?;
    }
  }

  /**
   Seen from outside: all forwarded calls name one session and one thread, the session of an earlier, capable
   `getInfo`.
   */
  lemma CallsAreScoped(trace: seq<Event>, b: Binding, capability: string, i: nat, j: nat)
    requires BindingOk(trace, b, capability) && i < |trace| && j < |trace| && trace[i].Forwarded? && trace[j].Forwarded?
    ensures trace[i].call.sessionId == trace[j].call.sessionId && trace[i].call.threadId == trace[j].call.threadId
    ensures exists k ::
              0 <= k < i && trace[k].InfoGranted?
              && AsString(trace[k].params.sessionId) == Some(trace[i].call.sessionId)
                        && AsString(trace[k].params.capability) == Some(capability)
  {
  }

  // What a connection has to grant, read off what it granted so far.

  predicate Visible(text: Option<string>) { text.Some? && !JsText.AllSpace(text.value) }

  /** Some earlier `getInfo` was granted, and all that were name this session. */
  predicate SessionIs(trace: seq<Event>, session: Option<string>) {
    && (exists i :: 0 <= i < |trace| && trace[i].InfoGranted?)
    && forall i | 0 <= i < |trace| && trace[i].InfoGranted? :: trace[i].params.sessionId == session
  }

  /** No call has been forwarded for another thread. */
  predicate ThreadFits(trace: seq<Event>, thread: Option<string>) {
    forall i | 0 <= i < |trace| && trace[i].Forwarded? :: Some(trace[i].call.threadId) == thread
  }

  /** A `getInfo` that knows the capability and names a session, the connection's if it has one. */
  predicate InfoDue(trace: seq<Event>, p: Params, capability: string) {
    && Visible(p.sessionId) && Visible(p.capability) && p.capability == Some(capability)
    && forall i | 0 <= i < |trace| && trace[i].InfoGranted? :: trace[i].params.sessionId == p.sessionId
  }

  /** A complete tool request for the connection's session. */
  predicate ToolFits(trace: seq<Event>, p: Params) {
    && Visible(p.sessionId) && Visible(p.provider) && Visible(p.threadId) && Visible(p.name)
    && !p.workspaceRoot.BadRoot? && SessionIs(trace, p.sessionId)
  }

  /** What taking a request has to add to the trace. */
  ghost function Due(trace: seq<Event>, m: Method, p: Params, capability: string): seq<Event> {
    if m.GetInfo? && InfoDue(trace, p, capability) then [InfoGranted(p)]
    else if m.ExecuteTool? && ToolFits(trace, p) && ThreadFits(trace, p.threadId) then
      [Forwarded(Call(p.sessionId.value, p.provider.value, p.threadId.value, p.name.value, p.workspaceRoot))]
    else []
  }

  /** A request is granted exactly when it is due, and each refusal says why. */
  lemma GrantedIff(trace: seq<Event>, b: Binding, m: Method, p: Params, capability: string, remoteFrames: bool)
    requires BindingOk(trace, b, capability)
    ensures var v := Handle(b, m, p, capability, remoteFrames);
            && Traced(p, v) == Due(trace, m, p, capability)
            && (m.GetInfo? && InfoDue(trace, p, capability) ==> v == Done(Info(p.sessionId.value)))
            && (m.ExecuteTool? ==> (v == Throws(HOST_ERROR, TabScopeViolation) <==>
                                      ToolFits(trace, p) && !ThreadFits(trace, p.threadId)))
            && (m.ExecuteTool? ==> (v == Throws(HOST_ERROR, InputUnsupported) <==> !ToolFits(trace, p)))
            && (m.GetInfo? ==> (v == Throws(PLAIN_ERROR, SessionMissing) <==> !Visible(p.sessionId)))
            && (m.GetInfo? ==> (v == Throws(HOST_ERROR, AuthorizationDenied) <==>
                                  Visible(p.sessionId) && !(Visible(p.capability) && p.capability == Some(capability))))
            && (m.GetInfo? ==> (v == Throws(PLAIN_ERROR, WrongSession) <==>
                                  Visible(p.sessionId) && Visible(p.capability) && p.capability == Some(capability)
                                  && !InfoDue(trace, p, capability)))
            && (m.Ping? ==> v == Done(Pong)) && (m.OtherMethod? ==> v == Throws(PLAIN_ERROR, NoHandler))
            && (m.BrowserControl? ==>
                  if remoteFrames && exists i :: 0 <= i < |trace| && trace[i].InfoGranted? then v == AwaitsControl
                  else v == Done(Failed(HOST_ERROR, AuthorizationDenied)))
  {
    BoundByTrace(trace, b, capability, p.sessionId, p.threadId);
    hide BindingOk, SessionIs, ThreadFits;
  }

  /** The binding says what the trace says. */
  lemma BoundByTrace(trace: seq<Event>, b: Binding, capability: string, session: Option<string>, thread: Option<string>)
    requires BindingOk(trace, b, capability)
    ensures b.sessionId.Some? <==> exists i :: 0 <= i < |trace| && trace[i].InfoGranted?
    ensures Visible(session) ==> (SessionIs(trace, session) <==> b.sessionId == session)
    ensures Visible(session) ==>
              ((forall i | 0 <= i < |trace| && trace[i].InfoGranted? :: trace[i].params.sessionId == session) <==>
                 b.sessionId.None? || b.sessionId == session)
    ensures ThreadFits(trace, thread) <==> b.threadId.None? || b.threadId == thread
  {
  }

  // ----------------------------------------------------- tasks and controllers

  predicate Waiting(tasks: map<nat, Task>, f: nat) { f in tasks && tasks[f].Registered? }

  /** A controller per running handler, each under its own id; none once the connection is closed. */
  ghost predicate ControllersOk(tasks: map<nat, Task>, controllers: map<Id, nat>, closed: bool) {
    && (forall i | i in controllers :: Waiting(tasks, controllers[i]) && tasks[controllers[i]].id == i)
    && (forall f | Waiting(tasks, f) && !closed :: tasks[f].id in controllers && controllers[tasks[f].id] == f)
    && (forall f, g | Waiting(tasks, f) && Waiting(tasks, g) && tasks[f].id == tasks[g].id :: f == g)
    && (closed ==> controllers == map[])
  }

  /** A handler that threw at once is no longer at work. */
  ghost predicate NoneThrew(tasks: map<nat, Task>) { forall f | Waiting(tasks, f) :: !tasks[f].verdict.Throws? }

  lemma FinishedThrewNot(tasks: map<nat, Task>, f: nat)
    requires NoneThrew(tasks)
    ensures NoneThrew(tasks[f := Finished])
  {
  }

  lemma RetiredThrewNot(tasks: map<nat, Task>, f: nat)
    requires NoneThrew(tasks)
    ensures NoneThrew(tasks - {f})
  {
  }

  lemma ThrowBindsNothing(b: Binding, p: Params, v: Verdict)
    ensures v.Throws? ==> Bound(b, v) == b && Traced(p, v) == []
  {
  }

  /** One place per handler not yet done with, within the limit. */
  predicate SlotsOk(tasks: map<nat, Task>, inFlight: nat, limit: nat) { inFlight == |tasks| <= limit }

  lemma SlotTaken(tasks: map<nat, Task>, inFlight: nat, limit: nat, f: nat, task: Task)
    requires SlotsOk(tasks, inFlight, limit) && inFlight < limit && f !in tasks
    ensures SlotsOk(tasks[f := task], inFlight + 1, limit)
  {
  }

  lemma SlotSame(tasks: map<nat, Task>, inFlight: nat, limit: nat, f: nat, task: Task)
    requires SlotsOk(tasks, inFlight, limit) && f in tasks
    ensures SlotsOk(tasks[f := task], inFlight, limit)
  {
  }

  lemma SlotFreed(tasks: map<nat, Task>, inFlight: nat, limit: nat, f: nat)
    requires SlotsOk(tasks, inFlight, limit) && f in tasks
    ensures inFlight > 0 && SlotsOk(tasks - {f}, inFlight - 1, limit)
  {
  }

  predicate Parsed(messages: seq<Incoming>, delivered: seq<Bytes>, parse: Bytes -> Incoming) {
    |messages| == |delivered| && forall i | 0 <= i < |delivered| :: messages[i] == parse(delivered[i])
  }

  lemma ParsedMore(messages: seq<Incoming>, delivered: seq<Bytes>, parse: Bytes -> Incoming, raw: Bytes)
    requires Parsed(messages, delivered, parse)
    ensures Parsed(messages + [parse(raw)], delivered + [raw], parse)
  {
  }

  /** What a settled handler answers: its own verdict, or the reply it waited for. */
  function SettledBody(task: Task, reply: Body): Body {
    if task.Registered? && task.verdict.OwnBody().Some? then task.verdict.OwnBody().value else reply
  }

  // -------------------------------------------------------------- the answers

  predicate Answered(responses: seq<Response>, f: nat) {
    exists i :: 0 <= i < |responses| && responses[i].frame == f
  }

  /** A frame is owed an answer when it has an id and, if it was admitted, a method. */
  predicate Expects(m: Incoming, admitted: bool) {
    m.Message? && m.id.Some? && (admitted ==> m.operation.Some?)
  }

  predicate Fitting(r: Response, messages: seq<Incoming>, admitted: seq<bool>) {
    && r.frame < |messages| == |admitted|
    && Expects(messages[r.frame], admitted[r.frame]) && messages[r.frame].id == Some(r.id)
    && (r.body == Failed(BUSY, TooManyInFlight) <==> !admitted[r.frame])
  }

  /** Handlers belong to admitted frames, and one at work to a frame with its id and a method. */
  ghost predicate PlacesOk(messages: seq<Incoming>, admitted: seq<bool>, tasks: map<nat, Task>) {
    && |admitted| == |messages|
    && (forall f | f in tasks :: f < |messages| && admitted[f])
    && (forall f: nat | Waiting(tasks, f) ::
          Expects(messages[f], true) && messages[f].id == Some(tasks[f].id)
          && tasks[f].verdict.OwnBody() != Some(Failed(BUSY, TooManyInFlight)))
  }

  /** Answers fit their frames, and no frame has two. */
  predicate ResponsesOk(messages: seq<Incoming>, admitted: seq<bool>, responses: seq<Response>) {
    && (forall i | 0 <= i < |responses| :: Fitting(responses[i], messages, admitted))
    && (forall i, j | 0 <= i < j < |responses| :: responses[i].frame != responses[j].frame)
  }

  /** A frame has its answer exactly when it is owed one and no handler is still at work on it. */
  predicate OwedAnswered(messages: seq<Incoming>, admitted: seq<bool>, tasks: map<nat, Task>, responses: seq<Response>)
    requires |messages| == |admitted|
  {
    forall f | 0 <= f < |messages| ::
      Answered(responses, f) <==> (Expects(messages[f], admitted[f]) && !Waiting(tasks, f))
  }

  ghost predicate AnswersOk(messages: seq<Incoming>, admitted: seq<bool>, tasks: map<nat, Task>,
                            responses: seq<Response>) {
    PlacesOk(messages, admitted, tasks) && ResponsesOk(messages, admitted, responses)
    && OwedAnswered(messages, admitted, tasks, responses)
  }

  lemma AnsweredMore(responses: seq<Response>, r: Response, f: nat)
    ensures Answered(responses + [r], f) <==> Answered(responses, f) || r.frame == f
  {
    var more := responses + [r];
    if Answered(responses, f) {
      var i :| 0 <= i < |responses| && responses[i].frame == f;
      assert more[i].frame == f;
    }
    if r.frame == f { assert more[|responses|].frame == f; }
  }

  function WithTask(tasks: map<nat, Task>, n: nat, task: Option<Task>): map<nat, Task> {
    if task.Some? then tasks[n := task.value] else tasks
  }

  function WithAnswer(responses: seq<Response>, answer: Option<Response>): seq<Response> {
    if answer.Some? then responses + [answer.value] else responses
  }

  lemma PlaceTaken(messages: seq<Incoming>, admitted: seq<bool>, tasks: map<nat, Task>, m: Incoming, task: Option<Task>)
    requires PlacesOk(messages, admitted, tasks)
    requires task.Some? && task.value.Registered? ==>
               Expects(m, true) && m.id == Some(task.value.id)
               && task.value.verdict.OwnBody() != Some(Failed(BUSY, TooManyInFlight))
    ensures PlacesOk(messages + [m], admitted + [task.Some?], WithTask(tasks, |messages|, task))
  {
  }

  lemma AnswerAdded(messages: seq<Incoming>, admitted: seq<bool>, responses: seq<Response>, m: Incoming, ok: bool,
                    answer: Option<Response>)
    requires |messages| == |admitted| && ResponsesOk(messages, admitted, responses)
    requires answer.Some? ==> answer.value.frame == |messages| && Fitting(answer.value, messages + [m], admitted + [ok])
    ensures ResponsesOk(messages + [m], admitted + [ok], WithAnswer(responses, answer))
  {
  }

  lemma OwedTaken(messages: seq<Incoming>, admitted: seq<bool>, tasks: map<nat, Task>, responses: seq<Response>,
                  m: Incoming, task: Option<Task>, answer: Option<Response>)
    requires AnswersOk(messages, admitted, tasks, responses)
    requires answer.Some? ==> answer.value.frame == |messages|
    requires answer.Some? <==> Expects(m, task.Some?) && !(task.Some? && task.value.Registered?)
    ensures OwedAnswered(messages + [m], admitted + [task.Some?], WithTask(tasks, |messages|, task),
                         WithAnswer(responses, answer))
  {
    var n, all, oks := |messages|, messages + [m], admitted + [task.Some?];
    var next, said := WithTask(tasks, n, task), WithAnswer(responses, answer);
    assert !Answered(responses, n) && n !in tasks;
    hide Expects, Answered, Fitting;
    forall f | 0 <= f < n + 1 ensures Answered(said, f) <==> (Expects(all[f], oks[f]) && !Waiting(next, f)) {
      if answer.Some? { AnsweredMore(responses, answer.value, f); }
      if f < n { assert Waiting(next, f) == Waiting(tasks, f); }
    }
  }

  /** A new frame is taken, with a task, an answer, or neither. */
  lemma FrameTaken(messages: seq<Incoming>, admitted: seq<bool>, tasks: map<nat, Task>, responses: seq<Response>,
                   m: Incoming, task: Option<Task>, answer: Option<Response>)
    requires AnswersOk(messages, admitted, tasks, responses)
    requires task.Some? && task.value.Registered? ==>
               Expects(m, true) && m.id == Some(task.value.id)
               && task.value.verdict.OwnBody() != Some(Failed(BUSY, TooManyInFlight))
    requires answer.Some? ==>
               answer.value.frame == |messages| && Fitting(answer.value, messages + [m], admitted + [task.Some?])
    requires answer.Some? <==> Expects(m, task.Some?) && !(task.Some? && task.value.Registered?)
    ensures AnswersOk(messages + [m], admitted + [task.Some?], WithTask(tasks, |messages|, task),
                      WithAnswer(responses, answer))
  {
    PlaceTaken(messages, admitted, tasks, m, task);
    AnswerAdded(messages, admitted, responses, m, task.Some?, answer);
    OwedTaken(messages, admitted, tasks, responses, m, task, answer);
  }

  lemma RefusedAnswered(messages: seq<Incoming>, admitted: seq<bool>, tasks: map<nat, Task>, responses: seq<Response>,
                        m: Incoming)
    requires AnswersOk(messages, admitted, tasks, responses) && m.Message? && m.id.Some?
    ensures AnswersOk(messages + [m], admitted + [false], tasks,
                      responses + [Response(|messages|, m.id.value, Failed(BUSY, TooManyInFlight))])
  {
    NewFrame(messages, admitted, tasks, responses);
    hide AnswersOk;
    FrameTaken(messages, admitted, tasks, responses, m, None,
               Some(Response(|messages|, m.id.value, Failed(BUSY, TooManyInFlight))));
  }

  lemma RefusedIgnored(messages: seq<Incoming>, admitted: seq<bool>, tasks: map<nat, Task>, responses: seq<Response>,
                       m: Incoming)
    requires AnswersOk(messages, admitted, tasks, responses) && !(m.Message? && m.id.Some?)
    ensures AnswersOk(messages + [m], admitted + [false], tasks, responses)
  {
  }

  lemma MalformedIgnored(messages: seq<Incoming>, admitted: seq<bool>, tasks: map<nat, Task>, responses: seq<Response>,
                         m: Incoming)
    requires AnswersOk(messages, admitted, tasks, responses) && (m.NotAnObject? || m.id.None? || m.operation.None?)
    ensures AnswersOk(messages + [m], admitted + [true], tasks[|messages| := Finished], responses)
  {
  }

  lemma DuplicateAnswered(messages: seq<Incoming>, admitted: seq<bool>, tasks: map<nat, Task>, responses: seq<Response>,
                          m: Incoming)
    requires AnswersOk(messages, admitted, tasks, responses) && Expects(m, true)
    ensures AnswersOk(messages + [m], admitted + [true], tasks[|messages| := Finished],
                      responses + [Response(|messages|, m.id.value, Failed(BUSY, DuplicateId))])
  {
    NewFrame(messages, admitted, tasks, responses);
    hide AnswersOk;
    FrameTaken(messages, admitted, tasks, responses, m, Some(Finished),
               Some(Response(|messages|, m.id.value, Failed(BUSY, DuplicateId))));
  }

  lemma HandlerStarted(messages: seq<Incoming>, admitted: seq<bool>, tasks: map<nat, Task>, responses: seq<Response>,
                       m: Incoming, v: Verdict)
    requires AnswersOk(messages, admitted, tasks, responses) && Expects(m, true)
             && v.OwnBody() != Some(Failed(BUSY, TooManyInFlight))
    ensures AnswersOk(messages + [m], admitted + [true], tasks[|messages| := Registered(m.id.value, v)], responses)
  {
  }

  lemma NewFrame(messages: seq<Incoming>, admitted: seq<bool>, tasks: map<nat, Task>, responses: seq<Response>)
    requires AnswersOk(messages, admitted, tasks, responses)
    ensures |messages| !in tasks && |admitted| == |messages|
  {
  }

  /** A waiting handler settles with its one answer. */
  lemma TaskSettled(messages: seq<Incoming>, admitted: seq<bool>, tasks: map<nat, Task>, responses: seq<Response>,
                    f: nat, body: Body)
    requires AnswersOk(messages, admitted, tasks, responses) && Waiting(tasks, f)
             && body != Failed(BUSY, TooManyInFlight)
    ensures AnswersOk(messages, admitted, tasks[f := Finished], responses + [Response(f, tasks[f].id, body)])
  {
    var answer := Response(f, tasks[f].id, body);
    var next, said := tasks[f := Finished], responses + [answer];
    assert !Answered(responses, f);
    assert forall i | 0 <= i < |responses| :: said[i] == responses[i] && responses[i].frame != f;
    forall g | 0 <= g < |messages|
      ensures Answered(said, g) <==> (Expects(messages[g], admitted[g]) && !Waiting(next, g))
    {
      AnsweredMore(responses, answer, g);
      assert g != f ==> Waiting(next, g) == Waiting(tasks, g);
    }
  }

  lemma OwnVerdict(messages: seq<Incoming>, admitted: seq<bool>, tasks: map<nat, Task>, responses: seq<Response>,
                   f: nat, reply: Body)
    requires AnswersOk(messages, admitted, tasks, responses) && Waiting(tasks, f)
             && reply != Failed(BUSY, TooManyInFlight)
    ensures SettledBody(tasks[f], reply) != Failed(BUSY, TooManyInFlight)
  {
  }

  lemma TaskRetired(messages: seq<Incoming>, admitted: seq<bool>, tasks: map<nat, Task>, responses: seq<Response>,
                    f: nat)
    requires AnswersOk(messages, admitted, tasks, responses) && f in tasks && tasks[f].Finished?
    ensures AnswersOk(messages, admitted, tasks - {f}, responses)
  {
  }

  /** With no handler left at work, each frame has an answer exactly when it is owed one, and never two. */
  lemma AllAnswered(messages: seq<Incoming>, admitted: seq<bool>, tasks: map<nat, Task>, responses: seq<Response>,
                    f: nat)
    requires AnswersOk(messages, admitted, tasks, responses) && f < |messages| && !Waiting(tasks, f)
    ensures Expects(messages[f], admitted[f]) ==>
              exists i :: 0 <= i < |responses| && responses[i].frame == f && messages[f].id == Some(responses[i].id)
                          && forall j | 0 <= j < |responses| && responses[j].frame == f :: j == i
    ensures !Expects(messages[f], admitted[f]) ==> forall j | 0 <= j < |responses| :: responses[j].frame != f
  {
  }

  // -------------------------------------------------------------- controllers

  lemma ControllerAdded(tasks: map<nat, Task>, controllers: map<Id, nat>, f: nat, id: Id, v: Verdict)
    requires ControllersOk(tasks, controllers, false) && f !in tasks && id !in controllers
    ensures ControllersOk(tasks[f := Registered(id, v)], controllers[id := f], false)
  {
  }

  /** What a connection only ever adds to: controllers of handlers at work, its binding, its answers and its trace. */
  predicate Extends(controllers: map<Id, nat>, moreControllers: map<Id, nat>, b: Binding, c: Binding,
                    responses: seq<Response>, moreResponses: seq<Response>, trace: seq<Event>, moreTrace: seq<Event>)
  {
    && (forall i | i in controllers :: i in moreControllers && moreControllers[i] == controllers[i])
    && (b.sessionId.Some? ==> c.sessionId == b.sessionId) && (b.threadId.Some? ==> c.threadId == b.threadId)
    && responses <= moreResponses && trace <= moreTrace
  }

  lemma ExtendsTwice(k0: map<Id, nat>, k1: map<Id, nat>, k2: map<Id, nat>, b0: Binding, b1: Binding, b2: Binding,
                     r0: seq<Response>, r1: seq<Response>, r2: seq<Response>, t0: seq<Event>, t1: seq<Event>,
                     t2: seq<Event>)
    requires Extends(k0, k1, b0, b1, r0, r1, t0, t1) && Extends(k1, k2, b1, b2, r1, r2, t1, t2)
    ensures Extends(k0, k2, b0, b2, r0, r2, t0, t2)
  {
  }

  lemma ExtendsSame(k: map<Id, nat>, b: Binding, r: seq<Response>, t: seq<Event>, more: seq<Response>)
    ensures Extends(k, k, b, b, r, r + more, t, t)
  {
  }

  lemma ExtendsStarted(k: map<Id, nat>, id: Id, f: nat, b: Binding, c: Binding, r: seq<Response>, t: seq<Event>,
                       more: seq<Event>)
    requires id !in k
             && (b.sessionId.Some? ==> c.sessionId == b.sessionId)
             && (b.threadId.Some? ==> c.threadId == b.threadId)
    ensures Extends(k, k[id := f], b, c, r, r, t, t + more)
  {
  }

  lemma FinishedAdded(tasks: map<nat, Task>, controllers: map<Id, nat>, closed: bool, f: nat)
    requires ControllersOk(tasks, controllers, closed) && f !in tasks
    ensures ControllersOk(tasks[f := Finished], controllers, closed)
  {
  }

  /** A settled handler takes its own controller away and no other. */
  lemma ControllerRemoved(tasks: map<nat, Task>, controllers: map<Id, nat>, closed: bool, f: nat)
    requires ControllersOk(tasks, controllers, closed) && Waiting(tasks, f)
    ensures ControllersOk(tasks[f := Finished], controllers - {tasks[f].id}, closed)
    ensures forall i | i in controllers && controllers[i] != f :: i in controllers - {tasks[f].id}
  {
  }

  lemma FinishedRemoved(tasks: map<nat, Task>, controllers: map<Id, nat>, closed: bool, f: nat)
    requires ControllersOk(tasks, controllers, closed) && f in tasks && tasks[f].Finished?
    ensures ControllersOk(tasks - {f}, controllers, closed)
  {
  }

  lemma ControllersDropped(tasks: map<nat, Task>, controllers: map<Id, nat>, closed: bool)
    requires ControllersOk(tasks, controllers, closed)
    ensures ControllersOk(tasks, map[], true)
    ensures !closed ==> forall f | Waiting(tasks, f) :: f in controllers.Values
  {
  }

  /** All that starting a handler keeps. */
  lemma StartKeepsAll(messages: seq<Incoming>, admitted: seq<bool>, tasks: map<nat, Task>, responses: seq<Response>,
                      controllers: map<Id, nat>,
                      inFlight: nat, limit: nat, trace: seq<Event>, b: Binding, m: Incoming, capability: string,
                      remoteFrames: bool)
    requires AnswersOk(messages, admitted, tasks, responses) && ControllersOk(tasks, controllers, false)
    requires BindingOk(trace, b, capability) && SlotsOk(tasks, inFlight, limit) && inFlight < limit
    requires Expects(m, true) && m.id.value !in controllers
    ensures var v, f := Handle(b, m.operation.value, m.params, capability, remoteFrames), |messages|;
            var next := tasks[f := Registered(m.id.value, v)];
            && AnswersOk(messages + [m], admitted + [true], next, responses)
            && ControllersOk(next, controllers[m.id.value := f], false)
            && BindingOk(trace + Traced(m.params, v), Bound(b, v), capability)
            && SlotsOk(next, inFlight + 1, limit)
            && Extends(controllers, controllers[m.id.value := f], b, Bound(b, v), responses, responses, trace,
                       trace + Traced(m.params, v))
  {
    hide ControllersOk, BindingOk, Extends, SlotsOk, AsString, Handle, Bound, Traced;
    var v := Handle(b, m.operation.value, m.params, capability, remoteFrames);
    NewFrame(messages, admitted, tasks, responses);
    HandlersOwnVerdict(b, m.operation.value, m.params, capability, remoteFrames);
    hide AnswersOk;
    HandlerStarted(messages, admitted, tasks, responses, m, v);
    ControllerAdded(tasks, controllers, |messages|, m.id.value, v);
    SlotTaken(tasks, inFlight, limit, |messages|, Registered(m.id.value, v));
    HandleKeepsBinding(trace, b, m.operation.value, m.params, capability, remoteFrames);
    ExtendsStarted(controllers, m.id.value, |messages|, b, Bound(b, v), responses, trace, Traced(m.params, v));
  }
}
