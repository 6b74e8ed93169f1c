/**
 A client's connection to the browser-host pipe (`apps/desktop/src/browserUsePipeServer.ts`,
 313-414 and 556-579) as it changes with every chunk, settled handler and close. Handlers
 start in the order of their frames and settle in any order; parsing and printing JSON are
 parameters.
*/
module PipeConnection {
  import opened Wrappers
  import opened FrameCodec
  import opened PipeProtocol

  datatype WriteResult = Written | Overflow | Closed

  class Connection {
    const endianness: Endianness
    const capability: string
    const maxInFlight: nat
    const maxQueued: nat
    const remoteFrames: bool
    const parse: Bytes -> Incoming
    const render: Response -> Bytes

    var pending: Bytes
    var inFlight: nat
    var binding: Binding
    /** Aborts the handler of the frame it names. */
    var controllers: map<Id, nat>
    var aborted: set<nat>
    var tasks: map<nat, Task>
    /** Frames are numbered as they come. */
    var frames: nat
    var destroyed: bool
    var closed: bool
    var output: Bytes

    /** The history of the connection. */
    ghost var received: Bytes
    ghost var rejected: bool
    ghost var delivered: seq<Bytes>
    ghost var messages: seq<Incoming>
    ghost var admitted: seq<bool>
    ghost var responses: seq<Response>
    ghost var trace: seq<Event>
    ghost var sent: seq<Bytes>

    /** Bytes: what came in decodes to what was delivered and what waits, what went out encodes what was sent. */
    ghost predicate StreamOk()
      reads `received, `rejected, `delivered, `messages, `pending
    {
      && (if rejected then DecodeAll(endianness, received) == Rejected
          else DecodeAll(endianness, received) == Decoded(delivered, pending))
      && Parsed(messages, delivered, parse)
    }

    ghost predicate OutputOk()
      reads `output, `sent
    {
      (forall p | p in sent :: Writable(p)) && AllFit(sent) && output == EncodeAll(endianness, sent)
    }

    /** Requests: bounded, one controller each, answered once, bound to one session and thread. */
    ghost predicate ProtocolOk()
      reads `frames, `inFlight, `binding, `controllers, `tasks, `closed, `messages, `admitted, `responses, `trace
    {
      && frames == |messages| && SlotsOk(tasks, inFlight, maxInFlight)
      && ControllersOk(tasks, controllers, closed)
      && AnswersOk(messages, admitted, tasks, responses)
      && BindingOk(trace, binding, capability)
    }

    ghost predicate Valid()
      reads this
    {
      StreamOk() && OutputOk() && ProtocolOk() && NoneThrew(tasks) && (closed || rejected ==> destroyed)
    }

    constructor (endianness: Endianness, capability: string, maxInFlight: nat, maxQueued: nat, remoteFrames: bool,
                 parse: Bytes -> Incoming, render: Response -> Bytes)
      ensures Valid() && !destroyed && received == [] && responses == [] && trace == []
    {
      this.endianness, this.capability, this.maxInFlight, this.maxQueued := endianness, capability, maxInFlight,
      maxQueued;
      this.remoteFrames, this.parse, this.render := remoteFrames, parse, render;
      pending, inFlight, binding, controllers, aborted, tasks := [], 0, Binding(None, None), map[], {}, map[];
      frames, destroyed, closed, output := 0, false, false, [];
      received, rejected, delivered, messages, admitted, responses, trace, sent := [], false, [], [], [], [], [], [];
    }

    /** `write`; a response is never held back for a full queue, and too large a message ends the connection. */
    method Write(payload: Bytes, isResponse: bool, queued: nat) returns (r: WriteResult)
      requires OutputOk() && (closed ==> destroyed)
      modifies `destroyed, `output, `sent
      ensures OutputOk() && (closed ==> destroyed)
      ensures r == Written <==>
                !old(destroyed) && Writable(payload)
                && (isResponse || queued + FRAME_HEADER_BYTES + |payload| <= maxQueued)
      ensures r == Closed <==> old(destroyed)
      ensures sent == if r == Written then old(sent) + [payload] else old(sent)
      ensures destroyed == (old(destroyed) || !Writable(payload))
    {
      if destroyed { return Closed; }
      if !Writable(payload) {
        destroyed := true;
        return Overflow;
      }
      if !isResponse && queued + FRAME_HEADER_BYTES + |payload| > maxQueued { return Overflow; }
      SentMore(endianness, sent, payload);
      sent := sent + [payload];
      output := output + Encode(endianness, payload);
      return Written;
    }

    /** One response, whether or not it still reaches the peer. */
    method Respond(answer: Response)
      requires OutputOk() && (closed ==> destroyed)
      modifies `destroyed, `output, `sent, `responses
      ensures OutputOk() && (old(destroyed) ==> destroyed) && responses == old(responses) + [answer]
    {
      hide OutputOk, Writable;
      responses := responses + [answer];
      var r := Write(render(answer), true, 0);
    }

    /** One frame too many: answered if it has an id, and otherwise forgotten. */
    method Refuse(m: Incoming)
      requires OutputOk() && ProtocolOk() && (closed ==> destroyed) && inFlight >= maxInFlight
      modifies `destroyed, `output, `sent, `frames, `messages, `admitted, `responses
      ensures OutputOk() && ProtocolOk() && (old(destroyed) ==> destroyed)
      ensures messages == old(messages) + [m] && admitted == old(admitted) + [false]
      ensures responses
              == old(responses)
              + if m.Message? && m.id.Some? then [Response(|old(messages)|, m.id.value,
                                                           Failed(BUSY, TooManyInFlight))] else []
      ensures Extends(controllers, controllers, binding, binding, old(responses), responses, trace, trace)
    {
      hide ControllersOk, AnswersOk, BindingOk, OutputOk, Extends, SlotsOk, Writable;
      NewFrame(messages, admitted, tasks, responses);
      var frame := frames;
      frames := frames + 1;
      if m.Message? && m.id.Some? {
        var answer := Response(frame, m.id.value, Failed(BUSY, TooManyInFlight));
        RefusedAnswered(messages, admitted, tasks, responses, m);
        ExtendsSame(controllers, binding, responses, trace, [answer]);
        Respond(answer);
      } else {
        RefusedIgnored(messages, admitted, tasks, responses, m);
        ExtendsSame(controllers, binding, responses, trace, []);
        assert responses + [] == responses;
      }
      messages, admitted := messages + [m], admitted + [false];
    }

    /** A malformed frame starts no handler, but holds its place for a moment. */
    method Ignore(m: Incoming)
      requires ProtocolOk() && inFlight < maxInFlight && (m.NotAnObject? || m.id.None? || m.operation.None?)
      modifies `frames, `inFlight, `tasks, `messages, `admitted
      ensures ProtocolOk() && messages == old(messages) + [m] && admitted == old(admitted) + [true]
      ensures tasks == old(tasks)[|old(messages)| := Finished]
    {
      hide ControllersOk, AnswersOk, BindingOk, SlotsOk, Waiting;
      NewFrame(messages, admitted, tasks, responses);
      FinishedAdded(tasks, controllers, closed, frames);
      SlotTaken(tasks, inFlight, maxInFlight, frames, Finished);
      MalformedIgnored(messages, admitted, tasks, responses, m);
      tasks := tasks[frames := Finished];
      frames, inFlight := frames + 1, inFlight + 1;
      messages, admitted := messages + [m], admitted + [true];
    }

    /** A request whose id is taken is answered at once, and leaves the original and its controller alone. */
    method Duplicate(m: Incoming)
      requires OutputOk() && ProtocolOk() && (closed ==> destroyed) && inFlight < maxInFlight
      requires m.Message? && m.id.Some? && m.operation.Some? && m.id.value in controllers
      modifies `destroyed, `output, `sent, `frames, `inFlight, `tasks, `messages, `admitted, `responses
      ensures OutputOk() && ProtocolOk() && (old(destroyed) ==> destroyed)
      ensures messages == old(messages) + [m] && admitted == old(admitted) + [true]
      ensures responses == old(responses) + [Response(|old(messages)|, m.id.value, Failed(BUSY, DuplicateId))]
      ensures tasks == old(tasks)[|old(messages)| := Finished]
    {
      hide ControllersOk, AnswersOk, BindingOk, OutputOk, SlotsOk, Waiting;
      NewFrame(messages, admitted, tasks, responses);
      FinishedAdded(tasks, controllers, closed, frames);
      SlotTaken(tasks, inFlight, maxInFlight, frames, Finished);
      DuplicateAnswered(messages, admitted, tasks, responses, m);
      Respond(Response(frames, m.id.value, Failed(BUSY, DuplicateId)));
      tasks := tasks[frames := Finished];
      frames, inFlight := frames + 1, inFlight + 1;
      messages, admitted := messages + [m], admitted + [true];
    }

    /** A handler starts, with a controller of its own. */
    method Start(m: Incoming)
      requires OutputOk() && ProtocolOk() && !closed && inFlight < maxInFlight
      requires m.Message? && m.id.Some? && m.operation.Some? && m.id.value !in controllers
      modifies `frames, `inFlight, `binding, `controllers, `tasks, `messages, `admitted, `trace
      ensures OutputOk() && ProtocolOk()
      ensures messages == old(messages) + [m] && admitted == old(admitted) + [true]
      ensures var v := Handle(old(binding), m.operation.value, m.params, capability, remoteFrames);
              && tasks == old(tasks)[|old(messages)| := Registered(m.id.value, v)]
              && controllers == old(controllers)[m.id.value := |old(messages)|]
              && binding == Bound(old(binding), v) && trace == old(trace) + Traced(m.params, v)
      ensures Extends(old(controllers), controllers, old(binding), binding, responses, responses, old(trace), trace)
    {
      hide ControllersOk, AnswersOk, BindingOk, OutputOk, Extends, SlotsOk, Waiting, AsString, Handle, Bound, Traced;
      StartKeepsAll(messages, admitted, tasks, responses, controllers, inFlight, maxInFlight, trace, binding, m,
                    capability, remoteFrames);
      var frame, id := frames, m.id.value;
      var verdict := Handle(binding, m.operation.value, m.params, capability, remoteFrames);
      frames, inFlight := frames + 1, inFlight + 1;
      controllers := controllers[id := frame];
      tasks := tasks[frame := Registered(id, verdict)];
      trace := trace + Traced(m.params, verdict);
      binding := Bound(binding, verdict);
      messages, admitted := messages + [m], admitted + [true];
    }

    /** The lines after a handler's end, whether it returned or threw: one answer goes out and its controller goes. */
    method Conclude(frame: nat, body: Body)
      requires OutputOk() && ProtocolOk() && (closed ==> destroyed) && Waiting(tasks, frame)
      requires body != Failed(BUSY, TooManyInFlight)
      modifies `destroyed, `output, `sent, `controllers, `tasks, `responses
      ensures OutputOk() && ProtocolOk() && (old(destroyed) ==> destroyed)
      ensures responses == old(responses) + [Response(frame, old(tasks)[frame].id, body)]
      ensures tasks == old(tasks)[frame := Finished] && controllers == old(controllers) - {old(tasks)[frame].id}
    {
      hide ControllersOk, AnswersOk, BindingOk, OutputOk, SlotsOk;
      var id := tasks[frame].id;
      TaskSettled(messages, admitted, tasks, responses, frame, body);
      ControllerRemoved(tasks, controllers, closed, frame);
      SlotSame(tasks, inFlight, maxInFlight, frame, Finished);
      hide Waiting;
      Respond(Response(frame, id, body));
      controllers := controllers - {id};
      tasks := tasks[frame := Finished];
    }

    /**
     A request with a free id, up to its handler's first suspension: one that throws has been answered, and
     its id is free again, before the next frame is looked at.
     */
    method Begin(m: Incoming)
      requires OutputOk() && ProtocolOk() && !closed && NoneThrew(tasks) && inFlight < maxInFlight
      requires m.Message? && m.id.Some? && m.operation.Some? && m.id.value !in controllers
      modifies `destroyed, `output, `sent, `frames, `inFlight, `binding, `controllers, `tasks, `messages, `admitted,
               `responses, `trace
      ensures OutputOk() && ProtocolOk() && NoneThrew(tasks) && (old(destroyed) ==> destroyed)
      ensures messages == old(messages) + [m] && admitted == old(admitted) + [true]
      ensures var v := Handle(old(binding), m.operation.value, m.params, capability, remoteFrames);
              && binding == Bound(old(binding), v) && trace == old(trace) + Traced(m.params, v)
              && if v.Throws?
                 then tasks == old(tasks)[|old(messages)| := Finished] && controllers == old(controllers)
                      && responses
                         == old(responses) + [Response(|old(messages)|, m.id.value, Failed(v.code, v.reason))]
                 else tasks == old(tasks)[|old(messages)| := Registered(m.id.value, v)]
                      && controllers == old(controllers)[m.id.value := |old(messages)|]
                      && responses == old(responses)
      ensures trace == old(trace) + Due(old(trace), m.operation.value, m.params, capability)
      ensures Extends(old(controllers), controllers, old(binding), binding, old(responses), responses, old(trace),
                      trace)
    {
      hide ControllersOk, AnswersOk, BindingOk, OutputOk, Extends, SlotsOk, Handle, Traced;
      var frame := frames;
      var verdict := Handle(binding, m.operation.value, m.params, capability, remoteFrames);
      HandlersOwnVerdict(binding, m.operation.value, m.params, capability, remoteFrames);
      ThrowBindsNothing(binding, m.params, verdict);
      GrantedIff(trace, binding, m.operation.value, m.params, capability, remoteFrames);
      hide Due;
      Start(m);
      if verdict.Throws? {
        Conclude(frame, Failed(verdict.code, verdict.reason));
        assert controllers == old(controllers) && trace == old(trace);
        ExtendsSame(old(controllers), old(binding), old(responses), old(trace), [responses[|old(responses)|]]);
      }
    }

    /** One frame, up to its handler's first suspension. */
    method TakeFrame(raw: Bytes)
      requires OutputOk() && ProtocolOk() && NoneThrew(tasks) && !closed
      modifies `destroyed, `output, `sent, `frames, `inFlight, `binding, `controllers, `tasks, `messages, `admitted,
               `responses, `trace
      ensures OutputOk() && ProtocolOk() && NoneThrew(tasks) && (old(destroyed) ==> destroyed)
      ensures messages == old(messages) + [parse(raw)]
      ensures admitted == old(admitted) + [old(inFlight) < maxInFlight]
      ensures var m := parse(raw);
              if old(inFlight) < maxInFlight && Expects(m, true) && m.id.value !in old(controllers) then
                var v := Handle(old(binding), m.operation.value, m.params, capability, remoteFrames);
                && binding == Bound(old(binding), v) && trace == old(trace) + Traced(m.params, v)
                && if v.Throws?
                   then tasks == old(tasks)[|old(messages)| := Finished] && controllers == old(controllers)
                        && responses
                           == old(responses) + [Response(|old(messages)|, m.id.value, Failed(v.code, v.reason))]
                   else tasks == old(tasks)[|old(messages)| := Registered(m.id.value, v)]
                        && controllers == old(controllers)[m.id.value := |old(messages)|]
                        && responses == old(responses)
              else binding == old(binding) && trace == old(trace) && controllers == old(controllers)
      ensures var m := parse(raw);
              old(inFlight) < maxInFlight && Expects(m, true) && m.id.value !in old(controllers) ==>
                trace == old(trace) + Due(old(trace), m.operation.value, m.params, capability)
      ensures Extends(old(controllers), controllers, old(binding), binding, old(responses), responses, old(trace),
                      trace)
    {
      hide ProtocolOk, OutputOk, Extends, Handle, Bound, Traced, NoneThrew, Due;
      var m := parse(raw);
      FinishedThrewNot(tasks, |messages|);
      if inFlight >= maxInFlight {
        Refuse(m);
      } else if m.NotAnObject? || m.id.None? || m.operation.None? {
        Ignore(m);
        ExtendsSame(controllers, binding, responses, trace, []);
        assert responses + [] == responses;
      } else if m.id.value in controllers {
        ExtendsSame(controllers, binding, responses, trace,
                    [Response(|messages|, m.id.value, Failed(BUSY, DuplicateId))]);
        Duplicate(m);
      } else {
        Begin(m);
      }
    }

    /** The loop of `handleData`. */
    method TakeFrames(raws: seq<Bytes>)
      requires OutputOk() && ProtocolOk() && NoneThrew(tasks) && !closed && Parsed(messages, delivered, parse)
      modifies `destroyed, `output, `sent, `frames, `inFlight, `binding, `controllers, `tasks, `messages, `admitted,
               `responses, `trace, `delivered
      ensures OutputOk() && ProtocolOk() && NoneThrew(tasks) && (old(destroyed) ==> destroyed)
      ensures Parsed(messages, delivered, parse)
      ensures delivered == old(delivered) + raws
      ensures Extends(old(controllers), controllers, old(binding), binding, old(responses), responses, old(trace),
                      trace)
    {
      hide OutputOk, ProtocolOk, Extends, Parsed, NoneThrew;
      ExtendsSame(controllers, binding, responses, trace, []);
      assert responses + [] == responses && delivered + [] == delivered;
      var i := 0;
      while i < |raws|
        invariant 0 <= i <= |raws| && delivered == old(delivered) + raws[..i]
        invariant OutputOk() && ProtocolOk() && NoneThrew(tasks) && (old(destroyed) ==> destroyed)
        invariant Parsed(messages, delivered, parse)
        invariant Extends(old(controllers), controllers, old(binding), binding, old(responses), responses, old(trace),
                          trace)
      {
        ghost var k, b, r, t := controllers, binding, responses, trace;
        ParsedMore(messages, delivered, parse, raws[i]);
        TakeFrame(raws[i]);
        ExtendsTwice(old(controllers), k, controllers, old(binding), b, binding, old(responses), r, responses,
                     old(trace), t, trace);
        assert raws[..i + 1] == raws[..i] + [raws[i]];
        delivered := delivered + [raws[i]];
        i := i + 1;
      }
      assert raws[..i] == raws;
    }

    /** `handleData`: all whole frames of the chunk are taken, in order, or none and the connection ends. */
    method HandleData(chunk: Bytes)
      requires Valid() && !closed
      modifies this
      ensures Valid() && !closed
      ensures old(destroyed) ==> unchanged(this)
      ensures !old(destroyed) ==> received == old(received) + chunk
      ensures rejected <==>
                old(rejected) || (!old(destroyed) && DecodeAll(endianness, old(received) + chunk) == Rejected)
      ensures rejected ==>
                delivered == old(delivered) && responses == old(responses) && trace == old(trace)
                && inFlight == old(inFlight)
      ensures old(delivered) <= delivered
      ensures Extends(old(controllers), controllers, old(binding), binding, old(responses), responses, old(trace),
                      trace)
    {
      hide DecodeAll, OutputOk, ProtocolOk, Extends, Parsed, NoneThrew;
      ExtendsSame(controllers, binding, responses, trace, []);
      assert responses + [] == responses;
      if destroyed { return; }
      DecodeMore(endianness, received, chunk);
      var decoded := DecodeFrames(endianness, pending + chunk);
      received := received + chunk;
      if decoded.Rejected? {
        rejected := true;
        destroyed := true;
        return;
      }
      pending := decoded.remaining;
      TakeFrames(decoded.messages);
    }

    /**
     A waiting handler settles, with its own verdict or with `reply` from whoever it waited for; its one response goes
     out.
     */
    method Settle(frame: nat, reply: Body)
      requires Valid() && Waiting(tasks, frame) && reply != Failed(BUSY, TooManyInFlight)
      modifies `destroyed, `output, `sent, `controllers, `tasks, `responses
      ensures Valid()
      ensures responses
              == old(responses) + [Response(frame, old(tasks)[frame].id, SettledBody(old(tasks)[frame], reply))]
      ensures tasks == old(tasks)[frame := Finished] && controllers == old(controllers) - {old(tasks)[frame].id}
    {
      hide ControllersOk, AnswersOk, BindingOk, OutputOk, StreamOk, SlotsOk, SettledBody, NoneThrew;
      OwnVerdict(messages, admitted, tasks, responses, frame, reply);
      FinishedThrewNot(tasks, frame);
      Conclude(frame, SettledBody(tasks[frame], reply));
    }

    /** The place of a settled handler is free again. */
    method Retire(frame: nat)
      requires Valid() && frame in tasks && tasks[frame].Finished?
      modifies `tasks, `inFlight
      ensures Valid() && inFlight == old(inFlight) - 1 && tasks == old(tasks) - {frame}
    {
      hide ControllersOk, AnswersOk, BindingOk, OutputOk, StreamOk, Waiting, SlotsOk, NoneThrew;
      RetiredThrewNot(tasks, frame);
      TaskRetired(messages, admitted, tasks, responses, frame);
      SlotFreed(tasks, inFlight, maxInFlight, frame);
      FinishedRemoved(tasks, controllers, closed, frame);
      inFlight := inFlight - 1;
      tasks := tasks - {frame};
    }

    /** The socket closes: every running handler's controller is aborted and forgotten. */
    method Close()
      requires Valid()
      modifies `aborted, `controllers, `closed, `destroyed
      ensures Valid() && closed && destroyed && controllers == map[]
      ensures !old(closed) ==> forall f | Waiting(tasks, f) :: f in aborted
    {
      hide ControllersOk, AnswersOk, BindingOk, OutputOk, StreamOk, Waiting, SlotsOk;
      ControllersDropped(tasks, controllers, closed);
      if !closed { aborted := aborted + controllers.Values; }
      controllers, closed, destroyed := map[], true, true;
    }

    /** A state notification: dropped, not fatal, when the queue is full. */
    method Notify(payload: Bytes, queued: nat) returns (r: WriteResult)
      requires Valid()
      modifies `destroyed, `output, `sent
      ensures Valid() && destroyed == (old(destroyed) || !Writable(payload))
      ensures r == Written <==>
                !old(destroyed) && Writable(payload) && queued + FRAME_HEADER_BYTES + |payload| <= maxQueued
      ensures sent == if r == Written then old(sent) + [payload] else old(sent)
    {
      hide ControllersOk, AnswersOk, BindingOk, OutputOk, StreamOk, Waiting, SlotsOk;
      r := Write(payload, false, queued);
    }
  }

  lemma {:induction false} SentMore(e: Endianness, sent: seq<Bytes>, payload: Bytes)
    requires AllFit(sent) && Writable(payload)
    ensures AllFit(sent + [payload]) && EncodeAll(e, sent + [payload]) == EncodeAll(e, sent) + Encode(e, payload)
    decreases |sent|
  {
    var more := sent + [payload];
    if sent == [] {
      EncodeCons(e, payload, []);
      assert more == [payload] + [] && Encode(e, payload) + [] == Encode(e, payload);
    } else {
      SentMore(e, sent[1..], payload);
      assert more == [sent[0]] + (sent[1..] + [payload]);
      EncodeCons(e, sent[0], sent[1..] + [payload]);
      Regroup(Encode(e, sent[0]), EncodeAll(e, sent[1..]), Encode(e, payload));
    }
  }
}
