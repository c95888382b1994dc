/**
 A peer as it runs (NngUdsRpcPeerDial, NngUdsRpcPeerListener): the critical sections of
 call_remote and recv_cb on its fields, from received bytes to the bytes of the reply.
 */
module RpcPeer {
  import opened Bytes
  import opened Wrappers
  import opened RpcMessage
  import opened RpcCodec
  import RpcBuilder
  import VerifierRun
  import V = Verifier
  import P = Peer
  import opened Protocol

  type Handler = bytes -> bytes

  /**
   How a receive callback ends: without arming its receive operation again, armed again with
   the reply it sent, if any, or not at all: on a null pointer or a failing assertion.
   */
  datatype Ending = Stopped | Rearmed(reply: Option<bytes>) | Crashed

  /**
   What one received message does to a peer. `call` and `byRun` are history: the call the
   message belongs to, and the handler run a reply comes from.
   */
  function Callback(p: P.Peer, handlers: map<bytes, Handler>, msg: bytes, call: nat, byRun: nat): (P.Peer, Ending) {
    match Receive(msg)
    case Rejected => (p, Stopped)
    case Accepted(m) =>
      if m.msgType == REQUEST then Serve(p, handlers, m, call)
      else if m.msgType == RESPONSE then (P.Fulfil(p, m.id, m.payload, byRun), Rearmed(None))
      else (p, Rearmed(None))
  }

  /** The request branch: it follows the method pointer, and for a registered method the payload pointer. */
  function Serve(p: P.Peer, handlers: map<bytes, Handler>, m: Message, call: nat): (P.Peer, Ending) {
    if m.name.None? then (p, Crashed)
    else if m.name.value !in handlers then (p, Rearmed(None))
    else if m.payload.None? then (p, Crashed)
    else
      var resp := handlers[m.name.value](m.payload.value);
      var served := P.LogRun(p, P.Run(m.id, m.name.value, m.payload.value, resp, call));
      if CanEncode(RESPONSE, m.id, m.name.value, resp) then (served,
          Rearmed(Some(ReplyBytes(m.id, m.name.value, resp))))
      else (served, Crashed)
  }

  class RpcPeer {
    var nextRequestId: nat
    var calls: seq<P.Call>
    var pendingRequests: map<nat, nat>
    var methodMap: map<bytes, Handler>
    var runs: seq<P.Run>

    function Model(): P.Peer
      reads this
    {
      P.Peer(nextRequestId, calls, pendingRequests, methodMap.Keys, runs)
    }

    constructor ()
      ensures Model() == P.NEW_PEER && P.PeerOk(Model())
    {
      nextRequestId, calls, pendingRequests, methodMap, runs := 1, [], map[], map[], [];
    }

    method RegisterMethod(name: bytes, handler: Handler)
      modifies `methodMap
      ensures methodMap == old(methodMap)[name := handler]
      ensures Model() == old(Model()).(methods := old(Model()).methods + {name})
    {
      methodMap := methodMap[name := handler];
    }

    // ---------- call_remote ----------

    /** Takes an id and builds the request: what the other side will read is this id, method and payload. */
    method StartCall(name: bytes, req: bytes) returns (c: nat, msg: bytes)
      requires P.PeerOk(Model()) && |calls| < P.ID_SPACE && Sendable(name, req)
      modifies `nextRequestId, `calls
      ensures P.PeerOk(Model()) && Model() == P.Allocate(old(Model()), name, req) && c == |old(calls)|
      ensures msg == RequestBytes(calls[c].id, name, req)
      ensures Receive(msg) == Accepted(Message(REQUEST, calls[c].id, Some(name), Some(req)))
    {
      hide Encode, Receive, P.PeerOk, Sendable;
      P.AllocateOk(Model(), name, req);
      SmallId(Model());
      var id := nextRequestId;
      nextRequestId := (id + 1) % P.ID_SPACE;
      c := |calls|;
      calls := calls + [P.Call(id, name, req, P.Allocated, P.Empty, P.Failed)];
      SendableEncodes(REQUEST, id, name, req);
      msg := RpcBuilder.EncodeMessage(MethodFirst, REQUEST, id, name, req);
    }

    method InsertPromise(c: nat)
      requires P.PeerOk(Model()) && c < |calls| && calls[c].phase == P.Allocated
      modifies `calls, `pendingRequests
      ensures P.PeerOk(Model()) && Model() == P.Insert(old(Model()), c)
    {
      hide P.PeerOk;
      P.InsertOk(Model(), c);
      var id := calls[c].id;
      Abandon(id);
      pendingRequests := pendingRequests[id := c];
      calls := calls[c := calls[c].(phase := P.Inserted)];
    }

    /** nng_msg_alloc failed: the call ends before its promise is stored. */
    method AllocFailed(c: nat)
      requires P.PeerOk(Model()) && c < |calls| && calls[c].phase == P.Allocated
      modifies `calls
      ensures P.PeerOk(Model()) && Model() == P.SetPhase(old(Model()), c, P.Returned)
      ensures calls[c].phase == P.Returned && calls[c].outcome == P.Failed
    {
      hide P.PeerOk;
      P.FailOk(Model(), c);
      NotYetReturned(Model(), c);
      calls := calls[c := calls[c].(phase := P.Returned)];
    }

    /** After nng_sendmsg: on to the wait, or to the failure path. */
    method Sent(c: nat, ok: bool)
      requires P.PeerOk(Model()) && c < |calls| && calls[c].phase == P.Inserted
      modifies `calls
      ensures P.PeerOk(Model()) && Model() == P.SetPhase(old(Model()), c, if ok then P.Waiting else P.SendFailed)
    {
      hide P.PeerOk;
      P.SetPhaseOk(Model(), c, if ok then P.Waiting else P.SendFailed);
      calls := calls[c := calls[c].(phase := if ok then P.Waiting else P.SendFailed)];
    }

    /** wait_for at its deadline gives up on an unresolved promise; the entry is erased in a later critical section. */
    method WaitFailed(c: nat) returns (failed: bool)
      requires P.PeerOk(Model()) && c < |calls| && calls[c].phase == P.Waiting
      modifies `calls
      ensures failed <==> old(calls[c].fut) == P.Empty
      ensures P.PeerOk(Model()) && Model() == if failed then P.SetPhase(old(Model()), c, P.TimedOut) else old(Model())
    {
      hide P.PeerOk;
      P.SetPhaseOk(Model(), c, P.TimedOut);
      failed := calls[c].fut.Empty?;
      if failed { calls := calls[c := calls[c].(phase := P.TimedOut)]; }
    }

    /** Destroying a stored promise breaks the future that still waits for it. */
    method Abandon(id: nat)
      modifies `calls
      ensures Model() == P.Abandon(old(Model()), id)
    {
      if id in pendingRequests {
        var c := pendingRequests[id];
        if c < |calls| && calls[c].fut.Empty? {
          calls := calls[c := calls[c].(fut := P.Broken)];
        }
      }
    }

    /** The failure path after a failed send and after a time-out. */
    method EraseAndFail(c: nat)
      requires P.PeerOk(Model()) && c < |calls| && (calls[c].phase == P.SendFailed || calls[c].phase == P.TimedOut)
      modifies `calls, `pendingRequests
      ensures P.PeerOk(Model()) && Model() == P.EraseAndFail(old(Model()), c)
      ensures calls[c].id !in pendingRequests && calls[c].phase == P.Returned && calls[c].outcome == P.Failed
    {
      hide P.PeerOk;
      P.EraseAndFailOk(Model(), c);
      NotYetReturned(Model(), c);
      var id := calls[c].id;
      Abandon(id);
      pendingRequests := pendingRequests - {id};
      calls := calls[c := calls[c].(phase := P.Returned)];
    }

    /** After a successful wait: success means a non-empty payload. */
    method WakeUp(c: nat) returns (outcome: P.Outcome)
      requires P.PeerOk(Model()) && c < |calls| && calls[c].phase == P.Waiting && !calls[c].fut.Empty?
      modifies `calls
      ensures P.PeerOk(Model()) && Model() == P.Wake(old(Model()), c)
      ensures outcome.Succeeded? <==>
                var fut := old(calls[c].fut); fut.Fulfilled? && fut.value.Some? && fut.value.value != []
      ensures outcome.Succeeded? ==> Some(outcome.data) == old(calls[c].fut.value)
    {
      hide P.PeerOk;
      P.WakeOk(Model(), c);
      outcome := P.Result(calls[c].fut);
      calls := calls[c := calls[c].(phase := P.Returned, outcome := outcome)];
    }

    // ---------- recv_cb ----------

    /** A reply fulfils and removes the promise stored under its id, and is ignored when there is none. */
    method TakeReply(id: nat, value: Option<bytes>, byRun: nat)
      requires P.PeerOk(Model())
      modifies `calls, `pendingRequests
      ensures P.PeerOk(Model()) && Model() == P.Fulfil(old(Model()), id, value, byRun)
    {
      hide P.PeerOk;
      P.FulfilOk(Model(), id, value, byRun);
      if id in pendingRequests && pendingRequests[id] < |calls| {
        var c := pendingRequests[id];
        calls := calls[c := calls[c].(fut := P.Fulfilled(value, byRun))];
        pendingRequests := pendingRequests - {id};
      }
    }

    /** Verified contents of a message, read through the generated accessors. */
    method ReadMessage(msg: bytes) returns (m: Option<Message>)
      requires |msg| <= V.PTRDIFF_MAX
      ensures m == (if Receive(msg).Accepted? then Some(Receive(msg).msg) else None)
    {
      hide VerifyBuffer, Decode;
      var ok := VerifierRun.VerifyRpcBuffer(msg);
      if ok != Ok(true) { return None; }
      AcceptedDecodes(msg, V.DEFAULT_OPTIONS);
      m := Some(Decode(msg).value);
    }

    /**
     One received message: the verifier, the accessors, the handler, and the builder for the
     reply, run one after the other.
     */
    method RecvCb(msg: bytes, call: nat, byRun: nat) returns (ending: Ending)
      requires P.PeerOk(Model()) && |msg| <= V.PTRDIFF_MAX
      modifies `calls, `pendingRequests, `runs
      ensures P.PeerOk(Model())
      ensures (Model(), ending) == Callback(old(Model()), old(methodMap), msg, call, byRun)
      ensures methodMap == old(methodMap)
    {
      hide Receive, Encode, CanEncode, P.PeerOk, P.Fulfil;
      var read := ReadMessage(msg);
      if read.None? { return Stopped; }
      var m := read.value;
      if m.msgType == REQUEST {
        if m.name.None? { return Crashed; }
        if m.name.value in methodMap {
          if m.payload.None? { return Crashed; }
          var resp := methodMap[m.name.value](m.payload.value);
          RunsDoNotMatter(Model(), P.Run(m.id, m.name.value, m.payload.value, resp, call));
          runs := runs + [P.Run(m.id, m.name.value, m.payload.value, resp, call)];
          if !CanEncode(RESPONSE, m.id, m.name.value, resp) { return Crashed; }
          var answer := RpcBuilder.EncodeMessage(PayloadFirst, RESPONSE, m.id, m.name.value, resp);
          return Rearmed(Some(answer));
        }
      } else if m.msgType == RESPONSE {
        TakeReply(m.id, m.payload, byRun);
      }
      return Rearmed(None);
    }
  }

  // ---------- What a callback does ----------

  /** The request branch can be followed to its end: both pointers it follows are there, and the reply fits. */
  predicate Servable(handlers: map<bytes, Handler>, m: Message) {
    m.msgType == REQUEST ==>
      && m.name.Some?
      && (m.name.value in handlers ==>
            && m.payload.Some?
            && CanEncode(RESPONSE, m.id, m.name.value, handlers[m.name.value](m.payload.value)))
  }

  /**
   The callback arms its receive operation again exactly when the message verifies and, if it
   is a request, can be served; a reply is sent exactly for a request with a registered
   method, and the other side accepts it as the handler's answer under the request's id.
   */
  lemma CallbackEnds(p: P.Peer, handlers: map<bytes, Handler>, msg: bytes, call: nat, byRun: nat)
    ensures var ending := Callback(p, handlers, msg, call, byRun).1;
            && (ending.Stopped? <==> Receive(msg).Rejected?)
            && (ending.Rearmed? <==> Receive(msg).Accepted? && Servable(handlers, Receive(msg).msg))
            && (ending.Rearmed? ==>
                  var m := Receive(msg).msg;
                  && (ending.reply.Some? <==> m.msgType == REQUEST && m.name.value in handlers)
                  && (ending.reply.Some? ==>
                        Receive(ending.reply.value)
                        == Accepted(Message(RESPONSE, m.id, m.name, Some(handlers[m.name.value](m.payload.value))))))
  {
    hide Receive, Encode, CanEncode;
    if Receive(msg).Accepted? {
      var m := Receive(msg).msg;
      if m.msgType == REQUEST && m.name.Some? && m.name.value in handlers && m.payload.Some? {
        var resp := handlers[m.name.value](m.payload.value);
        if CanEncode(RESPONSE, m.id, m.name.value, resp) { EncodeReceived(PayloadFirst, RESPONSE, m.id, m.name.value,
            resp); }
      }
    }
  }

  // ---------- The peer performs the steps of the protocol ----------

  /** The steps by which a worker deals with the message it holds. */
  function CallbackEvents(v: View, w: nat, handlers: map<bytes, Handler>): seq<Event> {
    match Held(v, w)
    case Rejected => [Reject(w)]
    case Accepted(m) =>
      if m.msgType == REQUEST then
        if m.name.Some? && m.payload.Some? && m.name.value in handlers
        then [Handle(w, handlers[m.name.value](m.payload.value)), Reply(w), Rearm(w)]
        else [Unhandled(w), Rearm(w)]
      else if m.msgType == RESPONSE then [Match(w), Rearm(w)]
      else [Ignore(w), Rearm(w)]
  }

  function RunOf(o: Origin): nat { if o.FromRun? then o.run else 0 }

  /** What is to be seen of a callback from outside: the peer, the worker, and the reply on its way. */
  predicate Performed(v: View, w: nat, r: View, p: P.Peer, ending: Ending)
    requires w < |v.me.workers|
  {
    && r.me.peer == p && r.you.peer == v.you.peer
    && r.me.workers == v.me.workers[w := if ending.Stopped? then Lost else Armed]
    && r.me.inbox == v.me.inbox
    && r.you.inbox == if ending.Rearmed? && ending.reply.Some?
                      then v.you.inbox[v.serial := Packet(ending.reply.value, FromRun(|v.me.peer.runs|))]
                      else v.you.inbox
  }

  /** The callback, as the worker that holds the message runs it. */
  function HeldCallback(v: View, w: nat, handlers: map<bytes, Handler>): (P.Peer, Ending)
    requires w < |v.me.workers| && v.me.workers[w].Holding?
  {
    var packet := v.me.workers[w].packet;
    Callback(v.me.peer, handlers, packet.data, CallOf(packet.origin, v.you.peer.runs), RunOf(packet.origin))
  }

  /**
   Refinement of recv_cb: whenever it does not crash, what the running callback does to its
   peer, to its worker and to the network is what a sequence of protocol steps does. The
   reply leaves as the very bytes the callback built.
   */
  lemma CallbackIsSteps(v: View, w: nat, handlers: map<bytes, Handler>)
    requires w < |v.me.workers| && v.me.workers[w].Holding? && handlers.Keys == v.me.peer.methods
    requires !HeldCallback(v, w, handlers).1.Crashed?
    requires Held(v, w).Accepted? && Held(v, w).msg.msgType == REQUEST && Held(v, w).msg.name.value in handlers ==>
               Sendable(Held(v, w).msg.name.value, handlers[Held(v, w).msg.name.value](Held(v, w).msg.payload.value))
    ensures NextAll(v, CallbackEvents(v, w, handlers)).Some?
    ensures Performed(v, w, NextAll(v, CallbackEvents(v, w, handlers)).value,
                      HeldCallback(v, w, handlers).0, HeldCallback(v, w, handlers).1)
  {
    hide Receive, Encode, CanEncode, Sendable, P.Fulfil, ReplyBytes, Next, NextAll, Performed;
    var events := CallbackEvents(v, w, handlers);
    if |events| == 1 {
      NextOne(v, events[0]);
      RejectStep(v, w, handlers);
    } else if |events| == 2 {
      NextTwo(v, events[0], events[1]);
      QuietSteps(v, w, handlers);
    } else {
      NextThree(v, events[0], events[1], events[2]);
      ServeSteps(v, w, handlers);
    }
  }

  lemma RejectStep(v: View, w: nat, handlers: map<bytes, Handler>)
    requires w < |v.me.workers| && v.me.workers[w].Holding? && Held(v, w).Rejected?
    ensures Next(v, Reject(w)).Some?
    ensures Performed(v, w, Next(v, Reject(w)).value, HeldCallback(v, w, handlers).0, HeldCallback(v, w, handlers).1)
  {
    hide Receive;
  }

  /** Messages that are not answered. */
  lemma QuietSteps(v: View, w: nat, handlers: map<bytes, Handler>)
    requires w < |v.me.workers| && v.me.workers[w].Holding? && handlers.Keys == v.me.peer.methods
    requires !HeldCallback(v, w, handlers).1.Crashed? && |CallbackEvents(v, w, handlers)| == 2
    ensures var e, f := CallbackEvents(v, w, handlers)[0], CallbackEvents(v, w, handlers)[1];
            && Next(v, e).Some? && Next(Next(v, e).value, f).Some?
            && Performed(v, w, Next(Next(v, e).value, f).value, HeldCallback(v, w, handlers).0,
                HeldCallback(v, w, handlers).1)
  {
    hide Receive, CanEncode, Sendable, P.Fulfil, ReplyBytes, NextCall, SetPlace, CallOf;
    var m := Held(v, w).msg;
    if m.msgType == REQUEST { assert m.name.value !in v.me.peer.methods; }
  }

  /** Requests with a registered method. */
  lemma ServeSteps(v: View, w: nat, handlers: map<bytes, Handler>)
    requires w < |v.me.workers| && v.me.workers[w].Holding? && handlers.Keys == v.me.peer.methods
    requires !HeldCallback(v, w, handlers).1.Crashed? && Held(v, w).Accepted? && Held(v, w).msg.msgType == REQUEST
    requires Held(v, w).msg.name.Some? && Held(v, w).msg.payload.Some? && Held(v, w).msg.name.value in handlers
    requires Sendable(Held(v, w).msg.name.value, handlers[Held(v, w).msg.name.value](Held(v, w).msg.payload.value))
    ensures var e := Handle(w, handlers[Held(v, w).msg.name.value](Held(v, w).msg.payload.value));
            && Next(v, e).Some? && Next(Next(v, e).value, Reply(w)).Some?
            && var r := Next(Next(Next(v, e).value, Reply(w)).value, Rearm(w));
            && r.Some? && Performed(v, w, r.value, HeldCallback(v, w, handlers).0, HeldCallback(v, w, handlers).1)
  {
    hide Receive, CanEncode, Sendable, ReplyBytes, NextCall, SetPlace;
    var m := Held(v, w).msg;
    assert m.name.value in v.me.peer.methods;
  }

  /**
   Refinement of call_remote up to the wait: taking an id, storing the promise and sending
   are the protocol's steps, and the request leaves as the very bytes StartCall built.
   */
  lemma CallIsSteps(v: View, name: bytes, req: bytes, sent: bool)
    requires P.PeerOk(v.me.peer) && |v.me.peer.calls| < P.ID_SPACE && Sendable(name, req)
    ensures var c := |v.me.peer.calls|;
            var id := v.me.peer.nextId;
            var started := P.Insert(P.Allocate(v.me.peer, name, req), c);
            var r := NextAll(v, [Start(name, req), InsertPromise(c), if sent then Send(c) else SendFails(c)]);
            && r.Some? && c < |started.calls| && started.calls[c].id == id
            && r.value.me.peer == P.SetPhase(started, c, if sent then P.Waiting else P.SendFailed)
            && r.value.you.peer == v.you.peer && r.value.me.inbox == v.me.inbox
            && r.value.you.inbox == if sent then v.you.inbox[v.serial :=
                Packet(RequestBytes(id, name, req), FromCall(c))]
                                    else v.you.inbox
  {
    hide RequestBytes, Sendable, P.PeerOk;
    var c := |v.me.peer.calls|;
    P.AllocateOk(v.me.peer, name, req);
    P.InsertOk(P.Allocate(v.me.peer, name, req), c);
    NextThree(v, Start(name, req), InsertPromise(c), if sent then Send(c) else SendFails(c));
  }

  /**
   Refinement of the rest of call_remote: what AllocFailed, WaitFailed, EraseAndFail and WakeUp
   do to the peer are the protocol's steps, whatever has happened since the step before, and
   those steps do nothing else.
   */
  lemma CallEndsBySteps(v: View, c: nat)
    requires P.PeerOk(v.me.peer) && c < |v.me.peer.calls|
    ensures var p := v.me.peer;
            var call := p.calls[c];
            && (call.phase == P.Allocated ==> Next(v, AllocFails(c)) == Some(SetPeer(v, P.SetPhase(p, c, P.Returned))))
            && (call.phase == P.SendFailed ==> Next(v, EraseFailed(c)) == Some(SetPeer(v, P.EraseAndFail(p, c))))
            && (call.phase == P.TimedOut ==> Next(v, EraseTimedOut(c)) == Some(SetPeer(v, P.EraseAndFail(p, c))))
            && (call.phase == P.Waiting && !call.fut.Empty? ==> Next(v, WakeUp(c)) == Some(SetPeer(v, P.Wake(p, c))))
            && (call.phase == P.Waiting && call.fut.Empty? ==>
                  && Next(v, TimeOut(c)) == Some(SetPeer(v, P.SetPhase(p, c, P.TimedOut)))
                  && NextAll(v, [TimeOut(c), EraseTimedOut(c)])
                     == Some(SetPeer(v, P.EraseAndFail(P.SetPhase(p, c, P.TimedOut), c))))
  {
    NextTwo(v, TimeOut(c), EraseTimedOut(c));
  }

  lemma SmallId(p: P.Peer)
    requires P.PeerOk(p)
    ensures p.nextId < P.ID_SPACE
  {
  }

  lemma NotYetReturned(p: P.Peer, c: nat)
    requires P.PeerOk(p) && c < |p.calls| && p.calls[c].phase != P.Returned
    ensures p.calls[c].outcome == P.Failed
  {
    assert P.CallOk(p, c);
  }

  lemma RunsDoNotMatter(p: P.Peer, run: P.Run)
    requires P.PeerOk(p)
    ensures P.PeerOk(P.LogRun(p, run))
  {
    var r := P.LogRun(p, run);
    forall c | 0 <= c < |r.calls| ensures P.CallOk(r, c) { assert P.CallOk(p, c); }
  }
}
