/**
 Two peers calling each other over a network that loses and reorders messages but never
 copies them. Every event is one atomic step of a thread or of the network; requests and
 replies are the encoded bytes themselves.

 `origin` and `places` are history: they record where a message came from and where each
 call's message is, and no step looks at them to decide what to do.
 */
module Protocol {
  import opened Bytes
  import opened Wrappers
  import opened RpcMessage
  import opened RpcCodec
  import opened Peer

  datatype Origin = FromCall(call: nat) | FromRun(run: nat)

  datatype Packet = Packet(data: bytes, origin: Origin)

  /** A receive callback: waiting for a message, working on one, about to reply, finished, or gone for good. */
  datatype Worker = Armed | Holding(packet: Packet) | Owing(run: nat) | Finished | Lost

  /** Where the one message that a call can have in the system is: under which key in an inbox, or with which worker. */
  datatype Place =
    | Nowhere
    | RequestSent(key: nat)
    | RequestTaken(worker: nat)
    | ReplyOwed(worker: nat)
    | ReplySent(key: nat)
    | ReplyTaken(worker: nat)
    | Delivered
    | Gone

  /** One side: the peer, its receive workers, the messages on their way to it, and the places of its calls. */
  datatype End = End(peer: Peer, workers: seq<Worker>, inbox: map<nat, Packet>, places: seq<Place>)

  /** The whole system as seen from one side. */
  datatype View = View(me: End, you: End, serial: nat)

  datatype Side = Dialer | Listener

  datatype Event =
    // call_remote
    | Start(name: bytes, req: bytes)
    | AllocFails(c: nat)
    | InsertPromise(c: nat)
    | Send(c: nat)
    | SendFails(c: nat)
    | EraseFailed(c: nat)
    | TimeOut(c: nat)
    | EraseTimedOut(c: nat)
    | WakeUp(c: nat)
    // recv_cb
    | Deliver(w: nat, k: nat)
    | Reject(w: nat)
    | Handle(w: nat, resp: bytes)
    | Unhandled(w: nat)
    | Reply(w: nat)
    | ReplyFails(w: nat)
    | Match(w: nat)
    | Ignore(w: nat)
    | Rearm(w: nat)
    // the network, and registration
    | Lose(k: nat)
    | Register(name: bytes)

  function RequestBytes(id: nat, name: bytes, req: bytes): bytes {
    if CanEncode(REQUEST, id, name, req) then Encode(MethodFirst, REQUEST, id, name, req) else []
  }

  function ReplyBytes(id: nat, name: bytes, resp: bytes): bytes {
    if CanEncode(RESPONSE, id, name, resp) then Encode(PayloadFirst, RESPONSE, id, name, resp) else []
  }

  function SetPlace(places: seq<Place>, c: nat, place: Place): (r: seq<Place>)
    ensures |r| == |places|
  {
    if c < |places| then places[c := place] else places
  }

  /** The call a message belongs to. */
  function CallOf(o: Origin, runs: seq<Run>): nat {
    match o
    case FromCall(c) => c
    case FromRun(r) => if r < |runs| then runs[r].call else 0
  }

  /** Records the place of the message with this origin, on the side whose call it is. */
  function Mark(v: View, o: Origin, request: Place, reply: Place): View {
    match o
    case FromCall(c) => v.(you := v.you.(places := SetPlace(v.you.places, c, request)))
    case FromRun(r) => v.(me := v.me.(places := SetPlace(v.me.places, CallOf(o, v.you.peer.runs), reply)))
  }

  function SetWorker(v: View, w: nat, x: Worker): View
    requires w < |v.me.workers|
  {
    v.(me := v.me.(workers := v.me.workers[w := x]))
  }

  function SetPeer(v: View, p: Peer): View {
    v.(me := v.me.(peer := p))
  }

  function Post(v: View, packet: Packet): View {
    v.(you := v.you.(inbox := v.you.inbox[v.serial := packet]), serial := v.serial + 1)
  }

  predicate CallAt(v: View, c: nat, phase: Phase) {
    c < |v.me.peer.calls| && v.me.peer.calls[c].phase == phase
  }

  /** What the held message is, once verified. */
  function Held(v: View, w: nat): Received {
    if w < |v.me.workers| && v.me.workers[w].Holding? then Receive(v.me.workers[w].packet.data) else Rejected
  }

  predicate HoldsMessage(v: View, w: nat) {
    w < |v.me.workers| && v.me.workers[w].Holding? && Held(v, w).Accepted?
  }

  function NextCall(v: View, e: Event): Option<View> {
    var p := v.me.peer;
    match e
    case Start(name, req) =>
      if Sendable(name, req)
      then Some(v.(me := v.me.(peer := Allocate(p, name, req), places := v.me.places + [Nowhere])))
      else None
    case AllocFails(c) => if CallAt(v, c, Allocated) then Some(SetPeer(v, SetPhase(p, c, Returned))) else None
    case InsertPromise(c) => if CallAt(v, c, Allocated) then Some(SetPeer(v, Insert(p, c))) else None
    case Send(c) =>
      if CallAt(v, c, Inserted) then
        var call := p.calls[c];
        var v1 := SetPeer(v, SetPhase(p, c, Waiting));
        var v2 := v1.(me := v1.me.(places := SetPlace(v1.me.places, c, RequestSent(v.serial))));
        Some(Post(v2, Packet(RequestBytes(call.id, call.name, call.req), FromCall(c))))
      else None
    case SendFails(c) => if CallAt(v, c, Inserted) then Some(SetPeer(v, SetPhase(p, c, SendFailed))) else None
    case EraseFailed(c) => if CallAt(v, c, SendFailed) then Some(SetPeer(v, EraseAndFail(p, c))) else None
    case TimeOut(c) =>
      if CallAt(v, c, Waiting) && p.calls[c].fut.Empty? then Some(SetPeer(v, SetPhase(p, c, TimedOut))) else None
    case EraseTimedOut(c) => if CallAt(v, c, TimedOut) then Some(SetPeer(v, EraseAndFail(p, c))) else None
    case WakeUp(c) =>
      if CallAt(v, c, Waiting) && !p.calls[c].fut.Empty? then Some(SetPeer(v, Wake(p, c))) else None
    case Register(name) => Some(SetPeer(v, p.(methods := p.methods + {name})))
    case _ => None
  }

  function NextReceive(v: View, e: Event): Option<View> {
    var p := v.me.peer;
    match e
    case Deliver(w, k) =>
      if w < |v.me.workers| && v.me.workers[w].Armed? && k in v.me.inbox then
        var packet := v.me.inbox[k];
        var v1 := SetWorker(v, w, Holding(packet));
        Some(Mark(v1.(me := v1.me.(inbox := v1.me.inbox - {k})), packet.origin, RequestTaken(w), ReplyTaken(w)))
      else None
    case Lose(k) =>
      if k in v.me.inbox then
        Some(Mark(v.(me := v.me.(inbox := v.me.inbox - {k})), v.me.inbox[k].origin, Gone, Gone))
      else None
    case Reject(w) =>
      if w < |v.me.workers| && v.me.workers[w].Holding? && Held(v, w).Rejected?
      then Some(SetWorker(v, w, Lost))
      else None
    case Handle(w, resp) =>
      if HoldsMessage(v, w) then
        var m, o := Held(v, w).msg, v.me.workers[w].packet.origin;
        if m.msgType == REQUEST && m.name.Some? && m.payload.Some? && m.name.value in p.methods
           && Sendable(m.name.value, resp) then
          var run := Run(m.id, m.name.value, m.payload.value, resp, CallOf(o, v.you.peer.runs));
          var v1 := SetPeer(SetWorker(v, w, Owing(|p.runs|)), LogRun(p, run));
          Some(Mark(v1, o, ReplyOwed(w), Gone))
        else None
      else None
    case Unhandled(w) =>
      if HoldsMessage(v, w) then
        var m := Held(v, w).msg;
        if m.msgType == REQUEST && m.name.Some? && m.name.value !in p.methods then
          Some(Mark(SetWorker(v, w, Finished), v.me.workers[w].packet.origin, Gone, Gone))
        else None
      else None
    case Reply(w) =>
      if w < |v.me.workers| && v.me.workers[w].Owing? && v.me.workers[w].run < |p.runs| then
        var r := v.me.workers[w].run;
        var run := p.runs[r];
        var v1 := SetWorker(v, w, Finished);
        var v2 := v1.(you := v1.you.(places := SetPlace(v1.you.places, run.call, ReplySent(v.serial))));
        Some(Post(v2, Packet(ReplyBytes(run.id, run.name, run.resp), FromRun(r))))
      else None
    case ReplyFails(w) =>
      if w < |v.me.workers| && v.me.workers[w].Owing? && v.me.workers[w].run < |p.runs| then
        var run := p.runs[v.me.workers[w].run];
        var v1 := SetWorker(v, w, Finished);
        Some(v1.(you := v1.you.(places := SetPlace(v1.you.places, run.call, Gone))))
      else None
    case Match(w) =>
      if HoldsMessage(v, w) then
        var m, o := Held(v, w).msg, v.me.workers[w].packet.origin;
        if m.msgType == RESPONSE then
          var v1 := SetPeer(SetWorker(v, w, Finished), Fulfil(p, m.id, m.payload, if o.FromRun? then o.run else 0));
          Some(Mark(v1, o, Gone, if m.id in p.pending then Delivered else Gone))
        else None
      else None
    case Ignore(w) =>
      if HoldsMessage(v, w) && Held(v, w).msg.msgType != REQUEST && Held(v, w).msg.msgType != RESPONSE then
        Some(Mark(SetWorker(v, w, Finished), v.me.workers[w].packet.origin, Gone, Gone))
      else None
    case Rearm(w) =>
      if w < |v.me.workers| && v.me.workers[w].Finished? then Some(SetWorker(v, w, Armed)) else None
    case _ => None
  }

  predicate IsCallEvent(e: Event) {
    e.Start? || e.AllocFails? || e.InsertPromise? || e.Send? || e.SendFails? || e.EraseFailed? || e.TimeOut?
    || e.EraseTimedOut? || e.WakeUp? || e.Register?
  }

  /** The state after an event of my side; None when the event cannot happen. */
  function Next(v: View, e: Event): Option<View> {
    if IsCallEvent(e) then NextCall(v, e) else NextReceive(v, e)
  }

  /** The state after some events of my side, one after the other. */
  function NextAll(v: View, events: seq<Event>): Option<View>
    decreases |events|
  {
    if events == [] then Some(v)
    else
      var r := Next(v, events[0]);
      if r.None? then None else NextAll(r.value, events[1..])
  }

  lemma NextOne(v: View, e: Event)
    ensures NextAll(v, [e]) == Next(v, e)
  {
    hide Next;
  }

  lemma NextTwo(v: View, e: Event, f: Event)
    ensures NextAll(v, [e, f]) == (var r := Next(v, e); if r.None? then None else Next(r.value, f))
  {
    hide Next;
    assert [e, f][1..] == [f];
    if Next(v, e).Some? { NextOne(Next(v, e).value, f); }
  }

  lemma NextThree(v: View, e: Event, f: Event, g: Event)
    ensures NextAll(v, [e, f, g]) == (var r := Next(v, e); if r.None? then None else NextAll(r.value, [f, g]))
    ensures NextAll(v, [e, f, g]) == (var r := Next(v, e); if r.None? then None
                                      else var s := Next(r.value, f); if s.None? then None else Next(s.value, g))
  {
    hide Next;
    assert [e, f, g][1..] == [f, g];
    if Next(v, e).Some? { NextTwo(Next(v, e).value, f, g); }
  }

  function Swap(v: View): View {
    View(v.you, v.me, v.serial)
  }

  /** The system is kept as the dialer's view. */
  function Step(v: View, side: Side, e: Event): Option<View> {
    if side == Dialer then Next(v, e)
    else
      var r := Next(Swap(v), e);
      if r.Some? then Some(Swap(r.value)) else None
  }

  function Execute(v: View, events: seq<(Side, Event)>): Option<View>
    decreases |events|
  {
    if events == [] then Some(v)
    else
      var n := |events| - 1;
      var before := Execute(v, events[..n]);
      if before.Some? then Step(before.value, events[n].0, events[n].1) else None
  }

  function Pool(n: nat): seq<Worker> {
    seq(n, i => Armed)
  }

  function Initial(dialWorkers: nat, listenWorkers: nat): View {
    View(End(NEW_PEER, Pool(dialWorkers), map[], []), End(NEW_PEER, Pool(listenWorkers), map[], []), 0)
  }
}
