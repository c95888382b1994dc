/**
 That calls end: whatever the network and the other side do, every call can go on by itself
 until it has returned, after at most four steps of its own, and how it then returns.
 */
module ProtocolProgress {
  import opened Bytes
  import opened Wrappers
  import opened RpcMessage
  import opened RpcCodec
  import opened Peer
  import opened Protocol
  import opened ProtocolSafety

  // ---------- The steps of one call ----------

  /** The steps that the thread in call_remote takes for its own call. */
  predicate OwnEvent(e: Event, c: nat) {
    match e
    case AllocFails(d) => d == c
    case InsertPromise(d) => d == c
    case Send(d) => d == c
    case SendFails(d) => d == c
    case EraseFailed(d) => d == c
    case TimeOut(d) => d == c
    case EraseTimedOut(d) => d == c
    case WakeUp(d) => d == c
    case _ => false
  }

  /** How far along a call is. */
  function Rank(phase: Phase): (r: nat)
    ensures r <= 4
  {
    match phase
    case Allocated => 0
    case Inserted => 1
    case SendFailed => 2
    case Waiting => 2
    case TimedOut => 3
    case Returned => 4
  }

  /** What a step does to a call: one of its own brings it further, no other touches its phase or its outcome. */
  predicate Advances(call: Call, after: Call, own: bool) {
    if own then Rank(call.phase) < Rank(after.phase) else after.phase == call.phase && after.outcome == call.outcome
  }

  lemma OwnEventsAdvance(v: View, e: Event, c: nat)
    requires Next(v, e).Some? && c < |v.me.peer.calls|
    ensures c < |Next(v, e).value.me.peer.calls|
    ensures Advances(v.me.peer.calls[c], Next(v, e).value.me.peer.calls[c], OwnEvent(e, c))
  {
    hide NextCall, NextReceive, Advances;
    if IsCallEvent(e) { CallEventAdvances(v, e, c); } else { ReceiveEventLeaves(v, e, c); }
  }

  lemma CallEventAdvances(v: View, e: Event, c: nat)
    requires NextCall(v, e).Some? && c < |v.me.peer.calls|
    ensures c < |NextCall(v, e).value.me.peer.calls|
    ensures Advances(v.me.peer.calls[c], NextCall(v, e).value.me.peer.calls[c], OwnEvent(e, c))
  {
    hide RequestBytes, Sendable;
  }

  lemma ReceiveEventLeaves(v: View, e: Event, c: nat)
    requires NextReceive(v, e).Some? && !IsCallEvent(e) && c < |v.me.peer.calls|
    ensures c < |NextReceive(v, e).value.me.peer.calls|
    ensures Advances(v.me.peer.calls[c], NextReceive(v, e).value.me.peer.calls[c], OwnEvent(e, c))
  {
    hide Held, ReplyBytes, Sendable, Rank;
  }

  function CallsOf(v: View, side: Side): seq<Call> {
    if side == Dialer then v.me.peer.calls else v.you.peer.calls
  }

  /** How many of these events are steps of call c of this side. */
  function OwnSteps(events: seq<(Side, Event)>, side: Side, c: nat): nat
    decreases |events|
  {
    if events == [] then 0
    else
      var n := |events| - 1;
      OwnSteps(events[..n], side, c) + if events[n].0 == side && OwnEvent(events[n].1, c) then 1 else 0
  }

  lemma StepAdvances(v: View, turn: Side, e: Event, side: Side, c: nat)
    requires Step(v, turn, e).Some? && c < |CallsOf(v, side)|
    ensures var calls := CallsOf(Step(v, turn, e).value, side);
            && c < |calls|
            && Advances(CallsOf(v, side)[c], calls[c], turn == side && OwnEvent(e, c))
  {
    hide Next, OwnEvent, Rank;
    var mine := if turn == Dialer then v else Swap(v);
    NextCallsGrow(mine, e);
    if turn == side { OwnEventsAdvance(mine, e, c); }
  }

  /** In every run from any state no call takes more than four steps of its own, and fewer the further it already is. */
  lemma {:induction false} OwnStepsBounded(v: View, events: seq<(Side, Event)>, side: Side, c: nat)
    requires Execute(v, events).Some? && c < |CallsOf(v, side)|
    ensures var calls := CallsOf(Execute(v, events).value, side);
            && c < |calls|
            && Rank(CallsOf(v, side)[c].phase) + OwnSteps(events, side, c) <= Rank(calls[c].phase) <= 4
    decreases |events|
  {
    hide Step, Rank, OwnEvent, CallsOf;
    if events != [] {
      var n := |events| - 1;
      OwnStepsBounded(v, events[..n], side, c);
      StepAdvances(Execute(v, events[..n]).value, events[n].0, events[n].1, side, c);
    }
  }

  // ---------- No call is stuck ----------

  /** The shortest way for a call to end by itself. */
  function WayOut(call: Call, c: nat): seq<Event> {
    match call.phase
    case Allocated => [AllocFails(c)]
    case Inserted => [SendFails(c), EraseFailed(c)]
    case SendFailed => [EraseFailed(c)]
    case Waiting => if call.fut.Empty? then [TimeOut(c), EraseTimedOut(c)] else [WakeUp(c)]
    case TimedOut => [EraseTimedOut(c)]
    case Returned => []
  }

  /** What a call has come to when it ended that way: a failure, unless its answer was there to wake up to. */
  function Ended(call: Call): Call {
    call.(phase := Returned,
          fut := if call.fut.Empty? && InTable(call.phase) then Broken else call.fut,
          outcome := if call.phase == Waiting then Result(call.fut) else call.outcome)
  }

  /**
   Every call can always end by itself, whether or not its request or reply is lost: its
   entry is then gone from the table, and nothing else in the system has changed. In
   particular a call waiting for a reply that does not come times out, and fails.
   */
  lemma EveryCallCanEnd(v: View, side: Side, c: nat)
    requires Reached(v, side) && c < |v.me.peer.calls|
    ensures var p, call := v.me.peer, v.me.peer.calls[c];
            && (forall e :: e in WayOut(call, c) ==> OwnEvent(e, c))
            && (WayOut(call, c) == [] <==> call.phase == Returned)
            && NextAll(v, WayOut(call, c))
               == Some(SetPeer(v, p.(calls := p.calls[c := Ended(call)], pending := p.pending - {call.id})))
            && (call.phase != Returned && call.fut.Empty? ==> Ended(call).outcome == Failed)
  {
    hide Reached, Inv, PeerOk, NextAll, WayOut, Ended;
    ReachedInv(v, side);
    InvPeerOk(v);
    CallCanEnd(v, c);
    EntryIs(v.me.peer, c);
    WayOutIs(v.me.peer.calls[c], c);
  }

  lemma WayOutIs(call: Call, c: nat)
    ensures forall e :: e in WayOut(call, c) ==> OwnEvent(e, c)
    ensures WayOut(call, c) == [] <==> call.phase == Returned
    ensures call.phase != Returned && call.fut.Empty? && call.outcome == Failed ==> Ended(call).outcome == Failed
  {
  }

  lemma CallCanEnd(v: View, c: nat)
    requires PeerOk(v.me.peer) && c < |v.me.peer.calls|
    ensures var p, call := v.me.peer, v.me.peer.calls[c];
            NextAll(v, WayOut(call, c))
            == Some(SetPeer(v, p.(calls := p.calls[c := Ended(call)], pending := p.pending - {call.id})))
  {
    hide PeerOk, EraseAndFail, NextAll, RequestBytes, Sendable;
    var p, call := v.me.peer, v.me.peer.calls[c];
    EntryIs(p, c);
    match call.phase
    case Allocated => NextOne(v, AllocFails(c));
    case Inserted =>
      NextTwo(v, SendFails(c), EraseFailed(c));
      ErasedAfter(p, c, SendFailed);
    case SendFailed =>
      NextOne(v, EraseFailed(c));
      assert SetPhase(p, c, SendFailed) == p;
      ErasedAfter(p, c, SendFailed);
    case Waiting => WaitCanEnd(v, c);
    case TimedOut =>
      NextOne(v, EraseTimedOut(c));
      assert SetPhase(p, c, TimedOut) == p;
      ErasedAfter(p, c, TimedOut);
    case Returned =>
      assert p.calls[c := call] == p.calls;
      NextNone(v);
  }

  lemma WaitCanEnd(v: View, c: nat)
    requires PeerOk(v.me.peer) && CallAt(v, c, Waiting)
    ensures var p, call := v.me.peer, v.me.peer.calls[c];
            NextAll(v, WayOut(call, c))
            == Some(SetPeer(v, p.(calls := p.calls[c := Ended(call)], pending := p.pending - {call.id})))
  {
    hide PeerOk, EraseAndFail, NextAll, RequestBytes, Sendable;
    var p, call := v.me.peer, v.me.peer.calls[c];
    EntryIs(p, c);
    if call.fut.Empty? {
      NextTwo(v, TimeOut(c), EraseTimedOut(c));
      ErasedAfter(p, c, TimedOut);
    } else {
      NextOne(v, WakeUp(c));
    }
  }

  lemma NextNone(v: View)
    ensures NextAll(v, []) == Some(v)
  {
  }

  lemma InvPeerOk(v: View)
    requires Inv(v)
    ensures PeerOk(v.me.peer)
  {
  }

  /** Where the id of a call leads in the table. */
  lemma EntryIs(p: Peer, c: nat)
    requires PeerOk(p) && c < |p.calls|
    ensures p.calls[c].id in p.pending <==> InTable(p.calls[c].phase) && p.calls[c].fut.Empty?
    ensures p.calls[c].id in p.pending ==> p.pending[p.calls[c].id] == c
    ensures p.calls[c].phase != Returned ==> p.calls[c].outcome == Failed && !p.calls[c].fut.Broken?
    ensures p.calls[c].id !in p.pending ==> p.pending - {p.calls[c].id} == p.pending
  {
    assert CallOk(p, c);
    if p.calls[c].id in p.pending {
      var d := p.pending[p.calls[c].id];
      assert CallOk(p, d);
      if d != c { IdsDiffer(p, c, d); }
    }
  }

  /** The failure path: the call returns, its promise is broken unless resolved, and its entry is gone. */
  lemma ErasedAfter(p: Peer, c: nat, phase: Phase)
    requires PeerOk(p) && c < |p.calls| && InTable(p.calls[c].phase) && (phase == SendFailed || phase == TimedOut)
    ensures var call := p.calls[c];
            EraseAndFail(SetPhase(p, c, phase), c)
            == p.(calls := p.calls[c := call.(phase := Returned, fut := if call.fut.Empty? then Broken else call.fut)],
                  pending := p.pending - {call.id})
  {
    hide PeerOk, CallOk;
    var q := SetPhase(p, c, phase);
    SetPhaseOk(p, c, phase);
    EraseAndFailOk(q, c);
    assert EraseAndFail(q, c) == q.(calls := EraseAndFail(q, c).calls, pending := q.pending - {q.calls[c].id});
  }

  /** Exactly the calls that have not returned have a step of their own to take. */
  lemma UnreturnedCallsMove(v: View, side: Side, c: nat)
    requires Reached(v, side) && c < |v.me.peer.calls|
    ensures v.me.peer.calls[c].phase != Returned <==> exists e :: OwnEvent(e, c) && Next(v, e).Some?
  {
    hide Reached, Next, Rank, NextAll;
    var call := v.me.peer.calls[c];
    if call.phase != Returned {
      EveryCallCanEnd(v, side, c);
      var e := WayOut(call, c)[0];
      assert e in WayOut(call, c);
      FirstOfAll(v, WayOut(call, c));
    }
    forall e | OwnEvent(e, c) && Next(v, e).Some? ensures call.phase != Returned {
      OwnEventsAdvance(v, e, c);
      ReturnedIsLast(call.phase);
    }
  }

  lemma FirstOfAll(v: View, events: seq<Event>)
    requires events != [] && NextAll(v, events).Some?
    ensures Next(v, events[0]).Some?
  {
    hide Next;
  }

  lemma ReturnedIsLast(phase: Phase)
    ensures Rank(phase) == 4 <==> phase == Returned
  {
  }

  // ---------- Replies ----------

  /**
   A held reply resolves the promise of its call, with the handler's answer, exactly as long
   as the call has not returned; a later one changes nothing but its worker.
   */
  lemma ReplyResolvesItsCall(v: View, side: Side, w: nat)
    requires Reached(v, side) && w < |v.me.workers| && v.me.workers[w].Holding?
    requires v.me.workers[w].packet.origin.FromRun?
    ensures var p, r := v.me.peer, v.me.workers[w].packet.origin.run;
            && r < |v.you.peer.runs| && v.you.peer.runs[r].call < |p.calls|
            && var run := v.you.peer.runs[r];
            var call := p.calls[run.call];
            var after := Next(v, Match(w));
            && after.Some?
            && after.value.me.workers == v.me.workers[w := Finished]
            && after.value.me.inbox == v.me.inbox && after.value.you == v.you
            && after.value.me.peer
               == (if call.phase == Returned then p
                   else p.(calls := p.calls[run.call := call.(fut := Fulfilled(Some(run.resp), r))],
                           pending := p.pending - {call.id}))
            && (call.phase != Returned ==> call.fut.Empty? && (call.phase == Waiting || call.phase == TimedOut))
  {
    hide RequestBytes, ReplyBytes, Sendable, Reached, Receive, PeerOk, CallOk;
    ReachedInv(v, side);
    InvPeerOk(v);
    HeldMessage(v, w);
    var r := v.me.workers[w].packet.origin.run;
    var run := v.you.peer.runs[r];
    assert RunFaithful(v.me, v.you, r);
    assert CallFaithful(v.me, v.you, run.call);
    EntryIs(v.me.peer, run.call);
    FulfilOk(v.me.peer, run.id, Some(run.resp), r);
  }

  /**
   The race at the deadline: a reply that comes between the failed wait and the erase still
   resolves the promise, and yet the call returns a failure.
   */
  lemma LateReplyTakenInVain(v: View, side: Side, c: nat, w: nat)
    requires Reached(v, side) && CallAt(v, c, Waiting) && v.me.peer.calls[c].fut.Empty?
    requires w < |v.me.workers| && v.me.workers[w].Holding?
    requires Held(v, w).Accepted? && Held(v, w).msg.msgType == RESPONSE && Held(v, w).msg.id == v.me.peer.calls[c].id
    ensures var p, call, m := v.me.peer, v.me.peer.calls[c], Held(v, w).msg;
            var r := NextAll(v, [TimeOut(c), Match(w), EraseTimedOut(c)]);
            && r.Some?
            && c < |r.value.me.peer.calls|
            && var ended := r.value.me.peer.calls[c];
            && r.value.me.peer == p.(calls := p.calls[c := ended], pending := p.pending - {call.id})
            && ended == call.(phase := Returned, fut := ended.fut)
            && ended.fut.Fulfilled? && ended.fut.value == m.payload && ended.outcome == Failed
  {
    hide Reached, Inv, PeerOk, Held, EraseAndFail, Fulfil, Next;
    ReachedInv(v, side);
    InvPeerOk(v);
    var p, o := v.me.peer, v.me.workers[w].packet.origin;
    EntryIs(p, c);
    NextThree(v, TimeOut(c), Match(w), EraseTimedOut(c));
    TakenInVain(p, c, Held(v, w).msg.payload, if o.FromRun? then o.run else 0);
    TimeOutIs(v, c);
    var v1 := SetPeer(v, SetPhase(p, c, TimedOut));
    SameHeld(v, v1, w);
    MatchIs(v1, w);
    EraseIs(Next(v1, Match(w)).value, c);
  }

  lemma TimeOutIs(v: View, c: nat)
    requires CallAt(v, c, Waiting) && v.me.peer.calls[c].fut.Empty?
    ensures Next(v, TimeOut(c)) == Some(SetPeer(v, SetPhase(v.me.peer, c, TimedOut)))
  {
  }

  lemma SameHeld(v: View, v': View, w: nat)
    requires v'.me.workers == v.me.workers
    ensures Held(v', w) == Held(v, w)
  {
    hide Receive;
  }

  lemma MatchIs(v: View, w: nat)
    requires HoldsMessage(v, w) && Held(v, w).msg.msgType == RESPONSE
    ensures Next(v, Match(w)).Some?
    ensures var m, o := Held(v, w).msg, v.me.workers[w].packet.origin;
            Next(v, Match(w)).value.me.peer == Fulfil(v.me.peer, m.id, m.payload, if o.FromRun? then o.run else 0)
  {
    hide Held, Fulfil, NextCall;
  }

  lemma EraseIs(v: View, c: nat)
    requires CallAt(v, c, TimedOut)
    ensures Next(v, EraseTimedOut(c)) == Some(SetPeer(v, EraseAndFail(v.me.peer, c)))
  {
    hide EraseAndFail, NextReceive;
  }

  lemma TakenInVain(p: Peer, c: nat, value: Option<bytes>, byRun: nat)
    requires PeerOk(p) && c < |p.calls| && p.calls[c].phase == Waiting && p.calls[c].fut.Empty?
    requires p.calls[c].id in p.pending && p.pending[p.calls[c].id] == c
    ensures var call, q := p.calls[c], Fulfil(SetPhase(p, c, TimedOut), p.calls[c].id, value, byRun);
            && c < |q.calls| && q.calls[c].phase == TimedOut
            && EraseAndFail(q, c)
            == p.(calls := p.calls[c := call.(phase := Returned, fut := Fulfilled(value, byRun))],
                  pending := p.pending - {call.id})
  {
    var id := p.calls[c].id;
    SetPhaseOk(p, c, TimedOut);
    FulfilOk(SetPhase(p, c, TimedOut), id, value, byRun);
    hide PeerOk, CallOk;
    var q := Fulfil(SetPhase(p, c, TimedOut), id, value, byRun);
    ErasedAfter(q, c, TimedOut);
    assert SetPhase(q, c, TimedOut) == q;
    assert p.pending - {id} - {id} == p.pending - {id};
  }

  /** A call that wakes up to its reply returns what the handler answered, and fails exactly for the empty answer. */
  lemma WakesToItsAnswer(v: View, side: Side, c: nat)
    requires Reached(v, side) && CallAt(v, c, Waiting) && !v.me.peer.calls[c].fut.Empty?
    ensures exists r :: 0 <= r < |v.you.peer.runs| && v.you.peer.runs[r].call == c
                        && WokenBy(v, c, v.you.peer.runs[r].resp)
  {
    hide RequestBytes, ReplyBytes, Sendable, Reached;
    ReachedInv(v, side);
    assert CallOk(v.me.peer, c) && CallFaithful(v.me, v.you, c);
    assert WokenBy(v, c, v.you.peer.runs[v.me.peer.calls[c].fut.byRun].resp);
  }

  predicate WokenBy(v: View, c: nat, resp: bytes)
    requires c < |v.me.peer.calls|
  {
    var woken := v.me.peer.calls[c].(phase := Returned, outcome := if resp == [] then Failed else Succeeded(resp));
    Next(v, WakeUp(c)) == Some(SetPeer(v, v.me.peer.(calls := v.me.peer.calls[c := woken])))
  }

  // ---------- The network ----------

  /** A message on its way can be lost, or taken whole by any waiting worker; either way it is on its way no longer. */
  lemma MessagesLeaveOnce(v: View, w: nat, k: nat)
    ensures Next(v, Lose(k)).Some? <==> k in v.me.inbox
    ensures Next(v, Deliver(w, k)).Some? <==> k in v.me.inbox && w < |v.me.workers| && v.me.workers[w] == Armed
    ensures Next(v, Lose(k)).Some? ==>
              var r := Next(v, Lose(k)).value;
              && r.me.peer == v.me.peer && r.you.peer == v.you.peer && r.me.inbox == v.me.inbox - {k}
              && r.you.inbox == v.you.inbox && r.me.workers == v.me.workers && r.you.workers == v.you.workers
    ensures Next(v, Deliver(w, k)).Some? ==>
              var r := Next(v, Deliver(w, k)).value;
              && r.me.peer == v.me.peer && r.you.peer == v.you.peer && r.me.inbox == v.me.inbox - {k}
              && r.you.inbox == v.you.inbox && r.me.workers == v.me.workers[w := Holding(v.me.inbox[k])]
              && r.you.workers == v.you.workers
  {
  }

  /** There is a message of call c in this place. */
  predicate Carries(v: View, c: nat, place: Place) {
    match place
    case RequestSent(k) => k in v.you.inbox && v.you.inbox[k].origin == FromCall(c)
    case RequestTaken(w) => w < |v.you.workers| && HoldsFrom(v.you.workers[w], FromCall(c))
    case ReplyOwed(w) => w < |v.you.workers| && v.you.workers[w].Owing? && RunFor(v, c, FromRun(v.you.workers[w].run))
    case ReplySent(k) => k in v.me.inbox && RunFor(v, c, v.me.inbox[k].origin)
    case ReplyTaken(w) => w < |v.me.workers| && v.me.workers[w].Holding? && RunFor(v, c, v.me.workers[w].packet.origin)
    case _ => false
  }

  predicate HoldsFrom(w: Worker, o: Origin) {
    w.Holding? && w.packet.origin == o
  }

  /** A handler run of the other side that served call c. */
  predicate RunFor(v: View, c: nat, o: Origin) {
    o.FromRun? && o.run < |v.you.peer.runs| && v.you.peer.runs[o.run].call == c
  }

  /** A call has at most one message in the whole system, request or reply, on its way or with a worker. */
  lemma OneMessagePerCall(v: View, side: Side, c: nat, place: Place, other: Place)
    requires Reached(v, side) && Carries(v, c, place) && Carries(v, c, other)
    ensures place == other
  {
    hide Reached, PeerOk, RequestBytes, ReplyBytes, Sendable;
    ReachedInv(v, side);
    CarriedThere(v, c, place);
    CarriedThere(v, c, other);
  }

  lemma CarriedThere(v: View, c: nat, place: Place)
    requires Dir(v.me, v.you) && Carries(v, c, place)
    ensures c < |v.me.places| && v.me.places[c] == place
  {
    hide RequestBytes, ReplyBytes, Sendable;
    match place
    case RequestSent(k) => assert RequestOk(v.me, v.you.inbox[k], RequestSent(k));
    case RequestTaken(w) => assert RequestOk(v.me, v.you.workers[w].packet, RequestTaken(w));
    case ReplyOwed(w) =>
    case ReplySent(k) => assert ReplyOk(v.me, v.you, v.me.inbox[k], ReplySent(k));
    case ReplyTaken(w) => assert ReplyOk(v.me, v.you, v.me.workers[w].packet, ReplyTaken(w));
  }
}
