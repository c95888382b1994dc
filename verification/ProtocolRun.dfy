/**
 A call that succeeds: whatever the method, request and non-empty answer, there is a run in
 which the caller gets exactly the answer, so the safety theorems do not hold for want of
 successful runs.
 */
module ProtocolRun {
  import opened Bytes
  import opened Wrappers
  import opened RpcMessage
  import opened RpcCodec
  import opened Peer
  import opened Protocol

  function SuccessfulRun(name: bytes, req: bytes, resp: bytes): seq<(Side, Event)> {
    [ (Listener, Register(name)),
      (Dialer, Start(name, req)),
      (Dialer, InsertPromise(0)),
      (Dialer, Send(0)),
      (Listener, Deliver(0, 0)),
      (Listener, Handle(0, resp)),
      (Listener, Reply(0)),
      (Dialer, Deliver(0, 1)),
      (Dialer, Match(0)),
      (Dialer, WakeUp(0)) ]
  }

  lemma OneMoreEvent(v: View, events: seq<(Side, Event)>, k: nat, before: View, after: View)
    requires k < |events| && Execute(v, events[..k]) == Some(before)
    requires Step(before, events[k].0, events[k].1) == Some(after)
    ensures Execute(v, events[..k + 1]) == Some(after)
  {
    hide Step;
    assert events[..k + 1][..k] == events[..k];
  }

  // ---------- One call in each of its phases ----------

  function TheCall(name: bytes, req: bytes, phase: Phase): Call {
    Call(1, name, req, phase, Empty, Failed)
  }

  /** The system with one call, one worker on each side and the method registered. */
  function Stage(name: bytes, phase: Phase, req: bytes, pending: map<nat, nat>, place: Place,
      packet: Option<Packet>): View {
    View(
      End(Peer(2, [TheCall(name, req, phase)], pending, {}, []), [Armed], map[], [place]),
      End(NEW_PEER.(methods := {name}), [Armed], if packet.Some? then map[0 := packet.value] else map[], []),
      if packet.Some? then 1 else 0)
  }

  lemma Singletons<T>(x: T, y: T)
    ensures [] + [x] == [x] && [x][0 := y] == [y]
  {
  }

  function Registered(name: bytes): View {
    Initial(1, 1).(you := Initial(1, 1).you.(peer := NEW_PEER.(methods := {name})))
  }

  lemma StepRegister(name: bytes)
    ensures Step(Initial(1, 1), Listener, Register(name)) == Some(Registered(name))
  {
    assert {} + {name} == {name};
  }

  lemma StepStart(name: bytes, req: bytes)
    requires Sendable(name, req)
    ensures Step(Registered(name), Dialer, Start(name, req)) == Some(Stage(name, Allocated, req, map[], Nowhere, None))
  {
    hide Sendable;
    OneWorker();
    Singletons(TheCall(name, req, Allocated), TheCall(name, req, Allocated));
    Singletons(Nowhere, Nowhere);
  }

  lemma StepInsert(name: bytes, req: bytes)
    ensures Step(Stage(name, Allocated, req, map[], Nowhere, None), Dialer, InsertPromise(0))
            == Some(Stage(name, Inserted, req, map[1 := 0], Nowhere, None))
  {
    Singletons(TheCall(name, req, Allocated), TheCall(name, req, Inserted));
  }

  function RequestPacket(name: bytes, req: bytes): Packet {
    Packet(RequestBytes(1, name, req), FromCall(0))
  }

  lemma StepSend(name: bytes, req: bytes)
    ensures Step(Stage(name, Inserted, req, map[1 := 0], Nowhere, None), Dialer, Send(0))
            == Some(Stage(name, Waiting, req, map[1 := 0], RequestSent(0), Some(RequestPacket(name, req))))
  {
    hide RequestBytes;
    Singletons(TheCall(name, req, Inserted), TheCall(name, req, Waiting));
    Singletons(Nowhere, RequestSent(0));
  }

  /** The first four steps: the request is on its way. */
  lemma RequestPhase(name: bytes, req: bytes, resp: bytes)
    requires Sendable(name, req)
    ensures Execute(Initial(1, 1), SuccessfulRun(name, req, resp)[..4])
            == Some(Stage(name, Waiting, req, map[1 := 0], RequestSent(0), Some(RequestPacket(name, req))))
  {
    hide Step, Stage, Registered, Initial, RequestPacket, Sendable;
    var events, v := SuccessfulRun(name, req, resp), Initial(1, 1);
    assert events[..0] == [];
    StepRegister(name);
    OneMoreEvent(v, events, 0, v, Registered(name));
    StepStart(name, req);
    OneMoreEvent(v, events, 1, Registered(name), Stage(name, Allocated, req, map[], Nowhere, None));
    StepInsert(name, req);
    OneMoreEvent(v, events, 2, Stage(name, Allocated, req, map[], Nowhere, None),
        Stage(name, Inserted, req, map[1 := 0], Nowhere, None));
    StepSend(name, req);
    OneMoreEvent(v, events, 3, Stage(name, Inserted, req, map[1 := 0], Nowhere, None),
                 Stage(name, Waiting, req, map[1 := 0], RequestSent(0), Some(RequestPacket(name, req))));
  }

  lemma OneWorker()
    ensures Pool(1) == [Armed]
  {
  }

  // ---------- The other side answers ----------

  function TheRun(name: bytes, req: bytes, resp: bytes): Run {
    Run(1, name, req, resp, 0)
  }

  /** The listener's worker and log, and where the call's message is, while the caller waits. */
  function Serving(name: bytes, req: bytes, runs: seq<Run>, worker: Worker, place: Place, reply: Option<Packet>): View {
    View(
      End(Peer(2, [TheCall(name, req, Waiting)], map[1 := 0], {}, []), [Armed],
          if reply.Some? then map[1 := reply.value] else map[], [place]),
      End(NEW_PEER.(methods := {name}, runs := runs), [worker], map[], []),
      if reply.Some? then 2 else 1)
  }

  lemma StepDeliver(name: bytes, req: bytes)
    ensures Step(Stage(name, Waiting, req, map[1 := 0], RequestSent(0), Some(RequestPacket(name, req))), Listener,
            Deliver(0, 0))
            == Some(Serving(name, req, [], Holding(RequestPacket(name, req)), RequestTaken(0), None))
  {
    hide RequestBytes;
    var packet := RequestPacket(name, req);
    Singletons(Armed, Holding(packet));
    Singletons(RequestSent(0), RequestTaken(0));
    assert map[0 := packet] - {0} == map[];
  }

  lemma StepHandle(name: bytes, req: bytes, resp: bytes)
    requires Sendable(name, req) && Sendable(name, resp)
    ensures Step(Serving(name, req, [], Holding(RequestPacket(name, req)), RequestTaken(0), None), Listener,
            Handle(0, resp))
            == Some(Serving(name, req, [TheRun(name, req, resp)], Owing(0), ReplyOwed(0), None))
  {
    hide Encode, Receive, Sendable;
    SendableEncodes(REQUEST, 1, name, req);
    EncodeReceived(MethodFirst, REQUEST, 1, name, req);
    Singletons(Holding(RequestPacket(name, req)), Owing(0));
    Singletons(RequestTaken(0), ReplyOwed(0));
    Singletons(TheRun(name, req, resp), TheRun(name, req, resp));
  }

  function ReplyPacket(name: bytes, resp: bytes): Packet {
    Packet(ReplyBytes(1, name, resp), FromRun(0))
  }

  lemma StepReply(name: bytes, req: bytes, resp: bytes)
    ensures Step(Serving(name, req, [TheRun(name, req, resp)], Owing(0), ReplyOwed(0), None), Listener, Reply(0))
            == Some(Serving(name, req, [TheRun(name, req, resp)], Finished, ReplySent(1),
                Some(ReplyPacket(name, resp))))
  {
    hide ReplyBytes;
    Singletons(Owing(0), Finished);
    Singletons(ReplyOwed(0), ReplySent(1));
  }

  // ---------- The reply reaches the caller ----------

  /** The listener is done; the caller's worker holds the reply, or has delivered it. */
  function Replied(name: bytes, req: bytes, resp: bytes, worker: Worker, call: Call, pending: map<nat, nat>,
      place: Place): View {
    View(
      End(Peer(2, [call], pending, {}, []), [worker], map[], [place]),
      End(NEW_PEER.(methods := {name}, runs := [TheRun(name, req, resp)]), [Finished], map[], []),
      2)
  }

  lemma StepTake(name: bytes, req: bytes, resp: bytes)
    ensures Step(Serving(name, req, [TheRun(name, req, resp)], Finished, ReplySent(1),
            Some(ReplyPacket(name, resp))), Dialer, Deliver(0, 1))
            == Some(Replied(name, req, resp, Holding(ReplyPacket(name, resp)), TheCall(name, req, Waiting),
                map[1 := 0], ReplyTaken(0)))
  {
    hide ReplyBytes;
    var packet := ReplyPacket(name, resp);
    Singletons(Armed, Holding(packet));
    Singletons(ReplySent(1), ReplyTaken(0));
    assert map[1 := packet] - {1} == map[];
  }

  function Answered(name: bytes, req: bytes, resp: bytes, phase: Phase): Call {
    TheCall(name, req, phase).(fut := Fulfilled(Some(resp), 0))
  }

  lemma StepMatch(name: bytes, req: bytes, resp: bytes, phase: Phase)
    requires Sendable(name, resp)
    ensures Step(Replied(name, req, resp, Holding(ReplyPacket(name, resp)), TheCall(name, req, phase), map[1 := 0],
            ReplyTaken(0)),
                 Dialer, Match(0))
            == Some(Replied(name, req, resp, Finished, Answered(name, req, resp, phase), map[], Delivered))
  {
    hide Encode, Receive, Sendable;
    SendableEncodes(RESPONSE, 1, name, resp);
    EncodeReceived(PayloadFirst, RESPONSE, 1, name, resp);
    Singletons(Holding(ReplyPacket(name, resp)), Finished);
    Singletons(ReplyTaken(0), Delivered);
    Singletons(TheCall(name, req, phase), Answered(name, req, resp, phase));
    var pending: map<nat, nat> := map[1 := 0];
    assert pending - {1} == map[];
  }

  function Woken(name: bytes, req: bytes, resp: bytes): Call {
    Answered(name, req, resp, Waiting).(phase := Returned, outcome := Succeeded(resp))
  }

  lemma StepWake(name: bytes, req: bytes, resp: bytes)
    requires resp != []
    ensures Step(Replied(name, req, resp, Finished, Answered(name, req, resp, Waiting), map[], Delivered), Dialer,
            WakeUp(0))
            == Some(Replied(name, req, resp, Finished, Woken(name, req, resp), map[], Delivered))
  {
    Singletons(Answered(name, req, resp, Waiting), Woken(name, req, resp));
  }

  /** The caller's worker holds the reply; the call waits, or has just stopped waiting. */
  function ReplyHeld(name: bytes, req: bytes, resp: bytes, phase: Phase): View {
    Replied(name, req, resp, Holding(ReplyPacket(name, resp)), TheCall(name, req, phase), map[1 := 0], ReplyTaken(0))
  }

  lemma ReplyPhase(name: bytes, req: bytes, resp: bytes)
    requires Sendable(name, req) && Sendable(name, resp)
    ensures Execute(Initial(1, 1), SuccessfulRun(name, req, resp)[..8]) == Some(ReplyHeld(name, req, resp, Waiting))
  {
    hide Step, Stage, Serving, Replied, Initial, RequestPacket, ReplyPacket, Sendable;
    var events, v := SuccessfulRun(name, req, resp), Initial(1, 1);
    RequestPhase(name, req, resp);
    StepDeliver(name, req);
    StepHandle(name, req, resp);
    StepReply(name, req, resp);
    StepTake(name, req, resp);
    var run := [TheRun(name, req, resp)];
    var v4 := Stage(name, Waiting, req, map[1 := 0], RequestSent(0), Some(RequestPacket(name, req)));
    var v5 := Serving(name, req, [], Holding(RequestPacket(name, req)), RequestTaken(0), None);
    var v6 := Serving(name, req, run, Owing(0), ReplyOwed(0), None);
    var v7 := Serving(name, req, run, Finished, ReplySent(1), Some(ReplyPacket(name, resp)));
    OneMoreEvent(v, events, 4, v4, v5);
    OneMoreEvent(v, events, 5, v5, v6);
    OneMoreEvent(v, events, 6, v6, v7);
    OneMoreEvent(v, events, 7, v7, ReplyHeld(name, req, resp, Waiting));
  }

  /** Every method, request and non-empty answer has a run in which the call returns exactly that answer. */
  lemma CallsCanSucceed(name: bytes, req: bytes, resp: bytes)
    requires Sendable(name, req) && Sendable(name, resp) && resp != []
    ensures var r := Execute(Initial(1, 1), SuccessfulRun(name, req, resp));
            && r.Some? && |r.value.me.peer.calls| == 1
            && r.value.me.peer.calls[0].outcome == Succeeded(resp)
            && r.value.me.peer.pending == map[]
  {
    hide Step, Replied, Initial, ReplyPacket, Sendable;
    var events, v := SuccessfulRun(name, req, resp), Initial(1, 1);
    ReplyPhase(name, req, resp);
    StepMatch(name, req, resp, Waiting);
    StepWake(name, req, resp);
    var v9 := Replied(name, req, resp, Finished, Answered(name, req, resp, Waiting), map[], Delivered);
    var v10 := Replied(name, req, resp, Finished, Woken(name, req, resp), map[], Delivered);
    OneMoreEvent(v, events, 8, ReplyHeld(name, req, resp, Waiting), v9);
    OneMoreEvent(v, events, 9, v9, v10);
    assert events[..10] == events;
    RepliedParts(name, req, resp, Woken(name, req, resp));
  }

  lemma RepliedParts(name: bytes, req: bytes, resp: bytes, call: Call)
    ensures Replied(name, req, resp, Finished, call, map[], Delivered).me.peer.calls == [call]
    ensures Replied(name, req, resp, Finished, call, map[], Delivered).me.peer.pending == map[]
  {
  }

  // ---------- A call that gives up on a reply that is there ----------

  function RacingRun(name: bytes, req: bytes, resp: bytes): seq<(Side, Event)> {
    SuccessfulRun(name, req, resp)[..8] + [(Dialer, TimeOut(0)), (Dialer, Match(0)), (Dialer, EraseTimedOut(0))]
  }

  lemma StepTimeOut(name: bytes, req: bytes, resp: bytes)
    ensures Step(ReplyHeld(name, req, resp, Waiting), Dialer, TimeOut(0)) == Some(ReplyHeld(name, req, resp, TimedOut))
  {
    Singletons(TheCall(name, req, Waiting), TheCall(name, req, TimedOut));
  }

  lemma StepErase(name: bytes, req: bytes, resp: bytes)
    ensures Step(Replied(name, req, resp, Finished, Answered(name, req, resp, TimedOut), map[], Delivered), Dialer,
            EraseTimedOut(0))
            == Some(Replied(name, req, resp, Finished, Answered(name, req, resp, Returned), map[], Delivered))
  {
    Singletons(Answered(name, req, resp, TimedOut), Answered(name, req, resp, Returned));
    var pending: map<nat, nat> := map[];
    assert pending - {1} == map[];
  }

  /**
   The race at the deadline does happen: every method, request and answer has a run in which
   the promise is fulfilled with that answer and the call fails all the same.
   */
  lemma CallsCanFailAnswered(name: bytes, req: bytes, resp: bytes)
    requires Sendable(name, req) && Sendable(name, resp)
    ensures var r := Execute(Initial(1, 1), RacingRun(name, req, resp));
            && r.Some? && |r.value.me.peer.calls| == 1
            && r.value.me.peer.calls[0].fut == Fulfilled(Some(resp), 0)
            && r.value.me.peer.calls[0].phase == Returned && r.value.me.peer.calls[0].outcome == Failed
            && r.value.me.peer.pending == map[]
  {
    hide Step, Replied, Initial, ReplyPacket, Sendable;
    var events, v := RacingRun(name, req, resp), Initial(1, 1);
    ReplyPhase(name, req, resp);
    assert events[..8] == SuccessfulRun(name, req, resp)[..8];
    StepTimeOut(name, req, resp);
    StepMatch(name, req, resp, TimedOut);
    StepErase(name, req, resp);
    var v10 := Replied(name, req, resp, Finished, Answered(name, req, resp, TimedOut), map[], Delivered);
    var v11 := Replied(name, req, resp, Finished, Answered(name, req, resp, Returned), map[], Delivered);
    OneMoreEvent(v, events, 8, ReplyHeld(name, req, resp, Waiting), ReplyHeld(name, req, resp, TimedOut));
    OneMoreEvent(v, events, 9, ReplyHeld(name, req, resp, TimedOut), v10);
    OneMoreEvent(v, events, 10, v10, v11);
    assert events[..11] == events;
    RepliedParts(name, req, resp, Answered(name, req, resp, Returned));
  }
}
