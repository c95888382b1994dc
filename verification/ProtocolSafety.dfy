/**
 What holds in every reachable state of the two-peer system, and what it means for callers.
 */
module ProtocolSafety {
  import opened Bytes
  import opened Wrappers
  import opened RpcMessage
  import opened RpcCodec
  import opened Peer
  import opened Protocol

  // ---------- The invariant ----------

  /** A request message carries exactly its call's request, and is where the history says. */
  predicate RequestOk(p: End, packet: Packet, place: Place) {
    packet.origin.FromCall? ==>
      var c := packet.origin.call;
      && c < |p.peer.calls| && c < |p.places| && p.places[c] == place
      && packet.data == RequestBytes(p.peer.calls[c].id, p.peer.calls[c].name, p.peer.calls[c].req)
  }

  /** A reply message carries exactly what its handler run produced. */
  predicate ReplyOk(p: End, q: End, packet: Packet, place: Place) {
    packet.origin.FromRun? ==>
      var r := packet.origin.run;
      && r < |q.peer.runs| && q.peer.runs[r].call < |p.places| && p.places[q.peer.runs[r].call] == place
      && packet.data == ReplyBytes(q.peer.runs[r].id, q.peer.runs[r].name, q.peer.runs[r].resp)
  }

  predicate AfterHandling(place: Place) {
    place.ReplyOwed? || place.ReplySent? || place.ReplyTaken? || place == Delivered || place == Gone
  }

  /** A handler ran on exactly the request of the call it is recorded for. */
  predicate RunFaithful(p: End, q: End, r: nat)
    requires r < |q.peer.runs|
  {
    var run := q.peer.runs[r];
    && run.call < |p.peer.calls| && run.call < |p.places|
    && run.id == p.peer.calls[run.call].id && run.name == p.peer.calls[run.call].name
        && run.req == p.peer.calls[run.call].req
    && run.id < ID_SPACE && Sendable(run.name, run.resp)
    && AfterHandling(p.places[run.call])
  }

  /** Nothing of a call is on its way before it is sent, and a fulfilled future holds its own reply. */
  predicate CallFaithful(p: End, q: End, c: nat)
    requires c < |p.peer.calls| && c < |p.places|
  {
    var call := p.peer.calls[c];
    && call.id < ID_SPACE && Sendable(call.name, call.req)
    && (p.places[c] != Nowhere ==> call.phase == Waiting || call.phase == TimedOut || call.phase == Returned)
    && (call.fut.Fulfilled? ==>
          && p.places[c] == Delivered
          && call.fut.byRun < |q.peer.runs| && q.peer.runs[call.fut.byRun].call == c
          && call.fut.value == Some(q.peer.runs[call.fut.byRun].resp))
  }

  /** The calls of p, as served by q. */
  predicate Dir(p: End, q: End) {
    && |p.places| == |p.peer.calls|
    && (forall k :: k in q.inbox ==> RequestOk(p, q.inbox[k], RequestSent(k)))
    && (forall w :: 0 <= w < |q.workers| && q.workers[w].Holding? ==>
          RequestOk(p, q.workers[w].packet, RequestTaken(w)))
    && (forall w :: 0 <= w < |q.workers| && q.workers[w].Owing? ==>
          q.workers[w].run < |q.peer.runs| && q.peer.runs[q.workers[w].run].call < |p.places|
          && p.places[q.peer.runs[q.workers[w].run].call] == ReplyOwed(w))
    && (forall k :: k in p.inbox ==> ReplyOk(p, q, p.inbox[k], ReplySent(k)))
    && (forall w :: 0 <= w < |p.workers| && p.workers[w].Holding? ==> ReplyOk(p, q, p.workers[w].packet, ReplyTaken(w)))
    && (forall r :: 0 <= r < |q.peer.runs| ==> RunFaithful(p, q, r))
    && (forall r, s :: 0 <= r < s < |q.peer.runs| ==> q.peer.runs[r].call != q.peer.runs[s].call)
    && (forall c :: 0 <= c < |p.peer.calls| ==> CallFaithful(p, q, c))
  }

  /** The peer's own bookkeeping is right, and none of its receive workers is lost. */
  predicate EndOk(p: End) {
    PeerOk(p.peer) && forall w :: 0 <= w < |p.workers| ==> p.workers[w] != Lost
  }

  predicate KeysFresh(p: End, serial: nat) {
    forall k :: k in p.inbox ==> k < serial
  }

  predicate Inv(v: View) {
    && EndOk(v.me) && EndOk(v.you)
    && KeysFresh(v.me, v.serial) && KeysFresh(v.you, v.serial)
    && Dir(v.me, v.you) && Dir(v.you, v.me)
  }

  lemma InitialInv(m: nat, n: nat)
    ensures Inv(Initial(m, n))
  {
  }

  // ---------- Messages on the wire ----------

  lemma RequestReceived(id: nat, name: bytes, req: bytes)
    requires id < ID_SPACE && Sendable(name, req)
    ensures Receive(RequestBytes(id, name, req)) == Accepted(Message(REQUEST, id, Some(name), Some(req)))
  {
    hide Encode, Receive;
    EncodeReceived(MethodFirst, REQUEST, id, name, req);
  }

  lemma ReplyReceived(id: nat, name: bytes, resp: bytes)
    requires id < ID_SPACE && Sendable(name, resp)
    ensures Receive(ReplyBytes(id, name, resp)) == Accepted(Message(RESPONSE, id, Some(name), Some(resp)))
  {
    hide Encode, Receive;
    EncodeReceived(PayloadFirst, RESPONSE, id, name, resp);
  }

  /** A held message is the request of a call of the other side, or the reply to a call of this side. */
  lemma HeldMessage(v: View, w: nat)
    requires Inv(v) && w < |v.me.workers| && v.me.workers[w].Holding?
    ensures var o := v.me.workers[w].packet.origin;
            && (o.FromCall? ==>
                  && o.call < |v.you.peer.calls| && v.you.places[o.call] == RequestTaken(w)
                  && var call := v.you.peer.calls[o.call];
                  Held(v, w) == Accepted(Message(REQUEST, call.id, Some(call.name), Some(call.req))))
            && (o.FromRun? ==>
                  && o.run < |v.you.peer.runs|
                  && var run := v.you.peer.runs[o.run];
                  && run.call < |v.me.peer.calls| && v.me.places[run.call] == ReplyTaken(w)
                  && Held(v, w) == Accepted(Message(RESPONSE, run.id, Some(run.name), Some(run.resp))))
  {
    hide RequestBytes, ReplyBytes, Receive, PeerOk, Sendable;
    var o := v.me.workers[w].packet.origin;
    assert RequestOk(v.you, v.me.workers[w].packet, RequestTaken(w));
    assert ReplyOk(v.me, v.you, v.me.workers[w].packet, ReplyTaken(w));
    if o.FromCall? {
      var call := v.you.peer.calls[o.call];
      assert CallFaithful(v.you, v.me, o.call);
      RequestReceived(call.id, call.name, call.req);
    } else {
      var run := v.you.peer.runs[o.run];
      assert RunFaithful(v.me, v.you, o.run);
      ReplyReceived(run.id, run.name, run.resp);
    }
  }

  // ---------- Steps of call_remote ----------

  /** A change to one call of `p` that leaves its messages where they are. */
  predicate OneCallChanged(p: Peer, r: Peer, c: nat) {
    && c < |p.calls| && r.runs == p.runs
    && |r.calls| == |p.calls| && r.calls == p.calls[c := r.calls[c]]
    && r.calls[c].id == p.calls[c].id && r.calls[c].name == p.calls[c].name && r.calls[c].req == p.calls[c].req
  }

  lemma CallChangeKeepsInv(v: View, r: Peer, c: nat)
    requires Inv(v) && OneCallChanged(v.me.peer, r, c) && PeerOk(r)
    requires CallFaithful(v.me.(peer := r), v.you, c)
    ensures Inv(SetPeer(v, r))
  {
    hide RequestBytes, ReplyBytes, PeerOk, Sendable;
    var v' := SetPeer(v, r);
    forall k | k in v'.you.inbox ensures RequestOk(v'.me, v'.you.inbox[k], RequestSent(k)) {
      assert RequestOk(v.me, v.you.inbox[k], RequestSent(k));
    }
    forall w | 0 <= w < |v'.you.workers| && v'.you.workers[w].Holding?
      ensures RequestOk(v'.me, v'.you.workers[w].packet, RequestTaken(w))
    {
      assert RequestOk(v.me, v.you.workers[w].packet, RequestTaken(w));
    }
    forall k | k in v'.me.inbox ensures ReplyOk(v'.me, v'.you, v'.me.inbox[k], ReplySent(k)) {
      assert ReplyOk(v.me, v.you, v.me.inbox[k], ReplySent(k));
    }
    forall s | 0 <= s < |v'.you.peer.runs| ensures RunFaithful(v'.me, v'.you, s) {
      assert RunFaithful(v.me, v.you, s);
    }
    forall d | 0 <= d < |v'.me.peer.calls| ensures CallFaithful(v'.me, v'.you, d) {
      if d != c { assert CallFaithful(v.me, v.you, d); }
    }
    ServerSideKept(v, v');
  }

  /** The other direction does not depend on the caller's calls. */
  lemma ServerSideKept(v: View, v': View)
    requires Dir(v.you, v.me)
    requires v'.you == v.you && v'.me == v.me.(peer := v'.me.peer) && v'.me.peer.runs == v.me.peer.runs
    ensures Dir(v'.you, v'.me)
  {
    hide RequestBytes, ReplyBytes, Sendable;
    forall k | k in v'.you.inbox ensures ReplyOk(v'.you, v'.me, v'.you.inbox[k], ReplySent(k)) {
      assert ReplyOk(v.you, v.me, v.you.inbox[k], ReplySent(k));
    }
    forall r | 0 <= r < |v'.me.peer.runs| ensures RunFaithful(v'.you, v'.me, r) {
      assert RunFaithful(v.you, v.me, r);
    }
    forall c | 0 <= c < |v'.you.peer.calls| ensures CallFaithful(v'.you, v'.me, c) {
      assert CallFaithful(v.you, v.me, c);
    }
  }

  lemma CallEventKeepsInv(v: View, e: Event)
    requires Inv(v) && Next(v, e).Some?
    requires e.AllocFails? || e.InsertPromise? || e.SendFails? || e.EraseFailed? || e.TimeOut? || e.EraseTimedOut?
             || e.WakeUp?
    ensures Inv(Next(v, e).value)
  {
    hide RequestBytes, ReplyBytes, PeerOk, EndOk, Sendable, CallOk, Insert, EraseAndFail;
    var p := v.me.peer;
    assert PeerOk(p) by { EndPeerOk(v.me); }
    assert CallFaithful(v.me, v.you, e.c);
    match e
    case AllocFails(c) => FailOk(p, c); CallChangeKeepsInv(v, SetPhase(p, c, Returned), c);
    case InsertPromise(c) => InsertOk(p, c); InsertRuns(p, c); CallChangeKeepsInv(v, Insert(p, c), c);
    case SendFails(c) => SetPhaseOk(p, c, SendFailed); CallChangeKeepsInv(v, SetPhase(p, c, SendFailed), c);
    case EraseFailed(c) => EraseAndFailOk(p, c); EraseRuns(p, c); CallChangeKeepsInv(v, EraseAndFail(p, c), c);
    case TimeOut(c) => SetPhaseOk(p, c, TimedOut); CallChangeKeepsInv(v, SetPhase(p, c, TimedOut), c);
    case EraseTimedOut(c) => EraseAndFailOk(p, c); EraseRuns(p, c); CallChangeKeepsInv(v, EraseAndFail(p, c), c);
    case WakeUp(c) => WakeOk(p, c); CallChangeKeepsInv(v, Wake(p, c), c);
  }

  lemma EndPeerOk(p: End)
    requires EndOk(p)
    ensures PeerOk(p.peer)
  {
  }

  lemma InsertRuns(p: Peer, c: nat)
    requires c < |p.calls|
    ensures Insert(p, c).runs == p.runs
  {
  }

  lemma EraseRuns(p: Peer, c: nat)
    requires c < |p.calls|
    ensures EraseAndFail(p, c).runs == p.runs
  {
  }

  lemma StartKeepsInv(v: View, name: bytes, req: bytes)
    requires Inv(v) && Sendable(name, req) && |v.me.peer.calls| < ID_SPACE
    ensures Inv(Next(v, Start(name, req)).value)
  {
    hide RequestBytes, ReplyBytes, PeerOk, Sendable;
    var v' := Next(v, Start(name, req)).value;
    AllocateOk(v.me.peer, name, req);
    assert v.me.peer.nextId < ID_SPACE by { NextIdInRange(v.me.peer); }
    forall k | k in v'.you.inbox ensures RequestOk(v'.me, v'.you.inbox[k], RequestSent(k)) {
      assert RequestOk(v.me, v.you.inbox[k], RequestSent(k));
    }
    forall w | 0 <= w < |v'.you.workers| && v'.you.workers[w].Holding?
      ensures RequestOk(v'.me, v'.you.workers[w].packet, RequestTaken(w))
    {
      assert RequestOk(v.me, v.you.workers[w].packet, RequestTaken(w));
    }
    forall k | k in v'.me.inbox ensures ReplyOk(v'.me, v'.you, v'.me.inbox[k], ReplySent(k)) {
      assert ReplyOk(v.me, v.you, v.me.inbox[k], ReplySent(k));
    }
    forall w | 0 <= w < |v'.me.workers| && v'.me.workers[w].Holding?
      ensures ReplyOk(v'.me, v'.you, v'.me.workers[w].packet, ReplyTaken(w))
    {
      assert ReplyOk(v.me, v.you, v.me.workers[w].packet, ReplyTaken(w));
    }
    forall s | 0 <= s < |v'.you.peer.runs| ensures RunFaithful(v'.me, v'.you, s) {
      assert RunFaithful(v.me, v.you, s);
    }
    forall d | 0 <= d < |v'.me.peer.calls| ensures CallFaithful(v'.me, v'.you, d) {
      if d < |v.me.peer.calls| { assert CallFaithful(v.me, v.you, d); }
    }
    StartServerSide(v, v');
  }

  lemma NextIdInRange(p: Peer)
    requires PeerOk(p)
    ensures p.nextId < ID_SPACE
  {
  }

  lemma StartServerSide(v: View, v': View)
    requires Dir(v.you, v.me)
    requires v'.you == v.you && v'.me == v.me.(peer := v'.me.peer, places := v'.me.places)
             && v'.me.peer.runs == v.me.peer.runs
    ensures Dir(v'.you, v'.me)
  {
    var mid := v.(me := v.me.(peer := v'.me.peer));
    ServerSideKept(v, mid);
    hide RequestBytes, ReplyBytes, Sendable;
    forall k | k in v'.you.inbox ensures ReplyOk(v'.you, v'.me, v'.you.inbox[k], ReplySent(k)) {
      assert ReplyOk(mid.you, mid.me, v.you.inbox[k], ReplySent(k));
    }
    forall r | 0 <= r < |v'.me.peer.runs| ensures RunFaithful(v'.you, v'.me, r) {
      assert RunFaithful(mid.you, mid.me, r);
    }
    forall c | 0 <= c < |v'.you.peer.calls| ensures CallFaithful(v'.you, v'.me, c) {
      assert CallFaithful(mid.you, mid.me, c);
    }
  }

  lemma SendKeepsInv(v: View, c: nat)
    requires Inv(v) && CallAt(v, c, Inserted)
    ensures Inv(Next(v, Send(c)).value)
  {
    hide RequestBytes, ReplyBytes, PeerOk, Sendable, Dir;
    SetPhaseOk(v.me.peer, c, Waiting);
    SendClientSide(v, c);
    SendServerSide(v, Next(v, Send(c)).value, c);
  }

  lemma SendClientSide(v: View, c: nat)
    requires Inv(v) && CallAt(v, c, Inserted)
    ensures Dir(Next(v, Send(c)).value.me, Next(v, Send(c)).value.you)
  {
    hide RequestBytes, ReplyBytes, PeerOk, Sendable, EndOk;
    var p := v.me.peer;
    var v' := Next(v, Send(c)).value;
    assert CallFaithful(v.me, v.you, c);
    assert v.me.places[c] == Nowhere;
    forall k | k in v'.you.inbox ensures RequestOk(v'.me, v'.you.inbox[k], RequestSent(k)) {
      if k != v.serial { assert RequestOk(v.me, v.you.inbox[k], RequestSent(k)); }
    }
    forall w | 0 <= w < |v'.you.workers| && v'.you.workers[w].Holding?
      ensures RequestOk(v'.me, v'.you.workers[w].packet, RequestTaken(w))
    {
      assert RequestOk(v.me, v.you.workers[w].packet, RequestTaken(w));
    }
    forall k | k in v'.me.inbox ensures ReplyOk(v'.me, v'.you, v'.me.inbox[k], ReplySent(k)) {
      assert ReplyOk(v.me, v.you, v.me.inbox[k], ReplySent(k));
    }
    forall w | 0 <= w < |v'.me.workers| && v'.me.workers[w].Holding?
      ensures ReplyOk(v'.me, v'.you, v'.me.workers[w].packet, ReplyTaken(w))
    {
      assert ReplyOk(v.me, v.you, v.me.workers[w].packet, ReplyTaken(w));
    }
    forall s | 0 <= s < |v'.you.peer.runs| ensures RunFaithful(v'.me, v'.you, s) {
      assert RunFaithful(v.me, v.you, s);
    }
    forall d | 0 <= d < |v'.me.peer.calls| ensures CallFaithful(v'.me, v'.you, d) {
      assert CallFaithful(v.me, v.you, d);
    }
  }

  lemma SendServerSide(v: View, v': View, c: nat)
    requires Dir(v.you, v.me)
    requires exists packet: Packet ::
               packet.origin == FromCall(c) && v'.you == v.you.(inbox := v.you.inbox[v.serial := packet])
    requires v'.me == v.me.(peer := v'.me.peer, places := v'.me.places) && v'.me.peer.runs == v.me.peer.runs
    ensures Dir(v'.you, v'.me)
  {
    StartServerSide(v, v'.(you := v.you));
    hide RequestBytes, ReplyBytes, Sendable;
    var mid := v'.(you := v.you);
    forall k | k in v'.you.inbox ensures ReplyOk(v'.you, v'.me, v'.you.inbox[k], ReplySent(k)) {
      if k != v.serial { assert ReplyOk(mid.you, mid.me, v.you.inbox[k], ReplySent(k)); }
    }
    forall k | k in v'.me.inbox ensures RequestOk(v'.you, v'.me.inbox[k], RequestSent(k)) {
      assert RequestOk(mid.you, mid.me.inbox[k], RequestSent(k));
    }
    forall r | 0 <= r < |v'.me.peer.runs| ensures RunFaithful(v'.you, v'.me, r) {
      assert RunFaithful(mid.you, mid.me, r);
    }
    forall d | 0 <= d < |v'.you.peer.calls| ensures CallFaithful(v'.you, v'.me, d) {
      assert CallFaithful(mid.you, mid.me, d);
    }
  }

  lemma RegisterKeepsInv(v: View, name: bytes)
    requires Inv(v)
    ensures Inv(Next(v, Register(name)).value)
  {
    hide RequestBytes, ReplyBytes, Sendable;
    var v' := Next(v, Register(name)).value;
    forall c | 0 <= c < |v'.me.peer.calls| ensures CallFaithful(v'.me, v'.you, c) { assert CallFaithful(v.me, v.you,
        c); }
    forall c | 0 <= c < |v'.me.peer.calls| ensures CallOk(v'.me.peer, c) { assert CallOk(v.me.peer, c); }
    forall s | 0 <= s < |v'.you.peer.runs| ensures RunFaithful(v'.me, v'.you, s) { assert RunFaithful(v.me, v.you, s); }
    forall k | k in v'.you.inbox ensures RequestOk(v'.me, v'.you.inbox[k], RequestSent(k)) {
      assert RequestOk(v.me, v.you.inbox[k], RequestSent(k));
    }
    forall k | k in v'.me.inbox ensures ReplyOk(v'.me, v'.you, v'.me.inbox[k], ReplySent(k)) {
      assert ReplyOk(v.me, v.you, v.me.inbox[k], ReplySent(k));
    }
    ServerSideKept(v, v');
  }

  // ---------- Steps of recv_cb and of the network ----------

  /** What is left of the messages of p's calls was there before. */
  predicate Fewer(p: End, q: End, p': End, q': End) {
    && p'.peer.calls == p.peer.calls && p'.places == p.places && q'.peer.runs == q.peer.runs
    && (forall k :: k in q'.inbox && q'.inbox[k].origin.FromCall? ==> k in q.inbox && q.inbox[k] == q'.inbox[k])
    && (forall k :: k in p'.inbox && p'.inbox[k].origin.FromRun? ==> k in p.inbox && p.inbox[k] == p'.inbox[k])
    && (forall w :: 0 <= w < |q'.workers| && q'.workers[w].Holding? && q'.workers[w].packet.origin.FromCall? ==>
          w < |q.workers| && q.workers[w] == q'.workers[w])
    && (forall w :: 0 <= w < |p'.workers| && p'.workers[w].Holding? && p'.workers[w].packet.origin.FromRun? ==>
          w < |p.workers| && p.workers[w] == p'.workers[w])
    && (forall w :: 0 <= w < |q'.workers| && q'.workers[w].Owing? ==> w < |q.workers| && q.workers[w] == q'.workers[w])
  }

  lemma FewerKeepsDir(p: End, q: End, p': End, q': End)
    requires Dir(p, q) && Fewer(p, q, p', q')
    ensures Dir(p', q')
  {
    hide RequestBytes, ReplyBytes, Sendable;
    forall k | k in q'.inbox ensures RequestOk(p', q'.inbox[k], RequestSent(k)) {
      if q'.inbox[k].origin.FromCall? { assert RequestOk(p, q.inbox[k], RequestSent(k)); }
    }
    forall k | k in p'.inbox ensures ReplyOk(p', q', p'.inbox[k], ReplySent(k)) {
      if p'.inbox[k].origin.FromRun? { assert ReplyOk(p, q, p.inbox[k], ReplySent(k)); }
    }
    forall r | 0 <= r < |q'.peer.runs| ensures RunFaithful(p', q', r) { assert RunFaithful(p, q, r); }
    forall c | 0 <= c < |p'.peer.calls| ensures CallFaithful(p', q', c) { assert CallFaithful(p, q, c); }
  }

  /** Moves the message of p's call c to another place; everything else about p's calls stays. */
  lemma MoveKeepsDir(p: End, q: End, p': End, q': End, c: nat, place: Place)
    requires Dir(p, q) && c < |p.places|
    requires p'.peer.calls == p.peer.calls && p'.places == p.places[c := place] && q'.peer.runs == q.peer.runs
    requires p.places[c] != Nowhere && (place != Gone ==> AfterHandling(p.places[c]) ==> AfterHandling(place))
    requires !p.places[c].Delivered? && !place.Delivered?
    requires forall k :: k in q'.inbox && q'.inbox[k].origin.FromCall? ==>
               (k in q.inbox && q.inbox[k] == q'.inbox[k] && p.places[c] != RequestSent(k))
    requires forall k :: k in p'.inbox && p'.inbox[k].origin.FromRun? ==>
               (k in p.inbox && p.inbox[k] == p'.inbox[k] && p.places[c] != ReplySent(k))
                   || ReplyOk(p', q', p'.inbox[k], ReplySent(k))
    requires forall w :: 0 <= w < |q'.workers| && q'.workers[w].Holding? && q'.workers[w].packet.origin.FromCall? ==>
               (w < |q.workers| && q.workers[w] == q'.workers[w] && p.places[c] != RequestTaken(w))
               || RequestOk(p', q'.workers[w].packet, RequestTaken(w))
    requires forall w :: 0 <= w < |p'.workers| && p'.workers[w].Holding? && p'.workers[w].packet.origin.FromRun? ==>
               (w < |p.workers| && p.workers[w] == p'.workers[w] && p.places[c] != ReplyTaken(w))
               || ReplyOk(p', q', p'.workers[w].packet, ReplyTaken(w))
    requires forall w :: 0 <= w < |q'.workers| && q'.workers[w].Owing? ==>
               w < |q.workers| && q.workers[w] == q'.workers[w] && p.places[c] != ReplyOwed(w)
    ensures Dir(p', q')
  {
    hide RequestBytes, ReplyBytes, Sendable;
    forall k | k in q'.inbox ensures RequestOk(p', q'.inbox[k], RequestSent(k)) {
      if q'.inbox[k].origin.FromCall? { assert RequestOk(p, q.inbox[k], RequestSent(k)); }
    }
    forall k | k in p'.inbox ensures ReplyOk(p', q', p'.inbox[k], ReplySent(k)) {
      if k in p.inbox && p.inbox[k] == p'.inbox[k] { assert ReplyOk(p, q, p.inbox[k], ReplySent(k)); }
    }
    forall w | 0 <= w < |q'.workers|
        && q'.workers[w].Holding? ensures RequestOk(p', q'.workers[w].packet, RequestTaken(w)) {
      if w < |q.workers| && q.workers[w] == q'.workers[w] {
        assert RequestOk(p, q.workers[w].packet, RequestTaken(w));
      }
    }
    forall w | 0 <= w < |p'.workers|
        && p'.workers[w].Holding? ensures ReplyOk(p', q', p'.workers[w].packet, ReplyTaken(w)) {
      if w < |p.workers| && p.workers[w] == p'.workers[w] {
        assert ReplyOk(p, q, p.workers[w].packet, ReplyTaken(w));
      }
    }
    forall r | 0 <= r < |q'.peer.runs| ensures RunFaithful(p', q', r) { assert RunFaithful(p, q, r); }
    forall d | 0 <= d < |p'.peer.calls| ensures CallFaithful(p', q', d) { assert CallFaithful(p, q, d); }
  }

  lemma DeliverKeepsInv(v: View, w: nat, k: nat)
    requires Inv(v) && Next(v, Deliver(w, k)).Some?
    ensures Inv(Next(v, Deliver(w, k)).value)
  {
    hide RequestBytes, ReplyBytes, PeerOk, Sendable, Dir;
    var v' := Next(v, Deliver(w, k)).value;
    var packet := v.me.inbox[k];
    InboxItem(v.me, v.you, k);
    match packet.origin
    case FromCall(c) =>
      FewerKeepsDir(v.me, v.you, v'.me, v'.you);
      MoveKeepsDir(v.you, v.me, v'.you, v'.me, c, RequestTaken(w));
    case FromRun(r) =>
      FewerKeepsDir(v.you, v.me, v'.you, v'.me);
      MoveKeepsDir(v.me, v.you, v'.me, v'.you, v.you.peer.runs[r].call, ReplyTaken(w));
  }

  /** What the message under key k of p's inbox is: a request of q's, or a reply to p's. */
  lemma InboxItem(p: End, q: End, k: nat)
    requires Dir(p, q) && Dir(q, p) && k in p.inbox
    ensures RequestOk(q, p.inbox[k], RequestSent(k)) && ReplyOk(p, q, p.inbox[k], ReplySent(k))
  {
  }

  lemma LoseKeepsInv(v: View, k: nat)
    requires Inv(v) && Next(v, Lose(k)).Some?
    ensures Inv(Next(v, Lose(k)).value)
  {
    hide RequestBytes, ReplyBytes, PeerOk, Sendable, Dir;
    var v' := Next(v, Lose(k)).value;
    var packet := v.me.inbox[k];
    InboxItem(v.me, v.you, k);
    match packet.origin
    case FromCall(c) =>
      FewerKeepsDir(v.me, v.you, v'.me, v'.you);
      MoveKeepsDir(v.you, v.me, v'.you, v'.me, c, Gone);
    case FromRun(r) =>
      FewerKeepsDir(v.you, v.me, v'.you, v'.me);
      MoveKeepsDir(v.me, v.you, v'.me, v'.you, v.you.peer.runs[r].call, Gone);
  }

  lemma UnhandledKeepsInv(v: View, w: nat)
    requires Inv(v) && Next(v, Unhandled(w)).Some?
    ensures Inv(Next(v, Unhandled(w)).value)
  {
    hide RequestBytes, ReplyBytes, PeerOk, Sendable, Dir, Held;
    HeldMessage(v, w);
    var v' := Next(v, Unhandled(w)).value;
    var c := v.me.workers[w].packet.origin.call;
    PlacesMatch(v.you, v.me);
    FewerKeepsDir(v.me, v.you, v'.me, v'.you);
    MoveKeepsDir(v.you, v.me, v'.you, v'.me, c, Gone);
  }

  lemma PlacesMatch(p: End, q: End)
    requires Dir(p, q)
    ensures |p.places| == |p.peer.calls|
  {
  }

  lemma OwedReply(p: End, q: End, w: nat)
    requires Dir(p, q) && w < |q.workers| && q.workers[w].Owing?
    ensures var r := q.workers[w].run;
            r < |q.peer.runs| && RunFaithful(p, q, r) && p.places[q.peer.runs[r].call] == ReplyOwed(w)
  {
  }

  lemma ReplyKeepsInv(v: View, w: nat)
    requires Inv(v) && Next(v, Reply(w)).Some?
    ensures Inv(Next(v, Reply(w)).value)
  {
    hide RequestBytes, ReplyBytes, PeerOk, Sendable, Dir;
    var v' := Next(v, Reply(w)).value;
    OwedReply(v.you, v.me, w);
    FewerKeepsDir(v.me, v.you, v'.me, v'.you);
    MoveKeepsDir(v.you, v.me, v'.you, v'.me, v.me.peer.runs[v.me.workers[w].run].call, ReplySent(v.serial));
  }

  lemma ReplyFailsKeepsInv(v: View, w: nat)
    requires Inv(v) && Next(v, ReplyFails(w)).Some?
    ensures Inv(Next(v, ReplyFails(w)).value)
  {
    hide RequestBytes, ReplyBytes, PeerOk, Sendable, Dir;
    var v' := Next(v, ReplyFails(w)).value;
    OwedReply(v.you, v.me, w);
    FewerKeepsDir(v.me, v.you, v'.me, v'.you);
    MoveKeepsDir(v.you, v.me, v'.you, v'.me, v.me.peer.runs[v.me.workers[w].run].call, Gone);
  }

  lemma RearmKeepsInv(v: View, w: nat)
    requires Inv(v) && Next(v, Rearm(w)).Some?
    ensures Inv(Next(v, Rearm(w)).value)
  {
    hide RequestBytes, ReplyBytes, PeerOk, Sendable, Dir;
    var v' := Next(v, Rearm(w)).value;
    FewerKeepsDir(v.me, v.you, v'.me, v'.you);
    FewerKeepsDir(v.you, v.me, v'.you, v'.me);
  }

  /** A handler run: the call's message is now the reply owed by worker w, and it had not been handled before. */
  lemma HandledDir(p: End, q: End, p': End, q': End, c: nat, w: nat, run: Run)
    requires Dir(p, q) && w < |q.workers| && c < |p.places| && p.places[c] == RequestTaken(w)
    requires run.call == c && run.id == p.peer.calls[c].id && run.name == p.peer.calls[c].name
             && run.req == p.peer.calls[c].req
    requires run.id < ID_SPACE && Sendable(run.name, run.resp)
    requires p' == p.(places := p.places[c := ReplyOwed(w)])
    requires q' == q.(peer := LogRun(q.peer, run), workers := q.workers[w := Owing(|q.peer.runs|)])
    ensures Dir(p', q')
  {
    hide RequestBytes, ReplyBytes, Sendable;
    forall k | k in q'.inbox ensures RequestOk(p', q'.inbox[k], RequestSent(k)) { assert RequestOk(p, q.inbox[k],
        RequestSent(k)); }
    forall k | k in p'.inbox ensures ReplyOk(p', q', p'.inbox[k], ReplySent(k)) { assert ReplyOk(p, q, p.inbox[k],
        ReplySent(k)); }
    forall x | 0 <= x < |q'.workers|
        && q'.workers[x].Holding? ensures RequestOk(p', q'.workers[x].packet, RequestTaken(x)) {
      assert RequestOk(p, q.workers[x].packet, RequestTaken(x));
    }
    forall x | 0 <= x < |p'.workers|
        && p'.workers[x].Holding? ensures ReplyOk(p', q', p'.workers[x].packet, ReplyTaken(x)) {
      assert ReplyOk(p, q, p.workers[x].packet, ReplyTaken(x));
    }
    forall r | 0 <= r < |q'.peer.runs| ensures RunFaithful(p', q', r)
        && (r < |q.peer.runs| ==> q.peer.runs[r].call != c) {
      if r < |q.peer.runs| { assert RunFaithful(p, q, r); }
    }
    forall d | 0 <= d < |p'.peer.calls| ensures CallFaithful(p', q', d) { assert CallFaithful(p, q, d); }
  }

  lemma HandleKeepsInv(v: View, w: nat, resp: bytes)
    requires Inv(v) && Next(v, Handle(w, resp)).Some?
    ensures Inv(Next(v, Handle(w, resp)).value)
  {
    hide RequestBytes, ReplyBytes, PeerOk, Sendable, Dir, Held;
    HeldMessage(v, w);
    var v' := Next(v, Handle(w, resp)).value;
    var c := v.me.workers[w].packet.origin.call;
    PlacesMatch(v.you, v.me);
    IdSmall(v.you, v.me, c);
    LogRunOk(v.me.peer, v'.me.peer.runs[|v.me.peer.runs|]);
    FewerKeepsDir(v.me, v.you, v'.me, v'.you);
    HandledDir(v.you, v.me, v'.you, v'.me, c, w, v'.me.peer.runs[|v.me.peer.runs|]);
  }

  lemma IdSmall(p: End, q: End, c: nat)
    requires Dir(p, q) && c < |p.peer.calls|
    ensures p.peer.calls[c].id < ID_SPACE
  {
    assert CallFaithful(p, q, c);
  }

  lemma LogRunOk(p: Peer, run: Run)
    requires PeerOk(p)
    ensures PeerOk(LogRun(p, run))
  {
    forall c | 0 <= c < |p.calls| ensures CallOk(LogRun(p, run), c) { assert CallOk(p, c); }
  }

  /** The reply held by worker w belongs to the one call whose promise is stored under its id, if any is. */
  lemma ReplyFindsItsCall(v: View, w: nat)
    requires Inv(v) && w < |v.me.workers| && v.me.workers[w].Holding? && v.me.workers[w].packet.origin.FromRun?
    ensures var r := v.me.workers[w].packet.origin.run;
            && r < |v.you.peer.runs| && v.you.peer.runs[r].call < |v.me.peer.calls|
            && var run := v.you.peer.runs[r];
            (run.id in v.me.peer.pending ==> v.me.peer.pending[run.id] == run.call)
  {
    hide RequestBytes, ReplyBytes, Receive, Sendable, Held;
    HeldMessage(v, w);
    var p := v.me.peer;
    var r := v.me.workers[w].packet.origin.run;
    var run := v.you.peer.runs[r];
    assert RunFaithful(v.me, v.you, r);
    if run.id in p.pending {
      var d := p.pending[run.id];
      assert CallOk(p, d) && CallOk(p, run.call);
      if d != run.call { IdsDiffer(p, d, run.call); }
    }
  }

  lemma MatchedDir(p: End, q: End, p': End, w: nat, c: nat, r: nat, id: nat)
    requires Dir(p, q) && w < |p.workers| && c < |p.places| && c < |p.peer.calls| && p.places[c] == ReplyTaken(w)
    requires r < |q.peer.runs| && q.peer.runs[r].call == c
    requires p'.peer.calls == p.peer.calls[c := p.peer.calls[c].(fut := Fulfilled(Some(q.peer.runs[r].resp), r))]
    requires p'.places == p.places[c := Delivered] && p'.inbox == p.inbox && p'.workers == p.workers[w := Finished]
    ensures Dir(p', q)
  {
    hide RequestBytes, ReplyBytes, Sendable;
    forall k | k in q.inbox ensures RequestOk(p', q.inbox[k], RequestSent(k)) { assert RequestOk(p, q.inbox[k],
        RequestSent(k)); }
    forall k | k in p'.inbox ensures ReplyOk(p', q, p'.inbox[k], ReplySent(k)) { assert ReplyOk(p, q, p.inbox[k],
        ReplySent(k)); }
    forall x | 0 <= x < |q.workers|
        && q.workers[x].Holding? ensures RequestOk(p', q.workers[x].packet, RequestTaken(x)) {
      assert RequestOk(p, q.workers[x].packet, RequestTaken(x));
    }
    forall x | 0 <= x < |p'.workers|
        && p'.workers[x].Holding? ensures ReplyOk(p', q, p'.workers[x].packet, ReplyTaken(x)) {
      assert ReplyOk(p, q, p.workers[x].packet, ReplyTaken(x));
    }
    forall s | 0 <= s < |q.peer.runs| ensures RunFaithful(p', q, s) { assert RunFaithful(p, q, s); }
    forall d | 0 <= d < |p'.peer.calls| ensures CallFaithful(p', q, d) { assert CallFaithful(p, q, d); }
  }

  lemma MatchKeepsInv(v: View, w: nat)
    requires Inv(v) && Next(v, Match(w)).Some?
    ensures Inv(Next(v, Match(w)).value)
  {
    hide RequestBytes, ReplyBytes, PeerOk, Sendable, Dir, Held;
    HeldMessage(v, w);
    ReplyFindsItsCall(v, w);
    var v' := Next(v, Match(w)).value;
    var p, r := v.me.peer, v.me.workers[w].packet.origin.run;
    var run := v.you.peer.runs[r];
    PlacesMatch(v.me, v.you);
    FulfilOk(p, run.id, Some(run.resp), r);
    FewerKeepsDir(v.you, v.me, v'.you, v'.me);
    if run.id in p.pending {
      MatchedDir(v.me, v.you, v'.me, w, run.call, r, run.id);
    } else {
      MoveKeepsDir(v.me, v.you, v'.me, v'.you, run.call, Gone);
    }
  }

  /** Peer-built messages are always verified and always of a known type. */
  lemma NothingRejected(v: View, w: nat)
    requires Inv(v)
    ensures Next(v, Reject(w)).None? && Next(v, Ignore(w)).None?
  {
    hide RequestBytes, ReplyBytes, PeerOk, Sendable, Dir, Held;
    if w < |v.me.workers| && v.me.workers[w].Holding? { HeldMessage(v, w); }
  }

  // ---------- Every run ----------

  lemma NextKeepsInv(v: View, e: Event)
    requires Inv(v) && Next(v, e).Some? && |Next(v, e).value.me.peer.calls| <= ID_SPACE
    ensures Inv(Next(v, e).value)
  {
    hide Next, Inv;
    match e
    case Start(name, req) => assert Sendable(name, req)
        && |v.me.peer.calls| < ID_SPACE by { StartEnabled(v, name, req); } StartKeepsInv(v, name, req);
    case Send(c) => SendEnabled(v, c); SendKeepsInv(v, c);
    case Register(name) => RegisterKeepsInv(v, name);
    case Deliver(w, k) => DeliverKeepsInv(v, w, k);
    case Reject(w) => NothingRejected(v, w);
    case Ignore(w) => NothingRejected(v, w);
    case Handle(w, resp) => HandleKeepsInv(v, w, resp);
    case Unhandled(w) => UnhandledKeepsInv(v, w);
    case Reply(w) => ReplyKeepsInv(v, w);
    case ReplyFails(w) => ReplyFailsKeepsInv(v, w);
    case Match(w) => MatchKeepsInv(v, w);
    case Rearm(w) => RearmKeepsInv(v, w);
    case Lose(k) => LoseKeepsInv(v, k);
    case _ => CallEventKeepsInv(v, e);
  }

  lemma StartEnabled(v: View, name: bytes, req: bytes)
    requires Next(v, Start(name, req)).Some? && |Next(v, Start(name, req)).value.me.peer.calls| <= ID_SPACE
    ensures Sendable(name, req) && |v.me.peer.calls| < ID_SPACE
  {
  }

  lemma SendEnabled(v: View, c: nat)
    requires Next(v, Send(c)).Some?
    ensures CallAt(v, c, Inserted)
  {
  }

  lemma SwapInv(v: View)
    requires Inv(v)
    ensures Inv(Swap(v))
  {
  }

  /** Neither side has used up its request ids. */
  predicate FewCalls(v: View) {
    |v.me.peer.calls| <= ID_SPACE && |v.you.peer.calls| <= ID_SPACE
  }

  lemma StepKeepsInv(v: View, side: Side, e: Event)
    requires Inv(v) && Step(v, side, e).Some? && FewCalls(Step(v, side, e).value)
    ensures Inv(Step(v, side, e).value)
  {
    hide Next, Inv;
    if side == Dialer {
      NextKeepsInv(v, e);
    } else {
      SwapInv(v);
      NextKeepsInv(Swap(v), e);
      SwapInv(Next(Swap(v), e).value);
    }
  }

  lemma NextCallsGrow(v: View, e: Event)
    requires Next(v, e).Some?
    ensures |v.me.peer.calls| <= |Next(v, e).value.me.peer.calls|
    ensures v.you.peer == Next(v, e).value.you.peer
    ensures |v.me.workers| == |Next(v, e).value.me.workers| && v.you.workers == Next(v, e).value.you.workers
  {
    hide Held, Receive, RequestBytes, ReplyBytes, Sendable;
  }

  lemma StepCallsGrow(v: View, side: Side, e: Event)
    requires Step(v, side, e).Some? && FewCalls(Step(v, side, e).value)
    ensures FewCalls(v)
    ensures |v.me.workers| == |Step(v, side, e).value.me.workers|
            && |v.you.workers| == |Step(v, side, e).value.you.workers|
  {
    hide Next;
    if side == Dialer { NextCallsGrow(v, e); } else { NextCallsGrow(Swap(v), e); }
  }

  lemma {:induction false} ReachableInv(m: nat, n: nat, events: seq<(Side, Event)>)
    requires Execute(Initial(m, n), events).Some? && FewCalls(Execute(Initial(m, n), events).value)
    ensures Inv(Execute(Initial(m, n), events).value)
    ensures |Execute(Initial(m, n), events).value.me.workers| == m
            && |Execute(Initial(m, n), events).value.you.workers| == n
    decreases |events|
  {
    hide Inv, Step;
    if events == [] {
      InitialInv(m, n);
    } else {
      var k := |events| - 1;
      var before := Execute(Initial(m, n), events[..k]).value;
      StepCallsGrow(before, events[k].0, events[k].1);
      ReachableInv(m, n, events[..k]);
      StepKeepsInv(before, events[k].0, events[k].1);
    }
  }

  /** The system as the given side sees it, after a run from the start. */
  function Seen(m: nat, n: nat, events: seq<(Side, Event)>, side: Side): Option<View> {
    var v := Execute(Initial(m, n), events);
    if v.None? then None else Some(if side == Dialer then v.value else Swap(v.value))
  }

  /** A state some run reaches, in which no peer has made more than 2^32 calls. */
  ghost predicate Reached(v: View, side: Side) {
    FewCalls(v) && exists m, n, events :: Seen(m, n, events, side) == Some(v)
  }

  lemma ReachedInv(v: View, side: Side)
    requires Reached(v, side)
    ensures Inv(v)
  {
    hide Inv, Execute, Initial;
    var m, n, events :| Seen(m, n, events, side) == Some(v);
    ReachableInv(m, n, events);
    SwapInv(Execute(Initial(m, n), events).value);
  }

  // ---------- What callers can rely on ----------

  /**
   Correlation: call_remote returns true with bytes d only if the other side's handler for
   that method ran on exactly this call's request and produced d, which is not empty.
   */
  lemma CallGetsItsOwnReply(v: View, side: Side, c: nat)
    requires Reached(v, side) && c < |v.me.peer.calls| && v.me.peer.calls[c].outcome.Succeeded?
    ensures var call := v.me.peer.calls[c];
            && call.outcome.data != []
            && exists r :: 0 <= r < |v.you.peer.runs|
                && v.you.peer.runs[r] == Run(call.id, call.name, call.req, call.outcome.data, c)
  {
    ReachedInv(v, side);
    assert CallOk(v.me.peer, c) && CallFaithful(v.me, v.you, c);
    var r := v.me.peer.calls[c].fut.byRun;
    assert RunFaithful(v.me, v.you, r);
    assert v.you.peer.runs[r].call == c;
  }

  /**
   Every handler run answers one call of the other side, with that call's own request, and no call is
   answered twice.
   */
  lemma HandlersRunAtMostOncePerCall(v: View, side: Side, r: nat, s: nat)
    requires Reached(v, side) && r < |v.you.peer.runs| && s < |v.you.peer.runs|
    ensures var run := v.you.peer.runs[r];
            && run.call < |v.me.peer.calls|
            && run.id == v.me.peer.calls[run.call].id && run.name == v.me.peer.calls[run.call].name
                && run.req == v.me.peer.calls[run.call].req
            && (v.you.peer.runs[s].call == run.call ==> r == s)
  {
    ReachedInv(v, side);
    assert RunFaithful(v.me, v.you, r);
  }

  lemma FulfilKeepsResolved(p: Peer, id: nat, value: Option<bytes>, byRun: nat, c: nat)
    requires PeerOk(p) && c < |p.calls| && !p.calls[c].fut.Empty?
    ensures c < |Fulfil(p, id, value, byRun).calls| && Fulfil(p, id, value, byRun).calls[c].fut == p.calls[c].fut
  {
    FulfilOk(p, id, value, byRun);
  }

  lemma CallEventKeepsResolved(v: View, e: Event, c: nat)
    requires NextCall(v, e).Some? && c < |v.me.peer.calls| && !v.me.peer.calls[c].fut.Empty?
    ensures c < |NextCall(v, e).value.me.peer.calls|
    ensures NextCall(v, e).value.me.peer.calls[c].fut == v.me.peer.calls[c].fut
  {
    hide RequestBytes, Sendable;
  }

  lemma ReceiveEventKeepsResolved(v: View, e: Event, c: nat)
    requires PeerOk(v.me.peer)
    requires NextReceive(v, e).Some? && c < |v.me.peer.calls| && !v.me.peer.calls[c].fut.Empty?
    ensures c < |NextReceive(v, e).value.me.peer.calls|
    ensures NextReceive(v, e).value.me.peer.calls[c].fut == v.me.peer.calls[c].fut
  {
    hide Held, ReplyBytes, Sendable, PeerOk, Fulfil;
    if e.Match? {
      var o := v.me.workers[e.w].packet.origin;
      FulfilKeepsResolved(v.me.peer, Held(v, e.w).msg.id, Held(v, e.w).msg.payload, if o.FromRun? then o.run else 0, c);
    }
  }

  /** Each promise is fulfilled at most once: no event changes a future that has been resolved. */
  lemma PromisesFulfilledOnce(v: View, side: Side, e: Event, c: nat)
    requires Reached(v, side) && Next(v, e).Some? && c < |v.me.peer.calls| && !v.me.peer.calls[c].fut.Empty?
    ensures c < |Next(v, e).value.me.peer.calls|
    ensures Next(v, e).value.me.peer.calls[c].fut == v.me.peer.calls[c].fut
  {
    hide NextCall, NextReceive, Dir, PeerOk;
    ReachedInv(v, side);
    if IsCallEvent(e) { CallEventKeepsResolved(v, e, c); } else { ReceiveEventKeepsResolved(v, e, c); }
  }

  /**
   A reply is discarded as unknown only if its call has already given up: also when it
   arrives between the failed wait and the erase, it still finds the promise.
   */
  lemma OnlyLateRepliesDiscarded(v: View, side: Side, w: nat)
    requires Reached(v, side) && Next(v, Match(w)).Some? && Held(v, w).msg.id !in v.me.peer.pending
    ensures exists c :: 0 <= c < |v.me.peer.calls| && v.me.peer.calls[c].id == Held(v, w).msg.id
                        && v.me.peer.calls[c].phase == Returned && v.me.peer.calls[c].outcome == Failed
  {
    hide RequestBytes, ReplyBytes, Sendable, Reached, Receive;
    ReachedInv(v, side);
    HeldMessage(v, w);
    var run := v.you.peer.runs[v.me.workers[w].packet.origin.run];
    assert RunFaithful(v.me, v.you, v.me.workers[w].packet.origin.run);
    assert CallOk(v.me.peer, run.call) && CallFaithful(v.me, v.you, run.call);
  }

  /** Once every call has returned, the table of pending requests is empty. */
  lemma TableEmptyAtRest(v: View, side: Side)
    requires Reached(v, side) && forall c :: 0 <= c < |v.me.peer.calls| ==> v.me.peer.calls[c].phase == Returned
    ensures v.me.peer.pending == map[]
  {
    var p := v.me.peer;
    ReachedInv(v, side);
    if p.pending != map[] {
      var id :| id in p.pending;
      PendingNotReturned(p, id);
      assert false;
    }
  }

  lemma PendingNotReturned(p: Peer, id: nat)
    requires PeerOk(p) && id in p.pending
    ensures p.pending[id] < |p.calls| && p.calls[p.pending[id]].phase != Returned
  {
    assert CallOk(p, p.pending[id]);
  }

  /** No worker is lost on peer-built traffic, and one that holds a message can always finish with it. */
  lemma NoWorkerIsLost(v: View, side: Side, w: nat)
    requires Reached(v, side) && w < |v.me.workers|
    ensures v.me.workers[w] != Lost
    ensures v.me.workers[w].Holding? ==>
              Next(v, Handle(w, [])).Some? || Next(v, Unhandled(w)).Some? || Next(v, Match(w)).Some?
    ensures v.me.workers[w].Owing? ==> Next(v, Reply(w)).Some? && Next(v, ReplyFails(w)).Some?
    ensures v.me.workers[w].Finished? ==> Next(v, Rearm(w)).Some?
  {
    hide Reached, PeerOk, Dir, NextCall, Held, Mark, Post, RequestBytes, ReplyBytes;
    ReachedInv(v, side);
    if v.me.workers[w].Holding? { HeldCanGoOn(v, w); }
    if v.me.workers[w].Owing? { OwedReply(v.you, v.me, w); }
  }

  lemma HeldCanGoOn(v: View, w: nat)
    requires Inv(v) && w < |v.me.workers| && v.me.workers[w].Holding?
    ensures Next(v, Handle(w, [])).Some? || Next(v, Unhandled(w)).Some? || Next(v, Match(w)).Some?
  {
    hide RequestBytes, ReplyBytes, Receive, Sendable, PeerOk, NextCall, Fulfil, LogRun, Mark, Post, Held;
    HeldMessage(v, w);
    if v.me.workers[w].packet.origin.FromCall? {
      var c := v.me.workers[w].packet.origin.call;
      assert CallFaithful(v.you, v.me, c);
      EmptyReplySendable(v.you.peer.calls[c].name, v.you.peer.calls[c].req);
    }
  }

  /** The pool of receive workers keeps its size over every run. */
  lemma PoolKeepsItsSize(m: nat, n: nat, events: seq<(Side, Event)>)
    requires Execute(Initial(m, n), events).Some? && FewCalls(Execute(Initial(m, n), events).value)
    ensures |Execute(Initial(m, n), events).value.me.workers| == m
            && |Execute(Initial(m, n), events).value.you.workers| == n
    ensures forall w :: 0 <= w < m ==> Execute(Initial(m, n), events).value.me.workers[w] != Lost
    ensures forall w :: 0 <= w < n ==> Execute(Initial(m, n), events).value.you.workers[w] != Lost
  {
    hide Execute, Initial, Dir, PeerOk;
    ReachableInv(m, n, events);
  }
}
