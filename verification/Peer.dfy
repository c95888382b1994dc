/**
 One RPC peer (NngUdsRpcPeerDial and NngUdsRpcPeerListener are the same machine): its id
 counter, its calls and their promises, its table of pending requests, and the log of the
 handlers it has run. Each function here is one critical section of the source.
 */
module Peer {
  import opened Bytes
  import opened Wrappers

  const ID_SPACE: nat := 0x1_0000_0000

  /** A call's future. `byRun` remembers which handler run produced the value. */
  datatype Future = Empty | Fulfilled(value: Option<bytes>, byRun: nat) | Broken

  /** How far call_remote has come. */
  datatype Phase =
    | Allocated    // has an id, nothing sent, promise not yet in the table
    | Inserted     // promise in the table
    | SendFailed   // nng_sendmsg failed, entry not yet erased
    | Waiting      // sent, in wait_for
    | TimedOut     // wait_for failed, entry not yet erased
    | Returned

  datatype Outcome = Failed | Succeeded(data: bytes)

  datatype Call = Call(id: nat, name: bytes, req: bytes, phase: Phase, fut: Future, outcome: Outcome)

  /** One run of a registered handler, and the call (by index) whose request it served. */
  datatype Run = Run(id: nat, name: bytes, req: bytes, resp: bytes, call: nat)

  /** `pending` maps a request id to the index of the call whose promise is stored under it. */
  datatype Peer = Peer(nextId: nat, calls: seq<Call>, pending: map<nat, nat>, methods: set<bytes>, runs: seq<Run>)

  const NEW_PEER := Peer(1, [], map[], {}, [])

  // ---------- call_remote ----------

  /** generate_request_id: a wrapping 32-bit counter. */
  function Allocate(p: Peer, name: bytes, req: bytes): Peer {
    p.(nextId := (p.nextId + 1) % ID_SPACE,
       calls := p.calls + [Call(p.nextId, name, req, Allocated, Empty, Failed)])
  }

  function SetPhase(p: Peer, c: nat, phase: Phase): Peer
    requires c < |p.calls|
  {
    p.(calls := p.calls[c := p.calls[c].(phase := phase)])
  }

  /** The promise stored under `id` is destroyed: a future still waiting on it is broken. */
  function Abandon(p: Peer, id: nat): Peer {
    if id in p.pending && p.pending[id] < |p.calls| && p.calls[p.pending[id]].fut.Empty? then
      p.(calls := p.calls[p.pending[id] := p.calls[p.pending[id]].(fut := Broken)])
    else p
  }

  /** `pending_requests[id] = std::move(prom)`; an entry already there is overwritten. */
  function Insert(p: Peer, c: nat): (r: Peer)
    requires c < |p.calls|
    ensures |r.calls| == |p.calls|
  {
    var id := p.calls[c].id;
    var p1 := Abandon(p, id);
    SetPhase(p1.(pending := p1.pending[id := c]), c, Inserted)
  }

  /** `pending_requests.erase(id)` and the `return false` that follows it. */
  function EraseAndFail(p: Peer, c: nat): Peer
    requires c < |p.calls|
  {
    var id := p.calls[c].id;
    var p1 := Abandon(p, id);
    SetPhase(p1.(pending := p1.pending - {id}), c, Returned)
  }

  /** After wait_for succeeded: an absent or empty payload, and a broken promise, are failures. */
  function Result(fut: Future): Outcome {
    if fut.Fulfilled? && fut.value.Some? && fut.value.value != [] then Succeeded(fut.value.value) else Failed
  }

  function Wake(p: Peer, c: nat): Peer
    requires c < |p.calls|
  {
    p.(calls := p.calls[c := p.calls[c].(phase := Returned, outcome := Result(p.calls[c].fut))])
  }

  // ---------- recv_cb ----------

  /** The response branch: fulfil the promise stored under the id and erase it, or ignore the reply. */
  function Fulfil(p: Peer, id: nat, value: Option<bytes>, byRun: nat): Peer {
    if id !in p.pending || p.pending[id] >= |p.calls| then p
    else
      var c := p.pending[id];
      p.(calls := p.calls[c := p.calls[c].(fut := Fulfilled(value, byRun))], pending := p.pending - {id})
  }

  function LogRun(p: Peer, run: Run): Peer {
    p.(runs := p.runs + [run])
  }

  // ---------- What every peer keeps to itself ----------

  /** The entry of call c is in the table exactly while its promise is unfulfilled and the call has not returned. */
  predicate InTable(phase: Phase) {
    phase == Inserted || phase == SendFailed || phase == Waiting || phase == TimedOut
  }

  predicate CallOk(p: Peer, c: nat)
    requires c < |p.calls|
  {
    var call := p.calls[c];
    && call.id == (1 + c) % ID_SPACE
    && (InTable(call.phase) && call.fut.Empty? <==> call.id in p.pending && p.pending[call.id] == c)
    && (call.fut.Broken? ==> call.phase == Returned)
    && (call.phase == Allocated ==> call.fut.Empty?)
    && (call.outcome.Succeeded? ==> call.phase == Returned && Result(call.fut) == call.outcome)
  }

  /** Holds as long as ids have not been reused: at most 2^32 calls. */
  predicate PeerOk(p: Peer) {
    && |p.calls| <= ID_SPACE
    && p.nextId == (1 + |p.calls|) % ID_SPACE
    && (forall c :: 0 <= c < |p.calls| ==> CallOk(p, c))
    && (forall id :: id in p.pending ==> p.pending[id] < |p.calls| && p.calls[p.pending[id]].id == id)
  }

  lemma IdsDiffer(p: Peer, c: nat, d: nat)
    requires |p.calls| <= ID_SPACE && c < |p.calls| && d < |p.calls| && c != d
    requires p.calls[c].id == (1 + c) % ID_SPACE && p.calls[d].id == (1 + d) % ID_SPACE
    ensures p.calls[c].id != p.calls[d].id
  {
  }

  lemma AllocateOk(p: Peer, name: bytes, req: bytes)
    requires PeerOk(p) && |p.calls| < ID_SPACE
    ensures PeerOk(Allocate(p, name, req))
  {
    var r := Allocate(p, name, req);
    forall c | 0 <= c < |r.calls| ensures CallOk(r, c) {
      if c < |p.calls| { assert CallOk(p, c); }
    }
  }

  lemma SetPhaseOk(p: Peer, c: nat, phase: Phase)
    requires PeerOk(p) && c < |p.calls|
    requires InTable(p.calls[c].phase) && InTable(phase)
    ensures PeerOk(SetPhase(p, c, phase))
  {
    var r := SetPhase(p, c, phase);
    forall d | 0 <= d < |r.calls| ensures CallOk(r, d) { assert CallOk(p, d); }
  }

  lemma InsertOk(p: Peer, c: nat)
    requires PeerOk(p) && c < |p.calls| && p.calls[c].phase == Allocated
    ensures PeerOk(Insert(p, c))
    ensures Insert(p, c).calls == p.calls[c := p.calls[c].(phase := Inserted)]
  {
    assert CallOk(p, c);
    var id := p.calls[c].id;
    if id in p.pending {
      var d := p.pending[id];
      assert CallOk(p, d);
      if d != c { IdsDiffer(p, c, d); }
    }
    var r := Insert(p, c);
    forall d | 0 <= d < |r.calls| ensures CallOk(r, d) {
      assert CallOk(p, d);
      if d != c { IdsDiffer(p, c, d); }
    }
  }

  lemma EraseAndFailOk(p: Peer, c: nat)
    requires PeerOk(p) && c < |p.calls|
    requires p.calls[c].phase == SendFailed || p.calls[c].phase == TimedOut
    ensures PeerOk(EraseAndFail(p, c))
    ensures EraseAndFail(p, c).calls ==
            p.calls[c := p.calls[c].(phase := Returned,
                fut := if p.calls[c].fut.Empty? then Broken else p.calls[c].fut)]
  {
    assert CallOk(p, c);
    var id := p.calls[c].id;
    if id in p.pending {
      var d := p.pending[id];
      assert CallOk(p, d);
      if d != c { IdsDiffer(p, c, d); }
    }
    var r := EraseAndFail(p, c);
    forall d | 0 <= d < |r.calls| ensures CallOk(r, d) {
      assert CallOk(p, d);
      if d != c { IdsDiffer(p, c, d); }
    }
  }

  lemma FailOk(p: Peer, c: nat)
    requires PeerOk(p) && c < |p.calls| && p.calls[c].phase == Allocated
    ensures PeerOk(SetPhase(p, c, Returned))
  {
    var r := SetPhase(p, c, Returned);
    assert CallOk(p, c);
    forall d | 0 <= d < |r.calls| ensures CallOk(r, d) { assert CallOk(p, d); }
  }

  lemma WakeOk(p: Peer, c: nat)
    requires PeerOk(p) && c < |p.calls| && p.calls[c].phase == Waiting && !p.calls[c].fut.Empty?
    ensures PeerOk(Wake(p, c))
  {
    var r := Wake(p, c);
    assert CallOk(p, c);
    forall d | 0 <= d < |r.calls| ensures CallOk(r, d) { assert CallOk(p, d); }
  }

  lemma FulfilOk(p: Peer, id: nat, value: Option<bytes>, byRun: nat)
    requires PeerOk(p)
    ensures PeerOk(Fulfil(p, id, value, byRun))
    ensures id !in p.pending ==> Fulfil(p, id, value, byRun) == p
    ensures id in p.pending ==>
              p.pending[id] < |p.calls| && p.calls[p.pending[id]].id == id && p.calls[p.pending[id]].fut.Empty?
  {
    var r := Fulfil(p, id, value, byRun);
    if id in p.pending {
      var c := p.pending[id];
      assert CallOk(p, c);
      forall d | 0 <= d < |r.calls| ensures CallOk(r, d) {
        assert CallOk(p, d);
        if d != c { IdsDiffer(p, c, d); }
      }
    }
  }
}
