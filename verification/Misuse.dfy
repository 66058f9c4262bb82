/**
 What happens outside the conventions of the session theorems, as runs of the same model: two
 requests that carry one ID, an ID opened again too early, a Reject that comes too late, a Write
 after CloseWrite, and a delivery that meets a forced close.
 */
module Misuse {
  import opened Common
  import opened Streams
  import opened Sessions
  import opened Protocol
  import opened SessionRuns
  import opened StreamIDs
  import opened Scenarios

  // ---- two live streams with one ID ----

  /** One Write of near stream `h` is queued at far stream `k`, which the far table names. */
  lemma {:induction false} QueueChunk(w: World, h: nat, k: nat, data: seq<byte>) returns (w': World)
    requires RawReachable(w) && Calm(w) && h < |w.local.streams| && k < |w.remote.streams|
    requires MayWrite(w.local.streams[h]) && 0 < |data| <= MAX_DATA_SIZE
    requires Lookup(w.remote, w.local.streams[h].id) == Some(k)
    requires w.remote.streams[k].queue == [] && !w.remote.streams[k].readsClosed && !w.remote.streams[k].closed
    ensures RawReachable(w')
    ensures w'.local.streams == w.local.streams[h := Framed(w.local.streams[h], data)]
    ensures w'.remote.streams == w.remote.streams[k := w.remote.streams[k].(queue := [data])]
  {
    Stay(w);
    var w1 := NearAct(w, w, h, WriteChunk(data));
    assert w1.out == [Data(w.local.streams[h].id, data)];
    LeadOn(w, w1, Far(Take));
    w' := StepTo(w1, Far(Take));
    LeadsRaw(w, w');
    assert w.remote.streams[k].queue + [data] == [data];
  }

  function ReadBy(r: Stream, data: seq<byte>): Stream { r.(queue := [], ledger := r.ledger.(got := data)) }

  lemma ReadOneChunk(r: Stream, data: seq<byte>)
    requires r.queue == [data] && r.readBuf == [] && r.got == []
    ensures Copy(Pull(r), |data|) == ReadBy(r, data)
  {
    assert Pull(r) == r.(readBuf := data, queue := []);
  }

  /** The queued chunk is read. */
  lemma {:induction false} ReadOut(w: World, k: nat, data: seq<byte>) returns (w': World)
    requires RawReachable(w) && k < |w.remote.streams| && data != []
    requires var r := w.remote.streams[k]; r.phase == Live && !r.closed && r.queue == [data] && r.readBuf == [] && r.got == []
    ensures RawReachable(w') && w'.local == w.local
    ensures w'.remote.streams == w.remote.streams[k := ReadBy(w.remote.streams[k], data)]
  {
    ReadOneChunk(w.remote.streams[k], data);
    Stay(w);
    var w1 := FarAct(w, w, k, PullChunk);
    w' := FarAct(w, w1, k, CopyOut(|data|));
    LeadsRaw(w, w');
  }

  /**
   Any two proper requests that carry the same ID, and any chunk: there is a run in which the
   chunk written for the first request is read by the stream that serves the second one.
   */
  lemma {:induction false} SharedIDsCross(first: OpenRequest, second: OpenRequest, data: seq<byte>) returns (w: World)
    requires Proper(first) && Proper(second) && first.requestID == second.requestID
    requires 0 < |data| <= MAX_DATA_SIZE
    ensures RawReachable(w) && |w.local.streams| == |w.remote.streams| == 2
    ensures w.local.streams[0].request == first && w.local.streams[1].request == w.remote.streams[1].request == second
    ensures w.local.streams[0].sent == data && w.local.streams[1].sent == []
    ensures w.remote.streams[1].got == data
    ensures !(w.remote.streams[1].got <= w.local.streams[1].sent)
  {
    var w1 := FirstStream(first);
    OpenExchange(w1, second);
    var w2 := Opened(w1, second);
    var w3 := QueueChunk(w2, 0, 1, data);
    w := ReadOut(w3, 1, data);
  }

  // ---- an ID opened again too early ----

  /** Both ends of the first stream are force-closed to the end, with this chunk from the far end in flight. */
  lemma {:induction false} ClosedWithDataInFlight(r: OpenRequest, data: seq<byte>) returns (w: World)
    requires Proper(r) && 0 < |data| <= MAX_DATA_SIZE
    ensures Reachable(w) && RawReachable(w) && w.inn == [Data(r.requestID, data)] && w.out == []
    ensures |w.local.streams| == |w.remote.streams| == 1 && w.local.table == w.remote.table == map[]
    ensures forall s :: s in w.local.streams || s in w.remote.streams ==> Retired(s)
    ensures !w.local.closed && w.local.bufferSize == 32
  {
    var w1 := FirstStream(r);
    Stay(w1);
    var w2 := FarAct(w1, w1, 0, WriteChunk(data));
    var w3 := NearForced(w1, w2, 0, "closed");
    w := FarForced(w1, w3, 0, "closed");
    LeadsRaw(w1, w);
    LeadsLegal(w1, w);
  }

  lemma {:induction false} Reopened(w: World, r: OpenRequest) returns (w': World)
    requires RawReachable(w) && Proper(r) && !w.local.closed && |w.local.streams| == 1 && w.local.bufferSize == 32
    ensures RawReachable(w') && w'.remote == w.remote && w'.inn == w.inn
    ensures |w'.local.streams| == 2 && w'.local.streams[1] == NewStream(r.requestID, Opener, Registered, r)
    ensures Lookup(w'.local, r.requestID) == Some(1) && w'.local.bufferSize == 32
  {
    assert FillRequest(r, w.local.nextID + 1) == r;
    RawStep(w, Near(Do(OpenCall(r))));
    w' := RawTo(w, Near(Do(OpenCall(r))));
  }

  lemma DataIsQueued(ep: Endpoint, h: nat, data: seq<byte>)
    requires h < |ep.streams| && Lookup(ep, ep.streams[h].id) == Some(h) && data != []
    requires ep.streams[h].queue == [] && !ep.streams[h].readsClosed
    ensures Receive(ep, Data(ep.streams[h].id, data)) == Effect(Put(ep, h, ep.streams[h].(queue := [data])), [])
  {
    assert [] + [data] == [data];
  }

  lemma {:induction false} TakesOldData(w: World, data: seq<byte>) returns (z: World)
    requires RawReachable(w) && |w.local.streams| == 2 && data != []
    requires var s := w.local.streams[1]; s.queue == [] && !s.readsClosed && !s.closed
    requires w.inn == [Data(w.local.streams[1].id, data)] && Lookup(w.local, w.local.streams[1].id) == Some(1) && w.local.bufferSize == 32
    ensures RawReachable(z) && |z.local.streams| == 2 && z.remote == w.remote
    ensures z.local.streams[1] == w.local.streams[1].(queue := [data])
  {
    DataIsQueued(w.local, 1, data);
    RawStep(w, Near(Take));
    z := RawTo(w, Near(Take));
  }

  /**
   An ID that is in neither table, whose streams are all retired at both ends, but with a Data
   frame still in flight: opened again, the new stream is handed the old one's data, before the
   far end has even heard of it.
   */
  lemma {:induction false} StaleDataCrosses(r: OpenRequest, data: seq<byte>) returns (w: World, z: World)
    requires Proper(r) && 0 < |data| <= MAX_DATA_SIZE
    ensures Reachable(w) && r.requestID !in w.local.table && r.requestID !in w.remote.table
    ensures forall s :: s in w.local.streams || s in w.remote.streams ==> Retired(s)
    ensures RawReachable(z) && |z.local.streams| == 2 && z.remote == w.remote && |z.remote.streams| == 1
    ensures z.local.streams[1].request == r && z.local.streams[1].queue == [data]
  {
    w := ClosedWithDataInFlight(r, data);
    var w1 := Reopened(w, r);
    z := TakesOldData(w1, data);
  }

  // ---- a Reject that comes too late ----

  lemma {:induction false} ClosedAndCalm(r: OpenRequest) returns (w: World)
    requires Proper(r)
    ensures Reachable(w) && RawReachable(w) && Calm(w) && Reusable(w, r.requestID)
    ensures |w.local.streams| == |w.remote.streams| == 1 && w.remote.streams[0].role == Acceptor
    ensures w.remote.streams[0].id == r.requestID
  {
    var w1 := FirstStream(r);
    Stay(w1);
    var w2 := NearForced(w1, w1, 0, "closed");
    w := FarForced(w1, w2, 0, "closed");
    LeadsRaw(w1, w);
    LeadsLegal(w1, w);
  }

  lemma {:induction false} ReopenedAndSent(r: OpenRequest) returns (w: World)
    requires Proper(r)
    ensures Reachable(w) && RawReachable(w) && w.inn == [] && |w.local.streams| == 2 && |w.remote.streams| == 1
    ensures w.local.streams[1] == NewStream(r.requestID, Opener, Waiting, r) && Lookup(w.local, r.requestID) == Some(1)
    ensures w.remote.streams[0].role == Acceptor && w.remote.streams[0].id == r.requestID
  {
    var w0 := ClosedAndCalm(r);
    OpenRegisters(w0, r);
    assert FillRequest(r, w0.local.nextID + 1) == r;
    RawStep(w0, Near(Do(OpenCall(r))));
    ReachableStep(w0, Near(Do(OpenCall(r))));
    OpenIsSent(w0, r);
    w := Opens(w0, r, Waiting).(out := [Open(r.requestID, r)]);
    LeadsRaw(Opens(w0, r, Registered), w);
    LeadsLegal(Opens(w0, r, Registered), w);
  }

  /**
   The ID was reusable when it was opened again, but the handler of the old stream rejects it only
   then: the new `Open` takes that for its own answer, before its request has arrived.
   */
  lemma {:induction false} LateRejectCrosses(r: OpenRequest, message: string) returns (w: World, z: World)
    requires Proper(r)
    ensures Reachable(w) && |w.remote.streams| == 1
    ensures RawReachable(z) && z.remote.streams == w.remote.streams
    ensures |z.local.streams| == 2 && z.local.streams[1].request == r
    ensures z.local.streams[1].ack == Some(Ack(false, message, ""))
  {
    w := ReopenedAndSent(r);
    RawStep(w, Far(Do(At(0, Reject(message)))));
    var w1 := RawTo(w, Far(Do(At(0, Reject(message)))));
    assert w1.inn == [OpenAck(r.requestID, Ack(false, message, ""))] && w1.local == w.local;
    assert w1.remote.streams == w.remote.streams;
    RawStep(w1, Near(Take));
    z := RawTo(w1, Near(Take));
  }

  // ---- a Write after CloseWrite ----

  /** The tests `Write` makes before its loop: `localEOF` is not among them. */
  predicate WriteProceeds(s: Stream) { s.writeErr.None? && !s.closed }

  /** What one turn of the loop in `Write` does, whatever its caller has done before. */
  function Wrote(w: World, h: nat, data: seq<byte>): World
    requires h < |w.local.streams|
  {
    w.(local := Put(w.local, h, Framed(w.local.streams[h], data)), out := w.out + [Data(w.local.streams[h].id, data)])
  }

  lemma {:induction false} HalfClosed(r: OpenRequest) returns (w: World)
    requires Proper(r)
    ensures Reachable(w) && |w.local.streams| == |w.remote.streams| == 1 && w.out == [Close(r.requestID)]
    ensures w.local.streams[0].localEOF && w.local.streams[0].id == r.requestID && WriteProceeds(w.local.streams[0])
    ensures Lookup(w.remote, r.requestID) == Some(0) && !w.remote.streams[0].closed && w.remote.bufferSize == 32
    ensures w.remote.streams[0].queue == [] && !w.remote.streams[0].remoteEOF && w.remote.streams[0].id == r.requestID
  {
    var w1 := FirstStream(r);
    Stay(w1);
    var w2 := NearAct(w1, w1, 0, CloseWrite);
    w := NearAct(w1, w2, 0, CloseFrame);
    LeadsLegal(w1, w);
  }

  lemma CloseEndsChannel(ep: Endpoint, h: nat, data: seq<byte>)
    requires h < |ep.streams| && Lookup(ep, ep.streams[h].id) == Some(h) && data != []
    requires !ep.streams[h].remoteEOF && !ep.streams[h].closed
    ensures var ep' := Receive(ep, Close(ep.streams[h].id)).ep;
            && ep' == Put(ep, h, RemoteClose(ep.streams[h])) && !Exposed(ep', Data(ep.streams[h].id, data))
            && Receive(ep', Data(ep.streams[h].id, data)).ep.crashed
  {
  }

  /**
   From the start, for any request and any data: a stream is opened, accepted and half-closed,
   and its user writes once more. `Write` does not refuse, and the peer, having taken the Close
   frame, sends the data into the channel that this closed.
   */
  lemma {:induction false} WriteAfterCloseWritePanics(r: OpenRequest, data: seq<byte>) returns (w: World)
    requires Proper(r) && data != []
    ensures Reachable(w) && |w.local.streams| == 1 && w.local.streams[0].localEOF && WriteProceeds(w.local.streams[0])
    ensures CanRaw(Wrote(w, 0, data), Far(Take))
    ensures CanRaw(RawTo(Wrote(w, 0, data), Far(Take)), Far(Take))
    ensures RawTo(RawTo(Wrote(w, 0, data), Far(Take)), Far(Take)).remote.crashed
  {
    w := HalfClosed(r);
    var w1 := Wrote(w, 0, data);
    assert w1.out == [Close(r.requestID), Data(r.requestID, data)];
    var w2 := RawTo(w1, Far(Take));
    assert w2.out == [Data(r.requestID, data)];
    CloseEndsChannel(w.remote, 0, data);
  }

  // ---- a delivery that meets a forced close ----

  /**
   From the start, for any request and any data: data arrives for a stream whose `forceClose` has
   run its locked block and not yet its `removeStream`. `SessionRuns.NextFramePanicsIff` says
   that this is the only way.
   */
  lemma {:induction false} DeliveryInWindowPanics(r: OpenRequest, data: seq<byte>, err: string) returns (w: World)
    requires Proper(r) && 0 < |data| <= MAX_DATA_SIZE
    ensures Reachable(w) && w.out != [] && CanReceive(w.remote, w.out[0]) && Exposed(w.remote, w.out[0])
    ensures Receive(w.remote, w.out[0]).ep.crashed
  {
    var w1 := FirstStream(r);
    Stay(w1);
    var w2 := NearAct(w1, w1, 0, WriteChunk(data));
    w := FarAct(w1, w2, 0, ForceLock(err));
    LeadsLegal(w1, w);
  }
}
