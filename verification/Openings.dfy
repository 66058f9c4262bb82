/**
 From the argument of `Open` to the request that the other end serves, over every run of the
 code, whatever IDs are opened; and what becomes of a request that cannot be served.
 */
module Openings {
  import opened Common
  import opened Streams
  import opened Sessions
  import opened Pairing
  import opened Protocol
  import opened SessionRuns
  import opened StreamIDs
  import opened Scenarios

  // ---- what no move changes ----

  /** What holds of every stream of a session with this buffer size. */
  predicate Fit(s: Stream, bufferSize: nat) {
    && |s.queue| <= bufferSize
    && (s.role == Acceptor ==> Acceptable(s.request))
    && s.remoteExit == "" && (s.ack.Some? ==> s.ack.value.exitID == "")
  }

  predicate AllFit(ep: Endpoint) { forall h :: 0 <= h < |ep.streams| ==> Fit(ep.streams[h], ep.bufferSize) }

  /** The streams that `Open` made ask for what the call of their opening asked for. */
  predicate AsCalled(streams: seq<Stream>, numbers: seq<nat>, calls: seq<OpenRequest>) {
    && |numbers| == |streams|
    && forall h :: 0 <= h < |streams| && streams[h].role == Opener ==>
         numbers[h] < |calls| && Asks(calls[numbers[h]], streams[h].request)
  }

  /** No acknowledgement on the wire names an exit. */
  predicate Anonymous(wire: seq<Msg>) { forall m :: m in wire && m.OpenAck? ==> m.ack.exitID == "" }

  predicate Kept(w: World) {
    && AllFit(w.local) && AllFit(w.remote) && Anonymous(w.out) && Anonymous(w.inn)
    && |w.past.calls| == |w.past.ids|
    && AsCalled(w.local.streams, w.past.mine, w.past.calls) && AsCalled(w.remote.streams, w.past.yours, w.past.calls)
  }

  /** One stream changes, and neither its role nor its request. */
  lemma PutKeeps(ep: Endpoint, h: nat, s: Stream, ep': Endpoint, numbers: seq<nat>, calls: seq<OpenRequest>)
    requires AllFit(ep) && AsCalled(ep.streams, numbers, calls) && h < |ep.streams|
    requires Fit(s, ep.bufferSize) && s.role == ep.streams[h].role && s.request == ep.streams[h].request
    requires ep'.streams == ep.streams[h := s] && ep'.bufferSize == ep.bufferSize
    ensures AllFit(ep') && AsCalled(ep'.streams, numbers, calls)
  {
  }

  lemma ActKeeps(s: Stream, sessionClosed: bool, act: Act, bufferSize: nat)
    requires CanAct(s, sessionClosed, act) && Fit(s, bufferSize)
    ensures Fit(After(s, act), bufferSize) && After(s, act).role == s.role && After(s, act).request == s.request
    ensures Anonymous(Written(s, act))
  {
  }

  lemma {:induction false} AtKeeps(w: World, h: nat, act: Act)
    requires Kept(w) && Raw(w, Do(At(h, act)))
    ensures Kept(Next(w, Do(At(h, act))))
  {
    ActKeeps(w.local.streams[h], w.local.closed, act, w.local.bufferSize);
    PutKeeps(w.local, h, After(w.local.streams[h], act), Acted(w.local, h, act), w.past.mine, w.past.calls);
  }

  lemma {:induction false} OpenKeeps(w: World, request: OpenRequest)
    requires Kept(w) && Raw(w, Do(OpenCall(request)))
    ensures Kept(Next(w, Do(OpenCall(request))))
  {
    var s, n := OpenedStream(w.local, request), |w.past.ids|;
    OpenAsks(w.local, request);
    LatestAppend(w.past.ids, s.id, s.id);
    assert Next(w, Do(OpenCall(request))).past
        == Past(w.past.ids + [s.id], w.past.mine + [n], w.past.yours, w.past.calls + [request]);
  }

  lemma TakenFits(ep: Endpoint, h: nat, m: Msg)
    requires AllFit(ep) && Lookup(ep, m.id) == Some(h) && CanReceive(ep, m) && Anonymous([m])
    ensures var s := Taken(ep.streams[h], m);
            Fit(s, ep.bufferSize) && s.role == ep.streams[h].role && s.request == ep.streams[h].request
  {
    assert m in [m];
  }

  lemma {:induction false} TakeHeldKeeps(w: World, h: nat)
    requires Kept(w) && Raw(w, Take) && !w.inn[0].Open? && !w.inn[0].Control? && Lookup(w.local, w.inn[0].id) == Some(h)
    ensures Kept(Next(w, Take))
  {
    ReceiveAsPut(w.local, w.inn[0], h);
    TakenFits(w.local, h, w.inn[0]);
    PutKeeps(w.local, h, Taken(w.local.streams[h], w.inn[0]),
             Put(w.local, h, Taken(w.local.streams[h], w.inn[0])), w.past.mine, w.past.calls);
  }

  lemma {:induction false} TakeOpenKeeps(w: World)
    requires Kept(w) && Raw(w, Take) && w.inn[0].Open?
    ensures Kept(Next(w, Take))
  {
    DecodeKeeps(w.inn[0].id, w.inn[0].request);
  }

  lemma {:induction false} MoveKeeps(w: World, mv: Move)
    requires Kept(w) && Raw(w, mv)
    ensures Kept(Next(w, mv))
  {
    match mv
    case Do(At(h, act)) => AtKeeps(w, h, act);
    case Do(OpenCall(request)) => OpenKeeps(w, request);
    case Take =>
      var m := w.inn[0];
      if m.Open? {
        TakeOpenKeeps(w);
      } else if !m.Control? && Lookup(w.local, m.id).Some? {
        TakeHeldKeeps(w, Lookup(w.local, m.id).value);
      }
    case _ =>
  }

  lemma FlipKeeps(w: World)
    requires Kept(w)
    ensures Kept(Flip(w))
  {
  }

  lemma {:induction false} RunKeeps(w: World, ls: seq<Label>)
    requires Kept(w) && RawLegal(w, ls)
    ensures Kept(RawRun(w, ls))
    decreases |ls|
  {
    if ls != [] {
      match ls[0] {
        case Near(mv) => MoveKeeps(w, mv);
        case Far(mv) =>
          FlipKeeps(w);
          MoveKeeps(Flip(w), mv);
          FlipKeeps(Next(Flip(w), mv));
      }
      RunKeeps(RawTo(w, ls[0]), ls[1..]);
    }
  }

  /** After every run, every stream that `Open` registered asks for what its caller asked for. */
  lemma {:induction false} RequestIsTheCallers(a: nat, b: nat, ls: seq<Label>, h: nat)
    requires RawLegal(Start(a, b), ls) && h < |RawRun(Start(a, b), ls).local.streams|
    requires RawRun(Start(a, b), ls).local.streams[h].role == Opener
    ensures var w := RawRun(Start(a, b), ls);
            h < |w.past.mine| && w.past.mine[h] < |w.past.calls| && Asks(w.past.calls[w.past.mine[h]], w.local.streams[h].request)
  {
    RunKeeps(Start(a, b), ls);
  }

  /** After every run, no stream has more chunks queued than the channel holds: `deliver` waits. */
  lemma {:induction false} QueuesAreBounded(a: nat, b: nat, ls: seq<Label>, h: nat)
    requires RawLegal(Start(a, b), ls) && h < |RawRun(Start(a, b), ls).local.streams|
    ensures |RawRun(Start(a, b), ls).local.streams[h].queue| <= a
  {
    RunKeeps(Start(a, b), ls);
    BufferStays(Start(a, b), ls);
  }

  lemma DoKeepsBuffer(ep: Endpoint, a: Action)
    requires Enabled(ep, a)
    ensures Apply(ep, a).ep.bufferSize == ep.bufferSize
  {
  }

  lemma TakeKeepsBuffer(ep: Endpoint, m: Msg)
    ensures Receive(ep, m).ep.bufferSize == ep.bufferSize
  {
  }

  lemma {:induction false} MoveKeepsBuffer(w: World, mv: Move)
    requires Raw(w, mv)
    ensures Next(w, mv).local.bufferSize == w.local.bufferSize && Next(w, mv).remote == w.remote
  {
    match mv
    case Do(a) => DoKeepsBuffer(w.local, a);
    case Take => TakeKeepsBuffer(w.local, w.inn[0]);
    case SendControl(_, _) =>
  }

  lemma {:induction false} BufferStays(w: World, ls: seq<Label>)
    requires RawLegal(w, ls)
    ensures RawRun(w, ls).local.bufferSize == w.local.bufferSize
    decreases |ls|
  {
    if ls != [] {
      match ls[0] {
        case Near(mv) => MoveKeepsBuffer(w, mv);
        case Far(mv) => MoveKeepsBuffer(Flip(w), mv);
      }
      BufferStays(RawTo(w, ls[0]), ls[1..]);
    }
  }

  /** After every run, `ExitID` of every stream is the empty string: an acceptor answers with its own, which is never set. */
  lemma {:induction false} ExitIsNeverNamed(a: nat, b: nat, ls: seq<Label>, h: nat)
    requires RawLegal(Start(a, b), ls) && h < |RawRun(Start(a, b), ls).local.streams|
    ensures RawRun(Start(a, b), ls).local.streams[h].remoteExit == ""
  {
    RunKeeps(Start(a, b), ls);
  }

  // ---- what an opened stream is for ----

  lemma {:induction false} ReachableKept(w: World)
    requires Reachable(w)
    ensures Kept(w)
  {
    var a: nat, b: nat, ls :| Legal(Start(a, b), ls) && Run(Start(a, b), ls) == w;
    LegalIsRaw(Start(a, b), ls);
    RunKeeps(Start(a, b), ls);
  }

  /**
   A stream that `Open` returned has a peer with its ID, on which `Accept` wrote a positive
   acknowledgement, and whose request asks for what the caller of `Open` asked for. So only
   acceptable calls return a stream.
   */
  lemma {:induction false} OpenIsAnswered(w: World, h: nat)
    requires Reachable(w) && h < |w.local.streams|
    requires w.local.streams[h].role == Opener && w.local.streams[h].phase == Live
    ensures h < |w.past.mine| && w.past.mine[h] < |w.past.calls| && Acceptable(w.past.calls[w.past.mine[h]])
    ensures exists k: nat :: Ends(w, h, k) && w.remote.streams[k].role == Acceptor && w.remote.streams[k].accepted
                        && w.remote.streams[k].id == w.local.streams[h].id == w.remote.streams[k].request.requestID
                        && Asks(w.past.calls[w.past.mine[h]], w.remote.streams[k].request)
  {
    ReachableInv(w);
    ReachableKept(w);
    FindAt(w.local.streams, w.past.mine, h);
    assert PairAt(w, w.past.mine[h]);
    var k := Partner(w, h);
    EndsRelated(w, h, k);
  }

  // ---- what is refused ----

  /** A first stream has been registered. */
  lemma {:induction false} OpenStarts(request: OpenRequest) returns (w: World)
    ensures Reachable(w) && w.inn == w.out == [] && w.remote == NewEndpoint(32)
    ensures w.local == Register(NewEndpoint(32).(nextID := 1), OpenedStream(NewEndpoint(32), request))
  {
    Begin();
    ReachableStep(Start(32, 32), Near(Do(OpenCall(request))));
    w := StepTo(Start(32, 32), Near(Do(OpenCall(request))));
  }

  /** ... and its Open frame is on its way. */
  lemma {:induction false} OpenSent(request: OpenRequest) returns (w: World)
    ensures Reachable(w) && w.inn == [] && w.remote == NewEndpoint(32)
    ensures var s := OpenedStream(NewEndpoint(32), request);
            w.out == [Open(s.id, s.request)] && w.local == Register(NewEndpoint(32).(nextID := 1), s.(phase := Waiting))
  {
    var w1 := OpenStarts(request);
    Stay(w1);
    w := NearAct(w1, w1, 0, OpenWrite);
    LeadsLegal(w1, w);
  }

  /** It is answered by an Error frame with the reason, and nothing is registered for it. */
  lemma {:induction false} RefusalComesBack(request: OpenRequest, e: string) returns (w: World)
    requires DecodeOpen(OpenID(NewEndpoint(32), request), FillRequest(request, 1)) == Err(e)
    ensures Reachable(w) && w.out == [] && w.remote == NewEndpoint(32)
    ensures var s := OpenedStream(NewEndpoint(32), request);
            w.inn == [Error(s.id, "invalid open request: " + e)] && w.local == Register(NewEndpoint(32).(nextID := 1), s.(phase := Waiting))
  {
    var w1 := OpenSent(request);
    ReachableStep(w1, Far(Take));
    w := StepTo(w1, Far(Take));
  }

  /** The Error frame closes the stream, and `Open` returns with the reason that the other end gave. */
  lemma {:induction false} RefusedOpenFails(request: OpenRequest) returns (w: World, e: string)
    requires !Acceptable(request)
    ensures Reachable(w) && w.remote.streams == [] && w.out == w.inn == [] && !w.local.closed && !w.remote.closed
    ensures |w.local.streams| == 1 && w.local.table == map[]
    ensures DecodeOpen(OpenID(NewEndpoint(32), request), request) == Err(e)
    ensures var s := w.local.streams[0];
            s.phase == Failed && s.doneClosed && s.readErr == s.writeErr == Some("invalid open request: " + e)
  {
    DecodeKeeps(OpenID(NewEndpoint(32), request), request);
    e := DecodeOpen(OpenID(NewEndpoint(32), request), request).error;
    var w1 := RefusalComesBack(request, e);
    ReachableStep(w1, Near(Take));
    var w2 := StepTo(w1, Near(Take));
    w := GivesUp(w2);
  }

  /** A stream that has been cleared, the only one: the rest of its `forceClose`. */
  lemma {:induction false} ForceEnds(w0: World, w: World) returns (w': World)
    requires Leads(w0, w) && |w.local.streams| == 1 && w.local.table == map[w.local.streams[0].id := 0]
    requires w.local.streams[0].closing == Cleared
    ensures Leads(w0, w') && w' == w.(local := w.local.(streams := [w.local.streams[0].(closing := Done)], table := map[]))
  {
    var w1 := NearAct(w0, w, 0, ForceRemove);
    w' := NearAct(w0, w1, 0, ForceDone);
  }

  /** ... and of the `Open` that waits for its acknowledgement. */
  lemma {:induction false} GivesUp(w: World) returns (w': World)
    requires Reachable(w) && |w.local.streams| == 1 && w.local.table == map[w.local.streams[0].id := 0]
    requires w.local.streams[0].closing == Cleared && w.local.streams[0].phase == Waiting && w.local.streams[0].role == Opener
    ensures Reachable(w') && w' == w.(local := w.local.(streams := [w.local.streams[0].(closing := Done, phase := Failed)], table := map[]))
  {
    Stay(w);
    var w1 := ForceEnds(w, w);
    w' := NearAct(w, w1, 0, OpenGone);
    LeadsLegal(w, w');
  }

  /**
   The frame that closes a session: one outside the session's own types with no control handler set.
   Then the session has its error, and a forced close is due for every stream in the table.
   */
  lemma {:induction false} FrameClosesIff(w: World)
    requires Raw(w, Take) && !w.local.closed
    ensures var ep := Next(w, Take).local;
            && (ep.closed <==> w.inn[0].Control? && !w.local.hasControl)
            && (ep.closed ==>
                  && ep.err == Some("unexpected control frame") && ep.streams == w.local.streams && ep.table == w.local.table
                  && forall id :: id in ep.table ==> ep.table[id] in ep.pending)
  {
  }

  /**
   Data for a stream that this end no longer has: the bytes are lost, and the writer is told by a
   Close frame, which ends what it can still read, if it still has the stream.
   */
  lemma {:induction false} StrayDataIsAnswered(w: World, k: nat)
    requires w.out == [] && |w.inn| == 1 && w.inn[0].Data? && Lookup(w.local, w.inn[0].id) == None && !w.local.closed
    requires Lookup(w.remote, w.inn[0].id) == Some(k)
    ensures CanRaw(w, Near(Take)) && CanRaw(RawTo(w, Near(Take)), Far(Take))
    ensures var z := RawTo(RawTo(w, Near(Take)), Far(Take));
            && z == w.(inn := [], remote := z.remote)
            && z.remote == Put(w.remote, k, RemoteClose(w.remote.streams[k])) && z.remote.streams[k].remoteEOF
  {
    var w1 := RawTo(w, Near(Take));
    assert w1 == w.(inn := [], out := [Close(w.inn[0].id)]);
  }
}
