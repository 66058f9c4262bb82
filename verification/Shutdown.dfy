/**
 The table and `shutdown`. What they guarantee is stated over every run of the code, whatever IDs
 are opened: `shutdown` force-closes the streams it finds in the table, and a stream can be missing
 there because a call is in between two of its steps, or because another stream has its ID.
 */
module Shutdown {
  import opened Common
  import opened Streams
  import opened Sessions
  import opened Pairing
  import opened Protocol
  import opened SessionRuns
  import opened StreamIDs
  import opened Scenarios

  // ---- every run keeps the table exact ----

  lemma {:induction false} DoKeepsTable(ep: Endpoint, a: Action)
    requires EpKept(ep) && Enabled(ep, a)
    ensures EpKept(Apply(ep, a).ep)
  {
    match a
    case OpenCall(request) =>
      SameTable(ep, ep.(nextID := ep.nextID + 1));
      RegisterKeepsEp(ep.(nextID := ep.nextID + 1), OpenedStream(ep, request));
    case BeginShutdown(err) => ShutKeepsEp(ep, err);
    case ShutdownTurn(h) => TurnKeepsEp(ep, h);
    case SetControl => SameTable(ep, ep.(hasControl := true));
    case At(h, act) => ActKeepsEp(ep, h, act);
  }

  lemma {:induction false} FrameKeepsTable(ep: Endpoint, m: Msg, h: nat)
    requires EpKept(ep) && Lookup(ep, m.id) == Some(h) && !m.Open? && !m.Control?
    ensures EpKept(Receive(ep, m).ep)
  {
    ReceiveAsPut(ep, m, h);
    SameTable(ep, ep.(crashed := true));
    TakenKeepsStream(ep.streams[h], m);
    TakenHolds(ep.streams[h], m);
    PutKeepsEp(ep, h, Taken(ep.streams[h], m));
  }

  lemma {:induction false} ReceiveKeepsTable(ep: Endpoint, m: Msg)
    requires EpKept(ep)
    ensures EpKept(Receive(ep, m).ep)
  {
    match m
    case Open(id, request) =>
      match DecodeOpen(id, request) {
        case Ok(r) =>
          if !ep.closed {
            RegisterKeepsEp(ep, NewStream(r.requestID, Acceptor, Live, r));
          }
        case Err(_) =>
      }
    case Control(_, _, _) => ShutKeepsEp(ep, "unexpected control frame");
    case _ =>
      if Lookup(ep, m.id).Some? {
        FrameKeepsTable(ep, m, Lookup(ep, m.id).value);
      }
  }

  lemma {:induction false} MoveKeepsTable(w: World, mv: Move)
    requires Raw(w, mv) && EpKept(w.local)
    ensures EpKept(Next(w, mv).local) && Next(w, mv).remote == w.remote
  {
    match mv
    case Do(a) => DoKeepsTable(w.local, a);
    case Take => ReceiveKeepsTable(w.local, w.inn[0]);
    case SendControl(_, _) =>
  }

  lemma {:induction false} RunKeepsTable(w: World, ls: seq<Label>)
    requires RawLegal(w, ls) && EpKept(w.local) && EpKept(w.remote)
    ensures EpKept(RawRun(w, ls).local) && EpKept(RawRun(w, ls).remote)
    decreases |ls|
  {
    if ls != [] {
      match ls[0] {
        case Near(mv) => MoveKeepsTable(w, mv);
        case Far(mv) => MoveKeepsTable(Flip(w), mv);
      }
      RunKeepsTable(RawTo(w, ls[0]), ls[1..]);
    }
  }

  /**
   A call is between the two steps that close a stream and take it out of the table: an `Open`
   that gave up has run `removeStream` before its `forceClose`, or a `forceClose` has run its
   locked block before its `removeStream`.
   */
  predicate Lagging(s: Stream) {
    if s.closed then s.phase != Failing && !s.unlinked else s.phase == Failing
  }

  /**
   After every run, the table leads to a stream if and only if no `removeStream` has run for it and
   no stream has been registered under its ID since. For the stream that has its ID, it tells
   whether that one is closed if and only if no call is in between.
   */
  lemma {:induction false} TableIsExact(a: nat, b: nat, ls: seq<Label>, h: nat)
    requires RawLegal(Start(a, b), ls) && h < |RawRun(Start(a, b), ls).local.streams|
    ensures var ep := RawRun(Start(a, b), ls).local;
            && (InTable(ep, h) <==> Held(ep.streams[h]) && Last(ep.streams, h))
            && (Last(ep.streams, h) ==> ((InTable(ep, h) <==> !ep.streams[h].closed) <==> !Lagging(ep.streams[h])))
            && (forall id :: id in ep.table ==> InTable(ep, ep.table[id]) && ep.streams[ep.table[id]].id == id)
  {
    RunKeepsTable(Start(a, b), ls);
    assert StreamOk(RawRun(Start(a, b), ls).local.streams[h]);
  }

  // ---- shutdown ----

  /** A call on this stream has run `removeStream` and the last close, that of `done`, is still to come. */
  predicate Between(s: Stream) { !s.doneClosed && (s.phase == Failing || s.unlinked) }

  predicate FullyClosed(s: Stream) {
    s.closed && s.doneClosed && s.readsClosed && s.readErr.Some? && s.writeErr.Some?
  }

  /** No `removeStream` has run for this stream, and another one has since been registered under its ID. */
  predicate Displaced(ep: Endpoint, h: nat) {
    h < |ep.streams| && Held(ep.streams[h]) && !Last(ep.streams, h)
  }

  lemma {:induction false} ShutEndpoint(ep: Endpoint, h: nat)
    requires EpKept(ep) && ep.closed && ep.pending == {} && h < |ep.streams|
    ensures ep.table == map[]
    ensures FullyClosed(ep.streams[h]) <==> !Between(ep.streams[h]) && !Displaced(ep, h)
    ensures !Displaced(ep, h) && ep.streams[h].phase != Failing ==> FullyClosed(ep.streams[h].(closing := Done))
  {
    assert ep.table.Keys == {};
    assert StreamOk(ep.streams[h]) && !InTable(ep, h);
  }

  /**
   After every run in which `shutdown` has force-closed the streams it found: the table is empty,
   and a stream ever registered is closed in full if and only if no call on it is between its
   `removeStream` and its last close and it has not been displaced by another stream of its ID. A
   `forceClose` in between has left nothing but `done` open.
   */
  lemma {:induction false} ShutdownIsTotalIff(a: nat, b: nat, ls: seq<Label>, h: nat)
    requires RawLegal(Start(a, b), ls)
    requires var ep := RawRun(Start(a, b), ls).local; ep.closed && ep.pending == {} && h < |ep.streams|
    ensures var ep := RawRun(Start(a, b), ls).local;
            && ep.table == map[]
            && (FullyClosed(ep.streams[h]) <==> !Between(ep.streams[h]) && !Displaced(ep, h))
            && (!Displaced(ep, h) && ep.streams[h].phase != Failing ==> FullyClosed(ep.streams[h].(closing := Done)))
  {
    RunKeepsTable(Start(a, b), ls);
    ShutEndpoint(RawRun(Start(a, b), ls).local, h);
  }

  /** Where IDs are opened again only once they are reusable, a displaced stream was finished and drained. */
  lemma {:induction false} DisplacedIsDrained(w: World, h: nat)
    requires Reachable(w) && Displaced(w.local, h)
    ensures Drained(w.local.streams[h])
  {
    ReachableInv(w);
    var k :| h < k < |w.local.streams| && w.local.streams[k].id == w.local.streams[h].id;
    LatestIsLargest(w.past.ids, w.past.mine[k]);
    assert StreamOk(w.local.streams[h]);
  }

  /** There, what `shutdown` leaves behind without any call on it is a stream with nothing left to do. */
  lemma {:induction false} ShutdownLeavesFinished(w: World, h: nat)
    requires Reachable(w) && w.local.closed && w.local.pending == {} && h < |w.local.streams|
    ensures FullyClosed(w.local.streams[h]) || Between(w.local.streams[h]) || Drained(w.local.streams[h])
  {
    ReachableInv(w);
    ShutEndpoint(w.local, h);
    if Displaced(w.local, h) {
      DisplacedIsDrained(w, h);
    }
  }

  // ---- the runs in which shutdown misses a stream ----

  /** A start on which the near end has just registered a stream for any request. */
  lemma {:induction false} OpenBegins(request: OpenRequest) returns (w: World)
    ensures Reachable(w) && !w.local.closed && w.local.table == map[OpenID(NewEndpoint(32), request) := 0]
    ensures w.local.streams == [OpenedStream(NewEndpoint(32), request)]
  {
    var w0 := Start(32, 32);
    assert Legal(w0, []) && Run(w0, []) == w0;
    w := NearStep(w0, OpenCall(request));
  }

  /** `Open` gives up, and `shutdown` runs before its `forceClose`: shutdown returns and the stream is not closed at all. */
  lemma {:induction false} ShutdownMissesOpen(request: OpenRequest, err: string) returns (w: World)
    ensures Reachable(w) && w.local.closed && w.local.pending == {} && |w.local.streams| == 1
    ensures var s := w.local.streams[0];
            Between(s) && !s.closed && !s.doneClosed && !s.readsClosed && s.readErr.None? && s.writeErr.None?
  {
    var w1 := OpenBegins(request);
    var w2 := NearStep(w1, At(0, OpenFail));
    w := NearStep(w2, BeginShutdown(err));
  }

  /** One step of a `forceClose`, which nobody else's convention stands in the way of. */
  lemma {:induction false} ForceStep(w: World, h: nat, act: Act) returns (w': World)
    requires Reachable(w) && h < |w.local.streams| && CanAct(w.local.streams[h], w.local.closed, act)
    requires act.ForceLock? || act.ForceRemove? || act.ForceDone?
    ensures Reachable(w') && w'.local == Acted(w.local, h, act)
    ensures w'.local.streams == w.local.streams[h := After(w.local.streams[h], act)]
  {
    w' := NearStep(w, At(h, act));
  }

  lemma AwayInSteps(ep: Endpoint, why: string)
    requires |ep.streams| == 1 && !ep.streams[0].closed && ep.table == map[ep.streams[0].id := 0]
    ensures Acted(Acted(ep, 0, ForceLock(why)), 0, ForceRemove)
         == ep.(streams := [Clear(ep.streams[0], why).(closing := Unlinked)], table := map[])
  {
  }

  /** A stream just registered is force-closed, up to the `removeStream`. */
  lemma {:induction false} ForcedAway(request: OpenRequest, why: string) returns (w: World)
    ensures Reachable(w) && !w.local.closed && w.local.table == map[]
    ensures w.local.streams == [Clear(OpenedStream(NewEndpoint(32), request), why).(closing := Unlinked)]
  {
    var w1 := OpenBegins(request);
    AwayInSteps(w1.local, why);
    var w2 := ForceStep(w1, 0, ForceLock(why));
    w := ForceStep(w2, 0, ForceRemove);
  }

  /** A `forceClose` is overtaken behind its `removeStream`: shutdown returns and `done` is still open. */
  lemma {:induction false} ShutdownMissesDone(request: OpenRequest, why: string, err: string) returns (w: World)
    ensures Reachable(w) && w.local.closed && w.local.pending == {} && |w.local.streams| == 1
    ensures var s := w.local.streams[0];
            Between(s) && s.closed && s.readsClosed && s.readErr == s.writeErr == Some(why) && !s.doneClosed
  {
    var w1 := ForcedAway(request, why);
    w := NearStep(w1, BeginShutdown(err));
  }

  /** The call in between needs nothing but its own steps to close the stream in full. */
  lemma {:induction false} CallFinishes(w: World, h: nat, err: string) returns (w': World)
    requires Reachable(w) && h < |w.local.streams| && Between(w.local.streams[h])
    ensures Reachable(w') && |w'.local.streams| == |w.local.streams| && FullyClosed(w'.local.streams[h])
    ensures forall k :: 0 <= k < |w.local.streams| && k != h ==> w'.local.streams[k] == w.local.streams[k]
    decreases !w.local.streams[h].closed, !w.local.streams[h].unlinked
  {
    ReachableInv(w);
    var s := w.local.streams[h];
    assert StreamOk(s);
    if s.unlinked {
      w' := ForceStep(w, h, ForceDone);
    } else if s.closed {
      var w1 := ForceStep(w, h, ForceRemove);
      w' := CallFinishes(w1, h, err);
    } else {
      var w1 := ForceStep(w, h, ForceLock(err));
      w' := CallFinishes(w1, h, err);
    }
  }

  /** The second stream of an endpoint is force-closed, and `shutdown` moves on from it. */
  lemma {:induction false} SecondIsClosed(w: World, err: string) returns (w': World)
    requires RawReachable(w) && |w.local.streams| == 2 && w.local.pending == {1} && !w.local.streams[1].closed
    ensures RawReachable(w') && w'.local.closed == w.local.closed && w'.local.pending == {}
    ensures |w'.local.streams| == 2 && w'.local.streams[0] == w.local.streams[0] && w'.local.streams[1].id == w.local.streams[1].id
  {
    Stay(w);
    var w1 := NearForced(w, w, 1, err);
    LeadsRaw(w, w1);
    RawStep(w1, Near(Do(ShutdownTurn(1))));
    w' := RawTo(w1, Near(Do(ShutdownTurn(1))));
  }

  lemma ShutOfOne(ep: Endpoint, err: string, id: nat, h: nat)
    requires !ep.closed && ep.table == map[id := h]
    ensures Shut(ep, err) == ep.(closed := true, err := Some(err), pending := {h})
  {
    assert (set x | x in ep.table :: ep.table[x]) == {h} by {
      assert ep.table[id] == h;
    }
  }

  /** A second stream is registered under the ID of the first, and `shutdown` takes its list. */
  lemma {:induction false} SecondIsFound(first: OpenRequest, second: OpenRequest, err: string) returns (w: World)
    requires Proper(first) && Proper(second) && first.requestID == second.requestID
    ensures RawReachable(w) && w.local.closed && w.local.pending == {1} && |w.local.streams| == 2
    ensures w.local.streams[0] == NewStream(first.requestID, Opener, Live, first)
    ensures w.local.streams[1] == NewStream(second.requestID, Opener, Registered, second)
  {
    var w1 := FirstStream(first);
    OpenRegisters(w1, second);
    RawStep(w1, Near(Do(OpenCall(second))));
    var w2 := Opens(w1, second, Registered);
    ShutOfOne(w2.local, err, second.requestID, 1);
    RawStep(w2, Near(Do(BeginShutdown(err))));
    w := RawTo(w2, Near(Do(BeginShutdown(err))));
  }

  /**
   Two requests carry one ID on one session. The first stream is in use when the second is
   registered, and `shutdown` returns with it open: nobody is in between, and a `Read` on it has
   nothing to return.
   */
  lemma {:induction false} ShutdownMissesDisplaced(first: OpenRequest, second: OpenRequest, err: string) returns (w: World)
    requires Proper(first) && Proper(second) && first.requestID == second.requestID
    ensures RawReachable(w) && w.local.closed && w.local.pending == {} && Displaced(w.local, 0)
    ensures var s := w.local.streams[0];
            && s.phase == Live && !s.closed && !s.doneClosed && !Between(s)
            && !CanAct(s, true, PullChunk) && !CanAct(s, true, ReadEOF) && (forall n :: !CanAct(s, true, CopyOut(n)))
  {
    var w1 := SecondIsFound(first, second, err);
    w := SecondIsClosed(w1, err);
  }

  // ---- an ID that is used again ----

  /** The first stream of a session is half-closed by both ends. */
  lemma {:induction false} BothHalfClose(r: OpenRequest) returns (w: World)
    requires Proper(r)
    ensures Reachable(w) && w.out == w.inn == [Close(r.requestID)]
    ensures !w.local.closed && !w.remote.closed && w.local.bufferSize == w.remote.bufferSize == 32
    ensures w.local.streams == [NewStream(r.requestID, Opener, Live, r).(localEOF := true)]
    ensures w.remote.streams == [After(NewStream(r.requestID, Acceptor, Live, r), Accept).(localEOF := true)]
    ensures Lookup(w.local, r.requestID) == Lookup(w.remote, r.requestID) == Some(0)
  {
    var w1 := FirstStream(r);
    Stay(w1);
    var w2 := NearAct(w1, w1, 0, CloseWrite);
    var w3 := NearAct(w1, w2, 0, CloseFrame);
    var w4 := FarAct(w1, w3, 0, CloseWrite);
    w := FarAct(w1, w4, 0, CloseFrame);
    LeadsLegal(w1, w);
  }

  lemma {:induction false} BothDrained(r: OpenRequest) returns (w: World)
    requires Proper(r)
    ensures Reachable(w) && Calm(w) && |w.local.streams| == |w.remote.streams| == 1
    ensures Drained(w.local.streams[0]) && Drained(w.remote.streams[0])
    ensures w.local.streams[0].id == w.remote.streams[0].id == r.requestID && Held(w.local.streams[0])
    ensures |w.past.mine| == |w.past.yours| == 1
  {
    var w1 := BothHalfClose(r);
    FarTakes(w1, r.requestID, 0);
    ReachableStep(w1, Far(Take));
    var w2 := StepTo(w1, Far(Take));
    NearTakes(w2, r.requestID, 0);
    ReachableStep(w2, Near(Take));
    w := StepTo(w2, Near(Take));
    ReachableInv(w);
  }

  lemma OpenedSecond(w: World, r: OpenRequest)
    requires |w.local.streams| == |w.remote.streams| == |w.past.mine| == |w.past.yours| == 1
    ensures var z := Opened(w, r);
            && z.local.streams == [w.local.streams[0], NewStream(r.requestID, Opener, Live, r)]
            && |z.remote.streams| == 2 && Ends(z, 1, 1)
  {
  }

  /**
   A stream that both ends have finished stays in the table, as the code never closes it. Its ID may
   be opened again all the same: within the conventions, the new stream displaces it.
   */
  lemma {:induction false} FinishedIDIsReused(r: OpenRequest) returns (w: World)
    requires Proper(r)
    ensures Reachable(w) && Calm(w) && |w.local.streams| == |w.remote.streams| == 2
    ensures w.local.streams[0].id == w.local.streams[1].id == r.requestID
    ensures Displaced(w.local, 0) && Drained(w.local.streams[0]) && MayWrite(w.local.streams[1]) && Ends(w, 1, 1)
  {
    var w1 := BothDrained(r);
    OpenExchangeLegal(w1, r);
    w := Opened(w1, r);
    OpenedSecond(w1, r);
  }
}
