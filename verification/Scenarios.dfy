/**
 Building blocks for concrete runs: a complete `Open` between two ends that are otherwise idle,
 a chunk that is written and queued, a stream that is force-closed to the end.
 */
module Scenarios {
  import opened Common
  import opened Streams
  import opened Sessions
  import opened Protocol
  import opened SessionRuns
  import opened StreamIDs

  ghost predicate RawReachable(w: World) {
    exists ls :: RawLegal(Start(32, 32), ls) && RawRun(Start(32, 32), ls) == w
  }

  /** Moves within the conventions lead from one world to another. */
  ghost predicate Leads(w0: World, w: World) {
    exists ls :: Legal(w0, ls) && Run(w0, ls) == w
  }

  lemma RawFirst(w: World, ls: seq<Label>, rest: seq<Label>)
    requires ls != [] && ls[1..] == rest && CanRaw(w, ls[0]) && RawLegal(RawTo(w, ls[0]), rest)
    ensures RawLegal(w, ls) && RawRun(w, ls) == RawRun(RawTo(w, ls[0]), rest)
  {
  }

  lemma {:induction false} RawConcat(w: World, a: seq<Label>, b: seq<Label>)
    requires RawLegal(w, a) && RawLegal(RawRun(w, a), b)
    ensures RawLegal(w, a + b) && RawRun(w, a + b) == RawRun(RawRun(w, a), b)
    decreases |a|
  {
    if a == [] {
      assert a + b == b;
    } else {
      RawConcat(RawTo(w, a[0]), a[1..], b);
      FirstOfConcat(a, b);
      RawFirst(w, a + b, a[1..] + b);
    }
  }

  lemma {:induction false} RawOne(w: World, l: Label)
    requires CanRaw(w, l)
    ensures RawLegal(w, [l]) && RawRun(w, [l]) == RawTo(w, l)
  {
    assert [l][1..] == [];
  }

  lemma {:induction false} RawStep(w: World, l: Label)
    requires RawReachable(w) && CanRaw(w, l)
    ensures RawReachable(RawTo(w, l))
  {
    var ls :| RawLegal(Start(32, 32), ls) && RawRun(Start(32, 32), ls) == w;
    RawOne(w, l);
    RawConcat(Start(32, 32), ls, [l]);
  }

  lemma {:induction false} Stay(w: World)
    ensures Leads(w, w)
  {
    assert Legal(w, []) && Run(w, []) == w;
  }

  lemma {:induction false} LeadOn(w0: World, w: World, l: Label)
    requires Leads(w0, w) && CanStep(w, l)
    ensures Leads(w0, StepTo(w, l))
  {
    var ls :| Legal(w0, ls) && Run(w0, ls) == w;
    RunOne(w, l);
    RunConcat(w0, ls, [l]);
  }

  lemma {:induction false} LegalIsRaw(w: World, ls: seq<Label>)
    requires Legal(w, ls)
    ensures RawLegal(w, ls) && RawRun(w, ls) == Run(w, ls)
    decreases |ls|
  {
    if ls != [] {
      LegalIsRaw(StepTo(w, ls[0]), ls[1..]);
    }
  }

  lemma {:induction false} LeadsRaw(w0: World, w: World)
    requires RawReachable(w0) && Leads(w0, w)
    ensures RawReachable(w)
  {
    var a :| RawLegal(Start(32, 32), a) && RawRun(Start(32, 32), a) == w0;
    var b :| Legal(w0, b) && Run(w0, b) == w;
    LegalIsRaw(w0, b);
    RawConcat(Start(32, 32), a, b);
  }

  lemma {:induction false} LeadsLegal(w0: World, w: World)
    requires Reachable(w0) && Leads(w0, w)
    ensures Reachable(w)
  {
    var a: nat, b: nat, us :| Legal(Start(a, b), us) && Run(Start(a, b), us) == w0;
    var vs :| Legal(w0, vs) && Run(w0, vs) == w;
    RunConcat(Start(a, b), us, vs);
  }

  // ---- opening a stream ----

  /** Both ends are up and nothing is in flight. */
  predicate Calm(w: World) {
    w.out == [] && w.inn == [] && !w.local.closed && !w.remote.closed && w.remote.bufferSize == w.local.bufferSize == 32
  }

  /** A request that already carries its ID and that the other end will accept. */
  predicate Proper(r: OpenRequest) {
    r.requestID != 0 && r.protocol == PROTOCOL_TCP && r.destination != "" && r.port != 0
  }

  /** The world once `Open` has registered a stream for the request, and where it then stands. */
  function Opens(w: World, r: OpenRequest, phase: Phase): World {
    w.(local := Register(w.local.(nextID := w.local.nextID + 1), NewStream(r.requestID, Opener, phase, r)),
       past := Past(w.past.ids + [r.requestID], w.past.mine + [|w.past.ids|], w.past.yours, w.past.calls + [r]))
  }

  lemma {:induction false} OpenRegisters(w: World, r: OpenRequest)
    requires Calm(w) && Proper(r)
    ensures CanRaw(w, Near(Do(OpenCall(r)))) && RawTo(w, Near(Do(OpenCall(r)))) == Opens(w, r, Registered)
  {
    assert FillRequest(r, w.local.nextID + 1) == r;
    LatestAppend(w.past.ids, r.requestID, r.requestID);
  }

  /** ... and its peer has registered the other end. */
  function Meets(w: World, r: OpenRequest, phase: Phase, accepted: bool): World {
    var o := Opens(w, r, phase);
    var p := NewStream(r.requestID, Acceptor, Live, r);
    o.(remote := Register(w.remote, if accepted then After(p, Accept) else p),
       past := o.past.(yours := w.past.yours + [|w.past.ids|]))
  }

  /** The world after a complete, accepted Open of a proper request in a calm world. */
  function Opened(w: World, r: OpenRequest): World { Meets(w, r, Live, true) }

  lemma {:induction false} OpenIsSent(w: World, r: OpenRequest)
    requires Calm(w) && Proper(r)
    ensures Leads(Opens(w, r, Registered), Opens(w, r, Waiting).(out := [Open(r.requestID, r)]))
  {
    var h, w1 := |w.local.streams|, Opens(w, r, Registered);
    Stay(w1);
    LeadOn(w1, w1, Near(Do(At(h, OpenWrite))));
    var w2 := StepTo(w1, Near(Do(At(h, OpenWrite))));
    assert w2.local.streams == w.local.streams + [NewStream(r.requestID, Opener, Waiting, r)];
    assert w2.out == [Open(r.requestID, r)];
    assert w2 == Opens(w, r, Waiting).(out := [Open(r.requestID, r)]);
  }

  lemma {:induction false} OpenIsTaken(w: World, r: OpenRequest)
    requires Calm(w) && Proper(r)
    ensures Leads(Opens(w, r, Registered), Meets(w, r, Waiting, false))
  {
    OpenIsSent(w, r);
    var w2 := Opens(w, r, Waiting).(out := [Open(r.requestID, r)]);
    assert DecodeOpen(r.requestID, r) == Ok(r);
    LatestAppend(w.past.ids, r.requestID, r.requestID);
    LeadOn(Opens(w, r, Registered), w2, Far(Take));
    assert StepTo(w2, Far(Take)) == Meets(w, r, Waiting, false);
  }

  lemma {:induction false} OpenIsAccepted(w: World, r: OpenRequest)
    requires Calm(w) && Proper(r)
    ensures Leads(Opens(w, r, Registered), Meets(w, r, Waiting, true).(inn := [OpenAck(r.requestID, Ack(true, "", ""))]))
  {
    var k, w3 := |w.remote.streams|, Meets(w, r, Waiting, false);
    OpenIsTaken(w, r);
    LeadOn(Opens(w, r, Registered), w3, Far(Do(At(k, Accept))));
    var w4 := StepTo(w3, Far(Do(At(k, Accept))));
    assert w4.remote.streams == w.remote.streams + [After(NewStream(r.requestID, Acceptor, Live, r), Accept)];
    assert w4 == Meets(w, r, Waiting, true).(inn := [OpenAck(r.requestID, Ack(true, "", ""))]);
  }

  lemma AckedStream(r: OpenRequest)
    ensures var s := NewStream(r.requestID, Opener, Waiting, r);
            After(s.(ack := Some(Ack(true, "", ""))), OpenReturn) == NewStream(r.requestID, Opener, Live, r)
  {
  }

  /** The acknowledgement waits in the opener's channel. */
  function Acked(w: World, r: OpenRequest): World {
    var z := Meets(w, r, Waiting, true);
    z.(local := z.local.(streams := w.local.streams + [NewStream(r.requestID, Opener, Waiting, r).(ack := Some(Ack(true, "", "")))]))
  }

  lemma {:induction false} AckArrives(w: World, r: OpenRequest)
    requires Calm(w) && Proper(r)
    ensures Leads(Opens(w, r, Registered), Acked(w, r))
  {
    OpenIsAccepted(w, r);
    var w4 := Meets(w, r, Waiting, true).(inn := [OpenAck(r.requestID, Ack(true, "", ""))]);
    LeadOn(Opens(w, r, Registered), w4, Near(Take));
    assert StepTo(w4, Near(Take)) == Acked(w, r);
  }

  lemma {:induction false} OpenReturns(w: World, r: OpenRequest)
    requires Calm(w) && Proper(r)
    ensures Leads(Opens(w, r, Registered), Opened(w, r))
  {
    AckArrives(w, r);
    var h, w5 := |w.local.streams|, Acked(w, r);
    LeadOn(Opens(w, r, Registered), w5, Near(Do(At(h, OpenReturn))));
    var w6 := StepTo(w5, Near(Do(At(h, OpenReturn))));
    AckedStream(r);
    assert w6.local.streams == w.local.streams + [NewStream(r.requestID, Opener, Live, r)];
    assert w6 == Opened(w, r);
  }

  /** Whatever has been opened before: the exchange is a run of the code. */
  lemma {:induction false} OpenExchange(w: World, r: OpenRequest)
    requires RawReachable(w) && Calm(w) && Proper(r)
    ensures RawReachable(Opened(w, r)) && Calm(Opened(w, r))
  {
    OpenRegisters(w, r);
    RawStep(w, Near(Do(OpenCall(r))));
    OpenReturns(w, r);
    LeadsRaw(Opens(w, r, Registered), Opened(w, r));
  }

  /** Under a reusable ID it is a run within the conventions. */
  lemma {:induction false} OpenExchangeLegal(w: World, r: OpenRequest)
    requires Reachable(w) && Calm(w) && Proper(r) && Reusable(w, r.requestID)
    ensures Reachable(Opened(w, r)) && Calm(Opened(w, r))
  {
    OpenRegisters(w, r);
    assert FillRequest(r, w.local.nextID + 1) == r;
    ReachableStep(w, Near(Do(OpenCall(r))));
    OpenReturns(w, r);
    LeadsLegal(Opens(w, r, Registered), Opened(w, r));
  }

  lemma {:induction false} Begin()
    ensures Reachable(Start(32, 32)) && RawReachable(Start(32, 32)) && Calm(Start(32, 32))
  {
    var w := Start(32, 32);
    assert Legal(w, []) && Run(w, []) == w;
    assert RawLegal(w, []) && RawRun(w, []) == w;
  }

  /** One stream, opened and accepted, in a session that has had no other. */
  lemma {:induction false} FirstStream(r: OpenRequest) returns (w: World)
    requires Proper(r)
    ensures Reachable(w) && RawReachable(w) && Calm(w) && w == Opened(Start(32, 32), r)
    ensures w.local.streams == [NewStream(r.requestID, Opener, Live, r)] && w.local.table == map[r.requestID := 0]
    ensures w.remote.streams == [After(NewStream(r.requestID, Acceptor, Live, r), Accept)] && w.remote.table == map[r.requestID := 0]
    ensures w.past == Past([r.requestID], [0], [0], [r])
  {
    Begin();
    OpenExchangeLegal(Start(32, 32), r);
    OpenExchange(Start(32, 32), r);
    w := Opened(Start(32, 32), r);
  }

  // ---- acts of the two ends ----

  lemma {:induction false} NearAct(w0: World, w: World, h: nat, act: Act) returns (w': World)
    requires Leads(w0, w) && h < |w.local.streams| && CanAct(w.local.streams[h], w.local.closed, act)
    requires Written(w.local.streams[h], act) != [] ==> !Quiet(w.local.streams[h])
    ensures Leads(w0, w') && w' == w.(local := Acted(w.local, h, act), out := w.out + Written(w.local.streams[h], act))
  {
    LeadOn(w0, w, Near(Do(At(h, act))));
    w' := StepTo(w, Near(Do(At(h, act))));
  }

  lemma {:induction false} FarAct(w0: World, w: World, k: nat, act: Act) returns (w': World)
    requires Leads(w0, w) && k < |w.remote.streams| && CanAct(w.remote.streams[k], w.remote.closed, act)
    requires Written(w.remote.streams[k], act) != [] ==> !Quiet(w.remote.streams[k])
    ensures Leads(w0, w') && w' == w.(remote := Acted(w.remote, k, act), inn := w.inn + Written(w.remote.streams[k], act))
  {
    LeadOn(w0, w, Far(Do(At(k, act))));
    w' := StepTo(w, Far(Do(At(k, act))));
    assert Flip(w).past.ids == w.past.ids;
  }

  lemma {:induction false} NearForced(w0: World, w: World, h: nat, err: string) returns (w': World)
    requires Leads(w0, w) && h < |w.local.streams| && !w.local.streams[h].closed
    ensures Leads(w0, w') && w' == w.(local := CloseStream(w.local, h, err))
  {
    var w1 := NearAct(w0, w, h, ForceLock(err));
    var w2 := NearAct(w0, w1, h, ForceRemove);
    w' := NearAct(w0, w2, h, ForceDone);
    CloseStreamInSteps(w.local, h, err);
  }

  lemma {:induction false} FarForced(w0: World, w: World, k: nat, err: string) returns (w': World)
    requires Leads(w0, w) && k < |w.remote.streams| && !w.remote.streams[k].closed
    ensures Leads(w0, w') && w' == w.(remote := CloseStream(w.remote, k, err))
  {
    var w1 := FarAct(w0, w, k, ForceLock(err));
    var w2 := FarAct(w0, w1, k, ForceRemove);
    w' := FarAct(w0, w2, k, ForceDone);
    CloseStreamInSteps(w.remote, k, err);
  }

  // ---- a Close frame arrives ----

  lemma {:induction false} FarTakes(w: World, id: nat, k: nat)
    requires w.out == [Close(id)] && Lookup(w.remote, id) == Some(k)
    ensures CanStep(w, Far(Take))
    ensures StepTo(w, Far(Take)) == w.(remote := Put(w.remote, k, RemoteClose(w.remote.streams[k])), out := [])
  {
    assert w.inn + [] == w.inn;
  }

  lemma {:induction false} NearTakes(w: World, id: nat, h: nat)
    requires w.inn == [Close(id)] && Lookup(w.local, id) == Some(h)
    ensures CanStep(w, Near(Take))
    ensures StepTo(w, Near(Take)) == w.(local := Put(w.local, h, RemoteClose(w.local.streams[h])), inn := [])
  {
    assert w.out + [] == w.out;
  }
}
