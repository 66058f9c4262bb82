/**
 The session theorems ask that an ID is opened again only once it is reusable. That holds by
 construction where one end opens and lets the session number its streams (a client's session).
 It fails where requests arrive with their IDs already set, as the server's `forwardOpen` passes
 them on: two clients number their streams alike, and the exit's session then mixes them up.
 */
module StreamIDs {
  import opened Common
  import opened Streams
  import opened Sessions
  import opened Pairing
  import opened Protocol
  import opened SessionRuns

  // ---- runs in which any ID may be opened ----

  predicate CanRaw(w: World, l: Label) {
    match l
    case Near(mv) => Raw(w, mv)
    case Far(mv) => Raw(Flip(w), mv)
  }

  function RawTo(w: World, l: Label): World
    requires CanRaw(w, l)
  {
    match l
    case Near(mv) => Next(w, mv)
    case Far(mv) => Flip(Next(Flip(w), mv))
  }

  predicate RawLegal(w: World, ls: seq<Label>)
    decreases |ls|
  {
    ls == [] || (CanRaw(w, ls[0]) && RawLegal(RawTo(w, ls[0]), ls[1..]))
  }

  function RawRun(w: World, ls: seq<Label>): World
    requires RawLegal(w, ls)
    decreases |ls|
  {
    if ls == [] then w else RawRun(RawTo(w, ls[0]), ls[1..])
  }

  // ---- numbered by the session ----

  /** The far end never opens, and the near end leaves the ID to the session. */
  predicate Numbered(l: Label) {
    match l
    case Near(mv) => mv.Do? && mv.action.OpenCall? ==> mv.action.request.requestID == 0
    case Far(mv) => !(mv.Do? && mv.action.OpenCall?)
  }

  ghost predicate NumberedInv(w: World) {
    && Inv(w)
    && (forall s :: s in w.local.streams ==> s.role == Opener)
    && (forall s :: s in w.remote.streams ==> s.role == Acceptor)
    && Injective(w.past.ids) && (forall n :: 0 <= n < |w.past.ids| ==> w.past.ids[n] <= w.local.nextID)
  }

  lemma {:induction false} NextIDIsUnused(w: World)
    requires NumberedInv(w)
    ensures w.local.nextID + 1 !in w.past.ids && Reusable(w, w.local.nextID + 1)
  {
  }

  lemma InjectiveIsCurrent(ids: seq<nat>, n: nat)
    requires Injective(ids) && n < |ids|
    ensures Current(ids, n)
  {
    LatestOf(ids, ids[n]);
  }

  lemma DoAdds(ep: Endpoint, a: Action)
    requires Enabled(ep, a)
    ensures if a.OpenCall? then Apply(ep, a).ep.streams == ep.streams + [OpenedStream(ep, a.request)]
            else |Apply(ep, a).ep.streams| == |ep.streams|
  {
  }

  lemma TakeAdds(ep: Endpoint, m: Msg)
    ensures var streams := Receive(ep, m).ep.streams;
            || |streams| == |ep.streams|
            || (m.Open? && |streams| == |ep.streams| + 1 && streams[|ep.streams|].role == Acceptor)
  {
  }

  /** Which streams a move of one end can add; the others keep their ID and role. */
  lemma {:induction false} MoveAdds(w: World, mv: Move, s: Stream)
    requires Inv(w) && Raw(w, mv) && s in Next(w, mv).local.streams
    ensures || (exists t :: t in w.local.streams && t.id == s.id && t.role == s.role)
            || (mv.Do? && mv.action.OpenCall? && s == OpenedStream(w.local, mv.action.request))
            || (mv.Take? && w.inn[0].Open? && s.role == Acceptor)
  {
    var streams, streams' := w.local.streams, Next(w, mv).local.streams;
    match mv {
      case Do(a) =>
        DoGrows(w, a);
        DoAdds(w.local, a);
      case Take =>
        TakeGrows(w);
        TakeAdds(w.local, w.inn[0]);
      case SendControl(_, _) =>
    }
    var h :| 0 <= h < |streams'| && streams'[h] == s;
    if h < |streams| {
      assert streams[h] in streams;
    }
  }

  /** What a move of one end does to the history. */
  lemma PastStays(w: World, mv: Move)
    requires Raw(w, mv)
    ensures Next(w, mv).remote == w.remote
    ensures var opens := mv.Do? && mv.action.OpenCall?;
            && Next(w, mv).past.ids == w.past.ids + (if opens then [OpenID(w.local, mv.action.request)] else [])
            && Next(w, mv).local.nextID == w.local.nextID + (if opens then 1 else 0)
  {
  }

  lemma {:induction false} NumberedIsPossible(w: World, mv: Move)
    requires NumberedInv(w) && Raw(w, mv) && Numbered(Near(mv))
    ensures Possible(w, mv)
  {
    NextIDIsUnused(w);
    if mv.Do? && mv.action.At? {
      InjectiveIsCurrent(w.past.ids, w.past.mine[mv.action.h]);
    }
  }

  lemma {:induction false} NumberedNear(w: World, mv: Move)
    requires NumberedInv(w) && Raw(w, mv) && Numbered(Near(mv))
    ensures NumberedInv(Next(w, mv))
  {
    NumberedIsPossible(w, mv);
    NextKeepsInv(w, mv);
    NextIDIsUnused(w);
    NoOpenArrives(w);
    PastStays(w, mv);
    forall s | s in Next(w, mv).local.streams ensures s.role == Opener {
      MoveAdds(w, mv, s);
    }
  }

  lemma {:induction false} NumberedFar(w: World, mv: Move)
    requires NumberedInv(w) && Raw(Flip(w), mv) && Numbered(Far(mv))
    ensures Possible(Flip(w), mv) && NumberedInv(Flip(Next(Flip(w), mv)))
  {
    FlipInv(w);
    if mv.Do? && mv.action.At? {
      InjectiveIsCurrent(w.past.ids, w.past.yours[mv.action.h]);
    }
    NextKeepsInv(Flip(w), mv);
    FlipInv(Next(Flip(w), mv));
    PastStays(Flip(w), mv);
    forall s | s in Next(Flip(w), mv).local.streams ensures s.role == Acceptor {
      MoveAdds(Flip(w), mv, s);
    }
  }

  lemma {:induction false} NumberedStep(w: World, l: Label)
    requires NumberedInv(w) && CanRaw(w, l) && Numbered(l)
    ensures CanStep(w, l)
    ensures NumberedInv(RawTo(w, l))
  {
    match l
    case Near(mv) =>
      NumberedIsPossible(w, mv);
      NumberedNear(w, mv);
    case Far(mv) => NumberedFar(w, mv);
  }

  lemma {:induction false} NoOpenArrives(w: World)
    requires NumberedInv(w)
    ensures w.inn != [] ==> !w.inn[0].Open?
  {
    if w.inn != [] && w.inn[0].Open? {
      OpenIsFirst(w);
      assert false;
    }
  }

  lemma {:induction false} NumberedRun(w: World, ls: seq<Label>)
    requires NumberedInv(w) && RawLegal(w, ls) && forall l :: l in ls ==> Numbered(l)
    ensures Legal(w, ls) && Run(w, ls) == RawRun(w, ls)
    decreases |ls|
  {
    if ls != [] {
      NumberedStep(w, ls[0]);
      NumberedRun(RawTo(w, ls[0]), ls[1..]);
    }
  }

  /** A session whose IDs come from its own counter needs no assumption: every raw run is covered. */
  lemma {:induction false} NumberedSessionsAreCovered(localBuffer: nat, remoteBuffer: nat, ls: seq<Label>)
    requires RawLegal(Start(localBuffer, remoteBuffer), ls) && forall l :: l in ls ==> Numbered(l)
    ensures Reachable(RawRun(Start(localBuffer, remoteBuffer), ls))
  {
    StartInv(localBuffer, remoteBuffer);
    NumberedRun(Start(localBuffer, remoteBuffer), ls);
  }

  // ---- shared IDs ----

  /** The table leads to every stream that no `removeStream` has run for. */
  predicate Complete(ep: Endpoint) { forall h :: 0 <= h < |ep.streams| && Held(ep.streams[h]) ==> InTable(ep, h) }

  /**
   Registering a stream keeps the table complete if and only if its ID is not in the table. That says
   nothing of frames in flight: see `Reusable` for what a session needs, and module Misuse.
   */
  lemma RegisterKeepsTableIff(ep: Endpoint, s: Stream)
    requires TableExact(ep) && Complete(ep) && Held(s)
    ensures Complete(Register(ep, s)) <==> s.id !in ep.table
  {
    var ep' := Register(ep, s);
    assert ep'.streams[|ep.streams|] == s;
    forall h | 0 <= h < |ep.streams| ensures InTable(ep', h) <==> InTable(ep, h) && ep.streams[h].id != s.id {
      assert ep'.streams[h] == ep.streams[h];
    }
    if s.id in ep.table {
      assert InTable(ep, ep.table[s.id]);
      assert !InTable(ep', ep.table[s.id]);
    }
  }

  /** The table no longer leads to this stream. */
  predicate Lost(ep: Endpoint, h: nat) {
    && Keyed(ep)
    && h < |ep.streams| && (ep.streams[h].id in ep.table ==> ep.table[ep.streams[h].id] != h)
  }

  lemma RegisterLoses(ep: Endpoint, s: Stream, h: nat)
    requires Keyed(ep) && h < |ep.streams| && (ep.streams[h].id == s.id || Lost(ep, h))
    ensures Lost(Register(ep, s), h)
    ensures Register(ep, s).streams[h] == ep.streams[h]
  {
  }

  lemma PutLostKeeps(ep: Endpoint, k: nat, s: Stream, h: nat)
    requires Lost(ep, h) && k < |ep.streams| && s.id == ep.streams[k].id
    requires Received(s) == Received(ep.streams[k]) || k != h
    ensures Lost(Put(ep, k, s), h) && Lost(Put(Unlink(ep, k), k, s), h)
    ensures Received(ep.streams[k := s][h]) == Received(ep.streams[h])
  {
  }

  lemma {:induction false} ActKeepsReceived(s: Stream, sessionClosed: bool, act: Act)
    requires CanAct(s, sessionClosed, act)
    ensures Received(After(s, act)) == Received(s)
  {
    match act
    case PullChunk => PullConserves(s);
    case CopyOut(n) => CopyConserves(s, n);
    case ReadEOF =>
    case _ => ActKeepsRead(s, sessionClosed, act);
  }

  lemma ActKeepsID(s: Stream, act: Act)
    requires (act.PullChunk? ==> s.queue != []) && (act.OpenReturn? ==> s.ack.Some?)
    ensures After(s, act).id == s.id
  {
  }

  lemma {:induction false} ActLostKeeps(ep: Endpoint, a: Action, h: nat)
    requires Lost(ep, h) && Enabled(ep, a)
    ensures Lost(Apply(ep, a).ep, h)
    ensures Received(Apply(ep, a).ep.streams[h]) == Received(ep.streams[h])
  {
    match a
    case OpenCall(request) => RegisterLoses(ep.(nextID := ep.nextID + 1), OpenedStream(ep, request), h);
    case BeginShutdown(_) =>
    case SetControl =>
    case ShutdownTurn(_) =>
    case At(k, act) =>
      ActKeepsReceived(ep.streams[k], ep.closed, act);
      ActKeepsID(ep.streams[k], act);
      PutLostKeeps(ep, k, After(ep.streams[k], act), h);
  }

  lemma ReceiveAsPut(ep: Endpoint, m: Msg, k: nat)
    requires Lookup(ep, m.id) == Some(k) && !m.Open? && !m.Control?
    ensures || Receive(ep, m).ep == Put(ep, k, Taken(ep.streams[k], m))
            || Receive(ep, m).ep == ep.(crashed := true)
  {
    assert Put(ep, k, ep.streams[k]) == ep;
  }

  lemma {:induction false} ReceiveLostKeeps(ep: Endpoint, m: Msg, h: nat)
    requires Lost(ep, h)
    ensures Lost(Receive(ep, m).ep, h)
    ensures Received(Receive(ep, m).ep.streams[h]) == Received(ep.streams[h])
  {
    match m
    case Open(id, request) =>
      match DecodeOpen(id, request) {
        case Ok(r) => RegisterLoses(ep, NewStream(r.requestID, Acceptor, Live, r), h);
        case Err(_) =>
      }
    case Control(_, _, _) =>
    case _ =>
      match Lookup(ep, m.id) {
        case None =>
        case Some(k) =>
          ReceiveAsPut(ep, m, k);
          PutLostKeeps(ep, k, Taken(ep.streams[k], m), h);
      }
  }

  /** A stream whose ID was opened again receives not one byte more, in any continuation. */
  lemma {:induction false} LostStreamStarves(w: World, ls: seq<Label>, h: nat)
    requires RawLegal(w, ls) && Lost(w.local, h)
    ensures Lost(RawRun(w, ls).local, h)
    ensures Received(RawRun(w, ls).local.streams[h]) == Received(w.local.streams[h])
    decreases |ls|
  {
    if ls != [] {
      match ls[0] {
        case Near(Do(a)) => ActLostKeeps(w.local, a, h);
        case Near(Take) => ReceiveLostKeeps(w.local, w.inn[0], h);
        case Near(SendControl(_, _)) =>
        case Far(_) =>
      }
      LostStreamStarves(RawTo(w, ls[0]), ls[1..], h);
    }
  }
}
