/**
 Whole runs of the two-endpoint session: any sequence of moves of either end. The theorems
 here are about every world such a run can reach.
 */
module SessionRuns {
  import opened Common
  import opened Streams
  import opened Sessions
  import opened Pairing
  import opened Protocol

  datatype Label = Near(mv: Move) | Far(mv: Move)

  predicate CanStep(w: World, l: Label) {
    match l
    case Near(mv) => Possible(w, mv)
    case Far(mv) => Possible(Flip(w), mv)
  }

  function StepTo(w: World, l: Label): World
    requires CanStep(w, l)
  {
    match l
    case Near(mv) => Next(w, mv)
    case Far(mv) => Flip(Next(Flip(w), mv))
  }

  predicate Legal(w: World, ls: seq<Label>)
    decreases |ls|
  {
    ls == [] || (CanStep(w, ls[0]) && Legal(StepTo(w, ls[0]), ls[1..]))
  }

  function Run(w: World, ls: seq<Label>): World
    requires Legal(w, ls)
    decreases |ls|
  {
    if ls == [] then w else Run(StepTo(w, ls[0]), ls[1..])
  }

  lemma {:induction false} StepKeepsInv(w: World, l: Label)
    requires Inv(w) && CanStep(w, l)
    ensures Inv(StepTo(w, l))
  {
    match l
    case Near(mv) => NextKeepsInv(w, mv);
    case Far(mv) =>
      FlipInv(w);
      NextKeepsInv(Flip(w), mv);
      FlipInv(Next(Flip(w), mv));
  }

  /** The invariant holds after every run. */
  lemma {:induction false} RunKeepsInv(w: World, ls: seq<Label>)
    requires Inv(w) && Legal(w, ls)
    ensures Inv(Run(w, ls))
    decreases |ls|
  {
    if ls != [] {
      StepKeepsInv(w, ls[0]);
      RunKeepsInv(StepTo(w, ls[0]), ls[1..]);
    }
  }

  /** The worlds that some run from the start reaches. */
  ghost predicate Reachable(w: World) {
    exists a: nat, b: nat, ls :: Legal(Start(a, b), ls) && Run(Start(a, b), ls) == w
  }

  lemma {:induction false} ReachableInv(w: World)
    requires Reachable(w)
    ensures Inv(w)
  {
    var a: nat, b: nat, ls :| Legal(Start(a, b), ls) && Run(Start(a, b), ls) == w;
    StartInv(a, b);
    RunKeepsInv(Start(a, b), ls);
  }

  // ---- both ends are alike ----

  function Swap(l: Label): Label {
    match l
    case Near(mv) => Far(mv)
    case Far(mv) => Near(mv)
  }

  function SwapAll(ls: seq<Label>): seq<Label> { if ls == [] then [] else [Swap(ls[0])] + SwapAll(ls[1..]) }

  lemma {:induction false} SwapStep(w: World, l: Label)
    requires CanStep(w, l)
    ensures CanStep(Flip(w), Swap(l)) && StepTo(Flip(w), Swap(l)) == Flip(StepTo(w, l))
  {
    assert Flip(Flip(w)) == w;
  }

  lemma {:induction false} SwapRun(w: World, ls: seq<Label>)
    requires Legal(w, ls)
    ensures Legal(Flip(w), SwapAll(ls)) && Run(Flip(w), SwapAll(ls)) == Flip(Run(w, ls))
    decreases |ls|
  {
    if ls != [] {
      SwapStep(w, ls[0]);
      SwapRun(StepTo(w, ls[0]), ls[1..]);
      assert SwapAll(ls)[1..] == SwapAll(ls[1..]);
    }
  }

  /** A reachable world is reachable seen from the other end, so every theorem holds for both ends. */
  lemma {:induction false} FlipReachable(w: World)
    requires Reachable(w)
    ensures Reachable(Flip(w))
  {
    var a: nat, b: nat, ls :| Legal(Start(a, b), ls) && Run(Start(a, b), ls) == w;
    SwapRun(Start(a, b), ls);
    assert Flip(Start(a, b)) == Start(b, a);
    assert Legal(Start(b, a), SwapAll(ls)) && Run(Start(b, a), SwapAll(ls)) == Flip(w);
  }

  // ---- conservation ----

  /** Handles of the two ends of one stream: they belong to the same opening. */
  predicate Ends(w: World, h: nat, k: nat) {
    && h < |w.local.streams| && k < |w.remote.streams| && h < |w.past.mine| && k < |w.past.yours|
    && w.past.mine[h] == w.past.yours[k]
  }

  lemma {:induction false} EndsRelated(w: World, h: nat, k: nat)
    requires Inv(w) && Ends(w, h, k)
    ensures w.past.mine[h] < |w.past.ids|
    ensures Both(w.local.streams[h], w.remote.streams[k],
                 Channel(w.out, w.past.ids, w.past.mine[h]), Channel(w.inn, w.past.ids, w.past.mine[h]))
    ensures Current(w.past.ids, w.past.mine[h]) || (Quiet(w.local.streams[h]) && Quiet(w.remote.streams[k]))
  {
    FindAt(w.local.streams, w.past.mine, h);
    FindAt(w.remote.streams, w.past.yours, k);
    assert PairAt(w, w.past.mine[h]);
  }

  /** The other end of a stream, where there is one. */
  lemma Partner(w: World, h: nat) returns (k: nat)
    requires Sound(w) && h < |w.local.streams| && Find(w.remote.streams, w.past.yours, w.past.mine[h]).Some?
    ensures Ends(w, h, k)
  {
    k :| 0 <= k < |w.remote.streams| && w.past.yours[k] == w.past.mine[h];
  }

  /**
   In every reachable world, for both directions of every stream: until the receiver is
   force-closed or given up by its `Open`, what was written is what was read, buffered, queued and
   in flight for that opening, in that order; and always what was read is a prefix of what was
   written. The frames in flight for an opening are those of its ID, or none once the ID has been
   opened again, and then both ends are quiet.
   */
  lemma {:induction false} Conservation(w: World, h: nat, k: nat)
    requires Reachable(w) && Ends(w, h, k)
    ensures w.past.mine[h] < |w.past.ids|
    ensures var s, r, n := w.local.streams[h], w.remote.streams[k], w.past.mine[h];
            && (!Gone(r) ==> s.sent == r.got + r.readBuf + Flatten(r.queue) + DataOf(Channel(w.out, w.past.ids, n)))
            && (!Gone(s) ==> r.sent == s.got + s.readBuf + Flatten(s.queue) + DataOf(Channel(w.inn, w.past.ids, n)))
            && r.got <= s.sent
            && s.got <= r.sent
    ensures var n, id := w.past.mine[h], w.local.streams[h].id;
            if Current(w.past.ids, n) then Channel(w.out, w.past.ids, n) == Only(w.out, id) && Channel(w.inn, w.past.ids, n) == Only(w.inn, id)
            else Channel(w.out, w.past.ids, n) == Channel(w.inn, w.past.ids, n) == [] && Quiet(w.local.streams[h]) && Quiet(w.remote.streams[k])
  {
    ReachableInv(w);
    EndsRelated(w, h, k);
    PrefixOfReceived(w.local.streams[h]);
    PrefixOfReceived(w.remote.streams[k]);
  }

  lemma PrefixOfReceived(s: Stream)
    ensures s.got <= Received(s)
  {
  }

  // ---- end of file ----

  /**
   `Read` returned io.EOF on a stream: the peer stream exists, has framed exactly the bytes
   that were read, and can frame no more.
   */
  lemma {:induction false} EOFMeansComplete(w: World, k: nat)
    requires Reachable(w) && k < |w.remote.streams| && w.remote.streams[k].sawEOF
    ensures exists h: nat :: Ends(w, h, k) && w.remote.streams[k].got == w.local.streams[h].sent && Finished(w.local.streams[h])
  {
    ReachableInv(w);
    FindAt(w.remote.streams, w.past.yours, k);
    assert PairAt(w, w.past.yours[k]);
    var h := Partner(Flip(w), k);
    EndsRelated(w, h, k);
  }

  lemma OrderedSuffix(a: seq<Msg>, b: seq<Msg>)
    requires Ordered(a + b)
    ensures Ordered(b)
  {
    assert forall i :: 0 <= i < |b| ==> (a + b)[|a| + i] == b[i];
  }

  lemma {:induction false} OrderedOnWire(wire: seq<Msg>, i: nat, j: nat)
    requires i < j < |wire| && wire[i].Close? && wire[j].Data? && wire[i].id == wire[j].id
    ensures !Ordered(Only(wire, wire[i].id))
  {
    var id := wire[i].id;
    var rest := Only(wire[1..], id);
    OnlyTail(wire, id);
    if i == 0 {
      assert wire[1..][j - 1] == wire[j];
      OnlyKeeps(wire[1..], j - 1);
      var q :| 0 <= q < |rest| && rest[q] == wire[j];
      assert Only(wire, id)[0] == wire[0] && Only(wire, id)[q + 1] == wire[j];
    } else {
      assert wire[1..][i - 1] == wire[i] && wire[1..][j - 1] == wire[j];
      OrderedOnWire(wire[1..], i - 1, j - 1);
      if Ordered(Only(wire, id)) {
        OrderedSuffix(if wire[0].id == id then [wire[0]] else [], rest);
      }
    }
  }

  /** No Data frame of a stream ever follows its Close frame on the wire. */
  lemma {:induction false} NoDataAfterClose(w: World, i: nat, j: nat)
    requires Reachable(w) && i < j < |w.out| && w.out[i].Close? && w.out[j].Data?
    ensures w.out[i].id != w.out[j].id
  {
    ReachableInv(w);
    if w.out[i].id == w.out[j].id {
      OrderedOnWire(w.out, i, j);
      assert w.out[i] in w.out;
      var n := Latest(w.past.ids, w.out[i].id);
      LatestOf(w.past.ids, w.out[i].id);
      assert PairAt(w, n);
      ChannelOrdered(Find(w.local.streams, w.past.mine, n), Find(w.remote.streams, w.past.yours, n),
                     Channel(w.out, w.past.ids, n), Channel(w.inn, w.past.ids, n));
      assert false;
    }
  }

  lemma ChannelOrdered(s: Option<Stream>, r: Option<Stream>, out: seq<Msg>, inn: seq<Msg>)
    requires PairOk(s, r, out, inn)
    ensures Ordered(out)
  {
    if s.None? && r.Some? {
      assert forall i :: 0 <= i < |out| ==> out[i] in out && out[i].Error?;
    }
  }

  /** No received frame is ever sent into a closed channel. */
  lemma {:induction false} NeverPanics(w: World)
    requires Reachable(w)
    ensures !w.local.crashed && !w.remote.crashed
  {
    ReachableInv(w);
  }

  /**
   Without the convention about deliveries, and whether or not the buffer is full: in a reachable
   world the next frame makes `readLoop` panic if and only if it carries data for a stream whose
   `forceClose` has run its locked block and not yet its `removeStream`.
   */
  lemma {:induction false} NextFramePanicsIff(w: World)
    requires Reachable(w) && w.inn != []
    ensures Receive(w.local, w.inn[0]).ep.crashed <==> Exposed(w.local, w.inn[0])
  {
    ReachableInv(w);
    WireOkTail(w.inn, w.past.ids);
    var m := w.inn[0];
    if m.Data? && Lookup(w.local, m.id).Some? {
      if Exposed(w.local, m) {
        assert StreamOk(w.local.streams[Lookup(w.local, m.id).value]);
      } else {
        TakeHeld(w, Lookup(w.local, m.id).value);
      }
    }
  }

  lemma {:induction false} OnlyKeeps(wire: seq<Msg>, i: nat)
    requires i < |wire|
    ensures wire[i] in Only(wire, wire[i].id)
  {
    var id := wire[i].id;
    assert wire == wire[..i] + wire[i..];
    OnlyAppend(wire[..i], wire[i..], id);
    OnlyTail(wire[i..], id);
    assert Only(wire[i..], id)[0] == wire[i];
    assert Only(wire, id)[|Only(wire[..i], id)|] == wire[i];
  }

  /** Every acknowledgement in flight names a stream its receiver had registered and announced, of the latest opening of its ID. */
  lemma {:induction false} AckNamesAnOpener(w: World, i: nat)
    requires Reachable(w) && i < |w.inn| && w.inn[i].OpenAck?
    ensures exists h :: 0 <= h < |w.local.streams| && w.local.streams[h].id == w.inn[i].id
                        && w.local.streams[h].role == Opener && w.local.streams[h].phase != Registered
                        && h < |w.past.mine| && w.past.mine[h] == Latest(w.past.ids, w.inn[i].id)
  {
    ReachableInv(w);
    var id, n := w.inn[i].id, Latest(w.past.ids, w.inn[i].id);
    assert w.inn[i] in w.inn;
    OnlyKeeps(w.inn, i);
    LatestOf(w.past.ids, id);
    assert PairAt(w, n);
    AckChannel(Find(w.local.streams, w.past.mine, n), Find(w.remote.streams, w.past.yours, n),
               Channel(w.out, w.past.ids, n), Channel(w.inn, w.past.ids, n), w.inn[i]);
    var h :| 0 <= h < |w.local.streams| && w.past.mine[h] == n;
    FindAt(w.local.streams, w.past.mine, h);
  }

  lemma AckChannel(s: Option<Stream>, r: Option<Stream>, out: seq<Msg>, inn: seq<Msg>, m: Msg)
    requires PairOk(s, r, out, inn) && m in inn && m.OpenAck?
    ensures s.Some? && s.value.role == Opener && s.value.phase != Registered
  {
  }

  // ---- extending runs ----

  /** One step of the near end, at the end of a run. */
  lemma {:induction false} RunOne(w: World, l: Label)
    requires CanStep(w, l)
    ensures Legal(w, [l]) && Run(w, [l]) == StepTo(w, l)
  {
    assert [l][1..] == [];
  }

  lemma RunFirst(w: World, ls: seq<Label>, rest: seq<Label>)
    requires ls != [] && ls[1..] == rest && CanStep(w, ls[0]) && Legal(StepTo(w, ls[0]), rest)
    ensures Legal(w, ls) && Run(w, ls) == Run(StepTo(w, ls[0]), rest)
  {
  }

  lemma {:induction false} RunConcat(w: World, a: seq<Label>, b: seq<Label>)
    requires Legal(w, a) && Legal(Run(w, a), b)
    ensures Legal(w, a + b) && Run(w, a + b) == Run(Run(w, a), b)
    decreases |a|
  {
    if a == [] {
      assert a + b == b;
    } else {
      RunConcat(StepTo(w, a[0]), a[1..], b);
      FirstOfConcat(a, b);
      RunFirst(w, a + b, a[1..] + b);
    }
  }

  lemma {:induction false} ReachableStep(w: World, l: Label)
    requires Reachable(w) && CanStep(w, l)
    ensures Reachable(StepTo(w, l))
  {
    var a: nat, b: nat, ls :| Legal(Start(a, b), ls) && Run(Start(a, b), ls) == w;
    RunOne(w, l);
    RunConcat(Start(a, b), ls, [l]);
  }

  /** The near end takes a step of its own. */
  lemma {:induction false} NearStep(w: World, a: Action) returns (w': World)
    requires Reachable(w) && Possible(w, Do(a))
    ensures Reachable(w') && w' == Next(w, Do(a))
  {
    w' := Next(w, Do(a));
    ReachableStep(w, Near(Do(a)));
  }

  // ---- what no move ever takes back ----

  /** How a stream may change in the course of a run. */
  predicate Grown(s: Stream, t: Stream) {
    && t.id == s.id && t.role == s.role && t.request == s.request
    && s.sent <= t.sent && s.got <= t.got
    && (Finished(s) ==> Finished(t) && t.sent == s.sent)
    && (s.closed ==> t.closed && t.readErr == s.readErr && t.writeErr == s.writeErr)
    && (s.readsClosed ==> t.readsClosed) && (s.doneClosed ==> t.doneClosed)
    && (s.accepted ==> t.accepted) && (s.sawEOF ==> t.sawEOF && t.got == s.got)
  }

  /** How an endpoint may change: a closed session registers nothing more and keeps its first error. */
  predicate EpGrown(ep: Endpoint, ep': Endpoint) {
    && |ep.streams| <= |ep'.streams|
    && (forall h :: 0 <= h < |ep.streams| ==> Grown(ep.streams[h], ep'.streams[h]))
    && (ep.closed ==> ep'.closed && ep'.err == ep.err && |ep'.streams| == |ep.streams| && ep'.pending <= ep.pending)
  }

  lemma ActGrows(s: Stream, sessionClosed: bool, a: Act)
    requires StreamOk(s) && CanAct(s, sessionClosed, a)
    requires s.sawEOF ==> s.readBuf == []
    ensures Grown(s, After(s, a))
  {
  }

  lemma TakenGrows(s: Stream, m: Msg)
    requires StreamOk(s)
    ensures Grown(s, Taken(s, m))
  {
  }

  lemma {:induction false} NothingAfterEOF(w: World, h: nat)
    requires Inv(w) && h < |w.local.streams| && w.local.streams[h].sawEOF
    ensures w.local.streams[h].readBuf == []
  {
    var s, n := w.local.streams[h], w.past.mine[h];
    FindAt(w.local.streams, w.past.mine, h);
    assert PairAt(w, n);
    var r := Find(w.remote.streams, w.past.yours, n);
    assert r.Some?;
    CopyAfterEOF(r.value, s, Channel(w.inn, w.past.ids, n), |s.readBuf|);
  }

  /** One stream grows, whether or not it leaves the table. */
  lemma PutGrows(ep: Endpoint, h: nat, s: Stream)
    requires h < |ep.streams| && Grown(ep.streams[h], s)
    ensures EpGrown(ep, Put(ep, h, s)) && EpGrown(ep, Put(Unlink(ep, h), h, s))
  {
  }

  lemma RegisterGrows(ep: Endpoint, nextID: nat, s: Stream)
    requires !ep.closed
    ensures EpGrown(ep, Register(ep.(nextID := nextID), s))
  {
  }

  lemma {:induction false} DoGrows(w: World, a: Action)
    requires Inv(w) && Enabled(w.local, a)
    ensures EpGrown(w.local, Apply(w.local, a).ep)
  {
    match a
    case At(h, act) =>
      if w.local.streams[h].sawEOF {
        NothingAfterEOF(w, h);
      }
      ActGrows(w.local.streams[h], w.local.closed, act);
      PutGrows(w.local, h, After(w.local.streams[h], act));
    case OpenCall(request) => RegisterGrows(w.local, w.local.nextID + 1, OpenedStream(w.local, request));
    case _ =>
  }

  lemma {:induction false} TakeHeldGrows(w: World, h: nat)
    requires Inv(w) && Raw(w, Take) && w.inn[0].id != 0 && !w.inn[0].Open? && Lookup(w.local, w.inn[0].id) == Some(h)
    ensures EpGrown(w.local, Receive(w.local, w.inn[0]).ep)
  {
    TakeHeld(w, h);
    TakenGrows(w.local.streams[h], w.inn[0]);
    PutGrows(w.local, h, Taken(w.local.streams[h], w.inn[0]));
  }

  lemma TakeOpenGrows(ep: Endpoint, m: Msg)
    requires m.Open?
    ensures EpGrown(ep, Receive(ep, m).ep)
  {
    match DecodeOpen(m.id, m.request)
    case Err(_) =>
    case Ok(r) =>
      if !ep.closed {
        RegisterGrows(ep, ep.nextID, NewStream(r.requestID, Acceptor, Live, r));
        assert ep.(nextID := ep.nextID) == ep;
      }
  }

  lemma TakeQuietGrows(ep: Endpoint, m: Msg)
    requires m.Control? || (!m.Open? && Lookup(ep, m.id) == None)
    ensures EpGrown(ep, Receive(ep, m).ep)
  {
  }

  lemma {:induction false} TakeGrows(w: World)
    requires Inv(w) && Raw(w, Take)
    ensures EpGrown(w.local, Next(w, Take).local)
  {
    WireOkTail(w.inn, w.past.ids);
    var m := w.inn[0];
    if m.Open? {
      TakeOpenGrows(w.local, m);
    } else if m.Control? || Lookup(w.local, m.id) == None {
      TakeQuietGrows(w.local, m);
    } else {
      TakeHeldGrows(w, Lookup(w.local, m.id).value);
    }
  }

  lemma {:induction false} NextGrows(w: World, mv: Move)
    requires Inv(w) && Possible(w, mv)
    ensures EpGrown(w.local, Next(w, mv).local) && Next(w, mv).remote == w.remote
  {
    match mv
    case Do(a) => DoGrows(w, a);
    case Take => TakeGrows(w);
    case SendControl(_, _) =>
  }

  lemma {:induction false} StepGrows(w: World, l: Label)
    requires Inv(w) && CanStep(w, l)
    ensures EpGrown(w.local, StepTo(w, l).local) && EpGrown(w.remote, StepTo(w, l).remote)
  {
    match l
    case Near(mv) => NextGrows(w, mv);
    case Far(mv) =>
      FlipInv(w);
      NextGrows(Flip(w), mv);
  }

  lemma GrownTransitive(a: Stream, b: Stream, c: Stream)
    requires Grown(a, b) && Grown(b, c)
    ensures Grown(a, c)
  {
  }

  lemma EpGrownTransitive(a: Endpoint, b: Endpoint, c: Endpoint)
    requires EpGrown(a, b) && EpGrown(b, c)
    ensures EpGrown(a, c)
  {
    forall h | 0 <= h < |a.streams| ensures Grown(a.streams[h], c.streams[h]) {
      GrownTransitive(a.streams[h], b.streams[h], c.streams[h]);
    }
  }

  /** Over any continuation of any run: nothing written, read, closed or failed is ever undone. */
  lemma {:induction false} RunGrows(w: World, ls: seq<Label>)
    requires Inv(w) && Legal(w, ls)
    ensures EpGrown(w.local, Run(w, ls).local) && EpGrown(w.remote, Run(w, ls).remote)
    decreases |ls|
  {
    if ls != [] {
      var w1 := StepTo(w, ls[0]);
      StepGrows(w, ls[0]);
      StepKeepsInv(w, ls[0]);
      RunGrows(w1, ls[1..]);
      EpGrownTransitive(w.local, w1.local, Run(w, ls).local);
      EpGrownTransitive(w.remote, w1.remote, Run(w, ls).remote);
    }
  }

  /** The error of the first shutdown stays, and no stream is registered after it, in any continuation. */
  lemma {:induction false} FirstErrorStays(w: World, err: string, ls: seq<Label>)
    requires Reachable(w) && !w.local.closed
    requires Legal(StepTo(w, Near(Do(BeginShutdown(err)))), ls)
    ensures var z := Run(StepTo(w, Near(Do(BeginShutdown(err)))), ls);
            z.local.closed && z.local.err == Some(err) && |z.local.streams| == |w.local.streams|
  {
    ReachableInv(w);
    StepKeepsInv(w, Near(Do(BeginShutdown(err))));
    RunGrows(StepTo(w, Near(Do(BeginShutdown(err)))), ls);
  }
}
