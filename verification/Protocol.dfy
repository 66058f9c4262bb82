/**
 Two session endpoints joined by a FIFO wire in each direction, with any number of streams,
 moved by either end in any order. An ID may be opened again once the streams that had it are
 retired and none of its frames is in flight. The invariant of each opening (module Pairing)
 holds in every reachable world; the theorems about whole runs follow from it.
 */
module Protocol {
  import opened Common
  import opened Streams
  import opened Sessions
  import opened Pairing

  /**
   History: the IDs opened so far, by either end and in order, for every stream of the two ends
   the number of the opening that it belongs to, and the argument of the `Open` call behind each
   opening.
   */
  datatype Past = Past(ids: seq<nat>, mine: seq<nat>, yours: seq<nat>, calls: seq<OpenRequest>)

  datatype World = World(local: Endpoint, remote: Endpoint, out: seq<Msg>, inn: seq<Msg>, past: Past)

  /** The same world seen from the other end. */
  function Flip(w: World): World {
    World(w.remote, w.local, w.inn, w.out, Past(w.past.ids, w.past.yours, w.past.mine, w.past.calls))
  }

  function Start(localBuffer: nat, remoteBuffer: nat): World {
    World(NewEndpoint(localBuffer), NewEndpoint(remoteBuffer), [], [], Past([], [], [], []))
  }

  /** What the local end can do next. */
  datatype Move =
    | Do(action: Action)
    | Take                                       // readLoop handles the next frame
    | SendControl(kind: byte, body: seq<byte>)    // WriteJSON of a frame outside any stream

  function OpenID(ep: Endpoint, request: OpenRequest): nat { OpenedStream(ep, request).id }

  /** The number of the latest opening of an ID. */
  function Latest(ids: seq<nat>, id: nat): nat {
    if ids == [] then 0
    else if ids[|ids| - 1] == id then |ids| - 1
    else Latest(ids[..|ids| - 1], id)
  }

  /** This opening is the latest one of its ID. */
  predicate Current(ids: seq<nat>, n: nat) { n < |ids| && Latest(ids, ids[n]) == n }

  /** A stream that is through: force-closed to the end, and its Open frame is not still to be written. */
  predicate Retired(s: Stream) { s.doneClosed && s.phase != Registered }

  /** A stream that is finished in both directions, with everything read; the code leaves it in the table. */
  predicate Drained(s: Stream) {
    s.phase == Live && s.localEOF && s.remoteEOF && s.queue == [] && s.readBuf == []
  }

  predicate Quiet(s: Stream) { Retired(s) || Drained(s) }

  /** Every stream that has had this ID is retired or drained, and no frame of the ID is in flight. */
  predicate Reusable(w: World, id: nat) {
    && (forall s :: s in w.local.streams && s.id == id ==> Quiet(s))
    && (forall s :: s in w.remote.streams && s.id == id ==> Quiet(s))
    && (forall m :: m in w.out ==> m.id != id)
    && (forall m :: m in w.inn ==> m.id != id)
  }

  /** A move within the conventions about callers and frames, whatever the IDs. */
  predicate Raw(w: World, mv: Move) {
    match mv
    case Do(a) => Enabled(w.local, a)
    // Convention: no delivery in the window of forceClose (module CloseRace).
    case Take => w.inn != [] && CanReceive(w.local, w.inn[0]) && !Exposed(w.local, w.inn[0])
    case SendControl(_, _) => true
  }

  /** A stream that is quiet frames nothing more once its ID has been opened again. */
  predicate Quits(past: Past, ep: Endpoint, a: Action) {
    a.At? && a.h < |ep.streams| && Quiet(ep.streams[a.h]) && Written(ep.streams[a.h], a.act) != [] ==>
      a.h < |past.mine| && Current(past.ids, past.mine[a.h])
  }

  /** A raw move that opens a stream only under a reusable ID, and frames nothing for an ID opened again. */
  predicate Possible(w: World, mv: Move) {
    && Raw(w, mv)
    && (mv.Do? && mv.action.OpenCall? ==> Reusable(w, OpenID(w.local, mv.action.request)))
    && (mv.Do? ==> Quits(w.past, w.local, mv.action))
  }

  /** A stream of the near end joins the latest opening of its ID. */
  function Join(past: Past, before: seq<Stream>, after: seq<Stream>): Past {
    if |before| < |after| then past.(mine := past.mine + [Latest(past.ids, after[|before|].id)]) else past
  }

  function PastDo(past: Past, ep: Endpoint, a: Action): Past
    requires Enabled(ep, a)
  {
    Join(if a.OpenCall? then past.(ids := past.ids + [OpenID(ep, a.request)], calls := past.calls + [a.request]) else past,
         ep.streams, Apply(ep, a).ep.streams)
  }

  function PastTake(past: Past, ep: Endpoint, m: Msg): Past { Join(past, ep.streams, Receive(ep, m).ep.streams) }

  function Next(w: World, mv: Move): World
    requires Raw(w, mv)
  {
    match mv
    case Do(a) =>
      var e := Apply(w.local, a);
      World(e.ep, w.remote, w.out + e.out, w.inn, PastDo(w.past, w.local, a))
    case Take =>
      var e := Receive(w.local, w.inn[0]);
      World(e.ep, w.remote, w.out + e.out, w.inn[1..], PastTake(w.past, w.local, w.inn[0]))
    case SendControl(kind, body) => w.(out := w.out + [Control(0, kind, body)])
  }

  // ---- openings ----

  lemma LatestAppend(ids: seq<nat>, x: nat, id: nat)
    ensures Latest(ids + [x], id) == if x == id then |ids| else Latest(ids, id)
  {
    assert (ids + [x])[..|ids|] == ids;
  }

  lemma {:induction false} LatestOf(ids: seq<nat>, id: nat)
    requires id in ids
    ensures Latest(ids, id) < |ids| && ids[Latest(ids, id)] == id
  {
    if ids[|ids| - 1] != id {
      assert id in ids[..|ids| - 1];
      LatestOf(ids[..|ids| - 1], id);
    }
  }

  lemma {:induction false} LatestIsLargest(ids: seq<nat>, n: nat)
    requires n < |ids|
    ensures n <= Latest(ids, ids[n])
  {
    var k := |ids| - 1;
    if ids[k] != ids[n] {
      LatestIsLargest(ids[..k], n);
    }
  }

  lemma CurrentAppend(ids: seq<nat>, x: nat, n: nat)
    requires n <= |ids|
    ensures Current(ids + [x], n) <==> n == |ids| || (Current(ids, n) && ids[n] != x)
  {
    var id := (ids + [x])[n];
    LatestAppend(ids, x, id);
  }

  // ---- projection on one ID, and on one opening ----

  function Only(wire: seq<Msg>, id: nat): seq<Msg> {
    if wire == [] then []
    else (if wire[0].id == id then [wire[0]] else []) + Only(wire[1..], id)
  }

  lemma {:induction false} OnlyAppend(a: seq<Msg>, b: seq<Msg>, id: nat)
    ensures Only(a + b, id) == Only(a, id) + Only(b, id)
  {
    if a == [] {
      assert a + b == b;
    } else {
      var first := if a[0].id == id then [a[0]] else [];
      FirstOfConcat(a, b);
      OnlyAppend(a[1..], b, id);
      Associate(first, Only(a[1..], id), Only(b, id));
    }
  }

  lemma OnlyOne(wire: seq<Msg>, m: Msg, id: nat)
    ensures Only(wire + [m], id) == Only(wire, id) + (if m.id == id then [m] else [])
  {
    OnlyAppend(wire, [m], id);
    assert Only([m], id) == (if m.id == id then [m] else []) + Only([], id);
  }

  lemma {:induction false} OnlyNone(wire: seq<Msg>, id: nat)
    requires forall m :: m in wire ==> m.id != id
    ensures Only(wire, id) == []
  {
    if wire != [] {
      assert wire[0] in wire;
      OnlyNone(wire[1..], id);
    }
  }

  /** The frames of one opening: those of its ID, while it is the latest one. */
  function Channel(wire: seq<Msg>, ids: seq<nat>, n: nat): seq<Msg>
    requires n < |ids|
  {
    if Current(ids, n) then Only(wire, ids[n]) else []
  }

  /** Frames of one ID are appended; an opening that is not the latest gets none. */
  lemma ChannelAppend(wire: seq<Msg>, more: seq<Msg>, ids: seq<nat>, n0: nat, n: nat)
    requires n < |ids| && n0 < |ids|
    requires more == [] || (|more| == 1 && more[0].id == ids[n0] && Current(ids, n0))
    ensures Channel(wire + more, ids, n) == Channel(wire, ids, n) + (if n == n0 then more else [])
  {
    if more == [] {
      assert wire + more == wire;
    } else {
      assert more == [more[0]];
      OnlyOne(wire, more[0], ids[n]);
    }
  }

  /** The first frame is taken off the wire. */
  lemma ChannelTail(wire: seq<Msg>, ids: seq<nat>, n: nat)
    requires n < |ids| && wire != []
    requires wire[0].id in ids || wire[0].id == 0 != ids[n]
    ensures Channel(wire, ids, n)
         == (if wire[0].id in ids && n == Latest(ids, wire[0].id) then [wire[0]] else []) + Channel(wire[1..], ids, n)
  {
    if wire[0].id in ids {
      LatestOf(ids, wire[0].id);
    }
  }

  predicate Injective(numbers: seq<nat>) {
    forall i, j :: 0 <= i < j < |numbers| ==> numbers[i] != numbers[j]
  }

  /** The stream that belongs to an opening. */
  ghost function Find(streams: seq<Stream>, numbers: seq<nat>, n: nat): Option<Stream> {
    if h :| 0 <= h < |streams| && h < |numbers| && numbers[h] == n then Some(streams[h]) else None
  }

  lemma FindAt(streams: seq<Stream>, numbers: seq<nat>, h: nat)
    requires Injective(numbers) && h < |streams| == |numbers|
    ensures Find(streams, numbers, numbers[h]) == Some(streams[h])
  {
  }

  lemma FindPut(streams: seq<Stream>, numbers: seq<nat>, h: nat, s: Stream, n: nat)
    requires Injective(numbers) && h < |streams| == |numbers|
    ensures Find(streams[h := s], numbers, n) == if n == numbers[h] then Some(s) else Find(streams, numbers, n)
  {
    var streams' := streams[h := s];
    if n == numbers[h] {
      assert numbers[h] == n && streams'[h] == s;
    } else if k :| 0 <= k < |streams| && numbers[k] == n {
      assert streams'[k] == streams[k];
    }
  }

  lemma FindAppend(streams: seq<Stream>, numbers: seq<nat>, s: Stream, x: nat, n: nat)
    requires Injective(numbers) && |streams| == |numbers| && Find(streams, numbers, x) == None
    ensures Injective(numbers + [x])
    ensures Find(streams + [s], numbers + [x], n) == if n == x then Some(s) else Find(streams, numbers, n)
  {
    var streams', numbers' := streams + [s], numbers + [x];
    assert numbers'[|streams|] == x && streams'[|streams|] == s;
    if k :| 0 <= k < |streams| && numbers[k] == n {
      assert numbers'[k] == n && streams'[k] == streams[k];
    }
  }

  // ---- the invariant ----

  /** The table leads to this stream. */
  predicate InTable(ep: Endpoint, h: nat) {
    h < |ep.streams| && ep.streams[h].id in ep.table && ep.table[ep.streams[h].id] == h
  }

  /** The table is keyed by the IDs of the streams it holds. */
  predicate Keyed(ep: Endpoint) {
    forall id :: id in ep.table ==> ep.table[id] < |ep.streams| && ep.streams[ep.table[id]].id == id
  }

  /** No stream has been registered under this one's ID since. */
  predicate Last(streams: seq<Stream>, h: nat)
    requires h < |streams|
  {
    forall k :: h < k < |streams| ==> streams[k].id != streams[h].id
  }

  /** The table leads to the stream last registered under an ID, until a `removeStream` has run for it. */
  predicate TableExact(ep: Endpoint) {
    && Keyed(ep)
    && forall h :: 0 <= h < |ep.streams| ==> (InTable(ep, h) <==> Held(ep.streams[h]) && Last(ep.streams, h))
  }

  /** What every step of the code keeps, whatever the IDs. */
  predicate EpKept(ep: Endpoint) {
    && TableExact(ep)
    && (forall h :: 0 <= h < |ep.streams| ==> StreamOk(ep.streams[h]))
    && (ep.closed ==> forall id :: id in ep.table ==> ep.table[id] in ep.pending)
  }

  predicate EpOk(ep: Endpoint) {
    && EpKept(ep)
    && (forall h :: 0 <= h < |ep.streams| ==> ep.streams[h].id != 0)
    && !ep.crashed
    && ep.closed == ep.err.Some?
    && (!ep.closed ==> ep.pending == {})
  }

  /** Control frames, and only they, travel under ID 0; every other ID has been opened. */
  predicate WireOk(wire: seq<Msg>, ids: seq<nat>) {
    forall m :: m in wire ==> (m.Control? <==> m.id == 0) && (m.id != 0 ==> m.id in ids)
  }

  /** Streams and their openings: one stream an opening, in order, and only the latest one of an ID is not quiet. */
  predicate Tagged(streams: seq<Stream>, numbers: seq<nat>, ids: seq<nat>) {
    && |numbers| == |streams| && Injective(numbers)
    && (forall h :: 0 <= h < |streams| ==> numbers[h] < |ids| && ids[numbers[h]] == streams[h].id)
    && (forall h, k :: 0 <= h < k < |streams| && streams[h].id == streams[k].id ==> numbers[h] < numbers[k])
    && (forall h :: 0 <= h < |streams| && !Quiet(streams[h]) ==> Current(ids, numbers[h]))
  }

  ghost predicate PairAt(w: World, n: nat)
    requires n < |w.past.ids|
  {
    PairOk(Find(w.local.streams, w.past.mine, n), Find(w.remote.streams, w.past.yours, n),
           Channel(w.out, w.past.ids, n), Channel(w.inn, w.past.ids, n))
  }

  ghost predicate Pairs(w: World) { forall n :: 0 <= n < |w.past.ids| ==> PairAt(w, n) }

  /** Everything but the pairs. */
  predicate Sound(w: World) {
    && EpOk(w.local) && EpOk(w.remote)
    && (forall n :: 0 <= n < |w.past.ids| ==> w.past.ids[n] != 0)
    && Tagged(w.local.streams, w.past.mine, w.past.ids) && Tagged(w.remote.streams, w.past.yours, w.past.ids)
    && WireOk(w.out, w.past.ids) && WireOk(w.inn, w.past.ids)
  }

  ghost predicate Inv(w: World) { Sound(w) && Pairs(w) }

  lemma StartInv(localBuffer: nat, remoteBuffer: nat)
    ensures Inv(Start(localBuffer, remoteBuffer))
  {
  }

  lemma FlipInv(w: World)
    requires Inv(w)
    ensures Inv(Flip(w))
  {
    forall n | 0 <= n < |w.past.ids| ensures PairAt(Flip(w), n) {
      assert PairAt(w, n);
      PairSymmetric(Find(w.local.streams, w.past.mine, n), Find(w.remote.streams, w.past.yours, n),
                    Channel(w.out, w.past.ids, n), Channel(w.inn, w.past.ids, n));
    }
  }

  // ---- endpoint invariants, step by step ----

  lemma LastPut(streams: seq<Stream>, h: nat, s: Stream, k: nat)
    requires h < |streams| && k < |streams| && s.id == streams[h].id
    ensures Last(streams[h := s], k) <==> Last(streams, k)
  {
    var t := streams[h := s];
    assert forall i :: 0 <= i < |streams| ==> t[i].id == streams[i].id;
  }

  lemma LastAppend(streams: seq<Stream>, s: Stream, k: nat)
    requires k < |streams|
    ensures Last(streams + [s], k) <==> Last(streams, k) && streams[k].id != s.id
  {
    var t := streams + [s];
    assert t[|streams|] == s;
    assert forall i :: 0 <= i < |streams| ==> t[i] == streams[i];
    if Last(t, k) {
      assert forall i :: k < i < |streams| ==> t[i].id != t[k].id;
    }
  }

  /** A stream changes and is held as before. */
  lemma PutKeepsTable(ep: Endpoint, h: nat, s: Stream)
    requires TableExact(ep) && h < |ep.streams| && s.id == ep.streams[h].id && Held(s) == Held(ep.streams[h])
    ensures TableExact(Put(ep, h, s))
  {
    var ep' := Put(ep, h, s);
    forall k | 0 <= k < |ep.streams| ensures InTable(ep', k) <==> Held(ep'.streams[k]) && Last(ep'.streams, k) {
      LastPut(ep.streams, h, s, k);
      assert InTable(ep', k) <==> InTable(ep, k);
    }
  }

  /** A stream stops being held and leaves the table, if the table still leads to it. */
  lemma RemoveKeepsTable(ep: Endpoint, h: nat, s: Stream)
    requires TableExact(ep) && h < |ep.streams| && s.id == ep.streams[h].id && !Held(s)
    ensures TableExact(Put(Unlink(ep, h), h, s))
  {
    var ep' := Put(Unlink(ep, h), h, s);
    forall k | 0 <= k < |ep.streams| ensures InTable(ep', k) <==> Held(ep'.streams[k]) && Last(ep'.streams, k) {
      LastPut(ep.streams, h, s, k);
      assert InTable(ep', k) <==> InTable(ep, k) && k != h;
    }
  }

  lemma RegisterKeepsTable(ep: Endpoint, s: Stream)
    requires TableExact(ep) && Held(s)
    ensures TableExact(Register(ep, s))
  {
    var ep', n := Register(ep, s), |ep.streams|;
    forall k | 0 <= k <= n ensures InTable(ep', k) <==> Held(ep'.streams[k]) && Last(ep'.streams, k) {
      if k < n {
        assert ep'.streams[n] == s && ep'.streams[k] == ep.streams[k];
        assert InTable(ep', k) <==> InTable(ep, k) && ep.streams[k].id != s.id;
        LastAppend(ep.streams, s, k);
      }
    }
  }

  lemma ActHolds(s: Stream, sessionClosed: bool, act: Act)
    requires StreamOk(s) && CanAct(s, sessionClosed, act)
    ensures Held(After(s, act)) <==> Held(s) && !Removes(s, act)
  {
  }

  lemma ActKeepsTable(ep: Endpoint, h: nat, act: Act)
    requires TableExact(ep) && Enabled(ep, At(h, act)) && StreamOk(ep.streams[h]) && After(ep.streams[h], act).id == ep.streams[h].id
    ensures TableExact(Acted(ep, h, act))
  {
    var s := ep.streams[h];
    ActHolds(s, ep.closed, act);
    if Removes(s, act) {
      RemoveKeepsTable(ep, h, After(s, act));
    } else {
      PutKeepsTable(ep, h, After(s, act));
    }
  }

  lemma ActKeepsEp(ep: Endpoint, h: nat, act: Act)
    requires EpKept(ep) && Enabled(ep, At(h, act))
    ensures EpKept(Acted(ep, h, act)) && Acted(ep, h, act).streams == ep.streams[h := After(ep.streams[h], act)]
    ensures EpOk(ep) ==> EpOk(Acted(ep, h, act))
  {
    ActKeepsStream(ep.streams[h], ep.closed, act);
    ActKeepsTable(ep, h, act);
  }

  lemma PutKeepsEp(ep: Endpoint, h: nat, s: Stream)
    requires EpKept(ep) && h < |ep.streams|
    requires StreamOk(s) && s.id == ep.streams[h].id && Held(s) == Held(ep.streams[h])
    ensures EpKept(Put(ep, h, s)) && (EpOk(ep) ==> EpOk(Put(ep, h, s)))
  {
    PutKeepsTable(ep, h, s);
  }

  lemma RegisterKeepsEp(ep: Endpoint, s: Stream)
    requires EpKept(ep) && !ep.closed && StreamOk(s) && Held(s)
    ensures EpKept(Register(ep, s)) && Register(ep, s).streams == ep.streams + [s]
    ensures EpOk(ep) && s.id != 0 ==> EpOk(Register(ep, s))
  {
    RegisterKeepsTable(ep, s);
  }

  lemma SameTable(ep: Endpoint, ep': Endpoint)
    requires TableExact(ep) && ep'.streams == ep.streams && ep'.table == ep.table
    ensures TableExact(ep')
  {
    assert forall h :: 0 <= h < |ep.streams| ==> (InTable(ep', h) <==> InTable(ep, h));
  }

  lemma ShutKeepsEp(ep: Endpoint, err: string)
    requires EpKept(ep)
    ensures EpKept(Shut(ep, err)) && Shut(ep, err).streams == ep.streams
    ensures EpOk(ep) ==> EpOk(Shut(ep, err))
  {
    SameTable(ep, Shut(ep, err));
  }

  /** The loop of `shutdown` moves on from a stream that has left the table. */
  lemma TurnKeepsEp(ep: Endpoint, h: nat)
    requires EpKept(ep) && Enabled(ep, ShutdownTurn(h))
    ensures EpKept(ep.(pending := ep.pending - {h})) && (EpOk(ep) ==> EpOk(ep.(pending := ep.pending - {h})))
  {
    SameTable(ep, ep.(pending := ep.pending - {h}));
    assert !InTable(ep, h);
    assert forall id :: id in ep.table ==> InTable(ep, ep.table[id]);
  }

  // ---- every move keeps the invariant ----

  lemma TaggedPut(streams: seq<Stream>, numbers: seq<nat>, ids: seq<nat>, h: nat, s: Stream)
    requires Tagged(streams, numbers, ids) && h < |streams| && s.id == streams[h].id
    requires Quiet(streams[h]) ==> Quiet(s)
    ensures Tagged(streams[h := s], numbers, ids)
  {
  }

  /** The pair of an opening survives a move that touches neither its streams nor its frames. */
  lemma PairsElsewhere(w: World, w': World, n: nat)
    requires Pairs(w) && n < |w.past.ids| && w'.past.ids == w.past.ids
    requires Find(w'.local.streams, w'.past.mine, n) == Find(w.local.streams, w.past.mine, n)
    requires w'.remote == w.remote && w'.past.yours == w.past.yours
    requires Channel(w'.out, w.past.ids, n) == Channel(w.out, w.past.ids, n)
    requires Channel(w'.inn, w.past.ids, n) == Channel(w.inn, w.past.ids, n)
    ensures PairAt(w', n)
  {
    assert PairAt(w, n);
  }

  lemma WrittenID(s: Stream, a: Act)
    ensures |Written(s, a)| <= 1
    ensures Written(s, a) != [] ==> Written(s, a)[0].id == s.id && !Written(s, a)[0].Control?
  {
  }

  /** No act undoes a forced close, goes back to the start of `Open`, or opens a finished direction again. */
  lemma ActKeepsQuiet(s: Stream, sessionClosed: bool, a: Act)
    requires CanAct(s, sessionClosed, a) && Quiet(s)
    ensures Quiet(After(s, a))
  {
    if Retired(s) {
      assert Retired(After(s, a));
    } else {
      assert Drained(After(s, a));
    }
  }

  lemma WireOkAppend(wire: seq<Msg>, more: seq<Msg>, ids: seq<nat>)
    requires WireOk(wire, ids) && WireOk(more, ids)
    ensures WireOk(wire + more, ids)
  {
  }

  lemma {:induction false} ActKeepsSound(w: World, h: nat, act: Act)
    requires Sound(w) && Possible(w, Do(At(h, act)))
    ensures Sound(Next(w, Do(At(h, act))))
    ensures Next(w, Do(At(h, act))).local.streams == w.local.streams[h := After(w.local.streams[h], act)]
    ensures Next(w, Do(At(h, act))).past == w.past
    ensures Written(w.local.streams[h], act) != [] ==> Current(w.past.ids, w.past.mine[h])
  {
    var s := w.local.streams[h];
    ActKeepsEp(w.local, h, act);
    ActKeepsStream(s, w.local.closed, act);
    WrittenID(s, act);
    if Written(s, act) != [] {
      assert s.id in w.past.ids;
    }
    if Quiet(s) {
      ActKeepsQuiet(s, w.local.closed, act);
    }
    TaggedPut(w.local.streams, w.past.mine, w.past.ids, h, After(s, act));
    WireOkAppend(w.out, Written(s, act), w.past.ids);
  }

  lemma {:induction false} ActKeepsInv(w: World, h: nat, act: Act)
    requires Inv(w) && Possible(w, Do(At(h, act)))
    ensures Inv(Next(w, Do(At(h, act))))
  {
    var w' := Next(w, Do(At(h, act)));
    var s, n0, ids := w.local.streams[h], w.past.mine[h], w.past.ids;
    ActKeepsSound(w, h, act);
    WrittenID(s, act);
    forall n | 0 <= n < |ids| ensures PairAt(w', n) {
      FindPut(w.local.streams, w.past.mine, h, After(s, act), n);
      ChannelAppend(w.out, Written(s, act), ids, n0, n);
      if n == n0 {
        FindAt(w.local.streams, w.past.mine, h);
        assert PairAt(w, n);
        ActKeepsPair(s, Find(w.remote.streams, w.past.yours, n), w.local.closed, act,
                     Channel(w.out, ids, n), Channel(w.inn, ids, n));
      } else {
        PairsElsewhere(w, w', n);
      }
    }
  }

  /** A new opening: the streams of earlier openings of its ID are quiet. */
  lemma TaggedOpen(streams: seq<Stream>, numbers: seq<nat>, ids: seq<nat>, id: nat)
    requires Tagged(streams, numbers, ids)
    requires forall s :: s in streams && s.id == id ==> Quiet(s)
    ensures Tagged(streams, numbers, ids + [id])
  {
    forall h | 0 <= h < |streams| && !Quiet(streams[h]) ensures Current(ids + [id], numbers[h]) {
      CurrentAppend(ids, id, numbers[h]);
    }
  }

  lemma TaggedAppend(streams: seq<Stream>, numbers: seq<nat>, ids: seq<nat>, s: Stream, x: nat)
    requires Tagged(streams, numbers, ids) && Current(ids, x) && ids[x] == s.id && x !in numbers
    ensures Tagged(streams + [s], numbers + [x], ids)
  {
    forall h | 0 <= h < |streams| && streams[h].id == s.id ensures numbers[h] < x {
      LatestIsLargest(ids, numbers[h]);
    }
  }

  /** An opening that is superseded had no frames left; the others keep theirs. */
  lemma ChannelOpen(wire: seq<Msg>, ids: seq<nat>, id: nat, n: nat)
    requires n <= |ids| && forall m :: m in wire ==> m.id != id
    ensures Channel(wire, ids + [id], n) == if n == |ids| then [] else Channel(wire, ids, n)
  {
    CurrentAppend(ids, id, n);
    OnlyNone(wire, id);
  }

  lemma {:induction false} OpenKeepsSound(w: World, request: OpenRequest)
    requires Sound(w) && Possible(w, Do(OpenCall(request)))
    ensures Sound(Next(w, Do(OpenCall(request))))
  {
    var s := OpenedStream(w.local, request);
    var ids, n0 := w.past.ids, |w.past.ids|;
    SameTable(w.local, w.local.(nextID := w.local.nextID + 1));
    RegisterKeepsEp(w.local.(nextID := w.local.nextID + 1), s);
    TaggedOpen(w.local.streams, w.past.mine, ids, s.id);
    TaggedOpen(w.remote.streams, w.past.yours, ids, s.id);
    LatestAppend(ids, s.id, s.id);
    TaggedAppend(w.local.streams, w.past.mine, ids + [s.id], s, n0);
  }

  lemma {:induction false} OpenKeepsInv(w: World, request: OpenRequest)
    requires Inv(w) && Possible(w, Do(OpenCall(request)))
    ensures Inv(Next(w, Do(OpenCall(request))))
  {
    var w' := Next(w, Do(OpenCall(request)));
    var s := OpenedStream(w.local, request);
    var ids, n0 := w.past.ids, |w.past.ids|;
    OpenKeepsSound(w, request);
    LatestAppend(ids, s.id, s.id);
    assert w'.past == Past(ids + [s.id], w.past.mine + [n0], w.past.yours, w.past.calls + [request]);
    assert w'.out == w.out && w'.local.streams == w.local.streams + [s];
    forall n | 0 <= n < |w'.past.ids| ensures PairAt(w', n) {
      FindAppend(w.local.streams, w.past.mine, s, n0, n);
      ChannelOpen(w.out, ids, s.id, n);
      ChannelOpen(w.inn, ids, s.id, n);
      if n == n0 {
        assert Find(w.remote.streams, w.past.yours, n0) == None;
        OpenKeepsPair(s, [], []);
      } else {
        assert PairAt(w, n);
      }
    }
  }

  lemma {:induction false} QuietKeepsInv(w: World, w': World)
    requires Inv(w) && EpOk(w'.local) && w'.local.streams == w.local.streams
    requires w'.remote == w.remote && w'.out == w.out && w'.inn == w.inn && w'.past == w.past
    ensures Inv(w')
  {
    forall n | 0 <= n < |w.past.ids| ensures PairAt(w', n) {
      PairsElsewhere(w, w', n);
    }
  }

  lemma {:induction false} DoKeepsInv(w: World, a: Action)
    requires Inv(w) && Possible(w, Do(a))
    ensures Inv(Next(w, Do(a)))
  {
    match a
    case OpenCall(request) => OpenKeepsInv(w, request);
    case BeginShutdown(err) =>
      ShutKeepsEp(w.local, err);
      QuietKeepsInv(w, Next(w, Do(a)));
    case ShutdownTurn(h) =>
      TurnKeepsEp(w.local, h);
      QuietKeepsInv(w, Next(w, Do(a)));
    case SetControl =>
      SameTable(w.local, w.local.(hasControl := true));
      QuietKeepsInv(w, Next(w, Do(a)));
    case At(h, act) => ActKeepsInv(w, h, act);
  }

  lemma {:induction false} SendControlKeepsInv(w: World, kind: byte, body: seq<byte>)
    requires Inv(w)
    ensures Inv(Next(w, SendControl(kind, body)))
  {
    forall n | 0 <= n < |w.past.ids| ensures PairAt(Next(w, SendControl(kind, body)), n) {
      OnlyOne(w.out, Control(0, kind, body), w.past.ids[n]);
      PairsElsewhere(w, Next(w, SendControl(kind, body)), n);
    }
  }

  /** The stream of the latest opening of an ID is the last one registered under it. */
  lemma LatestIsLast(w: World, h: nat)
    requires Sound(w) && h < |w.local.streams| && w.past.mine[h] == Latest(w.past.ids, w.local.streams[h].id)
    ensures Last(w.local.streams, h)
  {
    forall k | h < k < |w.local.streams| ensures w.local.streams[k].id != w.local.streams[h].id {
      LatestIsLargest(w.past.ids, w.past.mine[k]);
    }
  }

  /**
   `lookup` finds the stream of the latest opening of an ID exactly while it is held; until this end
   has one, it may still find a stream of an earlier opening.
   */
  lemma {:induction false} LookupMeansHeld(w: World, id: nat)
    requires Sound(w) && id in w.past.ids
    ensures match Lookup(w.local, id)
            case Some(h) =>
              var s := Find(w.local.streams, w.past.mine, Latest(w.past.ids, id));
              && h < |w.local.streams| && w.local.streams[h].id == id && Held(w.local.streams[h])
              && (s == None || (w.past.mine[h] == Latest(w.past.ids, id) && s == Some(w.local.streams[h])))
            case None =>
              var s := Find(w.local.streams, w.past.mine, Latest(w.past.ids, id));
              s.Some? ==> Gone(s.value) && s.value.id == id
  {
    LatestOf(w.past.ids, id);
    if k :| 0 <= k < |w.local.streams| && w.past.mine[k] == Latest(w.past.ids, id) {
      LatestIsLast(w, k);
      assert StreamOk(w.local.streams[k]) && (InTable(w.local, k) <==> Held(w.local.streams[k]));
      FindAt(w.local.streams, w.past.mine, k);
    }
    if Lookup(w.local, id).Some? {
      var h := Lookup(w.local, id).value;
      assert InTable(w.local, h);
    }
  }

  /** `readLoop` on a stream that the table knows. */
  lemma ReceiveHeld(ep: Endpoint, m: Msg, h: nat)
    requires Lookup(ep, m.id) == Some(h)
    requires !m.Open? && !m.Control? && (m.Data? && m.payload != [] ==> !ep.streams[h].readsClosed)
    ensures Receive(ep, m) == Effect(Put(ep, h, Taken(ep.streams[h], m)), [])
  {
    assert Put(ep, h, ep.streams[h]) == ep;
  }

  lemma OnlyTail(wire: seq<Msg>, id: nat)
    requires wire != []
    ensures Only(wire, id) == (if wire[0].id == id then [wire[0]] else []) + Only(wire[1..], id)
    ensures wire[0].id == id ==> Only(wire, id) != [] && Only(wire, id)[0] == wire[0] && Only(wire, id)[1..] == Only(wire[1..], id)
  {
  }

  lemma WireOkTail(wire: seq<Msg>, ids: seq<nat>)
    requires WireOk(wire, ids) && wire != []
    ensures WireOk(wire[1..], ids)
    ensures wire[0].Control? <==> wire[0].id == 0
    ensures wire[0].id != 0 ==> wire[0].id in ids
  {
    assert wire[0] in wire;
    assert forall m :: m in wire[1..] ==> m in wire;
  }

  /** The frame that comes next is the first one of the latest opening of its ID. */
  lemma NextInChannel(w: World)
    requires Sound(w) && w.inn != [] && w.inn[0].id != 0
    ensures w.inn[0].id in w.past.ids
    ensures var n0 := Latest(w.past.ids, w.inn[0].id);
            && n0 < |w.past.ids| && w.past.ids[n0] == w.inn[0].id
            && Channel(w.inn, w.past.ids, n0) != [] && Channel(w.inn, w.past.ids, n0)[0] == w.inn[0]
            && Channel(w.inn, w.past.ids, n0)[1..] == Channel(w.inn[1..], w.past.ids, n0)
  {
    WireOkTail(w.inn, w.past.ids);
    LatestOf(w.past.ids, w.inn[0].id);
    OnlyTail(w.inn, w.inn[0].id);
  }

  lemma TakenHolds(s: Stream, m: Msg)
    ensures Held(Taken(s, m)) == Held(s)
    ensures Quiet(s) && (m.Data? && m.payload != [] ==> !s.remoteEOF) ==> Quiet(Taken(s, m))
  {
    assert Retired(s) ==> Retired(Taken(s, m));
  }

  /** The stream that takes the frame, and what the read loop makes of it. */
  lemma {:induction false} TakeHeld(w: World, h: nat)
    requires Inv(w) && w.inn != [] && !Exposed(w.local, w.inn[0]) && w.inn[0].id != 0 && !w.inn[0].Open?
    requires Lookup(w.local, w.inn[0].id) == Some(h)
    ensures w.inn[0].id in w.past.ids && h < |w.local.streams| == |w.past.mine|
    ensures w.local.streams[h].id == w.inn[0].id && w.past.mine[h] == Latest(w.past.ids, w.inn[0].id)
    ensures w.past.mine[h] < |w.past.ids|
    ensures w.inn[0].Data? && w.inn[0].payload != [] ==> !w.local.streams[h].readsClosed
    ensures var n0, s' := w.past.mine[h], Taken(w.local.streams[h], w.inn[0]);
            && StreamOk(s') && s'.id == w.inn[0].id
            && Held(s') == Held(w.local.streams[h]) && (Quiet(w.local.streams[h]) ==> Quiet(s'))
            && Receive(w.local, w.inn[0]) == Effect(Put(w.local, h, s'), [])
            && PairOk(Some(s'), Find(w.remote.streams, w.past.yours, n0),
                      Channel(w.out, w.past.ids, n0), Channel(w.inn[1..], w.past.ids, n0))
  {
    var m := w.inn[0];
    var s := w.local.streams[h];
    NextInChannel(w);
    LookupMeansHeld(w, m.id);
    WireOkTail(w.inn, w.past.ids);
    var n0 := Latest(w.past.ids, m.id);
    assert PairAt(w, n0);
    if Find(w.local.streams, w.past.mine, n0).None? {
      StrayIsOpen(Find(w.remote.streams, w.past.yours, n0), Channel(w.out, w.past.ids, n0), Channel(w.inn, w.past.ids, n0));
      assert false;
    }
    TakeInPair(w.local, h, m, Find(w.remote.streams, w.past.yours, n0),
               Channel(w.out, w.past.ids, n0), Channel(w.inn, w.past.ids, n0));
  }

  lemma {:induction false} TakeInPair(ep: Endpoint, h: nat, m: Msg, r: Option<Stream>, out: seq<Msg>, inn: seq<Msg>)
    requires Lookup(ep, m.id) == Some(h) && Held(ep.streams[h]) && StreamOk(ep.streams[h]) && !Exposed(ep, m)
    requires PairOk(Some(ep.streams[h]), r, out, inn) && inn != [] && inn[0] == m
    ensures m.Data? && m.payload != [] ==> !ep.streams[h].readsClosed
    ensures var s' := Taken(ep.streams[h], m);
            && StreamOk(s') && s'.id == ep.streams[h].id
            && Held(s') == Held(ep.streams[h]) && (Quiet(ep.streams[h]) ==> Quiet(s'))
            && Receive(ep, m) == Effect(Put(ep, h, s'), [])
            && PairOk(Some(s'), r, out, inn[1..])
  {
    NoStrayOpen(ep.streams[h], r, out, inn);
    TakeKeepsPair(ep.streams[h], r, out, inn);
    ReceiveHeld(ep, m, h);
    TakenKeepsStream(ep.streams[h], m);
    TakenHolds(ep.streams[h], m);
  }

  lemma PutKeepsSound(w: World, h: nat, s: Stream)
    requires Sound(w) && h < |w.local.streams| && w.inn != []
    requires StreamOk(s) && s.id == w.local.streams[h].id
    requires Held(s) == Held(w.local.streams[h]) && (Quiet(w.local.streams[h]) ==> Quiet(s))
    ensures Sound(w.(local := Put(w.local, h, s), inn := w.inn[1..]))
  {
    WireOkTail(w.inn, w.past.ids);
    PutKeepsEp(w.local, h, s);
    TaggedPut(w.local.streams, w.past.mine, w.past.ids, h, s);
  }

  /** A frame that changes one stream and nothing else. */
  lemma TakeIsPut(w: World, h: nat, s: Stream)
    requires Raw(w, Take) && h < |w.local.streams| && Receive(w.local, w.inn[0]) == Effect(Put(w.local, h, s), [])
    ensures Next(w, Take) == w.(local := Put(w.local, h, s), inn := w.inn[1..])
  {
    assert w.out + [] == w.out;
  }

  lemma {:induction false} TakeHeldKeepsInv(w: World, h: nat)
    requires Inv(w) && Raw(w, Take) && w.inn[0].id != 0 && !w.inn[0].Open?
    requires Lookup(w.local, w.inn[0].id) == Some(h)
    ensures Inv(Next(w, Take))
  {
    var s', w' := Taken(w.local.streams[h], w.inn[0]), Next(w, Take);
    TakeHeld(w, h);
    TakeIsPut(w, h, s');
    PutKeepsSound(w, h, s');
    forall n | 0 <= n < |w.past.ids| ensures PairAt(w', n) {
      FindPut(w.local.streams, w.past.mine, h, s', n);
      ChannelTail(w.inn, w.past.ids, n);
      if n != w.past.mine[h] {
        PairsElsewhere(w, w', n);
      }
    }
  }

  lemma AnswerOk(reply: seq<Msg>, id: nat, ids: seq<nat>)
    requires id != 0 && id in ids && (reply == [] || (|reply| == 1 && reply[0].id == id && !reply[0].Control?))
    ensures WireOk(reply, ids)
  {
  }

  /** A frame is dropped, with at most one frame in answer, and the near end stays as it is. */
  lemma {:induction false} AnswerKeepsInv(w: World, w': World, reply: seq<Msg>)
    requires Inv(w) && w.inn != [] && w.inn[0].id != 0 && w.inn[0].id in w.past.ids
    requires reply == [] || (|reply| == 1 && reply[0].id == w.inn[0].id && !reply[0].Control?)
    requires w' == World(w.local, w.remote, w.out + reply, w.inn[1..], w.past)
    requires var n0, ids := Latest(w.past.ids, w.inn[0].id), w.past.ids;
             n0 < |ids| && ids[n0] == w.inn[0].id &&
             PairOk(Find(w.local.streams, w.past.mine, n0), Find(w.remote.streams, w.past.yours, n0),
                    Channel(w.out, ids, n0) + reply, Channel(w.inn[1..], ids, n0))
    ensures Inv(w')
  {
    var n0, ids := Latest(w.past.ids, w.inn[0].id), w.past.ids;
    WireOkTail(w.inn, ids);
    assert WireOk(reply, ids) by {
      AnswerOk(reply, w.inn[0].id, ids);
    }
    WireOkAppend(w.out, reply, ids);
    forall n | 0 <= n < |ids| ensures PairAt(w', n) {
      ChannelAppend(w.out, reply, ids, n0, n);
      ChannelTail(w.inn, ids, n);
      if n != n0 {
        PairsElsewhere(w, w', n);
      }
    }
  }

  /** A frame for an ID the table does not know changes no stream of this end, unless it registers one. */
  lemma {:induction false} TakeStrayKeepsInv(w: World)
    requires Inv(w) && Raw(w, Take) && w.inn[0].id != 0
    requires Lookup(w.local, w.inn[0].id) == None && !w.inn[0].Open?
    ensures Inv(Next(w, Take))
  {
    var m := w.inn[0];
    var reply := Receive(w.local, m).out;
    NextInChannel(w);
    LookupMeansHeld(w, m.id);
    WireOkTail(w.inn, w.past.ids);
    var n0 := Latest(w.past.ids, m.id);
    assert PairAt(w, n0);
    var s, r := Find(w.local.streams, w.past.mine, n0), Find(w.remote.streams, w.past.yours, n0);
    if s.None? {
      StrayIsOpen(r, Channel(w.out, w.past.ids, n0), Channel(w.inn, w.past.ids, n0));
      assert false;
    }
    DropKeepsPair(s.value, r, Channel(w.out, w.past.ids, n0), Channel(w.inn, w.past.ids, n0), reply);
    AnswerKeepsInv(w, Next(w, Take), reply);
  }

  /** The peer's Open reaches an end that has no stream of that opening yet. */
  lemma {:induction false} OpenIsFirst(w: World)
    requires Inv(w) && w.inn != [] && w.inn[0].Open?
    ensures w.inn[0].id != 0 && w.inn[0].id in w.past.ids
    ensures var n0 := Latest(w.past.ids, w.inn[0].id);
            var o := Find(w.remote.streams, w.past.yours, n0);
            && n0 < |w.past.ids| && w.past.ids[n0] == w.inn[0].id
            && Find(w.local.streams, w.past.mine, n0) == None && o.Some? && o.value.role == Opener
            && w.inn[0] == Open(o.value.id, o.value.request) && o.value.request.requestID == o.value.id == w.inn[0].id
            && o.value.request.protocol != ""
  {
    WireOkTail(w.inn, w.past.ids);
    NextInChannel(w);
    var n0 := Latest(w.past.ids, w.inn[0].id);
    assert PairAt(w, n0);
    OpenFindsNobody(Find(w.local.streams, w.past.mine, n0), Find(w.remote.streams, w.past.yours, n0),
                    Channel(w.out, w.past.ids, n0), Channel(w.inn, w.past.ids, n0));
  }

  lemma {:induction false} OpenFindsNobody(s: Option<Stream>, r: Option<Stream>, out: seq<Msg>, inn: seq<Msg>)
    requires PairOk(s, r, out, inn) && inn != [] && inn[0].Open?
    ensures s == None && r.Some? && r.value.role == Opener && inn[0] == Open(r.value.id, r.value.request)
    ensures r.value.request.requestID == r.value.id && r.value.request.protocol != ""
  {
    if s.Some? {
      NoStrayOpen(s.value, r, out, inn);
      assert false;
    }
    StrayIsOpen(r, out, inn);
  }

  lemma NotYetHere(w: World, id: nat)
    requires Sound(w) && id in w.past.ids && Find(w.local.streams, w.past.mine, Latest(w.past.ids, id)) == None
    ensures Latest(w.past.ids, id) !in w.past.mine
  {
  }

  /** The peer's Open is taken: the new stream joins its opening. */
  lemma {:induction false} AcceptKeepsInv(w: World, s: Stream)
    requires Inv(w) && Raw(w, Take) && w.inn[0].Open? && !w.local.closed
    requires var o := Find(w.remote.streams, w.past.yours, Latest(w.past.ids, w.inn[0].id));
             o.Some? && s == NewStream(w.inn[0].id, Acceptor, Live, o.value.request)
    requires Receive(w.local, w.inn[0]) == Effect(Register(w.local, s), [])
    ensures Inv(Next(w, Take))
  {
    var w', n0, ids := Next(w, Take), Latest(w.past.ids, w.inn[0].id), w.past.ids;
    OpenIsFirst(w);
    NextInChannel(w);
    NotYetHere(w, s.id);
    WireOkTail(w.inn, ids);
    RegisterKeepsEp(w.local, s);
    TaggedAppend(w.local.streams, w.past.mine, ids, s, n0);
    assert w'.out == w.out && w'.past == w.past.(mine := w.past.mine + [n0]);
    assert PairAt(w, n0);
    RegisterKeepsPair(Find(w.remote.streams, w.past.yours, n0), Channel(w.out, ids, n0), Channel(w.inn, ids, n0));
    forall n | 0 <= n < |ids| ensures PairAt(w', n) {
      FindAppend(w.local.streams, w.past.mine, s, n0, n);
      ChannelTail(w.inn, ids, n);
      if n != n0 {
        PairsElsewhere(w, w', n);
      }
    }
  }

  lemma {:induction false} TakeOpenKeepsInv(w: World)
    requires Inv(w) && Raw(w, Take) && w.inn[0].Open?
    ensures Inv(Next(w, Take))
  {
    var m := w.inn[0];
    OpenIsFirst(w);
    NextInChannel(w);
    var n0 := Latest(w.past.ids, m.id);
    var o := Find(w.remote.streams, w.past.yours, n0);
    if DecodeOpen(m.id, m.request).Ok? && !w.local.closed {
      AcceptKeepsInv(w, NewStream(m.id, Acceptor, Live, o.value.request));
    } else {
      var reply := Receive(w.local, m).out;
      assert PairAt(w, n0);
      RefuseKeepsPair(o, Channel(w.out, w.past.ids, n0), Channel(w.inn, w.past.ids, n0), reply);
      AnswerKeepsInv(w, Next(w, Take), reply);
    }
  }

  lemma {:induction false} TakeControlKeepsInv(w: World)
    requires Inv(w) && Raw(w, Take) && w.inn[0].Control?
    ensures Inv(Next(w, Take))
  {
    var w' := Next(w, Take);
    WireOkTail(w.inn, w.past.ids);
    ShutKeepsEp(w.local, "unexpected control frame");
    assert w'.out == w.out;
    forall n | 0 <= n < |w.past.ids| ensures PairAt(w', n) {
      ChannelTail(w.inn, w.past.ids, n);
      PairsElsewhere(w, w', n);
    }
  }

  /** Every move of either end keeps the invariant. */
  lemma {:induction false} NextKeepsInv(w: World, mv: Move)
    requires Inv(w) && Possible(w, mv)
    ensures Inv(Next(w, mv))
  {
    match mv
    case Do(a) => DoKeepsInv(w, a);
    case SendControl(kind, body) => SendControlKeepsInv(w, kind, body);
    case Take =>
      WireOkTail(w.inn, w.past.ids);
      if w.inn[0].Control? {
        TakeControlKeepsInv(w);
      } else if w.inn[0].Open? {
        TakeOpenKeepsInv(w);
      } else {
        match Lookup(w.local, w.inn[0].id)
        case Some(h) => TakeHeldKeepsInv(w, h);
        case None => TakeStrayKeepsInv(w);
      }
  }
}
