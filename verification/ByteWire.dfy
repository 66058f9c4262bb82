/**
 The same session over wires that carry bytes. Frames are written with `WriteFrame` and parsed
 back with `ReadFrame`, and a connection may be cut at any byte. Every byte-level run is
 matched, step for step, by a run of the frame-level session, so its theorems carry over.
 */
module ByteWire {
  import opened Common
  import opened Streams
  import opened Sessions
  import opened Protocol
  import opened SessionRuns
  import opened Frames

  const FRAME_OPEN: byte := 7
  const FRAME_OPEN_ACK: byte := 8
  const FRAME_DATA: byte := 9
  const FRAME_CLOSE: byte := 10
  const FRAME_ERROR: byte := 11

  /** The JSON encodings of the three records the session layer sends. */
  datatype Codec = Codec(
    openEnc: OpenRequest -> seq<byte>, openDec: seq<byte> -> Option<OpenRequest>,
    ackEnc: Ack -> seq<byte>, ackDec: seq<byte> -> Option<Ack>,
    errEnc: string -> seq<byte>, errDec: seq<byte> -> Option<string>)

  /** Unmarshal undoes Marshal. */
  ghost predicate Faithful(c: Codec) {
    && (forall r :: c.openDec(c.openEnc(r)) == Some(r))
    && (forall a :: c.ackDec(c.ackEnc(a)) == Some(a))
    && (forall e :: c.errDec(c.errEnc(e)) == Some(e))
  }

  function ToFrame(c: Codec, m: Msg): Frame {
    match m
    case Open(id, request) => Frame(FRAME_OPEN, id, c.openEnc(request))
    case OpenAck(id, ack) => Frame(FRAME_OPEN_ACK, id, c.ackEnc(ack))
    case Data(id, payload) => Frame(FRAME_DATA, id, payload)
    case Close(id) => Frame(FRAME_CLOSE, id, [])
    case Error(id, message) => Frame(FRAME_ERROR, id, c.errEnc(message))
    case Control(id, kind, body) => Frame(kind, id, body)
  }

  function FromFrame(c: Codec, f: Frame): Option<Msg> {
    if f.kind == FRAME_OPEN then
      (match c.openDec(f.payload) case None => None case Some(r) => Some(Open(f.id, r)))
    else if f.kind == FRAME_OPEN_ACK then
      (match c.ackDec(f.payload) case None => None case Some(a) => Some(OpenAck(f.id, a)))
    else if f.kind == FRAME_DATA then Some(Data(f.id, f.payload))
    else if f.kind == FRAME_CLOSE then Some(Close(f.id))
    else if f.kind == FRAME_ERROR then
      (match c.errDec(f.payload) case None => None case Some(e) => Some(Error(f.id, e)))
    else Some(Control(f.id, f.kind, f.payload))
  }

  /** The frames that go out: within the size limit, a 64-bit ID, and control types outside the session's own. */
  predicate Fits(c: Codec, m: Msg) {
    && Writable(ToFrame(c, m))
    && (m.Control? ==> !(FRAME_OPEN <= m.kind <= FRAME_ERROR))
  }

  lemma MsgRoundTrip(c: Codec, m: Msg)
    requires Faithful(c) && Fits(c, m)
    ensures FromFrame(c, ToFrame(c, m)) == Some(m)
  {
  }

  /** Every chunk `Write` frames is within the limit `ReadFrame` enforces. */
  lemma {:induction false} ChunksFit(c: Codec, s: Stream, sessionClosed: bool, data: seq<byte>, tail: seq<byte>)
    requires CanAct(s, sessionClosed, WriteChunk(data)) && s.id < Pow256(8)
    ensures Fits(c, Data(s.id, data))
    ensures ReadFrame(Encode(ToFrame(c, Data(s.id, data))) + tail) == Got(Frame(FRAME_DATA, s.id, data), tail)
  {
    ReadWritten(ToFrame(c, Data(s.id, data)), tail);
  }

  function Bytes(c: Codec, ms: seq<Msg>): seq<byte> {
    if ms == [] then [] else Encode(ToFrame(c, ms[0])) + Bytes(c, ms[1..])
  }

  lemma {:induction false} BytesAppend(c: Codec, a: seq<Msg>, b: seq<Msg>)
    ensures Bytes(c, a + b) == Bytes(c, a) + Bytes(c, b)
  {
    if a == [] {
      assert a + b == b;
    } else {
      FirstOfConcat(a, b);
      BytesAppend(c, a[1..], b);
      Associate(Encode(ToFrame(c, a[0])), Bytes(c, a[1..]), Bytes(c, b));
    }
  }

  // ---- one wire ----

  datatype Pipe = Pipe(bytes: seq<byte>, cut: bool)

  /** Frames written after the cut are lost. */
  function Send(c: Codec, p: Pipe, ms: seq<Msg>): Pipe {
    if p.cut then p else p.(bytes := p.bytes + Bytes(c, ms))
  }

  ghost predicate Carries(c: Codec, p: Pipe, ms: seq<Msg>) {
    && (forall m :: m in ms ==> Fits(c, m))
    && p.bytes <= Bytes(c, ms)
    && (!p.cut ==> p.bytes == Bytes(c, ms))
  }

  lemma {:induction false} SendCarries(c: Codec, p: Pipe, ms: seq<Msg>, more: seq<Msg>)
    requires Carries(c, p, ms) && forall m :: m in more ==> Fits(c, m)
    ensures Carries(c, Send(c, p, more), ms + more)
  {
    BytesAppend(c, ms, more);
  }

  /** A complete frame at the front of the pipe is the first frame on the wire. */
  lemma {:induction false} ParseCarries(c: Codec, p: Pipe, ms: seq<Msg>)
    requires Faithful(c) && Carries(c, p, ms) && ReadFrame(p.bytes).Got?
    ensures ms != []
    ensures FromFrame(c, ReadFrame(p.bytes).frame) == Some(ms[0])
    ensures Carries(c, p.(bytes := ReadFrame(p.bytes).rest), ms[1..])
  {
    ReadIsCanonical(p.bytes);
    if ms == [] {
      assert false;
    }
    var f := ToFrame(c, ms[0]);
    assert ms[0] in ms;
    MsgRoundTrip(c, ms[0]);
    var all := Bytes(c, ms);
    var tail := Bytes(c, ms[1..]);
    if |p.bytes| < |Encode(f)| {
      assert p.bytes == Encode(f)[..|p.bytes|];
      CutFrameFails(f, |p.bytes|);
      assert false;
    }
    PrefixSplit(p.bytes, Encode(f), tail);
    ReadWritten(f, p.bytes[|Encode(f)|..]);
    assert forall m :: m in ms[1..] ==> m in ms;
  }

  lemma PrefixSplit<T>(p: seq<T>, a: seq<T>, b: seq<T>)
    requires p <= a + b && |a| <= |p|
    ensures p == a + p[|a|..] && p[|a|..] <= b
    ensures p == a + b ==> p[|a|..] == b
  {
  }

  // ---- the byte-level session ----

  /** `past` is the same history that the frame-level session keeps. */
  datatype ByteWorld = ByteWorld(local: Endpoint, remote: Endpoint, out: Pipe, inn: Pipe, past: Past)

  function FlipBytes(b: ByteWorld): ByteWorld {
    ByteWorld(b.remote, b.local, b.inn, b.out, Past(b.past.ids, b.past.yours, b.past.mine, b.past.calls))
  }

  function StartBytes(localBuffer: nat, remoteBuffer: nat): ByteWorld {
    ByteWorld(NewEndpoint(localBuffer), NewEndpoint(remoteBuffer), Pipe([], false), Pipe([], false), Past([], [], [], []))
  }

  /** The pipe is whole, and no frame in it has this ID. */
  ghost predicate Idle(p: Pipe, id: nat) {
    !p.cut && forall f :: f in ReadAll(p.bytes).frames ==> f.id != id
  }

  /**
   An ID that has never been opened; or one whose streams are all retired or drained, on connections that
   are whole and carry no frame of it.
   */
  ghost predicate ByteReusable(b: ByteWorld, id: nat) {
    || id !in b.past.ids
    || (&& (forall s :: s in b.local.streams + b.remote.streams && s.id == id ==> Quiet(s))
        && Idle(b.out, id) && Idle(b.inn, id))
  }

  datatype ByteMove =
    | ByteDo(action: Action)
    | ByteTake                        // ReadFrame returns a frame
    | ByteEnd(err: string)            // ReadFrame fails on the cut connection: readLoop shuts down
    | ByteControl(kind: byte, body: seq<byte>)
    | CutAt(k: nat)                   // the outgoing connection loses all but its first k bytes

  ghost predicate BytePossible(c: Codec, b: ByteWorld, mv: ByteMove) {
    match mv
    case ByteDo(a) =>
      && Enabled(b.local, a)
      && (forall m :: m in Apply(b.local, a).out ==> Fits(c, m))
      && (a.OpenCall? ==> ByteReusable(b, OpenID(b.local, a.request)))
      && Quits(b.past, b.local, a)
    case ByteTake =>
      && ReadFrame(b.inn.bytes).Got?
      && FromFrame(c, ReadFrame(b.inn.bytes).frame).Some?
      && CanReceive(b.local, FromFrame(c, ReadFrame(b.inn.bytes).frame).value)
      && !Exposed(b.local, FromFrame(c, ReadFrame(b.inn.bytes).frame).value)
      && (forall m :: m in Receive(b.local, FromFrame(c, ReadFrame(b.inn.bytes).frame).value).out ==> Fits(c, m))
    case ByteEnd(_) => b.inn.cut && ReadFrame(b.inn.bytes).NoFrame?
    case ByteControl(kind, body) => Fits(c, Control(0, kind, body))
    case CutAt(k) => k <= |b.out.bytes|
  }

  ghost function ByteNext(c: Codec, b: ByteWorld, mv: ByteMove): ByteWorld
    requires BytePossible(c, b, mv)
  {
    match mv
    case ByteDo(a) =>
      var e := Apply(b.local, a);
      b.(local := e.ep, out := Send(c, b.out, e.out), past := PastDo(b.past, b.local, a))
    case ByteTake =>
      var r := ReadFrame(b.inn.bytes);
      var m := FromFrame(c, r.frame).value;
      var e := Receive(b.local, m);
      ByteWorld(e.ep, b.remote, Send(c, b.out, e.out), b.inn.(bytes := r.rest), PastTake(b.past, b.local, m))
    case ByteEnd(err) => b.(local := Shut(b.local, err))
    case ByteControl(kind, body) => b.(out := Send(c, b.out, [Control(0, kind, body)]))
    case CutAt(k) => b.(out := Pipe(b.out.bytes[..k], true))
  }

  ghost predicate Matches(c: Codec, b: ByteWorld, w: World) {
    b.local == w.local && b.remote == w.remote && b.past == w.past && Carries(c, b.out, w.out) && Carries(c, b.inn, w.inn)
  }

  /** Every frame written on a whole pipe is found again in its bytes. */
  lemma {:induction false} BytesHold(c: Codec, ms: seq<Msg>, m: Msg)
    requires (forall x :: x in ms ==> Fits(c, x)) && m in ms
    ensures ToFrame(c, m) in ReadAll(Bytes(c, ms)).frames
  {
    assert ms[0] in ms;
    ReadAllStep(ToFrame(c, ms[0]), Bytes(c, ms[1..]));
    if m != ms[0] {
      assert forall x :: x in ms[1..] ==> x in ms;
      BytesHold(c, ms[1..], m);
    }
  }

  lemma {:induction false} IdleMeansNone(c: Codec, p: Pipe, ms: seq<Msg>, id: nat)
    requires Carries(c, p, ms) && Idle(p, id)
    ensures forall m :: m in ms ==> m.id != id
  {
    forall m | m in ms ensures m.id != id {
      BytesHold(c, ms, m);
    }
  }

  /** What may be opened over bytes may be opened over frames. */
  lemma {:induction false} ReusableMatches(c: Codec, b: ByteWorld, w: World, id: nat)
    requires Sound(w) && Matches(c, b, w) && ByteReusable(b, id) && id != 0
    ensures Reusable(w, id)
  {
    if id in b.past.ids {
      IdleMeansNone(c, b.out, w.out, id);
      IdleMeansNone(c, b.inn, w.inn, id);
    }
  }

  /** Each byte-level move is a move of the frame-level session, or changes nothing in it. */
  lemma {:induction false} ByteMoveMatches(c: Codec, b: ByteWorld, w: World, mv: ByteMove) returns (mine: Option<Move>)
    requires Faithful(c) && Sound(w) && Matches(c, b, w) && BytePossible(c, b, mv)
    ensures match mine
            case None => Matches(c, ByteNext(c, b, mv), w)
            case Some(m) => Possible(w, m) && Matches(c, ByteNext(c, b, mv), Next(w, m))
  {
    match mv
    case ByteDo(a) =>
      mine := Some(Do(a));
      if a.OpenCall? {
        ReusableMatches(c, b, w, OpenID(b.local, a.request));
      }
      SendCarries(c, b.out, w.out, Apply(b.local, a).out);
    case ByteTake =>
      mine := Some(Take);
      ParseCarries(c, b.inn, w.inn);
      SendCarries(c, b.out, w.out, Receive(b.local, w.inn[0]).out);
    case ByteEnd(err) =>
      mine := Some(Do(BeginShutdown(err)));
      SendCarries(c, b.out, w.out, []);
      assert w.out + [] == w.out;
    case ByteControl(kind, body) =>
      mine := Some(SendControl(kind, body));
      SendCarries(c, b.out, w.out, [Control(0, kind, body)]);
    case CutAt(k) =>
      mine := None;
  }

  // ---- whole runs ----

  datatype ByteLabel = ByteNear(mv: ByteMove) | ByteFar(mv: ByteMove)

  ghost predicate CanByteStep(c: Codec, b: ByteWorld, l: ByteLabel) {
    match l
    case ByteNear(mv) => BytePossible(c, b, mv)
    case ByteFar(mv) => BytePossible(c, FlipBytes(b), mv)
  }

  ghost function ByteStepTo(c: Codec, b: ByteWorld, l: ByteLabel): ByteWorld
    requires CanByteStep(c, b, l)
  {
    match l
    case ByteNear(mv) => ByteNext(c, b, mv)
    case ByteFar(mv) => FlipBytes(ByteNext(c, FlipBytes(b), mv))
  }

  ghost predicate ByteLegal(c: Codec, b: ByteWorld, ls: seq<ByteLabel>)
    decreases |ls|
  {
    ls == [] || (CanByteStep(c, b, ls[0]) && ByteLegal(c, ByteStepTo(c, b, ls[0]), ls[1..]))
  }

  ghost function ByteRun(c: Codec, b: ByteWorld, ls: seq<ByteLabel>): ByteWorld
    requires ByteLegal(c, b, ls)
    decreases |ls|
  {
    if ls == [] then b else ByteRun(c, ByteStepTo(c, b, ls[0]), ls[1..])
  }

  lemma {:induction false} ByteStepMatches(c: Codec, b: ByteWorld, w: World, l: ByteLabel) returns (ls: seq<Label>)
    requires Faithful(c) && Inv(w) && Matches(c, b, w) && CanByteStep(c, b, l)
    ensures Legal(w, ls) && Matches(c, ByteStepTo(c, b, l), Run(w, ls))
  {
    match l
    case ByteNear(mv) =>
      var mine := ByteMoveMatches(c, b, w, mv);
      ls := if mine.None? then [] else [Near(mine.value)];
      OneLabel(w, ls);
    case ByteFar(mv) =>
      FlipInv(w);
      var mine := ByteMoveMatches(c, FlipBytes(b), Flip(w), mv);
      ls := if mine.None? then [] else [Far(mine.value)];
      OneLabel(w, ls);
  }

  lemma OneLabel(w: World, ls: seq<Label>)
    requires |ls| <= 1 && (ls != [] ==> CanStep(w, ls[0]))
    ensures Legal(w, ls) && Run(w, ls) == if ls == [] then w else StepTo(w, ls[0])
  {
    if ls != [] {
      assert ls[1..] == [];
    }
  }

  /** Refinement: for every byte-level run there is a frame-level run to a matching world. */
  lemma {:induction false} ByteRunRefines(c: Codec, b: ByteWorld, w: World, bls: seq<ByteLabel>) returns (ls: seq<Label>)
    requires Faithful(c) && Inv(w) && Matches(c, b, w) && ByteLegal(c, b, bls)
    ensures Legal(w, ls) && Matches(c, ByteRun(c, b, bls), Run(w, ls))
    decreases |bls|
  {
    if bls == [] {
      ls := [];
    } else {
      var first := ByteStepMatches(c, b, w, bls[0]);
      RunKeepsInv(w, first);
      var rest := ByteRunRefines(c, ByteStepTo(c, b, bls[0]), Run(w, first), bls[1..]);
      RunConcat(w, first, rest);
      ls := first + rest;
    }
  }

  ghost predicate ByteReachable(c: Codec, b: ByteWorld) {
    exists x: nat, y: nat, ls :: ByteLegal(c, StartBytes(x, y), ls) && ByteRun(c, StartBytes(x, y), ls) == b
  }

  lemma {:induction false} BytesRefineFrames(c: Codec, b: ByteWorld) returns (w: World)
    requires Faithful(c) && ByteReachable(c, b)
    ensures Reachable(w) && Matches(c, b, w)
  {
    var x: nat, y: nat, bls :| ByteLegal(c, StartBytes(x, y), bls) && ByteRun(c, StartBytes(x, y), bls) == b;
    assert Matches(c, StartBytes(x, y), Start(x, y));
    StartInv(x, y);
    var ls := ByteRunRefines(c, StartBytes(x, y), Start(x, y), bls);
    w := Run(Start(x, y), ls);
  }

  /**
   Over bytes, with connections cut anywhere: every stream reads a prefix of what its peer
   wrote, a clean end of file means all of it, and no channel is used after it was closed.
   */
  lemma {:induction false} BytesAreDelivered(c: Codec, b: ByteWorld, h: nat, k: nat)
    requires Faithful(c) && ByteReachable(c, b)
    requires h < |b.local.streams| && k < |b.remote.streams| && h < |b.past.mine| && k < |b.past.yours|
    requires b.past.mine[h] == b.past.yours[k]
    ensures b.remote.streams[k].got <= b.local.streams[h].sent
    ensures b.remote.streams[k].sawEOF ==> b.remote.streams[k].got == b.local.streams[h].sent
    ensures !b.local.crashed && !b.remote.crashed
  {
    var w := BytesRefineFrames(c, b);
    Conservation(w, h, k);
    NeverPanics(w);
    ReachableInv(w);
    EndsRelated(w, h, k);
  }
}
