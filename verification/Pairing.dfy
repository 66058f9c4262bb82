/**
 What holds between the two ends of one stream. The frames of one ID on each wire form a
 channel of their own; the invariant below relates the two ends and their two channels,
 and every step of either end keeps it.
 */
module Pairing {
  import opened Common
  import opened Streams

  function Payload(m: Msg): seq<byte> { if m.Data? then m.payload else [] }

  /** The bytes carried by the Data frames of a channel. */
  function DataOf(c: seq<Msg>): seq<byte> {
    if c == [] then [] else Payload(c[0]) + DataOf(c[1..])
  }

  lemma {:induction false} DataOfAppend(c: seq<Msg>, m: Msg)
    ensures DataOf(c + [m]) == DataOf(c) + Payload(m)
  {
    var d := c + [m];
    if c == [] {
      assert d[1..] == [];
    } else {
      assert d[0] == c[0] && d[1..] == c[1..] + [m];
      DataOfAppend(c[1..], m);
      Associate(Payload(c[0]), DataOf(c[1..]), Payload(m));
    }
  }

  predicate NoData(c: seq<Msg>) { forall m :: m in c ==> !m.Data? }

  predicate NoClose(c: seq<Msg>) { forall m :: m in c ==> !m.Close? }

  lemma {:induction false} NoDataEmpty(c: seq<Msg>)
    requires NoData(c)
    ensures DataOf(c) == []
  {
    if c != [] {
      assert c[0] in c;
      NoDataEmpty(c[1..]);
    }
  }

  /** No Data frame follows a Close frame. */
  predicate Ordered(c: seq<Msg>) {
    forall i, j :: 0 <= i < j < |c| && c[i].Close? ==> !c[j].Data?
  }

  /** Force-closed, or given up by its `Open`: frames no longer reach this end. */
  predicate Gone(s: Stream) { s.closed || s.phase == Failing }

  /** This end will frame no more data, ever. */
  predicate Finished(s: Stream) { s.localEOF || Gone(s) }

  /** The direction from sender `s` to receiver `r` over the channel `c`. */
  predicate Flow(s: Stream, r: Stream, c: seq<Msg>) {
    && Ordered(c)
    && (Finished(s) || NoClose(c))
    && (r.remoteEOF && !Gone(r) ==> NoData(c) && Finished(s))
    && (!Gone(r) ==> s.sent == Received(r) + DataOf(c))
    && Received(r) <= s.sent
    && (r.sawEOF ==> r.got == s.sent && Finished(s))
  }

  /** The opening exchange: `req` carries frames from opener `o`, `rsp` frames to it. */
  predicate Handshake(o: Stream, a: Option<Stream>, req: seq<Msg>, rsp: seq<Msg>) {
    && o.role == Opener
    && o.request.requestID == o.id
    && o.request.protocol != ""
    && (forall m :: m in req ==> !m.OpenAck? && !m.Control?)
    && (forall m :: m in rsp ==> !m.Open? && !m.Control?)
    && (o.phase == Registered ==> a.None? && req == [])
    && match a
       case None =>
         && (req == [] || (req == [Open(o.id, o.request)] && rsp == []))
         && (o.phase == Registered ==> rsp == [])
         && (forall m :: m in rsp ==> m.Error?)
         && o.phase != Live && o.ack.None?
         && o.got == o.readBuf == [] && o.queue == [] && !o.sawEOF
         && (o.remoteEOF ==> o.closed)
       case Some(p) =>
         && p.role == Acceptor
         && p.request == o.request
         && (forall m :: m in req ==> !m.Open?)
         && (forall m :: m in rsp ==> m.OpenAck? && m.ack.ok ==> p.accepted)
         && (o.ack.Some? && o.ack.value.ok ==> p.accepted)
         && (o.phase == Live ==> p.accepted)
  }

  predicate Both(s: Stream, r: Stream, out: seq<Msg>, inn: seq<Msg>) {
    && StreamOk(s) && StreamOk(r) && s.id == r.id
    && Flow(s, r, out)
    && Flow(r, s, inn)
    && if s.role == Opener then Handshake(s, Some(r), out, inn) else Handshake(r, Some(s), inn, out)
  }

  /** The invariant of one stream ID: `s` sends on `out`, `r` sends on `inn`. */
  predicate PairOk(s: Option<Stream>, r: Option<Stream>, out: seq<Msg>, inn: seq<Msg>) {
    match (s, r)
    case (None, None) => out == [] && inn == []
    case (Some(o), None) => StreamOk(o) && Handshake(o, None, out, inn)
    case (None, Some(o)) => StreamOk(o) && Handshake(o, None, inn, out)
    case (Some(a), Some(b)) => Both(a, b, out, inn)
  }

  lemma PairSymmetric(s: Option<Stream>, r: Option<Stream>, out: seq<Msg>, inn: seq<Msg>)
    requires PairOk(s, r, out, inn)
    ensures PairOk(r, s, inn, out)
  {
  }

  // ---- a sender's own steps ----

  lemma {:induction false} FlowSend(s: Stream, r: Stream, c: seq<Msg>, data: seq<byte>)
    requires Flow(s, r, c) && !Finished(s)
    ensures Flow(Framed(s, data), r, c + [Data(s.id, data)])
  {
    DataOfAppend(c, Data(s.id, data));
    assert s.sent <= s.sent + data;
    if !Gone(r) {
      assert s.sent + data == Received(r) + (DataOf(c) + data);
    }
  }

  /** Appending a frame without data: anything but a Close, or a Close once finished. */
  lemma {:induction false} FlowAppend(s: Stream, r: Stream, c: seq<Msg>, m: Msg)
    requires Flow(s, r, c) && !m.Data? && (m.Close? ==> Finished(s))
    ensures Flow(s, r, c + [m])
  {
    DataOfAppend(c, m);
    assert DataOf(c) + [] == DataOf(c);
  }

  /** The sender changes nothing that the direction depends on, except that it may finish. */
  lemma FlowSender(s: Stream, s': Stream, r: Stream, c: seq<Msg>)
    requires Flow(s, r, c) && s'.sent == s.sent && (Finished(s) ==> Finished(s'))
    ensures Flow(s', r, c)
  {
  }

  /** The receiver reads, or is force-closed: what it has received stays the same. */
  lemma FlowReceiver(s: Stream, r: Stream, r': Stream, c: seq<Msg>)
    requires Flow(s, r, c) && Received(r') == Received(r)
    requires r'.sawEOF ==> r.sawEOF && r'.got == r.got
    requires Gone(r') || (!Gone(r) && r'.remoteEOF == r.remoteEOF)
    ensures Flow(s, r', c)
  {
  }

  /** A clean end of file: everything the peer framed has been read. */
  lemma {:induction false} FlowEOF(s: Stream, r: Stream, c: seq<Msg>)
    requires Flow(s, r, c) && StreamOk(r) && CanAct(r, false, ReadEOF)
    ensures r.got == s.sent && Finished(s)
    ensures Flow(s, After(r, ReadEOF), c)
  {
    NoDataEmpty(c);
    assert r.got + [] + [] + [] == r.got;
  }

  // ---- a receiver takes the first frame of its channel ----

  lemma OrderedTail(c: seq<Msg>)
    requires c != [] && Ordered(c)
    ensures Ordered(c[1..])
    ensures c[0].Close? ==> NoData(c[1..])
  {
  }

  lemma {:induction false} FlowTakeData(s: Stream, r: Stream, c: seq<Msg>)
    requires Flow(s, r, c) && c != [] && c[0].Data? && !Gone(r) && StreamOk(r)
    ensures !r.remoteEOF
    ensures Flow(s, Deliver(r, c[0].payload), c[1..])
  {
    assert c[0] in c;
    OrderedTail(c);
    DeliverExtends(r, c[0].payload);
    assert DataOf(c) == c[0].payload + DataOf(c[1..]);
    assert s.sent == (Received(r) + c[0].payload) + DataOf(c[1..]);
  }

  /** Taking a frame that carries no data, or a receiver that is gone taking any frame. */
  lemma {:induction false} FlowTake(s: Stream, r: Stream, c: seq<Msg>)
    requires Flow(s, r, c) && c != [] && (Payload(c[0]) != [] ==> Gone(r))
    ensures Flow(s, r, c[1..])
  {
    OrderedTail(c);
    assert forall m :: m in c[1..] ==> m in c;
    if !Gone(r) {
      assert DataOf(c) == DataOf(c[1..]);
    }
  }

  lemma {:induction false} FlowTakeClose(s: Stream, r: Stream, c: seq<Msg>)
    requires Flow(s, r, c) && c != [] && c[0].Close? && !Gone(r) && StreamOk(r)
    ensures Flow(s, RemoteClose(r), c[1..])
  {
    assert c[0] in c;
    FlowTake(s, r, c);
    OrderedTail(c);
  }

  // ---- every step of one end keeps the pair ----

  lemma ActKeepsStream(s: Stream, sessionClosed: bool, a: Act)
    requires StreamOk(s) && CanAct(s, sessionClosed, a)
    ensures StreamOk(After(s, a)) && After(s, a).id == s.id
    ensures s.closed ==> After(s, a).closed
  {
  }

  /** Only a Write adds to what was sent, and nobody who has finished starts again. */
  lemma ActKeepsSent(s: Stream, sessionClosed: bool, a: Act)
    requires StreamOk(s) && CanAct(s, sessionClosed, a) && !a.WriteChunk?
    ensures After(s, a).sent == s.sent && (Finished(s) ==> Finished(After(s, a)))
    ensures Written(s, a) == [] || (|Written(s, a)| == 1 && !Written(s, a)[0].Data?)
    ensures Written(s, a) != [] && Written(s, a)[0].Close? ==> Finished(After(s, a))
  {
  }

  /** An act of the sending end, seen by the direction it sends on. */
  lemma {:induction false} ActKeepsOutflow(s: Stream, r: Stream, sessionClosed: bool, a: Act, c: seq<Msg>)
    requires StreamOk(s) && Flow(s, r, c) && CanAct(s, sessionClosed, a)
    ensures Flow(After(s, a), r, c + Written(s, a))
  {
    if a.WriteChunk? {
      FlowSend(s, r, c, a.data);
    } else {
      ActKeepsSent(s, sessionClosed, a);
      QuietOutflow(s, After(s, a), r, c, Written(s, a));
    }
  }

  lemma QuietOutflow(s: Stream, s': Stream, r: Stream, c: seq<Msg>, written: seq<Msg>)
    requires Flow(s, r, c) && s'.sent == s.sent && (Finished(s) ==> Finished(s'))
    requires written == [] || (|written| == 1 && !written[0].Data? && (written[0].Close? ==> Finished(s')))
    ensures Flow(s', r, c + written)
  {
    FlowSender(s, s', r, c);
    if written == [] {
      assert c + written == c;
    } else {
      FlowAppend(s', r, c, written[0]);
      assert written == [written[0]];
    }
  }

  /** Every act other than a read leaves what was received alone. */
  lemma ActKeepsRead(r: Stream, sessionClosed: bool, a: Act)
    requires CanAct(r, sessionClosed, a) && !a.PullChunk? && !a.CopyOut? && !a.ReadEOF?
    ensures After(r, a).got == r.got && After(r, a).readBuf == r.readBuf && After(r, a).queue == r.queue
    ensures After(r, a).sawEOF == r.sawEOF
  {
    if a.Accept? || a.WriteChunk? {
    } else {
      assert After(r, a).ledger == r.ledger;
    }
  }

  lemma ActKeepsGone(r: Stream, sessionClosed: bool, a: Act)
    requires StreamOk(r) && CanAct(r, sessionClosed, a)
    ensures Gone(r) ==> Gone(After(r, a))
    ensures Gone(After(r, a)) || After(r, a).remoteEOF == r.remoteEOF
  {
  }

  /** The same act, seen by the direction it receives on. */
  lemma {:induction false} ActKeepsInflow(s: Stream, r: Stream, sessionClosed: bool, a: Act, c: seq<Msg>)
    requires Flow(s, r, c) && StreamOk(r) && CanAct(r, sessionClosed, a)
    ensures Flow(s, After(r, a), c)
  {
    match a
    case PullChunk =>
      PullConserves(r);
      FlowReceiver(s, r, Pull(r), c);
    case CopyOut(n) =>
      CopyConserves(r, n);
      if r.sawEOF {
        CopyAfterEOF(s, r, c, n);
      }
      FlowReceiver(s, r, Copy(r, n), c);
    case ReadEOF => FlowEOF(s, r, c);
    case _ =>
      ActKeepsRead(r, sessionClosed, a);
      ActKeepsGone(r, sessionClosed, a);
      FlowReceiver(s, r, After(r, a), c);
  }

  /** After a clean end of file nothing is left to copy. */
  lemma CopyAfterEOF(s: Stream, r: Stream, c: seq<Msg>, n: nat)
    requires Flow(s, r, c) && r.sawEOF
    ensures Copy(r, n).got == r.got
  {
    assert |Received(r)| == |r.got| + |r.readBuf| + |Flatten(r.queue)|;
    assert r.readBuf == [];
  }

  lemma ActKeepsHandshake(s: Stream, r: Option<Stream>, sessionClosed: bool, a: Act, out: seq<Msg>, inn: seq<Msg>)
    requires StreamOk(s) && CanAct(s, sessionClosed, a)
    requires s.role == Opener && Handshake(s, r, out, inn)
    ensures Handshake(After(s, a), r, out + Written(s, a), inn)
  {
    assert Written(s, a) == [] ==> out + Written(s, a) == out;
  }

  lemma ActKeepsHandshakeAnswer(s: Stream, r: Stream, sessionClosed: bool, a: Act, out: seq<Msg>, inn: seq<Msg>)
    requires StreamOk(s) && CanAct(s, sessionClosed, a)
    requires s.role == Acceptor && Handshake(r, Some(s), inn, out)
    ensures Handshake(r, Some(After(s, a)), inn, out + Written(s, a))
  {
    assert Written(s, a) == [] ==> out + Written(s, a) == out;
  }

  /** Whatever one end does, its pair stays related. */
  lemma {:induction false} ActKeepsPair(
    s: Stream, r: Option<Stream>, sessionClosed: bool, a: Act, out: seq<Msg>, inn: seq<Msg>)
    requires StreamOk(s) && PairOk(Some(s), r, out, inn) && CanAct(s, sessionClosed, a)
    ensures PairOk(Some(After(s, a)), r, out + Written(s, a), inn)
  {
    ActKeepsStream(s, sessionClosed, a);
    match r
    case None => ActKeepsHandshake(s, r, sessionClosed, a, out, inn);
    case Some(p) =>
      ActKeepsOutflow(s, p, sessionClosed, a, out);
      ActKeepsInflow(p, s, sessionClosed, a, inn);
      if s.role == Opener {
        ActKeepsHandshake(s, r, sessionClosed, a, out, inn);
      } else {
        ActKeepsHandshakeAnswer(s, p, sessionClosed, a, out, inn);
      }
  }

  // ---- every received frame keeps the pair ----

  /** What a frame does to the stream it is addressed to, found in the table. */
  function Taken(s: Stream, m: Msg): Stream {
    match m
    case OpenAck(_, ack) => if s.ack.Some? then s else s.(ack := Some(ack))
    case Data(_, payload) => Deliver(s, payload)
    case Close(_) => RemoteClose(s)
    case Error(_, message) => Clear(s, message)
    case _ => s
  }

  lemma TakenKeepsStream(s: Stream, m: Msg)
    requires StreamOk(s)
    ensures StreamOk(Taken(s, m)) && Taken(s, m).id == s.id
    ensures Taken(s, m).role == s.role && Taken(s, m).request == s.request && Taken(s, m).phase == s.phase
    ensures Taken(s, m).accepted == s.accepted && Taken(s, m).sent == s.sent
    ensures Finished(s) ==> Finished(Taken(s, m))
    ensures Taken(s, m).ack == s.ack || (m.OpenAck? && Taken(s, m).ack == Some(m.ack))
  {
  }

  /** A stream in the table meets the next frame of its channel, outside the window of `forceClose`. */
  predicate Takes(s: Stream, c: seq<Msg>) {
    c != [] && s.phase != Failing && (c[0].Data? && c[0].payload != [] ==> !s.closed)
  }

  lemma {:induction false} TakeKeepsInflow(s: Stream, r: Stream, c: seq<Msg>)
    requires Flow(s, r, c) && StreamOk(r) && Takes(r, c)
    ensures Flow(s, Taken(r, c[0]), c[1..])
    ensures c[0].Data? && c[0].payload != [] ==> !r.readsClosed
  {
    if r.closed || (!c[0].Data? && !c[0].Close?) {
      FlowTake(s, r, c);
      FlowReceiver(s, r, Taken(r, c[0]), c[1..]);
    } else if c[0].Data? {
      FlowTakeData(s, r, c);
    } else {
      FlowTakeClose(s, r, c);
    }
  }

  lemma TakeKeepsHandshake(s: Stream, r: Stream, out: seq<Msg>, inn: seq<Msg>, s': Stream)
    requires inn != [] && s'.id == s.id && s'.role == s.role && s'.request == s.request
    requires s'.phase == s.phase && s'.accepted == s.accepted
    requires s'.ack == s.ack || (inn[0].OpenAck? && s'.ack == Some(inn[0].ack))
    requires if s.role == Opener then Handshake(s, Some(r), out, inn) else Handshake(r, Some(s), inn, out)
    ensures if s'.role == Opener then Handshake(s', Some(r), out, inn[1..]) else Handshake(r, Some(s'), inn[1..], out)
  {
    assert inn[0] in inn;
    assert forall m :: m in inn[1..] ==> m in inn;
  }

  lemma {:induction false} TakeKeepsBoth(s: Stream, r: Stream, out: seq<Msg>, inn: seq<Msg>)
    requires Both(s, r, out, inn) && Takes(s, inn)
    ensures Both(Taken(s, inn[0]), r, out, inn[1..])
    ensures inn[0].Data? && inn[0].payload != [] ==> !s.readsClosed
  {
    TakenKeepsStream(s, inn[0]);
    TakeKeepsInflow(r, s, inn);
    TakeKeepsRest(s, r, out, inn, Taken(s, inn[0]));
  }

  lemma TakeKeepsRest(s: Stream, r: Stream, out: seq<Msg>, inn: seq<Msg>, s': Stream)
    requires Both(s, r, out, inn) && inn != [] && StreamOk(s') && s'.id == s.id
    requires s'.role == s.role && s'.request == s.request && s'.phase == s.phase && s'.accepted == s.accepted
    requires s'.ack == s.ack || (inn[0].OpenAck? && s'.ack == Some(inn[0].ack))
    requires s'.sent == s.sent && (Finished(s) ==> Finished(s'))
    requires Flow(r, s', inn[1..])
    ensures Both(s', r, out, inn[1..])
  {
    assert Flow(s', r, out) by {
      FlowSender(s, s', r, out);
    }
    TakeKeepsHandshake(s, r, out, inn, s');
  }

  lemma NoStrayOpen(s: Stream, r: Option<Stream>, out: seq<Msg>, inn: seq<Msg>)
    requires PairOk(Some(s), r, out, inn) && inn != []
    ensures !inn[0].Open? && !inn[0].Control?
    ensures r.None? ==> inn[0].Error?
  {
    assert inn[0] in inn;
  }

  /** A stream in the table takes the next frame of its channel. */
  lemma {:induction false} TakeKeepsPair(s: Stream, r: Option<Stream>, out: seq<Msg>, inn: seq<Msg>)
    requires PairOk(Some(s), r, out, inn) && Takes(s, inn)
    ensures PairOk(Some(Taken(s, inn[0])), r, out, inn[1..])
    ensures inn[0].Data? && inn[0].payload != [] ==> !s.readsClosed
  {
    NoStrayOpen(s, r, out, inn);
    match r
    case None => TakenKeepsStream(s, inn[0]);
    case Some(p) => TakeKeepsBoth(s, p, out, inn);
  }

  lemma {:induction false} DropKeepsBoth(s: Stream, r: Stream, out: seq<Msg>, inn: seq<Msg>)
    requires Both(s, r, out, inn) && Gone(s) && inn != []
    ensures Both(s, r, out, inn[1..])
  {
    FlowTake(r, s, inn);
    TakeKeepsRest(s, r, out, inn, s);
  }

  /** An end that is gone sends a Close. */
  lemma {:induction false} CloseKeepsBoth(s: Stream, r: Stream, out: seq<Msg>, inn: seq<Msg>)
    requires Both(s, r, out, inn) && Gone(s)
    ensures Both(s, r, out + [Close(s.id)], inn)
  {
    FlowAppend(s, r, out, Close(s.id));
    assert s.phase != Registered ==> forall m :: m in out + [Close(s.id)] ==> m in out || m == Close(s.id);
  }

  /** A frame for a stream that is no longer in the table; Data is answered with a Close. */
  lemma {:induction false} DropKeepsPair(s: Stream, r: Option<Stream>, out: seq<Msg>, inn: seq<Msg>, reply: seq<Msg>)
    requires PairOk(Some(s), r, out, inn) && Gone(s) && inn != []
    requires reply == [] || (inn[0].Data? && reply == [Close(s.id)])
    ensures PairOk(Some(s), r, out + reply, inn[1..])
  {
    NoStrayOpen(s, r, out, inn);
    assert reply == [] ==> out + reply == out;
    if r.Some? {
      DropKeepsBoth(s, r.value, out, inn);
      CloseKeepsBoth(s, r.value, out, inn[1..]);
    }
  }

  /** A frame for an ID this end never registered is the peer's Open. */
  lemma StrayIsOpen(r: Option<Stream>, out: seq<Msg>, inn: seq<Msg>)
    requires PairOk(None, r, out, inn) && inn != []
    ensures r.Some? && inn == [Open(r.value.id, r.value.request)] && out == []
    ensures r.value.request.requestID == r.value.id && r.value.request.protocol != "" && r.value.role == Opener
  {
    assert inn[0] in inn;
  }

  /** Its Open is refused or ignored: at most an Error goes back. */
  lemma RefuseKeepsPair(r: Option<Stream>, out: seq<Msg>, inn: seq<Msg>, reply: seq<Msg>)
    requires PairOk(None, r, out, inn) && inn != []
    requires reply == [] || (|reply| == 1 && reply[0].Error?)
    ensures PairOk(None, r, out + reply, inn[1..])
  {
    StrayIsOpen(r, out, inn);
    assert r.value.phase != Registered;
  }

  /** Its Open is taken: the new stream starts out related to the opener. */
  lemma {:induction false} RegisterKeepsPair(r: Option<Stream>, out: seq<Msg>, inn: seq<Msg>)
    requires PairOk(None, r, out, inn) && inn != []
    ensures r.Some?
    ensures PairOk(Some(NewStream(r.value.id, Acceptor, Live, r.value.request)), r, out, inn[1..])
  {
    StrayIsOpen(r, out, inn);
    var s := NewStream(r.value.id, Acceptor, Live, r.value.request);
    assert Received(s) == [] && Received(r.value) == [];
    assert DataOf(inn[1..]) == [];
  }

  /** `Open` registers a stream under an ID neither end has used. */
  lemma OpenKeepsPair(s: Stream, out: seq<Msg>, inn: seq<Msg>)
    requires PairOk(None, None, out, inn)
    requires s == NewStream(s.id, Opener, Registered, s.request)
    requires s.request.requestID == s.id && s.request.protocol != ""
    ensures PairOk(Some(s), None, out, inn)
  {
  }
}
