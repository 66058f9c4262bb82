/**
 `Session` and `Stream` as the mutable objects they are in the source. Each method is proved to
 do to the object's fields what the value-level functions of Streams and Sessions say, so the
 run theorems speak about these objects.
 */
module SessionObjects {
  import opened Common
  import opened V = Streams
  import opened Pairing
  import E = Sessions

  /** The frames that `Write` cuts its argument into. */
  function Chunks(id: nat, p: seq<byte>): seq<Msg>
    decreases |p|
  {
    if p == [] then [] else var k := Min(|p|, MAX_DATA_SIZE); [Data(id, p[..k])] + Chunks(id, p[k..])
  }

  /** Put together again, the chunks are the argument; each is a legal Data frame of the stream. */
  lemma {:induction false} ChunksCarry(id: nat, p: seq<byte>)
    ensures DataOf(Chunks(id, p)) == p
    ensures forall m :: m in Chunks(id, p) ==> m.Data? && m.id == id && 0 < |m.payload| <= MAX_DATA_SIZE
    decreases |p|
  {
    if p != [] {
      var k := Min(|p|, MAX_DATA_SIZE);
      ChunksCarry(id, p[k..]);
      assert Chunks(id, p)[1..] == Chunks(id, p[k..]);
      assert p == p[..k] + p[k..];
    }
  }

  /** The acts behind these frames, one turn of the loop in `Write` after the other. */
  function WriteActs(s: Stream, frames: seq<Msg>): Stream
    requires forall m :: m in frames ==> m.Data?
    decreases |frames|
  {
    if frames == [] then s else WriteActs(After(s, WriteChunk(frames[0].payload)), frames[1..])
  }

  lemma {:induction false} WriteActsAppend(s: Stream, frames: seq<Msg>, m: Msg)
    requires m.Data? && forall x :: x in frames ==> x.Data?
    ensures WriteActs(s, frames + [m]) == After(WriteActs(s, frames), WriteChunk(m.payload))
    decreases |frames|
  {
    if frames == [] {
      assert ([] + [m])[1..] == [];
    } else {
      assert (frames + [m])[1..] == frames[1..] + [m];
      WriteActsAppend(After(s, WriteChunk(frames[0].payload)), frames[1..], m);
    }
  }

  /** Together they add what the frames carry to what the stream has sent, and change nothing else. */
  lemma {:induction false} WriteActsSend(s: Stream, frames: seq<Msg>)
    requires forall m :: m in frames ==> m.Data?
    ensures WriteActs(s, frames) == Framed(s, DataOf(frames))
    decreases |frames|
  {
    if frames == [] {
      assert s.sent + [] == s.sent;
    } else {
      assert frames[0] in frames;
      var t := After(s, WriteChunk(frames[0].payload));
      WriteActsSend(t, frames[1..]);
      Associate(s.sent, frames[0].payload, DataOf(frames[1..]));
    }
  }

  /** What a `Read` call gives its caller; `WouldBlock` is the wait in its select. */
  datatype Outcome = Bytes(data: seq<byte>) | EndOfFile | Failure(error: string) | WouldBlock

  lemma ClosedFields(s: Stream, t: Stream, err: string)
    requires !s.closed && t.closing == Done && t.remoteEOF
    requires t.readsClosed == (s.readsClosed || !s.remoteEOF)
    requires t.writeErr == (if s.writeErr.None? then Some(err) else s.writeErr)
    requires t.readErr == (if s.readErr.None? then Some(err) else s.readErr)
    requires t.id == s.id && t.role == s.role && t.phase == s.phase && t.request == s.request
    requires t.ack == s.ack && t.remoteExit == s.remoteExit && t.queue == s.queue && t.readBuf == s.readBuf
    requires t.localEOF == s.localEOF && t.ledger == s.ledger
    ensures t == V.ForceClose(s, err)
  {
  }

  class StreamObject {
    const session: SessionObject
    const id: nat
    const role: Role
    const request: OpenRequest
    var phase: Phase
    var ack: Option<Ack>
    var remoteExit: string
    var queue: seq<seq<byte>>
    var readsClosed: bool
    var readBuf: seq<byte>
    var readErr: Option<string>
    var writeErr: Option<string>
    var closed: bool
    var remoteEOF: bool
    var localEOF: bool
    var doneClosed: bool
    ghost var closing: Closing
    ghost var sent: seq<byte>
    ghost var got: seq<byte>
    ghost var accepted: bool
    ghost var sawEOF: bool
    ghost const handle: nat

    constructor (session: SessionObject, id: nat, role: Role, phase: Phase, request: OpenRequest, ghost handle: nat)
      ensures View() == NewStream(id, role, phase, request) && InStep()
      ensures this.session == session && this.handle == handle
    {
      this.session, this.id, this.role, this.phase, this.request := session, id, role, phase, request;
      ack, remoteExit := None, "";
      queue, readsClosed, readBuf, readErr, writeErr := [], false, [], None, None;
      closed, remoteEOF, localEOF, doneClosed, closing := false, false, false, false, Untouched;
      sent, got, accepted, sawEOF := [], [], false, false;
      this.handle := handle;
    }

    ghost function View(): Stream
      reads this
    {
      Stream(id, role, phase, request, ack, remoteExit, queue, readsClosed, readBuf, readErr, writeErr,
             closing, remoteEOF, localEOF, Ledger(sent, got, accepted, sawEOF))
    }

    /** The fields say how far the forced close has come. */
    ghost predicate InStep()
      reads this
    {
      closed == (closing != Untouched) && doneClosed == (closing == Done)
    }

    /** This stream belongs to its session's books. */
    ghost predicate Booked()
      reads this, session, session.all
    {
      session.Valid() && session.Mine(this)
    }

    method Deliver(data: seq<byte>)
      requires data != [] ==> !readsClosed
      modifies `queue
      ensures View() == V.Deliver(old(View()), data)
    {
      if |data| != 0 {
        queue := queue + [data];
      }
    }

    method RemoteClose()
      modifies `remoteEOF, `readsClosed
      ensures View() == V.RemoteClose(old(View()))
    {
      if remoteEOF {
        return;
      }
      remoteEOF := true;
      readsClosed := true;
    }

    /** The locked block of `forceClose`. */
    method MarkClosed(err: string)
      requires !closed
      modifies `closed, `writeErr, `readErr, `remoteEOF, `readsClosed
      ensures closed && remoteEOF && readsClosed == (old(readsClosed) || !old(remoteEOF))
      ensures writeErr == (if old(writeErr).None? then Some(err) else old(writeErr))
      ensures readErr == (if old(readErr).None? then Some(err) else old(readErr))
    {
      closed := true;
      writeErr := if writeErr.None? then Some(err) else writeErr;
      readErr := if readErr.None? then Some(err) else readErr;
      if !remoteEOF {
        remoteEOF, readsClosed := true, true;
      }
    }

    /** Everything `forceClose` does to the stream itself. */
    method CloseFields(err: string)
      requires !closed && InStep()
      modifies this
      ensures View() == V.ForceClose(old(View()), err) && InStep()
    {
      ghost var was := View();
      MarkClosed(err);
      doneClosed, closing := true, Done;
      ClosedFields(was, View(), err);
    }

    method ForceClose(err: string)
      requires Booked()
      modifies this, session
      ensures Booked() && session.all == old(session.all) && session.wire == old(session.wire)
      ensures View() == V.ForceClose(old(View()), err)
      ensures session.table == if old(closed) then old(session.table) else Without(old(session.table), this)
      ensures session.closed == old(session.closed) && session.err == old(session.err) && session.pending == old(session.pending)
      ensures session.View() == E.CloseStream(old(session.View()), handle, err)
    {
      if !closed {
        CloseFields(err);
        session.RemoveStream(this);
      }
      session.OneChanged(handle);
    }

    /** What has been taken off the wire, as `Received` of the view. */
    ghost function Taken(): seq<byte>
      reads this
    {
      got + readBuf + Flatten(queue)
    }

    method Read(n: nat) returns (o: Outcome)
      requires doneClosed ==> readErr.Some?
      modifies `queue, `readBuf, `got, `sawEOF
      ensures Taken() == old(Taken())
      ensures got == old(got) + (if o.Bytes? then o.data else [])
      ensures o.Bytes? ==> |o.data| <= n && (n > 0 ==> |o.data| > 0) && (|o.data| < n ==> readBuf == [])
      ensures o.Bytes? <==> old(readBuf) != [] || (readErr.None? && Flatten(old(queue)) != [])
      ensures o.Failure? <==> old(readBuf) == [] && readErr.Some?
      ensures o.EndOfFile? ==> readBuf == [] && queue == [] && readsClosed && readErr.None?
      ensures sawEOF == (old(sawEOF) || o.EndOfFile?)
      ensures o.Failure? ==> readErr == Some(o.error)
      ensures o.WouldBlock? ==> readBuf == [] && queue == [] && !readsClosed
    {
      while |readBuf| == 0
        invariant Taken() == old(Taken()) && got == old(got) && sawEOF == old(sawEOF)
        invariant (readBuf == old(readBuf) && queue == old(queue)) || (old(readBuf) == [] && readErr.None?)
        invariant old(readBuf) == [] ==> readBuf + Flatten(queue) == Flatten(old(queue))
        decreases |readBuf| == 0, |queue|
      {
        if readErr.Some? {
          return Failure(readErr.value);
        }
        if queue == [] {
          if !readsClosed {
            return WouldBlock;
          }
          sawEOF := true;
          return EndOfFile;
        }
        FlattenFirst(got, queue);
        readBuf, queue := queue[0], queue[1..];
      }
      var k := Min(n, |readBuf|);
      Regroup(got, readBuf, k);
      o := Bytes(readBuf[..k]);
      got, readBuf := got + readBuf[..k], readBuf[k..];
    }

    /** One turn of the loop in `Write` on a connection that takes the frame. */
    method SendChunk(data: seq<byte>)
      modifies `sent, session`wire
      ensures session.wire == old(session.wire) + [Data(id, data)] && View() == After(old(View()), WriteChunk(data))
    {
      session.wire := session.wire + [Data(id, data)];
      sent := sent + data;
    }

    /** These frames, of the first `n` bytes of `p`, have been written since the stream was `start` and the wire `base`. */
    ghost predicate HasWritten(p: seq<byte>, n: nat, start: Stream, base: seq<Msg>, frames: seq<Msg>)
      reads this, session
    {
      && n <= |p| && (forall m :: m in frames ==> m.Data?)
      && session.wire == base + frames && frames + Chunks(id, p[n..]) == Chunks(id, p)
      && View() == WriteActs(start, frames) && sent == start.sent + p[..n]
    }

    method WriteTurn(p: seq<byte>, written: nat, end: nat, ghost start: Stream, ghost base: seq<Msg>, ghost frames: seq<Msg>)
      requires HasWritten(p, written, start, base, frames) && written < |p| && end == Min(written + MAX_DATA_SIZE, |p|)
      modifies `sent, session`wire
      ensures HasWritten(p, end, start, base, frames + [Data(id, p[written..end])])
    {
      NextChunk(id, p, written, end, frames);
      WriteActsAppend(start, frames, Data(id, p[written..end]));
      SendChunk(p[written..end]);
      assert p[..end] == p[..written] + p[written..end];
    }

    /**
     `budget` is the number of frames the connection still takes; `frames` are those it took. They
     and the frames of the rest are those of the whole argument. The stream has made the acts
     behind them, and has been force-closed if the connection failed. On an open stream of an open
     session it succeeds if and only if the connection takes all the frames, and otherwise has
     written every frame that it takes.
     */
    method Write(p: seq<byte>, budget: nat) returns (n: nat, error: Option<string>, ghost frames: seq<Msg>)
      requires Booked()
      modifies this, session
      ensures Booked() && session.all == old(session.all) && n <= |p| && (error.None? ==> n == |p|)
      ensures session.wire == old(session.wire) + frames && frames + Chunks(id, p[n..]) == Chunks(id, p)
      ensures forall m :: m in frames ==> m.Data?
      ensures sent == old(sent) + p[..n]
      ensures old(writeErr).Some? || old(closed) || old(session.closed) ==> n == 0 && (error.None? <==> p == [])
      ensures p != [] && old(writeErr).Some? ==> error == old(writeErr)
      ensures old(writeErr).None? && !old(closed) && !old(session.closed) ==>
                && (error.None? <==> |p| <= budget * MAX_DATA_SIZE)
                && (error.Some? ==> |frames| == budget && n == budget * MAX_DATA_SIZE)
      ensures error.None? || old(writeErr).Some? || old(closed) ==> View() == WriteActs(old(View()), frames)
      ensures error.Some? && old(writeErr).None? && !old(closed) ==>
                View() == V.ForceClose(WriteActs(old(View()), frames), error.value)
    {
      frames := [];
      if |p| == 0 {
        return 0, None, [];
      }
      if writeErr.Some? {
        return 0, writeErr, [];
      }
      if closed {
        return 0, Some("use of closed network connection"), [];
      }
      var left := budget;
      n := 0;
      while n < |p|
        invariant HasWritten(p, n, old(View()), old(session.wire), frames)
        invariant Booked() && !closed && session.all == old(session.all)
        invariant session.closed == old(session.closed) && (session.closed ==> n == 0)
        invariant left == budget - |frames| && n == Min(|frames| * MAX_DATA_SIZE, |p|)
      {
        if session.closed || left == 0 {
          ForceClose("write failed");
          return n, Some("write failed"), frames;
        }
        var end := Min(n + MAX_DATA_SIZE, |p|);
        WriteTurn(p, n, end, old(View()), old(session.wire), frames);
        frames := frames + [Data(id, p[n..end])];
        n, left := end, left - 1;
      }
      return n, None, frames;
    }

    method CloseWrite() returns (ok: bool)
      requires Booked()
      modifies `localEOF, session`wire
      ensures Booked() && session.all == old(session.all)
      ensures ok == (old(closed || localEOF) || !old(session.closed))
      ensures old(!closed && !localEOF) ==>
                && session.View() == E.Put(old(session.View()), handle, After(old(View()), Act.CloseWrite))
                && session.wire == old(session.wire) + (if old(session.closed) then [] else Written(View(), Act.CloseFrame))
      ensures old(closed || localEOF) ==> session.View() == old(session.View()) && session.wire == old(session.wire)
    {
      ok := true;
      if !closed && !localEOF {
        HalfClose();
        ok := session.WriteFrame(Close(id));
      }
    }

    method HalfClose()
      requires Booked()
      modifies `localEOF
      ensures Booked() && session.View() == E.Put(old(session.View()), handle, After(old(View()), Act.CloseWrite))
      ensures View() == After(old(View()), Act.CloseWrite)
    {
      localEOF := true;
      session.OnePut(handle);
    }

    /** `Open` takes the acknowledgement: the stream is handed out, or rejected and force-closed. */
    method TakeAck() returns (ok: bool)
      requires Booked() && ack.Some?
      modifies this, session
      ensures Booked() && session.wire == old(session.wire)
      ensures ok == old(ack).value.ok
      ensures ok ==> session.View() == E.Acted(old(session.View()), handle, Act.OpenReturn)
      ensures !ok ==> session.View() == E.Acted(E.CloseStream(E.Acted(old(session.View()), handle, Act.OpenReturn), handle,
                                                              RejectedError(old(ack).value)), handle, Act.OpenFailed)
    {
      ok := ack.value.ok;
      if ok {
        phase, remoteExit, ack := Live, ack.value.exitID, None;
        session.OneChanged(handle);
        return;
      }
      var message := RejectedError(ack.value);
      GiveUp();
      ForceClose(message);
      Fail();
    }

    /** A rejected `Open` takes its stream out of the table. */
    method GiveUp()
      requires Booked() && ack.Some? && !ack.value.ok
      modifies this, session
      ensures Booked() && session.all == old(session.all) && session.wire == old(session.wire)
      ensures session.View() == E.Acted(old(session.View()), handle, Act.OpenReturn)
    {
      GivenUp(session.View(), handle);
      session.RemoveStream(this);
      phase, ack := Failing, None;
      session.OneChanged(handle);
    }

    method Fail()
      requires Booked()
      modifies this
      ensures Booked() && session.View() == E.Acted(old(session.View()), handle, Act.OpenFailed)
    {
      phase := Phase.Failed;
      session.OneChanged(handle);
    }

    /** `Accept` on a session that is still up; otherwise it force-closes the stream. */
    method Accept() returns (ok: bool)
      requires Booked() && role == Acceptor
      modifies this, session
      ensures Booked() && session.all == old(session.all)
      ensures ok == !old(doneClosed || session.closed)
      ensures ok ==> session.View() == E.Apply(old(session.View()), E.At(handle, Act.Accept)).ep
                     && session.wire == old(session.wire) + Written(old(View()), Act.Accept)
      ensures !ok ==> session.wire == old(session.wire)
      ensures !ok ==> session.View() == if old(doneClosed) then old(session.View())
                                        else E.CloseStream(old(session.View()), handle, "use of closed network connection")
    {
      if doneClosed {
        return false;
      }
      ok := session.WriteFrame(OpenAck(id, Ack(true, "", remoteExit)));
      if !ok {
        ForceClose("use of closed network connection");
        return;
      }
      MarkAccepted();
    }

    ghost method MarkAccepted()
      requires Booked() && role == Acceptor
      modifies `accepted
      ensures Booked() && session.View() == E.Acted(old(session.View()), handle, Act.Accept)
    {
      accepted := true;
      session.OneChanged(handle);
    }

    method Reject(message: string) returns (ok: bool)
      requires Booked() && role == Acceptor
      modifies this, session
      ensures Booked() && session.all == old(session.all)
      ensures session.View() == E.CloseStream(old(session.View()), handle, message)
      ensures session.wire == old(session.wire) + (if old(session.closed) then [] else Written(old(View()), Act.Reject(message)))
      ensures ok == !old(session.closed)
    {
      ok := session.WriteFrame(OpenAck(id, Ack(false, message, "")));
      assert session.View() == old(session.View());
      ForceClose(message);
    }
  }

  lemma FlattenFirst(a: seq<byte>, chunks: seq<seq<byte>>)
    requires chunks != []
    ensures a + chunks[0] + Flatten(chunks[1..]) == a + [] + Flatten(chunks)
  {
  }

  lemma NextChunk(id: nat, p: seq<byte>, written: nat, end: nat, wire: seq<Msg>)
    requires written < |p| && end == Min(written + MAX_DATA_SIZE, |p|)
    ensures wire + Chunks(id, p[written..]) == (wire + [Data(id, p[written..end])]) + Chunks(id, p[end..])
  {
    var q := p[written..];
    assert q[..end - written] == p[written..end];
    assert q[end - written..] == p[end..];
    assert Min(|q|, MAX_DATA_SIZE) == end - written;
  }

  lemma GivenUp(ep: E.Endpoint, h: nat)
    requires h < |ep.streams| && ep.streams[h].ack.Some? && !ep.streams[h].ack.value.ok
    ensures E.Acted(ep, h, Act.OpenReturn) == E.Put(E.Unlink(ep, h), h, ep.streams[h].(phase := Failing, ack := None))
  {
  }

  /** The error of an `Open` that was turned down. */
  function RejectedError(ack: Ack): (message: string)
    ensures message != "" && (ack.error != "" ==> message == ack.error)
  {
    if ack.error == "" then "exit rejected connection" else ack.error
  }

  /** The table once `removeStream` has run. */
  function Without(table: map<nat, StreamObject>, stream: StreamObject): map<nat, StreamObject> {
    if stream.id in table && table[stream.id] == stream then table - {stream.id} else table
  }

  /** What one frame does to an endpoint, case by case. */
  lemma AckTaken(ep: E.Endpoint, m: Msg, h: nat)
    requires m.OpenAck? && E.Lookup(ep, m.id) == Some(h) && ep.streams[h].ack.None?
    ensures E.ReceiveWhole(ep, m) == E.Effect(E.Put(ep, h, ep.streams[h].(ack := Some(m.ack))), [])
  {
  }

  lemma DataTaken(ep: E.Endpoint, m: Msg, h: nat)
    requires m.Data? && E.Lookup(ep, m.id) == Some(h)
    ensures E.ReceiveWhole(ep, m) ==
              if m.payload != [] && ep.streams[h].readsClosed then E.Effect(ep.(crashed := true), [])
              else E.Effect(E.Put(ep, h, V.Deliver(ep.streams[h], m.payload)), [])
  {
  }

  lemma DataDropped(ep: E.Endpoint, m: Msg)
    requires m.Data? && E.Lookup(ep, m.id) == None
    ensures E.ReceiveWhole(ep, m) == E.Effect(ep, if ep.closed then [] else [Close(m.id)])
  {
  }

  ghost function ForcedAll(streams: seq<Stream>, e: string): (r: seq<Stream>)
    ensures |r| == |streams| && forall i :: 0 <= i < |r| ==> r[i] == V.ForceClose(streams[i], e)
  {
    seq(|streams|, i requires 0 <= i < |streams| => V.ForceClose(streams[i], e))
  }

  ghost function Handles(table: map<nat, StreamObject>): map<nat, nat> {
    map id | id in table :: table[id].handle
  }

  lemma HandlesPut(table: map<nat, StreamObject>, id: nat, stream: StreamObject)
    ensures Handles(table[id := stream]) == Handles(table)[id := stream.handle]
  {
  }

  lemma HandlesDrop(table: map<nat, StreamObject>, id: nat)
    ensures Handles(table - {id}) == Handles(table) - {id}
  {
  }

  class SessionObject {
    var table: map<nat, StreamObject>
    var nextID: nat
    var closed: bool
    var err: Option<string>
    var hasControl: bool
    var crashed: bool
    const bufferSize: nat
    var wire: seq<Msg>                  // the frames handed to the writer
    ghost var all: seq<StreamObject>    // every stream ever registered
    ghost var pending: set<nat>

    /** A stream of this session. */
    ghost predicate Mine(s: StreamObject)
      reads this
    {
      s.handle < |all| && all[s.handle] == s
    }

    ghost predicate Valid()
      reads this, all
    {
      && (forall i :: 0 <= i < |all| ==> all[i].session == this && all[i].handle == i && all[i].InStep())
      && (forall id :: id in table ==> Mine(table[id]) && table[id].id == id)
    }

    ghost function View(): E.Endpoint
      requires Valid()
      reads this, all
    {
      E.Endpoint(seq(|all|, i requires 0 <= i < |all| reads this, all => all[i].View()),
                 Handles(table),
                 nextID, closed, err, hasControl, pending, crashed, bufferSize)
    }

    /** Only the stream with this handle has changed. */
    twostate lemma OneChanged(h: nat)
      requires old(Valid()) && Valid() && all == old(all) && h < |all|
      requires forall i :: 0 <= i < |all| && i != h ==> all[i].View() == old(all[i].View())
      ensures View().streams == old(View()).streams[h := all[h].View()]
    {
    }

    /** Nothing but that stream has changed. */
    twostate lemma OnePut(h: nat)
      requires old(Valid()) && all == old(all) && h < |all| && forall i :: 0 <= i < |all| ==> all[i].InStep()
      requires forall i :: 0 <= i < |all| && i != h ==> all[i].View() == old(all[i].View())
      requires table == old(table) && nextID == old(nextID) && closed == old(closed) && err == old(err)
      requires hasControl == old(hasControl) && crashed == old(crashed) && pending == old(pending)
      ensures Valid() && View() == E.Put(old(View()), h, all[h].View())
    {
      OneChanged(h);
    }

    /** One stream has been added to the books. */
    twostate lemma OneAdded(new stream: StreamObject)
      requires old(Valid()) && Valid() && all == old(all) + [stream]
      requires forall i :: 0 <= i < |old(all)| ==> all[i].View() == old(all[i].View())
      ensures View().streams == old(View()).streams + [stream.View()]
    {
    }

    constructor (bufferSize: nat)
      ensures Valid() && View() == E.NewEndpoint(if bufferSize == 0 then 32 else bufferSize)
      ensures wire == [] && all == []
    {
      table, nextID, closed, err, hasControl, crashed := map[], 0, false, None, false, false;
      this.bufferSize := if bufferSize == 0 then 32 else bufferSize;
      wire, all, pending := [], [], {};
    }

    method WriteFrame(m: Msg) returns (ok: bool)
      modifies `wire
      ensures ok == !closed && wire == old(wire) + (if closed then [] else [m])
    {
      ok := !closed;
      if ok {
        wire := wire + [m];
      }
    }

    method RemoveStream(stream: StreamObject)
      requires stream.Booked() && stream.session == this
      modifies this`table
      ensures Valid() && View() == E.Unlink(old(View()), stream.handle)
      ensures table == Without(old(table), stream)
    {
      if stream.id in table && table[stream.id] == stream {
        HandlesDrop(table, stream.id);
        table := table - {stream.id};
      }
    }

    method Lookup(id: nat) returns (stream: StreamObject?)
      requires Valid()
      ensures match E.Lookup(View(), id)
              case None => stream == null
              case Some(h) => stream != null && stream.Booked() && stream.session == this && stream.handle == h && stream.id == id
    {
      stream := if id in table then table[id] else null;
    }

    /** A new stream enters the table, in place of whatever the table held under its ID. */
    method Register(id: nat, role: Role, phase: Phase, request: OpenRequest) returns (stream: StreamObject)
      requires Valid()
      modifies `table, `all
      ensures Valid() && fresh(stream) && all == old(all) + [stream]
      ensures stream.Booked() && stream.session == this && stream.handle == |old(all)|
      ensures stream.id == id && stream.request == request && table == old(table)[id := stream]
      ensures View() == E.Register(old(View()), NewStream(id, role, phase, request))
    {
      stream := new StreamObject(this, id, role, phase, request, |all|);
      table := table[id := stream];
      all := all + [stream];
      HandlesPut(old(table), id, stream);
      OneAdded(stream);
    }

    /** `Open`, up to the point where it writes its frame. */
    method OpenCall(request: OpenRequest) returns (stream: StreamObject?)
      requires Valid()
      modifies `table, `all, `nextID
      ensures Valid() && wire == old(wire)
      ensures !old(closed) ==> stream != null && stream.Booked() && stream.session == this
                               && View() == E.Apply(old(View()), E.OpenCall(request)).ep
      ensures !old(closed) ==> E.Asks(request, stream.request) && stream.id == stream.request.requestID
                               && (request.requestID == 0 ==> stream.id == old(nextID) + 1)
                               && stream.id in table && table[stream.id] == stream
      ensures old(closed) ==> stream == null && View() == old(View()).(nextID := old(nextID) + 1)
    {
      nextID := nextID + 1;
      var filled := E.FillRequest(request, nextID);
      if closed {
        return null;
      }
      stream := Register(filled.requestID, Opener, Registered, filled);
    }

    /** The state after the read loop has handled one frame. */
    twostate predicate Handled(m: Msg)
      requires old(Valid())
      reads this, all
    {
      && Valid()
      && View() == E.ReceiveWhole(old(View()), m).ep
      && wire == old(wire) + E.ReceiveWhole(old(View()), m).out
    }

    method HandleOpen(m: Msg)
      requires Valid() && m.Open?
      modifies `table, `all, `wire
      ensures Handled(m)
    {
      match E.DecodeOpen(m.id, m.request)
      case Err(e) =>
        var _ := WriteFrame(Error(m.id, "invalid open request: " + e));
      case Ok(request) =>
        if !closed {
          var _ := Register(request.requestID, Acceptor, Live, request);
        }
    }

    method HandleAck(m: Msg)
      requires Valid() && m.OpenAck?
      modifies all
      ensures Handled(m)
    {
      var stream := Lookup(m.id);
      if stream != null && stream.ack.None? {
        StoreAck(stream, m);
      }
    }

    method StoreAck(stream: StreamObject, m: Msg)
      requires Valid() && m.OpenAck? && Mine(stream) && E.Lookup(View(), m.id) == Some(stream.handle) && stream.ack.None?
      modifies stream`ack
      ensures Handled(m)
    {
      AckTaken(View(), m, stream.handle);
      stream.ack := Some(m.ack);
      OnePut(stream.handle);
    }

    method HandleData(m: Msg)
      requires Valid() && m.Data?
      modifies `wire, `crashed, all
      ensures Handled(m)
    {
      var stream := Lookup(m.id);
      if stream == null {
        DropData(m);
      } else if |m.payload| != 0 && stream.readsClosed {
        Crash(stream, m);
      } else {
        DeliverTo(stream, m);
      }
    }

    method DropData(m: Msg)
      requires Valid() && m.Data? && E.Lookup(View(), m.id) == None
      modifies `wire
      ensures Handled(m)
    {
      DataDropped(View(), m);
      var _ := WriteFrame(Close(m.id));
    }

    /** The send on the closed channel. */
    method Crash(stream: StreamObject, m: Msg)
      requires Valid() && m.Data? && Mine(stream) && E.Lookup(View(), m.id) == Some(stream.handle)
      requires m.payload != [] && stream.readsClosed
      modifies `crashed
      ensures Handled(m)
    {
      DataTaken(View(), m, stream.handle);
      crashed := true;
    }

    method DeliverTo(stream: StreamObject, m: Msg)
      requires Valid() && m.Data? && Mine(stream) && E.Lookup(View(), m.id) == Some(stream.handle)
      requires m.payload != [] ==> !stream.readsClosed
      modifies stream
      ensures Handled(m)
    {
      DataTaken(View(), m, stream.handle);
      stream.Deliver(m.payload);
      OnePut(stream.handle);
    }

    method HandleClose(m: Msg)
      requires Valid() && m.Close?
      modifies all
      ensures Handled(m)
    {
      var stream := Lookup(m.id);
      if stream != null {
        stream.RemoteClose();
        OnePut(stream.handle);
      }
    }

    method HandleError(m: Msg)
      requires Valid() && m.Error?
      modifies this, all
      ensures Handled(m)
    {
      var stream := Lookup(m.id);
      if stream != null {
        stream.ForceClose(m.message);
      }
    }

    /** One turn of `readLoop`; a control frame with no handler ends the session instead. */
    method HandleFrame(m: Msg) returns (fatal: Option<string>)
      requires Valid()
      modifies this, all
      ensures fatal.Some? <==> m.Control? && !old(hasControl)
      ensures fatal.None? ==> Handled(m)
      ensures fatal.Some? ==> Valid() && View() == old(View()) && wire == old(wire)
    {
      fatal := None;
      match m
      case Open(_, _) => HandleOpen(m);
      case OpenAck(_, _) => HandleAck(m);
      case Data(_, _) => HandleData(m);
      case Close(_) => HandleClose(m);
      case Error(_, _) => HandleError(m);
      case Control(_, _, _) =>
        if !hasControl {
          fatal := Some("unexpected control frame");
        }
    }

    /**
     Every stream in the table that no `forceClose` has begun on is force-closed with the given error
     and leaves the table; one that a `forceClose` is under way on is left to that call, and stays
     pending. No other stream is touched, and a second call changes nothing: the first error stays.
     */
    method Shutdown(e: string)
      requires Valid()
      modifies `table, `closed, `err, `pending, all
      ensures Valid() && closed
      ensures old(closed) ==> View() == old(View())
      ensures !old(closed) ==> err == Some(e) && table == Restrict(old(table), old(UnderWay(table)))
                               && pending == HandlesOf(old(UnderWay(table)))
      ensures !old(closed) ==> forall i :: 0 <= i < |all| ==>
                all[i].View() == if all[i] in old(table).Values then V.ForceClose(old(all[i].View()), e) else old(all[i].View())
    {
      if !closed {
        ghost var kept := UnderWay(table);
        closed, err, pending := true, Some(e), HandlesOf(kept);
        CloseFound(e, kept);
      }
    }

    /** What `shutdown` does behind its lock. */
    method CloseFound(e: string, ghost kept: set<StreamObject>)
      requires Valid() && kept == UnderWay(table)
      modifies `table, all
      ensures Valid() && table == Restrict(old(table), kept)
      ensures forall i :: 0 <= i < |all| ==>
                all[i].View() == if all[i] in old(table).Values then V.ForceClose(old(all[i].View()), e) else old(all[i].View())
    {
      ghost var was := View().streams;
      RestrictAll(table, kept);
      CloseAll(table.Values, e, table, kept, was, ForcedAll(was, e));
      assert {} + kept == kept;
    }

    /** Of the streams found, those in `left` are still as they were, the others are as they will be. */
    ghost predicate Progress(found: set<StreamObject>, left: set<StreamObject>, was: seq<Stream>, will: seq<Stream>)
      reads this, all
    {
      && Valid() && left <= found
      && |was| == |will| == |all|
      && (forall s :: s in found ==> Mine(s))
      && (forall i :: 0 <= i < |all| ==> all[i].View() == if all[i] in found && all[i] !in left then will[i] else was[i])
    }

    /** ... and the table has lost those that no `forceClose` had begun on. */
    ghost predicate Turning(found: set<StreamObject>, left: set<StreamObject>, before: map<nat, StreamObject>,
                            kept: set<StreamObject>, was: seq<Stream>, will: seq<Stream>)
      reads this, all
    {
      && Progress(found, left, was, will)
      && table == Restrict(before, left + kept) && (forall id :: id in before ==> before[id].id == id)
      && (forall s :: s in left ==> (was[s.handle].closed <==> s in kept))
    }

    /** The loop of `shutdown` over the streams it found in the table. */
    method CloseAll(found: set<StreamObject>, e: string, ghost before: map<nat, StreamObject>, ghost kept: set<StreamObject>,
                    ghost was: seq<Stream>, ghost will: seq<Stream>)
      requires Turning(found, found, before, kept, was, will) && will == ForcedAll(was, e)
      modifies `table, all
      ensures Turning(found, {}, before, kept, was, will)
    {
      var left := found;
      while left != {}
        invariant Turning(found, left, before, kept, was, will)
        decreases left
      {
        var s :| s in left;
        CloseTurn(s, found, left, e, before, kept, was, will);
        left := left - {s};
      }
    }

    method CloseTurn(s: StreamObject, ghost found: set<StreamObject>, ghost left: set<StreamObject>, e: string,
                     ghost before: map<nat, StreamObject>, ghost kept: set<StreamObject>,
                     ghost was: seq<Stream>, ghost will: seq<Stream>)
      requires Turning(found, left, before, kept, was, will) && s in left && will == ForcedAll(was, e)
      modifies `table, s
      ensures Turning(found, left - {s}, before, kept, was, will)
    {
      RestrictWithout(before, left, kept, s);
      if !s.closed {
        CloseOne(s, e);
      }
    }

    method CloseOne(s: StreamObject, e: string)
      requires Valid() && Mine(s) && !s.closed
      modifies `table, s
      ensures Valid() && s.View() == V.ForceClose(old(s.View()), e)
      ensures table == Without(old(table), s)
    {
      s.CloseFields(e);
      RemoveStream(s);
    }
  }

  /** The streams in a table that a `forceClose` has begun on. */
  ghost function UnderWay(table: map<nat, StreamObject>): set<StreamObject>
    reads table.Values
  {
    set s | s in table.Values && s.closed
  }

  ghost function HandlesOf(streams: set<StreamObject>): set<nat> { set s | s in streams :: s.handle }

  /** The entries of a table that lead to these streams. */
  ghost function Restrict(table: map<nat, StreamObject>, streams: set<StreamObject>): map<nat, StreamObject> {
    map id | id in table && table[id] in streams :: table[id]
  }

  lemma RestrictAll(table: map<nat, StreamObject>, kept: set<StreamObject>)
    ensures Restrict(table, table.Values + kept) == table
  {
  }

  lemma RestrictWithout(before: map<nat, StreamObject>, left: set<StreamObject>, kept: set<StreamObject>, s: StreamObject)
    requires s in left && forall id :: id in before ==> before[id].id == id
    ensures Restrict(before, (left - {s}) + kept) ==
              if s in kept then Restrict(before, left + kept) else Without(Restrict(before, left + kept), s)
  {
  }
}
