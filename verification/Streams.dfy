/**
 Values shared by the whole session model, and the stream of internal/session/session.go as a
 value: every field of the source's `Stream`, the position of the calls that close it (`phase`,
 `closing`), and a ledger of what has passed through it, which no operation ever reads back.
 */
module Streams {
  import opened Common

  const MAX_FRAME_SIZE := 1048576
  const MAX_DATA_SIZE := 65536
  const PROTOCOL_TCP := "tcp"

  datatype OpenRequest = OpenRequest(
    requestID: nat, exitID: string, destination: string, port: nat, protocol: string, clientSelected: bool)

  datatype Ack = Ack(ok: bool, error: string, exitID: string)

  /** One frame of the session layer, with its JSON payload already decoded. */
  datatype Msg =
    | Open(id: nat, request: OpenRequest)
    | OpenAck(id: nat, ack: Ack)
    | Data(id: nat, payload: seq<byte>)
    | Close(id: nat)
    | Error(id: nat, message: string)
    | Control(id: nat, kind: byte, body: seq<byte>)

  /** Which end of a stream this is: created by `Open`, or by a received Open frame. */
  datatype Role = Opener | Acceptor

  /** How far `Session.Open` has come. */
  datatype Phase =
    | Registered    // the table entry is made
    | Waiting       // the Open frame is written
    | Live          // Open has returned the stream
    | Failing       // Open has given up: removeStream has run, its forceClose has not returned
    | Failed        // Open has returned an error

  /** How far the `forceClose` call that closeOnce let through has come. */
  datatype Closing =
    | Untouched
    | Cleared       // its locked block has run
    | Unlinked      // ... removeStream
    | Done          // ... close(done)

  /** History: what has passed through a stream. */
  datatype Ledger = Ledger(
    sent: seq<byte>,           // bytes framed by Write
    got: seq<byte>,            // bytes returned by Read
    accepted: bool,            // Accept wrote a positive acknowledgement
    sawEOF: bool)              // Read returned io.EOF

  datatype Stream = Stream(
    id: nat,
    role: Role,
    phase: Phase,
    request: OpenRequest,      // for an opener, what its `Open` call sends: the source sets the field only for acceptors
    ack: Option<Ack>,          // the `ack` channel, capacity one
    remoteExit: string,
    queue: seq<seq<byte>>,     // the `reads` channel's queue
    readsClosed: bool,
    readBuf: seq<byte>,
    readErr: Option<string>,
    writeErr: Option<string>,
    closing: Closing,
    remoteEOF: bool,
    localEOF: bool,
    ledger: Ledger)
  {
    const sent: seq<byte> := ledger.sent
    const got: seq<byte> := ledger.got
    const accepted: bool := ledger.accepted
    const sawEOF: bool := ledger.sawEOF
    const closed: bool := closing != Untouched
    const unlinked: bool := closing == Unlinked || closing == Done
    const doneClosed: bool := closing == Done
  }

  function NewStream(id: nat, role: Role, phase: Phase, request: OpenRequest): Stream {
    Stream(id, role, phase, request, None, "", [], false, [], None, None,
           Untouched, false, false, Ledger([], [], false, false))
  }

  /** `deliver` on an open `reads` channel with room. */
  function Deliver(s: Stream, data: seq<byte>): Stream {
    if data == [] then s else s.(queue := s.queue + [data])
  }

  function RemoteClose(s: Stream): Stream {
    if s.remoteEOF then s else s.(remoteEOF := true, readsClosed := true)
  }

  /** The locked block of `forceClose`: closeOnce lets it run once, and `closed` says that it has. */
  function Clear(s: Stream, err: string): Stream {
    if s.closed then s
    else s.(closing := Cleared,
            writeErr := if s.writeErr.None? then Some(err) else s.writeErr,
            readErr := if s.readErr.None? then Some(err) else s.readErr,
            readsClosed := s.readsClosed || !s.remoteEOF,
            remoteEOF := true)
  }

  /** A whole `forceClose` call that no other one overlaps. */
  function ForceClose(s: Stream, err: string): Stream {
    if s.closed then s else Clear(s, err).(closing := Done)
  }

  /** The first half of `Read`: take one chunk off the channel. */
  function Pull(s: Stream): Stream
    requires s.queue != []
  {
    s.(readBuf := s.queue[0], queue := s.queue[1..])
  }

  /** The second half of `Read`: copy at most `n` bytes to the caller. */
  function Copy(s: Stream, n: nat): Stream {
    var k := Min(n, |s.readBuf|);
    s.(readBuf := s.readBuf[k..], ledger := s.ledger.(got := s.got + s.readBuf[..k]))
  }

  /** One chunk has been framed. */
  function Framed(s: Stream, data: seq<byte>): Stream { s.(ledger := s.ledger.(sent := s.sent + data)) }

  function Flatten(chunks: seq<seq<byte>>): seq<byte> {
    if chunks == [] then [] else chunks[0] + Flatten(chunks[1..])
  }

  lemma {:induction false} FlattenAppend(a: seq<seq<byte>>, b: seq<seq<byte>>)
    ensures Flatten(a + b) == Flatten(a) + Flatten(b)
  {
    if a == [] {
      assert a + b == b;
    } else {
      FirstOfConcat(a, b);
      FlattenAppend(a[1..], b);
      Associate(a[0], Flatten(a[1..]), Flatten(b));
    }
  }

  /** Everything this end has taken off the wire, in order. */
  function Received(s: Stream): seq<byte> {
    s.got + s.readBuf + Flatten(s.queue)
  }

  lemma {:induction false} DeliverExtends(s: Stream, data: seq<byte>)
    ensures Received(Deliver(s, data)) == Received(s) + data
  {
    if data != [] {
      FlattenAppend(s.queue, [data]);
      assert Flatten([data]) == data + Flatten([]);
    }
  }

  /** `Read` never loses, duplicates or reorders a byte, wherever it is interrupted. */
  lemma {:induction false} PullConserves(s: Stream)
    requires s.readBuf == [] && s.queue != []
    ensures Received(Pull(s)) == Received(s)
  {
    assert Flatten(s.queue) == s.queue[0] + Flatten(s.queue[1..]);
    assert s.got + s.readBuf == s.got;
  }

  lemma {:induction false} CopyConserves(s: Stream, n: nat)
    ensures Received(Copy(s, n)) == Received(s)
    ensures s.got <= Copy(s, n).got
  {
    var k := Min(n, |s.readBuf|);
    Regroup(s.got, s.readBuf, k);
  }

  lemma Regroup(a: seq<byte>, b: seq<byte>, k: nat)
    requires k <= |b|
    ensures (a + b[..k]) + b[k..] == a + b
  {
  }

  /** The fields of one stream that every operation keeps consistent. */
  predicate StreamOk(s: Stream) {
    && s.readsClosed == s.remoteEOF
    && s.closed == s.readErr.Some? == s.writeErr.Some?
    && (s.closed || s.sawEOF ==> s.remoteEOF)
    && (s.role == Acceptor ==> s.phase == Live)
    && (s.phase != Live ==> s.sent == [] && !s.localEOF)
  }

  /** True while `Write` may still frame data: neither half-closed nor force-closed. */
  predicate MayWrite(s: Stream) {
    s.phase == Live && !s.closed && !s.localEOF
  }

  /** The steps of one stream's own methods, each atomic under the stream's lock or the writer's. */
  datatype Act =
    | OpenWrite                       // Open writes its frame
    | OpenFail                        // Open: the write failed, or the context ended; removeStream
    | OpenReturn                      // Open takes the acknowledgement; removeStream if it is negative
    | OpenGone                        // Open: the stream or the session is done
    | OpenFailed                      // the forceClose of a failing Open has returned
    | Accept
    | Reject(message: string)         // Reject writes its frame; its forceClose follows
    | WriteChunk(data: seq<byte>)     // one turn of the loop in Write
    | CloseWrite                      // CloseWrite sets its flag
    | CloseFrame                      // ... and writes its frame
    | PullChunk                       // Read takes a chunk off the channel
    | CopyOut(n: nat)                 // Read copies to its caller
    | ReadEOF                         // Read returns io.EOF
    | ForceLock(err: string)          // forceClose, whoever calls it: the locked block
    | ForceRemove                     // ... removeStream
    | ForceDone                       // ... close(done)

  predicate CanAct(s: Stream, sessionClosed: bool, a: Act) {
    match a
    case OpenWrite => s.role == Opener && s.phase == Registered
    case OpenFail => s.role == Opener && (s.phase == Registered || s.phase == Waiting)
    case OpenReturn => s.role == Opener && s.phase == Waiting && s.ack.Some?
    case OpenGone => s.role == Opener && s.phase == Waiting && (s.doneClosed || sessionClosed)
    case OpenFailed => s.phase == Failing && s.doneClosed
    // Accept looks at done before it writes; a forced close may come in between.
    case Accept => s.role == Acceptor
    case Reject(_) => s.role == Acceptor
    // Convention: no Write after CloseWrite, and none overlapping a forced close (module Misuse).
    case WriteChunk(data) => MayWrite(s) && 0 < |data| <= MAX_DATA_SIZE
    case CloseWrite => MayWrite(s)
    case CloseFrame => s.localEOF
    // Read tests readErr before it selects, so it may still take a chunk after a forced close.
    case PullChunk => s.phase == Live && s.readBuf == [] && s.queue != []
    case CopyOut(_) => s.phase == Live && s.readBuf != []
    case ReadEOF =>
      s.phase == Live && s.readBuf == [] && s.queue == [] && s.readsClosed && s.readErr.None?
    case ForceLock(_) => !s.closed
    case ForceRemove => s.closing == Cleared
    case ForceDone => s.closing == Unlinked
  }

  function After(s: Stream, a: Act): Stream
    requires a.PullChunk? ==> s.queue != []
    requires a.OpenReturn? ==> s.ack.Some?
  {
    match a
    case OpenWrite => s.(phase := Waiting)
    case OpenFail => s.(phase := Failing)
    case OpenReturn =>
      if s.ack.value.ok then s.(phase := Live, ack := None, remoteExit := s.ack.value.exitID)
      else s.(phase := Failing, ack := None)
    case OpenGone => s.(phase := Failed)
    case OpenFailed => s.(phase := Failed)
    case Accept => s.(ledger := s.ledger.(accepted := true))
    case Reject(_) => s
    case WriteChunk(data) => Framed(s, data)
    case CloseWrite => s.(localEOF := true)
    case CloseFrame => s
    case PullChunk => Pull(s)
    case CopyOut(n) => Copy(s, n)
    case ReadEOF => s.(ledger := s.ledger.(sawEOF := true))
    case ForceLock(err) => Clear(s, err)
    case ForceRemove => s.(closing := Unlinked)
    case ForceDone => s.(closing := Done)
  }

  /** The acts that run `removeStream`. */
  predicate Removes(s: Stream, a: Act)
    requires a.OpenReturn? ==> s.ack.Some?
  {
    a.OpenFail? || a.ForceRemove? || (a.OpenReturn? && !s.ack.value.ok)
  }

  /** No call on the stream has run `removeStream` yet, so the table still leads to it. */
  predicate Held(s: Stream) { !s.unlinked && s.phase != Failing }

  /** The frames an act puts on the wire. */
  function Written(s: Stream, a: Act): seq<Msg> {
    match a
    case OpenWrite => [Open(s.id, s.request)]
    case Accept => [OpenAck(s.id, Ack(true, "", s.remoteExit))]
    case Reject(message) => [OpenAck(s.id, Ack(false, message, ""))]
    case WriteChunk(data) => [Data(s.id, data)]
    case CloseFrame => [Close(s.id)]
    case _ => []
  }
}
