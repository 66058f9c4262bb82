/**
 One session endpoint as a value, and everything that can happen to it: a received frame
 (`readLoop`) or one lock-atomic piece of a method of `Session` or `Stream`. Each of these maps
 the endpoint to a new endpoint and the frames it writes.

 Streams are addressed by handle, the position in which they were registered: two streams
 may carry the same ID, and `table` may have lost a stream that its user still holds.
 */
module Sessions {
  import opened Common
  import opened Streams

  datatype Endpoint = Endpoint(
    streams: seq<Stream>,      // every stream ever registered
    table: map<nat, nat>,      // the `streams` map: ID to handle
    nextID: nat,
    closed: bool,
    err: Option<string>,
    hasControl: bool,
    pending: set<nat>,         // handles whose forceClose a running `shutdown` has still to return from
    crashed: bool,             // a send on a closed channel has panicked
    bufferSize: nat)

  datatype Effect = Effect(ep: Endpoint, out: seq<Msg>)

  function NewEndpoint(bufferSize: nat): Endpoint {
    Endpoint([], map[], 0, false, None, false, {}, false, bufferSize)
  }

  function Lookup(ep: Endpoint, id: nat): Option<nat> {
    if id in ep.table && ep.table[id] < |ep.streams| then Some(ep.table[id]) else None
  }

  function Put(ep: Endpoint, h: nat, s: Stream): Endpoint
    requires h < |ep.streams|
  {
    ep.(streams := ep.streams[h := s])
  }

  /** Register a stream: the table entry is overwritten, whoever held it before. */
  function Register(ep: Endpoint, s: Stream): Endpoint {
    ep.(streams := ep.streams + [s], table := ep.table[s.id := |ep.streams|])
  }

  /** `removeStream`: only the stream that the table still points at is taken out. */
  function Unlink(ep: Endpoint, h: nat): Endpoint
    requires h < |ep.streams|
  {
    var id := ep.streams[h].id;
    if id in ep.table && ep.table[id] == h then ep.(table := ep.table - {id}) else ep
  }

  /** A stream after one of its acts. */
  function Acted(ep: Endpoint, h: nat, act: Act): Endpoint
    requires h < |ep.streams| && (act.PullChunk? ==> ep.streams[h].queue != []) && (act.OpenReturn? ==> ep.streams[h].ack.Some?)
  {
    var s := ep.streams[h];
    Put(if Removes(s, act) then Unlink(ep, h) else ep, h, After(s, act))
  }

  /** A whole `forceClose` call that no other one overlaps. */
  function CloseStream(ep: Endpoint, h: nat, err: string): Endpoint
    requires h < |ep.streams|
  {
    if ep.streams[h].closed then ep else Put(Unlink(ep, h), h, ForceClose(ep.streams[h], err))
  }

  lemma UnlinkPut(ep: Endpoint, h: nat, s: Stream, t: Stream)
    requires h < |ep.streams| && s.id == t.id == ep.streams[h].id
    ensures Unlink(Put(ep, h, s), h) == Put(Unlink(ep, h), h, s) && Put(Put(ep, h, s), h, t) == Put(ep, h, t)
  {
  }

  lemma LockStep(ep: Endpoint, h: nat, err: string)
    requires h < |ep.streams|
    ensures Acted(ep, h, ForceLock(err)) == Put(ep, h, Clear(ep.streams[h], err))
  {
  }

  lemma RemoveStep(ep: Endpoint, h: nat)
    requires h < |ep.streams|
    ensures Acted(ep, h, ForceRemove) == Put(Unlink(ep, h), h, ep.streams[h].(closing := Unlinked))
  {
  }

  lemma DoneStep(ep: Endpoint, h: nat)
    requires h < |ep.streams|
    ensures Acted(ep, h, ForceDone) == Put(ep, h, ep.streams[h].(closing := Done))
  {
  }

  /** Its three steps in a row: the locked block, `removeStream`, `close(done)`. */
  lemma {:induction false} CloseStreamInSteps(ep: Endpoint, h: nat, err: string)
    requires h < |ep.streams| && !ep.streams[h].closed
    ensures Acted(Acted(Acted(ep, h, ForceLock(err)), h, ForceRemove), h, ForceDone) == CloseStream(ep, h, err)
  {
    var s := Clear(ep.streams[h], err);
    LockStep(ep, h, err);
    RemoveStep(Put(ep, h, s), h);
    UnlinkPut(ep, h, s, s);
    UnlinkPut(Unlink(ep, h), h, s, s.(closing := Unlinked));
    DoneStep(Put(Unlink(ep, h), h, s.(closing := Unlinked)), h);
    UnlinkPut(Unlink(ep, h), h, s.(closing := Unlinked), s.(closing := Done));
  }

  /** The locked part of `shutdown`, behind its sync.Once. */
  function Shut(ep: Endpoint, err: string): Endpoint {
    if ep.closed then ep
    else ep.(closed := true, err := Some(err), pending := set id | id in ep.table :: ep.table[id])
  }

  /** `Open`'s defaulting of the request, given the next counter value. */
  function FillRequest(request: OpenRequest, counter: nat): OpenRequest {
    request.(protocol := if request.protocol == "" then PROTOCOL_TCP else request.protocol,
             requestID := if request.requestID == 0 then counter else request.requestID)
  }

  function DecodeOpen(id: nat, request: OpenRequest): Result<OpenRequest> {
    var r := request.(requestID := if request.requestID == 0 then id else request.requestID,
                      protocol := if request.protocol == "" then PROTOCOL_TCP else request.protocol);
    if r.destination == "" || r.port == 0 then Err("destination and port are required")
    else if r.protocol != PROTOCOL_TCP then Err("unsupported protocol " + r.protocol)
    else Ok(r)
  }

  /**
   A request carries what was asked for: the same exit, destination, port and choice, the same
   protocol or TCP where none was named, and the same ID if there was one.
   */
  predicate Asks(call: OpenRequest, request: OpenRequest) {
    && request.exitID == call.exitID && request.clientSelected == call.clientSelected
    && request.destination == call.destination && request.port == call.port
    && request.protocol == (if call.protocol == "" then PROTOCOL_TCP else call.protocol)
    && (call.requestID != 0 ==> request.requestID == call.requestID)
  }

  /** The requests that can be served: for a destination and a port, over TCP. */
  predicate Acceptable(request: OpenRequest) {
    request.destination != "" && request.port != 0 && (request.protocol == "" || request.protocol == PROTOCOL_TCP)
  }

  /**
   `DecodeOpen` accepts exactly the acceptable requests, passes on what they ask for, and numbers
   those without an ID by the frame. What it refuses for the destination or the port it does not
   refuse for the protocol.
   */
  lemma DecodeKeeps(id: nat, request: OpenRequest)
    ensures DecodeOpen(id, request).Ok? <==> Acceptable(request)
    ensures DecodeOpen(id, request).Ok? ==>
              var r := DecodeOpen(id, request).value;
              Asks(request, r) && Acceptable(r) && (request.requestID == 0 ==> r.requestID == id)
    ensures request.destination == "" || request.port == 0 ==>
              DecodeOpen(id, request) == Err("destination and port are required")
  {
  }

  /** What `Open` fills in, `DecodeOpen` accepts unchanged, exactly for TCP requests with a destination and a port. */
  lemma DecodeOpened(request: OpenRequest, counter: nat)
    requires counter > 0
    ensures var r := FillRequest(request, counter);
            DecodeOpen(r.requestID, r) == Ok(r) <==> Acceptable(request)
    ensures DecodeOpen(FillRequest(request, counter).requestID, FillRequest(request, counter)).Ok? ==>
              DecodeOpen(FillRequest(request, counter).requestID, FillRequest(request, counter)).value == FillRequest(request, counter)
  {
  }

  /**
   One turn of `readLoop`. An Error frame makes it call `forceClose`, whose locked block is part of
   this step; the rest of that call are steps of the stream.
   */
  function Receive(ep: Endpoint, m: Msg): Effect {
    match m
    case Open(id, request) =>
      (match DecodeOpen(id, request)
       case Err(e) => Effect(ep, if ep.closed then [] else [Error(id, "invalid open request: " + e)])
       case Ok(r) =>
         if ep.closed then Effect(ep, [])
         else Effect(Register(ep, NewStream(r.requestID, Acceptor, Live, r)), []))
    case OpenAck(id, ack) =>
      (match Lookup(ep, id)
       case None => Effect(ep, [])
       case Some(h) =>
         if ep.streams[h].ack.Some? then Effect(ep, [])
         else Effect(Put(ep, h, ep.streams[h].(ack := Some(ack))), []))
    case Data(id, payload) =>
      (match Lookup(ep, id)
       case None => Effect(ep, if ep.closed then [] else [Close(id)])
       case Some(h) =>
         if payload != [] && ep.streams[h].readsClosed then Effect(ep.(crashed := true), [])
         else Effect(Put(ep, h, Deliver(ep.streams[h], payload)), []))
    case Close(id) =>
      (match Lookup(ep, id)
       case None => Effect(ep, [])
       case Some(h) => Effect(Put(ep, h, RemoteClose(ep.streams[h])), []))
    case Error(id, message) =>
      (match Lookup(ep, id)
       case None => Effect(ep, [])
       case Some(h) => Effect(Put(ep, h, Clear(ep.streams[h], message)), []))
    case Control(_, _, _) =>
      if ep.hasControl then Effect(ep, []) else Effect(Shut(ep, "unexpected control frame"), [])
  }

  /** The same turn up to the return of the `forceClose` that an Error frame calls for. */
  function ReceiveWhole(ep: Endpoint, m: Msg): Effect {
    if m.Error? && Lookup(ep, m.id).Some? then Effect(CloseStream(ep, Lookup(ep, m.id).value, m.message), [])
    else Receive(ep, m)
  }

  lemma {:induction false} ReceiveInSteps(ep: Endpoint, m: Msg, h: nat)
    requires m.Error? && Lookup(ep, m.id) == Some(h) && !ep.streams[h].closed
    ensures Acted(Acted(Receive(ep, m).ep, h, ForceRemove), h, ForceDone) == ReceiveWhole(ep, m).ep
  {
    LockStep(ep, h, m.message);
    CloseStreamInSteps(ep, h, m.message);
  }

  /** `readLoop` waits in `deliver` while the stream's buffer is full. */
  predicate CanReceive(ep: Endpoint, m: Msg) {
    m.Data? ==>
      match Lookup(ep, m.id)
      case None => true
      case Some(h) => |ep.streams[h].queue| < ep.bufferSize
  }

  /** Data for a stream whose `forceClose` has run its locked block and not yet its `removeStream`. */
  predicate Exposed(ep: Endpoint, m: Msg) {
    && m.Data? && m.payload != []
    && match Lookup(ep, m.id)
       case None => false
       case Some(h) => ep.streams[h].closed
  }

  /** Everything else that moves an endpoint. */
  datatype Action =
    | OpenCall(request: OpenRequest)          // Open, up to the unlock after the table entry
    | BeginShutdown(err: string)              // the locked part of shutdown
    | ShutdownTurn(h: nat)                    // a forceClose in the loop of shutdown has returned
    | SetControl
    | At(h: nat, act: Act)                    // a step of one stream's own methods

  predicate Enabled(ep: Endpoint, a: Action) {
    match a
    case OpenCall(_) => !ep.closed
    case BeginShutdown(_) => true
    case ShutdownTurn(h) => h < |ep.streams| && h in ep.pending && ep.streams[h].doneClosed
    case SetControl => true
    case At(h, act) => h < |ep.streams| && CanAct(ep.streams[h], ep.closed, act)
  }

  /** The stream that `Open` registers for a request. */
  function OpenedStream(ep: Endpoint, request: OpenRequest): Stream {
    var r := FillRequest(request, ep.nextID + 1);
    NewStream(r.requestID, Opener, Registered, r)
  }

  /** It is the call's own request that is registered, under its own ID or the next number of the session. */
  lemma OpenAsks(ep: Endpoint, request: OpenRequest)
    ensures var s := OpenedStream(ep, request);
            && Asks(request, s.request) && s.id == s.request.requestID
            && s.id == (if request.requestID == 0 then ep.nextID + 1 else request.requestID)
            && s == NewStream(s.id, Opener, Registered, s.request)
  {
  }

  function Apply(ep: Endpoint, a: Action): Effect
    requires Enabled(ep, a)
  {
    match a
    case OpenCall(request) =>
      Effect(Register(ep.(nextID := ep.nextID + 1), OpenedStream(ep, request)), [])
    case BeginShutdown(err) => Effect(Shut(ep, err), [])
    case ShutdownTurn(h) => Effect(ep.(pending := ep.pending - {h}), [])
    case SetControl => Effect(ep.(hasControl := true), [])
    case At(h, act) => Effect(Acted(ep, h, act), Written(ep.streams[h], act))
  }
}
