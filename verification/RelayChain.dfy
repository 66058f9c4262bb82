/**
 A proxied connection end to end: a source, a first session hop, the server's `Relay`, a
 second session hop, and a sink, with both hops multiplexing any number of other streams. A
 chain is one direction; a duplex runs the two directions over the same hops.
 */
module RelayChain {
  import opened Common
  import opened Streams
  import opened Sessions
  import opened Pairing
  import opened Protocol
  import opened SessionRuns
  import opened Scenarios

  /** A copy loop runs, or has ended: at the end of file of what it reads, or on an error. */
  datatype Loop = Copying | AtEOF | OnError

  /**
   `a` and `b` are the hops; the relayed stream is written at the local end of a hop, under
   handle `ha` or `hb`, and read at its remote end, under `ka` or `kb`. Each copy loop holds
   the bytes it has read and not yet written: `feeding` before the first hop, `relaying`
   between the hops, `draining` behind the second.
   */
  datatype Chain = Chain(
    a: World, ha: nat, ka: nat, b: World, hb: nat, kb: nat,
    fed: seq<byte>, feeding: seq<byte>, relaying: seq<byte>, draining: seq<byte>, delivered: seq<byte>,
    feeder: Loop, relay: Loop)

  /** Every hop step; only the copy loops read, write and half-close the relayed stream. */
  datatype Link =
    | Feed(data: seq<byte>)       // the first loop reads from the source
    | WriteA(l: Label)            // ... and writes to the first hop
    | EndFeed(how: Loop)          // ... and ends
    | CloseA(l: Label)            // ... and half-closes the first hop
    | HopA(l: Label)              // anything else on the first hop
    | ReadA(l: Label)             // the relay reads from the first hop
    | WriteB(l: Label)            // ... and writes to the second hop
    | EndRelay(how: Loop)         // ... and ends
    | CloseB(l: Label)            // ... and half-closes the second hop
    | HopB(l: Label)              // anything else on the second hop
    | ReadB(l: Label)             // the last loop reads from the second hop
    | Drain(n: nat)               // ... and writes to the sink

  predicate Bound(ch: Chain) {
    Ends(ch.a, ch.ha, ch.ka) && Ends(ch.b, ch.hb, ch.kb)
  }

  function SentA(ch: Chain): seq<byte> requires Bound(ch) { ch.a.local.streams[ch.ha].sent }
  function GotA(ch: Chain): seq<byte> requires Bound(ch) { ch.a.remote.streams[ch.ka].got }
  function SentB(ch: Chain): seq<byte> requires Bound(ch) { ch.b.local.streams[ch.hb].sent }
  function GotB(ch: Chain): seq<byte> requires Bound(ch) { ch.b.remote.streams[ch.kb].got }

  /** The writing end of a hop has been half-closed. */
  predicate HalfA(ch: Chain) requires Bound(ch) { ch.a.local.streams[ch.ha].localEOF }
  predicate HalfB(ch: Chain) requires Bound(ch) { ch.b.local.streams[ch.hb].localEOF }

  /** The reading end of a hop has returned io.EOF. */
  predicate EOFA(ch: Chain) requires Bound(ch) { ch.a.remote.streams[ch.ka].sawEOF }
  predicate EOFB(ch: Chain) requires Bound(ch) { ch.b.remote.streams[ch.kb].sawEOF }

  /** The chain with one hop moved on. */
  function MoveA(ch: Chain, l: Label): Chain requires CanStep(ch.a, l) { ch.(a := StepTo(ch.a, l)) }
  function MoveB(ch: Chain, l: Label): Chain requires CanStep(ch.b, l) { ch.(b := StepTo(ch.b, l)) }

  /** What was written grew by a first part of the loop's buffer. */
  predicate Wrote(before: seq<byte>, after: seq<byte>, buffer: seq<byte>) {
    before <= after && after[|before|..] <= buffer
  }

  predicate HalfCloses(l: Label, h: nat) { l == Near(Do(At(h, CloseWrite))) }

  /** How the relay's loop can end: its buffer written at an end of file, or a read or a write that failed. */
  predicate RelayEnds(ch: Chain, how: Loop)
    requires Bound(ch)
  {
    match how
    case Copying => false
    case AtEOF => EOFA(ch) && ch.relaying == []
    case OnError => ch.a.remote.streams[ch.ka].readErr.Some? || ch.b.local.streams[ch.hb].writeErr.Some?
  }

  predicate MovesA(k: Link) { k.WriteA? || k.CloseA? || k.HopA? || k.ReadA? }
  predicate MovesB(k: Link) { k.WriteB? || k.CloseB? || k.HopB? || k.ReadB? }

  /** What a link allows a step of the first hop to do to the relayed stream; `m` is the chain behind the step. */
  predicate AllowsA(ch: Chain, m: Chain, k: Link)
    requires Bound(ch) && Bound(m) && MovesA(k)
  {
    && (SentA(m) == SentA(ch) || (k.WriteA? && ch.feeder == Copying && Wrote(SentA(ch), SentA(m), ch.feeding)))
    && (GotA(m) == GotA(ch) || (k.ReadA? && ch.relay == Copying && ch.relaying == [] && GotA(ch) <= GotA(m)))
    && (HalfA(m) == HalfA(ch) || (k.CloseA? && ch.feeder != Copying && HalfCloses(k.l, ch.ha)))
  }

  predicate AllowsB(ch: Chain, m: Chain, k: Link)
    requires Bound(ch) && Bound(m) && MovesB(k)
  {
    && (SentB(m) == SentB(ch) || (k.WriteB? && ch.relay == Copying && Wrote(SentB(ch), SentB(m), ch.relaying)))
    && (GotB(m) == GotB(ch) || (k.ReadB? && ch.draining == [] && GotB(ch) <= GotB(m)))
    && (HalfB(m) == HalfB(ch) || (k.CloseB? && ch.relay != Copying && HalfCloses(k.l, ch.hb)))
  }

  predicate CanLink(ch: Chain, k: Link)
    requires Bound(ch)
  {
    if MovesA(k) then CanStep(ch.a, k.l) && Bound(MoveA(ch, k.l)) && AllowsA(ch, MoveA(ch, k.l), k)
    else if MovesB(k) then CanStep(ch.b, k.l) && Bound(MoveB(ch, k.l)) && AllowsB(ch, MoveB(ch, k.l), k)
    else if k.Feed? then ch.feeder == Copying && ch.feeding == []
    else if k.EndFeed? then ch.feeder == Copying && k.how != Copying && (k.how == AtEOF ==> ch.feeding == [])
    else if k.EndRelay? then ch.relay == Copying && RelayEnds(ch, k.how)
    else k.n <= |ch.draining|
  }

  /** The loops' buffers behind a step of the first hop. */
  function BuffersA(ch: Chain, m: Chain): Chain
    requires Bound(ch) && Bound(m) && |SentA(ch)| <= |SentA(m)| <= |SentA(ch)| + |ch.feeding| && |GotA(ch)| <= |GotA(m)|
  {
    m.(feeding := ch.feeding[|SentA(m)| - |SentA(ch)|..], relaying := ch.relaying + GotA(m)[|GotA(ch)|..])
  }

  function BuffersB(ch: Chain, m: Chain): Chain
    requires Bound(ch) && Bound(m) && |SentB(ch)| <= |SentB(m)| <= |SentB(ch)| + |ch.relaying| && |GotB(ch)| <= |GotB(m)|
  {
    m.(relaying := ch.relaying[|SentB(m)| - |SentB(ch)|..], draining := ch.draining + GotB(m)[|GotB(ch)|..])
  }

  function LinkTo(ch: Chain, k: Link): Chain
    requires Bound(ch) && CanLink(ch, k)
  {
    if MovesA(k) then BuffersA(ch, MoveA(ch, k.l))
    else if MovesB(k) then BuffersB(ch, MoveB(ch, k.l))
    else if k.Feed? then ch.(fed := ch.fed + k.data, feeding := k.data)
    else if k.EndFeed? then ch.(feeder := k.how)
    else if k.EndRelay? then ch.(relay := k.how)
    else ch.(delivered := ch.delivered + ch.draining[..k.n], draining := ch.draining[k.n..])
  }

  /** These links can follow each other, the last one behind the others. */
  predicate Linked(ch: Chain, ks: seq<Link>)
    requires Bound(ch)
    decreases |ks|, 0
  {
    ks == [] ||
    (&& Linked(ch, ks[..|ks| - 1])
     && CanLink(Follow(ch, ks[..|ks| - 1]), ks[|ks| - 1])
     && Bound(LinkTo(Follow(ch, ks[..|ks| - 1]), ks[|ks| - 1])))
  }

  function Follow(ch: Chain, ks: seq<Link>): (z: Chain)
    requires Bound(ch) && Linked(ch, ks)
    ensures Bound(z)
    decreases |ks|, 1
  {
    if ks == [] then ch else LinkTo(Follow(ch, ks[..|ks| - 1]), ks[|ks| - 1])
  }

  ghost predicate ChainInv(ch: Chain) {
    Inv(ch.a) && Inv(ch.b) && Balanced(ch) && LoopsOk(ch)
  }

  /** Each copy loop holds exactly what it has read and not yet written. */
  predicate Balanced(ch: Chain) {
    && Bound(ch)
    && ch.fed == SentA(ch) + ch.feeding
    && GotA(ch) == SentB(ch) + ch.relaying
    && GotB(ch) == ch.delivered + ch.draining
  }

  /** A hop is half-closed only behind its loop, and a loop that ended at an end of file left nothing unwritten. */
  predicate LoopsOk(ch: Chain)
    requires Bound(ch)
  {
    && (HalfA(ch) ==> ch.feeder != Copying)
    && (HalfB(ch) ==> ch.relay != Copying)
    && (ch.feeder == AtEOF ==> ch.feeding == [])
    && (ch.relay == AtEOF ==> ch.relaying == [] && EOFA(ch))
  }

  /** The relay starts on fresh streams, in sessions that may already be busy. */
  ghost predicate FreshChain(ch: Chain) {
    && Reachable(ch.a) && Reachable(ch.b) && Bound(ch) && !HalfA(ch) && !HalfB(ch)
    && SentA(ch) == GotA(ch) == SentB(ch) == GotB(ch) == []
    && ch.fed == ch.feeding == ch.relaying == ch.draining == ch.delivered == []
    && ch.feeder == ch.relay == Copying
  }

  lemma WroteKeeps(before: seq<byte>, after: seq<byte>, buffer: seq<byte>)
    requires before == after || Wrote(before, after, buffer)
    ensures 0 <= |after| - |before| <= |buffer| && after + buffer[|after| - |before|..] == before + buffer
  {
    var d := after[|before|..];
    assert after == before + d;
    assert buffer == d + buffer[|d|..];
  }

  lemma ReadKeeps(sent: seq<byte>, buffer: seq<byte>, before: seq<byte>, after: seq<byte>)
    requires before == sent + buffer && before <= after
    ensures after == sent + (buffer + after[|before|..])
  {
  }

  lemma {:induction false} LinkAKeepsBalance(ch: Chain, m: Chain, k: Link)
    requires Balanced(ch) && Bound(m) && MovesA(k) && AllowsA(ch, m, k) && m == ch.(a := m.a)
    ensures Balanced(BuffersA(ch, m))
  {
    WroteKeeps(SentA(ch), SentA(m), ch.feeding);
    ReadKeeps(SentB(ch), ch.relaying, GotA(ch), GotA(m));
  }

  lemma {:induction false} LinkBKeepsBalance(ch: Chain, m: Chain, k: Link)
    requires Balanced(ch) && Bound(m) && MovesB(k) && AllowsB(ch, m, k) && m == ch.(b := m.b)
    ensures Balanced(BuffersB(ch, m))
  {
    WroteKeeps(SentB(ch), SentB(m), ch.relaying);
    ReadKeeps(ch.delivered, ch.draining, GotB(ch), GotB(m));
  }

  /** An end of file that has been returned stays returned. */
  lemma {:induction false} EOFStays(w: World, l: Label, k: nat)
    requires Inv(w) && CanStep(w, l) && k < |w.remote.streams| && w.remote.streams[k].sawEOF
    ensures k < |StepTo(w, l).remote.streams| && StepTo(w, l).remote.streams[k].sawEOF
  {
    StepGrows(w, l);
  }

  lemma LinkAKeepsLoops(ch: Chain, m: Chain, k: Link)
    requires Balanced(ch) && LoopsOk(ch) && Bound(m) && MovesA(k) && AllowsA(ch, m, k) && m == ch.(a := m.a)
    requires EOFA(ch) ==> EOFA(m)
    ensures Balanced(BuffersA(ch, m)) && LoopsOk(BuffersA(ch, m))
  {
    LinkAKeepsBalance(ch, m, k);
  }

  lemma LinkBKeepsLoops(ch: Chain, m: Chain, k: Link)
    requires Balanced(ch) && LoopsOk(ch) && Bound(m) && MovesB(k) && AllowsB(ch, m, k) && m == ch.(b := m.b)
    ensures Balanced(BuffersB(ch, m)) && LoopsOk(BuffersB(ch, m))
  {
    LinkBKeepsBalance(ch, m, k);
  }

  lemma LinkNoneKeepsLoops(ch: Chain, k: Link)
    requires Balanced(ch) && LoopsOk(ch) && CanLink(ch, k) && !MovesA(k) && !MovesB(k)
    ensures Balanced(LinkTo(ch, k)) && LoopsOk(LinkTo(ch, k))
  {
    if k.Drain? {
      assert ch.draining == ch.draining[..k.n] + ch.draining[k.n..];
    }
  }

  lemma {:induction false} LinkKeepsLoops(ch: Chain, k: Link)
    requires Inv(ch.a) && Balanced(ch) && LoopsOk(ch) && CanLink(ch, k)
    ensures Balanced(LinkTo(ch, k)) && LoopsOk(LinkTo(ch, k))
  {
    if MovesA(k) {
      if EOFA(ch) {
        EOFStays(ch.a, k.l, ch.ka);
      }
      LinkAKeepsLoops(ch, MoveA(ch, k.l), k);
    } else if MovesB(k) {
      LinkBKeepsLoops(ch, MoveB(ch, k.l), k);
    } else {
      LinkNoneKeepsLoops(ch, k);
    }
  }

  lemma {:induction false} LinkKeepsInv(ch: Chain, k: Link)
    requires ChainInv(ch) && CanLink(ch, k)
    ensures ChainInv(LinkTo(ch, k))
  {
    LinkKeepsLoops(ch, k);
    if MovesA(k) {
      StepKeepsInv(ch.a, k.l);
    } else if MovesB(k) {
      StepKeepsInv(ch.b, k.l);
    }
  }

  lemma {:induction false} FollowKeepsInv(ch: Chain, ks: seq<Link>)
    requires ChainInv(ch) && Linked(ch, ks)
    ensures ChainInv(Follow(ch, ks))
    decreases |ks|
  {
    if ks != [] {
      FollowKeepsInv(ch, ks[..|ks| - 1]);
      LinkKeepsInv(Follow(ch, ks[..|ks| - 1]), ks[|ks| - 1]);
    }
  }

  lemma {:induction false} ChainStarts(ch: Chain)
    requires FreshChain(ch)
    ensures ChainInv(ch)
  {
    ReachableInv(ch.a);
    ReachableInv(ch.b);
  }

  lemma {:induction false} HopPrefix(w: World, h: nat, k: nat)
    requires Inv(w) && Ends(w, h, k)
    ensures w.remote.streams[k].got <= w.local.streams[h].sent
    ensures w.remote.streams[k].sawEOF ==> w.remote.streams[k].got == w.local.streams[h].sent
  {
    EndsRelated(w, h, k);
    PrefixOfReceived(w.remote.streams[k]);
  }

  /** How far the bytes have come, at every place of a chain. */
  lemma {:induction false} ChainBounds(z: Chain)
    requires ChainInv(z)
    ensures z.delivered <= GotB(z) <= SentB(z) <= GotA(z) <= SentA(z) <= z.fed
    ensures EOFB(z) ==> GotB(z) == SentB(z)
    ensures EOFA(z) ==> GotA(z) == SentA(z)
  {
    HopPrefix(z.a, z.ha, z.ka);
    HopPrefix(z.b, z.hb, z.kb);
  }

  lemma {:induction false} ChainRun(ch: Chain, ks: seq<Link>)
    requires FreshChain(ch) && Linked(ch, ks)
    ensures ChainInv(Follow(ch, ks))
  {
    ChainStarts(ch);
    FollowKeepsInv(ch, ks);
  }

  /** In every run of the chain, what reaches the sink is a prefix of what the source gave. */
  lemma {:induction false} RelayKeepsOrder(ch: Chain, ks: seq<Link>)
    requires FreshChain(ch) && Linked(ch, ks)
    ensures Follow(ch, ks).delivered <= Follow(ch, ks).fed
  {
    ChainRun(ch, ks);
    ChainBounds(Follow(ch, ks));
  }

  /** The last loop has read to its end of file and handed everything on. */
  predicate Ended(z: Chain)
    requires Bound(z)
  {
    EOFB(z) && z.draining == []
  }

  /**
   The relay's half-close is the only one of the second hop, and it comes behind the end of its
   loop; an end of file at the far end therefore comes behind it too, unless the hop was broken.
   */
  lemma {:induction false} EOFComesBehindLoop(ch: Chain, ks: seq<Link>)
    requires FreshChain(ch) && Linked(ch, ks) && Bound(Follow(ch, ks))
    ensures var z := Follow(ch, ks); HalfB(z) ==> z.relay != Copying
    ensures var z := Follow(ch, ks); EOFB(z) && !Gone(z.b.local.streams[z.hb]) ==> z.relay != Copying
  {
    ChainRun(ch, ks);
    var z := Follow(ch, ks);
    EndsRelated(z.b, z.hb, z.kb);
  }

  lemma {:induction false} EndedIff(z: Chain)
    requires ChainInv(z) && Ended(z)
    ensures z.delivered == z.fed <==> z.feeding == [] && z.relaying == [] && GotA(z) == SentA(z)
    ensures z.relay == AtEOF ==> z.delivered == SentA(z)
    ensures z.relay == AtEOF && z.feeder == AtEOF ==> z.delivered == z.fed
  {
    ChainBounds(z);
    AllOrSome(z.delivered, SentB(z), z.relaying, GotA(z), SentA(z), z.feeding, z.fed);
  }

  /**
   An end of file at the far end, behind a relay whose loop ended at an end of file: everything
   written to the first hop has arrived, and everything the source gave, if the first loop ended
   at its end of file as well.
   */
  lemma {:induction false} CleanRelayIsComplete(ch: Chain, ks: seq<Link>)
    requires FreshChain(ch) && Linked(ch, ks) && Bound(Follow(ch, ks)) && Ended(Follow(ch, ks))
    ensures var z := Follow(ch, ks);
            && (z.relay == AtEOF ==> z.delivered == SentA(z))
            && (z.relay == AtEOF && z.feeder == AtEOF ==> z.delivered == z.fed)
  {
    ChainRun(ch, ks);
    EndedIff(Follow(ch, ks));
  }

  lemma AllOrSome(delivered: seq<byte>, sentB: seq<byte>, relaying: seq<byte>, gotA: seq<byte>, sentA: seq<byte>,
                  feeding: seq<byte>, fed: seq<byte>)
    requires delivered == sentB && gotA == sentB + relaying && gotA <= sentA && fed == sentA + feeding
    ensures delivered == fed <==> feeding == [] && relaying == [] && gotA == sentA
  {
    assert |fed| == |delivered| + |relaying| + (|sentA| - |gotA|) + |feeding|;
  }

  /** However the loops ended: all has arrived if and only if each hop and each loop passed on all it was given. */
  lemma {:induction false} CompleteIff(ch: Chain, ks: seq<Link>)
    requires FreshChain(ch) && Linked(ch, ks) && Bound(Follow(ch, ks)) && Ended(Follow(ch, ks))
    ensures var z := Follow(ch, ks);
            z.delivered == z.fed <==> z.feeding == [] && z.relaying == [] && GotA(z) == SentA(z)
  {
    ChainRun(ch, ks);
    EndedIff(Follow(ch, ks));
  }

  // ---- what the end of the relay's loop decides ----

  /** The writing end of the first hop. */
  function Writer(ch: Chain): Stream requires Bound(ch) { ch.a.local.streams[ch.ha] }

  /** Once the relay's loop has ended, only the first hop's writer can still change how much is missing. */
  predicate Decided(z: Chain, z': Chain)
    requires Bound(z) && Bound(z')
  {
    && z'.relay == z.relay && SentB(z') == SentB(z) && SentA(z) <= SentA(z')
    && (Finished(Writer(z)) ==> Finished(Writer(z')) && SentA(z') == SentA(z))
  }

  lemma {:induction false} FinishedStays(w: World, l: Label, h: nat)
    requires Inv(w) && CanStep(w, l) && h < |w.local.streams|
    ensures var s, t := w.local.streams[h], StepTo(w, l).local;
            h < |t.streams| && s.sent <= t.streams[h].sent
            && (Finished(s) ==> Finished(t.streams[h]) && t.streams[h].sent == s.sent)
  {
    StepGrows(w, l);
  }

  lemma {:induction false} LinkKeepsDecision(z: Chain, k: Link)
    requires ChainInv(z) && z.relay != Copying && CanLink(z, k) && Bound(LinkTo(z, k))
    ensures Decided(z, LinkTo(z, k))
  {
    if MovesA(k) {
      FinishedStays(z.a, k.l, z.ha);
    }
  }

  lemma {:induction false} RunKeepsDecision(z: Chain, ks: seq<Link>)
    requires ChainInv(z) && z.relay != Copying && Linked(z, ks)
    ensures Decided(z, Follow(z, ks))
    decreases |ks|
  {
    if ks != [] {
      var y := Follow(z, ks[..|ks| - 1]);
      RunKeepsDecision(z, ks[..|ks| - 1]);
      FollowKeepsInv(z, ks[..|ks| - 1]);
      LinkKeepsDecision(y, ks[|ks| - 1]);
    }
  }

  lemma {:induction false} DecidedEnds(z: Chain, z': Chain)
    requires ChainInv(z) && ChainInv(z') && z.relay != Copying && Decided(z, z') && Ended(z')
    ensures z.relay == AtEOF ==> z'.delivered == SentA(z')
    ensures SentB(z) != SentA(z) ==> z.relay == OnError && z'.delivered < SentA(z')
    ensures SentB(z) == SentA(z) && Finished(Writer(z)) ==> z'.delivered == SentA(z')
  {
    ChainBounds(z);
    ChainBounds(z');
    EndedIff(z');
    assert z'.delivered == SentB(z) <= SentA(z');
  }

  /**
   In every run, from the moment the relay's loop has ended: if it ended at an end of file, every
   later end of file at the far end is complete. If it ended on an error, every later one is
   truncated where something written to the first hop had not been passed on by then, and complete
   where nothing was outstanding and the first hop's writer had finished.
   */
  lemma {:induction false} EndDecides(ch: Chain, ks: seq<Link>, more: seq<Link>)
    requires FreshChain(ch) && Linked(ch, ks) && Follow(ch, ks).relay != Copying && Linked(Follow(ch, ks), more)
    requires Ended(Follow(Follow(ch, ks), more))
    ensures var z, z' := Follow(ch, ks), Follow(Follow(ch, ks), more);
            && (z.relay == AtEOF ==> z'.delivered == SentA(z'))
            && (SentB(z) != SentA(z) ==> z.relay == OnError && z'.delivered < SentA(z'))
            && (SentB(z) == SentA(z) && Finished(Writer(z)) ==> z'.delivered == SentA(z'))
  {
    var z := Follow(ch, ks);
    ChainRun(ch, ks);
    RunKeepsDecision(z, more);
    FollowKeepsInv(z, more);
    DecidedEnds(z, Follow(z, more));
  }

  // ---- a run that looks complete and is not ----

  /** Some links lead from one chain to another. */
  ghost predicate Follows(ch: Chain, z: Chain) {
    Bound(ch) && exists ks :: Linked(ch, ks) && Follow(ch, ks) == z
  }

  lemma {:induction false} FollowOn(ch: Chain, z: Chain, k: Link)
    requires Follows(ch, z) && Bound(z) && CanLink(z, k) && Bound(LinkTo(z, k))
    ensures Follows(ch, LinkTo(z, k))
  {
    var ks :| Linked(ch, ks) && Follow(ch, ks) == z;
    assert (ks + [k])[..|ks|] == ks;
    assert Linked(ch, ks + [k]) && Follow(ch, ks + [k]) == LinkTo(z, k);
  }

  /** A step of the first hop. */
  lemma {:induction false} FollowA(ch: Chain, z: Chain, k: Link, w: World)
    requires Follows(ch, z) && Bound(z) && MovesA(k) && CanStep(z.a, k.l) && StepTo(z.a, k.l) == w
    requires Bound(z.(a := w)) && AllowsA(z, z.(a := w), k)
    ensures Follows(ch, BuffersA(z, z.(a := w)))
  {
    FollowOn(ch, z, k);
  }

  /** A step of the second hop. */
  lemma {:induction false} FollowB(ch: Chain, z: Chain, k: Link, w: World)
    requires Follows(ch, z) && Bound(z) && MovesB(k) && CanStep(z.b, k.l) && StepTo(z.b, k.l) == w
    requires Bound(z.(b := w)) && AllowsB(z, z.(b := w), k)
    ensures Follows(ch, BuffersB(z, z.(b := w)))
  {
    FollowOn(ch, z, k);
  }

  /** An act of the writing end of a hop, and one of its reading end. */
  lemma {:induction false} NearActs(w: World, h: nat, act: Act)
    requires h < |w.local.streams| && CanAct(w.local.streams[h], w.local.closed, act)
    requires Written(w.local.streams[h], act) != [] ==> !Quiet(w.local.streams[h])
    ensures CanStep(w, Near(Do(At(h, act))))
    ensures StepTo(w, Near(Do(At(h, act)))) == w.(local := Acted(w.local, h, act), out := w.out + Written(w.local.streams[h], act))
  {
  }

  lemma {:induction false} FarActs(w: World, k: nat, act: Act)
    requires k < |w.remote.streams| && CanAct(w.remote.streams[k], w.remote.closed, act)
    requires Written(w.remote.streams[k], act) != [] ==> !Quiet(w.remote.streams[k])
    ensures CanStep(w, Far(Do(At(k, act))))
    ensures StepTo(w, Far(Do(At(k, act)))) == w.(remote := Acted(w.remote, k, act), inn := w.inn + Written(w.remote.streams[k], act))
  {
  }

  /** Both hops have just opened the relayed stream. */
  lemma {:induction false} NewChain(r: OpenRequest) returns (ch: Chain)
    requires Proper(r)
    ensures FreshChain(ch) && Follows(ch, ch) && ch.ha == ch.ka == ch.hb == ch.kb == 0 && ch.b == ch.a
    ensures ch.a.local.streams == [NewStream(r.requestID, Opener, Live, r)]
    ensures ch.a.remote.streams == [After(NewStream(r.requestID, Acceptor, Live, r), Accept)]
    ensures Lookup(ch.a.remote, r.requestID) == Some(0) && ch.a.out == []
  {
    var w := FirstStream(r);
    ch := Chain(w, 0, 0, w, 0, 0, [], [], [], [], [], Copying, Copying);
    assert Linked(ch, []) && Follow(ch, []) == ch;
  }

  lemma SameBuffers(ch: Chain, m: Chain)
    requires Bound(ch) && Bound(m)
    ensures m == ch.(a := m.a) && SentA(m) == SentA(ch) && GotA(m) == GotA(ch) ==> BuffersA(ch, m) == m
    ensures m == ch.(b := m.b) && SentB(m) == SentB(ch) && GotB(m) == GotB(ch) ==> BuffersB(ch, m) == m
  {
  }

  lemma WroteAll(before: seq<byte>, buffer: seq<byte>)
    ensures Wrote(before, before + buffer, buffer) && buffer[|before + buffer| - |before|..] == []
  {
    assert (before + buffer)[|before|..] == buffer;
  }

  /** The first loop writes its whole buffer to the first hop, which is then in this world. */
  lemma {:induction false} FollowWrite(ch: Chain, z: Chain, l: Label, w: World)
    requires Follows(ch, z) && Bound(z) && z.feeder == Copying && CanStep(z.a, l) && StepTo(z.a, l) == w
    requires Bound(z.(a := w)) && SentA(z.(a := w)) == SentA(z) + z.feeding
    requires GotA(z.(a := w)) == GotA(z) && HalfA(z.(a := w)) == HalfA(z)
    ensures Follows(ch, z.(a := w, feeding := []))
  {
    WroteAll(SentA(z), z.feeding);
    FollowA(ch, z, WriteA(l), w);
    assert z.relaying + [] == z.relaying;
    assert BuffersA(z, z.(a := w)) == z.(a := w, feeding := []);
  }

  lemma {:induction false} BufferIsWritten(ch: Chain, z: Chain) returns (z': Chain)
    requires Follows(ch, z) && Bound(z) && z.feeder == Copying && 0 < |z.feeding| <= MAX_DATA_SIZE && MayWrite(z.a.local.streams[z.ha])
    ensures Follows(ch, z') && Bound(z') && z' == z.(a := z'.a, feeding := [])
    ensures SentA(z') == SentA(z) + z.feeding && z'.a.remote == z.a.remote
  {
    NearActs(z.a, z.ha, WriteChunk(z.feeding));
    var w := z.a.(local := Acted(z.a.local, z.ha, WriteChunk(z.feeding)), out := z.a.out + [Data(z.a.local.streams[z.ha].id, z.feeding)]);
    assert w.local.streams[z.ha] == Framed(z.a.local.streams[z.ha], z.feeding);
    FollowWrite(ch, z, Near(Do(At(z.ha, WriteChunk(z.feeding)))), w);
    z' := z.(a := w, feeding := []);
  }

  /** The reading end of the first hop is force-closed. */
  lemma {:induction false} ReadFails(ch: Chain, z: Chain, err: string) returns (z': Chain)
    requires Follows(ch, z) && Bound(z) && !z.a.remote.streams[z.ka].closed
    ensures Follows(ch, z') && Bound(z') && z' == z.(a := z'.a) && z'.a.local == z.a.local
    ensures z'.a.remote.streams[z.ka] == Clear(z.a.remote.streams[z.ka], err)
  {
    FarActs(z.a, z.ka, ForceLock(err));
    var w := z.a.(remote := Acted(z.a.remote, z.ka, ForceLock(err)));
    assert z.a.inn + [] == z.a.inn;
    z' := z.(a := w);
    FollowA(ch, z, HopA(Far(Do(At(z.ka, ForceLock(err))))), w);
    SameBuffers(z, z');
  }

  /** The relay's loop has ended, and half-closes the second hop. */
  lemma {:induction false} RelayHalfCloses(ch: Chain, z: Chain) returns (z': Chain)
    requires Follows(ch, z) && Bound(z) && z.relay != Copying && MayWrite(z.b.local.streams[z.hb])
    ensures Follows(ch, z') && Bound(z') && z' == z.(b := z'.b) && SentB(z') == SentB(z)
    ensures z'.b.out == z.b.out && z'.b.remote == z.b.remote
    ensures z'.b.local.streams[z.hb] == z.b.local.streams[z.hb].(localEOF := true)
  {
    NearActs(z.b, z.hb, CloseWrite);
    var w := z.b.(local := Acted(z.b.local, z.hb, CloseWrite));
    assert z.b.out + [] == z.b.out;
    z' := z.(b := w);
    FollowB(ch, z, CloseB(Near(Do(At(z.hb, CloseWrite)))), w);
    SameBuffers(z, z');
  }

  /** ... and writes the Close frame. */
  lemma {:induction false} CloseIsSent(ch: Chain, z: Chain) returns (z': Chain)
    requires Follows(ch, z) && Bound(z)
    requires var s := z.b.local.streams[z.hb]; s.localEOF && !s.closed && !s.remoteEOF
    ensures Follows(ch, z') && Bound(z') && z' == z.(b := z'.b) && SentB(z') == SentB(z)
    ensures z'.b.out == z.b.out + [Close(z.b.local.streams[z.hb].id)] && z'.b.remote == z.b.remote
  {
    NearActs(z.b, z.hb, CloseFrame);
    var w := z.b.(local := Acted(z.b.local, z.hb, CloseFrame), out := z.b.out + [Close(z.b.local.streams[z.hb].id)]);
    z' := z.(b := w);
    FollowB(ch, z, HopB(Near(Do(At(z.hb, CloseFrame)))), w);
    SameBuffers(z, z');
  }

  /** The far end takes the Close frame. */
  lemma {:induction false} FarTakesClose(ch: Chain, z: Chain, id: nat) returns (z': Chain)
    requires Follows(ch, z) && Bound(z) && z.b.out == [Close(id)] && Lookup(z.b.remote, id) == Some(z.kb)
    ensures Follows(ch, z') && Bound(z') && z' == z.(b := z'.b) && z'.b.local == z.b.local
    ensures z'.b.remote.streams[z.kb] == RemoteClose(z.b.remote.streams[z.kb])
  {
    FarTakes(z.b, id, z.kb);
    var w := z.b.(remote := Put(z.b.remote, z.kb, RemoteClose(z.b.remote.streams[z.kb])), out := []);
    z' := z.(b := w);
    FollowB(ch, z, HopB(Far(Take)), w);
    SameBuffers(z, z');
  }

  /** ... and reads to its end of file. */
  lemma {:induction false} FarReadsEOF(ch: Chain, z: Chain) returns (z': Chain)
    requires Follows(ch, z) && Bound(z)
    requires CanAct(z.b.remote.streams[z.kb], z.b.remote.closed, ReadEOF) && !z.b.remote.streams[z.kb].closed
    ensures Follows(ch, z') && Bound(z') && z' == z.(b := z'.b) && z'.b.local == z.b.local && EOFB(z')
  {
    FarActs(z.b, z.kb, ReadEOF);
    var w := z.b.(remote := Acted(z.b.remote, z.kb, ReadEOF));
    assert z.b.inn + [] == z.b.inn;
    z' := z.(b := w);
    FollowB(ch, z, HopB(Far(Do(At(z.kb, ReadEOF)))), w);
    SameBuffers(z, z');
  }

  /** The first loop reads from the source. */
  lemma {:induction false} SourceGives(ch: Chain, z: Chain, data: seq<byte>)
    requires Follows(ch, z) && Bound(z) && z.feeder == Copying && z.feeding == []
    ensures Follows(ch, z.(fed := z.fed + data, feeding := data))
  {
    FollowOn(ch, z, Feed(data));
  }

  /** ... and finds its end. */
  lemma {:induction false} SourceEnds(ch: Chain, z: Chain)
    requires Follows(ch, z) && Bound(z) && z.feeder == Copying && z.feeding == []
    ensures Follows(ch, z.(feeder := AtEOF))
  {
    FollowOn(ch, z, EndFeed(AtEOF));
  }

  lemma {:induction false} RelayFails(ch: Chain, z: Chain)
    requires Follows(ch, z) && Bound(z) && z.relay == Copying && z.a.remote.streams[z.ka].readErr.Some?
    ensures Follows(ch, z.(relay := OnError))
  {
    FollowOn(ch, z, EndRelay(OnError));
  }

  /**
   The remaining case: nothing is outstanding when the relay's loop ends on an error, and the writer of
   the first hop has not finished. One more chunk from the source decides it: it is never passed on.
   */
  lemma {:induction false} LateWriteIsLost(z: Chain, data: seq<byte>) returns (z': Chain)
    requires ChainInv(z) && z.relay == OnError && z.feeder == Copying && z.feeding == []
    requires MayWrite(Writer(z)) && 0 < |data| <= MAX_DATA_SIZE
    ensures Follows(z, z') && Bound(z') && z'.relay == OnError && SentB(z') != SentA(z')
  {
    assert Linked(z, []) && Follow(z, []) == z;
    SourceGives(z, z, data);
    z' := BufferIsWritten(z, z.(fed := z.fed + data, feeding := data));
    ChainBounds(z);
  }

  /** The source is read to its end, and the relay's read fails. */
  lemma {:induction false} RelayBreaks(ch: Chain, data: seq<byte>, err: string) returns (z: Chain)
    requires Follows(ch, ch) && FreshChain(ch) && 0 < |data| <= MAX_DATA_SIZE
    requires MayWrite(ch.a.local.streams[ch.ha]) && !ch.a.remote.streams[ch.ka].closed && ch.a.remote.streams[ch.ka].readErr.None?
    ensures Follows(ch, z) && Bound(z) && z == ch.(a := z.a, fed := data, feeder := AtEOF, relay := OnError) && SentA(z) == data
  {
    SourceGives(ch, ch, data);
    assert [] + data == data;
    z := BufferIsWritten(ch, ch.(fed := data, feeding := data));
    SourceEnds(ch, z);
    z := ReadFails(ch, z.(feeder := AtEOF), err);
    RelayFails(ch, z);
    z := z.(relay := OnError);
  }

  /**
   From the start, for any request and any data: the relay's read of the first hop fails, `Relay`
   half-closes the second hop all the same, and the far end reads a clean end of file with the
   data missing.
   */
  lemma {:induction false} BrokenRelayLooksComplete(r: OpenRequest, data: seq<byte>, err: string) returns (ch: Chain, z: Chain)
    requires Proper(r) && 0 < |data| <= MAX_DATA_SIZE
    ensures FreshChain(ch) && Follows(ch, z) && Bound(z) && Ended(z)
    ensures z.feeder == AtEOF && z.relay == OnError && z.fed == SentA(z) == data && z.delivered == []
  {
    ch := NewChain(r);
    z := RelayBreaks(ch, data, err);
    z := RelayHalfCloses(ch, z);
    z := CloseIsSent(ch, z);
    z := FarTakesClose(ch, z, r.requestID);
    z := FarReadsEOF(ch, z);
  }

  // ---- both directions ----

  /** The two directions of one proxied connection, over the same hops seen from either side. */
  datatype Duplex = Duplex(fore: Chain, back: Chain)

  predicate Mirrored(d: Duplex) {
    && d.back.a == Flip(d.fore.b) && d.back.ha == d.fore.kb && d.back.ka == d.fore.hb
    && d.back.b == Flip(d.fore.a) && d.back.hb == d.fore.ka && d.back.kb == d.fore.ha
  }

  /**
   A step of a hop is a link of either direction: `OnFirst` is a step of the hop next to the
   source of the forward direction. A loop's dealings with source and sink are links of its own.
   */
  datatype Turn = OnFirst(f: Link, g: Link) | OnSecond(f: Link, g: Link) | Ahead(f: Link) | Behind(g: Link)

  predicate MovesNone(k: Link) { !MovesA(k) && !MovesB(k) }

  predicate CanTurn(d: Duplex, t: Turn)
    requires Bound(d.fore) && Bound(d.back)
  {
    match t
    case OnFirst(f, g) => MovesA(f) && MovesB(g) && g.l == Swap(f.l) && CanLink(d.fore, f) && CanLink(d.back, g)
    case OnSecond(f, g) => MovesB(f) && MovesA(g) && g.l == Swap(f.l) && CanLink(d.fore, f) && CanLink(d.back, g)
    case Ahead(f) => MovesNone(f) && CanLink(d.fore, f)
    case Behind(g) => MovesNone(g) && CanLink(d.back, g)
  }

  function TurnTo(d: Duplex, t: Turn): Duplex
    requires Bound(d.fore) && Bound(d.back) && CanTurn(d, t)
  {
    match t
    case OnFirst(f, g) => Duplex(LinkTo(d.fore, f), LinkTo(d.back, g))
    case OnSecond(f, g) => Duplex(LinkTo(d.fore, f), LinkTo(d.back, g))
    case Ahead(f) => d.(fore := LinkTo(d.fore, f))
    case Behind(g) => d.(back := LinkTo(d.back, g))
  }

  ghost predicate DuplexInv(d: Duplex) { ChainInv(d.fore) && ChainInv(d.back) && Mirrored(d) }

  predicate Turns(d: Duplex, ts: seq<Turn>)
    decreases |ts|
  {
    && Bound(d.fore) && Bound(d.back)
    && (ts == [] || (CanTurn(d, ts[0]) && Turns(TurnTo(d, ts[0]), ts[1..])))
  }

  function TurnAll(d: Duplex, ts: seq<Turn>): Duplex
    requires Turns(d, ts)
    decreases |ts|
  {
    if ts == [] then d else TurnAll(TurnTo(d, ts[0]), ts[1..])
  }

  lemma LinkHops(ch: Chain, k: Link)
    requires Bound(ch) && CanLink(ch, k)
    ensures LinkTo(ch, k).a == (if MovesA(k) then StepTo(ch.a, k.l) else ch.a)
    ensures LinkTo(ch, k).b == (if MovesB(k) then StepTo(ch.b, k.l) else ch.b)
    ensures var z := LinkTo(ch, k); z.ha == ch.ha && z.ka == ch.ka && z.hb == ch.hb && z.kb == ch.kb
  {
  }

  /** The two views of the hops never part. */
  lemma {:induction false} TurnKeepsMirror(d: Duplex, t: Turn)
    requires Bound(d.fore) && Bound(d.back) && Mirrored(d) && CanTurn(d, t)
    ensures Mirrored(TurnTo(d, t))
  {
    match t
    case OnFirst(f, g) =>
      LinkHops(d.fore, f);
      LinkHops(d.back, g);
      SwapStep(d.fore.a, f.l);
    case OnSecond(f, g) =>
      LinkHops(d.fore, f);
      LinkHops(d.back, g);
      SwapStep(d.fore.b, f.l);
    case Ahead(f) => LinkHops(d.fore, f);
    case Behind(g) => LinkHops(d.back, g);
  }

  lemma {:induction false} TurnKeepsInv(d: Duplex, t: Turn)
    requires DuplexInv(d) && CanTurn(d, t)
    ensures DuplexInv(TurnTo(d, t))
  {
    TurnKeepsMirror(d, t);
    if !t.Behind? {
      LinkKeepsInv(d.fore, t.f);
    }
    if !t.Ahead? {
      LinkKeepsInv(d.back, t.g);
    }
  }

  lemma {:induction false} TurnsKeepInv(d: Duplex, ts: seq<Turn>)
    requires DuplexInv(d) && Turns(d, ts)
    ensures DuplexInv(TurnAll(d, ts))
    decreases |ts|
  {
    if ts != [] {
      TurnKeepsInv(d, ts[0]);
      TurnsKeepInv(TurnTo(d, ts[0]), ts[1..]);
    }
  }

  /** In every run of the two directions together, each delivers a prefix of what it was given. */
  lemma {:induction false} DuplexKeepsOrder(d: Duplex, ts: seq<Turn>)
    requires FreshChain(d.fore) && FreshChain(d.back) && Mirrored(d) && Turns(d, ts)
    ensures var z := TurnAll(d, ts);
            && z.fore.delivered <= z.fore.fed && z.back.delivered <= z.back.fed
            && Mirrored(z)
  {
    ChainStarts(d.fore);
    ChainStarts(d.back);
    TurnsKeepInv(d, ts);
    ChainBounds(TurnAll(d, ts).fore);
    ChainBounds(TurnAll(d, ts).back);
  }
}
