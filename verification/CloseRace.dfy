/**
 The channels of one stream under lock-granularity interleaving. Any number of goroutines are
 inside `forceClose`, any number inside `remoteClose`, and the read loop may be inside
 `deliver`. Closing a closed channel, or sending on one, panics in the source.
 */
module CloseRace {

  /** Where a `forceClose` call is. */
  datatype Forcer =
    | Called        // before closeOnce.Do
    | Won           // inside Do, before the lock
    | Cleared       // past the locked block
    | Unlinked      // past removeStream, before close(done)
    | Returned

  /** Where a `remoteClose` call is: `Marked` has set remoteEOF and released the lock. */
  datatype Closer = Entered | Marked | Left

  datatype Once = Free | Running(who: nat) | Complete

  datatype State = State(
    remoteEOF: bool,
    readsCloses: nat,      // how often close(reads) has run
    doneCloses: nat,       // how often close(done) has run
    once: Once,
    forcers: seq<Forcer>,
    closers: seq<Closer>,
    inTable: bool,
    sending: bool,         // the read loop is in deliver's select
    panicked: bool)        // a send hit the closed channel

  datatype Step =
    | CallForce | CallClose
    | Win(i: nat) | Skip(i: nat) | Clear(i: nat) | Unlink(i: nat) | CloseDone(i: nat)
    | Mark(i: nat) | CloseReads(i: nat)
    | BeginSend | EndSend | EscapeSend

  predicate Enabled(s: State, st: Step) {
    match st
    case CallForce => true
    case CallClose => true
    case Win(i) => i < |s.forcers| && s.forcers[i] == Called && s.once == Free
    case Skip(i) => i < |s.forcers| && s.forcers[i] == Called && s.once == Complete
    case Clear(i) => i < |s.forcers| && s.forcers[i] == Won
    case Unlink(i) => i < |s.forcers| && s.forcers[i] == Cleared
    case CloseDone(i) => i < |s.forcers| && s.forcers[i] == Unlinked
    case Mark(i) => i < |s.closers| && s.closers[i] == Entered
    case CloseReads(i) => i < |s.closers| && s.closers[i] == Marked
    case BeginSend => s.inTable && !s.sending && !s.panicked
    case EndSend => s.sending
    case EscapeSend => s.sending && s.doneCloses > 0
  }

  function Next(s: State, st: Step): State
    requires Enabled(s, st)
  {
    match st
    case CallForce => s.(forcers := s.forcers + [Called])
    case CallClose => s.(closers := s.closers + [Entered])
    case Win(i) => s.(once := Running(i), forcers := s.forcers[i := Won])
    case Skip(i) => s.(forcers := s.forcers[i := Returned])
    case Clear(i) =>
      s.(forcers := s.forcers[i := Cleared],
         readsCloses := if s.remoteEOF then s.readsCloses else s.readsCloses + 1,
         remoteEOF := true)
    case Unlink(i) => s.(forcers := s.forcers[i := Unlinked], inTable := false)
    case CloseDone(i) =>
      s.(forcers := s.forcers[i := Returned], doneCloses := s.doneCloses + 1, once := Complete)
    case Mark(i) =>
      if s.remoteEOF then s.(closers := s.closers[i := Left])
      else s.(closers := s.closers[i := Marked], remoteEOF := true)
    case CloseReads(i) => s.(closers := s.closers[i := Left], readsCloses := s.readsCloses + 1)
    case BeginSend => s.(sending := true)
    case EndSend => s.(sending := false, panicked := s.panicked || s.readsCloses > 0)
    case EscapeSend => s.(sending := false)
  }

  const FRESH := State(false, 0, 0, Free, [], [], true, false, false)

  predicate Legal(s: State, steps: seq<Step>)
    decreases |steps|
  {
    steps == [] || (Enabled(s, steps[0]) && Legal(Next(s, steps[0]), steps[1..]))
  }

  function Run(s: State, steps: seq<Step>): State
    requires Legal(s, steps)
    decreases |steps|
  {
    if steps == [] then s else Run(Next(s, steps[0]), steps[1..])
  }

  predicate Busy(f: Forcer) { f == Won || f == Cleared || f == Unlinked }

  /** Exactly one party is responsible for closing `reads`, and it has or has not done so yet. */
  predicate ReadsOwned(s: State) {
    && (forall i, j :: 0 <= i < j < |s.closers| ==> !(s.closers[i] == Marked && s.closers[j] == Marked))
    && s.readsCloses <= 1
    && (!s.remoteEOF ==> s.readsCloses == 0)
    && (forall i :: 0 <= i < |s.closers| && s.closers[i] == Marked ==> s.remoteEOF && s.readsCloses == 0)
    && (s.remoteEOF && s.readsCloses == 0 ==> exists i :: 0 <= i < |s.closers| && s.closers[i] == Marked)
  }

  /** closeOnce lets one call through, and the others return after it. */
  predicate OnceOwned(s: State) {
    && (forall i :: 0 <= i < |s.forcers| ==> (Busy(s.forcers[i]) <==> s.once == Running(i)))
    && (s.once.Running? ==> s.once.who < |s.forcers|)
    && s.doneCloses == (if s.once == Complete then 1 else 0)
    && (forall i :: 0 <= i < |s.forcers| && s.forcers[i] == Returned ==> s.once == Complete)
    && (s.once == Complete || (exists i :: 0 <= i < |s.forcers| && (s.forcers[i] == Cleared || s.forcers[i] == Unlinked))
        ==> s.remoteEOF)
  }

  lemma StepKeepsReads(s: State, st: Step)
    requires ReadsOwned(s) && Enabled(s, st)
    ensures ReadsOwned(Next(s, st))
  {
    var t := Next(s, st);
    if t.remoteEOF && t.readsCloses == 0 {
      if s.remoteEOF && s.readsCloses == 0 {
        var i :| 0 <= i < |s.closers| && s.closers[i] == Marked;
        assert t.closers[i] == Marked;
      } else {
        assert st.Mark? && t.closers[st.i] == Marked;
      }
    }
  }

  lemma StepKeepsOnce(s: State, st: Step)
    requires OnceOwned(s) && Enabled(s, st)
    ensures OnceOwned(Next(s, st))
  {
  }

  lemma {:induction false} RunKeeps(s: State, steps: seq<Step>)
    requires ReadsOwned(s) && OnceOwned(s) && Legal(s, steps)
    ensures ReadsOwned(Run(s, steps)) && OnceOwned(Run(s, steps))
    decreases |steps|
  {
    if steps != [] {
      StepKeepsReads(s, steps[0]);
      StepKeepsOnce(s, steps[0]);
      RunKeeps(Next(s, steps[0]), steps[1..]);
    }
  }

  /** However the calls interleave, neither channel is ever closed twice. */
  lemma {:induction false} ClosedAtMostOnce(steps: seq<Step>)
    requires Legal(FRESH, steps)
    ensures Run(FRESH, steps).readsCloses <= 1 && Run(FRESH, steps).doneCloses <= 1
  {
    RunKeeps(FRESH, steps);
  }

  /** Once every call has returned, a `forceClose` among them has left both channels closed exactly once. */
  lemma {:induction false} ClosedExactlyOnce(steps: seq<Step>, i: nat)
    requires Legal(FRESH, steps)
    requires var s := Run(FRESH, steps);
             i < |s.forcers| && s.forcers[i] == Returned && forall j :: 0 <= j < |s.closers| ==> s.closers[j] == Left
    ensures Run(FRESH, steps).readsCloses == 1 && Run(FRESH, steps).doneCloses == 1
  {
    RunKeeps(FRESH, steps);
  }

  /**
   A forced close that returned is no guarantee by itself: a `remoteClose` that has marked the
   stream but not yet closed `reads` leaves it open until it runs on.
   */
  lemma {:induction false} ReadsMayLag() returns (steps: seq<Step>)
    ensures Legal(FRESH, steps)
    ensures Run(FRESH, steps).forcers == [Returned] && Run(FRESH, steps).readsCloses == 0
  {
    steps := [CallClose, Mark(0), CallForce, Win(0), Clear(0), Unlink(0), CloseDone(0)];
    var s1 := Next(Next(Next(FRESH, CallClose), Mark(0)), CallForce);
    var s2 := Next(Next(s1, Win(0)), Clear(0));
    var s3 := Next(Next(s2, Unlink(0)), CloseDone(0));
    assert Legal(s2, [Unlink(0), CloseDone(0)]) && Run(s2, [Unlink(0), CloseDone(0)]) == s3;
    assert Legal(s1, [Win(0), Clear(0), Unlink(0), CloseDone(0)]) && Run(s1, [Win(0), Clear(0), Unlink(0), CloseDone(0)]) == s3 by {
      assert [Win(0), Clear(0), Unlink(0), CloseDone(0)][1..] == [Clear(0), Unlink(0), CloseDone(0)];
      assert [Clear(0), Unlink(0), CloseDone(0)][1..] == [Unlink(0), CloseDone(0)];
    }
    assert steps[1..][1..][1..] == [Win(0), Clear(0), Unlink(0), CloseDone(0)];
  }

  // ---- every call returns ----

  function ForcerRank(f: Forcer): nat {
    match f
    case Called => 4
    case Won => 3
    case Cleared => 2
    case Unlinked => 1
    case Returned => 0
  }

  function CloserRank(c: Closer): nat { if c == Entered then 2 else if c == Marked then 1 else 0 }

  function ForcersRank(fs: seq<Forcer>): nat { if fs == [] then 0 else ForcerRank(fs[0]) + ForcersRank(fs[1..]) }

  function ClosersRank(cs: seq<Closer>): nat { if cs == [] then 0 else CloserRank(cs[0]) + ClosersRank(cs[1..]) }

  /** The steps that all calls under way have before them, at most. */
  function Rank(s: State): nat { ForcersRank(s.forcers) + ClosersRank(s.closers) }

  lemma {:induction false} ForcerMoves(fs: seq<Forcer>, i: nat, f: Forcer)
    requires i < |fs|
    ensures ForcersRank(fs[i := f]) == ForcersRank(fs) - ForcerRank(fs[i]) + ForcerRank(f)
  {
    if i == 0 {
      assert fs[0 := f][1..] == fs[1..];
    } else {
      ForcerMoves(fs[1..], i - 1, f);
      assert fs[i := f][1..] == fs[1..][i - 1 := f];
    }
  }

  lemma {:induction false} CloserMoves(cs: seq<Closer>, i: nat, c: Closer)
    requires i < |cs|
    ensures ClosersRank(cs[i := c]) == ClosersRank(cs) - CloserRank(cs[i]) + CloserRank(c)
  {
    if i == 0 {
      assert cs[0 := c][1..] == cs[1..];
    } else {
      CloserMoves(cs[1..], i - 1, c);
      assert cs[i := c][1..] == cs[1..][i - 1 := c];
    }
  }

  predicate AllReturned(s: State) {
    && (forall i :: 0 <= i < |s.forcers| ==> s.forcers[i] == Returned)
    && (forall j :: 0 <= j < |s.closers| ==> s.closers[j] == Left)
  }

  /** The next step of a `forceClose` call: its own, or the wait for the one that closeOnce let through. */
  function ForceTurn(s: State, i: nat): Step
    requires OnceOwned(s) && i < |s.forcers| && s.forcers[i] != Returned
  {
    var k := if s.once.Running? then s.once.who else i;
    match s.forcers[k]
    case Called => if s.once == Free then Win(k) else Skip(k)
    case Won => Clear(k)
    case Cleared => Unlink(k)
    case _ => CloseDone(k)
  }

  lemma ForceTurnMoves(s: State, i: nat)
    requires OnceOwned(s) && i < |s.forcers| && s.forcers[i] != Returned
    ensures Enabled(s, ForceTurn(s, i)) && Rank(Next(s, ForceTurn(s, i))) < Rank(s)
  {
    var st := ForceTurn(s, i);
    ForcerMoves(s.forcers, st.i, Next(s, st).forcers[st.i]);
  }

  lemma CloseTurnMoves(s: State, j: nat)
    requires j < |s.closers| && s.closers[j] != Left
    ensures var st := if s.closers[j] == Entered then Mark(j) else CloseReads(j);
            Enabled(s, st) && Rank(Next(s, st)) < Rank(s)
  {
    var st := if s.closers[j] == Entered then Mark(j) else CloseReads(j);
    CloserMoves(s.closers, j, Next(s, st).closers[j]);
  }

  lemma {:induction false} SomeTurn(s: State) returns (st: Step)
    requires OnceOwned(s) && !AllReturned(s)
    ensures Enabled(s, st) && Rank(Next(s, st)) < Rank(s) && !st.CallForce? && !st.CallClose?
  {
    if i: nat :| i < |s.forcers| && s.forcers[i] != Returned {
      ForceTurnMoves(s, i);
      st := ForceTurn(s, i);
    } else {
      var j: nat :| j < |s.closers| && s.closers[j] != Left;
      CloseTurnMoves(s, j);
      st := if s.closers[j] == Entered then Mark(j) else CloseReads(j);
    }
  }

  /** No deadlock: wherever a run has come, the calls under way can all return by their own steps. */
  lemma {:induction false} CallsReturn(s: State) returns (steps: seq<Step>)
    requires ReadsOwned(s) && OnceOwned(s)
    ensures Legal(s, steps) && AllReturned(Run(s, steps)) && |steps| <= Rank(s)
    ensures forall st :: st in steps ==> !st.CallForce? && !st.CallClose?
    decreases Rank(s)
  {
    if AllReturned(s) {
      return [];
    }
    var st := SomeTurn(s);
    StepKeepsReads(s, st);
    StepKeepsOnce(s, st);
    var rest := CallsReturn(Next(s, st));
    steps := [st] + rest;
    assert steps[1..] == rest;
  }

  /** And once one `forceClose` has returned, a delivery that still waits for room escapes, without a panic of its own. */
  lemma {:induction false} SenderEscapes(steps: seq<Step>, i: nat)
    requires Legal(FRESH, steps) && i < |Run(FRESH, steps).forcers| && Run(FRESH, steps).forcers[i] == Returned
    requires Run(FRESH, steps).sending
    ensures var s := Run(FRESH, steps); Enabled(s, EscapeSend) && Next(s, EscapeSend) == s.(sending := false)
  {
    RunKeeps(FRESH, steps);
  }

  // ---- deliveries ----

  /**
   `deliver` and `remoteClose` are both called by the read loop, one after the other, and no data
   follows the peer's Close frame (`SessionRuns.NoDataAfterClose`).
   */
  predicate InLoop(s: State, st: Step) {
    && (st.CallClose? ==> !s.sending && forall j :: 0 <= j < |s.closers| ==> s.closers[j] == Left)
    && (st.BeginSend? ==> s.closers == [])
  }

  predicate OneReader(s: State, steps: seq<Step>)
    requires Legal(s, steps)
    decreases |steps|
  {
    steps == [] || (InLoop(s, steps[0]) && OneReader(Next(s, steps[0]), steps[1..]))
  }

  /** A `forceClose` call is between its locked block and its `removeStream`. */
  predicate InWindow(s: State) { exists i :: 0 <= i < |s.forcers| && s.forcers[i] == Cleared }

  /** A `forceClose` runs its locked block during a delivery, or a delivery starts in its window. */
  predicate Overtakes(s: State, st: Step) { (st.Clear? && s.sending) || (st.BeginSend? && InWindow(s)) }

  predicate Overtaken(s: State, steps: seq<Step>)
    requires Legal(s, steps)
    decreases |steps|
  {
    steps != [] && (Overtakes(s, steps[0]) || Overtaken(Next(s, steps[0]), steps[1..]))
  }

  /** At some point of the run a send is pending that panics if it goes ahead. */
  predicate CanPanic(s: State, steps: seq<Step>)
    requires Legal(s, steps)
    decreases |steps|
  {
    || (Enabled(s, EndSend) && Next(s, EndSend).panicked)
    || (steps != [] && CanPanic(Next(s, steps[0]), steps[1..]))
  }

  /** How far the calls of `forceClose` have come, as `reads` and the table show it. */
  predicate LoopInv(s: State) {
    && OnceOwned(s)
    && (s.sending ==> s.closers == [])
    && (s.inTable <==> s.once != Complete && forall i :: 0 <= i < |s.forcers| ==> s.forcers[i] != Unlinked)
    && (s.closers == [] ==> (s.remoteEOF <==> s.once == Complete || exists i :: 0 <= i < |s.forcers| && (s.forcers[i] == Cleared || s.forcers[i] == Unlinked)))
    && (s.closers == [] ==> s.readsCloses == if s.remoteEOF then 1 else 0)
    && !s.panicked && (s.sending ==> s.readsCloses == 0)
  }

  /** What a step that is not a forced close does to a pending send. */
  lemma QuietKeepsLoop(s: State, st: Step)
    requires LoopInv(s) && Enabled(s, st) && InLoop(s, st) && !Overtakes(s, st)
    requires !st.Clear? && !st.Unlink? && !st.CloseDone? && !st.BeginSend?
    ensures LoopInv(Next(s, st))
  {
    StepKeepsOnce(s, st);
    var t := Next(s, st);
    if s.closers == [] && s.remoteEOF && s.once != Complete {
      var i :| 0 <= i < |s.forcers| && (s.forcers[i] == Cleared || s.forcers[i] == Unlinked);
      assert t.forcers[i] == s.forcers[i];
    }
  }

  lemma ForceKeepsLoop(s: State, st: Step)
    requires LoopInv(s) && Enabled(s, st) && !Overtakes(s, st) && (st.Clear? || st.Unlink? || st.CloseDone?)
    ensures LoopInv(Next(s, st))
  {
    StepKeepsOnce(s, st);
    var t := Next(s, st);
    assert t.forcers[st.i] == if st.Clear? then Cleared else if st.Unlink? then Unlinked else Returned;
    assert s.once == Running(st.i);
  }

  lemma BeginKeepsLoop(s: State)
    requires LoopInv(s) && Enabled(s, BeginSend) && InLoop(s, BeginSend) && !Overtakes(s, BeginSend)
    ensures LoopInv(Next(s, BeginSend))
  {
    assert forall i :: 0 <= i < |s.forcers| ==> s.forcers[i] != Cleared;
  }

  lemma {:induction false} StepKeepsLoop(s: State, st: Step)
    requires LoopInv(s) && Enabled(s, st) && InLoop(s, st) && !Overtakes(s, st)
    ensures LoopInv(Next(s, st))
  {
    if st.BeginSend? {
      BeginKeepsLoop(s);
    } else if st.Clear? || st.Unlink? || st.CloseDone? {
      ForceKeepsLoop(s, st);
    } else {
      QuietKeepsLoop(s, st);
    }
  }

  /** A step that overtakes leaves a send pending on a closed channel. */
  lemma OvertakingHits(s: State, st: Step)
    requires LoopInv(s) && Enabled(s, st) && InLoop(s, st) && Overtakes(s, st)
    ensures Enabled(Next(s, st), EndSend) && Next(Next(s, st), EndSend).panicked
  {
    if st.Clear? {
      assert s.once == Running(st.i);
      assert forall i :: 0 <= i < |s.forcers| && Busy(s.forcers[i]) ==> i == st.i;
      assert !s.remoteEOF;
    }
  }

  lemma {:induction false} PanicsIff(s: State, steps: seq<Step>)
    requires LoopInv(s) && Legal(s, steps) && OneReader(s, steps)
    ensures CanPanic(s, steps) <==> Overtaken(s, steps)
    decreases |steps|
  {
    if steps != [] {
      if Overtakes(s, steps[0]) {
        OvertakingHits(s, steps[0]);
      } else {
        StepKeepsLoop(s, steps[0]);
        PanicsIff(Next(s, steps[0]), steps[1..]);
      }
    }
  }

  /**
   Over every run of one stream: a send can come to panic if and only if some `forceClose` runs its
   locked block during a delivery, or a delivery starts between the locked block of a `forceClose`
   and its `removeStream`.
   */
  lemma {:induction false} SendCanPanicIff(steps: seq<Step>)
    requires Legal(FRESH, steps) && OneReader(FRESH, steps)
    ensures CanPanic(FRESH, steps) <==> Overtaken(FRESH, steps)
  {
    PanicsIff(FRESH, steps);
  }

  lemma {:induction false} PanicWasPending(s: State, steps: seq<Step>)
    requires Legal(s, steps) && !s.panicked && Run(s, steps).panicked
    ensures CanPanic(s, steps)
    decreases |steps|
  {
    if steps != [] && !Next(s, steps[0]).panicked {
      PanicWasPending(Next(s, steps[0]), steps[1..]);
    }
  }

  /** So no send panics in a run in which no `forceClose` overtakes a delivery. */
  lemma {:induction false} UndisturbedSendsAreSafe(steps: seq<Step>)
    requires Legal(FRESH, steps) && OneReader(FRESH, steps) && !Overtaken(FRESH, steps)
    ensures !Run(FRESH, steps).panicked
  {
    SendCanPanicIff(steps);
    if Run(FRESH, steps).panicked {
      PanicWasPending(FRESH, steps);
    }
  }

  lemma Unroll(s: State, rest: seq<Step>, steps: seq<Step>)
    requires steps != [] && steps[1..] == rest
    requires Enabled(s, steps[0]) && InLoop(s, steps[0]) && Legal(Next(s, steps[0]), rest) && OneReader(Next(s, steps[0]), rest)
    ensures Legal(s, steps) && OneReader(s, steps) && Run(s, steps) == Run(Next(s, steps[0]), rest)
  {
  }

  /** A run from a fresh stream in which the locked block of a `forceClose` overtakes a delivery, and the send panics. */
  lemma {:induction false} OvertakenSendPanics() returns (steps: seq<Step>)
    ensures Legal(FRESH, steps) && OneReader(FRESH, steps) && Run(FRESH, steps).panicked
    ensures steps == [BeginSend, CallForce, Win(0), Clear(0), EndSend]
  {
    var s1 := Next(FRESH, BeginSend);
    var s2 := Next(s1, CallForce);
    var s3 := Next(s2, Win(0));
    var s4 := Next(s3, Clear(0));
    Unroll(s4, [], [EndSend]);
    Unroll(s3, [EndSend], [Clear(0), EndSend]);
    Unroll(s2, [Clear(0), EndSend], [Win(0), Clear(0), EndSend]);
    Unroll(s1, [Win(0), Clear(0), EndSend], [CallForce, Win(0), Clear(0), EndSend]);
    steps := [BeginSend, CallForce, Win(0), Clear(0), EndSend];
    Unroll(FRESH, [CallForce, Win(0), Clear(0), EndSend], steps);
  }

  /** ... and one in which the delivery starts between the locked block and the `removeStream`. */
  lemma {:induction false} LateSendPanics() returns (steps: seq<Step>)
    ensures Legal(FRESH, steps) && OneReader(FRESH, steps) && Run(FRESH, steps).panicked
    ensures steps == [CallForce, Win(0), Clear(0), BeginSend, EndSend]
  {
    var s1 := Next(FRESH, CallForce);
    var s2 := Next(s1, Win(0));
    var s3 := Next(s2, Clear(0));
    var s4 := Next(s3, BeginSend);
    Unroll(s4, [], [EndSend]);
    Unroll(s3, [EndSend], [BeginSend, EndSend]);
    Unroll(s2, [BeginSend, EndSend], [Clear(0), BeginSend, EndSend]);
    Unroll(s1, [Clear(0), BeginSend, EndSend], [Win(0), Clear(0), BeginSend, EndSend]);
    steps := [CallForce, Win(0), Clear(0), BeginSend, EndSend];
    Unroll(FRESH, [Win(0), Clear(0), BeginSend, EndSend], steps);
  }
}
