/**
 The system-proxy journal: `Start`, `Shutdown`, `restoreProxy` and `recoverJournal` of
 internal/client/runtime.go over the journal file of internal/systemproxy/systemproxy.go, one
 observable effect at a time, with a crash possible between any two of them.
 */
module Journal {
  import opened Common

  type Settings = string

  datatype Journal = Journal(applied: string, before: Settings)

  /** A file: absent, cut short by a crash while it was written, or complete. */
  datatype File = Missing | Torn | Whole(journal: Journal)

  /** Where the process is. The names say what has just been done. */
  datatype Pc =
    | Down
    | Launched
    | Read(j: Journal)                  // recoverJournal has read a journal
    | Recovered                         // ... and restored from it
    | Connected                         // no journal is left, the server is connected
    | Snapped(before: Settings)
    | Writing(before: Settings)         // the temporary file is being written
    | Written(before: Settings)
    | Journaled(before: Settings)
    | ApplyFailed(before: Settings, unsupported: bool)
    | Running(memory: Option<Journal>)
    | Stopped                           // Start has failed
    | Matched(j: Journal)               // restoreProxy found its own settings in place
    | Restored                          // ... and restored the old ones
    | Closed

  /** `original` is history: the settings as the user last left them. */
  datatype State = State(settings: Settings, original: Settings, journal: File, temp: File, pc: Pc)

  datatype Step =
    | Launch
    | ReadJournal
    | Recover(ok: bool, left: Settings)          // `left` is what a failed Restore leaves behind
    | DropRecovered(ok: bool)
    | ConnectFails
    | Snapshot(ok: bool, unsupported: bool)
    | BeginWrite
    | FinishWrite(endpoint: string, ok: bool)
    | RenameTemp(ok: bool)
    | ApplyProxy(after: Settings, ok: bool, unsupported: bool)   // `after` is what Apply leaves, failed or not
    | DropUnapplied(ok: bool)
    | BeginShutdown(matches: bool)
    | RestoreOld(ok: bool, left: Settings)
    | DropRestored(ok: bool)
    | Crash
    | Edit(settings: Settings)          // the user changes the settings while no journal exists

  predicate Enabled(s: State, st: Step) {
    match st
    case Launch => s.pc == Down
    case ReadJournal => s.pc == Launched
    case Recover(_, _) => s.pc.Read?
    case DropRecovered(_) => s.pc == Recovered
    case ConnectFails => s.pc == Connected
    case Snapshot(_, _) => s.pc == Connected
    case BeginWrite => s.pc.Snapped?
    case FinishWrite(_, _) => s.pc.Writing?
    case RenameTemp(_) => s.pc.Written?
    case ApplyProxy(_, _, _) => s.pc.Journaled?
    case DropUnapplied(_) => s.pc.ApplyFailed?
    case BeginShutdown(_) => s.pc.Running? || s.pc == Stopped
    case RestoreOld(_, _) => s.pc.Matched?
    case DropRestored(_) => s.pc == Restored
    case Crash => true
    case Edit(_) => s.journal == Missing && !s.pc.Snapped? && !s.pc.Writing? && !s.pc.Written?
  }

  function Next(s: State, st: Step): State
    requires Enabled(s, st)
  {
    match st
    case Launch => s.(pc := Launched)
    case ReadJournal =>
      (match s.journal
       case Missing => s.(pc := Connected)
       case Torn => s.(pc := Stopped)
       case Whole(j) => s.(pc := Read(j)))
    case Recover(ok, left) =>
      if ok then s.(settings := s.pc.j.before, pc := Recovered) else s.(settings := left, pc := Stopped)
    case DropRecovered(ok) => if ok then s.(journal := Missing, pc := Connected) else s.(pc := Stopped)
    case ConnectFails => s.(pc := Stopped)
    case Snapshot(ok, unsupported) =>
      s.(pc := if ok then Snapped(s.settings) else if unsupported then Running(None) else Stopped)
    case BeginWrite => s.(temp := Torn, pc := Writing(s.pc.before))
    case FinishWrite(endpoint, ok) =>
      if ok then s.(temp := Whole(Journal(endpoint, s.pc.before)), pc := Written(s.pc.before)) else s.(pc := Stopped)
    case RenameTemp(ok) =>
      if ok then s.(journal := s.temp, temp := Missing, pc := Journaled(s.pc.before))
      else s.(temp := Missing, pc := Stopped)
    case ApplyProxy(after, ok, unsupported) =>
      s.(settings := after,
         pc := if !ok then ApplyFailed(s.pc.before, unsupported)
               else Running(if s.journal.Whole? then Some(s.journal.journal) else None))
    case DropUnapplied(ok) =>
      s.(journal := if ok then Missing else s.journal, pc := if s.pc.unsupported then Running(None) else Stopped)
    case BeginShutdown(matches) =>
      s.(pc := if s.pc.Running? && s.pc.memory.Some? && matches then Matched(s.pc.memory.value) else Closed)
    case RestoreOld(ok, left) =>
      if ok then s.(settings := s.pc.j.before, pc := Restored) else s.(settings := left, pc := Closed)
    case DropRestored(ok) => s.(journal := if ok then Missing else s.journal, pc := Closed)
    case Crash => s.(pc := Down)
    case Edit(settings) => s.(settings := settings, original := settings)
  }

  function Install(settings: Settings): State { State(settings, settings, Missing, Missing, Down) }

  predicate Legal(s: State, steps: seq<Step>)
    decreases |steps|
  {
    steps == [] || (Enabled(s, steps[0]) && Legal(Next(s, steps[0]), steps[1..]))
  }

  function Run(s: State, steps: seq<Step>): State
    requires Legal(s, steps)
    decreases |steps|
  {
    if steps == [] then s else Run(Next(s, steps[0]), steps[1..])
  }

  /** The user's settings are in place, or a journal on disk holds them; the journal is never torn. */
  predicate Safe(settings: Settings, journal: File, original: Settings) {
    match journal
    case Missing => settings == original
    case Torn => false
    case Whole(j) => j.before == original
  }

  predicate Inv(s: State) {
    && Safe(s.settings, s.journal, s.original)
    && match s.pc
       case Read(j) => s.journal == Whole(j)
       case Recovered => s.settings == s.original
       case Connected => s.journal == Missing
       case Snapped(b) => s.journal == Missing && b == s.original
       case Writing(b) => s.journal == Missing && b == s.original
       case Written(b) => s.journal == Missing && b == s.original && s.temp.Whole? && s.temp.journal.before == b
       case Journaled(b) => s.journal.Whole? && s.settings == s.original && b == s.original
       case ApplyFailed(b, _) => s.journal.Whole? && b == s.original
       case Running(Some(j)) => s.journal == Whole(j)
       case Matched(j) => s.journal == Whole(j)
       case Restored => s.settings == s.original
       case _ => true
  }

  /** The journal of a failed Apply is removed while the settings are not those found before it. */
  predicate Forgets(s: State, st: Step) { st == DropUnapplied(true) && s.pc.ApplyFailed? && s.settings != s.pc.before }

  predicate Forgetting(s: State, steps: seq<Step>)
    requires Legal(s, steps)
    decreases |steps|
  {
    steps != [] && (Forgets(s, steps[0]) || Forgetting(Next(s, steps[0]), steps[1..]))
  }

  /** The user's settings are not lost at any point of the run. */
  predicate AlwaysSafe(s: State, steps: seq<Step>)
    requires Legal(s, steps)
    decreases |steps|
  {
    Safe(s.settings, s.journal, s.original) && (steps == [] || AlwaysSafe(Next(s, steps[0]), steps[1..]))
  }

  lemma StepKeepsInv(s: State, st: Step)
    requires Inv(s) && Enabled(s, st) && !Forgets(s, st)
    ensures Inv(Next(s, st))
  {
  }

  lemma {:induction false} RunIsSafeIff(s: State, steps: seq<Step>)
    requires Inv(s) && Legal(s, steps)
    ensures AlwaysSafe(s, steps) <==> !Forgetting(s, steps)
    ensures !Forgetting(s, steps) ==> Inv(Run(s, steps))
    decreases |steps|
  {
    if steps != [] && !Forgets(s, steps[0]) {
      StepKeepsInv(s, steps[0]);
      RunIsSafeIff(Next(s, steps[0]), steps[1..]);
    }
  }

  /**
   Over any sequence of starts, shutdowns, failures and crashes: the user's settings are lost at
   some point if and only if an Apply failed, left other settings than it had found, and its
   journal was then removed.
   */
  lemma {:induction false} LostIff(settings: Settings, steps: seq<Step>)
    requires Legal(Install(settings), steps)
    ensures !AlwaysSafe(Install(settings), steps) <==> Forgetting(Install(settings), steps)
  {
    RunIsSafeIff(Install(settings), steps);
  }

  /** Otherwise they are in place at the end, or a complete journal holds them. */
  lemma {:induction false} NothingIsLost(settings: Settings, steps: seq<Step>)
    requires Legal(Install(settings), steps) && !Forgetting(Install(settings), steps)
    ensures var s := Run(Install(settings), steps);
            s.settings == s.original || (s.journal.Whole? && s.journal.journal.before == s.original)
  {
    RunIsSafeIff(Install(settings), steps);
  }

  /** Every Apply that fails has changed nothing. */
  predicate Atomic(s: State, steps: seq<Step>)
    requires Legal(s, steps)
    decreases |steps|
  {
    steps == [] ||
    ((steps[0].ApplyProxy? && !steps[0].ok ==> steps[0].after == s.settings) && Atomic(Next(s, steps[0]), steps[1..]))
  }

  /** Where Apply is all or nothing, nothing is ever forgotten. */
  lemma {:induction false} AtomicNeverForgets(s: State, steps: seq<Step>)
    requires Inv(s) && Legal(s, steps) && Atomic(s, steps) && (s.pc.ApplyFailed? ==> s.settings == s.pc.before)
    ensures !Forgetting(s, steps)
    decreases |steps|
  {
    if steps != [] {
      StepKeepsInv(s, steps[0]);
      AtomicNeverForgets(Next(s, steps[0]), steps[1..]);
    }
  }

  lemma {:induction false} AtomicIsSafe(settings: Settings, steps: seq<Step>)
    requires Legal(Install(settings), steps) && Atomic(Install(settings), steps)
    ensures AlwaysSafe(Install(settings), steps)
  {
    AtomicNeverForgets(Install(settings), steps);
    LostIff(settings, steps);
  }

  /**
   From wherever a crash leaves things, a failed Apply included, the next start brings the settings
   back: once `recoverJournal` succeeds they are the user's own and no journal is left.
   */
  lemma {:induction false} CrashIsRecovered(settings: Settings, steps: seq<Step>)
    requires Legal(Install(settings), steps) && !Forgetting(Install(settings), steps)
    ensures var s := Run(Install(settings), steps);
            var down := Next(Next(Next(s, Crash), Launch), ReadJournal);
            if down.pc.Read? then
              var up := Next(Next(down, Recover(true, "")), DropRecovered(true));
              up.pc == Connected && up.settings == s.original && up.journal == Missing
            else down.pc == Connected && down.settings == s.original && down.journal == Missing
  {
    RunIsSafeIff(Install(settings), steps);
  }

  /** A shutdown that restores and removes its journal leaves the settings as the user had them. */
  lemma {:induction false} ShutdownRestores(settings: Settings, steps: seq<Step>)
    requires Legal(Install(settings), steps) && !Forgetting(Install(settings), steps)
    requires Run(Install(settings), steps).pc.Matched?
    ensures var s := Run(Install(settings), steps);
            var t := Next(Next(s, RestoreOld(true, "")), DropRestored(true));
            t.settings == s.original && t.journal == Missing
  {
    RunIsSafeIff(Install(settings), steps);
  }

  /**
   What a shutdown of a running process does: where the settings are still those it applied, it
   restores the user's and removes the journal; where they are not, it leaves both alone.
   */
  lemma {:induction false} ShutdownActs(settings: Settings, steps: seq<Step>)
    requires Legal(Install(settings), steps) && !Forgetting(Install(settings), steps)
    requires var pc := Run(Install(settings), steps).pc; pc.Running? && pc.memory.Some?
    ensures var s := Run(Install(settings), steps);
            var t := Next(s, BeginShutdown(true));
            && Enabled(t, RestoreOld(true, "")) && Enabled(Next(t, RestoreOld(true, "")), DropRestored(true))
            && Next(Next(t, RestoreOld(true, "")), DropRestored(true)) == s.(settings := s.original, journal := Missing, pc := Closed)
            && Next(s, BeginShutdown(false)) == s.(pc := Closed)
  {
    RunIsSafeIff(Install(settings), steps);
  }

  /** Nothing has been applied, and no journal was ever begun. */
  predicate Untouched(s: State) {
    && s.settings == s.original && s.journal == Missing && s.temp == Missing
    && !s.pc.Read? && s.pc != Recovered && !s.pc.Snapped? && !s.pc.Writing? && !s.pc.Written? && !s.pc.Journaled?
    && !s.pc.ApplyFailed? && !s.pc.Matched? && s.pc != Restored && (s.pc.Running? ==> s.pc.memory == None)
  }

  lemma {:induction false} RunLeavesUntouched(s: State, steps: seq<Step>)
    requires Untouched(s) && Legal(s, steps) && forall st :: st in steps && st.Snapshot? ==> !st.ok
    ensures Untouched(Run(s, steps))
    decreases |steps|
  {
    if steps != [] {
      assert steps[0] in steps;
      RunLeavesUntouched(Next(s, steps[0]), steps[1..]);
    }
  }

  /**
   Where the platform has no proxy settings to read, no run touches anything, and a start still
   succeeds: the process runs without a journal, and its shutdown has nothing to restore.
   */
  lemma {:induction false} UnsupportedIsHarmless(settings: Settings, steps: seq<Step>, matches: bool)
    requires Legal(Install(settings), steps) && forall st :: st in steps && st.Snapshot? ==> !st.ok
    ensures var s := Run(Install(settings), steps);
            var up := Next(Next(Next(s, Crash), Launch), ReadJournal);
            && s.settings == s.original && s.journal == s.temp == Missing
            && Enabled(up, Snapshot(false, true)) && Next(up, Snapshot(false, true)) == s.(pc := Running(None))
            && Next(Next(up, Snapshot(false, true)), BeginShutdown(matches)) == s.(pc := Closed)
  {
    RunLeavesUntouched(Install(settings), steps);
  }

  // ---- a start that no crash interrupts ----

  /** `recoverJournal`. */
  function Recovery(s: State, restores: bool, left: Settings, removes: bool): State
    requires s.pc == Launched
  {
    var r := Next(s, ReadJournal);
    if !r.pc.Read? then r
    else
      var q := Next(r, Recover(restores, left));
      if q.pc == Recovered then Next(q, DropRecovered(removes)) else q
  }

  /**
   A start gets past its recovery if and only if there is no journal, or a complete one from which
   the settings can be restored and that can be removed. Otherwise it ends with the journal as it was.
   */
  lemma RecoveryIff(s: State, restores: bool, left: Settings, removes: bool)
    requires s.pc == Launched
    ensures var t := Recovery(s, restores, left, removes);
            && (t.pc == Connected <==> s.journal == Missing || (s.journal.Whole? && restores && removes))
            && (t.pc != Connected ==> t.pc == Stopped && t.journal == s.journal)
            && (t.pc == Connected ==> t.journal == Missing)
            && t.settings == (if !s.journal.Whole? then s.settings else if restores then s.journal.journal.before else left)
  {
  }

  /** `Start` behind the snapshot: journal, apply, and the removal of the journal where Apply failed. */
  function TakesOver(
    s: State, endpoint: string, writes: bool, renames: bool, after: Settings, applies: bool, unsupported: bool, removes: bool): State
    requires s.pc == Connected
  {
    var w := Next(Next(Next(s, Snapshot(true, unsupported)), BeginWrite), FinishWrite(endpoint, writes));
    if !w.pc.Written? then w
    else
      var j := Next(w, RenameTemp(renames));
      if !j.pc.Journaled? then j
      else
        var a := Next(j, ApplyProxy(after, applies, unsupported));
        if a.pc.ApplyFailed? then Next(a, DropUnapplied(removes)) else a
  }

  /**
   It runs with a journal of the settings it found if and only if that could be written, renamed and
   the proxy applied; without one if and only if the failed Apply is not supported; and otherwise fails.
   The settings are touched only behind the journal.
   */
  lemma TakesOverIff(
    s: State, endpoint: string, writes: bool, renames: bool, after: Settings, applies: bool, unsupported: bool, removes: bool)
    requires s.pc == Connected
    ensures var t := TakesOver(s, endpoint, writes, renames, after, applies, unsupported, removes);
            var mine := Journal(endpoint, s.settings);
            && (t.pc == Running(Some(mine)) <==> writes && renames && applies)
            && (t.pc == Running(None) <==> writes && renames && !applies && unsupported)
            && (t.pc.Running? || t.pc == Stopped)
            && t.settings == (if writes && renames then after else s.settings)
            && t.journal == (if writes && renames && (applies || !removes) then Whole(mine)
                             else if writes && renames then Missing else s.journal)
  {
  }

  lemma Unroll(s: State, rest: seq<Step>, steps: seq<Step>)
    requires steps != [] && steps[1..] == rest && Enabled(s, steps[0]) && Legal(Next(s, steps[0]), rest)
    ensures Legal(s, steps) && Run(s, steps) == Run(Next(s, steps[0]), rest)
  {
  }

  /** The first start of a runtime, up to the point where Apply is called. */
  function Readied(settings: Settings, endpoint: string): State {
    State(settings, settings, Whole(Journal(endpoint, settings)), Missing, Journaled(settings))
  }

  lemma {:induction false} ReadyRun(settings: Settings, endpoint: string, tail: seq<Step>) returns (steps: seq<Step>)
    requires Legal(Readied(settings, endpoint), tail)
    ensures Legal(Install(settings), steps) && Run(Install(settings), steps) == Run(Readied(settings, endpoint), tail)
  {
    var s1 := Next(Next(Install(settings), Launch), ReadJournal);
    var s2 := Next(Next(s1, Snapshot(true, false)), BeginWrite);
    var s3 := Next(s2, FinishWrite(endpoint, true));
    steps := [RenameTemp(true)] + tail;
    Unroll(s3, tail, steps);
    Unroll(s2, steps, [FinishWrite(endpoint, true)] + steps);
    steps := [FinishWrite(endpoint, true)] + steps;
    Unroll(Next(s1, Snapshot(true, false)), steps, [BeginWrite] + steps);
    steps := [BeginWrite] + steps;
    Unroll(s1, steps, [Snapshot(true, false)] + steps);
    steps := [Snapshot(true, false)] + steps;
    Unroll(Next(Install(settings), Launch), steps, [ReadJournal] + steps);
    steps := [ReadJournal] + steps;
    Unroll(Install(settings), steps, [Launch] + steps);
    steps := [Launch] + steps;
  }

  /**
   Such a run, for any settings and any others that a failed Apply leaves behind: the user's are
   gone, and the next start takes what it finds for them.
   */
  lemma {:induction false} HalfAppliedIsLost(settings: Settings, endpoint: string, left: Settings) returns (steps: seq<Step>)
    requires left != settings
    ensures Legal(Install(settings), steps)
    ensures var s := Run(Install(settings), steps);
            && s.original == settings && s.settings == left && s.journal == Missing && s.temp == Missing
            && !Safe(s.settings, s.journal, s.original)
            && Next(Next(Next(s, Crash), Launch), ReadJournal).pc == Connected
  {
    var s := Readied(settings, endpoint);
    var t := Next(s, ApplyProxy(left, false, false));
    Unroll(t, [], [DropUnapplied(true)]);
    Unroll(s, [DropUnapplied(true)], [ApplyProxy(left, false, false), DropUnapplied(true)]);
    steps := ReadyRun(settings, endpoint, [ApplyProxy(left, false, false), DropUnapplied(true)]);
  }

  // ---- the same code as methods on one machine ----

  /** What survives a crash. */
  datatype Disk = Disk(settings: Settings, journal: File)

  class Runtime {
    var settings: Settings
    var journal: File
    var temp: File
    var memory: Option<Journal>       // the fields journal and hasJournal
    ghost const original: Settings
    ghost var trail: seq<Disk>        // every state of the disk so far

    constructor (settings: Settings, journal: File, ghost original: Settings)
      requires Safe(settings, journal, original)
      ensures this.settings == settings && this.journal == journal && memory == None && this.original == original
      ensures Sound()
    {
      this.settings, this.journal, temp, memory := settings, journal, Missing, None;
      this.original := original;
      trail := [Disk(settings, journal)];
    }

    /** The trail ends with the disk as it is, and the journal in memory is the one on disk. */
    ghost predicate Traced()
      reads this
    {
      && trail != [] && trail[|trail| - 1] == Disk(settings, journal)
      && (memory.Some? ==> journal == Whole(memory.value))
    }

    /** Wherever the process had died so far, the next one would find the user's settings or a journal of them. */
    ghost predicate Sound()
      reads this
    {
      Traced() && forall i :: 0 <= i < |trail| ==> Safe(trail[i].settings, trail[i].journal, original)
    }

    /** An effect on disk or on the settings; the trail records it. */
    ghost method Record()
      modifies `trail
      ensures trail == old(trail) + [Disk(settings, journal)]
    {
      trail := trail + [Disk(settings, journal)];
    }

    /** WriteJournal: a temporary file, then a rename. */
    method WriteJournal(j: Journal, writes: bool, renames: bool) returns (ok: bool)
      requires Sound() && j.before == original && memory == None
      modifies `temp, `journal, `trail
      ensures Sound() && old(trail) <= trail
      ensures ok == (writes && renames)
      ensures journal == if ok then Whole(j) else old(journal)
    {
      temp := Torn;
      Record();
      if !writes {
        return false;
      }
      temp := Whole(j);
      Record();
      if !renames {
        temp := Missing;
        return false;
      }
      journal, temp := temp, Missing;
      Record();
      return true;
    }

    /** `left` is what a failed Restore leaves behind. */
    method RecoverJournal(restores: bool, left: Settings, removes: bool) returns (ok: bool)
      requires Sound() && memory == None
      modifies `settings, `journal, `trail
      ensures Sound() && old(trail) <= trail
      ensures ok ==> settings == original && journal == Missing
      ensures ok <==> old(journal) == Missing || (restores && removes)
      ensures old(journal) == Missing ==> settings == old(settings)
      ensures !ok ==> journal == old(journal) && settings == if restores then original else left
    {
      if journal == Missing {
        return true;
      }
      if journal == Torn {
        return false;
      }
      if !restores {
        settings := left;
        Record();
        return false;
      }
      settings := journal.journal.before;
      Record();
      if !removes {
        return false;
      }
      journal := Missing;
      Record();
      return true;
    }

    /**
     The end of `Start`: snapshot, journal, apply; `after` is what Apply leaves, failed or not.
     Every state on the way is safe, unless a failed Apply left other settings and its journal went.
     */
    method TakeOver(endpoint: string, after: Settings, writes: bool, renames: bool, applies: bool, removes: bool) returns (ok: bool)
      requires Sound() && journal == Missing && memory == None
      modifies this
      ensures Traced() && old(trail) <= trail
      ensures ok == (writes && renames && applies)
      ensures ok ==> settings == after && memory == Some(Journal(endpoint, original)) && journal == Whole(memory.value)
      ensures !ok ==> memory == None && settings == (if writes && renames then after else original)
      ensures Sound() <==> ok || !(writes && renames && removes) || after == original
    {
      var snapshot := settings;
      var j := Journal(endpoint, snapshot);
      ok := WriteJournal(j, writes, renames);
      if !ok {
        return;
      }
      settings := after;
      Record();
      if !applies {
        if removes {
          journal := Missing;
          Record();
          assert trail[|trail| - 1] == Disk(after, Missing);
        }
        return false;
      }
      memory := Some(j);
      return true;
    }

    method RestoreProxy(matches: bool, restores: bool, left: Settings, removes: bool) returns (ok: bool)
      requires Sound()
      modifies `settings, `journal, `memory, `trail
      ensures Sound() && old(trail) <= trail
      ensures ok <==> old(memory).None? || (matches && restores && removes)
      ensures ok && old(memory).Some? ==> settings == original && journal == Missing && memory == None
      ensures !ok ==> journal == old(journal) && memory == old(memory)
      ensures old(memory).None? || !matches ==> settings == old(settings) && journal == old(journal)
      ensures old(memory).Some? && matches ==> settings == if restores then original else left
    {
      if memory.None? {
        return true;
      }
      if !matches {
        return false;
      }
      if !restores {
        settings := left;
        Record();
        return false;
      }
      settings := memory.value.before;
      Record();
      if !removes {
        return false;
      }
      journal, memory := Missing, None;
      Record();
      return true;
    }
  }
}
