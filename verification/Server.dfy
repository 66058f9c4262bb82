/**
 The server's bookkeeping of exits (internal/node/server.go): any number of `handleExit`
 goroutines install themselves in `exitConns`, register, receive heartbeats and tear down,
 interleaved at every lock with each other, with expiry, and with `forwardOpen` calls.
 */
module Server {
  import opened Common
  import opened Registry

  const DIRECT := "direct"
  const STALE_FOR := 45_000

  /** Where a `handleExit` call is. */
  datatype Pc =
    | Announced     // the registration is in, defaults applied
    | Installed     // exitConns updated
    | Added         // registry.Add done; waiting for the session to end
    | Unhooked      // exitConns cleaned up
    | Gone          // registry.Remove done

  /** `stamp` is history: the order in which handlers installed themselves. */
  datatype Handler = Handler(id: string, name: string, capacity: int, pc: Pc, done: bool, stamp: nat)

  datatype Outcome = Undecided | Direct | Dial(h: nat) | Rejected

  /** A `forwardOpen` call: the exit it asks for, the exit selected, and what came of it. */
  datatype Forward = Forward(want: string, selected: Option<string>, outcome: Outcome)

  /** How an entry left the registry. */
  datatype Cause = Expired | DroppedBy(h: nat)

  datatype State = State(
    exits: Exits,
    owner: map<string, nat>,         // history: the handler that last registered the ID
    gone: map<string, Cause>,        // history: how the ID has left since it was last registered
    exitConns: map<string, nat>,
    handlers: seq<Handler>,
    forwards: seq<Forward>,
    clock: nat,
    limit: int,                      // config.ConnectionLimit
    defaultID: string)               // config.ExitID

  function DirectInfo(limit: int): ExitInfo {
    ExitInfo(DIRECT, "server", "direct", "", 1, 0, limit, ["tcp"], 0)
  }

  /** `NewServer` in a server role. */
  function NewServer(limit: int, defaultID: string, now: int): State {
    State(ApplyOp(map[], STALE_FOR, Add(DirectInfo(limit), HEALTHY, true, now)),
          map[], map[], map[], [], [], 0, limit, defaultID)
  }

  datatype Step =
    | Announce(id: string, name: string, capacity: int)
    | Install(h: nat)
    | AddExit(h: nat, features: seq<string>, now: int)
    | Heartbeat(h: nat, active: int, capacity: int, now: int)
    | SessionDone(h: nat)
    | Unhook(h: nat)
    | Drop(h: nat)
    | ExpireStale(now: int)
    | Ask(want: string)
    | Choose(f: nat, selected: string)
    | Refuse(f: nat)
    | Settle(f: nat)

  /** What `Select(want, false)` may return. */
  predicate Selectable(exits: Exits, want: string, selected: string) {
    if want == "" || want == "auto" then BestAmong(exits, exits.Keys, selected)
    else selected == want && want in exits && Eligible(exits[want].info)
  }

  predicate Enabled(s: State, st: Step) {
    match st
    case Announce(id, _, _) => id != "" || s.defaultID != ""
    case Install(h) => h < |s.handlers| && s.handlers[h].pc == Announced
    case AddExit(h, _, _) => h < |s.handlers| && s.handlers[h].pc == Installed
    case Heartbeat(h, _, _, _) => h < |s.handlers|
    case SessionDone(h) => h < |s.handlers|
    case Unhook(h) => h < |s.handlers| && s.handlers[h].pc == Added && s.handlers[h].done
    case Drop(h) => h < |s.handlers| && s.handlers[h].pc == Unhooked
    case ExpireStale(_) => true
    case Ask(_) => true
    case Choose(f, selected) =>
      f < |s.forwards| && s.forwards[f].selected.None? && s.forwards[f].outcome == Undecided
      && Selectable(s.exits, s.forwards[f].want, selected)
    case Refuse(f) =>
      f < |s.forwards| && s.forwards[f].selected.None? && s.forwards[f].outcome == Undecided
      && forall id :: id in s.exits ==> !Selectable(s.exits, s.forwards[f].want, id)
    case Settle(f) => f < |s.forwards| && s.forwards[f].selected.Some? && s.forwards[f].outcome == Undecided
  }

  function SetPc(s: State, h: nat, pc: Pc): State
    requires h < |s.handlers|
  {
    s.(handlers := s.handlers[h := s.handlers[h].(pc := pc)])
  }

  function MarkDone(handlers: seq<Handler>, h: nat): seq<Handler> {
    if h < |handlers| then handlers[h := handlers[h].(done := true)] else handlers
  }

  function Next(s: State, st: Step): State
    requires Enabled(s, st)
  {
    match st
    case Announce(id, name, capacity) =>
      var id' := if id == "" then s.defaultID else id;
      s.(handlers := s.handlers +
           [Handler(id', if name == "" then id' else name, if capacity <= 0 then s.limit else capacity, Announced, false, 0)])
    case Install(h) =>
      var id := s.handlers[h].id;
      var hs := if id in s.exitConns then MarkDone(s.handlers, s.exitConns[id]) else s.handlers;
      s.(exitConns := s.exitConns[id := h],
         handlers := hs[h := hs[h].(pc := Installed, stamp := s.clock)],
         clock := s.clock + 1)
    case AddExit(h, features, now) =>
      var x := s.handlers[h];
      SetPc(s.(exits := ApplyOp(s.exits, STALE_FOR,
                          Add(ExitInfo(x.id, x.name, "exit", "", 10, 0, x.capacity, features, 0), HEALTHY, false, now)),
               owner := s.owner[x.id := h], gone := s.gone - {x.id}), h, Added)
    case Heartbeat(h, active, capacity, now) =>
      s.(exits := ApplyOp(s.exits, STALE_FOR, Beat(s.handlers[h].id, active, capacity, now)))
    case SessionDone(h) => s.(handlers := MarkDone(s.handlers, h))
    case Unhook(h) =>
      var id := s.handlers[h].id;
      SetPc(s.(exitConns := if id in s.exitConns && s.exitConns[id] == h then s.exitConns - {id} else s.exitConns), h, Unhooked)
    case Drop(h) =>
      var id := s.handlers[h].id;
      SetPc(s.(exits := ApplyOp(s.exits, STALE_FOR, Remove(id)),
               gone := if id in s.exits then s.gone[id := DroppedBy(h)] else s.gone), h, Gone)
    case ExpireStale(now) =>
      s.(exits := ApplyOp(s.exits, STALE_FOR, Expire(now)),
         gone := s.gone + map id | id in s.exits && !Fresh(s.exits[id], STALE_FOR, now) :: Expired)
    case Ask(want) => s.(forwards := s.forwards + [Forward(want, None, Undecided)])
    case Choose(f, selected) => s.(forwards := s.forwards[f := s.forwards[f].(selected := Some(selected))])
    case Refuse(f) => s.(forwards := s.forwards[f := s.forwards[f].(outcome := Rejected)])
    case Settle(f) =>
      var id := s.forwards[f].selected.value;
      var outcome := if id == DIRECT then Direct else if id in s.exitConns then Dial(s.exitConns[id]) else Rejected;
      s.(forwards := s.forwards[f := s.forwards[f].(outcome := outcome)])
  }

  predicate Legal(s: State, steps: seq<Step>)
    decreases |steps|
  {
    steps == [] || (Enabled(s, steps[0]) && Legal(Next(s, steps[0]), steps[1..]))
  }

  function Run(s: State, steps: seq<Step>): State
    requires Legal(s, steps)
    decreases |steps|
  {
    if steps == [] then s else Run(Next(s, steps[0]), steps[1..])
  }

  // ---- who is installed ----

  predicate Up(x: Handler) { x.pc == Installed || x.pc == Added }

  /** `g` has installed itself for the same exit later than `h`. */
  predicate Supersedes(g: Handler, h: Handler) {
    g.pc != Announced && g.id == h.id && g.stamp > h.stamp
  }

  /** No other handler has installed itself for the same exit since. */
  predicate Latest(s: State, h: nat) {
    && h < |s.handlers| && s.handlers[h].pc != Announced
    && forall g :: 0 <= g < |s.handlers| ==> !Supersedes(s.handlers[g], s.handlers[h])
  }

  predicate StampsOk(s: State) {
    && (forall h :: 0 <= h < |s.handlers| && s.handlers[h].pc != Announced ==> s.handlers[h].stamp < s.clock)
    && (forall g, h :: 0 <= g < h < |s.handlers| && s.handlers[g].pc != Announced && s.handlers[h].pc != Announced ==>
          s.handlers[g].stamp != s.handlers[h].stamp)
  }

  /** exitConns names, for each exit, the latest handler, for as long as that one is up. */
  predicate ConnsOk(s: State) {
    && (forall id :: id in s.exitConns ==>
          && Latest(s, s.exitConns[id]) && s.handlers[s.exitConns[id]].id == id && Up(s.handlers[s.exitConns[id]]))
    && (forall h :: 0 <= h < |s.handlers| && Up(s.handlers[h]) && Latest(s, h) ==>
          s.handlers[h].id in s.exitConns && s.exitConns[s.handlers[h].id] == h)
  }

  /** A handler that has been superseded has had its session closed. */
  predicate SupersededDone(s: State) {
    forall h :: 0 <= h < |s.handlers| && Up(s.handlers[h]) && !Latest(s, h) ==> s.handlers[h].done
  }

  predicate TableOk(s: State) { StampsOk(s) && ConnsOk(s) && SupersededDone(s) }

  lemma StepKeepsStamps(s: State, st: Step)
    requires StampsOk(s) && Enabled(s, st)
    ensures StampsOk(Next(s, st))
  {
  }

  /** Handlers change, but neither the order of installation nor which of them are up. */
  lemma SameStanding(s: State, t: State)
    requires TableOk(s) && t.exitConns == s.exitConns && |t.handlers| == |s.handlers| && StampsOk(t)
    requires forall h :: 0 <= h < |s.handlers| ==>
               && t.handlers[h].id == s.handlers[h].id && t.handlers[h].stamp == s.handlers[h].stamp
               && (t.handlers[h].pc == Announced <==> s.handlers[h].pc == Announced)
               && (Up(t.handlers[h]) <==> Up(s.handlers[h])) && (s.handlers[h].done ==> t.handlers[h].done)
    ensures TableOk(t)
  {
    forall h | 0 <= h < |s.handlers| ensures Latest(t, h) <==> Latest(s, h) {
      assert forall g :: 0 <= g < |s.handlers| ==>
          (Supersedes(t.handlers[g], t.handlers[h]) <==> Supersedes(s.handlers[g], s.handlers[h]));
    }
  }

  lemma AnnounceKeepsTable(s: State, st: Step)
    requires TableOk(s) && Enabled(s, st) && st.Announce?
    ensures TableOk(Next(s, st))
  {
    var t := Next(s, st);
    StepKeepsStamps(s, st);
    forall h | 0 <= h < |s.handlers| ensures Latest(t, h) <==> Latest(s, h) {
      assert forall g :: 0 <= g < |s.handlers| ==> t.handlers[g] == s.handlers[g];
    }
  }

  /** Two states have the same handlers, as far as `exitConns` is concerned, except perhaps `h`. */
  predicate SameBut(s: State, t: State, h: nat) {
    && |t.handlers| == |s.handlers| && h < |s.handlers| && t.handlers[h].id == s.handlers[h].id
    && forall k :: 0 <= k < |s.handlers| && k != h ==>
         && t.handlers[k].id == s.handlers[k].id && (Up(t.handlers[k]) <==> Up(s.handlers[k]))
         && (s.handlers[k].done ==> t.handlers[k].done)
  }

  lemma InstallRewires(s: State, t: State, h: nat)
    requires ConnsOk(s) && SameBut(s, t, h) && Latest(t, h) && Up(t.handlers[h]) && s.handlers[h].pc == Announced
    requires t.exitConns == s.exitConns[s.handlers[h].id := h]
    requires forall k :: 0 <= k < |s.handlers| && k != h && Up(s.handlers[k]) ==>
               (Latest(t, k) <==> Latest(s, k) && s.handlers[k].id != s.handlers[h].id)
    ensures ConnsOk(t)
  {
  }

  lemma InstallStops(s: State, t: State, h: nat)
    requires ConnsOk(s) && SupersededDone(s) && SameBut(s, t, h) && Latest(t, h)
    requires forall k :: 0 <= k < |s.handlers| && k != h && Up(s.handlers[k]) ==>
               (Latest(t, k) <==> Latest(s, k) && s.handlers[k].id != s.handlers[h].id)
    requires s.handlers[h].id in s.exitConns && s.exitConns[s.handlers[h].id] < |t.handlers| ==>
               t.handlers[s.exitConns[s.handlers[h].id]].done
    ensures SupersededDone(t)
  {
  }

  /** The new handler is later than every other, and the one it replaces is told to stop. */
  lemma {:induction false} InstallKeepsTable(s: State, h: nat)
    requires TableOk(s) && Enabled(s, Install(h))
    ensures TableOk(Next(s, Install(h)))
  {
    var t := Next(s, Install(h));
    StepKeepsStamps(s, Install(h));
    InstallIsLatest(s, h);
    forall k | 0 <= k < |s.handlers| && k != h && Up(s.handlers[k])
      ensures Latest(t, k) <==> Latest(s, k) && s.handlers[k].id != s.handlers[h].id
    {
      InstallStanding(s, h, k);
    }
    InstallRewires(s, t, h);
    InstallStops(s, t, h);
  }

  lemma InstallIsLatest(s: State, h: nat)
    requires StampsOk(s) && ConnsOk(s) && Enabled(s, Install(h))
    ensures var t := Next(s, Install(h));
            Latest(t, h) && Up(t.handlers[h]) && SameBut(s, t, h)
            && (s.handlers[h].id in s.exitConns ==> t.handlers[s.exitConns[s.handlers[h].id]].done)
  {
  }

  lemma InstallStanding(s: State, h: nat, k: nat)
    requires StampsOk(s) && Enabled(s, Install(h)) && k < |s.handlers| && k != h && s.handlers[k].pc != Announced
    ensures Latest(Next(s, Install(h)), k) <==> Latest(s, k) && s.handlers[k].id != s.handlers[h].id
  {
    var t := Next(s, Install(h));
    assert forall g :: 0 <= g < |s.handlers| && g != h ==>
        (Supersedes(t.handlers[g], t.handlers[k]) <==> Supersedes(s.handlers[g], s.handlers[k]));
    assert Supersedes(t.handlers[h], t.handlers[k]) <==> s.handlers[k].id == s.handlers[h].id;
    assert !Supersedes(s.handlers[h], s.handlers[k]);
  }

  lemma UnhookRewires(s: State, t: State, h: nat)
    requires ConnsOk(s) && SupersededDone(s) && SameBut(s, t, h) && !Up(t.handlers[h])
    requires t.exitConns == if s.handlers[h].id in s.exitConns && s.exitConns[s.handlers[h].id] == h
                            then s.exitConns - {s.handlers[h].id} else s.exitConns
    requires forall k :: 0 <= k < |s.handlers| ==> (Latest(t, k) <==> Latest(s, k))
    ensures ConnsOk(t) && SupersededDone(t)
  {
  }

  /** A handler that leaves takes out its own entry and nobody else's. */
  lemma {:induction false} UnhookKeepsTable(s: State, h: nat)
    requires TableOk(s) && Enabled(s, Unhook(h))
    ensures TableOk(Next(s, Unhook(h)))
  {
    var t := Next(s, Unhook(h));
    StepKeepsStamps(s, Unhook(h));
    forall k | 0 <= k < |s.handlers| ensures Latest(t, k) <==> Latest(s, k) {
      UnhookStanding(s, h, k);
    }
    UnhookRewires(s, t, h);
  }

  lemma UnhookStanding(s: State, h: nat, k: nat)
    requires Enabled(s, Unhook(h)) && k < |s.handlers|
    ensures Latest(Next(s, Unhook(h)), k) <==> Latest(s, k)
  {
    var t := Next(s, Unhook(h));
    assert forall g :: 0 <= g < |s.handlers| ==>
        (Supersedes(t.handlers[g], t.handlers[k]) <==> Supersedes(s.handlers[g], s.handlers[k]));
  }

  lemma {:induction false} OtherKeepsTable(s: State, st: Step)
    requires TableOk(s) && Enabled(s, st) && !st.Announce? && !st.Install? && !st.Unhook?
    ensures TableOk(Next(s, st))
  {
    StepKeepsStamps(s, st);
    SameStanding(s, Next(s, st));
  }

  lemma {:induction false} StepKeepsTable(s: State, st: Step)
    requires TableOk(s) && Enabled(s, st)
    ensures TableOk(Next(s, st))
  {
    if st.Announce? {
      AnnounceKeepsTable(s, st);
    } else if st.Install? {
      InstallKeepsTable(s, st.h);
    } else if st.Unhook? {
      UnhookKeepsTable(s, st.h);
    } else {
      OtherKeepsTable(s, st);
    }
  }

  // ---- who is registered ----

  /** This handler has registered its exit and not yet removed it. */
  predicate Holds(x: Handler) { x.pc == Added || x.pc == Unhooked }

  /** Every remote entry was put there by a handler that has not removed it yet. */
  predicate OwnersOk(s: State) {
    forall id :: id in s.exits && !s.exits[id].persistent ==>
      && id in s.owner && s.owner[id] < |s.handlers|
      && s.handlers[s.owner[id]].id == id && Holds(s.handlers[s.owner[id]])
  }

  /** This handler has put its exit in the registry at some time. */
  predicate HasAdded(x: Handler) { x.pc == Added || x.pc == Unhooked || x.pc == Gone }

  /** Some exit has registered under the server's own ID. */
  predicate DirectTaken(s: State) {
    exists h :: 0 <= h < |s.handlers| && s.handlers[h].id == DIRECT && HasAdded(s.handlers[h])
  }

  /** The direct exit is the only persistent entry, and is there exactly while its ID has not been taken. */
  predicate DirectOk(s: State) {
    && (forall id :: id in s.exits && s.exits[id].persistent ==> id == DIRECT)
    && (DIRECT in s.exits && s.exits[DIRECT].persistent <==> !DirectTaken(s))
  }

  lemma StepKeepsKeyed(s: State, st: Step)
    requires Keyed(s.exits) && Enabled(s, st)
    ensures Keyed(Next(s, st).exits)
  {
  }

  lemma {:induction false} StepKeepsOwners(s: State, st: Step)
    requires OwnersOk(s) && Enabled(s, st)
    ensures OwnersOk(Next(s, st))
  {
    var t := Next(s, st);
    forall id | id in t.exits && !t.exits[id].persistent
      ensures id in t.owner && t.owner[id] < |t.handlers|
              && t.handlers[t.owner[id]].id == id && Holds(t.handlers[t.owner[id]])
    {
      if st.AddExit? && id == s.handlers[st.h].id {
      } else {
        assert id in s.exits && !s.exits[id].persistent;
      }
    }
  }

  lemma TakenSteps(s: State, st: Step)
    requires Enabled(s, st)
    ensures DirectTaken(Next(s, st)) <==> DirectTaken(s) || (st.AddExit? && s.handlers[st.h].id == DIRECT)
  {
    var t := Next(s, st);
    if DirectTaken(s) {
      var h :| 0 <= h < |s.handlers| && s.handlers[h].id == DIRECT && HasAdded(s.handlers[h]);
      assert t.handlers[h].id == DIRECT && HasAdded(t.handlers[h]);
    }
    if st.AddExit? && s.handlers[st.h].id == DIRECT {
      assert HasAdded(t.handlers[st.h]);
    }
    if DirectTaken(t) {
      var h :| 0 <= h < |t.handlers| && t.handlers[h].id == DIRECT && HasAdded(t.handlers[h]);
      assert h < |s.handlers| && s.handlers[h].id == DIRECT;
    }
  }

  lemma {:induction false} StepKeepsDirect(s: State, st: Step)
    requires DirectOk(s) && Enabled(s, st)
    ensures DirectOk(Next(s, st))
  {
    TakenSteps(s, st);
    if st.Drop? && s.handlers[st.h].id == DIRECT {
      assert DirectTaken(s);
    }
  }

  /** An ID that has been registered is in the registry, or it is known how it left. */
  predicate GoneOk(s: State) {
    && (forall h :: 0 <= h < |s.handlers| && HasAdded(s.handlers[h]) ==>
          (s.handlers[h].id in s.exits <==> s.handlers[h].id !in s.gone))
    && (forall id :: id in s.gone && s.gone[id].DroppedBy? ==>
          && s.gone[id].h < |s.handlers|
          && s.handlers[s.gone[id].h].id == id && s.handlers[s.gone[id].h].pc == Gone)
  }

  lemma {:induction false} StepKeepsGone(s: State, st: Step)
    requires GoneOk(s) && Enabled(s, st)
    ensures GoneOk(Next(s, st))
  {
    var t := Next(s, st);
    forall h | 0 <= h < |t.handlers| && HasAdded(t.handlers[h])
      ensures t.handlers[h].id in t.exits <==> t.handlers[h].id !in t.gone
    {
      if st.AddExit? && t.handlers[h].id == s.handlers[st.h].id {
      } else {
        assert HasAdded(s.handlers[h]);
      }
    }
  }

  // ---- where requests are sent ----

  predicate ForwardOk(s: State, f: Forward) {
    && (f.selected.Some? && f.want != "" && f.want != "auto" ==> f.selected.value == f.want)
    && (f.outcome.Direct? ==> f.selected == Some(DIRECT))
    && (f.outcome.Dial? ==>
          f.selected.Some? && f.selected.value != DIRECT && f.outcome.h < |s.handlers|
          && s.handlers[f.outcome.h].id == f.selected.value)
  }

  predicate ForwardsOk(s: State) {
    forall i :: 0 <= i < |s.forwards| ==> ForwardOk(s, s.forwards[i])
  }

  lemma {:induction false} StepKeepsForwards(s: State, st: Step)
    requires ForwardsOk(s) && ConnsOk(s) && Enabled(s, st)
    ensures ForwardsOk(Next(s, st))
  {
    var t := Next(s, st);
    IDsStay(s, st);
    forall i | 0 <= i < |t.forwards| ensures ForwardOk(t, t.forwards[i]) {
      if i < |s.forwards| {
        assert ForwardOk(s, s.forwards[i]);
      }
    }
  }

  lemma IDsStay(s: State, st: Step)
    requires Enabled(s, st)
    ensures |s.handlers| <= |Next(s, st).handlers|
    ensures forall h :: 0 <= h < |s.handlers| ==>
              var x, y := s.handlers[h], Next(s, st).handlers[h]; y.id == x.id && y.name == x.name && y.capacity == x.capacity
  {
  }

  // ---- every run ----

  predicate Inv(s: State) {
    TableOk(s) && Keyed(s.exits) && OwnersOk(s) && GoneOk(s) && DirectOk(s) && ForwardsOk(s)
  }

  lemma StartInv(limit: int, defaultID: string, now: int)
    ensures Inv(NewServer(limit, defaultID, now))
  {
  }

  lemma {:induction false} StepKeepsInv(s: State, st: Step)
    requires Inv(s) && Enabled(s, st)
    ensures Inv(Next(s, st))
  {
    StepKeepsTable(s, st);
    StepKeepsKeyed(s, st);
    StepKeepsOwners(s, st);
    StepKeepsGone(s, st);
    StepKeepsDirect(s, st);
    StepKeepsForwards(s, st);
  }

  lemma {:induction false} RunKeepsInv(s: State, steps: seq<Step>)
    requires Inv(s) && Legal(s, steps)
    ensures Inv(Run(s, steps))
    decreases |steps|
  {
    if steps != [] {
      StepKeepsInv(s, steps[0]);
      RunKeepsInv(Next(s, steps[0]), steps[1..]);
    }
  }

  ghost predicate Reachable(s: State) {
    exists limit: int, id: string, now: int, steps ::
      Legal(NewServer(limit, id, now), steps) && Run(NewServer(limit, id, now), steps) == s
  }

  lemma {:induction false} ReachableInv(s: State)
    requires Reachable(s)
    ensures Inv(s)
  {
    var limit: int, id: string, now: int, steps :|
      Legal(NewServer(limit, id, now), steps) && Run(NewServer(limit, id, now), steps) == s;
    StartInv(limit, id, now);
    RunKeepsInv(NewServer(limit, id, now), steps);
  }

  /**
   No orphans: in every reachable state each remote entry belongs to a handler that has added it
   and not yet removed it.
   */
  lemma {:induction false} NoOrphanExits(s: State, id: string)
    requires Reachable(s) && id in s.exits && !s.exits[id].persistent
    ensures exists h :: 0 <= h < |s.handlers| && s.handlers[h].id == id && Holds(s.handlers[h])
  {
    ReachableInv(s);
    assert 0 <= s.owner[id] < |s.handlers|;
  }

  /**
   The other way round there is no such guarantee. An exit whose handler is up and has registered
   it, the latest one included, is missing if and only if, since the last registration under its
   ID, it has expired or been removed by another handler of that ID.
   */
  lemma {:induction false} UpButMissingIff(s: State, h: nat)
    requires Reachable(s) && h < |s.handlers| && s.handlers[h].pc == Added
    ensures s.handlers[h].id !in s.exits <==>
              && s.handlers[h].id in s.gone
              && match s.gone[s.handlers[h].id]
                 case Expired => true
                 case DroppedBy(g) => g < |s.handlers| && g != h && s.handlers[g].id == s.handlers[h].id && s.handlers[g].pc == Gone
  {
    ReachableInv(s);
  }

  lemma Unroll(s: State, rest: seq<Step>, steps: seq<Step>)
    requires steps != [] && steps[1..] == rest && Enabled(s, steps[0]) && Legal(Next(s, steps[0]), rest)
    ensures Legal(s, steps) && Run(s, steps) == Run(Next(s, steps[0]), rest)
  {
  }

  /** An exit connects and registers, as the handler with this number. */
  function Joined(s: State, id: string): seq<Step> {
    [Announce(id, id, 1), Install(|s.handlers|), AddExit(|s.handlers|, [], 0)]
  }

  lemma {:induction false} Join(s: State, id: string) returns (t: State)
    requires id != ""
    ensures Legal(s, Joined(s, id)) && t == Run(s, Joined(s, id))
    ensures |t.handlers| == |s.handlers| + 1 && id in t.exits
    ensures t.handlers[|s.handlers|].id == id && t.handlers[|s.handlers|].pc == Added
    ensures t.exitConns == s.exitConns[id := |s.handlers|]
    ensures forall g :: 0 <= g < |s.handlers| ==>
              t.handlers[g] == s.handlers[g].(done := s.handlers[g].done || (id in s.exitConns && s.exitConns[id] == g))
  {
    var n := |s.handlers|;
    var s1 := Next(s, Announce(id, id, 1));
    var s2 := Next(s1, Install(n));
    Unroll(s2, [], [AddExit(n, [], 0)]);
    Unroll(s1, [AddExit(n, [], 0)], [Install(n), AddExit(n, [], 0)]);
    Unroll(s, [Install(n), AddExit(n, [], 0)], Joined(s, id));
    t := Next(s2, AddExit(n, [], 0));
  }

  lemma {:induction false} RunConcat(s: State, a: seq<Step>, b: seq<Step>)
    requires Legal(s, a) && Legal(Run(s, a), b)
    ensures Legal(s, a + b) && Run(s, a + b) == Run(Run(s, a), b)
    decreases |a|
  {
    if a == [] {
      assert a + b == b;
    } else {
      FirstOfConcat(a, b);
      RunConcat(Next(s, a[0]), a[1..], b);
    }
  }

  /**
   Such a run, for any exit: it reconnects before its first handler has torn down, and that
   handler's unguarded removal then takes out the entry of the second.
   */
  lemma {:induction false} ReconnectIsDropped(limit: int, defaultID: string, now: int, id: string) returns (s: State)
    requires id != ""
    ensures Reachable(s) && |s.handlers| == 2 && s.handlers[1].id == id && s.handlers[1].pc == Added
    ensures id in s.exitConns && s.exitConns[id] == 1 && id !in s.exits
  {
    var s0 := NewServer(limit, defaultID, now);
    var s1 := Join(s0, id);
    var s2 := Join(s1, id);
    var s3 := Next(s2, Unhook(0));
    Unroll(s3, [], [Drop(0)]);
    Unroll(s2, [Drop(0)], [Unhook(0), Drop(0)]);
    s := Next(s3, Drop(0));
    RunConcat(s0, Joined(s0, id), Joined(s1, id));
    RunConcat(s0, Joined(s0, id) + Joined(s1, id), [Unhook(0), Drop(0)]);
  }

  /** When every handler has returned, at most the direct exit is left, and no connection. */
  lemma {:induction false} NothingIsLeftBehind(s: State)
    requires Reachable(s) && forall h :: 0 <= h < |s.handlers| ==> s.handlers[h].pc == Gone
    ensures s.exits.Keys <= {DIRECT} && s.exitConns == map[]
    ensures s.exits.Keys == {DIRECT} <==> !DirectTaken(s)
  {
    ReachableInv(s);
  }

  /**
   The direct exit stays registered if and only if no exit has ever registered under its ID:
   such a registration replaces the persistent entry, and nothing ever puts it back.
   */
  lemma {:induction false} DirectStaysIff(s: State)
    requires Reachable(s)
    ensures DIRECT in s.exits && s.exits[DIRECT].persistent <==> !DirectTaken(s)
  {
    ReachableInv(s);
  }

  /**
   exitConns holds exactly the latest installed handler of an exit, as long as that handler has
   not torn down; every handler it superseded has had its session closed.
   */
  lemma {:induction false} SuccessorIsNeverEvicted(s: State, h: nat)
    requires Reachable(s) && h < |s.handlers|
    ensures (s.handlers[h].id in s.exitConns && s.exitConns[s.handlers[h].id] == h) <==> Up(s.handlers[h]) && Latest(s, h)
    ensures Up(s.handlers[h]) && !Latest(s, h) ==> s.handlers[h].done
  {
    ReachableInv(s);
  }

  /**
   A forwarded request is served directly, dialled to the exit that was selected, or rejected;
   an explicit request is never sent to another exit than the one it names.
   */
  lemma {:induction false} RequestsReachTheirExit(s: State, f: nat)
    requires Reachable(s) && f < |s.forwards|
    ensures var fw := s.forwards[f];
            && (fw.outcome.Dial? ==> fw.outcome.h < |s.handlers| && fw.selected == Some(s.handlers[fw.outcome.h].id))
            && (fw.outcome.Direct? ==> fw.selected == Some(DIRECT))
            && (fw.want != "" && fw.want != "auto" && fw.outcome.Dial? ==> s.handlers[fw.outcome.h].id == fw.want)
            && (fw.want != "" && fw.want != "auto" && fw.outcome.Direct? ==> fw.want == DIRECT)
  {
    ReachableInv(s);
    assert ForwardOk(s, s.forwards[f]);
  }

  /** At the moment it is dialled, the exit's handler is the latest one and has not torn down. */
  lemma {:induction false} DialsTheLatest(s: State, f: nat)
    requires Reachable(s) && Enabled(s, Settle(f)) && Next(s, Settle(f)).forwards[f].outcome.Dial?
    ensures var h := Next(s, Settle(f)).forwards[f].outcome.h;
            h < |s.handlers| && Latest(s, h) && Up(s.handlers[h])
  {
    ReachableInv(s);
  }

  /** The handler that serves an exit: the latest to have installed itself for it, and not torn down. */
  predicate Serves(s: State, h: nat, id: string) { h < |s.handlers| && s.handlers[h].id == id && Up(s.handlers[h]) && Latest(s, h) }

  /**
   A request that has its exit is decided by the handlers alone: it is served directly if and only if
   the exit is the direct one, dialled to a handler if and only if that one serves the exit, and
   rejected if and only if no handler does.
   */
  lemma {:induction false} SettlesExactly(s: State, f: nat)
    requires Reachable(s) && Enabled(s, Settle(f))
    ensures var t, id := Next(s, Settle(f)), s.forwards[f].selected.value;
            && t == s.(forwards := s.forwards[f := s.forwards[f].(outcome := t.forwards[f].outcome)])
            && (t.forwards[f].outcome == Direct <==> id == DIRECT)
            && (forall h: nat :: t.forwards[f].outcome == Dial(h) <==> id != DIRECT && Serves(s, h, id))
            && (t.forwards[f].outcome == Rejected <==> id != DIRECT && !exists h: nat :: Serves(s, h, id))
  {
    ReachableInv(s);
    var id := s.forwards[f].selected.value;
    if id in s.exitConns {
      assert Serves(s, s.exitConns[id], id);
    }
  }

  /** Some exit can be had for a request: the one it names, or any where it names none. */
  predicate Available(exits: Exits, want: string) {
    if want == "" || want == "auto" then exists id :: id in exits && Eligible(exits[id].info)
    else want in exits && Eligible(exits[want].info)
  }

  lemma {:induction false} SelectableIff(exits: Exits, want: string)
    requires Keyed(exits)
    ensures Available(exits, want) <==> exists id :: id in exits && Selectable(exits, want, id)
  {
    if Available(exits, want) {
      if want == "" || want == "auto" {
        var best := BestExists(exits, exits.Keys);
        assert Selectable(exits, want, best);
      } else {
        assert Selectable(exits, want, want);
      }
    }
  }

  lemma SelectableIsUnique(exits: Exits, want: string, a: string, b: string)
    requires Selectable(exits, want, a) && Selectable(exits, want, b)
    ensures a == b
  {
    if want == "" || want == "auto" {
      BestIsUnique(exits, exits.Keys, a, b);
    }
  }

  /** A request that has been received and has no exit yet. */
  predicate Pending(s: State, f: nat) {
    f < |s.forwards| && s.forwards[f].selected.None? && s.forwards[f].outcome == Undecided
  }

  /** A request that has no exit yet is refused if and only if none can be had. */
  lemma {:induction false} RefusedIff(s: State, f: nat)
    requires Reachable(s) && Pending(s, f)
    ensures Enabled(s, Refuse(f)) <==> !Available(s.exits, s.forwards[f].want)
  {
    ReachableInv(s);
    SelectableIff(s.exits, s.forwards[f].want);
  }

  /** Otherwise there is one exit that it can get, whatever the order in which the map is walked. */
  lemma {:induction false} ChoiceIsFixed(s: State, f: nat) returns (id: string)
    requires Reachable(s) && Pending(s, f) && Available(s.exits, s.forwards[f].want)
    ensures Enabled(s, Choose(f, id)) && forall o: string :: Enabled(s, Choose(f, o)) ==> o == id
  {
    ReachableInv(s);
    SelectableIff(s.exits, s.forwards[f].want);
    id :| id in s.exits && Selectable(s.exits, s.forwards[f].want, id);
    forall o: string | Enabled(s, Choose(f, o)) ensures o == id {
      SelectableIsUnique(s.exits, s.forwards[f].want, o, id);
    }
  }

  // ---- what is registered ----

  lemma {:induction false} IdentityStays(s: State, steps: seq<Step>, h: nat)
    requires Legal(s, steps) && h < |s.handlers|
    ensures h < |Run(s, steps).handlers|
    ensures var x, y := s.handlers[h], Run(s, steps).handlers[h]; y.id == x.id && y.name == x.name && y.capacity == x.capacity
    decreases |steps|
  {
    if steps != [] {
      IDsStay(s, steps[0]);
      IdentityStays(Next(s, steps[0]), steps[1..], h);
    }
  }

  /**
   Whatever happens between its announcement and its registration, an exit is registered as it
   announced itself: under its own ID or else the server's, its own name or else its ID, its own
   capacity or else the server's limit; idle, healthy and not persistent.
   */
  lemma {:induction false} RegisteredAsAnnounced(
    s: State, id: string, name: string, capacity: int, steps: seq<Step>, features: seq<string>, now: int)
    requires Enabled(s, Announce(id, name, capacity)) && Legal(Next(s, Announce(id, name, capacity)), steps)
    requires Enabled(Run(Next(s, Announce(id, name, capacity)), steps), AddExit(|s.handlers|, features, now))
    ensures var key := if id != "" then id else s.defaultID;
            var exits := Next(Run(Next(s, Announce(id, name, capacity)), steps), AddExit(|s.handlers|, features, now)).exits;
            && key in exits && !exits[key].persistent && exits[key].heartbeat == now
            && exits[key].info == ExitInfo(key, if name != "" then name else key, "exit", HEALTHY, 10, 0,
                                           if capacity > 0 then capacity else s.limit, features, now)
  {
    IdentityStays(Next(s, Announce(id, name, capacity)), steps, |s.handlers|);
  }

  /**
   Whatever happens between its arrival and its end, a request keeps what it asked for, and one that
   names an exit is dialled to that exit or served directly only if it named the direct one.
   */
  lemma {:induction false} RequestKeepsItsWish(s: State, want: string, steps: seq<Step>)
    requires Reachable(s) && Legal(Next(s, Ask(want)), steps)
    ensures var t := Run(Next(s, Ask(want)), steps);
            && |s.forwards| < |t.forwards| && t.forwards[|s.forwards|].want == want
            && (want != "" && want != "auto" ==>
                  match t.forwards[|s.forwards|].outcome
                  case Dial(h) => h < |t.handlers| && t.handlers[h].id == want
                  case Direct => want == DIRECT
                  case _ => true)
  {
    ReachableInv(s);
    StepKeepsInv(s, Ask(want));
    RunKeepsInv(Next(s, Ask(want)), steps);
    WishStays(Next(s, Ask(want)), steps, |s.forwards|);
    var t := Run(Next(s, Ask(want)), steps);
    assert ForwardOk(t, t.forwards[|s.forwards|]);
  }

  lemma {:induction false} WishStays(s: State, steps: seq<Step>, f: nat)
    requires Legal(s, steps) && f < |s.forwards|
    ensures f < |Run(s, steps).forwards| && Run(s, steps).forwards[f].want == s.forwards[f].want
    decreases |steps|
  {
    if steps != [] {
      WishStays(Next(s, steps[0]), steps[1..], f);
    }
  }

  /**
   When its session ends, a handler can leave at once: its exit is no longer registered, and
   `exitConns` loses the entry of the exit if and only if it was this handler's own.
   */
  lemma {:induction false} SessionEndTearsDown(s: State, h: nat)
    requires Reachable(s) && h < |s.handlers| && s.handlers[h].pc == Added
    ensures Enabled(s, SessionDone(h)) && Enabled(Next(s, SessionDone(h)), Unhook(h))
    ensures Enabled(Next(Next(s, SessionDone(h)), Unhook(h)), Drop(h))
    ensures var t, id := Next(Next(Next(s, SessionDone(h)), Unhook(h)), Drop(h)), s.handlers[h].id;
            && t.handlers == s.handlers[h := s.handlers[h].(pc := Gone, done := true)] && t.exits == s.exits - {id}
            && t.exitConns == if Latest(s, h) then s.exitConns - {id} else s.exitConns
  {
    ReachableInv(s);
    LeavesAtOnce(s, h);
    assert Latest(s, h) <==> s.handlers[h].id in s.exitConns && s.exitConns[s.handlers[h].id] == h;
  }

  lemma LeavesAtOnce(s: State, h: nat)
    requires h < |s.handlers| && s.handlers[h].pc == Added
    ensures Enabled(Next(s, SessionDone(h)), Unhook(h)) && Enabled(Next(Next(s, SessionDone(h)), Unhook(h)), Drop(h))
    ensures var t, id := Next(Next(Next(s, SessionDone(h)), Unhook(h)), Drop(h)), s.handlers[h].id;
            && t.handlers == s.handlers[h := s.handlers[h].(pc := Gone, done := true)] && t.exits == s.exits - {id}
            && t.exitConns == if id in s.exitConns && s.exitConns[id] == h then s.exitConns - {id} else s.exitConns
  {
  }

  /** This step is one of a handler of this exit, and changes the registry. */
  predicate Touches(s: State, st: Step, id: string) {
    (st.AddExit? || st.Heartbeat? || st.Drop?) && st.h < |s.handlers| && s.handlers[st.h].id == id
  }

  predicate LeftAlone(s: State, steps: seq<Step>, id: string)
    requires Legal(s, steps)
    decreases |steps|
  {
    steps == [] || (!Touches(s, steps[0], id) && LeftAlone(Next(s, steps[0]), steps[1..], id))
  }

  lemma {:induction false} AbsentStays(s: State, steps: seq<Step>, id: string)
    requires Legal(s, steps) && LeftAlone(s, steps, id) && id !in s.exits
    ensures id !in Run(s, steps).exits
    decreases |steps|
  {
    if steps != [] {
      AbsentStays(Next(s, steps[0]), steps[1..], id);
    }
  }

  lemma {:induction false} EntryStaysIff(s: State, steps: seq<Step>, id: string)
    requires Legal(s, steps) && LeftAlone(s, steps, id) && id in s.exits
    ensures var t := Run(s, steps);
            && (id in t.exits <==> forall st :: st in steps && st.ExpireStale? ==> Fresh(s.exits[id], STALE_FOR, st.now))
            && (id in t.exits ==> t.exits[id] == s.exits[id])
    decreases |steps|
  {
    if steps != [] {
      var next := Next(s, steps[0]);
      assert forall st :: st in steps <==> st == steps[0] || st in steps[1..];
      if id in next.exits {
        EntryStaysIff(next, steps[1..], id);
      } else {
        AbsentStays(next, steps[1..], id);
      }
    }
  }

  /**
   A heartbeat of a registered exit, and any run behind it in which no handler of that exit
   registers, reports or removes: the exit is still registered, with the counts reported, if and only
   if no expiry came more than 45 seconds after the heartbeat, or it is the persistent one.
   */
  lemma {:induction false} HeartbeatLastsIff(s: State, h: nat, active: int, capacity: int, now: int, steps: seq<Step>)
    requires Enabled(s, Heartbeat(h, active, capacity, now)) && s.handlers[h].id in s.exits
    requires Legal(Next(s, Heartbeat(h, active, capacity, now)), steps)
    requires LeftAlone(Next(s, Heartbeat(h, active, capacity, now)), steps, s.handlers[h].id)
    ensures var id, was := s.handlers[h].id, s.exits[s.handlers[h].id];
            var exits := Run(Next(s, Heartbeat(h, active, capacity, now)), steps).exits;
            && (id in exits <==> was.persistent || forall st :: st in steps && st.ExpireStale? ==> st.now <= now + 45_000)
            && (id in exits ==>
                  && exits[id].info.active == active && exits[id].heartbeat == now
                  && exits[id].info.capacity == (if capacity > 0 then capacity else was.info.capacity))
  {
    EntryStaysIff(Next(s, Heartbeat(h, active, capacity, now)), steps, s.handlers[h].id);
  }

  // ---- health over whole runs ----

  /** Counts announced and reported stay in the range in which `healthFor` does not overflow. */
  predicate ModerateStep(st: Step) {
    match st
    case Announce(_, _, capacity) => ModerateCapacity(capacity)
    case Heartbeat(_, active, capacity, _) => ModerateActive(active) && ModerateCapacity(capacity)
    case _ => true
  }

  predicate HealthInv(s: State) {
    && RegistryOk(s.exits) && 0 < s.limit && ModerateCapacity(s.limit)
    && forall h :: 0 <= h < |s.handlers| ==> 0 < s.handlers[h].capacity && ModerateCapacity(s.handlers[h].capacity)
  }

  lemma {:induction false} StepKeepsHealth(s: State, st: Step)
    requires HealthInv(s) && Enabled(s, st) && ModerateStep(st)
    ensures HealthInv(Next(s, st))
  {
    match st
    case AddExit(h, features, now) =>
      var x := s.handlers[h];
      OpKeepsRegistry(s.exits, STALE_FOR,
                      Add(ExitInfo(x.id, x.name, "exit", "", 10, 0, x.capacity, features, 0), HEALTHY, false, now));
    case Heartbeat(h, active, capacity, now) =>
      OpKeepsRegistry(s.exits, STALE_FOR, Beat(s.handlers[h].id, active, capacity, now));
    case Drop(h) => OpKeepsRegistry(s.exits, STALE_FOR, Remove(s.handlers[h].id));
    case ExpireStale(now) => OpKeepsRegistry(s.exits, STALE_FOR, Expire(now));
    case _ =>
  }

  lemma {:induction false} RunKeepsHealth(s: State, steps: seq<Step>)
    requires HealthInv(s) && Legal(s, steps) && forall st :: st in steps ==> ModerateStep(st)
    ensures HealthInv(Run(s, steps))
    decreases |steps|
  {
    if steps != [] {
      assert steps[0] in steps;
      StepKeepsHealth(s, steps[0]);
      RunKeepsHealth(Next(s, steps[0]), steps[1..]);
    }
  }

  /**
   In every run of a server with a positive connection limit, an exit that a request can be given,
   explicitly or automatically, was at nine tenths of its capacity or less when it last reported.
   */
  lemma {:induction false} SelectedExitsHaveHeadroom(limit: int, id: string, now: int, steps: seq<Step>, want: string, selected: string)
    requires 0 < limit && ModerateCapacity(limit) && Legal(NewServer(limit, id, now), steps)
    requires forall st :: st in steps ==> ModerateStep(st)
    requires Selectable(Run(NewServer(limit, id, now), steps).exits, want, selected)
    ensures var info := Run(NewServer(limit, id, now), steps).exits[selected].info;
            info.id == selected && info.capacity > 0 && info.active * 100 <= info.capacity * 90
  {
    OpKeepsRegistry(map[], STALE_FOR, Add(DirectInfo(limit), HEALTHY, true, now));
    RunKeepsHealth(NewServer(limit, id, now), steps);
    EligibleHasHeadroom(Run(NewServer(limit, id, now), steps).exits, selected);
  }
}
