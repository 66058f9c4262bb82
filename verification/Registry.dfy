/**
 The exit registry of internal/node/registry.go: which exits are known, how healthy they are,
 when they expire, and which one a new stream is sent to.
 */
module Registry {
  import opened Common

  const HEALTHY := "healthy"
  const DEGRADED := "degraded"
  const AT_CAPACITY := "at-capacity"
  const NO_EXIT := "no healthy exit is available"
  const EXIT_UNAVAILABLE := "selected exit is unavailable"

  datatype ExitInfo = ExitInfo(
    id: string, name: string, kind: string, health: string, latencyMS: int,
    active: int, capacity: int, features: seq<string>, heartbeatTime: int)

  datatype Entry = Entry(info: ExitInfo, heartbeat: int, persistent: bool)

  type Exits = map<string, Entry>

  // ---- 64-bit arithmetic ----

  const TWO64 := 0x1_0000_0000_0000_0000
  const MIN64 := -0x8000_0000_0000_0000
  const MAX64 := 0x7FFF_FFFF_FFFF_FFFF

  predicate InInt64(x: int) { MIN64 <= x <= MAX64 }

  function Wrap64(x: int): (r: int)
    ensures InInt64(r)
    ensures r == x <==> InInt64(x)
  {
    (x - MIN64) % TWO64 + MIN64
  }

  lemma WrapShift(x: int, k: int)
    ensures Wrap64(x + k * TWO64) == Wrap64(x)
  {
    ModShift(x - MIN64, k, TWO64);
  }

  lemma ModShift(x: int, k: int, m: int)
    requires m > 0
    ensures (x + k * m) % m == x % m
  {
    var q := x / m;
    assert x + k * m == (q + k) * m + x % m;
    ModUnique(x + k * m, q + k, x % m, m);
  }

  lemma ModUnique(x: int, q: int, r: int, m: int)
    requires m > 0 && 0 <= r < m && x == q * m + r
    ensures x % m == r
  {
    var d := x / m - q;
    assert d * m == r - x % m;
    assert d >= 1 ==> d * m >= m;
    assert d <= -1 ==> d * m <= -m;
  }

  lemma WrapIsShift(x: int) returns (k: int)
    ensures Wrap64(x) == x + k * TWO64
  {
    k := -((x - MIN64) / TWO64);
  }

  // ---- health ----

  function HealthFor(active: int, capacity: int): string {
    if capacity <= 0 || active >= capacity then AT_CAPACITY
    else if Wrap64(active * 100) > Wrap64(capacity * 90) then DEGRADED
    else HEALTHY
  }

  /** Counts for which the products in `healthFor` stay within 64 bits. */
  predicate ModerateActive(active: int) { InInt64(active * 100) }
  predicate ModerateCapacity(capacity: int) { InInt64(capacity * 90) }

  /** Within that range an exit is healthy exactly when it has room and runs at nine tenths or less. */
  lemma HealthMeaning(active: int, capacity: int)
    requires ModerateActive(active) && ModerateCapacity(capacity)
    ensures HealthFor(active, capacity) == HEALTHY <==> capacity > 0 && active < capacity && active * 100 <= capacity * 90
    ensures HealthFor(active, capacity) == DEGRADED <==> capacity > 0 && active < capacity && active * 100 > capacity * 90
  {
    assert Wrap64(active * 100) == active * 100 && Wrap64(capacity * 90) == capacity * 90;
  }

  /** Beyond it, an idle exit can pass for degraded. */
  lemma HealthOverflows()
    ensures HealthFor(0, 0x200_0000_0000_0000) == DEGRADED
  {
  }

  // ---- the order of IDs ----

  predicate Less(a: string, b: string) {
    b != [] && (a == [] || a[0] < b[0] || (a[0] == b[0] && Less(a[1..], b[1..])))
  }

  /** The two agree up to `k`, where the first ends or has the smaller character. */
  predicate LessAt(a: string, b: string, k: nat) {
    k <= |a| && k < |b| && a[..k] == b[..k] && (k == |a| || a[k] < b[k])
  }

  /** The order is that of a dictionary: the first difference decides, and a proper prefix comes first. */
  lemma {:induction false} LessIff(a: string, b: string)
    ensures Less(a, b) <==> exists k: nat :: LessAt(a, b, k)
  {
    if Less(a, b) {
      if a == [] || a[0] < b[0] {
        assert LessAt(a, b, 0);
      } else {
        LessIff(a[1..], b[1..]);
        var k: nat :| LessAt(a[1..], b[1..], k);
        assert a[..k + 1] == [a[0]] + a[1..][..k] && b[..k + 1] == [b[0]] + b[1..][..k];
        assert LessAt(a, b, k + 1);
      }
    } else if exists k: nat :: LessAt(a, b, k) {
      var k: nat :| LessAt(a, b, k);
      assert k > 0 && a[0] == a[..k][0] == b[..k][0] == b[0];
      assert a[1..][..k - 1] == a[..k][1..] == b[..k][1..] == b[1..][..k - 1];
      LessIff(a[1..], b[1..]);
      assert LessAt(a[1..], b[1..], k - 1);
      assert false;
    }
  }

  lemma {:induction false} LessIrreflexive(a: string)
    ensures !Less(a, a)
  {
    if a != [] {
      LessIrreflexive(a[1..]);
    }
  }

  lemma {:induction false} LessTransitive(a: string, b: string, c: string)
    requires Less(a, b) && Less(b, c)
    ensures Less(a, c)
  {
    if a != [] && a[0] == b[0] == c[0] {
      LessTransitive(a[1..], b[1..], c[1..]);
    }
  }

  lemma {:induction false} LessTotal(a: string, b: string)
    ensures a == b || Less(a, b) || Less(b, a)
  {
    if a != [] && b != [] && a[0] == b[0] {
      LessTotal(a[1..], b[1..]);
      assert a == [a[0]] + a[1..] && b == [b[0]] + b[1..];
    }
  }

  lemma LessAsymmetric(a: string, b: string)
    requires Less(a, b)
    ensures !Less(b, a) && a != b
  {
    if Less(b, a) {
      LessTransitive(a, b, a);
    }
    LessIrreflexive(a);
  }

  // ---- selection ----

  /** Every entry is stored under its own ID. */
  predicate Keyed(exits: Exits) { forall id :: id in exits ==> exits[id].info.id == id }

  predicate Eligible(info: ExitInfo) { info.health == HEALTHY && info.active < info.capacity }

  /** The score as the source computes it, in int64. */
  function Score(info: ExitInfo): int {
    Wrap64(Wrap64(Wrap64(info.capacity - info.active) * 1000) - info.latencyMS)
  }

  function ExactScore(info: ExitInfo): int { (info.capacity - info.active) * 1000 - info.latencyMS }

  /** The int64 score is the intended one if and only if the intended one fits. */
  lemma {:induction false} ScoreIsExactIff(info: ExitInfo)
    ensures Score(info) == Wrap64(ExactScore(info))
    ensures Score(info) == ExactScore(info) <==> InInt64(ExactScore(info))
  {
    var free := info.capacity - info.active;
    var k := WrapIsShift(free);
    assert Wrap64(free) * 1000 == free * 1000 + (k * 1000) * TWO64;
    WrapShift(free * 1000, k * 1000);
    var j := WrapIsShift(free * 1000);
    assert Wrap64(free * 1000) - info.latencyMS == (free * 1000 - info.latencyMS) + j * TWO64;
    WrapShift(free * 1000 - info.latencyMS, j);
  }

  predicate Better(a: ExitInfo, b: ExitInfo) {
    Score(a) > Score(b) || (Score(a) == Score(b) && Less(a.id, b.id))
  }

  /** The entry under `best` is eligible and better than every other eligible entry in `among`. */
  predicate BestAmong(exits: Exits, among: set<string>, best: string) {
    && best in among && best in exits && Eligible(exits[best].info)
    && forall id :: id in among && id in exits && id != best && Eligible(exits[id].info) ==>
         Better(exits[best].info, exits[id].info)
  }

  /** There is one best exit, so the order in which the map is walked does not matter. */
  lemma BestIsUnique(exits: Exits, among: set<string>, a: string, b: string)
    requires BestAmong(exits, among, a) && BestAmong(exits, among, b)
    ensures a == b
  {
    if a != b {
      if Score(exits[a].info) == Score(exits[b].info) {
        LessAsymmetric(exits[a].info.id, exits[b].info.id);
      }
      assert false;
    }
  }

  /** Where no score overflows, the best exit has the greatest intended score. */
  lemma BestIsExact(exits: Exits, best: string, other: string)
    requires BestAmong(exits, exits.Keys, best) && other in exits && Eligible(exits[other].info)
    requires InInt64(ExactScore(exits[best].info)) && InInt64(ExactScore(exits[other].info))
    ensures ExactScore(exits[best].info) >= ExactScore(exits[other].info)
  {
    ScoreIsExactIff(exits[best].info);
    ScoreIsExactIff(exits[other].info);
  }

  /** Where one does, a nearly idle exit of huge capacity loses to one with a single free slot. */
  lemma HugeExitLoses(huge: ExitInfo, small: ExitInfo)
    requires huge.active == small.active == 0 && huge.latencyMS == small.latencyMS == 10
    requires huge.capacity == 0x80_0000_0000_0000 && small.capacity == 1
    ensures ExactScore(huge) > ExactScore(small) && Better(small, huge)
  {
  }

  lemma BetterTransitive(a: ExitInfo, b: ExitInfo, c: ExitInfo)
    requires Better(a, b) && Better(b, c)
    ensures Better(a, c)
  {
    if Score(a) == Score(b) == Score(c) {
      LessTransitive(a.id, b.id, c.id);
    }
  }

  lemma BetterTotal(a: ExitInfo, b: ExitInfo)
    requires a.id != b.id
    ensures Better(a, b) || Better(b, a)
  {
    LessTotal(a.id, b.id);
  }

  /** One turn of the loop in `Select`. */
  lemma {:induction false} KeepBetter(exits: Exits, among: set<string>, best: string, id: string)
    requires Keyed(exits) && BestAmong(exits, among, best) && id in exits && id !in among && Eligible(exits[id].info)
    ensures BestAmong(exits, among + {id}, if Better(exits[id].info, exits[best].info) then id else best)
  {
    var x, y := exits[id].info, exits[best].info;
    BetterTotal(x, y);
    if Better(x, y) {
      forall o | o in among && o in exits && o != best && Eligible(exits[o].info) ensures Better(x, exits[o].info) {
        BetterTransitive(x, y, exits[o].info);
      }
    }
  }

  /** There is a best exit if any exit is eligible. */
  lemma {:induction false} BestExists(exits: Exits, among: set<string>) returns (best: string)
    requires Keyed(exits) && exists id :: id in among && id in exits && Eligible(exits[id].info)
    ensures BestAmong(exits, among, best)
    decreases |among|
  {
    var id :| id in among && id in exits && Eligible(exits[id].info);
    var rest := among - {id};
    if o :| o in rest && o in exits && Eligible(exits[o].info) {
      assert |rest| < |among|;
      best := BestExists(exits, rest);
      KeepBetter(exits, rest, best, id);
      assert rest + {id} == among;
      best := if Better(exits[id].info, exits[best].info) then id else best;
    } else {
      best := id;
    }
  }

  // ---- what changes the registry ----

  datatype Op =
    | Add(info: ExitInfo, health: string, persistent: bool, now: int)
    | Beat(id: string, active: int, capacity: int, now: int)
    | Remove(id: string)
    | Expire(now: int)

  predicate Fresh(e: Entry, staleFor: int, now: int) { e.persistent || now - e.heartbeat <= staleFor }

  function Beaten(e: Entry, active: int, capacity: int, now: int): Entry {
    var cap := if capacity > 0 then capacity else e.info.capacity;
    e.(heartbeat := now,
       info := e.info.(active := active, capacity := cap, heartbeatTime := now, health := HealthFor(active, cap)))
  }

  function ApplyOp(exits: Exits, staleFor: int, op: Op): Exits {
    match op
    case Add(info, health, persistent, now) =>
      exits[info.id := Entry(info.(health := health, heartbeatTime := now), now, persistent)]
    case Beat(id, active, capacity, now) =>
      if id in exits then exits[id := Beaten(exits[id], active, capacity, now)] else exits
    case Remove(id) => exits - {id}
    case Expire(now) => map id | id in exits && Fresh(exits[id], staleFor, now) :: exits[id]
  }

  function ApplyOps(exits: Exits, staleFor: int, ops: seq<Op>): Exits
    decreases |ops|
  {
    if ops == [] then exits else ApplyOps(ApplyOp(exits, staleFor, ops[0]), staleFor, ops[1..])
  }

  /** This operation is about this exit. */
  predicate Names(op: Op, id: string) {
    match op
    case Add(info, _, _, _) => info.id == id
    case Beat(x, _, _, _) => x == id
    case Remove(x) => x == id
    case Expire(_) => false
  }

  /**
   Until it is registered again, reports or is removed, an entry stays as it is if and only if it is
   fresh at every expiry, and otherwise is gone.
   */
  lemma {:induction false} EntryLastsIff(exits: Exits, staleFor: int, ops: seq<Op>, id: string)
    requires id in exits && forall op :: op in ops ==> !Names(op, id)
    ensures var after := ApplyOps(exits, staleFor, ops);
            && (id in after <==> forall op :: op in ops && op.Expire? ==> Fresh(exits[id], staleFor, op.now))
            && (id in after ==> after[id] == exits[id])
    decreases |ops|
  {
    if ops != [] {
      assert ops[0] in ops;
      assert forall op :: op in ops <==> op == ops[0] || op in ops[1..];
      var next := ApplyOp(exits, staleFor, ops[0]);
      if id in next {
        EntryLastsIff(next, staleFor, ops[1..], id);
      } else {
        StaysAway(next, staleFor, ops[1..], id);
      }
    }
  }

  lemma {:induction false} StaysAway(exits: Exits, staleFor: int, ops: seq<Op>, id: string)
    requires id !in exits && forall op :: op in ops ==> !Names(op, id)
    ensures id !in ApplyOps(exits, staleFor, ops)
    decreases |ops|
  {
    if ops != [] {
      assert ops[0] in ops;
      StaysAway(ApplyOp(exits, staleFor, ops[0]), staleFor, ops[1..], id);
    }
  }

  /**
   A report of a registered exit: the entry has the reported counts, keeps its capacity where none
   is reported, and from then on is fresh exactly until `staleFor` later. Nothing else about the
   exit changes, and no other entry does. A report of an unknown exit registers nothing.
   */
  lemma ReportIsKept(exits: Exits, staleFor: int, id: string, active: int, capacity: int, now: int, later: int)
    ensures var after := ApplyOp(exits, staleFor, Beat(id, active, capacity, now));
            && after.Keys == exits.Keys
            && (forall o :: o in exits && o != id ==> after[o] == exits[o])
            && (id in exits ==>
                  var e, was := after[id], exits[id];
                  && e.info.active == active && e.info.capacity == (if capacity > 0 then capacity else was.info.capacity)
                  && e.info == was.info.(active := e.info.active, capacity := e.info.capacity,
                                         health := e.info.health, heartbeatTime := now)
                  && e.persistent == was.persistent
                  && (Fresh(e, staleFor, later) <==> e.persistent || later <= now + staleFor))
  {
  }

  /** A registration replaces whatever was there under its ID, and is fresh exactly until `staleFor` later. */
  lemma AddIsKept(exits: Exits, staleFor: int, info: ExitInfo, health: string, persistent: bool, now: int, later: int)
    ensures var after := ApplyOp(exits, staleFor, Add(info, health, persistent, now));
            && after.Keys == exits.Keys + {info.id}
            && (forall o :: o in exits && o != info.id ==> after[o] == exits[o])
            && after[info.id].info == info.(health := health, heartbeatTime := now)
            && (Fresh(after[info.id], staleFor, later) <==> persistent || later <= now + staleFor)
  {
  }

  /** Registrations and reports as the server makes them, with counts in the moderate range. */
  predicate Sound(op: Op) {
    match op
    case Add(info, health, _, _) => health == HEALTHY && info.active == 0 && 0 < info.capacity && ModerateCapacity(info.capacity)
    case Beat(_, active, capacity, _) => ModerateActive(active) && ModerateCapacity(capacity)
    case _ => true
  }

  predicate EntryOk(e: Entry) {
    && e.info.capacity > 0 && ModerateCapacity(e.info.capacity) && ModerateActive(e.info.active)
    && e.info.health == HealthFor(e.info.active, e.info.capacity)
  }

  predicate RegistryOk(exits: Exits) {
    Keyed(exits) && forall id :: id in exits ==> EntryOk(exits[id])
  }

  lemma OpKeepsRegistry(exits: Exits, staleFor: int, op: Op)
    requires RegistryOk(exits) && Sound(op)
    ensures RegistryOk(ApplyOp(exits, staleFor, op))
  {
  }

  /** In every registry a server can reach, each entry's health is the one its counts call for. */
  lemma {:induction false} OpsKeepRegistry(exits: Exits, staleFor: int, ops: seq<Op>)
    requires RegistryOk(exits) && forall op :: op in ops ==> Sound(op)
    ensures RegistryOk(ApplyOps(exits, staleFor, ops))
    decreases |ops|
  {
    if ops != [] {
      assert ops[0] in ops;
      OpKeepsRegistry(exits, staleFor, ops[0]);
      OpsKeepRegistry(ApplyOp(exits, staleFor, ops[0]), staleFor, ops[1..]);
    }
  }

  /** Whatever is selected, in any way, ran at nine tenths of its capacity or less when it last reported. */
  lemma EligibleHasHeadroom(exits: Exits, id: string)
    requires RegistryOk(exits) && id in exits && Eligible(exits[id].info)
    ensures exits[id].info.active * 100 <= exits[id].info.capacity * 90
  {
    HealthMeaning(exits[id].info.active, exits[id].info.capacity);
  }

  // ---- the catalogue loop ----

  lemma OpsShrink(exits: Exits, staleFor: int, ops: seq<Op>)
    requires forall op :: op in ops ==> !op.Add?
    ensures ApplyOps(exits, staleFor, ops).Keys <= exits.Keys
    decreases |ops|
  {
    if ops != [] {
      assert ops[0] in ops;
      OpsShrink(ApplyOp(exits, staleFor, ops[0]), staleFor, ops[1..]);
    }
  }

  lemma SubsetSize<T>(a: set<T>, b: set<T>)
    requires a <= b
    ensures |a| <= |b| && (|a| == |b| <==> a == b)
  {
    assert b == a + (b - a);
    assert |b| == |a| + |b - a|;
  }

  /**
   `catalogLoop` compares the lengths of two snapshots. With no registration between them, the
   lengths differ if and only if the set of exits has changed.
   */
  lemma {:induction false} LengthTellsChange(before: Exits, staleFor: int, ops: seq<Op>)
    requires forall op :: op in ops ==> !op.Add?
    ensures var after := ApplyOps(before, staleFor, ops);
            |before| != |after| <==> before.Keys != after.Keys
  {
    var after := ApplyOps(before, staleFor, ops);
    OpsShrink(before, staleFor, ops);
    SubsetSize(after.Keys, before.Keys);
    assert |before.Keys| == |before| && |after.Keys| == |after|;
  }

  /**
   Whatever happened in between: the lengths agree although the set of exits has changed if and
   only if as many exits have come as have gone, and at least one has.
   */
  lemma {:induction false} LengthMissesIff(before: Exits, after: Exits)
    ensures |before| == |after| && before.Keys != after.Keys
       <==> |after.Keys - before.Keys| == |before.Keys - after.Keys| > 0
  {
    var stayed := before.Keys * after.Keys;
    assert before.Keys == stayed + (before.Keys - after.Keys);
    assert after.Keys == stayed + (after.Keys - before.Keys);
    assert |before.Keys| == |stayed| + |before.Keys - after.Keys|;
    assert |after.Keys| == |stayed| + |after.Keys - before.Keys|;
    assert |before.Keys| == |before| && |after.Keys| == |after|;
  }

  /** With a registration between them, one exit can take the place of an expired one unnoticed. */
  lemma {:induction false} LengthCanMissChange(stale: Entry, info: ExitInfo, now: int)
    requires !stale.persistent && now - stale.heartbeat > 45 && stale.info.id != info.id
    ensures var before: Exits := map[stale.info.id := stale];
            var after := ApplyOps(before, 45, [Add(info, HEALTHY, false, now), Expire(now)]);
            |before| == |after| && before.Keys != after.Keys
  {
    var before: Exits := map[stale.info.id := stale];
    var added := ApplyOp(before, 45, Add(info, HEALTHY, false, now));
    var after := ApplyOp(added, 45, Expire(now));
    assert [Add(info, HEALTHY, false, now), Expire(now)][1..] == [Expire(now)];
    assert ApplyOps(added, 45, [Expire(now)]) == after;
    assert after.Keys == {info.id};
    assert before.Keys == {stale.info.id};
    assert |before.Keys| == |before| && |after.Keys| == |after|;
  }

  // ---- snapshots ----

  predicate StrictlySorted(s: seq<ExitInfo>) {
    forall i, j :: 0 <= i < j < |s| ==> Less(s[i].id, s[j].id)
  }

  /** The sorted list of the entries under these IDs: one element a key, in ID order. */
  predicate Lists(exits: Exits, ids: set<string>, s: seq<ExitInfo>) {
    && StrictlySorted(s)
    && (forall i :: 0 <= i < |s| ==> s[i].id in ids && s[i].id in exits && exits[s[i].id].info == s[i])
    && (forall id :: id in ids && id in exits ==> exists i :: 0 <= i < |s| && s[i].id == id)
  }

  /** Two sorted lists of the same entries are the same list. */
  lemma {:induction false} ListIsUnique(exits: Exits, ids: set<string>, s: seq<ExitInfo>, t: seq<ExitInfo>)
    requires ids <= exits.Keys && Lists(exits, ids, s) && Lists(exits, ids, t)
    ensures s == t
    decreases |s|
  {
    if s == [] {
      assert ids == {};
      assert t == [];
    } else {
      assert s[0].id in ids;
      var k :| 0 <= k < |t| && t[k].id == s[0].id;
      FirstAgrees(exits, ids, s, t);
      RestLists(exits, ids, s);
      RestLists(exits, ids, t);
      ListIsUnique(exits, ids - {s[0].id}, s[1..], t[1..]);
      assert s == [s[0]] + s[1..] && t == [t[0]] + t[1..];
    }
  }

  lemma FirstAgrees(exits: Exits, ids: set<string>, s: seq<ExitInfo>, t: seq<ExitInfo>)
    requires ids <= exits.Keys && Lists(exits, ids, s) && Lists(exits, ids, t) && s != [] && t != []
    ensures s[0] == t[0]
  {
    var k :| 0 <= k < |t| && t[k].id == s[0].id;
    var j :| 0 <= j < |s| && s[j].id == t[0].id;
    if k != 0 && j != 0 {
      LessAsymmetric(t[0].id, t[k].id);
    }
  }

  lemma RestLists(exits: Exits, ids: set<string>, s: seq<ExitInfo>)
    requires ids <= exits.Keys && Lists(exits, ids, s) && s != []
    ensures Lists(exits, ids - {s[0].id}, s[1..])
  {
    forall i | 1 <= i < |s| ensures s[i].id != s[0].id {
      LessAsymmetric(s[0].id, s[i].id);
    }
    forall id | id in ids - {s[0].id} ensures exists i :: 0 <= i < |s[1..]| && s[1..][i].id == id {
      var i :| 0 <= i < |s| && s[i].id == id;
      assert s[1..][i - 1] == s[i];
    }
  }

  // ---- the registry object ----

  class Registry {
    var exits: Exits
    const staleFor: int

    constructor (staleFor: int)
      ensures exits == map[] && this.staleFor == if staleFor <= 0 then 45_000 else staleFor
    {
      exits := map[];
      this.staleFor := if staleFor <= 0 then 45_000 else staleFor;
    }

    method AddExit(info: ExitInfo, health: string, persistent: bool, now: int)
      modifies this
      ensures exits == ApplyOp(old(exits), staleFor, Add(info, health, persistent, now))
    {
      exits := exits[info.id := Entry(info.(health := health, heartbeatTime := now), now, persistent)];
    }

    method Heartbeat(id: string, active: int, capacity: int, now: int)
      modifies this
      ensures exits == ApplyOp(old(exits), staleFor, Beat(id, active, capacity, now))
    {
      if id in exits {
        var entry := exits[id].(heartbeat := now);
        var info := entry.info.(active := active, heartbeatTime := now);
        if capacity > 0 {
          info := info.(capacity := capacity);
        }
        info := info.(health := HealthFor(info.active, info.capacity));
        exits := exits[id := entry.(info := info)];
      }
    }

    method RemoveExit(id: string)
      modifies this
      ensures exits == ApplyOp(old(exits), staleFor, Remove(id))
    {
      exits := exits - {id};
    }

    /** The loop of `Expire`, in whatever order the map yields its keys. */
    method ExpireStale(now: int)
      modifies this
      ensures exits == ApplyOp(old(exits), staleFor, Expire(now))
    {
      var rest := exits.Keys;
      while rest != {}
        invariant exits.Keys <= old(exits).Keys && rest <= exits.Keys
        invariant forall id :: id in exits ==> exits[id] == old(exits)[id]
        invariant forall id :: id in exits && id !in rest ==> Fresh(exits[id], staleFor, now)
        invariant forall id :: id in old(exits) && id !in exits ==> !Fresh(old(exits)[id], staleFor, now)
        decreases rest
      {
        var id :| id in rest;
        rest := rest - {id};
        if !exits[id].persistent && now - exits[id].heartbeat > staleFor {
          exits := exits - {id};
        }
      }
    }

    /** The sort stands for sort.Slice: the loop inserts each entry at its place. */
    method Snapshot() returns (result: seq<ExitInfo>)
      requires Keyed(exits)
      ensures Lists(exits, exits.Keys, result) && |result| == |exits|
    {
      result := [];
      var rest := exits.Keys;
      while rest != {}
        invariant rest <= exits.Keys && |result| + |rest| == |exits.Keys|
        invariant Lists(exits, exits.Keys - rest, result)
        decreases rest
      {
        var id :| id in rest;
        result := Insert(exits, exits.Keys - rest, result, id);
        assert exits.Keys - rest + {id} == exits.Keys - (rest - {id});
        rest := rest - {id};
      }
      assert exits.Keys - rest == exits.Keys;
    }

    method Select(exitID: string, fallback: bool) returns (r: Result<ExitInfo>)
      requires Keyed(exits)
      ensures exitID == "" || exitID == "auto" ==>
                match r
                case Ok(info) => info.id in exits && exits[info.id].info == info && BestAmong(exits, exits.Keys, info.id)
                case Err(e) => e == NO_EXIT && forall id :: id in exits ==> !Eligible(exits[id].info)
      ensures exitID != "" && exitID != "auto" ==>
                if exitID in exits && Eligible(exits[exitID].info) then r == Ok(exits[exitID].info)
                else if !fallback then r == Err(EXIT_UNAVAILABLE)
                else match r
                     case Ok(info) => info.id in exits && exits[info.id].info == info && Eligible(info)
                     case Err(e) => e == NO_EXIT && forall id :: id in exits ==> !Eligible(exits[id].info)
    {
      if exitID == "" || exitID == "auto" {
        r := SelectAuto();
      } else if exitID !in exits || exits[exitID].info.health != HEALTHY
                || exits[exitID].info.active >= exits[exitID].info.capacity {
        if fallback {
          r := SelectAny();
        } else {
          r := Err(EXIT_UNAVAILABLE);
        }
      } else {
        r := Ok(exits[exitID].info);
      }
    }

    /** The scoring loop of `Select`. */
    method SelectAuto() returns (r: Result<ExitInfo>)
      requires Keyed(exits)
      ensures match r
              case Ok(info) => info.id in exits && exits[info.id].info == info && BestAmong(exits, exits.Keys, info.id)
              case Err(e) => e == NO_EXIT && forall id :: id in exits ==> !Eligible(exits[id].info)
    {
      r := Err(NO_EXIT);
      var score := -1;
      var done: set<string>, rest := {}, exits.Keys;
      while rest != {}
        invariant done + rest == exits.Keys && done !! rest
        invariant r.Err? ==> r.error == NO_EXIT && forall id :: id in done ==> !Eligible(exits[id].info)
        invariant r.Ok? ==> r.value.id in exits && exits[r.value.id].info == r.value && score == Score(r.value)
        invariant r.Ok? ==> BestAmong(exits, done, r.value.id)
        decreases rest
      {
        var id :| id in rest;
        var info := exits[id].info;
        if info.health == HEALTHY && info.active < info.capacity {
          var current := Score(info);
          if r.Ok? {
            KeepBetter(exits, done, r.value.id, id);
          }
          if r.Err? || current > score || (current == score && Less(info.id, r.value.id)) {
            r, score := Ok(info), current;
          }
        }
        done, rest := done + {id}, rest - {id};
      }
      assert done == exits.Keys;
    }

    method SelectAny() returns (r: Result<ExitInfo>)
      requires Keyed(exits)
      ensures match r
              case Ok(info) => info.id in exits && exits[info.id].info == info && Eligible(info)
              case Err(e) => e == NO_EXIT && forall id :: id in exits ==> !Eligible(exits[id].info)
    {
      var rest := exits.Keys;
      while rest != {}
        invariant rest <= exits.Keys && forall id :: id in exits && id !in rest ==> !Eligible(exits[id].info)
        decreases rest
      {
        var id :| id in rest;
        if exits[id].info.health == HEALTHY && exits[id].info.active < exits[id].info.capacity {
          return Ok(exits[id].info);
        }
        rest := rest - {id};
      }
      r := Err(NO_EXIT);
    }
  }

  /** Insert one more entry into a sorted list. */
  method Insert(exits: Exits, ids: set<string>, s: seq<ExitInfo>, id: string) returns (t: seq<ExitInfo>)
    requires Keyed(exits) && Lists(exits, ids, s) && ids <= exits.Keys && id in exits && id !in ids
    ensures Lists(exits, ids + {id}, t) && |t| == |s| + 1
  {
    var k := 0;
    while k < |s| && Less(s[k].id, id)
      invariant k <= |s| && forall i :: 0 <= i < k ==> Less(s[i].id, id)
    {
      k := k + 1;
    }
    t := s[..k] + [exits[id].info] + s[k..];
    InsertKeeps(exits, ids, s, id, k);
  }

  lemma {:induction false} InsertSorts(s: seq<ExitInfo>, x: ExitInfo, k: nat)
    requires StrictlySorted(s) && k <= |s| && (forall i :: 0 <= i < |s| ==> s[i].id != x.id)
    requires (forall i :: 0 <= i < k ==> Less(s[i].id, x.id)) && (k < |s| ==> !Less(s[k].id, x.id))
    ensures StrictlySorted(s[..k] + [x] + s[k..])
  {
    forall i | k <= i < |s| ensures Less(x.id, s[i].id) {
      LessTotal(s[k].id, x.id);
      if i > k {
        LessTransitive(x.id, s[k].id, s[i].id);
      }
    }
  }

  lemma {:induction false} InsertKeeps(exits: Exits, ids: set<string>, s: seq<ExitInfo>, id: string, k: nat)
    requires Keyed(exits) && Lists(exits, ids, s) && ids <= exits.Keys && id in exits && id !in ids && k <= |s|
    requires (forall i :: 0 <= i < k ==> Less(s[i].id, id)) && (k < |s| ==> !Less(s[k].id, id))
    ensures Lists(exits, ids + {id}, s[..k] + [exits[id].info] + s[k..])
  {
    var t := s[..k] + [exits[id].info] + s[k..];
    InsertSorts(s, exits[id].info, k);
    InsertMembers(exits, ids, s, id, k, t);
  }

  lemma {:induction false} InsertMembers(exits: Exits, ids: set<string>, s: seq<ExitInfo>, id: string, k: nat, t: seq<ExitInfo>)
    requires Keyed(exits) && id in exits && k <= |s| && t == s[..k] + [exits[id].info] + s[k..]
    requires forall i :: 0 <= i < |s| ==> s[i].id in ids && s[i].id in exits && exits[s[i].id].info == s[i]
    requires forall o :: o in ids && o in exits ==> exists i :: 0 <= i < |s| && s[i].id == o
    ensures forall i :: 0 <= i < |t| ==> t[i].id in ids + {id} && t[i].id in exits && exits[t[i].id].info == t[i]
    ensures forall o :: o in ids + {id} && o in exits ==> exists i :: 0 <= i < |t| && t[i].id == o
  {
    forall o | o in ids + {id} && o in exits ensures exists i :: 0 <= i < |t| && t[i].id == o {
      if o == id {
        assert t[k].id == o;
      } else {
        var i :| 0 <= i < |s| && s[i].id == o;
        assert t[if i < k then i else i + 1] == s[i];
      }
    }
  }
}
