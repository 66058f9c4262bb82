/**
 The authentication rate limiter of internal/auth/auth.go. Time is a clock reading in whole
 ticks; 0 is the zero time that marks an unset field.
 */
module RateLimiter {
  import opened Common

  datatype Attempt = Attempt(count: nat, windowStart: int, blockedTill: int)

  const NOTHING := Attempt(0, 0, 0)

  type Attempts = map<string, Attempt>

  datatype Limits = Limits(limit: int, window: int, blockFor: int)

  function Record(m: Attempts, key: string): Attempt { if key in m then m[key] else NOTHING }

  predicate Expired(l: Limits, a: Attempt, now: int) { a.windowStart == 0 || now - a.windowStart > l.window }

  predicate Blocked(m: Attempts, key: string, now: int) { now < Record(m, key).blockedTill }

  function AfterCheck(l: Limits, m: Attempts, key: string, now: int): Attempts {
    if !Blocked(m, key, now) && Expired(l, Record(m, key), now) then m - {key} else m
  }

  function Failed(l: Limits, a: Attempt, now: int): Attempt {
    var b := if Expired(l, a, now) then Attempt(0, now, 0) else a;
    var c := b.(count := b.count + 1);
    if c.count >= l.limit then c.(blockedTill := now + l.blockFor) else c
  }

  function AfterFail(l: Limits, m: Attempts, key: string, now: int): Attempts {
    m[key := Failed(l, Record(m, key), now)]
  }

  class Limiter {
    const limits: Limits
    var attempts: Attempts

    constructor (limit: int, window: int, blockFor: int)
      ensures limits == Limits(limit, window, blockFor) && attempts == map[]
    {
      limits, attempts := Limits(limit, window, blockFor), map[];
    }

    method Allowed(key: string, now: int) returns (ok: bool)
      modifies this
      ensures ok == !Blocked(old(attempts), key, now)
      ensures ok <==> Record(old(attempts), key).blockedTill <= now
      ensures attempts == AfterCheck(limits, old(attempts), key, now)
    {
      var state := if key in attempts then attempts[key] else NOTHING;
      if now < state.blockedTill {
        return false;
      }
      if state.windowStart == 0 || now - state.windowStart > limits.window {
        attempts := attempts - {key};
      }
      return true;
    }

    method Fail(key: string, now: int)
      modifies this
      ensures attempts == AfterFail(limits, old(attempts), key, now)
    {
      var state := if key in attempts then attempts[key] else NOTHING;
      if state.windowStart == 0 || now - state.windowStart > limits.window {
        state := Attempt(0, now, 0);
      }
      state := state.(count := state.count + 1);
      if state.count >= limits.limit {
        state := state.(blockedTill := now + limits.blockFor);
      }
      attempts := attempts[key := state];
    }

    method Success(key: string)
      modifies this
      ensures attempts == old(attempts) - {key}
    {
      attempts := attempts - {key};
    }
  }

  // ---- runs ----

  datatype Event = Check(key: string, at: int) | Fail(key: string, at: int) | Success(key: string, at: int)

  function After(l: Limits, trace: seq<Event>): Attempts {
    if trace == [] then map[]
    else
      var m := After(l, trace[..|trace| - 1]);
      match trace[|trace| - 1]
      case Check(key, at) => AfterCheck(l, m, key, at)
      case Fail(key, at) => AfterFail(l, m, key, at)
      case Success(key, _) => m - {key}
  }

  /** The clock is set and does not run backwards. */
  predicate Clocked(trace: seq<Event>) {
    && (forall i :: 0 <= i < |trace| ==> trace[i].at > 0)
    && (forall i, j :: 0 <= i < j < |trace| ==> trace[i].at <= trace[j].at)
  }

  /** The failures of a key recorded in a span of time, since it last succeeded. */
  function Failures(trace: seq<Event>, key: string, from: int, to: int): nat {
    if trace == [] then 0
    else
      var e := trace[|trace| - 1];
      if e.Success? && e.key == key then 0
      else Failures(trace[..|trace| - 1], key, from, to) + (if e.Fail? && e.key == key && from <= e.at <= to then 1 else 0)
  }

  lemma Init(trace: seq<Event>)
    requires trace != [] && Clocked(trace)
    ensures Clocked(trace[..|trace| - 1])
    ensures forall i :: 0 <= i < |trace| ==> trace[i].at <= trace[|trace| - 1].at
  {
  }

  /** What the record of a key says is backed by failures in one window, whatever else happened. */
  lemma {:induction false} RecordIsBacked(l: Limits, trace: seq<Event>, key: string)
    requires l.window >= 0 && Clocked(trace)
    ensures var a := Record(After(l, trace), key);
            && (key in After(l, trace) ==> a.windowStart > 0)
            && a.count <= Failures(trace, key, a.windowStart, a.windowStart + l.window)
            && (a.blockedTill != 0 ==> a.count >= l.limit && a.count >= 1)
            && (trace == [] || a.windowStart <= trace[|trace| - 1].at)
  {
    if trace != [] {
      Init(trace);
      RecordIsBacked(l, trace[..|trace| - 1], key);
    }
  }

  /** A key is refused only after `limit` failures within one window, which starts at `from`, and no success since. */
  lemma {:induction false} NeverBlockedEarly(l: Limits, trace: seq<Event>, key: string, now: int) returns (from: int)
    requires l.window >= 0 && Clocked(trace) && now > 0 && Blocked(After(l, trace), key, now)
    ensures 0 < from && Failures(trace, key, from, from + l.window) >= Max(l.limit, 1)
  {
    RecordIsBacked(l, trace, key);
    from := Record(After(l, trace), key).windowStart;
  }

  // ---- when a key is refused ----

  /** The window that the last failure of a key was counted in, its failures, and the last of them. */
  datatype Tally = Tally(start: int, count: nat, last: int)

  /** Counting without ever forgetting: what `Allowed` deletes makes no difference. */
  function TallyOf(l: Limits, trace: seq<Event>, key: string): Tally {
    if trace == [] then Tally(0, 0, 0)
    else
      var e := trace[|trace| - 1];
      var t := TallyOf(l, trace[..|trace| - 1], key);
      if e.key != key || e.Check? then t
      else if e.Success? then Tally(0, 0, 0)
      else if t.count == 0 || e.at - t.start > l.window then Tally(e.at, 1, e.at)
      else t.(count := t.count + 1, last := e.at)
  }

  /** The record of a key is its tally, or has been deleted when it no longer mattered. */
  predicate Tallied(l: Limits, m: Attempts, key: string, t: Tally, now: int) {
    if key in m then
      && t.count > 0 && t.start > 0
      && m[key] == Attempt(t.count, t.start, if t.count >= l.limit then t.last + l.blockFor else 0)
    else t.count > 0 ==> now - t.start > l.window && (t.count >= l.limit ==> now >= t.last + l.blockFor)
  }

  lemma {:induction false} RunKeepsTally(l: Limits, trace: seq<Event>, key: string)
    requires Clocked(trace)
    ensures Tallied(l, After(l, trace), key, TallyOf(l, trace, key), if trace == [] then 0 else trace[|trace| - 1].at)
  {
    if trace != [] {
      Init(trace);
      RunKeepsTally(l, trace[..|trace| - 1], key);
    }
  }

  /** `now` is a time after the trace. */
  predicate Later(trace: seq<Event>, now: int) { now > 0 && (trace != [] ==> trace[|trace| - 1].at <= now) }

  /**
   After every run, a key is refused if and only if the window of its last failure has reached the
   limit and that failure is less than `blockFor` ago. Checks do not matter.
   */
  lemma {:induction false} RefusedIff(l: Limits, trace: seq<Event>, key: string, now: int)
    requires Clocked(trace) && Later(trace, now)
    ensures var t := TallyOf(l, trace, key);
            Blocked(After(l, trace), key, now) <==> t.count >= Max(l.limit, 1) && now < t.last + l.blockFor
  {
    RunKeepsTally(l, trace, key);
  }

  /** The failure that a tally ends with, and no success behind it. */
  lemma {:induction false} LastFailure(l: Limits, trace: seq<Event>, key: string) returns (i: nat)
    requires TallyOf(l, trace, key).count > 0
    ensures i < |trace| && trace[i] == Fail(key, TallyOf(l, trace, key).last)
    ensures forall j :: i < j < |trace| && trace[j].key == key ==> trace[j].Check?
  {
    i := |trace| - 1;
    if !(trace[i].key == key && trace[i].Fail?) {
      i := LastFailure(l, trace[..i], key);
    }
  }

  /**
   Blocks end: a key that is refused has failed less than `blockFor` ago, and has neither failed
   nor succeeded since. So a key that has not failed for that long is let through.
   */
  lemma {:induction false} BlocksEnd(l: Limits, trace: seq<Event>, key: string, now: int) returns (i: nat)
    requires Clocked(trace) && Later(trace, now) && Blocked(After(l, trace), key, now)
    ensures i < |trace| && trace[i].Fail? && trace[i].key == key && trace[i].at <= now < trace[i].at + l.blockFor
    ensures forall j :: i < j < |trace| && trace[j].key == key ==> trace[j].Check?
  {
    RefusedIff(l, trace, key, now);
    i := LastFailure(l, trace, key);
  }

  lemma {:induction false} QuietKeyIsLetThrough(l: Limits, trace: seq<Event>, key: string, now: int)
    requires Clocked(trace) && Later(trace, now)
    requires forall i :: 0 <= i < |trace| && trace[i].Fail? && trace[i].key == key ==> trace[i].at + l.blockFor <= now
    ensures !Blocked(After(l, trace), key, now)
  {
    if Blocked(After(l, trace), key, now) {
      var i := BlocksEnd(l, trace, key, now);
    }
  }

  /**
   What lifts a block before its time: while a key is refused, the next event leaves it refused if
   and only if it is not a success of the key and not a failure of it behind the end of the window.
   Such a failure, of an attempt let through before, starts a new window and forgets the block; only
   with a limit of one does it block again.
   */
  lemma {:induction false} BlockLiftedIff(l: Limits, trace: seq<Event>, e: Event, key: string)
    requires Clocked(trace + [e]) && Blocked(After(l, trace), key, e.at)
    ensures Blocked(After(l, trace + [e]), key, e.at)
            <==> !(e.key == key && (e.Success? || (e.Fail? && l.limit > 1 && e.at - TallyOf(l, trace, key).start > l.window)))
  {
    var all := trace + [e];
    Init(all);
    assert all[..|all| - 1] == trace;
    assert Later(trace, e.at) && Later(all, e.at);
    RefusedIff(l, trace, key, e.at);
    RefusedIff(l, all, key, e.at);
    var i := LastFailure(l, trace, key);
    assert all[i] == trace[i];
  }

  lemma FailTallies(l: Limits, trace: seq<Event>, key: string, at: int)
    ensures var t := TallyOf(l, trace, key);
            TallyOf(l, trace + [Fail(key, at)], key)
              == if t.count == 0 || at - t.start > l.window then Tally(at, 1, at) else Tally(t.start, t.count + 1, at)
  {
    assert (trace + [Fail(key, at)])[..|trace|] == trace;
  }

  lemma {:induction false} ChecksTallyNothing(l: Limits, key: string, at: int, n: nat)
    ensures TallyOf(l, seq(n, i => Check(key, at)), key) == Tally(0, 0, 0)
  {
    if n > 0 {
      assert seq(n, i => Check(key, at))[..n - 1] == seq(n - 1, i => Check(key, at));
      ChecksTallyNothing(l, key, at, n - 1);
    }
  }

  /**
   It happens with the limits of the server: six attempts are let through together, five failures
   block the key until 80, and the sixth, at 65, lets it through again.
   */
  lemma {:induction false} LateFailureLiftsBlock(key: string) returns (trace: seq<Event>)
    ensures var l, all := Limits(5, 60, 30), trace + [Fail(key, 65)];
            && Clocked(all) && Blocked(After(l, trace), key, 65) && Blocked(After(l, trace), key, 79)
            && !Blocked(After(l, all), key, 65)
    ensures forall i :: 0 <= i < |trace| && trace[i].Check? ==> !Blocked(After(Limits(5, 60, 30), trace[..i]), key, trace[i].at)
  {
    var l, checks := Limits(5, 60, 30), seq(6, i => Check(key, 1));
    var t1 := checks + [Fail(key, 1)];
    var t2 := t1 + [Fail(key, 50)];
    var t3 := t2 + [Fail(key, 50)];
    var t4 := t3 + [Fail(key, 50)];
    trace := t4 + [Fail(key, 50)];
    ChecksTallyNothing(l, key, 1, 6);
    FailTallies(l, checks, key, 1);
    FailTallies(l, t1, key, 50);
    FailTallies(l, t2, key, 50);
    FailTallies(l, t3, key, 50);
    FailTallies(l, t4, key, 50);
    assert TallyOf(l, trace, key) == Tally(1, 5, 50);
    RefusedIff(l, trace, key, 65);
    RefusedIff(l, trace, key, 79);
    BlockLiftedIff(l, trace, Fail(key, 65), key);
    forall i | 0 <= i < |trace| && trace[i].Check? ensures !Blocked(After(l, trace[..i]), key, trace[i].at) {
      assert trace[..i] == seq(i, j => Check(key, 1));
      ChecksChangeNothing(l, key, 1, i);
    }
  }

  // ---- how many failures a run can record ----

  /**
   The attempts of a key that have been let through and have not failed yet, up to `c` of them: where
   `c` are under way, another check means that one of them has ended without a verdict.
   */
  function InFlight(l: Limits, trace: seq<Event>, key: string, c: nat): nat {
    if trace == [] then 0
    else
      var e := trace[|trace| - 1];
      var before := trace[..|trace| - 1];
      var f := InFlight(l, before, key, c);
      if e.key != key then f
      else if e.Check? && !Blocked(After(l, before), key, e.at) then Min(f + 1, c)
      else if e.Fail? && f > 0 then f - 1
      else f
  }

  /** At most `c` attempts of the key are under way at a time, only those fail, and none succeeds. */
  predicate Orderly(l: Limits, trace: seq<Event>, key: string, c: nat) {
    trace == [] ||
    var e := trace[|trace| - 1];
    var before := trace[..|trace| - 1];
    && Orderly(l, before, key, c)
    && (e.key == key ==> !e.Success? && (e.Fail? ==> InFlight(l, before, key, c) > 0))
  }

  lemma {:induction false} InFlightBounded(l: Limits, trace: seq<Event>, key: string, c: nat)
    ensures InFlight(l, trace, key, c) <= c
  {
    if trace != [] {
      InFlightBounded(l, trace[..|trace| - 1], key, c);
    }
  }

  /**
   History of one key: failures in all, windows opened, and of the current window its start, its
   failures and the last of them. Failures from the limit on come in rounds: attempts that were let
   through together, a block apart from those before. `rounds` counts the earlier rounds, `round`
   the failures of this one.
   */
  datatype History = History(total: nat, windows: nat, start: int, cur: nat, last: int, rounds: nat, round: nat)

  /** A failure in a window that is still open; `free` says that the block of the last one is over. */
  function FailAgain(l: Limits, h: History, at: int, free: bool): History {
    if h.cur + 1 < Max(l.limit, 1) then h.(total := h.total + 1, cur := h.cur + 1, last := at)
    else if h.cur < Max(l.limit, 1) then h.(total := h.total + 1, cur := h.cur + 1, last := at, rounds := 0, round := 1)
    else if free then h.(total := h.total + 1, cur := h.cur + 1, last := at, rounds := h.rounds + 1, round := 1)
    else h.(total := h.total + 1, cur := h.cur + 1, last := at, round := h.round + 1)
  }

  function FailFirst(l: Limits, h: History, at: int): History {
    History(h.total + 1, h.windows + 1, at, 1, at, 0, if l.limit <= 1 then 1 else 0)
  }

  function HistoryOf(l: Limits, trace: seq<Event>, key: string): History {
    if trace == [] then History(0, 0, 0, 0, 0, 0, 0)
    else
      var e := trace[|trace| - 1];
      var before := trace[..|trace| - 1];
      var h := HistoryOf(l, before, key);
      if !e.Fail? || e.key != key then h
      else if Expired(l, Record(After(l, before), key), e.at) then FailFirst(l, h, e.at)
      else FailAgain(l, h, e.at, e.at >= h.last + l.blockFor)
  }

  /** The most failures one window can hold. */
  function PerWindow(l: Limits, c: nat): int
    requires l.blockFor > 0
  {
    Max(l.limit, 1) - 1 + c * (l.window / l.blockFor + 1)
  }

  predicate Sane(l: Limits) { l.window > 0 && l.blockFor > 0 }

  /** The current window: its failures up to the limit, and behind it in rounds of at most `c`. */
  predicate WindowOk(l: Limits, h: History, c: nat, flight: nat, now: int) {
    var m := Max(l.limit, 1);
    && 1 <= h.cur
    && (h.cur >= m ==>
          && 1 <= h.round <= c
          && h.cur <= m - 1 + c * h.rounds + h.round
          && h.last >= h.start + h.rounds * l.blockFor
          && (flight + h.round <= c || now >= h.last + l.blockFor))
  }

  /** `now` is the time of the last event, `first` that of the first, `flight` the attempts under way. */
  predicate HistoryOk(l: Limits, h: History, a: Attempt, c: nat, flight: nat, first: int, now: int)
    requires Sane(l)
  {
    && flight <= c
    && (h.windows == 0 ==> h.total == 0 && a == NOTHING)
    && (h.windows > 0 ==>
          && 0 < first <= h.start <= h.last <= h.start + l.window && h.last <= now
          && h.start >= first + (h.windows - 1) * (l.window + 1)
          && WindowOk(l, h, c, flight, now)
          && h.total <= (h.windows - 1) * PerWindow(l, c) + h.cur
          && (if a == NOTHING then now - h.start > l.window && (h.cur >= l.limit ==> now >= h.last + l.blockFor)
              else && a.windowStart == h.start && a.count == h.cur
                   && a.blockedTill == (if h.cur >= l.limit then h.last + l.blockFor else 0)))
  }

  lemma DivBound(k: nat, b: int, w: int)
    requires b > 0 && k * b <= w
    ensures k <= w / b
  {
    var q := w / b;
    assert w == q * b + w % b;
    assert k > q ==> k * b >= (q + 1) * b;
  }

  lemma MulMonotone(a: int, b: int, c: int)
    requires a <= b && c >= 0
    ensures a * c <= b * c
  {
  }

  lemma {:induction false} WindowIsFull(l: Limits, h: History, c: nat, flight: nat, now: int)
    requires Sane(l) && c > 0 && h.last <= h.start + l.window && WindowOk(l, h, c, flight, now)
    ensures h.cur <= PerWindow(l, c)
  {
    var q := l.window / l.blockFor;
    if h.cur >= Max(l.limit, 1) {
      DivBound(h.rounds, l.blockFor, l.window);
      MulMonotone(h.rounds, q, c);
      assert c * (q + 1) == c * q + c;
    } else {
      DivBound(0, l.blockFor, l.window);
      MulMonotone(0, q + 1, c);
    }
  }

  /** A failure in a window that is still open. */
  lemma {:induction false} SameWindow(l: Limits, h: History, a: Attempt, c: nat, flight: nat, first: int, now: int, at: int)
    requires Sane(l) && HistoryOk(l, h, a, c, flight, first, now) && flight > 0 && now <= at && !Expired(l, a, at)
    ensures HistoryOk(l, FailAgain(l, h, at, at >= h.last + l.blockFor), Failed(l, a, at), c, flight - 1, first, at)
  {
    RoundGoesOn(l, h, c, flight, now, at);
  }

  lemma {:induction false} RoundGoesOn(l: Limits, h: History, c: nat, flight: nat, now: int, at: int)
    requires Sane(l) && WindowOk(l, h, c, flight, now) && 0 < flight <= c && h.last <= now <= at && h.start <= h.last
    ensures WindowOk(l, FailAgain(l, h, at, at >= h.last + l.blockFor), c, flight - 1, at)
  {
    if h.cur >= Max(l.limit, 1) && at >= h.last + l.blockFor {
      assert c * (h.rounds + 1) == c * h.rounds + c;
      assert (h.rounds + 1) * l.blockFor == h.rounds * l.blockFor + l.blockFor;
    }
  }

  lemma OneMore(k: int, x: int)
    ensures (k - 1) * x + x == k * x
  {
  }

  /** A failure that opens a window. */
  lemma {:induction false} NewWindow(l: Limits, h: History, a: Attempt, c: nat, flight: nat, first: int, now: int, at: int)
    requires Sane(l) && HistoryOk(l, h, a, c, flight, first, now) && flight > 0 && 0 < first <= now <= at && Expired(l, a, at)
    ensures HistoryOk(l, FailFirst(l, h, at), Failed(l, a, at), c, flight - 1, first, at)
  {
    if h.windows > 0 {
      assert at - h.start > l.window;
      WindowIsFull(l, h, c, flight, now);
      OneMore(h.windows, l.window + 1);
      OneMore(h.windows, PerWindow(l, c));
    }
  }

  lemma {:induction false} OtherEvent(l: Limits, h: History, a: Attempt, c: nat, flight: nat, first: int, now: int, at: int)
    requires Sane(l) && HistoryOk(l, h, a, c, flight, first, now) && now <= at
    ensures HistoryOk(l, h, a, c, flight, first, at)
  {
  }

  /** A check that lets an attempt through comes when the block of the last failure is over. */
  lemma CheckEvent(l: Limits, h: History, a: Attempt, c: nat, flight: nat, first: int, now: int, at: int)
    requires Sane(l) && HistoryOk(l, h, a, c, flight, first, now) && 0 < first <= now <= at && at >= a.blockedTill
    ensures HistoryOk(l, h, if Expired(l, a, at) then NOTHING else a, c, Min(flight + 1, c), first, at)
  {
    if h.windows > 0 {
      assert h.cur >= l.limit ==> at >= h.last + l.blockFor;
      assert WindowOk(l, h, c, Min(flight + 1, c), at);
    }
  }

  /** The history of a key is consistent with its record after every orderly run. */
  lemma {:induction false} RunKeepsHistory(l: Limits, trace: seq<Event>, key: string, c: nat)
    requires Sane(l) && Clocked(trace) && trace != [] && Orderly(l, trace, key, c)
    ensures HistoryOk(l, HistoryOf(l, trace, key), Record(After(l, trace), key), c, InFlight(l, trace, key, c),
                      trace[0].at, trace[|trace| - 1].at)
  {
    var n := |trace| - 1;
    var e, before := trace[n], trace[..n];
    Init(trace);
    var h, a, flight := HistoryOf(l, before, key), Record(After(l, before), key), InFlight(l, before, key, c);
    var first := trace[0].at;
    var now := if before == [] then e.at else before[n - 1].at;
    if before == [] {
      assert HistoryOk(l, h, a, c, flight, first, now);
    } else {
      RunKeepsHistory(l, before, key, c);
      assert before[0] == trace[0];
    }
    ExtendHistory(l, trace, key, h, a, c, flight, first, now);
  }

  lemma {:induction false} ExtendHistory(
    l: Limits, trace: seq<Event>, key: string, h: History, a: Attempt, c: nat, flight: nat, first: int, now: int)
    requires Sane(l) && trace != [] && Orderly(l, trace, key, c)
    requires var e, before := trace[|trace| - 1], trace[..|trace| - 1];
             && h == HistoryOf(l, before, key) && a == Record(After(l, before), key) && flight == InFlight(l, before, key, c)
             && HistoryOk(l, h, a, c, flight, first, now) && 0 < first <= now <= e.at
    ensures HistoryOk(l, HistoryOf(l, trace, key), Record(After(l, trace), key), c, InFlight(l, trace, key, c),
                      first, trace[|trace| - 1].at)
  {
    var e := trace[|trace| - 1];
    if e.key != key {
      OtherEvent(l, h, a, c, flight, first, now, e.at);
    } else if e.Fail? {
      if Expired(l, a, e.at) {
        NewWindow(l, h, a, c, flight, first, now, e.at);
      } else {
        SameWindow(l, h, a, c, flight, first, now, e.at);
      }
    } else if e.at < a.blockedTill {
      OtherEvent(l, h, a, c, flight, first, now, e.at);
    } else {
      CheckEvent(l, h, a, c, flight, first, now, e.at);
    }
  }

  /** The failures of the key in the whole run. */
  function Total(trace: seq<Event>, key: string): nat {
    if trace == [] then 0
    else Total(trace[..|trace| - 1], key) + (if trace[|trace| - 1].Fail? && trace[|trace| - 1].key == key then 1 else 0)
  }

  lemma {:induction false} HistoryCounts(l: Limits, trace: seq<Event>, key: string)
    ensures HistoryOf(l, trace, key).total == Total(trace, key)
  {
    if trace != [] {
      HistoryCounts(l, trace[..|trace| - 1], key);
    }
  }

  /**
   However long the run and whatever other keys do: a key with at most `c` attempts under way at a
   time, none of which succeeds, records at most this many failures. With one at a time, `PerWindow`
   is the limit and one more for each block that fits in a window.
   */
  lemma {:induction false} FailuresAreBounded(l: Limits, trace: seq<Event>, key: string, c: nat)
    requires Sane(l) && Clocked(trace) && trace != [] && Orderly(l, trace, key, c)
    ensures var span := trace[|trace| - 1].at - trace[0].at;
            Total(trace, key) <= (span / (l.window + 1) + 1) * PerWindow(l, c)
    ensures PerWindow(l, 1) == Max(l.limit, 1) + l.window / l.blockFor
  {
    RunKeepsHistory(l, trace, key, c);
    HistoryCounts(l, trace, key);
    Init(trace);
    var h, flight, now := HistoryOf(l, trace, key), InFlight(l, trace, key, c), trace[|trace| - 1].at;
    var span := now - trace[0].at;
    DivBound(0, l.blockFor, l.window);
    DivBound(0, l.window + 1, span);
    MulMonotone(0, c, l.window / l.blockFor + 1);
    if h.windows > 0 {
      SomeFlight(l, trace, key, c);
      WindowIsFull(l, h, c, flight, now);
      DivBound(h.windows - 1, l.window + 1, span);
      assert (h.windows - 1) * PerWindow(l, c) + PerWindow(l, c) == h.windows * PerWindow(l, c);
      MulMonotone(h.windows, span / (l.window + 1) + 1, PerWindow(l, c));
    } else {
      MulMonotone(0, span / (l.window + 1) + 1, PerWindow(l, c));
    }
  }

  /** Nothing fails where no attempt can be under way. */
  lemma {:induction false} SomeFlight(l: Limits, trace: seq<Event>, key: string, c: nat)
    requires Orderly(l, trace, key, c) && HistoryOf(l, trace, key).windows > 0
    ensures c > 0
  {
    var before := trace[..|trace| - 1];
    InFlightBounded(l, before, key, c);
    if HistoryOf(l, before, key).windows > 0 {
      SomeFlight(l, before, key, c);
    }
  }

  // ---- attempts that overlap ----

  /** `n` attempts that all pass their check before the first of them fails. */
  function Overlapping(key: string, at: int, n: nat): seq<Event> {
    seq(n, i => Check(key, at)) + seq(n, i => Fail(key, at))
  }

  lemma {:induction false} ChecksChangeNothing(l: Limits, key: string, at: int, n: nat)
    ensures After(l, seq(n, i => Check(key, at))) == map[]
    ensures Total(seq(n, i => Check(key, at)), key) == 0
  {
    if n > 0 {
      var trace := seq(n, i => Check(key, at));
      assert trace[..n - 1] == seq(n - 1, i => Check(key, at));
      ChecksChangeNothing(l, key, at, n - 1);
    }
  }

  lemma {:induction false} FailsAllCount(checks: seq<Event>, key: string, at: int, n: nat)
    ensures Total(checks + seq(n, i => Fail(key, at)), key) == Total(checks, key) + n
  {
    var trace := checks + seq(n, i => Fail(key, at));
    if n == 0 {
      assert trace == checks;
    } else {
      assert trace[..|trace| - 1] == checks + seq(n - 1, i => Fail(key, at));
      FailsAllCount(checks, key, at, n - 1);
    }
  }

  lemma {:induction false} OverlapFlight(l: Limits, key: string, at: int, n: nat, i: nat)
    requires at > 0 && i <= 2 * n
    ensures var trace := Overlapping(key, at, n)[..i];
            Orderly(l, trace, key, n) && InFlight(l, trace, key, n) == if i <= n then i else 2 * n - i
  {
    var all := Overlapping(key, at, n);
    var trace := all[..i];
    if i > 0 {
      OverlapFlight(l, key, at, n, i - 1);
      assert trace[..i - 1] == all[..i - 1] && trace[i - 1] == all[i - 1];
      if i <= n {
        assert all[..i - 1] == seq(i - 1, j => Check(key, at));
        ChecksChangeNothing(l, key, at, i - 1);
      }
    }
  }

  /**
   Without a limit on how many attempts overlap there is no bound: with `n` under way, `n` failures
   in a single instant.
   */
  lemma {:induction false} OverlapIsUnbounded(l: Limits, key: string, at: int, n: nat)
    requires at > 0
    ensures var trace := Overlapping(key, at, n);
            && Clocked(trace) && Total(trace, key) == n && Orderly(l, trace, key, n)
            && forall i :: 0 <= i < n ==> trace[i] == Check(key, at) && !Blocked(After(l, trace[..i]), key, at)
  {
    var trace := Overlapping(key, at, n);
    OverlapFlight(l, key, at, n, 2 * n);
    assert trace[..2 * n] == trace;
    ChecksChangeNothing(l, key, at, n);
    FailsAllCount(seq(n, i => Check(key, at)), key, at, n);
    forall i | 0 <= i < n ensures trace[i] == Check(key, at) && !Blocked(After(l, trace[..i]), key, at) {
      assert trace[..i] == seq(i, _ => Check(key, at));
      ChecksChangeNothing(l, key, at, i);
      assert seq(i, _ => Check(key, at)) == seq(i, j => Check(key, at));
    }
  }
}
