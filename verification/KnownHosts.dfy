/**
 Trust on first use: internal/transport/knownhosts.go and the verification callback that
 `ClientTLSConfig` installs (internal/transport/conn.go).
 */
module KnownHosts {
  import opened Common

  // ---- fingerprints ----

  predicate White(c: char) { c == ' ' || '\t' <= c <= '\r' }

  function TrimLeft(s: string): string { if s != [] && White(s[0]) then TrimLeft(s[1..]) else s }

  function TrimRight(s: string): string
  {
    if s != [] && White(s[|s| - 1]) then TrimRight(s[..|s| - 1]) else s
  }

  function Upper(c: char): char { if 'a' <= c <= 'z' then (c as int - 32) as char else c }

  /** Upper case, without blanks, and with colons for dashes. */
  function Rewrite(s: string): string {
    if s == [] then []
    else (if s[0] == ' ' then [] else if s[0] == '-' then [':'] else [Upper(s[0])]) + Rewrite(s[1..])
  }

  function Normalize(s: string): string { Rewrite(TrimRight(TrimLeft(s))) }

  predicate EqualFingerprint(a: string, b: string) { Normalize(a) == Normalize(b) }

  /** A character that normalisation leaves alone. */
  predicate Plain(c: char) { c != ' ' && c != '-' && !('a' <= c <= 'z') }

  predicate AllPlain(s: string) { forall i :: 0 <= i < |s| ==> Plain(s[i]) }

  lemma {:induction false} RewriteIsPlain(s: string)
    ensures AllPlain(Rewrite(s))
  {
    if s != [] {
      RewriteIsPlain(s[1..]);
    }
  }

  lemma {:induction false} RewriteKeepsPlain(s: string)
    requires AllPlain(s)
    ensures Rewrite(s) == s
  {
    if s != [] {
      RewriteKeepsPlain(s[1..]);
    }
  }

  /** No white space at either end. */
  predicate Tight(s: string) { s == [] || (!White(s[0]) && !White(s[|s| - 1])) }

  lemma {:induction false} TrimLeftTight(s: string)
    ensures TrimLeft(s) == [] || !White(TrimLeft(s)[0])
  {
    if s != [] && White(s[0]) {
      TrimLeftTight(s[1..]);
    }
  }

  lemma {:induction false} TrimRightTight(s: string)
    requires s == [] || !White(s[0])
    ensures Tight(TrimRight(s))
  {
    if s != [] && White(s[|s| - 1]) {
      TrimRightTight(s[..|s| - 1]);
    }
  }

  lemma TrimKeepsTight(s: string)
    requires Tight(s)
    ensures TrimRight(TrimLeft(s)) == s
  {
  }

  lemma {:induction false} RewriteAppend(a: string, b: string)
    ensures Rewrite(a + b) == Rewrite(a) + Rewrite(b)
  {
    if a == [] {
      assert a + b == b;
    } else {
      FirstOfConcat(a, b);
      RewriteAppend(a[1..], b);
    }
  }

  /** The ends of a tight string survive rewriting, so the result is tight as well. */
  lemma {:induction false} RewriteTight(s: string)
    requires Tight(s)
    ensures Tight(Rewrite(s))
    ensures s != [] ==> Rewrite(s) != []
  {
    if s != [] {
      var n := |s| - 1;
      assert s == s[..n] + [s[n]];
      RewriteAppend(s[..n], [s[n]]);
      assert Rewrite([s[n]]) == (if s[n] == '-' then [':'] else [Upper(s[n])]) + Rewrite([]);
      assert Rewrite(s)[0] == if s[0] == '-' then ':' else Upper(s[0]);
    }
  }

  /** Normalisation is idempotent. */
  lemma {:induction false} NormalizeIdempotent(s: string)
    ensures Normalize(Normalize(s)) == Normalize(s)
  {
    var t := TrimRight(TrimLeft(s));
    TrimLeftTight(s);
    TrimRightTight(TrimLeft(s));
    RewriteTight(t);
    RewriteIsPlain(t);
    TrimKeepsTight(Rewrite(t));
    RewriteKeepsPlain(Rewrite(t));
  }

  /** Equality of fingerprints is an equivalence, and each is equal to its normal form. */
  lemma {:induction false} EqualIsEquivalence(a: string, b: string, c: string)
    ensures EqualFingerprint(a, a)
    ensures EqualFingerprint(a, b) ==> EqualFingerprint(b, a)
    ensures EqualFingerprint(a, b) && EqualFingerprint(b, c) ==> EqualFingerprint(a, c)
    ensures EqualFingerprint(a, Normalize(a))
  {
    NormalizeIdempotent(a);
  }

  // ---- which spellings are equal ----

  /** A character as a user may type it for one of a fingerprint. */
  predicate Types(c: char, d: char) { c == d || (c == '-' && d == ':') || ('a' <= c <= 'z' && d as int == c as int - 32) }

  /** A text spells a fingerprint: blanks anywhere, either case, dashes for colons. */
  predicate Spells(text: string, fingerprint: string) {
    if text == [] then fingerprint == []
    else if text[0] == ' ' then Spells(text[1..], fingerprint)
    else fingerprint != [] && Types(text[0], fingerprint[0]) && Spells(text[1..], fingerprint[1..])
  }

  /** What one character other than a blank is rewritten to. */
  function Rewritten(c: char): char { if c == '-' then ':' else Upper(c) }

  lemma TypesIff(c: char, d: char)
    requires c != ' ' && Plain(d)
    ensures Rewritten(c) == d <==> Types(c, d)
  {
  }

  lemma SameAsCons(a: char, s: string, t: string)
    requires t != []
    ensures [a] + s == t <==> a == t[0] && s == t[1..]
  {
    assert ([a] + s)[1..] == s;
    assert t == [t[0]] + t[1..];
  }

  lemma RewriteFirst(text: string)
    requires text != []
    ensures Rewrite(text) == if text[0] == ' ' then Rewrite(text[1..]) else [Rewritten(text[0])] + Rewrite(text[1..])
  {
  }

  lemma {:induction false} RewriteIff(text: string, fingerprint: string)
    requires AllPlain(fingerprint)
    ensures Rewrite(text) == fingerprint <==> Spells(text, fingerprint)
  {
    if text != [] {
      RewriteFirst(text);
      if text[0] == ' ' {
        RewriteIff(text[1..], fingerprint);
      } else if fingerprint != [] {
        RewriteIff(text[1..], fingerprint[1..]);
        SameAsCons(Rewritten(text[0]), Rewrite(text[1..]), fingerprint);
        TypesIff(text[0], fingerprint[0]);
      }
    }
  }

  predicate AllWhite(s: string) { forall i :: 0 <= i < |s| ==> White(s[i]) }

  lemma {:induction false} TrimLeftPadding(left: string, s: string)
    requires AllWhite(left) && (s == [] || !White(s[0]))
    ensures TrimLeft(left + s) == s
  {
    if left == [] {
      assert left + s == s;
    } else {
      FirstOfConcat(left, s);
      TrimLeftPadding(left[1..], s);
    }
  }

  lemma {:induction false} TrimRightPadding(s: string, right: string)
    requires AllWhite(right) && (s == [] || !White(s[|s| - 1]))
    ensures TrimRight(s + right) == s
  {
    if right == [] {
      assert s + right == s;
    } else {
      var k := |right| - 1;
      assert (s + right)[..|s + right| - 1] == s + right[..k];
      TrimRightPadding(s, right[..k]);
    }
  }

  /** Whatever white space surrounds it, a text normalises to a fingerprint if and only if it spells it. */
  lemma {:induction false} NormalizeIff(left: string, text: string, right: string, fingerprint: string)
    requires AllWhite(left) && AllWhite(right) && text != [] && Tight(text) && AllPlain(fingerprint)
    ensures Normalize(left + text + right) == fingerprint <==> Spells(text, fingerprint)
  {
    Associate(left, text, right);
    TrimLeftPadding(left, text + right);
    TrimRightPadding(text, right);
    RewriteIff(text, fingerprint);
  }

  // ---- the fingerprint of a certificate ----

  function HexDigit(n: int): char
    requires 0 <= n < 16
  {
    "0123456789ABCDEF"[n]
  }

  /** `Fingerprint`: the bytes of the digest in hexadecimal, joined by colons. */
  function Fingerprint(sum: seq<byte>): string {
    if sum == [] then []
    else [HexDigit(sum[0] / 16), HexDigit(sum[0] % 16)] + (if |sum| == 1 then [] else [':'] + Fingerprint(sum[1..]))
  }

  lemma {:induction false} FingerprintIsNormal(sum: seq<byte>)
    ensures AllPlain(Fingerprint(sum)) && Tight(Fingerprint(sum))
    ensures Normalize(Fingerprint(sum)) == Fingerprint(sum)
    ensures sum != [] ==> Fingerprint(sum) != []
  {
    FingerprintPlain(sum);
    TrimKeepsTight(Fingerprint(sum));
    RewriteKeepsPlain(Fingerprint(sum));
  }

  predicate Dark(s: string) { forall i :: 0 <= i < |s| ==> !White(s[i]) }

  lemma {:induction false} FingerprintPlain(sum: seq<byte>)
    ensures AllPlain(Fingerprint(sum)) && Dark(Fingerprint(sum))
  {
    if |sum| > 1 {
      FingerprintPlain(sum[1..]);
    }
  }

  lemma HexInjective(a: int, b: int)
    requires 0 <= a < 16 && 0 <= b < 16 && HexDigit(a) == HexDigit(b)
    ensures a == b
  {
  }

  function HexValue(c: char): int { if c <= '9' then c as int - '0' as int else c as int - 'A' as int + 10 }

  predicate IsHex(c: char) { '0' <= c <= '9' || 'A' <= c <= 'F' }

  lemma HexReads(n: int)
    requires 0 <= n < 16
    ensures IsHex(HexDigit(n)) && HexValue(HexDigit(n)) == n
  {
  }

  lemma {:induction false} FingerprintLength(sum: seq<byte>)
    requires sum != []
    ensures |Fingerprint(sum)| == 3 * |sum| - 1
  {
    if |sum| > 1 {
      FingerprintLength(sum[1..]);
    }
  }

  /** Two characters spell a byte, the high digit first. */
  predicate SpellByte(hi: char, lo: char, b: byte) { IsHex(hi) && IsHex(lo) && 16 * HexValue(hi) + HexValue(lo) == b }

  lemma FirstByteReads(sum: seq<byte>)
    requires sum != []
    ensures |Fingerprint(sum)| >= 2 && SpellByte(Fingerprint(sum)[0], Fingerprint(sum)[1], sum[0])
    ensures |sum| > 1 ==> |Fingerprint(sum)| > 2 && Fingerprint(sum)[2] == ':' && Fingerprint(sum)[3..] == Fingerprint(sum[1..])
  {
    HexReads(sum[0] / 16);
    HexReads(sum[0] % 16);
  }

  /** The fingerprint read back: two digits a byte, in order, with a colon in between. */
  lemma {:induction false} FingerprintReads(sum: seq<byte>, i: nat)
    requires i < |sum|
    ensures |Fingerprint(sum)| == 3 * |sum| - 1
    ensures SpellByte(Fingerprint(sum)[3 * i], Fingerprint(sum)[3 * i + 1], sum[i])
    ensures i + 1 < |sum| ==> Fingerprint(sum)[3 * i + 2] == ':'
    decreases i
  {
    FingerprintLength(sum);
    FirstByteReads(sum);
    if i > 0 {
      FingerprintReads(sum[1..], i - 1);
      var s, t := Fingerprint(sum), Fingerprint(sum[1..]);
      assert s[3 * i] == s[3..][3 * (i - 1)] && s[3 * i + 1] == s[3..][3 * (i - 1) + 1];
      assert i + 1 < |sum| ==> s[3 * i + 2] == s[3..][3 * (i - 1) + 2];
    }
  }

  /** Different digests have different fingerprints, even up to normalisation. */
  lemma {:induction false} FingerprintInjective(a: seq<byte>, b: seq<byte>)
    requires Fingerprint(a) == Fingerprint(b)
    ensures a == b
  {
    if a != [] && b != [] {
      assert Fingerprint(a)[0] == Fingerprint(b)[0] && Fingerprint(a)[1] == Fingerprint(b)[1];
      HexInjective(a[0] / 16, b[0] / 16);
      HexInjective(a[0] % 16, b[0] % 16);
      if |a| > 1 && |b| > 1 {
        assert Fingerprint(a)[3..] == Fingerprint(a[1..]);
        assert Fingerprint(b)[3..] == Fingerprint(b[1..]);
        FingerprintInjective(a[1..], b[1..]);
      }
    }
  }

  // ---- the store ----

  type Pins = map<string, string>

  /** `Get`: a host without an entry has the empty fingerprint. */
  function Pin(pins: Pins, host: string): string { if host in pins then pins[host] else "" }

  /** What `Save` does to the entries, and whether it got past its refusals. */
  predicate Refuses(pins: Pins, host: string, fingerprint: string, confirmed: bool) {
    if Pin(pins, host) != "" then !EqualFingerprint(Pin(pins, host), fingerprint) else !confirmed
  }

  function Saved(pins: Pins, host: string, fingerprint: string): Pins { pins[host := Normalize(fingerprint)] }

  class Store {
    var entries: Pins
    var file: Pins        // what the file on disk holds

    constructor (file: Pins)
      ensures entries == this.file == file
    {
      entries, this.file := file, file;
    }

    method Get(host: string) returns (fingerprint: string)
      ensures fingerprint == Pin(entries, host)
    {
      fingerprint := if host in entries then entries[host] else "";
    }

    /** `confirmed` is the user's answer; `written` says whether the temporary file and the rename succeed. */
    method Save(host: string, fingerprint: string, confirmed: bool, written: bool) returns (ok: bool)
      modifies this
      ensures ok == (!Refuses(old(entries), host, fingerprint, confirmed) && written)
      ensures entries == if Refuses(old(entries), host, fingerprint, confirmed) then old(entries)
                         else Saved(old(entries), host, fingerprint)
      ensures file == if ok then entries else old(file)
      ensures Pin(old(entries), host) == "" && !confirmed ==> !ok && entries == old(entries) && file == old(file)
      ensures Pin(old(entries), host) != "" && !EqualFingerprint(Pin(old(entries), host), fingerprint) ==>
                !ok && entries == old(entries) && file == old(file)
      ensures ok ==> EqualFingerprint(Pin(file, host), fingerprint)
      ensures forall other :: other != host ==> Pin(entries, other) == Pin(old(entries), other)
    {
      var existing := Get(host);
      if existing != "" && !EqualFingerprint(existing, fingerprint) {
        return false;
      }
      if existing == "" && !confirmed {
        return false;
      }
      entries := entries[host := Normalize(fingerprint)];
      if !written {
        return false;
      }
      file := entries;
      NormalizeIdempotent(fingerprint);
      return true;
    }
  }

  // ---- connections ----

  /** A connection attempt: `expected` is what `Get` returned before the TLS configuration was built. */
  datatype Conn = Conn(host: string, expected: Option<string>)

  /** A certificate, by its digest, that the callback let through for a host. */
  datatype Accepted = Accepted(host: string, sum: seq<byte>)

  datatype State = State(entries: Pins, file: Pins, conns: seq<Conn>, accepted: seq<Accepted>)

  datatype Step =
    | Connect(host: string)
    | GetPin(i: nat)
    | Verify(i: nat, sum: seq<byte>, confirmed: bool, written: bool)
    | Restart

  predicate Enabled(s: State, st: Step) {
    match st
    case Connect(_) => true
    case GetPin(i) => i < |s.conns| && s.conns[i].expected.None?
    case Verify(i, sum, _, _) => i < |s.conns| && s.conns[i].expected.Some? && |sum| == 32
    case Restart => true
  }

  function AfterVerify(s: State, host: string, expected: string, sum: seq<byte>, confirmed: bool, written: bool): State {
    var actual := Fingerprint(sum);
    if expected != "" then
      if EqualFingerprint(expected, actual) then s.(accepted := s.accepted + [Accepted(host, sum)]) else s
    else if Refuses(s.entries, host, actual, confirmed) then s
    else
      var pins := Saved(s.entries, host, actual);
      if written then s.(entries := pins, file := pins, accepted := s.accepted + [Accepted(host, sum)])
      else s.(entries := pins)
  }

  function Next(s: State, st: Step): State
    requires Enabled(s, st)
  {
    match st
    case Connect(host) => s.(conns := s.conns + [Conn(host, None)])
    case GetPin(i) => s.(conns := s.conns[i := s.conns[i].(expected := Some(Pin(s.entries, s.conns[i].host)))])
    case Verify(i, sum, confirmed, written) =>
      AfterVerify(s, s.conns[i].host, s.conns[i].expected.value, sum, confirmed, written)
    case Restart => s.(entries := s.file, conns := [])
  }

  /** The process is restarted while the file has no pin for a host that a certificate was accepted for. */
  predicate Overlooks(s: State, st: Step) {
    st.Restart? && exists i :: 0 <= i < |s.accepted| && Pin(s.file, s.accepted[i].host) == ""
  }

  predicate Legal(s: State, steps: seq<Step>)
    decreases |steps|
  {
    steps == [] || (Enabled(s, steps[0]) && Legal(Next(s, steps[0]), steps[1..]))
  }

  predicate Overlooked(s: State, steps: seq<Step>)
    requires Legal(s, steps)
    decreases |steps|
  {
    steps != [] && (Overlooks(s, steps[0]) || Overlooked(Next(s, steps[0]), steps[1..]))
  }

  function Run(s: State, steps: seq<Step>): State
    requires Legal(s, steps)
    decreases |steps|
  {
    if steps == [] then s else Run(Next(s, steps[0]), steps[1..])
  }

  /** Every accepted certificate, and every pin handed out, is the one in the entries. */
  predicate Inv(s: State) {
    && (forall i :: 0 <= i < |s.accepted| ==>
          Normalize(Pin(s.entries, s.accepted[i].host)) == Fingerprint(s.accepted[i].sum) != "")
    && (forall i :: 0 <= i < |s.conns| && s.conns[i].expected.Some? && s.conns[i].expected.value != "" ==>
          Pin(s.entries, s.conns[i].host) != "" && EqualFingerprint(s.conns[i].expected.value, Pin(s.entries, s.conns[i].host)))
    && FileOk(s.entries, s.file)
  }

  /** Every pin in the file is in memory too, up to its spelling. */
  predicate FileOk(entries: Pins, file: Pins) {
    forall host :: host in file && Pin(file, host) != "" ==> Pin(entries, host) != "" && EqualFingerprint(Pin(entries, host), Pin(file, host))
  }

  lemma NormalEmpty()
    ensures Normalize("") == ""
  {
  }

  /** Saving pins a host that had no pin, and otherwise changes only the spelling of its pin. */
  lemma {:induction false} SaveKeepsPins(pins: Pins, host: string, sum: seq<byte>, confirmed: bool, other: string)
    requires |sum| == 32 && !Refuses(pins, host, Fingerprint(sum), confirmed)
    ensures var after := Saved(pins, host, Fingerprint(sum));
            && Pin(after, host) == Fingerprint(sum) != ""
            && (Pin(pins, other) != "" ==> Pin(after, other) != "" && Normalize(Pin(after, other)) == Normalize(Pin(pins, other)))
  {
    FingerprintIsNormal(sum);
  }

  lemma {:induction false} VerifyKeepsInv(s: State, i: nat, sum: seq<byte>, confirmed: bool, written: bool)
    requires Inv(s) && Enabled(s, Verify(i, sum, confirmed, written))
    ensures Inv(Next(s, Verify(i, sum, confirmed, written)))
  {
    var host, expected := s.conns[i].host, s.conns[i].expected.value;
    FingerprintIsNormal(sum);
    if expected == "" && !Refuses(s.entries, host, Fingerprint(sum), confirmed) {
      forall other ensures
        var after := Saved(s.entries, host, Fingerprint(sum));
        Pin(s.entries, other) != "" ==> Pin(after, other) != "" && Normalize(Pin(after, other)) == Normalize(Pin(s.entries, other))
      {
        SaveKeepsPins(s.entries, host, sum, confirmed, other);
      }
      NormalEmpty();
    }
  }

  lemma {:induction false} StepKeepsInv(s: State, st: Step)
    requires Inv(s) && Enabled(s, st) && !Overlooks(s, st)
    ensures Inv(Next(s, st))
  {
    match st
    case Verify(i, sum, confirmed, written) => VerifyKeepsInv(s, i, sum, confirmed, written);
    case _ =>
  }

  lemma {:induction false} RunKeepsInv(s: State, steps: seq<Step>)
    requires Inv(s) && Legal(s, steps) && !Overlooked(s, steps)
    ensures Inv(Run(s, steps))
    decreases |steps|
  {
    if steps != [] {
      StepKeepsInv(s, steps[0]);
      RunKeepsInv(Next(s, steps[0]), steps[1..]);
    }
  }

  function Start(file: Pins): State { State(file, file, [], []) }

  /** Two different certificates have been accepted for one host. */
  predicate Split(s: State) {
    exists i, j :: 0 <= i < |s.accepted| && 0 <= j < |s.accepted|
                   && s.accepted[i].host == s.accepted[j].host && s.accepted[i].sum != s.accepted[j].sum
  }

  lemma {:induction false} InvIsWhole(s: State)
    requires Inv(s) && forall i :: 0 <= i < |s.accepted| ==> |s.accepted[i].sum| == 32
    ensures !Split(s)
  {
    forall i, j | 0 <= i < |s.accepted| && 0 <= j < |s.accepted| && s.accepted[i].host == s.accepted[j].host
      ensures s.accepted[i].sum == s.accepted[j].sum
    {
      FingerprintInjective(s.accepted[i].sum, s.accepted[j].sum);
    }
  }

  lemma {:induction false} DigestsStay(s: State, steps: seq<Step>)
    requires Legal(s, steps) && forall i :: 0 <= i < |s.accepted| ==> |s.accepted[i].sum| == 32
    ensures forall i :: 0 <= i < |Run(s, steps).accepted| ==> |Run(s, steps).accepted[i].sum| == 32
    decreases |steps|
  {
    if steps != [] {
      DigestsStay(Next(s, steps[0]), steps[1..]);
    }
  }

  /**
   However connections interleave, whatever the known-hosts file held, and wherever the process is
   restarted with the pins of all accepted hosts in the file: all certificates accepted for one
   host are one and the same.
   */
  lemma {:induction false} TrustPins(file: Pins, steps: seq<Step>)
    requires Legal(Start(file), steps) && !Overlooked(Start(file), steps)
    ensures !Split(Run(Start(file), steps))
  {
    RunKeepsInv(Start(file), steps);
    DigestsStay(Start(file), steps);
    InvIsWhole(Run(Start(file), steps));
  }

  // ---- what a certificate is accepted for ----

  /** The certificates that the user has confirmed, with their hosts, in the course of a run. */
  function Confirmed(s: State, steps: seq<Step>): set<Accepted>
    requires Legal(s, steps)
    decreases |steps|
  {
    if steps == [] then {}
    else
      var st := steps[0];
      (if st.Verify? && st.confirmed then {Accepted(s.conns[st.i].host, st.sum)} else {}) + Confirmed(Next(s, st), steps[1..])
  }

  /** A fingerprint goes back to the pin of the host in the file, or to a certificate that the user has confirmed for it. */
  ghost predicate Vouched(file: Pins, yes: set<Accepted>, host: string, fingerprint: string) {
    || (Pin(file, host) != "" && EqualFingerprint(Pin(file, host), fingerprint))
    || (exists c :: c in yes && c.host == host && Normalize(fingerprint) == Fingerprint(c.sum))
  }

  ghost predicate PinsVouched(file: Pins, yes: set<Accepted>, pins: Pins) {
    forall host :: host in pins && pins[host] != "" ==> Vouched(file, yes, host, pins[host])
  }

  /** Every pin in memory, in the file and handed out is vouched for, and so is every accepted certificate. */
  ghost predicate AllVouched(file: Pins, yes: set<Accepted>, s: State) {
    && PinsVouched(file, yes, s.entries) && PinsVouched(file, yes, s.file)
    && (forall i :: 0 <= i < |s.conns| && s.conns[i].expected.Some? && s.conns[i].expected.value != "" ==>
          Vouched(file, yes, s.conns[i].host, s.conns[i].expected.value))
    && (forall i :: 0 <= i < |s.accepted| ==> Vouched(file, yes, s.accepted[i].host, Fingerprint(s.accepted[i].sum)))
  }

  lemma EqualIsVouched(file: Pins, yes: set<Accepted>, host: string, a: string, b: string)
    requires Vouched(file, yes, host, a) && EqualFingerprint(a, b)
    ensures Vouched(file, yes, host, b)
  {
  }

  lemma MoreVouch(file: Pins, yes: set<Accepted>, more: set<Accepted>, s: State)
    requires AllVouched(file, yes, s) && yes <= more
    ensures AllVouched(file, more, s)
  {
    assert forall host: string, fingerprint :: Vouched(file, yes, host, fingerprint) ==> Vouched(file, more, host, fingerprint);
  }

  /** What the callback lets through is vouched for, by the pin it was compared with or by the user. */
  lemma {:induction false} VerifyVouched(file: Pins, yes: set<Accepted>, s: State, i: nat, sum: seq<byte>, confirmed: bool, written: bool)
    requires AllVouched(file, yes, s) && Enabled(s, Verify(i, sum, confirmed, written))
    requires confirmed ==> Accepted(s.conns[i].host, sum) in yes
    ensures AllVouched(file, yes, Next(s, Verify(i, sum, confirmed, written)))
  {
    var host, expected, actual := s.conns[i].host, s.conns[i].expected.value, Fingerprint(sum);
    FingerprintIsNormal(sum);
    var trusted := if expected != "" then expected else Pin(s.entries, host);
    if trusted != "" && EqualFingerprint(trusted, actual) {
      EqualIsVouched(file, yes, host, trusted, actual);
    } else if confirmed {
      assert Vouched(file, yes, host, actual);
    }
  }

  lemma {:induction false} StepVouched(file: Pins, yes: set<Accepted>, s: State, st: Step)
    requires AllVouched(file, yes, s) && Enabled(s, st)
    requires st.Verify? && st.confirmed ==> Accepted(s.conns[st.i].host, st.sum) in yes
    ensures AllVouched(file, yes, Next(s, st))
  {
    match st
    case Verify(i, sum, confirmed, written) => VerifyVouched(file, yes, s, i, sum, confirmed, written);
    case _ =>
  }

  lemma {:induction false} RunVouched(file: Pins, yes: set<Accepted>, s: State, steps: seq<Step>)
    requires AllVouched(file, yes, s) && Legal(s, steps)
    ensures AllVouched(file, yes + Confirmed(s, steps), Run(s, steps))
    decreases |steps|
  {
    if steps == [] {
      assert yes + {} == yes;
    } else {
      var st := steps[0];
      var more := yes + (if st.Verify? && st.confirmed then {Accepted(s.conns[st.i].host, st.sum)} else {});
      MoreVouch(file, yes, more, s);
      StepVouched(file, more, s, st);
      RunVouched(file, more, Next(s, st), steps[1..]);
      assert more + Confirmed(Next(s, st), steps[1..]) == yes + Confirmed(s, steps);
    }
  }

  /**
   Over every run, with restarts anywhere: a certificate accepted for a host has the fingerprint
   that the file had for the host at the start, or the user has confirmed that very certificate for
   that very host.
   */
  lemma {:induction false} NothingIsTrustedUnasked(file: Pins, steps: seq<Step>, i: nat)
    requires Legal(Start(file), steps) && i < |Run(Start(file), steps).accepted|
    ensures var a := Run(Start(file), steps).accepted[i];
            || (Pin(file, a.host) != "" && EqualFingerprint(Pin(file, a.host), Fingerprint(a.sum)))
            || a in Confirmed(Start(file), steps)
  {
    RunVouched(file, {}, Start(file), steps);
    var yes, a := Confirmed(Start(file), steps), Run(Start(file), steps).accepted[i];
    assert {} + yes == yes;
    FingerprintIsNormal(a.sum);
    if !(Pin(file, a.host) != "" && EqualFingerprint(Pin(file, a.host), Fingerprint(a.sum))) {
      var c :| c in yes && c.host == a.host && Normalize(Fingerprint(a.sum)) == Fingerprint(c.sum);
      FingerprintInjective(a.sum, c.sum);
    }
  }

  /**
   A connection that no other one overlaps: its certificate is accepted if and only if it has the
   pinned fingerprint, or there is none, the user confirms it and it can be written down.
   */
  lemma {:induction false} ConnectionAcceptedIff(s: State, host: string, sum: seq<byte>, confirmed: bool, written: bool)
    requires |sum| == 32
    ensures var n, pin := |s.conns|, Pin(s.entries, host);
            var z := Next(Next(Next(s, Connect(host)), GetPin(n)), Verify(n, sum, confirmed, written));
            var good := if pin != "" then EqualFingerprint(pin, Fingerprint(sum)) else confirmed && written;
            && z.accepted == (if good then s.accepted + [Accepted(host, sum)] else s.accepted)
            && (pin == "" && confirmed && written ==> Pin(z.file, host) == Fingerprint(sum))
            && (pin != "" || !confirmed ==> z.entries == s.entries && z.file == s.file)
  {
    var n := |s.conns|;
    var s2 := Next(Next(s, Connect(host)), GetPin(n));
    assert s2.conns[n] == Conn(host, Some(Pin(s.entries, host)));
    FingerprintIsNormal(sum);
  }

  // ---- when pinning fails ----

  /** One more connection, confirmed by the user: Connect, Get, and the callback. */
  function Connected(s: State, host: string, sum: seq<byte>): State
    requires |sum| == 32
  {
    Next(Next(Next(s, Connect(host)), GetPin(|s.conns|)), Verify(|s.conns|, sum, true, true))
  }

  /** One more connection can leave two different certificates accepted for one host. */
  ghost predicate SplitsNext(s: State) {
    exists host: string, sum: seq<byte> :: |sum| == 32 && Split(Connected(s, host, sum))
  }

  /** At some point of the run, one more connection could do so. */
  ghost predicate CanSplit(s: State, steps: seq<Step>)
    requires Legal(s, steps)
    decreases |steps|
  {
    SplitsNext(s) || (steps != [] && CanSplit(Next(s, steps[0]), steps[1..]))
  }

  /** A digest different from a given one. */
  function Other(sum: seq<byte>): (r: seq<byte>)
    requires |sum| == 32
    ensures |r| == 32 && r != sum
  {
    sum[0 := if sum[0] == 0 then 1 else 0]
  }

  /** After a restart that overlooks a host, any other certificate is accepted for it. */
  lemma {:induction false} OverlookedSplits(s: State, i: nat)
    requires i < |s.accepted| && |s.accepted[i].sum| == 32 && Pin(s.file, s.accepted[i].host) == ""
    ensures SplitsNext(Next(s, Restart))
  {
    var r, host, sum := Next(s, Restart), s.accepted[i].host, Other(s.accepted[i].sum);
    var t := Next(Next(r, Connect(host)), GetPin(0));
    assert t.conns[0] == Conn(host, Some(""));
    var z := Connected(r, host, sum);
    assert z.accepted == s.accepted + [Accepted(host, sum)];
    assert z.accepted[i] == s.accepted[i] && z.accepted[|s.accepted|].sum == sum;
    assert Split(z);
  }

  lemma {:induction false} InvNeverSplits(s: State)
    requires Inv(s) && forall i :: 0 <= i < |s.accepted| ==> |s.accepted[i].sum| == 32
    ensures !SplitsNext(s)
  {
    forall host: string, sum: seq<byte> | |sum| == 32 ensures !Split(Connected(s, host, sum)) {
      var s1 := Next(s, Connect(host));
      var s2 := Next(s1, GetPin(|s.conns|));
      StepKeepsInv(s, Connect(host));
      StepKeepsInv(s1, GetPin(|s.conns|));
      StepKeepsInv(s2, Verify(|s.conns|, sum, true, true));
      InvIsWhole(Connected(s, host, sum));
    }
  }

  lemma {:induction false} SplitsIff(s: State, steps: seq<Step>)
    requires Inv(s) && Legal(s, steps) && forall i :: 0 <= i < |s.accepted| ==> |s.accepted[i].sum| == 32
    ensures CanSplit(s, steps) <==> Overlooked(s, steps)
    decreases |steps|
  {
    InvNeverSplits(s);
    if steps != [] {
      if Overlooks(s, steps[0]) {
        var i :| 0 <= i < |s.accepted| && Pin(s.file, s.accepted[i].host) == "";
        OverlookedSplits(s, i);
        assert CanSplit(Next(s, steps[0]), steps[1..]);
      } else {
        StepKeepsInv(s, steps[0]);
        SplitsIff(Next(s, steps[0]), steps[1..]);
      }
    }
  }

  /**
   Over every run, whatever the file held: pinning can fail at some point, one more connection
   leaving two certificates accepted for one host, if and only if the process was restarted while
   the file had no pin for a host that a certificate had been accepted for.
   */
  lemma {:induction false} PinningFailsIff(file: Pins, steps: seq<Step>)
    requires Legal(Start(file), steps)
    ensures CanSplit(Start(file), steps) <==> Overlooked(Start(file), steps)
  {
    SplitsIff(Start(file), steps);
  }

  /**
   A pin that reached the memory but not the file is enough to accept a certificate, and is gone
   after a restart: then any second certificate can be accepted for the same host.
   */
  lemma {:induction false} LostPinIsForgotten(host: string, a: seq<byte>, b: seq<byte>) returns (steps: seq<Step>)
    requires |a| == |b| == 32 && a != b
    ensures Legal(Start(map[]), steps) && Overlooked(Start(map[]), steps)
    ensures Run(Start(map[]), steps).accepted == [Accepted(host, a), Accepted(host, b)]
  {
    var s0 := Start(map[]);
    FingerprintIsNormal(a);
    var first := [Connect(host), GetPin(0), Verify(0, a, true, false), Connect(host), GetPin(1), Verify(1, a, true, true)];
    var later := [Restart, Connect(host), GetPin(0), Verify(0, b, true, true)];
    var s1 := Forgetful(host, a);
    var s2 := Remembering(s1, host, b);
    steps := first + later;
    RunJoins(s0, first, later);
    assert Run(s0, steps).accepted == [Accepted(host, a), Accepted(host, b)];
    var t := Run(s0, steps);
    assert t.accepted[0] == Accepted(host, a) && t.accepted[1] == Accepted(host, b);
    assert Split(t);
    if !Overlooked(s0, steps) {
      TrustPins(map[], steps);
    }
  }

  lemma {:induction false} Forgetful(host: string, a: seq<byte>) returns (s: State)
    requires |a| == 32
    ensures var first := [Connect(host), GetPin(0), Verify(0, a, true, false), Connect(host), GetPin(1), Verify(1, a, true, true)];
            Legal(Start(map[]), first) && Run(Start(map[]), first) == s
    ensures s.file == map[] && s.entries == map[host := Fingerprint(a)] && s.accepted == [Accepted(host, a)]
  {
    FingerprintIsNormal(a);
    var first := [Connect(host), GetPin(0), Verify(0, a, true, false), Connect(host), GetPin(1), Verify(1, a, true, true)];
    var s1 := Next(Start(map[]), first[0]);
    var s2 := Next(s1, first[1]);
    var s3 := Next(s2, first[2]);
    assert s3.entries == map[host := Fingerprint(a)];
    var s4 := Next(s3, first[3]);
    var s5 := Next(s4, first[4]);
    assert s5.conns[1].expected == Some(Fingerprint(a));
    s := Next(s5, first[5]);
    StepOnce(s5, first[5..], s);
    StepOnce(s4, first[4..], s);
    StepOnce(s3, first[3..], s);
    StepOnce(s2, first[2..], s);
    StepOnce(s1, first[1..], s);
    StepOnce(Start(map[]), first, s);
  }

  lemma StepOnce(s: State, steps: seq<Step>, t: State)
    requires steps != [] && Enabled(s, steps[0])
    requires Legal(Next(s, steps[0]), steps[1..]) && Run(Next(s, steps[0]), steps[1..]) == t
    ensures Legal(s, steps) && Run(s, steps) == t
  {
  }

  lemma {:induction false} Remembering(s: State, host: string, b: seq<byte>) returns (t: State)
    requires |b| == 32 && s.file == map[]
    ensures var later := [Restart, Connect(host), GetPin(0), Verify(0, b, true, true)];
            Legal(s, later) && Run(s, later) == t
    ensures t.accepted == s.accepted + [Accepted(host, b)]
  {
    var later := [Restart, Connect(host), GetPin(0), Verify(0, b, true, true)];
    var s1 := Next(s, later[0]);
    var s2 := Next(s1, later[1]);
    var s3 := Next(s2, later[2]);
    assert s3.conns[0].expected == Some("");
    t := Next(s3, later[3]);
    StepOnce(s3, later[3..], t);
    StepOnce(s2, later[2..], t);
    StepOnce(s1, later[1..], t);
    StepOnce(s, later, t);
  }

  lemma {:induction false} RunJoins(s: State, a: seq<Step>, b: seq<Step>)
    requires Legal(s, a) && Legal(Run(s, a), b)
    ensures Legal(s, a + b) && Run(s, a + b) == Run(Run(s, a), b)
    decreases |a|
  {
    if a == [] {
      assert a + b == b;
    } else {
      FirstOfConcat(a, b);
      RunJoins(Next(s, a[0]), a[1..], b);
    }
  }
}
