/**
 The frame codec of internal/protocol/frame.go: a 13-byte header (type, 64-bit ID, 32-bit
 payload size, big-endian) and at most 1 MiB of payload.
 */
module Frames {
  import opened Common
  import opened Streams

  const HEADER_SIZE := 13

  datatype Frame = Frame(kind: byte, id: nat, payload: seq<byte>)

  /** The frames the source can hold: the ID is a uint64. */
  predicate Representable(f: Frame) { f.id < Pow256(8) }

  /** The frames `WriteFrame` writes. */
  predicate Writable(f: Frame) { Representable(f) && |f.payload| <= MAX_FRAME_SIZE }

  // ---- big-endian integers ----

  function Pow256(k: nat): nat { if k == 0 then 1 else 256 * Pow256(k - 1) }

  function PutUint(n: nat, k: nat): (bs: seq<byte>)
    ensures |bs| == k
  {
    if k == 0 then [] else PutUint(n / 256, k - 1) + [n % 256]
  }

  function Uint(bs: seq<byte>): (n: nat)
    ensures n < Pow256(|bs|)
  {
    if bs == [] then 0 else 256 * Uint(bs[..|bs| - 1]) + bs[|bs| - 1]
  }

  lemma {:induction false} UintPut(n: nat, k: nat)
    requires n < Pow256(k)
    ensures Uint(PutUint(n, k)) == n
  {
    if k != 0 {
      UintPut(n / 256, k - 1);
      assert PutUint(n, k)[..k - 1] == PutUint(n / 256, k - 1);
    }
  }

  lemma ByteSplit(n: nat, b: byte)
    ensures (256 * n + b) / 256 == n && (256 * n + b) % 256 == b
  {
  }

  lemma {:induction false} PutUintOf(bs: seq<byte>)
    ensures PutUint(Uint(bs), |bs|) == bs
  {
    if bs != [] {
      var k := |bs| - 1;
      PutUintOf(bs[..k]);
      ByteSplit(Uint(bs[..k]), bs[k]);
      assert bs == bs[..k] + [bs[k]];
    }
  }

  lemma ShiftSplit(a: nat, b: nat, p: nat, x: nat)
    ensures 256 * (a * p + b) + x == a * (256 * p) + (256 * b + x)
  {
  }

  /** The bytes in front weigh as much more as there are bytes behind. */
  lemma {:induction false} UintSplit(bs: seq<byte>, i: nat)
    requires i <= |bs|
    ensures Uint(bs) == Uint(bs[..i]) * Pow256(|bs| - i) + Uint(bs[i..])
  {
    var k := |bs| - 1;
    if i == |bs| {
      assert bs[..i] == bs;
    } else {
      UintSplit(bs[..k], i);
      assert bs[..k][..i] == bs[..i] && bs[..k][i..] == bs[i..][..k - i];
      ShiftSplit(Uint(bs[..i]), Uint(bs[i..k]), Pow256(k - i), bs[k]);
    }
  }

  /** The order is big-endian: the byte with `k` bytes behind it weighs 256 to the `k`. */
  lemma {:induction false} ByteWeighs(bs: seq<byte>, i: nat)
    requires i < |bs|
    ensures Uint(bs) == Uint(bs[..i]) * Pow256(|bs| - i) + bs[i] * Pow256(|bs| - i - 1) + Uint(bs[i + 1..])
  {
    UintSplit(bs, i);
    UintSplit(bs[i..], 1);
    assert bs[i..][..1] == [bs[i]] && bs[i..][1..] == bs[i + 1..];
    assert [bs[i]][..0] == [];
    assert Uint([bs[i]]) == 256 * Uint([]) + bs[i];
  }

  lemma SizeFits(n: nat)
    requires n <= MAX_FRAME_SIZE
    ensures n < Pow256(4)
  {
    assert Pow256(4) == 256 * 256 * 256 * 256 * Pow256(0);
  }

  // ---- one frame ----

  function Header(f: Frame): (h: seq<byte>)
    ensures |h| == HEADER_SIZE
  {
    [f.kind] + PutUint(f.id, 8) + PutUint(|f.payload|, 4)
  }

  function Encode(f: Frame): seq<byte> { Header(f) + f.payload }

  function WriteFrame(f: Frame): Result<seq<byte>> {
    if |f.payload| > MAX_FRAME_SIZE then Err("frame size exceeds limit") else Ok(Encode(f))
  }

  datatype ReadError = EOF | UnexpectedEOF | TooLarge

  datatype ReadResult = Got(frame: Frame, rest: seq<byte>) | NoFrame(error: ReadError)

  /** io.ReadFull fails with EOF when nothing at all is left, otherwise with ErrUnexpectedEOF. */
  function Short(left: seq<byte>): ReadError { if left == [] then EOF else UnexpectedEOF }

  /** `ReadFrame` on a stream that holds these bytes and then ends. */
  function ReadFrame(bytes: seq<byte>): ReadResult {
    if |bytes| < HEADER_SIZE then NoFrame(Short(bytes))
    else
      var size := Uint(bytes[9..13]);
      var body := bytes[13..];
      if size > MAX_FRAME_SIZE then NoFrame(TooLarge)
      else if |body| < size then NoFrame(Short(body))
      else Got(Frame(bytes[0], Uint(bytes[1..9]), body[..size]), body[size..])
  }

  lemma HeaderFields(f: Frame, tail: seq<byte>)
    requires Writable(f)
    ensures var bytes := Header(f) + tail;
            && bytes[0] == f.kind && bytes[1..9] == PutUint(f.id, 8) && bytes[9..13] == PutUint(|f.payload|, 4)
            && Uint(bytes[1..9]) == f.id && Uint(bytes[9..13]) == |f.payload|
            && bytes[13..] == tail
  {
    SizeFits(|f.payload|);
    UintPut(f.id, 8);
    UintPut(|f.payload|, 4);
    var bytes := Header(f) + tail;
    assert bytes[1..9] == PutUint(f.id, 8);
    assert bytes[9..13] == PutUint(|f.payload|, 4);
  }

  /** Reading back a written frame yields it and leaves the bytes behind it alone. */
  lemma {:induction false} ReadWritten(f: Frame, tail: seq<byte>)
    requires Writable(f)
    ensures ReadFrame(Encode(f) + tail) == Got(f, tail)
  {
    HeaderFields(f, f.payload + tail);
    assert Encode(f) + tail == Header(f) + (f.payload + tail);
  }

  lemma {:induction false} HeaderOf(bytes: seq<byte>)
    requires |bytes| == HEADER_SIZE
    ensures [bytes[0]] + PutUint(Uint(bytes[1..9]), 8) + PutUint(Uint(bytes[9..13]), 4) == bytes
  {
    PutUintOf(bytes[1..9]);
    PutUintOf(bytes[9..13]);
    assert bytes == [bytes[0]] + bytes[1..9] + bytes[9..13];
  }

  /** Whatever `ReadFrame` accepts is the encoding of the frame it returns, and nothing else. */
  lemma {:induction false} ReadIsCanonical(bytes: seq<byte>)
    requires ReadFrame(bytes).Got?
    ensures var r := ReadFrame(bytes); Writable(r.frame) && bytes == Encode(r.frame) + r.rest
  {
    var r := ReadFrame(bytes);
    HeaderOf(bytes[..13]);
    assert bytes[..13][1..9] == bytes[1..9] && bytes[..13][9..13] == bytes[9..13];
    assert Header(r.frame) == bytes[..13];
    assert bytes == bytes[..13] + bytes[13..];
    assert bytes[13..] == r.frame.payload + r.rest;
    assert Uint(bytes[1..9]) < Pow256(|bytes[1..9]|);
  }

  /**
   A frame cut short is never accepted. The error is EOF, which `readLoop` takes for an orderly
   close, exactly when the cut falls before the frame or right behind its header.
   */
  lemma {:induction false} CutFrameFails(f: Frame, k: nat)
    requires Writable(f) && k < |Encode(f)|
    ensures ReadFrame(Encode(f)[..k]) == NoFrame(if k == 0 || k == HEADER_SIZE then EOF else UnexpectedEOF)
  {
    if k >= HEADER_SIZE {
      var tail := f.payload[..k - HEADER_SIZE];
      assert Encode(f)[..k] == Header(f) + tail;
      HeaderFields(f, tail);
    }
  }

  /** A header that announces more than the limit is refused, whatever follows it; nothing else is refused for its size. */
  lemma {:induction false} OversizedIff(kind: byte, id: nat, size: nat, tail: seq<byte>)
    requires id < Pow256(8) && size < Pow256(4)
    ensures ReadFrame([kind] + PutUint(id, 8) + PutUint(size, 4) + tail) == NoFrame(TooLarge) <==> size > MAX_FRAME_SIZE
  {
    var bytes := [kind] + PutUint(id, 8) + PutUint(size, 4) + tail;
    UintPut(size, 4);
    assert bytes[9..13] == PutUint(size, 4);
  }

  /** `WriteFrame` writes a frame if and only if there are bytes that `ReadFrame` takes for it. */
  lemma {:induction false} WritesWhatCanBeRead(f: Frame)
    requires Representable(f)
    ensures WriteFrame(f).Ok? <==> exists bytes, rest :: ReadFrame(bytes) == Got(f, rest)
    ensures WriteFrame(f).Ok? ==> ReadFrame(WriteFrame(f).value) == Got(f, [])
  {
    if WriteFrame(f).Ok? {
      ReadWritten(f, []);
      assert Encode(f) + [] == Encode(f);
    } else {
      forall bytes, rest ensures ReadFrame(bytes) != Got(f, rest) {
        if ReadFrame(bytes) == Got(f, rest) {
          ReadIsCanonical(bytes);
        }
      }
    }
  }

  // ---- a stream of frames ----

  function EncodeAll(fs: seq<Frame>): seq<byte> {
    if fs == [] then [] else Encode(fs[0]) + EncodeAll(fs[1..])
  }

  lemma {:induction false} EncodeAppend(fs: seq<Frame>, gs: seq<Frame>)
    ensures EncodeAll(fs + gs) == EncodeAll(fs) + EncodeAll(gs)
  {
    if fs == [] {
      assert fs + gs == gs;
    } else {
      assert (fs + gs)[1..] == fs[1..] + gs;
      EncodeAppend(fs[1..], gs);
      Associate(Encode(fs[0]), EncodeAll(fs[1..]), EncodeAll(gs));
    }
  }

  lemma EncodeOne(f: Frame)
    ensures EncodeAll([f]) == Encode(f)
  {
    assert EncodeAll([f]) == Encode(f) + EncodeAll([]);
  }

  datatype Drained = Drained(frames: seq<Frame>, rest: seq<byte>, error: ReadError)

  /** `ReadFrame` applied until it fails. */
  function ReadAll(bytes: seq<byte>): Drained
    decreases |bytes|
  {
    match ReadFrame(bytes)
    case NoFrame(e) => Drained([], bytes, e)
    case Got(f, rest) => var d := ReadAll(rest); Drained([f] + d.frames, d.rest, d.error)
  }

  lemma Uncons<T>(a: seq<T>, b: seq<T>)
    requires a != []
    ensures [a[0]] + (a[1..] + b) == a + b
  {
  }

  lemma ReadAllStep(f: Frame, rest: seq<byte>)
    requires Writable(f)
    ensures var d := ReadAll(rest); ReadAll(Encode(f) + rest) == Drained([f] + d.frames, d.rest, d.error)
  {
    ReadWritten(f, rest);
  }

  /** The frames written come back exactly, in order, whatever bytes follow them. */
  lemma {:induction false} ReadAllWritten(fs: seq<Frame>, tail: seq<byte>)
    requires forall f :: f in fs ==> Writable(f)
    ensures var d := ReadAll(tail);
            ReadAll(EncodeAll(fs) + tail) == Drained(fs + d.frames, d.rest, d.error)
  {
    var d := ReadAll(tail);
    if fs == [] {
      assert EncodeAll(fs) + tail == tail;
      assert fs + d.frames == d.frames;
    } else {
      assert fs[0] in fs;
      ReadAllWritten(fs[1..], tail);
      ReadAllStep(fs[0], EncodeAll(fs[1..]) + tail);
      Associate(Encode(fs[0]), EncodeAll(fs[1..]), tail);
      Uncons(fs, d.frames);
    }
  }

  /** A connection that ends anywhere yields some first frames of what was written, and no other. */
  lemma {:induction false} CutStreamIsPrefix(fs: seq<Frame>, k: nat)
    requires (forall f :: f in fs ==> Writable(f)) && k <= |EncodeAll(fs)|
    ensures ReadAll(EncodeAll(fs)[..k]).frames <= fs
    ensures ReadAll(EncodeAll(fs)[..k]).error != TooLarge
    ensures k == |EncodeAll(fs)| ==> ReadAll(EncodeAll(fs)[..k]).frames == fs
  {
    if fs != [] {
      assert fs[0] in fs;
      var n := |Encode(fs[0])|;
      Cut(Encode(fs[0]), EncodeAll(fs[1..]), k);
      if k < n {
        CutFrameFails(fs[0], k);
      } else {
        CutStreamIsPrefix(fs[1..], k - n);
        ReadAllStep(fs[0], EncodeAll(fs[1..])[..k - n]);
      }
    }
  }

  lemma Cut<T>(a: seq<T>, b: seq<T>, k: nat)
    requires k <= |a| + |b|
    ensures (a + b)[..k] == if k < |a| then a[..k] else a + b[..k - |a|]
  {
  }

  /** The loop of `readLoop` over a connection that has ended: it stops where `ReadAll` does. */
  method DrainFrames(bytes: seq<byte>) returns (frames: seq<Frame>, rest: seq<byte>, error: ReadError)
    ensures bytes == EncodeAll(frames) + rest
    ensures forall f :: f in frames ==> Writable(f)
    ensures ReadFrame(rest) == NoFrame(error)
  {
    frames, rest := [], bytes;
    while ReadFrame(rest).Got?
      invariant bytes == EncodeAll(frames) + rest
      invariant forall f :: f in frames ==> Writable(f)
      decreases |rest|
    {
      var r := ReadFrame(rest);
      ReadIsCanonical(rest);
      EncodeAppend(frames, [r.frame]);
      EncodeOne(r.frame);
      Associate(EncodeAll(frames), Encode(r.frame), r.rest);
      frames, rest := frames + [r.frame], r.rest;
    }
    error := ReadFrame(rest).error;
  }
}
