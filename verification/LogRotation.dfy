/**
 The rotating log writer of internal/logging/logging.go. File 0 is the current log and file `i`
 its backup `.i`; a missing file is a missing key.
 */
module LogRotation {
  import opened Common

  type Files = map<nat, seq<byte>>

  function Content(files: Files, i: nat): seq<byte> { if i in files then files[i] else [] }

  /** The files from `hi` down to `lo`, oldest first. */
  function Span(files: Files, hi: int, lo: nat): seq<byte>
    decreases hi
  {
    if hi < lo then [] else Content(files, hi) + Span(files, hi - 1, lo)
  }

  /** Everything the log still holds, with `k` backups. */
  function History(files: Files, k: nat): seq<byte> { Span(files, k, 0) }

  /** os.Rename, with a missing source ignored. */
  function Rename(files: Files, from: nat, to: nat): Files {
    if from in files then (files - {from})[to := files[from]] else files
  }

  /** How many backups a rotation leaves: with `keep` below 1 there is still one. */
  function Kept(keep: int): nat { if keep < 1 then 1 else keep }

  /** What the oldest place holds: a missing newest-but-one leaves the oldest backup where it is. */
  predicate Pushes(files: Files, k: nat) { k >= 1 && k - 1 in files }

  /** Place `j` of `t` holds what it has to hold after the rotation. */
  predicate Settled(files: Files, k: nat, t: Files, j: nat) {
    if j == 0 then 0 in t && t[0] == []
    else if j < k || Pushes(files, k) then (j in t <==> j - 1 in files) && (j in t ==> t[j] == files[j - 1])
    else (j in t <==> j in files) && (j in t ==> t[j] == files[j])
  }

  /** Every file in its new place, and a fresh current one. */
  predicate IsRotated(files: Files, k: nat, t: Files) {
    k >= 1 && forall j :: 0 <= j <= k ==> Settled(files, k, t, j)
  }

  /** Half way down: files up to `i` have not moved, those above have, and their place is free. */
  predicate Moved(files: Files, k: nat, t: Files, i: int) {
    && -1 <= i < k
    && (forall j :: 0 <= j <= (if i == k - 1 then k else i) ==>
          (j in t <==> j in files) && (j in t ==> t[j] == files[j]))
    && (forall j: nat :: i + 1 < j <= k ==> Settled(files, k, t, j))
    && (i + 1 < k ==> i + 1 !in t)
  }

  lemma RenameMoves(files: Files, k: nat, t: Files, i: nat)
    requires Moved(files, k, t, i)
    ensures Moved(files, k, Rename(t, i, i + 1), i - 1)
  {
    var u := Rename(t, i, i + 1);
    assert (i in t <==> i in files) && (i in t ==> t[i] == files[i]);
    forall j: nat | i < j <= k ensures Settled(files, k, u, j) {
      if j != i + 1 {
        assert Settled(files, k, t, j);
      } else if i == k - 1 {
        assert (k in t <==> k in files) && (k in t ==> t[k] == files[k]);
      }
    }
  }

  lemma RotatedContent(files: Files, k: nat, t: Files, i: nat)
    requires IsRotated(files, k, t) && 1 <= i <= k && (i < k || Pushes(files, k))
    ensures Content(t, i) == Content(files, i - 1)
  {
    assert Settled(files, k, t, i);
  }

  lemma {:induction false} SpanShift(files: Files, t: Files, n: nat)
    requires forall i :: 1 <= i <= n ==> Content(t, i) == Content(files, i - 1)
    ensures Span(t, n, 1) == Span(files, n - 1, 0)
  {
    if n > 0 {
      SpanShift(files, t, n - 1);
    }
  }

  lemma {:induction false} SpanSplit(files: Files, hi: nat)
    ensures Span(files, hi, 0) == Span(files, hi, 1) + Content(files, 0)
  {
    if hi > 0 {
      SpanSplit(files, hi - 1);
    } else {
      assert Span(files, 0, 0) == Content(files, 0) + Span(files, -1, 0);
    }
  }

  /** A rotation loses the oldest backup, if it pushes it out, and nothing else. */
  lemma {:induction false} RotationConserves(files: Files, k: nat, t: Files)
    requires IsRotated(files, k, t)
    ensures History(files, k) == (if Pushes(files, k) then Content(files, k) else []) + History(t, k)
  {
    SpanSplit(t, k);
    assert Settled(files, k, t, 0) && Settled(files, k, t, k);
    forall i | 1 <= i <= k && (i < k || Pushes(files, k)) ensures Content(t, i) == Content(files, i - 1) {
      RotatedContent(files, k, t, i);
    }
    if Pushes(files, k) {
      SpanShift(files, t, k);
    } else {
      SpanShift(files, t, k - 1);
      assert Span(files, k - 1, 0) == Content(files, k - 1) + Span(files, k - 2, 0);
    }
  }

  lemma {:induction false} SpanAppend(files: Files, t: Files, hi: nat, p: seq<byte>)
    requires 0 in files && t == files[0 := files[0] + p]
    ensures Span(t, hi, 0) == Span(files, hi, 0) + p
  {
    SpanSame(files, t, hi);
    SpanSplit(files, hi);
    SpanSplit(t, hi);
    Associate(Span(files, hi, 1), files[0], p);
  }

  lemma {:induction false} SpanSame(files: Files, t: Files, hi: nat)
    requires forall i :: 1 <= i <= hi ==> Content(t, i) == Content(files, i)
    ensures Span(t, hi, 1) == Span(files, hi, 1)
  {
    if hi > 0 {
      SpanSame(files, t, hi - 1);
    }
  }

  class RotatingWriter {
    const maxBytes: int
    const keep: int
    var files: Files
    var size: int
    ghost var written: seq<byte>     // everything ever written
    ghost var dropped: seq<byte>     // what rotations have pushed out
    ghost var longest: nat           // the longest record so far

    /**
     What was written is what was dropped, then the backups from the oldest to the newest, then
     the current file; and no file is longer than the limit or the longest record.
     */
    ghost predicate Valid()
      reads this
    {
      && 0 in files && size == |files[0]|
      && written == dropped + History(files, Kept(keep))
      && forall i :: 0 <= i <= Kept(keep) && i in files ==> |files[i]| <= Max(maxBytes, longest)
    }

    constructor (maxBytes: int, keep: int)
      ensures Valid() && written == [] && files == map[0 := []]
      ensures this.maxBytes == maxBytes && this.keep == keep
    {
      this.maxBytes, this.keep := maxBytes, keep;
      files, size := map[0 := []], 0;
      written, dropped, longest := [], [], 0;
      new;
      EmptyHistory(files, Kept(keep));
    }

    /** `open` on the files a previous writer left. */
    method Reopen()
      requires Valid()
      modifies `files, `size
      ensures Valid() && files == old(files) && size == old(size)
    {
      Open();
    }

    method Open()
      modifies `files, `size
      ensures files == if 0 in old(files) then old(files) else old(files)[0 := []]
      ensures size == |files[0]|
    {
      if 0 !in files {
        files := files[0 := []];
      }
      size := |files[0]|;
    }

    method Rotate()
      modifies `files, `size
      ensures IsRotated(old(files), Kept(keep), files) && size == 0
    {
      var i := keep - 1;
      while i >= 1
        invariant Moved(old(files), Kept(keep), files, Max(i, 0))
      {
        RenameMoves(old(files), Kept(keep), files, i);
        files := Rename(files, i, i + 1);
        i := i - 1;
      }
      RenameMoves(old(files), Kept(keep), files, 0);
      files := Rename(files, 0, 1);
      ghost var moved := files;
      Open();
      forall j: nat | j <= Kept(keep) ensures Settled(old(files), Kept(keep), files, j) {
        if j > 0 {
          assert Settled(old(files), Kept(keep), moved, j);
        }
      }
    }

    /** A rotation with its books: what is pushed out is added to what was dropped. */
    method RotateAndRecord()
      requires Valid()
      modifies `files, `size, `dropped
      ensures Valid() && size == 0 && IsRotated(old(files), Kept(keep), files)
      ensures dropped == old(dropped) + (if Pushes(old(files), Kept(keep)) then Content(old(files), Kept(keep)) else [])
    {
      Rotate();
      ghost var out := if Pushes(old(files), Kept(keep)) then Content(old(files), Kept(keep)) else [];
      RotationConserves(old(files), Kept(keep), files);
      Associate(dropped, out, History(files, Kept(keep)));
      dropped := dropped + out;
      forall i: nat | i <= Kept(keep) && i in files ensures |files[i]| <= Max(maxBytes, longest) {
        assert Settled(old(files), Kept(keep), files, i);
      }
      assert Settled(old(files), Kept(keep), files, 0);
    }

    /** The write itself: the file takes the first `n` bytes. */
    method Append(p: seq<byte>, n: nat)
      requires Valid() && n <= |p| && (size + |p| <= maxBytes || size == 0)
      modifies `files, `size, `written, `longest
      ensures Valid() && written == old(written) + p[..n] && size == old(size) + n
      ensures longest == Max(old(longest), |p|) && files == old(files)[0 := old(files)[0] + p[..n]]
    {
      SpanAppend(files, files[0 := files[0] + p[..n]], Kept(keep), p[..n]);
      Associate(dropped, History(files, Kept(keep)), p[..n]);
      files := files[0 := files[0] + p[..n]];
      size := size + n;
      written, longest := written + p[..n], Max(longest, |p|);
    }

    /**
     `n` is how much of the record the file takes. While the record fits, it is appended to the
     current file and nothing moves or is dropped. Otherwise it is the first of a new file, every
     other file has moved one place on, and what the last place held is dropped.
     */
    method Write(p: seq<byte>, n: nat)
      requires Valid() && n <= |p|
      modifies this
      ensures Valid() && written == old(written) + p[..n]
      ensures longest == Max(old(longest), |p|) && old(dropped) <= dropped
      ensures old(size) + |p| <= maxBytes ==> dropped == old(dropped) && files == old(files)[0 := old(files)[0] + p[..n]]
      ensures old(size) + |p| > maxBytes ==>
                && 0 in files && files[0] == p[..n]
                && (forall j: nat :: 1 <= j <= Kept(keep) ==> Settled(old(files), Kept(keep), files, j))
                && dropped == old(dropped) + (if Pushes(old(files), Kept(keep)) then Content(old(files), Kept(keep)) else [])
    {
      if size + |p| > maxBytes {
        RotateAndRecord();
      }
      ghost var before := files;
      Append(p, n);
      if old(size) + |p| > maxBytes {
        assert Settled(old(files), Kept(keep), before, 0);
        forall j: nat | 1 <= j <= Kept(keep) ensures Settled(old(files), Kept(keep), files, j) {
          assert Settled(old(files), Kept(keep), before, j);
        }
      }
    }
  }

  lemma {:induction false} EmptyHistory(files: Files, k: nat)
    requires files == map[0 := []]
    ensures History(files, k) == []
  {
    if k > 0 {
      EmptyHistory(files, k - 1);
    } else {
      assert Span(files, 0, 0) == Content(files, 0) + Span(files, -1, 0);
    }
  }
}
