/**
 * The frame synchroniser: the reading loop of the node.  Each pass reads
 * a window of (up to) eight bytes; a window opening with the header pair
 * becomes the latest frame, any other window is dropped together with one
 * further byte.  The stream is the sequence of bytes the port delivers,
 * and a position says how many of them have been consumed.
 */
module FrameSync {
  import opened Bytes

  /** What one pass of the reading loop leaves behind. */
  datatype SyncState = SyncState(pos: nat, latest: Option<seq<Byte>>)

  /** Frame length requested from the port on every pass. */
  const WindowSize: nat := 8

  function Min(a: int, b: int): int { if a <= b then a else b }

  /**
   * A read of up to `n` bytes from position `pos`: the port returns fewer
   * bytes only when the stream has no more to give.
   */
  function Read(stream: seq<Byte>, pos: nat, n: nat): (w: seq<Byte>)
    requires pos <= |stream|
    ensures |w| == Min(n, |stream| - pos)
    ensures forall i :: 0 <= i < |w| ==> w[i] == stream[pos + i]
  {
    stream[pos .. Min(pos + n, |stream|)]
  }

  /**
   * A window the header test can inspect without an index error: the test
   * stops at the first byte unless it is 255, so a one-byte window of any
   * other value is inspected (and rejected) as well as any longer one.
   */
  predicate Testable(w: seq<Byte>)
  {
    |w| >= 2 || (|w| == 1 && w[0] != HeaderHi)
  }

  /** Only the two header bytes are inspected; the length is not. */
  predicate HasHeader(w: seq<Byte>)
    requires Testable(w)
  {
    w[0] == HeaderHi && w[1] == HeaderLo
  }

  /**
   * A pass can run from `pos`: the window it reads there is testable.  An
   * empty read, or a one-byte read of 255, raises at the header test.
   */
  predicate CanPass(stream: seq<Byte>, pos: nat)
    requires pos <= |stream|
    ensures CanPass(stream, pos) <==> Testable(Read(stream, pos, WindowSize))
  {
    pos + 2 <= |stream| || (pos + 1 == |stream| && stream[pos] != HeaderHi)
  }

  /**
   * One pass of the reading loop as the code has it: an accepted window is
   * latched; on a rejected window one more byte is read and thrown away.
   */
  function SyncStep(stream: seq<Byte>, s: SyncState): (r: SyncState)
    requires s.pos <= |stream| && CanPass(stream, s.pos)
    ensures s.pos < r.pos <= |stream|
  {
    var w := Read(stream, s.pos, WindowSize);
    if HasHeader(w) then SyncState(s.pos + |w|, Some(w))
    else SyncState(Min(s.pos + |w| + 1, |stream|), s.latest)
  }

  /** The reading loop run until the next read would raise at the header test. */
  function SyncRun(stream: seq<Byte>, s: SyncState): (r: SyncState)
    requires s.pos <= |stream|
    ensures s.pos <= r.pos <= |stream|
    ensures !CanPass(stream, r.pos)
    decreases |stream| - s.pos
  {
    if CanPass(stream, s.pos) then SyncRun(stream, SyncStep(stream, s)) else s
  }

  /** A well-formed frame: eight bytes opening with the header pair. */
  predicate ValidFrame(f: seq<Byte>)
  {
    |f| == WindowSize && f[0] == HeaderHi && f[1] == HeaderLo
  }

  /**
   * A window becomes the latest frame if and only if its first two bytes
   * are 255 and 254; a rejected window leaves the latest frame as it was.
   */
  lemma SyncAcceptance(stream: seq<Byte>, s: SyncState)
    requires s.pos <= |stream| && CanPass(stream, s.pos)
    ensures stream[s.pos] == 255 && stream[s.pos + 1] == 254 ==>
      SyncStep(stream, s).latest == Some(Read(stream, s.pos, WindowSize))
    ensures !(stream[s.pos] == 255 && stream[s.pos + 1] == 254) ==>
      SyncStep(stream, s).latest == s.latest
  {
  }

  /**
   * With a full window and one spare byte available, an accepted window
   * advances the position by exactly 8 and a rejected one by exactly 9,
   * so each rejection moves the window start one byte further modulo 8.
   */
  lemma SyncPosition(stream: seq<Byte>, s: SyncState)
    requires s.pos + WindowSize + 1 <= |stream|
    ensures var r := SyncStep(stream, s);
      if stream[s.pos] == 255 && stream[s.pos + 1] == 254
      then r.pos == s.pos + 8 && r.pos % 8 == s.pos % 8
      else r.pos == s.pos + 9 && r.pos % 8 == (s.pos + 1) % 8
  {
  }

  /** Back-to-back frames laid out on the wire, first frame first. */
  function Flatten(fs: seq<seq<Byte>>): (r: seq<Byte>)
    requires forall i :: 0 <= i < |fs| ==> ValidFrame(fs[i])
    ensures |r| == 8 * |fs|
  {
    if fs == [] then [] else assert ValidFrame(fs[0]); fs[0] + Flatten(fs[1..])
  }

  /**
   * On an aligned stream of back-to-back valid frames the loop accepts every
   * window: it ends after the last frame, with that frame latched.
   */
  lemma {:induction false} SyncAlignedFrames(prefix: seq<Byte>, fs: seq<seq<Byte>>, latest: Option<seq<Byte>>)
    requires forall i :: 0 <= i < |fs| ==> ValidFrame(fs[i])
    ensures SyncRun(prefix + Flatten(fs), SyncState(|prefix|, latest)) ==
      SyncState(|prefix| + 8 * |fs|, if fs == [] then latest else Some(fs[|fs| - 1]))
    decreases |fs|
  {
    var stream := prefix + Flatten(fs);
    if fs == [] {
      assert stream == prefix;
    } else {
      var f := fs[0];
      assert stream == (prefix + f) + Flatten(fs[1..]);
      assert Read(stream, |prefix|, WindowSize) == f;
      assert SyncStep(stream, SyncState(|prefix|, latest)) == SyncState(|prefix + f|, Some(f));
      SyncAlignedFrames(prefix + f, fs[1..], Some(f));
      if |fs| > 1 {
        assert fs[1..][|fs[1..]| - 1] == fs[|fs| - 1];
      }
    }
  }

  // ---------------------------------------------------------------------
  // One-byte resynchronisation: a rejected window drops a single byte.
  // The loop above drops nine (the whole window and one more).
  // ---------------------------------------------------------------------

  /**
   * As written, one stray byte in front of a valid frame hides that frame:
   * the window at offset 0 is rejected and the skip consumes the frame's
   * last byte, so the frame is never latched.
   */
  lemma OneStrayByteLosesFrame(b: Byte, f: seq<Byte>, latest: Option<seq<Byte>>)
    requires ValidFrame(f)
    ensures SyncRun([b] + f, SyncState(0, latest)) == SyncState(9, latest)
  {
  }

  /**
   * A single byte other than 255 after a valid frame is read and rejected
   * too: the loop ends after nine bytes with the frame latched.
   */
  lemma TrailingByteConsumed(f: seq<Byte>, b: Byte, latest: Option<seq<Byte>>)
    requires ValidFrame(f) && b != HeaderHi
    ensures SyncRun(f + [b], SyncState(0, latest)) == SyncState(9, Some(f))
  {
    var stream := f + [b];
    assert Read(stream, 0, WindowSize) == f;
    assert SyncStep(stream, SyncState(0, latest)) == SyncState(8, Some(f));
    assert Read(stream, 8, WindowSize) == [b];
    assert SyncStep(stream, SyncState(8, Some(f))) == SyncState(9, Some(f));
    assert SyncRun(stream, SyncState(9, Some(f))) == SyncState(9, Some(f));
    assert SyncRun(stream, SyncState(8, Some(f))) == SyncState(9, Some(f));
  }

  /** One pass with a one-byte resynchronisation on a rejected window. */
  function ResyncStep(stream: seq<Byte>, s: SyncState): (r: SyncState)
    requires s.pos <= |stream| && CanPass(stream, s.pos)
    ensures s.pos < r.pos <= |stream|
    ensures !HasHeader(Read(stream, s.pos, WindowSize)) ==> r == SyncState(s.pos + 1, s.latest)
  {
    var w := Read(stream, s.pos, WindowSize);
    if HasHeader(w) then SyncState(s.pos + |w|, Some(w))
    else SyncState(s.pos + 1, s.latest)
  }

  /** The corrected loop run until the next read would raise at the header test. */
  function ResyncRun(stream: seq<Byte>, s: SyncState): (r: SyncState)
    requires s.pos <= |stream|
    ensures s.pos <= r.pos <= |stream|
    decreases |stream| - s.pos
  {
    if CanPass(stream, s.pos) then ResyncRun(stream, ResyncStep(stream, s)) else s
  }

  /**
   * Sync recovery: a valid frame preceded by any number of bytes in which
   * no header pair starts is found, one dropped byte at a time, and becomes
   * the latest frame.
   */
  lemma {:induction false} ResyncRecovers(noise: seq<Byte>, f: seq<Byte>, latest: Option<seq<Byte>>)
    requires ValidFrame(f)
    requires forall i :: 0 <= i < |noise| ==> !((noise + f)[i] == 255 && (noise + f)[i + 1] == 254)
    ensures ResyncRun(noise + f, SyncState(0, latest)).latest == Some(f)
  {
    ResyncFrom(noise, f, 0, latest);
  }

  lemma {:induction false} ResyncFrom(noise: seq<Byte>, f: seq<Byte>, k: nat, latest: Option<seq<Byte>>)
    requires ValidFrame(f)
    requires k <= |noise|
    requires forall i :: 0 <= i < |noise| ==> !((noise + f)[i] == 255 && (noise + f)[i + 1] == 254)
    ensures ResyncRun(noise + f, SyncState(k, latest)).latest == Some(f)
    decreases |noise| - k
  {
    var stream := noise + f;
    var s := SyncState(k, latest);
    if k == |noise| {
      assert Read(stream, k, WindowSize) == f;
      assert ResyncStep(stream, s) == SyncState(|stream|, Some(f));
    } else {
      assert !HasHeader(Read(stream, k, WindowSize));
      ResyncFrom(noise, f, k + 1, latest);
    }
  }
}
