/** The frame codec of the TCP wire protocol: bytes accumulate in a buffer,
    every byte run before a newline is one frame, and a buffer that grows
    past the size cap is a fatal framing error. */
module Framing {

  newtype byte = x: int | 0 <= x < 256

  type Bytes = seq<byte>

  /** The frame delimiter, `b'\n'` (the default `FRAME_DELIMITER`). */
  const Newline: byte := 10

  /** The default `MAX_MESSAGE_SIZE`, 128 KiB. */
  const DefaultMaxSize: nat := 131072

  /** The bytes a sender writes for a list of frames: each frame followed by
      the delimiter. */
  function Terminated(frames: seq<Bytes>): Bytes {
    if |frames| == 0 then [] else frames[0] + [Newline] + Terminated(frames[1..])
  }

  /** No frame of the list contains the delimiter. */
  predicate DelimiterFree(frames: seq<Bytes>) {
    forall k :: 0 <= k < |frames| ==> Newline !in frames[k]
  }

  lemma {:induction false} TerminatedAppend(a: seq<Bytes>, b: seq<Bytes>)
    ensures Terminated(a + b) == Terminated(a) + Terminated(b)
    decreases |a|
  {
    if |a| > 0 {
      TerminatedAppend(a[1..], b);
      assert (a + b)[1..] == a[1..] + b;
    } else {
      assert a + b == b;
    }
  }

  /** The position of the first delimiter (`bytes.find`). */
  function FirstNewline(b: Bytes): (i: nat)
    requires Newline in b
    ensures i < |b| && b[i] == Newline && Newline !in b[..i]
  {
    if b[0] == Newline then 0
    else
      assert b == [b[0]] + b[1..];
      var j := FirstNewline(b[1..]);
      assert b[..j + 1] == [b[0]] + b[1..][..j];
      j + 1
  }

  /** The loop `while delimiter in buffer`: cut the bytes before the first
      delimiter off as a frame, drop the delimiter, and go on with the rest. */
  function SplitFrames(b: Bytes): (r: (seq<Bytes>, Bytes))
    ensures DelimiterFree(r.0)
    ensures Newline !in r.1
    ensures Terminated(r.0) + r.1 == b
  {
    if Newline !in b then ([], b)
    else
      var i := FirstNewline(b);
      var next := SplitFrames(b[i + 1..]);
      var frames := [b[..i]] + next.0;
      ConsFrame(b, i, next.0, next.1);
      (frames, next.1)
  }

  /** One more frame in front: the bytes before a delimiter, then what the
      rest splits into. */
  lemma ConsFrame(b: Bytes, i: nat, frames: seq<Bytes>, tail: Bytes)
    requires i < |b| && b[i] == Newline && Newline !in b[..i]
    requires DelimiterFree(frames) && Terminated(frames) + tail == b[i + 1..]
    ensures DelimiterFree([b[..i]] + frames)
    ensures Terminated([b[..i]] + frames) + tail == b
  {
    var all := [b[..i]] + frames;
    assert all[1..] == frames;
    assert b == b[..i] + [Newline] + b[i + 1..];
    forall k | 0 <= k < |all| ensures Newline !in all[k] {
      if k > 0 { assert all[k] == frames[k - 1]; }
    }
  }

  /** A delimiter-free frame followed by the delimiter ends at the first
      delimiter, and what follows is the rest. */
  lemma {:induction false} FrameEndsAtFirstNewline(f: Bytes, rest: Bytes)
    requires Newline !in f
    ensures var b := f + [Newline] + rest;
            Newline in b && FirstNewline(b) == |f| && b[..|f|] == f && b[|f| + 1..] == rest
    decreases |f|
  {
    var b := f + [Newline] + rest;
    assert b[|f|] == Newline;
    if |f| > 0 {
      assert b[0] == f[0];
      assert b[1..] == f[1..] + [Newline] + rest;
      FrameEndsAtFirstNewline(f[1..], rest);
    }
  }

  /** The framing of a byte string is unique: whatever was written as
      delimiter-free frames plus a delimiter-free tail splits back into
      exactly those frames and that tail. */
  lemma {:induction false} SplitTerminated(frames: seq<Bytes>, tail: Bytes)
    requires DelimiterFree(frames)
    requires Newline !in tail
    ensures SplitFrames(Terminated(frames) + tail) == (frames, tail)
    decreases |frames|
  {
    var b := Terminated(frames) + tail;
    if |frames| == 0 {
      assert b == tail;
    } else {
      var f, rest := frames[0], Terminated(frames[1..]) + tail;
      assert b == f + [Newline] + rest;
      FrameEndsAtFirstNewline(f, rest);
      assert DelimiterFree(frames[1..]) by {
        forall k | 0 <= k < |frames[1..]| ensures Newline !in frames[1..][k] {
          assert frames[1..][k] == frames[k + 1];
        }
      }
      SplitTerminated(frames[1..], tail);
      assert frames == [f] + frames[1..];
    }
  }

  /** Chunking invariance: splitting after a first chunk and then after a
      second one yields the same frames, in the same order, and the same
      tail as one split of the concatenation. */
  lemma ChunkingInvariance(buffer: Bytes, a: Bytes, b: Bytes,
                           f1: seq<Bytes>, r1: Bytes, f2: seq<Bytes>, r2: Bytes)
    requires SplitFrames(buffer + a) == (f1, r1)
    requires SplitFrames(r1 + b) == (f2, r2)
    ensures SplitFrames(buffer + a + b) == (f1 + f2, r2)
  {
    TerminatedTwice(buffer + a, b, f1, r1, f2, r2);
    DelimiterFreeAppend(f1, f2);
    SplitTerminated(f1 + f2, r2);
  }

  lemma TerminatedTwice(x: Bytes, b: Bytes, f1: seq<Bytes>, r1: Bytes, f2: seq<Bytes>, r2: Bytes)
    requires Terminated(f1) + r1 == x
    requires Terminated(f2) + r2 == r1 + b
    ensures Terminated(f1 + f2) + r2 == x + b
  {
    TerminatedAppend(f1, f2);
    var t1, t2 := Terminated(f1), Terminated(f2);
    calc {
      Terminated(f1 + f2) + r2;
      (t1 + t2) + r2;
      t1 + (t2 + r2);
      t1 + (r1 + b);
      (t1 + r1) + b;
    }
  }

  lemma DelimiterFreeAppend(f1: seq<Bytes>, f2: seq<Bytes>)
    requires DelimiterFree(f1) && DelimiterFree(f2)
    ensures DelimiterFree(f1 + f2)
  {
    forall k | 0 <= k < |f1 + f2| ensures Newline !in (f1 + f2)[k] {
      if k < |f1| { assert (f1 + f2)[k] == f1[k]; } else { assert (f1 + f2)[k] == f2[k - |f1|]; }
    }
  }

  /** What one `tcp_receive` does to the buffer before any frame is
      interpreted. */
  datatype Received =
    | Overflow(buffer: Bytes)                      // the cap was exceeded: close, process nothing
    | Frames(frames: seq<Bytes>, rest: Bytes)      // frames to process in order, and what stays buffered

  /** Appends the chunk; if the buffer is then longer than `maxSize` the
      connection is closed and the (grown) buffer is kept as it is, otherwise
      every complete frame is cut off. */
  function Receive(buffer: Bytes, chunk: Bytes, maxSize: nat): (r: Received)
    ensures r.Overflow? <==> |buffer + chunk| > maxSize
    ensures r.Overflow? ==> r.buffer == buffer + chunk
    ensures r.Frames? ==> Terminated(r.frames) + r.rest == buffer + chunk
    ensures r.Frames? ==> DelimiterFree(r.frames) && Newline !in r.rest
    ensures r.Frames? ==> |r.rest| <= maxSize
  {
    var b := buffer + chunk;
    if |b| > maxSize then Overflow(b)
    else
      var (frames, rest) := SplitFrames(b);
      assert |Terminated(frames) + rest| == |b|;
      Frames(frames, rest)
  }

  /** A buffer of exactly the cap is accepted; one byte more is not. */
  lemma CapIsInclusive(buffer: Bytes, chunk: Bytes, maxSize: nat)
    requires |buffer + chunk| == maxSize
    ensures Receive(buffer, chunk, maxSize).Frames?
    ensures Receive(buffer, chunk + [0], maxSize).Overflow?
  {
    assert |buffer + (chunk + [0])| == maxSize + 1;
  }

  /** Once the buffer has overflowed it is never emptied, so every later
      chunk overflows too. */
  lemma OverflowIsSticky(buffer: Bytes, chunk: Bytes, maxSize: nat)
    requires |buffer| > maxSize
    ensures Receive(buffer, chunk, maxSize).Overflow?
  {
  }

  /** The cap is checked before splitting: many small frames delivered in one
      chunk can overflow even though every frame is tiny. */
  lemma CapAppliesBeforeSplitting(maxSize: nat)
    ensures var chunk := seq(maxSize + 1, k => Newline);
            Receive([], chunk, maxSize).Overflow? && DelimiterFree(SplitFrames(chunk).0)
  {
  }
}
