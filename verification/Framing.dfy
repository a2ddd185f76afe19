/** Cutting PCM into frames of n bytes, the last one zero-padded: what both the
    edge downlink and the file feeder do. */
module Framing {
  import opened Arith
  import opened Bytes

  /** The n bytes at an offset, zero-padded past the end. */
  function ChunkAt(pcm: seq<byte>, off: nat, n: nat): (c: seq<byte>)
    requires off < |pcm|
    ensures |c| == n
  {
    if off + n <= |pcm| then pcm[off..off + n] else pcm[off..] + Zeros(n - (|pcm| - off))
  }

  /** The frames from an offset on. */
  function Chop(pcm: seq<byte>, off: nat, n: nat): seq<seq<byte>>
    requires n > 0
    decreases |pcm| - off
  {
    if off >= |pcm| then [] else [ChunkAt(pcm, off, n)] + Chop(pcm, off + n, n)
  }

  function Joined(frames: seq<seq<byte>>): seq<byte> {
    if frames == [] then [] else frames[0] + Joined(frames[1..])
  }

  /** `chunk := make([]byte, n); copy(chunk, pcm[off:end])`. */
  method CutChunk(pcm: seq<byte>, off: nat, n: nat) returns (chunk: seq<byte>)
    requires off < |pcm|
    ensures chunk == ChunkAt(pcm, off, n)
  {
    var end := off + n;
    if end > |pcm| { end := |pcm|; }
    var buf := new byte[n](_ => 0);
    CopyInto(buf, 0, pcm[off..end]);
    chunk := buf[..];
  }

  /** The frame a framing loop cuts next. */
  lemma ChopStep(all: seq<seq<byte>>, i: nat, pcm: seq<byte>, off: nat, n: nat)
    requires n > 0 && off < |pcm| && i <= |all| && all[i..] == Chop(pcm, off, n)
    ensures i < |all| && all[i] == ChunkAt(pcm, off, n) && all[i + 1..] == Chop(pcm, off + n, n)
  {
    hide ChunkAt;
    assert all[i..][0] == all[i] && all[i..][1..] == all[i + 1..];
  }

  /** Every frame has n bytes, and there are just enough of them. */
  lemma {:induction false} FrameCount(pcm: seq<byte>, off: nat, n: nat)
    requires n > 0 && off <= |pcm|
    ensures forall f <- Chop(pcm, off, n) :: |f| == n
    ensures |pcm| - off <= |Chop(pcm, off, n)| * n < |pcm| - off + n
    decreases |pcm| - off
  {
    hide ChunkAt;
    if off < |pcm| {
      var rest := Chop(pcm, off + n, n);
      Distribute(|rest|, n);
      if off + n <= |pcm| { FrameCount(pcm, off + n, n); }
    }
  }

  /** The frames hold the PCM, whole and in order, then the padding. */
  lemma {:induction false} FramesJoin(pcm: seq<byte>, off: nat, n: nat)
    requires n > 0 && off <= |pcm| && |Chop(pcm, off, n)| * n >= |pcm| - off
    ensures Joined(Chop(pcm, off, n)) == pcm[off..] + Zeros(|Chop(pcm, off, n)| * n - (|pcm| - off))
    decreases |pcm| - off
  {
    if off < |pcm| {
      var c, rest := ChunkAt(pcm, off, n), Chop(pcm, off + n, n);
      JoinedCons(c, rest);
      Distribute(|rest|, n);
      if off + n <= |pcm| {
        FramesJoin(pcm, off + n, n);
        Assoc(c, pcm[off + n..], Zeros(|rest| * n - (|pcm| - off - n)));
        Split(pcm, off, off + n);
      }
      hide Joined;
    }
  }

  lemma Split<T>(s: seq<T>, i: nat, j: nat)
    requires i <= j <= |s|
    ensures s[i..] == s[i..j] + s[j..]
  {
  }

  lemma JoinedCons(c: seq<byte>, rest: seq<seq<byte>>)
    ensures Joined([c] + rest) == c + Joined(rest)
  {
    assert ([c] + rest)[1..] == rest;
  }
}
