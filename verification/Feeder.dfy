/** The integer resampler and the framer of internal/edge/file/feeder.go. */
module Feeder {
  import opened Arith
  import opened Bytes
  import opened Framing

  /** Output samples for n input samples. */
  function OutCount(n: nat, srcRate: nat, dstRate: nat): (m: nat)
    requires srcRate > 0
    ensures m >= 1
  {
    var m := n * dstRate / srcRate;
    if m < 1 then 1 else m
  }

  /** The input sample behind output sample i. */
  function SourceIndex(i: nat, srcRate: nat, dstRate: nat): nat
    requires dstRate > 0
  {
    i * srcRate / dstRate
  }

  /** Every source index is in range, so the clamp in the loop never acts. */
  lemma SourceInRange(n: nat, i: nat, srcRate: nat, dstRate: nat)
    requires n > 0 && srcRate > 0 && dstRate > 0 && i < OutCount(n, srcRate, dstRate)
    ensures SourceIndex(i, srcRate, dstRate) < n
  {
    if i == 0 {
      DivIs(0, dstRate, 0);
    } else {
      var m := n * dstRate / srcRate;
      DivBounds(n * dstRate, srcRate);
      MulLe(i + 1, m, srcRate);
      Distribute(i, srcRate);
      assert i * srcRate < n * dstRate;
      DivBounds(i * srcRate, dstRate);
      var q := SourceIndex(i, srcRate, dstRate);
      if q >= n { MulLe(n, q, dstRate); }
    }
  }

  /** Samples keep their order. */
  lemma SourceIndexMonotone(i: nat, j: nat, srcRate: nat, dstRate: nat)
    requires dstRate > 0 && i <= j
    ensures SourceIndex(i, srcRate, dstRate) <= SourceIndex(j, srcRate, dstRate)
  {
    MulLe(i, j, srcRate);
    DivMonotone(i * srcRate, j * srcRate, dstRate);
  }

  /** Output samples 0..m-1: each a copy of its source sample. */
  function Resampled(src: seq<byte>, srcRate: nat, dstRate: nat, m: nat): (out: seq<byte>)
    requires srcRate > 0 && dstRate > 0 && |src| >= 2 && m <= OutCount(|src| / 2, srcRate, dstRate)
    ensures |out| == 2 * m
  {
    if m == 0 then []
    else
      SourceInRange(|src| / 2, m - 1, srcRate, dstRate);
      var pos := SourceIndex(m - 1, srcRate, dstRate);
      Resampled(src, srcRate, dstRate, m - 1) + src[2 * pos..2 * pos + 2]
  }

  function Resample(src: seq<byte>, srcRate: nat, dstRate: nat): seq<byte>
    requires srcRate == dstRate || |src| < 2 || (srcRate > 0 && dstRate > 0)
  {
    if srcRate == dstRate || |src| < 2 then src
    else Resampled(src, srcRate, dstRate, OutCount(|src| / 2, srcRate, dstRate))
  }

  /** Divides by neither rate when there is nothing to resample. */
  method ResampleLinear(src: seq<byte>, srcRate: nat, dstRate: nat) returns (out: seq<byte>)
    requires srcRate == dstRate || |src| < 2 || (srcRate > 0 && dstRate > 0)
    ensures out == Resample(src, srcRate, dstRate)
  {
    if srcRate == dstRate || |src| < 2 { return src; }
    var srcN := |src| / 2;
    var dstN := srcN * dstRate / srcRate;
    if dstN < 1 { dstN := 1; }
    var buf := new byte[dstN * 2];
    for i := 0 to dstN
      invariant buf[..2 * i] == Resampled(src, srcRate, dstRate, i)
    {
      var pos := i * srcRate / dstRate;
      SourceInRange(srcN, i, srcRate, dstRate);
      if pos >= srcN { pos := srcN - 1; }
      CopyInto(buf, i * 2, src[pos * 2..pos * 2 + 2]);
    }
    assert buf[..] == buf[..2 * dstN];
    out := buf[..];
  }

  /** Byte b of output sample i is that byte of its source sample. */
  lemma {:induction false} ResampledAt(src: seq<byte>, srcRate: nat, dstRate: nat, m: nat, i: nat, b: nat)
    requires srcRate > 0 && dstRate > 0 && |src| >= 2 && i < m <= OutCount(|src| / 2, srcRate, dstRate) && b < 2
    ensures
      var pos := SourceIndex(i, srcRate, dstRate);
      pos < |src| / 2 && Resampled(src, srcRate, dstRate, m)[2 * i + b] == src[2 * pos + b]
  {
    SourceInRange(|src| / 2, i, srcRate, dstRate);
    SourceInRange(|src| / 2, m - 1, srcRate, dstRate);
    if i < m - 1 { ResampledAt(src, srcRate, dstRate, m - 1, i, b); }
  }

  /** Going up k times repeats every sample k times. */
  lemma UpIndex(i: nat, rate: nat, k: nat)
    requires rate > 0 && k > 0
    ensures SourceIndex(i, rate, k * rate) == i / k
  {
    DivBounds(i, k);
    var q := i / k;
    calc {
      q * (k * rate);
      { MulAssoc(q, k, rate); }
      (q * k) * rate;
    }
    MulLe(q * k, i, rate);
    MulLe(i + 1, q * k + k, rate);
    Distribute(i, rate);
    assert (q * k + k) * rate == q * (k * rate) + k * rate by {
      MulAssoc(q, k, rate);
      DistributeLeft(q * k, k, rate);
    }
    DivIs(i * rate, k * rate, q);
  }

  /** Going down k times keeps every k-th sample. */
  lemma DownIndex(i: nat, rate: nat, k: nat)
    requires rate > 0 && k > 0
    ensures SourceIndex(i, k * rate, rate) == i * k
  {
    MulAssoc(i, k, rate);
    DivIs(i * (k * rate), rate, i * k);
  }

  lemma UpCount(n: nat, rate: nat, k: nat)
    requires n > 0 && rate > 0 && k > 0
    ensures OutCount(n, rate, k * rate) == n * k && OutCount(n * k, k * rate, rate) == n
  {
    MulAssoc(n, k, rate);
    DivIs(n * (k * rate), rate, n * k);
    MulLe(1, n * k, 1);
    assert n * k >= 1 by { MulLe(1, k, n); }
    DivIs(n * k * rate, k * rate, n);
  }

  /** Upsampling by a whole factor and coming back gives back every whole
      sample: the PCM itself unless it ends in half a sample. */
  lemma UpThenDown(src: seq<byte>, rate: nat, k: nat)
    requires rate > 0 && k >= 2
    ensures
      var back := Resample(Resample(src, rate, k * rate), k * rate, rate);
      && (|src| >= 2 ==> back == src[..|src| / 2 * 2])
      && (back == src <==> |src| % 2 == 0 || |src| < 2)
  {
    assert k * rate > rate by { MulLe(2, k, rate); }
    if |src| >= 2 {
      var n := |src| / 2;
      UpCount(n, rate, k);
      var up := Resample(src, rate, k * rate);
      assert n * k >= 1 by { MulLe(1, k, n); }
      var back := Resample(up, k * rate, rate);
      assert up == Resampled(src, rate, k * rate, n * k) && |up| / 2 == n * k;
      assert back == Resampled(up, k * rate, rate, n);
      hide Resample, Resampled, OutCount, SourceIndex;
      forall j | 0 <= j < 2 * n ensures back[j] == src[j] {
        RoundTripAt(src, rate, k, n, j / 2, j % 2);
      }
    }
  }

  lemma RoundTripAt(src: seq<byte>, rate: nat, k: nat, n: nat, i: nat, b: nat)
    requires rate > 0 && k >= 2 && |src| / 2 == n && i < n && b < 2
    requires OutCount(n, rate, k * rate) == n * k && OutCount(n * k, k * rate, rate) == n
    requires k * rate > 0 && n * k >= 1
    ensures Resampled(Resampled(src, rate, k * rate, n * k), k * rate, rate, n)[2 * i + b] == src[2 * i + b]
  {
    var up := Resampled(src, rate, k * rate, n * k);
    DownIndex(i, rate, k);
    UpIndex(i * k, rate, k);
    DivIs(i * k, k, i);
    MulLe(i + 1, n, k);
    Distribute(i, k);
    ResampledAt(up, k * rate, rate, n, i, b);
    ResampledAt(src, rate, k * rate, n * k, i * k, b);
    hide Resampled, OutCount;
  }

  // ---------------------------------------------------------------- framing

  /** A frame handed to the session, numbered from 1. */
  datatype Numbered = Numbered(data: seq<byte>, seqNo: nat)

  /** The framing loop. The session goes away after the given number of frames,
      while the loop paces or before it hands out another; the loop says eof when
      it has not noticed by its end. It does not end when the frame size is 0. */
  method RunFeeder(pcm: seq<byte>, n: nat, patience: nat, pacing: bool) returns (frames: seq<Numbered>, eof: bool)
    requires n > 0
    ensures
      var all := Chop(pcm, 0, n);
      && eof == (|all| < patience || (|all| == patience && (patience == 0 || !pacing)))
      && |frames| == (if |all| < patience then |all| else patience)
      && forall i :: 0 <= i < |frames| ==> frames[i] == Numbered(all[i], i + 1)
  {
    frames := [];
    var seqNo := 0;
    var off := 0;
    ghost var all := Chop(pcm, 0, n);
    while off < |pcm|
      invariant seqNo == |frames| <= |all| && seqNo <= patience && (pacing && seqNo == patience ==> patience == 0)
      invariant all[seqNo..] == Chop(pcm, off, n)
      invariant forall i :: 0 <= i < |frames| ==> frames[i] == Numbered(all[i], i + 1)
      decreases |pcm| - off
    {
      ChopStep(all, seqNo, pcm, off, n);
      hide Chop, ChunkAt;
      if seqNo == patience { return frames, false; }
      var chunk := CutChunk(pcm, off, n);
      seqNo := seqNo + 1;
      frames := frames + [Numbered(chunk, seqNo)];
      if pacing && seqNo == patience { return frames, false; }
      off := off + n;
    }
    eof := true;
  }

  // ---------------------------------------------------------------- rates

  /** The output lasts as long as the input, cut to whole samples, and has at least one. */
  lemma OutCountIs(n: nat, srcRate: nat, dstRate: nat)
    requires srcRate > 0
    ensures
      var m := OutCount(n, srcRate, dstRate);
      if n * dstRate < srcRate then m == 1 else m * srcRate <= n * dstRate < m * srcRate + srcRate
  {
    DivBounds(n * dstRate, srcRate);
    if n * dstRate < srcRate { DivIs(n * dstRate, srcRate, 0); } else { DivMonotone(srcRate, n * dstRate, srcRate); }
  }

  /** An output sample is taken from the input sample that is sounding when it begins. */
  lemma SourceIndexIs(i: nat, srcRate: nat, dstRate: nat)
    requires dstRate > 0
    ensures var pos := SourceIndex(i, srcRate, dstRate); pos * dstRate <= i * srcRate < pos * dstRate + dstRate
  {
    DivBounds(i * srcRate, dstRate);
  }

  /** Resampling copies when there is nothing to do, else gives its samples one
      by one, each a whole sample of the source. */
  lemma ResampleIs(src: seq<byte>, srcRate: nat, dstRate: nat)
    requires srcRate > 0 && dstRate > 0
    ensures
      var out := Resample(src, srcRate, dstRate);
      if srcRate == dstRate || |src| < 2 then out == src
      else
        && |out| == 2 * OutCount(|src| / 2, srcRate, dstRate)
        && forall i :: 0 <= i < |out| / 2 ==>
                         var pos := SourceIndex(i, srcRate, dstRate);
                         2 * pos + 1 < |src| && out[2 * i] == src[2 * pos] && out[2 * i + 1] == src[2 * pos + 1]
  {
    if srcRate != dstRate && |src| >= 2 {
      var m := OutCount(|src| / 2, srcRate, dstRate);
      hide OutCount, SourceIndex;
      forall i | 0 <= i < m
        ensures
          var pos := SourceIndex(i, srcRate, dstRate);
          && 2 * pos + 1 < |src|
          && Resampled(src, srcRate, dstRate, m)[2 * i] == src[2 * pos]
          && Resampled(src, srcRate, dstRate, m)[2 * i + 1] == src[2 * pos + 1]
      {
        ResampledAt(src, srcRate, dstRate, m, i, 0);
        ResampledAt(src, srcRate, dstRate, m, i, 1);
      }
    }
  }
}
