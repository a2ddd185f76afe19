/** What the recorder promises, over every history of writes and frames. */
module RecordLaws {
  import opened Arith
  import opened Bytes
  import opened Wrappers
  import Wav
  import opened Record

  // ---------------------------------------------------------------- conservation

  /** One leg's share of a stereo frame: audio from the front of the backlog,
      then silence. */
  datatype Frame = Frame(audio: seq<byte>, silence: nat)

  function FrameOf(b: seq<byte>, n: nat): (f: Frame)
    ensures f.audio <= b && |f.audio| + f.silence == n
    ensures f.audio + Rest(b, n) == b
    ensures f.silence > 0 ==> f.audio == b
    ensures f.audio + Zeros(f.silence) == Front(b, n)
  {
    if n <= |b| then Frame(b[..n], 0) else Frame(b, n - |b|)
  }

  /** A leg's share of the frame that follows a history. */
  function NextFrame(h: History, n: nat, leg: bool): Frame {
    FrameOf(Run(h, n).Leg(leg), n)
  }

  /** The bytes offered to a leg that it accepted, in order. */
  function Accepted(h: History, n: nat, leg: bool): seq<byte> {
    match h
    case Start => []
    case Then(before, Emit(_)) => Accepted(before, n, leg)
    case Then(before, Write(caller, pcm)) =>
      if caller == leg && Fits(Run(before, n).Leg(leg), pcm) then Accepted(before, n, leg) + pcm
      else Accepted(before, n, leg)
  }

  function Offered(h: History, leg: bool): nat {
    match h
    case Start => 0
    case Then(before, Emit(_)) => Offered(before, leg)
    case Then(before, Write(caller, pcm)) => Offered(before, leg) + if caller == leg then |pcm| else 0
  }

  /** The audio of all frames a leg contributed, in order. */
  function Emitted(h: History, n: nat, leg: bool): seq<byte> {
    match h
    case Start => []
    case Then(before, Write(_, _)) => Emitted(before, n, leg)
    case Then(before, Emit(_)) => Emitted(before, n, leg) + NextFrame(before, n, leg).audio
  }

  /** What the frames that reached the file sound like on one leg. */
  function Heard(h: History, n: nat, leg: bool): seq<byte> {
    match h
    case Start => []
    case Then(before, Write(_, _)) => Heard(before, n, leg)
    case Then(before, Emit(ok)) =>
      var f := NextFrame(before, n, leg);
      if ok then Heard(before, n, leg) + (f.audio + Zeros(f.silence)) else Heard(before, n, leg)
  }

  /** Nothing is reordered, duplicated or lost: what a leg accepted is what it
      emitted followed by what it still holds, and the rest was counted. */
  lemma {:induction false} Conservation(h: History, n: nat, leg: bool)
    ensures Emitted(h, n, leg) + Run(h, n).Leg(leg) == Accepted(h, n, leg)
  {
    if h.Then? {
      Conservation(h.before, n, leg);
      var e, b, a := Emitted(h.before, n, leg), Run(h.before, n).Leg(leg), Accepted(h.before, n, leg);
      if h.last.Emit? {
        Assoc(e, NextFrame(h.before, n, leg).audio, Rest(b, n));
      } else {
        Assoc(e, b, h.last.pcm);
      }
      hide StereoFrame, FrameOf, Rest;
    }
  }

  lemma {:induction false} OfferedIsAcceptedOrDropped(h: History, n: nat, leg: bool)
    ensures Offered(h, leg) == |Accepted(h, n, leg)| + Run(h, n).Dropped(leg)
    ensures |Run(h, n).Leg(leg)| <= 480_000
  {
    if h.Then? {
      OfferedIsAcceptedOrDropped(h.before, n, leg);
      hide StereoFrame;
    }
  }

  /** A leg takes a write whole while it then holds no more than 480000 bytes, 30
      seconds at 8 kHz, and otherwise drops it whole. */
  lemma WriteTakesOrDrops(h: History, n: nat, leg: bool, pcm: seq<byte>)
    ensures
      var s, t := Run(h, n), Run(Then(h, Write(leg, pcm)), n);
      if |s.Leg(leg)| + |pcm| <= 480_000 then
        && t.Leg(leg) == s.Leg(leg) + pcm && t.Dropped(leg) == s.Dropped(leg)
        && Accepted(Then(h, Write(leg, pcm)), n, leg) == Accepted(h, n, leg) + pcm
      else
        && t.Leg(leg) == s.Leg(leg) && t.Dropped(leg) == s.Dropped(leg) + |pcm|
        && Accepted(Then(h, Write(leg, pcm)), n, leg) == Accepted(h, n, leg)
  {
  }

  // ---------------------------------------------------------------- keeping up

  /** Each tick a leg is fed some PCM, and a frame is written. */
  function Fed(h: History, leg: bool, pcms: seq<seq<byte>>): History
    decreases |pcms|
  {
    if pcms == [] then h
    else Then(Then(Fed(h, leg, pcms[..|pcms| - 1]), Write(leg, pcms[|pcms| - 1])), Emit(true))
  }

  lemma FedOnce(h: History, n: nat, leg: bool, pcm: seq<byte>)
    requires |pcm| == n
    ensures
      var s, next := Run(h, n), Then(Then(h, Write(leg, pcm)), Emit(true));
      var t := Run(next, n);
      && |t.Leg(leg)| <= |s.Leg(leg)|
      && (s.Leg(leg) == [] && n <= 480_000 ==>
            t.Leg(leg) == [] && t.Dropped(leg) == s.Dropped(leg) && Accepted(next, n, leg) == Accepted(h, n, leg) + pcm)
  {
    WriteTakesOrDrops(h, n, leg, pcm);
    hide StereoFrame, Fits;
  }

  function Joined(pcms: seq<seq<byte>>): seq<byte>
    decreases |pcms|
  {
    if pcms == [] then [] else Joined(pcms[..|pcms| - 1]) + pcms[|pcms| - 1]
  }

  /** A leg fed exactly one cadence's audio a tick never accumulates: its backlog
      does not grow, and one that starts empty stays empty and loses nothing. */
  lemma {:induction false} OnTimeNeverAccumulates(
    h: History, n: nat, leg: bool, pcms: seq<seq<byte>>, rate: int, cadence: nat)
    requires HoldsOneCadence(rate, cadence, n) && rate * 2 % 1000 == 0
    requires forall i :: 0 <= i < |pcms| ==> |pcms[i]| * 1_000_000_000 == rate * 2 * cadence
    ensures
      var s, t := Run(h, n), Run(Fed(h, leg, pcms), n);
      && |t.Leg(leg)| <= |s.Leg(leg)|
      && (s.Leg(leg) == [] && n <= 480_000 ==>
            && t.Leg(leg) == [] && t.Dropped(leg) == s.Dropped(leg)
            && Accepted(Fed(h, leg, pcms), n, leg) == Accepted(h, n, leg) + Joined(pcms))
    decreases |pcms|
  {
    if pcms == [] {
      assert Accepted(h, n, leg) + [] == Accepted(h, n, leg);
    } else {
      var before, last := pcms[..|pcms| - 1], pcms[|pcms| - 1];
      OnTimeNeverAccumulates(h, n, leg, before, rate, cadence);
      SameSize(|last|, n);
      FedOnce(Fed(h, leg, before), n, leg, last);
      Assoc(Accepted(h, n, leg), Joined(before), last);
      hide Run, Accepted;
    }
  }

  lemma SameSize(a: nat, b: nat)
    requires a * 1_000_000_000 == b * 1_000_000_000
    ensures a == b
  {
  }

  /** A frame carries silence only when it took all its leg had accepted. */
  lemma SilenceOnlyWhenDrained(h: History, n: nat, leg: bool, ok: bool)
    requires NextFrame(h, n, leg).silence > 0
    ensures Emitted(Then(h, Emit(ok)), n, leg) == Accepted(h, n, leg)
  {
    Conservation(h, n, leg);
  }

  // ---------------------------------------------------------------- de-interleaving

  /** One channel of interleaved stereo data. */
  function Lane(d: seq<byte>, leg: bool): (s: seq<byte>)
    ensures |s| == |d| / 4 * 2
  {
    seq(|d| / 4 * 2, j requires 0 <= j < |d| / 4 * 2 => d[LaneIndex(j, leg)])
  }

  function LaneIndex(j: nat, leg: bool): nat {
    j / 2 * 4 + j % 2 + if leg then 0 else 2
  }

  lemma LaneIndexShift(j: nat, m: nat, leg: bool)
    ensures j < 2 * m ==> LaneIndex(j, leg) < 4 * m
    ensures j >= 2 * m ==> LaneIndex(j, leg) == 4 * m + LaneIndex(j - 2 * m, leg)
  {
  }

  lemma LaneAppend(a: seq<byte>, b: seq<byte>, leg: bool)
    requires |a| % 4 == 0
    ensures Lane(a + b, leg) == Lane(a, leg) + Lane(b, leg)
  {
    var m := |a| / 4;
    forall j | 0 <= j < |a + b| / 4 * 2
      ensures Lane(a + b, leg)[j] == (Lane(a, leg) + Lane(b, leg))[j]
    {
      LaneIndexShift(j, m, leg);
      hide LaneIndex;
    }
  }

  lemma {:induction false} LaneOfInterleaved(left: seq<byte>, right: seq<byte>, k: nat, leg: bool)
    requires 2 * k <= |left| && 2 * k <= |right|
    ensures Lane(Interleaved(left, right, k), leg) == if leg then left[..2 * k] else right[..2 * k]
  {
    hide Interleaved, Lane;
    if k == 0 {
      NoLane(Interleaved(left, right, 0), leg);
    } else {
      var last := [left[2 * k - 2], left[2 * k - 1], right[2 * k - 2], right[2 * k - 1]];
      var before := Interleaved(left, right, k - 1);
      assert Interleaved(left, right, k) == before + last by { InterleavedStep(left, right, k - 1); }
      LaneOfInterleaved(left, right, k - 1, leg);
      LaneAppend(before, last, leg);
      LaneOfOne(last, leg);
      OneMoreSample(if leg then left else right, k - 1);
    }
  }

  lemma InterleavedStep(left: seq<byte>, right: seq<byte>, k: nat)
    requires 2 * k + 2 <= |left| && 2 * k + 2 <= |right|
    ensures Interleaved(left, right, k + 1) ==
            Interleaved(left, right, k) + [left[2 * k], left[2 * k + 1], right[2 * k], right[2 * k + 1]]
  {
  }

  lemma NoLane(d: seq<byte>, leg: bool)
    requires d == []
    ensures Lane(d, leg) == []
  {
  }

  lemma OneMoreSample(s: seq<byte>, k: nat)
    requires 2 * k + 2 <= |s|
    ensures s[..2 * (k + 1)] == s[..2 * k] + [s[2 * k], s[2 * k + 1]]
  {
  }

  lemma LaneOfOne(d: seq<byte>, leg: bool)
    requires |d| == 4
    ensures Lane(d, leg) == if leg then [d[0], d[1]] else [d[2], d[3]]
  {
  }

  /** The data is whole stereo samples, so both lanes are equally long. */
  lemma {:induction false} WholeSamples(h: History, n: nat)
    ensures |Run(h, n).data| % 4 == 0
    ensures |Lane(Run(h, n).data, true)| == |Lane(Run(h, n).data, false)|
  {
    hide StereoFrame, Rest, Front, Lane;
    if h.Then? {
      var s := Run(h.before, n);
      WholeSamples(h.before, n);
      WholeFrame(s, n);
      assert Run(h, n).data == if h.last == Emit(true) then s.data + StereoFrame(s, n) else s.data;
      hide Run;
    }
  }

  lemma FoursAddUp(a: nat, k: nat)
    ensures a % 4 == 0 ==> (a + 4 * k) % 4 == 0
  {
  }

  lemma WholeFrame(s: State, n: nat)
    ensures |s.data| % 4 == 0 ==> |s.data + StereoFrame(s, n)| % 4 == 0
  {
    hide Front, Interleaved;
    FoursAddUp(|s.data|, n / 2);
  }

  /** A frame that reaches the file extends each lane by the leg's samples. */
  lemma LaneAfterFrame(s: State, n: nat, leg: bool)
    requires |s.data| % 4 == 0
    ensures Lane(s.data + StereoFrame(s, n), leg) == Lane(s.data, leg) + Front(s.Leg(leg), n)[..n / 2 * 2]
  {
    LaneAppend(s.data, StereoFrame(s, n), leg);
    LaneOfInterleaved(Front(s.caller, n), Front(s.agent, n), n / 2, leg);
    hide Lane, Front, StereoFrame;
  }

  /** De-interleaving the file gives back exactly the frames of each leg. */
  lemma {:induction false} LanesAreFrames(h: History, n: nat, leg: bool)
    requires n % 2 == 0
    ensures Lane(Run(h, n).data, leg) == Heard(h, n, leg)
  {
    if h.Then? {
      LanesAreFrames(h.before, n, leg);
      if h.last == Emit(true) {
        var s := Run(h.before, n);
        WholeSamples(h.before, n);
        LaneAfterFrame(s, n, leg);
        var f := NextFrame(h.before, n, leg);
        hide Lane, StereoFrame, Rest;
        assert Front(s.Leg(leg), n)[..n / 2 * 2] == f.audio + Zeros(f.silence);
      }
    }
  }

  function FramesWritten(h: History): nat {
    match h
    case Start => 0
    case Then(before, e) => FramesWritten(before) + if e == Emit(true) then 1 else 0
  }

  lemma {:induction false} LaneLength(h: History, n: nat, leg: bool)
    ensures |Lane(Run(h, n).data, leg)| == FramesWritten(h) * (n / 2 * 2)
    ensures |Heard(h, n, leg)| == FramesWritten(h) * n
  {
    hide Lane, StereoFrame, Rest, Front;
    if h.Then? {
      LaneLength(h.before, n, leg);
      if h.last == Emit(true) {
        var s, w := Run(h.before, n), FramesWritten(h.before);
        WholeSamples(h.before, n);
        LaneAfterFrame(s, n, leg);
        assert Run(h, n).data == s.data + StereoFrame(s, n);
        hide Run;
        Distribute(w, n / 2 * 2);
        Distribute(w, n);
      }
    }
  }

  /** An odd frame size loses the last byte of every frame, and nothing else
      does: the file holds each leg's frames exactly when the size is even, or
      when no frame was written at all. */
  lemma EvenFramesOrLoss(h: History, n: nat, leg: bool)
    ensures Lane(Run(h, n).data, leg) == Heard(h, n, leg) <==> (n % 2 == 0 || FramesWritten(h) == 0)
  {
    LaneLength(h, n, leg);
    OddLoss(FramesWritten(h), n);
    if n % 2 == 0 { LanesAreFrames(h, n, leg); }
    hide Lane, Run, Heard, FramesWritten;
  }

  lemma OddLoss(w: nat, n: nat)
    ensures w * (n / 2 * 2) == w * n <==> n % 2 == 0 || w == 0
  {
    if n % 2 == 1 {
      var m := n / 2 * 2;
      assert n == m + 1;
      assert w * (m + 1) == w * m + w;
    }
  }

  // ---------------------------------------------------------------- closing

  /** Each frame takes the next bytes off a leg. */
  lemma {:induction false} LegAfterEmits(h: History, n: nat, leg: bool, k: nat)
    ensures Run(Emits(h, k), n).Leg(leg) == Rest(Run(h, n).Leg(leg), k * n)
  {
    hide Run, Rest;
    if k == 0 {
      RestNone(Run(h, n).Leg(leg));
    } else {
      LegAfterEmits(h, n, leg, k - 1);
      Distribute(k - 1, n);
      LegAfterEmit(Emits(h, k - 1), n, leg, Run(h, n).Leg(leg), (k - 1) * n);
    }
  }

  lemma RestNone(b: seq<byte>)
    ensures Rest(b, 0) == b
  {
  }

  lemma LegAfterEmit(h: History, n: nat, leg: bool, b: seq<byte>, m: nat)
    requires Run(h, n).Leg(leg) == Rest(b, m)
    ensures Run(Then(h, Emit(true)), n).Leg(leg) == Rest(b, m + n)
  {
    RestTwice(b, m, n);
    hide Rest, StereoFrame;
  }

  lemma RestTwice(b: seq<byte>, m: nat, n: nat)
    ensures Rest(Rest(b, m), n) == Rest(b, m + n)
  {
  }

  /** When the disk keeps up, closing a recording leaves nothing a leg accepted
      unwritten exactly when what the leg still held fits the bounded drain. */
  lemma DrainLosesNothingIff(h: History, n: nat, leg: bool)
    requires n > 0
    ensures
      var s := Run(h, n);
      var closed := Emits(h, DrainCount(|s.caller|, |s.agent|, n));
      Emitted(closed, n, leg) == Accepted(h, n, leg) <==> |s.Leg(leg)| <= 500 * n
  {
    hide Run, Emitted, Accepted, DrainCount, Emits;
    var s := Run(h, n);
    var k := DrainCount(|s.caller|, |s.agent|, n);
    LegAfterEmits(h, n, leg, k);
    DrainCovers(|s.caller|, |s.agent|, n, |s.Leg(leg)|);
    Conservation(Emits(h, k), n, leg);
    AcceptedEmits(h, n, leg, k);
    RestEmpty(s.Leg(leg), k * n, Emitted(Emits(h, k), n, leg));
  }

  lemma RestEmpty(b: seq<byte>, m: nat, e: seq<byte>)
    ensures e == e + Rest(b, m) <==> |b| <= m
  {
    if e == e + Rest(b, m) { assert |e| == |e| + |Rest(b, m)|; }
  }

  lemma DrainCovers(caller: nat, agent: nat, n: nat, backlog: nat)
    requires n > 0 && (backlog == caller || backlog == agent)
    ensures backlog <= DrainCount(caller, agent, n) * n <==> backlog <= DRAIN * n
  {
    var most, need := if caller > agent then caller else agent, FramesFor(caller, agent, n);
    DivBounds(most + n - 1, n);
    assert most <= need * n;
    if need < DRAIN { MulLe(need, DRAIN, n); }
  }

  lemma {:induction false} AcceptedEmits(h: History, n: nat, leg: bool, k: nat)
    ensures Accepted(Emits(h, k), n, leg) == Accepted(h, n, leg)
  {
    if k > 0 { AcceptedEmits(h, n, leg, k - 1); }
  }

  lemma LaneSample(d: seq<byte>, leg: bool, i: nat)
    requires i < |d| / 4
    ensures Sample(Lane(d, leg), i) == Sample(d, 2 * i + if leg then 0 else 1)
  {
    var lane, k := Lane(d, leg), 2 * i + if leg then 0 else 1;
    assert lane[2 * i] == d[2 * k] by { assert LaneIndex(2 * i, leg) == 2 * k; }
    assert lane[2 * i + 1] == d[2 * k + 1] by { assert LaneIndex(2 * i + 1, leg) == 2 * k + 1; }
  }

  /** A successful decode of stereo audio whose every sample is the mean of the
      two legs' samples there. */
  ghost predicate MeanOf(r: Result<Wav.Wave, Wav.Error>, rate: int, left: seq<byte>, right: seq<byte>) {
    && r.Success? && r.value.sampleRate == rate && r.value.sourceChannels == 2
    && |r.value.pcm| == |left| == |right|
    && forall i :: 0 <= i < |left| / 2 ==>
                     Sample(r.value.pcm, i) == TruncDiv(Sample(left, i) + Sample(right, i), 2)
  }

  /** A closed recording decodes, and its i-th sample is the mean of the i-th
      caller sample and the i-th agent sample that were ever written. */
  lemma ClosedRecordingDecodes(h: History, n: nat, rate: int)
    requires Wav.MIN_RATE_HZ <= rate <= Wav.MAX_RATE_HZ
    requires n % 2 == 0 && 0 < |Run(h, n).data| < TWO32 - 36
    ensures
      var data := Run(h, n).data;
      MeanOf(Wav.Decode(Wav.Header(CHANNELS, rate, |data|) + data), rate, Heard(h, n, true), Heard(h, n, false))
  {
    WholeSamples(h, n);
    LanesAreFrames(h, n, true);
    LanesAreFrames(h, n, false);
    hide Run, Heard, Wav.Decode, Wav.Header, MeanOf, Lane;
    StereoDecodes(Run(h, n).data, rate, Heard(h, n, true), Heard(h, n, false));
  }

  lemma StereoDecodes(data: seq<byte>, rate: int, left: seq<byte>, right: seq<byte>)
    requires Wav.MIN_RATE_HZ <= rate <= Wav.MAX_RATE_HZ
    requires |data| % 4 == 0 && 0 < |data| < TWO32 - 36
    requires left == Lane(data, true) && right == Lane(data, false)
    ensures MeanOf(Wav.Decode(Wav.Header(CHANNELS, rate, |data|) + data), rate, left, right)
  {
    hide Wav.Decode, Wav.Header, Wav.Mono, Sample, Lane;
    Wav.DecodeCanonical(2, rate, |data|, data);
    MonoOfLanes(data);
    assert Wav.FrameCount(data, 2) == |data| / 4;
  }

  lemma MonoOfLanes(data: seq<byte>)
    requires |data| % 4 == 0
    ensures forall i :: 0 <= i < |data| / 4 ==>
                          Sample(Wav.Mono(data, 2, |data| / 4), i) ==
                          TruncDiv(Sample(Lane(data, true), i) + Sample(Lane(data, false), i), 2)
  {
    forall i | 0 <= i < |data| / 4
      ensures Sample(Wav.Mono(data, 2, |data| / 4), i) ==
              TruncDiv(Sample(Lane(data, true), i) + Sample(Lane(data, false), i), 2)
    {
      Wav.MonoSample(data, 2, |data| / 4, i);
      LaneSample(data, true, i);
      LaneSample(data, false, i);
      assert Wav.Sum(data, i * 2, 2) == Sample(data, 2 * i) + Sample(data, 2 * i + 1);
      hide Wav.Mono, Sample, Lane;
    }
  }

  // ---------------------------------------------------------------- pacing

  /** Frames written after ticks that read these elapsed times. */
  function RunTicks(written: nat, times: seq<nat>, cadence: nat): nat
    requires cadence > 0
  {
    if times == [] then written
    else TickTo(RunTicks(written, times[..|times| - 1], cadence), times[|times| - 1] / cadence)
  }

  predicate ClockRuns(times: seq<nat>) {
    forall i {:trigger times[i]} :: 0 < i < |times| ==> times[i - 1] <= times[i]
  }

  /** No tick advances the clock by more than one cadence. */
  predicate ClockIsSteady(times: seq<nat>, cadence: nat) {
    forall i {:trigger times[i]} :: 0 < i < |times| ==> times[i - 1] <= times[i] <= times[i - 1] + cadence
  }

  /** One tick writes exactly the lag, at most the catch-up bound, never less
      than nothing. */
  lemma TickWritesLag(written: nat, due: nat)
    ensures
      var lag := if due > written then due - written else 0;
      TickTo(written, due) - written == if lag < 250 then lag else 250
  {
  }

  /** The recording never runs ahead of the clock. */
  lemma {:induction false} NeverAhead(times: seq<nat>, cadence: nat)
    requires cadence > 0 && |times| > 0 && ClockRuns(times)
    ensures RunTicks(0, times, cadence) <= times[|times| - 1] / cadence
  {
    var before := times[..|times| - 1];
    if before != [] {
      NeverAhead(before, cadence);
      DivMonotone(times[|times| - 2], times[|times| - 1], cadence);
    }
  }

  /** On a steady clock the lag shrinks by a net 249 frames a tick. */
  lemma {:induction false} LagShrinks(written: nat, times: seq<nat>, cadence: nat)
    requires cadence > 0 && |times| > 0 && ClockIsSteady(times, cadence) && written <= times[0] / cadence
    ensures
      var lag, left := times[0] / cadence - written, times[|times| - 1] / cadence - RunTicks(written, times, cadence);
      0 <= left && (left > 0 ==> left <= lag - 1 - 249 * |times|)
  {
    var before := times[..|times| - 1];
    if before == [] {
      assert RunTicks(written, before, cadence) == written;
    } else {
      LagShrinks(written, before, cadence);
      DivMonotone(times[|times| - 2], times[|times| - 1], cadence);
      DivMonotone(times[|times| - 1], times[|times| - 2] + cadence, cadence);
      DivPlus(times[|times| - 2], cadence);
    }
  }

  /** So a lag is gone within its 249th part of ticks, rounded up. */
  lemma LagClears(written: nat, times: seq<nat>, cadence: nat)
    requires cadence > 0 && |times| > 0 && ClockIsSteady(times, cadence) && written <= times[0] / cadence
    requires 249 * |times| >= times[0] / cadence - written
    ensures RunTicks(written, times, cadence) == times[|times| - 1] / cadence
  {
    LagShrinks(written, times, cadence);
  }
}
