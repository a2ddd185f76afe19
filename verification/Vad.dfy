/** The energy voice detector of internal/runtime/vad/vad.go. Sums of
    16-bit samples are exact, as they are in float64; how a quotient is rounded
    is any function. */
module Vad {
  import opened Bytes

  datatype Decision = Silence | Speech

  // ---------------------------------------------------------------- energy

  function Abs(v: int): nat { if v < 0 then -v else v }

  /** The summed magnitude of the first n samples. */
  function Magnitude(data: seq<byte>, n: nat): nat
    requires 2 * n <= |data|
  {
    if n == 0 then 0 else Magnitude(data, n - 1) + Abs(Sample(data, n - 1))
  }

  /** Mean magnitude, as the machine rounds the quotient; a trailing odd byte is ignored. */
  function Energy(data: seq<byte>, round: real -> real): real {
    if |data| < 2 then 0.0 else round(Magnitude(data, |data| / 2) as real / (|data| / 2) as real)
  }

  /** Magnitudes add up, sample after sample, */
  lemma {:induction false} MagnitudeAppend(a: seq<byte>, b: seq<byte>, n: nat)
    requires |a| % 2 == 0 && 2 * n <= |b|
    ensures Magnitude(a + b, |a| / 2 + n) == Magnitude(a, |a| / 2) + Magnitude(b, n)
  {
    if n == 0 {
      MagnitudePrefix(a, b, |a| / 2);
    } else {
      MagnitudeAppend(a, b, n - 1);
      SampleAppend(a, b, n - 1);
      hide Sample, Abs;
    }
  }

  lemma SampleAppend(a: seq<byte>, b: seq<byte>, k: nat)
    requires |a| % 2 == 0 && 2 * k + 2 <= |b|
    ensures Sample(a + b, |a| / 2 + k) == Sample(b, k)
  {
    assert (a + b)[|a| + 2 * k] == b[2 * k] && (a + b)[|a| + 2 * k + 1] == b[2 * k + 1];
    hide Signed;
  }

  lemma {:induction false} MagnitudePrefix(a: seq<byte>, b: seq<byte>, n: nat)
    requires 2 * n <= |a|
    ensures Magnitude(a + b, n) == Magnitude(a, n)
  {
    if n > 0 {
      MagnitudePrefix(a, b, n - 1);
      assert (a + b)[2 * n - 2] == a[2 * n - 2] && (a + b)[2 * n - 1] == a[2 * n - 1];
    }
  }

  /** and that of one sample is its distance from zero. */
  lemma MagnitudeOfOne(data: seq<byte>)
    requires |data| == 2
    ensures Magnitude(data, 1) == if Sample(data, 0) < 0 then -Sample(data, 0) else Sample(data, 0)
  {
    assert Magnitude(data, 0) == 0;
  }

  lemma {:induction false} MagnitudeOfLevel(data: seq<byte>, n: nat, level: nat)
    requires 2 * n <= |data|
    requires forall k :: 0 <= k < n ==> Sample(data, k) == level || Sample(data, k) + level == 0
    ensures Magnitude(data, n) == n * level
  {
    if n > 0 {
      MagnitudeOfLevel(data, n - 1, level);
      assert n * level == (n - 1) * level + level;
      assert Sample(data, n - 1) == level || Sample(data, n - 1) + level == 0;
      hide Sample;
    }
  }

  /** The energy of PCM whose samples all swing to one level is that level; PCM
      without a sample has none. */
  lemma EnergyOfLevel(data: seq<byte>, level: nat, round: real -> real)
    requires forall k :: 0 <= k < |data| / 2 ==> Sample(data, k) == level || Sample(data, k) + level == 0
    ensures Energy(data, round) == if |data| < 2 then 0.0 else round(level as real)
  {
    var n := |data| / 2;
    MagnitudeOfLevel(data, n, level);
    hide Sample, Magnitude;
    if n > 0 { Quotient(n, level); }
  }

  lemma Quotient(n: nat, level: nat)
    requires n > 0
    ensures (n * level) as real / n as real == level as real
  {
    var x, y := n as real, level as real;
    assert (n * level) as real == x * y;
    assert x * y / x == y;
  }

  method RmsAbs(data: seq<byte>, round: real -> real) returns (e: real)
    ensures e == Energy(data, round)
  {
    if |data| < 2 { return 0.0; }
    var n := |data| / 2;
    var sum, i := 0, 0;
    while i + 1 < |data|
      invariant i % 2 == 0 && i <= |data|
      invariant sum == Magnitude(data, i / 2)
    {
      var v := Signed(U16(data, i));
      sum := sum + Abs(v);
      i := i + 2;
    }
    e := round(sum as real / n as real);
  }

  // ---------------------------------------------------------------- history

  /** In a history of loud (true) and quiet (false) frames, a run of `hold`
      frames of one kind ends just before place i. */
  predicate RunEndsAt(h: seq<bool>, i: nat, hold: nat, loud: bool) {
    hold <= i <= |h| && forall k :: i - hold <= k < i ==> h[k] == loud
  }

  /** The most recent qualifying run is a loud one. */
  ghost predicate LastRunIsLoud(h: seq<bool>, speechHold: nat, silenceHold: nat) {
    exists i: nat :: RunEndsAt(h, i, speechHold, true) && NoQuietRunAfter(h, i, silenceHold)
  }

  ghost predicate NoQuietRunAfter(h: seq<bool>, i: nat, silenceHold: nat) {
    forall j: nat :: i < j <= |h| ==> !RunEndsAt(h, j, silenceHold, false)
  }

  /** How many frames at the end of a history are of one kind. */
  function Streak(h: seq<bool>, loud: bool): nat {
    if h == [] || h[|h| - 1] != loud then 0 else 1 + Streak(h[..|h| - 1], loud)
  }

  lemma {:induction false} StreakIsRun(h: seq<bool>, hold: nat, loud: bool)
    ensures RunEndsAt(h, |h|, hold, loud) <==> hold <= Streak(h, loud)
    ensures Streak(h, loud) <= |h|
  {
    if h != [] {
      var before := h[..|h| - 1];
      if hold > 0 { StreakIsRun(before, hold - 1, loud); } else { StreakIsRun(before, 0, loud); }
      if h[|h| - 1] == loud && hold > 0 {
        assert RunEndsAt(h, |h|, hold, loud) <==> RunEndsAt(before, |before|, hold - 1, loud);
      }
    }
  }

  lemma RunInPrefix(h: seq<bool>, x: bool, i: nat, hold: nat, loud: bool)
    requires i <= |h|
    ensures RunEndsAt(h + [x], i, hold, loud) <==> RunEndsAt(h, i, hold, loud)
  {
    assert forall k :: 0 <= k < |h| ==> h[k] == (h + [x])[k];
    if RunEndsAt(h, i, hold, loud) {
      assert forall k :: i - hold <= k < i ==> (h + [x])[k] == h[k];
    }
  }

  /** One more frame: it can only complete a run of its own kind. */
  lemma OneMoreFrame(h: seq<bool>, x: bool, speechHold: nat, silenceHold: nat)
    requires speechHold >= 1 && silenceHold >= 1
    ensures
      var next := h + [x];
      LastRunIsLoud(next, speechHold, silenceHold) <==>
      if x then LastRunIsLoud(h, speechHold, silenceHold) || Streak(next, true) >= speechHold
      else LastRunIsLoud(h, speechHold, silenceHold) && Streak(next, false) < silenceHold
  {
    var next := h + [x];
    StreakIsRun(next, speechHold, true);
    StreakIsRun(next, silenceHold, false);
    forall i: nat, hold: nat, loud | i <= |h|
      ensures RunEndsAt(next, i, hold, loud) <==> RunEndsAt(h, i, hold, loud)
    {
      RunInPrefix(h, x, i, hold, loud);
    }
    var n := |next|;
    assert next[n - 1] == x;
    assert RunEndsAt(next, n, speechHold, true) ==> x;
    assert RunEndsAt(next, n, silenceHold, false) ==> !x;
    if LastRunIsLoud(next, speechHold, silenceHold) {
      var i: nat :| RunEndsAt(next, i, speechHold, true) && NoQuietRunAfter(next, i, silenceHold);
      if i <= |h| { assert RunEndsAt(h, i, speechHold, true) && NoQuietRunAfter(h, i, silenceHold); }
    }
    if LastRunIsLoud(h, speechHold, silenceHold) {
      var i: nat :| RunEndsAt(h, i, speechHold, true) && NoQuietRunAfter(h, i, silenceHold);
      assert RunEndsAt(next, i, speechHold, true);
      assert !RunEndsAt(next, n, silenceHold, false) ==> NoQuietRunAfter(next, i, silenceHold);
    }
    if RunEndsAt(next, n, speechHold, true) { assert NoQuietRunAfter(next, n, silenceHold); }
  }

  /** Speech starts only on a full hold of loud frames. */
  lemma SwitchOnNeedsFullHold(h: seq<bool>, x: bool, speechHold: nat, silenceHold: nat)
    requires speechHold >= 1 && silenceHold >= 1
    requires !LastRunIsLoud(h, speechHold, silenceHold) && LastRunIsLoud(h + [x], speechHold, silenceHold)
    ensures RunEndsAt(h + [x], |h| + 1, speechHold, true)
  {
    OneMoreFrame(h, x, speechHold, silenceHold);
    StreakIsRun(h + [x], speechHold, true);
  }

  /** Speech stops only on a full hold of quiet frames. */
  lemma SwitchOffNeedsFullHold(h: seq<bool>, x: bool, speechHold: nat, silenceHold: nat)
    requires speechHold >= 1 && silenceHold >= 1
    requires LastRunIsLoud(h, speechHold, silenceHold) && !LastRunIsLoud(h + [x], speechHold, silenceHold)
    ensures RunEndsAt(h + [x], |h| + 1, silenceHold, false)
  {
    OneMoreFrame(h, x, speechHold, silenceHold);
    StreakIsRun(h + [x], silenceHold, false);
  }

  // ---------------------------------------------------------------- detector

  function AtLeastOne(hold: int): nat { if hold < 1 then 1 else hold }

  class EnergyDetector {
    const threshold: real
    const round: real -> real
    const speechHold: int
    const silenceHold: int
    var speechStreak: nat
    var silenceStreak: nat
    var inSpeech: bool
    ghost var history: seq<bool>  // loud frames since the last reset

    ghost predicate Valid()
      reads this
    {
      && speechStreak == Streak(history, true) && silenceStreak == Streak(history, false)
      && inSpeech == LastRunIsLoud(history, AtLeastOne(speechHold), AtLeastOne(silenceHold))
    }

    constructor (threshold: real, speechHold: int, silenceHold: int, round: real -> real)
      ensures Valid() && history == []
      ensures this.round == round && this.threshold == threshold && this.speechHold == speechHold && this.silenceHold == silenceHold
    {
      this.threshold, this.speechHold, this.silenceHold, this.round := threshold, speechHold, silenceHold, round;
      speechStreak, silenceStreak, inSpeech, history := 0, 0, false, [];
    }

    method Reset()
      modifies this
      ensures Valid() && history == []
    {
      speechStreak, silenceStreak, inSpeech, history := 0, 0, false, [];
    }

    /** As loud as the threshold, or as 500 when it is not positive. */
    function Loud(data: seq<byte>): (loud: bool)
      ensures threshold > 0.0 ==> (loud <==> Energy(data, round) >= threshold)
      ensures threshold <= 0.0 ==> (loud <==> Energy(data, round) >= 500.0)
    {
      Energy(data, round) >= if threshold <= 0.0 then 500.0 else threshold
    }

    /** Says Speech exactly when the most recent qualifying run of frames since
        the last reset is a loud one. */
    method Process(data: seq<byte>) returns (d: Decision)
      requires Valid()
      modifies this
      ensures Valid() && history == old(history) + [Loud(data)]
      ensures
        var speech, silence := if speechHold < 1 then 1 else speechHold, if silenceHold < 1 then 1 else silenceHold;
        d == Speech <==> LastRunIsLoud(history, speech, silence)
    {
      var thr := if threshold <= 0.0 then 500.0 else threshold;
      var sh := if speechHold < 1 then 1 else speechHold;
      var silH := if silenceHold < 1 then 1 else silenceHold;
      var energy := RmsAbs(data, round);
      OneMoreFrame(history, energy >= thr, sh, silH);
      history := history + [energy >= thr];
      assert history[..|history| - 1] == old(history);
      if energy >= thr {
        speechStreak := speechStreak + 1;
        silenceStreak := 0;
        if speechStreak >= sh { inSpeech := true; }
      } else {
        silenceStreak := silenceStreak + 1;
        speechStreak := 0;
        if silenceStreak >= silH { inSpeech := false; }
      }
      d := if inSpeech then Speech else Silence;
    }
  }
}
