/** The stereo call recorder of internal/runtime/record/record.go. */
module Record {
  import opened Arith
  import opened Bytes
  import opened Wrappers
  import Wav

  const MAX_LEG_BACKLOG := 30 * 8000 * 2
  const CATCH_UP := 250
  const DRAIN := 500
  const HEADER_PATCH_EVERY := 5_000_000_000
  const WAV_HEADER := 44
  const CHANNELS := 2

  // ---------------------------------------------------------------- one leg

  /** The first n bytes of a backlog, zero-padded to n. */
  function Front(b: seq<byte>, n: nat): (s: seq<byte>)
    ensures |s| == n
  {
    if n <= |b| then b[..n] else b + Zeros(n - |b|)
  }

  /** What a backlog holds after its first n bytes are gone. */
  function Rest(b: seq<byte>, n: nat): seq<byte> {
    if n <= |b| then b[n..] else []
  }

  /** Removes and returns the first n bytes of buf, zero-padded. */
  method TakeFront(buf: seq<byte>, n: nat) returns (out: seq<byte>, rest: seq<byte>)
    ensures out == Front(buf, n) && rest == Rest(buf, n)
  {
    var a := new byte[n](_ => 0);
    if |buf| == 0 { return a[..], buf; }
    var c := if n <= |buf| then n else |buf|;
    CopyInto(a, 0, buf[..c]);
    out := a[..];
    rest := if c >= |buf| then [] else buf[c..];
  }

  /** A leg takes a write whole or refuses it whole. */
  predicate Fits(b: seq<byte>, pcm: seq<byte>) {
    |b| + |pcm| <= MAX_LEG_BACKLOG
  }

  /** The first k samples of two legs, left first. */
  function Interleaved(left: seq<byte>, right: seq<byte>, k: nat): (s: seq<byte>)
    requires 2 * k <= |left| && 2 * k <= |right|
    ensures |s| == 4 * k
  {
    if k == 0 then []
    else Interleaved(left, right, k - 1) + [left[2 * k - 2], left[2 * k - 1], right[2 * k - 2], right[2 * k - 1]]
  }

  // ---------------------------------------------------------------- history

  /** What happens to a recorder: a write that arrives while it is open, or a
      stereo frame whose file write succeeds or fails. */
  datatype Event = Write(caller: bool, pcm: seq<byte>) | Emit(ok: bool)

  /** All events so far, the latest outermost. */
  datatype History = Start | Then(before: History, last: Event)

  datatype State = State(caller: seq<byte>, agent: seq<byte>, droppedCaller: nat, droppedAgent: nat, data: seq<byte>) {
    function Leg(caller: bool): seq<byte> { if caller then this.caller else agent }
    function Dropped(caller: bool): nat { if caller then droppedCaller else droppedAgent }
  }

  function Step(s: State, e: Event, n: nat): State {
    match e
    case Emit(ok) =>
      State(Rest(s.caller, n), Rest(s.agent, n), s.droppedCaller, s.droppedAgent, if ok then s.data + StereoFrame(s, n) else s.data)
    case Write(leg, pcm) =>
      if !Fits(s.Leg(leg), pcm) then
        if leg then s.(droppedCaller := s.droppedCaller + |pcm|) else s.(droppedAgent := s.droppedAgent + |pcm|)
      else if leg then s.(caller := s.caller + pcm)
      else s.(agent := s.agent + pcm)
  }

  /** The stereo frame due next. */
  function StereoFrame(s: State, n: nat): seq<byte> {
    Interleaved(Front(s.caller, n), Front(s.agent, n), n / 2)
  }

  /** The state after a whole history. */
  function Run(h: History, n: nat): State {
    match h
    case Start => State([], [], 0, 0, [])
    case Then(before, e) => Step(Run(before, n), e, n)
  }

  /** A history followed by k frames that reached the file. */
  function Emits(h: History, k: nat): History {
    if k == 0 then h else Then(Emits(h, k - 1), Emit(true))
  }

  method Interleave(left: seq<byte>, right: seq<byte>) returns (out: seq<byte>)
    requires |left| == |right|
    ensures out == Interleaved(left, right, |left| / 2)
  {
    out := [];
    var i := 0;
    while i + 1 < |left|
      invariant i % 2 == 0 && i <= |left|
      invariant out == Interleaved(left, right, i / 2)
    {
      out := out + [left[i], left[i + 1], right[i], right[i + 1]];
      i := i + 2;
    }
  }

  // ---------------------------------------------------------------- pacing

  /** Frames written once a tick that finds `due` frames elapsed is done. */
  function TickTo(written: nat, due: nat): nat {
    if due <= written then written
    else if due - written > CATCH_UP then written + CATCH_UP
    else due
  }

  function CeilDiv(a: nat, b: nat): nat
    requires b > 0
  {
    (a + b - 1) / b
  }

  /** Frames it takes to empty two backlogs. */
  function FramesFor(caller: nat, agent: nat, n: nat): nat
    requires n > 0
  {
    CeilDiv(if caller > agent then caller else agent, n)
  }

  /** Frames the final drain writes for these backlogs. */
  function DrainCount(caller: nat, agent: nat, n: nat): nat
    requires n > 0
  {
    var need := FramesFor(caller, agent, n);
    if need < DRAIN then need else DRAIN
  }

  lemma FramesForStep(caller: seq<byte>, agent: seq<byte>, n: nat)
    requires n > 0
    ensures FramesFor(|caller|, |agent|, n) ==
            if caller == [] && agent == [] then 0 else 1 + FramesFor(|Rest(caller, n)|, |Rest(agent, n)|, n)
  {
    CeilDivStep(if |caller| > |agent| then |caller| else |agent|, n);
    hide CeilDiv;
  }

  lemma CeilDivStep(m: nat, n: nat)
    requires n > 0
    ensures CeilDiv(m, n) == if m == 0 then 0 else 1 + CeilDiv(if m > n then m - n else 0, n)
  {
    if m == 0 {
      DivIs(n - 1, n, 0);
    } else if m <= n {
      DivIs(n - 1, n, 0);
      DivIs(m + n - 1, n, 1);
    } else {
      DivPlus(m - 1, n);
    }
  }

  // ---------------------------------------------------------------- recorder

  /** n bytes are the 16-bit mono audio of a cadence in nanoseconds at a rate. */
  predicate HoldsOneCadence(rate: int, cadence: nat, n: nat) {
    && n * 1_000_000_000 <= rate * 2 * cadence < n * 1_000_000_000 + cadence * 1000
    && (rate * 2 % 1000 == 0 ==> n * 1_000_000_000 == rate * 2 * cadence)
  }

  lemma FrameSizeIs(rate: nat, ms: nat)
    requires rate > 0 && ms > 0
    ensures var n := rate * 2 / 1000 * ms;
            (n > 0 <==> rate >= 500) && HoldsOneCadence(rate, ms * 1_000_000, n)
  {
    var perMs, left := rate * 2 / 1000, rate * 2 % 1000;
    var n := perMs * ms;
    assert rate * 2 == perMs * 1000 + left;
    calc {
      rate * 2 * (ms * 1_000_000);
      (perMs * 1000 + left) * (ms * 1_000_000);
      { DistributeLeft(perMs * 1000, left, ms * 1_000_000); }
      perMs * 1000 * (ms * 1_000_000) + left * (ms * 1_000_000);
      { Thousands(perMs, ms); }
      n * 1_000_000_000 + left * (ms * 1_000_000);
    }
    MulLe(left, 999, ms * 1_000_000);
    if perMs > 0 { MulLe(1, perMs, ms); }
  }

  lemma Thousands(a: nat, b: nat)
    ensures a * 1000 * (b * 1_000_000) == a * b * 1_000_000_000
  {
    MulAssoc(a * 1000, b, 1_000_000);
  }

  datatype Opened = Disabled | Refused | Open(r: Recorder)

  lemma EmitTakes(s: State, ok: bool, n: nat)
    ensures Step(s, Emit(ok), n).caller == Rest(s.caller, n) && Step(s, Emit(ok), n).agent == Rest(s.agent, n)
  {
    hide Rest, StereoFrame;
  }

  class Recorder {
    const rate: int
    const frameBytes: nat
    const cadence: nat
    var caller: seq<byte>
    var agent: seq<byte>
    var header: seq<byte>  // the first 44 bytes of the file
    var data: seq<byte>  // the rest of the file
    var dataBytes: nat
    var closedBytes: nat
    var written: nat
    var lastPatch: int
    var writeFails: nat
    var done: bool
    var droppedCaller: nat
    var droppedAgent: nat
    ghost var log: History
    ghost var patched: Option<nat>

    ghost predicate Valid()
      reads this
    {
      && frameBytes > 0 && cadence > 0
      && St() == Run(log, frameBytes) && dataBytes == |data|
      && header == Patch(patched)
    }

    ghost function St(): State
      reads this
    {
      State(caller, agent, droppedCaller, droppedAgent, data)
    }

    /** The bytes on disk. */
    function File(): seq<byte>
      reads this
    {
      header + data
    }

    /** The header area after the last successful patch, which announced n bytes. */
    ghost function Patch(n: Option<nat>): seq<byte> {
      match n
      case None => Zeros(WAV_HEADER)
      case Some(n) => Wav.Header(CHANNELS, rate, n)
    }

    constructor (rate: int, frameBytes: nat, cadence: nat)
      requires frameBytes > 0 && cadence > 0
      ensures Valid() && log == Start && patched == None && !done && writeFails == 0
      ensures this.rate == rate && this.frameBytes == frameBytes && this.cadence == cadence
      ensures written == 0 && lastPatch == 0 && closedBytes == 0
    {
      this.rate, this.frameBytes, this.cadence := rate, frameBytes, cadence;
      caller, agent, header, data := [], [], Zeros(WAV_HEADER), [];
      dataBytes, closedBytes, written, lastPatch, writeFails, done := 0, 0, 0, 0, 0, false;
      droppedCaller, droppedAgent, log, patched := 0, 0, Start, None;
    }

    /** Opens a recording for one session, with its directory, file and reserved
        header. A rate that is not positive is taken as 8000 Hz, a frame length as
        20 ms. A frame holds the 16-bit audio of one cadence, short of it by less
        than a byte a millisecond, and not at all when every millisecond has whole
        bytes. */
    static method New(enabled: bool, haveSession: bool, diskOk: bool, sampleRate: int, frameMs: int) returns (o: Opened)
      ensures o == Disabled <==> !enabled
      ensures o == Refused <==> enabled && (!haveSession || !diskOk || 0 < sampleRate < 500)
      ensures o.Open? ==>
                && fresh(o.r) && o.r.Valid() && o.r.log == Start && !o.r.done && o.r.written == 0 && o.r.writeFails == 0
                && o.r.rate == (if sampleRate <= 0 then 8000 else sampleRate)
                && o.r.cadence == (if frameMs <= 0 then 20_000_000 else frameMs * 1_000_000)
                && HoldsOneCadence(o.r.rate, o.r.cadence, o.r.frameBytes)
    {
      if !enabled { return Disabled; }
      if !haveSession { return Refused; }
      if !diskOk { return Refused; }
      var rate, ms := sampleRate, frameMs;
      if rate <= 0 { rate := 8000; }
      if ms <= 0 { ms := 20; }
      var n := rate * 2 / 1000 * ms;
      FrameSizeIs(rate, ms);
      if n <= 0 { return Refused; }
      var r := new Recorder(rate, n, ms * 1_000_000);
      o := Open(r);
    }

    /** Appends PCM to one leg, or counts it as dropped when the leg is full. */
    method Write(callerLeg: bool, pcm: seq<byte>)
      requires Valid()
      modifies this`caller, this`agent, this`droppedCaller, this`droppedAgent, this`log
      ensures Valid()
      ensures log == if pcm == [] || done then old(log) else Then(old(log), Event.Write(callerLeg, pcm))
    {
      if |pcm| == 0 || done { return; }
      log := Then(log, Event.Write(callerLeg, pcm));
      hide Patch;
      if callerLeg {
        if |caller| + |pcm| > MAX_LEG_BACKLOG {
          droppedCaller := droppedCaller + |pcm|;
          return;
        }
        caller := caller + pcm;
        return;
      }
      if |agent| + |pcm| > MAX_LEG_BACKLOG {
        droppedAgent := droppedAgent + |pcm|;
        return;
      }
      agent := agent + pcm;
    }

    /** Emits one interleaved stereo frame. The file write succeeds or not. */
    method WriteFrame(diskOk: bool) returns (ok: bool)
      requires Valid()
      modifies this`caller, this`agent, this`data, this`dataBytes, this`writeFails, this`done, this`log
      ensures Valid() && ok == diskOk
      ensures log == Then(old(log), Emit(diskOk)) && St() == Step(old(St()), Emit(diskOk), frameBytes)
      ensures writeFails == old(writeFails) + (if diskOk then 0 else 1)
      ensures done == (old(done) || !diskOk)
    {
      hide Patch, Front, Rest, Interleaved;
      var n := frameBytes;
      var left, right;
      left, caller := TakeFront(caller, n);
      right, agent := TakeFront(agent, n);
      var out := Interleave(left, right);
      log := Then(log, Emit(diskOk));
      assert out == StereoFrame(old(St()), n);
      hide StereoFrame;
      if !diskOk {
        writeFails := writeFails + 1;
        done := true;
        return false;
      }
      data := data + out;
      dataBytes := dataBytes + |out|;
      ok := true;
    }

    /** Rewrites the RIFF and data sizes for the bytes written so far. */
    method PatchHeader(diskOk: bool)
      requires Valid()
      modifies this`header, this`patched
      ensures Valid()
      ensures patched == if diskOk then Some(dataBytes) else old(patched)
    {
      if !diskOk { return; }
      var h := new byte[WAV_HEADER];
      Wav.FillHeader(h, CHANNELS, rate, dataBytes);
      assert h[..] == h[..WAV_HEADER];
      header := h[..];
      patched := Some(dataBytes);
    }

    /** One cadence tick of the mux loop, `elapsed` after the recording began.
        The disk takes `healthy` more frames before it fails. Returns whether
        the mux loop goes on. */
    method Tick(elapsed: nat, healthy: nat, patchOk: bool) returns (running: bool)
      requires Valid()
      modifies this
      ensures Valid()
      ensures
        var due := TickTo(old(written), elapsed / cadence) - old(written);
        running == (due <= healthy) &&
        log == (if running then Emits(old(log), due) else Then(Emits(old(log), healthy), Emit(false))) &&
        written == old(written) + (if running then due else healthy)
      ensures done == (old(done) || !running) && writeFails == old(writeFails) + (if running then 0 else 1)
      ensures
        var patching := running && TickTo(old(written), elapsed / cadence) > old(written) &&
                        elapsed - old(lastPatch) >= 5_000_000_000;
        && patched == (if patching && patchOk then Some(dataBytes) else old(patched))
        && lastPatch == (if patching then elapsed else old(lastPatch))
      ensures closedBytes == old(closedBytes)
    {
      hide Run, Patch;
      var due := elapsed / cadence;
      if due <= written {
        return true;
      }
      if due - written > CATCH_UP { due := written + CATCH_UP; }
      var first := written;
      while written < due
        invariant Valid() && first <= written <= due && written - first <= healthy
        invariant log == Emits(old(log), written - first)
        invariant done == old(done) && writeFails == old(writeFails) && patched == old(patched)
        invariant lastPatch == old(lastPatch) && closedBytes == old(closedBytes)
      {
        var ok := WriteFrame(written - first < healthy);
        if !ok {
          assert written - first == healthy;
          return false;
        }
        written := written + 1;
      }
      if elapsed - lastPatch >= HEADER_PATCH_EVERY {
        lastPatch := elapsed;
        PatchHeader(patchOk);
      }
      running := true;
    }

    /** One last drain, so that trailing audio already buffered is not lost. */
    method DrainTail(healthy: nat)
      requires Valid() && writeFails == 0
      modifies this`caller, this`agent, this`data, this`dataBytes, this`writeFails, this`done, this`log
      ensures Valid() && (old(done) ==> done)
      ensures
        var due := DrainCount(|old(caller)|, |old(agent)|, frameBytes);
        log == if due <= healthy then Emits(old(log), due) else Then(Emits(old(log), healthy), Emit(false))
    {
      hide Run, Patch, FramesFor, Step, Front, Rest;
      ghost var need := FramesFor(|caller|, |agent|, frameBytes);
      for i := 0 to DRAIN
        invariant Valid() && writeFails == 0 && (old(done) ==> done) && i <= healthy
        invariant log == Emits(old(log), i)
        invariant i + FramesFor(|caller|, |agent|, frameBytes) == need
      {
        FramesForStep(caller, agent, frameBytes);
        if |caller| == 0 && |agent| == 0 { break; }
        EmitTakes(St(), i < healthy, frameBytes);
        var ok := WriteFrame(i < healthy);
        if !ok { break; }
      }
    }

    /** Closes the recording: a bounded drain of what is still buffered, then the
        final header. Gives up when the mux loop does not stop in time. A second
        call finds the file closed, so that neither frame nor header is written. */
    method Close(stopped: bool, healthy: nat, patchOk: bool)
      requires Valid()
      modifies this
      ensures Valid() && done
      ensures
        var due := DrainCount(|old(caller)|, |old(agent)|, frameBytes);
        log ==
        if !stopped || old(writeFails) > 0 then old(log)
        else if due <= healthy then Emits(old(log), due)
        else Then(Emits(old(log), healthy), Emit(false))
      ensures patched == if stopped && patchOk then Some(|data|) else old(patched)
      ensures stopped && patchOk ==> File() == Wav.Header(CHANNELS, rate, |data|) + data
      ensures stopped && patchOk ==> Wav.Describes(File(), 2, rate) && File()[44..] == data
      ensures closedBytes == if stopped then |data| + 44 else old(closedBytes)
    {
      hide Run;
      done := true;
      if !stopped { return; }
      FramesForStep(caller, agent, frameBytes);
      if (|caller| > 0 || |agent| > 0) && writeFails == 0 {
        DrainTail(healthy);
      }
      hide FramesFor, Patch;
      PatchHeader(patchOk);
      Wav.HeaderDescribes(CHANNELS, rate, data);
      closedBytes := dataBytes + WAV_HEADER;
    }
  }
}
