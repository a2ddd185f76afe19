/** The downlink methods of internal/edge/modaudiostream/conn.go, each tied to
    the steps of the queue it takes when nothing interleaves with it. */
module EdgeConn {
  import opened Bytes
  import opened Framing
  import D = Downlink

  const MAX_WRITE_FAILURES := 5

  class Conn {
    var queue: seq<seq<byte>>
    var flushGen: nat
    var closed: bool
    var released: bool  // closeOnce has run
    var pending: nat
    var downlinkDropped: nat
    var writeFailures: nat
    var consecutiveFail: nat
    ghost var s: D.State

    ghost predicate Valid()
      reads this
    {
      && queue == D.Payloads(s.queue) && flushGen == s.flushGen && closed == s.closed
      && released == s.released && pending == s.pending && downlinkDropped == s.dropped
    }

    constructor ()
      ensures Valid() && s == D.Init && consecutiveFail == 0
    {
      queue, flushGen, closed, released := [], 0, false, false;
      pending, downlinkDropped, writeFailures, consecutiveFail := 0, 0, 0, 0;
      s := D.Init;
    }

    /** Queues the frames of one utterance; once the queue is full the rest is dropped. */
    method AppendFrames(peer: seq<byte>, n: nat) returns (queued: nat, dropped: nat)
      requires Valid() && n > 0 && !closed
      modifies this`queue, this`s
      ensures Valid() && s == D.Do(old(s), D.Append(Chop(peer, 0, n)))
      ensures s.tickets == old(s).tickets + [D.Ticket(queued, dropped, false)]
    {
      hide D.Do, D.Payloads, D.NewItems;
      queued, dropped := 0, 0;
      var off := 0;
      ghost var chunks, before := Chop(peer, 0, n), queue;
      ghost var k := D.Room(s, |chunks|);
      while off < |peer|
        invariant queued + dropped <= |chunks| && chunks[queued + dropped..] == Chop(peer, off, n)
        invariant s == old(s) && queue == before + chunks[..queued]
        invariant queued == if queued + dropped <= k then queued + dropped else k
        decreases |peer| - off
      {
        ChopStep(chunks, queued + dropped, peer, off, n);
        hide Chop, ChunkAt;
        if |queue| >= D.MAX_QUEUED_FRAMES {
          dropped := dropped + 1;
        } else {
          var chunk := CutChunk(peer, off, n);
          queue := queue + [chunk];
          queued := queued + 1;
        }
        off := off + n;
      }
      AppendResult(s, chunks);
      s := D.Do(s, D.Append(chunks));
    }

    /** Releases n frames from the WaitMark accounting. */
    method MarkDone(n: nat)
      modifies this`pending
      ensures pending == if old(pending) > n then old(pending) - n else 0
    {
      if n <= 0 { return; }
      pending := if pending > n then pending - n else 0;
    }

    /** Accepts canonical PCM at the peer rate and queues it; n is the frame size. */
    method WritePCM(peer: seq<byte>, n: int) returns (ok: bool)
      requires Valid()
      modifies this`queue, this`pending, this`downlinkDropped, this`s
      ensures Valid() && ok == (n > 0 && !closed)
      ensures
        var i := |old(s).tickets|;
        s == if ok then D.Run(old(s), [D.Append(Chop(peer, 0, n)), D.Credit(i), D.CountDrops(i)]) else old(s)
    {
      if n <= 0 || closed { return false; }
      ghost var i := |s.tickets|;
      var queued, dropped := AppendFrames(peer, n);
      ghost var s1 := s;
      if queued > 0 { pending := pending + queued; }
      s := D.Do(s1, D.Credit(i));
      if dropped > 0 { downlinkDropped := downlinkDropped + dropped; }
      ghost var s2 := s;
      s := D.Do(s2, D.CountDrops(i));
      assert D.Run(s2, [D.CountDrops(i)]) == s;
      assert D.Run(s1, [D.Credit(i), D.CountDrops(i)]) == s;
      ok := true;
    }

    method SignalClose()
      requires Valid()
      modifies this`closed, this`released, this`pending, this`s
      ensures Valid() && closed && released
      ensures s == CloseSteps(old(s))
    {
      s := CloseSteps(s);
      closed := true;
      if !released {
        released := true;
        pending := 0;
      }
    }

    /** One socket write; a fifth failure in a row closes the leg. */
    method WriteRaw(wireOk: bool) returns (ok: bool)
      requires Valid()
      modifies this`closed, this`released, this`pending, this`writeFailures, this`consecutiveFail, this`s
      ensures Valid() && ok == (!old(closed) && wireOk)
      ensures
        var failed := !old(closed) && !wireOk;
        && writeFailures == old(writeFailures) + (if failed then 1 else 0)
        && consecutiveFail == old(consecutiveFail) + (if failed then 1 else 0)
        && s == if failed && consecutiveFail >= 5 then CloseSteps(old(s)) else old(s)
    {
      if closed { return false; }
      if wireOk { return true; }
      writeFailures := writeFailures + 1;
      consecutiveFail := consecutiveFail + 1;
      if consecutiveFail >= MAX_WRITE_FAILURES { SignalClose(); }
      ok := false;
    }

    /** Drops the unplayed queue (barge-in), then tells the peer to do the same. */
    method Flush(wireOk: bool) returns (ok: bool)
      requires Valid()
      modifies this
      ensures Valid() && ok == (!old(closed) && wireOk)
      ensures
        var t := D.DoCall(old(s), D.Flush);
        s == if !old(closed) && !wireOk && consecutiveFail >= MAX_WRITE_FAILURES then CloseSteps(t) else t
      ensures consecutiveFail == old(consecutiveFail) + (if old(closed) || wireOk then 0 else 1)
    {
      queue := [];
      flushGen := flushGen + 1;
      pending := 0;
      s := D.DoCall(s, D.Flush);
      if closed { return false; }
      ok := WriteRaw(wireOk);
    }

    /** Writes the frame in hand, unless a flush has superseded it or the leg is
        closed. */
    method WriteAudio(gen: nat, wireOk: bool) returns (ok: bool)
      requires Valid() && s.sender.Holding? && gen == s.sender.gen
      modifies this`closed, this`released, this`pending, this`writeFailures, this`consecutiveFail, this`s
      ensures Valid() && ok == (gen == flushGen && !old(closed) && wireOk)
      ensures
        var failed := gen == flushGen && !old(closed) && !wireOk;
        && s == D.Run(old(s), WriteSteps(wireOk, failed && consecutiveFail >= MAX_WRITE_FAILURES))
        && consecutiveFail == old(consecutiveFail) + (if failed then 1 else 0)
      ensures if ok then s.sender.Marking? else s.sender.Losing?
    {
      WriteStepsRun(s, wireOk);
      WriteResult(s, wireOk);
      hide D.Do;
      s := D.Do(D.Do(D.Do(s, D.CheckGen), D.CheckOpen), D.Wire(wireOk));
      if gen != flushGen { return false; }
      ok := WriteRaw(wireOk);
    }

    /** One paced tick: pops a frame and tries to write it. The encoder and the
        socket succeed or not. */
    method FlushOne(encodeOk: bool, wireOk: bool)
      requires Valid() && s.sender.Idle?
      modifies this
      ensures Valid() && s.sender.Idle?
      ensures
        var closing := !wireOk && old(consecutiveFail) + 1 >= MAX_WRITE_FAILURES;
        s == if old(closed) || |old(queue)| == 0 then old(s)
        else if !encodeOk then D.Run(old(s), [D.Take, D.EncodeFail, D.CountLost, D.Mark])
        else D.Run(old(s), [D.Take] + (WriteSteps(wireOk, closing) + [D.CountLost, D.Mark]))
      ensures
        consecutiveFail == if old(closed) || |old(queue)| == 0 || !encodeOk then old(consecutiveFail)
        else if wireOk then 0
        else old(consecutiveFail) + 1
    {
      if closed || |queue| == 0 { return; }
      ghost var s0 := s;
      var gen := flushGen;
      queue := queue[1..];
      TakeResult(s);
      hide D.Do, D.Payloads;
      s := D.Do(s, D.Take);
      ghost var s1 := s;
      D.RunCons(s0, [D.Take]);
      if !encodeOk {
        EncodeFailResult(s);
        s := D.Do(s, D.EncodeFail);
        assert s == D.Run(s0, [D.Take, D.EncodeFail]) by { TwoSteps(s0, D.Take, D.EncodeFail); }
        FinishFrame(false);
        D.RunAppend(s0, [D.Take, D.EncodeFail], [D.CountLost, D.Mark]);
        assert [D.Take, D.EncodeFail] + [D.CountLost, D.Mark] == [D.Take, D.EncodeFail, D.CountLost, D.Mark];
        return;
      }
      var ok := WriteAudio(gen, wireOk);
      if ok { consecutiveFail := 0; }
      ghost var steps := WriteSteps(wireOk, !wireOk && old(consecutiveFail) + 1 >= MAX_WRITE_FAILURES);
      FinishFrame(ok);
      D.RunAppend(s1, steps, [D.CountLost, D.Mark]);
      D.RunAppend(s0, [D.Take], steps + [D.CountLost, D.Mark]);
    }

    /** Counts a frame that was lost, then releases its mark. */
    method FinishFrame(sent: bool)
      requires Valid() && if sent then s.sender.Marking? else s.sender.Losing?
      modifies this`downlinkDropped, this`pending, this`s
      ensures Valid() && s.sender.Idle? && s == D.Run(old(s), [D.CountLost, D.Mark])
    {
      TwoSteps(s, D.CountLost, D.Mark);
      if !sent { downlinkDropped := downlinkDropped + 1; }
      MarkDone(1);
      s := D.Do(D.Do(s, D.CountLost), D.Mark);
    }
  }

  /** The parts of the state that the fields of a connection mirror. */
  predicate SameFields(s: D.State, t: D.State) {
    t.flushGen == s.flushGen && t.closed == s.closed && t.released == s.released && t.pending == s.pending &&
    t.dropped == s.dropped
  }

  lemma AppendResult(s: D.State, chunks: seq<seq<byte>>)
    requires !s.closed
    ensures
      var t, k := D.Do(s, D.Append(chunks)), D.Room(s, |chunks|);
      && D.Payloads(t.queue) == D.Payloads(s.queue) + chunks[..k] && SameFields(s, t)
      && t.tickets == s.tickets + [D.Ticket(k, |chunks| - k, false)]
  {
    assert D.Payloads(D.NewItems(s, chunks)) == chunks[..D.Room(s, |chunks|)];
  }

  lemma TakeResult(s: D.State)
    requires !s.closed && s.queue != [] && s.sender.Idle?
    ensures
      var t := D.Do(s, D.Take);
      && D.Payloads(t.queue) == D.Payloads(s.queue)[1..] && SameFields(s, t)
      && t.sender == D.Holding(s.queue[0], s.flushGen)
  {
  }

  lemma EncodeFailResult(s: D.State)
    requires s.sender.Holding?
    ensures var t := D.Do(s, D.EncodeFail); t.queue == s.queue && SameFields(s, t) && t.sender.Losing?
  {
  }

  lemma WriteResult(s: D.State, wireOk: bool)
    requires s.sender.Holding?
    ensures
      var t := D.Do(D.Do(D.Do(s, D.CheckGen), D.CheckOpen), D.Wire(wireOk));
      && t.queue == s.queue && SameFields(s, t)
      && (if s.sender.gen == s.flushGen && !s.closed && wireOk then t.sender.Marking? else t.sender.Losing?)
      && CloseSteps(t).queue == t.queue && CloseSteps(t).sender == t.sender
  {
  }

  function WriteSteps(wireOk: bool, closing: bool): seq<D.Step> {
    [D.CheckGen, D.CheckOpen, D.Wire(wireOk)] + if closing then [D.CloseMark, D.CloseMarks] else []
  }

  lemma TwoSteps(s: D.State, a: D.Step, b: D.Step)
    ensures D.Run(s, [a, b]) == D.Do(D.Do(s, a), b)
  {
    D.RunCons(s, [a, b]);
    D.RunCons(D.Do(s, a), [b]);
    assert [a, b][1..] == [b];
    hide D.Do;
  }

  function CloseSteps(s: D.State): D.State {
    D.Do(D.Do(s, D.CloseMark), D.CloseMarks)
  }

  lemma WriteStepsRun(s: D.State, wireOk: bool)
    ensures
      var t := D.Do(D.Do(D.Do(s, D.CheckGen), D.CheckOpen), D.Wire(wireOk));
      D.Run(s, WriteSteps(wireOk, false)) == t && D.Run(s, WriteSteps(wireOk, true)) == CloseSteps(t)
  {
    hide D.Do;
    var s1, close := D.Do(s, D.CheckGen), [D.CloseMark, D.CloseMarks];
    TwoSteps(s1, D.CheckOpen, D.Wire(wireOk));
    var steps := [D.CheckGen, D.CheckOpen, D.Wire(wireOk)];
    D.RunCons(s, steps);
    assert steps[1..] == [D.CheckOpen, D.Wire(wireOk)];
    D.RunAppend(s, steps, close);
    TwoSteps(D.Run(s, steps), D.CloseMark, D.CloseMarks);
    assert WriteSteps(wireOk, false) == steps;
  }
}
