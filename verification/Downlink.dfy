/** The downlink queue of internal/edge/modaudiostream/conn.go as a state
    machine, one step per critical section (and one per socket write), with any
    number of writers and flushers and the one paced sender. */
module Downlink {
  import opened Bytes
  import opened Framing

  const MAX_QUEUED_FRAMES := 3000

  /** A queued frame, tagged with its place in the accepted order and with the
      flush generation it was queued in. */
  datatype Item = Item(id: nat, gen: nat, bytes: seq<byte>)

  /** Where the sender is inside flushOne. */
  datatype Sender =
    | Idle
    | Holding(item: Item, gen: nat)  // popped; generation noted
    | Current(item: Item)            // found its generation still current
    | Ready(item: Item)              // found the leg still open; about to write
    | Losing(item: Item)             // not written; not yet counted as dropped
    | Marking                        // counted; mark not yet released
  {
    predicate InFlight() { Holding? || Current? || Ready? || Losing? }
    /** The generation check is behind it, so a flush no longer stops it. */
    predicate PastCheck() { Current? || Ready? }
  }

  /** A WritePCM call that has queued its frames but not finished. */
  datatype Ticket = Ticket(queued: nat, dropped: nat, credited: bool)

  datatype State = State(
    queue: seq<Item>, flushGen: nat, closed: bool, pending: nat, dropped: nat,
    sender: Sender, tickets: seq<Ticket>, flushing: nat, released: bool,
    offered: nat, accepted: seq<Item>, sent: seq<Item>, flushed: nat, stale: nat)

  const Init := State([], 0, false, 0, 0, Idle, [], 0, false, 0, [], [], 0, 0)

  datatype Step =
    | Append(chunks: seq<seq<byte>>)  // WritePCM, under mu
    | Credit(i: nat)                  // WritePCM, under markMu
    | CountDrops(i: nat)              // WritePCM, atomic add
    | Take                            // flushOne, under mu
    | EncodeFail                      // flushOne
    | CheckGen                        // writeAudio, under mu
    | CheckOpen                       // writeRaw, under mu
    | Wire(ok: bool)                  // writeRaw, under writeMu
    | CountLost                       // flushOne, atomic add
    | Mark                            // markDone, under markMu
    | FlushQueue                      // Flush, under mu
    | FlushMarks                      // Flush, under markMu
    | CloseMark                       // signalClose, under mu
    | CloseMarks                      // signalClose, under markMu

  /** How many of n more frames the queue still takes. */
  function Room(s: State, n: nat): (k: nat)
    ensures k <= n
  {
    var room := if |s.queue| < MAX_QUEUED_FRAMES then MAX_QUEUED_FRAMES - |s.queue| else 0;
    if n <= room then n else room
  }

  function NewItems(s: State, chunks: seq<seq<byte>>): (items: seq<Item>)
    ensures |items| == Room(s, |chunks|)
    ensures forall i :: 0 <= i < |items| ==> items[i] == Item(|s.accepted| + i, s.flushGen, chunks[i])
  {
    seq(Room(s, |chunks|), i requires 0 <= i < |chunks| => Item(|s.accepted| + i, s.flushGen, chunks[i]))
  }

  /** One step; a step whose guard does not hold leaves the state alone. */
  function Do(s: State, a: Step): State {
    match a
    case Append(chunks) =>
      if s.closed then s
      else
        var items := NewItems(s, chunks);
        s.(queue := s.queue + items, accepted := s.accepted + items, offered := s.offered + |chunks|,
        tickets := s.tickets + [Ticket(|items|, |chunks| - |items|, false)])
    case Credit(i) =>
      if i >= |s.tickets| || s.tickets[i].credited then s
      else s.(pending := s.pending + s.tickets[i].queued, tickets := s.tickets[i := s.tickets[i].(credited := true)])
    case CountDrops(i) =>
      if i >= |s.tickets| || !s.tickets[i].credited then s
      else s.(dropped := s.dropped + s.tickets[i].dropped, tickets := s.tickets[..i] + s.tickets[i + 1..])
    case Take =>
      if s.closed || s.queue == [] || s.sender != Idle then s
      else s.(queue := s.queue[1..], sender := Holding(s.queue[0], s.flushGen))
    case EncodeFail =>
      if !s.sender.Holding? then s else s.(sender := Losing(s.sender.item))
    case CheckGen =>
      if !s.sender.Holding? then s
      else s.(sender := if s.sender.gen != s.flushGen then Losing(s.sender.item) else Current(s.sender.item))
    case CheckOpen =>
      if !s.sender.Current? then s
      else s.(sender := if s.closed then Losing(s.sender.item) else Ready(s.sender.item))
    case Wire(ok) =>
      if !s.sender.Ready? then s
      else if !ok then s.(sender := Losing(s.sender.item))
      else
        s.(sender := Marking, sent := s.sent + [s.sender.item],
        stale := s.stale + if s.sender.item.gen < s.flushGen then 1 else 0)
    case CountLost =>
      if !s.sender.Losing? then s else s.(sender := Marking, dropped := s.dropped + 1)
    case Mark =>
      if !s.sender.Marking? then s
      else s.(sender := Idle, pending := if s.pending > 0 then s.pending - 1 else 0)
    case FlushQueue =>
      s.(queue := [], flushGen := s.flushGen + 1, flushed := s.flushed + |s.queue|, flushing := s.flushing + 1)
    case FlushMarks =>
      if s.flushing == 0 then s else s.(pending := 0, flushing := s.flushing - 1)
    case CloseMark => s.(closed := true)
    case CloseMarks =>
      if !s.closed || s.released then s else s.(pending := 0, released := true)
  }

  /** Any interleaving of steps. */
  function Run(s: State, steps: seq<Step>): State
    decreases |steps|
  {
    if steps == [] then s else Run(Do(s, steps[0]), steps[1..])
  }

  lemma RunCons(s: State, steps: seq<Step>)
    requires steps != []
    ensures Run(s, steps) == Run(Do(s, steps[0]), steps[1..])
  {
  }

  lemma {:induction false} RunAppend(s: State, a: seq<Step>, b: seq<Step>)
    ensures Run(s, a + b) == Run(Run(s, a), b)
    decreases |a|
  {
    if a == [] {
      assert a + b == b;
    } else {
      assert (a + b)[1..] == a[1..] + b;
      RunAppend(Do(s, a[0]), a[1..], b);
    }
  }

  // ---------------------------------------------------------------- conservation

  function Uncounted(tickets: seq<Ticket>): nat {
    if tickets == [] then 0 else tickets[0].dropped + Uncounted(tickets[1..])
  }

  lemma {:induction false} UncountedSplit(a: seq<Ticket>, b: seq<Ticket>)
    ensures Uncounted(a + b) == Uncounted(a) + Uncounted(b)
  {
    if a == [] {
      assert a + b == b;
    } else {
      UncountedSplit(a[1..], b);
      assert (a + b)[1..] == a[1..] + b;
    }
  }

  lemma UncountedAround(tickets: seq<Ticket>, i: nat, mid: seq<Ticket>)
    requires i < |tickets|
    ensures Uncounted(tickets[..i] + mid + tickets[i + 1..]) + tickets[i].dropped == Uncounted(tickets) + Uncounted(mid)
  {
    UncountedSplit(tickets[..i], tickets[i..]);
    assert tickets == tickets[..i] + tickets[i..];
    UncountedSplit(tickets[..i] + mid, tickets[i + 1..]);
    UncountedSplit(tickets[..i], mid);
  }

  /** Every frame offered is accounted for exactly once, and the queue is bounded. */
  predicate Conserved(s: State) {
    && s.offered == |s.sent| + s.dropped + Uncounted(s.tickets) + s.flushed + |s.queue| + (if s.sender.InFlight() then 1 else 0)
    && |s.queue| <= MAX_QUEUED_FRAMES
  }

  lemma ConservedStep(s: State, a: Step)
    requires Conserved(s)
    ensures Conserved(Do(s, a))
  {
    if a.Append? {
      ConservedAppend(s, a.chunks);
    } else if a.Credit? {
      ConservedCredit(s, a.i);
    } else if a.CountDrops? {
      ConservedCountDrops(s, a.i);
    } else {
      hide Uncounted;
    }
  }

  lemma ConservedAppend(s: State, chunks: seq<seq<byte>>)
    requires Conserved(s)
    ensures Conserved(Do(s, Append(chunks)))
  {
    var t := Do(s, Append(chunks));
    UncountedSplit(s.tickets, t.tickets[|s.tickets|..]);
    if !s.closed { assert t.tickets[|s.tickets|..] == [Ticket(Room(s, |chunks|), |chunks| - Room(s, |chunks|), false)]; }
  }

  lemma ConservedCredit(s: State, i: nat)
    requires Conserved(s)
    ensures Conserved(Do(s, Credit(i)))
  {
    if i < |s.tickets| {
      var t := s.tickets[i].(credited := true);
      UncountedAround(s.tickets, i, [t]);
      assert s.tickets[i := t] == s.tickets[..i] + [t] + s.tickets[i + 1..];
    }
  }

  lemma ConservedCountDrops(s: State, i: nat)
    requires Conserved(s)
    ensures Conserved(Do(s, CountDrops(i)))
  {
    if i < |s.tickets| {
      UncountedAround(s.tickets, i, []);
      assert s.tickets[..i] + [] + s.tickets[i + 1..] == s.tickets[..i] + s.tickets[i + 1..];
    }
  }

  // ---------------------------------------------------------------- order

  /** The first accepted place the sender has not popped. */
  function Front(s: State): int {
    |s.accepted| - |s.queue|
  }

  /** A frame that was accepted, and popped since. */
  predicate Popped(s: State, item: Item) {
    item.id < Front(s) && item.id < |s.accepted| && s.accepted[item.id] == item
  }

  /** Accepted frames carry their own place; the queue is the newest of them,
      all of the current generation. */
  predicate QueueOrdered(s: State) {
    && (forall i :: 0 <= i < |s.accepted| ==> s.accepted[i].id == i && s.accepted[i].gen <= s.flushGen)
    && |s.queue| <= |s.accepted|
    && (forall i :: 0 <= i < |s.queue| ==> s.queue[i] == s.accepted[Front(s) + i] && s.queue[i].gen == s.flushGen)
  }

  /** The frames on the wire were accepted earlier, and go out in that order. */
  predicate SentOrdered(s: State) {
    && (forall i :: 0 <= i < |s.sent| ==> Popped(s, s.sent[i]))
    && (forall i, j :: 0 <= i < j < |s.sent| ==> s.sent[i].id < s.sent[j].id)
  }

  /** The frame in flight comes after everything sent. */
  predicate SenderOrdered(s: State) {
    s.sender.InFlight() ==>
      && Popped(s, s.sender.item)
      && (s.sender.Holding? ==> s.sender.gen == s.sender.item.gen)
      && forall i :: 0 <= i < |s.sent| ==> s.sent[i].id < s.sender.item.id
  }

  predicate Ordered(s: State) {
    QueueOrdered(s) && SentOrdered(s) && SenderOrdered(s)
  }

  lemma OrderedStep(s: State, a: Step)
    requires Ordered(s)
    ensures Ordered(Do(s, a))
  {
    var t := Do(s, a);
    QueueOrderedStep(s, a);
    hide QueueOrdered;
    PoppedStep(s, a);
    SentOrderedStep(s, a);
    SenderOrderedStep(s, a);
  }

  lemma QueueOrderedStep(s: State, a: Step)
    requires QueueOrdered(s)
    ensures QueueOrdered(Do(s, a))
  {
    var t := Do(s, a);
    if a.Append? && !s.closed {
      AppendKeepsQueueOrder(s, a.chunks);
    } else if a.Take? {
      TakeKeepsQueueOrder(s);
    } else if a.FlushQueue? {
      FlushKeepsQueueOrder(s);
    } else if !a.Append? {
      OthersLeaveQueue(s, a);
      hide Do;
    }
  }

  lemma OthersLeaveQueue(s: State, a: Step)
    requires !a.Append? && !a.Take? && !a.FlushQueue?
    ensures var t := Do(s, a); t.queue == s.queue && t.accepted == s.accepted && t.flushGen == s.flushGen
  {
  }

  lemma FlushKeepsQueueOrder(s: State)
    requires QueueOrdered(s)
    ensures QueueOrdered(Do(s, FlushQueue))
  {
  }

  lemma TakeKeepsQueueOrder(s: State)
    requires QueueOrdered(s)
    ensures QueueOrdered(Do(s, Take))
  {
    var t := Do(s, Take);
    if t.queue != s.queue { assert t.queue == s.queue[1..] && Front(t) == Front(s) + 1; }
  }

  lemma AppendKeepsQueueOrder(s: State, chunks: seq<seq<byte>>)
    requires QueueOrdered(s) && !s.closed
    ensures QueueOrdered(Do(s, Append(chunks)))
  {
    var t, k := Do(s, Append(chunks)), |s.queue|;
    hide Room;
    forall i | 0 <= i < |t.queue|
      ensures t.queue[i] == t.accepted[Front(t) + i] && t.queue[i].gen == t.flushGen
    {
      if i >= k { assert t.queue[i] == NewItems(s, chunks)[i - k]; }
    }
  }

  /** What has been popped stays popped. */
  lemma PoppedStep(s: State, a: Step)
    requires |s.queue| <= |s.accepted|
    ensures Front(s) <= Front(Do(s, a)) && s.accepted <= Do(s, a).accepted
    ensures forall item :: Popped(s, item) ==> Popped(Do(s, a), item)
  {
  }

  lemma SentOrderedStep(s: State, a: Step)
    requires SentOrdered(s) && SenderOrdered(s) && |s.queue| <= |s.accepted|
    ensures SentOrdered(Do(s, a))
  {
    PoppedStep(s, a);
    hide Popped;
  }

  lemma SenderOrderedStep(s: State, a: Step)
    requires SentOrdered(s) && SenderOrdered(s) && QueueOrdered(s)
    ensures SenderOrdered(Do(s, a))
  {
    PoppedStep(s, a);
    if a != Take { hide Popped, QueueOrdered; }
  }

  // ---------------------------------------------------------------- stale frames

  /** Whether a frame of an older generation than g is past the check. */
  function Escaped(x: Sender, g: nat): nat {
    if x.PastCheck() && x.item.gen < g then 1 else 0
  }

  /** Each stale frame is charged to the flush that overtook it. */
  predicate StaleCharged(s: State) {
    s.stale + Escaped(s.sender, s.flushGen) <= s.flushGen
  }

  lemma StaleChargedStep(s: State, a: Step)
    requires StaleCharged(s) && Ordered(s)
    ensures StaleCharged(Do(s, a))
  {
  }

  /** Frames of generations before g among some frames. */
  function StaleIn(items: seq<Item>, g: nat): nat {
    if items == [] then 0
    else StaleIn(items[..|items| - 1], g) + if items[|items| - 1].gen < g then 1 else 0
  }

  predicate Inv(s: State) {
    Conserved(s) && Ordered(s) && StaleCharged(s)
  }

  lemma InvStep(s: State, a: Step)
    requires Inv(s)
    ensures Inv(Do(s, a))
  {
    hide Conserved, Ordered, StaleCharged, Do;
    ConservedStep(s, a);
    OrderedStep(s, a);
    StaleChargedStep(s, a);
  }

  /** What every step keeps, every run keeps. */
  lemma {:induction false} RunKeepsInv(s: State, steps: seq<Step>)
    requires Inv(s)
    ensures Inv(Run(s, steps))
    decreases |steps|
  {
    if steps != [] {
      InvStep(s, steps[0]);
      hide Inv, Do;
      RunKeepsInv(Do(s, steps[0]), steps[1..]);
    }
  }

  lemma StaleInSnoc(items: seq<Item>, item: Item, g: nat)
    ensures StaleIn(items + [item], g) == StaleIn(items, g) + if item.gen < g then 1 else 0
  {
    assert (items + [item])[..|items|] == items;
  }

  /** From any reachable state, however writers, flushers and the sender
      interleave from there on, the frames of generations up to an earlier
      flush that still reach the wire are at most the one already past the
      generation check. */
  lemma {:induction false} OneStaleFramePerFlush(s: State, steps: seq<Step>, g: nat)
    requires Inv(s) && g <= s.flushGen
    ensures s.sent <= Run(s, steps).sent
    ensures StaleIn(Run(s, steps).sent, g) <= StaleIn(s.sent, g) + Escaped(s.sender, g)
    decreases |steps|
  {
    if steps != [] {
      var t := Do(s, steps[0]);
      InvStep(s, steps[0]);
      EscapedStep(s, steps[0], g);
      hide Inv, Do, StaleIn, Escaped;
      OneStaleFramePerFlush(t, steps[1..], g);
    }
  }

  /** No step lets another frame of an older generation escape. */
  lemma EscapedStep(s: State, a: Step, g: nat)
    requires SenderOrdered(s) && g <= s.flushGen
    ensures g <= Do(s, a).flushGen && s.sent <= Do(s, a).sent
    ensures StaleIn(Do(s, a).sent, g) + Escaped(Do(s, a).sender, g) <= StaleIn(s.sent, g) + Escaped(s.sender, g)
  {
    if a == Wire(true) && s.sender.Ready? { StaleInSnoc(s.sent, s.sender.item, g); }
    hide StaleIn;
  }

  /** In particular, right after a flush at most one frame queued before it can
      still be heard. */
  lemma AfterFlush(s: State, steps: seq<Step>)
    requires Inv(s)
    ensures
      var t := Do(s, FlushQueue);
      var u := Run(t, steps);
      t.sent <= u.sent && StaleIn(u.sent, t.flushGen) <= StaleIn(t.sent, t.flushGen) + 1
  {
    InvStep(s, FlushQueue);
    var t := Do(s, FlushQueue);
    assert t.flushGen == s.flushGen + 1;
    hide Inv, Do, StaleIn;
    OneStaleFramePerFlush(t, steps, t.flushGen);
  }

  /** Over a whole run: everything offered is accounted for, the queue is
      bounded, frames go out in the order accepted, and stale frames never
      outnumber flushes. */
  lemma WholeRun(steps: seq<Step>)
    ensures Inv(Run(Init, steps))
    ensures Run(Init, steps).stale <= Run(Init, steps).flushGen == Flushes(steps)
    ensures |Run(Init, steps).queue| <= 3000
  {
    RunKeepsInv(Init, steps);
    FlushGenCounts(Init, steps);
  }

  function Flushes(steps: seq<Step>): nat
    decreases |steps|
  {
    if steps == [] then 0 else (if steps[0] == FlushQueue then 1 else 0) + Flushes(steps[1..])
  }

  lemma {:induction false} FlushGenCounts(s: State, steps: seq<Step>)
    ensures Run(s, steps).flushGen == s.flushGen + Flushes(steps)
    decreases |steps|
  {
    if steps != [] { FlushGenCounts(Do(s, steps[0]), steps[1..]); }
  }

  // ---------------------------------------------------------------- marks

  /** Whole calls of the writers and flushers, single steps of the others. */
  datatype Call = WritePCM(chunks: seq<seq<byte>>) | Flush | Other(a: Step)

  function DoCall(s: State, c: Call): State {
    match c
    case WritePCM(chunks) => Do(Do(Do(s, Append(chunks)), Credit(0)), CountDrops(0))
    case Flush => Do(Do(s, FlushQueue), FlushMarks)
    case Other(a) =>
      if a.Append? || a.Credit? || a.CountDrops? || a.FlushQueue? || a.FlushMarks? then s else Do(s, a)
  }

  function RunCalls(s: State, calls: seq<Call>): State
    decreases |calls|
  {
    if calls == [] then s else RunCalls(DoCall(s, calls[0]), calls[1..])
  }

  /** Frames that still owe a mark: queued, or with the sender. */
  function Owed(s: State): nat {
    |s.queue| + if s.sender.Idle? then 0 else 1
  }

  /** Marks never exceed the frames that owe one, and fall short of them by at
      most one, until the leg is closed, which leaves none. */
  predicate MarksMatch(s: State) {
    && s.tickets == [] && s.flushing == 0
    && s.pending <= Owed(s)
    && (!s.released ==> Owed(s) <= s.pending + 1)
    && (s.released ==> s.closed && s.pending == 0)
  }

  lemma MarksMatchStep(s: State, c: Call)
    requires MarksMatch(s)
    ensures MarksMatch(DoCall(s, c))
  {
    if c.WritePCM? && !s.closed {
      var t := Do(s, Append(c.chunks));
      assert t.tickets == [t.tickets[0]];
      var u := Do(t, Credit(0));
      assert u.tickets == [u.tickets[0]];
    }
  }

  /** In every state reachable by whole calls a drained queue, or a closed leg,
      has no pending mark left, so a WaitMark loop can exit; and a WaitMark that
      exits leaves at most one frame unplayed. */
  lemma {:induction false} MarksMatchAlways(s: State, calls: seq<Call>)
    requires MarksMatch(s)
    ensures
      var t := RunCalls(s, calls);
      && MarksMatch(t)
      && ((t.queue == [] && t.sender.Idle?) || t.released ==> t.pending == 0)
      && (t.pending == 0 && !t.released ==> Owed(t) <= 1)
    decreases |calls|
  {
    if calls != [] {
      MarksMatchStep(s, calls[0]);
      MarksMatchAlways(DoCall(s, calls[0]), calls[1..]);
    }
  }

  /** Whether, after some calls, a flush has overtaken a frame in flight since
      the leg was last drained. `was` says so of the calls before. */
  function Overtaken(s: State, calls: seq<Call>, was: bool): bool
    decreases |calls|
  {
    if calls == [] then was else Overtaken(DoCall(s, calls[0]), calls[1..], OvertakenBy(s, calls[0], was))
  }

  function OvertakenBy(s: State, c: Call, was: bool): bool {
    if c == Flush then !s.sender.Idle? else was && Owed(DoCall(s, c)) > 0
  }

  lemma MarksStep(s: State, c: Call, was: bool)
    requires MarksMatch(s) && (s.released || s.pending + (if was then 1 else 0) == Owed(s))
    ensures
      var t := DoCall(s, c);
      t.released || t.pending + (if OvertakenBy(s, c, was) then 1 else 0) == Owed(t)
  {
    if c.WritePCM? && !s.closed {
      var t := Do(s, Append(c.chunks));
      assert t.tickets == [t.tickets[0]];
      var u := Do(t, Credit(0));
      assert u.tickets == [u.tickets[0]];
    }
  }

  /** The marks are exact, so that WaitMark returns only when every frame has
      been played, unless a flush overtook a frame in flight since the leg was
      last drained; and then they are one short. */
  lemma {:induction false} MarksExactIff(s: State, calls: seq<Call>, was: bool)
    requires MarksMatch(s) && (s.released || s.pending + (if was then 1 else 0) == Owed(s))
    ensures
      var t := RunCalls(s, calls);
      !t.released ==> (t.pending == Owed(t) <==> !Overtaken(s, calls, was))
    decreases |calls|
  {
    if calls != [] {
      MarksStep(s, calls[0], was);
      MarksMatchStep(s, calls[0]);
      hide MarksMatch, DoCall, OvertakenBy, Owed;
      MarksExactIff(DoCall(s, calls[0]), calls[1..], OvertakenBy(s, calls[0], was));
    }
  }

  /** So it happens: a frame in flight when the queue is flushed releases a mark
      that belongs to the next utterance. */
  lemma WaitMarkCanReturnEarly(chunk: seq<byte>) returns (calls: seq<Call>)
    ensures var t := RunCalls(Init, calls); t.pending == 0 && |t.queue| == 1 && !t.closed
  {
    var one := WritePCM([chunk]);
    var first, second := [one, Other(Take)], [Flush, one];
    var last := [Other(CheckGen), Other(CountLost)] + [Other(Mark)];
    var s3 := OvertakeOne(chunk);
    var t := LoseOvertaken(s3, chunk);
    hide DoCall, RunCalls;
    TwoCalls(Init, one, Other(Take));
    TwoCalls(RunCalls(Init, first), Flush, one);
    RunCallsAppend(s3, [Other(CheckGen), Other(CountLost)], [Other(Mark)]);
    RunCallsAppend(RunCalls(Init, first), second, last);
    RunCallsAppend(Init, first, second + last);
    calls := first + (second + last);
  }

  /** A frame taken, the queue flushed, and the next utterance written. */
  lemma OvertakeOne(chunk: seq<byte>) returns (s: State)
    ensures
      var one := WritePCM([chunk]);
      s == DoCall(DoCall(DoCall(DoCall(Init, one), Other(Take)), Flush), one)
    ensures s.sender == Holding(Item(0, 0, chunk), 0) && s.flushGen == 1 && s.pending == 1 && |s.queue| == 1 && !s.closed
  {
    var one := WritePCM([chunk]);
    OneFrameQueued(Init, chunk);
    hide NewItems;
    var s2 := DoCall(DoCall(Init, one), Other(Take));
    assert s2.sender == Holding(Item(0, 0, chunk), 0) && s2.tickets == [] && s2.flushGen == 0 && !s2.closed;
    var s3 := DoCall(s2, Flush);
    OneFrameQueued(s3, chunk);
    s := DoCall(s3, one);
    hide DoCall;
  }

  /** The overtaken frame is lost, and releases a mark. */
  lemma LoseOvertaken(s: State, chunk: seq<byte>) returns (t: State)
    requires s.sender == Holding(Item(0, 0, chunk), 0) && s.flushGen == 1 && s.pending == 1
    ensures t == RunCalls(RunCalls(s, [Other(CheckGen), Other(CountLost)]), [Other(Mark)])
    ensures t.pending == 0 && t.queue == s.queue && t.closed == s.closed
  {
    TwoCalls(s, Other(CheckGen), Other(CountLost));
    var s2 := DoCall(DoCall(s, Other(CheckGen)), Other(CountLost));
    t := DoCall(s2, Other(Mark));
    assert [Other(Mark)][1..] == [] && RunCalls(t, []) == t;
    assert RunCalls(s2, [Other(Mark)]) == t;
  }

  lemma TwoCalls(s: State, a: Call, b: Call)
    ensures RunCalls(s, [a, b]) == DoCall(DoCall(s, a), b)
  {
    hide DoCall;
    var t := DoCall(DoCall(s, a), b);
    assert [a, b][1..] == [b] && [b][1..] == [] && RunCalls(t, []) == t;
    assert RunCalls(DoCall(s, a), [b]) == t;
  }

  lemma {:induction false} RunCallsAppend(s: State, a: seq<Call>, b: seq<Call>)
    ensures RunCalls(s, a + b) == RunCalls(RunCalls(s, a), b)
    decreases |a|
  {
    hide DoCall;
    if a == [] {
      assert a + b == b;
    } else {
      assert (a + b)[1..] == a[1..] + b;
      RunCallsAppend(DoCall(s, a[0]), a[1..], b);
    }
  }

  /** Writing one frame to a queue with room. */
  lemma OneFrameQueued(s: State, chunk: seq<byte>)
    requires !s.closed && s.tickets == [] && s.queue == []
    ensures
      var items := [Item(|s.accepted|, s.flushGen, chunk)];
      DoCall(s, WritePCM([chunk])) ==
      s.(queue := items, accepted := s.accepted + items, offered := s.offered + 1, pending := s.pending + 1)
  {
    var t := Do(s, Append([chunk]));
    assert t.tickets == [Ticket(1, 0, false)];
    assert t.queue == [Item(|s.accepted|, s.flushGen, chunk)];
  }

  /** The laws above hold of whole calls, not of single steps: a flush that
      slips between WritePCM's two locks leaves a mark that no frame owes, and
      WaitMark waits on a drained queue. */
  lemma FlushInsideWriteSticks(chunk: seq<byte>)
    ensures
      var t := Run(Init, [Append([chunk]), FlushQueue, FlushMarks, Credit(0), CountDrops(0)]);
      t.queue == [] && t.sender == Idle && t.tickets == [] && t.flushing == 0 && t.pending == 1
  {
    var s1 := Do(Init, Append([chunk]));
    assert s1.tickets == [Ticket(1, 0, false)];
    var s3 := Do(Do(s1, FlushQueue), FlushMarks);
    var s4 := Do(s3, Credit(0));
    assert s4.tickets == [Ticket(1, 0, true)];
    var s5 := Do(s4, CountDrops(0));
    assert s5.tickets == [];
    assert Run(s4, [CountDrops(0)]) == s5;
    assert Run(s3, [Credit(0), CountDrops(0)]) == s5;
    assert Run(s1, [FlushQueue, FlushMarks, Credit(0), CountDrops(0)]) == s5;
  }

  /** No flush is needed for that: so does a frame that is sent and marked
      before the call that queued it credits it. */
  lemma SentBeforeCreditSticks(chunk: seq<byte>)
    ensures
      var send := [Append([chunk]), Take, CheckGen, CheckOpen, Wire(true), Mark];
      var t := Run(Init, send + [Credit(0), CountDrops(0)]);
      t.queue == [] && t.sender == Idle && t.tickets == [] && |t.sent| == 1 && t.pending == 1
  {
    var s1 := Do(Init, Append([chunk]));
    assert s1.tickets == [Ticket(1, 0, false)];
    var s2 := Do(s1, Take);
    var s5 := Do(Do(Do(s2, CheckGen), CheckOpen), Wire(true));
    var s6 := Do(s5, Mark);
    var s7 := Do(s6, Credit(0));
    assert s7.tickets == [Ticket(1, 0, true)];
    var s8 := Do(s7, CountDrops(0));
    assert s8.tickets == [] && s8.pending == 1;
    var tail := [Credit(0), CountDrops(0)];
    var send := [Append([chunk]), Take, CheckGen, CheckOpen, Wire(true), Mark];
    hide Do;
    assert Run(s7, tail[1..]) == Run(s8, []) == s8;
    assert Run(s6, tail) == s8;
    RunSix(Init, send, s6);
    RunAppend(Init, send, tail);
  }

  lemma RunSix(s: State, a: seq<Step>, t: State)
    requires |a| == 6 && t == Do(Do(Do(Do(Do(Do(s, a[0]), a[1]), a[2]), a[3]), a[4]), a[5])
    ensures Run(s, a) == t
  {
    hide Do;
    assert a == a[..3] + a[3..];
    RunAppend(s, a[..3], a[3..]);
    RunThree(s, a[..3]);
    RunThree(Run(s, a[..3]), a[3..]);
  }

  lemma RunThree(s: State, a: seq<Step>)
    requires |a| == 3
    ensures Run(s, a) == Do(Do(Do(s, a[0]), a[1]), a[2])
  {
    hide Do;
    RunCons(s, a);
    RunCons(Do(s, a[0]), a[1..]);
    RunCons(Do(Do(s, a[0]), a[1]), a[2..]);
    assert a[1..][1..] == a[2..] && a[2..][1..] == [];
  }

  // ---------------------------------------------------------------- marks, lock by lock

  /** Frames queued by calls that have not credited them yet. */
  function Uncredited(tickets: seq<Ticket>): nat {
    if tickets == [] then 0
    else (if tickets[0].credited then 0 else tickets[0].queued) + Uncredited(tickets[1..])
  }

  /** How far one critical section puts the marks ahead of the frames that owe
      one: a mark released before its credit, frames flushed before their marks,
      and marks cleared. */
  function Ahead(s: State, a: Step): int {
    match a
    case Mark => if s.sender.Marking? && s.pending == 0 then 1 else 0
    case FlushQueue => |s.queue|
    case FlushMarks => if s.flushing == 0 then 0 else 0 - s.pending
    case CloseMarks => if !s.closed || s.released then 0 else 0 - s.pending
    case _ => 0
  }

  /** How far a whole interleaving does. */
  function Surplus(s: State, steps: seq<Step>): int
    decreases |steps|
  {
    if steps == [] then 0 else Ahead(s, steps[0]) + Surplus(Do(s, steps[0]), steps[1..])
  }

  lemma {:induction false} UncreditedSplit(a: seq<Ticket>, b: seq<Ticket>)
    ensures Uncredited(a + b) == Uncredited(a) + Uncredited(b)
  {
    if a == [] {
      assert a + b == b;
    } else {
      UncreditedSplit(a[1..], b);
      assert (a + b)[1..] == a[1..] + b;
    }
  }

  lemma UncreditedAround(tickets: seq<Ticket>, i: nat, mid: seq<Ticket>)
    requires i < |tickets|
    ensures Uncredited(tickets[..i] + mid + tickets[i + 1..]) + Uncredited([tickets[i]]) ==
            Uncredited(tickets) + Uncredited(mid)
  {
    UncreditedSplit(tickets[..i], tickets[i..]);
    UncreditedSplit([tickets[i]], tickets[i + 1..]);
    assert tickets == tickets[..i] + tickets[i..] && tickets[i..] == [tickets[i]] + tickets[i + 1..];
    UncreditedSplit(tickets[..i] + mid, tickets[i + 1..]);
    UncreditedSplit(tickets[..i], mid);
  }

  function Balance(s: State): int {
    s.pending + Uncredited(s.tickets) - Owed(s)
  }

  lemma BalanceStep(s: State, a: Step)
    ensures Balance(Do(s, a)) == Balance(s) + Ahead(s, a)
  {
    if a.Append? {
      BalanceAppend(s, a.chunks);
    } else if a.Credit? {
      BalanceCredit(s, a.i);
    } else if a.CountDrops? {
      BalanceCountDrops(s, a.i);
    } else {
      hide Uncredited;
    }
  }

  lemma BalanceAppend(s: State, chunks: seq<seq<byte>>)
    ensures Balance(Do(s, Append(chunks))) == Balance(s)
  {
    var t, k := Do(s, Append(chunks)), Room(s, |chunks|);
    if !s.closed {
      UncreditedSplit(s.tickets, [Ticket(k, |chunks| - k, false)]);
      assert [Ticket(k, |chunks| - k, false)][1..] == [];
    }
    hide Room;
  }

  lemma BalanceCredit(s: State, i: nat)
    ensures Balance(Do(s, Credit(i))) == Balance(s)
  {
    if i < |s.tickets| {
      var t := s.tickets[i].(credited := true);
      UncreditedAround(s.tickets, i, [t]);
      assert s.tickets[i := t] == s.tickets[..i] + [t] + s.tickets[i + 1..];
      assert [t][1..] == [] && [s.tickets[i]][1..] == [];
    }
  }

  lemma BalanceCountDrops(s: State, i: nat)
    ensures Balance(Do(s, CountDrops(i))) == Balance(s)
  {
    if i < |s.tickets| {
      UncreditedAround(s.tickets, i, []);
      assert s.tickets[..i] + [] + s.tickets[i + 1..] == s.tickets[..i] + s.tickets[i + 1..];
      assert [s.tickets[i]][1..] == [];
    }
  }

  /** Under any interleaving of critical sections, the marks and the frames not
      yet credited exceed the frames that owe a mark by the surplus. */
  lemma {:induction false} MarksBalance(s: State, steps: seq<Step>)
    ensures Balance(Run(s, steps)) == Balance(s) + Surplus(s, steps)
    decreases |steps|
  {
    if steps != [] {
      BalanceStep(s, steps[0]);
      hide Balance, Do, Ahead;
      MarksBalance(Do(s, steps[0]), steps[1..]);
    }
  }

  /** Nothing is queued, in flight or still to be credited. */
  predicate Drained(s: State) {
    s.queue == [] && s.sender.Idle? && Uncredited(s.tickets) == 0
  }

  /** So WaitMark can return on a drained leg exactly when the surplus is gone. */
  lemma DrainedHasNoMarkIff(steps: seq<Step>)
    requires Drained(Run(Init, steps))
    ensures Run(Init, steps).pending == Surplus(Init, steps)
    ensures Run(Init, steps).pending == 0 <==> Surplus(Init, steps) == 0
  {
    hide Run, Surplus, Balance, Drained;
    MarksBalance(Init, steps);
    NoBalanceAtFirst();
    DrainedBalance(Run(Init, steps));
  }

  lemma NoBalanceAtFirst()
    ensures Balance(Init) == 0
  {
  }

  lemma DrainedBalance(s: State)
    requires Drained(s)
    ensures Balance(s) == s.pending
  {
  }

  /** Some frame is marked when no mark is pending: before the call that queued
      it, or one ahead of it, credits it. */
  predicate MarkedEarly(s: State, steps: seq<Step>)
    decreases |steps|
  {
    steps != [] &&
    ((steps[0] == Mark && s.sender.Marking? && s.pending == 0) || MarkedEarly(Do(s, steps[0]), steps[1..]))
  }

  predicate NoReset(steps: seq<Step>) {
    forall a <- steps :: !a.FlushQueue? && !a.FlushMarks? && !a.CloseMarks?
  }

  lemma {:induction false} EarlyIsSurplus(s: State, steps: seq<Step>)
    requires NoReset(steps)
    ensures Surplus(s, steps) >= 0 && (Surplus(s, steps) == 0 <==> !MarkedEarly(s, steps))
    decreases |steps|
  {
    if steps != [] {
      assert steps[0] in steps;
      assert forall a <- steps[1..] :: a in steps;
      hide Do;
      EarlyIsSurplus(Do(s, steps[0]), steps[1..]);
    }
  }

  /** Without flushes and before closing, a drained leg has no mark left exactly
      when no frame was marked early. */
  lemma DrainedHasNoMarkUnlessEarly(steps: seq<Step>)
    requires NoReset(steps) && Drained(Run(Init, steps))
    ensures Run(Init, steps).pending == 0 <==> !MarkedEarly(Init, steps)
  {
    DrainedHasNoMarkIff(steps);
    EarlyIsSurplus(Init, steps);
    hide Run, Surplus, MarkedEarly, Drained;
  }

  // ---------------------------------------------------------------- utterances

  function Payloads(items: seq<Item>): (r: seq<seq<byte>>)
    ensures |r| == |items|
  {
    seq(|items|, i requires 0 <= i < |items| => items[i].bytes)
  }

  /** One that does not fit fills the queue to 3000 frames with its first ones, in
      order, and the rest are dropped. */
  lemma QueueFillsUp(s: State, chunks: seq<seq<byte>>)
    requires !s.closed && |s.queue| <= 3000
    ensures
      var t := Do(s, Append(chunks));
      var k := |t.queue| - |s.queue|;
      && |t.queue| == (if |s.queue| + |chunks| <= 3000 then |s.queue| + |chunks| else 3000)
      && t.queue[..|s.queue|] == s.queue && Payloads(t.queue[|s.queue|..]) == chunks[..k]
      && t.tickets == s.tickets + [Ticket(k, |chunks| - k, false)]
  {
    var items := NewItems(s, chunks);
    assert Do(s, Append(chunks)).queue[|s.queue|..] == items;
    assert Payloads(items) == chunks[..|items|];
  }

  /** An utterance that fits the queue is queued whole: its frames join to its
      PCM and some trailing silence. */
  lemma UtteranceQueuedWhole(s: State, pcm: seq<byte>, n: nat)
    requires n > 0 && !s.closed && |s.queue| + |Chop(pcm, 0, n)| <= MAX_QUEUED_FRAMES
    ensures
      var t := Do(s, Append(Chop(pcm, 0, n)));
      var items := t.queue[|s.queue|..];
      && t.queue[..|s.queue|] == s.queue && t.tickets == s.tickets + [Ticket(|items|, 0, false)]
      && |pcm| <= |items| * n < |pcm| + n
      && Joined(Payloads(items)) == pcm + Zeros(|items| * n - |pcm|)
  {
    var chunks := Chop(pcm, 0, n);
    var items := NewItems(s, chunks);
    FrameCount(pcm, 0, n);
    FramesJoin(pcm, 0, n);
    assert Payloads(items) == chunks;
    assert Do(s, Append(chunks)).queue[|s.queue|..] == items;
    assert pcm[0..] == pcm;
  }
}
