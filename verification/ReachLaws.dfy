/** Which nodes the runs of a cursor reach and which edges they try: exactly
    those that routes through the graph say. */
module ReachLaws {
  import opened Wrappers
  import opened Text
  import opened Flow
  import opened FlowWalk
  import opened TurnLaws
  import opened RunLaws
  import opened SafetyLaws
  import opened HangLaws
  import opened ChoiceLaws

  type Answers = string -> bool

  // ---------------------------------------------------------------- the graph

  /** Edges the cursor takes by itself, from one node to another. */
  ghost predicate Route(env: Env, answers: Answers, p: seq<Edge>, from: string, to: string) {
    Driven(env, answers, p) && if p == [] then from == to else p[0].from == from && p[|p| - 1].to == to
  }

  /** Where a call sets out from: the node itself, or behind an edge an
      utterance chooses there. */
  ghost predicate SetsOut(env: Env, at: string, x: string) {
    x == at || (x in env.nodes && exists e :: Chosen(env, at, e) && e.to == x)
  }

  /** Some answers drive the cursor from a node to one where it goes no further. */
  ghost predicate WalksTo(env: Env, x: string, to: string) {
    exists answers: Answers, p :: Route(env, answers, p, x, to) && LiveEdge(env, to, answers) == None
  }

  /** Some answers drive the cursor to try an edge. */
  ghost predicate WalkTries(env: Env, x: string, e: Edge) {
    exists answers: Answers, p, m :: Route(env, answers, p, x, m) && NextEdge(env, m, answers) == Some(e)
  }

  /** Some answers drive the cursor onto a cycle. */
  ghost predicate WalkCircles(env: Env, x: string) {
    exists answers: Answers, q, y, p :: Route(env, answers, q, x, y) && Route(env, answers, p, y, y) && p != []
  }

  ghost predicate Leg(env: Env, at: string, to: string) {
    exists x :: SetsOut(env, at, x) && WalksTo(env, x, to)
  }

  ghost predicate StandsIn(env: Env, id: string, k: nat)
    decreases k
  {
    if k == 0 then id == env.doc.entryNodeId && id in env.nodes
    else exists at :: StandsIn(env, at, k - 1) && Leg(env, at, id)
  }

  /** Nodes that legs lead to from the entry. */
  ghost predicate Stands(env: Env, id: string) {
    exists k: nat :: StandsIn(env, id, k)
  }

  /** Edges tried from such a node. */
  ghost predicate Tried(env: Env, e: Edge) {
    exists at :: Stands(env, at) && TriedFrom(env, at, e)
  }

  ghost predicate TriedFrom(env: Env, at: string, e: Edge) {
    Chosen(env, at, e) || exists x :: SetsOut(env, at, x) && WalkTries(env, x, e)
  }

  ghost predicate CirclesFrom(env: Env, at: string) {
    exists x :: SetsOut(env, at, x) && WalkCircles(env, x)
  }

  // ---------------------------------------------------------------- walks

  /** What every accepted document provides. */
  ghost predicate Serviceable(env: Env) {
    PromptsResolve(env) && InformNodesBound(env) && KeyedById(env) && MatrixOk(env.doc.Matrix())
  }

  ghost predicate Unserved(r: Result<Turn, Err>) {
    r == Failure(NoIntent) || r == Failure(IntentNotInMatrix)
  }

  /** At a transfer whose intent, its own or that of the edge that led there,
      has no row. */
  ghost predicate LacksIntent(env: Env, s: State) {
    s.nodeId in env.nodes && IsTransfer(env.nodes[s.nodeId]) &&
    ActingIntent(env.nodes[s.nodeId], s.lastEdge) !in TrimmedIntents(env.doc.Matrix())
  }

  lemma EffectIsNext(w: World, id: string)
    requires PromptsResolve(w.env) && InformNodesBound(w.env) && id in w.env.nodes
    ensures
      var next, effect := NextEdge(w.env, id, AnswersOf(w)), NodeEffect(w, id);
      var kind := w.env.nodes[id].kind;
      if next == None then
        if kind.Entry? || kind.Speak? || kind.Inform? then effect == Fail(NoSoleEdge)
        else if kind.Decide? || kind.OtherNode? then effect == Fail(NotImplemented)
        else effect.Halt?
      else if next.value.to in w.env.nodes then effect.Move? && effect.e == next.value
      else effect == Fail(UnknownNode)
  {
    hide Resolve, Sole, OutEdges;
  }

  lemma LandUnserved(env: Env, s: State)
    requires MatrixOk(env.doc.Matrix()) && s.nodeId in env.nodes
    ensures Unserved(Land(env, s).1) ==> LacksIntent(env, Land(env, s).0)
    ensures Land(env, s).1.Success? ==> !LacksIntent(env, Land(env, s).0)
    ensures Land(env, s).1 != Failure(UnknownNode)
    ensures Land(env, s).0.nodeId == s.nodeId && Land(env, s).0.lastEdge == s.lastEdge
  {
    var n := env.nodes[s.nodeId];
    if IsTransfer(n) && !s.armed { ArmIff(env, s, n); }
    LandArms(env, s);
    hide MatrixOk, TrimmedIntents, ActingIntent, CarriesOnlyRow, Land, Arm, IsTransfer;
  }

  lemma LandArms(env: Env, s: State)
    requires s.nodeId in env.nodes
    ensures
      var n, r := env.nodes[s.nodeId], Land(env, s);
      && (Unserved(r.1) ==> IsTransfer(n) && !s.armed && Arm(env, s, n).Failure?)
      && (r.1.Success? && IsTransfer(n) ==> !s.armed && Arm(env, s, n).Success?)
      && r.1 != Failure(UnknownNode) && r.0.nodeId == s.nodeId && r.0.lastEdge == s.lastEdge
  {
    hide Trim, FindRow, ToolTransfer, ToolHangup, Resolve, ActingIntent;
  }

  /** How a walk that stops ends: where its answers drive it, by which edge, and why. */
  ghost predicate Ends(env: Env, s: State, p: seq<Edge>, r: (State, Result<Turn, Err>)) {
    var answers, to := AnswersOf(WorldOf(env, s)), r.0.nodeId;
    && Route(env, answers, p, s.nodeId, to) && LiveEdge(env, to, answers) == None && to in env.nodes
    && r.0.lastEdge == (if p == [] then s.lastEdge else p[|p| - 1])
    && (r.1 == Failure(UnknownNode) <==> NextEdge(env, to, answers).Some?)
    && (Unserved(r.1) ==> LacksIntent(env, r.0)) && (r.1.Success? ==> !LacksIntent(env, r.0))
  }

  lemma {:induction false} WalkEnds(env: Env, s: State) returns (p: seq<Edge>)
    requires Serviceable(env) && s.nodeId in env.nodes && Stops(WorldOf(env, s), s.nodeId)
    ensures Ends(env, s, p, FlowWalk.Walk(env, s))
    decreases Length(WorldOf(env, s), s.nodeId)
  {
    var w := WorldOf(env, s);
    EffectIsNext(w, s.nodeId);
    hide NextEdge, Land, PromptsResolve, InformNodesBound, KeyedById, MatrixOk;
    if NodeEffect(w, s.nodeId).Move? {
      var e := NodeEffect(w, s.nodeId).e;
      assert Goes(w, s.nodeId) == Some(e.to);
      LengthStep(w, s.nodeId);
      MoveSays(w, s.nodeId);
      var rest := WalkEnds(env, Moved(s, e));
      p := [e] + rest;
      EndsLater(env, s, e, rest, FlowWalk.Walk(env, Moved(s, e)), FlowWalk.Walk(env, s));
    } else {
      p := [];
      LandUnserved(env, s);
      hide NodeEffect, LacksIntent;
    }
  }

  lemma EndsLater(
    env: Env, s: State, e: Edge, p: seq<Edge>, r: (State, Result<Turn, Err>), r': (State, Result<Turn, Err>))
    requires LiveEdge(env, s.nodeId, AnswersOf(WorldOf(env, s))) == Some(e) && e.from == s.nodeId
    requires Ends(env, Moved(s, e), p, r)
    requires r'.0 == r.0 && (if r.1.Failure? then r'.1 == Failure(r.1.error) else r'.1.Success?)
    ensures Ends(env, s, [e] + p, r')
  {
    hide LiveEdge, NextEdge, LacksIntent, AnswersOf;
    RouteLater(env, AnswersOf(WorldOf(env, s)), e, p, r.0.nodeId);
    assert WorldOf(env, Moved(s, e)) == WorldOf(env, s);
    hide Route;
  }

  lemma RouteLater(env: Env, answers: Answers, e: Edge, p: seq<Edge>, to: string)
    requires LiveEdge(env, e.from, answers) == Some(e) && Route(env, answers, p, e.to, to)
    ensures Route(env, answers, [e] + p, e.from, to)
  {
    hide LiveEdge;
    var q := [e] + p;
    assert forall i :: 0 < i < |q| ==> q[i] == p[i - 1];
  }

  /** A route that a state's answers drive to its end is what the walk does. */
  lemma {:induction false} RideTo(env: Env, s: State, p: seq<Edge>, to: string)
    requires Serviceable(env) && Route(env, AnswersOf(WorldOf(env, s)), p, s.nodeId, to)
    requires LiveEdge(env, to, AnswersOf(WorldOf(env, s))) == None
    ensures Stops(WorldOf(env, s), s.nodeId)
    ensures FlowWalk.Walk(env, s).0.nodeId == to
    ensures FlowWalk.Walk(env, s).0.lastEdge == (if p == [] then s.lastEdge else p[|p| - 1])
    decreases |p|
  {
    var w := WorldOf(env, s);
    GoesIsLive(w, s.nodeId);
    hide LiveEdge, PromptsResolve, InformNodesBound, KeyedById, MatrixOk, Land, AnswersOf;
    if p == [] {
      assert StopsIn(w, s.nodeId, 0);
      if s.nodeId in env.nodes { LandKeepsPlace(env, s); }
    } else {
      var e := p[0];
      assert LiveEdge(env, e.from, AnswersOf(w)) == Some(e);
      DrivenRest(env, AnswersOf(w), p);
      assert WorldOf(env, Moved(s, e)) == w;
      MoveIsLive(w, s.nodeId, e);
      hide NodeEffect, Goes, Driven;
      RideTo(env, Moved(s, e), p[1..], to);
      LengthStep(w, s.nodeId);
    }
  }

  lemma LandKeepsPlace(env: Env, s: State)
    requires s.nodeId in env.nodes
    ensures Land(env, s).0.nodeId == s.nodeId && Land(env, s).0.lastEdge == s.lastEdge
  {
    hide Arm, Resolve;
  }

  lemma MoveIsLive(w: World, id: string, e: Edge)
    requires PromptsResolve(w.env) && InformNodesBound(w.env) && LiveEdge(w.env, id, AnswersOf(w)) == Some(e)
    ensures NodeEffect(w, id).Move? && NodeEffect(w, id).e == e && Goes(w, id) == Some(e.to)
  {
    EffectIsNext(w, id);
    hide NodeEffect, NextEdge;
  }

  /** A lookup made for some answers gives just those answers. */
  lemma OracleEdges(w: World, answers: Answers, id: string)
    requires w.lookup == Some(Oracle(answers))
    ensures NextEdge(w.env, id, AnswersOf(w)) == NextEdge(w.env, id, answers)
    ensures LiveEdge(w.env, id, AnswersOf(w)) == LiveEdge(w.env, id, answers)
  {
    hide Sole, OutEdges, Trim;
  }

  lemma OracleRoute(w: World, answers: Answers, p: seq<Edge>, from: string, to: string)
    requires w.lookup == Some(Oracle(answers)) && Route(w.env, answers, p, from, to)
    ensures Route(w.env, AnswersOf(w), p, from, to)
  {
    hide LiveEdge, AnswersOf;
    forall i | 0 <= i < |p| ensures LiveEdge(w.env, p[i].from, AnswersOf(w)) == Some(p[i]) {
      OracleEdges(w, answers, p[i].from);
    }
  }

  // ---------------------------------------------------------------- calls

  ghost predicate SetsOutAs(env: Env, s: State, u: State) {
    (u.nodeId == s.nodeId && u.lastEdge == s.lastEdge) ||
    (Chosen(env, s.nodeId, u.lastEdge) && u.nodeId == u.lastEdge.to && u.nodeId in env.nodes)
  }

  /** A call that walks from a state that sets out from where the cursor stands. */
  ghost predicate WalksFrom(env: Env, s: State, c: Call, u: State) {
    var r, w := Do(env, s, c), FlowWalk.Walk(env, u);
    && SetsOutAs(env, s, u)
    && r.0.nodeId == w.0.nodeId && r.0.lastEdge == w.0.lastEdge
    && r.1.Some? && (if w.1.Failure? then r.1.value == Failure(w.1.error) else r.1.value.Success?)
  }

  /** A call that does not, and fails on an unknown node only behind a chosen edge. */
  ghost predicate Rests(env: Env, s: State, c: Call) {
    var r := Do(env, s, c);
    && r.0.nodeId == s.nodeId && r.0.lastEdge == s.lastEdge && Returns(r.1)
    && (r.1.Some? ==> !Unserved(r.1.value))
    && (r.1 == Some(Failure(UnknownNode)) ==> exists e :: Chosen(env, s.nodeId, e) && e.to !in env.nodes)
  }

  lemma TakenWalks(env: Env, s: State, text: string, e: Edge, u: State)
    requires Chosen(env, s.nodeId, e) && Takes(env, s, text, e, u)
    ensures if e.to in env.nodes then WalksFrom(env, s, Utterance(text), Moved(u, e)) else Rests(env, s, Utterance(text))
    ensures e.to !in env.nodes ==> Do(env, s, Utterance(text)).1 == Some(Failure(UnknownNode))
  {
    hide FlowWalk.Walk, Utter, Chosen;
  }

  lemma UnclearRests(env: Env, s: State, text: string)
    requires Listening(env, s.nodeId) && KeyedById(env) && IsUnclear(env, s.nodeId, text)
    requires !(Bounded(env, s.nodeId) && RetriesAt(s, s.nodeId) >= env.nodes[s.nodeId].repair.MaxRetries())
    ensures Rests(env, s, Utterance(text))
  {
    hide FlowWalk.Walk, Depart, Match, Sole, OutEdges, Resolve, Trim;
  }

  lemma UtteranceWalksOrRests(env: Env, s: State, text: string) returns (u: State)
    requires KeyedById(env) && Listening(env, s.nodeId)
    ensures WalksFrom(env, s, Utterance(text), u) || Rests(env, s, Utterance(text))
  {
    var out := OutEdges(env.doc.Edges(), s.nodeId);
    var m := Match(out, text, env.lower);
    assert env.nodes[s.nodeId].id == s.nodeId;
    hide WalksFrom, Rests, Takes, Match, KeyedById, Matchable, OutEdges, Sole;
    u := s;
    if m.Some? {
      MatchedIsMatchable(out, text, env.lower);
      var v := MatchTakes(env, s, text, m.value);
      TakenWalks(env, s, text, m.value, v);
      u := Moved(v, m.value);
    } else if Bounded(env, s.nodeId) && RetriesAt(s, s.nodeId) >= env.nodes[s.nodeId].repair.MaxRetries() {
      var e := Sole(out, RepairEdge).value;
      var v := ExhaustTakes(env, s, text);
      TakenWalks(env, s, text, e, v);
      u := Moved(v, e);
    } else {
      UnclearRests(env, s, text);
    }
  }

  lemma CallWalksOrRests(env: Env, s: State, c: Call) returns (u: State)
    requires KeyedById(env) && s.nodeId in env.nodes
    ensures WalksFrom(env, s, c, u) || Rests(env, s, c)
  {
    u := s;
    if c.Utterance? && Listening(env, s.nodeId) {
      hide WalksFrom, Rests;
      u := UtteranceWalksOrRests(env, s, c.text);
    } else {
      hide FlowWalk.Walk, Chosen, Match, Trim;
    }
  }

  // ---------------------------------------------------------------- every run stays on the graph

  /** On a node legs lead to, by the edge last tried; or on the unknown entry. */
  ghost predicate Placed(env: Env, s: State) {
    if s.nodeId in env.nodes then
      && Stands(env, s.nodeId)
      && ((s.lastEdge == NO_EDGE && s.nodeId == env.doc.entryNodeId) ||
          (Tried(env, s.lastEdge) && s.lastEdge.to == s.nodeId))
    else s.nodeId == env.doc.entryNodeId
  }

  lemma LegStands(env: Env, at: string, x: string, answers: Answers, p: seq<Edge>, to: string)
    requires Stands(env, at) && SetsOut(env, at, x)
    requires Route(env, answers, p, x, to) && LiveEdge(env, to, answers) == None
    ensures Stands(env, to)
  {
    var k: nat :| StandsIn(env, at, k);
    hide SetsOut, Route, LiveEdge;
    assert WalksTo(env, x, to);
    assert Leg(env, at, to);
    assert StandsIn(env, to, k + 1);
  }

  /** The last edge of a route was tried. */
  lemma RouteTries(env: Env, at: string, x: string, answers: Answers, p: seq<Edge>, to: string)
    requires Stands(env, at) && SetsOut(env, at, x) && Route(env, answers, p, x, to) && p != []
    ensures Tried(env, p[|p| - 1]) && p[|p| - 1].to == to
  {
    var last := p[|p| - 1];
    hide NextEdge, SetsOut, Stands;
    assert LiveEdge(env, last.from, answers) == Some(last);
    assert Route(env, answers, p[..|p| - 1], x, last.from);
    hide LiveEdge, Route;
    assert WalkTries(env, x, last);
    assert TriedFrom(env, at, last);
  }

  /** A walk set out from where a placed cursor stands ends placed. */
  lemma WalkStaysPlaced(env: Env, s: State, u: State, p: seq<Edge>, r: (State, Result<Turn, Err>))
    requires Placed(env, s) && s.nodeId in env.nodes && Ends(env, u, p, r)
    requires SetsOutAs(env, s, u)
    ensures Placed(env, r.0) && r.0.nodeId in env.nodes
  {
    var answers := AnswersOf(WorldOf(env, u));
    assert p == [] ==> u.nodeId == r.0.nodeId;
    hide LiveEdge, NextEdge, LacksIntent, AnswersOf, Route, Chosen, Stands;
    assert SetsOut(env, s.nodeId, u.nodeId);
    LegStands(env, s.nodeId, u.nodeId, answers, p, r.0.nodeId);
    if p != [] {
      RouteTries(env, s.nodeId, u.nodeId, answers, p, r.0.nodeId);
    } else {
      if u.lastEdge != s.lastEdge || u.nodeId != s.nodeId { assert TriedFrom(env, s.nodeId, u.lastEdge); }
    }
  }

  lemma UnknownStays(env: Env, s: State, c: Call)
    requires s.nodeId !in env.nodes
    ensures
      var r := Do(env, s, c);
      && r.0.nodeId == s.nodeId && Returns(r.1) && (r.1.Some? ==> !Unserved(r.1.value))
  {
    assert StopsIn(WorldOf(env, s), s.nodeId, 0);
    hide Trim;
  }

  /** A call that returns leaves a placed cursor placed. */
  lemma PlacedStep(env: Env, s: State, c: Call)
    requires Serviceable(env) && Placed(env, s) && Returns(Do(env, s, c).1)
    ensures Placed(env, Do(env, s, c).0)
    ensures s.nodeId in env.nodes ==> Do(env, s, c).0.nodeId in env.nodes
  {
    if s.nodeId !in env.nodes {
      UnknownStays(env, s, c);
    } else {
      var u := CallWalksOrRests(env, s, c);
      if WalksFrom(env, s, c, u) {
        HangsIff(env, u);
        hide Do, FlowWalk.Walk, Stops, Placed, PromptsResolve, InformNodesBound, KeyedById, MatrixOk;
        var p := WalkEnds(env, u);
        WalkStaysPlaced(env, s, u, p, FlowWalk.Walk(env, u));
        PlacedAt(env, FlowWalk.Walk(env, u).0, Do(env, s, c).0);
      } else {
        hide Do;
      }
    }
  }

  lemma PlacedAt(env: Env, s: State, t: State)
    requires Placed(env, s) && t.nodeId == s.nodeId && t.lastEdge == s.lastEdge
    ensures Placed(env, t)
  {
  }

  lemma {:induction false} RunStaysPlaced(env: Env, s: State, calls: seq<Call>)
    requires Serviceable(env) && Placed(env, s) && Completes(env, s, calls)
    ensures Placed(env, Run(env, s, calls))
    ensures s.nodeId in env.nodes ==> Run(env, s, calls).nodeId in env.nodes
    decreases |calls|
  {
    if calls != [] {
      PlacedStep(env, s, calls[0]);
      hide Do, Returns, Placed, Serviceable;
      RunStaysPlaced(env, Do(env, s, calls[0]).0, calls[1..]);
    }
  }

  // ---------------------------------------------------------------- every place is reached

  /** Some run sets out as wanted, with the answers wanted. */
  lemma SetOut(env: Env, s: State, x: string, answers: Answers) returns (calls: seq<Call>, c: Call, u: State)
    requires Serviceable(env) && RetriesOk(env, s) && SetsOut(env, s.nodeId, x)
    ensures Completes(env, s, calls) && WalksFrom(env, Run(env, s, calls), c, u)
    ensures u.nodeId == x && u.lookup == Some(Oracle(answers))
    ensures RetriesOk(env, Run(env, s, calls)) && Run(env, s, calls).nodeId == s.nodeId
  {
    var first := Call.SetLookup(Some(Oracle(answers)));
    var s1 := Do(env, s, first).0;
    OneCall(env, s, first);
    CallKeepsRetries(env, s, first);
    assert s1 == s.(lookup := Some(Oracle(answers))) && Returns(Do(env, s, first).1);
    hide Do, RetriesOk, PromptsResolve, InformNodesBound, KeyedById, MatrixOk, Run, Completes;
    if x == s.nodeId {
      calls, c, u := [first], Call.Bootstrap, s1;
      BootstrapWalks(env, s1);
    } else {
      var e :| Chosen(env, s.nodeId, e) && e.to == x;
      hide Chosen, WalksFrom, Takes;
      var more, text, v := Choose(env, s1, e);
      calls, c, u := [first] + more, Utterance(text), Moved(v, e);
      CompletesAppend(env, s, [first], more);
      SetOutAlong(env, s1, Run(env, s1, more), text, e, v);
      RunKeepsRetries(env, s, calls);
    }
  }

  lemma BootstrapWalks(env: Env, s: State)
    ensures WalksFrom(env, s, Call.Bootstrap, s)
  {
    hide FlowWalk.Walk, Chosen;
  }

  lemma SetOutAlong(env: Env, s: State, t: State, text: string, e: Edge, u: State)
    requires OnlyCounted(s, t)
    requires Chosen(env, s.nodeId, e) && e.to in env.nodes && Takes(env, t, text, e, u)
    ensures WalksFrom(env, t, Utterance(text), Moved(u, e)) && u.lookup == s.lookup
  {
    hide Chosen, WalksFrom;
    TakenWalks(env, t, text, e, u);
    hide Utter, Depart;
  }

  /** Some run takes a leg. */
  lemma TakeLeg(env: Env, s: State, to: string) returns (calls: seq<Call>)
    requires Serviceable(env) && RetriesOk(env, s) && Leg(env, s.nodeId, to)
    ensures Completes(env, s, calls)
    ensures Run(env, s, calls).nodeId == to && RetriesOk(env, Run(env, s, calls))
  {
    var x :| SetsOut(env, s.nodeId, x) && WalksTo(env, x, to);
    var answers: Answers, p: seq<Edge> :| Route(env, answers, p, x, to) && LiveEdge(env, to, answers) == None;
    hide SetsOut, Route, LiveEdge, RetriesOk;
    var before, c, u := SetOut(env, s, x, answers);
    OracleRoute(WorldOf(env, u), answers, p, x, to);
    OracleEdges(WorldOf(env, u), answers, to);
    RideTo(env, u, p, to);
    HangsIff(env, u);
    var t := Run(env, s, before);
    OneCall(env, t, c);
    CompletesAppend(env, s, before, [c]);
    calls := before + [c];
    hide Do, FlowWalk.Walk, Run, Completes, Stops, AnswersOf, Serviceable;
    RetriesAfter(env, t, c);
  }

  lemma RetriesAfter(env: Env, s: State, c: Call)
    requires Serviceable(env) && RetriesOk(env, s)
    ensures RetriesOk(env, Run(env, s, [c]))
  {
    OneCall(env, s, c);
    CallKeepsRetries(env, s, c);
    hide Do, RetriesOk, Run;
  }

  lemma {:induction false} ReachPlace(env: Env, s: State, id: string, k: nat) returns (calls: seq<Call>)
    requires Serviceable(env) && RetriesOk(env, s) && s.nodeId == env.doc.entryNodeId && StandsIn(env, id, k)
    ensures Completes(env, s, calls)
    ensures Run(env, s, calls).nodeId == id && RetriesOk(env, Run(env, s, calls))
    decreases k
  {
    hide Leg, RetriesOk, Serviceable;
    if k == 0 {
      calls := [];
    } else {
      var at :| StandsIn(env, at, k - 1) && Leg(env, at, id);
      var before := ReachPlace(env, s, at, k - 1);
      hide Run, Completes;
      var more := TakeLeg(env, Run(env, s, before), id);
      CompletesAppend(env, s, before, more);
      calls := before + more;
    }
  }

  // ---------------------------------------------------------------- published documents

  lemma PublishedServes(d: Document, lower: char -> char, locale: string)
    requires Accepted(d)
    ensures
      var env, s := EnvOf(d, lower), Start(d, locale);
      && Serviceable(env) && Placed(env, s) && RetriesOk(env, s)
      && s.nodeId == env.doc.entryNodeId && s.lastEdge == NO_EDGE && !s.armed
  {
    var env, s := EnvOf(d, lower), Start(d, locale);
    AcceptedPromptsResolve(d, lower);
    AcceptedInformsBound(d, lower);
    NoRetriesOk(env, s);
    assert MatrixOk(d.Matrix());
    hide PromptsResolve, InformNodesBound, KeyedById, MatrixOk, NodesById, Trim, RetriesOk, Accepted;
    if s.nodeId in env.nodes { assert StandsIn(env, s.nodeId, 0); }
  }

  /** Some run of a published document ends in a call that sets out as wanted. */
  lemma ReachAndSetOut(env: Env, s: State, at: string, x: string, answers: Answers)
    returns (calls: seq<Call>, c: Call, u: State)
    requires Serviceable(env) && RetriesOk(env, s) && s.nodeId == env.doc.entryNodeId
    requires Stands(env, at) && SetsOut(env, at, x)
    ensures Completes(env, s, calls) && WalksFrom(env, Run(env, s, calls), c, u)
    ensures Run(env, s, calls).nodeId == at && u.nodeId == x && u.lookup == Some(Oracle(answers))
  {
    var k: nat :| StandsIn(env, at, k);
    var before := ReachPlace(env, s, at, k);
    hide SetsOut, WalksFrom, RetriesOk, PromptsResolve, InformNodesBound, KeyedById, MatrixOk, Run, Completes, StandsIn;
    var t := Run(env, s, before);
    var more;
    more, c, u := SetOut(env, t, x, answers);
    CompletesAppend(env, s, before, more);
    calls := before + more;
  }
}
