/** Exactly when the runs of a cursor on a published document are safe: never
    lost, never without a transfer's intent, never without end. */
module RunTheorems {
  import opened Wrappers
  import opened Text
  import opened Flow
  import opened FlowWalk
  import opened WalkLaws
  import opened RunLaws
  import opened SafetyLaws
  import opened HangLaws
  import opened ChoiceLaws
  import opened ReachLaws

  // ---------------------------------------------------------------- reached

  /** The nodes a run can leave the cursor on are those that legs lead to. */
  lemma StandsIff(d: Document, lower: char -> char, locale: string, id: string)
    requires Accepted(d) && id in EnvOf(d, lower).nodes
    ensures
      var env, s := EnvOf(d, lower), Start(d, locale);
      Stands(env, id) <==> exists calls :: Completes(env, s, calls) && Run(env, s, calls).nodeId == id
  {
    var env, s := EnvOf(d, lower), Start(d, locale);
    PublishedServes(d, lower, locale);
    hide Accepted, EnvOf, Start, PromptsResolve, InformNodesBound, KeyedById, MatrixOk, RetriesOk, Run, Completes;
    if Stands(env, id) {
      var k: nat :| StandsIn(env, id, k);
      var calls := ReachPlace(env, s, id, k);
    }
    if calls :| Completes(env, s, calls) && Run(env, s, calls).nodeId == id {
      RunStaysPlaced(env, s, calls);
    }
  }

  // ---------------------------------------------------------------- lost

  ghost predicate NotLostCall(r: Option<Result<Turn, Err>>) {
    r != Some(Failure(UnknownNode))
  }

  /** The entry is known, and so is every node that an edge the cursor may try leads to. */
  ghost predicate TriedTargetsKnown(env: Env) {
    env.doc.entryNodeId in env.nodes && forall e :: Tried(env, e) ==> e.to in env.nodes
  }

  /** A lost call tried an edge to an unknown node. */
  lemma LostTries(env: Env, s: State, c: Call) returns (e: Edge)
    requires Serviceable(env) && Placed(env, s) && s.nodeId in env.nodes
    requires !NotLostCall(Do(env, s, c).1)
    ensures Tried(env, e) && e.to !in env.nodes
  {
    var u := CallWalksOrRests(env, s, c);
    hide Do, FlowWalk.Walk, Chosen, Stands, PromptsResolve, InformNodesBound, KeyedById, MatrixOk;
    if WalksFrom(env, s, c, u) {
      e := LostWalkTries(env, s, u);
    } else {
      e :| Chosen(env, s.nodeId, e) && e.to !in env.nodes;
      assert TriedFrom(env, s.nodeId, e);
    }
  }

  lemma LostWalkTries(env: Env, s: State, u: State) returns (e: Edge)
    requires Serviceable(env) && Stands(env, s.nodeId) && s.nodeId in env.nodes && SetsOutAs(env, s, u)
    requires FlowWalk.Walk(env, u).1 == Failure(UnknownNode)
    ensures Tried(env, e) && e.to !in env.nodes
  {
    HangsIff(env, u);
    hide FlowWalk.Walk, Stops, Chosen, Stands, Serviceable, NextEdge;
    var p := WalkEnds(env, u);
    var answers, m := AnswersOf(WorldOf(env, u)), FlowWalk.Walk(env, u).0.nodeId;
    e := NextEdge(env, m, answers).value;
    hide Route;
    assert SetsOut(env, s.nodeId, u.nodeId);
    assert WalkTries(env, u.nodeId, e);
    assert TriedFrom(env, s.nodeId, e);
  }

  /** And an edge to an unknown node that may be tried from where a cursor
      stands loses some call there. */
  lemma TriedFromLoses(env: Env, s: State, e: Edge) returns (calls: seq<Call>, c: Call)
    requires Serviceable(env) && RetriesOk(env, s) && TriedFrom(env, s.nodeId, e) && e.to !in env.nodes
    ensures Completes(env, s, calls) && Run(env, s, calls).nodeId == s.nodeId
    ensures !NotLostCall(Do(env, Run(env, s, calls), c).1)
  {
    hide Chosen, Run, Completes, RetriesOk, NextEdge, PromptsResolve, InformNodesBound, KeyedById, MatrixOk;
    if Chosen(env, s.nodeId, e) {
      var text, u;
      calls, text, u := Choose(env, s, e);
      c := Utterance(text);
      hide Takes, Do;
      TakenWalks(env, Run(env, s, calls), text, e, u);
    } else {
      var x :| SetsOut(env, s.nodeId, x) && WalkTries(env, x, e);
      var answers: Answers, p: seq<Edge>, m :| Route(env, answers, p, x, m) && NextEdge(env, m, answers) == Some(e);
      var u;
      calls, c, u := SetOut(env, s, x, answers);
      hide Route, Do;
      OracleRoute(WorldOf(env, u), answers, p, x, m);
      OracleEdges(WorldOf(env, u), answers, m);
      LostAt(env, u, p, m, e);
      hide FlowWalk.Walk;
    }
  }

  lemma TriedLoses(env: Env, s: State, e: Edge) returns (calls: seq<Call>, c: Call)
    requires Serviceable(env) && RetriesOk(env, s) && s.nodeId == env.doc.entryNodeId
    requires Tried(env, e) && e.to !in env.nodes
    ensures Completes(env, s, calls) && !NotLostCall(Do(env, Run(env, s, calls), c).1)
  {
    var at :| Stands(env, at) && TriedFrom(env, at, e);
    var k: nat :| StandsIn(env, at, k);
    hide TriedFrom, Run, Completes, RetriesOk, StandsIn, PromptsResolve, InformNodesBound, KeyedById, MatrixOk, NotLostCall, Do;
    var before := ReachPlace(env, s, at, k);
    var more;
    more, c := TriedFromLoses(env, Run(env, s, before), e);
    CompletesAppend(env, s, before, more);
    calls := before + more;
  }

  lemma LostAt(env: Env, u: State, p: seq<Edge>, m: string, e: Edge)
    requires Serviceable(env) && Route(env, AnswersOf(WorldOf(env, u)), p, u.nodeId, m)
    requires NextEdge(env, m, AnswersOf(WorldOf(env, u))) == Some(e) && e.to !in env.nodes
    ensures FlowWalk.Walk(env, u).1 == Failure(UnknownNode)
  {
    StartTries(env, AnswersOf(WorldOf(env, u)), p, u.nodeId, m);
    RideTo(env, u, p, m);
    hide FlowWalk.Walk, NextEdge, Route, Serviceable, LacksIntent;
    var q := WalkEnds(env, u);
  }

  /** A route to an automatic node starts at one. */
  lemma StartTries(env: Env, answers: Answers, p: seq<Edge>, from: string, m: string)
    requires Route(env, answers, p, from, m) && NextEdge(env, m, answers).Some?
    ensures NextEdge(env, from, answers).Some? && from in env.nodes
  {
    hide Sole, OutEdges;
    if p != [] { assert LiveEdge(env, p[0].from, answers) == Some(p[0]); }
  }

  lemma ReachAndChoose(env: Env, s: State, at: string, e: Edge) returns (calls: seq<Call>, text: string, u: State)
    requires Serviceable(env) && RetriesOk(env, s) && s.nodeId == env.doc.entryNodeId
    requires Stands(env, at) && Chosen(env, at, e)
    ensures Completes(env, s, calls) && Run(env, s, calls).nodeId == at
    ensures Takes(env, Run(env, s, calls), text, e, u)
  {
    var k: nat :| StandsIn(env, at, k);
    var before := ReachPlace(env, s, at, k);
    hide Chosen, Takes, RetriesOk, PromptsResolve, InformNodesBound, KeyedById, MatrixOk, Run, Completes, StandsIn;
    var more;
    more, text, u := Choose(env, Run(env, s, before), e);
    CompletesAppend(env, s, before, more);
    calls := before + more;
  }

  lemma UnknownLoses(env: Env, s: State) returns (calls: seq<Call>, c: Call)
    requires s.nodeId !in env.nodes
    ensures Completes(env, s, calls) && !NotLostCall(Do(env, Run(env, s, calls), c).1)
  {
    assert StopsIn(WorldOf(env, s), s.nodeId, 0);
    calls, c := [], Call.Bootstrap;
  }

  /** No call of any run fails on an unknown node exactly when the entry and the
      target of every edge that can be tried are spelled as the cursor keys them. */
  lemma RunsNeverLostIff(d: Document, lower: char -> char, locale: string)
    requires Accepted(d)
    ensures
      var env, s := EnvOf(d, lower), Start(d, locale);
      TriedTargetsKnown(env) <==>
      forall calls, c :: Completes(env, s, calls) ==> NotLostCall(Do(env, Run(env, s, calls), c).1)
  {
    var env, s := EnvOf(d, lower), Start(d, locale);
    PublishedServes(d, lower, locale);
    hide Accepted, EnvOf, Start, PromptsResolve, InformNodesBound, KeyedById, MatrixOk, RetriesOk, Do, NotLostCall;
    hide Tried, Run, Completes;
    if TriedTargetsKnown(env) {
      forall calls, c | Completes(env, s, calls) ensures NotLostCall(Do(env, Run(env, s, calls), c).1) {
        RunStaysPlaced(env, s, calls);
        if !NotLostCall(Do(env, Run(env, s, calls), c).1) { var e := LostTries(env, Run(env, s, calls), c); }
      }
    } else if s.nodeId !in env.nodes {
      var calls, c := UnknownLoses(env, s);
    } else {
      var e :| Tried(env, e) && e.to !in env.nodes;
      var calls, c := TriedLoses(env, s, e);
    }
  }

  /** Edges a cursor may take from the nodes they leave: the only next edge of an
      automatic node, the only repair edge of an Inform node, and what an
      utterance can choose. */
  ghost predicate Takeable(env: Env, e: Edge) {
    Chosen(env, e.from, e) || exists answers: Answers :: NextEdge(env, e.from, answers) == Some(e)
  }

  /** The condition on the document alone: from the entry, and from every state
      on a known node, no call is lost exactly when the entry is known and every
      edge a cursor may take leads to a known node. */
  lemma MovesSafeIff(d: Document, lower: char -> char)
    requires Accepted(d)
    ensures
      var env := EnvOf(d, lower);
      (d.entryNodeId in env.nodes && forall e :: Takeable(env, e) ==> e.to in env.nodes) <==>
      (d.entryNodeId in env.nodes && forall s: State, c | s.nodeId in env.nodes :: NotLostCall(Do(env, s, c).1))
  {
    var env := EnvOf(d, lower);
    PublishedServes(d, lower, "");
    hide Accepted, EnvOf, Serviceable, Do, NotLostCall, Takeable;
    if forall e :: Takeable(env, e) ==> e.to in env.nodes {
      forall s: State, c | s.nodeId in env.nodes ensures NotLostCall(Do(env, s, c).1) {
        if !NotLostCall(Do(env, s, c).1) { var e := LostTakes(env, s, c); }
      }
    }
    if e :| Takeable(env, e) && e.to !in env.nodes {
      var s, c := TakeableLoses(env, e);
    }
  }

  lemma LostTakes(env: Env, s: State, c: Call) returns (e: Edge)
    requires Serviceable(env) && s.nodeId in env.nodes && !NotLostCall(Do(env, s, c).1)
    ensures Takeable(env, e) && e.to !in env.nodes
  {
    var u := CallWalksOrRests(env, s, c);
    hide Do, FlowWalk.Walk, Chosen, PromptsResolve, InformNodesBound, KeyedById, MatrixOk, NextEdge, Route, Stops;
    if WalksFrom(env, s, c, u) {
      HangsIff(env, u);
      var p := WalkEnds(env, u);
      var answers, m := AnswersOf(WorldOf(env, u)), FlowWalk.Walk(env, u).0.nodeId;
      e := NextEdge(env, m, answers).value;
      NextLeaves(env, m, answers);
    } else {
      e :| Chosen(env, s.nodeId, e) && e.to !in env.nodes;
      ChosenLeaves(env, s.nodeId, e);
    }
  }

  lemma NextLeaves(env: Env, id: string, answers: Answers)
    ensures NextEdge(env, id, answers).Some? ==> NextEdge(env, id, answers).value.from == id && id in env.nodes
  {
    SoleIn(env.doc.Edges(), id, Next);
    SoleIn(env.doc.Edges(), id, RepairEdge);
    hide Sole, OutEdges;
  }

  lemma TakeableLoses(env: Env, e: Edge) returns (s: State, c: Call)
    requires Serviceable(env) && Takeable(env, e) && e.to !in env.nodes
    ensures s.nodeId in env.nodes && !NotLostCall(Do(env, s, c).1)
  {
    var s0 := State(e.from, NO_EDGE, "", false, map[], false, "", None);
    NoRetriesOk(env, s0);
    TakeableIsTried(env, e);
    hide Takeable, TriedFrom, Do, RetriesOk, NotLostCall, Serviceable, Run, Completes;
    var calls;
    calls, c := TriedFromLoses(env, s0, e);
    s := Run(env, s0, calls);
  }

  lemma TakeableIsTried(env: Env, e: Edge)
    requires Takeable(env, e)
    ensures TriedFrom(env, e.from, e) && e.from in env.nodes
  {
    if !Chosen(env, e.from, e) {
      var answers: Answers :| NextEdge(env, e.from, answers) == Some(e);
      NextLeaves(env, e.from, answers);
      hide NextEdge, LiveEdge, Chosen;
      assert Route(env, answers, [], e.from, e.from);
      assert WalkTries(env, e.from, e);
    }
    hide Matchable, Sole, OutEdges;
  }

  // ---------------------------------------------------------------- without end

  /** Legs lead to a node from where answers drive the cursor round a cycle. */
  ghost predicate Circles(env: Env) {
    exists at :: Stands(env, at) && CirclesFrom(env, at)
  }

  lemma LongRouteCircles(env: Env, answers: Answers, p: seq<Edge>)
    requires Driven(env, answers, p) && |p| > |env.nodes|
    ensures WalkCircles(env, p[0].from)
  {
    hide LiveEdge;
    var i, j := ComesBack(env, answers, p);
    assert Route(env, answers, p[..i], p[0].from, p[i].from);
    assert Route(env, answers, p[i..j], p[i].from, p[i].from);
  }

  /** A call that never returns met such a cycle. */
  lemma HangCircles(env: Env, s: State, c: Call)
    requires Serviceable(env) && Placed(env, s) && s.nodeId in env.nodes && !Returns(Do(env, s, c).1)
    ensures Circles(env)
  {
    var u := CallWalksOrRests(env, s, c);
    HangsIff(env, u);
    hide Do, FlowWalk.Walk, Chosen, Stands, PromptsResolve, InformNodesBound, KeyedById, MatrixOk, Stops;
    var w := WorldOf(env, u);
    WalkDichotomy(w, u.nodeId);
    var p := LiveRoute(w, u.nodeId, |env.nodes| + 1);
    LongRouteCircles(env, AnswersOf(w), p);
    hide WalkCircles;
    assert SetsOut(env, s.nodeId, u.nodeId);
    assert CirclesFrom(env, s.nodeId);
  }

  /** And on such a cycle a walk does not stop. */
  lemma CircleHangs(w: World, q: seq<Edge>, x: string, p: seq<Edge>, y: string)
    requires PromptsResolve(w.env) && InformNodesBound(w.env)
    requires Route(w.env, AnswersOf(w), q, x, y) && Route(w.env, AnswersOf(w), p, y, y) && p != []
    ensures !Stops(w, x)
  {
    hide LiveEdge, AnswersOf, PromptsResolve, InformNodesBound, Goes;
    if Stops(w, x) {
      var k := Length(w, x);
      if q != [] {
        RidesRoute(w, q, k);
        k := k - |q|;
      }
      RidesRoute(w, p, k);
      StopsInOnce(w, y, k, k - |p|);
    }
  }

  lemma CirclingHangs(env: Env, s: State) returns (calls: seq<Call>, c: Call)
    requires Serviceable(env) && RetriesOk(env, s) && s.nodeId == env.doc.entryNodeId && Circles(env)
    ensures Completes(env, s, calls) && !Returns(Do(env, Run(env, s, calls), c).1)
  {
    var at :| Stands(env, at) && CirclesFrom(env, at);
    var x :| SetsOut(env, at, x) && WalkCircles(env, x);
    var answers: Answers, q: seq<Edge>, y, p: seq<Edge> :| Route(env, answers, q, x, y) && Route(env, answers, p, y, y) && p != [];
    hide Stands, SetsOut, Route, Run, Completes, RetriesOk, PromptsResolve, InformNodesBound, KeyedById, MatrixOk;
    var u;
    calls, c, u := ReachAndSetOut(env, s, at, x, answers);
    var w := WorldOf(env, u);
    OracleRoute(w, answers, q, x, y);
    OracleRoute(w, answers, p, y, y);
    CircleHangs(w, q, x, p, y);
    HangsIff(env, u);
    hide Do, FlowWalk.Walk, Stops;
  }

  /** Every call of every run returns exactly when no run can come to where
      answers drive the cursor round a cycle. Validation looks for none. */
  lemma RunsReturnIff(d: Document, lower: char -> char, locale: string)
    requires Accepted(d)
    ensures
      var env, s := EnvOf(d, lower), Start(d, locale);
      !Circles(env) <==> forall calls, c :: Completes(env, s, calls) ==> Returns(Do(env, Run(env, s, calls), c).1)
  {
    var env, s := EnvOf(d, lower), Start(d, locale);
    PublishedServes(d, lower, locale);
    hide Accepted, EnvOf, Start, PromptsResolve, InformNodesBound, KeyedById, MatrixOk, RetriesOk, Do, Returns, Circles;
    if !Circles(env) {
      forall calls, c | Completes(env, s, calls) ensures Returns(Do(env, Run(env, s, calls), c).1) {
        RunStaysPlaced(env, s, calls);
        var t := Run(env, s, calls);
        if t.nodeId !in env.nodes {
          UnknownStays(env, t, c);
        } else if !Returns(Do(env, t, c).1) {
          HangCircles(env, t, c);
        }
      }
    } else {
      var calls, c := CirclingHangs(env, s);
    }
  }

  /** In particular when no answers drive the cursor round a cycle anywhere. */
  lemma NoCycleIsEnough(env: Env)
    requires NoDrivenCycle(env)
    ensures !Circles(env)
  {
    hide Stands, SetsOut, LiveEdge;
  }

  // ---------------------------------------------------------------- without an intent

  ghost predicate CallServed(r: Option<Result<Turn, Err>>) {
    r.Some? ==> !Unserved(r.value)
  }

  /** Every edge that can be tried into a transfer without an intent of its own
      brings one that the matrix has. */
  ghost predicate TriedBringIntents(env: Env) {
    forall e :: Tried(env, e) && e.to in env.nodes ==> Brings(env, e)
  }

  ghost predicate Brings(env: Env, e: Edge)
    requires e.to in env.nodes
  {
    var n := env.nodes[e.to];
    IsTransfer(n) && Trim(n.matrixIntent) == "" ==> Trim(e.matrixIntent) in TrimmedIntents(env.doc.Matrix())
  }

  lemma EntryIsEntry(d: Document, lower: char -> char)
    requires Accepted(d) && d.entryNodeId in EnvOf(d, lower).nodes
    ensures EnvOf(d, lower).nodes[d.entryNodeId].kind.Entry?
  {
    var ns := d.Nodes();
    var i := NodeIsPublished(d, lower, d.entryNodeId);
    hide Trim, NodesById, IdsBefore, BindingsOk, PromptsOk, MatrixOk, TransfersOk, EdgesOk;
    var j :| 0 <= j < |ns| && Trim(ns[j].id) == Trim(d.entryNodeId) && ns[j].kind.Entry?;
    TrimmedIdsDiffer(ns, i, j);
  }

  /** A placed cursor that lacks an intent came by an edge that brings none. */
  lemma LackingCameBy(d: Document, lower: char -> char, s: State)
    requires Accepted(d) && Placed(EnvOf(d, lower), s) && LacksIntent(EnvOf(d, lower), s)
    ensures !TriedBringIntents(EnvOf(d, lower))
  {
    var env := EnvOf(d, lower);
    var i := NodeIsPublished(d, lower, s.nodeId);
    if Trim(env.nodes[s.nodeId].matrixIntent) != "" { OwnIntentInMatrix(d, i); }
    if s.nodeId == d.entryNodeId { EntryIsEntry(d, lower); }
    hide Trim, NodesById, Accepted, TrimmedIntents, Stands, Tried, ToolTransfer;
    assert !Brings(env, s.lastEdge);
  }

  lemma UnservedLacks(env: Env, s: State, c: Call) returns (t: State)
    requires Serviceable(env) && Placed(env, s) && !CallServed(Do(env, s, c).1)
    ensures Placed(env, t) && LacksIntent(env, t)
  {
    if s.nodeId !in env.nodes { UnknownStays(env, s, c); }
    var u := CallWalksOrRests(env, s, c);
    HangsIff(env, u);
    hide Do, FlowWalk.Walk, Placed, PromptsResolve, InformNodesBound, KeyedById, MatrixOk, Stops, LacksIntent, SetsOutAs;
    var p := WalkEnds(env, u);
    t := FlowWalk.Walk(env, u).0;
    WalkStaysPlaced(env, s, u, p, FlowWalk.Walk(env, u));
  }

  /** At a transfer without an intent the next walk fails for it. */
  lemma LackingFails(env: Env, s: State)
    requires LacksIntent(env, s) && !s.armed && !s.blockTool
    ensures !CallServed(Do(env, s, Call.Bootstrap).1) && Returns(Do(env, s, Call.Bootstrap).1)
  {
    var rows, intent := env.doc.Matrix(), ActingIntent(env.nodes[s.nodeId], s.lastEdge);
    ToolNames();
    FindRowHas(rows, 0, intent);
    IntentsBeforeHas(rows, |rows|, intent);
    hide Trim, IntentsBefore, FindRow, ToolTransfer, ToolHangup, ActingIntent, Resolve, Answer, Follow, Utter;
    assert StopsIn(WorldOf(env, s), s.nodeId, 0);
  }

  lemma LacksAlike(env: Env, s: State, t: State)
    requires s.nodeId == t.nodeId && s.lastEdge == t.lastEdge
    ensures LacksIntent(env, s) <==> LacksIntent(env, t)
  {
  }

  lemma BringsNone(env: Env, s: State)
    requires s.nodeId in env.nodes && s.lastEdge.to == s.nodeId && !Brings(env, s.lastEdge)
    ensures LacksIntent(env, s) && env.nodes[s.nodeId].kind.Tool?
  {
    hide Trim, TrimmedIntents, ToolTransfer;
  }

  /** Nothing is tried from a tool. */
  lemma NotFromTool(env: Env, at: string, e: Edge)
    requires TriedFrom(env, at, e)
    ensures at in env.nodes ==> !env.nodes[at].kind.Tool?
  {
    hide Sole, OutEdges, Matchable, Route;
    if !Chosen(env, at, e) {
      var x :| SetsOut(env, at, x) && WalkTries(env, x, e);
      var answers: Answers, p: seq<Edge>, m :| Route(env, answers, p, x, m) && NextEdge(env, m, answers) == Some(e);
      StartTries(env, answers, p, x, m);
    }
  }

  lemma StopsAtTool(env: Env, id: string, answers: Answers)
    requires id in env.nodes && env.nodes[id].kind.Tool?
    ensures LiveEdge(env, id, answers) == None
  {
  }

  lemma RouteExtends(env: Env, answers: Answers, p: seq<Edge>, x: string, m: string, e: Edge)
    requires Route(env, answers, p, x, m) && NextEdge(env, m, answers) == Some(e) && e.to in env.nodes
    ensures Route(env, answers, p + [e], x, e.to)
  {
    NextLeaves(env, m, answers);
    hide NextEdge;
    assert LiveEdge(env, m, answers) == Some(e);
    hide LiveEdge;
    DrivenOn(env, answers, p, e);
    hide Driven;
  }

  lemma DrivenOn(env: Env, answers: Answers, p: seq<Edge>, e: Edge)
    requires Driven(env, answers, p) && LiveEdge(env, e.from, answers) == Some(e)
    requires p == [] || p[|p| - 1].to == e.from
    ensures Driven(env, answers, p + [e])
  {
    hide LiveEdge;
  }

  /** Some run ends in a call that takes a tried edge into a tool. */
  lemma ReachAndTake(env: Env, s: State, at: string, e: Edge) returns (calls: seq<Call>, c: Call, u: State)
    requires Serviceable(env) && RetriesOk(env, s) && s.nodeId == env.doc.entryNodeId
    requires Stands(env, at) && TriedFrom(env, at, e) && e.to in env.nodes && env.nodes[e.to].kind.Tool?
    ensures Completes(env, s, calls) && Run(env, s, calls).nodeId == at && WalksFrom(env, Run(env, s, calls), c, u)
    ensures Stops(WorldOf(env, u), u.nodeId) && u.nodeId in env.nodes
    ensures FlowWalk.Walk(env, u).0.nodeId == e.to && FlowWalk.Walk(env, u).0.lastEdge == e
  {
    hide Stands, Run, Completes, RetriesOk, NextEdge, PromptsResolve, InformNodesBound, KeyedById, MatrixOk;
    if Chosen(env, at, e) {
      hide Chosen;
      var text, v;
      calls, text, v := ReachAndChoose(env, s, at, e);
      hide Takes, Do;
      TakenWalks(env, Run(env, s, calls), text, e, v);
      c, u := Utterance(text), Moved(v, e);
      StopsAtTool(env, e.to, AnswersOf(WorldOf(env, u)));
      hide LiveEdge;
      RideTo(env, u, [], e.to);
    } else {
      var x :| SetsOut(env, at, x) && WalkTries(env, x, e);
      var answers: Answers, p: seq<Edge>, m :| Route(env, answers, p, x, m) && NextEdge(env, m, answers) == Some(e);
      calls, c, u := ReachAndSetOut(env, s, at, x, answers);
      hide Do;
      StartTries(env, answers, p, x, m);
      RouteExtends(env, answers, p, x, m, e);
      OracleRoute(WorldOf(env, u), answers, p + [e], x, e.to);
      StopsAtTool(env, e.to, AnswersOf(WorldOf(env, u)));
      hide Route, LiveEdge;
      RideTo(env, u, p + [e], e.to);
    }
  }

  /** A call that takes an edge that brings no intent leaves the cursor at a
      transfer without one, not armed. */
  lemma TakingLeavesLacking(env: Env, t: State, c: Call, u: State, e: Edge)
    requires Serviceable(env) && RetriesOk(env, t) && !t.armed && WalksFrom(env, t, c, u)
    requires Stops(WorldOf(env, u), u.nodeId) && u.nodeId in env.nodes
    requires FlowWalk.Walk(env, u).0.nodeId == e.to && FlowWalk.Walk(env, u).0.lastEdge == e
    requires e.to in env.nodes && !Brings(env, e)
    ensures var r := Do(env, t, c); Returns(r.1) && LacksIntent(env, r.0) && !r.0.armed && !r.0.blockTool
  {
    CallArms(env, t, c);
    CallKeepsRetries(env, t, c);
    HangsIff(env, u);
    hide Do, FlowWalk.Walk, Stops, PromptsResolve, InformNodesBound, KeyedById, MatrixOk, Brings;
    var p := WalkEnds(env, u);
    BringsNone(env, FlowWalk.Walk(env, u).0);
    LacksAlike(env, FlowWalk.Walk(env, u).0, Do(env, t, c).0);
    hide LacksIntent;
  }

  /** An edge that brings no intent leaves some run at a transfer without one. */
  lemma TriedLeavesLacking(env: Env, s: State, e: Edge) returns (calls: seq<Call>)
    requires Serviceable(env) && RetriesOk(env, s) && s.nodeId == env.doc.entryNodeId && !s.armed
    requires Tried(env, e) && e.to in env.nodes && !Brings(env, e)
    ensures Completes(env, s, calls)
    ensures var t := Run(env, s, calls); LacksIntent(env, t) && !t.armed && !t.blockTool
  {
    var at :| Stands(env, at) && TriedFrom(env, at, e);
    assert env.nodes[e.to].kind.Tool?;
    hide Stands, TriedFrom, RetriesOk, Run, Completes, ArmedTurns, Brings, LacksIntent, WalksFrom;
    var before, c, u := ReachAndTake(env, s, at, e);
    var t := Run(env, s, before);
    OneArmPerRun(env, s, before);
    RunKeepsRetries(env, s, before);
    NotFromTool(env, at, e);
    TakingLeavesLacking(env, t, c, u, e);
    OneCall(env, t, c);
    CompletesAppend(env, s, before, [c]);
    calls := before + [c];
    hide Do, FlowWalk.Walk, Stops;
  }

  /** No call of any run fails for want of a transfer's intent exactly when every
      edge that can be tried into a transfer without one brings one. The
      validator looks at the edges that leave a transfer instead. */
  lemma RunsServedIff(d: Document, lower: char -> char, locale: string)
    requires Accepted(d)
    ensures
      var env, s := EnvOf(d, lower), Start(d, locale);
      TriedBringIntents(env) <==>
      forall calls, c :: Completes(env, s, calls) ==> CallServed(Do(env, Run(env, s, calls), c).1)
  {
    var env, s := EnvOf(d, lower), Start(d, locale);
    PublishedServes(d, lower, locale);
    hide Accepted, EnvOf, Start, PromptsResolve, InformNodesBound, KeyedById, MatrixOk, RetriesOk, Do, CallServed;
    hide Tried, Brings, LacksIntent, Placed;
    if TriedBringIntents(env) {
      forall calls, c | Completes(env, s, calls) ensures CallServed(Do(env, Run(env, s, calls), c).1) {
        RunStaysPlaced(env, s, calls);
        if !CallServed(Do(env, Run(env, s, calls), c).1) {
          var t := UnservedLacks(env, Run(env, s, calls), c);
          LackingCameBy(d, lower, t);
        }
      }
    } else {
      var e :| Tried(env, e) && e.to in env.nodes && !Brings(env, e);
      var calls := TriedLeavesLacking(env, s, e);
      LackingFails(env, Run(env, s, calls));
    }
  }
}
