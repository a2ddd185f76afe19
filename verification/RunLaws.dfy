/** Laws of whole runs of a flow cursor: any sequence of calls, failed ones
    included. */
module RunLaws {
  import opened Wrappers
  import opened Text
  import opened Flow
  import opened FlowWalk
  import opened TurnLaws

  /** The state after some calls. */
  ghost function Run(env: Env, s: State, calls: seq<Call>): State
    decreases |calls|
  {
    if calls == [] then s else Run(env, Do(env, s, calls[0]).0, calls[1..])
  }

  // ---------------------------------------------------------------- frames

  /** A walk, successful or not, changes only the node, the last edge and the arm. */
  lemma {:induction false} WalkFrame(env: Env, s: State)
    ensures OnlyMoved(s, FlowWalk.Walk(env, s).0)
    decreases if Stops(WorldOf(env, s), s.nodeId) then Length(WorldOf(env, s), s.nodeId) else 0
  {
    var w := WorldOf(env, s);
    hide Arm, Resolve, Answer;
    if NodeEffect(w, s.nodeId).Move? {
      LengthStep(w, s.nodeId);
      if Stops(w, s.nodeId) { WalkFrame(env, Moved(s, NodeEffect(w, s.nodeId).e)); }
    }
  }

  predicate Listening(env: Env, id: string) {
    id in env.nodes && (env.nodes[id].kind.ListenChoice? || env.nodes[id].kind.ListenLanguage?)
  }

  lemma WalkStaysAtListen(env: Env, s: State)
    requires Listening(env, s.nodeId)
    ensures FlowWalk.Walk(env, s) == (s, Success(Quiet(s.nodeId)))
  {
    assert StopsIn(WorldOf(env, s), s.nodeId, 0);
  }

  // ---------------------------------------------------------------- retries

  /** Only the node the cursor listens at has unclear utterances counted, and
      with one repair edge to take they never exceed the policy's maximum. */
  ghost predicate RetriesOk(env: Env, s: State) {
    && !s.blockTool
    && (forall id <- s.retries :: s.retries[id] > 0 ==> id == s.nodeId && Listening(env, id))
    && (Bounded(env, s.nodeId) ==> RetriesAt(s, s.nodeId) <= env.nodes[s.nodeId].repair.MaxRetries())
  }

  /** A listen node with a policy and exactly one repair edge. */
  predicate Bounded(env: Env, id: string) {
    Listening(env, id) && env.nodes[id].repair.Policy? && Sole(OutEdges(env.doc.Edges(), id), RepairEdge).Some?
  }

  ghost predicate KeyedById(env: Env) {
    forall id <- env.nodes :: env.nodes[id].id == id
  }

  predicate NoRetries(s: State) {
    forall id <- s.retries :: s.retries[id] == 0
  }

  lemma DepartRetries(env: Env, s: State, e: Edge)
    requires NoRetries(s)
    ensures var t := Depart(env, s, e).0; NoRetries(t) && t.blockTool == s.blockTool
  {
    if e.to in env.nodes { WalkFrame(env, Moved(s, e)); }
    hide FlowWalk.Walk;
  }

  lemma NoRetriesOk(env: Env, s: State)
    requires NoRetries(s) && !s.blockTool
    ensures RetriesOk(env, s)
  {
  }

  lemma UnclearRetries(env: Env, s: State, n: Node)
    requires RetriesOk(env, s) && Listening(env, s.nodeId) && n == env.nodes[s.nodeId] && n.id == s.nodeId
    ensures RetriesOk(env, Unclear(env, s, n).0)
  {
    hide Depart, Resolve, Sole, OutEdges;
    if n.repair.Policy? {
      var s1 := s.(retries := s.retries[n.id := RetriesAt(s, n.id) + 1]);
      var sole := Sole(OutEdges(env.doc.Edges(), s.nodeId), RepairEdge);
      if RetriesAt(s1, n.id) > n.repair.MaxRetries() && sole.Some? {
        var s2 := s1.(retries := s1.retries[n.id := 0]);
        DepartRetries(env, s2, sole.value);
        NoRetriesOk(env, Depart(env, s2, sole.value).0);
      }
    }
  }

  lemma SwitchRetries(env: Env, s: State, e: Edge)
    requires NoRetries(s) && !s.blockTool
    ensures RetriesOk(env, Switch(env, s, e).0)
  {
    hide Depart, EdgeLocale;
    DepartRetries(env, s.(locale := EdgeLocale(e), blockTool := true), e);
    NoRetriesOk(env, Switch(env, s, e).0);
  }

  lemma UtterRetries(env: Env, s: State, text: string)
    requires RetriesOk(env, s) && KeyedById(env)
    ensures RetriesOk(env, Utter(env, s, text).0)
  {
    hide Depart, Match, Unclear, Switch;
    if Listening(env, s.nodeId) {
      var n, out := env.nodes[s.nodeId], OutEdges(env.doc.Edges(), s.nodeId);
      var heard := s.(lastQuery := Trim(text));
      assert RetriesOk(env, heard);
      if Match(out, text, env.lower) == None {
        UnclearRetries(env, heard, n);
      } else {
        var e, s1 := Match(out, text, env.lower).value, heard.(retries := heard.retries[n.id := 0]);
        assert NoRetries(s1);
        if n.kind.ListenChoice? {
          DepartRetries(env, s1, e);
          NoRetriesOk(env, Depart(env, s1, e).0);
        } else {
          SwitchRetries(env, s1, e);
        }
      }
    }
  }

  lemma CallKeepsRetries(env: Env, s: State, c: Call)
    requires RetriesOk(env, s) && KeyedById(env)
    ensures RetriesOk(env, Do(env, s, c).0)
  {
    hide FlowWalk.Walk, Utter;
    match c
    case Bootstrap =>
      if Listening(env, s.nodeId) {
        WalkStaysAtListen(env, s);
      } else {
        WalkFrame(env, s);
        NoRetriesOk(env, FlowWalk.Walk(env, s).0);
      }
    case Utterance(text) => UtterRetries(env, s, text);
    case _ => assert RetriesOk(env, Do(env, s, c).0);
  }

  /** So in every reachable state. */
  lemma {:induction false} RunKeepsRetries(env: Env, s: State, calls: seq<Call>)
    requires RetriesOk(env, s) && KeyedById(env)
    ensures RetriesOk(env, Run(env, s, calls))
    decreases |calls|
  {
    if calls != [] {
      CallKeepsRetries(env, s, calls[0]);
      hide Do, RetriesOk;
      RunKeepsRetries(env, Do(env, s, calls[0]).0, calls[1..]);
    }
  }

  // ---------------------------------------------------------------- exhaustion

  function Utterances(calls: seq<Call>): nat
    decreases |calls|
  {
    if calls == [] then 0 else (if calls[0].Utterance? then 1 else 0) + Utterances(calls[1..])
  }

  predicate IsUnclear(env: Env, id: string, text: string) {
    Match(OutEdges(env.doc.Edges(), id), text, env.lower) == None
  }

  /** No utterance among the calls matches an edge of the node. */
  ghost predicate AllUnclear(env: Env, id: string, calls: seq<Call>) {
    forall c <- calls :: c.Utterance? ==> IsUnclear(env, id, c.text)
  }

  lemma UnclearCounts(env: Env, s: State, c: Call)
    requires Listening(env, s.nodeId) && env.nodes[s.nodeId].id == s.nodeId && env.nodes[s.nodeId].repair.Policy?
    requires c.Utterance? ==> IsUnclear(env, s.nodeId, c.text)
    requires RetriesAt(s, s.nodeId) < env.nodes[s.nodeId].repair.MaxRetries() || !c.Utterance?
    ensures
      var t := Do(env, s, c).0;
      t.nodeId == s.nodeId && RetriesAt(t, t.nodeId) == RetriesAt(s, s.nodeId) + if c.Utterance? then 1 else 0
  {
    WalkStaysAtListen(env, s);
    hide FlowWalk.Walk, Resolve, Depart, Match, Sole, OutEdges;
  }

  /** Up to the maximum, unclear utterances only count, whether their reprompt
      could be spoken or not, and whatever else is called between them. */
  lemma {:induction false} UnclearRunCounts(env: Env, s: State, calls: seq<Call>)
    requires Listening(env, s.nodeId) && env.nodes[s.nodeId].id == s.nodeId && env.nodes[s.nodeId].repair.Policy?
    requires AllUnclear(env, s.nodeId, calls)
    requires RetriesAt(s, s.nodeId) + Utterances(calls) <= env.nodes[s.nodeId].repair.MaxRetries()
    ensures
      var t := Run(env, s, calls);
      t.nodeId == s.nodeId && RetriesAt(t, t.nodeId) == RetriesAt(s, s.nodeId) + Utterances(calls)
    decreases |calls|
  {
    if calls != [] {
      assert calls[0] in calls;
      assert forall c <- calls[1..] :: c in calls;
      UnclearCounts(env, s, calls[0]);
      hide Do, IsUnclear, Listening;
      UnclearRunCounts(env, Do(env, s, calls[0]).0, calls[1..]);
    }
  }

  /** The state that leaves a node whose policy is exhausted. */
  function Exhausted(s: State, text: string): State {
    s.(lastQuery := Trim(text), retries := s.retries[s.nodeId := 0])
  }

  /** The next one leaves by the one repair edge and starts counting afresh,
      whether or not the walk behind that edge succeeds. */
  lemma NextUnclearTakesRepairEdge(env: Env, s: State, calls: seq<Call>, text: string)
    requires Bounded(env, s.nodeId) && env.nodes[s.nodeId].id == s.nodeId
    requires AllUnclear(env, s.nodeId, calls) && IsUnclear(env, s.nodeId, text)
    requires RetriesAt(s, s.nodeId) + Utterances(calls) == env.nodes[s.nodeId].repair.MaxRetries()
    ensures
      var e := Sole(OutEdges(env.doc.Edges(), s.nodeId), RepairEdge).value;
      var t := Run(env, s, calls);
      var r := Utter(env, t, text);
      && t.nodeId == s.nodeId && r == Depart(env, Exhausted(t, text), e)
      && RetriesAt(r.0, s.nodeId) == 0
      && (r.1.Success? ==> r.1.value.taken != [] && r.1.value.taken[0] == TakeOf(e) && !r.1.value.repair)
  {
    UnclearRunCounts(env, s, calls);
    var t := Run(env, s, calls);
    UnclearAtMaximum(env, t, text);
    DepartTakes(env, Exhausted(t, text), Sole(OutEdges(env.doc.Edges(), s.nodeId), RepairEdge).value);
    hide Run, Utter, Depart;
  }

  lemma UnclearAtMaximum(env: Env, s: State, text: string)
    requires Bounded(env, s.nodeId) && env.nodes[s.nodeId].id == s.nodeId && IsUnclear(env, s.nodeId, text)
    requires RetriesAt(s, s.nodeId) >= env.nodes[s.nodeId].repair.MaxRetries()
    ensures Utter(env, s, text) == Depart(env, Exhausted(s, text), Sole(OutEdges(env.doc.Edges(), s.nodeId), RepairEdge).value)
  {
    hide FlowWalk.Walk, Depart, Match, Sole, OutEdges, Resolve, Trim;
    var n := env.nodes[s.nodeId];
    var heard := s.(lastQuery := Trim(text));
    var counted := heard.(retries := heard.retries[n.id := RetriesAt(heard, n.id) + 1]);
    assert counted.retries[n.id := 0] == heard.retries[n.id := 0];
    assert RetriesAt(counted, n.id) > n.repair.MaxRetries();
  }

  lemma DepartTakes(env: Env, s: State, e: Edge)
    ensures
      var r := Depart(env, s, e);
      && r.0.retries == s.retries
      && (r.1.Success? ==> r.1.value.taken != [] && r.1.value.taken[0] == TakeOf(e) && !r.1.value.repair)
  {
    hide FlowWalk.Walk;
    WalkFrame(env, Moved(s, e));
    WalkPlain(env, Moved(s, e));
  }

  /** A walk by itself never reports an unclear utterance. */
  lemma {:induction false} WalkPlain(env: Env, s: State)
    ensures FlowWalk.Walk(env, s).1.Success? ==> !FlowWalk.Walk(env, s).1.value.repair
    decreases if Stops(WorldOf(env, s), s.nodeId) then Length(WorldOf(env, s), s.nodeId) else 0
  {
    var w := WorldOf(env, s);
    hide Arm, Resolve, Answer;
    if NodeEffect(w, s.nodeId).Move? {
      LengthStep(w, s.nodeId);
      if Stops(w, s.nodeId) { WalkPlain(env, Moved(s, NodeEffect(w, s.nodeId).e)); }
    }
  }

  /** How many unclear utterances a policy lets a caller make: three when it does
      not say, none when it says less. */
  function Chances(p: Repair): nat
    requires p.Policy?
  {
    if p.maxRetries == None then 3 else if p.maxRetries.value <= 0 then 0 else p.maxRetries.value
  }

  /** So, heard afresh, a listen node with one repair edge keeps the cursor for
      that many unclear utterances, and the next one departs along that edge. */
  lemma ChancesThenRepair(env: Env, s: State, calls: seq<Call>, text: string)
    requires Bounded(env, s.nodeId) && env.nodes[s.nodeId].id == s.nodeId && RetriesAt(s, s.nodeId) == 0
    requires AllUnclear(env, s.nodeId, calls) && IsUnclear(env, s.nodeId, text)
    requires Utterances(calls) <= Chances(env.nodes[s.nodeId].repair)
    ensures
      var t, e := Run(env, s, calls), Sole(OutEdges(env.doc.Edges(), s.nodeId), RepairEdge).value;
      && t.nodeId == s.nodeId
      && (if Utterances(calls) < Chances(env.nodes[s.nodeId].repair) then Utter(env, t, text).0.nodeId == s.nodeId
          else Utter(env, t, text) == Depart(env, Exhausted(t, text), e))
  {
    UnclearRunCounts(env, s, calls);
    if Utterances(calls) == Chances(env.nodes[s.nodeId].repair) {
      NextUnclearTakesRepairEdge(env, s, calls, text);
    } else {
      UnclearCounts(env, Run(env, s, calls), Utterance(text));
    }
    hide Run, Utter, Depart, Exhausted, Sole, OutEdges;
  }

  /** Without a policy an unclear utterance is only reported; with one that cannot
      be read it fails. Neither counts. */
  lemma UnclearWithoutPolicy(env: Env, s: State, text: string)
    requires Listening(env, s.nodeId) && IsUnclear(env, s.nodeId, text) && !env.nodes[s.nodeId].repair.Policy?
    ensures
      var r := Utter(env, s, text);
      && r.0 == s.(lastQuery := Trim(text))
      && (env.nodes[s.nodeId].repair.BadRepair? ==> r.1 == Failure(MalformedRepair))
      && (env.nodes[s.nodeId].repair.NoRepair? ==>
            r.1 == Success(Turn([], false, true, false, "", s.nodeId, "", [], None)))
  {
    hide Depart, Match, Trim, OutEdges;
  }

  /** Elsewhere an utterance is refused, and leaves no trace. */
  lemma NotListeningRefuses(env: Env, s: State, text: string)
    requires s.nodeId in env.nodes && !Listening(env, s.nodeId)
    ensures Utter(env, s, text) == (s, Failure(NotListening))
  {
  }

  // ---------------------------------------------------------------- arming

  /** The prompt of every node can be spoken in every locale. */
  ghost predicate PromptsResolve(env: Env) {
    forall id, locale | id in env.nodes :: Resolve(env, locale, env.nodes[id].promptRef).Some?
  }

  predicate AtTool(env: Env, s: State) {
    s.nodeId in env.nodes && env.nodes[s.nodeId].kind.Tool?
  }

  ghost predicate Arms(r: Option<Result<Turn, Err>>) {
    r.Some? && r.value.Success? && r.value.value.armed.Some?
  }

  /** A walk arms only what was not armed, and then rests at the tool; with
      prompts that resolve it never arms without saying so. */
  lemma {:induction false} WalkArms(env: Env, s: State)
    requires PromptsResolve(env)
    ensures
      var r := FlowWalk.Walk(env, s);
      && (Arms(Some(r.1)) ==> !s.armed && AtTool(env, r.0))
      && r.0.armed == (s.armed || Arms(Some(r.1)))
    decreases if Stops(WorldOf(env, s), s.nodeId) then Length(WorldOf(env, s), s.nodeId) else 0
  {
    var w := WorldOf(env, s);
    if NodeEffect(w, s.nodeId).Move? {
      LengthStep(w, s.nodeId);
      if Stops(w, s.nodeId) { WalkArms(env, Moved(s, NodeEffect(w, s.nodeId).e)); }
      hide NodeEffect, PromptsResolve;
    } else {
      hide Resolve, Answer, Follow;
    }
  }

  lemma DepartArms(env: Env, s: State, e: Edge)
    requires PromptsResolve(env)
    ensures
      var r := Depart(env, s, e);
      && (Arms(Some(r.1)) ==> !s.armed && AtTool(env, r.0))
      && r.0.armed == (s.armed || Arms(Some(r.1)))
  {
    if e.to in env.nodes { WalkArms(env, Moved(s, e)); }
    hide FlowWalk.Walk, PromptsResolve;
  }

  lemma UnclearArms(env: Env, s: State, n: Node)
    requires PromptsResolve(env)
    ensures
      var r := Unclear(env, s, n);
      && (Arms(Some(r.1)) ==> !s.armed && AtTool(env, r.0))
      && r.0.armed == (s.armed || Arms(Some(r.1)))
  {
    hide Depart, Resolve, Sole, OutEdges, PromptsResolve;
    var sole := Sole(OutEdges(env.doc.Edges(), s.nodeId), RepairEdge);
    if n.repair.Policy? && sole.Some? {
      DepartArms(env, s.(retries := s.retries[n.id := RetriesAt(s, n.id) + 1][n.id := 0]), sole.value);
    }
  }

  /** A turn that matched a language neither arms nor leaves anything armed. */
  lemma SwitchArms(env: Env, s: State, e: Edge)
    ensures var r := Switch(env, s, e); !Arms(Some(r.1)) && r.0.armed == s.armed
  {
    hide EdgeLocale;
    var s2 := s.(locale := EdgeLocale(e), blockTool := true);
    if e.to in env.nodes { BlockedNeverArms(env, Moved(s2, e)); }
    hide FlowWalk.Walk;
  }

  lemma CallArms(env: Env, s: State, c: Call)
    requires PromptsResolve(env)
    ensures
      var r := Do(env, s, c);
      && (Arms(r.1) ==> !s.armed && AtTool(env, r.0))
      && r.0.armed == (s.armed || Arms(r.1))
  {
    hide FlowWalk.Walk, Depart, Match, Unclear, Switch, PromptsResolve;
    match c
    case Bootstrap => WalkArms(env, s);
    case Utterance(text) =>
      if Listening(env, s.nodeId) {
        var n, out := env.nodes[s.nodeId], OutEdges(env.doc.Edges(), s.nodeId);
        var heard := s.(lastQuery := Trim(text));
        if Match(out, text, env.lower) == None {
          UnclearArms(env, heard, n);
        } else {
          var e, s1 := Match(out, text, env.lower).value, heard.(retries := heard.retries[n.id := 0]);
          if n.kind.ListenChoice? { DepartArms(env, s1, e); } else { SwitchArms(env, s1, e); }
        }
      }
    case _ =>
  }

  /** Once armed, a cursor rests at its tool: every turn fails and it never moves. */
  lemma ArmedIsFinal(env: Env, s: State, c: Call)
    requires s.armed && AtTool(env, s) && !s.blockTool
    ensures
      var r := Do(env, s, c);
      && r.0.armed && r.0.nodeId == s.nodeId && !r.0.blockTool
      && (r.1.Some? ==> r.1.value.Failure?)
  {
    assert StopsIn(WorldOf(env, s), s.nodeId, 0);
    hide Resolve, Answer, Follow, Match;
  }

  /** How many calls return an armed tool. */
  ghost function ArmedTurns(env: Env, s: State, calls: seq<Call>): nat
    decreases |calls|
  {
    if calls == [] then 0
    else
      var r := Do(env, s, calls[0]);
      (if Arms(r.1) then 1 else 0) + ArmedTurns(env, r.0, calls[1..])
  }

  /** Over any run at most one turn returns an armed tool, and the cursor knows:
      it is armed exactly when one has been, and rests at the tool from then on. */
  lemma {:induction false} OneArmPerRun(env: Env, s: State, calls: seq<Call>)
    requires PromptsResolve(env) && KeyedById(env) && RetriesOk(env, s) && (s.armed ==> AtTool(env, s))
    ensures
      var t := Run(env, s, calls);
      && ArmedTurns(env, s, calls) <= 1
      && (t.armed <==> s.armed || ArmedTurns(env, s, calls) == 1)
      && (s.armed ==> ArmedTurns(env, s, calls) == 0)
      && (t.armed ==> AtTool(env, t)) && (s.armed ==> t.nodeId == s.nodeId)
    decreases |calls|
  {
    if calls != [] {
      var r := Do(env, s, calls[0]);
      CallArms(env, s, calls[0]);
      CallKeepsRetries(env, s, calls[0]);
      if s.armed { ArmedIsFinal(env, s, calls[0]); }
      hide Do, RetriesOk, AtTool, PromptsResolve, KeyedById, Arms;
      OneArmPerRun(env, r.0, calls[1..]);
    }
  }
}
