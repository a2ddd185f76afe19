/** What a successful turn reports: the path it took, the node it ended on and
    exactly what was said on the way. */
module TurnLaws {
  import opened Wrappers
  import opened Text
  import opened Flow
  import opened FlowWalk

  /** What a node says when the cursor passes or lands on it. */
  function NodeText(w: World, id: string): string {
    if id !in w.env.nodes then ""
    else
      var n := w.env.nodes[id];
      if n.kind.Speak? || n.kind.Tool? then Resolve(w.env, w.locale, n.promptRef).GetOr("")
      else if n.kind.Inform? then Answer(w, n).GetOr("")
      else ""
  }

  /** The non-empty texts of some nodes, in order. */
  function Spoken(w: World, ids: seq<string>): seq<string> {
    if ids == [] then [] else Said(NodeText(w, ids[0])) + Spoken(w, ids[1..])
  }

  function Froms(taken: seq<Take>): seq<string> {
    if taken == [] then [] else [taken[0].from] + Froms(taken[1..])
  }

  /** Edges of the document, end to end, from one node to another. */
  predicate IsPath(env: Env, from: string, taken: seq<Take>, to: string)
    decreases |taken|
  {
    if taken == [] then from == to
    else
      && taken[0].from == from
      && (exists e <- env.doc.Edges() :: TakeOf(e) == taken[0])
      && IsPath(env, taken[0].to, taken[1..], to)
  }

  /** Where a walk may come to rest. */
  predicate Resting(env: Env, id: string) {
    id in env.nodes &&
    var k := env.nodes[id].kind;
    k.ListenChoice? || k.ListenLanguage? || k.ListenSlot? || k.End? || k.Tool?
  }

  /** A turn that went from one node to the node of a state and said what the
      nodes on its path say, the first one left out when it was not passed
      silently. */
  predicate Reports(w: World, from: string, t: Turn, s: State) {
    && IsPath(w.env, from, t.taken, s.nodeId)
    && t.nodeId == s.nodeId && Resting(w.env, s.nodeId)
    && t.edgeId == (if t.taken == [] then "" else t.taken[|t.taken| - 1].edgeId)
    && t.lines == Spoken(w, Froms(t.taken) + [s.nodeId])
    && (t.ended <==> w.env.nodes[s.nodeId].kind.End?)
    && (t.armed.Some? <==> w.env.nodes[s.nodeId].kind.Tool?)
    && !t.noMatch && !t.repair
  }

  lemma LandReports(env: Env, s: State)
    requires Resting(env, s.nodeId) && Land(env, s).1.Success?
    ensures Reports(WorldOf(env, s), s.nodeId, Land(env, s).1.value, Land(env, s).0)
    ensures Land(env, s).0 == s.(armed := s.armed || Land(env, s).1.value.armed.Some?)
  {
    var w := WorldOf(env, s);
    assert Spoken(w, [s.nodeId]) == Said(NodeText(w, s.nodeId));
    assert Froms([]) + [s.nodeId] == [s.nodeId];
    hide Arm, Resolve, Answer;
  }

  lemma PrependReports(w: World, e: Edge, t: Turn, s: State)
    requires Reports(w, e.to, t, s) && e in w.env.doc.Edges()
    ensures Reports(w, e.from, Prepend(e, NodeText(w, e.from), t), s)
  {
    var u := Prepend(e, NodeText(w, e.from), t);
    assert u.taken[1..] == t.taken;
    assert Froms(u.taken) + [s.nodeId] == [e.from] + (Froms(t.taken) + [s.nodeId]);
    assert ([e.from] + (Froms(t.taken) + [s.nodeId]))[1..] == Froms(t.taken) + [s.nodeId];
    hide NodeText, Resting, Said;
  }

  /** A move takes an edge out of the node and says what the node says. */
  lemma MoveSays(w: World, id: string)
    requires NodeEffect(w, id).Move?
    ensures
      var m := NodeEffect(w, id);
      m.e in w.env.doc.Edges() && m.e.from == id && m.e.to in w.env.nodes && m.line == NodeText(w, id)
  {
    hide Resolve, Answer;
  }

  /** Every successful walk reports its path, and changes only the node, the
      last edge and, on a tool, the arm. */
  lemma {:induction false} WalkReports(env: Env, s: State)
    requires FlowWalk.Walk(env, s).1.Success?
    ensures Reports(WorldOf(env, s), s.nodeId, FlowWalk.Walk(env, s).1.value, FlowWalk.Walk(env, s).0)
    ensures OnlyMoved(s, FlowWalk.Walk(env, s).0) && FlowWalk.Walk(env, s).0.armed == (s.armed || FlowWalk.Walk(env, s).1.value.armed.Some?)
    decreases if Stops(WorldOf(env, s), s.nodeId) then Length(WorldOf(env, s), s.nodeId) else 0
  {
    var w := WorldOf(env, s);
    hide Reports, Land;
    match NodeEffect(w, s.nodeId) {
      case Move(e, line) =>
        LengthStep(w, s.nodeId);
        MoveSays(w, s.nodeId);
        WalkReports(env, Moved(s, e));
        PrependReports(w, e, FlowWalk.Walk(env, Moved(s, e)).1.value, FlowWalk.Walk(env, s).0);
      case Halt => LandReports(env, s);
      case Fail(_) =>
    }
  }

  ghost predicate OnlyMoved(s: State, t: State) {
    t == s.(nodeId := t.nodeId, lastEdge := t.lastEdge, armed := t.armed)
  }

  // ---------------------------------------------------------------- calls

  /** Leaving a node that says nothing of its own, then walking on. */
  lemma DepartReports(env: Env, s: State, e: Edge)
    requires Depart(env, s, e).1.Success? && e in env.doc.Edges() && e.from == s.nodeId
    requires NodeText(WorldOf(env, s), s.nodeId) == ""
    ensures
      var r := Depart(env, s, e);
      && Reports(WorldOf(env, s), s.nodeId, r.1.value, r.0) && r.1.value.taken != []
      && OnlyMoved(s, r.0) && r.0.armed == (s.armed || r.1.value.armed.Some?)
  {
    hide Reports, FlowWalk.Walk, NodeText;
    WalkReports(env, Moved(s, e));
    PrependReports(WorldOf(env, s), e, FlowWalk.Walk(env, Moved(s, e)).1.value, Depart(env, s, e).0);
  }

  /** A turn that stays where it is. */
  ghost predicate Stays(s: State, t: Turn, s': State) {
    && t.taken == [] && t.edgeId == "" && t.nodeId == s'.nodeId == s.nodeId && s'.armed == s.armed
    && t.armed == None && !t.ended && t.noMatch == !t.repair && (t.noMatch ==> t.lines == [])
  }

  /** What an utterance changes besides the move: the query, the retries and the locale. */
  ghost predicate UtterFrame(s: State, text: string, t: Turn, s': State) {
    && s'.lastQuery == Trim(text) && s'.lookup == s.lookup && s'.blockTool == s.blockTool
    && s'.armed == (s.armed || t.armed.Some?)
    && s'.locale == if t.locale != "" then t.locale else s.locale
  }

  /** Either stays, asking again, or reports a path of at least one edge from
      the node the utterance was heard at. */
  ghost predicate Answers(env: Env, s: State, text: string, t: Turn, s': State) {
    && UtterFrame(s, text, t, s')
    && (Stays(s, t, s') || (t.taken != [] && Reports(WorldOf(env, s'), s.nodeId, t, s')))
  }

  lemma UnclearAnswers(env: Env, s: State, text: string, n: Node)
    requires s.nodeId in env.nodes && n == env.nodes[s.nodeId] && (n.kind.ListenChoice? || n.kind.ListenLanguage?)
    requires s.lastQuery == Trim(text) && Unclear(env, s, n).1.Success?
    ensures Answers(env, s, text, Unclear(env, s, n).1.value, Unclear(env, s, n).0)
  {
    hide Reports, Depart, Resolve, Trim, Sole, OutEdges;
    if n.repair.Policy? && RetriesAt(s, n.id) + 1 > n.repair.MaxRetries() {
      ExhaustedAnswers(env, s, text, n);
    }
  }

  lemma ExhaustedAnswers(env: Env, s: State, text: string, n: Node)
    requires s.nodeId in env.nodes && n == env.nodes[s.nodeId] && (n.kind.ListenChoice? || n.kind.ListenLanguage?)
    requires s.lastQuery == Trim(text) && Unclear(env, s, n).1.Success?
    requires n.repair.Policy? && RetriesAt(s, n.id) + 1 > n.repair.MaxRetries()
    ensures Answers(env, s, text, Unclear(env, s, n).1.value, Unclear(env, s, n).0)
  {
    hide Depart, Resolve, Trim, Reports, Answers;
    var out := OutEdges(env.doc.Edges(), s.nodeId);
    SoleIsThere(out, RepairEdge);
    var e := Sole(out, RepairEdge).value;
    hide Sole, OutEdges;
    var s2 := s.(retries := s.retries[n.id := RetriesAt(s, n.id) + 1][n.id := 0]);
    assert Unclear(env, s, n) == Depart(env, s2, e);
    hide Unclear;
    LeavingAnswers(env, s, s2, text, e);
  }

  /** Leaving the node an utterance was heard at, the retries settled. */
  lemma LeavingAnswers(env: Env, s: State, s2: State, text: string, e: Edge)
    requires s.nodeId in env.nodes && (env.nodes[s.nodeId].kind.ListenChoice? || env.nodes[s.nodeId].kind.ListenLanguage?)
    requires s2 == s.(retries := s2.retries, lastQuery := Trim(text)) && Depart(env, s2, e).1.Success?
    requires e in env.doc.Edges() && e.from == s.nodeId
    ensures Answers(env, s, text, Depart(env, s2, e).1.value, Depart(env, s2, e).0)
  {
    DepartReports(env, s2, e);
    DepartLocale(env, s2, e);
    hide Depart, Reports, Trim;
  }

  lemma SwitchAnswers(env: Env, s: State, text: string, e: Edge)
    requires s.nodeId in env.nodes && env.nodes[s.nodeId].kind.ListenLanguage?
    requires e in env.doc.Edges() && e.from == s.nodeId
    requires s.lastQuery == Trim(text) && !s.blockTool && Switch(env, s, e).1.Success?
    ensures Answers(env, s, text, Switch(env, s, e).1.value, Switch(env, s, e).0)
    ensures Switch(env, s, e).1.value.armed == None
  {
    hide Reports, EdgeLocale, Resolve;
    var s2 := s.(locale := EdgeLocale(e), blockTool := true);
    DepartReports(env, s2, e);
    BlockedNeverArms(env, Moved(s2, e));
    SwitchReports(WorldOf(env, s2), s.nodeId, Depart(env, s2, e).1.value, Depart(env, s2, e).0, EdgeLocale(e));
    hide FlowWalk.Walk;
  }

  /** While tools are blocked a walk that reaches one fails. */
  lemma {:induction false} BlockedNeverArms(env: Env, s: State)
    requires s.blockTool
    ensures
      var r := FlowWalk.Walk(env, s);
      r.0.armed == s.armed && (r.1.Success? ==> r.1.value.armed == None)
    decreases if Stops(WorldOf(env, s), s.nodeId) then Length(WorldOf(env, s), s.nodeId) else 0
  {
    var w := WorldOf(env, s);
    hide Arm, Resolve, Answer;
    if NodeEffect(w, s.nodeId).Move? {
      LengthStep(w, s.nodeId);
      if Stops(w, s.nodeId) { BlockedNeverArms(env, Moved(s, NodeEffect(w, s.nodeId).e)); }
    }
  }

  /** Every successful utterance answers. */
  lemma UtterAnswers(env: Env, s: State, text: string)
    requires Utter(env, s, text).1.Success? && !s.blockTool
    ensures Answers(env, s, text, Utter(env, s, text).1.value, Utter(env, s, text).0)
  {
    var n, out := env.nodes[s.nodeId], OutEdges(env.doc.Edges(), s.nodeId);
    var heard := s.(lastQuery := Trim(text));
    hide Reports, Depart, Match, Unclear, Switch;
    MatchIn(out, text, env.lower);
    if Match(out, text, env.lower) == None {
      UnclearAnswers(env, heard, text, n);
    } else {
      var e, s1 := Match(out, text, env.lower).value, heard.(retries := heard.retries[n.id := 0]);
      if n.kind.ListenChoice? {
        LeavingAnswers(env, s, s1, text, e);
      } else {
        SwitchAnswers(env, s1, text, e);
      }
    }
  }

  lemma MatchIn(es: seq<Edge>, utterance: string, lower: char -> char)
    ensures Match(es, utterance, lower).Some? ==> Match(es, utterance, lower).value in es
  {
  }

  /** Nothing but a language switch sets a turn's locale. */
  lemma {:induction false} WalkLocale(env: Env, s: State)
    ensures FlowWalk.Walk(env, s).1.Success? ==> FlowWalk.Walk(env, s).1.value.locale == ""
    decreases if Stops(WorldOf(env, s), s.nodeId) then Length(WorldOf(env, s), s.nodeId) else 0
  {
    var w := WorldOf(env, s);
    hide Arm, Resolve, Answer;
    if NodeEffect(w, s.nodeId).Move? {
      LengthStep(w, s.nodeId);
      if Stops(w, s.nodeId) { WalkLocale(env, Moved(s, NodeEffect(w, s.nodeId).e)); }
    }
  }

  lemma DepartLocale(env: Env, s: State, e: Edge)
    ensures Depart(env, s, e).1.Success? ==> Depart(env, s, e).1.value.locale == ""
  {
    hide FlowWalk.Walk;
    WalkLocale(env, Moved(s, e));
  }

  lemma SwitchReports(w: World, from: string, t: Turn, s: State, locale: string)
    requires Reports(w, from, t, s)
    ensures Reports(w, from, t.(locale := locale), s.(blockTool := false))
  {
    hide IsPath, Spoken, Resting;
  }
}
