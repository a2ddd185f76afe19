/** When a call on a cursor never returns: exactly on the documents with a cycle
    of automatic nodes that some binding answers drive the cursor round. */
module HangLaws {
  import opened Wrappers
  import opened Text
  import opened Flow
  import opened FlowWalk
  import opened WalkLaws
  import opened RunLaws
  import opened SafetyLaws

  /** A walk hangs exactly when it does not stop. */
  lemma {:induction false} HangsIff(env: Env, s: State)
    ensures FlowWalk.Walk(env, s).1 == Failure(Hangs) <==> !Stops(WorldOf(env, s), s.nodeId)
    decreases if Stops(WorldOf(env, s), s.nodeId) then Length(WorldOf(env, s), s.nodeId) else 0
  {
    var w := WorldOf(env, s);
    if Stops(w, s.nodeId) {
      EffectNeverHangs(w, s.nodeId);
      hide NodeEffect, Resolve;
      if NodeEffect(w, s.nodeId).Move? {
        assert Goes(w, s.nodeId).Some?;
        LengthStep(w, s.nodeId);
        HangsIff(env, Moved(s, NodeEffect(w, s.nodeId).e));
      }
    }
  }

  lemma EffectNeverHangs(w: World, id: string)
    ensures NodeEffect(w, id) != Fail(Hangs)
    ensures NodeEffect(w, id).Halt? ==> id in w.env.nodes
  {
    hide Resolve, Answer, Sole, OutEdges;
  }

  // ---------------------------------------------------------------- driven cycles

  /** The edge the cursor tries at an automatic node, given which bindings have
      an answer. */
  function NextEdge(env: Env, id: string, answers: string -> bool): Option<Edge> {
    if id !in env.nodes then None
    else
      var n, out := env.nodes[id], OutEdges(env.doc.Edges(), id);
      if n.kind.Entry? || n.kind.Speak? then Sole(out, Next)
      else if n.kind.Inform? then Sole(out, if answers(Trim(n.bindingRef)) then Next else RepairEdge)
      else None
  }

  /** The edge it takes there. */
  function LiveEdge(env: Env, id: string, answers: string -> bool): Option<Edge> {
    var e := NextEdge(env, id, answers);
    if e.Some? && e.value.to in env.nodes then e else None
  }

  /** Such edges end to end. */
  ghost predicate Driven(env: Env, answers: string -> bool, p: seq<Edge>) {
    && (forall i :: 0 <= i < |p| ==> LiveEdge(env, p[i].from, answers) == Some(p[i]))
    && (forall i :: 0 < i < |p| ==> p[i - 1].to == p[i].from)
  }

  ghost predicate NoDrivenCycle(env: Env) {
    forall answers: string -> bool, p: seq<Edge> ::
      Driven(env, answers, p) && p != [] ==> p[0].from != p[|p| - 1].to
  }

  ghost predicate InformNodesBound(env: Env) {
    forall id <- env.nodes :: env.nodes[id].kind.Inform? ==> Trim(env.nodes[id].bindingRef) != ""
  }

  function AnswersOf(w: World): string -> bool {
    ref => w.lookup.Some? && w.lookup.value(ref, w.query, w.locale).Some?
  }

  lemma GoesIsLive(w: World, id: string)
    requires PromptsResolve(w.env) && InformNodesBound(w.env)
    ensures
      var live := LiveEdge(w.env, id, AnswersOf(w));
      Goes(w, id) == if live.Some? then Some(live.value.to) else None
    ensures LiveEdge(w.env, id, AnswersOf(w)).Some? ==> LiveEdge(w.env, id, AnswersOf(w)).value.from == id
  {
    SoleIn(w.env.doc.Edges(), id, Next);
    SoleIn(w.env.doc.Edges(), id, RepairEdge);
    hide Resolve, Sole, OutEdges;
  }

  /** The first k edges of a walk that makes that many moves. */
  lemma {:induction false} LiveRoute(w: World, id: string, k: nat) returns (p: seq<Edge>)
    requires PromptsResolve(w.env) && InformNodesBound(w.env)
    requires After(w, id, k).Some?
    ensures |p| == k && Driven(w.env, AnswersOf(w), p) && (k > 0 ==> p[0].from == id)
    decreases k
  {
    hide LiveEdge, Goes, PromptsResolve, InformNodesBound, AnswersOf;
    if k == 0 {
      p := [];
    } else {
      GoesIsLive(w, id);
      var e := LiveEdge(w.env, id, AnswersOf(w)).value;
      var rest := LiveRoute(w, e.to, k - 1);
      p := [e] + rest;
    }
  }

  lemma LiveIsKnown(env: Env, id: string, answers: string -> bool)
    ensures LiveEdge(env, id, answers).Some? ==> id in env.nodes
  {
    hide Sole, OutEdges;
  }

  /** A driven path longer than there are nodes comes back to a node on it. */
  lemma ComesBack(env: Env, answers: string -> bool, p: seq<Edge>) returns (i: nat, j: nat)
    requires Driven(env, answers, p) && |p| > |env.nodes|
    ensures i < j < |p| && p[i].from == p[j].from == p[j - 1].to
    ensures Driven(env, answers, p[..i]) && Driven(env, answers, p[i..j])
  {
    hide LiveEdge;
    var froms := seq(|p|, i requires 0 <= i < |p| => p[i].from);
    forall i | 0 <= i < |p| ensures p[i].from in env.nodes.Keys { LiveIsKnown(env, p[i].from, answers); }
    assert forall x <- froms :: x in env.nodes.Keys;
    i, j := Pigeonhole(froms, env.nodes.Keys);
    assert froms[i] == p[i].from && froms[j] == p[j].from;
  }

  lemma LongRouteHasCycle(env: Env, answers: string -> bool, p: seq<Edge>)
    requires Driven(env, answers, p) && |p| > |env.nodes|
    ensures !NoDrivenCycle(env)
  {
    hide LiveEdge;
    var i, j := ComesBack(env, answers, p);
    assert p[i..j] != [];
  }

  /** A lookup that answers as wanted. */
  function Oracle(answers: string -> bool): Lookup {
    (ref, query, locale) => if answers(ref) then Some("") else None
  }

  lemma DrivenRest(env: Env, answers: string -> bool, p: seq<Edge>)
    requires Driven(env, answers, p) && p != []
    ensures Driven(env, answers, p[1..])
  {
    hide LiveEdge;
  }

  lemma {:induction false} RidesRoute(w: World, p: seq<Edge>, k: nat)
    requires PromptsResolve(w.env) && InformNodesBound(w.env)
    requires p != [] && Driven(w.env, AnswersOf(w), p) && StopsIn(w, p[0].from, k)
    ensures k >= |p| && StopsIn(w, p[|p| - 1].to, k - |p|)
    decreases |p|
  {
    hide LiveEdge, PromptsResolve, InformNodesBound, AnswersOf, StopsIn;
    var k' := RideOne(w, p[0], k);
    if |p| > 1 {
      assert p[0].to == p[1].from;
      DrivenRest(w.env, AnswersOf(w), p);
      hide Driven;
      RidesRoute(w, p[1..], k');
    }
  }

  lemma RideOne(w: World, e: Edge, k: nat) returns (rest: nat)
    requires PromptsResolve(w.env) && InformNodesBound(w.env)
    requires LiveEdge(w.env, e.from, AnswersOf(w)) == Some(e) && StopsIn(w, e.from, k)
    ensures k == rest + 1 && StopsIn(w, e.to, rest)
  {
    GoesIsLive(w, e.from);
    hide LiveEdge, Goes, PromptsResolve, InformNodesBound, AnswersOf;
    rest := k - 1;
  }

  lemma DrivenCycleHangs(env: Env, answers: string -> bool, p: seq<Edge>, locale: string)
    requires PromptsResolve(env) && InformNodesBound(env)
    requires Driven(env, answers, p) && p != [] && p[0].from == p[|p| - 1].to
    ensures !Stops(World(env, locale, "", Some(Oracle(answers))), p[0].from)
  {
    var w := World(env, locale, "", Some(Oracle(answers)));
    hide LiveEdge;
    forall i | 0 <= i < |p| ensures LiveEdge(env, p[i].from, AnswersOf(w)) == Some(p[i]) {
      SameAnswers(env, p[i].from, answers, AnswersOf(w));
    }
    hide AnswersOf, PromptsResolve, InformNodesBound;
    if Stops(w, p[0].from) {
      var k := Length(w, p[0].from);
      RidesRoute(w, p, k);
      StopsInOnce(w, p[0].from, k, k - |p|);
    }
  }

  lemma SameAnswers(env: Env, id: string, a: string -> bool, b: string -> bool)
    requires forall ref :: a(ref) == b(ref)
    ensures LiveEdge(env, id, a) == LiveEdge(env, id, b)
  {
    hide Sole, OutEdges, Trim;
  }

  /** Every walk stops, whatever the lookup, exactly when no answers drive the
      cursor round a cycle. */
  lemma StopsIffNoDrivenCycle(env: Env)
    requires PromptsResolve(env) && InformNodesBound(env)
    ensures NoDrivenCycle(env) <==> forall w: World, id | w.env == env :: Stops(w, id)
  {
    hide Goes, LiveEdge, AnswersOf, PromptsResolve, InformNodesBound;
    if NoDrivenCycle(env) {
      forall w: World, id | w.env == env ensures Stops(w, id) {
        WalkDichotomy(w, id);
        if !Stops(w, id) {
          var p := LiveRoute(w, id, |env.nodes| + 1);
          LongRouteHasCycle(env, AnswersOf(w), p);
        }
      }
    } else {
      var answers: string -> bool, p: seq<Edge> :|
        Driven(env, answers, p) && p != [] && p[0].from == p[|p| - 1].to;
      DrivenCycleHangs(env, answers, p, "");
    }
  }

  /** In particular when the automatic edges form no cycle at all. */
  lemma AcyclicIsEnough(env: Env)
    requires Acyclic(env)
    ensures NoDrivenCycle(env)
  {
    forall answers: string -> bool, p: seq<Edge> | Driven(env, answers, p) && p != []
      ensures p[0].from != p[|p| - 1].to
    {
      forall i | 0 <= i < |p| ensures AutoEdge(env, p[i]) { LiveIsAuto(env, p[i].from, answers); }
      hide AutoEdge, LiveEdge;
      assert AutoPath(env, p);
    }
  }

  lemma LiveIsAuto(env: Env, id: string, answers: string -> bool)
    ensures LiveEdge(env, id, answers).Some? ==> AutoEdge(env, LiveEdge(env, id, answers).value)
  {
    SoleIn(env.doc.Edges(), id, Next);
    SoleIn(env.doc.Edges(), id, RepairEdge);
    hide Sole;
  }

  // ---------------------------------------------------------------- calls

  ghost predicate Returns(r: Option<Result<Turn, Err>>) {
    r != Some(Failure(Hangs))
  }

  lemma AcceptedInformsBound(d: Document, lower: char -> char)
    requires Accepted(d)
    ensures InformNodesBound(EnvOf(d, lower))
  {
    hide Trim;
    var env := EnvOf(d, lower);
    forall id | id in env.nodes && env.nodes[id].kind.Inform? ensures Trim(env.nodes[id].bindingRef) != "" {
      var i := NodeIsPublished(d, lower, id);
      hide NodesById, PromptsOk, EntryOk, BindingsOk, EdgesOk, MatrixOk, TransfersOk, IdsBefore;
      assert NodeOk(d.Nodes()[i]);
    }
  }
}
