/** When the silent walk stops, and what a turn reports of it. */
module WalkLaws {
  import opened Wrappers
  import opened Flow
  import opened FlowWalk

  // ---------------------------------------------------------------- stopping

  /** Where k moves lead, if that many are made. */
  ghost function After(w: World, id: string, k: nat): Option<string>
    decreases k
  {
    if k == 0 then Some(id)
    else
      match Goes(w, id)
      case Some(next) => After(w, next, k - 1)
      case None => None
  }

  /** The nodes of a walk of k moves. */
  ghost function Visited(w: World, id: string, k: nat): set<string>
    requires StopsIn(w, id, k)
    decreases k
  {
    if k == 0 then {id} else {id} + Visited(w, Goes(w, id).value, k - 1)
  }

  lemma GoesToKnown(w: World, id: string)
    requires Goes(w, id).Some?
    ensures id in w.env.nodes && Goes(w, id).value in w.env.nodes
  {
    hide Resolve, Answer, Sole, OutEdges;
  }

  ghost predicate StopsBy(w: World, id: string, k: nat) {
    exists m: nat :: m <= k && StopsIn(w, id, m)
  }

  /** A walk that stops passes no node twice. */
  lemma {:induction false} VisitedDiffer(w: World, id: string, k: nat)
    requires StopsIn(w, id, k) && id in w.env.nodes
    ensures Visited(w, id, k) <= w.env.nodes.Keys && |Visited(w, id, k)| == k + 1
    ensures forall x <- Visited(w, id, k) :: StopsBy(w, x, k)
    decreases k
  {
    hide Goes;
    assert StopsBy(w, id, k);
    if k > 0 {
      var next := Goes(w, id).value;
      GoesToKnown(w, id);
      VisitedDiffer(w, next, k - 1);
      assert forall x :: StopsBy(w, x, k - 1) ==> StopsBy(w, x, k);
      if id in Visited(w, next, k - 1) {
        var m: nat :| m <= k - 1 && StopsIn(w, id, m);
        StopsInOnce(w, id, m, k);
      }
    }
  }

  lemma SubsetSize<T>(a: set<T>, b: set<T>)
    requires a <= b
    ensures |a| <= |b|
  {
    assert b == a + (b - a);
  }

  /** A walk that stops takes fewer edges than there are nodes. */
  lemma StopsWithinNodes(w: World, id: string)
    requires Stops(w, id)
    ensures Length(w, id) == 0 || Length(w, id) < |w.env.nodes|
  {
    hide Goes, Visited;
    var k := Length(w, id);
    if k > 0 {
      GoesToKnown(w, id);
      VisitedDiffer(w, id, k);
      SubsetSize(Visited(w, id, k), w.env.nodes.Keys);
    }
  }

  /** A walk that is ever over stops. */
  lemma {:induction false} OverMeansStops(w: World, id: string, k: nat)
    requires After(w, id, k) == None
    ensures Stops(w, id)
    decreases k
  {
    hide Goes;
    if Goes(w, id) == None {
      assert StopsIn(w, id, 0);
    } else {
      OverMeansStops(w, Goes(w, id).value, k - 1);
      LengthStep(w, id);
    }
  }

  lemma {:induction false} StoppedIsOver(w: World, id: string, k: nat)
    requires StopsIn(w, id, k)
    ensures After(w, id, k + 1) == None
    decreases k
  {
    hide Goes;
    if k > 0 { StoppedIsOver(w, Goes(w, id).value, k - 1); }
  }

  /** From any state the silent walk either stops within fewer edges than there
      are nodes (one that leaves no node takes none), or goes on for ever. */
  lemma WalkDichotomy(w: World, id: string)
    ensures Stops(w, id) <==> exists k: nat :: (k == 0 || k < |w.env.nodes|) && StopsIn(w, id, k)
    ensures Stops(w, id) <==> !(forall k: nat :: After(w, id, k).Some?)
  {
    hide Goes;
    if Stops(w, id) {
      StopsWithinNodes(w, id);
      StoppedIsOver(w, id, Length(w, id));
    }
    if k: nat :| After(w, id, k) == None { OverMeansStops(w, id, k); }
  }

  // ---------------------------------------------------------------- cycles

  /** An edge the cursor may take without being spoken to. */
  predicate AutoEdge(env: Env, e: Edge) {
    e in env.doc.Edges() && e.from in env.nodes &&
    var kind := env.nodes[e.from].kind;
    (e.kind == Next && (kind.Entry? || kind.Speak? || kind.Inform?)) || (e.kind == RepairEdge && kind.Inform?)
  }

  /** Such edges end to end. */
  predicate AutoPath(env: Env, p: seq<Edge>) {
    && (forall i :: 0 <= i < |p| ==> AutoEdge(env, p[i]))
    && (forall i :: 0 < i < |p| ==> p[i - 1].to == p[i].from)
  }

  ghost predicate Acyclic(env: Env) {
    forall p: seq<Edge> :: AutoPath(env, p) && p != [] ==> p[0].from != p[|p| - 1].to
  }

  /** The edge behind a move. */
  lemma MoveIsAuto(w: World, id: string) returns (e: Edge)
    requires Goes(w, id).Some?
    ensures NodeEffect(w, id).Move? && e == NodeEffect(w, id).e
    ensures AutoEdge(w.env, e) && e.from == id && e.to == Goes(w, id).value
  {
    hide Resolve, Answer;
    e := NodeEffect(w, id).e;
  }

  /** The first k edges of a walk that makes that many moves. */
  lemma {:induction false} AutoRoute(w: World, id: string, k: nat) returns (p: seq<Edge>)
    requires After(w, id, k).Some?
    ensures |p| == k && AutoPath(w.env, p) && (k > 0 ==> p[0].from == id)
    decreases k
  {
    hide AutoEdge, Goes;
    if k == 0 {
      p := [];
    } else {
      var e := MoveIsAuto(w, id);
      var rest := AutoRoute(w, Goes(w, id).value, k - 1);
      p := [e] + rest;
    }
  }

  lemma {:induction false} Pigeonhole<T>(xs: seq<T>, holes: set<T>) returns (i: nat, j: nat)
    requires |xs| > |holes| && forall x <- xs :: x in holes
    ensures i < j < |xs| && xs[i] == xs[j]
    decreases |xs|
  {
    var last := |xs| - 1;
    if k :| 0 <= k < last && xs[k] == xs[last] {
      i, j := k, last;
    } else {
      assert forall x <- xs[..last] :: x in holes - {xs[last]};
      i, j := Pigeonhole(xs[..last], holes - {xs[last]});
    }
  }

  /** When the automatic edges form no cycle, the walk stops from everywhere,
      whatever the locale, the query and the lookup. */
  lemma AcyclicWalksStop(w: World, id: string)
    requires Acyclic(w.env)
    ensures Stops(w, id)
  {
    hide Goes;
    WalkDichotomy(w, id);
    if !Stops(w, id) {
      var p := AutoRoute(w, id, |w.env.nodes| + 1);
      CycleIn(w.env, p);
    }
  }

  /** A path longer than there are nodes holds a cycle. */
  lemma CycleIn(env: Env, p: seq<Edge>)
    requires AutoPath(env, p) && |p| > |env.nodes|
    ensures !Acyclic(env)
  {
    var froms := seq(|p|, i requires 0 <= i < |p| => p[i].from);
    assert forall x <- froms :: x in env.nodes.Keys;
    var i, j := Pigeonhole(froms, env.nodes.Keys);
    var cycle := p[i..j];
    hide AutoEdge;
    assert AutoPath(env, cycle);
    assert cycle[0].from == froms[i] && p[j - 1].to == p[j].from == froms[j];
  }
}
