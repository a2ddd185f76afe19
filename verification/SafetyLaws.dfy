/** What publishing guarantees at run time. */
module SafetyLaws {
  import opened Wrappers
  import opened Text
  import opened Flow
  import opened FlowWalk
  import opened TurnLaws
  import opened RunLaws

  // ---------------------------------------------------------------- nodes

  lemma {:induction false} NodesByIdHas(ns: seq<Node>, k: nat, id: string)
    requires k <= |ns|
    ensures id in NodesById(ns, k) <==> exists i :: 0 <= i < k && ns[i].id == id
  {
    if k > 0 { NodesByIdHas(ns, k - 1, id); }
  }

  /** A cursor's node is a node of the document, under its own id. */
  lemma NodeIsPublished(d: Document, lower: char -> char, id: string) returns (i: nat)
    requires id in EnvOf(d, lower).nodes
    ensures i < |d.Nodes()| && d.Nodes()[i] == EnvOf(d, lower).nodes[id] && d.Nodes()[i].id == id
  {
    var n := EnvOf(d, lower).nodes[id];
    assert n in d.Nodes();
    i :| 0 <= i < |d.Nodes()| && d.Nodes()[i] == n;
    hide NodesById;
  }

  lemma AcceptedPromptsResolve(d: Document, lower: char -> char)
    requires Accepted(d)
    ensures PromptsResolve(EnvOf(d, lower)) && KeyedById(EnvOf(d, lower))
  {
    hide Trim, TextFor;
    var env := EnvOf(d, lower);
    forall id, locale | id in env.nodes ensures Resolve(env, locale, env.nodes[id].promptRef).Some? {
      var i := NodeIsPublished(d, lower, id);
      hide NodesById, NodesOk, EntryOk, BindingsOk, EdgesOk, MatrixOk, TransfersOk;
      assert PromptOk(d, d.Nodes()[i]);
    }
  }

  /** Every edge leads to a node the cursor knows. */
  ghost predicate TargetsKnown(env: Env) {
    forall e <- env.doc.Edges() :: e.to in env.nodes
  }

  /** The nodes that edges lead to are spelled without surrounding white space. */
  ghost predicate TargetsSpelledPlainly(d: Document) {
    forall n <- d.Nodes(), e <- d.Edges() :: Trim(n.id) == e.to ==> n.id == e.to
  }

  /** Validation trims node ids and the cursor does not, so moves are safe
      exactly when the nodes they lead to are spelled plainly. */
  lemma MovesSafeIffPlain(d: Document, lower: char -> char)
    requires Accepted(d)
    ensures TargetsKnown(EnvOf(d, lower)) <==> TargetsSpelledPlainly(d)
  {
    hide Trim, NodesById, IdsBefore;
    var ns, env := d.Nodes(), EnvOf(d, lower);
    if TargetsKnown(env) {
      forall n, e | n in ns && e in d.Edges() && Trim(n.id) == e.to ensures n.id == e.to {
        var i :| 0 <= i < |ns| && ns[i] == n;
        var j := NodeIsPublished(d, lower, e.to);
        TrimTwice(n.id);
        TrimmedIdsDiffer(ns, i, j);
      }
    }
    if TargetsSpelledPlainly(d) {
      forall e | e in d.Edges() ensures e.to in env.nodes {
        var k :| 0 <= k < |d.Edges()| && d.Edges()[k] == e;
        assert EdgeOk(e, TrimmedIds(ns));
        IdsBeforeHas(ns, |ns|, e.to);
        var i :| 0 <= i < |ns| && Trim(ns[i].id) == e.to;
        assert ns[i] in ns;
        NodesByIdHas(ns, |ns|, e.to);
      }
    }
  }

  /** No stray white space around any id. */
  predicate PlainIds(d: Document) {
    Trim(d.entryNodeId) == d.entryNodeId && forall n <- d.Nodes() :: Trim(n.id) == n.id
  }

  lemma PlainIdsAreSafe(d: Document, lower: char -> char)
    requires Accepted(d) && PlainIds(d)
    ensures TargetsKnown(EnvOf(d, lower)) && d.entryNodeId in EnvOf(d, lower).nodes
    ensures EnvOf(d, lower).nodes[d.entryNodeId].kind.Entry?
  {
    hide Trim, NodesById, IdsBefore, BindingsOk, PromptsOk, MatrixOk, TransfersOk, EdgesOk;
    MovesSafeIffPlain(d, lower);
    var ns := d.Nodes();
    var i :| 0 <= i < |ns| && Trim(ns[i].id) == Trim(d.entryNodeId) && ns[i].kind.Entry?;
    assert ns[i] in ns;
    NodesByIdHas(ns, |ns|, d.entryNodeId);
    var j := NodeIsPublished(d, lower, d.entryNodeId);
    TrimmedIdsDiffer(ns, i, j);
  }

  // ---------------------------------------------------------------- moves

  ghost predicate NotLost(r: Result<Turn, Err>) {
    r != Failure(UnknownNode)
  }

  /** On a known node, which is the entry or where the last edge led. */
  ghost predicate Located(env: Env, s: State) {
    && s.nodeId in env.nodes
    && ((s.lastEdge == NO_EDGE && s.nodeId == env.doc.entryNodeId) ||
        (s.lastEdge in env.doc.Edges() && s.lastEdge.to == s.nodeId))
  }

  lemma {:induction false} WalkNotLost(env: Env, s: State)
    requires TargetsKnown(env) && Located(env, s)
    ensures var r := FlowWalk.Walk(env, s); NotLost(r.1) && Located(env, r.0)
    decreases if Stops(WorldOf(env, s), s.nodeId) then Length(WorldOf(env, s), s.nodeId) else 0
  {
    var w := WorldOf(env, s);
    FollowNotLost(env, s.nodeId);
    hide Resolve, Answer, Follow;
    if NodeEffect(w, s.nodeId).Move? {
      LengthStep(w, s.nodeId);
      MoveSays(w, s.nodeId);
      if Stops(w, s.nodeId) { WalkNotLost(env, Moved(s, NodeEffect(w, s.nodeId).e)); }
      hide NodeEffect;
    }
  }

  lemma FollowNotLost(env: Env, id: string)
    requires TargetsKnown(env)
    ensures forall kind, line :: Follow(env, id, kind, line) != Fail(UnknownNode)
  {
    forall kind, line ensures Follow(env, id, kind, line) != Fail(UnknownNode) {
      SoleIsThere(OutEdges(env.doc.Edges(), id), kind);
    }
  }

  lemma DepartNotLost(env: Env, s: State, e: Edge)
    requires TargetsKnown(env) && e in env.doc.Edges()
    ensures var r := Depart(env, s, e); NotLost(r.1) && Located(env, r.0)
  {
    WalkNotLost(env, Moved(s, e));
    hide FlowWalk.Walk;
  }

  lemma UnclearNotLost(env: Env, s: State, n: Node)
    requires TargetsKnown(env) && Located(env, s)
    ensures var r := Unclear(env, s, n); NotLost(r.1) && Located(env, r.0)
  {
    var out := OutEdges(env.doc.Edges(), s.nodeId);
    SoleIsThere(out, RepairEdge);
    hide Depart, Resolve, Sole;
    if Sole(out, RepairEdge).Some? {
      DepartNotLost(env, s.(retries := s.retries[n.id := RetriesAt(s, n.id) + 1][n.id := 0]), Sole(out, RepairEdge).value);
    }
  }

  /** With known targets no call ever fails on an unknown node, and the cursor
      is always on a known one, by the edge it last took. */
  lemma CallNotLost(env: Env, s: State, c: Call)
    requires TargetsKnown(env) && Located(env, s)
    ensures var r := Do(env, s, c); Located(env, r.0) && (r.1.Some? ==> NotLost(r.1.value))
  {
    hide FlowWalk.Walk, Depart, Match, Unclear, EdgeLocale;
    match c
    case Bootstrap => WalkNotLost(env, s);
    case Utterance(text) =>
      if Listening(env, s.nodeId) {
        var n, out := env.nodes[s.nodeId], OutEdges(env.doc.Edges(), s.nodeId);
        var heard := s.(lastQuery := Trim(text));
        MatchIn(out, text, env.lower);
        if Match(out, text, env.lower) == None {
          UnclearNotLost(env, heard, n);
        } else {
          var e, s1 := Match(out, text, env.lower).value, heard.(retries := heard.retries[n.id := 0]);
          DepartNotLost(env, s1, e);
          DepartNotLost(env, s1.(locale := EdgeLocale(e), blockTool := true), e);
        }
      }
    case _ =>
  }

  /** So a cursor over an accepted document with plain ids is never lost. */
  lemma {:induction false} NeverLost(env: Env, s: State, calls: seq<Call>, c: Call)
    requires TargetsKnown(env) && Located(env, s)
    ensures
      var t := Run(env, s, calls);
      Located(env, t) && (Do(env, t, c).1.Some? ==> NotLost(Do(env, t, c).1.value))
    decreases |calls|
  {
    if calls == [] {
      CallNotLost(env, s, c);
    } else {
      CallNotLost(env, s, calls[0]);
      hide Do, NotLost;
      NeverLost(env, Do(env, s, calls[0]).0, calls[1..], c);
    }
  }

  // ---------------------------------------------------------------- transfers

  lemma {:induction false} FindRowHas(rows: seq<MatrixRow>, i: nat, intent: string)
    requires i <= |rows|
    ensures
      var r := FindRow(rows, i, intent);
      && (r.Some? ==> r.value in rows && Trim(r.value.intent) == intent)
      && (r == None ==> forall j :: i <= j < |rows| ==> Trim(rows[j].intent) != intent)
    decreases |rows| - i
  {
    hide Trim;
    if i < |rows| { FindRowHas(rows, i + 1, intent); }
  }

  /** What a transfer tool armed from a row carries. */
  predicate CarriesRow(t: ArmedTool, row: MatrixRow, n: Node) {
    && t.kind == ToolTransfer() && t.nodeId == n.id && t.intent == Trim(row.intent)
    && t.destination == Trim(row.number) != "" && t.owner == Trim(row.owner) != "" && t.target == Trim(row.target) != ""
    && t.dispositionCode == Trim(row.dispositionCode)
    && (t.dispositionCode == "" || ValidDispositionFinal(t.dispositionCode))
  }

  lemma ToolNames()
    ensures ToolTransfer() != ToolHangup()
  {
    assert ToolTransfer()[0] == 't' && ToolHangup()[0] == 'h';
  }

  /** The tool carries the one row of its intent. */
  ghost predicate CarriesOnlyRow(t: ArmedTool, rows: seq<MatrixRow>, intent: string, n: Node) {
    exists row <- rows ::
      && Trim(row.intent) == intent && CarriesRow(t, row, n)
      && forall other <- rows :: Trim(other.intent) == intent ==> other == row
  }

  lemma ArmIff(env: Env, s: State, n: Node)
    requires MatrixOk(env.doc.Matrix()) && IsTransfer(n) && !s.armed
    ensures
      var intent, rows := ActingIntent(n, s.lastEdge), env.doc.Matrix();
      && (Arm(env, s, n).Success? <==> intent in TrimmedIntents(rows))
      && (Arm(env, s, n).Success? ==> CarriesOnlyRow(Arm(env, s, n).value, rows, intent, n))
  {
    var rows, intent := env.doc.Matrix(), ActingIntent(n, s.lastEdge);
    ToolNames();
    FindRowHas(rows, 0, intent);
    IntentsBeforeHas(rows, |rows|, intent);
    IntentsBeforeHas(rows, |rows|, "");
    hide Trim, IntentsBefore, FindRow, ToolTransfer, ToolHangup, ValidDispositionFinal, ActingIntent;
    hide MatrixOk;
    if intent in TrimmedIntents(rows) {
      var row := RowFor(rows, intent);
      hide TrimmedIntents;
      ArmFrom(env, s, n, row);
      hide Arm, CarriesRow;
      assert CarriesOnlyRow(Arm(env, s, n).value, rows, intent, n);
    } else {
      hide TrimmedIntents;
      assert FindRow(rows, 0, intent) == None;
    }
  }

  /** A transfer with a row to act on. */
  lemma ArmFrom(env: Env, s: State, n: Node, row: MatrixRow)
    requires IsTransfer(n) && !s.armed && RowOk(row) && ActingIntent(n, s.lastEdge) == Trim(row.intent)
    requires FindRow(env.doc.Matrix(), 0, Trim(row.intent)) == Some(row)
    ensures Arm(env, s, n).Success? && CarriesRow(Arm(env, s, n).value, row, n)
  {
    ToolNames();
    hide Trim, FindRow, ToolTransfer, ToolHangup, ValidDispositionFinal, ActingIntent;
  }

  lemma WalkAtTool(env: Env, s: State)
    requires AtTool(env, s) && !s.blockTool && PromptsResolve(env)
    ensures
      var r, a := FlowWalk.Walk(env, s).1, Arm(env, s, env.nodes[s.nodeId]);
      (r.Success? <==> a.Success?) && (r.Success? ==> r.value.armed == Some(a.value))
  {
    assert StopsIn(WorldOf(env, s), s.nodeId, 0);
    hide Arm, Answer, Follow, Resolve;
  }

  /** On an accepted document an unarmed, unblocked transfer node arms exactly
      when the intent it acts on has a matrix row, and then carries that row,
      the only one of its intent. */
  lemma TransferArmsIff(d: Document, lower: char -> char, s: State)
    requires Accepted(d) && s.nodeId in EnvOf(d, lower).nodes && IsTransfer(EnvOf(d, lower).nodes[s.nodeId])
    requires !s.armed && !s.blockTool
    ensures
      var env := EnvOf(d, lower);
      var n, r := env.nodes[s.nodeId], FlowWalk.Walk(env, s).1;
      var intent := ActingIntent(n, s.lastEdge);
      && (r.Success? <==> intent in TrimmedIntents(d.Matrix()))
      && (r.Success? ==> r.value.armed.Some? && CarriesOnlyRow(r.value.armed.value, d.Matrix(), intent, n))
  {
    var env := EnvOf(d, lower);
    AcceptedPromptsResolve(d, lower);
    ArmIff(env, s, env.nodes[s.nodeId]);
    WalkAtTool(env, s);
    hide Trim, NodesById, Arm, FlowWalk.Walk, CarriesOnlyRow, PromptsResolve, Accepted;
  }

  /** A transfer node with an intent of its own arms with that intent's row. */
  lemma OwnIntentArms(d: Document, lower: char -> char, s: State)
    requires Accepted(d) && s.nodeId in EnvOf(d, lower).nodes && IsTransfer(EnvOf(d, lower).nodes[s.nodeId])
    requires Trim(EnvOf(d, lower).nodes[s.nodeId].matrixIntent) != "" && !s.armed && !s.blockTool
    ensures
      var n, r := EnvOf(d, lower).nodes[s.nodeId], FlowWalk.Walk(EnvOf(d, lower), s).1;
      && r.Success? && r.value.armed.Some?
      && CarriesOnlyRow(r.value.armed.value, d.Matrix(), Trim(n.matrixIntent), n)
  {
    TransferArmsIff(d, lower, s);
    var i := NodeIsPublished(d, lower, s.nodeId);
    OwnIntentInMatrix(d, i);
    hide FlowWalk.Walk, NodesById, Trim, Accepted, CarriesOnlyRow, IntentsBefore, TrimmedIntents;
  }

  lemma OwnIntentInMatrix(d: Document, i: nat)
    requires Accepted(d) && i < |d.Nodes()| && IsTransfer(d.Nodes()[i]) && Trim(d.Nodes()[i].matrixIntent) != ""
    ensures Trim(d.Nodes()[i].matrixIntent) in TrimmedIntents(d.Matrix())
  {
    hide Trim, NodesOk, EntryOk, BindingsOk, EdgesOk, PromptsOk, MatrixOk, IntentsBefore, ToolTransfer;
    assert PublishedIntent(d.Nodes()[i], d.Edges(), 0) == Trim(d.Nodes()[i].matrixIntent);
  }

  // ---------------------------------------------------------------- hangups

  /** On an accepted document an unarmed, unblocked node that hangs up always
      arms, with nothing to transfer to and the disposition of a completed call. */
  lemma HangupArms(d: Document, lower: char -> char, s: State)
    requires Accepted(d) && AtTool(EnvOf(d, lower), s) && !s.armed && !s.blockTool
    requires Trim(EnvOf(d, lower).nodes[s.nodeId].tool) == "hangup"
    ensures
      var r := FlowWalk.Walk(EnvOf(d, lower), s);
      && r.1.Success? && r.0 == s.(armed := true)
      && r.1.value.armed == Some(ArmedTool("hangup", "", "", "", "", "hangup_completed", s.nodeId))
  {
    var env := EnvOf(d, lower);
    AcceptedPromptsResolve(d, lower);
    hide Accepted, EnvOf;
    HangupArmed(env, s);
    hide PromptsResolve, KeyedById;
  }

  lemma HangupArmed(env: Env, s: State)
    requires AtTool(env, s) && !s.armed && !s.blockTool && PromptsResolve(env)
    requires Trim(env.nodes[s.nodeId].tool) == "hangup"
    ensures
      var r := FlowWalk.Walk(env, s);
      && r.1.Success? && r.0 == s.(armed := true)
      && r.1.value.armed == Some(ArmedTool("hangup", "", "", "", "", "hangup_completed", env.nodes[s.nodeId].id))
  {
    assert StopsIn(WorldOf(env, s), s.nodeId, 0);
    ToolNames();
    assert ToolHangup() == "hangup";
    hide Answer, Follow, Resolve, Trim, FindRow, ActingIntent, ToolTransfer, ToolHangup;
    assert Arm(env, s, env.nodes[s.nodeId]).Success?;
  }
}
