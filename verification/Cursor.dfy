/** The flow cursor of internal/runtime/graph/cursor.go: a mutable object whose
    every call does what the functions of FlowWalk say. */
module FlowCursor {
  import opened Wrappers
  import opened Text
  import opened Flow
  import opened FlowWalk
  import opened TurnLaws
  import opened HangLaws

  // ---------------------------------------------------------------- loops over edges

  method OutEdgesOf(es: seq<Edge>, from: string) returns (out: seq<Edge>)
    ensures out == OutEdges(es, from)
  {
    out := [];
    for i := 0 to |es|
      invariant out == OutEdges(es[..i], from)
    {
      assert es[..i + 1][..i] == es[..i];
      if es[i].from == from { out := out + [es[i]]; }
    }
    assert es[..|es|] == es;
  }

  /** soleNext and soleRepair: the only edge of a kind. */
  method SoleOf(es: seq<Edge>, kind: EdgeKind) returns (sole: Option<Edge>)
    ensures sole == Sole(es, kind)
  {
    var found: seq<Edge> := [];
    for i := 0 to |es|
      invariant found == OfKind(es[..i], kind)
    {
      assert es[..i + 1][..i] == es[..i];
      if es[i].kind == kind { found := found + [es[i]]; }
    }
    assert es[..|es|] == es;
    if |found| == 0 { return None; }
    if |found| > 1 { return None; }
    sole := Some(found[0]);
  }

  /** The best-fitting option or intent edge, the earliest on a tie. */
  method MatchChoice(es: seq<Edge>, utterance: string, lower: char -> char) returns (edge: Option<Edge>)
    ensures edge == Match(es, utterance, lower)
  {
    hide Normalize, KeyScore;
    var u := Normalize(utterance, lower);
    if u == "" { return None; }
    var best: Option<nat> := None;
    var bestScore := 0;
    for i := 0 to |es|
      invariant best == BestOf(u, es, i, lower)
      invariant bestScore == if best.Some? then Score(u, es[best.value], lower) else 0
      invariant best.Some? ==> bestScore > 0
    {
      var e := es[i];
      if e.kind.OptionEdge? || e.kind.IntentEdge? {
        var first := KeyScore(u, Normalize(e.intent, lower));
        if first > bestScore { bestScore, best := first, Some(i); }
        var second := KeyScore(u, Normalize(e.option, lower));
        if second > bestScore { bestScore, best := second, Some(i); }
      }
    }
    if bestScore == 0 { return None; }
    edge := Some(es[best.value]);
  }

  // ---------------------------------------------------------------- joining turns

  /** A turn, then the rest of it. */
  function Joined(out: Turn, t: Turn): Turn {
    t.(lines := out.lines + t.lines, taken := out.taken + t.taken, edgeId := if t.taken == [] then out.edgeId else t.edgeId)
  }

  ghost function Extend(out: Turn, r: (State, Result<Turn, Err>)): (State, Result<Turn, Err>) {
    (r.0, if r.1.Success? then Success(Joined(out, r.1.value)) else r.1)
  }

  function Added(out: Turn, e: Edge, line: string): Turn {
    out.(lines := out.lines + Said(line), taken := out.taken + [TakeOf(e)], edgeId := e.id)
  }

  lemma JoinPrepend(out: Turn, e: Edge, line: string, t: Turn)
    ensures Joined(out, Prepend(e, line, t)) == Joined(Added(out, e, line), t)
  {
    var a, b := Joined(out, Prepend(e, line, t)), Joined(Added(out, e, line), t);
    assert a.lines == b.lines && a.taken == b.taken;
  }

  /** mergeAdvance: the moves of a turn's first edge and of the walk after it. */
  function Merged(turn: Turn, rest: Turn): Turn {
    turn.(lines := rest.lines, ended := rest.ended, armed := rest.armed, nodeId := rest.nodeId,
    taken := turn.taken + rest.taken,
    edgeId := if turn.edgeId == "" then rest.edgeId else if rest.edgeId != "" then rest.edgeId else turn.edgeId)
  }

  function FirstMove(e: Edge): Turn {
    Quiet(e.to).(edgeId := e.id, taken := [TakeOf(e)])
  }

  ghost predicate EdgesNamed(env: Env) {
    forall e <- env.doc.Edges() :: e.id != ""
  }

  lemma {:induction false} PathEndsNamed(env: Env, from: string, taken: seq<Take>, to: string)
    requires EdgesNamed(env) && IsPath(env, from, taken, to) && taken != []
    ensures taken[|taken| - 1].edgeId != ""
    decreases |taken|
  {
    if |taken| > 1 { PathEndsNamed(env, taken[0].to, taken[1..], to); }
  }

  /** With named edges, merging is putting the first move in front. */
  lemma MergedIsPrepend(env: Env, s: State, e: Edge)
    requires EdgesNamed(env) && e in env.doc.Edges() && FlowWalk.Walk(env, s).1.Success?
    ensures var t := FlowWalk.Walk(env, s).1.value; Merged(FirstMove(e), t) == Prepend(e, "", t)
  {
    var r := FlowWalk.Walk(env, s);
    var t := r.1.value;
    WalkReports(env, s);
    WalkLocale(env, s);
    hide FlowWalk.Walk, Spoken, Resting;
    if t.taken != [] { PathEndsNamed(env, s.nodeId, t.taken, r.0.nodeId); }
    assert [TakeOf(e)] + t.taken == Prepend(e, "", t).taken && Said("") + t.lines == t.lines;
  }

  lemma {:induction false} BestIsFirst(u: string, es: seq<Edge>, k: nat, lower: char -> char)
    requires k <= |es|
    ensures
      var best := BestOf(u, es, k, lower);
      && (best == None ==> forall j :: 0 <= j < k ==> Score(u, es[j], lower) == 0)
      && (best.Some? ==>
            && Score(u, es[best.value], lower) > 0
            && (forall j :: 0 <= j < best.value ==> Score(u, es[j], lower) < Score(u, es[best.value], lower))
            && (forall j :: 0 <= j < k ==> Score(u, es[j], lower) <= Score(u, es[best.value], lower)))
  {
    hide Score;
    if k > 0 { BestIsFirst(u, es, k - 1, lower); }
  }

  /** An utterance matches the earliest of the edges that fit it best, and
      matches nothing exactly when it is blank or fits no edge at all. */
  lemma MatchIsFirstBest(es: seq<Edge>, utterance: string, lower: char -> char)
    ensures
      var u, m := Normalize(utterance, lower), Match(es, utterance, lower);
      && (m == None <==> u == "" || forall j :: 0 <= j < |es| ==> Score(u, es[j], lower) == 0)
      && (m.Some? ==> exists i ::
              && 0 <= i < |es| && es[i] == m.value && Score(u, es[i], lower) > 0
              && (forall j :: 0 <= j < i ==> Score(u, es[j], lower) < Score(u, es[i], lower))
              && (forall j :: 0 <= j < |es| ==> Score(u, es[j], lower) <= Score(u, es[i], lower)))
  {
    hide Score, Normalize, BestOf;
    BestIsFirst(Normalize(utterance, lower), es, |es|, lower);
  }

  /** One round of the walk. */
  lemma WalkStep(env: Env, s: State)
    requires Stops(WorldOf(env, s), s.nodeId)
    ensures
      var w := WorldOf(env, s);
      var effect := NodeEffect(w, s.nodeId);
      && (effect.Fail? ==> FlowWalk.Walk(env, s) == (s, Failure(effect.err)))
      && (effect.Halt? ==> s.nodeId in env.nodes && FlowWalk.Walk(env, s) == Land(env, s))
      && (effect.Move? ==>
            && Stops(w, effect.e.to) && Length(w, effect.e.to) < Length(w, s.nodeId)
            && FlowWalk.Walk(env, s) == Onward(effect.e, effect.line, FlowWalk.Walk(env, Moved(s, effect.e))))
  {
    var w := WorldOf(env, s);
    EffectNeverHangs(w, s.nodeId);
    hide NodeEffect, Land, Prepend;
    if NodeEffect(w, s.nodeId).Move? {
      assert Goes(w, s.nodeId).Some?;
      LengthStep(w, s.nodeId);
    }
  }

  predicate Automatic(kind: NodeKind) { kind.Entry? || kind.Speak? || kind.Inform? }

  function OwnText(w: World, n: Node): Option<string> {
    if n.kind.Speak? then Resolve(w.env, w.locale, n.promptRef)
    else if n.kind.Inform? then Answer(w, n)
    else Some("")
  }

  /** What a node does, by its kind and its text. */
  lemma EffectByKind(w: World, id: string)
    ensures
      var effect := NodeEffect(w, id);
      if id !in w.env.nodes then effect == Fail(UnknownNode)
      else
        var n := w.env.nodes[id];
        var text := OwnText(w, n);
        if n.kind.Decide? || n.kind.OtherNode? then effect == Fail(NotImplemented)
        else if !Automatic(n.kind) then effect == Halt
        else if text.Some? then effect == Follow(w.env, id, Next, text.value)
        else if n.kind.Inform? then effect == Follow(w.env, id, RepairEdge, "")
        else effect == Fail(NoPromptText)
  {
    hide Resolve, Answer, Sole, OutEdges;
  }

  lemma FollowsIn(env: Env, id: string, kind: EdgeKind, line: string)
    ensures
      var effect := Follow(env, id, kind, line);
      effect.Move? ==> effect.e in env.doc.Edges() && effect.e.from == id && effect.line == line
  {
    SoleIn(env.doc.Edges(), id, kind);
    hide Sole, OutEdges;
  }

  ghost function Onward(e: Edge, line: string, r: (State, Result<Turn, Err>)): (State, Result<Turn, Err>) {
    (r.0, if r.1.Success? then Success(Prepend(e, line, r.1.value)) else r.1)
  }

  lemma ExtendOnward(out: Turn, e: Edge, line: string, r: (State, Result<Turn, Err>))
    ensures Extend(out, Onward(e, line, r)) == Extend(Added(out, e, line), r)
  {
    if r.1.Success? { JoinPrepend(out, e, line, r.1.value); }
    hide Joined, Prepend, Added;
  }

  /** A walk is what is left of it, put after nothing. */
  lemma ExtendQuiet(env: Env, s: State)
    ensures Extend(Quiet(s.nodeId), FlowWalk.Walk(env, s)) == FlowWalk.Walk(env, s)
  {
    if FlowWalk.Walk(env, s).1.Success? {
      WalkReports(env, s);
      hide FlowWalk.Walk, Spoken, Resting, IsPath;
      var t := FlowWalk.Walk(env, s).1.value;
      assert [] + t.lines == t.lines && [] + t.taken == t.taken;
    }
  }

  lemma AcceptedNamesEdges(doc: Document, lower: char -> char)
    requires Accepted(doc)
    ensures EdgesNamed(EnvOf(doc, lower))
  {
  }

  // ---------------------------------------------------------------- the cursor

  class Cursor {
    const doc: Document
    const lower: char -> char
    const nodes: map<string, Node>
    var nodeID: string
    var lastEdge: Edge
    var locale: string
    var armed: bool
    var retries: map<string, nat>
    var blockTool: bool
    var lastQuery: string
    var lookup: Option<Lookup>

    ghost function E(): Env { Env(doc, nodes, lower) }

    ghost function St(): State
      reads this
    {
      State(nodeID, lastEdge, locale, armed, retries, blockTool, lastQuery, lookup)
    }

    ghost function W(): World
      reads this
    {
      WorldOf(E(), St())
    }

    /** A published document, and its nodes by raw id. */
    ghost predicate Published() {
      Accepted(doc) && E() == EnvOf(doc, lower)
    }

    ghost predicate Valid()
      reads this
    {
      Published() && !blockTool
    }

    constructor (doc: Document, locale: string, lower: char -> char)
      requires Accepted(doc)
      ensures Valid() && this.doc == doc && this.lower == lower && St() == Start(doc, locale)
    {
      var ns := doc.Nodes();
      var byId: map<string, Node> := map[];
      for i := 0 to |ns|
        invariant byId == NodesById(ns, i)
      {
        byId := byId[ns[i].id := ns[i]];
      }
      var loc := Trim(locale);
      if loc == "" { loc := doc.defaultLocale; }
      this.doc, this.lower, nodes := doc, lower, byId;
      nodeID, lastEdge, this.locale, armed, retries := doc.entryNodeId, NO_EDGE, loc, false, map[];
      blockTool, lastQuery, lookup := false, "", None;
    }

    /** Builds a cursor at the entry of a valid document. */
    static method New(doc: Option<Document>, locale: string, lower: char -> char) returns (r: Result<Cursor, Reason>)
      ensures r.Success? <==> doc.Some? && Accepted(doc.value)
      ensures r.Success? ==>
                && fresh(r.value) && r.value.Valid() && r.value.doc == doc.value && r.value.St() == Start(doc.value, locale)
                && r.value.nodeID == doc.value.entryNodeId && !r.value.armed && r.value.retries == map[]
                && r.value.locale == if Trim(locale) == "" then doc.value.defaultLocale else Trim(locale)
    {
      var fault := Validate(doc);
      if fault.Some? { return Failure(fault.value); }
      var c := new Cursor(doc.value, locale, lower);
      r := Success(c);
    }

    method CallSetLocale(locale: string)
      requires Valid()
      modifies this`locale
      ensures Valid() && St() == Do(E(), old(St()), SetLocale(locale)).0
      ensures this.locale == if Trim(locale) == "" then old(this.locale) else Trim(locale)
    {
      hide FlowWalk.Walk, Utter, Trim, Accepted, EnvOf;
      var s := Trim(locale);
      if s != "" { this.locale := s; }
    }

    method CallSetLookup(lookup: Option<Lookup>)
      requires Valid()
      modifies this`lookup
      ensures Valid() && St() == Do(E(), old(St()), SetLookup(lookup)).0
      ensures this.lookup == lookup
    {
      hide FlowWalk.Walk, Utter, Accepted, EnvOf;
      this.lookup := lookup;
    }

    method TakeEdge(e: Edge) returns (ok: bool)
      modifies this`nodeID, this`lastEdge
      ensures ok == (e.to in nodes)
      ensures St() == if ok then Moved(old(St()), e) else old(St())
    {
      if e.to !in nodes { return false; }
      lastEdge := e;
      nodeID := e.to;
      ok := true;
    }

    method ResolvePrompt(promptRef: string) returns (line: Option<string>)
      ensures line == Resolve(E(), locale, promptRef)
    {
      hide Trim, TextFor;
      var ref := Trim(promptRef);
      if ref == "" { return Some(""); }
      var texts := doc.Prompt(ref);
      if texts == None { return None; }
      var t := TextFor(texts.value, locale);
      if t != "" { return Some(t); }
      t := TextFor(texts.value, doc.defaultLocale);
      if t != "" { return Some(t); }
      line := None;
    }

    method ArmTool(n: Node) returns (r: Result<ArmedTool, Err>)
      modifies this`armed
      ensures r == Arm(E(), old(St()), n)
      ensures St() == if r.Success? then old(St()).(armed := true) else old(St())
    {
      hide Trim, ToolHangup, ToolTransfer;
      if armed { return Failure(AlreadyArmed); }
      var tool := Trim(n.tool);
      if tool == ToolHangup() {
        armed := true;
        return Success(ArmedTool(ToolHangup(), "", "", "", "", "hangup_completed", n.id));
      }
      if tool != ToolTransfer() { return Failure(UnknownTool); }
      var intent := Trim(n.matrixIntent);
      if intent == "" { intent := Trim(lastEdge.matrixIntent); }
      if intent == "" { return Failure(NoIntent); }
      var row := RowOf(doc.Matrix(), intent);
      if row == None { return Failure(IntentNotInMatrix); }
      var num := Trim(row.value.number);
      if num == "" { return Failure(NoNumber); }
      armed := true;
      r := Success(ArmedTool(ToolTransfer(), num, Trim(row.value.owner), Trim(row.value.target), intent,
                             Trim(row.value.dispositionCode), n.id));
    }

    static method RowOf(rows: seq<MatrixRow>, intent: string) returns (row: Option<MatrixRow>)
      ensures row == FindRow(rows, 0, intent)
    {
      hide Trim;
      for i := 0 to |rows|
        invariant FindRow(rows, i, intent) == FindRow(rows, 0, intent)
      {
        if Trim(rows[i].intent) == intent { return Some(rows[i]); }
      }
      row := None;
    }

    // -------------------------------------------------------------- walking

    /** Takes the only edge of a kind out of the current node. */
    method TakeSole(kind: EdgeKind) returns (r: Result<Edge, Err>)
      modifies this`nodeID, this`lastEdge
      ensures St() == if r.Success? then Moved(old(St()), r.value) else old(St())
      ensures forall line ::
                Follow(E(), old(nodeID), kind, line) == (if r.Success? then Move(r.value, line) else Fail(r.error))
    {
      hide Sole, OutEdges;
      var out := OutEdgesOf(doc.Edges(), nodeID);
      var sole := SoleOf(out, kind);
      if sole == None { return Failure(NoSoleEdge); }
      var ok := TakeEdge(sole.value);
      r := if ok then Success(sole.value) else Failure(UnknownNode);
    }

    /** A node that waits, ends or acts. */
    method Arrive(n: Node) returns (r: Result<Turn, Err>)
      requires nodeID in nodes && n == nodes[nodeID]
      modifies this`armed
      ensures (St(), r) == Land(E(), old(St()))
    {
      hide Arm, Resolve;
      if n.kind.End? { return Success(Quiet(nodeID).(ended := true)); }
      if !n.kind.Tool? { return Success(Quiet(nodeID)); }
      if blockTool { return Failure(ToolBlocked); }
      var tool := ArmTool(n);
      if tool.Failure? { return Failure(tool.error); }
      var line := ResolvePrompt(n.promptRef);
      if line == None { return Failure(NoPromptText); }
      r := Success(Quiet(nodeID).(lines := Said(line.value), armed := Some(tool.value)));
    }

    /** What an automatic node says, or nothing when its text is missing: an
        Inform node asks the lookup. */
    method LineOf(n: Node) returns (line: Option<string>)
      requires Automatic(n.kind)
      ensures line == OwnText(W(), n)
    {
      hide Resolve;
      if n.kind.Entry? { return Some(""); }
      if n.kind.Speak? {
        line := ResolvePrompt(n.promptRef);
        return line;
      }
      var ref := Trim(n.bindingRef);
      if ref == "" || lookup == None { return None; }
      line := lookup.value(ref, lastQuery, locale);
    }

    /** Walks on until a node that waits, ends or acts. */
    method AdvanceSilent() returns (r: Result<Turn, Err>)
      requires Published() && Stops(W(), nodeID)
      modifies this`nodeID, this`lastEdge, this`armed
      ensures (St(), r) == FlowWalk.Walk(E(), old(St()))
      decreases Length(W(), nodeID), 1
    {
      hide FlowWalk.Walk, NodeEffect, Land, Stops, Joined, Added, Accepted, EnvOf, Follow, OwnText;
      var out := Quiet(nodeID);
      ExtendQuiet(E(), St());
      while true
        invariant Stops(W(), nodeID) && Length(W(), nodeID) <= old(Length(W(), nodeID))
        invariant OnlyMoved(old(St()), St())
        invariant FlowWalk.Walk(E(), old(St())) == Extend(out, FlowWalk.Walk(E(), St()))
        decreases Length(W(), nodeID)
      {
        WalkStep(E(), St());
        EffectByKind(W(), nodeID);
        if nodeID !in nodes { return Failure(UnknownNode); }
        var n := nodes[nodeID];
        if n.kind.Decide? || n.kind.OtherNode? { return Failure(NotImplemented); }
        if !Automatic(n.kind) {
          var last := Arrive(n);
          return if last.Success? then Success(Joined(out, last.value)) else last;
        }
        var line := LineOf(n);
        if line == None && n.kind.Inform? {
          var rest := FailInform(n);
          return if rest.Success? then Success(Joined(out, rest.value)) else rest;
        }
        if line == None { return Failure(NoPromptText); }
        var e := TakeSole(Next);
        if e.Failure? { return Failure(e.error); }
        ExtendOnward(out, e.value, line.value, FlowWalk.Walk(E(), St()));
        out := Added(out, e.value, line.value);
      }
    }

    /** Leaves an Inform node without an answer by its repair edge. */
    method FailInform(n: Node) returns (r: Result<Turn, Err>)
      requires Published() && Stops(W(), nodeID) && nodeID in nodes && n == nodes[nodeID]
      requires n.kind.Inform? && OwnText(W(), n) == None
      modifies this`nodeID, this`lastEdge, this`armed
      ensures (St(), r) == FlowWalk.Walk(E(), old(St()))
      decreases Length(W(), nodeID), 0
    {
      hide FlowWalk.Walk, NodeEffect, Stops, Merged, Accepted, EnvOf, OwnText;
      WalkStep(E(), St());
      EffectByKind(W(), nodeID);
      FollowsIn(E(), nodeID, RepairEdge, "");
      hide Follow;
      var e := TakeSole(RepairEdge);
      if e.Failure? { return Failure(e.error); }
      ghost var s := St();
      r := AdvanceSilent();
      if r.Success? {
        AcceptedNamesEdges(doc, lower);
        MergedIsPrepend(E(), s, e.value);
        r := Success(Merged(FirstMove(e.value), r.value));
      }
    }

    // -------------------------------------------------------------- calls

    /** Walks from where the cursor stands. */
    method Bootstrap() returns (r: Result<Turn, Err>)
      requires Valid() && FlowWalk.Walk(E(), St()).1 != Failure(Hangs)
      modifies this`nodeID, this`lastEdge, this`armed
      ensures Valid() && (St(), Some(r)) == Do(E(), old(St()), Call.Bootstrap)
    {
      HangsIff(E(), St());
      hide FlowWalk.Walk, Stops;
      r := AdvanceSilent();
    }

    /** Takes an edge the caller chose, and walks on. */
    method Leave(e: Edge) returns (r: Result<Turn, Err>)
      requires Published() && e in doc.Edges() && Depart(E(), St(), e).1 != Failure(Hangs)
      modifies this`nodeID, this`lastEdge, this`armed
      ensures (St(), r) == Depart(E(), old(St()), e)
    {
      hide FlowWalk.Walk, Stops, Merged, Accepted, EnvOf;
      var ok := TakeEdge(e);
      if !ok { return Failure(UnknownNode); }
      ghost var s := St();
      HangsIff(E(), s);
      r := AdvanceSilent();
      if r.Success? {
        AcceptedNamesEdges(doc, lower);
        MergedIsPrepend(E(), s, e);
        r := Success(Merged(FirstMove(e), r.value));
      }
    }

    /** Asks again while the node's policy allows it, then takes its repair edge. */
    method RepairTurn(n: Node) returns (r: Result<Turn, Err>)
      requires Published() && nodeID in nodes && n == nodes[nodeID] && Unclear(E(), St(), n).1 != Failure(Hangs)
      modifies this`nodeID, this`lastEdge, this`armed, this`retries
      ensures (St(), r) == Unclear(E(), old(St()), n)
    {
      hide FlowWalk.Walk, Depart, Resolve, Trim, Accepted, EnvOf;
      if n.repair.BadRepair? { return Failure(MalformedRepair); }
      if n.repair.NoRepair? { return Success(Quiet(nodeID).(noMatch := true)); }
      var count := 1;
      if n.id in retries { count := retries[n.id] + 1; }
      retries := retries[n.id := count];
      if count <= n.repair.MaxRetries() {
        r := AskAgain(n);
        return r;
      }
      var out := OutEdgesOf(doc.Edges(), nodeID);
      var sole := SoleOf(out, RepairEdge);
      if sole == None { return Failure(NoSoleEdge); }
      SoleIn(doc.Edges(), nodeID, RepairEdge);
      hide Sole, OutEdges;
      retries := retries[n.id := 0];
      r := Leave(sole.value);
    }

    /** The policy's own words for an unclear utterance, else the node's prompt. */
    method AskAgain(n: Node) returns (r: Result<Turn, Err>)
      requires n.repair.Policy?
      ensures
        var ref := if Trim(n.repair.unclearPromptRef) != "" then Trim(n.repair.unclearPromptRef) else Trim(n.promptRef);
        var line := Resolve(E(), locale, ref);
        r == if line == None then Failure(NoPromptText)
        else Success(Quiet(nodeID).(repair := true, lines := Said(line.value)))
    {
      hide Trim, Resolve;
      var ref := Trim(n.repair.unclearPromptRef);
      if ref == "" { ref := Trim(n.promptRef); }
      var line := ResolvePrompt(ref);
      if line == None { return Failure(NoPromptText); }
      r := Success(Quiet(nodeID).(repair := true, lines := Said(line.value)));
    }

    /** A language edge: speaks its locale from now on, and reaches no tool. */
    method SwitchBy(e: Edge) returns (r: Result<Turn, Err>)
      requires Valid() && e in doc.Edges() && Switch(E(), St(), e).1 != Failure(Hangs)
      modifies this`nodeID, this`lastEdge, this`armed, this`locale, this`blockTool
      ensures Valid() && (St(), r) == Switch(E(), old(St()), e)
    {
      hide FlowWalk.Walk, Stops, Merged, EdgeLocale, Accepted, EnvOf;
      var tag := LocaleOf(e);
      if tag == "" { return Failure(NoLocale); }
      locale := tag;
      var ok := TakeEdge(e);
      if !ok { return Failure(UnknownNode); }
      blockTool := true;
      ghost var s := St();
      HangsIff(E(), s);
      r := AdvanceSilent();
      blockTool := false;
      if r.Success? {
        AcceptedNamesEdges(doc, lower);
        MergedIsPrepend(E(), s, e);
        r := Success(Merged(FirstMove(e), r.value).(locale := tag));
      }
    }

    /** The locale of a language edge: a tag if it has one, by intent first. */
    static method LocaleOf(e: Edge) returns (tag: string)
      ensures tag == EdgeLocale(e)
    {
      hide Trim, LooksLikeLocaleTag;
      var intent, option := Trim(e.intent), Trim(e.option);
      if LooksLikeLocaleTag(intent) { return intent; }
      if LooksLikeLocaleTag(option) { return option; }
      tag := if intent != "" then intent else option;
    }

    /** Hears an utterance at a listen node. */
    method HandleUtterance(text: string) returns (r: Result<Turn, Err>)
      requires Valid() && Utter(E(), St(), text).1 != Failure(Hangs)
      modifies this
      ensures Valid() && (St(), Some(r)) == Do(E(), old(St()), Utterance(text))
    {
      hide FlowWalk.Walk, Depart, Switch, Unclear, Match, Trim, Accepted, EnvOf;
      if nodeID !in nodes { return Failure(UnknownNode); }
      var n := nodes[nodeID];
      if !n.kind.ListenChoice? && !n.kind.ListenLanguage? { return Failure(NotListening); }
      lastQuery := Trim(text);
      var out := OutEdgesOf(doc.Edges(), nodeID);
      var edge := MatchChoice(out, text, lower);
      MatchIn(out, text, lower);
      hide OutEdges;
      if edge == None {
        r := RepairTurn(n);
        return r;
      }
      retries := retries[n.id := 0];
      if n.kind.ListenChoice? {
        r := Leave(edge.value);
      } else {
        r := SwitchBy(edge.value);
      }
    }
  }
}
