/** What holds of every cursor opened on a published document, and three small
    documents that validation accepts and a cursor cannot walk. */
module PublishedLaws {
  import opened Wrappers
  import opened Text
  import opened Flow
  import opened FlowWalk
  import opened RunLaws
  import opened SafetyLaws
  import opened HangLaws
  import opened ChoiceLaws

  /** From the start of any accepted document and over any calls: unclear
      utterances are counted only where the cursor listens and within the
      policy's maximum, at most one turn arms a tool, the cursor is armed exactly
      when one has, and from then on it rests there. */
  lemma ReachableStates(d: Document, lower: char -> char, locale: string, calls: seq<Call>)
    requires Accepted(d)
    ensures
      var env, s := EnvOf(d, lower), Start(d, locale);
      var t, arms := Run(env, s, calls), ArmedTurns(env, s, calls);
      && RetriesOk(env, t) && arms <= 1 && (t.armed <==> arms == 1) && (t.armed ==> AtTool(env, t))
      && (t.armed ==> forall c: Call :: Finished(t, Do(env, t, c)))
  {
    var env, s := EnvOf(d, lower), Start(d, locale);
    AcceptedPromptsResolve(d, lower);
    NoRetriesOk(env, s);
    hide Accepted, EnvOf, RetriesOk, PromptsResolve, KeyedById, AtTool, Run, ArmedTurns;
    RunKeepsRetries(env, s, calls);
    OneArmPerRun(env, s, calls);
    var t := Run(env, s, calls);
    if t.armed {
      NotBlocked(env, t);
      forall c: Call ensures Finished(t, Do(env, t, c)) { ArmedIsFinal(env, t, c); }
    }
  }

  /** A call that moved nothing and, if it was to take a turn, failed. */
  ghost predicate Finished(t: State, r: (State, Option<Result<Turn, Err>>)) {
    r.0.armed && r.0.nodeId == t.nodeId && (r.1.Some? ==> r.1.value.Failure?)
  }

  lemma NotBlocked(env: Env, s: State)
    requires RetriesOk(env, s)
    ensures !s.blockTool
  {
  }

  /** With plainly spelled ids no call of any run ever fails on an unknown node. */
  lemma PublishedNeverLost(d: Document, lower: char -> char, locale: string, calls: seq<Call>, c: Call)
    requires Accepted(d) && PlainIds(d)
    ensures
      var env := EnvOf(d, lower);
      var t := Run(env, Start(d, locale), calls);
      Located(env, t) && (Do(env, t, c).1.Some? ==> NotLost(Do(env, t, c).1.value))
  {
    PlainIdsAreSafe(d, lower);
    hide Accepted, PlainIds, TargetsKnown, Do, Run;
    NeverLost(EnvOf(d, lower), Start(d, locale), calls, c);
  }

  // ---------------------------------------------------------------- asking again

  /** On an accepted document an unclear utterance below the maximum is counted,
      and asks again without moving, exactly when its policy names no words of its
      own or those have a text; validation does not look at them. */
  lemma AsksAgainIff(d: Document, lower: char -> char, s: State, text: string)
    requires Accepted(d)
    requires
      var env := EnvOf(d, lower);
      && Listening(env, s.nodeId) && IsUnclear(env, s.nodeId, text) && env.nodes[s.nodeId].repair.Policy?
      && RetriesAt(s, s.nodeId) < env.nodes[s.nodeId].repair.MaxRetries()
    ensures
      var env := EnvOf(d, lower);
      var n, r := env.nodes[s.nodeId], Utter(env, s, text);
      var own := n.repair.unclearPromptRef;
      var words := Resolve(env, s.locale, if Trim(own) == "" then n.promptRef else own);
      && r.0 == Counted(s, text)
      && (r.1.Success? <==> Trim(own) == "" || words.Some?)
      && (r.1.Success? ==> AsksAgain(r.1.value, s.nodeId, words.value))
  {
    var env := EnvOf(d, lower);
    AcceptedPromptsResolve(d, lower);
    assert Resolve(env, s.locale, env.nodes[s.nodeId].promptRef).Some?;
    hide Accepted, EnvOf, Utter, PromptsResolve, Resolve, Trim;
    AskAgainIn(env, s, text, env.nodes[s.nodeId]);
  }

  lemma AskAgainIn(env: Env, s: State, text: string, n: Node)
    requires Listening(env, s.nodeId) && n == env.nodes[s.nodeId] && n.id == s.nodeId && IsUnclear(env, n.id, text)
    requires n.repair.Policy? && RetriesAt(s, n.id) < n.repair.MaxRetries()
    ensures
      var r, own := Utter(env, s, text), n.repair.unclearPromptRef;
      var words := Resolve(env, s.locale, if Trim(own) == "" then n.promptRef else own);
      && r.0 == Counted(s, text)
      && (r.1.Success? <==> words.Some?)
      && (r.1.Success? ==> AsksAgain(r.1.value, s.nodeId, words.value))
  {
    UtterUnclear(env, s, text, n);
    UnclearBelow(env, s.(lastQuery := Trim(text)), n);
    hide Utter, Unclear, Resolve, Trim, AsksAgain;
  }

  lemma UtterUnclear(env: Env, s: State, text: string, n: Node)
    requires Listening(env, s.nodeId) && n == env.nodes[s.nodeId] && IsUnclear(env, s.nodeId, text)
    ensures Utter(env, s, text) == Unclear(env, s.(lastQuery := Trim(text)), n)
  {
    hide Unclear, Depart, Switch, Match, Trim, OutEdges;
  }

  lemma UnclearBelow(env: Env, s: State, n: Node)
    requires n.id == s.nodeId && n.repair.Policy? && RetriesAt(s, n.id) < n.repair.MaxRetries()
    ensures
      var r, own := Unclear(env, s, n), n.repair.unclearPromptRef;
      var words := Resolve(env, s.locale, if Trim(own) == "" then n.promptRef else own);
      && r.0 == s.(retries := s.retries[s.nodeId := RetriesAt(s, s.nodeId) + 1])
      && (r.1.Success? <==> words.Some?)
      && (r.1.Success? ==> AsksAgain(r.1.value, s.nodeId, words.value))
  {
    var own := n.repair.unclearPromptRef;
    ResolveTrimmed(env, s.locale, own);
    ResolveTrimmed(env, s.locale, n.promptRef);
    var s1 := s.(retries := s.retries[n.id := RetriesAt(s, n.id) + 1]);
    var line := Resolve(env, s.locale, if Trim(own) != "" then Trim(own) else Trim(n.promptRef));
    hide Trim, Depart, OutEdges, Sole, Resolve;
    assert RetriesAt(s1, n.id) <= n.repair.MaxRetries();
    assert Unclear(env, s, n) == (s1, if line == None then Failure(NoPromptText)
                                  else Success(Quiet(s.nodeId).(repair := true, lines := Said(line.value))));
    hide Unclear;
  }

  lemma ResolveTrimmed(env: Env, locale: string, ref: string)
    ensures Resolve(env, locale, Trim(ref)) == Resolve(env, locale, ref)
  {
    TrimTwice(ref);
    hide Trim, TextFor;
  }

  /** The state after one more unclear utterance. */
  function Counted(s: State, text: string): State {
    s.(lastQuery := Trim(text), retries := s.retries[s.nodeId := RetriesAt(s, s.nodeId) + 1])
  }

  /** A turn that asks again in some words, and does nothing else. */
  predicate AsksAgain(t: Turn, at: string, words: string) {
    && t.repair && !t.noMatch && !t.ended && t.armed == None && t.taken == [] && t.nodeId == at
    && t.lines == Said(words)
  }

  // ---------------------------------------------------------------- accepted, but not walkable

  function A(): string { "a" }
  function B(): string { "b" }
  function SpacedA(): string { " a" }
  function SpacedB(): string { " b" }

  lemma TwoIds()
    ensures A() != B()
  {
  }

  lemma Letters()
    ensures Trim(A()) == A() && Trim(B()) == Trim(SpacedB()) == B() && Trim("") == ""
    ensures Trim(SpacedA()) == A() && SpacedA() != A() && SpacedA() != B()
    ensures A() != B() && A() != SpacedB() && B() != SpacedB() && A() != "" && B() != ""
    ensures Trim(ToolTransfer()) == ToolTransfer() != ToolHangup()
  {
    TrimClean(A());
    TrimClean(B());
    assert TrimLeft(" a") == TrimLeft(" a"[1..]) == TrimLeft("a");
    assert TrimLeft(" b") == TrimLeft(" b"[1..]) == TrimLeft("b");
    TrimClean(ToolTransfer());
    ToolNames();
  }

  function PlainNode(id: string, kind: NodeKind): Node {
    Node(id, kind, "", "", "", NoRepair, "")
  }

  function Transfer(): Node {
    PlainNode(B(), Tool).(tool := ToolTransfer())
  }

  function PlainEdge(from: string, to: string): Edge {
    Edge(from, from, to, Next, "", "", "")
  }

  /** An entry leading on to one other node. */
  function Small(n: Node, e: Edge, matrix: seq<MatrixRow>): Document {
    Document(SchemaId(), A(), A(), Some([PlainNode(A(), Entry), n]), Some([PlainEdge(A(), B()), e]), Some(map[]),
             Some(matrix), Some([]))
  }

  /** The other node speaks, and leads back to itself. */
  function Looping(): Document { Small(PlainNode(B(), Speak), PlainEdge(B(), B()), []) }

  /** The other node is a transfer whose intent stands on an edge that leaves it. */
  function Outgoing(): Document {
    Small(Transfer(), PlainEdge(B(), A()).(matrixIntent := B()), [MatrixRow(B(), B(), B(), B(), ToolTransfer(), "")])
  }

  /** The id of the other node has white space in front. */
  function Spaced(): Document { Small(PlainNode(SpacedB(), End), PlainEdge(B(), A()), []) }

  lemma SmallNodesOk(n: Node, e: Edge, rows: seq<MatrixRow>)
    requires Trim(n.id) == B() && NodeFieldsOk(n) && !n.kind.Entry? && !n.kind.Inform? && n.promptRef == ""
    ensures
      var d := Small(n, e, rows);
      && HasEnvelope(d) && NodesOk(d.Nodes()) && EntryOk(d) && BindingsOk(d) && PromptsOk(d)
      && TrimmedIds(d.Nodes()) == {A(), B()}
  {
    Letters();
    var ns := [PlainNode(A(), Entry), n];
    assert NodeFieldsOk(ns[0]);
    hide Trim, NodeFieldsOk, A, B;
    assert IdsBefore(ns, 0) == {} && IdsBefore(ns, 1) == {A()} && IdsBefore(ns, 2) == {A(), B()};
    assert Entries(ns, 1) == 1 && Entries(ns, 2) == 1;
  }

  lemma SmallAccepted(n: Node, e: Edge, rows: seq<MatrixRow>)
    requires Trim(n.id) == B() && NodeFieldsOk(n) && !n.kind.Entry? && !n.kind.Inform? && n.promptRef == ""
    requires EdgeOk(e, {A(), B()}) && MatrixOk(rows)
    requires IsTransfer(n) ==> PublishedIntent(n, [PlainEdge(A(), B()), e], 0) in TrimmedIntents(rows)
    ensures Accepted(Small(n, e, rows))
  {
    SmallNodesOk(n, e, rows);
    Letters();
    hide Trim, A, B, NodesOk, EntryOk, BindingsOk, PromptsOk, HasEnvelope, MatrixOk, IdsBefore, TrimmedIds, IntentsBefore,
      ToolTransfer, PublishedIntent;
  }

  /** The first step of a cursor on one of them. */
  lemma FirstStep(n: Node, e: Edge, rows: seq<MatrixRow>, lower: char -> char, locale: string)
    requires n.id != A() && e.from != A()
    ensures
      var env, s := EnvOf(Small(n, e, rows), lower), Start(Small(n, e, rows), locale);
      && env.nodes == map[A() := PlainNode(A(), Entry), n.id := n]
      && NodeEffect(WorldOf(env, s), A()) == (if n.id == B() then Move(PlainEdge(A(), B()), "") else Fail(UnknownNode))
      && s.nodeId == A() && !s.armed && !s.blockTool
  {
    TwoIds();
    hide A, B;
    var d := Small(n, e, rows);
    var ns := d.Nodes();
    assert NodesById(ns, 0) == map[] && NodesById(ns, 1) == map[A() := ns[0]];
    OnlyOut(d.Edges(), 0);
    hide Trim, OutEdges, Sole;
  }

  /** Of two edges from different nodes, one leaves either. */
  lemma OnlyOut(es: seq<Edge>, k: nat)
    requires |es| == 2 && k < 2 && es[0].from != es[1].from && es[k].kind == Next
    ensures Sole(OutEdges(es, es[k].from), Next) == Some(es[k])
  {
    var id, e := es[k].from, es[k];
    assert es[..1] == [es[0]];
    assert OutEdges(es[..0], id) == [] && OutEdges(es[..1], id) == if k == 0 then [e] else [];
    assert OutEdges(es, id) == [e] && [e][..0] == [] && OfKind([], Next) == [] && OfKind([e], Next) == [e];
  }

  /** Validation lets a loop through: its first call never returns. */
  lemma LoopingHangs(lower: char -> char, locale: string)
    ensures Accepted(Looping())
    ensures FlowWalk.Walk(EnvOf(Looping(), lower), Start(Looping(), locale)).1 == Failure(Hangs)
  {
    var d, n, e := Looping(), PlainNode(B(), Speak), PlainEdge(B(), B());
    var env, s := EnvOf(d, lower), Start(d, locale);
    var w := WorldOf(env, s);
    Letters();
    hide A, B, Trim;
    SmallAccepted(n, e, []);
    hide Accepted;
    FirstStep(n, e, [], lower, locale);
    OnlyOut(d.Edges(), 1);
    hide EnvOf, Start, OutEdges, Sole;
    SpeaksInPlace(w, e);
    assert Goes(w, A()) == Some(B());
    hide NodeEffect, Goes, Small;
    LengthStep(w, B());
    LengthStep(w, A());
    HangsIff(env, s);
  }

  lemma SpeaksInPlace(w: World, e: Edge)
    requires e.to == e.from && e.from in w.env.nodes && w.env.nodes[e.from] == PlainNode(e.from, Speak)
    requires Sole(OutEdges(w.env.doc.Edges(), e.from), Next) == Some(e) && Trim("") == ""
    ensures Goes(w, e.from) == Some(e.from)
  {
    hide Sole, OutEdges, Trim;
  }

  /** And a transfer whose intent is on the wrong side: its tool cannot be armed. */
  lemma OutgoingFails(lower: char -> char, locale: string)
    ensures Accepted(Outgoing())
    ensures FlowWalk.Walk(EnvOf(Outgoing(), lower), Start(Outgoing(), locale)).1 == Failure(NoIntent)
  {
    OutgoingAccepted();
    hide Accepted;
    var d, n, e := Outgoing(), Transfer(), PlainEdge(B(), A()).(matrixIntent := B());
    var env, s := EnvOf(d, lower), Start(d, locale);
    var w, at := WorldOf(env, s), Moved(s, PlainEdge(A(), B()));
    Letters();
    hide A, B, Trim;
    FirstStep(n, e, d.Matrix(), lower, locale);
    hide EnvOf, Start, Follow, Resolve, ToolTransfer, ToolHangup;
    TransferFails(env, at, n);
    assert Goes(w, A()) == Some(B());
    hide NodeEffect;
    LengthStep(w, A());
  }

  lemma TransferFails(env: Env, s: State, n: Node)
    requires s.nodeId in env.nodes && n == env.nodes[s.nodeId] && IsTransfer(n) && !s.armed && !s.blockTool
    requires ActingIntent(n, s.lastEdge) == ""
    ensures FlowWalk.Walk(env, s) == (s, Failure(NoIntent)) && Stops(WorldOf(env, s), s.nodeId)
  {
    ToolNames();
    hide Follow, Resolve, ToolTransfer, ToolHangup, Trim, ActingIntent, Answer;
    assert StopsIn(WorldOf(env, s), s.nodeId, 0);
  }

  lemma OutgoingAccepted()
    ensures Accepted(Outgoing())
  {
    var n, e, rows := Transfer(), PlainEdge(B(), A()).(matrixIntent := B()), Outgoing().Matrix();
    Letters();
    hide A, B, Trim, ToolTransfer, ToolHangup;
    assert IntentsBefore(rows, 0) == {} && IntentsBefore(rows, 1) == {B()};
    var es := [PlainEdge(A(), B()), e];
    assert PublishedIntent(n, es, 1) == B();
    assert PublishedIntent(n, es, 0) == B();
    SmallAccepted(n, e, rows);
  }

  /** And white space around an id: the first move finds no node. */
  lemma SpacedFails(lower: char -> char, locale: string)
    ensures Accepted(Spaced())
    ensures FlowWalk.Walk(EnvOf(Spaced(), lower), Start(Spaced(), locale)).1 == Failure(UnknownNode)
  {
    var d, n, e := Spaced(), PlainNode(SpacedB(), End), PlainEdge(B(), A());
    var w := WorldOf(EnvOf(d, lower), Start(d, locale));
    Letters();
    hide A, B, SpacedB, Trim;
    SmallAccepted(n, e, []);
    hide Accepted;
    FirstStep(n, e, [], lower, locale);
    hide EnvOf, Start, NodeEffect;
    assert StopsIn(w, A(), 0);
  }

  /** The entry id has white space in front. */
  function SpacedEntry(): Document {
    Small(PlainNode(B(), End), PlainEdge(B(), A()), []).(entryNodeId := SpacedA())
  }

  /** Around the entry id too: the cursor does not even find its start. */
  lemma SpacedEntryFails(lower: char -> char, locale: string)
    ensures Accepted(SpacedEntry())
    ensures FlowWalk.Walk(EnvOf(SpacedEntry(), lower), Start(SpacedEntry(), locale)).1 == Failure(UnknownNode)
  {
    var n, e := PlainNode(B(), End), PlainEdge(B(), A());
    var env, s := EnvOf(SpacedEntry(), lower), Start(SpacedEntry(), locale);
    SpacedEntryAccepted();
    Letters();
    hide A, B, SpacedA, SpacedB, Accepted;
    FirstStep(n, e, [], lower, locale);
    assert env.nodes == map[A() := PlainNode(A(), Entry), B() := n];
    hide EnvOf;
    UnknownFails(env, s);
    hide FlowWalk.Walk;
  }

  lemma UnknownFails(env: Env, s: State)
    requires s.nodeId !in env.nodes
    ensures FlowWalk.Walk(env, s).1 == Failure(UnknownNode)
  {
    assert StopsIn(WorldOf(env, s), s.nodeId, 0);
  }

  lemma SpacedEntryAccepted()
    ensures Accepted(SpacedEntry())
  {
    var n, e := PlainNode(B(), End), PlainEdge(B(), A());
    Letters();
    hide A, B, SpacedA, SpacedB, Trim;
    SmallAccepted(n, e, []);
    hide NodesOk, BindingsOk, PromptsOk, EdgesOk, MatrixOk, TransfersOk, Entries, ToolTransfer, ToolHangup;
  }

  /** The other node listens, and asks again in words that are not there. */
  function Wordless(): Document {
    Small(PlainNode(B(), ListenChoice).(repair := Policy(None, B())), PlainEdge(B(), A()), [])
  }

  /** A policy's words are not looked at: the first unclear utterance fails. */
  lemma WordlessFails(lower: char -> char, s: State)
    requires s.nodeId == B() && s.retries == map[]
    ensures Accepted(Wordless())
    ensures Utter(EnvOf(Wordless(), lower), s, "").1 == Failure(NoPromptText)
  {
    var d, n, e := Wordless(), PlainNode(B(), ListenChoice).(repair := Policy(None, B())), PlainEdge(B(), A());
    var env := EnvOf(d, lower);
    Letters();
    hide A, B, SpacedA, SpacedB, Trim;
    SmallAccepted(n, e, []);
    hide Accepted;
    FirstStep(n, e, [], lower, "");
    BlankMatchesNothing(OutEdges(env.doc.Edges(), s.nodeId), lower);
    hide EnvOf, Match, OutEdges, Sole, Depart;
    assert env.nodes[B()] == n && Resolve(env, s.locale, B()) == None;
  }

  // ---------------------------------------------------------------- accepted, and hangs up

  /** The other node hangs up. */
  function Goodbye(): Document {
    Small(PlainNode(B(), Tool).(tool := "hangup"), PlainEdge(B(), A()), [])
  }

  /** Accepted, and its first walk returns the hangup armed. */
  lemma GoodbyeArms(lower: char -> char, locale: string)
    ensures Accepted(Goodbye())
    ensures
      var r := FlowWalk.Walk(EnvOf(Goodbye(), lower), Start(Goodbye(), locale)).1;
      r.Success? && r.value.armed == Some(ArmedTool("hangup", "", "", "", "", "hangup_completed", B()))
  {
    var n, e := PlainNode(B(), Tool).(tool := "hangup"), PlainEdge(B(), A());
    var env, s := EnvOf(Goodbye(), lower), Start(Goodbye(), locale);
    var at := Moved(s, PlainEdge(A(), B()));
    Letters();
    TrimClean("hangup");
    hide A, B, SpacedA, SpacedB, Trim, ToolTransfer;
    GoodbyeAccepted();
    hide Accepted, KnownTool;
    FirstStep(n, e, [], lower, locale);
    HangupArms(Goodbye(), lower, at);
    hide EnvOf, Start;
    WalksOn(env, s, PlainEdge(A(), B()));
  }

  lemma GoodbyeAccepted()
    ensures Accepted(Goodbye())
  {
    var n, e := PlainNode(B(), Tool).(tool := "hangup"), PlainEdge(B(), A());
    Letters();
    TrimClean("hangup");
    ToolNames();
    assert KnownTool("hangup");
    hide A, B, SpacedA, SpacedB, Trim, KnownTool;
    assert !IsTransfer(n);
    SmallAccepted(n, e, []);
    hide Accepted;
  }

  lemma WalksOn(env: Env, s: State, e: Edge)
    requires NodeEffect(WorldOf(env, s), s.nodeId) == Move(e, "") && FlowWalk.Walk(env, Moved(s, e)).1.Success?
    ensures FlowWalk.Walk(env, s).1.Success?
    ensures FlowWalk.Walk(env, s).1.value.armed == FlowWalk.Walk(env, Moved(s, e)).1.value.armed
  {
    var w := WorldOf(env, s);
    HangsIff(env, Moved(s, e));
    assert Goes(w, s.nodeId) == Some(e.to);
    hide NodeEffect;
    LengthStep(w, s.nodeId);
  }
}
