/** What a flow cursor does, as functions of a document and a state:
    internal/runtime/graph/cursor.go without its mutation. */
module FlowWalk {
  import opened Wrappers
  import opened Text
  import opened Flow

  /** Answers an Inform node: binding, query and locale to a text, or a failure. */
  type Lookup = (string, string, string) -> Option<string>

  /** What is fixed for a cursor: its document, the nodes by raw id, and how the
      platform lower-cases a character. */
  datatype Env = Env(doc: Document, nodes: map<string, Node>, lower: char -> char)

  datatype State = State(
    nodeId: string, lastEdge: Edge, locale: string, armed: bool, retries: map<string, nat>, blockTool: bool,
    lastQuery: string, lookup: Option<Lookup>)

  datatype Take = Take(edgeId: string, from: string, to: string, kind: EdgeKind)

  datatype ArmedTool = ArmedTool(
    kind: string, destination: string, owner: string, target: string, intent: string, dispositionCode: string,
    nodeId: string)

  datatype Turn = Turn(
    lines: seq<string>, ended: bool, noMatch: bool, repair: bool, locale: string, nodeId: string, edgeId: string,
    taken: seq<Take>, armed: Option<ArmedTool>)

  /** Why a call fails. Hangs is the outcome of a call that never returns. */
  datatype Err =
    | UnknownNode | NoSoleEdge | NoPromptText | NotListening | MalformedRepair | NoLocale | ToolBlocked | AlreadyArmed
    | NoIntent | IntentNotInMatrix | NoNumber | UnknownTool | NotImplemented | Hangs

  const NO_EDGE := Edge("", "", "", OtherEdge(""), "", "", "")

  function Quiet(nodeId: string): Turn {
    Turn([], false, false, false, "", nodeId, "", [], None)
  }

  // ---------------------------------------------------------------- edges

  /** The edges leaving a node, in document order. */
  function OutEdges(es: seq<Edge>, from: string): (out: seq<Edge>)
    ensures forall e <- out :: e in es && e.from == from
  {
    if es == [] then []
    else
      var rest := OutEdges(es[..|es| - 1], from);
      if es[|es| - 1].from == from then rest + [es[|es| - 1]] else rest
  }

  function OfKind(es: seq<Edge>, kind: EdgeKind): (out: seq<Edge>)
    ensures forall e <- out :: e in es && e.kind == kind
  {
    if es == [] then []
    else
      var rest := OfKind(es[..|es| - 1], kind);
      if es[|es| - 1].kind == kind then rest + [es[|es| - 1]] else rest
  }

  /** The only edge of a kind, if there is exactly one. */
  function Sole(es: seq<Edge>, kind: EdgeKind): Option<Edge> {
    var found := OfKind(es, kind);
    if |found| == 1 then Some(found[0]) else None
  }

  lemma SoleIsThere(es: seq<Edge>, kind: EdgeKind)
    ensures Sole(es, kind).Some? ==> Sole(es, kind).value in es && Sole(es, kind).value.kind == kind
  {
    var found := OfKind(es, kind);
    if |found| == 1 { assert found[0] in found; }
    hide OfKind;
  }

  lemma SoleIn(es: seq<Edge>, id: string, kind: EdgeKind)
    ensures Sole(OutEdges(es, id), kind).Some? ==>
              var e := Sole(OutEdges(es, id), kind).value; e in es && e.from == id && e.kind == kind
  {
    SoleIsThere(OutEdges(es, id), kind);
    hide Sole;
  }

  // ---------------------------------------------------------------- matching

  function Lower(s: string, lower: char -> char): string {
    seq(|s|, i requires 0 <= i < |s| => lower(s[i]))
  }

  function Normalize(s: string, lower: char -> char): string {
    Lower(Trim(s), lower)
  }

  /** How well an utterance fits a key; a blank key fits nothing. */
  function KeyScore(u: string, key: string): nat {
    if key == "" then 0
    else if u == key then 3
    else if Contains(u, key) || Contains(key, u) then 2
    else 0
  }

  /** How well an utterance fits an edge: by its intent or its option, whichever is better. */
  function Score(u: string, e: Edge, lower: char -> char): nat {
    if !e.kind.OptionEdge? && !e.kind.IntentEdge? then 0
    else
      var a, b := KeyScore(u, Normalize(e.intent, lower)), KeyScore(u, Normalize(e.option, lower));
      if a >= b then a else b
  }

  /** The place of the first best-fitting edge among the first k. */
  function BestOf(u: string, es: seq<Edge>, k: nat, lower: char -> char): (best: Option<nat>)
    requires k <= |es|
    ensures best.Some? ==> best.value < k
  {
    if k == 0 then None
    else
      var best := BestOf(u, es, k - 1, lower);
      var before := if best.Some? then Score(u, es[best.value], lower) else 0;
      if Score(u, es[k - 1], lower) > before then Some(k - 1) else best
  }

  function Match(es: seq<Edge>, utterance: string, lower: char -> char): Option<Edge> {
    var u := Normalize(utterance, lower);
    if u == "" then None
    else
      match BestOf(u, es, |es|, lower)
      case None => None
      case Some(i) => Some(es[i])
  }

  /** A language tag: hyphenated, and without a blank or a tab. */
  predicate LooksLikeLocaleTag(s: string) {
    var t := Trim(s);
    '-' in t && ' ' !in t && '\t' !in t
  }

  function EdgeLocale(e: Edge): string {
    var intent, option := Trim(e.intent), Trim(e.option);
    if LooksLikeLocaleTag(intent) then intent
    else if LooksLikeLocaleTag(option) then option
    else if intent != "" then intent
    else option
  }

  // ---------------------------------------------------------------- one node

  /** The text of a prompt: that of the locale, else of the default locale. */
  function Resolve(env: Env, locale: string, promptRef: string): Option<string> {
    var ref := Trim(promptRef);
    if ref == "" then Some("")
    else
      match env.doc.Prompt(ref)
      case None => None
      case Some(texts) =>
        if TextFor(texts, locale) != "" then Some(TextFor(texts, locale))
        else if TextFor(texts, env.doc.defaultLocale) != "" then Some(TextFor(texts, env.doc.defaultLocale))
        else None
  }

  /** What stays the same while the cursor walks. */
  datatype World = World(env: Env, locale: string, query: string, lookup: Option<Lookup>)

  function WorldOf(env: Env, s: State): World {
    World(env, s.locale, s.lastQuery, s.lookup)
  }

  function Answer(w: World, n: Node): Option<string> {
    var ref := Trim(n.bindingRef);
    if ref == "" || w.lookup == None then None else w.lookup.value(ref, w.query, w.locale)
  }

  /** What the cursor does at a node without being spoken to. */
  datatype Effect = Move(e: Edge, line: string) | Halt | Fail(err: Err)

  function Follow(env: Env, id: string, kind: EdgeKind, line: string): Effect {
    match Sole(OutEdges(env.doc.Edges(), id), kind)
    case None => Fail(NoSoleEdge)
    case Some(e) => if e.to in env.nodes then Move(e, line) else Fail(UnknownNode)
  }

  function NodeEffect(w: World, id: string): Effect {
    if id !in w.env.nodes then Fail(UnknownNode)
    else
      var n := w.env.nodes[id];
      match n.kind
      case Entry => Follow(w.env, id, Next, "")
      case Speak =>
        if Resolve(w.env, w.locale, n.promptRef) == None then Fail(NoPromptText)
        else Follow(w.env, id, Next, Resolve(w.env, w.locale, n.promptRef).value)
      case Inform =>
        if Answer(w, n) == None then Follow(w.env, id, RepairEdge, "") else Follow(w.env, id, Next, Answer(w, n).value)
      case ListenChoice | ListenLanguage | ListenSlot | End | Tool => Halt
      case Decide | OtherNode(_) => Fail(NotImplemented)
  }

  // ---------------------------------------------------------------- tools

  /** The first row of an intent among the rows from i on. */
  function FindRow(rows: seq<MatrixRow>, i: nat, intent: string): Option<MatrixRow>
    decreases |rows| - i
  {
    if i >= |rows| then None
    else if Trim(rows[i].intent) == intent then Some(rows[i])
    else FindRow(rows, i + 1, intent)
  }

  /** The intent a transfer node acts on: its own, else that of the edge taken to it. */
  function ActingIntent(n: Node, lastEdge: Edge): string {
    if Trim(n.matrixIntent) != "" then Trim(n.matrixIntent) else Trim(lastEdge.matrixIntent)
  }

  function Arm(env: Env, s: State, n: Node): Result<ArmedTool, Err> {
    if s.armed then Failure(AlreadyArmed)
    else if Trim(n.tool) == ToolHangup() then
      Success(ArmedTool(ToolHangup(), "", "", "", "", "hangup_completed", n.id))
    else if Trim(n.tool) == ToolTransfer() then
      var intent := ActingIntent(n, s.lastEdge);
      if intent == "" then Failure(NoIntent)
      else
        match FindRow(env.doc.Matrix(), 0, intent)
        case None => Failure(IntentNotInMatrix)
        case Some(row) =>
          if Trim(row.number) == "" then Failure(NoNumber)
          else
            Success(ArmedTool(ToolTransfer(), Trim(row.number), Trim(row.owner), Trim(row.target), intent,
                              Trim(row.dispositionCode), n.id))
    else Failure(UnknownTool)
  }

  function Said(line: string): seq<string> {
    if line == "" then [] else [line]
  }

  /** The end of a walk, at a node that waits, ends or acts. */
  function Land(env: Env, s: State): (State, Result<Turn, Err>)
    requires s.nodeId in env.nodes
  {
    var n, t := env.nodes[s.nodeId], Quiet(s.nodeId);
    if n.kind.End? then (s, Success(t.(ended := true)))
    else if !n.kind.Tool? then (s, Success(t))
    else if s.blockTool then (s, Failure(ToolBlocked))
    else
      match Arm(env, s, n)
      case Failure(e) => (s, Failure(e))
      case Success(tool) =>
        match Resolve(env, s.locale, n.promptRef)
        case None => (s.(armed := true), Failure(NoPromptText))
        case Some(line) => (s.(armed := true), Success(t.(lines := Said(line), armed := Some(tool))))
  }

  // ---------------------------------------------------------------- the walk

  /** The node the cursor goes on to by itself, if it does. */
  function Goes(w: World, id: string): Option<string> {
    match NodeEffect(w, id)
    case Move(e, _) => Some(e.to)
    case _ => None
  }

  /** Exactly k moves, then something else. */
  ghost predicate StopsIn(w: World, id: string, k: nat)
    decreases k
  {
    match Goes(w, id)
    case Some(next) => k > 0 && StopsIn(w, next, k - 1)
    case None => k == 0
  }

  ghost predicate Stops(w: World, id: string) {
    exists k: nat :: StopsIn(w, id, k)
  }

  lemma {:induction false} StopsInOnce(w: World, id: string, j: nat, k: nat)
    requires StopsIn(w, id, j) && StopsIn(w, id, k)
    ensures j == k
    decreases j
  {
    hide Goes;
    if j > 0 { StopsInOnce(w, Goes(w, id).value, j - 1, k - 1); }
  }

  /** How many edges a walk that stops takes. */
  ghost function Length(w: World, id: string): (k: nat)
    requires Stops(w, id)
    ensures StopsIn(w, id, k)
  {
    var k: nat :| StopsIn(w, id, k); k
  }

  lemma LengthStep(w: World, id: string)
    requires Goes(w, id).Some?
    ensures var next := Goes(w, id).value;
            (Stops(w, id) <==> Stops(w, next)) && (Stops(w, id) ==> Length(w, id) == Length(w, next) + 1)
  {
    hide Goes;
    var next := Goes(w, id).value;
    if Stops(w, id) {
      var k := Length(w, id);
      assert StopsIn(w, next, k - 1);
      StopsInOnce(w, next, k - 1, Length(w, next));
    }
    if Stops(w, next) { assert StopsIn(w, id, Length(w, next) + 1); }
  }

  function TakeOf(e: Edge): Take {
    Take(e.id, e.from, e.to, e.kind)
  }

  /** A turn with one more move in front. */
  function Prepend(e: Edge, line: string, t: Turn): Turn {
    t.(lines := Said(line) + t.lines, taken := [TakeOf(e)] + t.taken, edgeId := if t.taken == [] then e.id else t.edgeId)
  }

  function Moved(s: State, e: Edge): State {
    s.(nodeId := e.to, lastEdge := e)
  }

  /** The whole walk from a state. */
  ghost function Walk(env: Env, s: State): (r: (State, Result<Turn, Err>))
    decreases if Stops(WorldOf(env, s), s.nodeId) then Length(WorldOf(env, s), s.nodeId) else 0
  {
    var w := WorldOf(env, s);
    if !Stops(w, s.nodeId) then (s, Failure(Hangs))
    else
      match NodeEffect(w, s.nodeId)
      case Fail(err) => (s, Failure(err))
      case Halt => Land(env, s)
      case Move(e, line) =>
        LengthStep(w, s.nodeId);
        var r := Walk(env, Moved(s, e));
        (r.0, if r.1.Success? then Success(Prepend(e, line, r.1.value)) else r.1)
  }

  // ---------------------------------------------------------------- calls

  /** Taking an edge, then walking on. */
  ghost function Depart(env: Env, s: State, e: Edge): (State, Result<Turn, Err>) {
    if e.to !in env.nodes then (s, Failure(UnknownNode))
    else
      var r := Walk(env, Moved(s, e));
      (r.0, if r.1.Success? then Success(Prepend(e, "", r.1.value)) else r.1)
  }

  function RetriesAt(s: State, id: string): nat {
    if id in s.retries then s.retries[id] else 0
  }

  /** An unclear utterance. */
  ghost function Unclear(env: Env, s: State, n: Node): (State, Result<Turn, Err>) {
    match n.repair
    case BadRepair => (s, Failure(MalformedRepair))
    case NoRepair => (s, Success(Quiet(s.nodeId).(noMatch := true)))
    case Policy(_, unclearRef) =>
      var s1 := s.(retries := s.retries[n.id := RetriesAt(s, n.id) + 1]);
      if RetriesAt(s1, n.id) <= n.repair.MaxRetries() then
        var ref := if Trim(unclearRef) != "" then Trim(unclearRef) else Trim(n.promptRef);
        match Resolve(env, s.locale, ref)
        case None => (s1, Failure(NoPromptText))
        case Some(line) => (s1, Success(Quiet(s.nodeId).(repair := true, lines := Said(line))))
      else
        match Sole(OutEdges(env.doc.Edges(), s.nodeId), RepairEdge)
        case None => (s1, Failure(NoSoleEdge))
        case Some(e) => Depart(env, s1.(retries := s1.retries[n.id := 0]), e)
  }

  /** An utterance that matched an edge of a language node. */
  ghost function Switch(env: Env, s: State, e: Edge): (State, Result<Turn, Err>) {
    var locale := EdgeLocale(e);
    if locale == "" then (s, Failure(NoLocale))
    else if e.to !in env.nodes then (s.(locale := locale), Failure(UnknownNode))
    else
      var r := Depart(env, s.(locale := locale, blockTool := true), e);
      (r.0.(blockTool := false), if r.1.Success? then Success(r.1.value.(locale := locale)) else r.1)
  }

  ghost function Utter(env: Env, s: State, text: string): (State, Result<Turn, Err>) {
    if s.nodeId !in env.nodes then (s, Failure(UnknownNode))
    else
      var n := env.nodes[s.nodeId];
      if !n.kind.ListenChoice? && !n.kind.ListenLanguage? then (s, Failure(NotListening))
      else
        var heard := s.(lastQuery := Trim(text));
        match Match(OutEdges(env.doc.Edges(), s.nodeId), text, env.lower)
        case None => Unclear(env, heard, n)
        case Some(e) =>
          var s1 := heard.(retries := heard.retries[n.id := 0]);
          if n.kind.ListenChoice? then Depart(env, s1, e) else Switch(env, s1, e)
  }

  datatype Call = Bootstrap | Utterance(text: string) | SetLocale(locale: string) | SetLookup(lookup: Option<Lookup>)

  /** One call on a cursor: the state it leaves and, for the two that take a
      turn, the turn or the failure. */
  ghost function Do(env: Env, s: State, c: Call): (State, Option<Result<Turn, Err>>) {
    match c
    case Bootstrap => var r := Walk(env, s); (r.0, Some(r.1))
    case Utterance(text) => var r := Utter(env, s, text); (r.0, Some(r.1))
    case SetLocale(locale) => (if Trim(locale) != "" then s.(locale := Trim(locale)) else s, None)
    case SetLookup(lookup) => (s.(lookup := lookup), None)
  }

  // ---------------------------------------------------------------- opening

  /** The first k nodes by raw id, a later node replacing an earlier one. */
  function NodesById(ns: seq<Node>, k: nat): (m: map<string, Node>)
    requires k <= |ns|
    ensures forall id <- m :: m[id].id == id && m[id] in ns
  {
    if k == 0 then map[] else NodesById(ns, k - 1)[ns[k - 1].id := ns[k - 1]]
  }

  function EnvOf(d: Document, lower: char -> char): Env {
    Env(d, NodesById(d.Nodes(), |d.Nodes()|), lower)
  }

  function Start(d: Document, locale: string): State {
    var loc := Trim(locale);
    State(d.entryNodeId, NO_EDGE, if loc == "" then d.defaultLocale else loc, false, map[], false, "", None)
  }
}
