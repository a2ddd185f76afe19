/** Flow documents and their publish-time validation: internal/flow/doc.go,
    internal/flow/repair.go and internal/flow/validate.go. */
module Flow {
  import opened Wrappers
  import opened Text

  function SchemaId(): string { "coral.flow.v1" }
  function ToolTransfer(): string { "transfer" }
  function ToolHangup(): string { "hangup" }

  predicate KnownTool(tool: string) {
    tool == ToolTransfer() || tool == ToolHangup()
  }

  // ---------------------------------------------------------------- documents

  datatype NodeKind =
    | Entry | Speak | ListenChoice | ListenLanguage | ListenSlot | Decide | Inform | Tool | End | OtherNode(name: string)

  datatype EdgeKind =
    | Next | OptionEdge | IntentEdge | Retry | Back | Skip | RepairEdge | ToolResult | GlobalEdge | OtherEdge(name: string)

  /** A node's repair field after JSON decoding: absent, malformed, or a policy. */
  datatype Repair = NoRepair | BadRepair | Policy(maxRetries: Option<int>, unclearPromptRef: string) {
    /** Retries before the repair edge is taken. */
    function MaxRetries(): (n: nat)
      requires Policy?
    {
      match maxRetries
      case None => 3
      case Some(n) => if n < 0 then 0 else n
    }
  }

  datatype Node = Node(
    id: string, kind: NodeKind, promptRef: string, bindingRef: string, tool: string, repair: Repair, matrixIntent: string)

  datatype Edge = Edge(
    id: string, from: string, to: string, kind: EdgeKind, intent: string, option: string, matrixIntent: string)

  datatype MatrixRow = MatrixRow(
    intent: string, owner: string, target: string, number: string, action: string, dispositionCode: string)

  type Texts = map<string, string>

  /** A document as decoded: a list or object that was missing is None, and
      reads as empty. */
  datatype Document = Document(
    schemaId: string, entryNodeId: string, defaultLocale: string,
    nodes: Option<seq<Node>>, edges: Option<seq<Edge>>, prompts: Option<map<string, Option<Texts>>>,
    matrix: Option<seq<MatrixRow>>, bindingRefs: Option<seq<string>>)
  {
    function Nodes(): seq<Node> { nodes.GetOr([]) }
    function Edges(): seq<Edge> { edges.GetOr([]) }
    function Matrix(): seq<MatrixRow> { matrix.GetOr([]) }
    function Refs(): seq<string> { bindingRefs.GetOr([]) }

    /** The texts of a prompt; a missing prompt and a null one read alike. */
    function Prompt(ref: string): Option<Texts> {
      if prompts.Some? && ref in prompts.value then prompts.value[ref] else None
    }
  }

  /** A text, or nothing when the locale is missing. */
  function TextFor(texts: Texts, locale: string): string {
    if locale in texts then Trim(texts[locale]) else ""
  }

  /** The closed list of final dispositions. */
  predicate ValidDispositionFinal(code: string) {
    code in [
              "transferred_sales", "transferred_corporate", "transferred_support", "transferred_other", "hangup_completed",
              "hangup_silence", "hangup_abuse", "out_of_scope", "abandoned_caller", "system_failure"]
  }

  // ---------------------------------------------------------------- what a document must satisfy

  predicate HasEnvelope(d: Document) {
    && d.schemaId == SchemaId() && Trim(d.defaultLocale) != ""
    && d.nodes.Some? && d.edges.Some? && d.prompts.Some? && d.matrix.Some? && d.bindingRefs.Some?
  }

  predicate NodeOk(n: Node) {
    Trim(n.id) != "" && NodeFieldsOk(n)
  }

  predicate NodeFieldsOk(n: Node) {
    && !n.kind.OtherNode?
    && (n.kind.Tool? ==> KnownTool(Trim(n.tool)))
    && (n.kind.Inform? ==> Trim(n.bindingRef) != "")
  }

  predicate NodesOk(ns: seq<Node>) {
    NodesOkTo(ns, |ns|)
  }

  /** Each of the first k nodes is well formed and has an id of its own. */
  predicate NodesOkTo(ns: seq<Node>, k: nat)
    requires k <= |ns|
  {
    forall i :: 0 <= i < k ==> NodeOk(ns[i]) && Trim(ns[i].id) !in IdsBefore(ns, i)
  }

  /** Entry nodes among the first k. */
  function Entries(ns: seq<Node>, k: nat): nat
    requires k <= |ns|
  {
    if k == 0 then 0 else Entries(ns, k - 1) + if ns[k - 1].kind.Entry? then 1 else 0
  }

  /** The trimmed ids of the first k nodes. */
  function IdsBefore(ns: seq<Node>, k: nat): set<string>
    requires k <= |ns|
  {
    if k == 0 then {} else IdsBefore(ns, k - 1) + {Trim(ns[k - 1].id)}
  }

  function TrimmedIds(ns: seq<Node>): set<string> {
    IdsBefore(ns, |ns|)
  }

  predicate EntryOk(d: Document) {
    && Entries(d.Nodes(), |d.Nodes()|) == 1 && Trim(d.entryNodeId) != ""
    && exists i :: 0 <= i < |d.Nodes()| && Trim(d.Nodes()[i].id) == Trim(d.entryNodeId) && d.Nodes()[i].kind.Entry?
  }

  /** The non-blank refs among the first k, trimmed. */
  function RefsBefore(refs: seq<string>, k: nat): set<string>
    requires k <= |refs|
  {
    if k == 0 then {}
    else if Trim(refs[k - 1]) == "" then RefsBefore(refs, k - 1)
    else RefsBefore(refs, k - 1) + {Trim(refs[k - 1])}
  }

  function TrimmedRefs(refs: seq<string>): set<string> {
    RefsBefore(refs, |refs|)
  }

  predicate BindingsOk(d: Document) {
    forall i :: 0 <= i < |d.Nodes()| && d.Nodes()[i].kind.Inform? ==> Trim(d.Nodes()[i].bindingRef) in TrimmedRefs(d.Refs())
  }

  predicate EdgeOk(e: Edge, ids: set<string>) {
    Trim(e.id) != "" && !e.kind.OtherEdge? && e.from in ids && e.to in ids
  }

  predicate EdgesOk(d: Document) {
    forall i :: 0 <= i < |d.Edges()| ==> EdgeOk(d.Edges()[i], TrimmedIds(d.Nodes()))
  }

  predicate PromptOk(d: Document, n: Node) {
    var ref := Trim(n.promptRef);
    ref == "" || (d.Prompt(ref).Some? && TextFor(d.Prompt(ref).value, d.defaultLocale) != "")
  }

  predicate PromptsOk(d: Document) {
    forall i :: 0 <= i < |d.Nodes()| ==> PromptOk(d, d.Nodes()[i])
  }

  predicate RowOk(r: MatrixRow) {
    Trim(r.intent) != "" && RowFieldsOk(r)
  }

  predicate RowFieldsOk(r: MatrixRow) {
    && Trim(r.owner) != "" && Trim(r.target) != ""
    && Trim(r.action) == ToolTransfer() && Trim(r.number) != ""
    && (Trim(r.dispositionCode) == "" || ValidDispositionFinal(Trim(r.dispositionCode)))
  }

  predicate MatrixOk(rows: seq<MatrixRow>) {
    RowsOkTo(rows, |rows|)
  }

  /** Each of the first k rows is well formed and has an intent of its own. */
  predicate RowsOkTo(rows: seq<MatrixRow>, k: nat)
    requires k <= |rows|
  {
    forall i :: 0 <= i < k ==> RowOk(rows[i]) && Trim(rows[i].intent) !in IntentsBefore(rows, i)
  }

  function IntentsBefore(rows: seq<MatrixRow>, k: nat): set<string>
    requires k <= |rows|
  {
    if k == 0 then {} else IntentsBefore(rows, k - 1) + {Trim(rows[k - 1].intent)}
  }

  function TrimmedIntents(rows: seq<MatrixRow>): set<string> {
    IntentsBefore(rows, |rows|)
  }

  predicate IsTransfer(n: Node) {
    n.kind.Tool? && Trim(n.tool) == ToolTransfer()
  }

  /** The intent the validator takes for a transfer node: its own, else that of
      the first of its outgoing edges from k on that has one. */
  function PublishedIntent(n: Node, es: seq<Edge>, k: nat): string
    decreases |es| - k
  {
    if Trim(n.matrixIntent) != "" then Trim(n.matrixIntent)
    else if k >= |es| then ""
    else if es[k].from == n.id && Trim(es[k].matrixIntent) != "" then Trim(es[k].matrixIntent)
    else PublishedIntent(n, es, k + 1)
  }

  predicate TransfersOk(d: Document) {
    forall i :: 0 <= i < |d.Nodes()| && IsTransfer(d.Nodes()[i]) ==>
                  PublishedIntent(d.Nodes()[i], d.Edges(), 0) in TrimmedIntents(d.Matrix())
  }

  predicate Accepted(d: Document) {
    && HasEnvelope(d) && NodesOk(d.Nodes()) && EntryOk(d) && BindingsOk(d) && EdgesOk(d) && PromptsOk(d)
    && MatrixOk(d.Matrix()) && TransfersOk(d)
  }

  // ---------------------------------------------------------------- why one is refused

  /** The check that failed, with the place of the offending item. */
  datatype Reason =
    | NilDocument | BadSchema | NoDefaultLocale | NoNodes | NoEdges | NoPrompts | NoMatrix | NoBindingRefs
    | BlankNodeId(i: nat) | DuplicateNodeId(i: nat) | UnknownNodeKind(i: nat) | BadTool(i: nat) | NoBinding(i: nat)
    | NoEntry | ManyEntries | BlankEntryId | UnknownEntryId | EntryNotEntry | UnknownBinding(i: nat)
    | BlankEdgeId(i: nat) | UnknownEdgeKind(i: nat) | UnknownFrom(i: nat) | UnknownTo(i: nat)
    | MissingPrompt(i: nat) | NoDefaultText(i: nat)
    | BlankIntent(i: nat) | DuplicateIntent(i: nat) | NoOwnerOrTarget(i: nat) | BadAction(i: nat) | BlankNumber(i: nat)
    | BadDisposition(i: nat) | TransferWithoutIntent(i: nat) | TransferUnknownIntent(i: nat)

  // Each fault below is the first of its kind: every item before it is in order,
  // and so is everything of its own item that is looked at earlier.

  predicate FirstNode(ns: seq<Node>, i: nat) {
    i < |ns| && NodesOkTo(ns, i)
  }

  predicate NewNode(ns: seq<Node>, i: nat) {
    FirstNode(ns, i) && Trim(ns[i].id) != "" && Trim(ns[i].id) !in IdsBefore(ns, i)
  }

  ghost predicate NodeFault(ns: seq<Node>, r: Reason) {
    match r
    case BlankNodeId(i) => FirstNode(ns, i) && Trim(ns[i].id) == ""
    case DuplicateNodeId(i) => FirstNode(ns, i) && Trim(ns[i].id) != "" && Trim(ns[i].id) in IdsBefore(ns, i)
    case UnknownNodeKind(i) => NewNode(ns, i) && ns[i].kind.OtherNode?
    case BadTool(i) => NewNode(ns, i) && ns[i].kind.Tool? && !KnownTool(Trim(ns[i].tool))
    case NoBinding(i) => NewNode(ns, i) && ns[i].kind.Inform? && Trim(ns[i].bindingRef) == ""
    case _ => false
  }

  ghost predicate EntryFault(d: Document, r: Reason) {
    var entries, id := Entries(d.Nodes(), |d.Nodes()|), Trim(d.entryNodeId);
    match r
    case NoEntry => entries == 0
    case ManyEntries => entries > 1
    case BlankEntryId => entries == 1 && id == ""
    case UnknownEntryId => entries == 1 && id != "" && id !in TrimmedIds(d.Nodes())
    case EntryNotEntry =>
      entries == 1 && id != "" && id in TrimmedIds(d.Nodes()) &&
      exists i :: 0 <= i < |d.Nodes()| && Trim(d.Nodes()[i].id) == id && !d.Nodes()[i].kind.Entry?
    case _ => false
  }

  predicate BindingOk(d: Document, n: Node) {
    n.kind.Inform? ==> Trim(n.bindingRef) in TrimmedRefs(d.Refs())
  }

  ghost predicate BindingFault(d: Document, r: Reason) {
    var ns := d.Nodes();
    r.UnknownBinding? && r.i < |ns| && !BindingOk(d, ns[r.i]) && forall j :: 0 <= j < r.i ==> BindingOk(d, ns[j])
  }

  predicate FirstEdge(es: seq<Edge>, i: nat, ids: set<string>) {
    i < |es| && forall j :: 0 <= j < i ==> EdgeOk(es[j], ids)
  }

  ghost predicate EdgeFault(d: Document, r: Reason) {
    var es, ids := d.Edges(), TrimmedIds(d.Nodes());
    match r
    case BlankEdgeId(i) => FirstEdge(es, i, ids) && Trim(es[i].id) == ""
    case UnknownEdgeKind(i) => FirstEdge(es, i, ids) && Trim(es[i].id) != "" && es[i].kind.OtherEdge?
    case UnknownFrom(i) =>
      FirstEdge(es, i, ids) && Trim(es[i].id) != "" && !es[i].kind.OtherEdge? && es[i].from !in ids
    case UnknownTo(i) =>
      FirstEdge(es, i, ids) && Trim(es[i].id) != "" && !es[i].kind.OtherEdge? && es[i].from in ids && es[i].to !in ids
    case _ => false
  }

  predicate FirstPrompt(d: Document, i: nat) {
    i < |d.Nodes()| && Trim(d.Nodes()[i].promptRef) != "" && forall j :: 0 <= j < i ==> PromptOk(d, d.Nodes()[j])
  }

  ghost predicate PromptFault(d: Document, r: Reason) {
    var ns := d.Nodes();
    match r
    case MissingPrompt(i) => FirstPrompt(d, i) && d.Prompt(Trim(ns[i].promptRef)) == None
    case NoDefaultText(i) =>
      FirstPrompt(d, i) && d.Prompt(Trim(ns[i].promptRef)).Some? &&
      TextFor(d.Prompt(Trim(ns[i].promptRef)).value, d.defaultLocale) == ""
    case _ => false
  }

  predicate FirstRow(rows: seq<MatrixRow>, i: nat) {
    i < |rows| && RowsOkTo(rows, i)
  }

  predicate NewRow(rows: seq<MatrixRow>, i: nat) {
    FirstRow(rows, i) && Trim(rows[i].intent) != "" && Trim(rows[i].intent) !in IntentsBefore(rows, i)
  }

  ghost predicate MatrixFault(rows: seq<MatrixRow>, r: Reason) {
    match r
    case BlankIntent(i) => FirstRow(rows, i) && Trim(rows[i].intent) == ""
    case DuplicateIntent(i) =>
      FirstRow(rows, i) && Trim(rows[i].intent) != "" && Trim(rows[i].intent) in IntentsBefore(rows, i)
    case NoOwnerOrTarget(i) => NewRow(rows, i) && !RowOwned(rows[i])
    case BadAction(i) => NewRow(rows, i) && RowOwned(rows[i]) && Trim(rows[i].action) != ToolTransfer()
    case BlankNumber(i) =>
      NewRow(rows, i) && RowOwned(rows[i]) && Trim(rows[i].action) == ToolTransfer() && Trim(rows[i].number) == ""
    case BadDisposition(i) =>
      NewRow(rows, i) && RowOwned(rows[i]) && Trim(rows[i].action) == ToolTransfer() && Trim(rows[i].number) != "" &&
      Trim(rows[i].dispositionCode) != "" && !ValidDispositionFinal(Trim(rows[i].dispositionCode))
    case _ => false
  }

  predicate RowOwned(row: MatrixRow) {
    Trim(row.owner) != "" && Trim(row.target) != ""
  }

  predicate TransferOk(d: Document, n: Node) {
    IsTransfer(n) ==> PublishedIntent(n, d.Edges(), 0) in TrimmedIntents(d.Matrix())
  }

  predicate FirstTransfer(d: Document, i: nat) {
    i < |d.Nodes()| && IsTransfer(d.Nodes()[i]) && forall j :: 0 <= j < i ==> TransferOk(d, d.Nodes()[j])
  }

  ghost predicate TransferFault(d: Document, r: Reason) {
    var ns := d.Nodes();
    match r
    case TransferWithoutIntent(i) => FirstTransfer(d, i) && PublishedIntent(ns[i], d.Edges(), 0) == ""
    case TransferUnknownIntent(i) =>
      && FirstTransfer(d, i) && PublishedIntent(ns[i], d.Edges(), 0) != ""
      && PublishedIntent(ns[i], d.Edges(), 0) !in TrimmedIntents(d.Matrix())
    case _ => false
  }

  ghost predicate EnvelopeFault(d: Document, r: Reason) {
    match r
    case BadSchema => d.schemaId != SchemaId()
    case NoDefaultLocale => d.schemaId == SchemaId() && Trim(d.defaultLocale) == ""
    case NoNodes => Headed(d) && d.nodes == None
    case NoEdges => Headed(d) && d.nodes.Some? && d.edges == None
    case NoPrompts => Headed(d) && d.nodes.Some? && d.edges.Some? && d.prompts == None
    case NoMatrix => Headed(d) && d.nodes.Some? && d.edges.Some? && d.prompts.Some? && d.matrix == None
    case NoBindingRefs =>
      Headed(d) && d.nodes.Some? && d.edges.Some? && d.prompts.Some? && d.matrix.Some? && d.bindingRefs == None
    case _ => false
  }

  predicate Headed(d: Document) {
    d.schemaId == SchemaId() && Trim(d.defaultLocale) != ""
  }

  /** The first k of the eight groups of checks pass. */
  predicate Passes(d: Document, k: nat) {
    && (k > 0 ==> HasEnvelope(d)) && (k > 1 ==> NodesOk(d.Nodes())) && (k > 2 ==> EntryOk(d))
    && (k > 3 ==> BindingsOk(d)) && (k > 4 ==> EdgesOk(d)) && (k > 5 ==> PromptsOk(d))
    && (k > 6 ==> MatrixOk(d.Matrix())) && (k > 7 ==> TransfersOk(d))
  }

  /** The first fault of a document, in the order in which it is looked at. */
  ghost predicate Fault(d: Document, r: Reason) {
    || EnvelopeFault(d, r)
    || (Passes(d, 1) && NodeFault(d.Nodes(), r))
    || (Passes(d, 2) && EntryFault(d, r))
    || (Passes(d, 3) && BindingFault(d, r))
    || (Passes(d, 4) && EdgeFault(d, r))
    || (Passes(d, 5) && PromptFault(d, r))
    || (Passes(d, 6) && MatrixFault(d.Matrix(), r))
    || (Passes(d, 7) && TransferFault(d, r))
  }

  // ---------------------------------------------------------------- the checks

  lemma NodesOkStep(ns: seq<Node>, k: nat)
    requires k < |ns| && NodesOkTo(ns, k)
    ensures NodesOkTo(ns, k + 1) <==> NodeOk(ns[k]) && Trim(ns[k].id) !in IdsBefore(ns, k)
    ensures NodesOk(ns) ==> NodesOkTo(ns, k + 1)
  {
    hide Trim, NodeOk, IdsBefore;
  }

  lemma RowsOkStep(rows: seq<MatrixRow>, k: nat)
    requires k < |rows| && RowsOkTo(rows, k)
    ensures RowsOkTo(rows, k + 1) <==> RowOk(rows[k]) && Trim(rows[k].intent) !in IntentsBefore(rows, k)
    ensures MatrixOk(rows) ==> RowsOkTo(rows, k + 1)
  {
    hide Trim, RowOk, IntentsBefore;
  }

  lemma NoNodesYet(ns: seq<Node>)
    ensures Entries(ns, 0) == 0 && NodesOkTo(ns, 0) && ById(ns, 0, map[])
  {
    hide Trim;
  }

  lemma NoRows(rows: seq<MatrixRow>)
    ensures IntentsBefore(rows, 0) == {} && RowsOkTo(rows, 0)
  {
    hide RowOk, Trim;
  }

  lemma EntriesStep(ns: seq<Node>, k: nat)
    requires k < |ns|
    ensures Entries(ns, k + 1) == if ns[k].kind.Entry? then Entries(ns, k) + 1 else Entries(ns, k)
  {
  }

  lemma IntentsStep(rows: seq<MatrixRow>, k: nat)
    requires k < |rows|
    ensures IntentsBefore(rows, k + 1) == IntentsBefore(rows, k) + {Trim(rows[k].intent)}
  {
  }

  lemma {:induction false} IdsBeforeHas(ns: seq<Node>, k: nat, id: string)
    requires k <= |ns|
    ensures id in IdsBefore(ns, k) <==> exists i :: 0 <= i < k && Trim(ns[i].id) == id
  {
    hide Trim;
    if k > 0 { IdsBeforeHas(ns, k - 1, id); }
  }

  lemma {:induction false} IntentsBeforeHas(rows: seq<MatrixRow>, k: nat, intent: string)
    requires k <= |rows|
    ensures intent in IntentsBefore(rows, k) <==> exists i :: 0 <= i < k && Trim(rows[i].intent) == intent
  {
    hide Trim;
    if k > 0 { IntentsBeforeHas(rows, k - 1, intent); }
  }

  /** The trimmed ids of acceptable nodes are all different. */
  lemma TrimmedIdsDiffer(ns: seq<Node>, i: nat, j: nat)
    requires NodesOk(ns) && i < |ns| && j < |ns| && Trim(ns[i].id) == Trim(ns[j].id)
    ensures i == j
  {
    IdsBeforeHas(ns, i, Trim(ns[i].id));
    IdsBeforeHas(ns, j, Trim(ns[j].id));
    hide Trim, IdsBefore;
  }

  lemma TrimmedIntentsDiffer(rows: seq<MatrixRow>, i: nat, j: nat)
    requires MatrixOk(rows) && i < |rows| && j < |rows| && Trim(rows[i].intent) == Trim(rows[j].intent)
    ensures i == j
  {
    IntentsBeforeHas(rows, i, Trim(rows[i].intent));
    IntentsBeforeHas(rows, j, Trim(rows[j].intent));
    hide Trim, IntentsBefore;
  }

  method CheckNodes(ns: seq<Node>) returns (fault: Option<Reason>, byId: map<string, Node>, entries: nat)
    ensures fault == None <==> NodesOk(ns)
    ensures fault.Some? ==> NodeFault(ns, fault.value)
    ensures fault == None ==> entries == Entries(ns, |ns|) && ById(ns, |ns|, byId)
  {
    hide Trim, NodeFieldsOk, IdsBefore, NodesOkTo, ById, Entries;
    NoNodesYet(ns);
    byId, entries, fault := map[], 0, None;
    for i := 0 to |ns|
      invariant fault == None && entries == Entries(ns, i) && ById(ns, i, byId)
      invariant NodesOkTo(ns, i)
    {
      NodesOkStep(ns, i);
      EntriesStep(ns, i);
      ByIdStep(ns, i, byId);
      fault := CheckNode(ns, i, byId);
      if fault.Some? { return; }
      if ns[i].kind.Entry? { entries := entries + 1; }
      byId := byId[Trim(ns[i].id) := ns[i]];
    }
  }

  method CheckNode(ns: seq<Node>, i: nat, byId: map<string, Node>) returns (fault: Option<Reason>)
    requires FirstNode(ns, i) && (Trim(ns[i].id) in byId <==> Trim(ns[i].id) in IdsBefore(ns, i))
    ensures fault == None <==> NodeOk(ns[i]) && Trim(ns[i].id) !in byId
    ensures fault.Some? ==> NodeFault(ns, fault.value)
  {
    hide Trim, NodeFieldsOk, IdsBefore;
    var id := Trim(ns[i].id);
    if id == "" { return Some(BlankNodeId(i)); }
    if id in byId { return Some(DuplicateNodeId(i)); }
    fault := CheckNodeFields(ns, i);
  }

  method CheckNodeFields(ns: seq<Node>, i: nat) returns (fault: Option<Reason>)
    requires i < |ns| && NewNode(ns, i)
    ensures fault == None <==> NodeFieldsOk(ns[i])
    ensures fault.Some? ==> NodeFault(ns, fault.value)
  {
    hide Trim, KnownTool, NewNode;
    var n := ns[i];
    if n.kind.OtherNode? { return Some(UnknownNodeKind(i)); }
    if n.kind.Tool? && !KnownTool(Trim(n.tool)) { return Some(BadTool(i)); }
    if n.kind.Inform? && Trim(n.bindingRef) == "" { return Some(NoBinding(i)); }
    fault := None;
  }

  lemma ByIdStep(ns: seq<Node>, k: nat, m: map<string, Node>)
    requires k < |ns| && ById(ns, k, m)
    ensures Trim(ns[k].id) in m <==> Trim(ns[k].id) in IdsBefore(ns, k)
    ensures Trim(ns[k].id) !in m ==> ById(ns, k + 1, m[Trim(ns[k].id) := ns[k]])
  {
    hide Trim, IdsBefore;
    IdsStep(ns, k);
    var id := Trim(ns[k].id);
    if id !in m {
      var more := m[id := ns[k]];
      KeysStep(m, id, ns[k]);
      forall i | 0 <= i <= k ensures Trim(ns[i].id) in more && more[Trim(ns[i].id)] == ns[i] {
        if i < k { assert Trim(ns[i].id) in m; }
      }
    }
  }

  lemma IdsStep(ns: seq<Node>, k: nat)
    requires k < |ns|
    ensures IdsBefore(ns, k + 1) == IdsBefore(ns, k) + {Trim(ns[k].id)}
  {
  }

  lemma KeysStep(m: map<string, Node>, id: string, n: Node)
    ensures m[id := n].Keys == m.Keys + {id}
  {
  }

  /** The map from trimmed ids to the first k nodes. */
  ghost predicate ById(ns: seq<Node>, k: nat, m: map<string, Node>)
    requires k <= |ns|
  {
    && m.Keys == IdsBefore(ns, k)
    && forall i :: 0 <= i < k ==> Trim(ns[i].id) in m && m[Trim(ns[i].id)] == ns[i]
  }

  method CheckEntry(d: Document, byId: map<string, Node>, entries: nat) returns (fault: Option<Reason>)
    requires NodesOk(d.Nodes()) && entries == Entries(d.Nodes(), |d.Nodes()|) && ById(d.Nodes(), |d.Nodes()|, byId)
    ensures fault == None <==> EntryOk(d)
    ensures fault.Some? ==> EntryFault(d, fault.value)
  {
    hide Trim, IdsBefore;
    var id := Trim(d.entryNodeId);
    EntryNode(d.Nodes(), id, byId);
    hide ById, NodesOk, Entries;
    if entries == 0 { return Some(NoEntry); }
    if entries > 1 { return Some(ManyEntries); }
    if id == "" { return Some(BlankEntryId); }
    if id !in byId { return Some(UnknownEntryId); }
    if !byId[id].kind.Entry? { return Some(EntryNotEntry); }
    fault := None;
  }

  /** What the map says of the node with an id. */
  lemma EntryNode(ns: seq<Node>, id: string, byId: map<string, Node>)
    requires NodesOk(ns) && ById(ns, |ns|, byId)
    ensures id in byId <==> id in TrimmedIds(ns)
    ensures id in byId ==> exists i :: 0 <= i < |ns| && Trim(ns[i].id) == id && ns[i] == byId[id]
    ensures forall i :: 0 <= i < |ns| && Trim(ns[i].id) == id ==> id in byId && ns[i] == byId[id]
  {
    hide Trim, IdsBefore, NodesOk;
    IdsBeforeHas(ns, |ns|, id);
  }

  method CheckBindings(d: Document) returns (fault: Option<Reason>)
    ensures fault == None <==> BindingsOk(d)
    ensures fault.Some? ==> BindingFault(d, fault.value)
  {
    hide Trim, ToolTransfer, ToolHangup, ValidDispositionFinal;
    var refs: set<string> := {};
    for i := 0 to |d.Refs()|
      invariant refs == RefsBefore(d.Refs(), i)
    {
      var s := Trim(d.Refs()[i]);
      if s != "" { refs := refs + {s}; }
    }
    for i := 0 to |d.Nodes()|
      invariant refs == TrimmedRefs(d.Refs()) && forall j :: 0 <= j < i ==> BindingOk(d, d.Nodes()[j])
    {
      var n := d.Nodes()[i];
      if n.kind.Inform? && Trim(n.bindingRef) !in refs { return Some(UnknownBinding(i)); }
    }
    fault := None;
  }

  method CheckEdges(d: Document, ids: set<string>) returns (fault: Option<Reason>)
    requires ids == TrimmedIds(d.Nodes())
    ensures fault == None <==> EdgesOk(d)
    ensures fault.Some? ==> EdgeFault(d, fault.value)
  {
    hide Trim, ToolTransfer, ToolHangup, ValidDispositionFinal;
    for i := 0 to |d.Edges()|
      invariant forall j :: 0 <= j < i ==> EdgeOk(d.Edges()[j], ids)
    {
      var e := d.Edges()[i];
      if Trim(e.id) == "" { return Some(BlankEdgeId(i)); }
      if e.kind.OtherEdge? { return Some(UnknownEdgeKind(i)); }
      if e.from !in ids { return Some(UnknownFrom(i)); }
      if e.to !in ids { return Some(UnknownTo(i)); }
    }
    fault := None;
  }

  method CheckPrompts(d: Document) returns (fault: Option<Reason>)
    ensures fault == None <==> PromptsOk(d)
    ensures fault.Some? ==> PromptFault(d, fault.value)
  {
    hide Trim, TextFor;
    for i := 0 to |d.Nodes()|
      invariant forall j :: 0 <= j < i ==> PromptOk(d, d.Nodes()[j])
    {
      var ref := Trim(d.Nodes()[i].promptRef);
      if ref == "" { continue; }
      var texts := d.Prompt(ref);
      if texts == None { return Some(MissingPrompt(i)); }
      if TextFor(texts.value, d.defaultLocale) == "" { return Some(NoDefaultText(i)); }
    }
    fault := None;
  }

  method CheckMatrix(rows: seq<MatrixRow>) returns (fault: Option<Reason>, intents: set<string>)
    ensures fault == None <==> MatrixOk(rows)
    ensures fault.Some? ==> MatrixFault(rows, fault.value)
    ensures fault == None ==> intents == TrimmedIntents(rows)
  {
    hide Trim, RowOk, IntentsBefore, RowsOkTo, MatrixFault;
    NoRows(rows);
    intents, fault := {}, None;
    for i := 0 to |rows|
      invariant fault == None && intents == IntentsBefore(rows, i)
      invariant RowsOkTo(rows, i)
    {
      RowsOkStep(rows, i);
      IntentsStep(rows, i);
      fault := CheckRow(rows, i, intents);
      if fault.Some? { return; }
      intents := intents + {Trim(rows[i].intent)};
    }
  }

  method CheckRow(rows: seq<MatrixRow>, i: nat, intents: set<string>) returns (fault: Option<Reason>)
    requires FirstRow(rows, i) && intents == IntentsBefore(rows, i)
    ensures fault == None <==> RowOk(rows[i]) && Trim(rows[i].intent) !in intents
    ensures fault.Some? ==> MatrixFault(rows, fault.value)
  {
    hide Trim, RowFieldsOk, IntentsBefore;
    var intent := Trim(rows[i].intent);
    if intent == "" { return Some(BlankIntent(i)); }
    if intent in intents { return Some(DuplicateIntent(i)); }
    fault := CheckRowFields(rows, i);
  }

  method CheckRowFields(rows: seq<MatrixRow>, i: nat) returns (fault: Option<Reason>)
    requires i < |rows| && NewRow(rows, i)
    ensures fault == None <==> RowFieldsOk(rows[i])
    ensures fault.Some? ==> MatrixFault(rows, fault.value)
  {
    hide Trim, ToolTransfer, ValidDispositionFinal, NewRow;
    var row := rows[i];
    if Trim(row.owner) == "" || Trim(row.target) == "" { return Some(NoOwnerOrTarget(i)); }
    if Trim(row.action) != ToolTransfer() { return Some(BadAction(i)); }
    if Trim(row.number) == "" { return Some(BlankNumber(i)); }
    var code := Trim(row.dispositionCode);
    if code != "" && !ValidDispositionFinal(code) { return Some(BadDisposition(i)); }
    fault := None;
  }

  method FindPublishedIntent(n: Node, es: seq<Edge>) returns (intent: string)
    ensures intent == PublishedIntent(n, es, 0)
  {
    hide Trim, ToolTransfer, ToolHangup, ValidDispositionFinal;
    intent := Trim(n.matrixIntent);
    if intent != "" { return; }
    for i := 0 to |es|
      invariant PublishedIntent(n, es, i) == PublishedIntent(n, es, 0) && Trim(n.matrixIntent) == ""
    {
      if es[i].from == n.id && Trim(es[i].matrixIntent) != "" { return Trim(es[i].matrixIntent); }
    }
    intent := "";
  }

  /** The one row an intent of an acceptable matrix stands for. */
  lemma RowFor(rows: seq<MatrixRow>, intent: string) returns (row: MatrixRow)
    requires MatrixOk(rows) && intent in TrimmedIntents(rows)
    ensures row in rows && Trim(row.intent) == intent && RowOk(row)
    ensures forall r <- rows :: Trim(r.intent) == intent ==> r == row
  {
    IntentsBeforeHas(rows, |rows|, intent);
    var i :| 0 <= i < |rows| && Trim(rows[i].intent) == intent;
    row := rows[i];
    forall j | 0 <= j < |rows| && Trim(rows[j].intent) == intent ensures rows[j] == row {
      TrimmedIntentsDiffer(rows, i, j);
    }
    hide Trim, IntentsBefore, RowFieldsOk;
  }

  lemma NoBlankIntent(rows: seq<MatrixRow>)
    requires MatrixOk(rows)
    ensures "" !in TrimmedIntents(rows)
  {
    IntentsBeforeHas(rows, |rows|, "");
    hide Trim, IntentsBefore, RowFieldsOk;
  }

  lemma RowHasNumber(rows: seq<MatrixRow>, intent: string)
    requires MatrixOk(rows) && intent in TrimmedIntents(rows)
    ensures rows != [] && exists row <- rows :: Trim(row.intent) == intent && Trim(row.number) != ""
  {
    var row := RowFor(rows, intent);
    hide Trim, MatrixOk, TrimmedIntents;
    assert row in rows && Trim(row.intent) == intent && Trim(row.number) != "";
  }

  method CheckTransfers(d: Document, intents: set<string>) returns (fault: Option<Reason>)
    requires intents == TrimmedIntents(d.Matrix()) && MatrixOk(d.Matrix())
    ensures fault == None <==> TransfersOk(d)
    ensures fault.Some? ==> TransferFault(d, fault.value)
  {
    hide Trim, PublishedIntent, ToolTransfer, MatrixOk;
    for i := 0 to |d.Nodes()|
      invariant forall j :: 0 <= j < i ==> TransferOk(d, d.Nodes()[j])
    {
      var n := d.Nodes()[i];
      if !n.kind.Tool? || Trim(n.tool) != ToolTransfer() { continue; }
      var intent := FindPublishedIntent(n, d.Edges());
      fault := CheckIntent(d, i, intent, intents);
      if fault.Some? { return; }
    }
    fault := None;
  }

  method CheckIntent(d: Document, i: nat, intent: string, intents: set<string>) returns (fault: Option<Reason>)
    requires FirstTransfer(d, i) && intent == PublishedIntent(d.Nodes()[i], d.Edges(), 0)
    requires intents == TrimmedIntents(d.Matrix()) && MatrixOk(d.Matrix())
    ensures fault == None <==> intent in TrimmedIntents(d.Matrix())
    ensures fault.Some? ==> TransferFault(d, fault.value)
  {
    NoBlankIntent(d.Matrix());
    hide Trim, PublishedIntent, ToolTransfer, TrimmedIntents, MatrixOk;
    if intent == "" { return Some(TransferWithoutIntent(i)); }
    if intent !in intents { return Some(TransferUnknownIntent(i)); }
    // The program checks here that the row has a number, and after the loop
    // that the matrix is not empty; neither check can fail any more.
    RowHasNumber(d.Matrix(), intent);
    fault := None;
  }

  /** Publish-time validation: says exactly whether a document is acceptable,
      and when it is not, names the first check that it fails. */
  method Validate(doc: Option<Document>) returns (fault: Option<Reason>)
    ensures doc == None <==> fault == Some(NilDocument)
    ensures doc.Some? ==> (fault == None <==> Accepted(doc.value))
    ensures doc.Some? && fault.Some? ==> Fault(doc.value, fault.value)
  {
    if doc == None { return Some(NilDocument); }
    var d := doc.value;
    hide Trim, SchemaId;
    if d.schemaId != SchemaId() { return Some(BadSchema); }
    if Trim(d.defaultLocale) == "" { return Some(NoDefaultLocale); }
    if d.nodes == None { return Some(NoNodes); }
    if d.edges == None { return Some(NoEdges); }
    if d.prompts == None { return Some(NoPrompts); }
    if d.matrix == None { return Some(NoMatrix); }
    if d.bindingRefs == None { return Some(NoBindingRefs); }
    hide NodesOk, EntryOk, BindingsOk, EdgesOk, PromptsOk, MatrixOk, TransfersOk;
    hide NodeFault, EntryFault, EdgeFault, PromptFault, MatrixFault, TransferFault;
    var byId, entries, intents;
    fault, byId, entries := CheckNodes(d.Nodes());
    if fault.Some? { return; }
    fault := CheckEntry(d, byId, entries);
    if fault.Some? { return; }
    fault := CheckBindings(d);
    if fault.Some? { return; }
    fault := CheckEdges(d, byId.Keys);
    if fault.Some? { return; }
    fault := CheckPrompts(d);
    if fault.Some? { return; }
    fault, intents := CheckMatrix(d.Matrix());
    if fault.Some? { return; }
    fault := CheckTransfers(d, intents);
  }

  // ---------------------------------------------------------------- the first fault

  lemma NodeFaultFirst(ns: seq<Node>, r: Reason, q: Reason)
    requires NodeFault(ns, r)
    ensures !NodesOk(ns) && (NodeFault(ns, q) ==> r == q)
  {
    NodeFaultBreaks(ns, r);
    if NodeFault(ns, q) {
      NodeFaultBreaks(ns, q);
      hide Trim, IdsBefore, NodeOk, KnownTool, NodeFault;
      assert r.i == q.i;
      SameNodeFault(ns, r, q);
    }
    hide Trim, IdsBefore, NodeOk, KnownTool, NodeFault;
  }

  lemma SameNodeFault(ns: seq<Node>, r: Reason, q: Reason)
    requires NodeFault(ns, r) && NodeFault(ns, q) && IsNodeReason(r) && IsNodeReason(q) && r.i == q.i
    ensures r == q
  {
    hide Trim, IdsBefore, KnownTool, NodesOkTo;
  }

  predicate IsNodeReason(r: Reason) {
    r.BlankNodeId? || r.DuplicateNodeId? || r.UnknownNodeKind? || r.BadTool? || r.NoBinding?
  }

  /** The item of a fault breaks the rules, and those before it keep them. */
  lemma NodeFaultBreaks(ns: seq<Node>, r: Reason)
    requires NodeFault(ns, r)
    ensures IsNodeReason(r)
    ensures FirstNode(ns, r.i) && !(NodeOk(ns[r.i]) && Trim(ns[r.i].id) !in IdsBefore(ns, r.i))
  {
    hide Trim, IdsBefore, KnownTool;
  }

  lemma EdgeFaultFirst(d: Document, r: Reason, q: Reason)
    requires EdgeFault(d, r)
    ensures !EdgesOk(d) && (EdgeFault(d, q) ==> r == q)
  {
    EdgeFaultBreaks(d, r);
    if EdgeFault(d, q) { EdgeFaultBreaks(d, q); }
    hide Trim, EdgeOk, IdsBefore;
  }

  lemma EdgeFaultBreaks(d: Document, r: Reason)
    requires EdgeFault(d, r)
    ensures r.BlankEdgeId? || r.UnknownEdgeKind? || r.UnknownFrom? || r.UnknownTo?
    ensures FirstEdge(d.Edges(), r.i, TrimmedIds(d.Nodes())) && !EdgeOk(d.Edges()[r.i], TrimmedIds(d.Nodes()))
  {
    hide Trim, IdsBefore;
  }

  lemma MatrixFaultFirst(rows: seq<MatrixRow>, r: Reason, q: Reason)
    requires MatrixFault(rows, r)
    ensures !MatrixOk(rows) && (MatrixFault(rows, q) ==> r == q)
  {
    MatrixFaultBreaks(rows, r);
    if MatrixFault(rows, q) {
      MatrixFaultBreaks(rows, q);
      hide Trim, IntentsBefore, RowOk, MatrixFault;
      assert r.i == q.i;
      SameMatrixFault(rows, r, q);
    }
    hide Trim, IntentsBefore, RowOk, MatrixFault;
  }

  lemma SameMatrixFault(rows: seq<MatrixRow>, r: Reason, q: Reason)
    requires MatrixFault(rows, r) && MatrixFault(rows, q) && IsMatrixReason(r) && IsMatrixReason(q) && r.i == q.i
    ensures r == q
  {
    hide Trim, IntentsBefore, RowsOkTo, ToolTransfer, ValidDispositionFinal, RowOwned;
  }

  predicate IsMatrixReason(r: Reason) {
    || r.BlankIntent? || r.DuplicateIntent? || r.NoOwnerOrTarget? || r.BadAction? || r.BlankNumber?
    || r.BadDisposition?
  }

  lemma MatrixFaultBreaks(rows: seq<MatrixRow>, r: Reason)
    requires MatrixFault(rows, r)
    ensures IsMatrixReason(r)
    ensures FirstRow(rows, r.i) && !(RowOk(rows[r.i]) && Trim(rows[r.i].intent) !in IntentsBefore(rows, r.i))
  {
    hide Trim, IntentsBefore, ToolTransfer, ValidDispositionFinal, RowsOkTo;
  }

  lemma EntryFaultFirst(d: Document, r: Reason, q: Reason)
    requires NodesOk(d.Nodes()) && EntryFault(d, r)
    ensures !EntryOk(d) && (EntryFault(d, q) ==> r == q)
  {
    hide Trim, IdsBefore, Entries, NodesOk;
    var ns, id := d.Nodes(), Trim(d.entryNodeId);
    IdsBeforeHas(ns, |ns|, id);
    if i, j :| 0 <= i < |ns| && 0 <= j < |ns| && Trim(ns[i].id) == Trim(ns[j].id) == id && i != j {
      TrimmedIdsDiffer(ns, i, j);
    }
  }

  lemma PromptFaultFirst(d: Document, r: Reason, q: Reason)
    requires PromptFault(d, r)
    ensures !PromptsOk(d) && (PromptFault(d, q) ==> r == q)
  {
    hide Trim, TextFor;
    assert r.MissingPrompt? || r.NoDefaultText?;
    assert !PromptOk(d, d.Nodes()[r.i]);
  }

  lemma TransferFaultFirst(d: Document, r: Reason, q: Reason)
    requires MatrixOk(d.Matrix()) && TransferFault(d, r)
    ensures !TransfersOk(d) && (TransferFault(d, q) ==> r == q)
  {
    NoBlankIntent(d.Matrix());
    hide Trim, PublishedIntent, TrimmedIntents, ToolTransfer, MatrixOk, IsTransfer;
    assert r.TransferWithoutIntent? || r.TransferUnknownIntent?;
    assert !TransferOk(d, d.Nodes()[r.i]);
  }

  lemma BindingFaultFirst(d: Document, r: Reason, q: Reason)
    requires BindingFault(d, r)
    ensures !BindingsOk(d) && (BindingFault(d, q) ==> r == q)
  {
    hide Trim, TrimmedRefs;
  }

  lemma EnvelopeFaultFirst(d: Document, r: Reason, q: Reason)
    requires EnvelopeFault(d, r)
    ensures !HasEnvelope(d) && (EnvelopeFault(d, q) ==> r == q)
  {
    hide Trim, SchemaId;
  }

  /** A document has at most one first fault, and none when it is acceptable: with
      what Validate promises, the fault it reports is determined. */
  lemma FirstFaultIsOnly(d: Document, r: Reason, q: Reason)
    requires Fault(d, r) && Fault(d, q)
    ensures r == q && !Accepted(d)
  {
    hide HasEnvelope, NodesOk, EntryOk, BindingsOk, EdgesOk, PromptsOk, MatrixOk, TransfersOk;
    hide EnvelopeFault, NodeFault, EntryFault, BindingFault, EdgeFault, PromptFault, MatrixFault, TransferFault;
    OnlyInGroup(d, r, q);
    OnlyInGroup(d, q, r);
  }

  lemma OnlyInGroup(d: Document, r: Reason, q: Reason)
    requires Fault(d, r)
    ensures EnvelopeFault(d, r) ==> !HasEnvelope(d) && (EnvelopeFault(d, q) ==> r == q)
    ensures NodeFault(d.Nodes(), r) ==> !NodesOk(d.Nodes()) && (NodeFault(d.Nodes(), q) ==> r == q)
    ensures Passes(d, 2) && EntryFault(d, r) ==> !EntryOk(d) && (EntryFault(d, q) ==> r == q)
    ensures BindingFault(d, r) ==> !BindingsOk(d) && (BindingFault(d, q) ==> r == q)
    ensures EdgeFault(d, r) ==> !EdgesOk(d) && (EdgeFault(d, q) ==> r == q)
    ensures PromptFault(d, r) ==> !PromptsOk(d) && (PromptFault(d, q) ==> r == q)
    ensures MatrixFault(d.Matrix(), r) ==> !MatrixOk(d.Matrix()) && (MatrixFault(d.Matrix(), q) ==> r == q)
    ensures Passes(d, 7) && TransferFault(d, r) ==> !TransfersOk(d) && (TransferFault(d, q) ==> r == q)
  {
    hide HasEnvelope, NodesOk, EntryOk, BindingsOk, EdgesOk, PromptsOk, MatrixOk, TransfersOk;
    hide EnvelopeFault, NodeFault, EntryFault, BindingFault, EdgeFault, PromptFault, MatrixFault, TransferFault;
    if EnvelopeFault(d, r) { EnvelopeFaultFirst(d, r, q); }
    if NodeFault(d.Nodes(), r) { NodeFaultFirst(d.Nodes(), r, q); }
    if Passes(d, 2) && EntryFault(d, r) { EntryFaultFirst(d, r, q); }
    if BindingFault(d, r) { BindingFaultFirst(d, r, q); }
    if EdgeFault(d, r) { EdgeFaultFirst(d, r, q); }
    if PromptFault(d, r) { PromptFaultFirst(d, r, q); }
    if MatrixFault(d.Matrix(), r) { MatrixFaultFirst(d.Matrix(), r, q); }
    if Passes(d, 7) && TransferFault(d, r) { TransferFaultFirst(d, r, q); }
  }
}
