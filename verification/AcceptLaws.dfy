/** Which documents validation accepts, written out from the document alone, and
    changes that keep a document acceptable. */
module AcceptLaws {
  import opened Wrappers
  import opened Text
  import opened Flow

  // ---------------------------------------------------------------- written out

  ghost predicate NodePublishable(d: Document, n: Node) {
    && Trim(n.id) != "" && !n.kind.OtherNode?
    && (n.kind.Tool? ==> Trim(n.tool) == "transfer" || Trim(n.tool) == "hangup")
    && (n.kind.Inform? ==> Trim(n.bindingRef) != "" && Declared(d, Trim(n.bindingRef)))
    && (Trim(n.promptRef) != "" ==> Spoken(d, Trim(n.promptRef)))
  }

  ghost predicate Declared(d: Document, ref: string) {
    d.bindingRefs.Some? && exists b <- d.bindingRefs.value :: Trim(b) == ref
  }

  /** The prompt has a non-blank text in the default locale. */
  ghost predicate Spoken(d: Document, ref: string) {
    && d.prompts.Some? && ref in d.prompts.value && d.prompts.value[ref].Some?
    && d.defaultLocale in d.prompts.value[ref].value && Trim(d.prompts.value[ref].value[d.defaultLocale]) != ""
  }

  ghost predicate EdgePublishable(ns: seq<Node>, e: Edge) {
    && Trim(e.id) != "" && !e.kind.OtherEdge?
    && (exists n <- ns :: Trim(n.id) == e.from) && (exists n <- ns :: Trim(n.id) == e.to)
  }

  predicate Disposition(code: string) {
    || code == "transferred_sales" || code == "transferred_corporate" || code == "transferred_support"
    || code == "transferred_other" || code == "hangup_completed" || code == "hangup_silence" || code == "hangup_abuse"
    || code == "out_of_scope" || code == "abandoned_caller" || code == "system_failure"
  }

  predicate RowPublishable(r: MatrixRow) {
    && Trim(r.intent) != "" && Trim(r.owner) != "" && Trim(r.target) != "" && Trim(r.action) == "transfer"
    && Trim(r.number) != "" && (Trim(r.dispositionCode) != "" ==> Disposition(Trim(r.dispositionCode)))
  }

  /** A transfer node's intent: its own, or that of the first edge that leaves it with one. */
  ghost predicate HasIntent(n: Node, es: seq<Edge>, intent: string) {
    intent != "" &&
    if Trim(n.matrixIntent) != "" then intent == Trim(n.matrixIntent)
    else exists k :: FirstBringing(n, es, k) && intent == Trim(es[k].matrixIntent)
  }

  predicate FirstBringing(n: Node, es: seq<Edge>, k: int) {
    && 0 <= k < |es| && es[k].from == n.id && Trim(es[k].matrixIntent) != ""
    && forall j :: 0 <= j < k ==> es[j].from != n.id || Trim(es[j].matrixIntent) == ""
  }

  ghost predicate TransferPublishable(d: Document, n: Node) {
    n.kind.Tool? && Trim(n.tool) == "transfer" ==>
      exists intent :: HasIntent(n, d.Edges(), intent) && exists r <- d.Matrix() :: Trim(r.intent) == intent
  }

  predicate DifferentIds(ns: seq<Node>) {
    forall i, j :: 0 <= i < j < |ns| ==> Trim(ns[i].id) != Trim(ns[j].id)
  }

  predicate DifferentIntents(rows: seq<MatrixRow>) {
    forall i, j :: 0 <= i < j < |rows| ==> Trim(rows[i].intent) != Trim(rows[j].intent)
  }

  predicate OnlyEntry(ns: seq<Node>, i: int) {
    0 <= i < |ns| && ns[i].kind.Entry? && forall j :: 0 <= j < |ns| && j != i ==> !ns[j].kind.Entry?
  }

  ghost predicate Publishable(d: Document) {
    && d.schemaId == "coral.flow.v1" && Trim(d.defaultLocale) != ""
    && d.nodes.Some? && d.edges.Some? && d.prompts.Some? && d.matrix.Some? && d.bindingRefs.Some?
    && (forall n <- d.nodes.value :: NodePublishable(d, n)) && DifferentIds(d.nodes.value)
    && (exists i :: OnlyEntry(d.nodes.value, i) && Trim(d.nodes.value[i].id) == Trim(d.entryNodeId))
    && (forall e <- d.edges.value :: EdgePublishable(d.nodes.value, e))
    && (forall r <- d.matrix.value :: RowPublishable(r)) && DifferentIntents(d.matrix.value)
    && (forall n <- d.nodes.value :: TransferPublishable(d, n))
  }

  // ---------------------------------------------------------------- validation accepts just these

  lemma Literals()
    ensures SchemaId() == "coral.flow.v1" && ToolTransfer() == "transfer" && ToolHangup() == "hangup"
    ensures forall code :: ValidDispositionFinal(code) <==> Disposition(code)
  {
  }

  lemma NodesOkIff(ns: seq<Node>)
    ensures NodesOk(ns) <==> (forall i :: 0 <= i < |ns| ==> NodeOk(ns[i])) && DifferentIds(ns)
  {
    hide Trim, NodeOk, IdsBefore;
    forall i | 0 <= i < |ns|
      ensures Trim(ns[i].id) in IdsBefore(ns, i) <==> exists j :: 0 <= j < i && Trim(ns[j].id) == Trim(ns[i].id)
    {
      IdsBeforeHas(ns, i, Trim(ns[i].id));
    }
  }

  lemma MatrixOkIff(rows: seq<MatrixRow>)
    ensures MatrixOk(rows) <==> (forall i :: 0 <= i < |rows| ==> RowOk(rows[i])) && DifferentIntents(rows)
  {
    hide Trim, RowOk, IntentsBefore;
    forall i | 0 <= i < |rows|
      ensures Trim(rows[i].intent) in IntentsBefore(rows, i) <==>
              exists j :: 0 <= j < i && Trim(rows[j].intent) == Trim(rows[i].intent)
    {
      IntentsBeforeHas(rows, i, Trim(rows[i].intent));
    }
  }

  predicate OnlyEntryBefore(ns: seq<Node>, k: nat, i: int) {
    0 <= i < k <= |ns| && ns[i].kind.Entry? && forall j :: 0 <= j < k && j != i ==> !ns[j].kind.Entry?
  }

  lemma {:induction false} EntriesIs(ns: seq<Node>, k: nat)
    requires k <= |ns|
    ensures Entries(ns, k) == 0 <==> forall j :: 0 <= j < k ==> !ns[j].kind.Entry?
    ensures Entries(ns, k) == 1 <==> exists i :: OnlyEntryBefore(ns, k, i)
  {
    if k > 0 {
      EntriesIs(ns, k - 1);
      var last := k - 1;
      if ns[last].kind.Entry? {
        if Entries(ns, last) == 0 { assert OnlyEntryBefore(ns, k, last); }
        if i :| OnlyEntryBefore(ns, k, i) { assert i == last; }
      } else {
        if i :| OnlyEntryBefore(ns, last, i) { assert OnlyEntryBefore(ns, k, i); }
        if i :| OnlyEntryBefore(ns, k, i) { assert OnlyEntryBefore(ns, last, i); }
      }
    }
  }

  lemma EntryOkIff(d: Document)
    requires NodesOk(d.Nodes())
    ensures EntryOk(d) <==> exists i :: OnlyEntry(d.Nodes(), i) && Trim(d.Nodes()[i].id) == Trim(d.entryNodeId)
  {
    var ns := d.Nodes();
    NodesOkIff(ns);
    EntriesIs(ns, |ns|);
    hide Trim, NodesOk, Entries, DifferentIds, NodeFieldsOk;
    if EntryOk(d) {
      var i :| OnlyEntryBefore(ns, |ns|, i);
      var j :| 0 <= j < |ns| && Trim(ns[j].id) == Trim(d.entryNodeId) && ns[j].kind.Entry?;
      assert OnlyEntry(ns, i) && i == j;
    }
    if i :| OnlyEntry(ns, i) && Trim(ns[i].id) == Trim(d.entryNodeId) {
      assert OnlyEntryBefore(ns, |ns|, i) && NodeOk(ns[i]);
    }
  }

  lemma {:induction false} RefsBeforeHas(refs: seq<string>, k: nat, ref: string)
    requires k <= |refs|
    ensures ref in RefsBefore(refs, k) <==> ref != "" && exists i :: 0 <= i < k && Trim(refs[i]) == ref
  {
    hide Trim;
    if k > 0 { RefsBeforeHas(refs, k - 1, ref); }
  }

  lemma {:induction false} PublishedIntentIs(n: Node, es: seq<Edge>, k: nat)
    requires k <= |es| && Trim(n.matrixIntent) == ""
    requires forall j :: 0 <= j < k ==> es[j].from != n.id || Trim(es[j].matrixIntent) == ""
    ensures forall intent :: HasIntent(n, es, intent) <==> intent != "" && PublishedIntent(n, es, k) == intent
    decreases |es| - k
  {
    hide Trim;
    if k < |es| {
      if es[k].from == n.id && Trim(es[k].matrixIntent) != "" {
        assert FirstBringing(n, es, k);
        forall m | FirstBringing(n, es, m) ensures m == k { }
      } else {
        PublishedIntentIs(n, es, k + 1);
      }
    }
  }

  lemma HasIntentIs(n: Node, es: seq<Edge>)
    ensures forall intent :: HasIntent(n, es, intent) <==> intent != "" && PublishedIntent(n, es, 0) == intent
  {
    if Trim(n.matrixIntent) == "" { PublishedIntentIs(n, es, 0); }
    hide Trim;
  }

  lemma TransferOkIff(d: Document, n: Node)
    requires MatrixOk(d.Matrix())
    ensures TransferOk(d, n) <==> TransferPublishable(d, n)
  {
    var rows, intent := d.Matrix(), PublishedIntent(n, d.Edges(), 0);
    Literals();
    NoBlankIntent(rows);
    HasIntentIs(n, d.Edges());
    IntentsBeforeHas(rows, |rows|, intent);
    hide Trim, IntentsBefore, PublishedIntent, HasIntent, MatrixOk, ToolTransfer;
    if intent in TrimmedIntents(rows) {
      var i :| 0 <= i < |rows| && Trim(rows[i].intent) == intent;
      assert rows[i] in rows && HasIntent(n, d.Edges(), intent);
    }
  }

  lemma NodeIff(d: Document, n: Node)
    requires d.prompts.Some? && d.bindingRefs.Some?
    ensures NodePublishable(d, n) <==> NodeOk(n) && BindingOk(d, n) && PromptOk(d, n)
  {
    Literals();
    var refs := d.Refs();
    RefsBeforeHas(refs, |refs|, Trim(n.bindingRef));
    hide Trim, RefsBefore, ToolTransfer, ToolHangup;
    if Declared(d, Trim(n.bindingRef)) {
      var b :| b in refs && Trim(b) == Trim(n.bindingRef);
      var k :| 0 <= k < |refs| && refs[k] == b;
    }
  }

  lemma EdgeIff(ns: seq<Node>, e: Edge)
    ensures EdgePublishable(ns, e) <==> EdgeOk(e, TrimmedIds(ns))
  {
    IdHas(ns, e.from);
    IdHas(ns, e.to);
    hide Trim, TrimmedIds;
  }

  lemma IdHas(ns: seq<Node>, id: string)
    ensures id in TrimmedIds(ns) <==> exists n <- ns :: Trim(n.id) == id
  {
    IdsBeforeHas(ns, |ns|, id);
    hide Trim, IdsBefore;
    if n :| n in ns && Trim(n.id) == id { var k :| 0 <= k < |ns| && ns[k] == n; }
  }

  lemma RowIff(r: MatrixRow)
    ensures RowPublishable(r) <==> RowOk(r)
  {
    Literals();
    hide Trim, ToolTransfer, ValidDispositionFinal, Disposition;
  }

  /** Validation accepts a document exactly when it is publishable. */
  lemma AcceptedIff(d: Document)
    ensures Accepted(d) <==> Publishable(d)
  {
    Literals();
    hide Trim, SchemaId, ToolTransfer, ToolHangup, ValidDispositionFinal, Disposition, OnlyEntry;
    if HasEnvelope(d) {
      NodeListIff(d);
      EdgeListIff(d);
      RowListIff(d.Matrix());
      if NodesOk(d.Nodes()) { EntryOkIff(d); }
      if MatrixOk(d.Matrix()) { TransferListIff(d); }
      hide NodesOk, EntryOk, BindingsOk, EdgesOk, PromptsOk, MatrixOk, TransfersOk, NodePublishable, EdgePublishable,
        RowPublishable, TransferPublishable, DifferentIds, DifferentIntents;
    }
  }

  lemma EdgeListIff(d: Document)
    ensures EdgesOk(d) <==> forall e <- d.Edges() :: EdgePublishable(d.Nodes(), e)
  {
    forall e ensures EdgePublishable(d.Nodes(), e) <==> EdgeOk(e, TrimmedIds(d.Nodes())) { EdgeIff(d.Nodes(), e); }
    hide EdgePublishable, EdgeOk, TrimmedIds;
    if EdgesOk(d) {
      forall e | e in d.Edges() ensures EdgePublishable(d.Nodes(), e) {
        var k :| 0 <= k < |d.Edges()| && d.Edges()[k] == e;
      }
    }
  }

  lemma TransferListIff(d: Document)
    requires MatrixOk(d.Matrix())
    ensures TransfersOk(d) <==> forall n <- d.Nodes() :: TransferPublishable(d, n)
  {
    forall n ensures TransferOk(d, n) <==> TransferPublishable(d, n) { TransferOkIff(d, n); }
    TransfersItems(d);
    hide TransferPublishable, MatrixOk, TransferOk, TransfersOk;
    if TransfersOk(d) {
      forall n | n in d.Nodes() ensures TransferPublishable(d, n) {
        var k :| 0 <= k < |d.Nodes()| && d.Nodes()[k] == n;
      }
    }
  }

  lemma TransfersItems(d: Document)
    ensures TransfersOk(d) <==> forall i :: 0 <= i < |d.Nodes()| ==> TransferOk(d, d.Nodes()[i])
  {
    hide IsTransfer, TrimmedIntents, PublishedIntent;
  }

  lemma NodeListIff(d: Document)
    requires HasEnvelope(d)
    ensures (forall n <- d.Nodes() :: NodePublishable(d, n)) && DifferentIds(d.Nodes()) <==>
            NodesOk(d.Nodes()) && BindingsOk(d) && PromptsOk(d)
  {
    NodesOkIff(d.Nodes());
    forall n ensures NodePublishable(d, n) <==> NodeOk(n) && BindingOk(d, n) && PromptOk(d, n) { NodeIff(d, n); }
    hide Trim, NodesOk, NodeOk, NodePublishable, PromptOk, DifferentIds, TrimmedRefs;
    if NodesOk(d.Nodes()) && BindingsOk(d) && PromptsOk(d) {
      forall n | n in d.Nodes() ensures NodePublishable(d, n) {
        var k :| 0 <= k < |d.Nodes()| && d.Nodes()[k] == n;
      }
    }
  }

  lemma RowListIff(rows: seq<MatrixRow>)
    ensures MatrixOk(rows) <==> (forall r <- rows :: RowPublishable(r)) && DifferentIntents(rows)
  {
    MatrixOkIff(rows);
    forall r ensures RowPublishable(r) <==> RowOk(r) { RowIff(r); }
    hide Trim, MatrixOk, RowOk, RowPublishable, DifferentIntents;
  }

  // ---------------------------------------------------------------- keeping a document acceptable

  function WithNodes(d: Document, ns: seq<Node>): Document {
    d.(nodes := Some(ns))
  }

  /** What a node must satisfy depends on little else of its document. */
  lemma NodeFrame(d: Document, d': Document, n: Node)
    requires d'.bindingRefs == d.bindingRefs && d'.prompts == d.prompts && d'.defaultLocale == d.defaultLocale
    ensures NodePublishable(d, n) <==> NodePublishable(d', n)
  {
    hide Trim;
  }

  lemma TransferFrame(d: Document, d': Document, n: Node)
    requires d'.edges == d.edges && d'.matrix == d.matrix
    ensures TransferPublishable(d, n) <==> TransferPublishable(d', n)
  {
    assert d'.Edges() == d.Edges() && d'.Matrix() == d.Matrix();
    hide Trim, HasIntent;
  }

  lemma HangupWord()
    ensures "hangup" != "transfer" && "hangup" != ""
  {
    assert "hangup"[0] != "transfer"[0];
  }

  /** Two node lists with the same ids and entries in the same places. */
  ghost predicate Alike(ns: seq<Node>, ns': seq<Node>) {
    |ns| == |ns'| && forall i :: 0 <= i < |ns| ==> ns'[i].id == ns[i].id && (ns'[i].kind.Entry? <==> ns[i].kind.Entry?)
  }

  lemma AlikeKeeps(ns: seq<Node>, ns': seq<Node>)
    requires Alike(ns, ns')
    ensures DifferentIds(ns) ==> DifferentIds(ns')
    ensures forall i :: OnlyEntry(ns, i) ==> OnlyEntry(ns', i) && ns'[i].id == ns[i].id
    ensures forall e :: EdgePublishable(ns, e) ==> EdgePublishable(ns', e)
  {
    hide Trim;
    forall e | EdgePublishable(ns, e) ensures EdgePublishable(ns', e) {
      var n :| n in ns && Trim(n.id) == e.from;
      var i :| 0 <= i < |ns| && ns[i] == n;
      var m :| m in ns && Trim(m.id) == e.to;
      var j :| 0 <= j < |ns| && ns[j] == m;
      assert ns'[i] in ns' && ns'[j] in ns';
    }
  }

  /** Nodes that are fit, and alike those of a publishable document, can replace them. */
  lemma NodesReplaced(d: Document, ns: seq<Node>)
    requires Publishable(d) && Alike(d.Nodes(), ns)
    requires forall n <- ns :: NodePublishable(d, n) && TransferPublishable(d, n)
    ensures Publishable(WithNodes(d, ns))
  {
    AlikeKeeps(d.Nodes(), ns);
    forall n ensures NodePublishable(d, n) <==> NodePublishable(WithNodes(d, ns), n) { NodeFrame(d, WithNodes(d, ns), n); }
    forall n ensures TransferPublishable(d, n) <==> TransferPublishable(WithNodes(d, ns), n) {
      TransferFrame(d, WithNodes(d, ns), n);
    }
    var i :| OnlyEntry(d.Nodes(), i) && Trim(d.Nodes()[i].id) == Trim(d.entryNodeId);
    hide Trim, NodePublishable, TransferPublishable, EdgePublishable, RowPublishable, OnlyEntry, DifferentIds,
      DifferentIntents, Alike;
    assert OnlyEntry(ns, i) && Trim(ns[i].id) == Trim(d.entryNodeId);
  }

  lemma HangupFits(d: Document, n: Node, tool: string)
    requires NodePublishable(d, n) && n.kind.Tool? && Trim(tool) == "hangup"
    ensures NodePublishable(d, n.(tool := tool)) && TransferPublishable(d, n.(tool := tool))
  {
    HangupWord();
    hide Trim, HasIntent;
  }

  /** A Tool node may hang up instead, however the word is spaced. */
  lemma HangupKeepsAccepted(d: Document, i: nat, tool: string)
    requires Accepted(d) && i < |d.Nodes()| && d.Nodes()[i].kind.Tool? && Trim(tool) == "hangup"
    ensures Accepted(WithNodes(d, d.Nodes()[i := d.Nodes()[i].(tool := tool)]))
  {
    var ns := d.Nodes()[i := d.Nodes()[i].(tool := tool)];
    AcceptedIff(d);
    AcceptedIff(WithNodes(d, ns));
    hide Accepted, Publishable, Trim, NodePublishable, TransferPublishable;
    HangupNodesFit(d, i, tool);
    NodesReplaced(d, ns);
  }

  lemma HangupNodesFit(d: Document, i: nat, tool: string)
    requires Publishable(d) && i < |d.Nodes()| && d.Nodes()[i].kind.Tool? && Trim(tool) == "hangup"
    ensures
      var ns := d.Nodes()[i := d.Nodes()[i].(tool := tool)];
      Alike(d.Nodes(), ns) && forall m <- ns :: NodePublishable(d, m) && TransferPublishable(d, m)
  {
    var n := d.Nodes()[i];
    assert n in d.Nodes();
    HangupFits(d, n, tool);
    hide Trim, NodePublishable, TransferPublishable, EdgePublishable, RowPublishable, OnlyEntry, DifferentIds,
      DifferentIntents;
    forall m | m in d.Nodes()[i := n.(tool := tool)] ensures NodePublishable(d, m) && TransferPublishable(d, m) {
      assert m == n.(tool := tool) || m in d.Nodes();
    }
  }

  /** A node that is complete by itself: of any known kind but a second entry,
      and in particular one that hangs up. */
  ghost predicate Complete(d: Document, n: Node) {
    && Trim(n.id) != "" && (forall m <- d.Nodes() :: Trim(m.id) != Trim(n.id))
    && !n.kind.Entry? && !n.kind.OtherNode? && Trim(n.promptRef) == ""
    && (n.kind.Inform? ==> Trim(n.bindingRef) != "" && exists b <- d.Refs() :: Trim(b) == Trim(n.bindingRef))
    && (n.kind.Tool? ==> Trim(n.tool) == "hangup")
  }

  lemma CompleteFits(d: Document, n: Node)
    requires Complete(d, n)
    ensures NodePublishable(d, n) && TransferPublishable(d, n)
  {
    HangupWord();
    hide Trim, HasIntent;
  }

  lemma MoreNodes(ns: seq<Node>, n: Node)
    requires !n.kind.Entry? && forall m <- ns :: Trim(m.id) != Trim(n.id)
    ensures DifferentIds(ns) ==> DifferentIds(ns + [n])
    ensures forall i :: OnlyEntry(ns, i) ==> OnlyEntry(ns + [n], i) && (ns + [n])[i] == ns[i]
    ensures forall e :: EdgePublishable(ns, e) ==> EdgePublishable(ns + [n], e)
  {
    hide Trim;
    assert forall m <- ns :: m in ns + [n];
  }

  /** Such a node may always be added. */
  lemma NodeKeepsAccepted(d: Document, n: Node)
    requires Accepted(d) && Complete(d, n)
    ensures Accepted(WithNodes(d, d.Nodes() + [n]))
  {
    var ns := d.Nodes() + [n];
    AcceptedIff(d);
    AcceptedIff(WithNodes(d, ns));
    CompleteFits(d, n);
    MoreNodes(d.Nodes(), n);
    hide Complete, Accepted;
    NodeAdded(d, n);
    hide Publishable;
  }

  lemma NodeAdded(d: Document, n: Node)
    requires Publishable(d) && NodePublishable(d, n) && TransferPublishable(d, n)
    requires !n.kind.Entry? && forall m <- d.Nodes() :: Trim(m.id) != Trim(n.id)
    ensures Publishable(WithNodes(d, d.Nodes() + [n]))
  {
    var ns := d.Nodes() + [n];
    MoreNodes(d.Nodes(), n);
    forall m ensures NodePublishable(d, m) <==> NodePublishable(WithNodes(d, ns), m) { NodeFrame(d, WithNodes(d, ns), m); }
    forall m ensures TransferPublishable(d, m) <==> TransferPublishable(WithNodes(d, ns), m) {
      TransferFrame(d, WithNodes(d, ns), m);
    }
    var i :| OnlyEntry(d.Nodes(), i) && Trim(d.Nodes()[i].id) == Trim(d.entryNodeId);
    hide Trim, NodePublishable, TransferPublishable, EdgePublishable, RowPublishable, OnlyEntry, DifferentIds,
      DifferentIntents;
    assert OnlyEntry(ns, i) && ns[i] == d.Nodes()[i];
    assert forall m <- ns :: m in d.Nodes() || m == n;
  }

  /** An edge may be of any known kind. */
  lemma EdgeKindKeepsAccepted(d: Document, i: nat, kind: EdgeKind)
    requires Accepted(d) && i < |d.Edges()| && !kind.OtherEdge?
    ensures Accepted(d.(edges := Some(d.Edges()[i := d.Edges()[i].(kind := kind)])))
  {
    var d' := d.(edges := Some(d.Edges()[i := d.Edges()[i].(kind := kind)]));
    AcceptedIff(d);
    AcceptedIff(d');
    hide Accepted;
    EdgeReplaced(d, i, kind);
    hide Publishable;
  }

  lemma EdgeReplaced(d: Document, i: nat, kind: EdgeKind)
    requires Publishable(d) && i < |d.Edges()| && !kind.OtherEdge?
    ensures Publishable(d.(edges := Some(d.Edges()[i := d.Edges()[i].(kind := kind)])))
  {
    var d' := d.(edges := Some(d.Edges()[i := d.Edges()[i].(kind := kind)]));
    EdgesFit(d.Nodes(), d.Edges(), i, kind);
    OthersKept(d, d');
    hide Trim, NodePublishable, TransferPublishable, EdgePublishable, OnlyEntry, DifferentIds, DifferentIntents,
      RowPublishable;
  }

  /** Nodes stay fit when only kinds of edges and dispositions of rows change. */
  lemma OthersKept(d: Document, d': Document)
    requires d'.bindingRefs == d.bindingRefs && d'.prompts == d.prompts && d'.defaultLocale == d.defaultLocale
    requires |d'.Edges()| == |d.Edges()| && |d'.Matrix()| == |d.Matrix()|
    requires forall k :: 0 <= k < |d.Edges()| ==>
                           d'.Edges()[k].from == d.Edges()[k].from && d'.Edges()[k].matrixIntent == d.Edges()[k].matrixIntent
    requires forall k :: 0 <= k < |d.Matrix()| ==> d'.Matrix()[k].intent == d.Matrix()[k].intent
    ensures forall n :: NodePublishable(d, n) ==> NodePublishable(d', n)
    ensures forall n :: TransferPublishable(d, n) ==> TransferPublishable(d', n)
  {
    forall n | NodePublishable(d, n) ensures NodePublishable(d', n) { NodeFrame(d, d', n); }
    forall n | TransferPublishable(d, n) ensures TransferPublishable(d', n) { TransferKept(d, d', n); }
  }

  lemma EdgesFit(ns: seq<Node>, es: seq<Edge>, i: nat, kind: EdgeKind)
    requires i < |es| && !kind.OtherEdge? && forall e <- es :: EdgePublishable(ns, e)
    ensures forall e <- es[i := es[i].(kind := kind)] :: EdgePublishable(ns, e)
  {
    assert EdgePublishable(ns, es[i]);
    assert EdgePublishable(ns, es[i].(kind := kind)) by { hide Trim; }
    hide EdgePublishable;
  }

  /** Whether a transfer has its row depends on the intents of edges and rows alone. */
  lemma TransferKept(d: Document, d': Document, n: Node)
    requires |d'.Edges()| == |d.Edges()| && |d'.Matrix()| == |d.Matrix()| && TransferPublishable(d, n)
    requires forall k :: 0 <= k < |d.Edges()| ==>
                           d'.Edges()[k].from == d.Edges()[k].from && d'.Edges()[k].matrixIntent == d.Edges()[k].matrixIntent
    requires forall k :: 0 <= k < |d.Matrix()| ==> d'.Matrix()[k].intent == d.Matrix()[k].intent
    ensures TransferPublishable(d', n)
  {
    hide Trim, HasIntent;
    if n.kind.Tool? && Trim(n.tool) == "transfer" {
      var intent :| HasIntent(n, d.Edges(), intent) && exists r <- d.Matrix() :: Trim(r.intent) == intent;
      IntentKept(n, d.Edges(), d'.Edges(), intent);
      var r :| r in d.Matrix() && Trim(r.intent) == intent;
      var k :| 0 <= k < |d.Matrix()| && d.Matrix()[k] == r;
      assert d'.Matrix()[k] in d'.Matrix() && Trim(d'.Matrix()[k].intent) == intent;
    }
  }

  lemma IntentKept(n: Node, es: seq<Edge>, es': seq<Edge>, intent: string)
    requires HasIntent(n, es, intent) && |es| == |es'|
    requires forall k :: 0 <= k < |es| ==> es'[k].from == es[k].from && es'[k].matrixIntent == es[k].matrixIntent
    ensures HasIntent(n, es', intent)
  {
    hide Trim;
    if Trim(n.matrixIntent) == "" {
      var k :| FirstBringing(n, es, k) && intent == Trim(es[k].matrixIntent);
      assert FirstBringing(n, es', k);
    }
  }

  /** A row may have any disposition of the closed list, or none. */
  lemma DispositionKeepsAccepted(d: Document, i: nat, code: string)
    requires Accepted(d) && i < |d.Matrix()| && (Trim(code) == "" || Disposition(Trim(code)))
    ensures Accepted(d.(matrix := Some(d.Matrix()[i := d.Matrix()[i].(dispositionCode := code)])))
  {
    var d' := d.(matrix := Some(d.Matrix()[i := d.Matrix()[i].(dispositionCode := code)]));
    AcceptedIff(d);
    AcceptedIff(d');
    hide Accepted, Disposition;
    RowReplaced(d, i, code);
    hide Publishable;
  }

  lemma RowReplaced(d: Document, i: nat, code: string)
    requires Publishable(d) && i < |d.Matrix()| && (Trim(code) == "" || Disposition(Trim(code)))
    ensures Publishable(d.(matrix := Some(d.Matrix()[i := d.Matrix()[i].(dispositionCode := code)])))
  {
    var d' := d.(matrix := Some(d.Matrix()[i := d.Matrix()[i].(dispositionCode := code)]));
    hide Trim, NodePublishable, TransferPublishable, EdgePublishable, OnlyEntry, DifferentIds, DifferentIntents,
      RowPublishable, Disposition;
    RowsFit(d.Matrix(), i, code);
    OthersKept(d, d');
  }

  lemma RowsFit(rows: seq<MatrixRow>, i: nat, code: string)
    requires i < |rows| && (Trim(code) == "" || Disposition(Trim(code)))
    requires DifferentIntents(rows) && forall r <- rows :: RowPublishable(r)
    ensures var rows' := rows[i := rows[i].(dispositionCode := code)];
            DifferentIntents(rows') && forall r <- rows' :: RowPublishable(r)
  {
    assert RowPublishable(rows[i]);
    assert RowPublishable(rows[i].(dispositionCode := code)) by { hide Trim, Disposition; }
    hide RowPublishable, Trim;
  }
}
