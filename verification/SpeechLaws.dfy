/** What a turn says, from the document's own texts and the lookup's own answers. */
module SpeechLaws {
  import opened Wrappers
  import opened Text
  import opened Flow
  import opened FlowWalk
  import opened TurnLaws
  import opened RunLaws
  import opened ChoiceLaws
  import opened MatchLaws

  // ---------------------------------------------------------------- one prompt

  /** The document has this non-blank text for a prompt in a locale. */
  ghost predicate HasText(d: Document, ref: string, locale: string, text: string) {
    && d.prompts.Some? && ref in d.prompts.value && d.prompts.value[ref].Some?
    && locale in d.prompts.value[ref].value && text == Trim(d.prompts.value[ref].value[locale]) && text != ""
  }

  ghost predicate Silent(d: Document, ref: string, locale: string) {
    forall text :: !HasText(d, ref, locale, text)
  }

  /** What a prompt reference means in a locale: nothing to say when it is blank,
      else the text of that locale, else the text of the default locale. */
  ghost predicate Means(d: Document, locale: string, promptRef: string, text: string) {
    var ref := Trim(promptRef);
    if ref == "" then text == ""
    else HasText(d, ref, locale, text) || (Silent(d, ref, locale) && HasText(d, ref, d.defaultLocale, text))
  }

  /** A prompt is resolved to what it means, and fails exactly when that is nothing. */
  lemma ResolveMeans(env: Env, locale: string, promptRef: string)
    ensures forall text :: Means(env.doc, locale, promptRef, text) <==> Resolve(env, locale, promptRef) == Some(text)
    ensures Resolve(env, locale, promptRef) == None <==> forall text :: !Means(env.doc, locale, promptRef, text)
  {
    hide Trim;
    var d, ref := env.doc, Trim(promptRef);
    TextHas(d, ref, locale);
    TextHas(d, ref, d.defaultLocale);
    var r := Resolve(env, locale, promptRef);
    if r.Some? { assert Means(d, locale, promptRef, r.value); }
    hide HasText, TextFor;
  }

  lemma TextHas(d: Document, ref: string, locale: string)
    ensures d.Prompt(ref) == None ==> Silent(d, ref, locale)
    ensures d.Prompt(ref).Some? ==>
              var t := TextFor(d.Prompt(ref).value, locale);
              if t == "" then Silent(d, ref, locale) else forall text :: HasText(d, ref, locale, text) <==> text == t
  {
    hide Trim;
  }

  // ---------------------------------------------------------------- one node

  /** A node says a line: a Speak or Tool node what its prompt means in the
      locale, an Inform node what the lookup answers to its binding, the last
      query and the locale, and anything else nothing. A node that has nothing
      to say, or that the lookup leaves unanswered, says nothing. */
  ghost predicate Says(w: World, id: string, line: string) {
    if id !in w.env.nodes then line == ""
    else
      var n := w.env.nodes[id];
      if n.kind.Speak? || n.kind.Tool? then
        Means(w.env.doc, w.locale, n.promptRef, line) ||
        (line == "" && forall text :: !Means(w.env.doc, w.locale, n.promptRef, text))
      else if n.kind.Inform? then
        if Trim(n.bindingRef) != "" && w.lookup.Some? && w.lookup.value(Trim(n.bindingRef), w.query, w.locale).Some? then
          w.lookup.value(Trim(n.bindingRef), w.query, w.locale) == Some(line)
        else line == ""
      else line == ""
  }

  lemma NodeSays(w: World, id: string)
    ensures forall line :: Says(w, id, line) <==> line == NodeText(w, id)
  {
    if id in w.env.nodes { ResolveMeans(w.env, w.locale, w.env.nodes[id].promptRef); }
    hide Resolve, Means, Trim;
  }

  /** A Speak node whose prompt means nothing fails the walk. */
  lemma WordlessSpeakFails(env: Env, s: State)
    requires s.nodeId in env.nodes && env.nodes[s.nodeId].kind.Speak?
    requires forall text :: !Means(env.doc, s.locale, env.nodes[s.nodeId].promptRef, text)
    ensures FlowWalk.Walk(env, s).1 == Failure(NoPromptText)
  {
    ResolveMeans(env, s.locale, env.nodes[s.nodeId].promptRef);
    hide Resolve, Means;
    assert StopsIn(WorldOf(env, s), s.nodeId, 0);
  }

  // ---------------------------------------------------------------- one turn

  function NonEmpty(lines: seq<string>): seq<string> {
    if lines == [] then []
    else if lines[0] == "" then NonEmpty(lines[1..])
    else [lines[0]] + NonEmpty(lines[1..])
  }

  /** The nodes of a path: where each edge leaves, and where the last one led. */
  function PathNodes(taken: seq<Take>, at: string): (ids: seq<string>)
    ensures |ids| == |taken| + 1
  {
    seq(|taken| + 1, i requires 0 <= i <= |taken| => if i < |taken| then taken[i].from else at)
  }

  /** Lines that the nodes of a path say, in order, the empty ones left out. */
  ghost predicate Recites(w: World, taken: seq<Take>, at: string, lines: seq<string>) {
    exists said: seq<string> ::
      && |said| == |taken| + 1 && lines == NonEmpty(said)
      && forall i :: 0 <= i <= |taken| ==> Says(w, PathNodes(taken, at)[i], said[i])
  }

  lemma {:induction false} SpokenIs(w: World, ids: seq<string>) returns (said: seq<string>)
    ensures |said| == |ids| && Spoken(w, ids) == NonEmpty(said)
    ensures forall i :: 0 <= i < |ids| ==> Says(w, ids[i], said[i])
  {
    said := [];
    if ids != [] {
      NodeSays(w, ids[0]);
      var rest := SpokenIs(w, ids[1..]);
      said := [NodeText(w, ids[0])] + rest;
      hide Says, NodeText;
      assert said[1..] == rest;
    }
  }

  lemma {:induction false} FromsAre(taken: seq<Take>)
    ensures |Froms(taken)| == |taken| && forall i :: 0 <= i < |taken| ==> Froms(taken)[i] == taken[i].from
  {
    if taken != [] { FromsAre(taken[1..]); }
  }

  lemma ReportsRecite(w: World, from: string, t: Turn, s: State)
    requires Reports(w, from, t, s)
    ensures Recites(w, t.taken, s.nodeId, t.lines)
  {
    FromsAre(t.taken);
    var ids := Froms(t.taken) + [s.nodeId];
    var said := SpokenIs(w, ids);
    assert PathNodes(t.taken, s.nodeId) == ids;
    hide Says, Spoken, NonEmpty;
  }

  /** A successful walk says exactly what the nodes on its path say. */
  lemma WalkRecites(env: Env, s: State)
    requires FlowWalk.Walk(env, s).1.Success?
    ensures
      var r := FlowWalk.Walk(env, s);
      Recites(WorldOf(env, s), r.1.value.taken, r.0.nodeId, r.1.value.lines)
  {
    WalkReports(env, s);
    ReportsRecite(WorldOf(env, s), s.nodeId, FlowWalk.Walk(env, s).1.value, FlowWalk.Walk(env, s).0);
    hide FlowWalk.Walk, Recites;
  }

  /** So does a successful utterance that moves, with the words just heard as
      the query and in the locale the turn leaves behind. */
  lemma UtterRecites(env: Env, s: State, text: string)
    requires Utter(env, s, text).1.Success? && !s.blockTool
    ensures
      var r := Utter(env, s, text);
      && r.0.lastQuery == Trim(text)
      && (r.1.value.taken != [] ==> Recites(WorldOf(env, r.0), r.1.value.taken, r.0.nodeId, r.1.value.lines))
  {
    UtterAnswers(env, s, text);
    hide Utter, Reports, Recites, Trim;
    var r := Utter(env, s, text);
    if r.1.value.taken != [] { ReportsRecite(WorldOf(env, r.0), s.nodeId, r.1.value, r.0); }
  }

  /** An utterance that an edge wins leaves by that edge; a language edge also
      sets the locale, of the turn and of everything said from then on. */
  lemma WinnerIsTaken(env: Env, s: State, text: string, i: nat)
    requires Listening(env, s.nodeId) && Normalize(text, env.lower) != "" && !s.blockTool
    requires Wins(Normalize(text, env.lower), OutEdges(env.doc.Edges(), s.nodeId), i, env.lower)
    ensures
      var r, e := Utter(env, s, text), OutEdges(env.doc.Edges(), s.nodeId)[i];
      && (r.1.Success? ==> r.1.value.taken != [] && r.1.value.taken[0] == TakeOf(e))
      && (if env.nodes[s.nodeId].kind.ListenLanguage? then
            r.0.locale == EdgeLocale(e) != "" && (r.1.Success? ==> r.1.value.locale == r.0.locale)
          else r.0.locale == s.locale)
  {
    var out := OutEdges(env.doc.Edges(), s.nodeId);
    var e := out[i];
    MatchIsWinner(out, text, env.lower);
    MatchedHasLocale(out, text, env.lower);
    var n := env.nodes[s.nodeId];
    var u := s.(lastQuery := Trim(text), retries := s.retries[n.id := 0]);
    var v := u.(locale := EdgeLocale(e), blockTool := true);
    DepartGoes(env, u, e);
    DepartGoes(env, v, e);
    hide Match, Wins, Depart, EdgeLocale, Trim, Normalize, OutEdges, Unclear;
  }

  lemma DepartGoes(env: Env, s: State, e: Edge)
    ensures
      var r := Depart(env, s, e);
      && r.0.locale == s.locale
      && (r.1.Success? ==> r.1.value.taken != [] && r.1.value.taken[0] == TakeOf(e))
  {
    DepartTakes(env, s, e);
    if e.to in env.nodes { WalkFrame(env, Moved(s, e)); }
    hide FlowWalk.Walk;
  }

  // ---------------------------------------------------------------- the way

  /** Takes that are edges of the document, each by its own id, ends and kind,
      from one node on to another. */
  ghost predicate Leads(d: Document, from: string, taken: seq<Take>, to: string) {
    && (forall i :: 0 <= i < |taken| ==> TakesEdge(d, taken[i]))
    && (forall i :: 0 < i < |taken| ==> taken[i].from == taken[i - 1].to)
    && (if taken == [] then from == to else taken[0].from == from && taken[|taken| - 1].to == to)
  }

  ghost predicate TakesEdge(d: Document, t: Take) {
    d.edges.Some? && exists e <- d.edges.value :: t.edgeId == e.id && t.from == e.from && t.to == e.to && t.kind == e.kind
  }

  lemma {:induction false} PathLeads(env: Env, from: string, taken: seq<Take>, to: string)
    requires IsPath(env, from, taken, to)
    ensures Leads(env.doc, from, taken, to)
    decreases |taken|
  {
    if taken != [] {
      var rest := taken[1..];
      PathLeads(env, taken[0].to, rest, to);
      var e :| e in env.doc.Edges() && TakeOf(e) == taken[0];
      assert TakesEdge(env.doc, taken[0]);
      hide TakesEdge, IsPath;
      assert forall i :: 0 < i < |taken| ==> taken[i] == rest[i - 1];
    }
  }

  /** Every successful turn leads from the old node to the new one, and its edge
      is the last one taken. */
  lemma TurnLeads(env: Env, s: State, c: Call)
    requires !s.blockTool && Do(env, s, c).1.Some? && Do(env, s, c).1.value.Success?
    ensures
      var r := Do(env, s, c);
      var t := r.1.value.value;
      && Leads(env.doc, s.nodeId, t.taken, r.0.nodeId) && t.nodeId == r.0.nodeId
      && t.edgeId == if t.taken == [] then "" else t.taken[|t.taken| - 1].edgeId
  {
    var r := Do(env, s, c);
    var t := r.1.value.value;
    if c.Bootstrap? { WalkReports(env, s); } else { UtterAnswers(env, s, c.text); }
    hide FlowWalk.Walk, Utter, Spoken, Resting, NodeText, IsPath;
    if t.taken != [] || c.Bootstrap? { PathLeads(env, s.nodeId, t.taken, r.0.nodeId); }
  }

  /** A tool whose words are missing is armed all the same, although the turn fails. */
  lemma WordlessToolIsArmed(env: Env, s: State)
    requires AtTool(env, s) && !s.blockTool && Arm(env, s, env.nodes[s.nodeId]).Success?
    requires forall text :: !Means(env.doc, s.locale, env.nodes[s.nodeId].promptRef, text)
    ensures FlowWalk.Walk(env, s) == (s.(armed := true), Failure(NoPromptText))
  {
    ResolveMeans(env, s.locale, env.nodes[s.nodeId].promptRef);
    hide Resolve, Means, Arm;
    assert StopsIn(WorldOf(env, s), s.nodeId, 0);
  }
}
