/** Which edges an utterance can take out of a listen node, and a call that
    takes each of them. */
module ChoiceLaws {
  import opened Wrappers
  import opened Text
  import opened Flow
  import opened FlowWalk
  import opened RunLaws
  import opened HangLaws
  import FlowCursor

  // ---------------------------------------------------------------- matching

  /** A non-blank key of an option or intent edge. */
  predicate HasKey(e: Edge, key: string, lower: char -> char) {
    && (e.kind.OptionEdge? || e.kind.IntentEdge?) && key != ""
    && (Normalize(e.intent, lower) == key || Normalize(e.option, lower) == key)
  }

  predicate FirstWithKey(es: seq<Edge>, i: nat, key: string, lower: char -> char) {
    i < |es| && HasKey(es[i], key, lower) && forall j :: 0 <= j < i ==> !HasKey(es[j], key, lower)
  }

  /** An edge with a key that no earlier edge has. */
  ghost predicate Matchable(es: seq<Edge>, e: Edge, lower: char -> char) {
    exists i: nat, key :: FirstWithKey(es, i, key, lower) && es[i] == e
  }

  lemma ScoreByKey(u: string, e: Edge, lower: char -> char)
    ensures Score(u, e, lower) <= 3
    ensures Score(u, e, lower) > 0 ==> exists key :: HasKey(e, key, lower) && Score(u, e, lower) == KeyScore(u, key)
    ensures forall key :: HasKey(e, key, lower) ==> KeyScore(u, key) <= Score(u, e, lower)
    ensures u != "" ==> (Score(u, e, lower) == 3 <==> HasKey(e, u, lower))
  {
    hide Normalize, Contains;
    var a, b := Normalize(e.intent, lower), Normalize(e.option, lower);
    if Score(u, e, lower) > 0 {
      var key := if KeyScore(u, a) >= KeyScore(u, b) then a else b;
      assert HasKey(e, key, lower) && Score(u, e, lower) == KeyScore(u, key);
    }
  }

  /** A matched edge has a key no earlier edge has. */
  lemma MatchedIsMatchable(es: seq<Edge>, text: string, lower: char -> char)
    requires Match(es, text, lower).Some?
    ensures Matchable(es, Match(es, text, lower).value, lower)
  {
    var u, e := Normalize(text, lower), Match(es, text, lower).value;
    FlowCursor.MatchIsFirstBest(es, text, lower);
    hide Match, Score, KeyScore, Normalize;
    var i: nat :| i < |es| && es[i] == e && Score(u, es[i], lower) > 0
                  && forall j :: 0 <= j < i ==> Score(u, es[j], lower) < Score(u, es[i], lower);
    ScoreByKey(u, e, lower);
    var key :| HasKey(e, key, lower) && Score(u, e, lower) == KeyScore(u, key);
    forall j | 0 <= j < i ensures !HasKey(es[j], key, lower) { ScoreByKey(u, es[j], lower); }
    assert FirstWithKey(es, i, key, lower);
  }

  /** And an edge with such a key is matched by the words behind that key. */
  lemma MatchableIsMatched(es: seq<Edge>, e: Edge, lower: char -> char) returns (text: string)
    requires Matchable(es, e, lower)
    ensures Match(es, text, lower) == Some(e)
  {
    var i: nat, key :| FirstWithKey(es, i, key, lower) && es[i] == e;
    text := if Normalize(e.intent, lower) == key then e.intent else e.option;
    FlowCursor.MatchIsFirstBest(es, text, lower);
    ScoreByKey(key, e, lower);
    hide Match, Score, Normalize, KeyScore, HasKey;
    var k: nat :| k < |es| && es[k] == Match(es, text, lower).value && FirstBest(es, k, key, lower);
    BestHasKey(es, i, k, key, lower);
  }

  ghost predicate FirstBest(es: seq<Edge>, k: nat, u: string, lower: char -> char)
    requires k < |es|
  {
    && Score(u, es[k], lower) > 0
    && (forall j :: 0 <= j < k ==> Score(u, es[j], lower) < Score(u, es[k], lower))
    && (forall j :: 0 <= j < |es| ==> Score(u, es[j], lower) <= Score(u, es[k], lower))
  }

  /** The first edge with a key is what an utterance of that key fits best. */
  lemma BestHasKey(es: seq<Edge>, i: nat, k: nat, key: string, lower: char -> char)
    requires FirstWithKey(es, i, key, lower) && key != "" && k < |es| && FirstBest(es, k, key, lower)
    ensures k == i
  {
    ScoreByKey(key, es[i], lower);
    ScoreByKey(key, es[k], lower);
    hide Score, KeyScore, HasKey;
  }

  /** An edge is matched by some utterance exactly when it has a non-blank key
      that no edge before it has: only such edges can be chosen. */
  lemma MatchableIff(es: seq<Edge>, e: Edge, lower: char -> char)
    ensures Matchable(es, e, lower) <==> exists text :: Match(es, text, lower) == Some(e)
  {
    hide Match, Matchable;
    if Matchable(es, e, lower) { var text := MatchableIsMatched(es, e, lower); }
    if text :| Match(es, text, lower) == Some(e) { MatchedIsMatchable(es, text, lower); }
  }

  /** A matched edge of a language node always names a locale. */
  lemma MatchedHasLocale(es: seq<Edge>, text: string, lower: char -> char)
    requires Match(es, text, lower).Some?
    ensures EdgeLocale(Match(es, text, lower).value) != ""
  {
    var e := Match(es, text, lower).value;
    MatchedIsMatchable(es, text, lower);
    hide Match;
    var i: nat, key :| FirstWithKey(es, i, key, lower) && es[i] == e;
    KeyIsTrimmed(e.intent, lower);
    KeyIsTrimmed(e.option, lower);
    LocaleIsTagIfAny(e);
    hide Trim, EdgeLocale, Normalize;
  }

  lemma KeyIsTrimmed(s: string, lower: char -> char)
    ensures |Normalize(s, lower)| == |Trim(s)|
  {
    hide Trim;
  }

  /** A word that could be a language tag. */
  predicate Tag(s: string) {
    '-' in s && ' ' !in s && '\t' !in s
  }

  /** The locale of a language edge is one of its two trimmed fields: the first
      that is a language tag, intent before option; when neither is, the first
      that is not blank. */
  lemma LocaleIsTagIfAny(e: Edge)
    ensures
      var intent, option, l := Trim(e.intent), Trim(e.option), EdgeLocale(e);
      && (Tag(intent) ==> l == intent)
      && (!Tag(intent) && Tag(option) ==> l == option)
      && (!Tag(intent) && !Tag(option) && intent != "" ==> l == intent)
      && (intent == "" ==> l == option)
      && (l == "" <==> intent == "" && option == "")
  {
    TrimTwice(e.intent);
    TrimTwice(e.option);
    BlankIsNoTag();
    hide Trim;
  }

  lemma BlankIsNoTag()
    ensures !LooksLikeLocaleTag("")
  {
  }

  // ---------------------------------------------------------------- choosing

  /** The edges an utterance can take out of a node: those it can match, and
      the repair edge of a node with a policy. */
  ghost predicate Chosen(env: Env, id: string, e: Edge) {
    Listening(env, id) &&
    var out := OutEdges(env.doc.Edges(), id);
    Matchable(out, e, env.lower) || (env.nodes[id].repair.Policy? && Sole(out, RepairEdge) == Some(e))
  }

  lemma ChosenLeaves(env: Env, id: string, e: Edge)
    requires Chosen(env, id, e)
    ensures e in env.doc.Edges() && e.from == id
  {
    var out := OutEdges(env.doc.Edges(), id);
    SoleIn(env.doc.Edges(), id, RepairEdge);
    if Matchable(out, e, env.lower) {
      var i: nat, key :| FirstWithKey(out, i, key, env.lower) && out[i] == e;
      assert e in out;
    }
    hide OutEdges, Sole, Matchable;
  }

  // ---------------------------------------------------------------- calls

  /** Every one of some calls returns. */
  ghost predicate Completes(env: Env, s: State, calls: seq<Call>)
    decreases |calls|
  {
    calls == [] || (Returns(Do(env, s, calls[0]).1) && Completes(env, Do(env, s, calls[0]).0, calls[1..]))
  }

  lemma {:induction false} CompletesAppend(env: Env, s: State, a: seq<Call>, b: seq<Call>)
    ensures Run(env, s, a + b) == Run(env, Run(env, s, a), b)
    ensures Completes(env, s, a + b) <==> Completes(env, s, a) && Completes(env, Run(env, s, a), b)
    decreases |a|
  {
    hide Do, Returns;
    if a == [] {
      assert a + b == b;
    } else {
      assert (a + b)[1..] == a[1..] + b;
      CompletesAppend(env, Do(env, s, a[0]).0, a[1..], b);
    }
  }

  lemma OneCall(env: Env, s: State, c: Call)
    ensures Run(env, s, [c]) == Do(env, s, c).0
    ensures Completes(env, s, [c]) <==> Returns(Do(env, s, c).1)
  {
    hide Do, Returns;
    assert [c][1..] == [];
    assert Run(env, Do(env, s, c).0, []) == Do(env, s, c).0;
  }

  /** The state of a cursor that has heard an utterance and counted it n times. */
  function Heard(s: State, text: string, n: nat): State {
    s.(lastQuery := Trim(text), retries := s.retries[s.nodeId := n])
  }

  lemma BlankMatchesNothing(es: seq<Edge>, lower: char -> char)
    ensures Match(es, "", lower) == None
  {
    hide BestOf;
  }

  /** A blank utterance below the maximum only counts. */
  lemma BlankCounts(env: Env, s: State)
    requires Listening(env, s.nodeId) && KeyedById(env) && env.nodes[s.nodeId].repair.Policy?
    requires RetriesAt(s, s.nodeId) < env.nodes[s.nodeId].repair.MaxRetries()
    ensures
      var r := Do(env, s, Utterance(""));
      r.0 == Heard(s, "", RetriesAt(s, s.nodeId) + 1) && Returns(r.1)
  {
    BlankMatchesNothing(OutEdges(env.doc.Edges(), s.nodeId), env.lower);
    hide FlowWalk.Walk, Depart, Match, Trim, Resolve, Sole, OutEdges;
  }

  /** Nothing but the query and the counts has changed. */
  ghost predicate OnlyCounted(s: State, t: State) {
    t == s.(lastQuery := t.lastQuery, retries := t.retries)
  }

  /** Enough of them bring the count to the maximum. */
  lemma {:induction false} BlankRun(env: Env, s: State, k: nat) returns (calls: seq<Call>)
    requires Listening(env, s.nodeId) && KeyedById(env) && env.nodes[s.nodeId].repair.Policy?
    requires RetriesAt(s, s.nodeId) + k == env.nodes[s.nodeId].repair.MaxRetries()
    ensures Completes(env, s, calls) && OnlyCounted(s, Run(env, s, calls))
    ensures RetriesAt(Run(env, s, calls), s.nodeId) == RetriesAt(s, s.nodeId) + k
    decreases k
  {
    calls := [];
    if k > 0 {
      BlankCounts(env, s);
      OneCall(env, s, Utterance(""));
      var t := Heard(s, "", RetriesAt(s, s.nodeId) + 1);
      hide Do, Trim, KeyedById, Run, Completes, Returns, Listening;
      var rest := BlankRun(env, t, k - 1);
      CompletesAppend(env, s, [Utterance("")], rest);
      calls := [Utterance("")] + rest;
    }
  }

  /** An utterance that takes an edge: as a departure along it from a state with
      the same node, last edge and lookup, or the failure of one. */
  ghost predicate Takes(env: Env, s: State, text: string, e: Edge, u: State) {
    var r, d := Utter(env, s, text), Depart(env, u, e);
    && u.nodeId == s.nodeId && u.lastEdge == s.lastEdge && u.lookup == s.lookup
    && r.0.nodeId == d.0.nodeId && r.0.lastEdge == d.0.lastEdge
    && (if d.1.Failure? then r.1 == Failure(d.1.error) else r.1.Success?)
  }

  /** Matching an edge takes it. */
  lemma MatchTakes(env: Env, s: State, text: string, e: Edge) returns (u: State)
    requires Listening(env, s.nodeId) && Match(OutEdges(env.doc.Edges(), s.nodeId), text, env.lower) == Some(e)
    ensures Takes(env, s, text, e, u)
  {
    var n := env.nodes[s.nodeId];
    var heard := s.(lastQuery := Trim(text));
    u := heard.(retries := heard.retries[n.id := 0]);
    MatchedHasLocale(OutEdges(env.doc.Edges(), s.nodeId), text, env.lower);
    hide FlowWalk.Walk, Match, Trim, EdgeLocale, OutEdges, Unclear;
    if n.kind.ListenChoice? {
      hide Switch, Depart;
    } else {
      assert Utter(env, s, text) == Switch(env, u, e);
      hide Utter;
      u := u.(locale := EdgeLocale(e), blockTool := true);
    }
  }

  /** So does exhausting the policy of a node with one repair edge. */
  lemma ExhaustTakes(env: Env, s: State, text: string) returns (u: State)
    requires Bounded(env, s.nodeId) && env.nodes[s.nodeId].id == s.nodeId && IsUnclear(env, s.nodeId, text)
    requires RetriesAt(s, s.nodeId) >= env.nodes[s.nodeId].repair.MaxRetries()
    ensures Takes(env, s, text, Sole(OutEdges(env.doc.Edges(), s.nodeId), RepairEdge).value, u)
  {
    UnclearAtMaximum(env, s, text);
    u := Exhausted(s, text);
    hide Utter, Depart, Trim, Bounded;
  }

  /** Every edge an utterance can choose is chosen by some run that ends in one. */
  lemma Choose(env: Env, s: State, e: Edge) returns (calls: seq<Call>, text: string, u: State)
    requires KeyedById(env) && RetriesOk(env, s) && Chosen(env, s.nodeId, e)
    ensures Completes(env, s, calls)
    ensures
      var t := Run(env, s, calls);
      OnlyCounted(s, t) && Takes(env, t, text, e, u)
  {
    var out := OutEdges(env.doc.Edges(), s.nodeId);
    calls := [];
    if Matchable(out, e, env.lower) {
      text := MatchableIsMatched(out, e, env.lower);
      u := MatchTakes(env, s, text, e);
    } else {
      text := "";
      calls := BlankRun(env, s, env.nodes[s.nodeId].repair.MaxRetries() - RetriesAt(s, s.nodeId));
      BlankMatchesNothing(out, env.lower);
      hide Run, Completes, Takes;
      u := ExhaustTakes(env, Run(env, s, calls), "");
    }
  }
}
