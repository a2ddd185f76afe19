/** What an utterance matches, and which edges leave a node, said without the
    scores and scans that find them. */
module MatchLaws {
  import opened Wrappers
  import opened Text
  import opened Flow
  import opened FlowWalk
  import opened ChoiceLaws
  import FlowCursor

  // ---------------------------------------------------------------- edges

  /** Places of a list in increasing order. */
  predicate Increasing(places: seq<nat>, n: nat) {
    && (forall k :: 0 <= k < |places| ==> places[k] < n)
    && (forall j, k :: 0 <= j < k < |places| ==> places[j] < places[k])
  }

  /** A list that takes its edges from some places of another, and leaves no
      edge of a node out. */
  predicate Picks(es: seq<Edge>, from: string, out: seq<Edge>, places: seq<nat>) {
    && Increasing(places, |es|) && |places| == |out|
    && (forall k :: 0 <= k < |places| ==> out[k] == es[places[k]])
    && (forall i :: 0 <= i < |es| ==> (es[i].from == from <==> i in places))
  }

  lemma PicksMore(es: seq<Edge>, from: string, out: seq<Edge>, places: seq<nat>, e: Edge)
    requires Picks(es, from, out, places)
    ensures
      if e.from == from then Picks(es + [e], from, out + [e], places + [|es|])
      else Picks(es + [e], from, out, places)
  {
    if e.from == from {
      var more := places + [|es|];
      assert forall i :: i in more <==> i in places || i == |es|;
      assert forall k :: 0 <= k < |places| ==> more[k] == places[k];
    } else {
      assert |es| !in places;
    }
  }

  /** The edges leaving a node are those of the document that leave it, each at
      its own place and in document order. */
  lemma {:induction false} OutEdgesAre(es: seq<Edge>, from: string) returns (places: seq<nat>)
    ensures Picks(es, from, OutEdges(es, from), places)
  {
    places := [];
    if es != [] {
      var before, e := es[..|es| - 1], es[|es| - 1];
      assert es == before + [e];
      var earlier := OutEdgesAre(before, from);
      hide Picks;
      PicksMore(before, from, OutEdges(before, from), earlier, e);
      places := if e.from == from then earlier + [|before|] else earlier;
    }
  }

  lemma {:induction false} NoneOfKind(es: seq<Edge>, kind: EdgeKind)
    ensures |OfKind(es, kind)| == 0 <==> forall i :: 0 <= i < |es| ==> es[i].kind != kind
  {
    if es != [] { NoneOfKind(es[..|es| - 1], kind); }
  }

  /** One of a kind. */
  lemma {:induction false} OneOfKind(es: seq<Edge>, kind: EdgeKind)
    ensures |OfKind(es, kind)| == 1 ==> exists i :: OnlyOfKind(es, i, kind)
    ensures forall i :: OnlyOfKind(es, i, kind) ==> OfKind(es, kind) == [es[i]]
  {
    if es != [] {
      var before, e := es[..|es| - 1], es[|es| - 1];
      assert es == before + [e];
      NoneOfKind(before, kind);
      OneOfKind(before, kind);
      OnlyOneMore(before, e, kind);
      hide OnlyOfKind;
      if i :| OnlyOfKind(before, i, kind) { assert e.kind != kind ==> OnlyOfKind(es, i, kind); }
    }
  }

  lemma OnlyOneMore(es: seq<Edge>, e: Edge, kind: EdgeKind)
    ensures e.kind != kind ==> forall i :: OnlyOfKind(es + [e], i, kind) <==> OnlyOfKind(es, i, kind)
    ensures e.kind != kind ==> forall i :: OnlyOfKind(es, i, kind) ==> (es + [e])[i] == es[i]
    ensures e.kind == kind ==> forall i :: OnlyOfKind(es + [e], i, kind) ==> i == |es|
    ensures e.kind == kind && (forall i :: 0 <= i < |es| ==> es[i].kind != kind) ==> OnlyOfKind(es + [e], |es|, kind)
    ensures forall i :: OnlyOfKind(es + [e], i, kind) && i == |es| ==> forall j :: 0 <= j < |es| ==> es[j].kind != kind
  {
    if e.kind != kind {
      forall i ensures OnlyOfKind(es + [e], i, kind) <==> OnlyOfKind(es, i, kind) {
        assert forall j :: 0 <= j < |es| ==> (es + [e])[j] == es[j];
      }
    } else {
      forall i | OnlyOfKind(es + [e], i, kind) ensures i == |es| { assert (es + [e])[|es|] == e; }
    }
    forall j, i | OnlyOfKind(es + [e], i, kind) && i == |es| && 0 <= j < |es| ensures es[j].kind != kind {
      assert (es + [e])[j] == es[j];
    }
  }

  predicate OnlyOfKind(es: seq<Edge>, i: int, kind: EdgeKind) {
    0 <= i < |es| && es[i].kind == kind && forall j :: 0 <= j < |es| && j != i ==> es[j].kind != kind
  }

  /** There is a sole edge of a kind exactly when one place has that kind and no
      other does, and it is the edge there. */
  lemma SoleIff(es: seq<Edge>, kind: EdgeKind)
    ensures forall i :: OnlyOfKind(es, i, kind) ==> Sole(es, kind) == Some(es[i])
    ensures (forall i :: !OnlyOfKind(es, i, kind)) ==> Sole(es, kind) == None
  {
    OneOfKind(es, kind);
    hide OfKind, OnlyOfKind;
  }

  // ---------------------------------------------------------------- words

  /** Normalising trims, and lowers every character that is left. */
  lemma NormalizeIs(s: string, lower: char -> char)
    ensures |Normalize(s, lower)| == |Trim(s)|
    ensures forall i :: 0 <= i < |Trim(s)| ==> Normalize(s, lower)[i] == lower(Trim(s)[i])
  {
    hide Trim;
  }

  /** Two words touch when one is, contains or is contained in the other. */
  ghost predicate Touches(u: string, key: string) {
    exists a, b :: u == a + key + b || key == a + u + b
  }

  /** An edge fits words by a non-blank key they touch. */
  ghost predicate Fits(u: string, e: Edge, lower: char -> char) {
    exists key :: HasKey(e, key, lower) && Touches(u, key)
  }

  /** The edge an utterance takes: the first with the very words, or, when no
      edge has them, the first whose key they touch. */
  ghost predicate Wins(u: string, es: seq<Edge>, i: int, lower: char -> char) {
    0 <= i < |es| &&
    if HasKey(es[i], u, lower) then forall j :: 0 <= j < i ==> !HasKey(es[j], u, lower)
    else
      && Fits(u, es[i], lower) && (forall j :: 0 <= j < |es| ==> !HasKey(es[j], u, lower))
      && forall j :: 0 <= j < i ==> !Fits(u, es[j], lower)
  }

  lemma KeyScoreIs(u: string, key: string)
    requires u != "" && key != ""
    ensures KeyScore(u, key) == if u == key then 3 else if Touches(u, key) then 2 else 0
  {
    ContainsIff(u, key);
    ContainsIff(key, u);
    hide Contains;
  }

  lemma ScoreIs(u: string, e: Edge, lower: char -> char)
    requires u != ""
    ensures Score(u, e, lower) == if HasKey(e, u, lower) then 3 else if Fits(u, e, lower) then 2 else 0
  {
    hide Touches, Normalize, Contains;
    var a, b := Normalize(e.intent, lower), Normalize(e.option, lower);
    if a != "" { KeyScoreIs(u, a); }
    if b != "" { KeyScoreIs(u, b); }
    hide KeyScore;
    assert forall key :: HasKey(e, key, lower) ==> key == a || key == b;
    if e.kind.OptionEdge? || e.kind.IntentEdge? {
      assert a != "" ==> HasKey(e, a, lower);
      assert b != "" ==> HasKey(e, b, lower);
    }
    assert KeyScore(u, "") == 0 by { BlankScoresNothing(u); }
  }

  lemma BlankScoresNothing(u: string)
    ensures KeyScore(u, "") == 0
  {
  }

  lemma TouchesItself(u: string, e: Edge, lower: char -> char)
    requires HasKey(e, u, lower)
    ensures Fits(u, e, lower)
  {
    hide HasKey;
    assert u == [] + u + [];
    assert Touches(u, u);
  }

  /** An utterance takes the edge that wins it, and none exactly when it is blank
      or touches no key of any option or intent edge. */
  lemma MatchIsWinner(es: seq<Edge>, text: string, lower: char -> char)
    ensures
      var u, m := Normalize(text, lower), Match(es, text, lower);
      && (m == None <==> u == "" || forall j :: 0 <= j < |es| ==> !Fits(u, es[j], lower))
      && (forall i :: u != "" && Wins(u, es, i, lower) ==> m == Some(es[i]))
      && (m.Some? ==> exists i :: Wins(u, es, i, lower) && es[i] == m.value)
  {
    var u, m := Normalize(text, lower), Match(es, text, lower);
    FlowCursor.MatchIsFirstBest(es, text, lower);
    hide Match, Normalize, Score, Wins;
    if u != "" {
      FitsByScore(es, u, lower);
      if m.Some? {
        var k: nat :| k < |es| && es[k] == m.value && FirstBest(es, k, u, lower);
        BestWins(es, k, u, lower);
        forall i | Wins(u, es, i, lower) ensures i == k { OneWinner(u, es, i, k, lower); }
      } else {
        forall i | Wins(u, es, i, lower) ensures false { WinnerFits(u, es, i, lower); }
      }
    }
  }

  lemma FitsByScore(es: seq<Edge>, u: string, lower: char -> char)
    requires u != ""
    ensures forall j :: 0 <= j < |es| ==> (Fits(u, es[j], lower) <==> Score(u, es[j], lower) > 0)
  {
    hide HasKey, Fits, Score;
    forall j | 0 <= j < |es| ensures Fits(u, es[j], lower) <==> Score(u, es[j], lower) > 0 {
      ScoreIs(u, es[j], lower);
      if HasKey(es[j], u, lower) { TouchesItself(u, es[j], lower); }
    }
  }

  lemma BestWins(es: seq<Edge>, k: nat, u: string, lower: char -> char)
    requires u != "" && k < |es| && FirstBest(es, k, u, lower)
    ensures Wins(u, es, k, lower)
  {
    hide HasKey, Fits, Score;
    forall j | 0 <= j < |es|
      ensures Score(u, es[j], lower) == if HasKey(es[j], u, lower) then 3 else if Fits(u, es[j], lower) then 2 else 0
    {
      ScoreIs(u, es[j], lower);
    }
    FitsByScore(es, u, lower);
  }

  lemma WinnerFits(u: string, es: seq<Edge>, i: int, lower: char -> char)
    requires Wins(u, es, i, lower)
    ensures 0 <= i < |es| && Fits(u, es[i], lower)
  {
    hide HasKey, Fits;
    if HasKey(es[i], u, lower) { TouchesItself(u, es[i], lower); }
  }

  lemma OneWinner(u: string, es: seq<Edge>, i: int, k: int, lower: char -> char)
    requires Wins(u, es, i, lower) && Wins(u, es, k, lower)
    ensures i == k
  {
    hide HasKey, Fits;
  }
}
