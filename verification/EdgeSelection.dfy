/** Choice of the next edge: src/engine/edge_selector.cpp. */
module EdgeSelection {
  import opened Text
  import opened Graphs
  import opened Outcomes

  // ---- step 1: conditions ------------------------------------------------------

  datatype Verdict = Unconditional | Matched | Rejected

  /** An empty condition, or one that reads as no clauses, is unconditional; one that
      cannot be read rejects the edge. */
  function Judge(read: ConditionReader, e: Edge, o: Outcome, ctx: Context): Verdict
  {
    var condition := Get(e.attrs, "condition");
    if condition == "" then Unconditional
    else match read(condition)
      case None => Rejected
      case Some(clauses) =>
        if clauses == [] then Unconditional
        else if Evaluate(clauses, o, ctx) then Matched
        else Rejected
  }

  function Judged(read: ConditionReader, edges: seq<Edge>, o: Outcome, ctx: Context, v: Verdict): seq<Edge>
  {
    if edges == [] then []
    else
      var rest := Judged(read, edges[..|edges| - 1], o, ctx, v);
      var last := edges[|edges| - 1];
      if Judge(read, last, o, ctx) == v then rest + [last] else rest
  }

  lemma {:induction false} JudgedMember(read: ConditionReader, edges: seq<Edge>, o: Outcome, ctx: Context, v: Verdict)
    ensures forall e :: e in Judged(read, edges, o, ctx, v) <==> e in edges && Judge(read, e, o, ctx) == v
  {
    if edges != [] {
      JudgedMember(read, edges[..|edges| - 1], o, ctx, v);
      assert edges == edges[..|edges| - 1] + [edges[|edges| - 1]];
    }
  }

  /** Matching conditional edges if there are any, otherwise the unconditional ones. */
  function Filtered(read: ConditionReader, edges: seq<Edge>, o: Outcome, ctx: Context): seq<Edge>
  {
    var matched := Judged(read, edges, o, ctx, Matched);
    if matched != [] then matched else Judged(read, edges, o, ctx, Unconditional)
  }

  method FilterByCondition(read: ConditionReader, edges: seq<Edge>, o: Outcome, ctx: Context) returns (r: seq<Edge>)
    ensures r == Filtered(read, edges, o, ctx)
  {
    var unconditional, matched := [], [];
    for k := 0 to |edges|
      invariant unconditional == Judged(read, edges[..k], o, ctx, Unconditional)
      invariant matched == Judged(read, edges[..k], o, ctx, Matched)
    {
      assert edges[..k + 1][..k] == edges[..k];
      match Judge(read, edges[k], o, ctx)
      case Unconditional => unconditional := unconditional + [edges[k]];
      case Matched => matched := matched + [edges[k]];
      case Rejected =>
    }
    assert edges[..|edges|] == edges;
    r := if matched != [] then matched else unconditional;
  }

  // ---- steps 2 and 3: labels and suggestions -------------------------------------

  function FirstLabelled(edges: seq<Edge>, wanted: string): (r: Option<Edge>)
    ensures r.Some? ==> r.value in edges && Get(r.value.attrs, "label") == wanted
    ensures r.None? ==> forall e :: e in edges ==> Get(e.attrs, "label") != wanted
  {
    if edges == [] then None
    else if Get(edges[0].attrs, "label") == wanted then Some(edges[0])
    else FirstLabelled(edges[1..], wanted)
  }

  function FirstTo(edges: seq<Edge>, id: string): (r: Option<Edge>)
    ensures r.Some? ==> r.value in edges && r.value.to == id
    ensures r.None? ==> forall e :: e in edges ==> e.to != id
  {
    if edges == [] then None
    else if edges[0].to == id then Some(edges[0])
    else FirstTo(edges[1..], id)
  }

  function FirstSuggested(edges: seq<Edge>, suggestions: seq<string>): (r: Option<Edge>)
    ensures r.Some? ==> r.value in edges && r.value.to in suggestions
    ensures r.None? ==> forall e :: e in edges ==> e.to !in suggestions
  {
    if suggestions == [] then None
    else
      var first := FirstTo(edges, suggestions[0]);
      if first.Some? then first else FirstSuggested(edges, suggestions[1..])
  }

  // ---- step 4: weight ------------------------------------------------------------

  predicate IsSpace(c: char)
  {
    c == ' ' || '\t' <= c <= '\r'
  }

  predicate IsDigit(c: char)
  {
    '0' <= c <= '9'
  }

  function DigitValue(c: char): nat
    requires IsDigit(c)
  {
    c as int - '0' as int
  }

  function DigitsValue(s: string): nat
    requires forall i :: 0 <= i < |s| ==> IsDigit(s[i])
  {
    if s == [] then 0 else 10 * DigitsValue(s[..|s| - 1]) + DigitValue(s[|s| - 1])
  }

  predicate AllDigits(s: string)
  {
    s != "" && forall i :: 0 <= i < |s| ==> IsDigit(s[i])
  }

  /** `std::stoi` over the whole string, as `get_int` demands. */
  function ParseInt(s: string): Option<int>
  {
    if s == [] then None
    else if IsSpace(s[0]) then ParseInt(s[1..])
    else
      var signed := s[0] == '-' || s[0] == '+';
      var digits := if signed then s[1..] else s;
      if AllDigits(digits) then
        var v := if s[0] == '-' then -(DigitsValue(digits) as int) else DigitsValue(digits) as int;
        if -0x8000_0000 <= v < 0x8000_0000 then Some(v) else None
      else None
  }

  function Weight(e: Edge): int
  {
    if "weight" in e.attrs then
      var w := ParseInt(e.attrs["weight"]);
      if w.Some? then w.value else 0
    else 0
  }

  /** Edge `i` weighs strictly more than every other. */
  ghost predicate Outweighs(edges: seq<Edge>, i: int)
  {
    0 <= i < |edges| && forall j :: 0 <= j < |edges| && j != i ==> Weight(edges[j]) < Weight(edges[i])
  }

  /** The one heaviest of several edges, if there is just one. */
  ghost function Heaviest(edges: seq<Edge>): Option<Edge>
  {
    if |edges| > 1 && exists i :: Outweighs(edges, i) then
      var i :| Outweighs(edges, i);
      Some(edges[i])
    else None
  }

  method PickHighestWeight(edges: seq<Edge>) returns (r: Option<Edge>)
    ensures r == Heaviest(edges)
  {
    hide Weight;
    if edges == [] { return None; }
    var maxWeight := Weight(edges[0]);
    var allSame := true;
    for i := 1 to |edges|
      invariant allSame <==> forall j :: 0 <= j < i ==> Weight(edges[j]) == maxWeight
      invariant forall j :: 0 <= j < i ==> Weight(edges[j]) <= maxWeight
      invariant exists j :: 0 <= j < i && Weight(edges[j]) == maxWeight
    {
      var w := Weight(edges[i]);
      if w != maxWeight { allSame := false; }
      if w > maxWeight { maxWeight := w; }
    }
    if allSame {
      assert |edges| > 1 ==> Weight(edges[0]) == Weight(edges[1]);
      return None;
    }
    var tieCount := 0;
    var winner: Option<Edge> := None;
    ghost var at := 0;
    for i := 0 to |edges|
      invariant tieCount == 0 <==> forall j :: 0 <= j < i ==> Weight(edges[j]) < maxWeight
      invariant tieCount >= 0
      invariant winner.None? <==> tieCount == 0
      invariant winner.Some? ==> 0 <= at < i && winner.value == edges[at] && Weight(edges[at]) == maxWeight
      invariant tieCount == 1 ==> forall j :: 0 <= j < i && j != at ==> Weight(edges[j]) < maxWeight
      invariant tieCount > 1 ==> exists j :: 0 <= j < i && j != at && Weight(edges[j]) == maxWeight
    {
      if Weight(edges[i]) == maxWeight {
        tieCount := tieCount + 1;
        if winner.None? { winner, at := Some(edges[i]), i; }
      }
    }
    if tieCount > 1 {
      return None;
    }
    assert Outweighs(edges, at);
    return winner;
  }

  // ---- step 5: lexical -------------------------------------------------------------

  /** Edge `i` has the least target, and is the first with that target. */
  ghost predicate LeastTarget(edges: seq<Edge>, i: int)
  {
    && 0 <= i < |edges|
    && (forall j :: 0 <= j < |edges| ==> !Less(edges[j].to, edges[i].to))
    && (forall j :: 0 <= j < i ==> edges[j].to != edges[i].to)
  }

  lemma LeastTargetUnique(edges: seq<Edge>, i: int, j: int)
    requires LeastTarget(edges, i) && LeastTarget(edges, j)
    ensures i == j
  {
    LessTotal(edges[i].to, edges[j].to);
  }

  lemma {:induction false} LeastTargetExists(edges: seq<Edge>)
    requires edges != []
    ensures exists i :: LeastTarget(edges, i)
  {
    var front, last := edges[..|edges| - 1], edges[|edges| - 1];
    LessTotal(last.to, last.to);
    if front == [] {
      assert LeastTarget(edges, 0);
    } else {
      LeastTargetExists(front);
      var i :| LeastTarget(front, i);
      LessTotal(last.to, front[i].to);
      if Less(last.to, front[i].to) {
        forall j | 0 <= j < |front| ensures !Less(edges[j].to, last.to) && edges[j].to != last.to {
          assert edges[j] == front[j];
          if Less(edges[j].to, last.to) { LessTransitive(edges[j].to, last.to, front[i].to); }
        }
        assert LeastTarget(edges, |edges| - 1);
      } else {
        assert LeastTarget(edges, i);
      }
    }
  }

  ghost function Lexical(edges: seq<Edge>): (r: Edge)
    requires edges != []
    ensures r in edges
  {
    LeastTargetExists(edges);
    var i :| LeastTarget(edges, i);
    edges[i]
  }

  lemma LeastIs(edges: seq<Edge>, i: int)
    requires LeastTarget(edges, i)
    ensures Lexical(edges) == edges[i]
  {
    var j :| LeastTarget(edges, j) && Lexical(edges) == edges[j];
    LeastTargetUnique(edges, i, j);
  }

  method PickLexical(edges: seq<Edge>) returns (best: Edge)
    requires edges != []
    ensures best == Lexical(edges)
  {
    best := edges[0];
    ghost var at := 0;
    LessTotal(best.to, best.to);
    for i := 1 to |edges|
      invariant 0 <= at < i && best == edges[at]
      invariant forall j :: 0 <= j < i ==> !Less(edges[j].to, best.to)
      invariant forall j :: 0 <= j < at ==> edges[j].to != best.to
    {
      LessTotal(edges[i].to, best.to);
      if Less(edges[i].to, best.to) {
        forall j | 0 <= j < i ensures !Less(edges[j].to, edges[i].to) && edges[j].to != edges[i].to {
          if Less(edges[j].to, edges[i].to) { LessTransitive(edges[j].to, edges[i].to, best.to); }
        }
        LessTotal(edges[i].to, edges[i].to);
        best, at := edges[i], i;
      }
    }
    LeastIs(edges, at);
  }

  // ---- the cascade -----------------------------------------------------------------

  /** The edge the selector settles on, or None for its failure. */
  ghost function Choice(read: ConditionReader, candidates: seq<Edge>, o: Outcome, ctx: Context): (r: Option<Edge>)
  {
    var filtered := Filtered(read, candidates, o, ctx);
    if filtered == [] then None
    else if |filtered| == 1 then Some(filtered[0])
    else
      var labelled := if o.preferredLabel == "" then None else FirstLabelled(filtered, o.preferredLabel);
      var suggested := FirstSuggested(filtered, o.suggestedNext);
      var heaviest := Heaviest(filtered);
      if labelled.Some? then labelled
      else if suggested.Some? then suggested
      else if heaviest.Some? then heaviest
      else Some(Lexical(filtered))
  }

  method Select(read: ConditionReader, candidates: seq<Edge>, o: Outcome, ctx: Context) returns (r: Option<Edge>)
    ensures r == Choice(read, candidates, o, ctx)
  {
    if candidates == [] { return None; }
    var filtered := FilterByCondition(read, candidates, o, ctx);
    if filtered == [] { return None; }
    if |filtered| == 1 { return Some(filtered[0]); }
    if o.preferredLabel != "" {
      r := FirstLabelled(filtered, o.preferredLabel);
      if r.Some? { return; }
    }
    r := FirstSuggested(filtered, o.suggestedNext);
    if r.Some? { return; }
    r := PickHighestWeight(filtered);
    if r.Some? { return; }
    var best := PickLexical(filtered);
    r := Some(best);
  }

  // ---- what a choice guarantees ------------------------------------------------------

  /** A choice is made exactly when some condition matches or some edge has none; it is
      one of the candidates, and never a conditional edge whose condition fails nor an
      unconditional edge while a condition matches. */
  lemma ChoiceRespectsConditions(read: ConditionReader, candidates: seq<Edge>, o: Outcome, ctx: Context)
    ensures var r := Choice(read, candidates, o, ctx);
            && (r.Some? <==> exists e :: e in candidates && Judge(read, e, o, ctx) != Rejected)
            && (r.Some? ==> r.value in candidates)
            && (r.Some? && Judge(read, r.value, o, ctx) != Matched ==>
                  Judge(read, r.value, o, ctx) == Unconditional
                  && forall e :: e in candidates ==> Judge(read, e, o, ctx) != Matched)
  {
    var filtered := Filtered(read, candidates, o, ctx);
    var matched := Judged(read, candidates, o, ctx, Matched);
    JudgedMember(read, candidates, o, ctx, Matched);
    JudgedMember(read, candidates, o, ctx, Unconditional);
    var r := Choice(read, candidates, o, ctx);
    assert r.Some? ==> r.value in filtered;
    if e :| e in candidates && Judge(read, e, o, ctx) != Rejected {
      assert e in matched || e in Judged(read, candidates, o, ctx, Unconditional);
    }
    if matched != [] { assert matched[0] in matched; }
    if filtered != [] { assert filtered[0] in filtered; }
  }

  /** With no preference the choice goes by weight alone when one edge is heaviest. */
  lemma HeaviestWins(read: ConditionReader, candidates: seq<Edge>, o: Outcome, ctx: Context, i: int)
    requires o.preferredLabel == "" && o.suggestedNext == []
    requires |Filtered(read, candidates, o, ctx)| > 1 && Outweighs(Filtered(read, candidates, o, ctx), i)
    ensures Choice(read, candidates, o, ctx) == Some(Filtered(read, candidates, o, ctx)[i])
  {
    var filtered := Filtered(read, candidates, o, ctx);
    assert FirstSuggested(filtered, []).None?;
  }

  /** With no preference and no single heaviest edge, the least target wins among all
      the edges that passed the filter, whatever their weight. */
  lemma TieGoesToLeastTarget(read: ConditionReader, candidates: seq<Edge>, o: Outcome, ctx: Context, i: int)
    requires o.preferredLabel == "" && o.suggestedNext == []
    requires forall k :: !Outweighs(Filtered(read, candidates, o, ctx), k)
    requires LeastTarget(Filtered(read, candidates, o, ctx), i)
    ensures Choice(read, candidates, o, ctx) == Some(Filtered(read, candidates, o, ctx)[i])
  {
    var filtered := Filtered(read, candidates, o, ctx);
    assert FirstSuggested(filtered, []).None?;
    LeastIs(filtered, i);
  }

  ghost predicate OfGreatestWeight(edges: seq<Edge>, e: Edge)
  {
    forall x :: x in edges ==> Weight(x) <= Weight(e)
  }

  /** With no preference the edge chosen among several is of greatest weight exactly when
      one edge outweighs all others or the first edge with the least target is. */
  lemma WinnerIsHeaviestExactly(read: ConditionReader, candidates: seq<Edge>, o: Outcome, ctx: Context, i: int)
    requires o.preferredLabel == "" && o.suggestedNext == []
    requires |Filtered(read, candidates, o, ctx)| > 1 && LeastTarget(Filtered(read, candidates, o, ctx), i)
    ensures var filtered := Filtered(read, candidates, o, ctx); var r := Choice(read, candidates, o, ctx);
            && r.Some?
            && (OfGreatestWeight(filtered, r.value)
                <==> (exists k :: Outweighs(filtered, k)) || OfGreatestWeight(filtered, filtered[i]))
  {
    hide Choice, Weight, Filtered, LeastTarget;
    var filtered := Filtered(read, candidates, o, ctx);
    if k :| Outweighs(filtered, k) {
      HeaviestWins(read, candidates, o, ctx, k);
    } else {
      IndexOfLeast(filtered, i);
      TieGoesToLeastTarget(read, candidates, o, ctx, i);
    }
  }

  lemma IndexOfLeast(edges: seq<Edge>, i: int)
    requires LeastTarget(edges, i)
    ensures 0 <= i < |edges|
  {
  }

  lemma {:induction false} AllUnconditional(read: ConditionReader, edges: seq<Edge>, o: Outcome, ctx: Context)
    requires forall i :: 0 <= i < |edges| ==> Judge(read, edges[i], o, ctx) == Unconditional
    ensures Judged(read, edges, o, ctx, Matched) == [] && Judged(read, edges, o, ctx, Unconditional) == edges
  {
    if edges != [] {
      AllUnconditional(read, edges[..|edges| - 1], o, ctx);
      assert edges == edges[..|edges| - 1] + [edges[|edges| - 1]];
    }
  }

  /** A tie for the greatest weight is broken over all remaining edges, so an edge of
      lower weight can win it. */
  lemma TieIgnoresWeight(read: ConditionReader, o: Outcome, ctx: Context)
    requires o.preferredLabel == "" && o.suggestedNext == []
    ensures var light := Edge("n", "a", map[]);
            var heavy1 := Edge("n", "b", map["weight" := "5"]);
            var heavy2 := Edge("n", "c", map["weight" := "5"]);
            Weight(light) < Weight(heavy1) && Choice(read, [heavy1, heavy2, light], o, ctx) == Some(light)
  {
    var light := Edge("n", "a", map[]);
    var heavy1 := Edge("n", "b", map["weight" := "5"]);
    var heavy2 := Edge("n", "c", map["weight" := "5"]);
    var edges := [heavy1, heavy2, light];
    assert DigitsValue("5") == 5 by { assert "5"[..0] == ""; }
    assert Weight(heavy1) == 5 && Weight(heavy2) == 5 && Weight(light) == 0;
    AllUnconditional(read, edges, o, ctx);
    assert !Outweighs(edges, 0) && !Outweighs(edges, 1) && !Outweighs(edges, 2);
    assert Less("a", "b") && Less("a", "c");
    TieGoesToLeastTarget(read, edges, o, ctx, 2);
  }
}
