/** What the conditions on edges mean, and which edge is chosen, told over the candidates
    themselves (include/needle/model/condition.h, src/engine/edge_selector.cpp). */
module EdgeConditions {
  import opened Text
  import opened Graphs
  import opened Outcomes
  import opened EdgeSelection

  // ---- clauses ----------------------------------------------------------------------------

  /** The same letter, whatever its case. */
  predicate SameLetter(x: char, y: char)
  {
    || x == y
    || ('A' <= x <= 'Z' && y as int == x as int + 32)
    || ('A' <= y <= 'Z' && x as int == y as int + 32)
  }

  predicate SameLetters(s: string, t: string)
  {
    |s| == |t| && forall i :: 0 <= i < |s| ==> SameLetter(s[i], t[i])
  }

  predicate Named(status: StageStatus, name: string)
  {
    || (status.SUCCESS? && name == "SUCCESS")
    || (status.PARTIAL_SUCCESS? && name == "PARTIAL_SUCCESS")
    || (status.FAILURE? && name == "FAILURE")
    || (status.RETRY? && name == "RETRY")
    || (status.SKIP? && name == "SKIP")
  }

  ghost predicate ReadsContext(variable: string)
  {
    exists key :: variable == "context." + key
  }

  /** What the variable of a clause reads as. */
  ghost predicate ReadAs(variable: string, v: string, o: Outcome, ctx: Context)
  {
    if variable == "outcome" then Named(o.status, v)
    else if variable == "preferred_label" then v == o.preferredLabel
    else if ReadsContext(variable) then
      exists key :: variable == "context." + key && (if key in ctx then v == ctx[key] else v == "")
    else v == ""
  }

  /** A clause compares what is read with its value, ignoring case; `!=` asks that they
      differ, and any other operator that they agree. */
  ghost predicate Means(c: Clause, o: Outcome, ctx: Context)
  {
    exists v :: ReadAs(c.variable, v, o, ctx) && (SameLetters(v, c.value) <==> c.op != "!=")
  }

  lemma LowerIgnoresCase(s: string, t: string)
    ensures Lower(s) == Lower(t) <==> SameLetters(s, t)
  {
    if Lower(s) == Lower(t) {
      forall i | 0 <= i < |s| ensures |s| == |t| && SameLetter(s[i], t[i]) {
        assert |Lower(s)| == |s| && |Lower(t)| == |t| && Lower(s)[i] == Lower(t)[i];
      }
    }
  }

  lemma ReadsActual(variable: string, v: string, o: Outcome, ctx: Context)
    ensures ReadAs(variable, v, o, ctx) <==> v == Actual(variable, o, ctx)
  {
    assert "outcome"[0] == 'o' && "preferred_label"[0] == 'p' && "context."[0] == 'c';
    if |variable| >= 8 && variable[..8] == "context." {
      assert variable == "context." + variable[8..];
    }
    forall key | variable == "context." + key ensures variable[..8] == "context." && variable[8..] == key {}
  }

  lemma ClauseMeans(c: Clause, o: Outcome, ctx: Context)
    ensures ClauseHolds(c, o, ctx) <==> Means(c, o, ctx)
  {
    hide Actual, ReadAs, Lower, SameLetters;
    forall v ensures ReadAs(c.variable, v, o, ctx) <==> v == Actual(c.variable, o, ctx) {
      ReadsActual(c.variable, v, o, ctx);
    }
    LowerIgnoresCase(Actual(c.variable, o, ctx), c.value);
  }

  /** Of "=" and "!=" with the same variable and value exactly one holds. */
  lemma OperatorsOppose(variable: string, value: string, o: Outcome, ctx: Context)
    ensures ClauseHolds(Clause(variable, "=", value), o, ctx) <==> !ClauseHolds(Clause(variable, "!=", value), o, ctx)
  {
  }

  /** `outcome=` names the status, in any case of letters. */
  lemma OutcomeClause(value: string, o: Outcome, ctx: Context)
    ensures ClauseHolds(Clause("outcome", "=", value), o, ctx)
            <==> exists name :: Named(o.status, name) && SameLetters(name, value)
  {
    hide SameLetters;
    ClauseMeans(Clause("outcome", "=", value), o, ctx);
  }

  /** `context.key=` compares what the context holds under the key. */
  lemma ContextClause(key: string, value: string, o: Outcome, ctx: Context)
    ensures ClauseHolds(Clause("context." + key, "=", value), o, ctx)
            <==> SameLetters(if key in ctx then ctx[key] else "", value)
  {
    hide SameLetters, Lower;
    var variable := "context." + key;
    assert variable[..8] == "context." && variable[8..] == key && variable[0] == 'c';
    assert "outcome"[0] == 'o' && "preferred_label"[0] == 'p';
    LowerIgnoresCase(Actual(variable, o, ctx), value);
  }

  // ---- which edges remain -----------------------------------------------------------------

  /** The edge's condition can be read, has clauses, and all of them hold. */
  ghost predicate Matches(read: ConditionReader, e: Edge, o: Outcome, ctx: Context)
  {
    var condition := Get(e.attrs, "condition");
    && condition != "" && read(condition).Some? && read(condition).value != []
    && forall c :: c in read(condition).value ==> Means(c, o, ctx)
  }

  /** The edge has no condition, or one without clauses. */
  predicate Free(read: ConditionReader, e: Edge)
  {
    var condition := Get(e.attrs, "condition");
    condition == "" || read(condition) == Some([])
  }

  lemma JudgedByMeaning(read: ConditionReader, e: Edge, o: Outcome, ctx: Context)
    ensures Judge(read, e, o, ctx) == Matched <==> Matches(read, e, o, ctx)
    ensures Judge(read, e, o, ctx) == Unconditional <==> Free(read, e)
  {
    hide ClauseHolds, Means;
    var condition := Get(e.attrs, "condition");
    if condition != "" && read(condition).Some? {
      var clauses := read(condition).value;
      forall c ensures ClauseHolds(c, o, ctx) <==> Means(c, o, ctx) { ClauseMeans(c, o, ctx); }
      assert (forall c :: c in clauses ==> Means(c, o, ctx))
             <==> forall i :: 0 <= i < |clauses| ==> Means(clauses[i], o, ctx);
    }
  }

  ghost predicate AnyMatches(read: ConditionReader, edges: seq<Edge>, o: Outcome, ctx: Context)
  {
    exists e :: e in edges && Matches(read, e, o, ctx)
  }

  /** Edge `k` is still in play once conditions are judged. */
  ghost predicate Remains(read: ConditionReader, edges: seq<Edge>, o: Outcome, ctx: Context, k: int)
  {
    && 0 <= k < |edges|
    && if AnyMatches(read, edges, o, ctx) then Matches(read, edges[k], o, ctx) else Free(read, edges[k])
  }

  /** Where in `edges` those with the verdict are. */
  ghost function Places(read: ConditionReader, edges: seq<Edge>, o: Outcome, ctx: Context, v: Verdict): seq<int>
  {
    if edges == [] then []
    else
      var n := |edges| - 1;
      Places(read, edges[..n], o, ctx, v) + if Judge(read, edges[n], o, ctx) == v then [n] else []
  }

  ghost predicate Placed(edges: seq<Edge>, picked: seq<Edge>, at: seq<int>)
  {
    && |at| == |picked| && (forall m :: 0 <= m < |at| ==> 0 <= at[m] < |edges| && picked[m] == edges[at[m]])
    && forall m, n :: 0 <= m < n < |at| ==> at[m] < at[n]
  }

  lemma PlacedFurther(edges: seq<Edge>, picked: seq<Edge>, at: seq<int>)
    requires edges != [] && Placed(edges[..|edges| - 1], picked, at)
    ensures Placed(edges, picked, at)
    ensures Placed(edges, picked + [edges[|edges| - 1]], at + [|edges| - 1])
  {
    var n := |edges| - 1;
    forall m | 0 <= m < |at| ensures 0 <= at[m] < n && picked[m] == edges[at[m]] {}
    forall i, j | 0 <= i < j < |at| + 1 ensures (at + [n])[i] < (at + [n])[j] {}
  }

  lemma {:induction false} PlacesOfJudged(read: ConditionReader, edges: seq<Edge>, o: Outcome, ctx: Context, v: Verdict)
    ensures Placed(edges, Judged(read, edges, o, ctx, v), Places(read, edges, o, ctx, v))
  {
    hide Judge, Placed;
    if edges == [] {
      NothingPlaced();
    } else {
      var n := |edges| - 1;
      PlacesOfJudged(read, edges[..n], o, ctx, v);
      PlacedFurther(edges, Judged(read, edges[..n], o, ctx, v), Places(read, edges[..n], o, ctx, v));
      assert Places(read, edges[..n], o, ctx, v) + [] == Places(read, edges[..n], o, ctx, v);
    }
  }

  lemma NothingPlaced()
    ensures Placed([], [], [])
  {
  }

  lemma {:induction false} PlacesHold(read: ConditionReader, edges: seq<Edge>, o: Outcome, ctx: Context, v: Verdict)
    ensures forall k :: k in Places(read, edges, o, ctx, v) <==> 0 <= k < |edges| && Judge(read, edges[k], o, ctx) == v
  {
    hide Judge;
    if edges != [] {
      var n := |edges| - 1;
      PlacesHold(read, edges[..n], o, ctx, v);
      forall k ensures k in Places(read, edges, o, ctx, v) <==> 0 <= k < |edges| && Judge(read, edges[k], o, ctx) == v {
        assert k in Places(read, edges[..n], o, ctx, v)
               <==> 0 <= k < n && Judge(read, edges[..n][k], o, ctx) == v;
      }
    }
  }

  lemma FilteredPlaces(read: ConditionReader, edges: seq<Edge>, o: Outcome, ctx: Context) returns (at: seq<int>)
    ensures Placed(edges, Filtered(read, edges, o, ctx), at)
    ensures forall k :: k in at <==> Remains(read, edges, o, ctx, k)
  {
    hide Judge, Matches, Free;
    forall e ensures (Judge(read, e, o, ctx) == Matched <==> Matches(read, e, o, ctx))
                     && (Judge(read, e, o, ctx) == Unconditional <==> Free(read, e))
    {
      JudgedByMeaning(read, e, o, ctx);
    }
    JudgedMember(read, edges, o, ctx, Matched);
    PlacesOfJudged(read, edges, o, ctx, Matched);
    PlacesOfJudged(read, edges, o, ctx, Unconditional);
    PlacesHold(read, edges, o, ctx, Matched);
    PlacesHold(read, edges, o, ctx, Unconditional);
    var matched := Judged(read, edges, o, ctx, Matched);
    if matched != [] { assert matched[0] in matched; }
    at := Places(read, edges, o, ctx, if matched != [] then Matched else Unconditional);
  }

  // ---- which of them is chosen ---------------------------------------------------------------

  ghost function Left(read: ConditionReader, edges: seq<Edge>, o: Outcome, ctx: Context): set<int>
  {
    set k | 0 <= k < |edges| && Remains(read, edges, o, ctx, k)
  }

  predicate Labelled(edges: seq<Edge>, left: set<int>, o: Outcome, k: int)
  {
    0 <= k < |edges| && k in left && o.preferredLabel != "" && Get(edges[k].attrs, "label") == o.preferredLabel
  }

  predicate Suggested(edges: seq<Edge>, left: set<int>, o: Outcome, n: int, k: int)
  {
    0 <= k < |edges| && k in left && 0 <= n < |o.suggestedNext| && edges[k].to == o.suggestedNext[n]
  }

  ghost predicate Heavier(edges: seq<Edge>, left: set<int>, k: int)
  {
    && 0 <= k < |edges| && k in left
    && forall i :: 0 <= i < |edges| && i in left && i != k ==> Weight(edges[i]) < Weight(edges[k])
  }

  /** Edge `k` is the only one left; or the first with the preferred label; or the first to
      the earliest suggestion that leads anywhere; or the one heavier than all others; or
      the first with the least target -- whichever of these there is first. */
  ghost predicate Chosen(edges: seq<Edge>, left: set<int>, o: Outcome, k: int)
  {
    && 0 <= k < |edges| && k in left
    && if left == {k} then true
       else if exists j :: Labelled(edges, left, o, j) then
         Labelled(edges, left, o, k) && forall j :: Labelled(edges, left, o, j) ==> k <= j
       else if exists n, j :: Suggested(edges, left, o, n, j) then
         exists n ::
           && Suggested(edges, left, o, n, k)
           && (forall m, j :: Suggested(edges, left, o, m, j) ==> n <= m)
           && forall j :: Suggested(edges, left, o, n, j) ==> k <= j
       else if exists j :: Heavier(edges, left, j) then Heavier(edges, left, k)
       else
         forall j :: 0 <= j < |edges| && j in left ==>
           !Less(edges[j].to, edges[k].to) && (edges[j].to == edges[k].to ==> k <= j)
  }

  lemma ChosenOnce(edges: seq<Edge>, left: set<int>, o: Outcome, k: int, l: int)
    requires Chosen(edges, left, o, k) && Chosen(edges, left, o, l)
    ensures k == l
  {
    LessTotal(edges[k].to, edges[l].to);
    if left == {k} || left == {l} {
      assert k in left && l in left;
    } else if exists j :: Labelled(edges, left, o, j) {
    } else if exists n, j :: Suggested(edges, left, o, n, j) {
      var n :| Suggested(edges, left, o, n, k) && (forall m, j :: Suggested(edges, left, o, m, j) ==> n <= m)
               && forall j :: Suggested(edges, left, o, n, j) ==> k <= j;
      var m :| Suggested(edges, left, o, m, l) && (forall i, j :: Suggested(edges, left, o, i, j) ==> m <= i)
               && forall j :: Suggested(edges, left, o, m, j) ==> l <= j;
    }
  }

  /** `picked` are the edges left, in order, standing at `at`. */
  ghost predicate Stand(edges: seq<Edge>, left: set<int>, picked: seq<Edge>, at: seq<int>)
  {
    Placed(edges, picked, at) && forall k :: k in at <==> k in left
  }

  lemma StandsAt(edges: seq<Edge>, left: set<int>, picked: seq<Edge>, at: seq<int>, k: int) returns (m: int)
    requires Stand(edges, left, picked, at) && k in left
    ensures 0 <= m < |picked| && at[m] == k && 0 <= k < |edges| && picked[m] == edges[k]
  {
    assert k in at;
    m :| 0 <= m < |at| && at[m] == k;
  }

  lemma LeftArePicked(edges: seq<Edge>, left: set<int>, picked: seq<Edge>, at: seq<int>)
    requires Stand(edges, left, picked, at)
    ensures forall k :: k in left ==> 0 <= k < |edges| && edges[k] in picked
  {
    forall k | k in left ensures 0 <= k < |edges| && edges[k] in picked {
      var m := StandsAt(edges, left, picked, at, k);
    }
  }

  lemma {:induction false} NoSuggestionLeads(edges: seq<Edge>, suggestions: seq<string>)
    requires FirstSuggested(edges, suggestions).None?
    ensures forall e, id :: e in edges && id in suggestions ==> e.to != id
  {
    if suggestions != [] {
      NoSuggestionLeads(edges, suggestions[1..]);
      assert forall id :: id in suggestions ==> id == suggestions[0] || id in suggestions[1..];
    }
  }

  lemma {:induction false} LabelledFirst(edges: seq<Edge>, wanted: string) returns (m: int)
    requires FirstLabelled(edges, wanted).Some?
    ensures 0 <= m < |edges| && FirstLabelled(edges, wanted) == Some(edges[m]) && Get(edges[m].attrs, "label") == wanted
    ensures forall i :: 0 <= i < m ==> Get(edges[i].attrs, "label") != wanted
  {
    if Get(edges[0].attrs, "label") == wanted {
      m := 0;
    } else {
      var rest := LabelledFirst(edges[1..], wanted);
      m := rest + 1;
    }
  }

  lemma {:induction false} LeadsFirst(edges: seq<Edge>, id: string) returns (m: int)
    requires FirstTo(edges, id).Some?
    ensures 0 <= m < |edges| && FirstTo(edges, id) == Some(edges[m]) && edges[m].to == id
    ensures forall i :: 0 <= i < m ==> edges[i].to != id
  {
    if edges[0].to == id {
      m := 0;
    } else {
      var rest := LeadsFirst(edges[1..], id);
      m := rest + 1;
    }
  }

  lemma {:induction false} SuggestedFirst(edges: seq<Edge>, suggestions: seq<string>) returns (n: int, m: int)
    requires FirstSuggested(edges, suggestions).Some?
    ensures 0 <= n < |suggestions| && 0 <= m < |edges|
    ensures FirstSuggested(edges, suggestions) == Some(edges[m]) && edges[m].to == suggestions[n]
    ensures forall i :: 0 <= i < m ==> edges[i].to != suggestions[n]
    ensures forall i, j :: 0 <= i < n && 0 <= j < |edges| ==> edges[j].to != suggestions[i]
  {
    if FirstTo(edges, suggestions[0]).Some? {
      n := 0;
      m := LeadsFirst(edges, suggestions[0]);
    } else {
      assert forall j :: 0 <= j < |edges| ==> edges[j] in edges;
      n, m := SuggestedFirst(edges, suggestions[1..]);
      n := n + 1;
    }
  }

  lemma LabelDecides(edges: seq<Edge>, left: set<int>, picked: seq<Edge>, at: seq<int>, o: Outcome) returns (m: int)
    requires Stand(edges, left, picked, at) && |picked| > 1 && o.preferredLabel != ""
    requires FirstLabelled(picked, o.preferredLabel).Some?
    ensures 0 <= m < |picked| && FirstLabelled(picked, o.preferredLabel) == Some(picked[m])
            && Chosen(edges, left, o, at[m])
  {
    m := LabelledFirst(picked, o.preferredLabel);
    assert at[m] in at;
    assert Labelled(edges, left, o, at[m]);
    forall j | Labelled(edges, left, o, j) ensures at[m] <= j {
      var i := StandsAt(edges, left, picked, at, j);
    }
  }

  lemma NoneLabelled(edges: seq<Edge>, left: set<int>, picked: seq<Edge>, at: seq<int>, o: Outcome)
    requires Stand(edges, left, picked, at)
    requires o.preferredLabel == "" || FirstLabelled(picked, o.preferredLabel).None?
    ensures forall j :: !Labelled(edges, left, o, j)
  {
    LeftArePicked(edges, left, picked, at);
  }

  lemma SuggestionDecides(edges: seq<Edge>, left: set<int>, picked: seq<Edge>, at: seq<int>, o: Outcome)
    returns (m: int)
    requires Stand(edges, left, picked, at) && |picked| > 1 && (forall j :: !Labelled(edges, left, o, j))
    requires FirstSuggested(picked, o.suggestedNext).Some?
    ensures 0 <= m < |picked| && FirstSuggested(picked, o.suggestedNext) == Some(picked[m])
            && Chosen(edges, left, o, at[m])
  {
    var n;
    n, m := SuggestedFirst(picked, o.suggestedNext);
    assert at[m] in at;
    assert Suggested(edges, left, o, n, at[m]);
    forall i, j | Suggested(edges, left, o, i, j) ensures n <= i && (i == n ==> at[m] <= j) {
      var l := StandsAt(edges, left, picked, at, j);
    }
  }

  lemma NoneSuggested(edges: seq<Edge>, left: set<int>, picked: seq<Edge>, at: seq<int>, o: Outcome)
    requires Stand(edges, left, picked, at) && FirstSuggested(picked, o.suggestedNext).None?
    ensures forall n, j :: !Suggested(edges, left, o, n, j)
  {
    LeftArePicked(edges, left, picked, at);
    assert forall n :: 0 <= n < |o.suggestedNext| ==> o.suggestedNext[n] in o.suggestedNext;
    NoSuggestionLeads(picked, o.suggestedNext);
  }

  lemma HeavierStands(edges: seq<Edge>, left: set<int>, picked: seq<Edge>, at: seq<int>, m: int)
    requires Stand(edges, left, picked, at) && 0 <= m < |picked|
    ensures Outweighs(picked, m) <==> Heavier(edges, left, at[m])
  {
    hide Weight;
    assert at[m] in at;
    if Outweighs(picked, m) {
      forall i | 0 <= i < |edges| && i in left && i != at[m] ensures Weight(edges[i]) < Weight(edges[at[m]]) {
        var j := StandsAt(edges, left, picked, at, i);
      }
    }
    if Heavier(edges, left, at[m]) {
      forall j | 0 <= j < |picked| && j != m ensures Weight(picked[j]) < Weight(picked[m]) {
        assert at[j] in at && at[j] != at[m];
      }
    }
  }

  /** Neither label nor suggestion decides. */
  ghost predicate NoPreference(edges: seq<Edge>, left: set<int>, o: Outcome)
  {
    (forall j :: !Labelled(edges, left, o, j)) && forall n, j :: !Suggested(edges, left, o, n, j)
  }

  lemma WeightDecides(edges: seq<Edge>, left: set<int>, picked: seq<Edge>, at: seq<int>, o: Outcome, m: int)
    requires Stand(edges, left, picked, at) && |picked| > 1 && NoPreference(edges, left, o) && Outweighs(picked, m)
    ensures Chosen(edges, left, o, at[m])
  {
    assert at[m] in at;
    HeavierStands(edges, left, picked, at, m);
  }

  lemma TargetDecides(edges: seq<Edge>, left: set<int>, picked: seq<Edge>, at: seq<int>, o: Outcome, m: int)
    requires Stand(edges, left, picked, at) && |picked| > 1 && NoPreference(edges, left, o)
    requires (forall i :: !Outweighs(picked, i)) && LeastTarget(picked, m)
    ensures Chosen(edges, left, o, at[m])
  {
    hide Weight, Outweighs;
    assert at[m] in at;
    forall j ensures !Heavier(edges, left, j) {
      if Heavier(edges, left, j) {
        var i := StandsAt(edges, left, picked, at, j);
        HeavierStands(edges, left, picked, at, i);
      }
    }
    forall j | 0 <= j < |edges| && j in left
      ensures !Less(edges[j].to, edges[at[m]].to) && (edges[j].to == edges[at[m]].to ==> at[m] <= j)
    {
      var i := StandsAt(edges, left, picked, at, j);
    }
  }

  lemma SomeoneChosen(read: ConditionReader, edges: seq<Edge>, o: Outcome, ctx: Context, at: seq<int>) returns (m: int)
    requires Stand(edges, Left(read, edges, o, ctx), Filtered(read, edges, o, ctx), at)
    requires Filtered(read, edges, o, ctx) != []
    ensures var filtered := Filtered(read, edges, o, ctx);
            && 0 <= m < |filtered| && Choice(read, edges, o, ctx) == Some(filtered[m])
            && Chosen(edges, Left(read, edges, o, ctx), o, at[m])
  {
    hide Left, Filtered, Outweighs, LeastTarget, Labelled, Suggested, Chosen;
    var picked, left := Filtered(read, edges, o, ctx), Left(read, edges, o, ctx);
    if |picked| == 1 {
      m := 0;
      OnlyOneChosen(edges, left, picked, at, o);
    } else if o.preferredLabel != "" && FirstLabelled(picked, o.preferredLabel).Some? {
      m := LabelDecides(edges, left, picked, at, o);
    } else {
      NoneLabelled(edges, left, picked, at, o);
      if FirstSuggested(picked, o.suggestedNext).Some? {
        m := SuggestionDecides(edges, left, picked, at, o);
      } else {
        NoneSuggested(edges, left, picked, at, o);
        if i :| Outweighs(picked, i) {
          HeaviestInRange(picked);
          m :| 0 <= m < |picked| && Outweighs(picked, m) && Heaviest(picked) == Some(picked[m]);
          WeightDecides(edges, left, picked, at, o, m);
        } else {
          LeastTargetExists(picked);
          m :| LeastTarget(picked, m);
          IndexOfLeast(picked, m);
          LeastIs(picked, m);
          TargetDecides(edges, left, picked, at, o, m);
        }
      }
    }
  }

  lemma HeaviestInRange(edges: seq<Edge>)
    requires |edges| > 1 && exists m :: Outweighs(edges, m)
    ensures exists m :: 0 <= m < |edges| && Outweighs(edges, m) && Heaviest(edges) == Some(edges[m])
  {
    hide Weight;
  }

  lemma OnlyOneChosen(edges: seq<Edge>, left: set<int>, picked: seq<Edge>, at: seq<int>, o: Outcome)
    requires Stand(edges, left, picked, at) && |picked| == 1
    ensures Chosen(edges, left, o, at[0])
  {
    assert at[0] in at;
    forall k | k in left ensures k == at[0] {
      var m := StandsAt(edges, left, picked, at, k);
    }
    assert left == {at[0]};
  }

  /** The selector picks exactly the chosen edge among the candidates, and fails exactly
      when none is left. */
  lemma ChoiceIsTheChosen(read: ConditionReader, edges: seq<Edge>, o: Outcome, ctx: Context)
    ensures var left := Left(read, edges, o, ctx); var r := Choice(read, edges, o, ctx);
            && (r.None? <==> left == {})
            && (r.Some? ==> exists k :: Chosen(edges, left, o, k))
            && forall k :: Chosen(edges, left, o, k) ==> 0 <= k < |edges| && r == Some(edges[k])
  {
    hide Remains, Chosen, Choice, Placed;
    var left := Left(read, edges, o, ctx);
    var at := FilteredPlaces(read, edges, o, ctx);
    var filtered := Filtered(read, edges, o, ctx);
    LeftStand(read, edges, o, ctx, at);
    if filtered == [] {
      NothingChosen(read, edges, o, ctx, at);
    } else {
      var m := SomeoneChosen(read, edges, o, ctx, at);
      InPlace(edges, filtered, at, m);
      InPlay(edges, left, o, at[m]);
      forall k | Chosen(edges, left, o, k) ensures 0 <= k < |edges| && edges[k] == filtered[m] {
        ChosenOnce(edges, left, o, k, at[m]);
      }
    }
  }

  lemma InPlace(edges: seq<Edge>, picked: seq<Edge>, at: seq<int>, m: int)
    requires Placed(edges, picked, at) && 0 <= m < |picked|
    ensures |at| == |picked| && 0 <= at[m] < |edges| && picked[m] == edges[at[m]]
  {
  }

  lemma InPlay(edges: seq<Edge>, left: set<int>, o: Outcome, k: int)
    requires Chosen(edges, left, o, k)
    ensures 0 <= k < |edges| && k in left
  {
  }

  lemma LeftStand(read: ConditionReader, edges: seq<Edge>, o: Outcome, ctx: Context, at: seq<int>)
    requires Placed(edges, Filtered(read, edges, o, ctx), at)
    requires forall k :: k in at <==> Remains(read, edges, o, ctx, k)
    ensures Stand(edges, Left(read, edges, o, ctx), Filtered(read, edges, o, ctx), at)
  {
    hide Filtered;
    forall k ensures k in at <==> k in Left(read, edges, o, ctx) {}
  }

  lemma NothingChosen(read: ConditionReader, edges: seq<Edge>, o: Outcome, ctx: Context, at: seq<int>)
    requires Stand(edges, Left(read, edges, o, ctx), Filtered(read, edges, o, ctx), at)
    requires Filtered(read, edges, o, ctx) == []
    ensures Left(read, edges, o, ctx) == {} && Choice(read, edges, o, ctx) == None
    ensures forall k :: !Chosen(edges, Left(read, edges, o, ctx), o, k)
  {
    hide Remains;
    assert at == [];
  }

  // ---- weights ---------------------------------------------------------------------------------

  predicate Digits(s: string)
  {
    s != "" && forall i :: 0 <= i < |s| ==> '0' <= s[i] <= '9'
  }

  /** Digits, with a sign or without. */
  ghost predicate Signed(s: string, v: int)
  {
    || (Digits(s) && v == DigitsValue(s))
    || (s != "" && s[0] == '+' && Digits(s[1..]) && v == DigitsValue(s[1..]))
    || (s != "" && s[0] == '-' && Digits(s[1..]) && -v == DigitsValue(s[1..]))
  }

  ghost predicate Blank(s: string, k: int)
  {
    0 <= k <= |s| && forall i :: 0 <= i < k ==> s[i] == ' ' || '\t' <= s[i] <= '\r'
  }

  /** An integer of 32 bits with blanks before it and nothing behind it. */
  ghost predicate Numeral(s: string, v: int)
  {
    -0x8000_0000 <= v < 0x8000_0000 && exists k :: Blank(s, k) && Signed(s[k..], v)
  }

  lemma SignedStarts(s: string, v: int)
    requires Signed(s, v)
    ensures s != "" && !IsSpace(s[0])
  {
  }

  lemma {:induction false} ParseIntExactly(s: string, v: int)
    ensures ParseInt(s) == Some(v) <==> Numeral(s, v)
  {
    hide Signed;
    if s != "" && IsSpace(s[0]) {
      ParseIntExactly(s[1..], v);
      NumeralBehindBlank(s, v);
    } else {
      SignedExactly(s, v);
      NumeralWithoutBlank(s, v);
    }
  }

  lemma NumeralBehindBlank(s: string, v: int)
    requires s != "" && IsSpace(s[0])
    ensures Numeral(s, v) <==> Numeral(s[1..], v)
  {
    hide Signed;
    if Numeral(s, v) {
      var k :| Blank(s, k) && Signed(s[k..], v);
      SignedStarts(s[k..], v);
      assert k != 0;
      assert s[1..][k - 1..] == s[k..] && Blank(s[1..], k - 1);
    }
    if Numeral(s[1..], v) {
      var k :| Blank(s[1..], k) && Signed(s[1..][k..], v);
      assert s[1..][k..] == s[k + 1..];
      assert forall i :: 0 <= i < k ==> s[i + 1] == s[1..][i];
      assert Blank(s, k + 1);
    }
  }

  lemma BlankStarts(s: string, k: int)
    requires Blank(s, k) && k > 0
    ensures s != "" && IsSpace(s[0])
  {
  }

  lemma NumeralWithoutBlank(s: string, v: int)
    requires s == "" || !IsSpace(s[0])
    ensures Numeral(s, v) <==> -0x8000_0000 <= v < 0x8000_0000 && Signed(s, v)
  {
    hide Signed;
    assert Blank(s, 0) && s[0..] == s;
    forall k | Blank(s, k) ensures k == 0 {
      if k > 0 { BlankStarts(s, k); }
    }
  }

  lemma SignedExactly(s: string, v: int)
    requires s == "" || !IsSpace(s[0])
    ensures ParseInt(s) == Some(v) <==> -0x8000_0000 <= v < 0x8000_0000 && Signed(s, v)
  {
    hide DigitsValue;
    if s != "" {
      var signed := s[0] == '-' || s[0] == '+';
      var digits := if signed then s[1..] else s;
      SameDigits(digits);
      SameDigits(s);
      assert signed ==> !IsDigit(s[0]);
      if Digits(digits) {
        var n: int := DigitsValue(digits);
        assert Signed(s, v) <==> v == if s[0] == '-' then -n else n;
      }
    }
  }

  lemma SameDigits(s: string)
    ensures Digits(s) <==> AllDigits(s)
  {
  }

  /** An edge without a readable weight weighs nothing. */
  lemma WeightExactly(e: Edge)
    ensures "weight" in e.attrs ==> forall v :: Numeral(e.attrs["weight"], v) ==> Weight(e) == v
    ensures "weight" !in e.attrs || (forall v :: !Numeral(e.attrs["weight"], v)) ==> Weight(e) == 0
  {
    hide ParseInt, Numeral;
    if "weight" in e.attrs {
      var s := e.attrs["weight"];
      forall v ensures ParseInt(s) == Some(v) <==> Numeral(s, v) { ParseIntExactly(s, v); }
    }
  }

  // ---- two edges with opposite conditions --------------------------------------------------------

  lemma OneClause(read: ConditionReader, e: Edge, c: Clause, o: Outcome, ctx: Context)
    requires Get(e.attrs, "condition") != "" && read(Get(e.attrs, "condition")) == Some([c])
    ensures Judge(read, e, o, ctx) == if ClauseHolds(c, o, ctx) then Matched else Rejected
  {
    hide ClauseHolds;
    assert [c][0] == c;
  }

  /** `outcome=value` on one edge and `outcome!=value` on the other: the first is taken
      exactly when the status has that name, in any case, and the second otherwise. */
  lemma OppositeEdges(read: ConditionReader, yes: Edge, no: Edge, value: string, o: Outcome, ctx: Context)
    requires Get(yes.attrs, "condition") != ""
             && read(Get(yes.attrs, "condition")) == Some([Clause("outcome", "=", value)])
    requires Get(no.attrs, "condition") != ""
    requires read(Get(no.attrs, "condition")) == Some([Clause("outcome", "!=", value)])
    ensures Choice(read, [yes, no], o, ctx)
            == Some(if exists name :: Named(o.status, name) && SameLetters(name, value) then yes else no)
  {
    hide ClauseHolds, SameLetters, Named;
    OutcomeClause(value, o, ctx);
    OperatorsOppose("outcome", value, o, ctx);
    var edges := [yes, no];
    var first := Judge(read, yes, o, ctx) == Matched;
    OneClause(read, yes, Clause("outcome", "=", value), o, ctx);
    OneClause(read, no, Clause("outcome", "!=", value), o, ctx);
    assert edges[..1] == [yes] && [yes][..0] == [];
    assert Judged(read, [yes], o, ctx, Matched) == if first then [yes] else [];
    assert Judged(read, edges, o, ctx, Matched) == [if first then yes else no];
  }
}
