/** `needle retry`: the descendant search of src/model/graph.cpp and the checkpoint
    reset of src/cli/router.cpp. */
module RetryReset {
  import opened Text
  import opened Graphs

  /** Depth-first closure with an explicit stack that may hold an id many times. */
  method ReachableFrom(g: Graph, nodeId: string) returns (visited: set<string>)
    ensures forall x :: x in visited <==> Reachable(g, Everywhere(), nodeId, x)
  {
    visited := {};
    var stack := [nodeId];
    ReachableSelf(g, Everywhere(), nodeId);
    while stack != []
      invariant forall x :: x in visited || x in stack ==> Reachable(g, Everywhere(), nodeId, x)
      invariant nodeId in visited || nodeId in stack
      invariant forall x, y :: x in visited && y in Succ(g, x) ==> y in visited || y in stack
      decreases Universe(g, nodeId) - visited, |stack|
    {
      var current := stack[|stack| - 1];
      assert current in stack;
      ReachableInUniverse(g, Everywhere(), nodeId);
      ghost var stack0 := stack;
      stack := stack[..|stack| - 1];
      assert forall x :: x in stack0 ==> x in stack || x == current;
      if current in visited {
        continue;
      }
      visited := visited + {current};
      stack := PushUnvisited(g, nodeId, current, visited, stack);
    }
    ClosedSetContainsReachable(g, Everywhere(), visited, nodeId);
  }

  /** The inner loop: push the target of every edge out of `current` not yet visited. */
  method PushUnvisited(g: Graph, ghost start: string, current: string, visited: set<string>, stack0: seq<string>)
    returns (stack: seq<string>)
    requires Reachable(g, Everywhere(), start, current)
    requires forall x :: x in stack0 ==> Reachable(g, Everywhere(), start, x)
    ensures forall x :: x in stack ==> Reachable(g, Everywhere(), start, x)
    ensures forall x :: x in stack0 ==> x in stack
    ensures forall y :: y in Succ(g, current) ==> y in visited || y in stack
  {
    stack := stack0;
    for k := 0 to |g.edges|
      invariant forall x :: x in stack ==> Reachable(g, Everywhere(), start, x)
      invariant forall x :: x in stack0 ==> x in stack
      invariant forall j :: 0 <= j < k && g.edges[j].from == current ==>
                g.edges[j].to in visited || g.edges[j].to in stack
    {
      var e := g.edges[k];
      if e.from == current && e.to !in visited {
        SuccMember(g, current, e.to);
        ReachableStep(g, Everywhere(), start, current, e.to);
        stack := stack + [e.to];
      }
    }
    forall y | y in Succ(g, current) ensures y in visited || y in stack {
      SuccMember(g, current, y);
    }
  }

  // ---- the reset -------------------------------------------------------------

  function Without(s: seq<string>, removed: set<string>): (r: seq<string>)
    ensures forall x :: x in r <==> x in s && x !in removed
  {
    if s == [] then []
    else if s[|s| - 1] in removed then Without(s[..|s| - 1], removed)
    else Without(s[..|s| - 1], removed) + [s[|s| - 1]]
  }

  /** The survivors keep their original order: cut the list anywhere, and those of
      the front come before those of the back. */
  lemma {:induction false} WithoutKeepsOrder(front: seq<string>, back: seq<string>, removed: set<string>)
    ensures Without(front + back, removed) == Without(front, removed) + Without(back, removed)
  {
    if back == [] {
      assert front + back == front;
    } else {
      assert (front + back)[..|front + back| - 1] == front + back[..|back| - 1];
      WithoutKeepsOrder(front, back[..|back| - 1], removed);
    }
  }

  /** `needle retry <target>`: forget the target and everything reachable from it. */
  method ResetCompleted(g: Graph, completed: seq<string>, target: string)
    returns (toRemove: set<string>, newCompleted: seq<string>, removedCount: nat)
    ensures forall x :: x in toRemove <==> Reachable(g, Everywhere(), target, x)
    ensures newCompleted == Without(completed, toRemove)
    ensures removedCount == |completed| - |newCompleted|
    ensures forall x :: x in newCompleted <==> x in completed && !Reachable(g, Everywhere(), target, x)
    ensures target !in newCompleted
  {
    toRemove := ReachableFrom(g, target);
    ReachableSelf(g, Everywhere(), target);
    newCompleted := [];
    for k := 0 to |completed|
      invariant newCompleted == Without(completed[..k], toRemove) && |newCompleted| <= k
    {
      assert completed[..k + 1][..k] == completed[..k];
      if completed[k] !in toRemove {
        newCompleted := newCompleted + [completed[k]];
      }
    }
    assert completed[..|completed|] == completed;
    removedCount := |completed| - |newCompleted|;
  }

  /** What is left is closed downwards: a survivor has no removed predecessor, so no
      completed node is left behind a node that will run again. */
  lemma NoSurvivorBehindTarget(g: Graph, completed: seq<string>, target: string, toRemove: set<string>, a: string,
                               b: string)
    requires forall x :: x in toRemove <==> Reachable(g, Everywhere(), target, x)
    requires a in toRemove && b in Succ(g, a)
    ensures b !in Without(completed, toRemove)
  {
    ReachableStep(g, Everywhere(), target, a, b);
  }

  // ---- clearing context keys ---------------------------------------------------

  /** `std::string::find`: the first occurrence, or None for npos. */
  function Find(s: string, pat: string, from: nat): (r: Option<nat>)
    ensures r.Some? ==> from <= r.value && OccursAt(s, pat, r.value)
                        && forall i :: from <= i < r.value ==> !OccursAt(s, pat, i)
    ensures r.None? ==> forall i :: from <= i ==> !OccursAt(s, pat, i)
    decreases |s| - from
  {
    if from + |pat| > |s| then None
    else if s[from..from + |pat|] == pat then Some(from)
    else Find(s, pat, from + 1)
  }

  predicate OccursAt(s: string, pat: string, i: nat)
  {
    i + |pat| <= |s| && s[i..i + |pat|] == pat
  }

  /** 64-bit size_t: npos is the largest value, and a difference below zero wraps. */
  const SIZES := 0x1_0000_0000_0000_0000
  const NPOS := SIZES - 1

  function Wrapped(difference: int): int
  {
    if difference < 0 then difference + SIZES else difference
  }

  /** The test that decides whether a context key belongs to a removed node. */
  predicate ClearsKey(key: string, nodeId: string)
  {
    var at := Find(key, "." + nodeId, 0);
    Find(key, "." + nodeId + ".", 0).Some?
    || (if at.Some? then at.value else NPOS) == Wrapped(|key| - |nodeId| - 1)
  }

  /** Exactly the keys that hold the id as an inner component, or as last component
      and nowhere before -- and, because the subtraction wraps to npos, every key as
      long as the id itself. */
  lemma ClearsKeyExactly(key: string, nodeId: string)
    requires |key| < NPOS - 1 && |nodeId| < NPOS - 1
    ensures ClearsKey(key, nodeId) <==>
              || (exists i: nat :: OccursAt(key, "." + nodeId + ".", i))
              || (|key| > |nodeId| && OccursAt(key, "." + nodeId, |key| - |nodeId| - 1)
                  && forall i: nat :: i < |key| - |nodeId| - 1 ==> !OccursAt(key, "." + nodeId, i))
              || |key| == |nodeId|
  {
  }

  // ---- what belongs to a node ----------------------------------------------------------

  /** The id is an inner component of the key. */
  ghost predicate Inner(key: string, nodeId: string)
  {
    exists i: nat :: OccursAt(key, "." + nodeId + ".", i)
  }

  /** The id is the last component of the key. */
  predicate Last(key: string, nodeId: string)
  {
    |key| > |nodeId| && OccursAt(key, "." + nodeId, |key| - |nodeId| - 1)
  }

  /** A key belongs to a node when the id is one of its components but the first. */
  ghost predicate Belongs(key: string, nodeId: string)
  {
    Inner(key, nodeId) || Last(key, nodeId)
  }

  /** The id is the last component only, and something before it begins like it. */
  ghost predicate Missed(key: string, nodeId: string)
  {
    && Last(key, nodeId) && !Inner(key, nodeId)
    && exists i: nat :: i < |key| - |nodeId| - 1 && OccursAt(key, "." + nodeId, i)
  }

  /** Exactly when the test says whether a key belongs to a node. */
  lemma TestIsRightExactly(key: string, nodeId: string)
    requires |key| < NPOS - 1 && |nodeId| < NPOS - 1
    ensures (ClearsKey(key, nodeId) <==> Belongs(key, nodeId)) <==> |key| != |nodeId| && !Missed(key, nodeId)
    ensures |key| == |nodeId| ==> ClearsKey(key, nodeId) && !Belongs(key, nodeId)
    ensures Missed(key, nodeId) ==> !ClearsKey(key, nodeId) && Belongs(key, nodeId)
  {
    ClearsKeyExactly(key, nodeId);
    hide ClearsKey, Find;
    if |key| <= |nodeId| { TooShort(key, nodeId); }
  }

  lemma TooShort(key: string, nodeId: string)
    requires |key| <= |nodeId|
    ensures !Belongs(key, nodeId)
  {
  }

  ghost predicate ClearedBySome(key: string, removed: set<string>)
  {
    exists id :: id in removed && ClearsKey(key, id)
  }

  ghost predicate BelongsToSome(key: string, removed: set<string>)
  {
    exists id :: id in removed && Belongs(key, id)
  }

  /** The inner loop: the key becomes empty if some removed node clears it. */
  method ClearKey(ctx: map<string, string>, key: string, removed: set<string>) returns (cleared: map<string, string>)
    ensures cleared == if ClearedBySome(key, removed) then ctx[key := ""] else ctx
  {
    hide ClearsKey, Sorted;
    cleared := ctx;
    var ids := SortedKeys(removed);
    ghost var found := false;
    for j := 0 to |ids|
      invariant found <==> exists l :: 0 <= l < j && ClearsKey(key, ids[l])
      invariant cleared == if found then ctx[key := ""] else ctx
    {
      if ClearsKey(key, ids[j]) {
        cleared := cleared[key := ""];
        found := true;
      }
    }
    if id :| id in removed && ClearsKey(key, id) {
      assert id in ids;
      var l :| 0 <= l < |ids| && ids[l] == id;
    } else {
      forall l | 0 <= l < |ids| ensures !ClearsKey(key, ids[l]) { assert ids[l] in removed; }
    }
  }

  /** The context once the keys in `done` have been through the test. */
  ghost function Cleared(ctx: map<string, string>, done: set<string>, removed: set<string>): map<string, string>
  {
    map k | k in ctx :: if k in done && ClearedBySome(k, removed) then "" else ctx[k]
  }

  lemma OneMoreKey(ctx: map<string, string>, done: set<string>, key: string, removed: set<string>)
    requires key in ctx
    ensures var before := Cleared(ctx, done, removed);
            Cleared(ctx, done + {key}, removed) == if ClearedBySome(key, removed) then before[key := ""] else before
  {
    hide ClearedBySome;
    var before, after := Cleared(ctx, done, removed), Cleared(ctx, done + {key}, removed);
    forall k | k in ctx
      ensures after[k] == if k == key && ClearedBySome(key, removed) then "" else before[k]
    {
    }
  }

  ghost function Front(keys: seq<string>, n: nat): set<string>
    requires n <= |keys|
  {
    if n == 0 then {} else Front(keys, n - 1) + {keys[n - 1]}
  }

  lemma {:induction false} InFront(keys: seq<string>, n: nat, i: nat)
    requires i < n <= |keys|
    ensures keys[i] in Front(keys, n)
  {
    if i < n - 1 { InFront(keys, n - 1, i); }
  }

  lemma NothingDone(ctx: map<string, string>, keys: seq<string>, removed: set<string>)
    ensures Cleared(ctx, Front(keys, 0), removed) == ctx
  {
    hide ClearedBySome;
  }

  lemma OneMoreInFront(ctx: map<string, string>, keys: seq<string>, i: nat, removed: set<string>)
    requires i < |keys| && keys[i] in ctx
    ensures var before := Cleared(ctx, Front(keys, i), removed);
            Cleared(ctx, Front(keys, i + 1), removed)
            == if ClearedBySome(keys[i], removed) then before[keys[i] := ""] else before
  {
    hide ClearedBySome, Cleared;
    OneMoreKey(ctx, Front(keys, i), keys[i], removed);
  }

  lemma AllDone(ctx: map<string, string>, keys: seq<string>, removed: set<string>)
    requires forall k :: k in ctx ==> k in keys
    ensures var cleared := Cleared(ctx, Front(keys, |keys|), removed);
            && cleared.Keys == ctx.Keys
            && forall k :: k in ctx ==> cleared[k] == if ClearedBySome(k, removed) then "" else ctx[k]
  {
    hide ClearedBySome;
    forall k | k in ctx ensures k in Front(keys, |keys|) {
      var i :| 0 <= i < |keys| && keys[i] == k;
      InFront(keys, |keys|, i);
    }
  }

  method ClearKeys(ctx: map<string, string>, removed: set<string>) returns (cleared: map<string, string>)
    ensures cleared.Keys == ctx.Keys
    ensures forall k :: k in ctx ==> cleared[k] == if ClearedBySome(k, removed) then "" else ctx[k]
  {
    hide *;
    cleared := ctx;
    var keys := SortedKeys(ctx.Keys);
    NothingDone(ctx, keys, removed);
    for i := 0 to |keys|
      invariant cleared == Cleared(ctx, Front(keys, i), removed)
    {
      assert keys[i] in keys;
      OneMoreInFront(ctx, keys, i, removed);
      cleared := ClearKey(cleared, keys[i], removed);
    }
    AllDone(ctx, keys, removed);
  }

  /** The test is right about the key for the removed nodes together: if the key belongs
      to some, one of them does not miss it or is as long; if to none, none is as long. */
  ghost predicate RightAbout(key: string, removed: set<string>)
  {
    if BelongsToSome(key, removed) then
      exists id :: id in removed && (|id| == |key| || (Belongs(key, id) && !Missed(key, id)))
    else
      forall id :: id in removed ==> |id| != |key|
  }

  lemma RightAboutExactly(key: string, removed: set<string>)
    requires |key| < NPOS - 1 && forall id :: id in removed ==> |id| < NPOS - 1
    ensures (ClearedBySome(key, removed) <==> BelongsToSome(key, removed)) <==> RightAbout(key, removed)
  {
    hide ClearsKey, Belongs, Missed;
    forall id | id in removed
      ensures ClearsKey(key, id) <==> |id| == |key| || (Belongs(key, id) && !Missed(key, id))
    {
      TestIsRightExactly(key, id);
    }
  }

  /** Exactly when the reset clears the keys of the removed nodes and no other: when the
      test is right about every key that is not empty already. */
  lemma ResetClearsExactly(ctx: map<string, string>, removed: set<string>, cleared: map<string, string>)
    requires (forall k :: k in ctx ==> |k| < NPOS - 1) && forall id :: id in removed ==> |id| < NPOS - 1
    requires cleared.Keys == ctx.Keys
    requires forall k :: k in ctx ==> cleared[k] == if ClearedBySome(k, removed) then "" else ctx[k]
    ensures (forall k :: k in ctx ==> cleared[k] == if BelongsToSome(k, removed) then "" else ctx[k])
            <==> forall k :: k in ctx && ctx[k] != "" ==> RightAbout(k, removed)
  {
    hide ClearedBySome, BelongsToSome, RightAbout;
    forall k | k in ctx
      ensures (ClearedBySome(k, removed) <==> BelongsToSome(k, removed)) <==> RightAbout(k, removed)
    {
      RightAboutExactly(k, removed);
    }
  }

  /** The promise "clear the keys of removed nodes" fails both ways: retrying `plan`
      clears the unrelated key `goal`, and retrying `a` keeps `.ab.a`. */
  lemma ClearsUnrelatedKey()
    ensures ClearsKey("goal", "plan")
    ensures !ClearsKey(".ab.a", "a")
  {
    assert Find("goal", ".plan", 0).None?;
    ClearsKeyExactly("goal", "plan");
    var key := ".ab.a";
    assert "." + "a" == ".a" && "." + "a" + "." == ".a.";
    assert OccursAt(key, "." + "a", 0) by { assert key[0..2] == ".a"; }
    forall i: nat ensures !OccursAt(key, "." + "a" + ".", i) {
      if i + 3 <= 5 {
        assert key[i..i + 3][0] == key[i] && key[i..i + 3][2] == key[i + 2];
      }
    }
    ClearsKeyExactly(key, "a");
  }
}
