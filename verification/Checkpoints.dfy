/** The checkpoint and its JSON form: src/engine/checkpoint_manager.cpp. */
module Checkpoints {
  import opened Text
  import opened Json
  import opened Outcomes

  datatype Checkpoint = Checkpoint(
    timestamp: string,
    currentNode: string,
    completedNodes: seq<string>,
    retryCounters: map<string, int>,
    context: Context,
    graphFile: string,
    graphHash: string,
    completedNodeHashes: map<string, string>,
    branchWorktrees: map<string, string>,
    stylesheetFile: string,
    logsRoot: string,
    dotContentHash: string)

  // ---- writing -----------------------------------------------------------------

  function Strings(m: map<string, string>): Json
  {
    Object(map k | k in m :: Str(m[k]))
  }

  function Numbers(m: map<string, int>): Json
  {
    Object(map k | k in m :: Number(m[k]))
  }

  /** A field left out when its value is empty. */
  function Optional(key: string, value: string): map<string, Json>
  {
    if value == "" then map[] else map[key := Str(value)]
  }

  function Items(s: seq<string>): Json
  {
    Array(seq(|s|, i requires 0 <= i < |s| => Str(s[i])))
  }

  function Required(cp: Checkpoint): map<string, Json>
  {
    map["timestamp" := Str(cp.timestamp),
        "current_node" := Str(cp.currentNode),
        "completed_nodes" := Items(cp.completedNodes),
        "retry_counters" := Numbers(cp.retryCounters),
        "context" := Strings(cp.context),
        "graph_file" := Str(cp.graphFile),
        "graph_hash" := Str(cp.graphHash),
        "completed_node_hashes" := Strings(cp.completedNodeHashes),
        "branch_worktrees" := Strings(cp.branchWorktrees)]
  }

  function ToJson(cp: Checkpoint): Json
  {
    Object(Required(cp)
           + Optional("stylesheet_file", cp.stylesheetFile)
           + Optional("logs_root", cp.logsRoot)
           + Optional("dot_content_hash", cp.dotContentHash))
  }

  // ---- reading -----------------------------------------------------------------

  /** A missing or non-string field reads as "". */
  function SafeString(j: map<string, Json>, key: string): string
  {
    if key in j && j[key].Str? then j[key].s else ""
  }

  /** A missing field reads as ""; a non-string one throws. */
  function ValueString(j: map<string, Json>, key: string): Option<string>
  {
    if key !in j then Some("") else if j[key].Str? then Some(j[key].s) else None
  }

  /** The string items of an array; anything else is skipped. */
  function StringItems(items: seq<Json>): seq<string>
  {
    if items == [] then []
    else StringItems(items[..|items| - 1]) + if items[|items| - 1].Str? then [items[|items| - 1].s] else []
  }

  /** Iterating a value by key: only an object has keys, and null and the empty array
      have no items; anything else throws. */
  function KeyedItems(j: Json): Option<map<string, Json>>
  {
    match j
    case Object(fields) => Some(fields)
    case Null => Some(map[])
    case Array(items) => if items == [] then Some(map[]) else None
    case _ => None
  }

  function StringEntries(items: map<string, Json>): Option<map<string, string>>
  {
    if forall k :: k in items ==> items[k].Str? then
      Some(map k | k in items :: items[k].s)
    else None
  }

  /** `get<int>()` accepts numbers and booleans and keeps the low 32 bits. */
  function Int32(n: int): int
  {
    (n + 0x8000_0000) % 0x1_0000_0000 - 0x8000_0000
  }

  function IntOf(j: Json): Option<int>
  {
    match j
    case Number(n) => Some(Int32(n))
    case Bool(b) => Some(if b then 1 else 0)
    case _ => None
  }

  function IntEntries(items: map<string, Json>): Option<map<string, int>>
  {
    if forall k :: k in items ==> IntOf(items[k]).Some? then
      Some(map k | k in items :: IntOf(items[k]).value)
    else None
  }

  function ReadStrings(j: map<string, Json>, key: string): Option<map<string, string>>
  {
    if key !in j then Some(map[])
    else match KeyedItems(j[key]) case None => None case Some(items) => StringEntries(items)
  }

  function ReadInts(j: map<string, Json>, key: string): Option<map<string, int>>
  {
    if key !in j then Some(map[])
    else match KeyedItems(j[key]) case None => None case Some(items) => IntEntries(items)
  }

  /** None stands for the "failed to parse checkpoint" failure. */
  function FromJson(json: Json): Option<Checkpoint>
  {
    if !json.Object? || "context" !in json.fields then None
    else
      var j := json.fields;
      var completed :=
        if "completed_nodes" in j && j["completed_nodes"].Array? then StringItems(j["completed_nodes"].items) else [];
      var retries := ReadInts(j, "retry_counters");
      var context := ReadStrings(j, "context");
      var graphFile := ValueString(j, "graph_file");
      var graphHash := ValueString(j, "graph_hash");
      var hashes := ReadStrings(j, "completed_node_hashes");
      var worktrees := ReadStrings(j, "branch_worktrees");
      var stylesheet := ValueString(j, "stylesheet_file");
      var logsRoot := ValueString(j, "logs_root");
      var dotHash := ValueString(j, "dot_content_hash");
      if retries.None? || context.None? || graphFile.None? || graphHash.None? || hashes.None?
         || worktrees.None? || stylesheet.None? || logsRoot.None? || dotHash.None? then None
      else
        Some(Checkpoint(SafeString(j, "timestamp"), SafeString(j, "current_node"), completed,
                        retries.value, context.value,
                        graphFile.value, graphHash.value, hashes.value, worktrees.value,
                        stylesheet.value, logsRoot.value, dotHash.value))
  }

  // ---- the round trip ------------------------------------------------------------

  /** Attempt counts are C++ ints. */
  predicate CountersFit(m: map<string, int>)
  {
    forall k :: k in m ==> -0x8000_0000 <= m[k] < 0x8000_0000
  }

  lemma {:induction false} StringItemsBack(s: seq<string>)
    ensures StringItems(Items(s).items) == s
  {
    if s != [] {
      var front := s[..|s| - 1];
      assert Items(s).items[..|s| - 1] == Items(front).items;
      StringItemsBack(front);
      assert s == front + [s[|s| - 1]];
    }
  }

  lemma StringsBack(m: map<string, string>)
    ensures StringEntries(Strings(m).fields) == Some(m)
  {
    assert (map k | k in Strings(m).fields :: Strings(m).fields[k].s) == m;
  }

  lemma NumbersBack(m: map<string, int>)
    requires CountersFit(m)
    ensures IntEntries(Numbers(m).fields) == Some(m)
  {
    forall k | k in m ensures IntOf(Numbers(m).fields[k]) == Some(m[k]) {}
    assert (map k | k in Numbers(m).fields :: IntOf(Numbers(m).fields[k]).value) == m;
  }

  /** An optional field reads back, and disturbs no other. */
  lemma WithOptional(m: map<string, Json>, key: string, value: string)
    requires key !in m
    ensures var m' := m + Optional(key, value);
            && ValueString(m', key) == Some(value)
            && forall k :: k != key ==> (k in m' <==> k in m) && (k in m ==> m'[k] == m[k])
  {
  }

  lemma OptionalKeys(cp: Checkpoint)
    ensures "stylesheet_file" !in Required(cp) && "logs_root" !in Required(cp) && "dot_content_hash" !in Required(cp)
    ensures "stylesheet_file" != "logs_root" && "stylesheet_file" != "dot_content_hash"
            && "logs_root" != "dot_content_hash"
  {
    assert |"stylesheet_file"| == 15 && |"logs_root"| == 9 && |"dot_content_hash"| == 16;
    assert "logs_root"[0] == 'l';
  }

  lemma WrittenFields(cp: Checkpoint)
    ensures var j := ToJson(cp).fields;
            && (forall k :: k in Required(cp) ==> k in j && j[k] == Required(cp)[k])
            && ValueString(j, "stylesheet_file") == Some(cp.stylesheetFile)
            && ValueString(j, "logs_root") == Some(cp.logsRoot)
            && ValueString(j, "dot_content_hash") == Some(cp.dotContentHash)
  {
    OptionalKeys(cp);
    Chain(Required(cp), "stylesheet_file", cp.stylesheetFile, "logs_root", cp.logsRoot, "dot_content_hash",
          cp.dotContentHash);
  }

  lemma Chain(m: map<string, Json>, k1: string, v1: string, k2: string, v2: string, k3: string, v3: string)
    requires k1 !in m && k2 !in m && k3 !in m && k1 != k2 && k1 != k3 && k2 != k3
    ensures var j := m + Optional(k1, v1) + Optional(k2, v2) + Optional(k3, v3);
            && (forall k :: k in m ==> k in j && j[k] == m[k])
            && ValueString(j, k1) == Some(v1) && ValueString(j, k2) == Some(v2) && ValueString(j, k3) == Some(v3)
  {
    var m1 := m + Optional(k1, v1);
    var m2 := m1 + Optional(k2, v2);
    WithOptional(m, k1, v1);
    WithOptional(m1, k2, v2);
    WithOptional(m2, k3, v3);
  }

  lemma RequiredFields(cp: Checkpoint)
    ensures var r := Required(cp);
            && "timestamp" in r && "current_node" in r && "completed_nodes" in r && "retry_counters" in r
            && "context" in r && "graph_file" in r && "graph_hash" in r && "completed_node_hashes" in r
            && "branch_worktrees" in r
            && r["timestamp"] == Str(cp.timestamp) && r["current_node"] == Str(cp.currentNode)
            && r["completed_nodes"] == Items(cp.completedNodes)
            && r["retry_counters"] == Numbers(cp.retryCounters) && r["context"] == Strings(cp.context)
            && r["graph_file"] == Str(cp.graphFile) && r["graph_hash"] == Str(cp.graphHash)
            && r["completed_node_hashes"] == Strings(cp.completedNodeHashes)
            && r["branch_worktrees"] == Strings(cp.branchWorktrees)
  {
  }

  /** Any object carrying the fields of `cp` is read as `cp`. */
  lemma ReadsAs(j: map<string, Json>, cp: Checkpoint)
    requires CountersFit(cp.retryCounters)
    requires SafeString(j, "timestamp") == cp.timestamp && SafeString(j, "current_node") == cp.currentNode
    requires "completed_nodes" in j && j["completed_nodes"] == Items(cp.completedNodes)
    requires "retry_counters" in j && j["retry_counters"] == Numbers(cp.retryCounters)
    requires "context" in j && j["context"] == Strings(cp.context)
    requires ValueString(j, "graph_file") == Some(cp.graphFile) && ValueString(j, "graph_hash") == Some(cp.graphHash)
    requires "completed_node_hashes" in j && j["completed_node_hashes"] == Strings(cp.completedNodeHashes)
    requires "branch_worktrees" in j && j["branch_worktrees"] == Strings(cp.branchWorktrees)
    requires ValueString(j, "stylesheet_file") == Some(cp.stylesheetFile)
    requires ValueString(j, "logs_root") == Some(cp.logsRoot)
    requires ValueString(j, "dot_content_hash") == Some(cp.dotContentHash)
    ensures FromJson(Object(j)) == Some(cp)
  {
    StringItemsBack(cp.completedNodes);
    NumbersBack(cp.retryCounters);
    StringsBack(cp.context);
    StringsBack(cp.completedNodeHashes);
    StringsBack(cp.branchWorktrees);
  }

  /** Every field of a checkpoint survives being written and read back. */
  lemma RoundTrip(cp: Checkpoint)
    requires CountersFit(cp.retryCounters)
    ensures FromJson(ToJson(cp)) == Some(cp)
  {
    WrittenFields(cp);
    RequiredFields(cp);
    ReadsAs(ToJson(cp).fields, cp);
  }

  // ---- the readers as loops --------------------------------------------------------

  method CollectStrings(items: map<string, Json>) returns (r: Option<map<string, string>>)
    ensures r == StringEntries(items)
  {
    var acc: map<string, string> := map[];
    var keys := items.Keys;
    while keys != {}
      invariant keys <= items.Keys && acc.Keys == items.Keys - keys
      invariant forall k :: k in acc ==> items[k] == Str(acc[k])
    {
      var k :| k in keys;
      if !items[k].Str? { return None; }
      acc := acc[k := items[k].s];
      keys := keys - {k};
    }
    assert forall k :: k in items ==> items[k] == Str(acc[k]);
    assert acc == map k | k in items :: items[k].s;
    r := Some(acc);
  }

  method CollectInts(items: map<string, Json>) returns (r: Option<map<string, int>>)
    ensures r == IntEntries(items)
  {
    var acc: map<string, int> := map[];
    var keys := items.Keys;
    while keys != {}
      invariant keys <= items.Keys && acc.Keys == items.Keys - keys
      invariant forall k :: k in acc ==> IntOf(items[k]) == Some(acc[k])
    {
      var k :| k in keys;
      var n := IntOf(items[k]);
      if n.None? { return None; }
      acc := acc[k := n.value];
      keys := keys - {k};
    }
    assert forall k :: k in items ==> IntOf(items[k]) == Some(acc[k]);
    assert acc == map k | k in items :: IntOf(items[k]).value;
    r := Some(acc);
  }

  method CollectStringItems(items: seq<Json>) returns (r: seq<string>)
    ensures r == StringItems(items)
  {
    r := [];
    for i := 0 to |items|
      invariant r == StringItems(items[..i])
    {
      assert items[..i + 1][..i] == items[..i];
      if items[i].Str? {
        r := r + [items[i].s];
      }
    }
    assert items[..|items|] == items;
  }

  /** Writers keep whole JSON values by path; `saved` is what they stand for. */
  class InMemoryCheckpointWriter {
    var store: map<string, Json>
    ghost var saved: map<string, Checkpoint>

    ghost predicate Valid()
      reads this
    {
      store.Keys == saved.Keys && forall path :: path in saved ==> store[path] == ToJson(saved[path])
    }

    constructor ()
      ensures Valid() && saved == map[]
    {
      store, saved := map[], map[];
    }

    method Save(cp: Checkpoint, path: string)
      requires Valid()
      modifies this
      ensures Valid() && saved == old(saved)[path := cp]
    {
      store := store[path := ToJson(cp)];
      saved := saved[path := cp];
    }

    /** The checkpoint saved last at the path comes back whole. */
    method Load(path: string) returns (r: Option<Checkpoint>)
      requires Valid()
      ensures path !in saved ==> r == None
      ensures path in saved && CountersFit(saved[path].retryCounters) ==> r == Some(saved[path])
    {
      hide FromJson, ToJson;
      if path !in store {
        return None;
      }
      if CountersFit(saved[path].retryCounters) { RoundTrip(saved[path]); }
      r := FromJson(store[path]);
    }
  }
}
