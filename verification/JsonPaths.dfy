/** Dotted paths into a JSON tree and the merge of configurations:
    src/config/needle_config.cpp. */
module JsonPaths {
  import opened Text
  import opened Json
  import Separated

  type Path = seq<string>

  /** split_path: empty segments are dropped. */
  function Segments(path: string): Path { Separated.Fields(path, '.') }

  /** The value at a path; Null when there is none. */
  function Walk(j: Json, path: Path): Json
  {
    if path == [] then j
    else if j.Object? && path[0] in j.fields then Walk(j.fields[path[0]], path[1..])
    else Null
  }

  predicate Present(j: Json, path: Path)
  {
    path == [] || (j.Object? && path[0] in j.fields && Present(j.fields[path[0]], path[1..]))
  }

  function FieldsOf(j: Json): map<string, Json>
  {
    if j.Object? then j.fields else map[]
  }

  function Child(j: Json, key: string): Json
  {
    if key in FieldsOf(j) then FieldsOf(j)[key] else Null
  }

  /** Whatever is in the way of the path becomes an object. */
  function SetAt(j: Json, path: Path, value: Json): Json
    decreases |path|
  {
    if path == [] then value
    else Object(FieldsOf(j)[path[0] := SetAt(Child(j, path[0]), path[1..], value)])
  }

  function RemoveAt(j: Json, path: Path): Json
    requires path != []
  {
    if !j.Object? || path[0] !in j.fields then j
    else if |path| == 1 then Object(j.fields - {path[0]})
    else Object(j.fields[path[0] := RemoveAt(j.fields[path[0]], path[1..])])
  }

  /** Objects are merged field by field; anything else in `src` replaces `dst`. */
  function Merge(dst: Json, src: Json): Json
    decreases src
  {
    if !src.Object? || !dst.Object? then src
    else
      Object(map k | k in dst.fields.Keys + src.fields.Keys ::
               if k !in src.fields then dst.fields[k]
               else if k in dst.fields then Merge(dst.fields[k], src.fields[k])
               else src.fields[k])
  }

  /** One field of the source merged into the fields of an object. */
  function WithField(fields: map<string, Json>, key: string, value: Json): map<string, Json>
  {
    fields[key := if value.Object? && key in fields && fields[key].Object? then Merge(fields[key], value) else value]
  }

  function WithFields(fields: map<string, Json>, keys: seq<string>, from: map<string, Json>): map<string, Json>
    requires forall k :: k in keys ==> k in from
  {
    if keys == [] then fields
    else WithField(WithFields(fields, keys[..|keys| - 1], from), keys[|keys| - 1], from[keys[|keys| - 1]])
  }

  // ---- what the repository's loops do -----------------------------------------------------------

  method WalkPath(j: Json, path: string) returns (r: Json)
    ensures r == Walk(j, Segments(path))
  {
    var parts := Separated.SplitFields(path, '.');
    r := j;
    for k := 0 to |parts|
      invariant Walk(r, parts[k..]) == Walk(j, parts)
    {
      if !r.Object? || parts[k] !in r.fields {
        return Null;
      }
      assert parts[k..][1..] == parts[k + 1..];
      r := r.fields[parts[k]];
    }
  }

  /** An object with the value under one key still to come. */
  datatype Frame = Frame(fields: map<string, Json>, key: string)

  /** The tree that has `j` at the end of the way down. */
  ghost function Plug(spine: seq<Frame>, j: Json): Json
  {
    if spine == [] then j
    else
      var last := spine[|spine| - 1];
      Plug(spine[..|spine| - 1], Object(last.fields[last.key := j]))
  }

  lemma PlugSnoc(spine: seq<Frame>, f: Frame, j: Json)
    ensures Plug(spine + [f], j) == Plug(spine, Object(f.fields[f.key := j]))
  {
    assert (spine + [f])[..|spine|] == spine;
  }

  /** Back up the way that was come. */
  method Rebuild(spine: seq<Frame>, j: Json) returns (r: Json)
    ensures r == Plug(spine, j)
  {
    r := j;
    var n := |spine|;
    assert spine[..n] == spine;
    while n > 0
      invariant 0 <= n <= |spine| && Plug(spine[..n], r) == Plug(spine, j)
    {
      n := n - 1;
      PlugSnoc(spine[..n], spine[n], r);
      assert spine[..n + 1] == spine[..n] + [spine[n]];
      r := Object(spine[n].fields[spine[n].key := r]);
    }
  }

  /** set_path: whatever is in the way becomes an object, one segment at a time. */
  method SetPath(j: Json, path: string, value: Json) returns (r: Json)
    ensures r == if Segments(path) == [] then j else SetAt(j, Segments(path), value)
  {
    hide Separated.Fields;
    var parts := Separated.SplitFields(path, '.');
    if parts == [] {
      return j;
    }
    var cur, spine := j, [];
    var n := |parts| - 1;
    for i := 0 to n
      invariant Plug(spine, SetAt(cur, parts[i..], value)) == SetAt(j, parts, value)
    {
      ghost var before := cur;
      if !cur.Object? {
        cur := Object(map[]);
      }
      if parts[i] !in cur.fields || !cur.fields[parts[i]].Object? {
        cur := Object(cur.fields[parts[i] := Object(map[])]);
      }
      CreatedOnTheWay(before, cur, parts[i..], value);
      assert parts[i..][1..] == parts[i + 1..];
      PlugSnoc(spine, Frame(cur.fields, parts[i]), SetAt(cur.fields[parts[i]], parts[i + 1..], value));
      spine := spine + [Frame(cur.fields, parts[i])];
      cur := cur.fields[parts[i]];
    }
    if !cur.Object? {
      cur := Object(map[]);
    }
    assert parts[n..] == [parts[n]];
    cur := Object(cur.fields[parts[n] := value]);
    r := Rebuild(spine, cur);
  }

  /** Below a segment, only the fields of a child matter. */
  lemma SetBelow(one: Json, two: Json, path: Path, value: Json)
    requires path != [] && FieldsOf(one) == FieldsOf(two)
    ensures SetAt(one, path, value) == SetAt(two, path, value)
  {
  }

  /** An object created on the way makes no difference to what is set below it. */
  lemma CreatedOnTheWay(j: Json, made: Json, path: Path, value: Json)
    requires |path| > 1
    requires var fields := FieldsOf(j);
             made == Object(if path[0] in fields && fields[path[0]].Object? then fields
                            else fields[path[0] := Object(map[])])
    ensures SetAt(j, path, value) == Object(made.fields[path[0] := SetAt(made.fields[path[0]], path[1..], value)])
  {
    hide SetAt;
    SetStep(j, path, value);
    SetBelow(Child(j, path[0]), made.fields[path[0]], path[1..], value);
    var below := SetAt(made.fields[path[0]], path[1..], value);
    assert made.fields[path[0] := below] == FieldsOf(j)[path[0] := below];
  }

  /** remove_path: nothing happens when the way down ends early. */
  method RemovePath(j: Json, path: string) returns (r: Json)
    ensures r == if Segments(path) == [] then j else RemoveAt(j, Segments(path))
  {
    hide Separated.Fields;
    var parts := Separated.SplitFields(path, '.');
    if parts == [] {
      return j;
    }
    var cur, spine := j, [];
    var n := |parts| - 1;
    for i := 0 to n
      invariant Plug(spine, cur) == j && Plug(spine, RemoveAt(cur, parts[i..])) == RemoveAt(j, parts)
    {
      if !cur.Object? || parts[i] !in cur.fields {
        return j;
      }
      assert parts[i..][1..] == parts[i + 1..];
      var frame := Frame(cur.fields, parts[i]);
      PlugSnoc(spine, frame, RemoveAt(cur.fields[parts[i]], parts[i + 1..]));
      PlugSnoc(spine, frame, cur.fields[parts[i]]);
      assert cur.fields[parts[i] := cur.fields[parts[i]]] == cur.fields;
      spine := spine + [frame];
      cur := cur.fields[parts[i]];
    }
    assert parts[n..] == [parts[n]];
    if cur.Object? {
      assert parts[n] !in cur.fields ==> cur.fields - {parts[n]} == cur.fields;
      cur := Object(cur.fields - {parts[n]});
    }
    r := Rebuild(spine, cur);
  }

  method MergeField(fields0: map<string, Json>, key: string, value: Json) returns (fields: map<string, Json>)
    ensures fields == WithField(fields0, key, value)
    decreases value, 1
  {
    hide Merge;
    fields := fields0;
    if value.Object? && key in fields && fields[key].Object? {
      var merged := DeepMerge(fields[key], value);
      fields := fields[key := merged];
    } else {
      fields := fields[key := value];
    }
  }

  method DeepMerge(dst: Json, src: Json) returns (r: Json)
    ensures r == Merge(dst, src)
    decreases src, 0
  {
    hide Merge, WithField, Sorted;
    MergeShape(dst, src);
    if !src.Object? {
      return src;
    }
    if !dst.Object? {
      return src;
    }
    var keys := SortedKeys(src.fields.Keys);
    var fields := dst.fields;
    for i := 0 to |keys|
      invariant fields == WithFields(dst.fields, keys[..i], src.fields)
    {
      assert keys[..i + 1][..i] == keys[..i] && keys[i] in keys;
      fields := MergeField(fields, keys[i], src.fields[keys[i]]);
    }
    assert keys[..|keys|] == keys;
    AllFieldsMerged(dst, src, keys, |keys|);
    r := Object(fields);
  }

  lemma MergeShape(dst: Json, src: Json)
    ensures !src.Object? || !dst.Object? ==> Merge(dst, src) == src
  {
  }

  /** Merging the fields one by one is merging the objects. */
  lemma {:induction false} FieldsMerged(dst: Json, src: Json, keys: seq<string>, n: nat)
    requires dst.Object? && src.Object? && Sorted(keys) && n <= |keys| && forall k :: k in keys ==> k in src.fields
    ensures var m := WithFields(dst.fields, keys[..n], src.fields);
            && (forall k :: k in m <==> k in dst.fields || k in keys[..n])
            && (forall k :: k in m ==> m[k] == if k in keys[..n] then Merge(dst, src).fields[k] else dst.fields[k])
  {
    if n > 0 {
      var key := keys[n - 1];
      FieldsMerged(dst, src, keys, n - 1);
      KeysOnce(keys, n - 1);
      assert keys[..n] == keys[..n - 1] + [key] && key in keys;
      assert keys[..n][..n - 1] == keys[..n - 1];
      FieldMerged(dst, src, key);
    }
  }

  lemma FieldMerged(dst: Json, src: Json, key: string)
    requires dst.Object? && src.Object? && key in src.fields
    ensures key in Merge(dst, src).fields
    ensures Merge(dst, src).fields[key] ==
            if src.fields[key].Object? && key in dst.fields && dst.fields[key].Object?
            then Merge(dst.fields[key], src.fields[key]) else src.fields[key]
  {
    if key in dst.fields { MergeShape(dst.fields[key], src.fields[key]); }
  }

  lemma AllFieldsMerged(dst: Json, src: Json, keys: seq<string>, n: nat)
    requires dst.Object? && src.Object? && Sorted(keys) && n == |keys| && forall k :: k in keys <==> k in src.fields
    ensures Object(WithFields(dst.fields, keys, src.fields)) == Merge(dst, src)
  {
    hide WithFields;
    FieldsMerged(dst, src, keys, n);
    assert keys[..n] == keys;
    assert WithFields(dst.fields, keys, src.fields) == Merge(dst, src).fields;
  }

  lemma KeysOnce(keys: seq<string>, i: nat)
    requires Sorted(keys) && i < |keys|
    ensures keys[i] !in keys[..i]
  {
    if keys[i] in keys[..i] {
      var j :| 0 <= j < i && keys[..i][j] == keys[i];
      LessTotal(keys[j], keys[i]);
    }
  }

  /** The configuration object: its tree is replaced by each update. */
  class NeedleConfig {
    var data: Json

    constructor ()
      ensures data == Object(map[])
    {
      data := Object(map[]);
    }

    method Get(path: string) returns (r: Json)
      ensures r == Walk(data, Segments(path))
    {
      r := WalkPath(data, path);
    }

    method Set(path: string, value: Json)
      modifies this
      ensures Segments(path) == [] ==> data == old(data)
      ensures Segments(path) != [] ==> Walk(data, Segments(path)) == value
      ensures Segments(path) != [] ==> data == SetAt(old(data), Segments(path), value)
      ensures forall q :: Apart(Segments(path), q) ==> Walk(data, q) == Walk(old(data), q)
    {
      hide SetAt, Walk, Apart, Separated.Fields;
      ghost var before, parts := data, Segments(path);
      data := SetPath(data, path, value);
      WalkAfterSet(before, parts, value, []);
      assert parts + [] == parts;
      WalkNowhere(value);
      forall q | Apart(parts, q) ensures Walk(data, q) == Walk(before, q) {
        if parts != [] { WalkBesideSet(before, parts, value, q); }
      }
    }

    method Remove(path: string)
      modifies this
      ensures Segments(path) == [] ==> data == old(data)
      ensures Segments(path) != [] ==> !Present(data, Segments(path)) && data == RemoveAt(old(data), Segments(path))
      ensures Segments(path) != [] ==> (data == old(data) <==> !Present(old(data), Segments(path)))
      ensures forall q :: Apart(Segments(path), q) ==> Walk(data, q) == Walk(old(data), q)
    {
      hide RemoveAt, Walk, Apart, Present, Separated.Fields;
      ghost var before, parts := data, Segments(path);
      data := RemovePath(data, path);
      if parts != [] { RemoveTakesAway(before, parts); }
      forall q | Apart(parts, q) ensures Walk(data, q) == Walk(before, q) {
        if parts != [] { WalkBesideRemove(before, parts, q); }
      }
    }

    /** The built-in defaults, under what is there already. */
    method EnsureDefaults(defaults: Json)
      modifies this
      ensures data == Merge(defaults, old(data))
    {
      data := DeepMerge(defaults, data);
    }
  }

  // ---- setting ----------------------------------------------------------------------------------

  /** After setting, the path reads as the value, and paths below it as the value's parts. */
  lemma {:induction false} WalkAfterSet(j: Json, path: Path, value: Json, below: Path)
    ensures Walk(SetAt(j, path, value), path + below) == Walk(value, below)
    decreases |path|
  {
    if path == [] {
      assert path + below == below;
    } else {
      assert (path + below)[1..] == path[1..] + below;
      WalkAfterSet(Child(j, path[0]), path[1..], value, below);
    }
  }

  lemma WalkNowhere(j: Json)
    ensures Walk(j, []) == j
  {
  }

  ghost predicate Apart(p: Path, q: Path)
  {
    !(p <= q) && !(q <= p)
  }

  lemma ApartTails(p: Path, q: Path)
    requires Apart(p, q)
    ensures p != [] && q != [] && (p[0] == q[0] ==> Apart(p[1..], q[1..]))
  {
    if p[0] == q[0] {
      assert p == [p[0]] + p[1..] && q == [q[0]] + q[1..];
    }
  }

  /** Every path that is neither a prefix nor an extension reads as before. */
  lemma {:induction false} WalkBesideSet(j: Json, path: Path, value: Json, q: Path)
    requires Apart(path, q)
    ensures Walk(SetAt(j, path, value), q) == Walk(j, q)
    decreases |path|
  {
    ApartTails(path, q);
    if path[0] == q[0] {
      WalkBesideSet(Child(j, path[0]), path[1..], value, q[1..]);
      ApartTails(path[1..], q[1..]);
    }
  }

  lemma SetStep(j: Json, path: Path, value: Json)
    requires path != []
    ensures SetAt(j, path, value) == Object(FieldsOf(j)[path[0] := SetAt(Child(j, path[0]), path[1..], value)])
    ensures Child(SetAt(j, path, value), path[0]) == SetAt(Child(j, path[0]), path[1..], value)
    ensures forall k :: k != path[0] ==> Child(SetAt(j, path, value), k) == Child(j, k)
  {
  }

  /** Two paths apart can be set in either order. */
  lemma {:induction false} SetsCommute(j: Json, p: Path, a: Json, q: Path, b: Json)
    requires Apart(p, q)
    ensures SetAt(SetAt(j, p, a), q, b) == SetAt(SetAt(j, q, b), p, a)
    decreases |p|
  {
    hide Apart, SetAt, Child;
    ApartTails(p, q);
    SetStep(j, p, a);
    SetStep(j, q, b);
    SetStep(SetAt(j, p, a), q, b);
    SetStep(SetAt(j, q, b), p, a);
    if p[0] == q[0] {
      SetsCommute(Child(j, p[0]), p[1..], a, q[1..], b);
    }
    assert SetAt(SetAt(j, p, a), q, b).fields == SetAt(SetAt(j, q, b), p, a).fields;
  }

  // ---- removing ---------------------------------------------------------------------------------

  /** Removing takes the path and everything below it away, and changes the tree exactly
      when the path was there. */
  lemma {:induction false} RemoveTakesAway(j: Json, path: Path)
    requires path != []
    ensures !Present(RemoveAt(j, path), path)
    ensures RemoveAt(j, path) == j <==> !Present(j, path)
  {
    if j.Object? && path[0] in j.fields {
      if |path| == 1 {
        assert Present(j.fields[path[0]], path[1..]);
        assert path[0] !in RemoveAt(j, path).fields;
      } else {
        RemoveTakesAway(j.fields[path[0]], path[1..]);
        assert RemoveAt(j, path).fields[path[0]] == RemoveAt(j.fields[path[0]], path[1..]);
        if !Present(j, path) {
          assert RemoveAt(j, path).fields == j.fields;
        }
      }
    }
  }

  lemma {:induction false} WalkBesideRemove(j: Json, path: Path, q: Path)
    requires Apart(path, q)
    ensures path != [] && Walk(RemoveAt(j, path), q) == Walk(j, q)
  {
    ApartTails(path, q);
    if j.Object? && path[0] in j.fields && path[0] == q[0] {
      ApartTails(path[1..], q[1..]);
      WalkBesideRemove(j.fields[path[0]], path[1..], q[1..]);
    }
  }

  // ---- merging ----------------------------------------------------------------------------------

  /** Merging the same source again changes nothing. */
  lemma {:induction false} MergeIdempotent(dst: Json, src: Json)
    ensures Merge(Merge(dst, src), src) == Merge(dst, src)
    decreases src
  {
    if src.Object? {
      var once := if dst.Object? then Merge(dst, src) else src;
      forall k | k in src.fields ensures Merge(once.fields[k], src.fields[k]) == once.fields[k] {
        if dst.Object? && k in dst.fields {
          MergeIdempotent(dst.fields[k], src.fields[k]);
        } else {
          MergeSelf(src.fields[k]);
        }
      }
      assert Merge(once, src).fields == once.fields;
    }
  }

  lemma {:induction false} MergeSelf(j: Json)
    ensures Merge(j, j) == j
    decreases j
  {
    if j.Object? {
      forall k | k in j.fields ensures Merge(j.fields[k], j.fields[k]) == j.fields[k] {
        MergeSelf(j.fields[k]);
      }
      assert Merge(j, j).fields == j.fields;
    }
  }

  /** Every value of the source that is not an object can be read at its path. */
  lemma {:induction false} SourceLeavesReadable(dst: Json, src: Json, path: Path)
    requires Present(src, path) && !Walk(src, path).Object?
    ensures Walk(Merge(dst, src), path) == Walk(src, path)
  {
    if path != [] && dst.Object? && path[0] in dst.fields {
      SourceLeavesReadable(dst.fields[path[0]], src.fields[path[0]], path[1..]);
    }
  }

  /** The path leaves the source at an object, for want of a field. */
  predicate Silent(src: Json, path: Path)
  {
    src.Object? && path != [] && (path[0] in src.fields ==> Silent(src.fields[path[0]], path[1..]))
  }

  /** What the source does not speak of reads as before. */
  lemma {:induction false} UnmentionedKept(dst: Json, src: Json, path: Path)
    requires Silent(src, path)
    ensures Walk(Merge(dst, src), path) == Walk(dst, path)
  {
    if dst.Object? {
      if path[0] in src.fields && path[0] in dst.fields {
        UnmentionedKept(dst.fields[path[0]], src.fields[path[0]], path[1..]);
      } else if path[0] in src.fields {
        SilentIsAbsent(src.fields[path[0]], path[1..]);
      }
    } else {
      SilentIsAbsent(src, path);
    }
  }

  lemma {:induction false} SilentIsAbsent(src: Json, path: Path)
    requires Silent(src, path)
    ensures Walk(src, path) == Null
  {
    if path[0] in src.fields { SilentIsAbsent(src.fields[path[0]], path[1..]); }
  }

  /** Filling in defaults a second time changes nothing. */
  lemma {:induction false} DefaultsOnce(defaults: Json, data: Json)
    ensures Merge(defaults, Merge(defaults, data)) == Merge(defaults, data)
    decreases data
  {
    if data.Object? && defaults.Object? {
      var once := Merge(defaults, data);
      forall k | k in once.fields
        ensures (if k in defaults.fields then Merge(defaults.fields[k], once.fields[k]) else once.fields[k])
                == once.fields[k]
      {
        if k in defaults.fields {
          if k in data.fields {
            DefaultsOnce(defaults.fields[k], data.fields[k]);
          } else {
            MergeSelf(defaults.fields[k]);
          }
        }
      }
      assert Merge(defaults, once).fields == once.fields;
    }
  }

  /** With defaults filled in, a user's value wins and a missing one reads as the default. */
  lemma DefaultsUnderTheUser(defaults: Json, data: Json, path: Path)
    ensures Present(data, path) && !Walk(data, path).Object? ==> Walk(Merge(defaults, data), path) == Walk(data, path)
    ensures Silent(data, path) ==> Walk(Merge(defaults, data), path) == Walk(defaults, path)
  {
    if Present(data, path) && !Walk(data, path).Object? { SourceLeavesReadable(defaults, data, path); }
    if Silent(data, path) { UnmentionedKept(defaults, data, path); }
  }

  /** A list of segments can be written as a path exactly when none is empty or has a dot. */
  lemma SegmentsOfJoined(parts: Path)
    ensures Segments(Separated.Joined(parts, '.')) == parts
            <==> forall i :: 0 <= i < |parts| ==> parts[i] != "" && '.' !in parts[i]
  {
    Separated.FieldsOfJoined(parts, '.');
    assert forall i :: 0 <= i < |parts| ==> (Separated.Plain(parts[i], '.') <==> parts[i] != "" && '.' !in parts[i]);
  }

  // ---- grouping merges --------------------------------------------------------------------------

  /** Every field of `dst` is in `src`, and likewise below where both hold objects. */
  predicate Covers(dst: Json, src: Json)
    requires dst.Object? && src.Object?
    decreases src
  {
    forall k :: k in dst.fields ==>
      k in src.fields && (dst.fields[k].Object? && src.fields[k].Object? ==> Covers(dst.fields[k], src.fields[k]))
  }

  /** A merge leaves nothing of the destination exactly when the source covers it. */
  lemma {:induction false} NothingLeftExactly(dst: Json, src: Json)
    requires dst.Object? && src.Object?
    ensures Merge(dst, src) == src <==> Covers(dst, src)
    decreases src
  {
    forall k | k in dst.fields && k in src.fields && dst.fields[k].Object? && src.fields[k].Object?
      ensures Merge(dst.fields[k], src.fields[k]) == src.fields[k] <==> Covers(dst.fields[k], src.fields[k])
    {
      NothingLeftExactly(dst.fields[k], src.fields[k]);
    }
    if Covers(dst, src) {
      forall k | k in src.fields ensures Merge(dst, src).fields[k] == src.fields[k] { FieldMerged(dst, src, k); }
      assert Merge(dst, src).fields == src.fields;
    } else if Merge(dst, src) == src {
      forall k | k in dst.fields
        ensures k in src.fields && (dst.fields[k].Object? && src.fields[k].Object? ==>
                                    Covers(dst.fields[k], src.fields[k]))
      {
        assert k in Merge(dst, src).fields;
        FieldMerged(dst, src, k);
      }
    }
  }

  /** Where `b` cuts between two objects, `c` covers what `a` had there; likewise below
      every field the three share. */
  predicate Groups(a: Json, b: Json, c: Json)
    decreases c
  {
    a.Object? && c.Object? ==>
      if b.Object? then
        forall k :: k in a.fields && k in b.fields && k in c.fields ==> Groups(a.fields[k], b.fields[k], c.fields[k])
      else Covers(a, c)
  }

  /** Exactly when the grouping of merges does not matter. */
  lemma {:induction false} MergeGroupsExactly(a: Json, b: Json, c: Json)
    ensures Merge(Merge(a, b), c) == Merge(a, Merge(b, c)) <==> Groups(a, b, c)
    decreases c
  {
    if a.Object? && c.Object? {
      if !b.Object? {
        NothingLeftExactly(a, c);
      } else {
        forall k | k in a.fields && k in b.fields && k in c.fields
          ensures Merge(Merge(a.fields[k], b.fields[k]), c.fields[k])
                  == Merge(a.fields[k], Merge(b.fields[k], c.fields[k]))
                  <==> Groups(a.fields[k], b.fields[k], c.fields[k])
        {
          MergeGroupsExactly(a.fields[k], b.fields[k], c.fields[k]);
        }
        FieldsGroup(a, b, c);
      }
    }
  }

  /** For objects, the groupings agree when they agree on every shared field. */
  lemma FieldsGroup(a: Json, b: Json, c: Json)
    requires a.Object? && b.Object? && c.Object?
    ensures Merge(Merge(a, b), c) == Merge(a, Merge(b, c)) <==>
            forall k :: k in a.fields && k in b.fields && k in c.fields ==>
              Merge(Merge(a.fields[k], b.fields[k]), c.fields[k]) == Merge(a.fields[k], Merge(b.fields[k], c.fields[k]))
  {
    hide Merge;
    MergeKeys(a, b);
    MergeKeys(b, c);
    MergeKeys(Merge(a, b), c);
    MergeKeys(a, Merge(b, c));
    var left, right := Merge(Merge(a, b), c), Merge(a, Merge(b, c));
    forall k | k in left.fields
      ensures k in right.fields
      ensures if k in a.fields && k in b.fields && k in c.fields
              then left.fields[k] == Merge(Merge(a.fields[k], b.fields[k]), c.fields[k])
                   && right.fields[k] == Merge(a.fields[k], Merge(b.fields[k], c.fields[k]))
              else left.fields[k] == right.fields[k]
    {
      FieldGrouped(a, b, c, k);
    }
    assert left == right <==> left.fields == right.fields;
  }

  lemma MergeKeys(dst: Json, src: Json)
    requires dst.Object? && src.Object?
    ensures Merge(dst, src).Object? && Merge(dst, src).fields.Keys == dst.fields.Keys + src.fields.Keys
  {
  }

  lemma FieldGrouped(a: Json, b: Json, c: Json, k: string)
    requires a.Object? && b.Object? && c.Object? && (k in a.fields || k in b.fields || k in c.fields)
    ensures var left, right := Merge(Merge(a, b), c), Merge(a, Merge(b, c));
            && k in left.fields && k in right.fields
            && if k in a.fields && k in b.fields && k in c.fields
               then left.fields[k] == Merge(Merge(a.fields[k], b.fields[k]), c.fields[k])
                    && right.fields[k] == Merge(a.fields[k], Merge(b.fields[k], c.fields[k]))
               else left.fields[k] == right.fields[k]
  {
  }

  /** Merging is not associative: a scalar in the middle hides what was below. */
  lemma MergeNotAssociative(a: Json, b: Json, c: Json, one: Json, two: Json)
    requires !one.Object? && !two.Object?
    requires a == Object(map["x" := Object(map["p" := one])]) && b == Object(map["x" := one])
    requires c == Object(map["x" := Object(map["q" := two])])
    ensures !Present(Merge(Merge(a, b), c), ["x", "p"]) && Present(Merge(a, Merge(b, c)), ["x", "p"])
  {
    assert ["x", "p"][1..] == ["p"] && ["p"][1..] == [];
    var x := "x";
    assert Merge(a, b).fields[x] == one;
    assert Merge(Merge(a, b), c).fields[x] == c.fields[x];
    assert Merge(b, c).fields[x] == c.fields[x];
    assert Merge(a, Merge(b, c)).fields[x] == Merge(a.fields[x], c.fields[x]);
    assert "p" != "q";
    assert Present(Merge(a.fields[x], c.fields[x]), ["p"]);
  }
}
