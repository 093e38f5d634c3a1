/**
 Property trees and dotted names: link properties are collected under names such as
 `foo.bar`, kept as nested maps, looked up by dotted name, and flattened to dotted names
 again when they are stored in a secret.
 */
module NestedProperties {
  import opened Wrappers

  /**
   A decoded property.  Only `StringMap` is a `map[string]interface{}`; `AnyMap` is a
   `map[interface{}]interface{}`, which lookups enter but which nesting replaces and
   flattening prints as a whole.
   */
  datatype Value =
    | Null
    | Atom(text: string)
    | AnyMap(entries: map<string, Value>)
    | StringMap(entries: map<string, Value>)

  type Properties = map<string, Value>
  type Path = seq<string>

  // ---------------------------------------------------------------- dotted names

  predicate DotFree(s: string) {
    '.' !in s
  }

  ghost predicate DotFreePath(p: Path) {
    forall i | 0 <= i < |p| :: DotFree(p[i])
  }

  /** `strings.Split(name, ".")`. */
  function Split(name: string): (p: Path)
    ensures p != []
  {
    if name == "" then [""]
    else
      var rest := Split(name[1..]);
      if name[0] == '.' then [""] + rest else [[name[0]] + rest[0]] + rest[1..]
  }

  function Join(p: Path): string
    requires p != []
  {
    if |p| == 1 then p[0] else p[0] + "." + Join(p[1..])
  }

  lemma {:induction false} SplitIsDotFree(name: string)
    ensures DotFreePath(Split(name))
  {
    if name == "" {
    } else {
      SplitIsDotFree(name[1..]);
    }
  }

  lemma JoinGrows(c: char, p: Path)
    requires p != []
    ensures Join([[c] + p[0]] + p[1..]) == [c] + Join(p)
  {
    var q := [[c] + p[0]] + p[1..];
    if |p| > 1 {
      assert q[1..] == p[1..];
      assert ([c] + p[0]) + "." + Join(p[1..]) == [c] + (p[0] + "." + Join(p[1..]));
    }
  }

  lemma {:induction false} JoinOfSplit(name: string)
    ensures Join(Split(name)) == name
  {
    if name == "" {
    } else {
      var rest := Split(name[1..]);
      JoinOfSplit(name[1..]);
      assert name == [name[0]] + name[1..];
      if name[0] == '.' {
        assert ([""] + rest)[1..] == rest;
      } else {
        JoinGrows(name[0], rest);
      }
    }
  }

  lemma {:induction false} SplitOfDotFree(s: string)
    requires DotFree(s)
    ensures Split(s) == [s]
  {
    if s == "" {
    } else {
      SplitOfDotFree(s[1..]);
      assert s == [s[0]] + s[1..];
    }
  }

  lemma {:induction false} SplitAtDot(s: string, rest: string)
    requires DotFree(s)
    ensures Split(s + "." + rest) == [s] + Split(rest)
  {
    var name := s + "." + rest;
    if s == "" {
      assert name[1..] == rest;
    } else {
      assert name[1..] == s[1..] + "." + rest;
      SplitAtDot(s[1..], rest);
      assert s == [s[0]] + s[1..];
    }
  }

  lemma {:induction false} SplitOfJoin(p: Path)
    requires p != [] && DotFreePath(p)
    ensures Split(Join(p)) == p
  {
    if |p| == 1 {
      SplitOfDotFree(p[0]);
    } else {
      SplitOfJoin(p[1..]);
      SplitAtDot(p[0], Join(p[1..]));
    }
  }

  // ---------------------------------------------------------------- lookup

  predicate IsMap(v: Value) {
    v.StringMap? || v.AnyMap?
  }

  /** The value at a path, through maps of either kind. */
  function Get(v: Value, p: Path): Option<Value>
    decreases p
  {
    if p == [] then Some(v)
    else if IsMap(v) && p[0] in v.entries then Get(v.entries[p[0]], p[1..])
    else None
  }

  /** `Job.Property`: walks down the job's properties. */
  method Property(properties: Properties, propertyName: string) returns (r: Option<Value>)
    ensures r == Get(StringMap(properties), Split(propertyName))
  {
    var current := StringMap(properties);
    var items := Split(propertyName);
    assert items[0..] == items;
    for i := 0 to |items|
      invariant Get(StringMap(properties), items) == Get(current, items[i..])
    {
      assert items[i..][1..] == items[i + 1..];
      match current
      case StringMap(entries) =>
        if items[i] !in entries { return None; }
        current := entries[items[i]];
      case AnyMap(entries) =>
        if items[i] !in entries { return None; }
        current := entries[items[i]];
      case _ =>
        return None;
    }
    return Some(current);
  }

  /** The same tree with every map of the first kind. */
  function Unkinded(v: Value): Value {
    match v
    case Null => Null
    case Atom(text) => Atom(text)
    case AnyMap(entries) => StringMap(map k | k in entries :: Unkinded(entries[k]))
    case StringMap(entries) => StringMap(map k | k in entries :: Unkinded(entries[k]))
  }

  /** A lookup does not depend on the kind of the maps that it goes through. */
  lemma {:induction false} LookupIgnoresKind(v: Value, p: Path)
    ensures var r := Get(v, p);
            Get(Unkinded(v), p) == if r.Some? then Some(Unkinded(r.value)) else None
    decreases p
  {
    if p == [] {
    } else if (v.StringMap? || v.AnyMap?) && p[0] in v.entries {
      LookupIgnoresKind(v.entries[p[0]], p[1..]);
    }
  }

  // ---------------------------------------------------------------- nesting

  function Level(m: Properties, key: string): Properties {
    if key in m && m[key].StringMap? then m[key].entries else map[]
  }

  /** Sets the value at a path; whatever is not a string map on the way is replaced by one. */
  function Put(m: Properties, p: Path, v: Value): Properties
    requires p != []
    decreases p
  {
    if |p| == 1 then m[p[0] := v] else m[p[0] := StringMap(Put(Level(m, p[0]), p[1..], v))]
  }

  /** What was put under a dotted name is found under it. */
  lemma {:induction false} PutIsFound(m: Properties, p: Path, v: Value)
    requires p != []
    ensures Get(StringMap(Put(m, p, v)), p) == Some(v)
    decreases p
  {
    if |p| == 1 {
    } else {
      PutIsFound(Level(m, p[0]), p[1..], v);
    }
  }

  /** Like `Put`, but without a value only the levels on the way are made sure of. */
  function Merge(m: Properties, p: Path, v: Option<Value>): Properties
    requires p != []
    decreases p
  {
    if |p| == 1 then (if v.Some? then m[p[0] := v.value] else m)
    else m[p[0] := StringMap(Merge(Level(m, p[0]), p[1..], v))]
  }

  function NestInOrder(properties: Properties, order: seq<string>): Properties
    requires forall i | 0 <= i < |order| :: order[i] in properties
  {
    if order == [] then map[]
    else
      var last := order[|order| - 1];
      Put(NestInOrder(properties, order[..|order| - 1]), Split(last), properties[last])
  }

  ghost predicate IsOrder(keys: set<string>, order: seq<string>) {
    && (forall i | 0 <= i < |order| :: order[i] in keys)
    && (forall k | k in keys :: k in order)
    && forall i, j | 0 <= i < j < |order| :: order[i] != order[j]
  }

  /** The nesting loop of `addExternalLink`; the entries of a map come in any order. */
  method Nest(properties: Properties) returns (nested: Properties)
    ensures exists order :: IsOrder(properties.Keys, order) && nested == NestInOrder(properties, order)
  {
    nested := map[];
    ghost var order := [];
    var left := properties.Keys;
    while left != {}
      invariant left <= properties.Keys && IsOrder(properties.Keys - left, order)
      invariant forall i | 0 <= i < |order| :: order[i] in properties
      invariant nested == NestInOrder(properties, order)
    {
      var propertyName :| propertyName in left;
      left := left - {propertyName};
      nested := Put(nested, Split(propertyName), properties[propertyName]);
      assert (order + [propertyName])[..|order|] == order;
      order := order + [propertyName];
    }
  }

  // ---------------------------------------------------------------- leaves

  predicate Leaf(v: Value) {
    !v.StringMap?
  }

  function LeafAt(v: Value, p: Path): (r: Option<Value>)
    ensures r.Some? ==> Leaf(r.value)
    decreases p
  {
    if p == [] then (if Leaf(v) then Some(v) else None)
    else if v.StringMap? && p[0] in v.entries then LeafAt(v.entries[p[0]], p[1..])
    else None
  }

  function LeafPaths(v: Value): set<Path> {
    if v.StringMap? then set k, p | k in v.entries && p in LeafPaths(v.entries[k]) :: [k] + p
    else {[]}
  }

  lemma {:induction false} LeafPathsAreLeaves(v: Value, p: Path)
    ensures p in LeafPaths(v) <==> LeafAt(v, p).Some?
    decreases p
  {
    if p != [] && v.StringMap? {
      assert p == [p[0]] + p[1..];
      if p[0] in v.entries {
        LeafPathsAreLeaves(v.entries[p[0]], p[1..]);
      }
      forall k, q | k in v.entries && q in LeafPaths(v.entries[k]) && [k] + q == p
        ensures k == p[0] && q == p[1..]
      {
        assert ([k] + q)[1..] == q;
      }
    }
  }

  predicate Comparable(p: Path, q: Path) {
    p <= q || q <= p
  }

  lemma TailComparable(p: Path, q: Path)
    requires p != [] && q != []
    ensures p <= q <==> p[0] == q[0] && p[1..] <= q[1..]
  {
    if p[0] == q[0] && p[1..] <= q[1..] {
      assert p == [p[0]] + p[1..] && q == [q[0]] + q[1..];
    }
  }

  /** What is at `q` after the value `v` was put at `p`. */
  function LeafUpdate(before: Option<Value>, p: Path, v: Value, q: Path): Option<Value> {
    if p <= q then LeafAt(v, q[|p|..]) else if q <= p then None else before
  }

  lemma LeafUpdateTail(before: Option<Value>, p: Path, v: Value, q: Path)
    requires p != [] && q != [] && p[0] == q[0]
    ensures LeafUpdate(before, p, v, q) == LeafUpdate(before, p[1..], v, q[1..])
  {
    TailComparable(p, q);
    TailComparable(q, p);
    if p <= q {
      assert q[1..][|p[1..]|..] == q[|p|..];
    }
  }

  /** Putting a value replaces the leaves above and below its path and leaves every other one alone. */
  lemma {:induction false} LeafAfterPut(m: Properties, p: Path, v: Value, q: Path)
    requires p != []
    ensures LeafAt(StringMap(Put(m, p, v)), q) == LeafUpdate(LeafAt(StringMap(m), q), p, v, q)
    decreases p
  {
    if q == [] {
    } else {
      if q[0] == p[0] {
        LeafUpdateTail(LeafAt(StringMap(m), q), p, v, q);
        if |p| == 1 {
          assert p[1..] == [] && q[1..][0..] == q[1..];
        } else {
          LeafAfterPut(Level(m, p[0]), p[1..], v, q[1..]);
          LeafInLevel(m, q);
        }
      } else {
        assert !(p <= q) && !(q <= p);
      }
    }
  }

  /** Where `m` holds a leaf, the level below it is empty. */
  lemma LeafInLevel(m: Properties, q: Path)
    requires q != []
    ensures LeafAt(StringMap(Level(m, q[0])), q[1..]) ==
            if q[0] in m && !m[q[0]].StringMap? then None else LeafAt(StringMap(m), q)
  {
  }

  lemma {:induction false} LeavesAreIncomparable(v: Value, p: Path, q: Path)
    requires LeafAt(v, p).Some? && LeafAt(v, q).Some? && p <= q
    ensures p == q
    decreases p
  {
    if p != [] && q != [] {
      TailComparable(p, q);
      LeavesAreIncomparable(v.entries[p[0]], p[1..], q[1..]);
      assert p == [p[0]] + p[1..] && q == [q[0]] + q[1..];
    }
  }

  // ---------------------------------------------------------------- trees are determined by their leaves

  predicate NoEmptyMaps(v: Value) {
    v.StringMap? ==> v.entries != map[] && forall k | k in v.entries :: NoEmptyMaps(v.entries[k])
  }

  predicate NoEmptyMapsIn(m: Properties) {
    forall k | k in m :: NoEmptyMaps(m[k])
  }

  lemma {:induction false} SomeLeaf(v: Value) returns (p: Path)
    requires NoEmptyMaps(v)
    ensures LeafAt(v, p).Some?
    decreases v
  {
    if v.StringMap? {
      var k :| k in v.entries;
      var rest := SomeLeaf(v.entries[k]);
      p := [k] + rest;
      assert p[1..] == rest;
    } else {
      p := [];
    }
  }

  ghost predicate SameLeaves(v: Value, w: Value) {
    forall p :: LeafAt(v, p) == LeafAt(w, p)
  }

  lemma SameLeavesBelow(v: Value, w: Value, k: string)
    requires SameLeaves(v, w) && v.StringMap? && w.StringMap? && k in v.entries && k in w.entries
    ensures SameLeaves(v.entries[k], w.entries[k])
  {
    forall p ensures LeafAt(v.entries[k], p) == LeafAt(w.entries[k], p) {
      assert ([k] + p)[1..] == p;
      assert LeafAt(v, [k] + p) == LeafAt(w, [k] + p);
    }
  }

  lemma SameKeys(v: Value, w: Value, k: string)
    requires SameLeaves(v, w) && v.StringMap? && w.StringMap? && k in v.entries && NoEmptyMaps(v.entries[k])
    ensures k in w.entries
  {
    var p := SomeLeaf(v.entries[k]);
    assert ([k] + p)[1..] == p;
    assert LeafAt(w, [k] + p).Some?;
  }

  lemma {:induction false} DeterminedByLeaves(v: Value, w: Value)
    requires SameLeaves(v, w)
    requires v.StringMap? ==> NoEmptyMapsIn(v.entries)
    requires w.StringMap? ==> NoEmptyMapsIn(w.entries)
    requires v.StringMap? == w.StringMap?
    ensures v == w
    decreases v
  {
    assert LeafAt(v, []) == LeafAt(w, []);
    if !v.StringMap? {
    } else {
      forall k ensures k in v.entries <==> k in w.entries {
        if k in v.entries { SameKeys(v, w, k); }
        if k in w.entries { SameKeys(w, v, k); }
      }
      forall k | k in v.entries ensures v.entries[k] == w.entries[k] {
        SameLeavesBelow(v, w, k);
        assert LeafAt(v.entries[k], []) == LeafAt(w.entries[k], []);
        DeterminedByLeaves(v.entries[k], w.entries[k]);
      }
      assert v.entries == w.entries;
    }
  }

  lemma {:induction false} PutKeepsNoEmptyMaps(m: Properties, p: Path, v: Value)
    requires p != [] && NoEmptyMapsIn(m) && NoEmptyMaps(v)
    ensures NoEmptyMapsIn(Put(m, p, v)) && Put(m, p, v) != map[]
    decreases p
  {
    assert p[0] in Put(m, p, v);
    if |p| == 1 {
    } else {
      assert NoEmptyMapsIn(Level(m, p[0]));
      PutKeepsNoEmptyMaps(Level(m, p[0]), p[1..], v);
    }
  }

  // ---------------------------------------------------------------- nested names

  ghost predicate PrefixFree(names: set<string>) {
    forall a, b | a in names && b in names && Split(a) <= Split(b) :: a == b
  }

  ghost predicate LeavesOnly(m: Properties) {
    forall k | k in m :: Leaf(m[k])
  }

  /** Every leaf of a nested tree belongs to one of the names, and the last name put in is always there. */
  lemma {:induction false} NestedLeaves(properties: Properties, order: seq<string>, q: Path)
    requires LeavesOnly(properties) && forall i | 0 <= i < |order| :: order[i] in properties
    ensures var t := StringMap(NestInOrder(properties, order));
            && (LeafAt(t, q).Some? ==>
                  exists k | k in order :: Split(k) == q && LeafAt(t, q) == Some(properties[k]))
            && (order != [] ==>
                  var k := order[|order| - 1]; LeafAt(t, Split(k)) == Some(properties[k]))
    decreases |order|
  {
    if order == [] {
    } else {
      var before, last := order[..|order| - 1], order[|order| - 1];
      var m := NestInOrder(properties, before);
      NestedLeaves(properties, before, q);
      LeafAfterPut(m, Split(last), properties[last], q);
      LeafAfterPut(m, Split(last), properties[last], Split(last));
      if Split(last) <= q && LeafAt(properties[last], q[|Split(last)|..]).Some? {
        assert q == Split(last);
        assert last in order;
      } else if LeafAt(StringMap(m), q).Some? {
        var k :| k in before && Split(k) == q && LeafAt(StringMap(m), q) == Some(properties[k]);
        assert k in order;
      }
    }
  }

  /** With prefix-free names every name keeps its value. */
  lemma {:induction false} NestedKeeps(properties: Properties, order: seq<string>, k: string)
    requires LeavesOnly(properties) && forall i | 0 <= i < |order| :: order[i] in properties
    requires PrefixFree(properties.Keys) && k in order
    ensures LeafAt(StringMap(NestInOrder(properties, order)), Split(k)) == Some(properties[k])
    decreases |order|
  {
    var before, last := order[..|order| - 1], order[|order| - 1];
    NestedLeaves(properties, order, Split(k));
    if k != last {
      assert k in before;
      NestedKeeps(properties, before, k);
      LeafAfterPut(NestInOrder(properties, before), Split(last), properties[last], Split(k));
    }
  }

  lemma {:induction false} NestHasNoEmptyMaps(properties: Properties, order: seq<string>)
    requires LeavesOnly(properties) && forall i | 0 <= i < |order| :: order[i] in properties
    ensures NoEmptyMapsIn(NestInOrder(properties, order))
    decreases |order|
  {
    if order == [] {
    } else {
      var before, last := order[..|order| - 1], order[|order| - 1];
      NestHasNoEmptyMaps(properties, before);
      PutKeepsNoEmptyMaps(NestInOrder(properties, before), Split(last), properties[last]);
    }
  }

  /** The leaves of the nested tree are the given properties, whatever the order. */
  lemma NestedIsExact(properties: Properties, order: seq<string>, q: Path)
    requires LeavesOnly(properties) && IsOrder(properties.Keys, order) && PrefixFree(properties.Keys)
    ensures var name := Join(if q == [] then [""] else q);
            LeafAt(StringMap(NestInOrder(properties, order)), q) ==
            if q != [] && DotFreePath(q) && name in properties then Some(properties[name]) else None
  {
    NestedLeaves(properties, order, q);
    if q != [] {
      var name := Join(q);
      if LeafAt(StringMap(NestInOrder(properties, order)), q).Some? {
        var k :| k in order && Split(k) == q;
        JoinOfSplit(k);
        SplitIsDotFree(k);
      }
      if DotFreePath(q) && name in properties {
        SplitOfJoin(q);
        NestedKeeps(properties, order, name);
      }
    }
  }

  lemma {:induction false} OrderEndingIn(keys: set<string>, last: string) returns (order: seq<string>)
    requires last in keys
    ensures IsOrder(keys, order) && order[|order| - 1] == last
    decreases keys
  {
    if keys == {last} {
      order := [last];
    } else {
      var rest := keys - {last};
      assert rest != {} by {
        assert keys == rest + {last};
      }
      var k :| k in rest;
      order := OrderEndingIn(rest, k);
      order := order + [last];
    }
  }

  /** The nested tree is the same for every iteration order exactly when the names are prefix-free. */
  lemma OrderDoesNotMatterIff(properties: Properties)
    requires LeavesOnly(properties)
    ensures PrefixFree(properties.Keys) <==>
            forall o, o' | IsOrder(properties.Keys, o) && IsOrder(properties.Keys, o') ::
              NestInOrder(properties, o) == NestInOrder(properties, o')
  {
    if PrefixFree(properties.Keys) {
      forall o, o' | IsOrder(properties.Keys, o) && IsOrder(properties.Keys, o')
        ensures NestInOrder(properties, o) == NestInOrder(properties, o')
      {
        var t, t' := StringMap(NestInOrder(properties, o)), StringMap(NestInOrder(properties, o'));
        forall q ensures LeafAt(t, q) == LeafAt(t', q) {
          NestedIsExact(properties, o, q);
          NestedIsExact(properties, o', q);
        }
        NestHasNoEmptyMaps(properties, o);
        NestHasNoEmptyMaps(properties, o');
        DeterminedByLeaves(t, t');
      }
    } else {
      var a, b :| a in properties && b in properties && Split(a) <= Split(b) && a != b;
      var o := OrderEndingIn(properties.Keys, a);
      var o' := OrderEndingIn(properties.Keys, b);
      NestedLeaves(properties, o, Split(a));
      NestedLeaves(properties, o', Split(b));
      if NestInOrder(properties, o) == NestInOrder(properties, o') {
        LeavesAreIncomparable(StringMap(NestInOrder(properties, o)), Split(a), Split(b));
        JoinOfSplit(a);
        JoinOfSplit(b);
      }
    }
  }
}
