/** Property trees flattened to dotted names, the data format of link secrets. */
module Flattening {
  import opened Wrappers
  import opened NestedProperties

  /** `appendPath`: no dot after an empty path. */
  function AppendPath(path: string, key: string): string {
    if path == "" then key else path + "." + key
  }

  /** The name under which the leaf at `p` is stored, when the walk starts with the name `path`. */
  function FlatName(path: string, p: Path): string
    decreases p
  {
    if p == [] then path else FlatName(AppendPath(path, p[0]), p[1..])
  }

  function FlatNames(path: string, v: Value): set<string> {
    set p | p in LeafPaths(v) :: FlatName(path, p)
  }

  ghost predicate Stored(show: Value -> string, path: string, v: Value, p: Path, name: string, text: string) {
    LeafAt(v, p).Some? && FlatName(path, p) == name && text == show(LeafAt(v, p).value)
  }

  /** `after` is `before` with the leaves of `v` written over it; leaves that share a name may come in any order. */
  ghost predicate Traversed(show: Value -> string, path: string, v: Value,
                            before: map<string, string>, after: map<string, string>)
  {
    && after.Keys == before.Keys + FlatNames(path, v)
    && forall name | name in after :: Holds(show, path, v, before, name, after[name])
  }

  /** A name holds the text of a leaf with that name, or what was there before if there is none. */
  ghost predicate Holds(show: Value -> string, path: string, v: Value, before: map<string, string>, name: string,
                        text: string)
  {
    if name in FlatNames(path, v) then exists p :: Stored(show, path, v, p, name, text)
    else name in before && text == before[name]
  }

  ghost predicate IsFlattening(show: Value -> string, m: Properties, r: map<string, string>) {
    Traversed(show, "", StringMap(m), map[], r)
  }

  function Only(m: Properties, keys: set<string>): Properties {
    map k | k in m && k in keys :: m[k]
  }

  lemma LeafOfOneMore(m: Properties, done: set<string>, k: string, p: Path)
    requires k in m && k !in done
    ensures p in LeafPaths(StringMap(Only(m, done + {k}))) <==>
            p in LeafPaths(StringMap(Only(m, done))) || (p != [] && p[0] == k && p[1..] in LeafPaths(m[k]))
    ensures p in LeafPaths(StringMap(Only(m, done))) ==>
            LeafAt(StringMap(Only(m, done + {k})), p) == LeafAt(StringMap(Only(m, done)), p)
    ensures p != [] && p[0] == k ==> LeafAt(StringMap(Only(m, done + {k})), p) == LeafAt(m[k], p[1..])
  {
    LeafPathsAreLeaves(StringMap(Only(m, done + {k})), p);
    LeafPathsAreLeaves(StringMap(Only(m, done)), p);
    if p != [] {
      LeafPathsAreLeaves(m[k], p[1..]);
    }
  }

  lemma FlatNamesOfOneMore(m: Properties, done: set<string>, k: string, path: string)
    requires k in m && k !in done
    ensures FlatNames(path, StringMap(Only(m, done + {k}))) ==
            FlatNames(path, StringMap(Only(m, done))) + FlatNames(AppendPath(path, k), m[k])
  {
    var all, some := StringMap(Only(m, done + {k})), StringMap(Only(m, done));
    forall p | p in LeafPaths(all)
      ensures FlatName(path, p) in FlatNames(path, some) + FlatNames(AppendPath(path, k), m[k])
    {
      LeafOfOneMore(m, done, k, p);
    }
    forall p | p in LeafPaths(some) ensures FlatName(path, p) in FlatNames(path, all) {
      LeafOfOneMore(m, done, k, p);
    }
    forall p | p in LeafPaths(m[k]) ensures FlatName(AppendPath(path, k), p) in FlatNames(path, all) {
      assert ([k] + p)[1..] == p;
      LeafOfOneMore(m, done, k, [k] + p);
    }
  }

  lemma StoredBelow(show: Value -> string, path: string, m: Properties, done: set<string>, k: string, name: string,
                    text: string)
    requires k in m && k !in done
    requires exists p :: Stored(show, AppendPath(path, k), m[k], p, name, text)
    ensures exists p :: Stored(show, path, StringMap(Only(m, done + {k})), p, name, text)
  {
    var p :| Stored(show, AppendPath(path, k), m[k], p, name, text);
    assert ([k] + p)[1..] == p;
    LeafOfOneMore(m, done, k, [k] + p);
    assert Stored(show, path, StringMap(Only(m, done + {k})), [k] + p, name, text);
  }

  lemma StoredBefore(show: Value -> string, path: string, m: Properties, done: set<string>, k: string, name: string,
                     text: string)
    requires k in m && k !in done
    requires exists p :: Stored(show, path, StringMap(Only(m, done)), p, name, text)
    ensures exists p :: Stored(show, path, StringMap(Only(m, done + {k})), p, name, text)
  {
    var p :| Stored(show, path, StringMap(Only(m, done)), p, name, text);
    LeafPathsAreLeaves(StringMap(Only(m, done)), p);
    LeafOfOneMore(m, done, k, p);
    assert Stored(show, path, StringMap(Only(m, done + {k})), p, name, text);
  }

  lemma HoldsOneMore(show: Value -> string, path: string, m: Properties, done: set<string>, k: string,
                     before: map<string, string>, mid: map<string, string>, name: string, text: string)
    requires k in m && k !in done
    requires Holds(show, AppendPath(path, k), m[k], mid, name, text)
    requires name in mid ==> Holds(show, path, StringMap(Only(m, done)), before, name, mid[name])
    ensures Holds(show, path, StringMap(Only(m, done + {k})), before, name, text)
  {
    FlatNamesOfOneMore(m, done, k, path);
    if name in FlatNames(AppendPath(path, k), m[k]) {
      StoredBelow(show, path, m, done, k, name, text);
    } else if name in FlatNames(path, StringMap(Only(m, done))) {
      StoredBefore(show, path, m, done, k, name, text);
    }
  }

  lemma TraversedOneMore(show: Value -> string, path: string, m: Properties, done: set<string>, k: string,
                         before: map<string, string>, mid: map<string, string>, after: map<string, string>)
    requires k in m && k !in done
    requires Traversed(show, path, StringMap(Only(m, done)), before, mid)
    requires Traversed(show, AppendPath(path, k), m[k], mid, after)
    ensures Traversed(show, path, StringMap(Only(m, done + {k})), before, after)
  {
    FlatNamesOfOneMore(m, done, k, path);
    forall name | name in after
      ensures Holds(show, path, StringMap(Only(m, done + {k})), before, name, after[name])
    {
      HoldsOneMore(show, path, m, done, k, before, mid, name, after[name]);
    }
  }

  lemma TraversedLeaf(show: Value -> string, path: string, v: Value, before: map<string, string>)
    requires Leaf(v)
    ensures Traversed(show, path, v, before, before[path := show(v)])
  {
    assert FlatNames(path, v) == {path} by {
      assert [] in LeafPaths(v) && FlatName(path, []) == path;
    }
    assert Stored(show, path, v, [], path, show(v));
  }

  /** `traverse` with the callback of `flattenForSecretData`, which writes to `tmp`. */
  class SecretData {
    var tmp: map<string, string>

    constructor ()
      ensures tmp == map[]
    {
      tmp := map[];
    }

    method Traverse(show: Value -> string, path: string, obj: Value)
      modifies this
      ensures Traversed(show, path, obj, old(tmp), tmp)
      decreases obj
    {
      if obj.StringMap? {
        var left := obj.entries.Keys;
        assert FlatNames(path, StringMap(Only(obj.entries, obj.entries.Keys - left))) == {};
        while left != {}
          invariant left <= obj.entries.Keys
          invariant Traversed(show, path, StringMap(Only(obj.entries, obj.entries.Keys - left)), old(tmp), tmp)
        {
          var key :| key in left;
          ghost var done, mid := obj.entries.Keys - left, tmp;
          Traverse(show, AppendPath(path, key), obj.entries[key]);
          TraversedOneMore(show, path, obj.entries, done, key, old(tmp), mid, tmp);
          left := left - {key};
          assert obj.entries.Keys - left == done + {key};
        }
        assert Only(obj.entries, obj.entries.Keys - {}) == obj.entries;
      } else {
        TraversedLeaf(show, path, obj, tmp);
        tmp := tmp[path := show(obj)];
      }
    }
  }

  method FlattenForSecretData(show: Value -> string, property: Properties) returns (r: map<string, string>)
    ensures IsFlattening(show, property, r)
  {
    var data := new SecretData();
    var left := property.Keys;
    assert FlatNames("", StringMap(Only(property, property.Keys - left))) == {};
    while left != {}
      invariant left <= property.Keys
      invariant Traversed(show, "", StringMap(Only(property, property.Keys - left)), map[], data.tmp)
    {
      var k :| k in left;
      ghost var done, mid := property.Keys - left, data.tmp;
      data.Traverse(show, k, property[k]);
      TraversedOneMore(show, "", property, done, k, map[], mid, data.tmp);
      left := left - {k};
      assert property.Keys - left == done + {k};
    }
    assert Only(property, property.Keys - {}) == property;
    r := data.tmp;
  }

  // ---------------------------------------------------------------- names of leaves

  /** A dotted name survives flattening unless it starts with a dot. */
  predicate LeadingDot(name: string) {
    name != "" && name[0] == '.'
  }

  lemma {:induction false} FlatNameIsJoin(path: string, p: Path)
    requires path != "" || p == []
    ensures FlatName(path, p) == Join([path] + p)
    decreases p
  {
    if p == [] {
    } else {
      var next := path + "." + p[0];
      FlatNameIsJoin(next, p[1..]);
      assert ([path] + p)[1..] == p;
      if |p| == 1 {
        assert p[1..] == [] && [next] + [] == [next];
      } else {
        assert ([next] + p[1..])[1..] == p[1..];
        assert next + "." + Join(p[1..]) == path + "." + (p[0] + "." + Join(p[1..]));
      }
    }
  }

  /** Flattened names never start with a dot. */
  lemma {:induction false} FlatNameHasNoLeadingDot(path: string, p: Path)
    requires DotFreePath(p) && !LeadingDot(path)
    ensures !LeadingDot(FlatName(path, p))
    decreases p
  {
    if p == [] {
    } else {
      FlatNameHasNoLeadingDot(AppendPath(path, p[0]), p[1..]);
    }
  }

  /** A path whose first key is empty although more keys follow. */
  predicate EmptyHead(p: Path) {
    |p| > 1 && p[0] == ""
  }

  lemma FlatNameOfPath(p: Path)
    requires p != [] && !EmptyHead(p)
    ensures FlatName("", p) == Join(p)
  {
    FlatNameIsJoin(p[0], p[1..]);
    assert [p[0]] + p[1..] == p;
  }

  lemma SplitHead(name: string)
    ensures EmptyHead(Split(name)) <==> LeadingDot(name)
  {
    if name != "" && name[0] == '.' {
      assert Split(name) == [""] + Split(name[1..]);
    }
  }

  lemma FlatNameOfSplit(name: string)
    ensures FlatName("", Split(name)) == name <==> !LeadingDot(name)
  {
    SplitHead(name);
    if LeadingDot(name) {
      SplitIsDotFree(name);
      FlatNameHasNoLeadingDot("", Split(name));
    } else {
      FlatNameOfPath(Split(name));
      JoinOfSplit(name);
    }
  }

  // ---------------------------------------------------------------- flattening undoes nesting

  function Printed(show: Value -> string, m: Properties): map<string, string> {
    map k | k in m :: show(m[k])
  }

  /** What is stored under `name` comes from a property with that flattened name. */
  lemma FlattenedNest(show: Value -> string, properties: Properties, order: seq<string>, r: map<string, string>,
                      name: string)
    returns (k: string)
    requires LeavesOnly(properties) && IsOrder(properties.Keys, order)
    requires IsFlattening(show, NestInOrder(properties, order), r) && name in r
    ensures k in properties && FlatName("", Split(k)) == name && r[name] == show(properties[k])
    ensures LeafAt(StringMap(NestInOrder(properties, order)), Split(k)).Some?
  {
    var t := StringMap(NestInOrder(properties, order));
    var q :| Stored(show, "", t, q, name, r[name]);
    NestedLeaves(properties, order, q);
    k :| k in order && Split(k) == q && LeafAt(t, q) == Some(properties[k]);
  }

  lemma FlattenRestores(show: Value -> string, properties: Properties, order: seq<string>, r: map<string, string>)
    requires LeavesOnly(properties) && IsOrder(properties.Keys, order)
    requires IsFlattening(show, NestInOrder(properties, order), r)
    requires PrefixFree(properties.Keys) && forall k | k in properties :: !LeadingDot(k)
    ensures r == Printed(show, properties)
  {
    var t := StringMap(NestInOrder(properties, order));
    forall k | k in properties ensures k in r {
      NestedKeeps(properties, order, k);
      LeafPathsAreLeaves(t, Split(k));
      FlatNameOfSplit(k);
    }
    forall name | name in r ensures name in properties && r[name] == show(properties[name]) {
      var k := FlattenedNest(show, properties, order, r, name);
      FlatNameOfSplit(k);
    }
  }

  /**
   Flattening undoes nesting, whatever the iteration orders, if and only if no name is a
   proper path prefix of another and none starts with a dot.
   */
  lemma FlattenOfNestIff(show: Value -> string, properties: Properties, order: seq<string>, r: map<string, string>)
    requires LeavesOnly(properties) && IsOrder(properties.Keys, order)
    requires IsFlattening(show, NestInOrder(properties, order), r)
    ensures r == Printed(show, properties) <==>
            PrefixFree(properties.Keys) && forall k | k in properties :: !LeadingDot(k)
  {
    var t := StringMap(NestInOrder(properties, order));
    if r == Printed(show, properties) {
      forall k | k in properties ensures !LeadingDot(k) {
        assert k in r;
        var k' := FlattenedNest(show, properties, order, r, k);
        SplitIsDotFree(k');
        FlatNameHasNoLeadingDot("", Split(k'));
      }
      forall a, b | a in properties && b in properties && Split(a) <= Split(b) ensures a == b {
        var a' := FlattenedNest(show, properties, order, r, a);
        var b' := FlattenedNest(show, properties, order, r, b);
        FlatNameOfSplit(a');
        FlatNameOfSplit(b');
        LeavesAreIncomparable(t, Split(a), Split(b));
        JoinOfSplit(a);
        JoinOfSplit(b);
      }
    } else if PrefixFree(properties.Keys) && forall k | k in properties :: !LeadingDot(k) {
      FlattenRestores(show, properties, order, r);
    }
  }

  // ---------------------------------------------------------------- nesting undoes flattening

  function PrintedTree(show: Value -> string, v: Value): Value {
    if v.StringMap? then StringMap(map k | k in v.entries :: PrintedTree(show, v.entries[k])) else Atom(show(v))
  }

  function Atoms(r: map<string, string>): Properties {
    map k | k in r :: Atom(r[k])
  }

  predicate DotFreeKeys(v: Value) {
    v.StringMap? ==> forall k | k in v.entries :: DotFree(k) && DotFreeKeys(v.entries[k])
  }

  /** Keys without dots, no empty inner map, and no map under an empty top-level key. */
  predicate WellKeyed(m: Properties) {
    DotFreeKeys(StringMap(m)) && NoEmptyMapsIn(m) && ("" in m ==> Leaf(m[""]))
  }

  lemma {:induction false} LeafOfPrinted(show: Value -> string, v: Value, p: Path)
    ensures LeafAt(PrintedTree(show, v), p) ==
            match LeafAt(v, p) case None => None case Some(x) => Some(Atom(show(x)))
    decreases p
  {
    if p != [] && v.StringMap? && p[0] in v.entries {
      LeafOfPrinted(show, v.entries[p[0]], p[1..]);
    }
  }

  lemma {:induction false} PrintedKeepsShape(show: Value -> string, v: Value)
    ensures NoEmptyMaps(PrintedTree(show, v)) == NoEmptyMaps(v)
    ensures DotFreeKeys(PrintedTree(show, v)) == DotFreeKeys(v)
  {
    if !v.StringMap? {
    } else {
      var w := PrintedTree(show, v);
      assert w.entries.Keys == v.entries.Keys;
      forall k | k in v.entries
        ensures NoEmptyMaps(w.entries[k]) == NoEmptyMaps(v.entries[k])
        ensures DotFreeKeys(w.entries[k]) == DotFreeKeys(v.entries[k])
      {
        PrintedKeepsShape(show, v.entries[k]);
      }
      if v.entries != map[] {
        var k :| k in v.entries;
        assert k in w.entries;
      }
    }
  }

  lemma PrintedIsWellKeyed(show: Value -> string, m: Properties)
    ensures WellKeyed(PrintedTree(show, StringMap(m)).entries) == WellKeyed(m)
  {
    var w := PrintedTree(show, StringMap(m));
    PrintedKeepsShape(show, StringMap(m));
    forall k | k in m ensures NoEmptyMaps(w.entries[k]) == NoEmptyMaps(m[k]) {
      PrintedKeepsShape(show, m[k]);
    }
    if NoEmptyMapsIn(w.entries) {
      forall k | k in m ensures NoEmptyMaps(m[k]) {
        assert k in w.entries;
      }
    }
  }

  lemma {:induction false} LeafPathOfDotFree(v: Value, p: Path)
    requires DotFreeKeys(v) && LeafAt(v, p).Some?
    ensures DotFreePath(p)
    decreases p
  {
    if p == [] {
    } else {
      LeafPathOfDotFree(v.entries[p[0]], p[1..]);
      assert forall i | 0 < i < |p| :: p[i] == p[1..][i - 1];
    }
  }

  lemma {:induction false} PutKeepsDotFree(m: Properties, p: Path, v: Value)
    requires p != [] && DotFreePath(p) && DotFreeKeys(StringMap(m)) && Leaf(v)
    ensures DotFreeKeys(StringMap(Put(m, p, v)))
    decreases p
  {
    if |p| == 1 {
    } else {
      assert DotFreeKeys(StringMap(Level(m, p[0])));
      PutKeepsDotFree(Level(m, p[0]), p[1..], v);
    }
  }

  lemma {:induction false} NestIsDotFree(properties: Properties, order: seq<string>)
    requires LeavesOnly(properties) && forall i | 0 <= i < |order| :: order[i] in properties
    ensures DotFreeKeys(StringMap(NestInOrder(properties, order)))
    decreases |order|
  {
    if order == [] {
    } else {
      var before, last := order[..|order| - 1], order[|order| - 1];
      NestIsDotFree(properties, before);
      SplitIsDotFree(last);
      PutKeepsDotFree(NestInOrder(properties, before), Split(last), properties[last]);
    }
  }

  lemma {:induction false} NestIsWellKeyed(properties: Properties, order: seq<string>)
    requires LeavesOnly(properties) && forall i | 0 <= i < |order| :: order[i] in properties
    requires forall k | k in properties :: !LeadingDot(k)
    ensures WellKeyed(NestInOrder(properties, order))
    decreases |order|
  {
    NestHasNoEmptyMaps(properties, order);
    NestIsDotFree(properties, order);
    if order == [] {
    } else {
      NestIsWellKeyed(properties, order[..|order| - 1]);
      SplitHead(order[|order| - 1]);
    }
  }

  /** For a well-keyed tree the leaves and their flattened names determine each other. */
  lemma LeafIsJoined(show: Value -> string, m: Properties, r: map<string, string>, q: Path)
    requires WellKeyed(m) && LeafAt(StringMap(m), q).Some?
    ensures q != [] && DotFreePath(q) && FlatName("", q) == Join(q) && Split(Join(q)) == q
  {
    LeafPathOfDotFree(StringMap(m), q);
    FlatNameOfPath(q);
    SplitOfJoin(q);
  }

  lemma FlattenedIsLeaf(show: Value -> string, m: Properties, r: map<string, string>, name: string)
    requires WellKeyed(m) && IsFlattening(show, m, r) && name in r
    ensures LeafAt(StringMap(m), Split(name)).Some? && r[name] == show(LeafAt(StringMap(m), Split(name)).value)
  {
    var q :| Stored(show, "", StringMap(m), q, name, r[name]);
    LeafIsJoined(show, m, r, q);
  }

  lemma FlattenedPrefixFree(show: Value -> string, m: Properties, r: map<string, string>)
    requires WellKeyed(m) && IsFlattening(show, m, r)
    ensures PrefixFree(r.Keys)
  {
    forall a, b | a in r && b in r && Split(a) <= Split(b) ensures a == b {
      FlattenedIsLeaf(show, m, r, a);
      FlattenedIsLeaf(show, m, r, b);
      LeavesAreIncomparable(StringMap(m), Split(a), Split(b));
      JoinOfSplit(a);
      JoinOfSplit(b);
    }
  }

  lemma NestRestores(show: Value -> string, m: Properties, r: map<string, string>, order: seq<string>)
    requires WellKeyed(m) && IsFlattening(show, m, r) && IsOrder(r.Keys, order)
    ensures StringMap(NestInOrder(Atoms(r), order)) == PrintedTree(show, StringMap(m))
  {
    var t, w := StringMap(NestInOrder(Atoms(r), order)), PrintedTree(show, StringMap(m));
    FlattenedPrefixFree(show, m, r);
    forall q ensures LeafAt(t, q) == LeafAt(w, q) {
      NestedIsExact(Atoms(r), order, q);
      LeafOfPrinted(show, StringMap(m), q);
      if LeafAt(StringMap(m), q).Some? {
        LeafIsJoined(show, m, r, q);
        LeafPathsAreLeaves(StringMap(m), q);
        assert Join(q) in r;
        FlattenedIsLeaf(show, m, r, Join(q));
      } else if q != [] && DotFreePath(q) && Join(q) in r {
        SplitOfJoin(q);
        FlattenedIsLeaf(show, m, r, Join(q));
        assert false;
      }
    }
    NestHasNoEmptyMaps(Atoms(r), order);
    PrintedIsWellKeyed(show, m);
    DeterminedByLeaves(t, w);
  }

  /**
   Nesting undoes flattening, up to the printing of the leaves, if and only if the keys are
   free of dots, no inner map is empty, and the empty key does not hold a map at the top.
   */
  lemma NestOfFlattenIff(show: Value -> string, m: Properties, r: map<string, string>, order: seq<string>)
    requires IsFlattening(show, m, r) && IsOrder(r.Keys, order)
    ensures StringMap(NestInOrder(Atoms(r), order)) == PrintedTree(show, StringMap(m)) <==> WellKeyed(m)
  {
    if WellKeyed(m) {
      NestRestores(show, m, r, order);
    } else {
      PrintedIsWellKeyed(show, m);
      PrintedKeepsShape(show, StringMap(m));
      NestIsDotFree(Atoms(r), order);
      if DotFreeKeys(StringMap(m)) {
        forall name | name in r ensures !LeadingDot(name) {
          var q :| Stored(show, "", StringMap(m), q, name, r[name]);
          LeafPathOfDotFree(StringMap(m), q);
          FlatNameHasNoLeadingDot("", q);
        }
        NestIsWellKeyed(Atoms(r), order);
      }
    }
  }
}
