/**
 The property values a provided link carries: for each listed name the default of the job
 spec, overridden by what the job sets explicitly.
 */
module LinkProperties {
  import opened Wrappers
  import opened NestedProperties

  function DefaultOf(defaults: Properties, name: string): Value {
    if name in defaults then defaults[name] else Null
  }

  function Explicit(job: Properties, name: string): Option<Value> {
    Get(StringMap(job), Split(name))
  }

  /** What a name resolves to: the value that the job has at its path, else the default of that name, else null. */
  function Expected(defaults: Properties, job: Properties, name: string): Value {
    match Get(StringMap(job), Split(name))
    case Some(v) => v
    case None => if name in defaults then defaults[name] else Null
  }

  function DefaultPass(defaults: Properties, names: seq<string>): Properties {
    if names == [] then map[]
    else
      var last := names[|names| - 1];
      Put(DefaultPass(defaults, names[..|names| - 1]), Split(last), DefaultOf(defaults, last))
  }

  function OverridePass(m: Properties, job: Properties, names: seq<string>): Properties {
    if names == [] then m
    else
      var last := names[|names| - 1];
      Merge(OverridePass(m, job, names[..|names| - 1]), Split(last), Explicit(job, last))
  }

  function Resolve(defaults: Properties, job: Properties, names: seq<string>): Properties {
    OverridePass(DefaultPass(defaults, names), job, names)
  }

  lemma OneMoreProperty(defaults: Properties, base: Properties, job: Properties, names: seq<string>, i: nat)
    requires i < |names|
    ensures DefaultPass(defaults, names[..i + 1]) ==
            Put(DefaultPass(defaults, names[..i]), Split(names[i]), DefaultOf(defaults, names[i]))
    ensures OverridePass(base, job, names[..i + 1]) ==
            Merge(OverridePass(base, job, names[..i]), Split(names[i]), Get(StringMap(job), Split(names[i])))
  {
    assert names[..i + 1][..i] == names[..i];
  }

  /** The two loops of `add` over the properties of one link. */
  method Compute(defaults: Properties, job: Properties, names: seq<string>) returns (properties: Properties)
    ensures properties == Resolve(defaults, job, names)
  {
    properties := map[];
    for i := 0 to |names|
      invariant properties == DefaultPass(defaults, names[..i])
    {
      var property := names[i];
      OneMoreProperty(defaults, map[], job, names, i);
      if '.' in property {
        properties := Put(properties, Split(property), DefaultOf(defaults, property));
      } else {
        SplitOfDotFree(property);
        properties := properties[property := DefaultOf(defaults, property)];
      }
    }
    assert names[..|names|] == names;
    ghost var base := properties;
    for i := 0 to |names|
      invariant properties == OverridePass(base, job, names[..i])
    {
      OneMoreProperty(defaults, base, job, names, i);
      var value := Property(job, names[i]);
      properties := Merge(properties, Split(names[i]), value);
    }
  }

  // ---------------------------------------------------------------- what the passes leave at a path

  /** All levels on the way to `p` are string maps. */
  predicate Spine(m: Properties, p: Path)
    decreases p
  {
    |p| <= 1 || (p[0] in m && m[p[0]].StringMap? && Spine(m[p[0]].entries, p[1..]))
  }

  lemma {:induction false} MergeNothing(m: Properties, p: Path)
    requires p != [] && Spine(m, p)
    ensures Merge(m, p, None) == m
    decreases p
  {
    if |p| == 1 {
    } else {
      MergeNothing(m[p[0]].entries, p[1..]);
      assert m[p[0] := m[p[0]]] == m;
    }
  }

  lemma {:induction false} MergeValue(m: Properties, p: Path, v: Value)
    requires p != []
    ensures Merge(m, p, Some(v)) == Put(m, p, v)
    decreases p
  {
    if |p| == 1 {
    } else {
      MergeValue(Level(m, p[0]), p[1..], v);
    }
  }

  lemma {:induction false} SpineAfterPut(m: Properties, p: Path, v: Value, q: Path)
    requires p != [] && q != []
    requires q == p || (Spine(m, q) && !(p <= q))
    ensures Spine(Put(m, p, v), q)
    decreases p
  {
    if |q| > 1 && q[0] == p[0] && |p| > 1 {
      TailComparable(p, q);
      SpineAfterPut(Level(m, p[0]), p[1..], v, q[1..]);
    }
  }

  lemma {:induction false} GetAtPut(m: Properties, p: Path, v: Value)
    requires p != []
    ensures Get(StringMap(Put(m, p, v)), p) == Some(v)
    decreases p
  {
    if |p| > 1 {
      GetAtPut(Level(m, p[0]), p[1..], v);
    } else {
      assert p[1..] == [];
    }
  }

  lemma {:induction false} GetElsewhere(m: Properties, p: Path, v: Value, q: Path)
    requires p != [] && !Comparable(p, q)
    ensures Spine(m, q) ==> Get(StringMap(Put(m, p, v)), q) == Get(StringMap(m), q)
    ensures Get(StringMap(Put(m, p, v)), q).Some? ==> Get(StringMap(m), q).Some?
    decreases p
  {
    TailComparable(p, q);
    TailComparable(q, p);
    if q[0] == p[0] {
      GetElsewhere(Level(m, p[0]), p[1..], v, q[1..]);
    }
  }

  // ---------------------------------------------------------------- resolution is exact

  ghost predicate AllPrefixFree(names: seq<string>) {
    forall i, j | 0 <= i < |names| && 0 <= j < |names| && Split(names[i]) <= Split(names[j]) :: names[i] == names[j]
  }

  /** `q` leads to, or into, the value of one of the names. */
  ghost predicate OnTheWay(names: seq<string>, q: Path) {
    q == [] || exists k | 0 <= k < |names| :: Comparable(Split(names[k]), q)
  }

  ghost predicate NoOtherPath(m: Properties, names: seq<string>) {
    forall q :: Get(StringMap(m), q).Some? ==> OnTheWay(names, q)
  }

  lemma PutAddsNoOtherPath(m: Properties, name: string, v: Value, names: seq<string>)
    requires NoOtherPath(m, names) && name in names
    ensures NoOtherPath(Put(m, Split(name), v), names)
  {
    var k :| 0 <= k < |names| && names[k] == name;
    forall q | Get(StringMap(Put(m, Split(name), v)), q).Some? ensures OnTheWay(names, q) {
      if !Comparable(Split(names[k]), q) {
        GetElsewhere(m, Split(name), v, q);
      }
    }
  }

  /** Putting a value at one of several prefix-free names does not touch the others. */
  lemma PutKeepsOthers(m: Properties, name: string, v: Value, other: string)
    requires name == other || !Comparable(Split(name), Split(other))
    requires name == other || Spine(m, Split(other))
    ensures Spine(Put(m, Split(name), v), Split(other))
    ensures Get(StringMap(Put(m, Split(name), v)), Split(other)) ==
            if name == other then Some(v) else Get(StringMap(m), Split(other))
  {
    SpineAfterPut(m, Split(name), v, Split(other));
    if name == other {
      GetAtPut(m, Split(name), v);
    } else {
      GetElsewhere(m, Split(name), v, Split(other));
    }
  }

  ghost predicate Incomparable(names: seq<string>) {
    forall i, j | 0 <= i < |names| && 0 <= j < |names| ::
      names[i] == names[j] || !Comparable(Split(names[i]), Split(names[j]))
  }

  lemma {:induction false} DefaultsAreSet(defaults: Properties, names: seq<string>, all: seq<string>, k: nat)
    requires names <= all && Incomparable(all)
    ensures NoOtherPath(DefaultPass(defaults, names), all)
    ensures k < |names| ==>
              var m := DefaultPass(defaults, names);
              Spine(m, Split(names[k])) && Get(StringMap(m), Split(names[k])) == Some(DefaultOf(defaults, names[k]))
    decreases |names|
  {
    if names == [] {
      assert forall q | q != [] :: Get(StringMap(map[]), q).None?;
    } else {
      var before, last := names[..|names| - 1], names[|names| - 1];
      var m := DefaultPass(defaults, before);
      DefaultsAreSet(defaults, before, all, k);
      assert last == all[|names| - 1];
      PutAddsNoOtherPath(m, last, DefaultOf(defaults, last), all);
      if k < |names| {
        assert names[k] == all[k];
        PutKeepsOthers(m, last, DefaultOf(defaults, last), names[k]);
      }
    }
  }

  lemma OverrideStep(m: Properties, job: Properties, name: string)
    requires Spine(m, Split(name))
    ensures Merge(m, Split(name), Explicit(job, name)) ==
            match Explicit(job, name) case Some(v) => Put(m, Split(name), v) case None => m
  {
    match Explicit(job, name)
    case Some(v) => MergeValue(m, Split(name), v);
    case None => MergeNothing(m, Split(name));
  }

  ghost predicate Holds(m: Properties, name: string, v: Value) {
    Spine(m, Split(name)) && Get(StringMap(m), Split(name)) == Some(v)
  }

  /** After the override pass over `names` each name holds what it resolves to, the others their defaults. */
  ghost predicate HoldAll(m: Properties, defaults: Properties, job: Properties, names: seq<string>, all: seq<string>) {
    forall k | 0 <= k < |all| ::
      Holds(m, all[k], if all[k] in names then Expected(defaults, job, all[k]) else DefaultOf(defaults, all[k]))
  }

  lemma OverrideOne(m: Properties, defaults: Properties, job: Properties, before: seq<string>, last: string,
                    all: seq<string>, k: nat)
    requires Incomparable(all) && HoldAll(m, defaults, job, before, all) && last in all && k < |all|
    ensures var names := before + [last];
            Holds(Merge(m, Split(last), Explicit(job, last)), all[k],
                  if all[k] in names then Expected(defaults, job, all[k]) else DefaultOf(defaults, all[k]))
  {
    var i :| 0 <= i < |all| && all[i] == last;
    assert Holds(m, all[i], if all[i] in before then Expected(defaults, job, all[i]) else DefaultOf(defaults, all[i]));
    OverrideStep(m, job, last);
    if Explicit(job, last).Some? {
      PutKeepsOthers(m, last, Explicit(job, last).value, all[k]);
    }
  }

  lemma {:induction false} OverridesAreSet(base: Properties, defaults: Properties, job: Properties,
                                           names: seq<string>, all: seq<string>)
    requires names <= all && Incomparable(all) && NoOtherPath(base, all)
    requires forall k | 0 <= k < |all| :: Holds(base, all[k], DefaultOf(defaults, all[k]))
    ensures var m := OverridePass(base, job, names);
            NoOtherPath(m, all) && HoldAll(m, defaults, job, names, all)
    decreases |names|
  {
    if names == [] {
      assert HoldAll(base, defaults, job, [], all);
    } else {
      var before, last := names[..|names| - 1], names[|names| - 1];
      var m := OverridePass(base, job, before);
      OverridesAreSet(base, defaults, job, before, all);
      assert last == all[|names| - 1] && names == before + [last];
      OverrideStep(m, job, last);
      if Explicit(job, last).Some? {
        PutAddsNoOtherPath(m, last, Explicit(job, last).value, all);
      }
      forall k: nat | k < |all|
        ensures Holds(OverridePass(base, job, names), all[k],
                      if all[k] in names then Expected(defaults, job, all[k]) else DefaultOf(defaults, all[k]))
      {
        OverrideOne(m, defaults, job, before, last, all, k);
      }
    }
  }

  /** The link holds at each name what it resolves to, and nothing besides these values. */
  ghost predicate Exact(m: Properties, defaults: Properties, job: Properties, names: seq<string>) {
    && (forall k | 0 <= k < |names| ::
          Get(StringMap(m), Split(names[k])) == Some(Expected(defaults, job, names[k])))
    && NoOtherPath(m, names)
  }

  lemma PrefixFreeIsIncomparable(names: seq<string>)
    requires AllPrefixFree(names)
    ensures Incomparable(names)
  {
  }

  lemma ResolvesExactly(defaults: Properties, job: Properties, names: seq<string>)
    requires Incomparable(names)
    ensures Exact(Resolve(defaults, job, names), defaults, job, names)
  {
    var base := DefaultPass(defaults, names);
    DefaultsAreSet(defaults, names, names, 0);
    forall k | 0 <= k < |names| ensures Holds(base, names[k], DefaultOf(defaults, names[k])) {
      DefaultsAreSet(defaults, names, names, k);
    }
    OverridesAreSet(base, defaults, job, names, names);
    forall k | 0 <= k < |names|
      ensures Get(StringMap(Resolve(defaults, job, names)), Split(names[k])) == Some(Expected(defaults, job, names[k]))
    {
      assert Holds(Resolve(defaults, job, names), names[k], Expected(defaults, job, names[k]));
    }
  }

  lemma {:induction false} NothingBelowAtom(v: Value, p: Path, q: Path)
    requires Get(v, p).Some? && Get(v, p).value.Atom? && p < q
    ensures Get(v, q) == None
    decreases p
  {
    if p == [] {
    } else {
      TailComparable(p, q);
      NothingBelowAtom(v.entries[p[0]], p[1..], q[1..]);
    }
  }

  lemma ProperPrefix(p: Path, q: Path)
    ensures p <= q ==> p == q || p < q
  {
    if p <= q && |p| == |q| {
      assert p == q;
    }
  }

  /** An explicit value for a name keeps any name inside it from resolving. */
  lemma PrefixIsNotExact(names: seq<string>, i: nat, j: nat) returns (job: Properties)
    requires i < |names| && j < |names| && Split(names[i]) < Split(names[j])
    ensures !Exact(Resolve(map[], job, names), map[], job, names)
  {
    var a, b := Split(names[i]), Split(names[j]);
    job := Put(map[], a, Atom("explicit"));
    GetAtPut(map[], a, Atom("explicit"));
    NothingBelowAtom(StringMap(job), a, b);
    var m := Resolve(map[], job, names);
    assert Expected(map[], job, names[i]) == Atom("explicit");
    if Get(StringMap(m), a) == Some(Atom("explicit")) {
      NothingBelowAtom(StringMap(m), a, b);
    }
  }

  /**
   Link values resolve exactly, whatever the spec's defaults and the job's properties are, if
   and only if no name is a proper path prefix of another.
   */
  lemma ResolvesExactlyIff(names: seq<string>)
    ensures AllPrefixFree(names) <==>
            forall defaults, job :: Exact(Resolve(defaults, job, names), defaults, job, names)
  {
    if AllPrefixFree(names) {
      PrefixFreeIsIncomparable(names);
      forall defaults, job ensures Exact(Resolve(defaults, job, names), defaults, job, names) {
        ResolvesExactly(defaults, job, names);
      }
    } else {
      var i, j :| 0 <= i < |names| && 0 <= j < |names| && Split(names[i]) <= Split(names[j]) && names[i] != names[j];
      JoinOfSplit(names[i]);
      JoinOfSplit(names[j]);
      ProperPrefix(Split(names[i]), Split(names[j]));
      var job := PrefixIsNotExact(names, i, j);
    }
  }
}
