/** Volume mounts of a container, and how repeated mount paths are dropped. */
module Mounts {
  import opened Wrappers

  datatype VolumeMount = VolumeMount(name: string, mountPath: string, subPath: string, readOnly: bool)

  function Paths(ms: seq<VolumeMount>): set<string> {
    set i | 0 <= i < |ms| :: ms[i].mountPath
  }

  /** The first mount of every mount path, in order. */
  function Deduplicated(ms: seq<VolumeMount>): seq<VolumeMount> {
    if ms == [] then []
    else
      var before, last := ms[..|ms| - 1], ms[|ms| - 1];
      if last.mountPath in Paths(before) then Deduplicated(before) else Deduplicated(before) + [last]
  }

  ghost predicate DistinctPaths(ms: seq<VolumeMount>) {
    forall i, j | 0 <= i < j < |ms| :: ms[i].mountPath != ms[j].mountPath
  }

  lemma PathsOfOneMore(ms: seq<VolumeMount>, m: VolumeMount)
    ensures Paths(ms + [m]) == Paths(ms) + {m.mountPath}
  {
    var all := ms + [m];
    assert all[|ms|] == m;
    forall p | p in Paths(ms) ensures p in Paths(all) {
      var i :| 0 <= i < |ms| && ms[i].mountPath == p;
      assert all[i] == ms[i];
    }
  }

  /** `m` is the first of the mounts with its path. */
  ghost predicate FirstWithPath(ms: seq<VolumeMount>, m: VolumeMount) {
    exists i | 0 <= i < |ms| :: ms[i] == m && forall j | 0 <= j < i :: ms[j].mountPath != m.mountPath
  }

  /** Deduplication keeps exactly one mount per path: the first. */
  lemma {:induction false} DeduplicatedIsExact(ms: seq<VolumeMount>)
    ensures DistinctPaths(Deduplicated(ms)) && Paths(Deduplicated(ms)) == Paths(ms)
    ensures forall i | 0 <= i < |Deduplicated(ms)| :: FirstWithPath(ms, Deduplicated(ms)[i])
    decreases |ms|
  {
    if ms == [] {
    } else {
      var before, last := ms[..|ms| - 1], ms[|ms| - 1];
      DeduplicatedIsExact(before);
      assert ms == before + [last];
      PathsOfOneMore(before, last);
      PathsOfOneMore(Deduplicated(before), last);
      forall i | 0 <= i < |Deduplicated(ms)| ensures FirstWithPath(ms, Deduplicated(ms)[i]) {
        if i < |Deduplicated(before)| {
          StillFirst(before, last, Deduplicated(before)[i]);
        } else {
          NewFirst(before, last);
        }
      }
      if last.mountPath !in Paths(before) {
        forall i | 0 <= i < |Deduplicated(before)| ensures Deduplicated(before)[i].mountPath != last.mountPath {
          assert Deduplicated(before)[i].mountPath in Paths(Deduplicated(before));
        }
      }
    }
  }

  lemma StillFirst(before: seq<VolumeMount>, last: VolumeMount, m: VolumeMount)
    requires FirstWithPath(before, m)
    ensures FirstWithPath(before + [last], m)
  {
    var i :| 0 <= i < |before| && before[i] == m && forall j | 0 <= j < i :: before[j].mountPath != m.mountPath;
    assert (before + [last])[i] == m;
  }

  lemma NewFirst(before: seq<VolumeMount>, last: VolumeMount)
    requires last.mountPath !in Paths(before)
    ensures FirstWithPath(before + [last], last)
  {
    assert (before + [last])[|before|] == last;
    forall j | 0 <= j < |before| ensures (before + [last])[j].mountPath != last.mountPath {
      assert before[j].mountPath in Paths(before);
    }
  }

  lemma {:induction false} DistinctStay(ms: seq<VolumeMount>)
    requires DistinctPaths(ms)
    ensures Deduplicated(ms) == ms
    decreases |ms|
  {
    if ms == [] {
    } else {
      var before, last := ms[..|ms| - 1], ms[|ms| - 1];
      DistinctStay(before);
      assert last.mountPath !in Paths(before);
      assert ms == before + [last];
    }
  }

  /** Mounts with distinct paths at the front all stay. */
  lemma {:induction false} FrontStays(front: seq<VolumeMount>, rest: seq<VolumeMount>)
    requires DistinctPaths(front)
    ensures front <= Deduplicated(front + rest)
    decreases |rest|
  {
    if rest == [] {
      DistinctStay(front);
      assert front + rest == front;
    } else {
      var all := front + rest;
      assert all[..|all| - 1] == front + rest[..|rest| - 1];
      FrontStays(front, rest[..|rest| - 1]);
    }
  }

  /** What a container gets besides the default mounts, in the order of `proccessVolumentMounts`. */
  datatype Extra = Extra(mounts: seq<VolumeMount>, ephemeral: Option<VolumeMount>, persistent: Option<VolumeMount>)

  function Optional(m: Option<VolumeMount>): seq<VolumeMount> {
    if m.Some? then [m.value] else []
  }

  function ContainerMounts(defaults: seq<VolumeMount>, e: Extra): seq<VolumeMount> {
    Deduplicated(defaults + e.mounts + Optional(e.ephemeral) + Optional(e.persistent))
  }
}
