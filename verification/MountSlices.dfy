/**
 The mount lists as Go slices.  Every container's list is appended to the one slice of
 default mounts, in place if that slice has spare capacity; only the copy that the
 deduplication makes keeps the containers apart.
 */
module MountSlices {
  import opened Wrappers
  import opened Mounts

  /** A slice from the start of its backing array; the capacity is the length of the array. */
  datatype Slice = Slice(backing: array<VolumeMount>, len: nat)

  predicate IsSlice(s: Slice) {
    s.len <= s.backing.Length
  }

  function Contents(s: Slice): seq<VolumeMount>
    requires IsSlice(s)
    reads s.backing
  {
    s.backing[..s.len]
  }

  const NO_MOUNT := VolumeMount("", "", "", false)

  /** `append(s, xs...)`: in place if the capacity suffices, else into a larger array with `spare` room left. */
  method Append(s: Slice, xs: seq<VolumeMount>, spare: nat) returns (r: Slice)
    requires IsSlice(s)
    modifies s.backing
    ensures IsSlice(r) && Contents(r) == old(Contents(s)) + xs
    ensures Contents(s) == old(Contents(s))
    ensures s.len + |xs| <= s.backing.Length ==> r.backing == s.backing
    ensures s.len + |xs| > s.backing.Length ==> fresh(r.backing) && s.backing[..] == old(s.backing[..])
  {
    var n := s.len + |xs|;
    if n <= s.backing.Length {
      r := Slice(s.backing, n);
    } else {
      var larger := new VolumeMount[n + spare](_ => NO_MOUNT);
      for i := 0 to s.len
        invariant larger[..i] == s.backing[..i] && s.backing[..] == old(s.backing[..])
      {
        larger[i] := s.backing[i];
      }
      r := Slice(larger, n);
    }
    for i := 0 to |xs|
      invariant r.backing[..s.len + i] == old(Contents(s)) + xs[..i]
      invariant Contents(s) == old(Contents(s))
      invariant r.backing != s.backing ==> s.backing[..] == old(s.backing[..])
    {
      r.backing[s.len + i] := xs[i];
      assert xs[..i + 1] == xs[..i] + [xs[i]];
    }
    assert xs[..|xs|] == xs;
  }

  method ProcessVolumeMounts(defaults: Slice, e: Extra, spare: nat) returns (v: Slice)
    requires IsSlice(defaults)
    modifies defaults.backing
    ensures IsSlice(v) && (v.backing == defaults.backing || fresh(v.backing))
    ensures Contents(v) == old(Contents(defaults)) + e.mounts + Optional(e.ephemeral) + Optional(e.persistent)
    ensures Contents(defaults) == old(Contents(defaults))
  {
    v := Append(defaults, e.mounts, spare);
    if e.ephemeral.Some? {
      v := Append(v, [e.ephemeral.value], spare);
    }
    if e.persistent.Some? {
      v := Append(v, [e.persistent.value], spare);
    }
  }

  method DeduplicateVolumeMounts(ms: Slice, spare: nat) returns (r: Slice)
    requires IsSlice(ms)
    ensures IsSlice(r) && fresh(r.backing)
    ensures Contents(r) == Deduplicated(Contents(ms))
  {
    var empty := new VolumeMount[0];
    r := Slice(empty, 0);
    var unique: set<string> := {};
    ghost var all := Contents(ms);
    for i := 0 to ms.len
      invariant IsSlice(r) && fresh(r.backing) && Contents(ms) == all
      invariant unique == Paths(all[..i]) && Contents(r) == Deduplicated(all[..i])
    {
      var m := ms.backing[i];
      assert all[..i + 1] == all[..i] + [m] && all[..i + 1][..i] == all[..i];
      PathsOfOneMore(all[..i], m);
      if m.mountPath !in unique {
        unique := unique + {m.mountPath};
        r := Append(r, [m], spare);
      }
    }
    assert all[..ms.len] == all;
  }

  /**
   All containers of a pod, one after the other.  Whatever spare capacity the default slice
   has, building a container changes neither the default mounts nor the mounts of the
   containers built before it.
   */
  method BuildAll(defaults: Slice, extras: seq<Extra>, spare: nat) returns (containers: seq<Slice>)
    requires IsSlice(defaults)
    modifies defaults.backing
    ensures Contents(defaults) == old(Contents(defaults))
    ensures |containers| == |extras|
    ensures forall k | 0 <= k < |extras| ::
              && IsSlice(containers[k]) && fresh(containers[k].backing)
              && Contents(containers[k]) == ContainerMounts(old(Contents(defaults)), extras[k])
  {
    containers := [];
    for i := 0 to |extras|
      invariant |containers| == i && Contents(defaults) == old(Contents(defaults))
      invariant forall k | 0 <= k < i ::
                  && IsSlice(containers[k]) && fresh(containers[k].backing)
                  && Contents(containers[k]) == ContainerMounts(old(Contents(defaults)), extras[k])
    {
      var v := ProcessVolumeMounts(defaults, extras[i], spare);
      var mounts := DeduplicateVolumeMounts(v, spare);
      containers := containers + [mounts];
    }
  }
}
