/**
 Rendering the templates of one pod: the pod finds its own job instance by a spec index
 that does not depend on the number of replicas.
 */
module SpecIndex {
  import opened Wrappers
  import opened Instances

  /** The largest number of replicas per zone that spec indices leave room for. */
  const RADIX: nat := 10000

  function Of(azIndex: int, podOrdinal: int): int {
    if azIndex <= 0 then podOrdinal else (azIndex - 1) * RADIX + podOrdinal
  }

  predicate Matches(instance: JobInstance, azs: seq<string>, specIndex: int) {
    if azs == [] then instance.index == specIndex
    else exists i | 0 <= i < |azs| :: instance.az == azs[i] && Of(i + 1, instance.instance) == specIndex
  }

  /** `Quarks.jobInstance`: the first instance that matches. */
  method JobInstanceFor(instances: seq<JobInstance>, azs: seq<string>, specIndex: int) returns (r: Option<JobInstance>)
    ensures r == Lookup(instances, azs, specIndex)
  {
    assert instances[0..] == instances;
    for k := 0 to |instances|
      invariant Lookup(instances, azs, specIndex) == Lookup(instances[k..], azs, specIndex)
    {
      var instance := instances[k];
      assert instances[k..][1..] == instances[k + 1..];
      if |azs| > 0 {
        for i := 0 to |azs|
          invariant forall j | 0 <= j < i :: !(instance.az == azs[j] && Of(j + 1, instance.instance) == specIndex)
        {
          if instance.az == azs[i] && Of(i + 1, instance.instance) == specIndex {
            return Some(instance);
          }
        }
      } else if instance.index == specIndex {
        return Some(instance);
      }
    }
    return None;
  }

  function Lookup(instances: seq<JobInstance>, azs: seq<string>, specIndex: int): Option<JobInstance> {
    if instances == [] then None
    else if Matches(instances[0], azs, specIndex) then Some(instances[0])
    else Lookup(instances[1..], azs, specIndex)
  }

  lemma {:induction false} LookupIsFirst(instances: seq<JobInstance>, azs: seq<string>, specIndex: int, k: nat)
    requires k < |instances| && Matches(instances[k], azs, specIndex)
    ensures var r := Lookup(instances, azs, specIndex);
            && r.Some?
            && ((forall j | 0 <= j < k :: !Matches(instances[j], azs, specIndex)) ==> r.value == instances[k])
            && exists j | 0 <= j <= k :: r.value == instances[j] && Matches(instances[j], azs, specIndex)
  {
    if !Matches(instances[0], azs, specIndex) {
      LookupIsFirst(instances[1..], azs, specIndex, k - 1);
      var j :| 0 <= j <= k - 1 && Lookup(instances[1..], azs, specIndex).value == instances[1..][j] &&
               Matches(instances[1..][j], azs, specIndex);
      assert instances[j + 1] == instances[1..][j];
    }
  }

  lemma LookupOfFirst(instances: seq<JobInstance>, azs: seq<string>, specIndex: int, k: nat)
    requires k < |instances| && Matches(instances[k], azs, specIndex)
    requires forall j | 0 <= j < k :: !Matches(instances[j], azs, specIndex)
    ensures Lookup(instances, azs, specIndex) == Some(instances[k])
  {
    LookupIsFirst(instances, azs, specIndex, k);
  }

  // ---------------------------------------------------------------- rendering one pod

  /** `validateAZ`: zones count from one; a group without zones is given zero, or one by older versions. */
  predicate ValidAZ(azMax: nat, idx: int) {
    (azMax == 0 && idx == 0) || (azMax >= 1 && 1 <= idx <= azMax) || (azMax == 0 && idx == 1)
  }

  function Adapted(replicas: int, podOrdinal: nat): int {
    if podOrdinal + 1 > replicas then podOrdinal + 1 else replicas
  }

  /** The list that `NewJobInstances` returns. */
  ghost function InstancesOf(nm: Naming, g: Group, jobName: string, initialRollout: bool): seq<JobInstance> {
    AllInRange(g);
    var cells := CellsOf(g);
    seq(|cells|, k requires 0 <= k < |cells| => InstanceAt(nm, g, jobName, initialRollout, cells[k]))
  }

  lemma AllInRange(g: Group)
    ensures forall k | 0 <= k < |CellsOf(g)| :: CellsOf(g)[k].0 < Zones(g) && CellsOf(g)[k].1 < Replicas(g)
  {
    forall k | 0 <= k < |CellsOf(g)| ensures CellsOf(g)[k].0 < Zones(g) && CellsOf(g)[k].1 < Replicas(g) {
      CellsAreInRange(Zones(g), Replicas(g), k);
    }
  }

  lemma InstancesAreListed(nm: Naming, g: Group, jobName: string, initialRollout: bool, r: seq<JobInstance>)
    ensures r == InstancesOf(nm, g, jobName, initialRollout) <==>
            ListsInstances(nm, g, jobName, initialRollout, r, CellsOf(g))
  {
    AllInRange(g);
  }

  /** What the pod of zone `z` and ordinal `i` finds when it is told that there are `replicas` replicas. */
  ghost function Found(nm: Naming, g: Group, jobName: string, initialRollout: bool,
                       replicas: int, z: nat, i: nat): Option<JobInstance>
  {
    var ig := g.(instances := Adapted(replicas, i));
    Lookup(InstancesOf(nm, ig, jobName, initialRollout), g.azs, PodIndex(g, z, i))
  }

  /** The job instance that a pod has to be rendered with: its own one, if there is room for the replicas. */
  ghost predicate OwnInstance(nm: Naming, g: Group, jobName: string, azIndex: int, podOrdinal: nat, replicas: int,
                              initialRollout: bool, instance: JobInstance)
    requires ValidAZ(|g.azs|, azIndex)
  {
    var ig := g.(instances := Adapted(replicas, podOrdinal));
    && Matches(instance, g.azs, Of(azIndex, podOrdinal))
    && (RoomForReplicas(ig) ==>
          instance == InstanceAt(nm, ig, jobName, initialRollout, (ZoneOf(g, azIndex), podOrdinal)))
  }

  /** An instance that carries the zone and the ordinal of a pod, and the id and the address that go with them. */
  ghost predicate IsOfPod(nm: Naming, g: Group, jobName: string, azIndex: int, podOrdinal: nat, instance: JobInstance)
    requires if g.azs == [] then azIndex == 0 || azIndex == 1 else 1 <= azIndex <= |g.azs|
  {
    && instance.instance == podOrdinal && instance.name == nm.sanitized(g.name) + "-" + jobName
    && instance.az == (if g.azs == [] then "" else g.azs[azIndex - 1])
    && var suffix := Suffix(g, if g.azs == [] then 0 else azIndex - 1, podOrdinal);
       instance.id == nm.sanitized(g.name) + suffix && instance.address == nm.truncated(g.name) + suffix
  }

  lemma OwnIsOfPod(nm: Naming, ig: Group, jobName: string, azIndex: int, podOrdinal: nat, initialRollout: bool)
    requires ValidAZ(|ig.azs|, azIndex) && podOrdinal < Replicas(ig)
    ensures IsOfPod(nm, ig, jobName, azIndex, podOrdinal,
                    InstanceAt(nm, ig, jobName, initialRollout, (ZoneOf(ig, azIndex), podOrdinal)))
  {
    var z := ZoneOf(ig, azIndex);
    SuffixIsAppended(nm, ig, z, podOrdinal);
    InstanceHasSuffix(nm, ig, jobName, initialRollout, z, podOrdinal);
  }

  lemma PodIndexOf(g: Group, azIndex: int, podOrdinal: nat)
    requires ValidAZ(|g.azs|, azIndex)
    ensures ZoneOf(g, azIndex) < Zones(g) && Of(azIndex, podOrdinal) == PodIndex(g, ZoneOf(g, azIndex), podOrdinal)
  {
  }

  lemma FindsOwnInstance(nm: Naming, g: Group, jobName: string, azIndex: int, podOrdinal: nat, replicas: int,
                         initialRollout: bool, instances: seq<JobInstance>)
    requires ValidAZ(|g.azs|, azIndex)
    requires var ig := g.(instances := Adapted(replicas, podOrdinal));
             ListsInstances(nm, ig, jobName, initialRollout, instances, CellsOf(ig))
    ensures var r := Lookup(instances, g.azs, Of(azIndex, podOrdinal));
            r.Some? && OwnInstance(nm, g, jobName, azIndex, podOrdinal, replicas, initialRollout, r.value)
  {
    var ig := g.(instances := Adapted(replicas, podOrdinal));
    var z := ZoneOf(g, azIndex);
    PodIndexOf(ig, azIndex, podOrdinal);
    FindsOwn(nm, ig, jobName, initialRollout, instances, z, podOrdinal);
  }

  lemma RendersOwn(nm: Naming, g: Group, jobName: string, azIndex: int, podOrdinal: nat, replicas: int,
                   initialRollout: bool, instances: seq<JobInstance>)
    requires ValidAZ(|g.azs|, azIndex)
    requires var ig := g.(instances := Adapted(replicas, podOrdinal));
             ListsInstances(nm, ig, jobName, initialRollout, instances, CellsOf(ig))
    ensures var r := Lookup(instances, g.azs, Of(azIndex, podOrdinal));
            && r.Some? && OwnInstance(nm, g, jobName, azIndex, podOrdinal, replicas, initialRollout, r.value)
            && (Distinct(g.azs) && (|g.azs| <= 1 || (replicas <= 10000 && podOrdinal < 10000)) ==>
                  IsOfPod(nm, g, jobName, azIndex, podOrdinal, r.value))
            && r == Found(nm, g, jobName, initialRollout, replicas, ZoneOf(g, azIndex), podOrdinal)
  {
    var ig := g.(instances := Adapted(replicas, podOrdinal));
    FindsOwnInstance(nm, g, jobName, azIndex, podOrdinal, replicas, initialRollout, instances);
    PodIndexOf(ig, azIndex, podOrdinal);
    OwnIsOfPod(nm, ig, jobName, azIndex, podOrdinal, initialRollout);
    InstancesAreListed(nm, ig, jobName, initialRollout, instances);
  }

  /** The part of `RenderJobTemplates` that picks the job instance a pod's templates are rendered with. */
  method RenderedInstance(nm: Naming, g: Group, jobName: string, azIndex: int, podOrdinal: nat, replicas: int,
                          initialRollout: bool) returns (r: Result<JobInstance>)
    ensures r.Ok? <==> if g.azs == [] then azIndex == 0 || azIndex == 1 else 1 <= azIndex <= |g.azs|
    ensures r.Ok? ==> OwnInstance(nm, g, jobName, azIndex, podOrdinal, replicas, initialRollout, r.value)
    ensures r.Ok? && Distinct(g.azs) && (|g.azs| <= 1 || (replicas <= 10000 && podOrdinal < 10000)) ==>
              IsOfPod(nm, g, jobName, azIndex, podOrdinal, r.value)
    ensures r.Ok? ==>
              Found(nm, g, jobName, initialRollout, replicas, ZoneOf(g, azIndex), podOrdinal) == Some(r.value)
  {
    var adapted := replicas;
    if podOrdinal + 1 > adapted {
      adapted := podOrdinal + 1;
    }
    var ig := g.(instances := adapted);
    var az := azIndex;
    if !ValidAZ(|ig.azs|, az) {
      return Err("az index doesn't match azs");
    }
    if |ig.azs| == 0 && az == 1 {
      az := 0;
    }
    var instances := NewJobInstances(nm, ig, jobName, initialRollout);
    RendersOwn(nm, g, jobName, azIndex, podOrdinal, replicas, initialRollout, instances);
    var current := JobInstanceFor(instances, ig.azs, Of(az, podOrdinal));
    if current.None? {
      return Err("no job instance found for spec index");
    }
    return Ok(current.value);
  }

  function ZoneOf(g: Group, azIndex: int): nat
    requires ValidAZ(|g.azs|, azIndex)
  {
    if g.azs == [] then 0 else azIndex - 1
  }

  /** The spec index of the pod in a zone. */
  function PodIndex(g: Group, z: nat, i: nat): int {
    if g.azs == [] then i else Of(z + 1, i)
  }

  lemma FindsSome(nm: Naming, g: Group, jobName: string, initialRollout: bool, instances: seq<JobInstance>, z: nat,
                  i: nat)
    returns (k: nat)
    requires ListsInstances(nm, g, jobName, initialRollout, instances, CellsOf(g))
    requires z < Zones(g) && i < Replicas(g)
    ensures k < |instances| && instances[k] == InstanceAt(nm, g, jobName, initialRollout, (z, i))
    ensures Matches(instances[k], g.azs, PodIndex(g, z, i)) && instances[k].index == k
  {
    k := IsListed(nm, g, jobName, initialRollout, instances, z, i);
  }

  lemma IsListed(nm: Naming, g: Group, jobName: string, initialRollout: bool, instances: seq<JobInstance>, z: nat,
                 i: nat)
    returns (k: nat)
    requires ListsInstances(nm, g, jobName, initialRollout, instances, CellsOf(g))
    requires z < Zones(g) && i < Replicas(g)
    ensures k < |instances| && instances[k].index == k
    ensures instances[k] == InstanceAt(nm, g, jobName, initialRollout, (z, i))
  {
    CellAt(Zones(g), Replicas(g), z, i);
    k := Position(Replicas(g), z, i);
  }

  ghost predicate Distinct(azs: seq<string>) {
    forall i, j | 0 <= i < j < |azs| :: azs[i] != azs[j]
  }

  /** Every pod of the group finds the instance of its own zone and ordinal. */
  ghost predicate ExactLookup(nm: Naming, g: Group, jobName: string, initialRollout: bool,
                              instances: seq<JobInstance>)
  {
    forall z: nat, i: nat | z < Zones(g) && i < Replicas(g) ::
      Lookup(instances, g.azs, PodIndex(g, z, i)) == Some(InstanceAt(nm, g, jobName, initialRollout, (z, i)))
  }

  /** Enough room: at most one zone, or no more replicas than the radix, and zones told apart by their names. */
  ghost predicate RoomForReplicas(g: Group) {
    Distinct(g.azs) && (|g.azs| <= 1 || Replicas(g) <= 10000)
  }

  lemma RadixInjective(y: nat, i: nat, z: nat, l: nat)
    requires i < RADIX && l < RADIX && y * RADIX + i == z * RADIX + l
    ensures y == z && i == l
  {
  }

  /** With room for the replicas a zone and an ordinal are determined by their spec index. */
  lemma SpecIndexInjective(g: Group, a: nat, l: nat, z: nat, i: nat)
    requires RoomForReplicas(g) && a < |g.azs| && z < |g.azs| && l < Replicas(g) && i < Replicas(g)
    requires Of(a + 1, l) == Of(z + 1, i)
    ensures a == z && l == i
  {
    if |g.azs| > 1 {
      RadixInjective(a, l, z, i);
    }
  }

  lemma OneMatch(nm: Naming, g: Group, jobName: string, initialRollout: bool, z: nat, i: nat, cell: (nat, nat))
    requires RoomForReplicas(g) && z < Zones(g) && i < Replicas(g) && cell.0 < Zones(g) && cell.1 < Replicas(g)
    requires Matches(InstanceAt(nm, g, jobName, initialRollout, cell), g.azs, PodIndex(g, z, i))
    ensures cell == (z, i)
  {
    var instance := InstanceAt(nm, g, jobName, initialRollout, cell);
    if g.azs != [] {
      var a :| 0 <= a < |g.azs| && instance.az == g.azs[a] && Of(a + 1, instance.instance) == PodIndex(g, z, i);
      SpecIndexInjective(g, a, cell.1, z, i);
    }
  }

  lemma RoomIsExact(nm: Naming, g: Group, jobName: string, initialRollout: bool, instances: seq<JobInstance>,
                    z: nat, i: nat)
    requires ListsInstances(nm, g, jobName, initialRollout, instances, CellsOf(g)) && RoomForReplicas(g)
    requires z < Zones(g) && i < Replicas(g)
    ensures Lookup(instances, g.azs, PodIndex(g, z, i)) == Some(InstanceAt(nm, g, jobName, initialRollout, (z, i)))
  {
    var k := FindsSome(nm, g, jobName, initialRollout, instances, z, i);
    forall j | 0 <= j < k ensures !Matches(instances[j], g.azs, PodIndex(g, z, i)) {
      if Matches(instances[j], g.azs, PodIndex(g, z, i)) {
        OneMatch(nm, g, jobName, initialRollout, z, i, CellsOf(g)[j]);
        IndexIsPosition(nm, g, jobName, initialRollout, instances, j);
      }
    }
    LookupOfFirst(instances, g.azs, PodIndex(g, z, i), k);
  }

  lemma EarlierZone(n: nat, y: nat, l: nat, z: nat, i: nat)
    requires y < z && l < n
    ensures Position(n, y, l) < Position(n, z, i)
  {
    CellsGrow(y + 1, z, n);
  }

  lemma IndexIsPosition(nm: Naming, g: Group, jobName: string, initialRollout: bool, instances: seq<JobInstance>,
                        k: nat)
    requires ListsInstances(nm, g, jobName, initialRollout, instances, CellsOf(g)) && k < |instances|
    ensures instances[k].index == k
  {
    CellsAreInRange(Zones(g), Replicas(g), k);
  }

  lemma FindsOwn(nm: Naming, g: Group, jobName: string, initialRollout: bool, instances: seq<JobInstance>, z: nat,
                 i: nat)
    requires ListsInstances(nm, g, jobName, initialRollout, instances, CellsOf(g))
    requires z < Zones(g) && i < Replicas(g)
    ensures var r := Lookup(instances, g.azs, PodIndex(g, z, i));
            && r.Some? && Matches(r.value, g.azs, PodIndex(g, z, i))
            && (RoomForReplicas(g) ==> r.value == InstanceAt(nm, g, jobName, initialRollout, (z, i)))
  {
    var k := FindsSome(nm, g, jobName, initialRollout, instances, z, i);
    LookupIsFirst(instances, g.azs, PodIndex(g, z, i), k);
    if RoomForReplicas(g) {
      RoomIsExact(nm, g, jobName, initialRollout, instances, z, i);
    }
  }

  lemma IndexGrows(nm: Naming, g: Group, jobName: string, initialRollout: bool, y: nat, l: nat, z: nat, i: nat)
    requires y < z < Zones(g) && i < Replicas(g) && l < Replicas(g)
    ensures InstanceAt(nm, g, jobName, initialRollout, (y, l)).index <
            InstanceAt(nm, g, jobName, initialRollout, (z, i)).index
  {
    EarlierZone(Replicas(g), y, l, z, i);
  }

  lemma FoundBy(nm: Naming, g: Group, jobName: string, initialRollout: bool, instances: seq<JobInstance>,
                specIndex: int, k: nat)
    requires ListsInstances(nm, g, jobName, initialRollout, instances, CellsOf(g))
    requires k < |instances| && Matches(instances[k], g.azs, specIndex)
    ensures var r := Lookup(instances, g.azs, specIndex); r.Some? && r.value.index <= k
  {
    LookupIsFirst(instances, g.azs, specIndex, k);
    var j :| 0 <= j <= k && Lookup(instances, g.azs, specIndex).value == instances[j];
    IndexIsPosition(nm, g, jobName, initialRollout, instances, j);
  }

  /** An instance of an earlier zone that matches is found first. */
  lemma FoundTooEarly(nm: Naming, g: Group, jobName: string, initialRollout: bool, instances: seq<JobInstance>,
                      y: nat, l: nat, z: nat, i: nat)
    requires ListsInstances(nm, g, jobName, initialRollout, instances, CellsOf(g))
    requires y < z < Zones(g) && i < Replicas(g) && l < Replicas(g)
    requires Matches(InstanceAt(nm, g, jobName, initialRollout, (y, l)), g.azs, PodIndex(g, z, i))
    ensures !ExactLookup(nm, g, jobName, initialRollout, instances)
  {
    var k := IsListed(nm, g, jobName, initialRollout, instances, y, l);
    FoundBy(nm, g, jobName, initialRollout, instances, PodIndex(g, z, i), k);
    IndexGrows(nm, g, jobName, initialRollout, y, l, z, i);
  }

  /**
   The lookup is total and exact, for every zone and ordinal, if and only if the zones have
   different names and either there is at most one zone or at most 10000 replicas.
   */
  lemma ExactLookupIff(nm: Naming, g: Group, jobName: string, initialRollout: bool, instances: seq<JobInstance>)
    requires ListsInstances(nm, g, jobName, initialRollout, instances, CellsOf(g)) && Replicas(g) > 0
    ensures ExactLookup(nm, g, jobName, initialRollout, instances) <==> RoomForReplicas(g)
  {
    if RoomForReplicas(g) {
      forall z: nat, i: nat | z < Zones(g) && i < Replicas(g)
        ensures Lookup(instances, g.azs, PodIndex(g, z, i)) == Some(InstanceAt(nm, g, jobName, initialRollout, (z, i)))
      {
        RoomIsExact(nm, g, jobName, initialRollout, instances, z, i);
      }
    } else if !Distinct(g.azs) {
      var y, z :| 0 <= y < z < |g.azs| && g.azs[y] == g.azs[z];
      assert Of(z + 1, 0) == PodIndex(g, z, 0);
      FoundTooEarly(nm, g, jobName, initialRollout, instances, y, 0, z, 0);
    } else {
      assert Of(1, RADIX) == PodIndex(g, 1, 0);
      FoundTooEarly(nm, g, jobName, initialRollout, instances, 0, RADIX, 1, 0);
    }
  }

  /** The dense index of an instance. */
  lemma DenseIndex(nm: Naming, g: Group, jobName: string, initialRollout: bool, z: nat, i: nat)
    requires z < Zones(g) && i < Replicas(g)
    ensures InstanceAt(nm, g, jobName, initialRollout, (z, i)).index == z * Replicas(g) + i
  {
    CellCount(z, Replicas(g));
  }

  // ---------------------------------------------------------------- bootstrap

  ghost predicate OnlyBootstrap(instances: seq<JobInstance>, b: int) {
    0 <= b < |instances| && forall k | 0 <= k < |instances| :: instances[k].bootstrap <==> k == b
  }

  /** Every non-empty list of instances has exactly one bootstrap instance. */
  lemma OneBootstrapInstance(nm: Naming, g: Group, jobName: string, initialRollout: bool, instances: seq<JobInstance>)
    requires ListsInstances(nm, g, jobName, initialRollout, instances, CellsOf(g)) && instances != []
    ensures OnlyBootstrap(instances, if initialRollout then 0 else |instances| - 1)
  {
    forall k | 0 <= k < |instances| ensures instances[k].bootstrap <==> k == BootstrapIndex(g, initialRollout) {
      IndexIsPosition(nm, g, jobName, initialRollout, instances, k);
    }
  }

  /** Whether the pod of zone `z` and ordinal `i` finds a bootstrap instance to render itself with. */
  ghost predicate RendersBootstrap(nm: Naming, g: Group, jobName: string, initialRollout: bool,
                                   replicas: int, z: nat, i: nat)
  {
    var found := Found(nm, g, jobName, initialRollout, replicas, z, i);
    found.Some? && found.value.bootstrap
  }

  lemma LastIndex(zones: nat, n: nat, z: nat, i: nat)
    requires z < zones && i < n
    ensures Position(n, z, i) == |Cells(zones, n)| - 1 <==> z == zones - 1 && i == n - 1
  {
    if z < zones - 1 {
      EarlierZone(n, z, i, zones - 1, n - 1);
    }
  }

  /** The pods that render themselves as bootstrap; each pod may be told its own number of replicas. */
  ghost function BootstrapPods(nm: Naming, g: Group, jobName: string, initialRollout: bool,
                               told: (nat, nat) -> int, pods: nat): set<(nat, nat)>
  {
    set c | c in Cells(Zones(g), pods) && c.0 < Zones(g) &&
            RendersBootstrap(nm, g, jobName, initialRollout, told(c.0, c.1), c.0, c.1)
  }

  lemma IsPod(g: Group, pods: nat, c: (nat, nat))
    ensures c in Cells(Zones(g), pods) <==> c.0 < Zones(g) && c.1 < pods
  {
    if c in Cells(Zones(g), pods) {
      var k: nat :| k < |Cells(Zones(g), pods)| && Cells(Zones(g), pods)[k] == c;
      CellsAreInRange(Zones(g), pods, k);
    }
    if c.0 < Zones(g) && c.1 < pods {
      CellAt(Zones(g), pods, c.0, c.1);
    }
  }

  /** No later zone is called like the first one. */
  ghost predicate FirstZoneIsUnique(azs: seq<string>) {
    azs == [] || azs[0] !in azs[1..]
  }

  /** No earlier zone is called like the last one. */
  ghost predicate LastZoneIsUnique(azs: seq<string>) {
    azs == [] || azs[|azs| - 1] !in azs[..|azs| - 1]
  }

  /** A bootstrap instance is found exactly by the pods that the very first instance matches. */
  lemma FirstIsFoundIff(nm: Naming, ig: Group, jobName: string, instances: seq<JobInstance>, z: nat, i: nat)
    requires ListsInstances(nm, ig, jobName, true, instances, CellsOf(ig))
    requires z < Zones(ig) && i < Replicas(ig)
    ensures var found := Lookup(instances, ig.azs, PodIndex(ig, z, i));
            && found.Some?
            && (found.value.bootstrap <==>
                  Matches(InstanceAt(nm, ig, jobName, true, (0, 0)), ig.azs, PodIndex(ig, z, i)))
  {
    var k := FindsSome(nm, ig, jobName, true, instances, z, i);
    var first := IsListed(nm, ig, jobName, true, instances, 0, 0);
    OneBootstrapInstance(nm, ig, jobName, true, instances);
    LookupIsFirst(instances, ig.azs, PodIndex(ig, z, i), k);
  }

  lemma BootstrapAtFirst(nm: Naming, g: Group, jobName: string, replicas: int, z: nat, i: nat)
    requires z < Zones(g)
    ensures RendersBootstrap(nm, g, jobName, true, replicas, z, i) <==>
            Matches(InstanceAt(nm, g.(instances := Adapted(replicas, i)), jobName, true, (0, 0)),
                    g.azs, PodIndex(g, z, i))
  {
    var ig := g.(instances := Adapted(replicas, i));
    var instances := InstancesOf(nm, ig, jobName, true);
    InstancesAreListed(nm, ig, jobName, true, instances);
    FirstIsFoundIff(nm, ig, jobName, instances, z, i);
  }

  /** The pods that the very first instance matches, by their zone and ordinal. */
  lemma FirstMatches(nm: Naming, ig: Group, jobName: string, z: nat, i: nat)
    requires Replicas(ig) > 0 && z < Zones(ig)
    ensures var m := Matches(InstanceAt(nm, ig, jobName, true, (0, 0)), ig.azs, PodIndex(ig, z, i));
            && (FirstZoneIsUnique(ig.azs) ==> (m <==> z == 0 && i == 0))
            && (z < |ig.azs| && ig.azs[z] == ig.azs[0] && i == 0 ==> m)
  {
    if z < |ig.azs| && ig.azs[z] == ig.azs[0] && i == 0 {
      assert Of(z + 1, 0) == PodIndex(ig, z, i);
    }
  }

  /**
   During the initial rollout exactly one pod does, the first one of the first zone, whatever
   each pod is told, if and only if no other zone is called like the first one.
   */
  lemma OneBootstrapPodAtFirstIff(nm: Naming, g: Group, jobName: string, told: (nat, nat) -> int, pods: nat)
    requires pods > 0
    ensures BootstrapPods(nm, g, jobName, true, told, pods) == {(0, 0)} <==> FirstZoneIsUnique(g.azs)
  {
    var s := BootstrapPods(nm, g, jobName, true, told, pods);
    if FirstZoneIsUnique(g.azs) {
      forall c: (nat, nat) ensures c in s <==> c == (0, 0) {
        IsPod(g, pods, c);
        if c.0 < Zones(g) {
          BootstrapAtFirst(nm, g, jobName, told(c.0, c.1), c.0, c.1);
          FirstMatches(nm, g.(instances := Adapted(told(c.0, c.1), c.1)), jobName, c.0, c.1);
        }
      }
    } else {
      var a :| 0 < a < |g.azs| && g.azs[a] == g.azs[0];
      var c: (nat, nat) := (a, 0);
      IsPod(g, pods, c);
      BootstrapAtFirst(nm, g, jobName, told(a, 0), a, 0);
      FirstMatches(nm, g.(instances := Adapted(told(a, 0), 0)), jobName, a, 0);
      assert c in s && c != (0, 0);
    }
  }

  /** A zone called like the last one hides the last instance. */
  lemma LastIsHidden(nm: Naming, ig: Group, jobName: string, instances: seq<JobInstance>, z: nat, i: nat)
    requires ListsInstances(nm, ig, jobName, false, instances, CellsOf(ig))
    requires z == Zones(ig) - 1 && i < Replicas(ig) && !LastZoneIsUnique(ig.azs)
    ensures var found := Lookup(instances, ig.azs, PodIndex(ig, z, i));
            found.Some? && found.value.index < Position(Replicas(ig), z, i)
  {
    var y: nat :| y < z && ig.azs[..z][y] == ig.azs[z];
    var j := IsListed(nm, ig, jobName, false, instances, y, i);
    assert Of(z + 1, i) == PodIndex(ig, z, i);
    FoundBy(nm, ig, jobName, false, instances, PodIndex(ig, z, i), j);
    EarlierZone(Replicas(ig), y, i, z, i);
  }

  lemma LastIsListed(nm: Naming, ig: Group, jobName: string, instances: seq<JobInstance>)
    requires ListsInstances(nm, ig, jobName, false, instances, CellsOf(ig)) && Replicas(ig) > 0
    ensures instances != []
    ensures var last := instances[|instances| - 1];
            && last.index == |instances| - 1
            && Matches(last, ig.azs, PodIndex(ig, Zones(ig) - 1, Replicas(ig) - 1))
  {
    var z, i := Zones(ig) - 1, Replicas(ig) - 1;
    var k := FindsSome(nm, ig, jobName, false, instances, z, i);
    LastIndex(Zones(ig), Replicas(ig), z, i);
  }

  lemma LastIsFound(nm: Naming, ig: Group, jobName: string, instances: seq<JobInstance>)
    requires ListsInstances(nm, ig, jobName, false, instances, CellsOf(ig))
    requires Replicas(ig) > 0 && LastZoneIsUnique(ig.azs)
    ensures var found := Lookup(instances, ig.azs, PodIndex(ig, Zones(ig) - 1, Replicas(ig) - 1));
            found.Some? && found.value.index == |instances| - 1
  {
    LastIsListed(nm, ig, jobName, instances);
    NoneBeforeLast(nm, ig, jobName, instances, |instances| - 1);
    LookupOfFirst(instances, ig.azs, PodIndex(ig, Zones(ig) - 1, Replicas(ig) - 1), |instances| - 1);
  }

  /** The last instance is found by no pod but the last one, and by that one unless it is hidden. */
  lemma LastIsFoundIff(nm: Naming, ig: Group, jobName: string, instances: seq<JobInstance>, z: nat, i: nat)
    requires ListsInstances(nm, ig, jobName, false, instances, CellsOf(ig))
    requires z < Zones(ig) && i < Replicas(ig)
    ensures var found := Lookup(instances, ig.azs, PodIndex(ig, z, i));
            && found.Some?
            && (found.value.index == |instances| - 1 <==>
                  z == Zones(ig) - 1 && i == Replicas(ig) - 1 && LastZoneIsUnique(ig.azs))
  {
    var k := FindsSome(nm, ig, jobName, false, instances, z, i);
    FoundBy(nm, ig, jobName, false, instances, PodIndex(ig, z, i), k);
    LastIndex(Zones(ig), Replicas(ig), z, i);
    if k == |instances| - 1 {
      if LastZoneIsUnique(ig.azs) {
        LastIsFound(nm, ig, jobName, instances);
      } else {
        LastIsHidden(nm, ig, jobName, instances, z, i);
      }
    }
  }

  /** Which instance was found decides whether it is the bootstrap one. */
  lemma FoundIsBootstrap(nm: Naming, ig: Group, jobName: string, instances: seq<JobInstance>, z: nat, i: nat)
    requires ListsInstances(nm, ig, jobName, false, instances, CellsOf(ig))
    requires z < Zones(ig) && i < Replicas(ig)
    ensures var found := Lookup(instances, ig.azs, PodIndex(ig, z, i));
            found.Some? && (found.value.bootstrap <==> found.value.index == |instances| - 1)
  {
    var k := FindsSome(nm, ig, jobName, false, instances, z, i);
    LookupIsFirst(instances, ig.azs, PodIndex(ig, z, i), k);
  }

  lemma NoneBeforeLast(nm: Naming, ig: Group, jobName: string, instances: seq<JobInstance>, k: nat)
    requires ListsInstances(nm, ig, jobName, false, instances, CellsOf(ig)) && LastZoneIsUnique(ig.azs)
    requires k == |instances| - 1 && Replicas(ig) > 0
    ensures forall j | 0 <= j < k :: !Matches(instances[j], ig.azs, PodIndex(ig, Zones(ig) - 1, Replicas(ig) - 1))
  {
    forall j | 0 <= j < k
      ensures !Matches(instances[j], ig.azs, PodIndex(ig, Zones(ig) - 1, Replicas(ig) - 1))
    {
      CellsAreInRange(Zones(ig), Replicas(ig), j);
      var (y, l) := CellsOf(ig)[j];
      LastIndex(Zones(ig), Replicas(ig), y, l);
      EarlierDoesNotMatch(nm, ig, jobName, y, l);
    }
  }

  lemma EarlierDoesNotMatch(nm: Naming, ig: Group, jobName: string, y: nat, l: nat)
    requires LastZoneIsUnique(ig.azs) && y < Zones(ig) && l < Replicas(ig)
    requires y != Zones(ig) - 1 || l != Replicas(ig) - 1
    ensures !Matches(InstanceAt(nm, ig, jobName, false, (y, l)), ig.azs,
                     PodIndex(ig, Zones(ig) - 1, Replicas(ig) - 1))
  {
    if ig.azs != [] {
      forall a | 0 <= a < |ig.azs| && ig.azs[y] == ig.azs[a]
        ensures Of(a + 1, l) != Of(|ig.azs|, Replicas(ig) - 1)
      {
        assert forall j | 0 <= j < |ig.azs| - 1 :: ig.azs[..|ig.azs| - 1][j] == ig.azs[j];
      }
    }
  }

  /**
   Later on a pod does when it is in the last zone, its ordinal reaches the number it is told,
   and no earlier zone is called like the last one.
   */
  lemma BootstrapLater(nm: Naming, g: Group, jobName: string, replicas: int, z: nat, i: nat)
    requires z < Zones(g)
    ensures RendersBootstrap(nm, g, jobName, false, replicas, z, i) <==>
            z == Zones(g) - 1 && i + 1 >= replicas && LastZoneIsUnique(g.azs)
  {
    var ig := g.(instances := Adapted(replicas, i));
    var instances := InstancesOf(nm, ig, jobName, false);
    InstancesAreListed(nm, ig, jobName, false, instances);
    LastIsFoundIff(nm, ig, jobName, instances, z, i);
    FoundIsBootstrap(nm, ig, jobName, instances, z, i);
  }

  lemma BootstrapPodsLater(nm: Naming, g: Group, jobName: string, told: (nat, nat) -> int, pods: nat, c: (nat, nat))
    ensures c in BootstrapPods(nm, g, jobName, false, told, pods) <==>
            LastZoneIsUnique(g.azs) && c.0 == Zones(g) - 1 && c.1 < pods && c.1 + 1 >= told(c.0, c.1)
  {
    IsPod(g, pods, c);
    if c.0 < Zones(g) {
      BootstrapLater(nm, g, jobName, told(c.0, c.1), c.0, c.1);
    }
  }

  /**
   After the initial rollout, with `pods` pods per zone that are all told the same number,
   exactly one pod renders itself as bootstrap if and only if no earlier zone is called like
   the last one and the number is that of the pods (a single pod may also be told less).
   */
  lemma OneBootstrapPodLaterIff(nm: Naming, g: Group, jobName: string, told: (nat, nat) -> int,
                                replicas: int, pods: nat)
    requires pods > 0 && forall z: nat, i: nat :: told(z, i) == replicas
    ensures |BootstrapPods(nm, g, jobName, false, told, pods)| == 1 <==>
            LastZoneIsUnique(g.azs) && (replicas == pods || (pods == 1 && replicas <= 1))
  {
    var s := BootstrapPods(nm, g, jobName, false, told, pods);
    forall c: (nat, nat)
      ensures c in s <==> LastZoneIsUnique(g.azs) && c.0 == Zones(g) - 1 && c.1 < pods && c.1 + 1 >= replicas
    {
      BootstrapPodsLater(nm, g, jobName, told, pods, c);
    }
    if LastZoneIsUnique(g.azs) {
      TopOrdinals(s, Zones(g) - 1, replicas, pods);
    } else {
      assert s == {};
    }
  }

  /** Two zones of the same name: two bootstrap pods at the initial rollout, and none later on. */
  lemma RepeatedZoneBreaksBootstrap(nm: Naming, jobName: string)
    ensures var g := Group("api", 1, ["z", "z"]);
            && BootstrapPods(nm, g, jobName, true, (_, _) => 1, 1) == {(0, 0), (1, 0)}
            && BootstrapPods(nm, g, jobName, false, (_, _) => 1, 1) == {}
  {
    var g := Group("api", 1, ["z", "z"]);
    var told: (nat, nat) -> int := (_, _) => 1;
    assert g.azs[..1][0] == g.azs[1] && !LastZoneIsUnique(g.azs);
    forall c: (nat, nat)
      ensures c in BootstrapPods(nm, g, jobName, true, told, 1) <==> c.0 < 2 && c.1 == 0
      ensures c !in BootstrapPods(nm, g, jobName, false, told, 1)
    {
      BootstrapPodsLater(nm, g, jobName, told, 1, c);
      IsPod(g, 1, c);
      if c.0 < 2 {
        BootstrapAtFirst(nm, g, jobName, 1, c.0, c.1);
        FirstMatches(nm, g.(instances := Adapted(1, c.1)), jobName, c.0, c.1);
      }
    }
  }

  lemma TopOrdinals(s: set<(nat, nat)>, z: nat, replicas: int, pods: nat)
    requires pods > 0 && forall c: (nat, nat) :: c in s <==> c.0 == z && c.1 < pods && c.1 + 1 >= replicas
    ensures |s| == 1 <==> replicas == pods || (pods == 1 && replicas <= 1)
  {
    var top: (nat, nat) := (z, pods - 1);
    if replicas > pods {
      assert s == {};
    } else {
      assert top in s;
      assert |s| == |s - {top}| + 1;
      if replicas == pods || pods == 1 {
        assert s - {top} == {};
      } else {
        var below: (nat, nat) := (z, pods - 2);
        assert below in s - {top};
      }
    }
  }
}
