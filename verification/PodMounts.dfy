/** Mount integrity of a whole pod: what its containers mount, its volumes provide. */
module PodMounts {
  import opened Wrappers
  import opened Mounts
  import opened Disks
  import opened Containers

  /** What decides the disks of a pod; `custom` are the disks of the agent settings. */
  datatype Pod = Pod(nm: Naming, jobs: seq<Job>, configs: Configs, asClaim: bool, custom: seq<Disk>)

  function BpmDisksOf(pod: Pod): seq<Disk> {
    BPMDisks(pod.nm, pod.jobs, pod.configs, pod.asClaim) + pod.custom
  }

  function AllDisks(pod: Pod): seq<Disk> {
    DefaultDisks(pod.nm) + BpmDisksOf(pod)
  }

  /** The volumes of the pod spec. */
  function Declared(pod: Pod): seq<string> {
    Volumes(DefaultDisks(pod.nm)) + Volumes(BpmDisksOf(pod))
  }

  ghost predicate Mounted(ms: seq<VolumeMount>, volumes: seq<string>) {
    forall i | 0 <= i < |ms| :: ms[i].name in volumes
  }

  predicate Rooted(path: string) {
    HasPrefix(path, DATA_PATH) || HasPrefix(path, STORE_PATH) || HasPrefix(path, SYS_PATH)
  }

  /** `path` is an additional volume of some process, given as such or moved there from the unrestricted ones. */
  ghost predicate AdditionalPath(pod: Pod, path: string) {
    exists job, p, v :: IsAdditional(pod, job, p, v) && v.path == path
  }

  ghost predicate IsAdditional(pod: Pod, job: Job, p: Process, v: BpmVolume) {
    job in pod.jobs && p in ProcessesOf(pod.configs, job) && v in AllAdditional(p)
  }

  ghost predicate SomePersistent(pod: Pod) {
    exists job | job in pod.jobs :: AnyPersistent(ProcessesOf(pod.configs, job))
  }

  // ---------------------------------------------------------------- where disks come from

  ghost predicate AdditionalOf(nm: Naming, job: Job, p: Process, d: Disk) {
    exists v | v in AllAdditional(p) :: d == AdditionalDisk(nm, job, p, v)
  }

  /** The disk of the `i`-th unrestricted volume that is left to the process. */
  ghost predicate IsKept(nm: Naming, job: Job, p: Process, i: nat, d: Disk) {
    i < |Kept(p.unrestricted)| && d == UnrestrictedDisk(nm, job, p, Kept(p.unrestricted)[i], i)
  }

  ghost predicate UnrestrictedOf(nm: Naming, job: Job, p: Process, d: Disk) {
    exists i: nat :: IsKept(nm, job, p, i, d)
  }

  lemma InAdditionalDisks(nm: Naming, job: Job, p: Process, d: Disk)
    ensures d in AdditionalDisks(nm, job, p, AllAdditional(p)) <==> AdditionalOf(nm, job, p, d)
  {
    var vs := AllAdditional(p);
    var a := AdditionalDisks(nm, job, p, vs);
    if d in a {
      var i :| 0 <= i < |a| && a[i] == d;
      assert vs[i] in vs;
    }
    if v :| v in vs && d == AdditionalDisk(nm, job, p, v) {
      var i :| 0 <= i < |vs| && vs[i] == v;
      assert a[i] == d;
    }
  }

  lemma InUnrestrictedDisks(nm: Naming, job: Job, p: Process, d: Disk)
    ensures d in UnrestrictedDisks(nm, job, p, Kept(p.unrestricted)) <==> UnrestrictedOf(nm, job, p, d)
  {
    var u := UnrestrictedDisks(nm, job, p, Kept(p.unrestricted));
    if d in u {
      var i: nat :| i < |u| && u[i] == d;
      assert IsKept(nm, job, p, i, d);
    }
    if i: nat :| IsKept(nm, job, p, i, d) {
      assert u[i] == d;
    }
  }

  lemma InProcessDisks(nm: Naming, job: Job, p: Process, d: Disk)
    ensures d in ProcessDisks(nm, job, p) <==> AdditionalOf(nm, job, p, d) || UnrestrictedOf(nm, job, p, d)
  {
    InAdditionalDisks(nm, job, p, d);
    InUnrestrictedDisks(nm, job, p, d);
  }

  lemma {:induction false} FindProcess(nm: Naming, job: Job, ps: seq<Process>, d: Disk) returns (k: nat)
    requires d in DisksOfProcesses(nm, job, ps)
    ensures k < |ps| && d in ProcessDisks(nm, job, ps[k])
    decreases |ps|
  {
    var before, n := ps[..|ps| - 1], |ps| - 1;
    if d in ProcessDisks(nm, job, ps[n]) {
      k := n;
    } else {
      k := FindProcess(nm, job, before, d);
    }
  }

  lemma {:induction false} ProcessIsIn(nm: Naming, job: Job, ps: seq<Process>, k: nat, d: Disk)
    requires k < |ps| && d in ProcessDisks(nm, job, ps[k])
    ensures d in DisksOfProcesses(nm, job, ps)
    decreases |ps|
  {
    if k == |ps| - 1 {
    } else {
      ProcessIsIn(nm, job, ps[..|ps| - 1], k, d);
    }
  }

  lemma {:induction false} FindJob(nm: Naming, jobs: seq<Job>, configs: Configs, asClaim: bool, d: Disk)
    returns (k: nat)
    requires d in BPMDisks(nm, jobs, configs, asClaim)
    ensures k < |jobs| && d in JobDisks(nm, jobs[k], ProcessesOf(configs, jobs[k]), asClaim)
    decreases |jobs|
  {
    var before, n := jobs[..|jobs| - 1], |jobs| - 1;
    if d in BPMDisks(nm, before, configs, asClaim) {
      k := FindJob(nm, before, configs, asClaim, d);
    } else {
      k := n;
    }
  }

  lemma {:induction false} JobIsIn(nm: Naming, jobs: seq<Job>, configs: Configs, asClaim: bool, k: nat, d: Disk)
    requires k < |jobs| && d in JobDisks(nm, jobs[k], ProcessesOf(configs, jobs[k]), asClaim)
    ensures d in BPMDisks(nm, jobs, configs, asClaim)
    decreases |jobs|
  {
    if k == |jobs| - 1 {
    } else {
      JobIsIn(nm, jobs[..|jobs| - 1], configs, asClaim, k, d);
    }
  }

  /** The kinds of generated disks. */
  ghost predicate OfAdditional(pod: Pod, d: Disk) {
    exists job, p, v :: IsAdditional(pod, job, p, v) && d == AdditionalDisk(pod.nm, job, p, v)
  }

  ghost predicate IsUnrestricted(pod: Pod, job: Job, p: Process, i: nat, d: Disk) {
    job in pod.jobs && p in ProcessesOf(pod.configs, job) && IsKept(pod.nm, job, p, i, d)
  }

  ghost predicate OfUnrestricted(pod: Pod, d: Disk) {
    exists job, p, i: nat :: IsUnrestricted(pod, job, p, i, d)
  }

  ghost predicate OfEphemeral(pod: Pod, d: Disk) {
    exists job | job in pod.jobs :: AnyEphemeral(ProcessesOf(pod.configs, job)) &&
      d == EphemeralDisk(pod.nm, job, pod.asClaim)
  }

  ghost predicate OfPersistent(pod: Pod, d: Disk) {
    exists job | job in pod.jobs :: AnyPersistent(ProcessesOf(pod.configs, job)) && d == PersistentDisk(pod.nm, job)
  }

  ghost predicate IsGenerated(pod: Pod, d: Disk) {
    d in BPMDisks(pod.nm, pod.jobs, pod.configs, pod.asClaim)
  }

  lemma GeneratedForJob(pod: Pod, job: Job, d: Disk)
    requires job in pod.jobs && d in JobDisks(pod.nm, job, ProcessesOf(pod.configs, job), pod.asClaim)
    ensures IsGenerated(pod, d)
  {
    var k :| 0 <= k < |pod.jobs| && pod.jobs[k] == job;
    JobIsIn(pod.nm, pod.jobs, pod.configs, pod.asClaim, k, d);
  }

  lemma GeneratedForProcess(pod: Pod, job: Job, p: Process, d: Disk)
    requires job in pod.jobs && p in ProcessesOf(pod.configs, job) && d in ProcessDisks(pod.nm, job, p)
    ensures IsGenerated(pod, d)
  {
    var ps := ProcessesOf(pod.configs, job);
    var k :| 0 <= k < |ps| && ps[k] == p;
    ProcessIsIn(pod.nm, job, ps, k, d);
    GeneratedForJob(pod, job, d);
  }

  lemma AdditionalIsADisk(pod: Pod, job: Job, p: Process, v: BpmVolume)
    requires IsAdditional(pod, job, p, v)
    ensures IsGenerated(pod, AdditionalDisk(pod.nm, job, p, v))
  {
    InProcessDisks(pod.nm, job, p, AdditionalDisk(pod.nm, job, p, v));
    GeneratedForProcess(pod, job, p, AdditionalDisk(pod.nm, job, p, v));
  }

  lemma UnrestrictedIsADisk(pod: Pod, job: Job, p: Process, i: nat, d: Disk)
    requires IsUnrestricted(pod, job, p, i, d)
    ensures IsGenerated(pod, d)
  {
    InProcessDisks(pod.nm, job, p, d);
    GeneratedForProcess(pod, job, p, d);
  }

  lemma OneOfTheKinds(pod: Pod, job: Job, p: Process, d: Disk)
    requires job in pod.jobs && p in ProcessesOf(pod.configs, job) && d in ProcessDisks(pod.nm, job, p)
    ensures OfAdditional(pod, d) || OfUnrestricted(pod, d)
  {
    InProcessDisks(pod.nm, job, p, d);
    if v :| v in AllAdditional(p) && d == AdditionalDisk(pod.nm, job, p, v) {
      assert IsAdditional(pod, job, p, v);
    } else {
      var i: nat :| IsKept(pod.nm, job, p, i, d);
      assert IsUnrestricted(pod, job, p, i, d);
    }
  }

  lemma GeneratedIsOfAKind(pod: Pod, d: Disk)
    requires IsGenerated(pod, d)
    ensures OfAdditional(pod, d) || OfUnrestricted(pod, d) || OfEphemeral(pod, d) || OfPersistent(pod, d)
  {
    var i := FindJob(pod.nm, pod.jobs, pod.configs, pod.asClaim, d);
    var job, ps := pod.jobs[i], ProcessesOf(pod.configs, pod.jobs[i]);
    if d in DisksOfProcesses(pod.nm, job, ps) {
      var k := FindProcess(pod.nm, job, ps, d);
      OneOfTheKinds(pod, job, ps[k], d);
    } else {
      assert job in pod.jobs;
    }
  }

  /** The generated disks are those of the additional and unrestricted volumes and of the disks that jobs ask for. */
  lemma KindsOfDisks(pod: Pod, d: Disk)
    ensures IsGenerated(pod, d) <==>
            OfAdditional(pod, d) || OfUnrestricted(pod, d) || OfEphemeral(pod, d) || OfPersistent(pod, d)
  {
    if IsGenerated(pod, d) {
      GeneratedIsOfAKind(pod, d);
    } else if OfAdditional(pod, d) {
      var job, p, v :| IsAdditional(pod, job, p, v) && d == AdditionalDisk(pod.nm, job, p, v);
      AdditionalIsADisk(pod, job, p, v);
    } else if OfUnrestricted(pod, d) {
      var job, p, i: nat :| IsUnrestricted(pod, job, p, i, d);
      UnrestrictedIsADisk(pod, job, p, i, d);
    } else if OfEphemeral(pod, d) {
      var job :| job in pod.jobs && AnyEphemeral(ProcessesOf(pod.configs, job)) &&
                 d == EphemeralDisk(pod.nm, job, pod.asClaim);
      GeneratedForJob(pod, job, d);
    } else if OfPersistent(pod, d) {
      var job :| job in pod.jobs && AnyPersistent(ProcessesOf(pod.configs, job)) && d == PersistentDisk(pod.nm, job);
      GeneratedForJob(pod, job, d);
    }
  }

  // ---------------------------------------------------------------- every mount has its volume

  ghost predicate TakenByUnrestricted(pod: Pod, v: string) {
    exists d :: OfUnrestricted(pod, d) && d.volume == Some(v)
  }

  ghost predicate TakenByCustom(pod: Pod, v: string) {
    exists d | d in pod.custom :: d.volume == Some(v)
  }

  /** Where a volume of that name can come from. */
  ghost predicate Supplied(pod: Pod, v: string) {
    || v in DefaultVolumes(pod.nm)
    || (v == pod.nm.claim && SomePersistent(pod))
    || TakenByUnrestricted(pod, v)
    || TakenByCustom(pod, v)
  }

  lemma IsDeclared(pod: Pod, v: string)
    ensures v in Declared(pod) <==>
            v in DefaultVolumes(pod.nm) || exists d | d in BpmDisksOf(pod) :: d.volume == Some(v)
  {
    DefaultsOf(pod.nm);
    VolumesAreExact(BpmDisksOf(pod), v);
  }

  lemma DeclaredIsSupplied(pod: Pod, v: string)
    requires v in Declared(pod)
    ensures Supplied(pod, v)
  {
    IsDeclared(pod, v);
    if v !in DefaultVolumes(pod.nm) {
      var d :| d in BpmDisksOf(pod) && d.volume == Some(v);
      if d !in pod.custom {
        KindsOfDisks(pod, d);
      }
    }
  }

  lemma SuppliedIsDeclared(pod: Pod, v: string)
    requires Supplied(pod, v)
    ensures v in Declared(pod)
  {
    IsDeclared(pod, v);
    if v in DefaultVolumes(pod.nm) {
    } else if v == pod.nm.claim && SomePersistent(pod) {
      var job :| job in pod.jobs && AnyPersistent(ProcessesOf(pod.configs, job));
      GeneratedForJob(pod, job, PersistentDisk(pod.nm, job));
      assert PersistentDisk(pod.nm, job) in BpmDisksOf(pod);
    } else if TakenByUnrestricted(pod, v) {
      var d :| OfUnrestricted(pod, d) && d.volume == Some(v);
      KindsOfDisks(pod, d);
      assert d in BpmDisksOf(pod);
    } else {
      var d :| d in pod.custom && d.volume == Some(v);
      assert d in BpmDisksOf(pod);
    }
  }

  /** The volumes of the pod are the default ones, the claim, and those of unrestricted volumes and custom disks. */
  lemma DeclaredIff(pod: Pod, v: string)
    ensures v in Declared(pod) <==> Supplied(pod, v)
  {
    if v in Declared(pod) {
      DeclaredIsSupplied(pod, v);
    }
    if Supplied(pod, v) {
      SuppliedIsDeclared(pod, v);
    }
  }

  ghost predicate CustomBacked(pod: Pod) {
    forall d | d in pod.custom && d.mount.Some? :: Supplied(pod, d.mount.value.name)
  }

  /** No volume is chosen for a path outside the three directories, and the claim for one in the store. */
  ghost predicate IsBacked(pod: Pod, path: string) {
    && (Rooted(path) || Supplied(pod, ""))
    && (HasPrefix(path, STORE_PATH) ==> Supplied(pod, pod.nm.claim))
  }

  ghost predicate PathsBacked(pod: Pod) {
    forall path | AdditionalPath(pod, path) :: IsBacked(pod, path)
  }

  lemma AdditionalIsBackedIff(pod: Pod, path: string)
    ensures AdditionalVolume(pod.nm, path) in Declared(pod) <==> IsBacked(pod, path)
  {
    DeclaredIff(pod, AdditionalVolume(pod.nm, path));
    assert STORE_PATH[11] == 't' && SYS_PATH[11] == 'y';
  }

  lemma DefaultsAreDeclared(pod: Pod, v: string)
    requires v in DefaultVolumes(pod.nm)
    ensures v in Declared(pod)
  {
    IsDeclared(pod, v);
  }

  lemma GeneratedIsDeclared(pod: Pod, d: Disk)
    requires PathsBacked(pod) && IsGenerated(pod, d)
    ensures d.mount.Some? && d.mount.value.name in Declared(pod)
  {
    KindsOfDisks(pod, d);
    if OfAdditional(pod, d) {
      var job, p, v :| IsAdditional(pod, job, p, v) && d == AdditionalDisk(pod.nm, job, p, v);
      assert AdditionalPath(pod, v.path);
      AdditionalIsBackedIff(pod, v.path);
    } else if OfEphemeral(pod, d) {
      DefaultsAreDeclared(pod, pod.nm.dataDir);
    } else {
      assert d in BpmDisksOf(pod);
      IsDeclared(pod, d.mount.value.name);
    }
  }

  /** Every mount of every disk names a volume of the pod. */
  ghost predicate Integrity(pod: Pod) {
    forall d | d in AllDisks(pod) && d.mount.Some? :: d.mount.value.name in Declared(pod)
  }

  lemma BackedIsIntegral(pod: Pod)
    requires PathsBacked(pod) && CustomBacked(pod)
    ensures Integrity(pod)
  {
    forall d | d in AllDisks(pod) && d.mount.Some? ensures d.mount.value.name in Declared(pod) {
      if d in DefaultDisks(pod.nm) {
        DefaultsAreDeclared(pod, d.mount.value.name);
      } else if IsGenerated(pod, d) {
        GeneratedIsDeclared(pod, d);
      } else {
        DeclaredIff(pod, d.mount.value.name);
      }
    }
  }

  lemma IntegralIsBacked(pod: Pod)
    requires Integrity(pod)
    ensures PathsBacked(pod) && CustomBacked(pod)
  {
    forall path | AdditionalPath(pod, path) ensures IsBacked(pod, path) {
      var job, p, v :| IsAdditional(pod, job, p, v) && v.path == path;
      AdditionalIsADisk(pod, job, p, v);
      assert AdditionalDisk(pod.nm, job, p, v) in AllDisks(pod);
      AdditionalIsBackedIff(pod, path);
    }
    forall d | d in pod.custom && d.mount.Some? ensures Supplied(pod, d.mount.value.name) {
      assert d in AllDisks(pod);
      DeclaredIff(pod, d.mount.value.name);
    }
  }

  /**
   Every mount of a pod's disks names one of its volumes if and only if each additional path
   lies in the data, store or sys directory (or some volume has the empty name), the claim is
   supplied whenever a store path is used, and the custom disks name volumes that are supplied.
   */
  lemma IntegrityIff(pod: Pod)
    ensures Integrity(pod) <==> PathsBacked(pod) && CustomBacked(pod)
  {
    if Integrity(pod) {
      IntegralIsBacked(pod);
    }
    if PathsBacked(pod) && CustomBacked(pod) {
      BackedIsIntegral(pod);
    }
  }

  /** Only the persistent disks and the custom ones have the claim's name, and nothing has the empty one. */
  ghost predicate NamesApart(pod: Pod) {
    && pod.nm.claim !in DefaultVolumes(pod.nm) && !TakenByUnrestricted(pod, pod.nm.claim)
    && pod.nm.claim != "" && !Supplied(pod, "")
  }

  /** With such names: the paths are rooted, and a persistent or custom disk brings the claim for a store path. */
  lemma PlainIntegrityIff(pod: Pod)
    requires NamesApart(pod)
    ensures Integrity(pod) <==>
            && CustomBacked(pod)
            && forall path | AdditionalPath(pod, path) ::
                 && Rooted(path)
                 && (HasPrefix(path, STORE_PATH) ==> SomePersistent(pod) || TakenByCustom(pod, pod.nm.claim))
  {
    IntegrityIff(pod);
    if PathsBacked(pod) {
      forall path | AdditionalPath(pod, path)
        ensures && Rooted(path)
                && (HasPrefix(path, STORE_PATH) ==> SomePersistent(pod) || TakenByCustom(pod, pod.nm.claim))
      {
        assert IsBacked(pod, path);
      }
    }
  }

  // ---------------------------------------------------------------- containers

  /** The factory that the converter makes for the pod. */
  function FactoryOf(pod: Pod, errand: bool, disableLogSidecar: bool, hasImage: string -> bool): Factory {
    Factory(pod.nm, errand, disableLogSidecar, hasImage, pod.configs,
            VolumeMounts(DefaultDisks(pod.nm)), BpmDisksOf(pod))
  }

  ghost predicate HasDisk(pod: Pod, m: VolumeMount) {
    exists d | d in AllDisks(pod) :: d.mount == Some(m)
  }

  /** All mounts come from disks of the pod. */
  ghost predicate FromDisks(pod: Pod, ms: seq<VolumeMount>) {
    forall i | 0 <= i < |ms| :: HasDisk(pod, ms[i])
  }

  lemma MountsFromDisks(pod: Pod, ds: seq<Disk>)
    requires forall i | 0 <= i < |ds| :: ds[i] in AllDisks(pod)
    ensures FromDisks(pod, VolumeMounts(ds))
  {
    var ms := VolumeMounts(ds);
    forall i | 0 <= i < |ms| ensures HasDisk(pod, ms[i]) {
      MountsAreExact(ds, ms[i]);
    }
  }

  lemma DeduplicatedFromDisks(pod: Pod, ms: seq<VolumeMount>)
    requires FromDisks(pod, ms)
    ensures FromDisks(pod, Deduplicated(ms))
  {
    DeduplicatedIsExact(ms);
    var r := Deduplicated(ms);
    forall i | 0 <= i < |r| ensures HasDisk(pod, r[i]) {
      assert FirstWithPath(ms, r[i]);
    }
  }

  lemma ExtrasFromDisks(pod: Pod, f: Factory, job: Job, p: Process)
    requires f.bpmDisks == BpmDisksOf(pod)
    ensures var e := ExtraFor(f, job, p);
            FromDisks(pod, e.mounts) && FromDisks(pod, Optional(e.ephemeral)) && FromDisks(pod, Optional(e.persistent))
  {
    var jobDisks := JobDisksOf(f, job);
    forall d | d in jobDisks ensures d in AllDisks(pod) {
      FilteredIsExact(f.bpmDisks, "job_name", job.name, d);
    }
    FilteredFromDisks(pod, jobDisks, "process_name", p.name);
    FilteredFromDisks(pod, jobDisks, "ephemeral", "true");
    FilteredFromDisks(pod, jobDisks, "persistent", "true");
  }

  lemma FilteredFromDisks(pod: Pod, ds: seq<Disk>, key: string, value: string)
    requires forall d | d in ds :: d in AllDisks(pod)
    ensures FromDisks(pod, VolumeMounts(Filtered(ds, key, value)))
    ensures FromDisks(pod, Optional(FirstMount(Filtered(ds, key, value))))
  {
    var r := Filtered(ds, key, value);
    forall i | 0 <= i < |r| ensures r[i] in AllDisks(pod) {
      FilteredIsExact(ds, key, value, r[i]);
    }
    MountsFromDisks(pod, r);
  }

  lemma BothFromDisks(pod: Pod, a: seq<VolumeMount>, b: seq<VolumeMount>)
    requires FromDisks(pod, a) && FromDisks(pod, b)
    ensures FromDisks(pod, a + b)
  {
  }

  lemma ProcessMountsFromDisks(pod: Pod, f: Factory, job: Job, p: Process)
    requires f.bpmDisks == BpmDisksOf(pod) && f.defaults == VolumeMounts(DefaultDisks(pod.nm))
    ensures FromDisks(pod, ProcessMounts(f, job, p))
  {
    ExtrasFromDisks(pod, f, job, p);
    MountsFromDisks(pod, DefaultDisks(pod.nm));
    var e := ExtraFor(f, job, p);
    BothFromDisks(pod, f.defaults, e.mounts);
    BothFromDisks(pod, f.defaults + e.mounts, Optional(e.ephemeral));
    BothFromDisks(pod, f.defaults + e.mounts + Optional(e.ephemeral), Optional(e.persistent));
    DeduplicatedFromDisks(pod, f.defaults + e.mounts + Optional(e.ephemeral) + Optional(e.persistent));
  }

  lemma PreStartMountsFromDisks(pod: Pod, f: Factory)
    requires f.bpmDisks == BpmDisksOf(pod) && f.defaults == VolumeMounts(DefaultDisks(pod.nm))
    ensures FromDisks(pod, PreStartMounts(f))
  {
    MountsFromDisks(pod, DefaultDisks(pod.nm));
    MountsFromDisks(pod, f.bpmDisks);
    BothFromDisks(pod, f.defaults, VolumeMounts(f.bpmDisks));
    DeduplicatedFromDisks(pod, f.defaults + VolumeMounts(f.bpmDisks));
  }

  lemma FromDisksIsMounted(pod: Pod, ms: seq<VolumeMount>)
    requires Integrity(pod) && FromDisks(pod, ms)
    ensures Mounted(ms, Declared(pod))
  {
    forall i | 0 <= i < |ms| ensures ms[i].name in Declared(pod) {
      assert HasDisk(pod, ms[i]);
    }
  }

  /** The drain-stamps directory is mounted, and no path is mounted twice. */
  ghost predicate WellMounted(ms: seq<VolumeMount>, volumes: seq<string>) {
    Mounted(ms, volumes) && Plain(DRAIN_STAMPS, DRAIN_STAMPS_PATH) in ms && DistinctPaths(ms)
  }

  lemma DefaultsStay(nm: Naming, rest: seq<VolumeMount>)
    ensures Plain(DRAIN_STAMPS, DRAIN_STAMPS_PATH) in Deduplicated(DefaultMounts(nm) + rest)
    ensures DistinctPaths(Deduplicated(DefaultMounts(nm) + rest))
  {
    DefaultPathsDiffer(nm);
    FrontStays(DefaultMounts(nm), rest);
    DeduplicatedIsExact(DefaultMounts(nm) + rest);
    assert Deduplicated(DefaultMounts(nm) + rest)[4] == DefaultMounts(nm)[4];
  }

  lemma ContainerMountsKeepDefaults(nm: Naming, e: Extra)
    ensures Plain(DRAIN_STAMPS, DRAIN_STAMPS_PATH) in ContainerMounts(DefaultMounts(nm), e)
    ensures DistinctPaths(ContainerMounts(DefaultMounts(nm), e))
  {
    var rest := e.mounts + Optional(e.ephemeral) + Optional(e.persistent);
    assert DefaultMounts(nm) + e.mounts + Optional(e.ephemeral) + Optional(e.persistent) == DefaultMounts(nm) + rest;
    DefaultsStay(nm, rest);
  }

  lemma ProcessIsWellMounted(pod: Pod, f: Factory, job: Job, p: Process)
    requires Integrity(pod) && f.nm == pod.nm
    requires f.bpmDisks == BpmDisksOf(pod) && f.defaults == VolumeMounts(DefaultDisks(pod.nm))
    ensures WellMounted(ProcessMounts(f, job, p), Declared(pod))
  {
    ProcessMountsFromDisks(pod, f, job, p);
    FromDisksIsMounted(pod, ProcessMounts(f, job, p));
    DefaultsOf(pod.nm);
    ContainerMountsKeepDefaults(pod.nm, ExtraFor(f, job, p));
  }

  ghost predicate AllWellMounted(cs: seq<Container>, volumes: seq<string>) {
    forall i | 0 <= i < |cs| :: WellMounted(cs[i].mounts, volumes)
  }

  ghost predicate AllMounted(cs: seq<Container>, volumes: seq<string>) {
    forall i | 0 <= i < |cs| :: Mounted(cs[i].mounts, volumes)
  }

  /** Every job container of an intact pod has its volumes, the drain stamps, and no path twice. */
  lemma {:induction false} JobContainersAreWellMounted(pod: Pod, f: Factory, jobs: seq<Job>, count: nat)
    requires Integrity(pod) && f.nm == pod.nm
    requires f.bpmDisks == BpmDisksOf(pod) && f.defaults == VolumeMounts(DefaultDisks(pod.nm))
    ensures AllWellMounted(ContainersOf(f, jobs, count), Declared(pod))
    decreases |jobs|
  {
    if jobs == [] {
    } else {
      var before, last := jobs[..|jobs| - 1], jobs[|jobs| - 1];
      var ps := ProcessesOf(f.configs, last);
      JobContainersAreWellMounted(pod, f, before, count);
      forall i | 0 <= i < |ps| ensures WellMounted(JobContainers(f, last, ps, count)[i].mounts, Declared(pod)) {
        ProcessIsWellMounted(pod, f, last, ps[i]);
      }
    }
  }

  lemma {:induction false} BpmPreStartsAreMounted(pod: Pod, f: Factory, job: Job, ps: seq<Process>)
    requires Integrity(pod) && f.nm == pod.nm
    requires f.bpmDisks == BpmDisksOf(pod) && f.defaults == VolumeMounts(DefaultDisks(pod.nm))
    ensures AllMounted(BpmPreStarts(f, job, ps), Declared(pod))
    decreases |ps|
  {
    if ps == [] {
    } else {
      BpmPreStartsAreMounted(pod, f, job, ps[..|ps| - 1]);
      ProcessIsWellMounted(pod, f, job, ps[|ps| - 1]);
    }
  }

  lemma {:induction false} AllBpmPreStartsAreMounted(pod: Pod, f: Factory, jobs: seq<Job>)
    requires Integrity(pod) && f.nm == pod.nm
    requires f.bpmDisks == BpmDisksOf(pod) && f.defaults == VolumeMounts(DefaultDisks(pod.nm))
    ensures AllMounted(AllBpmPreStarts(f, jobs), Declared(pod))
    decreases |jobs|
  {
    if jobs == [] {
    } else {
      AllBpmPreStartsAreMounted(pod, f, jobs[..|jobs| - 1]);
      BpmPreStartsAreMounted(pod, f, jobs[|jobs| - 1], ProcessesOf(f.configs, jobs[|jobs| - 1]));
    }
  }

  lemma {:induction false} SpecCopiersAreMounted(pod: Pod, f: Factory, jobs: seq<Job>)
    ensures AllMounted(SpecCopiers(f, jobs), Declared(pod))
    decreases |jobs|
  {
    if jobs == [] {
    } else {
      var before, release := jobs[..|jobs| - 1], jobs[|jobs| - 1].release;
      SpecCopiersAreMounted(pod, f, before);
      CopierIsMounted(pod, f, release);
      BothMounted(SpecCopiers(f, before), if release in Releases(before) then [] else [SpecCopier(f, release)],
                  Declared(pod));
    }
  }

  lemma BoshPreStartsAreMounted(pod: Pod, f: Factory, jobs: seq<Job>)
    requires Integrity(pod)
    requires f.bpmDisks == BpmDisksOf(pod) && f.defaults == VolumeMounts(DefaultDisks(pod.nm))
    ensures AllMounted(BoshPreStarts(f, jobs), Declared(pod))
  {
    PreStartMountsFromDisks(pod, f);
    FromDisksIsMounted(pod, PreStartMounts(f));
  }

  lemma BothMounted(a: seq<Container>, b: seq<Container>, volumes: seq<string>)
    requires AllMounted(a, volumes) && AllMounted(b, volumes)
    ensures AllMounted(a + b, volumes)
  {
  }

  lemma CopierIsMounted(pod: Pod, f: Factory, release: string)
    ensures AllMounted([SpecCopier(f, release)], Declared(pod)) && AllMounted([ContainerRunCopier()], Declared(pod))
  {
    DefaultsAreDeclared(pod, RENDERING_DATA);
  }

  lemma TemplateRenderIsMounted(pod: Pod, igName: string)
    ensures AllMounted([TemplateRender(igName)], Declared(pod))
  {
    DefaultsAreDeclared(pod, RENDERING_DATA);
    DefaultsAreDeclared(pod, JOBS_DIR);
    DefaultsAreDeclared(pod, IG_RESOLVED);
  }

  lemma CreateDirsIsMounted(pod: Pod, f: Factory)
    requires f.nm == pod.nm
    ensures AllMounted([CreateDirs(f)], Declared(pod)) && AllMounted([LogsTailer()], Declared(pod))
  {
    DefaultsAreDeclared(pod, pod.nm.dataDir);
    DefaultsAreDeclared(pod, SYS_DIR);
  }

  /**
   Pod mount integrity: in an intact pod every mount of every init container and of every main
   container names a volume of the pod, and each job container mounts the drain stamps and no
   path twice.
   */
  lemma PodIsWellMounted(pod: Pod, errand: bool, disableLogSidecar: bool, hasImage: string -> bool,
                         igName: string, required: Option<string>)
    requires Integrity(pod)
    ensures var f := FactoryOf(pod, errand, disableLogSidecar, hasImage);
            && AllMounted(InitContainers(f, pod.jobs, igName, required), Declared(pod))
            && AllMounted(MainContainers(f, pod.jobs), Declared(pod))
            && AllWellMounted(ContainersOf(f, pod.jobs, |DrainJobs(f, pod.jobs)|), Declared(pod))
  {
    var f := FactoryOf(pod, errand, disableLogSidecar, hasImage);
    var volumes := Declared(pod);
    JobContainersAreWellMounted(pod, f, pod.jobs, |DrainJobs(f, pod.jobs)|);
    CopierIsMounted(pod, f, "");
    TemplateRenderIsMounted(pod, igName);
    CreateDirsIsMounted(pod, f);
    BothMounted(ContainersOf(f, pod.jobs, |DrainJobs(f, pod.jobs)|),
                if disableLogSidecar then [] else [LogsTailer()], volumes);
    SpecCopiersAreMounted(pod, f, pod.jobs);
    BoshPreStartsAreMounted(pod, f, pod.jobs);
    AllBpmPreStartsAreMounted(pod, f, pod.jobs);
    var cs := SpecCopiers(f, pod.jobs);
    BothMounted(cs, [TemplateRender(igName)], volumes);
    cs := cs + [TemplateRender(igName)];
    BothMounted(cs, [CreateDirs(f)], volumes);
    cs := cs + [CreateDirs(f)];
    BothMounted(cs, WaitFor(required), volumes);
    cs := cs + WaitFor(required);
    BothMounted(cs, BoshPreStarts(f, pod.jobs), volumes);
    cs := cs + BoshPreStarts(f, pod.jobs);
    BothMounted(cs, AllBpmPreStarts(f, pod.jobs), volumes);
    cs := cs + AllBpmPreStarts(f, pod.jobs);
    BothMounted([ContainerRunCopier()], cs, volumes);
  }

  lemma PreStartIsListed(f: Factory, jobs: seq<Job>, igName: string, required: Option<string>) returns (k: nat)
    requires jobs != []
    ensures k < |InitContainers(f, jobs, igName, required)|
    ensures InitContainers(f, jobs, igName, required)[k] == BoshPreStart(f, jobs[0])
  {
    var before := SpecCopiers(f, jobs) + [TemplateRender(igName)] + [CreateDirs(f)] + WaitFor(required);
    k := |before| + if f.errand then 0 else 1;
    assert BoshPreStarts(f, jobs)[0] == BoshPreStart(f, jobs[0]);
    assert (before + BoshPreStarts(f, jobs) + AllBpmPreStarts(f, jobs))[|before|] == BoshPreStarts(f, jobs)[0];
  }

  /** Disks of the pod that are mounted at the same path name the same volume. */
  ghost predicate SharedPathsAgree(pod: Pod) {
    var ms := VolumeMounts(DefaultDisks(pod.nm)) + VolumeMounts(BpmDisksOf(pod));
    forall i, j | 0 <= i < j < |ms| && ms[i].mountPath == ms[j].mountPath :: ms[i].name == ms[j].name
  }

  /** What deduplication drops has the name of what it keeps. */
  lemma KeptUnderSameName(ms: seq<VolumeMount>, m: VolumeMount)
    requires forall i, j | 0 <= i < j < |ms| && ms[i].mountPath == ms[j].mountPath :: ms[i].name == ms[j].name
    requires m in ms
    ensures exists k | 0 <= k < |Deduplicated(ms)| :: Deduplicated(ms)[k].name == m.name
  {
    DeduplicatedIsExact(ms);
    assert m.mountPath in Paths(Deduplicated(ms));
    var k :| 0 <= k < |Deduplicated(ms)| && Deduplicated(ms)[k].mountPath == m.mountPath;
    assert FirstWithPath(ms, Deduplicated(ms)[k]);
  }

  lemma MountedIsIntegral(pod: Pod, f: Factory)
    requires f.bpmDisks == BpmDisksOf(pod) && f.defaults == VolumeMounts(DefaultDisks(pod.nm))
    requires SharedPathsAgree(pod) && Mounted(PreStartMounts(f), Declared(pod))
    ensures Integrity(pod)
  {
    var ms := f.defaults + VolumeMounts(f.bpmDisks);
    forall d | d in AllDisks(pod) && d.mount.Some? ensures d.mount.value.name in Declared(pod) {
      MountsAreExact(DefaultDisks(pod.nm), d.mount.value);
      MountsAreExact(BpmDisksOf(pod), d.mount.value);
      KeptUnderSameName(ms, d.mount.value);
    }
  }

  /**
   The mounts of all init and main containers name volumes of the pod if and only if its paths
   and custom disks are backed; where disks of different volumes share a path, deduplication may
   hide a mount.
   */
  lemma PodIsMountedIff(pod: Pod, errand: bool, disableLogSidecar: bool, hasImage: string -> bool,
                        igName: string, required: Option<string>)
    requires pod.jobs != [] && SharedPathsAgree(pod)
    ensures var f := FactoryOf(pod, errand, disableLogSidecar, hasImage);
            && AllMounted(InitContainers(f, pod.jobs, igName, required), Declared(pod))
            && AllMounted(MainContainers(f, pod.jobs), Declared(pod))
            <==> PathsBacked(pod) && CustomBacked(pod)
  {
    var f := FactoryOf(pod, errand, disableLogSidecar, hasImage);
    IntegrityIff(pod);
    if Integrity(pod) {
      PodIsWellMounted(pod, errand, disableLogSidecar, hasImage, igName, required);
    } else if AllMounted(InitContainers(f, pod.jobs, igName, required), Declared(pod)) {
      var k := PreStartIsListed(f, pod.jobs, igName, required);
      MountedIsIntegral(pod, f);
    }
  }

  const DANGLING := "/x/var/vcap/data/y"

  const DANGLING_PROCESS := Process("p", false, false, [BpmVolume(DANGLING, true)], [], false, true)
  const DANGLING_JOB := Job("j", "r")

  /** A pod of one job with one process, which asks for an additional volume. */
  function DanglingPod(nm: Naming): Pod {
    Pod(nm, [DANGLING_JOB], map["j" := [DANGLING_PROCESS]], false, [])
  }

  lemma DanglingMatches()
    ensures MatchesAdditional(DANGLING) && !Rooted(DANGLING)
  {
    assert DANGLING[2..] == "/var/vcap/data/y";
    assert Follows(DANGLING, 2, "/var/vcap/data/");
    assert DANGLING[1] == 'x' && DATA_PATH[1] == 'v' && STORE_PATH[1] == 'v' && SYS_PATH[1] == 'v';
  }

  lemma DanglingProcessIsAccepted()
    ensures Accepted([DANGLING_PROCESS], None, MatchesAdditional)
  {
    DanglingMatches();
    assert AllAdditional(DANGLING_PROCESS) == [BpmVolume(DANGLING, true)];
    PathsAcceptedSoFar([DANGLING_PROCESS], MatchesAdditional, 0);
    assert [DANGLING_PROCESS][..1] == [DANGLING_PROCESS];
  }

  lemma DanglingIsAccepted(nm: Naming)
    ensures AllAccepted(DanglingPod(nm).jobs, DanglingPod(nm).configs, None, MatchesAdditional)
  {
    var pod := DanglingPod(nm);
    DanglingProcessIsAccepted();
    assert ProcessesOf(pod.configs, pod.jobs[0]) == [DANGLING_PROCESS];
    AcceptedSoFar(pod.jobs, pod.configs, None, MatchesAdditional, 0);
    assert pod.jobs[..1] == pod.jobs;
  }

  lemma NothingUnrestricted(nm: Naming, job: Job, p: Process, i: nat, d: Disk)
    ensures !IsUnrestricted(DanglingPod(nm), job, p, i, d)
  {
    assert DANGLING_PROCESS.unrestricted == [];
  }

  lemma EmptyNameIsNotSupplied(nm: Naming)
    requires nm.dataDir != ""
    ensures !Supplied(DanglingPod(nm), "")
  {
    var pod := DanglingPod(nm);
    forall d ensures !OfUnrestricted(pod, d) {
      forall job, p, i: nat ensures !IsUnrestricted(pod, job, p, i, d) {
        NothingUnrestricted(nm, job, p, i, d);
      }
    }
    assert forall job | job in pod.jobs :: job == DANGLING_JOB;
    assert ProcessesOf(pod.configs, DANGLING_JOB) == [DANGLING_PROCESS];
    assert !AnyPersistent([DANGLING_PROCESS]);
  }

  lemma DanglingIsNotBacked(nm: Naming)
    requires nm.dataDir != ""
    ensures !PathsBacked(DanglingPod(nm))
  {
    var pod, v := DanglingPod(nm), BpmVolume(DANGLING, true);
    DanglingMatches();
    EmptyNameIsNotSupplied(nm);
    assert AllAdditional(DANGLING_PROCESS)[0] == v;
    assert IsAdditional(pod, DANGLING_JOB, DANGLING_PROCESS, v);
    assert AdditionalPath(pod, DANGLING) && !IsBacked(pod, DANGLING);
  }

  /** All that the process asks for is the additional volume. */
  lemma DanglingDisks(nm: Naming, d: Disk)
    requires d in BpmDisksOf(DanglingPod(nm))
    ensures d.mount == Some(VolumeMount("", DANGLING, "", false))
  {
    var pod := DanglingPod(nm);
    KindsOfDisks(pod, d);
    DanglingMatches();
    assert forall job | job in pod.jobs :: job == DANGLING_JOB;
    assert ProcessesOf(pod.configs, DANGLING_JOB) == [DANGLING_PROCESS];
    assert !AnyPersistent([DANGLING_PROCESS]) && !AnyEphemeral([DANGLING_PROCESS]);
    if OfUnrestricted(pod, d) {
      var job, p, i: nat :| IsUnrestricted(pod, job, p, i, d);
      NothingUnrestricted(nm, job, p, i, d);
    } else {
      var job, p, v :| IsAdditional(pod, job, p, v) && d == AdditionalDisk(nm, job, p, v);
      assert AllAdditional(DANGLING_PROCESS) == [BpmVolume(DANGLING, true)];
      assert v == BpmVolume(DANGLING, true);
    }
  }

  lemma DefaultsAreElsewhere(nm: Naming, i: nat)
    requires i < |DefaultMounts(nm)|
    ensures DefaultMounts(nm)[i].mountPath != DANGLING
  {
    assert DANGLING[1] == 'x' && RENDERING_PATH[1] == 'v' && JOBS_PATH[1] == 'v';
    assert DATA_PATH[1] == 'v' && SYS_PATH[1] == 'v' && DRAIN_STAMPS_PATH[1] == 'm';
  }

  lemma DanglingPathsAgree(nm: Naming)
    ensures SharedPathsAgree(DanglingPod(nm))
  {
    var defaults, more := DefaultMounts(nm), VolumeMounts(BpmDisksOf(DanglingPod(nm)));
    DefaultsOf(nm);
    DefaultPathsDiffer(nm);
    forall i | 0 <= i < |more| ensures more[i] == VolumeMount("", DANGLING, "", false) {
      MountsAreExact(BpmDisksOf(DanglingPod(nm)), more[i]);
      var d :| d in BpmDisksOf(DanglingPod(nm)) && d.mount == Some(more[i]);
      DanglingDisks(nm, d);
    }
    SharedOnlyInside(defaults, more, nm);
  }

  lemma SharedOnlyInside(defaults: seq<VolumeMount>, more: seq<VolumeMount>, nm: Naming)
    requires defaults == DefaultMounts(nm) && DistinctPaths(defaults)
    requires forall i | 0 <= i < |more| :: more[i] == VolumeMount("", DANGLING, "", false)
    ensures var ms := defaults + more;
            forall i, j | 0 <= i < j < |ms| && ms[i].mountPath == ms[j].mountPath :: ms[i].name == ms[j].name
  {
    var ms := defaults + more;
    forall i, j | 0 <= i < j < |ms| && ms[i].mountPath == ms[j].mountPath ensures ms[i].name == ms[j].name {
      if i < |defaults| {
        DefaultsAreElsewhere(nm, i);
      }
    }
  }

  /** The path is accepted and the pod is built, but an init container mounts a volume that the pod does not have. */
  lemma UnanchoredPathDangles(nm: Naming, errand: bool, disableLogSidecar: bool, hasImage: string -> bool,
                              igName: string, required: Option<string>)
    requires nm.dataDir != "" && hasImage("j")
    ensures var pod := DanglingPod(nm);
            var f := FactoryOf(pod, errand, disableLogSidecar, hasImage);
            && AllAccepted(pod.jobs, pod.configs, None, MatchesAdditional) && AllBuildable(f, pod.jobs)
            && !AllMounted(InitContainers(f, pod.jobs, igName, required), Declared(pod))
  {
    var pod := DanglingPod(nm);
    var f := FactoryOf(pod, errand, disableLogSidecar, hasImage);
    DanglingIsAccepted(nm);
    BuildableSoFar(f, pod.jobs, 0);
    assert pod.jobs[..0] == [] && pod.jobs[..1] == pod.jobs;
    DanglingIsNotBacked(nm);
    IntegrityIff(pod);
    if AllMounted(InitContainers(f, pod.jobs, igName, required), Declared(pod)) {
      var k := PreStartIsListed(f, pod.jobs, igName, required);
      DanglingPathsAgree(nm);
      MountedIsIntegral(pod, f);
    }
  }

  lemma DisksOfPodMount(pod: Pod)
    requires ProcessDisksMount(pod.custom)
    ensures ProcessDisksMount(BpmDisksOf(pod))
  {
    var ds := BpmDisksOf(pod);
    var generated := BPMDisks(pod.nm, pod.jobs, pod.configs, pod.asClaim);
    forall i | 0 <= i < |ds| && "process_name" in ds[i].filters ensures ds[i].mount.Some? {
      if i < |generated| {
        assert ds[i] in generated;
        KindsOfDisks(pod, ds[i]);
      } else {
        assert ds[i] == pod.custom[i - |generated|];
      }
    }
  }

  lemma {:induction false} BuildableIsFound(f: Factory, jobs: seq<Job>)
    ensures AllBuildable(f, jobs) ==> AllFound(f, jobs)
    decreases |jobs|
  {
    if jobs == [] {
    } else {
      BuildableIsFound(f, jobs[..|jobs| - 1]);
    }
  }

  /** The pod part of `Resources`: disks first, then volumes, init containers and containers. */
  method BuildPod(pod: Pod, diskSize: Option<int>, errand: bool, disableLogSidecar: bool, hasImage: string -> bool,
                  igName: string, required: Option<string>)
    returns (r: Result<(seq<string>, seq<Container>, seq<Container>)>)
    requires ProcessDisksMount(pod.custom)
    ensures var f := FactoryOf(pod, errand, disableLogSidecar, hasImage);
            && (r.Ok? <==>
                  && pod.jobs != [] && AllBuildable(f, pod.jobs)
                  && AllAccepted(pod.jobs, pod.configs, diskSize, MatchesAdditional))
            && (r.Ok? ==> r.value == (Declared(pod), InitContainers(f, pod.jobs, igName, required),
                                      MainContainers(f, pod.jobs)))
    ensures r.Ok? && PathsBacked(pod) && CustomBacked(pod) ==>
              AllMounted(r.value.1, r.value.0) && AllMounted(r.value.2, r.value.0)
    ensures r.Ok? && SharedPathsAgree(pod) && AllMounted(r.value.1, r.value.0) && AllMounted(r.value.2, r.value.0) ==>
              PathsBacked(pod) && CustomBacked(pod)
  {
    if |pod.jobs| == 0 { return Err("instance group has no jobs defined"); }
    var defaultDisks := DefaultDisks(pod.nm);
    var bpm := GenerateBPMDisks(pod.nm, pod.jobs, pod.configs, diskSize, pod.asClaim, MatchesAdditional);
    if bpm.Err? { return Err(bpm.error); }
    var bpmDisks := bpm.value + pod.custom;
    DisksOfPodMount(pod);
    var f := Factory(pod.nm, errand, disableLogSidecar, hasImage, pod.configs, VolumeMounts(defaultDisks), bpmDisks);
    BuildableIsFound(f, pod.jobs);
    var init := JobsToInitContainers(f, pod.jobs, igName, required);
    if init.Err? { return Err(init.error); }
    var main := JobsToContainers(f, pod.jobs);
    if main.Err? { return Err(main.error); }
    if PathsBacked(pod) && CustomBacked(pod) {
      BackedIsIntegral(pod);
      PodIsWellMounted(pod, errand, disableLogSidecar, hasImage, igName, required);
    } else if SharedPathsAgree(pod) {
      PodIsMountedIff(pod, errand, disableLogSidecar, hasImage, igName, required);
    }
    return Ok((Volumes(defaultDisks) + Volumes(bpmDisks), init.value, main.value));
  }
}
