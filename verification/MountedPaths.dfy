/**
 What the container of a process mounts, in terms of what its process, its job and the custom
 disks ask for.
 */
module MountedPaths {
  import opened Wrappers
  import opened Mounts
  import opened Disks
  import opened Containers
  import opened PodMounts

  // ---------------------------------------------------------------- what is asked for

  ghost predicate IsDefault(nm: Naming, m: VolumeMount) {
    || m == VolumeMount("rendering-data", "/var/vcap/all-releases", "", false)
    || m == VolumeMount("jobs-dir", "/var/vcap/jobs", "", false)
    || m == VolumeMount(nm.dataDir, "/var/vcap/data", "", false)
    || m == VolumeMount("sys-dir", "/var/vcap/sys", "", false)
    || m == VolumeMount("drain-stamps", "/mnt/drain-stamps", "", false)
  }

  /** The path lies in the data, store or sys directory and is not that directory. */
  ghost predicate IsInside(path: string) {
    || ("/var/vcap/data" <= path && path != "/var/vcap/data")
    || ("/var/vcap/store" <= path && path != "/var/vcap/store")
    || ("/var/vcap/sys" <= path && path != "/var/vcap/sys")
  }

  /** The volume and the sub-path that belong to the directory of the path. */
  ghost predicate FromDirectory(nm: Naming, m: VolumeMount) {
    if "/var/vcap/sys" <= m.mountPath
    then m.name == "sys-dir" && m.subPath == nm.relative("/var/vcap/sys", m.mountPath)
    else if "/var/vcap/store" <= m.mountPath
    then m.name == nm.claim && m.subPath == nm.relative("/var/vcap/store", m.mountPath)
    else if "/var/vcap/data" <= m.mountPath
    then m.name == nm.dataDir && m.subPath == nm.relative("/var/vcap/data", m.mountPath)
    else m.name == "" && m.subPath == ""
  }

  /** The process lists the volume as an additional one, or as an unrestricted one inside the directories. */
  ghost predicate AsksAdditional(p: Process, v: BpmVolume) {
    v in p.additional || (v in p.unrestricted && !("/var/vcap/jobs" <= v.path) && IsInside(v.path))
  }

  /** The process lists the volume as an unrestricted one outside the directories and the jobs directory. */
  ghost predicate AsksUnrestricted(p: Process, v: BpmVolume) {
    v in p.unrestricted && !("/var/vcap/jobs" <= v.path) && !IsInside(v.path)
  }

  ghost predicate OfAdditionalVolume(nm: Naming, p: Process, m: VolumeMount) {
    exists v :: AsksAdditional(p, v) && m.mountPath == v.path && m.readOnly == !v.writable && FromDirectory(nm, m)
  }

  /** The volume is mounted on its own, under a name with its number in base two. */
  ghost predicate OnItsOwn(nm: Naming, job: Job, p: Process, i: nat, v: BpmVolume, m: VolumeMount) {
    && i < |Kept(p.unrestricted)| && Kept(p.unrestricted)[i] == v
    && m == VolumeMount(
              nm.sanitized("bpm-unrestricted-volume-" + job.name + "-" + p.name + "-" + Binary(i)),
              v.path, "", !v.writable)
  }

  ghost predicate OfUnrestrictedVolume(nm: Naming, job: Job, p: Process, m: VolumeMount) {
    exists i: nat, v :: AsksUnrestricted(p, v) && OnItsOwn(nm, job, p, i, v, m)
  }

  /** Processes of the job that share the name of `p` are told apart by nothing. */
  ghost predicate IsNamesake(pod: Pod, job: Job, p: Process, q: Process) {
    q in ProcessesOf(pod.configs, job) && q.name == p.name
  }

  ghost predicate OfItsVolumes(pod: Pod, job: Job, p: Process, m: VolumeMount) {
    exists q ::
      IsNamesake(pod, job, p, q) && (OfAdditionalVolume(pod.nm, q, m) || OfUnrestrictedVolume(pod.nm, job, q, m))
  }

  ghost predicate WantsEphemeral(pod: Pod, job: Job) {
    exists q :: q in ProcessesOf(pod.configs, job) && q.ephemeralDisk
  }

  ghost predicate WantsPersistent(pod: Pod, job: Job) {
    exists q :: q in ProcessesOf(pod.configs, job) && q.persistentDisk
  }

  /** The custom disk carries both labels. */
  ghost predicate Labelled(d: Disk, jobName: string, key: string, value: string) {
    && "job_name" in d.filters && d.filters["job_name"] == jobName
    && key in d.filters && d.filters[key] == value
  }

  ghost predicate OfCustom(pod: Pod, job: Job, p: Process, m: VolumeMount) {
    exists d | d in pod.custom :: Labelled(d, job.name, "process_name", p.name) && d.mount == Some(m)
  }

  /** The mount of the first custom disk with both labels. */
  ghost predicate OfFirstCustom(pod: Pod, job: Job, key: string, m: VolumeMount) {
    exists i | 0 <= i < |pod.custom| ::
      && Labelled(pod.custom[i], job.name, key, "true") && pod.custom[i].mount == Some(m)
      && forall j | 0 <= j < i :: !Labelled(pod.custom[j], job.name, key, "true")
  }

  /** The data directory of the job, or what a custom disk puts in its place if no process asks for it. */
  ghost predicate OfEphemeralDisk(pod: Pod, job: Job, m: VolumeMount) {
    if WantsEphemeral(pod, job) then m == VolumeMount(pod.nm.dataDir, "/var/vcap/data/" + job.name, job.name, false)
    else OfFirstCustom(pod, job, "ephemeral", m)
  }

  ghost predicate OfPersistentDisk(pod: Pod, job: Job, m: VolumeMount) {
    if WantsPersistent(pod, job) then m == VolumeMount(pod.nm.claim, "/var/vcap/store/" + job.name, job.name, false)
    else OfFirstCustom(pod, job, "persistent", m)
  }

  /** Everything that the container of the process ought to mount. */
  ghost predicate Wanted(pod: Pod, job: Job, p: Process, m: VolumeMount) {
    || IsDefault(pod.nm, m)
    || OfItsVolumes(pod, job, p, m)
    || OfCustom(pod, job, p, m)
    || OfEphemeralDisk(pod, job, m)
    || OfPersistentDisk(pod, job, m)
  }

  // ---------------------------------------------------------------- volumes of a process

  lemma {:induction false} SortedVolumes(vs: seq<BpmVolume>, v: BpmVolume)
    ensures v in Moved(vs) <==> v in vs && !("/var/vcap/jobs" <= v.path) && IsInside(v.path)
    ensures v in Kept(vs) <==> v in vs && !("/var/vcap/jobs" <= v.path) && !IsInside(v.path)
    decreases |vs|
  {
    if vs == [] {
    } else {
      var before, last := vs[..|vs| - 1], vs[|vs| - 1];
      SortedVolumes(before, v);
      assert v in vs <==> v in before || v == last;
    }
  }

  lemma AdditionalDiskMeans(nm: Naming, job: Job, q: Process, v: BpmVolume)
    ensures var d := AdditionalDisk(nm, job, q, v);
            && d.mount.Some? && d.mount.value.mountPath == v.path && d.mount.value.readOnly == !v.writable
            && FromDirectory(nm, d.mount.value)
            && "job_name" in d.filters && d.filters["job_name"] == job.name
            && "process_name" in d.filters && d.filters["process_name"] == q.name
  {
  }

  lemma UnrestrictedDiskMeans(nm: Naming, job: Job, q: Process, v: BpmVolume, i: nat)
    ensures var d := UnrestrictedDisk(nm, job, q, v, i);
            && d.mount.Some? && (i < |Kept(q.unrestricted)| && Kept(q.unrestricted)[i] == v ==>
                                   forall j: Job | j.name == job.name :: OnItsOwn(nm, j, q, i, v, d.mount.value))
            && "job_name" in d.filters && d.filters["job_name"] == job.name
            && "process_name" in d.filters && d.filters["process_name"] == q.name
  {
  }

  lemma AdditionalIsAsked(q: Process, v: BpmVolume)
    ensures v in AllAdditional(q) <==> AsksAdditional(q, v)
    ensures v in Kept(q.unrestricted) <==> AsksUnrestricted(q, v)
  {
    SortedVolumes(q.unrestricted, v);
  }

  /** A generated disk with the labels of the process is one of its volumes. */
  lemma ProcessDiskIsWanted(pod: Pod, job: Job, p: Process, d: Disk)
    requires IsGenerated(pod, d) && Labelled(d, job.name, "process_name", p.name)
    ensures d.mount.Some? && OfItsVolumes(pod, job, p, d.mount.value)
  {
    KindsOfDisks(pod, d);
    if OfAdditional(pod, d) {
      var j, q, v :| IsAdditional(pod, j, q, v) && d == AdditionalDisk(pod.nm, j, q, v);
      AdditionalDiskMeans(pod.nm, j, q, v);
      AdditionalIsAsked(q, v);
      assert IsNamesake(pod, job, p, q) && OfAdditionalVolume(pod.nm, q, d.mount.value);
    } else if OfUnrestricted(pod, d) {
      var j, q, i: nat :| IsUnrestricted(pod, j, q, i, d);
      var v := Kept(q.unrestricted)[i];
      UnrestrictedDiskMeans(pod.nm, j, q, v, i);
      AdditionalIsAsked(q, v);
      assert OnItsOwn(pod.nm, job, q, i, v, d.mount.value);
      assert IsNamesake(pod, job, p, q) && OfUnrestrictedVolume(pod.nm, job, q, d.mount.value);
    }
  }

  /** Every volume of the process has a disk with its labels. */
  lemma VolumeHasADisk(pod: Pod, job: Job, p: Process, m: VolumeMount) returns (d: Disk)
    requires job in pod.jobs && OfItsVolumes(pod, job, p, m)
    ensures IsGenerated(pod, d) && Labelled(d, job.name, "process_name", p.name)
    ensures d.mount.Some? && d.mount.value.mountPath == m.mountPath
  {
    var q :| IsNamesake(pod, job, p, q) && 
                (OfAdditionalVolume(pod.nm, q, m) || OfUnrestrictedVolume(pod.nm, job, q, m));
    if OfAdditionalVolume(pod.nm, q, m) {
      var v :| AsksAdditional(q, v) && m.mountPath == v.path;
      AdditionalIsAsked(q, v);
      d := AdditionalDisk(pod.nm, job, q, v);
      AdditionalDiskMeans(pod.nm, job, q, v);
      AdditionalIsADisk(pod, job, q, v);
    } else {
      var i: nat, v :| AsksUnrestricted(q, v) && OnItsOwn(pod.nm, job, q, i, v, m);
      d := UnrestrictedDisk(pod.nm, job, q, v, i);
      UnrestrictedDiskMeans(pod.nm, job, q, v, i);
      UnrestrictedIsADisk(pod, job, q, i, d);
    }
  }

  // ---------------------------------------------------------------- labels

  /** The disks with both labels, in order. */
  function WithLabels(ds: seq<Disk>, jobName: string, key: string, value: string): seq<Disk> {
    Filtered(Filtered(ds, "job_name", jobName), key, value)
  }

  lemma WithLabelsIff(ds: seq<Disk>, jobName: string, key: string, value: string, d: Disk)
    ensures d in WithLabels(ds, jobName, key, value) <==> d in ds && Labelled(d, jobName, key, value)
  {
    FilteredIsExact(ds, "job_name", jobName, d);
    FilteredIsExact(Filtered(ds, "job_name", jobName), key, value, d);
  }

  lemma {:induction false} FilteredBoth(a: seq<Disk>, b: seq<Disk>, key: string, value: string)
    ensures Filtered(a + b, key, value) == Filtered(a, key, value) + Filtered(b, key, value)
    decreases |b|
  {
    if b == [] {
      assert a + b == a;
    } else {
      assert (a + b)[..|a + b| - 1] == a + b[..|b| - 1];
      FilteredBoth(a, b[..|b| - 1], key, value);
    }
  }

  lemma WithLabelsBoth(a: seq<Disk>, b: seq<Disk>, jobName: string, key: string, value: string)
    ensures WithLabels(a + b, jobName, key, value) ==
            WithLabels(a, jobName, key, value) + WithLabels(b, jobName, key, value)
  {
    FilteredBoth(a, b, "job_name", jobName);
    FilteredBoth(Filtered(a, "job_name", jobName), Filtered(b, "job_name", jobName), key, value);
  }

  lemma OneMoreLabelled(ds: seq<Disk>, jobName: string, key: string, value: string)
    requires ds != []
    ensures var before, last := ds[..|ds| - 1], ds[|ds| - 1];
            WithLabels(ds, jobName, key, value) ==
            WithLabels(before, jobName, key, value) + if Labelled(last, jobName, key, value) then [last] else []
  {
    var before, last := ds[..|ds| - 1], ds[|ds| - 1];
    assert ds == before + [last] && [last][..0] == [];
    WithLabelsBoth(before, [last], jobName, key, value);
    var own := Filtered([last], "job_name", jobName);
    assert Filtered([], "job_name", jobName) == [];
    assert own == if MatchesFilter(last, "job_name", jobName) then [last] else [];
    assert Filtered([], key, value) == [];
  }

  /** The disk at `i` has both labels, and no disk before it has. */
  ghost predicate FirstAt(ds: seq<Disk>, jobName: string, key: string, value: string, i: int) {
    && 0 <= i < |ds| && Labelled(ds[i], jobName, key, value)
    && forall j | 0 <= j < i :: !Labelled(ds[j], jobName, key, value)
  }

  /** `found` starts with the first disk that has both labels; it is empty if there is none. */
  ghost predicate StartsWithFirst(ds: seq<Disk>, jobName: string, key: string, value: string, found: seq<Disk>) {
    if found == [] then forall i | 0 <= i < |ds| :: !Labelled(ds[i], jobName, key, value)
    else exists i :: FirstAt(ds, jobName, key, value, i) && ds[i] == found[0]
  }

  lemma FirstOneMore(ds: seq<Disk>, jobName: string, key: string, value: string, some: seq<Disk>, all: seq<Disk>)
    requires ds != [] && StartsWithFirst(ds[..|ds| - 1], jobName, key, value, some)
    requires all == some + if Labelled(ds[|ds| - 1], jobName, key, value) then [ds[|ds| - 1]] else []
    ensures StartsWithFirst(ds, jobName, key, value, all)
  {
    var before, n := ds[..|ds| - 1], |ds| - 1;
    if some != [] {
      var i :| FirstAt(before, jobName, key, value, i) && before[i] == some[0];
      assert FirstAt(ds, jobName, key, value, i) && all[0] == some[0];
    } else if Labelled(ds[n], jobName, key, value) {
      assert FirstAt(ds, jobName, key, value, n);
    }
  }

  lemma {:induction false} FirstWithLabels(ds: seq<Disk>, jobName: string, key: string, value: string)
    ensures StartsWithFirst(ds, jobName, key, value, WithLabels(ds, jobName, key, value))
    decreases |ds|
  {
    if ds == [] {
    } else {
      var before := ds[..|ds| - 1];
      FirstWithLabels(before, jobName, key, value);
      OneMoreLabelled(ds, jobName, key, value);
      FirstOneMore(ds, jobName, key, value,
                   WithLabels(before, jobName, key, value), WithLabels(ds, jobName, key, value));
    }
  }

  /** The first mount with both labels among the custom disks. */
  lemma FirstCustomIff(pod: Pod, job: Job, key: string, m: VolumeMount)
    ensures FirstMount(WithLabels(pod.custom, job.name, key, "true")) == Some(m) <==> OfFirstCustom(pod, job, key, m)
  {
    var ds := pod.custom;
    FirstWithLabels(ds, job.name, key, "true");
    var found := WithLabels(ds, job.name, key, "true");
    if found != [] {
      var i :| FirstAt(ds, job.name, key, "true", i) && ds[i] == found[0];
      if OfFirstCustom(pod, job, key, m) {
        var k :| 0 <= k < |ds| && Labelled(ds[k], job.name, key, "true") && ds[k].mount == Some(m) &&
                 forall j | 0 <= j < k :: !Labelled(ds[j], job.name, key, "true");
        assert k == i;
      }
    }
  }

  // ---------------------------------------------------------------- the disks of a job

  function Generated(pod: Pod): seq<Disk> {
    BPMDisks(pod.nm, pod.jobs, pod.configs, pod.asClaim)
  }

  lemma EphemeralKind(pod: Pod, d: Disk)
    requires IsGenerated(pod, d) && "ephemeral" in d.filters
    ensures OfEphemeral(pod, d)
  {
    KindsOfDisks(pod, d);
  }

  lemma PersistentKind(pod: Pod, d: Disk)
    requires IsGenerated(pod, d) && "persistent" in d.filters
    ensures OfPersistent(pod, d)
  {
    KindsOfDisks(pod, d);
  }

  lemma EphemeralDiskMeans(nm: Naming, job: Job, asClaim: bool)
    ensures var d := EphemeralDisk(nm, job, asClaim);
            && d.mount == Some(VolumeMount(nm.dataDir, "/var/vcap/data/" + job.name, job.name, false))
            && "job_name" in d.filters && d.filters["job_name"] == job.name
  {
    assert DATA_PATH + "/" == "/var/vcap/data/";
  }

  lemma PersistentDiskMeans(nm: Naming, job: Job)
    ensures var d := PersistentDisk(nm, job);
            && d.mount == Some(VolumeMount(nm.claim, "/var/vcap/store/" + job.name, job.name, false))
            && "job_name" in d.filters && d.filters["job_name"] == job.name
  {
    assert STORE_PATH + "/" == "/var/vcap/store/";
  }

  lemma EphemeralFound(pod: Pod, job: Job, d: Disk)
    requires d in WithLabels(Generated(pod), job.name, "ephemeral", "true")
    ensures WantsEphemeral(pod, job)
    ensures d.mount == Some(VolumeMount(pod.nm.dataDir, "/var/vcap/data/" + job.name, job.name, false))
  {
    WithLabelsIff(Generated(pod), job.name, "ephemeral", "true", d);
    EphemeralKind(pod, d);
    var j :| j in pod.jobs && AnyEphemeral(ProcessesOf(pod.configs, j)) && d == EphemeralDisk(pod.nm, j, pod.asClaim);
    EphemeralDiskMeans(pod.nm, j, pod.asClaim);
  }

  lemma PersistentFound(pod: Pod, job: Job, d: Disk)
    requires d in WithLabels(Generated(pod), job.name, "persistent", "true")
    ensures WantsPersistent(pod, job)
    ensures d.mount == Some(VolumeMount(pod.nm.claim, "/var/vcap/store/" + job.name, job.name, false))
  {
    WithLabelsIff(Generated(pod), job.name, "persistent", "true", d);
    PersistentKind(pod, d);
    var j :| j in pod.jobs && AnyPersistent(ProcessesOf(pod.configs, j)) && d == PersistentDisk(pod.nm, j);
    PersistentDiskMeans(pod.nm, j);
  }

  lemma EphemeralIsGenerated(pod: Pod, job: Job)
    requires job in pod.jobs && WantsEphemeral(pod, job)
    ensures WithLabels(Generated(pod), job.name, "ephemeral", "true") != []
  {
    var d := EphemeralDisk(pod.nm, job, pod.asClaim);
    assert AnyEphemeral(ProcessesOf(pod.configs, job));
    assert OfEphemeral(pod, d);
    KindsOfDisks(pod, d);
    WithLabelsIff(Generated(pod), job.name, "ephemeral", "true", d);
  }

  lemma PersistentIsGenerated(pod: Pod, job: Job)
    requires job in pod.jobs && WantsPersistent(pod, job)
    ensures WithLabels(Generated(pod), job.name, "persistent", "true") != []
  {
    var d := PersistentDisk(pod.nm, job);
    assert AnyPersistent(ProcessesOf(pod.configs, job));
    assert OfPersistent(pod, d);
    KindsOfDisks(pod, d);
    WithLabelsIff(Generated(pod), job.name, "persistent", "true", d);
  }

  lemma EphemeralMountIff(pod: Pod, job: Job, m: VolumeMount)
    requires job in pod.jobs
    ensures FirstMount(WithLabels(BpmDisksOf(pod), job.name, "ephemeral", "true")) == Some(m) <==>
            OfEphemeralDisk(pod, job, m)
  {
    var own := WithLabels(Generated(pod), job.name, "ephemeral", "true");
    WithLabelsBoth(Generated(pod), pod.custom, job.name, "ephemeral", "true");
    FirstCustomIff(pod, job, "ephemeral", m);
    if WantsEphemeral(pod, job) {
      EphemeralIsGenerated(pod, job);
    }
    if own != [] {
      EphemeralFound(pod, job, own[0]);
    }
  }

  lemma PersistentMountIff(pod: Pod, job: Job, m: VolumeMount)
    requires job in pod.jobs
    ensures FirstMount(WithLabels(BpmDisksOf(pod), job.name, "persistent", "true")) == Some(m) <==>
            OfPersistentDisk(pod, job, m)
  {
    var own := WithLabels(Generated(pod), job.name, "persistent", "true");
    WithLabelsBoth(Generated(pod), pod.custom, job.name, "persistent", "true");
    FirstCustomIff(pod, job, "persistent", m);
    if WantsPersistent(pod, job) {
      PersistentIsGenerated(pod, job);
    }
    if own != [] {
      PersistentFound(pod, job, own[0]);
    }
  }

  // ---------------------------------------------------------------- the container

  /** Everything that is appended to the default mounts for the container of the process. */
  function Appended(pod: Pod, job: Job, p: Process): seq<VolumeMount> {
    VolumeMounts(WithLabels(BpmDisksOf(pod), job.name, "process_name", p.name)) +
    Optional(FirstMount(WithLabels(BpmDisksOf(pod), job.name, "ephemeral", "true"))) +
    Optional(FirstMount(WithLabels(BpmDisksOf(pod), job.name, "persistent", "true")))
  }

  lemma ContainerIsDeduplicated(pod: Pod, f: Factory, job: Job, p: Process)
    requires f.bpmDisks == BpmDisksOf(pod) && f.defaults == VolumeMounts(DefaultDisks(pod.nm))
    ensures ProcessMounts(f, job, p) == Deduplicated(f.defaults + Appended(pod, job, p))
  {
    var ds := BpmDisksOf(pod);
    Regrouped(f.defaults, VolumeMounts(WithLabels(ds, job.name, "process_name", p.name)),
              Optional(FirstMount(WithLabels(ds, job.name, "ephemeral", "true"))),
              Optional(FirstMount(WithLabels(ds, job.name, "persistent", "true"))));
  }

  lemma Regrouped(a: seq<VolumeMount>, b: seq<VolumeMount>, c: seq<VolumeMount>, d: seq<VolumeMount>)
    ensures a + b + c + d == a + (b + c + d)
  {
  }

  lemma LabelledMountIsWanted(pod: Pod, job: Job, p: Process, m: VolumeMount)
    requires m in VolumeMounts(WithLabels(BpmDisksOf(pod), job.name, "process_name", p.name))
    ensures OfItsVolumes(pod, job, p, m) || OfCustom(pod, job, p, m)
  {
    var ds := WithLabels(BpmDisksOf(pod), job.name, "process_name", p.name);
    MountsAreExact(ds, m);
    var d :| d in ds && d.mount == Some(m);
    WithLabelsIff(BpmDisksOf(pod), job.name, "process_name", p.name, d);
    if d !in pod.custom {
      ProcessDiskIsWanted(pod, job, p, d);
    }
  }

  lemma AppendedIsWanted(pod: Pod, job: Job, p: Process, m: VolumeMount)
    requires job in pod.jobs && m in Appended(pod, job, p)
    ensures Wanted(pod, job, p, m)
  {
    EphemeralMountIff(pod, job, m);
    PersistentMountIff(pod, job, m);
    if m in VolumeMounts(WithLabels(BpmDisksOf(pod), job.name, "process_name", p.name)) {
      LabelledMountIsWanted(pod, job, p, m);
    }
  }

  lemma WantedIsAppended(pod: Pod, job: Job, p: Process, m: VolumeMount) returns (a: VolumeMount)
    requires job in pod.jobs && Wanted(pod, job, p, m) && !IsDefault(pod.nm, m)
    ensures a in Appended(pod, job, p) && a.mountPath == m.mountPath
  {
    EphemeralMountIff(pod, job, m);
    PersistentMountIff(pod, job, m);
    a := m;
    if OfItsVolumes(pod, job, p, m) || OfCustom(pod, job, p, m) {
      var d;
      if OfItsVolumes(pod, job, p, m) {
        d := VolumeHasADisk(pod, job, p, m);
      } else {
        d :| d in pod.custom && Labelled(d, job.name, "process_name", p.name) && d.mount == Some(m);
      }
      assert d in BpmDisksOf(pod);
      WithLabelsIff(BpmDisksOf(pod), job.name, "process_name", p.name, d);
      MountsAreExact(WithLabels(BpmDisksOf(pod), job.name, "process_name", p.name), d.mount.value);
      a := d.mount.value;
    }
  }

  lemma DefaultMountsAre(nm: Naming, m: VolumeMount)
    ensures m in VolumeMounts(DefaultDisks(nm)) <==> IsDefault(nm, m)
  {
    DefaultsOf(nm);
    var ms := DefaultMounts(nm);
    assert ms[0] in ms && ms[1] in ms && ms[2] in ms && ms[3] in ms && ms[4] in ms;
  }

  /**
   The container of every process of every job mounts nothing but what is wanted, and has a
   mount at the path of everything that is wanted.
   */
  lemma MountsWhatIsWanted(pod: Pod, f: Factory, job: Job, p: Process, m: VolumeMount)
    requires f.bpmDisks == BpmDisksOf(pod) && f.defaults == VolumeMounts(DefaultDisks(pod.nm)) && job in pod.jobs
    ensures m in ProcessMounts(f, job, p) ==> Wanted(pod, job, p, m)
    ensures Wanted(pod, job, p, m) ==> m.mountPath in Paths(ProcessMounts(f, job, p))
  {
    var all := f.defaults + Appended(pod, job, p);
    ContainerIsDeduplicated(pod, f, job, p);
    DeduplicatedIsExact(all);
    DefaultMountsAre(pod.nm, m);
    if m in ProcessMounts(f, job, p) {
      assert FirstWithPath(all, m);
      if m !in f.defaults {
        AppendedIsWanted(pod, job, p, m);
      }
    }
    if Wanted(pod, job, p, m) {
      var a := m;
      if !IsDefault(pod.nm, m) {
        a := WantedIsAppended(pod, job, p, m);
      }
      assert a in all;
    }
  }

  ghost predicate HasPathAlone(pod: Pod, job: Job, p: Process, m: VolumeMount) {
    forall o | Wanted(pod, job, p, o) && o.mountPath == m.mountPath :: o == m
  }

  /**
   For every container of a pod: its paths are those of what its process, its job and the
   custom disks ask for, and a mount that nothing else competes with for its path is there with
   its volume, sub-path and mode.
   */
  lemma ContainerMountsWhatIsWanted(pod: Pod, errand: bool, disableLogSidecar: bool, hasImage: string -> bool,
                                    job: Job, i: nat, count: nat, m: VolumeMount)
    requires job in pod.jobs && i < |ProcessesOf(pod.configs, job)|
    ensures var ps := ProcessesOf(pod.configs, job);
            var mounts := JobContainers(FactoryOf(pod, errand, disableLogSidecar, hasImage), job, ps, count)[i].mounts;
            && (m in mounts ==> Wanted(pod, job, ps[i], m))
            && (Wanted(pod, job, ps[i], m) ==> m.mountPath in Paths(mounts))
            && (Wanted(pod, job, ps[i], m) && HasPathAlone(pod, job, ps[i], m) ==> m in mounts)
  {
    var f := FactoryOf(pod, errand, disableLogSidecar, hasImage);
    var p := ProcessesOf(pod.configs, job)[i];
    MountsWhatIsWanted(pod, f, job, p, m);
    if Wanted(pod, job, p, m) {
      var ms := ProcessMounts(f, job, p);
      var k :| 0 <= k < |ms| && ms[k].mountPath == m.mountPath;
      MountsWhatIsWanted(pod, f, job, p, ms[k]);
    }
  }

  /** The pre-start container of every job mounts at the path of every disk of the pod. */
  lemma PreStartMountsEverything(pod: Pod, errand: bool, disableLogSidecar: bool, hasImage: string -> bool, d: Disk)
    requires d in AllDisks(pod) && d.mount.Some?
    ensures d.mount.value.mountPath in Paths(PreStartMounts(FactoryOf(pod, errand, disableLogSidecar, hasImage)))
  {
    var ms := VolumeMounts(DefaultDisks(pod.nm)) + VolumeMounts(BpmDisksOf(pod));
    DeduplicatedIsExact(ms);
    MountsAreExact(DefaultDisks(pod.nm), d.mount.value);
    MountsAreExact(BpmDisksOf(pod), d.mount.value);
    assert d.mount.value in ms;
  }

  // ---------------------------------------------------------------- volumes of the generated disks

  ghost predicate IsNumbered(pod: Pod, job: Job, p: Process, i: nat, v: string) {
    && job in pod.jobs && p in ProcessesOf(pod.configs, job) && i < |Kept(p.unrestricted)|
    && v == pod.nm.sanitized("bpm-unrestricted-volume-" + job.name + "-" + p.name + "-" + Binary(i))
  }

  ghost predicate OfNumbered(pod: Pod, v: string) {
    exists job, p, i: nat :: IsNumbered(pod, job, p, i, v)
  }

  ghost predicate OfDataClaim(pod: Pod, v: string) {
    v == pod.nm.dataDir && pod.asClaim && exists job | job in pod.jobs :: WantsEphemeral(pod, job)
  }

  ghost predicate OfStoreClaim(pod: Pod, v: string) {
    v == pod.nm.claim && exists job | job in pod.jobs :: WantsPersistent(pod, job)
  }

  lemma DeclaresFor(pod: Pod, d: Disk, v: string)
    requires IsGenerated(pod, d) && d.volume == Some(v)
    ensures OfNumbered(pod, v) || OfDataClaim(pod, v) || OfStoreClaim(pod, v)
  {
    KindsOfDisks(pod, d);
    if OfUnrestricted(pod, d) {
      var job, p, i: nat :| IsUnrestricted(pod, job, p, i, d);
      assert IsNumbered(pod, job, p, i, v);
    } else if OfEphemeral(pod, d) {
      var job :| job in pod.jobs && AnyEphemeral(ProcessesOf(pod.configs, job));
      assert WantsEphemeral(pod, job);
    } else if OfPersistent(pod, d) {
      var job :| job in pod.jobs && AnyPersistent(ProcessesOf(pod.configs, job));
      assert WantsPersistent(pod, job);
    }
  }

  lemma DataClaimIsDeclared(pod: Pod, v: string) returns (d: Disk)
    requires OfDataClaim(pod, v)
    ensures IsGenerated(pod, d) && d.volume == Some(v)
  {
    var job :| job in pod.jobs && WantsEphemeral(pod, job);
    assert AnyEphemeral(ProcessesOf(pod.configs, job));
    d := EphemeralDisk(pod.nm, job, pod.asClaim);
    GeneratedForJob(pod, job, d);
  }

  lemma StoreClaimIsDeclared(pod: Pod, v: string) returns (d: Disk)
    requires OfStoreClaim(pod, v)
    ensures IsGenerated(pod, d) && d.volume == Some(v)
  {
    var job :| job in pod.jobs && WantsPersistent(pod, job);
    assert AnyPersistent(ProcessesOf(pod.configs, job));
    d := PersistentDisk(pod.nm, job);
    GeneratedForJob(pod, job, d);
  }

  lemma NumberedIsDeclared(pod: Pod, v: string) returns (d: Disk)
    requires OfNumbered(pod, v)
    ensures IsGenerated(pod, d) && d.volume == Some(v)
  {
    var job, p, i: nat :| IsNumbered(pod, job, p, i, v);
    d := UnrestrictedDisk(pod.nm, job, p, Kept(p.unrestricted)[i], i);
    UnrestrictedIsADisk(pod, job, p, i, d);
  }

  /**
   The volumes that the generated disks add to the default ones: the data directory again if it
   is a claim and a job asks for it, the claim for the store if a job asks for it, and one for
   each unrestricted volume that is mounted on its own.
   */
  lemma GeneratedVolumesIff(pod: Pod, v: string)
    ensures v in Volumes(Generated(pod)) <==> OfNumbered(pod, v) || OfDataClaim(pod, v) || OfStoreClaim(pod, v)
  {
    VolumesAreExact(Generated(pod), v);
    if v in Volumes(Generated(pod)) {
      var d :| d in Generated(pod) && d.volume == Some(v);
      DeclaresFor(pod, d, v);
    } else if OfNumbered(pod, v) {
      var d := NumberedIsDeclared(pod, v);
    } else if OfDataClaim(pod, v) {
      var d := DataClaimIsDeclared(pod, v);
    } else if OfStoreClaim(pod, v) {
      var d := StoreClaimIsDeclared(pod, v);
    }
  }

  // ---------------------------------------------------------------- when disks are generated

  /** The additional paths match, and a persistent disk is only asked for if the group has one. */
  ghost predicate IsAcceptable(q: Process, diskSize: Option<int>, matches: string -> bool) {
    && (q.persistentDisk ==> diskSize.Some? && diskSize.value > 0)
    && forall v | AsksAdditional(q, v) :: matches(v.path)
  }

  lemma PathsAcceptedIff(q: Process, matches: string -> bool)
    ensures PathsAccepted(q, matches) <==> forall v | AsksAdditional(q, v) :: matches(v.path)
  {
    if PathsAccepted(q, matches) {
      forall v | AsksAdditional(q, v) ensures matches(v.path) {
        AdditionalIsAsked(q, v);
      }
    }
    if forall v | AsksAdditional(q, v) :: matches(v.path) {
      var vs := AllAdditional(q);
      forall i | 0 <= i < |vs| ensures matches(vs[i].path) {
        AdditionalIsAsked(q, vs[i]);
      }
    }
  }

  lemma {:induction false} AllPathsAcceptedIff(ps: seq<Process>, matches: string -> bool)
    ensures AllPathsAccepted(ps, matches) <==> forall i | 0 <= i < |ps| :: PathsAccepted(ps[i], matches)
    decreases |ps|
  {
    if ps == [] {
    } else {
      AllPathsAcceptedIff(ps[..|ps| - 1], matches);
    }
  }

  lemma AcceptedIff(ps: seq<Process>, diskSize: Option<int>, matches: string -> bool)
    ensures Accepted(ps, diskSize, matches) <==> forall i | 0 <= i < |ps| :: IsAcceptable(ps[i], diskSize, matches)
  {
    AllPathsAcceptedIff(ps, matches);
    forall i | 0 <= i < |ps|
      ensures PathsAccepted(ps[i], matches) <==> forall v | AsksAdditional(ps[i], v) :: matches(v.path)
    {
      PathsAcceptedIff(ps[i], matches);
    }
  }

  /** Disks are generated if and only if every process of every job is acceptable. */
  lemma {:induction false} AllAcceptedIff(jobs: seq<Job>, configs: Configs, diskSize: Option<int>,
                                          matches: string -> bool)
    ensures AllAccepted(jobs, configs, diskSize, matches) <==>
            forall k | 0 <= k < |jobs| && jobs[k].name in configs ::
              forall i | 0 <= i < |configs[jobs[k].name]| :: IsAcceptable(configs[jobs[k].name][i], diskSize, matches)
    decreases |jobs|
  {
    if jobs == [] {
    } else {
      var before, last := jobs[..|jobs| - 1], jobs[|jobs| - 1];
      AllAcceptedIff(before, configs, diskSize, matches);
      AcceptedIff(ProcessesOf(configs, last), diskSize, matches);
    }
  }
}
