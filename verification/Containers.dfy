/** The containers of a pod: what they mount, and the handler that runs before they stop. */
module Containers {
  import opened Wrappers
  import opened Mounts
  import opened Disks
  import opened DrainBarrier

  datatype Container = Container(name: string, mounts: seq<VolumeMount>, preStop: PreStop)

  /** `hasImage` tells for a job whether its release image is found. */
  datatype Factory = Factory(
    nm: Naming, errand: bool, disableLogSidecar: bool, hasImage: string -> bool, configs: Configs,
    defaults: seq<VolumeMount>, bpmDisks: seq<Disk>)

  /** Disks that are meant for a process carry a mount; the code dereferences it. */
  ghost predicate ProcessDisksMount(disks: seq<Disk>) {
    forall i | 0 <= i < |disks| :: "process_name" in disks[i].filters ==> disks[i].mount.Some?
  }

  function JobDisksOf(f: Factory, job: Job): seq<Disk> {
    Filtered(f.bpmDisks, "job_name", job.name)
  }

  function ExtraFor(f: Factory, job: Job, p: Process): Extra {
    var jobDisks := JobDisksOf(f, job);
    Extra(VolumeMounts(Filtered(jobDisks, "process_name", p.name)),
          FirstMount(Filtered(jobDisks, "ephemeral", "true")),
          FirstMount(Filtered(jobDisks, "persistent", "true")))
  }

  function ProcessMounts(f: Factory, job: Job, p: Process): seq<VolumeMount> {
    ContainerMounts(f.defaults, ExtraFor(f, job, p))
  }

  function PreStartMounts(f: Factory): seq<VolumeMount> {
    Deduplicated(f.defaults + VolumeMounts(f.bpmDisks))
  }

  function ProcessName(f: Factory, job: Job, p: Process): string {
    f.nm.sanitized(job.name + "-" + p.name)
  }

  /** The jobs that have processes, and so a drain script of their own. */
  function DrainJobs(f: Factory, jobs: seq<Job>): seq<string> {
    if jobs == [] then []
    else
      var last := jobs[|jobs| - 1];
      DrainJobs(f, jobs[..|jobs| - 1]) + if ProcessesOf(f.configs, last) != [] then [last.name] else []
  }

  function HandlerFor(f: Factory, job: Job, processIndex: nat, count: nat): PreStop {
    if f.errand then NoHandler else if processIndex == 0 then DrainScript(job.name, count) else DrainWait(count)
  }

  function JobContainers(f: Factory, job: Job, ps: seq<Process>, count: nat): seq<Container> {
    seq(|ps|, i requires 0 <= i < |ps| =>
      Container(ProcessName(f, job, ps[i]), ProcessMounts(f, job, ps[i]), HandlerFor(f, job, i, count)))
  }

  function ContainersOf(f: Factory, jobs: seq<Job>, count: nat): seq<Container> {
    if jobs == [] then []
    else
      var last := jobs[|jobs| - 1];
      ContainersOf(f, jobs[..|jobs| - 1], count) + JobContainers(f, last, ProcessesOf(f.configs, last), count)
  }

  function LogsTailer(): Container {
    Container("logs", [Plain(SYS_DIR, SYS_PATH)], NoHandler)
  }

  function MainContainers(f: Factory, jobs: seq<Job>): seq<Container> {
    ContainersOf(f, jobs, |DrainJobs(f, jobs)|) + if f.disableLogSidecar then [] else [LogsTailer()]
  }

  predicate ValidProcesses(ps: seq<Process>) {
    forall i | 0 <= i < |ps| :: ps[i].valid
  }

  predicate Buildable(f: Factory, job: Job) {
    job.name in f.configs && f.hasImage(job.name) && ValidProcesses(f.configs[job.name])
  }

  /** Every job can be built. */
  predicate AllBuildable(f: Factory, jobs: seq<Job>) {
    jobs != [] ==> AllBuildable(f, jobs[..|jobs| - 1]) && Buildable(f, jobs[|jobs| - 1])
  }

  lemma {:induction false} BuildableSoFar(f: Factory, jobs: seq<Job>, i: nat)
    requires i < |jobs|
    ensures AllBuildable(f, jobs[..i + 1]) == (AllBuildable(f, jobs[..i]) && Buildable(f, jobs[i]))
    ensures AllBuildable(f, jobs) ==> AllBuildable(f, jobs[..i + 1])
    decreases |jobs|
  {
    assert jobs[..i + 1][..i] == jobs[..i];
    if i + 1 == |jobs| {
      assert jobs[..i + 1] == jobs;
    } else {
      var before := jobs[..|jobs| - 1];
      BuildableSoFar(f, before, i);
      assert before[..i + 1] == jobs[..i + 1];
    }
  }

  /** Every job has a config and an image, and the limits of its processes are valid. */
  lemma {:induction false} AllBuildableIff(f: Factory, jobs: seq<Job>)
    ensures AllBuildable(f, jobs) <==>
            forall i | 0 <= i < |jobs| ::
              && jobs[i].name in f.configs && f.hasImage(jobs[i].name)
              && forall p | p in f.configs[jobs[i].name] :: p.valid
    decreases |jobs|
  {
    if jobs == [] {
    } else {
      AllBuildableIff(f, jobs[..|jobs| - 1]);
    }
  }

  /** The container of the process at `i` of the job. */
  ghost predicate IsOfProcess(f: Factory, job: Job, i: nat, count: nat, c: Container) {
    && job.name in f.configs && i < |f.configs[job.name]|
    && var p := f.configs[job.name][i];
       && c.name == f.nm.sanitized(job.name + "-" + p.name) && c.mounts == ProcessMounts(f, job, p)
       && c.preStop == if f.errand then NoHandler
                       else if i == 0 then DrainScript(job.name, count) else DrainWait(count)
  }

  ghost predicate IsOfJob(f: Factory, job: Job, count: nat, c: Container) {
    exists i: nat :: IsOfProcess(f, job, i, count, c)
  }

  lemma JobContainersIff(f: Factory, job: Job, count: nat, c: Container)
    ensures c in JobContainers(f, job, ProcessesOf(f.configs, job), count) <==> IsOfJob(f, job, count, c)
  {
    var own := JobContainers(f, job, ProcessesOf(f.configs, job), count);
    if c in own {
      var i: nat :| i < |own| && own[i] == c;
      assert IsOfProcess(f, job, i, count, c);
    }
    if i: nat :| IsOfProcess(f, job, i, count, c) {
      assert own[i] == c;
    }
  }

  lemma {:induction false} FindJobOf(f: Factory, jobs: seq<Job>, count: nat, c: Container) returns (k: nat)
    requires c in ContainersOf(f, jobs, count)
    ensures k < |jobs| && c in JobContainers(f, jobs[k], ProcessesOf(f.configs, jobs[k]), count)
    decreases |jobs|
  {
    var before := jobs[..|jobs| - 1];
    if c in ContainersOf(f, before, count) {
      k := FindJobOf(f, before, count, c);
    } else {
      k := |jobs| - 1;
    }
  }

  lemma {:induction false} ContainerIsIn(f: Factory, jobs: seq<Job>, count: nat, k: nat, c: Container)
    requires k < |jobs| && c in JobContainers(f, jobs[k], ProcessesOf(f.configs, jobs[k]), count)
    ensures c in ContainersOf(f, jobs, count)
    decreases |jobs|
  {
    if k == |jobs| - 1 {
    } else {
      ContainerIsIn(f, jobs[..|jobs| - 1], count, k, c);
    }
  }

  lemma ContainersIff(f: Factory, jobs: seq<Job>, count: nat, c: Container)
    ensures c in ContainersOf(f, jobs, count) <==> exists k | 0 <= k < |jobs| :: IsOfJob(f, jobs[k], count, c)
  {
    if c in ContainersOf(f, jobs, count) {
      var k := FindJobOf(f, jobs, count, c);
      JobContainersIff(f, jobs[k], count, c);
    }
    if k :| 0 <= k < |jobs| && IsOfJob(f, jobs[k], count, c) {
      JobContainersIff(f, jobs[k], count, c);
      ContainerIsIn(f, jobs, count, k, c);
    }
  }

  /** The containers of a pod: one per process of each of its jobs, and one for the logs unless that is disabled. */
  lemma MainContainersIff(f: Factory, jobs: seq<Job>, c: Container)
    ensures c in MainContainers(f, jobs) <==>
            || (exists k | 0 <= k < |jobs| :: IsOfJob(f, jobs[k], |DrainJobs(f, jobs)|, c))
            || (!f.disableLogSidecar &&
                c == Container("logs", [VolumeMount("sys-dir", "/var/vcap/sys", "", false)], NoHandler))
  {
    ContainersIff(f, jobs, |DrainJobs(f, jobs)|, c);
    assert LogsTailer() == Container("logs", [VolumeMount("sys-dir", "/var/vcap/sys", "", false)], NoHandler);
    assert c in MainContainers(f, jobs) <==>
           c in ContainersOf(f, jobs, |DrainJobs(f, jobs)|) || (!f.disableLogSidecar && c == LogsTailer());
  }

  // ---------------------------------------------------------------- building the containers

  method ProcessVolumeMounts(f: Factory, processDisks: seq<Disk>, ephemeral: Option<VolumeMount>,
                             persistent: Option<VolumeMount>)
    returns (v: seq<VolumeMount>)
    requires forall i | 0 <= i < |processDisks| :: processDisks[i].mount.Some?
    ensures v == f.defaults + VolumeMounts(processDisks) + Optional(ephemeral) + Optional(persistent)
  {
    var bpmVolumeMounts: seq<VolumeMount> := [];
    for i := 0 to |processDisks|
      invariant bpmVolumeMounts == VolumeMounts(processDisks[..i])
    {
      OneMoreDisk(processDisks, i);
      bpmVolumeMounts := bpmVolumeMounts + [processDisks[i].mount.value];
    }
    assert processDisks[..|processDisks|] == processDisks;
    v := f.defaults + bpmVolumeMounts;
    if ephemeral.Some? {
      v := v + [ephemeral.value];
    }
    if persistent.Some? {
      v := v + [persistent.value];
    }
  }

  lemma FilteredDisksMount(disks: seq<Disk>, jobName: string, processName: string)
    requires ProcessDisksMount(disks)
    ensures var ds := Filtered(Filtered(disks, "job_name", jobName), "process_name", processName);
            forall i | 0 <= i < |ds| :: ds[i].mount.Some?
  {
    var ds := Filtered(Filtered(disks, "job_name", jobName), "process_name", processName);
    forall i | 0 <= i < |ds| ensures ds[i].mount.Some? {
      FilteredIsExact(Filtered(disks, "job_name", jobName), "process_name", processName, ds[i]);
      FilteredIsExact(disks, "job_name", jobName, ds[i]);
    }
  }

  /** The mounts of one process container. */
  method MountsOf(f: Factory, jobDisks: seq<Disk>, ephemeral: Option<VolumeMount>, persistent: Option<VolumeMount>,
                  job: Job, p: Process)
    returns (ms: seq<VolumeMount>)
    requires ProcessDisksMount(f.bpmDisks) && jobDisks == JobDisksOf(f, job)
    requires ephemeral == FirstMount(Filtered(jobDisks, "ephemeral", "true"))
    requires persistent == FirstMount(Filtered(jobDisks, "persistent", "true"))
    ensures ms == ProcessMounts(f, job, p)
  {
    var processDisks := Filter(jobDisks, "process_name", p.name);
    FilteredDisksMount(f.bpmDisks, job.name, p.name);
    assert processDisks == Filtered(Filtered(f.bpmDisks, "job_name", job.name), "process_name", p.name);
    var v := ProcessVolumeMounts(f, processDisks, ephemeral, persistent);
    ms := Deduplicated(v);
  }

  lemma OneMoreContainer(f: Factory, job: Job, ps: seq<Process>, count: nat, i: nat)
    requires i < |ps|
    ensures JobContainers(f, job, ps[..i + 1], count) == JobContainers(f, job, ps[..i], count) +
            [Container(ProcessName(f, job, ps[i]), ProcessMounts(f, job, ps[i]), HandlerFor(f, job, i, count))]
  {
  }

  method BuildJob(f: Factory, job: Job, count: nat) returns (r: Result<seq<Container>>)
    requires ProcessDisksMount(f.bpmDisks)
    ensures r.Ok? <==> Buildable(f, job)
    ensures r.Ok? ==> r.value == JobContainers(f, job, ProcessesOf(f.configs, job), count)
  {
    if !f.hasImage(job.name) { return Err("release image not found"); }
    if job.name !in f.configs { return Err("failed to lookup bpm config"); }
    var processes := f.configs[job.name];
    if |processes| < 1 { return Ok([]); }

    var jobDisks := Filter(f.bpmDisks, "job_name", job.name);
    var ephemeral, persistent := BPMMounts(jobDisks);
    var containers: seq<Container> := [];
    for i := 0 to |processes|
      invariant containers == JobContainers(f, job, processes[..i], count)
      invariant forall k | 0 <= k < i :: processes[k].valid
    {
      var ms := MountsOf(f, jobDisks, ephemeral, persistent, job, processes[i]);
      OneMoreContainer(f, job, processes, count, i);
      if !processes[i].valid { return Err("error parsing limits"); }
      var preStop := NoHandler;
      if !f.errand {
        if i == 0 {
          preStop := DrainScript(job.name, count);
        } else {
          preStop := DrainWait(count);
        }
      }
      containers := containers + [Container(ProcessName(f, job, processes[i]), ms, preStop)];
    }
    assert processes[..|processes|] == processes;
    return Ok(containers);
  }

  /** `JobsToContainers`, for instance groups and for errands. */
  method JobsToContainers(f: Factory, jobs: seq<Job>) returns (r: Result<seq<Container>>)
    requires ProcessDisksMount(f.bpmDisks)
    ensures r.Ok? <==> AllBuildable(f, jobs)
    ensures r.Ok? ==> r.value == MainContainers(f, jobs)
  {
    var n := 0;
    for i := 0 to |jobs|
      invariant n == |DrainJobs(f, jobs[..i])|
    {
      assert jobs[..i + 1][..i] == jobs[..i];
      BuildableSoFar(f, jobs, i);
      if jobs[i].name !in f.configs { return Err("failed to lookup bpm config"); }
      if |f.configs[jobs[i].name]| > 0 {
        n := n + 1;
      }
    }
    var containers: seq<Container> := [];
    assert jobs[..|jobs|] == jobs;
    for i := 0 to |jobs|
      invariant containers == ContainersOf(f, jobs[..i], n)
      invariant AllBuildable(f, jobs[..i])
    {
      BuildableSoFar(f, jobs, i);
      assert jobs[..i + 1][..i] == jobs[..i];
      var more := BuildJob(f, jobs[i], n);
      if more.Err? { return more; }
      containers := containers + more.value;
    }
    if !f.disableLogSidecar {
      containers := containers + [LogsTailer()];
    }
    return Ok(containers);
  }

  // ---------------------------------------------------------------- init containers

  function SpecCopier(f: Factory, release: string): Container {
    Container(f.nm.sanitized("spec-copier-" + release), [Plain(RENDERING_DATA, RENDERING_PATH)], NoHandler)
  }

  function TemplateRender(igName: string): Container {
    Container("template-render",
      [Plain(RENDERING_DATA, RENDERING_PATH), Plain(JOBS_DIR, JOBS_PATH),
       VolumeMount(IG_RESOLVED, "/var/run/secrets/resolved-properties/" + igName, "", true)], NoHandler)
  }

  function CreateDirs(f: Factory): Container {
    Container("create-dirs", [Plain(f.nm.dataDir, DATA_PATH), Plain(SYS_DIR, SYS_PATH)], NoHandler)
  }

  function WaitFor(service: Option<string>): seq<Container> {
    match service
    case None => []
    case Some(s) => [Container("wait-for-" + s, [], NoHandler)]
  }

  function ContainerRunCopier(): Container {
    Container("container-run-copier", [Plain(RENDERING_DATA, RENDERING_PATH)], NoHandler)
  }

  function BoshPreStart(f: Factory, job: Job): Container {
    Container(f.nm.sanitized("bosh-pre-start-" + job.name), PreStartMounts(f), NoHandler)
  }

  function BpmPreStart(f: Factory, job: Job, p: Process): Container {
    Container(f.nm.sanitized("bpm-pre-start-" + p.name), ProcessMounts(f, job, p), NoHandler)
  }

  function BpmPreStarts(f: Factory, job: Job, ps: seq<Process>): seq<Container> {
    if ps == [] then []
    else
      var p := ps[|ps| - 1];
      BpmPreStarts(f, job, ps[..|ps| - 1]) + if p.preStart then [BpmPreStart(f, job, p)] else []
  }

  function Releases(jobs: seq<Job>): set<string> {
    set i | 0 <= i < |jobs| :: jobs[i].release
  }

  function SpecCopiers(f: Factory, jobs: seq<Job>): seq<Container> {
    if jobs == [] then []
    else
      var before, last := jobs[..|jobs| - 1], jobs[|jobs| - 1];
      SpecCopiers(f, before) + if last.release in Releases(before) then [] else [SpecCopier(f, last.release)]
  }

  function AllBpmPreStarts(f: Factory, jobs: seq<Job>): seq<Container> {
    if jobs == [] then []
    else
      var last := jobs[|jobs| - 1];
      AllBpmPreStarts(f, jobs[..|jobs| - 1]) + BpmPreStarts(f, last, ProcessesOf(f.configs, last))
  }

  function BoshPreStarts(f: Factory, jobs: seq<Job>): seq<Container> {
    seq(|jobs|, i requires 0 <= i < |jobs| => BoshPreStart(f, jobs[i]))
  }

  function InitContainers(f: Factory, jobs: seq<Job>, igName: string, required: Option<string>): seq<Container> {
    var cs := SpecCopiers(f, jobs) + [TemplateRender(igName)] + [CreateDirs(f)] + WaitFor(required)
              + BoshPreStarts(f, jobs) + AllBpmPreStarts(f, jobs);
    if f.errand then cs else [ContainerRunCopier()] + cs
  }

  /** `prependContainer`: the list is shifted by one. */
  method PrependContainer(l: seq<Container>, c: Container) returns (r: seq<Container>)
    ensures r == [c] + l
  {
    r := l + [c];
    var i := |l|;
    while i > 0
      invariant 0 <= i <= |l| && |r| == |l| + 1
      invariant r[..i] == l[..i] && r[i + 1..] == l[i..]
    {
      r := r[i := r[i - 1]];
      i := i - 1;
    }
    r := r[0 := c];
  }

  method JobPreStarts(f: Factory, job: Job) returns (r: seq<Container>)
    requires ProcessDisksMount(f.bpmDisks) && job.name in f.configs
    ensures r == BpmPreStarts(f, job, ProcessesOf(f.configs, job))
  {
    r := [];
    var processes := f.configs[job.name];
    var jobDisks := Filter(f.bpmDisks, "job_name", job.name);
    var ephemeral, persistent := BPMMounts(jobDisks);
    for i := 0 to |processes|
      invariant r == BpmPreStarts(f, job, processes[..i])
    {
      assert processes[..i + 1][..i] == processes[..i];
      if processes[i].preStart {
        var ms := MountsOf(f, jobDisks, ephemeral, persistent, job, processes[i]);
        r := r + [Container(f.nm.sanitized("bpm-pre-start-" + processes[i].name), ms, NoHandler)];
      }
    }
    assert processes[..|processes|] == processes;
  }

  lemma ReleasesOfOneMore(jobs: seq<Job>, i: nat)
    requires i < |jobs|
    ensures Releases(jobs[..i + 1]) == Releases(jobs[..i]) + {jobs[i].release}
  {
    var more, some := jobs[..i + 1], jobs[..i];
    assert more[i] == jobs[i] && forall k | 0 <= k < i :: more[k] == some[k];
    forall r | r in Releases(some) ensures r in Releases(more) {
      var k :| 0 <= k < |some| && some[k].release == r;
      assert more[k].release == r;
    }
  }

  lemma OneMoreInit(f: Factory, jobs: seq<Job>, i: nat)
    requires i < |jobs|
    ensures Releases(jobs[..i + 1]) == Releases(jobs[..i]) + {jobs[i].release}
    ensures SpecCopiers(f, jobs[..i + 1]) ==
            SpecCopiers(f, jobs[..i]) +
            if jobs[i].release in Releases(jobs[..i]) then [] else [SpecCopier(f, jobs[i].release)]
    ensures BoshPreStarts(f, jobs[..i + 1]) == BoshPreStarts(f, jobs[..i]) + [BoshPreStart(f, jobs[i])]
    ensures AllBpmPreStarts(f, jobs[..i + 1]) ==
            AllBpmPreStarts(f, jobs[..i]) + BpmPreStarts(f, jobs[i], ProcessesOf(f.configs, jobs[i]))
  {
    assert jobs[..i + 1][..i] == jobs[..i];
    ReleasesOfOneMore(jobs, i);
  }

  predicate IsFound(f: Factory, job: Job) {
    f.hasImage(job.name) && job.name in f.configs
  }

  /** Every job has an image and a BPM config. */
  predicate AllFound(f: Factory, jobs: seq<Job>) {
    jobs != [] ==> AllFound(f, jobs[..|jobs| - 1]) && IsFound(f, jobs[|jobs| - 1])
  }

  lemma {:induction false} AllFoundIff(f: Factory, jobs: seq<Job>)
    ensures AllFound(f, jobs) <==>
            forall i | 0 <= i < |jobs| :: f.hasImage(jobs[i].name) && jobs[i].name in f.configs
    decreases |jobs|
  {
    if jobs == [] {
    } else {
      AllFoundIff(f, jobs[..|jobs| - 1]);
    }
  }

  lemma {:induction false} FoundSoFar(f: Factory, jobs: seq<Job>, i: nat)
    requires i < |jobs|
    ensures AllFound(f, jobs[..i + 1]) == (AllFound(f, jobs[..i]) && IsFound(f, jobs[i]))
    ensures AllFound(f, jobs) ==> AllFound(f, jobs[..i + 1])
    decreases |jobs|
  {
    assert jobs[..i + 1][..i] == jobs[..i];
    if i + 1 == |jobs| {
      assert jobs[..i + 1] == jobs;
    } else {
      var before := jobs[..|jobs| - 1];
      FoundSoFar(f, before, i);
      assert before[..i + 1] == jobs[..i + 1];
    }
  }

  /** The init containers that depend on the jobs: spec copiers, BOSH pre-starts, BPM pre-starts. */
  method CollectJobInits(f: Factory, jobs: seq<Job>)
    returns (ok: bool, copying: seq<Container>, boshPreStart: seq<Container>, bpmPreStart: seq<Container>)
    requires ProcessDisksMount(f.bpmDisks)
    ensures ok <==> AllFound(f, jobs)
    ensures ok ==> copying == SpecCopiers(f, jobs) && boshPreStart == BoshPreStarts(f, jobs)
    ensures ok ==> bpmPreStart == AllBpmPreStarts(f, jobs)
  {
    copying, boshPreStart, bpmPreStart := [], [], [];
    var uniq: set<string> := {};
    for i := 0 to |jobs|
      invariant AllFound(f, jobs[..i])
      invariant uniq == Releases(jobs[..i]) && copying == SpecCopiers(f, jobs[..i])
      invariant boshPreStart == BoshPreStarts(f, jobs[..i]) && bpmPreStart == AllBpmPreStarts(f, jobs[..i])
    {
      var job := jobs[i];
      OneMoreInit(f, jobs, i);
      FoundSoFar(f, jobs, i);
      if !f.hasImage(job.name) { return false, copying, boshPreStart, bpmPreStart; }
      if job.release !in uniq {
        uniq := uniq + {job.release};
        copying := copying + [SpecCopier(f, job.release)];
      }
      if job.name !in f.configs { return false, copying, boshPreStart, bpmPreStart; }
      var more := JobPreStarts(f, job);
      bpmPreStart := bpmPreStart + more;
      boshPreStart := boshPreStart + [BoshPreStart(f, job)];
    }
    assert jobs[..|jobs|] == jobs;
    ok := true;
  }

  method JobsToInitContainers(f: Factory, jobs: seq<Job>, igName: string, required: Option<string>)
    returns (r: Result<seq<Container>>)
    requires ProcessDisksMount(f.bpmDisks)
    ensures r.Ok? <==> AllFound(f, jobs)
    ensures r.Ok? ==> r.value == InitContainers(f, jobs, igName, required)
  {
    var ok, copying, boshPreStart, bpmPreStart := CollectJobInits(f, jobs);
    if !ok { return Err("release image or bpm config not found"); }
    var cs := copying;
    cs := cs + [TemplateRender(igName)];
    cs := cs + [CreateDirs(f)];
    cs := cs + WaitFor(required);
    cs := cs + boshPreStart;
    cs := cs + bpmPreStart;
    if !f.errand {
      cs := PrependContainer(cs, ContainerRunCopier());
    }
    return Ok(cs);
  }

  // ---------------------------------------------------------------- the order of the init containers

  /** How many init containers run before the templates are rendered. */
  function Copying(f: Factory, jobs: seq<Job>): nat {
    (if f.errand then 0 else 1) + |Releases(jobs)|
  }

  /** One spec copier per release. */
  lemma {:induction false} CopierCount(f: Factory, jobs: seq<Job>)
    ensures |SpecCopiers(f, jobs)| == |Releases(jobs)|
    decreases |jobs|
  {
    if jobs == [] {
    } else {
      var before := jobs[..|jobs| - 1];
      CopierCount(f, before);
      ReleasesOfOneMore(jobs, |jobs| - 1);
      assert jobs[..|jobs|] == jobs;
      if jobs[|jobs| - 1].release in Releases(before) {
        assert Releases(jobs) == Releases(before);
      }
    }
  }

  lemma {:induction false} ReleaseIsCopied(f: Factory, jobs: seq<Job>, i: nat)
    requires i < |jobs|
    ensures SpecCopier(f, jobs[i].release) in SpecCopiers(f, jobs)
    decreases |jobs|
  {
    var before, last := jobs[..|jobs| - 1], jobs[|jobs| - 1];
    if i < |jobs| - 1 {
      ReleaseIsCopied(f, before, i);
    } else if last.release in Releases(before) {
      var k: nat :| k < |before| && before[k].release == last.release;
      ReleaseIsCopied(f, before, k);
    }
  }

  /** Exactly the processes with a pre-start hook get a container for it, with the mounts of the process. */
  ghost predicate IsPreStartOf(f: Factory, job: Job, p: Process, c: Container) {
    p.preStart && c == Container(f.nm.sanitized("bpm-pre-start-" + p.name), ProcessMounts(f, job, p), NoHandler)
  }

  ghost predicate IsJobPreStart(f: Factory, job: Job, c: Container) {
    job.name in f.configs && exists p | p in f.configs[job.name] :: IsPreStartOf(f, job, p, c)
  }

  lemma {:induction false} BpmPreStartsIff(f: Factory, job: Job, ps: seq<Process>, c: Container)
    ensures c in BpmPreStarts(f, job, ps) <==> exists p | p in ps :: IsPreStartOf(f, job, p, c)
    decreases |ps|
  {
    if ps == [] {
    } else {
      BpmPreStartsIff(f, job, ps[..|ps| - 1], c);
      assert ps == ps[..|ps| - 1] + [ps[|ps| - 1]];
      if c in BpmPreStarts(f, job, ps) && c !in BpmPreStarts(f, job, ps[..|ps| - 1]) {
        assert IsPreStartOf(f, job, ps[|ps| - 1], c);
      }
    }
  }

  lemma {:induction false} AllBpmPreStartsIff(f: Factory, jobs: seq<Job>, c: Container)
    ensures c in AllBpmPreStarts(f, jobs) <==> exists i | 0 <= i < |jobs| :: IsJobPreStart(f, jobs[i], c)
    decreases |jobs|
  {
    if jobs == [] {
    } else {
      var before, last := jobs[..|jobs| - 1], jobs[|jobs| - 1];
      AllBpmPreStartsIff(f, before, c);
      BpmPreStartsIff(f, last, ProcessesOf(f.configs, last), c);
      if c in AllBpmPreStarts(f, before) {
        var i :| 0 <= i < |before| && IsJobPreStart(f, before[i], c);
        assert IsJobPreStart(f, jobs[i], c);
      }
      if i :| 0 <= i < |jobs| && IsJobPreStart(f, jobs[i], c) {
        if i < |before| {
          assert IsJobPreStart(f, before[i], c);
        }
      }
    }
  }

  /** The containers before the pre-starts: the copying ones, then rendering, directories, and the waiting if any. */
  ghost predicate StartsAsPlanned(f: Factory, jobs: seq<Job>, igName: string, required: Option<string>,
                                  cs: seq<Container>)
  {
    var n, rendering := Copying(f, jobs), VolumeMount("rendering-data", "/var/vcap/all-releases", "", false);
    && |cs| == n + (if required.None? then 2 else 3)
    && (!f.errand ==> cs[0] == Container("container-run-copier", [rendering], NoHandler))
    && (forall i | 0 <= i < |jobs| ::
          Container(f.nm.sanitized("spec-copier-" + jobs[i].release), [rendering], NoHandler) in cs[..n])
    && cs[n] == Container("template-render",
                  [rendering, VolumeMount("jobs-dir", "/var/vcap/jobs", "", false),
                   VolumeMount("ig-resolved", "/var/run/secrets/resolved-properties/" + igName, "", true)], NoHandler)
    && cs[n + 1] == Container("create-dirs",
                      [VolumeMount(f.nm.dataDir, "/var/vcap/data", "", false),
                       VolumeMount("sys-dir", "/var/vcap/sys", "", false)], NoHandler)
    && (required.Some? ==> cs[n + 2] == Container("wait-for-" + required.value, [], NoHandler))
  }

  /** The pre-starts: of every job in order, then of every process with a hook. */
  ghost predicate PreStartsAsPlanned(f: Factory, jobs: seq<Job>, cs: seq<Container>) {
    && |cs| >= |jobs|
    && (forall i | 0 <= i < |jobs| :: cs[i].name == f.nm.sanitized("bosh-pre-start-" + jobs[i].name))
    && forall c :: c in cs[|jobs|..] <==> exists i | 0 <= i < |jobs| :: IsJobPreStart(f, jobs[i], c)
  }

  /** The init containers that run before the pre-starts. */
  function InitFront(f: Factory, jobs: seq<Job>, igName: string, required: Option<string>): seq<Container> {
    (if f.errand then [] else [ContainerRunCopier()]) + SpecCopiers(f, jobs) +
    ([TemplateRender(igName)] + [CreateDirs(f)]) + WaitFor(required)
  }

  lemma FrontAsPlanned(f: Factory, jobs: seq<Job>, igName: string, required: Option<string>)
    ensures StartsAsPlanned(f, jobs, igName, required, InitFront(f, jobs, igName, required))
  {
    CopierCount(f, jobs);
    var front, n := InitFront(f, jobs, igName, required), Copying(f, jobs);
    var copiers := (if f.errand then [] else [ContainerRunCopier()]) + SpecCopiers(f, jobs);
    assert front[..n] == copiers;
    forall i | 0 <= i < |jobs| ensures SpecCopier(f, jobs[i].release) in front[..n] {
      ReleaseIsCopied(f, jobs, i);
    }
    assert front[n] == TemplateRender(igName) && front[n + 1] == CreateDirs(f);
  }

  lemma RestAsPlanned(f: Factory, jobs: seq<Job>)
    ensures PreStartsAsPlanned(f, jobs, BoshPreStarts(f, jobs) + AllBpmPreStarts(f, jobs))
  {
    var rest := BoshPreStarts(f, jobs) + AllBpmPreStarts(f, jobs);
    assert rest[|jobs|..] == AllBpmPreStarts(f, jobs);
    forall c ensures c in rest[|jobs|..] <==> exists i | 0 <= i < |jobs| :: IsJobPreStart(f, jobs[i], c) {
      AllBpmPreStartsIff(f, jobs, c);
    }
  }

  lemma FrontThenRest(f: Factory, jobs: seq<Job>, igName: string, required: Option<string>)
    ensures InitContainers(f, jobs, igName, required) ==
            InitFront(f, jobs, igName, required) + (BoshPreStarts(f, jobs) + AllBpmPreStarts(f, jobs))
  {
    Regrouped([ContainerRunCopier()], SpecCopiers(f, jobs), [TemplateRender(igName)], [CreateDirs(f)],
              WaitFor(required), BoshPreStarts(f, jobs), AllBpmPreStarts(f, jobs));
  }

  lemma Regrouped<T>(first: seq<T>, a: seq<T>, b: seq<T>, c: seq<T>, d: seq<T>, e: seq<T>, g: seq<T>)
    ensures a + b + c + d + e + g == [] + a + (b + c) + d + (e + g)
    ensures first + (a + b + c + d + e + g) == first + a + (b + c) + d + (e + g)
  {
    assert a + b + c + d + e + g == a + (b + c) + d + (e + g);
    assert [] + a == a;
    assert first + (a + (b + c) + d + (e + g)) == first + a + (b + c) + d + (e + g);
  }

  /**
   The init containers run one after the other.  The pods wait for the required service before
   any pre-start script runs, and after everything that does not need the service.
   */
  lemma WaitsBeforePreStarts(f: Factory, jobs: seq<Job>, igName: string, required: Option<string>)
    ensures var cs := InitContainers(f, jobs, igName, required);
            var n := Copying(f, jobs) + (if required.None? then 2 else 3);
            && |cs| >= n
            && StartsAsPlanned(f, jobs, igName, required, cs[..n]) && PreStartsAsPlanned(f, jobs, cs[n..])
  {
    var front, rest := InitFront(f, jobs, igName, required), BoshPreStarts(f, jobs) + AllBpmPreStarts(f, jobs);
    FrontThenRest(f, jobs, igName, required);
    FrontAsPlanned(f, jobs, igName, required);
    RestAsPlanned(f, jobs);
    assert (front + rest)[..|front|] == front && (front + rest)[|front|..] == rest;
  }
}
