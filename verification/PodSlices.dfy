/**
 The mounts of a whole pod as Go slices: every container that starts from the default mounts
 appends to the one slice of them, in the order in which the containers are built.
 */
module PodSlices {
  import opened Wrappers
  import opened Mounts
  import opened MountSlices
  import opened Disks
  import opened Containers

  /** What a BOSH pre-start container mounts besides the defaults: the mounts of all disks. */
  function PreStartExtra(f: Factory): Extra {
    Extra(VolumeMounts(f.bpmDisks), None, None)
  }

  lemma PreStartExtraIsMounted(f: Factory)
    ensures ContainerMounts(f.defaults, PreStartExtra(f)) == PreStartMounts(f)
  {
    var ms := f.defaults + VolumeMounts(f.bpmDisks);
    assert ms + [] + [] == ms;
  }

  /** A container, and what was appended to the default mounts for it. */
  datatype Built = Built(container: Container, extra: Extra)

  ghost predicate IsBuilt(f: Factory, b: Built) {
    b.container.mounts == ContainerMounts(f.defaults, b.extra)
  }

  ghost predicate AllBuilt(f: Factory, bs: seq<Built>) {
    forall i | 0 <= i < |bs| :: IsBuilt(f, bs[i])
  }

  function ContainersIn(bs: seq<Built>): seq<Container> {
    seq(|bs|, i requires 0 <= i < |bs| => bs[i].container)
  }

  function ExtrasIn(bs: seq<Built>): seq<Extra> {
    seq(|bs|, i requires 0 <= i < |bs| => bs[i].extra)
  }

  lemma ContainersInBoth(a: seq<Built>, b: seq<Built>)
    ensures ContainersIn(a + b) == ContainersIn(a) + ContainersIn(b)
  {
  }

  // ---------------------------------------------------------------- in the order of building

  /** The pre-start containers of the processes of one job. */
  function BuiltPreStarts(f: Factory, job: Job, ps: seq<Process>): seq<Built>
    decreases |ps|
  {
    if ps == [] then []
    else
      var p := ps[|ps| - 1];
      BuiltPreStarts(f, job, ps[..|ps| - 1]) +
      if p.preStart then [Built(BpmPreStart(f, job, p), ExtraFor(f, job, p))] else []
  }

  /** Job by job: first the pre-starts of the processes, then the one of the job. */
  function BuiltInits(f: Factory, jobs: seq<Job>): seq<Built>
    decreases |jobs|
  {
    if jobs == [] then []
    else
      var job := jobs[|jobs| - 1];
      BuiltInits(f, jobs[..|jobs| - 1]) + BuiltPreStarts(f, job, ProcessesOf(f.configs, job)) +
      [Built(BoshPreStart(f, job), PreStartExtra(f))]
  }

  function BuiltJob(f: Factory, job: Job, ps: seq<Process>, count: nat): seq<Built> {
    seq(|ps|, i requires 0 <= i < |ps| => Built(JobContainers(f, job, ps, count)[i], ExtraFor(f, job, ps[i])))
  }

  function BuiltMains(f: Factory, jobs: seq<Job>, count: nat): seq<Built>
    decreases |jobs|
  {
    if jobs == [] then []
    else
      var job := jobs[|jobs| - 1];
      BuiltMains(f, jobs[..|jobs| - 1], count) + BuiltJob(f, job, ProcessesOf(f.configs, job), count)
  }

  lemma {:induction false} PreStartsAreBuilt(f: Factory, job: Job, ps: seq<Process>)
    ensures ContainersIn(BuiltPreStarts(f, job, ps)) == BpmPreStarts(f, job, ps)
    decreases |ps|
  {
    if ps == [] {
    } else {
      PreStartsAreBuilt(f, job, ps[..|ps| - 1]);
    }
  }

  lemma OneMoreInit(f: Factory, jobs: seq<Job>)
    requires jobs != []
    ensures var before, job := jobs[..|jobs| - 1], jobs[|jobs| - 1];
            ContainersIn(BuiltInits(f, jobs)) ==
            ContainersIn(BuiltInits(f, before)) + BpmPreStarts(f, job, ProcessesOf(f.configs, job)) +
            [BoshPreStart(f, job)]
  {
    var before, job := jobs[..|jobs| - 1], jobs[|jobs| - 1];
    var starts := BuiltPreStarts(f, job, ProcessesOf(f.configs, job));
    var own := [Built(BoshPreStart(f, job), PreStartExtra(f))];
    PreStartsAreBuilt(f, job, ProcessesOf(f.configs, job));
    ContainersInBoth(BuiltInits(f, before), starts);
    ContainersInBoth(BuiltInits(f, before) + starts, own);
    assert ContainersIn(own) == [BoshPreStart(f, job)];
  }

  lemma OneMoreBoshPreStart(f: Factory, jobs: seq<Job>)
    requires jobs != []
    ensures BoshPreStarts(f, jobs) == BoshPreStarts(f, jobs[..|jobs| - 1]) + [BoshPreStart(f, jobs[|jobs| - 1])]
  {
  }

  ghost predicate Regroups(built: seq<Container>, bosh: seq<Container>, bpm: seq<Container>) {
    multiset(built) == multiset(bosh) + multiset(bpm)
  }

  lemma RegroupsOneMore(built: seq<Container>, bosh: seq<Container>, bpm: seq<Container>,
                        starts: seq<Container>, own: Container)
    requires Regroups(built, bosh, bpm)
    ensures Regroups(built + starts + [own], bosh + [own], bpm + starts)
  {
  }

  /** The init containers are built in another order than they are listed, but they are the same ones. */
  lemma {:induction false} InitsAreBuilt(f: Factory, jobs: seq<Job>)
    ensures Regroups(ContainersIn(BuiltInits(f, jobs)), BoshPreStarts(f, jobs), AllBpmPreStarts(f, jobs))
    decreases |jobs|
  {
    if jobs == [] {
      assert ContainersIn(BuiltInits(f, jobs)) == [] && BoshPreStarts(f, jobs) == [];
    } else {
      var before, job := jobs[..|jobs| - 1], jobs[|jobs| - 1];
      InitsAreBuilt(f, before);
      OneMoreInit(f, jobs);
      OneMoreBoshPreStart(f, jobs);
      RegroupsOneMore(ContainersIn(BuiltInits(f, before)), BoshPreStarts(f, before), AllBpmPreStarts(f, before),
                      BpmPreStarts(f, job, ProcessesOf(f.configs, job)), BoshPreStart(f, job));
    }
  }

  lemma {:induction false} MainsAreBuilt(f: Factory, jobs: seq<Job>, count: nat)
    ensures ContainersIn(BuiltMains(f, jobs, count)) == ContainersOf(f, jobs, count)
    decreases |jobs|
  {
    if jobs == [] {
    } else {
      var before, job := jobs[..|jobs| - 1], jobs[|jobs| - 1];
      var ps := ProcessesOf(f.configs, job);
      MainsAreBuilt(f, before, count);
      ContainersInBoth(BuiltMains(f, before, count), BuiltJob(f, job, ps, count));
      assert ContainersIn(BuiltJob(f, job, ps, count)) == JobContainers(f, job, ps, count);
    }
  }

  /** Everything that starts from the default mounts: the init containers first, then the main ones. */
  function BuiltPod(f: Factory, jobs: seq<Job>): seq<Built> {
    BuiltInits(f, jobs) + BuiltMains(f, jobs, |DrainJobs(f, jobs)|)
  }

  lemma {:induction false} PreStartsMount(f: Factory, job: Job, ps: seq<Process>)
    ensures AllBuilt(f, BuiltPreStarts(f, job, ps))
    decreases |ps|
  {
    if ps == [] {
    } else {
      PreStartsMount(f, job, ps[..|ps| - 1]);
    }
  }

  lemma {:induction false} InitsMount(f: Factory, jobs: seq<Job>)
    ensures AllBuilt(f, BuiltInits(f, jobs))
    decreases |jobs|
  {
    if jobs == [] {
    } else {
      var job := jobs[|jobs| - 1];
      InitsMount(f, jobs[..|jobs| - 1]);
      PreStartsMount(f, job, ProcessesOf(f.configs, job));
      PreStartExtraIsMounted(f);
    }
  }

  lemma {:induction false} MainsMount(f: Factory, jobs: seq<Job>, count: nat)
    ensures AllBuilt(f, BuiltMains(f, jobs, count))
    decreases |jobs|
  {
    if jobs == [] {
    } else {
      MainsMount(f, jobs[..|jobs| - 1], count);
    }
  }

  /**
   Building a whole pod on slices: whatever spare capacity the default slice has, in the end
   every container has the mounts that it has as a value, in an array of its own, and the
   default list is as it was.
   */
  method BuildPodSlices(f: Factory, jobs: seq<Job>, defaults: Slice, spare: nat) returns (slices: seq<Slice>)
    requires IsSlice(defaults) && Contents(defaults) == f.defaults
    modifies defaults.backing
    ensures Contents(defaults) == f.defaults
    ensures |slices| == |BuiltPod(f, jobs)|
    ensures forall k | 0 <= k < |slices| ::
              && IsSlice(slices[k]) && fresh(slices[k].backing)
              && Contents(slices[k]) == BuiltPod(f, jobs)[k].container.mounts
  {
    var built := BuiltPod(f, jobs);
    InitsMount(f, jobs);
    MainsMount(f, jobs, |DrainJobs(f, jobs)|);
    slices := BuildAll(defaults, ExtrasIn(built), spare);
    assert forall k | 0 <= k < |built| :: IsBuilt(f, built[k]) && ExtrasIn(built)[k] == built[k].extra;
  }

  /** These are the pre-start containers and the job containers of the pod, all of them and no others. */
  lemma PodIsBuilt(f: Factory, jobs: seq<Job>)
    ensures multiset(ContainersIn(BuiltPod(f, jobs))) ==
            multiset(BoshPreStarts(f, jobs)) + multiset(AllBpmPreStarts(f, jobs)) +
            multiset(ContainersOf(f, jobs, |DrainJobs(f, jobs)|))
  {
    var count := |DrainJobs(f, jobs)|;
    InitsAreBuilt(f, jobs);
    MainsAreBuilt(f, jobs, count);
    ContainersInBoth(BuiltInits(f, jobs), BuiltMains(f, jobs, count));
  }
}
