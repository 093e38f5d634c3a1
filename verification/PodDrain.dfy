/** The drain barrier of a generated pod: the generator and the scripts it generates, together. */
module PodDrain {
  import opened Disks
  import opened DrainBarrier
  import opened Containers

  function Handlers(cs: seq<Container>): seq<PreStop> {
    seq(|cs|, i requires 0 <= i < |cs| => cs[i].preStop)
  }

  /** The jobs of the drain scripts among the handlers, in order. */
  function ScriptNames(hs: seq<PreStop>): seq<string> {
    if hs == [] then []
    else
      var last := hs[|hs| - 1];
      ScriptNames(hs[..|hs| - 1]) + if last.DrainScript? then [last.job] else []
  }

  lemma {:induction false} ScriptNamesOfBoth(a: seq<PreStop>, b: seq<PreStop>)
    ensures ScriptNames(a + b) == ScriptNames(a) + ScriptNames(b)
    decreases |b|
  {
    if b == [] {
      assert a + b == a;
    } else {
      assert (a + b)[..|a + b| - 1] == a + b[..|b| - 1];
      ScriptNamesOfBoth(a, b[..|b| - 1]);
    }
  }

  lemma ScriptsOfOneMore(hs: seq<PreStop>)
    requires hs != []
    ensures var n := |hs| - 1;
            Scripts(hs) == Scripts(hs[..n]) + if hs[n].DrainScript? then {n} else {}
  {
  }

  lemma {:induction false} ScriptCount(hs: seq<PreStop>)
    ensures |Scripts(hs)| == |ScriptNames(hs)|
    decreases |hs|
  {
    if hs == [] {
    } else {
      ScriptCount(hs[..|hs| - 1]);
      ScriptsOfOneMore(hs);
    }
  }

  lemma {:induction false} ScriptNamesAreJobs(hs: seq<PreStop>, name: string)
    ensures name in ScriptNames(hs) <==> exists i | i in Scripts(hs) :: hs[i].job == name
    decreases |hs|
  {
    if hs == [] {
    } else {
      var before := hs[..|hs| - 1];
      ScriptNamesAreJobs(before, name);
      ScriptsOfOneMore(hs);
      if i :| i in Scripts(before) && before[i].job == name {
        assert hs[i].job == name;
      }
    }
  }

  ghost predicate DistinctAndVisible(names: seq<string>) {
    && (forall i | 0 <= i < |names| :: names[i] != "" && names[i][0] != '.')
    && (forall i, j | 0 <= i < j < |names| :: names[i] != names[j])
  }

  lemma DistinctOfOneMore(hs: seq<PreStop>)
    requires hs != [] && hs[|hs| - 1].DrainScript?
    ensures var before, h := hs[..|hs| - 1], hs[|hs| - 1];
            DistinctStamps(hs) <==> DistinctStamps(before) && Visible(h.job) && h.job !in ScriptNames(before)
  {
    var before, h := hs[..|hs| - 1], hs[|hs| - 1];
    ScriptsOfOneMore(hs);
    ScriptNamesAreJobs(before, h.job);
    assert forall i | i in Scripts(before) :: hs[i] == before[i];
    if DistinctStamps(hs) {
      assert |hs| - 1 in Scripts(hs);
      forall i | i in Scripts(before) ensures Visible(before[i].job) && before[i].job != h.job {
        assert i in Scripts(hs);
      }
      forall i, j | i in Scripts(before) && j in Scripts(before) && i != j ensures before[i].job != before[j].job {
        assert i in Scripts(hs) && j in Scripts(hs);
      }
    }
  }

  lemma {:induction false} DistinctStampsIff(hs: seq<PreStop>)
    ensures DistinctStamps(hs) <==> DistinctAndVisible(ScriptNames(hs))
    decreases |hs|
  {
    if hs == [] {
    } else {
      var before, h := hs[..|hs| - 1], hs[|hs| - 1];
      DistinctStampsIff(before);
      if h.DrainScript? {
        DistinctOfOneMore(hs);
        NamesOfOneMore(ScriptNames(before), h.job);
      } else {
        DistinctUnchanged(hs);
        assert ScriptNames(hs) == ScriptNames(before);
      }
    }
  }

  lemma DistinctUnchanged(hs: seq<PreStop>)
    requires hs != [] && !hs[|hs| - 1].DrainScript?
    ensures DistinctStamps(hs) <==> DistinctStamps(hs[..|hs| - 1])
  {
    var before := hs[..|hs| - 1];
    ScriptsOfOneMore(hs);
    assert Scripts(hs) == Scripts(before);
    assert forall i | i in Scripts(before) :: hs[i] == before[i];
    if DistinctStamps(hs) {
      forall i, j | i in Scripts(before) && j in Scripts(before) && i != j ensures before[i].job != before[j].job {
        assert hs[i].job != hs[j].job;
      }
      forall i | i in Scripts(before) ensures Visible(before[i].job) {
        assert Visible(hs[i].job);
      }
    }
  }

  lemma NamesOfOneMore(names: seq<string>, name: string)
    ensures DistinctAndVisible(names + [name]) <==> DistinctAndVisible(names) && Visible(name) && name !in names
  {
    var all := names + [name];
    assert all[|names|] == name && forall i | 0 <= i < |names| :: all[i] == names[i];
  }

  // ---------------------------------------------------------------- what the generator makes

  lemma {:induction false} JobHandlers(f: Factory, job: Job, ps: seq<Process>, n: nat, count: nat)
    requires !f.errand && n <= |ps|
    ensures ScriptNames(Handlers(JobContainers(f, job, ps, count))[..n]) == if n == 0 then [] else [job.name]
    decreases n
  {
    var hs := Handlers(JobContainers(f, job, ps, count));
    if n == 0 {
    } else {
      JobHandlers(f, job, ps, n - 1, count);
      assert hs[..n][..n - 1] == hs[..n - 1];
      assert hs[n - 1] == HandlerFor(f, job, n - 1, count);
    }
  }

  lemma JobScripts(f: Factory, job: Job, ps: seq<Process>, count: nat)
    requires !f.errand
    ensures ScriptNames(Handlers(JobContainers(f, job, ps, count))) == if ps == [] then [] else [job.name]
  {
    var hs := Handlers(JobContainers(f, job, ps, count));
    JobHandlers(f, job, ps, |ps|, count);
    assert hs[..|ps|] == hs;
  }

  lemma ScriptsOfBoth(a: seq<Container>, b: seq<Container>)
    ensures ScriptNames(Handlers(a + b)) == ScriptNames(Handlers(a)) + ScriptNames(Handlers(b))
  {
    assert Handlers(a + b) == Handlers(a) + Handlers(b);
    ScriptNamesOfBoth(Handlers(a), Handlers(b));
  }

  lemma {:induction false} GeneratedScripts(f: Factory, jobs: seq<Job>, count: nat)
    requires !f.errand
    ensures ScriptNames(Handlers(ContainersOf(f, jobs, count))) == DrainJobs(f, jobs)
    decreases |jobs|
  {
    if jobs == [] {
    } else {
      var before, last := jobs[..|jobs| - 1], jobs[|jobs| - 1];
      var ps := ProcessesOf(f.configs, last);
      GeneratedScripts(f, before, count);
      JobScripts(f, last, ps, count);
      ScriptsOfBoth(ContainersOf(f, before, count), JobContainers(f, last, ps, count));
    }
  }

  lemma {:induction false} GeneratedCounts(f: Factory, jobs: seq<Job>, count: nat, i: nat)
    requires i < |ContainersOf(f, jobs, count)|
    ensures var h := ContainersOf(f, jobs, count)[i].preStop;
            if f.errand then h.NoHandler? else !h.NoHandler? && h.count == count
    decreases |jobs|
  {
    var before, last := jobs[..|jobs| - 1], jobs[|jobs| - 1];
    if i < |ContainersOf(f, before, count)| {
      GeneratedCounts(f, before, count, i);
    }
  }

  lemma PodScripts(f: Factory, jobs: seq<Job>)
    requires !f.errand
    ensures ScriptNames(Handlers(MainContainers(f, jobs))) == DrainJobs(f, jobs)
  {
    var cs := ContainersOf(f, jobs, |DrainJobs(f, jobs)|);
    GeneratedScripts(f, jobs, |DrainJobs(f, jobs)|);
    if !f.disableLogSidecar {
      assert Handlers(cs + [LogsTailer()]) == Handlers(cs) + [NoHandler];
      ScriptNamesOfBoth(Handlers(cs), [NoHandler]);
      assert [NoHandler][..0] == [];
    } else {
      assert cs + [] == cs;
    }
  }

  /** The count that is written into every handler of a pod is the number of its stamp writers. */
  lemma GeneratedBarrier(f: Factory, jobs: seq<Job>)
    requires !f.errand
    ensures Barrier(Handlers(MainContainers(f, jobs)))
  {
    var count := |DrainJobs(f, jobs)|;
    var hs := Handlers(MainContainers(f, jobs));
    PodScripts(f, jobs);
    ScriptCount(hs);
    forall i | 0 <= i < |hs| && !hs[i].NoHandler? ensures hs[i].count == |Scripts(hs)| {
      GeneratedCounts(f, jobs, count, i);
    }
  }

  /**
   In every interleaving of the handlers of a generated pod, no container's handler exits
   before the drain of every job with processes has ended.
   */
  lemma PodDrainsSafely(f: Factory, jobs: seq<Job>, w: World, schedule: nat -> nat, t: nat, i: nat, j: nat)
    requires !f.errand
    requires var hs := Handlers(MainContainers(f, jobs));
             i < |hs| && At(w, hs, schedule, t).phases[i].Exited? && j < |hs| && hs[j].DrainScript?
    ensures var hs := Handlers(MainContainers(f, jobs));
            var s := At(w, hs, schedule, t);
            var job, runs := hs[j].job, s.runs[j];
            && (!w.executable(job) ==> runs == 0)
            && (w.executable(job) ==>
                  && runs > 0
                  && (forall k | 0 <= k < runs - 1 :: w.drain(job, k).Wrote? && w.drain(job, k).number < 0)
                  && !(w.drain(job, runs - 1).Wrote? && w.drain(job, runs - 1).number < 0))
  {
    GeneratedBarrier(f, jobs);
    NoExitBeforeDrainsEnd(w, Handlers(MainContainers(f, jobs)), schedule, t, i, j);
  }

  /** Every job's drain script, if there is one, stops asking for another run at some point. */
  ghost predicate DrainsEnd(w: World, names: seq<string>) {
    forall name | name in names && w.executable(name) ::
      exists k: nat :: !(w.drain(name, k).Wrote? && w.drain(name, k).number < 0)
  }

  lemma DrainsEndIff(w: World, hs: seq<PreStop>)
    ensures FiniteDrains(w, hs) <==> DrainsEnd(w, ScriptNames(hs))
  {
    if FiniteDrains(w, hs) {
      forall name | name in ScriptNames(hs) && w.executable(name)
        ensures exists k: nat :: !(w.drain(name, k).Wrote? && w.drain(name, k).number < 0)
      {
        ScriptNamesAreJobs(hs, name);
        var k: nat :| !AskedAgain(w.drain(name, k));
        assert !(w.drain(name, k).Wrote? && w.drain(name, k).number < 0);
      }
    }
    if DrainsEnd(w, ScriptNames(hs)) {
      forall i | i in Scripts(hs) && w.executable(hs[i].job)
        ensures exists k: nat :: !AskedAgain(w.drain(hs[i].job, k))
      {
        ScriptNamesAreJobs(hs, hs[i].job);
        var k: nat :| !(w.drain(hs[i].job, k).Wrote? && w.drain(hs[i].job, k).number < 0);
        assert !AskedAgain(w.drain(hs[i].job, k));
      }
    }
  }

  /**
   A generated pod comes to an end, under any fair schedule, if and only if the drain scripts
   of its jobs with processes re-run only finitely often and these jobs have pairwise distinct
   names that `ls` shows.
   */
  lemma PodTerminatesIff(f: Factory, jobs: seq<Job>, w: World, schedule: nat -> nat)
    requires !f.errand && Fair(schedule, |Handlers(MainContainers(f, jobs))|)
    ensures (exists t: nat :: ExitedBy(w, Handlers(MainContainers(f, jobs)), schedule, t)) <==>
            DistinctAndVisible(DrainJobs(f, jobs)) && DrainsEnd(w, DrainJobs(f, jobs))
  {
    var hs := Handlers(MainContainers(f, jobs));
    GeneratedBarrier(f, jobs);
    PodScripts(f, jobs);
    DistinctStampsIff(hs);
    DrainsEndIff(w, hs);
    CompletesIff(w, hs, schedule);
  }
}
