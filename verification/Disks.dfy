/** The disks of an instance group: volumes of the pod and mounts of its containers. */
module Disks {
  import opened Wrappers
  import opened Mounts
  import Decimal

  /** A disk declares a volume, a mount, or both; claims are left out. */
  datatype Disk = Disk(volume: Option<string>, mount: Option<VolumeMount>, filters: map<string, string>)

  predicate MatchesFilter(d: Disk, key: string, value: string) {
    key in d.filters && d.filters[key] == value
  }

  function Filtered(disks: seq<Disk>, key: string, value: string): seq<Disk> {
    if disks == [] then []
    else
      var last := disks[|disks| - 1];
      Filtered(disks[..|disks| - 1], key, value) + if MatchesFilter(last, key, value) then [last] else []
  }

  function VolumeMounts(disks: seq<Disk>): seq<VolumeMount> {
    if disks == [] then [] else VolumeMounts(disks[..|disks| - 1]) + Optional(disks[|disks| - 1].mount)
  }

  function Volumes(disks: seq<Disk>): seq<string> {
    if disks == [] then []
    else
      var last := disks[|disks| - 1];
      Volumes(disks[..|disks| - 1]) + if last.volume.Some? then [last.volume.value] else []
  }

  method Filter(disks: seq<Disk>, key: string, value: string) returns (r: seq<Disk>)
    ensures r == Filtered(disks, key, value)
  {
    r := [];
    for i := 0 to |disks|
      invariant r == Filtered(disks[..i], key, value)
    {
      assert disks[..i + 1][..i] == disks[..i];
      if MatchesFilter(disks[i], key, value) {
        r := r + [disks[i]];
      }
    }
    assert disks[..|disks|] == disks;
  }

  lemma {:induction false} FilteredIsExact(disks: seq<Disk>, key: string, value: string, d: Disk)
    ensures d in Filtered(disks, key, value) <==> d in disks && MatchesFilter(d, key, value)
    decreases |disks|
  {
    if disks == [] {
    } else {
      var before, last := disks[..|disks| - 1], disks[|disks| - 1];
      FilteredIsExact(before, key, value, d);
      assert disks == before + [last];
    }
  }

  lemma {:induction false} MountsAreExact(disks: seq<Disk>, m: VolumeMount)
    ensures m in VolumeMounts(disks) <==> exists d | d in disks :: d.mount == Some(m)
    decreases |disks|
  {
    if disks == [] {
    } else {
      var before, last := disks[..|disks| - 1], disks[|disks| - 1];
      MountsAreExact(before, m);
      assert disks == before + [last];
    }
  }

  lemma {:induction false} VolumesAreExact(disks: seq<Disk>, v: string)
    ensures v in Volumes(disks) <==> exists d | d in disks :: d.volume == Some(v)
    decreases |disks|
  {
    if disks == [] {
    } else {
      var before, last := disks[..|disks| - 1], disks[|disks| - 1];
      VolumesAreExact(before, v);
      assert disks == before + [last];
    }
  }

  /** The first ephemeral and the first persistent disk decide the extra mounts of a job. */
  function FirstMount(disks: seq<Disk>): Option<VolumeMount> {
    if disks == [] then None else disks[0].mount
  }

  /** The disk at `i` carries the label, and no disk before it does. */
  ghost predicate FirstLabelled(disks: seq<Disk>, key: string, value: string, i: int) {
    && 0 <= i < |disks| && MatchesFilter(disks[i], key, value)
    && forall j | 0 <= j < i :: !MatchesFilter(disks[j], key, value)
  }

  /** The mount comes from the first disk with the label; there is none if no disk has it. */
  lemma {:induction false} FirstMountIsFirst(disks: seq<Disk>, key: string, value: string)
    ensures var m := FirstMount(Filtered(disks, key, value));
            if exists i :: FirstLabelled(disks, key, value, i)
            then exists i :: FirstLabelled(disks, key, value, i) && disks[i].mount == m
            else m == None && forall i | 0 <= i < |disks| :: !MatchesFilter(disks[i], key, value)
    decreases |disks|
  {
    if disks == [] {
    } else {
      var before, n := disks[..|disks| - 1], |disks| - 1;
      FirstMountIsFirst(before, key, value);
      if i :| FirstLabelled(before, key, value, i) && before[i].mount == FirstMount(Filtered(before, key, value)) {
        assert FirstLabelled(disks, key, value, i);
        FilteredIsExact(before, key, value, before[i]);
      } else {
        NoneFiltered(before, key, value);
        assert MatchesFilter(disks[n], key, value) ==> FirstLabelled(disks, key, value, n);
      }
    }
  }

  lemma NoneFiltered(disks: seq<Disk>, key: string, value: string)
    requires forall i | 0 <= i < |disks| :: !MatchesFilter(disks[i], key, value)
    ensures Filtered(disks, key, value) == []
  {
    var r := Filtered(disks, key, value);
    if r != [] {
      FilteredIsExact(disks, key, value, r[0]);
    }
  }

  method BPMMounts(disks: seq<Disk>) returns (ephemeral: Option<VolumeMount>, persistent: Option<VolumeMount>)
    ensures ephemeral == FirstMount(Filtered(disks, "ephemeral", "true"))
    ensures persistent == FirstMount(Filtered(disks, "persistent", "true"))
  {
    ephemeral, persistent := None, None;
    var ephemeralDisks := Filter(disks, "ephemeral", "true");
    if |ephemeralDisks| > 0 {
      ephemeral := ephemeralDisks[0].mount;
    }
    var persistentDisks := Filter(disks, "persistent", "true");
    if |persistentDisks| > 0 {
      persistent := persistentDisks[0].mount;
    }
  }

  // ---------------------------------------------------------------- default disks

  const RENDERING_DATA := "rendering-data"
  const JOBS_DIR := "jobs-dir"
  const SYS_DIR := "sys-dir"
  const IG_RESOLVED := "ig-resolved"
  const DRAIN_STAMPS := "drain-stamps"

  const RENDERING_PATH := "/var/vcap/all-releases"
  const JOBS_PATH := "/var/vcap/jobs"
  const DATA_PATH := "/var/vcap/data"
  const SYS_PATH := "/var/vcap/sys"
  const STORE_PATH := "/var/vcap/store"
  const DRAIN_STAMPS_PATH := "/mnt/drain-stamps"

  /** Names made by the shared library, and the relative path of `filepath.Rel`. */
  datatype Naming = Naming(
    dataDir: string, claim: string, sanitized: string -> string, relative: (string, string) -> string)

  function Plain(name: string, path: string): VolumeMount {
    VolumeMount(name, path, "", false)
  }

  function DefaultDisks(nm: Naming): seq<Disk> {
    [ Disk(Some(RENDERING_DATA), Some(Plain(RENDERING_DATA, RENDERING_PATH)), map[]),
      Disk(Some(JOBS_DIR), Some(Plain(JOBS_DIR, JOBS_PATH)), map[]),
      Disk(Some(nm.dataDir), Some(Plain(nm.dataDir, DATA_PATH)), map[]),
      Disk(Some(SYS_DIR), Some(Plain(SYS_DIR, SYS_PATH)), map[]),
      Disk(Some(IG_RESOLVED), None, map[]),
      Disk(Some(DRAIN_STAMPS), Some(Plain(DRAIN_STAMPS, DRAIN_STAMPS_PATH)), map[]) ]
  }

  function DefaultMounts(nm: Naming): seq<VolumeMount> {
    [ Plain(RENDERING_DATA, RENDERING_PATH), Plain(JOBS_DIR, JOBS_PATH), Plain(nm.dataDir, DATA_PATH),
      Plain(SYS_DIR, SYS_PATH), Plain(DRAIN_STAMPS, DRAIN_STAMPS_PATH) ]
  }

  function DefaultVolumes(nm: Naming): seq<string> {
    [RENDERING_DATA, JOBS_DIR, nm.dataDir, SYS_DIR, IG_RESOLVED, DRAIN_STAMPS]
  }

  lemma OneMoreDisk(disks: seq<Disk>, i: nat)
    requires i < |disks|
    ensures VolumeMounts(disks[..i + 1]) == VolumeMounts(disks[..i]) + Optional(disks[i].mount)
    ensures Volumes(disks[..i + 1]) ==
            Volumes(disks[..i]) + if disks[i].volume.Some? then [disks[i].volume.value] else []
  {
    assert disks[..i + 1][..i] == disks[..i];
  }

  lemma DefaultsOf(nm: Naming)
    ensures VolumeMounts(DefaultDisks(nm)) == DefaultMounts(nm) && Volumes(DefaultDisks(nm)) == DefaultVolumes(nm)
  {
    var d := DefaultDisks(nm);
    assert d[..0] == [] && d[..6] == d;
    OneMoreDisk(d, 0);
    OneMoreDisk(d, 1);
    OneMoreDisk(d, 2);
    OneMoreDisk(d, 3);
    OneMoreDisk(d, 4);
    OneMoreDisk(d, 5);
  }

  lemma DefaultPathsDiffer(nm: Naming)
    ensures DistinctPaths(DefaultMounts(nm))
  {
    assert RENDERING_PATH[10] == 'a' && JOBS_PATH[10] == 'j' && DATA_PATH[10] == 'd' && SYS_PATH[10] == 's';
    assert DRAIN_STAMPS_PATH[1] == 'm';
  }

  // ---------------------------------------------------------------- disks of the BPM processes

  datatype BpmVolume = BpmVolume(path: string, writable: bool)

  datatype Process = Process(
    name: string, ephemeralDisk: bool, persistentDisk: bool, additional: seq<BpmVolume>, unrestricted: seq<BpmVolume>,
    preStart: bool, valid: bool)

  datatype Job = Job(name: string, release: string)

  type Configs = map<string, seq<Process>>

  function ProcessesOf(configs: Configs, job: Job): seq<Process> {
    if job.name in configs then configs[job.name] else []
  }

  predicate HasPrefix(s: string, prefix: string) {
    prefix <= s
  }

  /** The path lies in one of the three directories, but is not the directory itself. */
  predicate InsideKnown(path: string) {
    || (HasPrefix(path, DATA_PATH) && path != DATA_PATH)
    || (HasPrefix(path, STORE_PATH) && path != STORE_PATH)
    || (HasPrefix(path, SYS_PATH) && path != SYS_PATH)
  }

  predicate Follows(s: string, i: nat, prefix: string)
    requires i <= |s|
  {
    prefix <= s[i..] && |s[i..]| > |prefix| && s[i..][|prefix|] != '\n'
  }

  /** A match of the additional-volumes expression, which is not anchored, anywhere in the path. */
  predicate MatchesAdditional(path: string) {
    exists i | 0 <= i <= |path| ::
      || Follows(path, i, "/var/vcap/data/")
      || Follows(path, i, "/var/vcap/store/")
      || Follows(path, i, "/var/vcap/sys/run/")
  }

  ghost predicate Below(path: string, directory: string, front: string, name: char, rest: string) {
    path == front + directory + [name] + rest && name != '\n'
  }

  lemma FollowsIff(path: string, directory: string)
    ensures (exists i | 0 <= i <= |path| :: Follows(path, i, directory)) <==>
            exists front, name, rest :: Below(path, directory, front, name, rest)
  {
    if i :| 0 <= i <= |path| && Follows(path, i, directory) {
      var name, rest := path[i..][|directory|], path[i..][|directory| + 1..];
      assert path[i..] == directory + [name] + rest;
      assert path == path[..i] + path[i..];
      assert path[..i] + (directory + [name] + rest) == path[..i] + directory + [name] + rest;
      assert Below(path, directory, path[..i], name, rest);
    }
    if front, name, rest :| Below(path, directory, front, name, rest) {
      assert path[|front|..] == directory + [name] + rest;
      assert Follows(path, |front|, directory);
    }
  }

  /**
   The paths that are accepted for additional volumes: something other than a line break comes
   after one of the three directories, which need not be where the path starts.
   */
  lemma MatchesAdditionalIff(path: string)
    ensures MatchesAdditional(path) <==>
            exists front, name, rest ::
              || Below(path, "/var/vcap/data/", front, name, rest)
              || Below(path, "/var/vcap/store/", front, name, rest)
              || Below(path, "/var/vcap/sys/run/", front, name, rest)
  {
    FollowsIff(path, "/var/vcap/data/");
    FollowsIff(path, "/var/vcap/store/");
    FollowsIff(path, "/var/vcap/sys/run/");
  }

  /** The volume an additional path is mounted from; none is chosen for a path outside the three directories. */
  function AdditionalVolume(nm: Naming, path: string): string {
    if HasPrefix(path, SYS_PATH) then SYS_DIR
    else if HasPrefix(path, STORE_PATH) then nm.claim
    else if HasPrefix(path, DATA_PATH) then nm.dataDir
    else ""
  }

  function AdditionalSubPath(nm: Naming, path: string): string {
    if HasPrefix(path, SYS_PATH) then nm.relative(SYS_PATH, path)
    else if HasPrefix(path, STORE_PATH) then nm.relative(STORE_PATH, path)
    else if HasPrefix(path, DATA_PATH) then nm.relative(DATA_PATH, path)
    else ""
  }

  function ProcessFilters(job: Job, p: Process): map<string, string> {
    map["job_name" := job.name, "process_name" := p.name]
  }

  function AdditionalDisk(nm: Naming, job: Job, p: Process, v: BpmVolume): Disk {
    Disk(None, Some(VolumeMount(AdditionalVolume(nm, v.path), v.path, AdditionalSubPath(nm, v.path), !v.writable)),
         ProcessFilters(job, p))
  }

  function Binary(n: nat): string {
    if n < 2 then [Decimal.Digit(n)] else Binary(n / 2) + [Decimal.Digit(n % 2)]
  }

  function BinaryValue(s: string): nat {
    if s == "" then 0 else 2 * BinaryValue(s[..|s| - 1]) + if s[|s| - 1] == '1' then 1 else 0
  }

  /** The numeral of base two, without leading zeros. */
  lemma {:induction false} BinaryIsExact(n: nat)
    ensures BinaryValue(Binary(n)) == n
    ensures forall i | 0 <= i < |Binary(n)| :: Binary(n)[i] == '0' || Binary(n)[i] == '1'
    ensures Binary(n) != "" && (n > 0 ==> Binary(n)[0] == '1')
  {
    if n < 2 {
      assert Binary(n)[..0] == "";
    } else {
      BinaryIsExact(n / 2);
      assert Binary(n)[..|Binary(n)| - 1] == Binary(n / 2);
    }
  }

  function UnrestrictedDisk(nm: Naming, job: Job, p: Process, v: BpmVolume, i: nat): Disk {
    var name := nm.sanitized("bpm-unrestricted-volume-" + job.name + "-" + p.name + "-" + Binary(i));
    Disk(Some(name), Some(VolumeMount(name, v.path, "", !v.writable)), ProcessFilters(job, p))
  }

  /** The unrestricted volumes that are treated as additional ones, and those that are left. */
  function Moved(vs: seq<BpmVolume>): seq<BpmVolume> {
    if vs == [] then []
    else
      var v := vs[|vs| - 1];
      Moved(vs[..|vs| - 1]) + if !HasPrefix(v.path, JOBS_PATH) && InsideKnown(v.path) then [v] else []
  }

  function Kept(vs: seq<BpmVolume>): seq<BpmVolume> {
    if vs == [] then []
    else
      var v := vs[|vs| - 1];
      Kept(vs[..|vs| - 1]) + if !HasPrefix(v.path, JOBS_PATH) && !InsideKnown(v.path) then [v] else []
  }

  function AllAdditional(p: Process): seq<BpmVolume> {
    p.additional + Moved(p.unrestricted)
  }

  function AdditionalDisks(nm: Naming, job: Job, p: Process, vs: seq<BpmVolume>): seq<Disk> {
    seq(|vs|, i requires 0 <= i < |vs| => AdditionalDisk(nm, job, p, vs[i]))
  }

  function UnrestrictedDisks(nm: Naming, job: Job, p: Process, vs: seq<BpmVolume>): seq<Disk> {
    seq(|vs|, i requires 0 <= i < |vs| => UnrestrictedDisk(nm, job, p, vs[i], i))
  }

  function ProcessDisks(nm: Naming, job: Job, p: Process): seq<Disk> {
    AdditionalDisks(nm, job, p, AllAdditional(p)) + UnrestrictedDisks(nm, job, p, Kept(p.unrestricted))
  }

  function DisksOfProcesses(nm: Naming, job: Job, ps: seq<Process>): seq<Disk> {
    if ps == [] then [] else DisksOfProcesses(nm, job, ps[..|ps| - 1]) + ProcessDisks(nm, job, ps[|ps| - 1])
  }

  function EphemeralDisk(nm: Naming, job: Job, asClaim: bool): Disk {
    Disk(if asClaim then Some(nm.dataDir) else None,
         Some(VolumeMount(nm.dataDir, DATA_PATH + "/" + job.name, job.name, false)),
         map["job_name" := job.name, "ephemeral" := "true"])
  }

  function PersistentDisk(nm: Naming, job: Job): Disk {
    Disk(Some(nm.claim), Some(VolumeMount(nm.claim, STORE_PATH + "/" + job.name, job.name, false)),
         map["job_name" := job.name, "persistent" := "true"])
  }

  predicate AnyEphemeral(ps: seq<Process>) {
    exists i | 0 <= i < |ps| :: ps[i].ephemeralDisk
  }

  predicate AnyPersistent(ps: seq<Process>) {
    exists i | 0 <= i < |ps| :: ps[i].persistentDisk
  }

  function JobDisks(nm: Naming, job: Job, ps: seq<Process>, asClaim: bool): seq<Disk> {
    DisksOfProcesses(nm, job, ps)
    + (if AnyEphemeral(ps) then [EphemeralDisk(nm, job, asClaim)] else [])
    + (if AnyPersistent(ps) then [PersistentDisk(nm, job)] else [])
  }

  function BPMDisks(nm: Naming, jobs: seq<Job>, configs: Configs, asClaim: bool): seq<Disk> {
    if jobs == [] then []
    else
      var last := jobs[|jobs| - 1];
      BPMDisks(nm, jobs[..|jobs| - 1], configs, asClaim) + JobDisks(nm, last, ProcessesOf(configs, last), asClaim)
  }

  /** `matches` is the compiled expression for additional volumes. */
  predicate PathsAccepted(p: Process, matches: string -> bool) {
    forall i | 0 <= i < |AllAdditional(p)| :: matches(AllAdditional(p)[i].path)
  }

  predicate AllPathsAccepted(ps: seq<Process>, matches: string -> bool) {
    ps != [] ==> AllPathsAccepted(ps[..|ps| - 1], matches) && PathsAccepted(ps[|ps| - 1], matches)
  }

  lemma {:induction false} PathsAcceptedSoFar(ps: seq<Process>, matches: string -> bool, i: nat)
    requires i < |ps|
    ensures AllPathsAccepted(ps[..i + 1], matches) ==
            (AllPathsAccepted(ps[..i], matches) && PathsAccepted(ps[i], matches))
    ensures AllPathsAccepted(ps, matches) ==> AllPathsAccepted(ps[..i + 1], matches)
    decreases |ps|
  {
    assert ps[..i + 1][..i] == ps[..i];
    if i + 1 == |ps| {
      assert ps[..i + 1] == ps;
    } else {
      var before := ps[..|ps| - 1];
      PathsAcceptedSoFar(before, matches, i);
      assert before[..i + 1] == ps[..i + 1];
    }
  }

  /** The job's additional paths all match, and a persistent disk is only asked for if the group has one. */
  predicate Accepted(ps: seq<Process>, diskSize: Option<int>, matches: string -> bool) {
    && AllPathsAccepted(ps, matches)
    && (AnyPersistent(ps) ==> diskSize.Some? && diskSize.value > 0)
  }

  /**
   Unrestricted volumes inside the known directories become additional ones; those below the
   jobs directory are dropped.
   */
  method SortVolumes(p: Process) returns (additional: seq<BpmVolume>, kept: seq<BpmVolume>)
    ensures additional == AllAdditional(p) && kept == Kept(p.unrestricted)
  {
    additional, kept := p.additional, [];
    for i := 0 to |p.unrestricted|
      invariant additional == p.additional + Moved(p.unrestricted[..i])
      invariant kept == Kept(p.unrestricted[..i])
    {
      var v := p.unrestricted[i];
      assert p.unrestricted[..i + 1][..i] == p.unrestricted[..i];
      if !HasPrefix(v.path, JOBS_PATH) {
        if InsideKnown(v.path) {
          additional := additional + [v];
        } else {
          kept := kept + [v];
        }
      }
    }
    assert p.unrestricted[..|p.unrestricted|] == p.unrestricted;
  }

  method GenerateAdditionalDisk(nm: Naming, job: Job, p: Process, v: BpmVolume) returns (d: Disk)
    ensures d == AdditionalDisk(nm, job, p, v)
  {
    var volumeName, subPath := "", "";
    if HasPrefix(v.path, DATA_PATH) {
      volumeName, subPath := nm.dataDir, nm.relative(DATA_PATH, v.path);
    }
    if HasPrefix(v.path, STORE_PATH) {
      volumeName, subPath := nm.claim, nm.relative(STORE_PATH, v.path);
    }
    if HasPrefix(v.path, SYS_PATH) {
      volumeName, subPath := SYS_DIR, nm.relative(SYS_PATH, v.path);
    }
    d := Disk(None, Some(VolumeMount(volumeName, v.path, subPath, !v.writable)), ProcessFilters(job, p));
  }

  lemma OneMoreAdditional(nm: Naming, job: Job, p: Process, vs: seq<BpmVolume>, i: nat)
    requires i < |vs|
    ensures AdditionalDisks(nm, job, p, vs[..i + 1]) ==
            AdditionalDisks(nm, job, p, vs[..i]) + [AdditionalDisk(nm, job, p, vs[i])]
  {
  }

  lemma OneMoreUnrestricted(nm: Naming, job: Job, p: Process, vs: seq<BpmVolume>, i: nat)
    requires i < |vs|
    ensures UnrestrictedDisks(nm, job, p, vs[..i + 1]) ==
            UnrestrictedDisks(nm, job, p, vs[..i]) + [UnrestrictedDisk(nm, job, p, vs[i], i)]
  {
  }

  method GenerateAdditionalDisks(nm: Naming, job: Job, p: Process, vs: seq<BpmVolume>, matches: string -> bool)
    returns (r: Result<seq<Disk>>)
    ensures r.Ok? <==> forall i | 0 <= i < |vs| :: matches(vs[i].path)
    ensures r.Ok? ==> r.value == AdditionalDisks(nm, job, p, vs)
  {
    var disks: seq<Disk> := [];
    for i := 0 to |vs|
      invariant forall k | 0 <= k < i :: matches(vs[k].path)
      invariant disks == AdditionalDisks(nm, job, p, vs[..i])
    {
      if !matches(vs[i].path) {
        return Err("additional volume outside the known directories");
      }
      var d := GenerateAdditionalDisk(nm, job, p, vs[i]);
      OneMoreAdditional(nm, job, p, vs, i);
      disks := disks + [d];
    }
    assert vs[..|vs|] == vs;
    return Ok(disks);
  }

  method GenerateUnrestrictedDisks(nm: Naming, job: Job, p: Process, vs: seq<BpmVolume>) returns (disks: seq<Disk>)
    ensures disks == UnrestrictedDisks(nm, job, p, vs)
  {
    disks := [];
    for i := 0 to |vs|
      invariant disks == UnrestrictedDisks(nm, job, p, vs[..i])
    {
      OneMoreUnrestricted(nm, job, p, vs, i);
      disks := disks + [UnrestrictedDisk(nm, job, p, vs[i], i)];
    }
    assert vs[..|vs|] == vs;
  }

  method GenerateProcessDisks(nm: Naming, job: Job, p: Process, matches: string -> bool) returns (r: Result<seq<Disk>>)
    ensures r.Ok? <==> PathsAccepted(p, matches)
    ensures r.Ok? ==> r.value == ProcessDisks(nm, job, p)
  {
    var additional, kept := SortVolumes(p);
    r := GenerateAdditionalDisks(nm, job, p, additional, matches);
    if r.Ok? {
      var disks := GenerateUnrestrictedDisks(nm, job, p, kept);
      r := Ok(r.value + disks);
    }
  }

  lemma OneMoreProcess(nm: Naming, job: Job, ps: seq<Process>, i: nat)
    requires i < |ps|
    ensures DisksOfProcesses(nm, job, ps[..i + 1]) == DisksOfProcesses(nm, job, ps[..i]) + ProcessDisks(nm, job, ps[i])
  {
    assert ps[..i + 1][..i] == ps[..i];
  }

  lemma OneMoreJob(nm: Naming, jobs: seq<Job>, configs: Configs, asClaim: bool, i: nat)
    requires i < |jobs|
    ensures BPMDisks(nm, jobs[..i + 1], configs, asClaim) ==
            BPMDisks(nm, jobs[..i], configs, asClaim) + JobDisks(nm, jobs[i], ProcessesOf(configs, jobs[i]), asClaim)
  {
    assert jobs[..i + 1][..i] == jobs[..i];
  }

  lemma AnyOfOneMore(ps: seq<Process>, i: nat)
    requires i < |ps|
    ensures AnyEphemeral(ps[..i + 1]) == (AnyEphemeral(ps[..i]) || ps[i].ephemeralDisk)
    ensures AnyPersistent(ps[..i + 1]) == (AnyPersistent(ps[..i]) || ps[i].persistentDisk)
  {
    var more, some := ps[..i + 1], ps[..i];
    assert more[i] == ps[i] && forall k | 0 <= k < i :: more[k] == some[k];
  }

  method GenerateJobDisks(nm: Naming, job: Job, ps: seq<Process>, diskSize: Option<int>, asClaim: bool,
                          matches: string -> bool)
    returns (r: Result<seq<Disk>>)
    ensures r.Ok? <==> Accepted(ps, diskSize, matches)
    ensures r.Ok? ==> r.value == JobDisks(nm, job, ps, asClaim)
  {
    var hasEphemeralDisk, hasPersistentDisk := false, false;
    var disks: seq<Disk> := [];
    for i := 0 to |ps|
      invariant hasEphemeralDisk == AnyEphemeral(ps[..i]) && hasPersistentDisk == AnyPersistent(ps[..i])
      invariant AllPathsAccepted(ps[..i], matches)
      invariant disks == DisksOfProcesses(nm, job, ps[..i])
    {
      AnyOfOneMore(ps, i);
      OneMoreProcess(nm, job, ps, i);
      PathsAcceptedSoFar(ps, matches, i);
      hasEphemeralDisk := hasEphemeralDisk || ps[i].ephemeralDisk;
      hasPersistentDisk := hasPersistentDisk || ps[i].persistentDisk;
      var more := GenerateProcessDisks(nm, job, ps[i], matches);
      if more.Err? { return more; }
      disks := disks + more.value;
    }
    assert ps[..|ps|] == ps;
    if hasEphemeralDisk {
      disks := disks + [EphemeralDisk(nm, job, asClaim)];
    }
    if hasPersistentDisk {
      if diskSize.None? || diskSize.value <= 0 {
        return Err("job wants to use persistent disk, but the group has none");
      }
      disks := disks + [PersistentDisk(nm, job)];
    }
    return Ok(disks);
  }

  /** Every job is accepted. */
  predicate AllAccepted(jobs: seq<Job>, configs: Configs, diskSize: Option<int>, matches: string -> bool) {
    jobs != [] ==>
      && AllAccepted(jobs[..|jobs| - 1], configs, diskSize, matches)
      && Accepted(ProcessesOf(configs, jobs[|jobs| - 1]), diskSize, matches)
  }

  lemma {:induction false} AcceptedSoFar(jobs: seq<Job>, configs: Configs, diskSize: Option<int>,
                                         matches: string -> bool, i: nat)
    requires i < |jobs|
    ensures AllAccepted(jobs[..i + 1], configs, diskSize, matches) ==
            (AllAccepted(jobs[..i], configs, diskSize, matches) &&
             Accepted(ProcessesOf(configs, jobs[i]), diskSize, matches))
    ensures AllAccepted(jobs, configs, diskSize, matches) ==> AllAccepted(jobs[..i + 1], configs, diskSize, matches)
    decreases |jobs|
  {
    assert jobs[..i + 1][..i] == jobs[..i];
    if i + 1 == |jobs| {
      assert jobs[..i + 1] == jobs;
    } else {
      var before := jobs[..|jobs| - 1];
      AcceptedSoFar(before, configs, diskSize, matches, i);
      assert before[..i + 1] == jobs[..i + 1];
    }
  }

  method GenerateBPMDisks(nm: Naming, jobs: seq<Job>, configs: Configs, diskSize: Option<int>, asClaim: bool,
                          matches: string -> bool)
    returns (r: Result<seq<Disk>>)
    ensures r.Ok? <==> AllAccepted(jobs, configs, diskSize, matches)
    ensures r.Ok? ==> r.value == BPMDisks(nm, jobs, configs, asClaim)
  {
    var disks: seq<Disk> := [];
    for i := 0 to |jobs|
      invariant AllAccepted(jobs[..i], configs, diskSize, matches)
      invariant disks == BPMDisks(nm, jobs[..i], configs, asClaim)
    {
      OneMoreJob(nm, jobs, configs, asClaim, i);
      AcceptedSoFar(jobs, configs, diskSize, matches, i);
      var more := GenerateJobDisks(nm, jobs[i], ProcessesOf(configs, jobs[i]), diskSize, asClaim, matches);
      if more.Err? { return more; }
      disks := disks + more.value;
    }
    assert jobs[..|jobs|] == jobs;
    return Ok(disks);
  }
}
