/**
 The registry of BOSH links: links from outside are added first, then the links every job
 of every instance group provided.
 */
module LinkRegistry {
  import opened Wrappers
  import opened NestedProperties
  import opened Instances
  import LinkProperties

  datatype JobLink = JobLink(address: string, instances: seq<JobInstance>, properties: Properties)

  /** A link in the spec of a job, and what the manifest says about it under `provides`. */
  datatype SpecLink = SpecLink(name: string, linkType: string, properties: seq<string>)
  datatype Provide = Override(asName: Option<string>) | Text(text: string) | OtherType
  datatype Job = Job(name: string, properties: Properties, provided: map<string, Provide>, isAddon: bool)
  datatype JobSpec = JobSpec(defaults: Properties, provided: seq<SpecLink>)

  type Links = map<string, map<string, JobLink>>
  type GroupTable = map<string, map<string, Properties>>
  datatype Registry = Registry(links: Links, groups: GroupTable)

  /** One call of `add`. */
  datatype Provider = Provider(igName: string, job: Job, spec: JobSpec, instances: seq<JobInstance>, address: string)

  function Find(links: Links, linkType: string, name: string): Option<JobLink> {
    if linkType in links && name in links[linkType] then Some(links[linkType][name]) else None
  }

  function Store<V>(table: map<string, map<string, V>>, outer: string, inner: string, v: V)
    : map<string, map<string, V>>
  {
    table[outer := (if outer in table then table[outer] else map[])[inner := v]]
  }

  function SecretKey(linkType: string, name: string): string {
    linkType + "-" + name
  }

  datatype Decision = Blocked | Named(name: string) | Invalid(message: string)

  /** The name a link is registered under, or that it is blocked by an explicit "nil". */
  function Decide(job: Job, link: SpecLink): Decision {
    if link.name !in job.provided then Named(link.name)
    else
      match job.provided[link.name]
      case Override(None) => Named(link.name)
      case Override(Some(name)) => Named(name)
      case Text(text) => if text == "nil" then Blocked else Invalid("unexpected string detected")
      case OtherType => Invalid("unexpected type detected")
  }

  /** The job offers the link under that name: its own, or the one that the job sets with `as`. */
  predicate Offered(job: Job, link: SpecLink, name: string) {
    if link.name !in job.provided then name == link.name
    else
      match job.provided[link.name]
      case Override(asName) => name == if asName.Some? then asName.value else link.name
      case Text(_) => false
      case OtherType => false
  }

  /** What the job sets for the link is neither a map nor the text "nil". */
  predicate Refused(job: Job, link: SpecLink) {
    && link.name in job.provided
    && (job.provided[link.name].OtherType? || (job.provided[link.name].Text? && job.provided[link.name].text != "nil"))
  }

  lemma DecideMeans(job: Job, link: SpecLink)
    ensures Decide(job, link).Invalid? <==> Refused(job, link)
    ensures forall name :: Decide(job, link) == Named(name) <==> Offered(job, link, name)
  {
  }

  function LinkOf(p: Provider, link: SpecLink): JobLink {
    JobLink(p.address, p.instances, LinkProperties.Resolve(p.spec.defaults, p.job.properties, link.properties))
  }

  datatype Outcome = Outcome(registry: Registry, error: Option<string>)

  function AddLink(reg: Registry, p: Provider, link: SpecLink): Outcome {
    match Decide(p.job, link)
    case Blocked => Outcome(reg, None)
    case Invalid(message) => Outcome(reg, Some(message))
    case Named(name) =>
      if Find(reg.links, link.linkType, name).Some? then
        Outcome(reg, if p.job.isAddon then None else Some("multiple providers for link"))
      else
        Outcome(Registry(Store(reg.links, link.linkType, name, LinkOf(p, link)),
                         Store(reg.groups, p.igName, SecretKey(link.linkType, name), LinkOf(p, link).properties)), None)
  }

  function AddLinks(reg: Registry, p: Provider, links: seq<SpecLink>): Outcome
    decreases links
  {
    if links == [] then Outcome(reg, None)
    else
      var first := AddLink(reg, p, links[0]);
      if first.error.Some? then first else AddLinks(first.registry, p, links[1..])
  }

  function AddAll(reg: Registry, ps: seq<Provider>): Outcome
    decreases ps
  {
    if ps == [] then Outcome(reg, None)
    else
      var first := AddLinks(reg, ps[0], ps[0].spec.provided);
      if first.error.Some? then first else AddAll(first.registry, ps[1..])
  }

  class JobProviderLinks {
    var links: Links
    var instanceGroups: GroupTable

    constructor ()
      ensures links == map[] && instanceGroups == map[]
    {
      links, instanceGroups := map[], map[];
    }

    function Current(): Registry
      reads this
    {
      Registry(links, instanceGroups)
    }

    /** `add`: registers what one job provides, link by link, up to the first error. */
    method Add(p: Provider) returns (error: Option<string>)
      modifies this
      ensures Outcome(Current(), error) == AddLinks(old(Current()), p, p.spec.provided)
    {
      var provided := p.spec.provided;
      assert provided[0..] == provided;
      for i := 0 to |provided|
        invariant AddLinks(old(Current()), p, provided) == AddLinks(Current(), p, provided[i..])
      {
        assert provided[i..][1..] == provided[i + 1..];
        var link := provided[i];
        var properties := LinkProperties.Compute(p.spec.defaults, p.job.properties, link.properties);
        var linkName, linkType := link.name, link.linkType;
        var blocked := false;
        if linkName in p.job.provided {
          match p.job.provided[linkName]
          case Override(asName) =>
            if asName.Some? {
              linkName := asName.value;
            }
          case Text(text) =>
            if text != "nil" { return Some("unexpected string detected"); }
            blocked := true;
          case OtherType =>
            return Some("unexpected type detected");
        }
        if !blocked {
          if linkType in links && linkName in links[linkType] {
            if !p.job.isAddon { return Some("multiple providers for link"); }
          } else {
            links := Store(links, linkType, linkName, JobLink(p.address, p.instances, properties));
            instanceGroups := Store(instanceGroups, p.igName, SecretKey(linkType, linkName), properties);
          }
        }
      }
      return None;
    }

    /** `addExternalLink`: a link from outside replaces whatever had its type and name. */
    method AddExternalLink(linkName: string, linkType: string, linkAddress: string, jobsInstances: seq<JobInstance>,
                           properties: Properties)
      modifies this
      ensures instanceGroups == old(instanceGroups)
      ensures exists order :: IsOrder(properties.Keys, order) &&
                links == Store(old(links), linkType, linkName,
                               JobLink(linkAddress, jobsInstances, NestInOrder(properties, order)))
    {
      var nested := Nest(properties);
      links := Store(links, linkType, linkName, JobLink(linkAddress, jobsInstances, nested));
    }
  }

  // ---------------------------------------------------------------- collecting all jobs

  datatype IgJob = IgJob(release: string, job: Job)
  datatype InstanceGroup = InstanceGroup(group: Group, jobs: seq<IgJob>)

  /** The call of `add` for one job of one group. */
  ghost predicate Provides(nm: Naming, ig: InstanceGroup, j: IgJob, spec: Result<JobSpec>, initialRollout: bool,
                           p: Provider)
  {
    && spec.Ok? && p.spec == spec.value
    && p.igName == ig.group.name && p.job == j.job && p.address == nm.sanitized(ig.group.name)
    && ListsInstances(nm, ig.group, j.job.name, initialRollout, p.instances, CellsOf(ig.group))
  }

  function JobsOf(igs: seq<InstanceGroup>): seq<(InstanceGroup, IgJob)> {
    if igs == [] then []
    else
      var ig := igs[|igs| - 1];
      JobsOf(igs[..|igs| - 1]) + Jobs(ig, |ig.jobs|)
  }

  ghost predicate ProvideAll(nm: Naming, jobs: seq<(InstanceGroup, IgJob)>,
                             loadSpec: (string, string) -> Result<JobSpec>,
                             initialRollout: bool, ps: seq<Provider>)
  {
    && |ps| == |jobs|
    && forall k | 0 <= k < |ps| ::
         Provides(nm, jobs[k].0, jobs[k].1, loadSpec(jobs[k].1.release, jobs[k].1.job.name), initialRollout, ps[k])
  }

  lemma {:induction false} AddOneMore(reg: Registry, ps: seq<Provider>, p: Provider)
    requires AddAll(reg, ps).error.None?
    ensures AddAll(reg, ps + [p]) == AddLinks(AddAll(reg, ps).registry, p, p.spec.provided)
    decreases ps
  {
    if ps == [] {
      assert (ps + [p])[1..] == [];
    } else {
      assert (ps + [p])[1..] == ps[1..] + [p];
      AddOneMore(AddLinks(reg, ps[0], ps[0].spec.provided).registry, ps[1..], p);
    }
  }

  function Jobs(ig: InstanceGroup, n: nat): seq<(InstanceGroup, IgJob)>
    requires n <= |ig.jobs|
  {
    seq(n, i requires 0 <= i < n => (ig, ig.jobs[i]))
  }

  /**
   The calls `ps` for the first jobs went well, and the next job fails: its spec does not load
   or a link is refused.
   */
  ghost predicate FailsAfter(nm: Naming, jobs: seq<(InstanceGroup, IgJob)>,
                             loadSpec: (string, string) -> Result<JobSpec>,
                             initialRollout: bool, start: Registry, ps: seq<Provider>)
  {
    && |ps| < |jobs| && ProvideAll(nm, jobs[..|ps|], loadSpec, initialRollout, ps) && AddAll(start, ps).error.None?
    && var (ig, j) := jobs[|ps|];
       var spec := loadSpec(j.release, j.job.name);
       spec.Err? || exists p :: Provides(nm, ig, j, spec, initialRollout, p) &&
                      AddLinks(AddAll(start, ps).registry, p, p.spec.provided).error.Some?
  }

  lemma FailsInLonger(nm: Naming, jobs: seq<(InstanceGroup, IgJob)>, longer: seq<(InstanceGroup, IgJob)>,
                      loadSpec: (string, string) -> Result<JobSpec>, initialRollout: bool, start: Registry,
                      ps: seq<Provider>)
    requires jobs <= longer && FailsAfter(nm, jobs, loadSpec, initialRollout, start, ps)
    ensures FailsAfter(nm, longer, loadSpec, initialRollout, start, ps)
  {
    assert longer[..|ps|] == jobs[..|ps|];
  }

  lemma {:induction false} JobsOfPrefix(igs: seq<InstanceGroup>, n: nat)
    requires n <= |igs|
    ensures JobsOf(igs[..n]) <= JobsOf(igs)
    decreases |igs|
  {
    if n == |igs| {
      assert igs[..n] == igs;
    } else {
      JobsOfPrefix(igs[..|igs| - 1], n);
      assert igs[..|igs| - 1][..n] == igs[..n];
    }
  }

  /** One job, after `ps` for the `jobs` before it. */
  method CollectJob(nm: Naming, ig: InstanceGroup, j: IgJob, loadSpec: (string, string) -> Result<JobSpec>,
                    initialRollout: bool, registry: JobProviderLinks, ghost start: Registry,
                    ghost jobs: seq<(InstanceGroup, IgJob)>, ghost ps: seq<Provider>)
    returns (error: Option<string>, ghost ps': seq<Provider>)
    requires ProvideAll(nm, jobs, loadSpec, initialRollout, ps)
    requires AddAll(start, ps) == Outcome(registry.Current(), None)
    modifies registry
    ensures error.None? ==>
              && ProvideAll(nm, jobs + [(ig, j)], loadSpec, initialRollout, ps')
              && AddAll(start, ps') == Outcome(registry.Current(), None)
    ensures error.Some? ==> FailsAfter(nm, jobs + [(ig, j)], loadSpec, initialRollout, start, ps')
  {
    ps' := ps;
    assert (jobs + [(ig, j)])[..|ps|] == jobs;
    var spec := loadSpec(j.release, j.job.name);
    if spec.Err? { return Some(spec.error), ps; }
    var jobInstances := NewJobInstances(nm, ig.group, j.job.name, initialRollout);
    var p := Provider(ig.group.name, j.job, spec.value, jobInstances, nm.sanitized(ig.group.name));
    assert Provides(nm, ig, j, spec, initialRollout, p);
    AddOneMore(start, ps, p);
    error := registry.Add(p);
    if error.None? {
      ps' := ps + [p];
    }
  }

  /** The jobs of one group, after `ps` for the `jobs` before it. */
  method CollectGroup(nm: Naming, ig: InstanceGroup, loadSpec: (string, string) -> Result<JobSpec>,
                      initialRollout: bool,
                      registry: JobProviderLinks, ghost start: Registry,
                      ghost jobs: seq<(InstanceGroup, IgJob)>, ghost ps: seq<Provider>)
    returns (error: Option<string>, ghost ps': seq<Provider>)
    requires ProvideAll(nm, jobs, loadSpec, initialRollout, ps)
    requires AddAll(start, ps) == Outcome(registry.Current(), None)
    modifies registry
    ensures error.None? ==>
              && ProvideAll(nm, jobs + Jobs(ig, |ig.jobs|), loadSpec, initialRollout, ps')
              && AddAll(start, ps') == Outcome(registry.Current(), None)
    ensures error.Some? ==> FailsAfter(nm, jobs + Jobs(ig, |ig.jobs|), loadSpec, initialRollout, start, ps')
  {
    ps' := ps;
    ghost var all := jobs + Jobs(ig, |ig.jobs|);
    assert jobs + Jobs(ig, 0) == jobs;
    for i := 0 to |ig.jobs|
      invariant ProvideAll(nm, jobs + Jobs(ig, i), loadSpec, initialRollout, ps')
      invariant AddAll(start, ps') == Outcome(registry.Current(), None)
    {
      ghost var next := jobs + Jobs(ig, i + 1);
      assert next == jobs + Jobs(ig, i) + [(ig, ig.jobs[i])];
      error, ps' := CollectJob(nm, ig, ig.jobs[i], loadSpec, initialRollout, registry, start, jobs + Jobs(ig, i), ps');
      if error.Some? {
        FailsInLonger(nm, next, all, loadSpec, initialRollout, start, ps');
        return error, ps';
      }
    }
    return None, ps';
  }

  /**
   `collectReleaseSpecsAndProviderLinks`: one call of `add` per job, in manifest order, up to
   the first job that fails.
   */
  method Collect(nm: Naming, igs: seq<InstanceGroup>, loadSpec: (string, string) -> Result<JobSpec>,
                 initialRollout: bool, registry: JobProviderLinks)
    returns (error: Option<string>, ghost ps: seq<Provider>)
    modifies registry
    ensures error.None? ==>
              && ProvideAll(nm, JobsOf(igs), loadSpec, initialRollout, ps)
              && AddAll(old(registry.Current()), ps) == Outcome(registry.Current(), None)
    ensures error.Some? ==> FailsAfter(nm, JobsOf(igs), loadSpec, initialRollout, old(registry.Current()), ps)
  {
    ps := [];
    ghost var start := registry.Current();
    for g := 0 to |igs|
      invariant ProvideAll(nm, JobsOf(igs[..g]), loadSpec, initialRollout, ps)
      invariant AddAll(start, ps) == Outcome(registry.Current(), None)
    {
      error, ps := CollectGroup(nm, igs[g], loadSpec, initialRollout, registry, start, JobsOf(igs[..g]), ps);
      assert igs[..g + 1][..g] == igs[..g];
      if error.Some? {
        JobsOfPrefix(igs, g + 1);
        FailsInLonger(nm, JobsOf(igs[..g + 1]), JobsOf(igs), loadSpec, initialRollout, start, ps);
        return error, ps;
      }
    }
    assert igs[..|igs|] == igs;
    return None, ps;
  }

  // ---------------------------------------------------------------- whole runs

  /** Nothing that is registered is ever changed by `add`. */
  ghost predicate Keeps(links: Links, links': Links) {
    forall t, n :: Find(links, t, n).Some? ==> Find(links', t, n) == Find(links, t, n)
  }

  lemma AddLinkKeeps(reg: Registry, p: Provider, link: SpecLink)
    ensures Keeps(reg.links, AddLink(reg, p, link).registry.links)
  {
  }

  lemma {:induction false} AddLinksKeep(reg: Registry, p: Provider, links: seq<SpecLink>)
    ensures Keeps(reg.links, AddLinks(reg, p, links).registry.links)
    decreases links
  {
    if links == [] {
    } else {
      AddLinkKeeps(reg, p, links[0]);
      AddLinksKeep(AddLink(reg, p, links[0]).registry, p, links[1..]);
    }
  }

  /** No run of `add`s, with or without an error at the end, overwrites a registered link. */
  lemma {:induction false} NothingIsOverwritten(reg: Registry, ps: seq<Provider>)
    ensures Keeps(reg.links, AddAll(reg, ps).registry.links)
    decreases ps
  {
    if ps == [] {
    } else {
      AddLinksKeep(reg, ps[0], ps[0].spec.provided);
      NothingIsOverwritten(AddLinks(reg, ps[0], ps[0].spec.provided).registry, ps[1..]);
    }
  }

  lemma {:induction false} OwnLinkIsFound(reg: Registry, p: Provider, links: seq<SpecLink>, i: nat)
    requires AddLinks(reg, p, links).error.None? && i < |links|
    requires Decide(p.job, links[i]).Named? && !p.job.isAddon
    ensures Find(AddLinks(reg, p, links).registry.links, links[i].linkType, Decide(p.job, links[i]).name)
            == Some(LinkOf(p, links[i]))
    decreases links
  {
    var next := AddLink(reg, p, links[0]).registry;
    if i == 0 {
      AddLinksKeep(next, p, links[1..]);
    } else {
      OwnLinkIsFound(next, p, links[1..], i - 1);
    }
  }

  lemma {:induction false} LinkIsStored(reg: Registry, ps: seq<Provider>, k: nat, i: nat)
    requires AddAll(reg, ps).error.None? && k < |ps| && i < |ps[k].spec.provided|
    requires !ps[k].job.isAddon
    ensures var link := ps[k].spec.provided[i];
            match Decide(ps[k].job, link)
            case Named(name) => Find(AddAll(reg, ps).registry.links, link.linkType, name) == Some(LinkOf(ps[k], link))
            case Blocked => true
            case Invalid(_) => false
    decreases ps
  {
    var next := AddLinks(reg, ps[0], ps[0].spec.provided);
    if k == 0 {
      NoInvalid(reg, ps[0], ps[0].spec.provided, i);
      if Decide(ps[0].job, ps[0].spec.provided[i]).Named? {
        OwnLinkIsFound(reg, ps[0], ps[0].spec.provided, i);
        NothingIsOverwritten(next.registry, ps[1..]);
      }
    } else {
      LinkIsStored(next.registry, ps[1..], k - 1, i);
    }
  }

  /** A link with that address, whose properties resolve exactly wherever their names are prefix-free. */
  ghost predicate Carries(found: Option<JobLink>, address: string, defaults: Properties, properties: Properties,
                          names: seq<string>)
  {
    && found.Some? && found.value.address == address
    && (LinkProperties.AllPrefixFree(names) ==>
          LinkProperties.Exact(found.value.properties, defaults, properties, names))
  }

  /**
   After all jobs were collected without an error, every link that a job other than an addon
   offers is found under its type and the name it is offered under, with that job's own
   address, instances and properties.
   */
  lemma EveryLinkIsFound(reg: Registry, ps: seq<Provider>, k: nat, i: nat, name: string)
    requires AddAll(reg, ps).error.None? && k < |ps| && i < |ps[k].spec.provided|
    requires !ps[k].job.isAddon && Offered(ps[k].job, ps[k].spec.provided[i], name)
    ensures var p, link := ps[k], ps[k].spec.provided[i];
            var found := Find(AddAll(reg, ps).registry.links, link.linkType, name);
            && Carries(found, p.address, p.spec.defaults, p.job.properties, link.properties)
            && found.value.instances == p.instances
  {
    var p, link := ps[k], ps[k].spec.provided[i];
    DecideMeans(p.job, link);
    LinkIsStored(reg, ps, k, i);
    if LinkProperties.AllPrefixFree(link.properties) {
      LinkProperties.PrefixFreeIsIncomparable(link.properties);
      LinkProperties.ResolvesExactly(p.spec.defaults, p.job.properties, link.properties);
    }
  }

  lemma {:induction false} IsAJob(igs: seq<InstanceGroup>, g: nat, q: nat) returns (k: nat)
    requires g < |igs| && q < |igs[g].jobs|
    ensures k < |JobsOf(igs)| && JobsOf(igs)[k] == (igs[g], igs[g].jobs[q])
    decreases |igs|
  {
    var before := igs[..|igs| - 1];
    if g == |igs| - 1 {
      k := |JobsOf(before)| + q;
    } else {
      k := IsAJob(before, g, q);
    }
  }

  /**
   The same for a whole manifest: every link that the spec of a job lists and the job offers is
   found with the service of the job's group as its address and the instances of that group.
   */
  lemma CollectedLinkIsFound(nm: Naming, igs: seq<InstanceGroup>, loadSpec: (string, string) -> Result<JobSpec>,
                             initialRollout: bool, start: Registry, ps: seq<Provider>,
                             g: nat, q: nat, i: nat, name: string)
    requires ProvideAll(nm, JobsOf(igs), loadSpec, initialRollout, ps) && AddAll(start, ps).error.None?
    requires g < |igs| && q < |igs[g].jobs|
    requires var j := igs[g].jobs[q];
             var spec := loadSpec(j.release, j.job.name);
             spec.Ok? && i < |spec.value.provided| && !j.job.isAddon && Offered(j.job, spec.value.provided[i], name)
    ensures var group, j := igs[g].group, igs[g].jobs[q];
            var spec := loadSpec(j.release, j.job.name).value;
            var found := Find(AddAll(start, ps).registry.links, spec.provided[i].linkType, name);
            && Carries(found, nm.sanitized(group.name), spec.defaults, j.job.properties, spec.provided[i].properties)
            && ListsInstances(nm, group, j.job.name, initialRollout, found.value.instances, CellsOf(group))
  {
    var k := IsAJob(igs, g, q);
    var j := igs[g].jobs[q];
    assert Provides(nm, igs[g], j, loadSpec(j.release, j.job.name), initialRollout, ps[k]);
    EveryLinkIsFound(start, ps, k, i, name);
  }

  lemma {:induction false} NoInvalid(reg: Registry, p: Provider, links: seq<SpecLink>, i: nat)
    requires AddLinks(reg, p, links).error.None? && i < |links|
    ensures !Decide(p.job, links[i]).Invalid?
    decreases links
  {
    if i == 0 {
    } else {
      NoInvalid(AddLink(reg, p, links[0]).registry, p, links[1..], i - 1);
    }
  }

  // ---------------------------------------------------------------- the table of an instance group

  function Tabled(groups: GroupTable, igName: string): map<string, Properties> {
    if igName in groups then groups[igName] else map[]
  }

  function RegisteredNow(reg: Registry, p: Provider, link: SpecLink, igName: string): set<(string, string)> {
    var d := Decide(p.job, link);
    if p.igName == igName && d.Named? && Find(reg.links, link.linkType, d.name).None?
    then {(link.linkType, d.name)} else {}
  }

  /** The links, by type and name, that are registered for jobs of the given group. */
  function Registered(reg: Registry, p: Provider, links: seq<SpecLink>, igName: string): set<(string, string)>
    decreases links
  {
    if links == [] then {}
    else
      var first := AddLink(reg, p, links[0]);
      RegisteredNow(reg, p, links[0], igName) +
      if first.error.Some? then {} else Registered(first.registry, p, links[1..], igName)
  }

  function RegisteredFor(reg: Registry, ps: seq<Provider>, igName: string): set<(string, string)>
    decreases ps
  {
    if ps == [] then {}
    else
      var first := AddLinks(reg, ps[0], ps[0].spec.provided);
      Registered(reg, ps[0], ps[0].spec.provided, igName) +
      if first.error.Some? then {} else RegisteredFor(first.registry, ps[1..], igName)
  }

  function SecretKeys(links: set<(string, string)>): set<string> {
    set l | l in links :: SecretKey(l.0, l.1)
  }

  ghost predicate DistinctKeys(links: set<(string, string)>) {
    forall l, l' | l in links && l' in links && SecretKey(l.0, l.1) == SecretKey(l'.0, l'.1) :: l == l'
  }

  /** `mine` are the links of the group so far: they are the keys of its table, which holds their properties. */
  ghost predicate Agrees(reg: Registry, igName: string, mine: set<(string, string)>) {
    var table := Tabled(reg.groups, igName);
    && table.Keys == SecretKeys(mine)
    && (forall l | l in mine :: Find(reg.links, l.0, l.1).Some?)
    && (DistinctKeys(mine) ==>
          forall l | l in mine :: table[SecretKey(l.0, l.1)] == Find(reg.links, l.0, l.1).value.properties)
  }

  lemma KeysOfOneMore(mine: set<(string, string)>, l: (string, string))
    ensures SecretKeys(mine + {l}) == SecretKeys(mine) + {SecretKey(l.0, l.1)}
    ensures DistinctKeys(mine + {l}) && l !in mine ==> DistinctKeys(mine) && SecretKey(l.0, l.1) !in SecretKeys(mine)
  {
    if DistinctKeys(mine + {l}) && l !in mine {
      forall l' | l' in mine ensures SecretKey(l'.0, l'.1) != SecretKey(l.0, l.1) {
        assert l' in mine + {l} && l in mine + {l};
      }
    }
  }

  lemma StoreAgrees(reg: Registry, igName: string, mine: set<(string, string)>, t: string, n: string, link: JobLink)
    requires Agrees(reg, igName, mine) && Find(reg.links, t, n).None?
    ensures Agrees(Registry(Store(reg.links, t, n, link),
                            Store(reg.groups, igName, SecretKey(t, n), link.properties)), igName, mine + {(t, n)})
  {
    KeysOfOneMore(mine, (t, n));
    var table := Tabled(reg.groups, igName);
    var reg' := Registry(Store(reg.links, t, n, link), Store(reg.groups, igName, SecretKey(t, n), link.properties));
    assert Tabled(reg'.groups, igName) == table[SecretKey(t, n) := link.properties];
    var all := mine + {(t, n)};
    forall l | l in all
      ensures Find(reg'.links, l.0, l.1).Some?
      ensures DistinctKeys(all) ==>
                Tabled(reg'.groups, igName)[SecretKey(l.0, l.1)] == Find(reg'.links, l.0, l.1).value.properties
    {
      FindAfterStore(reg.links, t, n, link, l.0, l.1);
      if l != (t, n) {
        assert l in mine;
        assert SecretKey(l.0, l.1) in SecretKeys(mine);
      }
    }
  }

  lemma FindAfterStore(links: Links, t: string, n: string, link: JobLink, t': string, n': string)
    ensures Find(Store(links, t, n, link), t', n') == if t == t' && n == n' then Some(link) else Find(links, t', n')
  {
  }

  lemma OtherStoreAgrees(reg: Registry, igName: string, mine: set<(string, string)>, other: string,
                         t: string, n: string, link: JobLink)
    requires Agrees(reg, igName, mine) && Find(reg.links, t, n).None? && other != igName
    ensures Agrees(Registry(Store(reg.links, t, n, link),
                            Store(reg.groups, other, SecretKey(t, n), link.properties)), igName, mine)
  {
  }

  lemma AddLinkAgrees(reg: Registry, p: Provider, link: SpecLink, igName: string, mine: set<(string, string)>)
    requires Agrees(reg, igName, mine)
    ensures Agrees(AddLink(reg, p, link).registry, igName, mine + RegisteredNow(reg, p, link, igName))
  {
    assert mine + {} == mine;
    var d := Decide(p.job, link);
    if d.Named? && Find(reg.links, link.linkType, d.name).None? {
      if p.igName == igName {
        StoreAgrees(reg, igName, mine, link.linkType, d.name, LinkOf(p, link));
      } else {
        OtherStoreAgrees(reg, igName, mine, p.igName, link.linkType, d.name, LinkOf(p, link));
      }
    }
  }

  lemma {:induction false} AddLinksAgree(reg: Registry, p: Provider, links: seq<SpecLink>, igName: string,
                                         mine: set<(string, string)>)
    requires Agrees(reg, igName, mine)
    ensures Agrees(AddLinks(reg, p, links).registry, igName, mine + Registered(reg, p, links, igName))
    decreases links
  {
    if links == [] {
      assert mine + {} == mine;
    } else {
      AddLinkAgrees(reg, p, links[0], igName, mine);
      var first := AddLink(reg, p, links[0]);
      var here := RegisteredNow(reg, p, links[0], igName);
      if first.error.None? {
        AddLinksAgree(first.registry, p, links[1..], igName, mine + here);
        assert mine + here + Registered(first.registry, p, links[1..], igName) ==
               mine + Registered(reg, p, links, igName);
      } else {
        assert here == Registered(reg, p, links, igName);
      }
    }
  }

  lemma {:induction false} AddAllAgrees(reg: Registry, ps: seq<Provider>, igName: string, mine: set<(string, string)>)
    requires Agrees(reg, igName, mine)
    ensures Agrees(AddAll(reg, ps).registry, igName, mine + RegisteredFor(reg, ps, igName))
    decreases ps
  {
    if ps == [] {
      assert mine + {} == mine;
    } else {
      var first := AddLinks(reg, ps[0], ps[0].spec.provided);
      var here := Registered(reg, ps[0], ps[0].spec.provided, igName);
      AddLinksAgree(reg, ps[0], ps[0].spec.provided, igName, mine);
      if first.error.None? {
        AddAllAgrees(first.registry, ps[1..], igName, mine + here);
        assert mine + here + RegisteredFor(first.registry, ps[1..], igName) == mine + RegisteredFor(reg, ps, igName);
      } else {
        assert here == RegisteredFor(reg, ps, igName);
      }
    }
  }

  lemma {:induction false} KeyCount(links: set<(string, string)>)
    ensures |SecretKeys(links)| <= |links|
    ensures |SecretKeys(links)| == |links| <==> DistinctKeys(links)
    decreases links
  {
    if links == {} {
    } else {
      var l :| l in links;
      var rest := links - {l};
      KeyCount(rest);
      var key := SecretKey(l.0, l.1);
      assert SecretKeys(links) == SecretKeys(rest) + {key};
      if key in SecretKeys(rest) {
        assert SecretKeys(links) == SecretKeys(rest);
      } else if DistinctKeys(rest) {
        assert DistinctKeys(links);
      }
    }
  }

  /**
   The table from which a group's links are saved has one entry for each link registered for
   the group if and only if the combined keys of these links are distinct, and then every entry
   holds the properties of the link itself.
   */
  lemma TableIsCompleteIff(reg: Registry, ps: seq<Provider>, igName: string)
    requires Tabled(reg.groups, igName) == map[]
    ensures var after := AddAll(reg, ps).registry;
            var mine := RegisteredFor(reg, ps, igName);
            var table := Tabled(after.groups, igName);
            && |table| <= |mine| && (|table| == |mine| <==> DistinctKeys(mine))
            && (DistinctKeys(mine) ==> forall l | l in mine ::
                  && SecretKey(l.0, l.1) in table && Find(after.links, l.0, l.1).Some?
                  && table[SecretKey(l.0, l.1)] == Find(after.links, l.0, l.1).value.properties)
  {
    var mine := RegisteredFor(reg, ps, igName);
    assert {} + mine == mine;
    AddAllAgrees(reg, ps, igName, {});
    KeyCount(mine);
    var table := Tabled(AddAll(reg, ps).registry.groups, igName);
    assert |table| == |table.Keys|;
  }

  lemma {:induction false} LinkIsRegistered(reg: Registry, p: Provider, links: seq<SpecLink>, i: nat)
    requires AddLinks(reg, p, links).error.None? && i < |links|
    requires Decide(p.job, links[i]).Named? && !p.job.isAddon
    ensures (links[i].linkType, Decide(p.job, links[i]).name) in Registered(reg, p, links, p.igName)
    decreases links
  {
    if i == 0 {
    } else {
      LinkIsRegistered(AddLink(reg, p, links[0]).registry, p, links[1..], i - 1);
    }
  }

  /** Every unblocked link of a job that is not an addon counts as registered for the job's group. */
  lemma {:induction false} EveryLinkIsRegistered(reg: Registry, ps: seq<Provider>, k: nat, i: nat, name: string)
    requires AddAll(reg, ps).error.None? && k < |ps| && i < |ps[k].spec.provided|
    requires !ps[k].job.isAddon && Offered(ps[k].job, ps[k].spec.provided[i], name)
    ensures (ps[k].spec.provided[i].linkType, name) in RegisteredFor(reg, ps, ps[k].igName)
    decreases ps
  {
    if k == 0 {
      DecideMeans(ps[0].job, ps[0].spec.provided[i]);
      LinkIsRegistered(reg, ps[0], ps[0].spec.provided, i);
    } else {
      EveryLinkIsRegistered(AddLinks(reg, ps[0], ps[0].spec.provided).registry, ps[1..], k - 1, i, name);
    }
  }

  /** The job declares a link of that type and name, and does not block it. */
  predicate Declares(job: Job, links: seq<SpecLink>, l: (string, string)) {
    exists i | 0 <= i < |links| :: links[i].linkType == l.0 && Offered(job, links[i], l.1)
  }

  /** The instance group of the first job that declares the link. */
  function FirstDeclarer(ps: seq<Provider>, l: (string, string)): Option<string>
    decreases ps
  {
    if ps == [] then None
    else if Declares(ps[0].job, ps[0].spec.provided, l) then Some(ps[0].igName)
    else FirstDeclarer(ps[1..], l)
  }

  lemma DeclaresInTurn(job: Job, links: seq<SpecLink>, l: (string, string))
    requires links != []
    ensures Declares(job, links, l) <==>
            || (links[0].linkType == l.0 && Offered(job, links[0], l.1))
            || Declares(job, links[1..], l)
  {
    var rest := links[1..];
    if i :| 0 <= i < |rest| && rest[i].linkType == l.0 && Offered(job, rest[i], l.1) {
      assert links[i + 1] == rest[i];
    }
    if i :| 0 <= i < |links| && links[i].linkType == l.0 && Offered(job, links[i], l.1) {
      assert i > 0 ==> rest[i - 1] == links[i];
    }
  }

  lemma LinkIsNewIff(reg: Registry, p: Provider, link: SpecLink, igName: string, l: (string, string))
    requires AddLink(reg, p, link).error.None?
    ensures var here := link.linkType == l.0 && Offered(p.job, link, l.1);
            var after := AddLink(reg, p, link).registry;
            && (l in RegisteredNow(reg, p, link, igName) <==>
                  p.igName == igName && Find(reg.links, l.0, l.1).None? && here)
            && (Find(after.links, l.0, l.1).Some? <==> Find(reg.links, l.0, l.1).Some? || here)
  {
    var d := Decide(p.job, link);
    if d.Named? {
      FindAfterStore(reg.links, link.linkType, d.name, LinkOf(p, link), l.0, l.1);
    }
  }

  /** One job's links count for its group if they were not registered before, and then they are. */
  lemma {:induction false} JobIsDeclarerIff(
    reg: Registry, p: Provider, links: seq<SpecLink>, igName: string, l: (string, string))
    requires AddLinks(reg, p, links).error.None?
    ensures var after := AddLinks(reg, p, links).registry;
            && (l in Registered(reg, p, links, igName) <==>
                  p.igName == igName && Find(reg.links, l.0, l.1).None? && Declares(p.job, links, l))
            && (Find(after.links, l.0, l.1).Some? <==>
                  Find(reg.links, l.0, l.1).Some? || Declares(p.job, links, l))
    decreases links
  {
    if links == [] {
    } else {
      LinkIsNewIff(reg, p, links[0], igName, l);
      DeclaresInTurn(p.job, links, l);
      JobIsDeclarerIff(AddLink(reg, p, links[0]).registry, p, links[1..], igName, l);
    }
  }

  /**
   After a run without an error a link belongs to a group if and only if it was not registered
   at the start and the first job that declares it is one of the group's.
   */
  lemma {:induction false} RegisteredIffDeclared(reg: Registry, ps: seq<Provider>, igName: string, l: (string, string))
    requires AddAll(reg, ps).error.None?
    ensures l in RegisteredFor(reg, ps, igName) <==>
            Find(reg.links, l.0, l.1).None? && FirstDeclarer(ps, l) == Some(igName)
    decreases ps
  {
    if ps == [] {
    } else {
      JobIsDeclarerIff(reg, ps[0], ps[0].spec.provided, igName, l);
      RegisteredIffDeclared(AddLinks(reg, ps[0], ps[0].spec.provided).registry, ps[1..], igName, l);
    }
  }

  /**
   The table that is saved for a group has one entry for each link that a job of the group is
   the first to declare if and only if the combined keys of these links are distinct, and then
   each entry holds the properties of the link itself.
   */
  lemma SavedTableIff(reg: Registry, ps: seq<Provider>, igName: string, mine: set<(string, string)>)
    requires Tabled(reg.groups, igName) == map[] && AddAll(reg, ps).error.None?
    requires forall l :: l in mine <==> Find(reg.links, l.0, l.1).None? && FirstDeclarer(ps, l) == Some(igName)
    ensures var after := AddAll(reg, ps).registry;
            var table := Tabled(after.groups, igName);
            && |table| <= |mine| && (|table| == |mine| <==> DistinctKeys(mine))
            && (DistinctKeys(mine) ==> forall l | l in mine ::
                  && SecretKey(l.0, l.1) in table && Find(after.links, l.0, l.1).Some?
                  && table[SecretKey(l.0, l.1)] == Find(after.links, l.0, l.1).value.properties)
  {
    forall l ensures l in RegisteredFor(reg, ps, igName) <==> l in mine {
      RegisteredIffDeclared(reg, ps, igName, l);
    }
    assert RegisteredFor(reg, ps, igName) == mine;
    TableIsCompleteIff(reg, ps, igName);
  }

  /** A job with two links of different types and names whose combined keys are the same. */
  function Colliding(): Provider {
    Provider("ig", Job("j", map[], map[], false),
             JobSpec(map[], [SpecLink("c", "a-b", []), SpecLink("b-c", "a", [])]), [], "address")
  }

  const COLLIDING := {("a-b", "c"), ("a", "b-c")}

  lemma CollidingLinks(l: (string, string))
    ensures l in COLLIDING <==> FirstDeclarer([Colliding()], l) == Some("ig")
  {
    var job, links := Colliding().job, Colliding().spec.provided;
    assert links[0].linkType == "a-b" && Offered(job, links[0], "c");
    assert links[1].linkType == "a" && Offered(job, links[1], "b-c");
    assert Declares(job, links, l) <==> l in COLLIDING;
  }

  lemma CollidingIsAdded()
    ensures AddAll(Registry(map[], map[]), [Colliding()]).error.None?
  {
    var p, reg := Colliding(), Registry(map[], map[]);
    var first := AddLink(reg, p, p.spec.provided[0]);
    assert "a" != "a-b";
    assert first.error.None? && Find(first.registry.links, "a", "b-c").None?;
    assert p.spec.provided[1..] == [p.spec.provided[1]];
    assert AddLinks(first.registry, p, p.spec.provided[1..]).error.None?;
    assert [p][1..] == [];
  }

  lemma CollidingKeys()
    ensures |COLLIDING| == 2 && !DistinctKeys(COLLIDING)
  {
    var l, l' := ("a-b", "c"), ("a", "b-c");
    assert l.0[1..] == "-b" && l'.0[1..] == "";
    assert SecretKey(l.0, l.1) == "a-b-c" == SecretKey(l'.0, l'.1);
    assert l in COLLIDING && l' in COLLIDING;
  }

  /** A group that declares two links saves a table with fewer entries. */
  lemma KeysCollide()
    ensures |Tabled(AddAll(Registry(map[], map[]), [Colliding()]).registry.groups, "ig")| < |COLLIDING|
  {
    CollidingIsAdded();
    CollidingKeys();
    forall l ensures l in COLLIDING <==> FirstDeclarer([Colliding()], l) == Some("ig") {
      CollidingLinks(l);
    }
    SavedTableIff(Registry(map[], map[]), [Colliding()], "ig", COLLIDING);
  }

  // ---------------------------------------------------------------- when a whole collection succeeds

  /** One link of one job, in the order in which links are added. */
  datatype Declaration = Declaration(p: Provider, link: SpecLink)

  function DeclarationsOf(p: Provider, links: seq<SpecLink>): seq<Declaration> {
    seq(|links|, i requires 0 <= i < |links| => Declaration(p, links[i]))
  }

  function Declarations(ps: seq<Provider>): seq<Declaration>
    decreases ps
  {
    if ps == [] then [] else DeclarationsOf(ps[0], ps[0].spec.provided) + Declarations(ps[1..])
  }

  function AddEach(reg: Registry, ds: seq<Declaration>): Outcome
    decreases ds
  {
    if ds == [] then Outcome(reg, None)
    else
      var first := AddLink(reg, ds[0].p, ds[0].link);
      if first.error.Some? then first else AddEach(first.registry, ds[1..])
  }

  lemma {:induction false} AddLinksIsAddEach(reg: Registry, p: Provider, links: seq<SpecLink>, rest: seq<Declaration>)
    ensures AddEach(reg, DeclarationsOf(p, links) + rest) ==
            var first := AddLinks(reg, p, links);
            if first.error.Some? then first else AddEach(first.registry, rest)
    decreases links
  {
    var ds := DeclarationsOf(p, links);
    if links == [] {
      assert ds + rest == rest;
    } else {
      assert (ds + rest)[1..] == DeclarationsOf(p, links[1..]) + rest;
      AddLinksIsAddEach(AddLink(reg, p, links[0]).registry, p, links[1..], rest);
    }
  }

  lemma {:induction false} AddAllIsAddEach(reg: Registry, ps: seq<Provider>)
    ensures AddAll(reg, ps) == AddEach(reg, Declarations(ps))
    decreases ps
  {
    if ps == [] {
    } else {
      AddLinksIsAddEach(reg, ps[0], ps[0].spec.provided, Declarations(ps[1..]));
      AddAllIsAddEach(AddLinks(reg, ps[0], ps[0].spec.provided).registry, ps[1..]);
    }
  }

  /** The declaration is one of the link of that type and name. */
  predicate IsOf(d: Declaration, l: (string, string)) {
    d.link.linkType == l.0 && Offered(d.p.job, d.link, l.1)
  }

  /** Neither the start of the run nor a declaration before the `n`-th brings the link. */
  ghost predicate IsNew(reg: Registry, ds: seq<Declaration>, n: nat, l: (string, string))
    requires n <= |ds|
  {
    Find(reg.links, l.0, l.1).None? && forall m | 0 <= m < n :: !IsOf(ds[m], l)
  }

  /** A declaration is well-formed, and new unless it comes from an addon or is blocked. */
  ghost predicate Admissible(reg: Registry, ds: seq<Declaration>, n: nat)
    requires n < |ds|
  {
    && !Refused(ds[n].p.job, ds[n].link)
    && (ds[n].p.job.isAddon ||
        forall name | Offered(ds[n].p.job, ds[n].link, name) :: IsNew(reg, ds, n, (ds[n].link.linkType, name)))
  }

  lemma IsNewAfterFirst(reg: Registry, ds: seq<Declaration>, n: nat, l: (string, string))
    requires n < |ds| && AddLink(reg, ds[0].p, ds[0].link).error.None?
    ensures IsNew(AddLink(reg, ds[0].p, ds[0].link).registry, ds[1..], n, l) <==> IsNew(reg, ds, n + 1, l)
  {
    LinkIsNewIff(reg, ds[0].p, ds[0].link, "", l);
    assert forall m | 0 <= m < n :: ds[1..][m] == ds[m + 1];
    if IsNew(AddLink(reg, ds[0].p, ds[0].link).registry, ds[1..], n, l) {
      forall m | 0 <= m < n + 1 ensures !IsOf(ds[m], l) {
        assert m > 0 ==> ds[m] == ds[1..][m - 1];
      }
    }
  }

  lemma AdmissibleAfterFirst(reg: Registry, ds: seq<Declaration>, n: nat)
    requires n + 1 < |ds| && AddLink(reg, ds[0].p, ds[0].link).error.None?
    ensures Admissible(AddLink(reg, ds[0].p, ds[0].link).registry, ds[1..], n) <==> Admissible(reg, ds, n + 1)
  {
    var job, link := ds[n + 1].p.job, ds[n + 1].link;
    forall name | Offered(job, link, name)
      ensures IsNew(AddLink(reg, ds[0].p, ds[0].link).registry, ds[1..], n, (link.linkType, name)) <==>
              IsNew(reg, ds, n + 1, (link.linkType, name))
    {
      IsNewAfterFirst(reg, ds, n, (link.linkType, name));
    }
  }

  lemma FirstSucceedsIff(reg: Registry, ds: seq<Declaration>)
    requires ds != []
    ensures AddLink(reg, ds[0].p, ds[0].link).error.None? <==> Admissible(reg, ds, 0)
  {
    var d := Decide(ds[0].p.job, ds[0].link);
    DecideMeans(ds[0].p.job, ds[0].link);
    if d.Named? {
      assert Offered(ds[0].p.job, ds[0].link, d.name);
    }
  }

  lemma {:induction false} AddEachSucceedsIff(reg: Registry, ds: seq<Declaration>)
    ensures AddEach(reg, ds).error.None? <==> forall n: nat | n < |ds| :: Admissible(reg, ds, n)
    decreases ds
  {
    if ds == [] {
    } else {
      var first := AddLink(reg, ds[0].p, ds[0].link);
      FirstSucceedsIff(reg, ds);
      if first.error.None? {
        AddEachSucceedsIff(first.registry, ds[1..]);
        forall n: nat | n < |ds[1..]|
          ensures Admissible(first.registry, ds[1..], n) <==> Admissible(reg, ds, n + 1)
        {
          AdmissibleAfterFirst(reg, ds, n);
        }
        RestIsAdmissibleIff(reg, first.registry, ds);
      }
    }
  }

  lemma RestIsAdmissibleIff(reg: Registry, after: Registry, ds: seq<Declaration>)
    requires ds != [] && Admissible(reg, ds, 0)
    requires forall n: nat | n < |ds[1..]| :: Admissible(after, ds[1..], n) <==> Admissible(reg, ds, n + 1)
    ensures (forall n: nat | n < |ds[1..]| :: Admissible(after, ds[1..], n)) <==>
            (forall n: nat | n < |ds| :: Admissible(reg, ds, n))
  {
    if forall n: nat | n < |ds[1..]| :: Admissible(after, ds[1..], n) {
      forall n: nat | n < |ds| ensures Admissible(reg, ds, n) {
        assert n > 0 ==> Admissible(after, ds[1..], n - 1);
      }
    }
    if forall n: nat | n < |ds| :: Admissible(reg, ds, n) {
      forall n: nat | n < |ds[1..]| ensures Admissible(after, ds[1..], n) {
        assert Admissible(reg, ds, n + 1);
      }
    }
  }

  /**
   A whole collection succeeds if and only if no job sets a link to something unexpected, and
   every link of a job that is not an addon is new: it was not registered at the start, and no
   link before it in the manifest has its type and name, unless one of them is blocked.
   */
  lemma CollectionSucceedsIff(reg: Registry, ps: seq<Provider>)
    ensures AddAll(reg, ps).error.None? <==>
            forall n: nat | n < |Declarations(ps)| :: Admissible(reg, Declarations(ps), n)
  {
    AddAllIsAddEach(reg, ps);
    AddEachSucceedsIff(reg, Declarations(ps));
  }
}
