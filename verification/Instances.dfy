/**
 The instances of an instance group.  Three loops enumerate them independently: the job
 instances that links and templates see, the services that give every instance a name, and
 the DNS rewrites of a placeholder alias.
 */
module Instances {
  import opened Wrappers
  import Decimal

  datatype Group = Group(name: string, instances: int, azs: seq<string>)

  /** Name functions of the shared library: a DNS label cut to 53 characters, and a sanitized name. */
  datatype Naming = Naming(truncated: string -> string, sanitized: string -> string)

  datatype JobInstance = JobInstance(
    address: string, az: string, index: int, instance: int, name: string, bootstrap: bool, id: string)

  /** `azIndex` is -1 for a group without availability zones. */
  function IndexedServiceName(nm: Naming, g: Group, index: nat, azIndex: int): string {
    var sn := nm.truncated(g.name);
    if azIndex > -1 then sn + "-z" + Decimal.Print(azIndex) + "-" + Decimal.Print(index)
    else sn + "-" + Decimal.Print(index)
  }

  // ---------------------------------------------------------------- cells: (zone, ordinal)

  function Zones(g: Group): nat {
    if g.azs == [] then 1 else |g.azs|
  }

  function Replicas(g: Group): nat {
    if g.instances < 0 then 0 else g.instances
  }

  function ZoneIndex(g: Group, z: nat): int {
    if g.azs == [] then -1 else z
  }

  function Row(z: nat, n: nat): seq<(nat, nat)> {
    seq(n, i requires 0 <= i < n => (z, i))
  }

  /** Zone by zone, ordinal by ordinal. */
  function Cells(zones: nat, n: nat): seq<(nat, nat)> {
    if zones == 0 then [] else Cells(zones - 1, n) + Row(zones - 1, n)
  }

  function CellsOf(g: Group): seq<(nat, nat)> {
    Cells(Zones(g), Replicas(g))
  }

  lemma {:induction false} CellCount(zones: nat, n: nat)
    ensures |Cells(zones, n)| == zones * n
  {
    if zones == 0 {
    } else {
      CellCount(zones - 1, n);
      assert zones * n == (zones - 1) * n + n;
    }
  }

  /** The position of a cell. */
  function Position(n: nat, z: nat, i: nat): nat {
    |Cells(z, n)| + i
  }

  lemma {:induction false} CellAt(zones: nat, n: nat, z: nat, i: nat)
    requires z < zones && i < n
    ensures Position(n, z, i) < |Cells(zones, n)| && Cells(zones, n)[Position(n, z, i)] == (z, i)
  {
    if z == zones - 1 {
    } else {
      CellAt(zones - 1, n, z, i);
    }
  }

  lemma {:induction false} CellsAreInRange(zones: nat, n: nat, k: nat)
    requires k < |Cells(zones, n)|
    ensures var (z, i) := Cells(zones, n)[k]; z < zones && i < n && k == Position(n, z, i)
  {
    if k < |Cells(zones - 1, n)| {
      CellsAreInRange(zones - 1, n, k);
    }
  }

  lemma {:induction false} CellsGrow(small: nat, big: nat, n: nat)
    requires small <= big
    ensures Cells(small, n) <= Cells(big, n)
    decreases big - small
  {
    if small == big {
    } else {
      assert Cells(small + 1, n) == Cells(small, n) + Row(small, n);
      CellsGrow(small + 1, big, n);
    }
  }

  // ---------------------------------------------------------------- job instances

  function BootstrapIndex(g: Group, initialRollout: bool): int {
    if initialRollout then 0 else |CellsOf(g)| - 1
  }

  function InstanceAt(nm: Naming, g: Group, jobName: string, initialRollout: bool, cell: (nat, nat)): JobInstance
    requires cell.0 < Zones(g) && cell.1 < Replicas(g)
  {
    var (z, i) := cell;
    var index := Position(Replicas(g), z, i);
    var igName := nm.sanitized(g.name);
    JobInstance(
      IndexedServiceName(nm, g, i, ZoneIndex(g, z)),
      if g.azs == [] then "" else g.azs[z],
      index, i, igName + "-" + jobName, index == BootstrapIndex(g, initialRollout),
      if g.azs == [] then igName + "-" + Decimal.Print(i)
      else igName + "-z" + Decimal.Print(z) + "-" + Decimal.Print(i))
  }

  /** `r` lists the instances at the given cells, in that order. */
  ghost predicate ListsInstances(nm: Naming, g: Group, jobName: string, initialRollout: bool,
                                 r: seq<JobInstance>, cells: seq<(nat, nat)>)
  {
    && |r| == |cells|
    && forall k | 0 <= k < |r| ::
         && cells[k].0 < Zones(g) && cells[k].1 < Replicas(g)
         && r[k] == InstanceAt(nm, g, jobName, initialRollout, cells[k])
  }

  lemma SmallMultiple(k: int, n: int)
    requires -n < k * n < n
    ensures k == 0
  {
  }

  lemma RemainderOfIndex(z: nat, n: nat, i: nat)
    requires i < n
    ensures (z * n + i) % n == i
  {
    var a := z * n + i;
    var q, r := a / n, a % n;
    assert a == q * n + r;
    assert (z - q) * n == r - i;
    SmallMultiple(z - q, n);
  }

  lemma RowGrows(z: nat, n: nat, i: nat)
    requires i < n
    ensures Row(z, n)[..i + 1] == Row(z, n)[..i] + [(z, i)]
  {
  }

  lemma ListsOneMore(nm: Naming, g: Group, jobName: string, initialRollout: bool,
                     r: seq<JobInstance>, cells: seq<(nat, nat)>, cell: (nat, nat))
    requires ListsInstances(nm, g, jobName, initialRollout, r, cells)
    requires cell.0 < Zones(g) && cell.1 < Replicas(g)
    ensures ListsInstances(nm, g, jobName, initialRollout,
                           r + [InstanceAt(nm, g, jobName, initialRollout, cell)], cells + [cell])
  {
  }

  method JobInstances(nm: Naming, g: Group, jobName: string, initialRollout: bool) returns (r: seq<JobInstance>)
    requires g.azs == []
    ensures ListsInstances(nm, g, jobName, initialRollout, r, CellsOf(g))
  {
    var bootstrapIndex := 0;
    if !initialRollout {
      bootstrapIndex := g.instances - 1;
    }
    r := [];
    ghost var n := Replicas(g);
    assert CellsOf(g) == Row(0, n) by {
      assert Cells(0, n) == [];
    }
    var i := 0;
    while i < g.instances
      invariant 0 <= i <= n
      invariant ListsInstances(nm, g, jobName, initialRollout, r, Row(0, n)[..i])
    {
      var igName := nm.sanitized(g.name);
      var instance := JobInstance(
        IndexedServiceName(nm, g, i, -1), "", i, i, igName + "-" + jobName, i == bootstrapIndex,
        igName + "-" + Decimal.Print(i));
      assert instance == InstanceAt(nm, g, jobName, initialRollout, (0, i));
      ListsOneMore(nm, g, jobName, initialRollout, r, Row(0, n)[..i], (0, i));
      RowGrows(0, n, i);
      r := r + [instance];
      i := i + 1;
    }
    assert Row(0, n)[..n] == Row(0, n);
  }

  lemma PositionRemainder(n: nat, z: nat, i: nat)
    requires i < n
    ensures Position(n, z, i) % n == i
  {
    CellCount(z, n);
    RemainderOfIndex(z, n, i);
  }

  method NewInstanceAZ(nm: Naming, g: Group, jobName: string, ghost initialRollout: bool, bootstrapIndex: int,
                       azIndex: nat, i: nat, index: nat) returns (r: JobInstance)
    requires azIndex < |g.azs| && i < g.instances && bootstrapIndex == BootstrapIndex(g, initialRollout)
    requires index == Position(Replicas(g), azIndex, i)
    ensures r == InstanceAt(nm, g, jobName, initialRollout, (azIndex, i))
  {
    var igName := nm.sanitized(g.name);
    PositionRemainder(Replicas(g), azIndex, i);
    var ordinal := index % g.instances;
    r := JobInstance(
      IndexedServiceName(nm, g, i, azIndex), g.azs[azIndex], index, i, igName + "-" + jobName,
      index == bootstrapIndex, igName + "-z" + Decimal.Print(azIndex) + "-" + Decimal.Print(ordinal));
  }

  /** The inner loop: the instances of one zone. */
  method JobInstancesOfZone(nm: Naming, g: Group, jobName: string, ghost initialRollout: bool, bootstrapIndex: int,
                            azIndex: nat, before: seq<JobInstance>) returns (r: seq<JobInstance>)
    requires azIndex < |g.azs| && (g.instances > 0 ==> bootstrapIndex == BootstrapIndex(g, initialRollout))
    requires ListsInstances(nm, g, jobName, initialRollout, before, Cells(azIndex, Replicas(g)))
    ensures ListsInstances(nm, g, jobName, initialRollout, r, Cells(azIndex + 1, Replicas(g)))
  {
    ghost var n := Replicas(g);
    ghost var cells, row := Cells(azIndex, n), Row(azIndex, n);
    r := before;
    assert cells + row[..0] == cells;
    var i := 0;
    while i < g.instances
      invariant 0 <= i <= n
      invariant ListsInstances(nm, g, jobName, initialRollout, r, cells + row[..i])
    {
      var instance := NewInstanceAZ(nm, g, jobName, initialRollout, bootstrapIndex, azIndex, i, |r|);
      ListsOneMore(nm, g, jobName, initialRollout, r, cells + row[..i], (azIndex, i));
      assert cells + row[..i + 1] == cells + row[..i] + [(azIndex, i)];
      r := r + [instance];
      i := i + 1;
    }
    assert row[..n] == row;
  }

  method JobInstancesAZ(nm: Naming, g: Group, jobName: string, initialRollout: bool) returns (r: seq<JobInstance>)
    requires g.azs != []
    ensures ListsInstances(nm, g, jobName, initialRollout, r, CellsOf(g))
  {
    var bootstrapIndex := 0;
    if !initialRollout {
      bootstrapIndex := g.instances * |g.azs| - 1;
    }
    CellCount(|g.azs|, Replicas(g));
    r := [];
    for azIndex := 0 to |g.azs|
      invariant ListsInstances(nm, g, jobName, initialRollout, r, Cells(azIndex, Replicas(g)))
    {
      r := JobInstancesOfZone(nm, g, jobName, initialRollout, bootstrapIndex, azIndex, r);
    }
  }

  method NewJobInstances(nm: Naming, g: Group, jobName: string, initialRollout: bool) returns (r: seq<JobInstance>)
    ensures ListsInstances(nm, g, jobName, initialRollout, r, CellsOf(g))
  {
    if |g.azs| > 0 {
      r := JobInstancesAZ(nm, g, jobName, initialRollout);
    } else {
      r := JobInstances(nm, g, jobName, initialRollout);
    }
  }

  // ---------------------------------------------------------------- services

  /** An exposed service with the labels that select its pod; `None` for the headless one. */
  datatype Service = Service(name: string, azAndOrdinal: Option<(string, string)>)

  function ServiceAt(nm: Naming, g: Group, cell: (nat, nat)): Service {
    Service(IndexedServiceName(nm, g, cell.1, ZoneIndex(g, cell.0)),
            Some((Decimal.Print(cell.0), Decimal.Print(cell.1))))
  }

  ghost predicate ListsServices(nm: Naming, g: Group, r: seq<Service>, cells: seq<(nat, nat)>) {
    |r| == |cells| && forall k | 0 <= k < |r| :: r[k] == ServiceAt(nm, g, cells[k])
  }

  method GenerateServices(services: seq<Service>, nm: Naming, g: Group, azIndex: int, ghost done: seq<(nat, nat)>)
    returns (r: seq<Service>)
    requires azIndex >= -1 && ListsServices(nm, g, services, done)
    requires azIndex == -1 <==> g.azs == []
    ensures ListsServices(nm, g, r, done + Row(if azIndex == -1 then 0 else azIndex, Replicas(g)))
  {
    r := services;
    ghost var z := if azIndex == -1 then 0 else azIndex;
    var i := 0;
    while i < g.instances
      invariant 0 <= i <= Replicas(g)
      invariant ListsServices(nm, g, r, done + Row(z, Replicas(g))[..i])
    {
      var labelIndex := if azIndex == -1 then 0 else azIndex;
      r := r + [Service(IndexedServiceName(nm, g, i, azIndex), Some((Decimal.Print(labelIndex), Decimal.Print(i))))];
      i := i + 1;
    }
    assert Row(z, Replicas(g))[..Replicas(g)] == Row(z, Replicas(g));
  }

  /** One service per instance and then the headless one; nothing at all for a group without ports. */
  method Services(nm: Naming, g: Group, portCount: nat) returns (r: seq<Service>)
    ensures portCount == 0 ==> r == []
    ensures portCount > 0 ==>
              && |r| > 0 && r[|r| - 1] == Service(nm.sanitized(g.name), None)
              && ListsServices(nm, g, r[..|r| - 1], CellsOf(g))
  {
    r := [];
    if portCount == 0 { return; }
    ghost var n := Replicas(g);
    if |g.azs| > 0 {
      for azIndex := 0 to |g.azs|
        invariant ListsServices(nm, g, r, Cells(azIndex, n))
      {
        r := GenerateServices(r, nm, g, azIndex, Cells(azIndex, n));
      }
    } else {
      r := GenerateServices(r, nm, g, -1, []);
      assert CellsOf(g) == [] + Row(0, n) by {
        assert Cells(0, n) == [];
      }
    }
    ghost var indexed := r;
    r := r + [Service(nm.sanitized(g.name), None)];
    assert r[..|r| - 1] == indexed;
  }

  // ---------------------------------------------------------------- DNS rewrites

  datatype Rewrite = Rewrite(from: string, to: string)
  datatype Target = Target(query: string, instanceGroup: string)

  /** Replaces the first underscore, as the placeholder of an alias. */
  function FillPlaceholder(domain: string, id: string): string {
    if domain == "" then ""
    else if domain[0] == '_' then id + domain[1..]
    else [domain[0]] + FillPlaceholder(domain[1..], id)
  }

  function Qualified(name: string, namespace: string, clusterDomain: string): string {
    name + "." + namespace + ".svc." + clusterDomain
  }

  function RewriteAt(nm: Naming, g: Group, t: Target, domain: string, namespace: string, clusterDomain: string,
                     cell: (nat, nat)): Rewrite
  {
    var (z, i) := cell;
    var id := if g.azs == [] then t.instanceGroup + "-" + Decimal.Print(i)
              else t.instanceGroup + "-z" + Decimal.Print(z) + "-" + Decimal.Print(i);
    Rewrite(FillPlaceholder(domain, id),
            Qualified(IndexedServiceName(nm, g, i, ZoneIndex(g, z)), namespace, clusterDomain))
  }

  ghost predicate ListsRewrites(nm: Naming, g: Group, t: Target, domain: string, namespace: string,
                                clusterDomain: string,
                                r: seq<Rewrite>, cells: seq<(nat, nat)>)
  {
    && |r| == |cells|
    && forall k | 0 <= k < |r| :: r[k] == RewriteAt(nm, g, t, domain, namespace, clusterDomain, cells[k])
  }

  /** Extends the list by one zone; `before` are the rewrites of earlier aliases. */
  method GatherRewritesForInstances(rewrites: seq<Rewrite>, nm: Naming, g: Group, t: Target, domain: string,
                                    namespace: string, clusterDomain: string, azIndex: int,
                                    ghost before: seq<Rewrite>, ghost done: seq<(nat, nat)>)
    returns (r: seq<Rewrite>)
    requires azIndex >= -1 && (azIndex == -1 <==> g.azs == [])
    requires before <= rewrites
    requires ListsRewrites(nm, g, t, domain, namespace, clusterDomain, rewrites[|before|..], done)
    ensures before <= r
    ensures ListsRewrites(nm, g, t, domain, namespace, clusterDomain, r[|before|..],
                          done + Row(if azIndex == -1 then 0 else azIndex, Replicas(g)))
  {
    r := rewrites;
    ghost var z := if azIndex == -1 then 0 else azIndex;
    var i := 0;
    var id := "";
    while i < g.instances
      invariant 0 <= i <= Replicas(g) && before <= r
      invariant ListsRewrites(nm, g, t, domain, namespace, clusterDomain, r[|before|..],
                              done + Row(z, Replicas(g))[..i])
    {
      if azIndex > -1 {
        id := t.instanceGroup + "-z" + Decimal.Print(azIndex) + "-" + Decimal.Print(i);
      } else {
        id := t.instanceGroup + "-" + Decimal.Print(i);
      }
      var from := FillPlaceholder(domain, id);
      var serviceName := IndexedServiceName(nm, g, i, azIndex);
      var to := Qualified(serviceName, namespace, clusterDomain);
      assert Rewrite(from, to) == RewriteAt(nm, g, t, domain, namespace, clusterDomain, (z, i));
      RowGrows(z, Replicas(g), i);
      assert (r + [Rewrite(from, to)])[|before|..] == r[|before|..] + [Rewrite(from, to)];
      r := r + [Rewrite(from, to)];
      i := i + 1;
    }
    assert Row(z, Replicas(g))[..Replicas(g)] == Row(z, Replicas(g));
  }

  method GatherAllRewrites(rewrites: seq<Rewrite>, nm: Naming, g: Group, t: Target, domain: string,
                           namespace: string, clusterDomain: string) returns (r: seq<Rewrite>)
    ensures rewrites <= r
    ensures t.query == "_" ==>
              ListsRewrites(nm, g, t, domain, namespace, clusterDomain, r[|rewrites|..], CellsOf(g))
    ensures t.query != "_" ==>
              r == rewrites + [Rewrite(domain, Qualified(nm.sanitized(t.instanceGroup), namespace, clusterDomain))]
  {
    r := rewrites;
    ghost var n := Replicas(g);
    if t.query == "_" {
      if |g.azs| > 0 {
        for azIndex := 0 to |g.azs|
          invariant rewrites <= r
          invariant ListsRewrites(nm, g, t, domain, namespace, clusterDomain, r[|rewrites|..], Cells(azIndex, n))
        {
          r := GatherRewritesForInstances(r, nm, g, t, domain, namespace, clusterDomain, azIndex,
                                          rewrites, Cells(azIndex, n));
        }
      } else {
        r := GatherRewritesForInstances(r, nm, g, t, domain, namespace, clusterDomain, -1, rewrites, []);
        assert CellsOf(g) == [] + Row(0, n) by {
          assert Cells(0, n) == [];
        }
      }
    } else {
      r := r + [Rewrite(domain, Qualified(nm.sanitized(t.instanceGroup), namespace, clusterDomain))];
    }
  }

  // ---------------------------------------------------------------- the three enumerations agree

  function Names(nm: Naming, g: Group, cells: seq<(nat, nat)>): seq<string> {
    seq(|cells|, k requires 0 <= k < |cells| => IndexedServiceName(nm, g, cells[k].1, ZoneIndex(g, cells[k].0)))
  }

  /** Link addresses, service names and rewrite targets list the same names in the same order. */
  lemma EnumerationsAgree(nm: Naming, g: Group, jobName: string, initialRollout: bool, instances: seq<JobInstance>,
                          services: seq<Service>, t: Target, domain: string, namespace: string, clusterDomain: string,
                          rewrites: seq<Rewrite>)
    requires ListsInstances(nm, g, jobName, initialRollout, instances, CellsOf(g))
    requires ListsServices(nm, g, services, CellsOf(g))
    requires ListsRewrites(nm, g, t, domain, namespace, clusterDomain, rewrites, CellsOf(g))
    ensures |instances| == |services| == |rewrites|
    ensures |instances| == (if |g.azs| == 0 then 1 else |g.azs|) * (if g.instances <= 0 then 0 else g.instances)
    ensures forall k | 0 <= k < |instances| ::
              && instances[k].index == k
              && instances[k].address == services[k].name
              && rewrites[k].to == services[k].name + "." + namespace + ".svc." + clusterDomain
  {
    CellCount(Zones(g), Replicas(g));
    forall k | 0 <= k < |instances| ensures instances[k].index == k {
      CellsAreInRange(Zones(g), Replicas(g), k);
    }
  }

  /** What tells the instances of a group apart: the ordinal, after the zone if there are zones. */
  function Suffix(g: Group, z: nat, i: nat): string {
    if |g.azs| == 0 then "-" + Decimal.Print(i) else "-z" + Decimal.Print(z) + "-" + Decimal.Print(i)
  }

  lemma SuffixIsAppended(nm: Naming, g: Group, z: nat, i: nat)
    ensures IndexedServiceName(nm, g, i, ZoneIndex(g, z)) == nm.truncated(g.name) + Suffix(g, z, i)
  {
    var sn := nm.truncated(g.name);
    if g.azs != [] {
      assert sn + "-z" + Decimal.Print(z) + "-" + Decimal.Print(i) ==
             sn + ("-z" + Decimal.Print(z) + "-" + Decimal.Print(i));
    } else {
      assert sn + "-" + Decimal.Print(i) == sn + ("-" + Decimal.Print(i));
    }
  }

  /** The first underscore, and nothing else, gives way to the id. */
  lemma {:induction false} PlaceholderIsFilled(before: string, after: string, id: string)
    requires '_' !in before
    ensures FillPlaceholder(before + "_" + after, id) == before + id + after
  {
    var domain := before + "_" + after;
    if before == "" {
      assert domain[1..] == after;
    } else {
      assert domain[1..] == before[1..] + "_" + after && domain[0] == before[0];
      PlaceholderIsFilled(before[1..], after, id);
      assert [before[0]] + (before[1..] + id + after) == before + id + after;
    }
  }

  lemma {:induction false} NothingIsFilled(domain: string, id: string)
    requires '_' !in domain
    ensures FillPlaceholder(domain, id) == domain
  {
    if domain == "" {
    } else {
      NothingIsFilled(domain[1..], id);
    }
  }

  /**
   What the three lists hold for the instance of a zone and an ordinal: the instance with its
   address, index and id, the service with the labels of its pod, and the rewrite from the
   placeholder domain to that service.
   */
  lemma EnumeratedAt(nm: Naming, g: Group, jobName: string, initialRollout: bool, instances: seq<JobInstance>,
                     services: seq<Service>, t: Target, before: string, after: string, namespace: string,
                     clusterDomain: string, rewrites: seq<Rewrite>, z: nat, i: nat)
    requires ListsInstances(nm, g, jobName, initialRollout, instances, CellsOf(g))
    requires ListsServices(nm, g, services, CellsOf(g))
    requires ListsRewrites(nm, g, t, before + "_" + after, namespace, clusterDomain, rewrites, CellsOf(g))
    requires z < (if |g.azs| == 0 then 1 else |g.azs|) && i < g.instances && '_' !in before
    ensures var k, suffix := z * g.instances + i, Suffix(g, z, i);
            && k < |instances| == |services| == |rewrites|
            && |instances| == (if |g.azs| == 0 then 1 else |g.azs|) * g.instances
            && instances[k].address == services[k].name == nm.truncated(g.name) + suffix
            && instances[k].index == k && instances[k].instance == i
            && instances[k].az == (if |g.azs| == 0 then "" else g.azs[z])
            && instances[k].name == nm.sanitized(g.name) + "-" + jobName
            && instances[k].id == nm.sanitized(g.name) + suffix
            && (instances[k].bootstrap <==> k == if initialRollout then 0 else |instances| - 1)
            && services[k].azAndOrdinal == Some((Decimal.Print(z), Decimal.Print(i)))
            && rewrites[k].from == before + (t.instanceGroup + suffix) + after
            && rewrites[k].to == nm.truncated(g.name) + suffix + "." + namespace + ".svc." + clusterDomain
  {
    CellCount(z, Replicas(g));
    CellCount(Zones(g), Replicas(g));
    CellAt(Zones(g), Replicas(g), z, i);
    SuffixIsAppended(nm, g, z, i);
    InstanceHasSuffix(nm, g, jobName, initialRollout, z, i);
    RewriteHasSuffix(nm, g, t, before, after, namespace, clusterDomain, z, i);
  }

  lemma InstanceHasSuffix(nm: Naming, g: Group, jobName: string, initialRollout: bool, z: nat, i: nat)
    requires z < Zones(g) && i < Replicas(g)
    ensures InstanceAt(nm, g, jobName, initialRollout, (z, i)).id == nm.sanitized(g.name) + Suffix(g, z, i)
  {
    var igName := nm.sanitized(g.name);
    if g.azs != [] {
      assert igName + "-z" + Decimal.Print(z) + "-" + Decimal.Print(i) ==
             igName + ("-z" + Decimal.Print(z) + "-" + Decimal.Print(i));
    } else {
      assert igName + "-" + Decimal.Print(i) == igName + ("-" + Decimal.Print(i));
    }
  }

  lemma RewriteHasSuffix(nm: Naming, g: Group, t: Target, before: string, after: string, namespace: string,
                         clusterDomain: string, z: nat, i: nat)
    requires '_' !in before
    ensures RewriteAt(nm, g, t, before + "_" + after, namespace, clusterDomain, (z, i)).from ==
            before + (t.instanceGroup + Suffix(g, z, i)) + after
  {
    var id := t.instanceGroup + Suffix(g, z, i);
    if g.azs != [] {
      assert t.instanceGroup + "-z" + Decimal.Print(z) + "-" + Decimal.Print(i) == id;
    } else {
      assert t.instanceGroup + "-" + Decimal.Print(i) == id;
    }
    PlaceholderIsFilled(before, after, id);
  }

  /** Different instances have different suffixes, and so different ids, services and domains. */
  lemma SuffixesAreDistinct(g: Group, y: nat, i: nat, z: nat, l: nat)
    requires Suffix(g, y, i) == Suffix(g, z, l)
    ensures i == l && (g.azs != [] ==> y == z)
  {
    if g.azs == [] {
      assert "" + "-" == "-";
      LastNumber("", i, "", l);
    } else {
      var a, b := "-z" + Decimal.Print(y), "-z" + Decimal.Print(z);
      LastNumber(a, i, b, l);
      assert a[2..] == Decimal.Print(y) && b[2..] == Decimal.Print(z);
      Decimal.PrintInjective(y, z);
    }
  }

  /** With a placeholder in the domain no two instances share a domain. */
  lemma DomainsAreDistinct(g: Group, t: Target, before: string, after: string, y: nat, i: nat, z: nat, l: nat)
    requires before + (t.instanceGroup + Suffix(g, y, i)) + after ==
             before + (t.instanceGroup + Suffix(g, z, l)) + after
    ensures i == l && (g.azs != [] ==> y == z)
  {
    var a, b := t.instanceGroup + Suffix(g, y, i), t.instanceGroup + Suffix(g, z, l);
    assert |a| == |b|;
    assert (before + a + after)[|before|..|before| + |a|] == a && (before + b + after)[|before|..|before| + |b|] == b;
    assert a[|t.instanceGroup|..] == Suffix(g, y, i) && b[|t.instanceGroup|..] == Suffix(g, z, l);
    SuffixesAreDistinct(g, y, i, z, l);
  }

  /** A name is determined by the parts before and after its last dash. */
  lemma LastDash(a: string, x: string, b: string, y: string)
    requires a + "-" + x == b + "-" + y && '-' !in x && '-' !in y
    ensures a == b && x == y
  {
    var s := a + "-" + x;
    assert s[|a|] == '-' && s[|b|] == '-';
    assert forall k | |a| < k < |s| :: s[k] == x[k - |a| - 1];
    assert forall k | |b| < k < |s| :: s[k] == y[k - |b| - 1];
    assert |a| == |b|;
    assert s[..|a|] == a && s[..|b|] == b && s[|a| + 1..] == x && s[|b| + 1..] == y;
  }

  lemma LastNumber(a: string, m: nat, b: string, n: nat)
    requires a + "-" + Decimal.Print(m) == b + "-" + Decimal.Print(n)
    ensures a == b && m == n
  {
    LastDash(a, Decimal.Print(m), b, Decimal.Print(n));
    Decimal.PrintInjective(m, n);
  }

  /** No two instances of a group share a service name. */
  lemma NamesAreDistinct(nm: Naming, g: Group, j: nat, k: nat)
    requires j < |CellsOf(g)| && k < |CellsOf(g)|
    ensures Names(nm, g, CellsOf(g))[j] == Names(nm, g, CellsOf(g))[k] ==> j == k
  {
    var (y, i) := CellsOf(g)[j];
    var (z, l) := CellsOf(g)[k];
    CellsAreInRange(Zones(g), Replicas(g), j);
    CellsAreInRange(Zones(g), Replicas(g), k);
    var sn := nm.truncated(g.name);
    if Names(nm, g, CellsOf(g))[j] == Names(nm, g, CellsOf(g))[k] {
      if g.azs == [] {
        LastNumber(sn, i, sn, l);
      } else {
        var a, b := sn + "-z" + Decimal.Print(y), sn + "-z" + Decimal.Print(z);
        LastNumber(a, i, b, l);
        assert a[|sn| + 2..] == Decimal.Print(y) && b[|sn| + 2..] == Decimal.Print(z);
        Decimal.PrintInjective(y, z);
      }
    }
  }

  const TRUNCATED: nat := 53
  const LABEL: nat := 63

  /** Digits of the zone and ordinal in a name. */
  function DigitCount(g: Group, cell: (nat, nat)): nat {
    |Decimal.Print(cell.1)| + if g.azs == [] then 0 else |Decimal.Print(cell.0)|
  }

  /** What a label has left for digits beside the group's name and the separators. */
  function Room(nm: Naming, g: Group): int {
    LABEL - |nm.truncated(g.name)| - if g.azs == [] then 1 else 3
  }

  ghost predicate Fits(nm: Naming, g: Group, k: nat)
    requires k < |CellsOf(g)|
  {
    |Names(nm, g, CellsOf(g))[k]| <= 63
  }

  lemma FitsByDigits(nm: Naming, g: Group, k: nat)
    requires k < |CellsOf(g)|
    ensures Fits(nm, g, k) <==> DigitCount(g, CellsOf(g)[k]) <= Room(nm, g)
  {
    var (z, i) := CellsOf(g)[k];
    assert |Names(nm, g, CellsOf(g))[k]| ==
           |nm.truncated(g.name)| + DigitCount(g, (z, i)) + if g.azs == [] then 1 else 3;
  }

  /** The last name of a group has the most digits. */
  lemma LastFitsIff(nm: Naming, g: Group)
    requires Replicas(g) > 0
    ensures (forall k: nat | k < |CellsOf(g)| :: Fits(nm, g, k)) <==>
            DigitCount(g, (Zones(g) - 1, Replicas(g) - 1)) <= Room(nm, g)
  {
    CellAt(Zones(g), Replicas(g), Zones(g) - 1, Replicas(g) - 1);
    FitsByDigits(nm, g, Position(Replicas(g), Zones(g) - 1, Replicas(g) - 1));
    forall k: nat | k < |CellsOf(g)|
      ensures DigitCount(g, (Zones(g) - 1, Replicas(g) - 1)) <= Room(nm, g) ==> Fits(nm, g, k)
    {
      CellsAreInRange(Zones(g), Replicas(g), k);
      FitsByDigits(nm, g, k);
      Decimal.DigitsGrow(CellsOf(g)[k].0, Zones(g) - 1);
      Decimal.DigitsGrow(CellsOf(g)[k].1, Replicas(g) - 1);
    }
  }

  /** The room splits into digits for the zones and digits for the replicas. */
  ghost predicate Splits(g: Group, room: int, a: nat, b: nat) {
    a > 0 && b > 0 && a + b <= room && Zones(g) <= Decimal.Pow10(a) && Replicas(g) <= Decimal.Pow10(b)
  }

  /**
   All names of a group fit the DNS label of section 2.3.4 of RFC 1035 if and only if the
   numbers of its zones and replicas are at most powers of ten whose exponents share the room
   that the group's name leaves; without zones the replicas have all of it.
   */
  lemma FitsLabelIff(nm: Naming, g: Group)
    requires Replicas(g) > 0
    ensures (forall k: nat | k < |CellsOf(g)| :: Fits(nm, g, k)) <==>
            var room := Room(nm, g);
            if g.azs == [] then room > 0 && Replicas(g) <= Decimal.Pow10(room)
            else exists a: nat, b: nat :: Splits(g, room, a, b)
  {
    LastFitsIff(nm, g);
    var room := Room(nm, g);
    if g.azs == [] {
      if room > 0 {
        Decimal.DigitsIff(Replicas(g) - 1, room);
      }
    } else {
      var a, b := |Decimal.Print(Zones(g) - 1)|, |Decimal.Print(Replicas(g) - 1)|;
      Decimal.DigitsIff(Zones(g) - 1, a);
      Decimal.DigitsIff(Replicas(g) - 1, b);
      if a + b <= room {
        assert Splits(g, room, a, b);
      }
      if c: nat, d: nat :| Splits(g, room, c, d) {
        Decimal.DigitsIff(Zones(g) - 1, c);
        Decimal.DigitsIff(Replicas(g) - 1, d);
      }
    }
  }

  /** The names that are cut leave room for seven digits of zone and ordinal, and for nine without zones. */
  lemma CutNamesFit(nm: Naming, g: Group, k: nat)
    requires k < |CellsOf(g)| && |nm.truncated(g.name)| <= TRUNCATED
    ensures DigitCount(g, CellsOf(g)[k]) <= (if g.azs == [] then 9 else 7) ==> Fits(nm, g, k)
  {
    FitsByDigits(nm, g, k);
  }
}
