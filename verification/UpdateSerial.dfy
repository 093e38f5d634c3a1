/**
 The start-up order that `update.serial` asks for: every instance group gets at most one
 required service, which an init container of its pods waits for.
 */
module UpdateSerial {
  import opened Wrappers

  /** `ports` tells whether the group has any service ports, `errand` whether it runs as a job without a service. */
  datatype Group = Group(name: string, serial: bool, ports: bool, errand: bool, instances: int)

  class InstanceGroup {
    const name: string
    const updateSerial: Option<bool>
    const portCount: nat
    const errand: bool
    const instances: int
    var requiredService: Option<string>

    constructor (name: string, updateSerial: Option<bool>, portCount: nat, errand: bool, instances: int)
      ensures this.name == name && this.updateSerial == updateSerial && this.portCount == portCount
      ensures this.errand == errand && this.instances == instances && requiredService == None
    {
      this.name, this.updateSerial, this.portCount := name, updateSerial, portCount;
      this.errand, this.instances, requiredService := errand, instances, None;
    }

    /** Serial unless the update block says otherwise. */
    function View(): Group {
      Group(name, updateSerial.None? || updateSerial.value, portCount > 0, errand, instances)
    }
  }

  function Views(groups: seq<InstanceGroup>): seq<Group> {
    seq(|groups|, i requires 0 <= i < |groups| => groups[i].View())
  }

  /** The last of the first `n` groups that has service ports. */
  function LastPorts(gs: seq<Group>, n: nat): (r: Option<nat>)
    requires n <= |gs|
    ensures r.Some? ==> r.value < n && gs[r.value].ports && forall m | r.value < m < n :: !gs[m].ports
    ensures r.None? ==> forall m | 0 <= m < n :: !gs[m].ports
  {
    if n == 0 then None else if gs[n - 1].ports then Some(n - 1) else LastPorts(gs, n - 1)
  }

  function LastSerial(gs: seq<Group>, n: nat): (r: Option<nat>)
    requires n <= |gs|
    ensures r.Some? ==> r.value < n && gs[r.value].serial && forall m | r.value < m < n :: !gs[m].serial
    ensures r.None? ==> forall m | 0 <= m < n :: !gs[m].serial
  {
    if n == 0 then None else if gs[n - 1].serial then Some(n - 1) else LastSerial(gs, n - 1)
  }

  /** The last group with ports up to and including the last serial one of the first `n` groups. */
  function LastUsed(gs: seq<Group>, n: nat): Option<nat>
    requires n <= |gs|
  {
    match LastSerial(gs, n)
    case None => None
    case Some(s) => LastPorts(gs, s + 1)
  }

  /** The group that group `i` waits for. */
  function WaitsFor(gs: seq<Group>, i: nat): (r: Option<nat>)
    requires i < |gs|
    ensures r.Some? ==> r.value < i && gs[r.value].ports
  {
    if gs[i].serial then LastPorts(gs, i) else LastUsed(gs, i)
  }

  function ServiceOf(gs: seq<Group>, serviceName: string -> string, j: Option<nat>): Option<string>
    requires j.Some? ==> j.value < |gs|
  {
    match j
    case None => None
    case Some(k) => Some(serviceName(gs[k].name))
  }

  /** The service that the pods of group `i` wait for. */
  function Required(gs: seq<Group>, serviceName: string -> string, i: nat): Option<string>
    requires i < |gs|
  {
    ServiceOf(gs, serviceName, WaitsFor(gs, i))
  }

  lemma RollingStep(gs: seq<Group>, n: nat)
    requires n < |gs|
    ensures LastPorts(gs, n + 1) == if gs[n].ports then Some(n) else LastPorts(gs, n)
    ensures LastUsed(gs, n + 1) == if gs[n].serial then LastPorts(gs, n + 1) else LastUsed(gs, n)
    ensures WaitsFor(gs, n) == if gs[n].serial then LastPorts(gs, n) else LastUsed(gs, n)
  {
  }

  /** The two services that the pass carries along, before group `n`. */
  datatype Rolling = Rolling(required: Option<string>, lastUsed: Option<string>)

  function Roll(gs: seq<Group>, serviceName: string -> string, n: nat): Rolling
    requires n <= |gs|
  {
    if n == 0 then Rolling(None, None) else Next(Roll(gs, serviceName, n - 1), gs[n - 1], serviceName)
  }

  lemma {:induction false} RollIsLast(gs: seq<Group>, serviceName: string -> string, n: nat)
    requires n <= |gs|
    ensures Roll(gs, serviceName, n) ==
            Rolling(ServiceOf(gs, serviceName, LastPorts(gs, n)), ServiceOf(gs, serviceName, LastUsed(gs, n)))
  {
    if n == 0 {
    } else {
      RollIsLast(gs, serviceName, n - 1);
      RollingStep(gs, n - 1);
    }
  }

  function Chosen(r: Rolling, g: Group): Option<string> {
    if g.serial then r.required else r.lastUsed
  }

  function Next(r: Rolling, g: Group, serviceName: string -> string): Rolling {
    var required := if g.ports then Some(serviceName(g.name)) else r.required;
    Rolling(required, if g.serial then required else r.lastUsed)
  }

  /** The body of the loop, for one instance group. */
  method Assign(ig: InstanceGroup, serviceName: string -> string, r: Rolling) returns (r': Rolling)
    modifies ig
    ensures ig.requiredService == Chosen(r, ig.View())
    ensures r' == Next(r, ig.View(), serviceName)
  {
    var requiredService, lastUsedService := r.required, r.lastUsed;
    var serial := true;
    if ig.updateSerial.Some? {
      serial := ig.updateSerial.value;
    }
    if serial {
      ig.requiredService := requiredService;
    } else {
      ig.requiredService := lastUsedService;
    }
    if ig.portCount > 0 {
      requiredService := Some(serviceName(ig.name));
    }
    if serial {
      lastUsedService := requiredService;
    }
    r' := Rolling(requiredService, lastUsedService);
  }

  /** What the pass does at group `ig`: the services it carries along, and the one it assigns. */
  ghost predicate Rolls(rolls: seq<Rolling>, i: int, ig: InstanceGroup, serviceName: string -> string,
                        wanted: Option<string>)
  {
    && 0 <= i < |rolls| - 1
    && rolls[i + 1] == Next(rolls[i], ig.View(), serviceName) && wanted == Chosen(rolls[i], ig.View())
  }

  /** The loop, against the services that each group ought to get. */
  method AssignAll(groups: seq<InstanceGroup>, serviceName: string -> string,
                   ghost rolls: seq<Rolling>, ghost wanted: seq<Option<string>>)
    requires forall i, j | 0 <= i < j < |groups| :: groups[i] != groups[j]
    requires |rolls| == |groups| + 1 && |wanted| == |groups|
    requires rolls[0] == Rolling(None, None)
    requires forall i | 0 <= i < |groups| :: Rolls(rolls, i, groups[i], serviceName, wanted[i])
    modifies groups
    ensures forall i | 0 <= i < |groups| :: groups[i].requiredService == wanted[i]
  {
    var rolling := Rolling(None, None);
    for n := 0 to |groups|
      invariant rolling == rolls[n]
      invariant forall i | 0 <= i < n :: groups[i].requiredService == wanted[i]
    {
      assert Rolls(rolls, n, groups[n], serviceName, wanted[n]);
      rolling := Assign(groups[n], serviceName, rolling);
    }
  }

  ghost function AllRolls(gs: seq<Group>, serviceName: string -> string): seq<Rolling> {
    seq(|gs| + 1, i requires 0 <= i <= |gs| => Roll(gs, serviceName, i))
  }

  ghost function AllRequired(gs: seq<Group>, serviceName: string -> string): seq<Option<string>> {
    seq(|gs|, i requires 0 <= i < |gs| => Required(gs, serviceName, i))
  }

  lemma ChosenIsRequired(gs: seq<Group>, serviceName: string -> string, n: nat)
    requires n < |gs|
    ensures Required(gs, serviceName, n) == Chosen(Roll(gs, serviceName, n), gs[n])
  {
    RollIsLast(gs, serviceName, n);
    RollingStep(gs, n);
  }

  lemma RollsAt(groups: seq<InstanceGroup>, serviceName: string -> string, i: nat)
    requires i < |groups|
    ensures var gs := Views(groups);
            Rolls(AllRolls(gs, serviceName), i, groups[i], serviceName, AllRequired(gs, serviceName)[i])
  {
    var gs := Views(groups);
    ChosenIsRequired(gs, serviceName, i);
    assert gs[i] == groups[i].View();
    assert AllRolls(gs, serviceName)[i] == Roll(gs, serviceName, i);
    assert AllRolls(gs, serviceName)[i + 1] == Roll(gs, serviceName, i + 1);
  }

  /** `calculateRequiredServices`: one pass with two rolling services. */
  method CalculateRequiredServices(groups: seq<InstanceGroup>, serviceName: string -> string)
    requires forall i, j | 0 <= i < j < |groups| :: groups[i] != groups[j]
    modifies groups
    ensures forall i | 0 <= i < |groups| :: groups[i].requiredService == Required(Views(groups), serviceName, i)
  {
    ghost var rolls := AllRolls(Views(groups), serviceName);
    ghost var wanted := AllRequired(Views(groups), serviceName);
    forall i | 0 <= i < |groups| ensures Rolls(rolls, i, groups[i], serviceName, wanted[i]) {
      RollsAt(groups, serviceName, i);
    }
    AssignAll(groups, serviceName, rolls, wanted);
  }

  /** Up to where group `i` looks back: a serial group at all before it, another one up to the last serial group. */
  ghost predicate LooksBackTo(groups: seq<InstanceGroup>, i: nat, n: nat)
    requires n <= i < |groups|
  {
    if groups[i].updateSerial == Some(false) then
      && (n > 0 ==> groups[n - 1].updateSerial != Some(false))
      && forall m | n <= m < i :: groups[m].updateSerial == Some(false)
    else
      n == i
  }

  /** The last of the first `n` groups that has any service port. */
  ghost predicate IsLastWithPorts(groups: seq<InstanceGroup>, n: nat, j: nat)
    requires n <= |groups|
  {
    j < n && groups[j].portCount >= 1 && forall m | j < m < n :: groups[m].portCount == 0
  }

  /**
   What the manifest makes a group wait for: the last group with a port among those it looks
   back to, and nothing if none of them has a port.
   */
  lemma RequiredMeans(groups: seq<InstanceGroup>, serviceName: string -> string, i: nat, n: nat)
    requires n <= i < |groups| && LooksBackTo(groups, i, n)
    ensures var r := Required(Views(groups), serviceName, i);
            && (r.None? <==> forall m | 0 <= m < n :: groups[m].portCount == 0)
            && forall j: nat | j < n && IsLastWithPorts(groups, n, j) :: r == Some(serviceName(groups[j].name))
  {
    var gs := Views(groups);
    SerialMeans(groups);
    if gs[i].serial {
      LastPortsMeans(groups, n);
    } else {
      var s := LastSerial(gs, i);
      assert n == if s.None? then 0 else s.value + 1;
      LastPortsMeans(groups, n);
    }
  }

  lemma SerialMeans(groups: seq<InstanceGroup>)
    ensures forall m | 0 <= m < |groups| :: Views(groups)[m].serial <==> groups[m].updateSerial != Some(false)
  {
  }

  lemma LastPortsMeans(groups: seq<InstanceGroup>, n: nat)
    requires n <= |groups|
    ensures var r := LastPorts(Views(groups), n);
            && (r.None? <==> forall m | 0 <= m < n :: groups[m].portCount == 0)
            && forall j: nat | j < n && IsLastWithPorts(groups, n, j) :: r == Some(j)
  {
    var gs := Views(groups);
    assert forall m | 0 <= m < n :: gs[m].ports <==> groups[m].portCount > 0;
    assert forall m | 0 <= m < n :: gs[m].ports <==> groups[m].portCount != 0;
  }

  // ---------------------------------------------------------------- the wait graph

  /** Group `i` comes up only after group `j`: it waits for it, or for a group that does. */
  predicate Reaches(gs: seq<Group>, i: nat, j: nat)
    requires i < |gs|
    decreases i
  {
    match WaitsFor(gs, i)
    case None => false
    case Some(k) => k == j || Reaches(gs, k, j)
  }

  predicate Closes(gs: seq<Group>, j: nat, k: nat)
    requires k < |gs|
  {
    j <= k && gs[k].serial && forall m | j < m < k :: !gs[m].ports
  }

  /** Group `j` has ports and is closed off, by itself or by a later serial group before other ports come up. */
  ghost predicate Guards(gs: seq<Group>, j: nat, i: nat)
    requires i < |gs|
  {
    j < i && gs[j].ports && exists k | 0 <= k <= i :: Closes(gs, j, k)
  }

  lemma {:induction false} GuardedIsReached(gs: seq<Group>, i: nat, j: nat)
    requires i < |gs| && Guards(gs, j, i)
    ensures Reaches(gs, i, j)
    decreases i
  {
    var k :| 0 <= k <= i && Closes(gs, j, k);
    var w := WaitsFor(gs, i);
    assert w.Some? && j <= w.value;
    if j < w.value {
      assert Closes(gs, j, k) && k <= w.value;
      GuardedIsReached(gs, w.value, j);
    }
  }

  lemma {:induction false} ReachedIsGuarded(gs: seq<Group>, i: nat, j: nat)
    requires i < |gs| && Reaches(gs, i, j)
    ensures Guards(gs, j, i)
    decreases i
  {
    var k := WaitsFor(gs, i).value;
    if k == j {
      if gs[i].serial {
        assert Closes(gs, j, i);
      } else {
        assert Closes(gs, j, LastSerial(gs, i).value);
      }
    } else {
      ReachedIsGuarded(gs, k, j);
      var c :| 0 <= c <= k && Closes(gs, j, c);
      assert c <= i;
    }
  }

  /** Which groups a group waits for through the whole chain of required services, exactly. */
  lemma ReachesIff(gs: seq<Group>, i: nat, j: nat)
    requires i < |gs|
    ensures Reaches(gs, i, j) <==> Guards(gs, j, i)
  {
    if Guards(gs, j, i) {
      GuardedIsReached(gs, i, j);
    }
    if Reaches(gs, i, j) {
      ReachedIsGuarded(gs, i, j);
    }
  }

  /** The serial barrier: a serial group with ports holds back everything listed after it. */
  lemma SerialBarrier(gs: seq<Group>, i: nat, j: nat)
    requires j < i < |gs| && gs[j].serial && gs[j].ports
    ensures Reaches(gs, i, j)
  {
    assert Closes(gs, j, j);
    ReachesIff(gs, i, j);
  }

  /**
   Groups that are not serial, with no serial group from one to the other, wait for the same
   service and not for each other.
   */
  lemma KeepsParallelism(gs: seq<Group>, i: nat, j: nat)
    requires i < j < |gs| && forall m | i <= m <= j :: !gs[m].serial
    ensures WaitsFor(gs, i) == WaitsFor(gs, j)
    ensures !Reaches(gs, i, j) && !Reaches(gs, j, i)
  {
    var n := j;
    while n > i
      invariant i <= n <= j && LastSerial(gs, n) == LastSerial(gs, j)
    {
      n := n - 1;
    }
    ReachesIff(gs, i, j);
    ReachesIff(gs, j, i);
  }

  /** Of two groups with ports that are not serial, a serial group after them waits only for the second. */
  lemma ParallelGroupIsSkipped()
    ensures var gs := [Group("a", false, true, false, 1), Group("b", false, true, false, 1),
                       Group("c", true, true, false, 1)];
            Reaches(gs, 2, 1) && !Reaches(gs, 2, 0)
  {
    var gs := [Group("a", false, true, false, 1), Group("b", false, true, false, 1),
               Group("c", true, true, false, 1)];
    assert Closes(gs, 1, 2);
    ReachesIff(gs, 2, 1);
    assert gs[1].ports;
    ReachesIff(gs, 2, 0);
  }

  // ---------------------------------------------------------------- starting up

  ghost predicate DistinctServices(gs: seq<Group>, serviceName: string -> string) {
    forall i, j | 0 <= i < j < |gs| && gs[i].ports && gs[j].ports :: serviceName(gs[i].name) != serviceName(gs[j].name)
  }

  /** Errands do not get a service, and a headless service without pods has no address. */
  predicate HasPods(g: Group) {
    !g.errand && g.instances > 0
  }

  /** A service resolves once a group with pods that runs under that name is up. */
  ghost predicate Resolves(gs: seq<Group>, serviceName: string -> string, up: set<nat>, service: string) {
    exists k | k in up :: k < |gs| && gs[k].ports && HasPods(gs[k]) && serviceName(gs[k].name) == service
  }

  ghost predicate CanStart(gs: seq<Group>, serviceName: string -> string, up: set<nat>, i: nat) {
    && i < |gs| && i !in up
    && var required := Required(gs, serviceName, i);
       required.Some? ==> Resolves(gs, serviceName, up, required.value)
  }

  function Up(order: seq<nat>): set<nat> {
    set i | i in order
  }

  /** The groups of `order` come up one after the other, each only once its required service resolves. */
  ghost predicate StartOrder(gs: seq<Group>, serviceName: string -> string, order: seq<nat>) {
    order != [] ==>
      var before := order[..|order| - 1];
      StartOrder(gs, serviceName, before) && CanStart(gs, serviceName, Up(before), order[|order| - 1])
  }

  /** A group with ports that has no pods behind its service guards group `i`. */
  ghost predicate HeldDown(gs: seq<Group>, i: nat)
    requires i < |gs|
  {
    exists j: nat | j < i :: (gs[j].errand || gs[j].instances <= 0) && Guards(gs, j, i)
  }

  lemma {:induction false} OnlyFreeGroupsStart(gs: seq<Group>, serviceName: string -> string, order: seq<nat>, i: nat)
    requires DistinctServices(gs, serviceName) && StartOrder(gs, serviceName, order) && i in order
    ensures i < |gs| && !HeldDown(gs, i)
    decreases |order|
  {
    var before, last := order[..|order| - 1], order[|order| - 1];
    if i in before {
      OnlyFreeGroupsStart(gs, serviceName, before, i);
    } else {
      assert i == last;
      var w := WaitsFor(gs, i);
      if w.Some? {
        var k :| k in Up(before) && k < |gs| && gs[k].ports && HasPods(gs[k]) &&
                 serviceName(gs[k].name) == serviceName(gs[w.value].name);
        assert k == w.value;
        OnlyFreeGroupsStart(gs, serviceName, before, k);
      }
      FreeIfRequiredIsFree(gs, i);
    }
  }

  lemma FreeIfRequiredIsFree(gs: seq<Group>, i: nat)
    requires i < |gs|
    requires var w := WaitsFor(gs, i); w.Some? ==> HasPods(gs[w.value]) && !HeldDown(gs, w.value)
    ensures !HeldDown(gs, i)
  {
    var w := WaitsFor(gs, i);
    forall j: nat | j < i && !HasPods(gs[j]) ensures !Guards(gs, j, i) {
      ReachesIff(gs, i, j);
      if w.Some? {
        ReachesIff(gs, w.value, j);
      }
    }
  }

  lemma RequiredHasPods(gs: seq<Group>, i: nat)
    requires i < |gs| && !HeldDown(gs, i)
    ensures var w := WaitsFor(gs, i); w.Some? ==> HasPods(gs[w.value])
  {
    var w := WaitsFor(gs, i);
    if w.Some? {
      ReachesIff(gs, i, w.value);
    }
  }

  /** The first group, in manifest order, that could still come up can come up now. */
  lemma SomeGroupCanStart(gs: seq<Group>, serviceName: string -> string, up: set<nat>, i: nat) returns (k: nat)
    requires i < |gs| && i !in up && !HeldDown(gs, i)
    ensures k <= i && CanStart(gs, serviceName, up, k)
    decreases i
  {
    var w := WaitsFor(gs, i);
    if w.None? || w.value in up {
      k := i;
      if w.Some? {
        RequiredHasPods(gs, i);
        assert Resolves(gs, serviceName, up, serviceName(gs[w.value].name));
      }
    } else {
      forall j: nat | j < w.value && !HasPods(gs[j]) ensures !Guards(gs, j, w.value) {
        ReachesIff(gs, i, j);
        ReachesIff(gs, w.value, j);
      }
      k := SomeGroupCanStart(gs, serviceName, up, w.value);
    }
  }

  /**
   Start-up, with its exact condition: however the groups have come up so far, one that is not
   up yet stays down for good if a group with ports and without pods guards it, and otherwise
   it, or a group listed before it, can come up next.
   */
  lemma StartUpIff(gs: seq<Group>, serviceName: string -> string, order: seq<nat>)
    requires DistinctServices(gs, serviceName) && StartOrder(gs, serviceName, order)
    ensures (exists k :: CanStart(gs, serviceName, Up(order), k)) <==>
            (exists i: nat | i < |gs| :: i !in order && !HeldDown(gs, i))
  {
    if k :| CanStart(gs, serviceName, Up(order), k) {
      var longer := order + [k];
      assert longer[..|longer| - 1] == order;
      assert k !in order;
      OnlyFreeGroupsStart(gs, serviceName, longer, k);
    }
    if i: nat :| i < |gs| && i !in order && !HeldDown(gs, i) {
      var k := SomeGroupCanStart(gs, serviceName, Up(order), i);
    }
  }

  /** A group with ports and without pods, an errand or one of zero instances: the next group never comes up. */
  lemma NextGroupStaysDown(first: Group, serviceName: string -> string, order: seq<nat>)
    requires first.serial && first.ports && !HasPods(first) && serviceName(first.name) != serviceName("api")
    requires StartOrder([first, Group("api", true, true, false, 1)], serviceName, order)
    ensures HeldDown([first, Group("api", true, true, false, 1)], 1) && 1 !in order
  {
    var gs := [first, Group("api", true, true, false, 1)];
    assert Closes(gs, 0, 0);
    assert Guards(gs, 0, 1);
    if 1 in order {
      OnlyFreeGroupsStart(gs, serviceName, order, 1);
    }
  }

  lemma ErrandHoldsNextGroup(serviceName: string -> string, order: seq<nat>)
    requires serviceName("errand") != serviceName("api")
    requires StartOrder([Group("errand", true, true, true, 1), Group("api", true, true, false, 1)], serviceName, order)
    ensures HeldDown([Group("errand", true, true, true, 1), Group("api", true, true, false, 1)], 1) && 1 !in order
  {
    NextGroupStaysDown(Group("errand", true, true, true, 1), serviceName, order);
  }

  lemma EmptyGroupHoldsNextGroup(serviceName: string -> string, order: seq<nat>)
    requires serviceName("db") != serviceName("api")
    requires StartOrder([Group("db", true, true, false, 0), Group("api", true, true, false, 1)], serviceName, order)
    ensures HeldDown([Group("db", true, true, false, 0), Group("api", true, true, false, 1)], 1) && 1 !in order
  {
    NextGroupStaysDown(Group("db", true, true, false, 0), serviceName, order);
  }

  function FirstGroups(n: nat): seq<nat> {
    seq(n, i requires 0 <= i < n => i)
  }

  lemma {:induction false} FreeGroupsStartInOrder(gs: seq<Group>, serviceName: string -> string, n: nat)
    requires n <= |gs| && forall i: nat | i < n :: !HeldDown(gs, i)
    ensures StartOrder(gs, serviceName, FirstGroups(n))
  {
    if n == 0 {
    } else {
      FreeGroupsStartInOrder(gs, serviceName, n - 1);
      var before := FirstGroups(n - 1);
      assert FirstGroups(n)[..n - 1] == before;
      var w := WaitsFor(gs, n - 1);
      if w.Some? {
        RequiredHasPods(gs, n - 1);
        assert before[w.value] == w.value;
        assert Resolves(gs, serviceName, Up(before), serviceName(gs[w.value].name));
      }
    }
  }

  /** All groups can start in the order of the manifest exactly when no group is held down. */
  lemma ManifestOrderStartsIff(gs: seq<Group>, serviceName: string -> string)
    requires DistinctServices(gs, serviceName)
    ensures StartOrder(gs, serviceName, FirstGroups(|gs|)) <==> forall i: nat | i < |gs| :: !HeldDown(gs, i)
  {
    if StartOrder(gs, serviceName, FirstGroups(|gs|)) {
      forall i: nat | i < |gs| ensures !HeldDown(gs, i) {
        assert FirstGroups(|gs|)[i] == i;
        OnlyFreeGroupsStart(gs, serviceName, FirstGroups(|gs|), i);
      }
    } else if forall i: nat | i < |gs| :: !HeldDown(gs, i) {
      FreeGroupsStartInOrder(gs, serviceName, |gs|);
    }
  }

  /** In particular when every group with ports runs pods. */
  lemma ManifestOrderStarts(gs: seq<Group>, serviceName: string -> string)
    requires forall i | 0 <= i < |gs| :: gs[i].ports ==> !gs[i].errand && gs[i].instances > 0
    ensures StartOrder(gs, serviceName, FirstGroups(|gs|))
  {
    FreeGroupsStartInOrder(gs, serviceName, |gs|);
  }
}
