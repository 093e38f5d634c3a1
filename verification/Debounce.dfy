/**
 The debounced reconcilers: `ReconcileBOSHDeployment`, which keeps its timestamp in the
 status of the deployment, and `ReconcileWithOps`, which keeps it in an annotation of the
 with-ops secret.  The first trigger stores a timestamp and asks for a delivery ten seconds
 later; triggers inside that window are dropped; the first delivery after it clears the
 timestamp and does the work.
 */
module Debounce {
  import opened Wrappers

  type Time = nat

  /** Clock ticks, one per nanosecond. */
  const SECOND: nat := 1_000_000_000
  const RECONCILE_SKIP_DURATION: nat := 10 * SECOND
  const RETRY_DURATION: nat := 5 * SECOND

  datatype Controller = BoshDeployment | WithOps

  /** The reconciled resource; an annotation that is missing and one that is empty both read as `None`. */
  datatype Resource = Absent | Present(lastReconcile: Option<Time>)

  /** `ReplyLost`: the API server stored the update but the caller got an error. */
  datatype Reply = Stored | Rejected | ReplyLost

  datatype Interpolation = Interpolated | NotGenerated | InterpolationError

  /** One delivery: the time its body reads, the time it returns, and how every API call in it goes. */
  datatype Call = Call(
    now: Time, end: Time, getFails: bool, eventSwallowsError: bool, update: Reply,
    deploymentFound: bool, interpolation: Interpolation, stagesOk: bool)

  datatype Answer = Done | RequeueAfter(delay: nat) | Error

  /**
   What one reconcile leaves behind; `ran` once the timestamp was cleared, `succeeded` once all
   stages went through.
   */
  datatype Effect = Effect(resource: Resource, answer: Answer, ran: bool, succeeded: bool)

  /** Timestamps are stored with a granularity of `g` ticks: the last multiple of `g` up to `t`. */
  function Truncated(t: Time, g: nat): (r: Time)
    requires g > 0
    ensures r <= t < r + g
    ensures g == 1 ==> r == t
  {
    if t < g then 0 else Truncated(t - g, g) + g
  }

  predicate InWindow(start: Time, now: Time) {
    start <= now < start + RECONCILE_SKIP_DURATION
  }

  function Updated(before: Resource, after: Resource, reply: Reply): Resource {
    if reply.Rejected? then before else after
  }

  function Work(k: Controller, c: Call): (r: (Answer, bool)) {
    if k.WithOps? && c.interpolation.NotGenerated? then (RequeueAfter(RETRY_DURATION), false)
    else if k.WithOps? && c.interpolation.InterpolationError? then (Error, false)
    else if !c.stagesOk then (Error, false)
    else (Done, true)
  }

  function Reconcile(k: Controller, g: nat, o: Resource, c: Call): Effect
    requires g > 0
  {
    if c.getFails then
      Effect(o, if k.WithOps? && c.eventSwallowsError then RequeueAfter(RETRY_DURATION) else Error, false, false)
    else if o.Absent? then Effect(o, Done, false, false)
    else if o.lastReconcile.None? then
      var o' := Updated(o, Present(Some(Truncated(c.now, g))), c.update);
      Effect(o', if c.update.Stored? then RequeueAfter(RECONCILE_SKIP_DURATION) else Error, false, false)
    else if InWindow(o.lastReconcile.value, c.now) then Effect(o, Done, false, false)
    else if k.WithOps? && !c.deploymentFound then Effect(o, Error, false, false)
    else
      var o' := Updated(o, Present(None), c.update);
      if !c.update.Stored? then Effect(o', Error, false, false)
      else
        var (answer, ok) := Work(k, c);
        Effect(o', answer, true, ok)
  }

  // ---------------------------------------------------------------- the reconcilers

  class ApiServer {
    var resource: Resource

    constructor (o: Resource)
      ensures resource == o
    {
      resource := o;
    }

    /** The stored resource, unless the call fails. */
    method Get(fails: bool) returns (r: Option<Resource>)
      ensures r == if fails then None else Some(resource)
    {
      if fails { return None; }
      return Some(resource);
    }

    method Update(o: Resource, reply: Reply) returns (ok: bool)
      modifies this
      ensures resource == Updated(old(resource), o, reply)
      ensures ok == reply.Stored?
    {
      if !reply.Rejected? {
        resource := o;
      }
      return reply.Stored?;
    }
  }

  class ReconcileBOSHDeployment {
    const client: ApiServer

    constructor (client: ApiServer)
      ensures this.client == client
    {
      this.client := client;
    }

    method Run(g: nat, c: Call) returns (answer: Answer)
      requires g > 0
      modifies client
      ensures var e := Reconcile(BoshDeployment, g, old(client.resource), c);
              client.resource == e.resource && answer == e.answer
    {
      var got := client.Get(c.getFails);
      if got.None? { return Error; }
      var bdpl := got.value;
      if bdpl.Absent? { return Done; }

      if bdpl.lastReconcile.None? {
        bdpl := bdpl.(lastReconcile := Some(Truncated(c.now, g)));
        var ok := client.Update(bdpl, c.update);
        if !ok { return Error; }
        return RequeueAfter(RECONCILE_SKIP_DURATION);
      }

      if InWindow(bdpl.lastReconcile.value, c.now) { return Done; }

      bdpl := bdpl.(lastReconcile := None);
      var ok := client.Update(bdpl, c.update);
      if !ok { return Error; }

      if !c.stagesOk { return Error; }
      return Done;
    }
  }

  class ReconcileWithOps {
    const client: ApiServer

    constructor (client: ApiServer)
      ensures this.client == client
    {
      this.client := client;
    }

    method Run(g: nat, c: Call) returns (answer: Answer)
      requires g > 0
      modifies client
      ensures var e := Reconcile(WithOps, g, old(client.resource), c);
              client.resource == e.resource && answer == e.answer
    {
      var got := client.Get(c.getFails);
      if got.None? {
        if c.eventSwallowsError { return RequeueAfter(RETRY_DURATION); }
        return Error;
      }
      var secret := got.value;
      if secret.Absent? { return Done; }

      var lastReconcile := secret.lastReconcile;
      if lastReconcile.None? {
        secret := secret.(lastReconcile := Some(Truncated(c.now, g)));
        var ok := client.Update(secret, c.update);
        if !ok { return Error; }
        return RequeueAfter(RECONCILE_SKIP_DURATION);
      }

      if InWindow(lastReconcile.value, c.now) { return Done; }
      if !c.deploymentFound { return Error; }

      secret := secret.(lastReconcile := None);
      var ok := client.Update(secret, c.update);
      if !ok { return Error; }

      match c.interpolation
      case NotGenerated => return RequeueAfter(RETRY_DURATION);
      case InterpolationError => return Error;
      case Interpolated =>
        if !c.stagesOk { return Error; }
        return Done;
    }
  }

  // ---------------------------------------------------------------- whole runs

  datatype Span = Span(start: Time, end: Time)

  /**
   One key of a controller.  `pending` holds the due times of the deliveries still to come,
   `owed` whether a delivery was made that no successful run has followed yet, and `runs`
   the runs that got past the clearing of the timestamp.
   */
  datatype System = System(clock: Time, resource: Resource, pending: multiset<Time>, owed: bool, runs: seq<Span>)

  datatype Action =
    | Tick(ticks: nat)
    | Create
    | Delete
    | Trigger(due: Time)
    | Deliver(due: Time, call: Call, backoff: nat)

  /** The timestamp is stored, but the reconciler is told that it was not. */
  predicate SetReplyIsLost(s: System, c: Call) {
    !c.getFails && s.resource == Present(None) && c.update.ReplyLost?
  }

  /** `minRetry` is how long a retry takes at least, after the reply to the setting of the timestamp got lost. */
  predicate Enabled(s: System, a: Action, minRetry: nat) {
    match a
    case Tick(_) => true
    case Create => s.resource.Absent?
    case Delete => s.resource.Present?
    case Trigger(due) => s.clock <= due
    case Deliver(due, c, backoff) =>
      && due in s.pending
      && due <= c.now && s.clock <= c.now <= c.end
      && (SetReplyIsLost(s, c) ==> minRetry <= backoff)
  }

  function Requeued(answer: Answer, end: Time, backoff: nat): multiset<Time> {
    match answer
    case Done => multiset{}
    case RequeueAfter(d) => multiset{end + d}
    case Error => multiset{end + backoff}
  }

  function Next(k: Controller, g: nat, s: System, a: Action): System
    requires g > 0
  {
    match a
    case Tick(n) => s.(clock := s.clock + n)
    case Create => s.(resource := Present(None), pending := s.pending + multiset{s.clock})
    case Delete => s.(resource := Absent, owed := false)
    case Trigger(due) => s.(pending := s.pending + multiset{due})
    case Deliver(due, c, backoff) =>
      var e := Reconcile(k, g, s.resource, c);
      System(c.end, e.resource,
        s.pending - multiset{due} + Requeued(e.answer, c.end, backoff),
        s.resource.Present? && !e.succeeded,
        if e.ran then s.runs + [Span(c.now, c.end)] else s.runs)
  }

  const INITIAL := System(0, Absent, multiset{}, false, [])

  function Advance(k: Controller, g: nat, s: System, actions: seq<Action>): System
    requires g > 0
    decreases actions
  {
    if actions == [] then s else Advance(k, g, Next(k, g, s, actions[0]), actions[1..])
  }

  ghost predicate Valid(k: Controller, g: nat, s: System, actions: seq<Action>, minRetry: nat)
    requires g > 0
    decreases actions
  {
    actions != [] ==>
      Enabled(s, actions[0], minRetry) && Valid(k, g, Next(k, g, s, actions[0]), actions[1..], minRetry)
  }

  ghost predicate DueAtOrAfter(pending: multiset<Time>, t: Time) {
    exists d: Time :: d in pending && t <= d
  }

  /** No trigger is lost: a timestamp will be looked at again, and work that is owed will be delivered again. */
  ghost predicate NoTriggerLost(s: System) {
    s.resource.Present? ==>
      && (s.resource.lastReconcile.Some? ==>
            DueAtOrAfter(s.pending, s.resource.lastReconcile.value + RECONCILE_SKIP_DURATION))
      && (s.owed ==> s.pending != multiset{})
  }

  /** From the end of each run to the start of the next at least `gap` ticks pass. */
  ghost predicate Spaced(runs: seq<Span>, gap: int) {
    forall i | 0 <= i < |runs| - 1 :: runs[i].end + gap <= runs[i + 1].start
  }

  ghost predicate TimeInv(s: System, g: nat) {
    && (forall i | 0 <= i < |s.runs| :: s.runs[i].end <= s.clock)
    && (s.resource.Present? && s.resource.lastReconcile.Some? ==>
          && s.resource.lastReconcile.value <= s.clock
          && (s.runs != [] ==> s.runs[|s.runs| - 1].end < s.resource.lastReconcile.value + g))
    && Spaced(s.runs, RECONCILE_SKIP_DURATION - g + 1)
  }

  lemma NextKeepsTime(k: Controller, g: nat, s: System, a: Action, minRetry: nat)
    requires g > 0 && Enabled(s, a, minRetry) && TimeInv(s, g)
    ensures TimeInv(Next(k, g, s, a), g)
  {
    if a.Deliver? {
      DeliverKeepsTime(k, g, s, a, minRetry);
    }
  }

  lemma DeliverKeepsTime(k: Controller, g: nat, s: System, a: Action, minRetry: nat)
    requires g > 0 && a.Deliver? && Enabled(s, a, minRetry) && TimeInv(s, g)
    ensures TimeInv(Next(k, g, s, a), g)
  {
    var e := Reconcile(k, g, s.resource, a.call);
    var runs := Next(k, g, s, a).runs;
    if e.ran {
      assert s.resource.lastReconcile.value + RECONCILE_SKIP_DURATION <= a.call.now;
      assert e.resource == Present(None) && runs[..|s.runs|] == s.runs;
    } else {
      assert runs == s.runs;
    }
  }

  lemma DueAfterDelivery(pending: multiset<Time>, due: Time, requeued: multiset<Time>, t: Time)
    requires DueAtOrAfter(requeued, t) || (DueAtOrAfter(pending, t) && due < t)
    ensures DueAtOrAfter(pending - multiset{due} + requeued, t)
  {
    var all := pending - multiset{due} + requeued;
    if d: Time :| d in requeued && t <= d {
      assert d in all;
    } else {
      var d: Time :| d in pending && t <= d;
      assert d in all;
    }
  }

  /** Anything that does not answer `Done` comes back, no earlier than the delivery it answers. */
  lemma RequeuedIsDue(answer: Answer, end: Time, backoff: nat)
    ensures !answer.Done? ==> DueAtOrAfter(Requeued(answer, end, backoff), end)
    ensures answer.RequeueAfter? ==> DueAtOrAfter(Requeued(answer, end, backoff), end + answer.delay)
  {
    if answer.RequeueAfter? {
      assert end + answer.delay in Requeued(answer, end, backoff);
    } else if answer.Error? {
      assert end + backoff in Requeued(answer, end, backoff);
    }
  }

  lemma LaterIsDue(pending: multiset<Time>, t: Time, t': Time)
    requires DueAtOrAfter(pending, t') && t <= t'
    ensures DueAtOrAfter(pending, t)
  {
    var d: Time :| d in pending && t' <= d;
    assert t <= d;
  }

  /** A delivery that sets the timestamp comes back after its window, also if its reply gets lost. */
  lemma SettingIsCovered(k: Controller, g: nat, s: System, a: Action, minRetry: nat)
    requires g > 0 && a.Deliver? && Enabled(s, a, minRetry) && minRetry >= RECONCILE_SKIP_DURATION
    requires s.resource == Present(None)
    ensures var e := Reconcile(k, g, s.resource, a.call);
            e.resource.lastReconcile.Some? ==>
              DueAtOrAfter(Requeued(e.answer, a.call.end, a.backoff),
                           e.resource.lastReconcile.value + RECONCILE_SKIP_DURATION)
  {
    var c, more := a.call, Requeued(Reconcile(k, g, s.resource, a.call).answer, a.call.end, a.backoff);
    if !c.getFails && c.update.Stored? {
      assert c.end + RECONCILE_SKIP_DURATION in more;
    } else if !c.getFails && c.update.ReplyLost? {
      assert c.end + a.backoff in more;
    }
  }

  /** A delivery that leaves a timestamp in place comes back, unless it came inside the window. */
  lemma KeepingIsCovered(k: Controller, g: nat, s: System, a: Action, minRetry: nat)
    requires g > 0 && a.Deliver? && Enabled(s, a, minRetry) && TimeInv(s, g)
    requires s.resource.Present? && s.resource.lastReconcile.Some?
    ensures var e := Reconcile(k, g, s.resource, a.call);
            var t := s.resource.lastReconcile.value + RECONCILE_SKIP_DURATION;
            e.resource.lastReconcile.Some? ==>
              e.resource == s.resource &&
              (a.due < t || DueAtOrAfter(Requeued(e.answer, a.call.end, a.backoff), t))
  {
    var e := Reconcile(k, g, s.resource, a.call);
    var t := s.resource.lastReconcile.value + RECONCILE_SKIP_DURATION;
    RequeuedIsDue(e.answer, a.call.end, a.backoff);
    if e.resource.lastReconcile.Some? && t <= a.due {
      LaterIsDue(Requeued(e.answer, a.call.end, a.backoff), t, a.call.end);
    }
  }

  /** The timestamp after a delivery, if there is one, is waited for. */
  lemma DeliveryCoversTimestamp(k: Controller, g: nat, s: System, a: Action, minRetry: nat)
    requires g > 0 && a.Deliver? && Enabled(s, a, minRetry) && minRetry >= RECONCILE_SKIP_DURATION
    requires NoTriggerLost(s) && TimeInv(s, g)
    requires Next(k, g, s, a).resource.Present? && Next(k, g, s, a).resource.lastReconcile.Some?
    ensures var s' := Next(k, g, s, a);
            DueAtOrAfter(s'.pending, s'.resource.lastReconcile.value + RECONCILE_SKIP_DURATION)
  {
    var e := Reconcile(k, g, s.resource, a.call);
    var t := e.resource.lastReconcile.value + RECONCILE_SKIP_DURATION;
    if s.resource == Present(None) {
      SettingIsCovered(k, g, s, a, minRetry);
    } else {
      KeepingIsCovered(k, g, s, a, minRetry);
    }
    DueAfterDelivery(s.pending, a.due, Requeued(e.answer, a.call.end, a.backoff), t);
  }

  lemma DeliverKeepsTriggers(k: Controller, g: nat, s: System, a: Action, minRetry: nat)
    requires g > 0 && a.Deliver? && Enabled(s, a, minRetry) && minRetry >= RECONCILE_SKIP_DURATION
    requires NoTriggerLost(s) && TimeInv(s, g)
    ensures NoTriggerLost(Next(k, g, s, a))
  {
    var s' := Next(k, g, s, a);
    var e := Reconcile(k, g, s.resource, a.call);
    if s'.resource.Present? {
      if s'.resource.lastReconcile.Some? {
        DeliveryCoversTimestamp(k, g, s, a, minRetry);
      } else if s'.owed {
        RequeuedIsDue(e.answer, a.call.end, a.backoff);
        DueAfterDelivery(s.pending, a.due, Requeued(e.answer, a.call.end, a.backoff), a.call.end);
      }
    }
  }

  lemma NextKeepsTriggers(k: Controller, g: nat, s: System, a: Action, minRetry: nat)
    requires g > 0 && Enabled(s, a, minRetry) && minRetry >= RECONCILE_SKIP_DURATION
    requires NoTriggerLost(s) && TimeInv(s, g)
    ensures NoTriggerLost(Next(k, g, s, a))
  {
    if a.Deliver? {
      DeliverKeepsTriggers(k, g, s, a, minRetry);
    } else if a.Trigger? && s.resource.Present? && s.resource.lastReconcile.Some? {
      var d: Time :| d in s.pending && s.resource.lastReconcile.value + RECONCILE_SKIP_DURATION <= d;
      assert d in Next(k, g, s, a).pending;
    }
  }

  lemma {:induction false} Invariants(k: Controller, g: nat, s: System, actions: seq<Action>, minRetry: nat)
    requires g > 0 && Valid(k, g, s, actions, minRetry) && TimeInv(s, g)
    ensures TimeInv(Advance(k, g, s, actions), g)
    ensures minRetry >= RECONCILE_SKIP_DURATION && NoTriggerLost(s) ==> NoTriggerLost(Advance(k, g, s, actions))
    decreases actions
  {
    if actions == [] {
    } else {
      NextKeepsTime(k, g, s, actions[0], minRetry);
      if minRetry >= RECONCILE_SKIP_DURATION && NoTriggerLost(s) {
        NextKeepsTriggers(k, g, s, actions[0], minRetry);
      }
      Invariants(k, g, Next(k, g, s, actions[0]), actions[1..], minRetry);
    }
  }

  lemma Prepend(k: Controller, g: nat, s: System, a: Action, rest: seq<Action>, minRetry: nat)
    requires g > 0
    ensures Advance(k, g, s, [a] + rest) == Advance(k, g, Next(k, g, s, a), rest)
    ensures Valid(k, g, s, [a] + rest, minRetry) ==
            (Enabled(s, a, minRetry) && Valid(k, g, Next(k, g, s, a), rest, minRetry))
    ensures rest == [] ==> Valid(k, g, Next(k, g, s, a), rest, minRetry) &&
                           Advance(k, g, s, [a]) == Next(k, g, s, a) &&
                           Valid(k, g, s, [a], minRetry) == Enabled(s, a, minRetry)
  {
    assert ([a] + rest)[1..] == rest;
    assert [a] + [] == [a];
  }

  /** A delivery in which every API call and every stage goes well. */
  function Smooth(now: Time): Call {
    Call(now, now, false, false, Stored, true, Interpolated, true)
  }

  /** The first delivery stores its timestamp, loses the reply, and is to be retried after `backoff`. */
  lemma LostReply(k: Controller, g: nat, backoff: nat)
    requires g > 0
    ensures Next(k, g, System(0, Present(None), multiset{0 as Time}, false, []),
                 Deliver(0, Smooth(0).(update := ReplyLost), backoff)) ==
            System(0, Present(Some(0)), multiset{backoff as Time}, true, [])
  {
    assert multiset{0 as Time} - multiset{0 as Time} + multiset{backoff as Time} == multiset{backoff as Time};
  }

  lemma EarlyRetry(k: Controller, g: nat, at: Time)
    requires g > 0 && at < RECONCILE_SKIP_DURATION
    ensures Next(k, g, System(0, Present(Some(0)), multiset{at}, true, []), Deliver(at, Smooth(at), 0)) ==
            System(at, Present(Some(0)), multiset{}, true, [])
  {
    assert multiset{at} - multiset{at} + multiset{} == multiset{};
  }

  /** A retry that comes inside the window which its own lost reply opened is dropped, and the trigger with it. */
  lemma EarlyRetryLosesTrigger(k: Controller, g: nat, minRetry: nat)
    requires g > 0 && minRetry < RECONCILE_SKIP_DURATION
    ensures exists actions ::
              Valid(k, g, INITIAL, actions, minRetry) && !NoTriggerLost(Advance(k, g, INITIAL, actions))
  {
    var lost := Deliver(0, Smooth(0).(update := ReplyLost), minRetry);
    var retry := Deliver(minRetry, Smooth(minRetry), 0);
    var s1 := System(0, Present(None), multiset{0 as Time}, false, []);
    var s2 := System(0, Present(Some(0)), multiset{minRetry as Time}, true, []);
    assert Next(k, g, INITIAL, Create) == s1;
    LostReply(k, g, minRetry);
    EarlyRetry(k, g, minRetry);
    Prepend(k, g, s2, retry, [], minRetry);
    Prepend(k, g, s1, lost, [retry], minRetry);
    Prepend(k, g, INITIAL, Create, [lost] + [retry], minRetry);
    assert !NoTriggerLost(Advance(k, g, INITIAL, [Create] + ([lost] + [retry])));
  }

  /**
   No trigger is ever lost, in any run of either reconciler, exactly when a retry after a lost
   reply to the setting of the timestamp takes at least as long as the window.
   */
  lemma NoTriggerLostIff(k: Controller, g: nat, minRetry: nat)
    requires g > 0
    ensures (forall actions | Valid(k, g, INITIAL, actions, minRetry) ::
               NoTriggerLost(Advance(k, g, INITIAL, actions)))
            <==> minRetry >= 10_000_000_000
  {
    if minRetry < RECONCILE_SKIP_DURATION {
      EarlyRetryLosesTrigger(k, g, minRetry);
    } else {
      forall actions | Valid(k, g, INITIAL, actions, minRetry)
        ensures NoTriggerLost(Advance(k, g, INITIAL, actions))
      {
        Invariants(k, g, INITIAL, actions, minRetry);
      }
    }
  }

  ghost predicate NoReplyLost(actions: seq<Action>) {
    forall i | 0 <= i < |actions| :: actions[i].Deliver? ==> !actions[i].call.update.ReplyLost?
  }

  lemma {:induction false} ValidForAnyRetry(
    k: Controller, g: nat, s: System, actions: seq<Action>, minRetry: nat, other: nat)
    requires g > 0 && Valid(k, g, s, actions, minRetry) && NoReplyLost(actions)
    ensures Valid(k, g, s, actions, other)
    decreases actions
  {
    if actions == [] {
    } else {
      ValidForAnyRetry(k, g, Next(k, g, s, actions[0]), actions[1..], minRetry, other);
    }
  }

  /** A run in which replies do not get lost loses no trigger, however soon failures are retried. */
  lemma WithoutLostReplies(k: Controller, g: nat, actions: seq<Action>)
    requires g > 0 && Valid(k, g, INITIAL, actions, 0) && NoReplyLost(actions)
    ensures NoTriggerLost(Advance(k, g, INITIAL, actions))
  {
    ValidForAnyRetry(k, g, INITIAL, actions, 0, RECONCILE_SKIP_DURATION);
    Invariants(k, g, INITIAL, actions, RECONCILE_SKIP_DURATION);
  }

  ghost predicate IsQuiet(a: Action) {
    a.Deliver? && a.call == Smooth(a.call.now).(end := a.call.end)
  }

  /** An upper bound on the deliveries left once the faults have stopped. */
  function DeliveriesLeft(s: System): nat {
    2 * |s.pending| + if s.resource == Present(None) then 1 else 0
  }

  lemma QuietStep(k: Controller, g: nat, s: System, a: Action)
    requires g > 0 && Enabled(s, a, 0) && IsQuiet(a)
    ensures DeliveriesLeft(Next(k, g, s, a)) < DeliveriesLeft(s)
  {
    var e := Reconcile(k, g, s.resource, a.call);
    assert |s.pending - multiset{a.due}| == |s.pending| - 1;
    assert |Requeued(e.answer, a.call.end, a.backoff)| == if e.answer.Done? then 0 else 1;
  }

  /** Once the faults stop, deliveries run out, and then nothing is owed and no timestamp is left behind. */
  lemma {:induction false} QuietRunsSettle(k: Controller, g: nat, s: System, actions: seq<Action>)
    requires g > 0 && Valid(k, g, s, actions, 0) && TimeInv(s, g) && NoTriggerLost(s)
    requires forall i | 0 <= i < |actions| :: IsQuiet(actions[i])
    ensures |actions| <= DeliveriesLeft(s)
    ensures var s' := Advance(k, g, s, actions);
            s'.pending == multiset{} && s'.resource.Present? ==> !s'.owed && s'.resource.lastReconcile.None?
    decreases actions
  {
    if actions == [] {
    } else {
      NextKeepsTime(k, g, s, actions[0], 0);
      NextKeepsTriggers(k, g, s, actions[0], RECONCILE_SKIP_DURATION);
      QuietStep(k, g, s, actions[0]);
      QuietRunsSettle(k, g, Next(k, g, s, actions[0]), actions[1..]);
    }
  }

  // ---------------------------------------------------------------- what one delivery does

  /** A delivery that finds the timestamp and is past its window, read off the clock. */
  ghost predicate PastWindow(s: System, c: Call) {
    && !c.getFails && s.resource.Present? && s.resource.lastReconcile.Some?
    && (c.now < s.resource.lastReconcile.value || s.resource.lastReconcile.value + 10_000_000_000 <= c.now)
  }

  /**
   A delivery gets past the clearing of the timestamp exactly when the window is over, the
   update is confirmed and, for the with-ops secret, the deployment is found first; it settles
   what is owed exactly when all that follows goes well, too.
   */
  lemma RunsIff(k: Controller, g: nat, s: System, a: Action)
    requires g > 0 && a.Deliver? && Enabled(s, a, 0)
    ensures var s', c := Next(k, g, s, a), a.call;
            var clears := PastWindow(s, c) && c.update.Stored? && (k.WithOps? ==> c.deploymentFound);
            && (if clears then s'.runs == s.runs + [Span(c.now, c.end)] && s'.resource == Present(None)
                else s'.runs == s.runs)
            && (s.resource.Present? ==>
                  (!s'.owed <==> clears && c.stagesOk && (k.WithOps? ==> c.interpolation == Interpolated)))
  {
  }

  /** Every run that is on record belongs to a delivery that was confirmed and found its deployment. */
  ghost predicate RunBy(k: Controller, a: Action, r: Span) {
    && a.Deliver? && a.call.now == r.start && a.call.end == r.end
    && !a.call.getFails && a.call.update.Stored? && (k.WithOps? ==> a.call.deploymentFound)
  }

  lemma {:induction false} RunsAreAccountedFor(k: Controller, g: nat, s: System, actions: seq<Action>, r: Span)
    requires g > 0 && Valid(k, g, s, actions, 0) && r in Advance(k, g, s, actions).runs
    ensures r in s.runs || exists i | 0 <= i < |actions| :: RunBy(k, actions[i], r)
    decreases actions
  {
    if actions == [] {
    } else {
      var a, s' := actions[0], Next(k, g, s, actions[0]);
      RunsAreAccountedFor(k, g, s', actions[1..], r);
      if r in s'.runs {
        if a.Deliver? {
          RunsIff(k, g, s, a);
          assert r !in s.runs ==> RunBy(k, actions[0], r);
        }
      } else {
        var i :| 0 <= i < |actions[1..]| && RunBy(k, actions[1..][i], r);
        assert RunBy(k, actions[i + 1], r);
      }
    }
  }

  lemma MissingDeploymentKeeps(g: nat, s: System, a: Action)
    requires g > 0 && a.Deliver? && Enabled(s, a, 0) && !a.call.deploymentFound
    requires s.resource.Present? && s.resource.lastReconcile.Some?
    ensures var s' := Next(WithOps, g, s, a); s'.runs == s.runs && s'.resource == s.resource
  {
  }

  /**
   In every reachable state: a with-ops delivery whose deployment is not found leaves a stored
   timestamp as it was, adds no run, and there is another delivery to come.
   */
  lemma MissingDeploymentIsRetried(g: nat, actions: seq<Action>, a: Action, minRetry: nat)
    requires g > 0 && Valid(WithOps, g, INITIAL, actions, minRetry) && minRetry >= 10_000_000_000
    requires var s := Advance(WithOps, g, INITIAL, actions);
             && a.Deliver? && Enabled(s, a, minRetry) && !a.call.deploymentFound
             && s.resource.Present? && s.resource.lastReconcile.Some?
    ensures var s := Advance(WithOps, g, INITIAL, actions);
            var s' := Next(WithOps, g, s, a);
            s'.runs == s.runs && s'.pending != multiset{} && s'.resource == s.resource
  {
    var s := Advance(WithOps, g, INITIAL, actions);
    Invariants(WithOps, g, INITIAL, actions, minRetry);
    MissingDeploymentKeeps(g, s, a);
    DeliverKeepsTriggers(WithOps, g, s, a, minRetry);
  }

  /** A delivery without a timestamp sets one, and comes back ten seconds after its end, or when it is retried. */
  lemma OpeningComesBack(k: Controller, g: nat, s: System, a: Action)
    requires g > 0 && a.Deliver? && Enabled(s, a, 0) && s.resource == Present(None) && !a.call.getFails
    ensures var s', c, left := Next(k, g, s, a), a.call, s.pending - multiset{a.due};
            && s'.pending == left + multiset{c.end + if c.update.Stored? then 10_000_000_000 else a.backoff}
            && s'.resource.Present? && (s'.resource.lastReconcile.None? <==> c.update.Rejected?)
            && (s'.resource.lastReconcile.Some? ==>
                  s'.resource.lastReconcile.value <= c.now < s'.resource.lastReconcile.value + g)
  {
  }

  lemma RunAnswer(k: Controller, g: nat, o: Resource, c: Call)
    requires g > 0 && Reconcile(k, g, o, c).ran
    ensures var e := Reconcile(k, g, o, c);
            if k.WithOps? && c.interpolation == NotGenerated
            then e.answer == RequeueAfter(5_000_000_000) && !e.succeeded
            else e.answer == if e.succeeded then Done else Error
  {
  }

  /** The deliveries to come: those that were left, and perhaps one at the given time. */
  ghost predicate Leaves(s: System, a: Action, s': System, again: Option<Time>)
    requires a.Deliver?
  {
    s'.pending == s.pending - multiset{a.due} + if again.Some? then multiset{again.value} else multiset{}
  }

  /** A run comes back after five seconds if a variable is not generated yet, when it is retried, or not at all. */
  lemma RunComesBack(k: Controller, g: nat, s: System, a: Action)
    requires g > 0 && a.Deliver? && Enabled(s, a, 0) && |Next(k, g, s, a).runs| > |s.runs|
    ensures var s', c := Next(k, g, s, a), a.call;
            if k.WithOps? && c.interpolation == NotGenerated
            then s'.owed && Leaves(s, a, s', Some(c.end + 5_000_000_000))
            else Leaves(s, a, s', if s'.owed then Some(c.end + a.backoff) else None)
  {
    RunAnswer(k, g, s.resource, a.call);
  }

  /** A delivery that is past the window but does not run is retried. */
  lemma FailedClearingComesBack(k: Controller, g: nat, s: System, a: Action)
    requires g > 0 && a.Deliver? && Enabled(s, a, 0) && PastWindow(s, a.call)
    requires |Next(k, g, s, a).runs| == |s.runs|
    ensures Leaves(s, a, Next(k, g, s, a), Some(a.call.end + a.backoff))
  {
    assert Reconcile(k, g, s.resource, a.call).answer == Error;
  }

  /** A delivery that cannot read the resource leaves it and is retried; one that finds it gone ends there. */
  lemma UnreadComesBack(k: Controller, g: nat, s: System, a: Action)
    requires g > 0 && a.Deliver? && Enabled(s, a, 0) && (a.call.getFails || s.resource.Absent?)
    ensures var s', c := Next(k, g, s, a), a.call;
            && s'.resource == s.resource && s'.runs == s.runs
            && Leaves(s, a, s', if !c.getFails then None
                                else if k.WithOps? && c.eventSwallowsError then Some(c.end + 5_000_000_000)
                                else Some(c.end + a.backoff))
  {
  }

  // ---------------------------------------------------------------- rate

  function Again(t: Time, g: nat): Time
    requires g > 0
  {
    if Truncated(t, g) + RECONCILE_SKIP_DURATION <= t then t else Truncated(t, g) + RECONCILE_SKIP_DURATION
  }

  lemma FirstRun(k: Controller, g: nat, t: Time, rest: seq<Action>, minRetry: nat) returns (actions: seq<Action>)
    requires g > 0 && t >= RECONCILE_SKIP_DURATION
    ensures var s := System(t, Present(None), multiset{}, false, [Span(t, t)]);
            && Valid(k, g, INITIAL, actions, minRetry) == Valid(k, g, s, rest, minRetry)
            && Advance(k, g, INITIAL, actions) == Advance(k, g, s, rest)
  {
    var open, run := Deliver(0, Smooth(0), 0), Deliver(RECONCILE_SKIP_DURATION, Smooth(t), 0);
    var s1 := Next(k, g, INITIAL, Create);
    var s2 := Next(k, g, s1, open);
    assert s2.pending == multiset{RECONCILE_SKIP_DURATION as Time};
    assert Next(k, g, s2, run) == System(t, Present(None), multiset{}, false, [Span(t, t)]);
    Prepend(k, g, s2, run, rest, minRetry);
    Prepend(k, g, s1, open, [run] + rest, minRetry);
    Prepend(k, g, INITIAL, Create, [open] + ([run] + rest), minRetry);
    actions := [Create] + ([open] + ([run] + rest));
  }

  lemma OpenWindow(k: Controller, g: nat, t: Time, rest: seq<Action>, minRetry: nat) returns (actions: seq<Action>)
    requires g > 0
    ensures var s := System(t, Present(None), multiset{}, false, [Span(t, t)]);
            var s' := System(t, Present(Some(Truncated(t, g))), multiset{t, t + RECONCILE_SKIP_DURATION},
                             true, [Span(t, t)]);
            && Valid(k, g, s, actions, minRetry) == Valid(k, g, s', rest, minRetry)
            && Advance(k, g, s, actions) == Advance(k, g, s', rest)
  {
    var open := Deliver(t, Smooth(t), 0);
    var s := System(t, Present(None), multiset{}, false, [Span(t, t)]);
    var s1 := Next(k, g, s, Trigger(t));
    var s2 := Next(k, g, s1, Trigger(t));
    var s3 := Next(k, g, s2, open);
    assert s3.pending == multiset{t, t + RECONCILE_SKIP_DURATION};
    Prepend(k, g, s2, open, rest, minRetry);
    Prepend(k, g, s1, Trigger(t), [open] + rest, minRetry);
    Prepend(k, g, s, Trigger(t), [Trigger(t)] + ([open] + rest), minRetry);
    actions := [Trigger(t)] + ([Trigger(t)] + ([open] + rest));
  }

  lemma SecondRun(k: Controller, g: nat, t: Time, minRetry: nat) returns (actions: seq<Action>)
    requires g > 0
    ensures var s' := System(t, Present(Some(Truncated(t, g))), multiset{t, t + RECONCILE_SKIP_DURATION},
                             true, [Span(t, t)]);
            && Valid(k, g, s', actions, minRetry)
            && Advance(k, g, s', actions).runs == [Span(t, t), Span(Again(t, g), Again(t, g))]
  {
    var run := Deliver(t, Smooth(Again(t, g)), 0);
    var s' := System(t, Present(Some(Truncated(t, g))), multiset{t, t + RECONCILE_SKIP_DURATION}, true, [Span(t, t)]);
    Prepend(k, g, s', run, [], minRetry);
    actions := [run];
  }

  /** Two runs as close together as a start of the window at time `t` allows. */
  lemma FastRerun(k: Controller, g: nat, t: Time, minRetry: nat) returns (actions: seq<Action>)
    requires g > 0 && t >= RECONCILE_SKIP_DURATION
    ensures Valid(k, g, INITIAL, actions, minRetry)
    ensures Advance(k, g, INITIAL, actions).runs == [Span(t, t), Span(Again(t, g), Again(t, g))]
  {
    var rest := SecondRun(k, g, t, minRetry);
    rest := OpenWindow(k, g, t, rest, minRetry);
    actions := FirstRun(k, g, t, rest, minRetry);
  }

  /**
   Over every run, whatever the triggers, retries and API failures, more than nine seconds
   pass between two consecutive runs: timestamps are stored in whole seconds.
   */
  lemma RunsAreSpaced(k: Controller, actions: seq<Action>)
    requires Valid(k, SECOND, INITIAL, actions, 0)
    ensures Spaced(Advance(k, SECOND, INITIAL, actions).runs, 9_000_000_001)
  {
    Invariants(k, SECOND, INITIAL, actions, 0);
  }

  /** Nothing better holds for timestamps in whole seconds. */
  lemma SpacingIsTight(k: Controller, minRetry: nat)
    ensures exists actions :: Valid(k, SECOND, INITIAL, actions, minRetry) &&
              !Spaced(Advance(k, SECOND, INITIAL, actions).runs, 9_000_000_002)
  {
    var actions := FastRerun(k, SECOND, RECONCILE_SKIP_DURATION + SECOND - 1, minRetry);
    LastTickOfSecond(10);
    var runs := Advance(k, SECOND, INITIAL, actions).runs;
    assert runs[0].end + RECONCILE_SKIP_DURATION - SECOND + 2 > runs[1].start;
  }

  /** The full ten seconds between runs are kept exactly when timestamps are not truncated. */
  lemma FullSpacingIff(k: Controller, g: nat, minRetry: nat)
    requires g > 0
    ensures (forall actions | Valid(k, g, INITIAL, actions, minRetry) ::
               Spaced(Advance(k, g, INITIAL, actions).runs, 10_000_000_000)) <==> g == 1
  {
    if g == 1 {
      forall actions | Valid(k, g, INITIAL, actions, minRetry)
        ensures Spaced(Advance(k, g, INITIAL, actions).runs, RECONCILE_SKIP_DURATION)
      {
        Invariants(k, g, INITIAL, actions, minRetry);
      }
    } else {
      var d := RECONCILE_SKIP_DURATION;
      var t := if Truncated(d, g) < d then d else d + 1;
      NotBoth(d, g);
      var actions := FastRerun(k, g, t, minRetry);
      var runs := Advance(k, g, INITIAL, actions).runs;
      assert runs[0].end + d > runs[1].start;
    }
  }

  /** Of two consecutive times, truncation changes at least one. */
  lemma {:induction false} NotBoth(t: Time, g: nat)
    requires g > 1
    ensures Truncated(t, g) < t || Truncated(t + 1, g) < t + 1
  {
    if t < g {
    } else {
      NotBoth(t - g, g);
    }
  }

  lemma {:induction false} LastTickOfSecond(n: nat)
    ensures Truncated((n + 1) * SECOND - 1, SECOND) == n * SECOND
  {
    if n == 0 {
    } else {
      LastTickOfSecond(n - 1);
    }
  }
}
