/**
 The PreStop handlers of one pod, run as interleaved shell scripts over the shared
 directory `/mnt/drain-stamps`.

 A pod holds one handler per container.  The first container of every job that has
 processes drains the job, leaves a stamp file named after the job, and then waits, like
 every other handler, until `ls` lists as many stamps as there are such jobs.
 */
module DrainBarrier {

  /** The handler the generator put on a container. */
  datatype PreStop =
    | NoHandler
    | DrainScript(job: string, count: nat)
    | DrainWait(count: nat)

  /** One run of a drain script: a non-zero exit status, or what it wrote to its standard output. */
  datatype Outcome = Failed(status: int) | Wrote(number: int) | WroteNoNumber

  /** What the containers' file systems and drain scripts do; the model quantifies over it. */
  datatype World = World(executable: string -> bool, drain: (string, nat) -> Outcome)

  /** `Stamping` and later phases carry the exit code the handler will report. */
  datatype Phase = Idle | Start | Draining | Stamping(code: int) | Waiting(code: int) | Exited(code: int)

  datatype State = State(phases: seq<Phase>, runs: seq<nat>, stamps: set<string>)

  /** A run of the script asks for another one exactly when it printed a negative number. */
  predicate Terminal(o: Outcome) {
    !(o.Wrote? && o.number < 0)
  }

  function ExitCode(o: Outcome): int {
    if o.Failed? then o.status else 0
  }

  /** `ls` without `-a` does not list names that start with a dot. */
  predicate Visible(name: string) {
    name != "" && name[0] != '.'
  }

  function Listed(stamps: set<string>): set<string> {
    set name | name in stamps && Visible(name)
  }

  function Initial(hs: seq<PreStop>): State {
    State(seq(|hs|, i requires 0 <= i < |hs| =>
        match hs[i]
        case NoHandler => Idle
        case DrainScript(_, _) => Start
        case DrainWait(_) => Waiting(0)),
      seq(|hs|, _ => 0), {})
  }

  ghost predicate WellFormed(hs: seq<PreStop>, s: State) {
    |s.phases| == |s.runs| == |hs|
  }

  /** One step of handler `i`; a handler that has to keep waiting leaves the state as it is. */
  function Step(w: World, hs: seq<PreStop>, s: State, i: nat): (s': State)
    requires WellFormed(hs, s)
    ensures WellFormed(hs, s')
  {
    if i >= |hs| || hs[i].NoHandler? then s
    else
      match s.phases[i]
      case Idle => s
      case Exited(_) => s
      case Waiting(code) =>
        if |Listed(s.stamps)| < hs[i].count then s else s.(phases := s.phases[i := Exited(code)])
      case Start =>
        if hs[i].DrainWait? then s
        else if w.executable(hs[i].job) then s.(phases := s.phases[i := Draining])
        else s.(phases := s.phases[i := Stamping(0)])
      case Draining =>
        if hs[i].DrainWait? then s
        else
          var o := w.drain(hs[i].job, s.runs[i]);
          s.(runs := s.runs[i := s.runs[i] + 1],
             phases := s.phases[i := if Terminal(o) then Stamping(ExitCode(o)) else Draining])
      case Stamping(code) =>
        if hs[i].DrainWait? then s
        else s.(phases := s.phases[i := Waiting(code)], stamps := s.stamps + {hs[i].job})
  }

  /** The state after `t` steps; `schedule(k)` is the handler that moves at step `k`. */
  function At(w: World, hs: seq<PreStop>, schedule: nat -> nat, t: nat): (s: State)
    ensures WellFormed(hs, s)
  {
    if t == 0 then Initial(hs) else Step(w, hs, At(w, hs, schedule, t - 1), schedule(t - 1))
  }

  function Scripts(hs: seq<PreStop>): set<nat> {
    set i: nat | i < |hs| && hs[i].DrainScript?
  }

  /** What the generator guarantees: every handler waits for as many stamps as there are stamp writers. */
  ghost predicate Barrier(hs: seq<PreStop>) {
    forall i | 0 <= i < |hs| && !hs[i].NoHandler? :: hs[i].count == |Scripts(hs)|
  }

  predicate Stamped(p: Phase) {
    p.Waiting? || p.Exited?
  }

  /** The script has printed a negative number. */
  ghost predicate AskedAgain(o: Outcome) {
    match o
    case Failed(_) => false
    case Wrote(number) => number < 0
    case WroteNoNumber => false
  }

  /**
   The drain of `job` is over after `runs` runs, with exit code `code`: there is no executable
   script, or every run but the last one printed a negative number, and the last one failed
   with that status, or succeeded and printed something else.
   */
  ghost predicate Ended(w: World, job: string, runs: nat, code: int) {
    if !w.executable(job) then runs == 0 && code == 0
    else
      && runs > 0
      && (forall k | 0 <= k < runs - 1 :: AskedAgain(w.drain(job, k)))
      && match w.drain(job, runs - 1)
         case Failed(status) => code == status
         case Wrote(number) => number >= 0 && code == 0
         case WroteNoNumber => code == 0
  }

  ghost predicate ScriptInv(w: World, job: string, p: Phase, runs: nat) {
    match p
    case Idle => false
    case Start => runs == 0
    case Draining => w.executable(job) && forall k | 0 <= k < runs :: AskedAgain(w.drain(job, k))
    case Stamping(code) => Ended(w, job, runs, code)
    case Waiting(code) => Ended(w, job, runs, code)
    case Exited(code) => Ended(w, job, runs, code)
  }

  ghost predicate HandlerInv(w: World, h: PreStop, p: Phase, runs: nat) {
    match h
    case NoHandler => p.Idle?
    case DrainWait(_) => p == Waiting(0) || p == Exited(0)
    case DrainScript(job, _) => ScriptInv(w, job, p, runs)
  }

  function StampedScripts(hs: seq<PreStop>, s: State): set<nat>
    requires WellFormed(hs, s)
  {
    set i | i in Scripts(hs) && Stamped(s.phases[i])
  }

  function Jobs(hs: seq<PreStop>, indices: set<nat>): set<string>
    requires indices <= Scripts(hs)
  {
    set i | i in indices :: hs[i].job
  }

  ghost predicate Inv(w: World, hs: seq<PreStop>, s: State) {
    && WellFormed(hs, s)
    && (forall i | 0 <= i < |hs| :: HandlerInv(w, hs[i], s.phases[i], s.runs[i]))
    && s.stamps == Jobs(hs, StampedScripts(hs, s))
    && (forall i | 0 <= i < |hs| && s.phases[i].Exited? :: hs[i].count <= |Listed(s.stamps)|)
  }

  lemma SubsetSize<T>(a: set<T>, b: set<T>)
    requires a <= b
    ensures |a| <= |b|
    ensures |a| == |b| ==> a == b
  {
    if a != {} {
      var x :| x in a;
      SubsetSize(a - {x}, b - {x});
    }
  }

  lemma StampsGrow(w: World, hs: seq<PreStop>, s: State, i: nat)
    requires Inv(w, hs, s)
    ensures var s' := Step(w, hs, s, i);
            s'.stamps == Jobs(hs, StampedScripts(hs, s')) && Listed(s.stamps) <= Listed(s'.stamps)
  {
    var s' := Step(w, hs, s, i);
    if i < |hs| && s.phases[i].Stamping? && hs[i].DrainScript? {
      assert StampedScripts(hs, s') == StampedScripts(hs, s) + {i};
    } else {
      assert StampedScripts(hs, s') == StampedScripts(hs, s);
    }
  }

  lemma StepKeepsInv(w: World, hs: seq<PreStop>, s: State, i: nat)
    requires Inv(w, hs, s)
    ensures Inv(w, hs, Step(w, hs, s, i))
  {
    var s' := Step(w, hs, s, i);
    StampsGrow(w, hs, s, i);
    SubsetSize(Listed(s.stamps), Listed(s'.stamps));
    forall j | 0 <= j < |hs|
      ensures HandlerInv(w, hs[j], s'.phases[j], s'.runs[j])
      ensures s'.phases[j].Exited? ==> hs[j].count <= |Listed(s'.stamps)|
    {
      assert HandlerInv(w, hs[j], s.phases[j], s.runs[j]);
    }
  }

  lemma {:induction false} InvAlways(w: World, hs: seq<PreStop>, schedule: nat -> nat, t: nat)
    ensures Inv(w, hs, At(w, hs, schedule, t))
  {
    if t == 0 {
      assert StampedScripts(hs, Initial(hs)) == {};
    } else {
      InvAlways(w, hs, schedule, t - 1);
      StepKeepsInv(w, hs, At(w, hs, schedule, t - 1), schedule(t - 1));
    }
  }

  lemma {:induction false} ImageSize(hs: seq<PreStop>, indices: set<nat>)
    requires indices <= Scripts(hs)
    ensures |Jobs(hs, indices)| <= |indices|
  {
    if indices == {} {
    } else {
      var i :| i in indices;
      var rest := indices - {i};
      ImageSize(hs, rest);
      assert Jobs(hs, indices) == Jobs(hs, rest) + {hs[i].job};
    }
  }

  /** The cardinality argument: enough stamps in the directory means that every writer has stamped. */
  lemma FullDirectory(w: World, hs: seq<PreStop>, s: State)
    requires Inv(w, hs, s)
    requires |Scripts(hs)| <= |Listed(s.stamps)|
    ensures StampedScripts(hs, s) == Scripts(hs)
  {
    SubsetSize(Listed(s.stamps), s.stamps);
    ImageSize(hs, StampedScripts(hs, s));
    SubsetSize(StampedScripts(hs, s), Scripts(hs));
  }

  /**
   Drain safety over every interleaving: once any handler has exited, every run but the last
   of every job's drain script printed a negative number, the last one did not, and the
   script's handler reports its status.  No assumption on the job names is needed.
   */
  lemma NoExitBeforeDrainsEnd(w: World, hs: seq<PreStop>, schedule: nat -> nat, t: nat, i: nat, j: nat)
    requires Barrier(hs)
    requires i < |hs| && At(w, hs, schedule, t).phases[i].Exited?
    requires j < |hs| && hs[j].DrainScript?
    ensures var s := At(w, hs, schedule, t);
            var job, runs := hs[j].job, s.runs[j];
            && (s.phases[j].Waiting? || s.phases[j].Exited?)
            && (!w.executable(job) ==> runs == 0 && s.phases[j].code == 0)
            && (w.executable(job) ==>
                  && runs > 0
                  && (forall k | 0 <= k < runs - 1 :: w.drain(job, k).Wrote? && w.drain(job, k).number < 0)
                  && match w.drain(job, runs - 1)
                     case Failed(status) => s.phases[j].code == status
                     case Wrote(number) => number >= 0 && s.phases[j].code == 0
                     case WroteNoNumber => s.phases[j].code == 0)
  {
    var s := At(w, hs, schedule, t);
    InvAlways(w, hs, schedule, t);
    assert HandlerInv(w, hs[i], s.phases[i], s.runs[i]);
    FullDirectory(w, hs, s);
    assert j in StampedScripts(hs, s);
    assert HandlerInv(w, hs[j], s.phases[j], s.runs[j]);
  }

  // ---------------------------------------------------------------- completion

  /** All stamp files have different names, and `ls` lists each of them. */
  ghost predicate DistinctStamps(hs: seq<PreStop>) {
    && (forall i | i in Scripts(hs) :: Visible(hs[i].job))
    && (forall i, j | i in Scripts(hs) && j in Scripts(hs) && i != j :: hs[i].job != hs[j].job)
  }

  ghost predicate AllExited(hs: seq<PreStop>, s: State)
    requires WellFormed(hs, s)
  {
    forall i | 0 <= i < |hs| && !hs[i].NoHandler? :: s.phases[i].Exited?
  }

  ghost predicate ExitedBy(w: World, hs: seq<PreStop>, schedule: nat -> nat, t: nat) {
    AllExited(hs, At(w, hs, schedule, t))
  }

  /** Every script stops asking for another run at some point. */
  ghost predicate FiniteDrains(w: World, hs: seq<PreStop>) {
    forall i | i in Scripts(hs) && w.executable(hs[i].job) :: exists k: nat :: !AskedAgain(w.drain(hs[i].job, k))
  }

  ghost predicate Fair(schedule: nat -> nat, n: nat) {
    forall i: nat, t: nat | i < n :: Scheduled(schedule, i, t)
  }

  ghost predicate Scheduled(schedule: nat -> nat, i: nat, from: nat) {
    exists t: nat :: from <= t && schedule(t) == i
  }

  /** The number of runs that ask for another one. */
  ghost function FinalRun(w: World, job: string, from: nat, bound: nat): (k: nat)
    requires from <= bound && !AskedAgain(w.drain(job, bound))
    ensures from <= k <= bound && !AskedAgain(w.drain(job, k))
    ensures forall j | from <= j < k :: AskedAgain(w.drain(job, j))
    decreases bound - from
  {
    if !AskedAgain(w.drain(job, from)) then from else FinalRun(w, job, from + 1, bound)
  }

  ghost function Rounds(w: World, job: string): (k: nat)
    ensures (exists b: nat :: !AskedAgain(w.drain(job, b))) ==>
              !AskedAgain(w.drain(job, k)) && forall j | 0 <= j < k :: AskedAgain(w.drain(job, j))
  {
    if exists b: nat :: !AskedAgain(w.drain(job, b)) then
      var b: nat :| !AskedAgain(w.drain(job, b));
      FinalRun(w, job, 0, b)
    else 0
  }

  /** Steps left for one handler: the remaining drain rounds, the stamp, the exit. */
  ghost function Left(w: World, h: PreStop, p: Phase, runs: nat): nat {
    match p
    case Idle => 0
    case Start => if h.DrainScript? then Rounds(w, h.job) + 4 else 0
    case Draining => if h.DrainScript? && runs <= Rounds(w, h.job) then Rounds(w, h.job) - runs + 3 else 0
    case Stamping(_) => 2
    case Waiting(_) => 1
    case Exited(_) => 0
  }

  ghost function Measure(w: World, hs: seq<PreStop>, s: State, n: nat): nat
    requires WellFormed(hs, s) && n <= |hs|
  {
    if n == 0 then 0 else Measure(w, hs, s, n - 1) + Left(w, hs[n - 1], s.phases[n - 1], s.runs[n - 1])
  }

  lemma MeasureChange(w: World, hs: seq<PreStop>, s: State, s': State, i: nat, n: nat)
    requires WellFormed(hs, s) && WellFormed(hs, s') && n <= |hs| && i < |hs|
    requires forall j | 0 <= j < |hs| && j != i :: s.phases[j] == s'.phases[j] && s.runs[j] == s'.runs[j]
    ensures Measure(w, hs, s', n) - Measure(w, hs, s, n) ==
            if i < n then Left(w, hs[i], s'.phases[i], s'.runs[i]) - Left(w, hs[i], s.phases[i], s.runs[i]) else 0
  {
  }

  /** A step either changes nothing or brings the pod one step closer to the end. */
  lemma StepDecreases(w: World, hs: seq<PreStop>, s: State, i: nat)
    requires Inv(w, hs, s) && FiniteDrains(w, hs)
    requires Step(w, hs, s, i) != s
    ensures Measure(w, hs, Step(w, hs, s, i), |hs|) < Measure(w, hs, s, |hs|)
  {
    var s' := Step(w, hs, s, i);
    assert HandlerInv(w, hs[i], s.phases[i], s.runs[i]);
    if hs[i].DrainScript? {
      assert i in Scripts(hs);
    }
    MeasureChange(w, hs, s, s', i, |hs|);
  }

  lemma {:induction false} DistinctImageSize(hs: seq<PreStop>, indices: set<nat>)
    requires DistinctStamps(hs) && indices <= Scripts(hs)
    ensures |Jobs(hs, indices)| == |indices|
  {
    if indices == {} {
    } else {
      var i :| i in indices;
      var rest := indices - {i};
      DistinctImageSize(hs, rest);
      assert Jobs(hs, indices) == Jobs(hs, rest) + {hs[i].job};
      assert hs[i].job !in Jobs(hs, rest);
    }
  }

  /** No reachable state is stuck: while some handler is still there, some handler can move. */
  lemma SomeoneCanMove(w: World, hs: seq<PreStop>, s: State) returns (i: nat)
    requires Inv(w, hs, s) && Barrier(hs) && DistinctStamps(hs) && !AllExited(hs, s)
    ensures i < |hs| && Step(w, hs, s, i) != s
  {
    i :| i < |hs| && !hs[i].NoHandler? && !s.phases[i].Exited?;
    assert HandlerInv(w, hs[i], s.phases[i], s.runs[i]);
    if StampedScripts(hs, s) == Scripts(hs) {
      assert Listed(s.stamps) == s.stamps;
      DistinctImageSize(hs, Scripts(hs));
      if hs[i].DrainScript? {
        assert i in StampedScripts(hs, s);
      }
    } else {
      var j: nat :| j in Scripts(hs) && j !in StampedScripts(hs, s);
      assert HandlerInv(w, hs[j], s.phases[j], s.runs[j]);
      i := j;
    }
  }

  lemma OneStep(w: World, hs: seq<PreStop>, schedule: nat -> nat, t: nat)
    requires FiniteDrains(w, hs) && At(w, hs, schedule, t + 1) != At(w, hs, schedule, t)
    ensures Measure(w, hs, At(w, hs, schedule, t + 1), |hs|) < Measure(w, hs, At(w, hs, schedule, t), |hs|)
  {
    InvAlways(w, hs, schedule, t);
    StepDecreases(w, hs, At(w, hs, schedule, t), schedule(t));
  }

  /** If handler `schedule(u)` can move now, the measure has dropped by the time it has been scheduled. */
  lemma {:induction false} MovesBy(w: World, hs: seq<PreStop>, schedule: nat -> nat, t: nat, u: nat) returns (t': nat)
    requires FiniteDrains(w, hs) && t <= u
    requires Step(w, hs, At(w, hs, schedule, t), schedule(u)) != At(w, hs, schedule, t)
    ensures Measure(w, hs, At(w, hs, schedule, t'), |hs|) < Measure(w, hs, At(w, hs, schedule, t), |hs|)
    decreases u - t
  {
    if At(w, hs, schedule, t + 1) == At(w, hs, schedule, t) {
      t' := MovesBy(w, hs, schedule, t + 1, u);
    } else {
      OneStep(w, hs, schedule, t);
      t' := t + 1;
    }
  }

  /** A fair schedule reaches, from any time, a later state with a smaller measure. */
  lemma EventuallyDecreases(w: World, hs: seq<PreStop>, schedule: nat -> nat, t: nat) returns (t': nat)
    requires Barrier(hs) && DistinctStamps(hs) && FiniteDrains(w, hs) && Fair(schedule, |hs|)
    requires !AllExited(hs, At(w, hs, schedule, t))
    ensures Measure(w, hs, At(w, hs, schedule, t'), |hs|) < Measure(w, hs, At(w, hs, schedule, t), |hs|)
  {
    InvAlways(w, hs, schedule, t);
    var i := SomeoneCanMove(w, hs, At(w, hs, schedule, t));
    assert Scheduled(schedule, i, t);
    var u: nat :| t <= u && schedule(u) == i;
    t' := MovesBy(w, hs, schedule, t, u);
  }

  lemma {:induction false} ExitsFrom(w: World, hs: seq<PreStop>, schedule: nat -> nat, t: nat) returns (end: nat)
    requires Barrier(hs) && DistinctStamps(hs) && FiniteDrains(w, hs) && Fair(schedule, |hs|)
    ensures AllExited(hs, At(w, hs, schedule, end))
    decreases Measure(w, hs, At(w, hs, schedule, t), |hs|)
  {
    if AllExited(hs, At(w, hs, schedule, t)) {
      end := t;
    } else {
      var t' := EventuallyDecreases(w, hs, schedule, t);
      end := ExitsFrom(w, hs, schedule, t');
    }
  }

  /** With a repeated or hidden stamp name the directory never lists enough stamps. */
  lemma TooFewStamps(hs: seq<PreStop>, indices: set<nat>)
    requires indices <= Scripts(hs) && !DistinctStamps(hs)
    ensures |Listed(Jobs(hs, indices))| < |Scripts(hs)|
  {
    var all := Jobs(hs, Scripts(hs));
    SubsetSize(Listed(Jobs(hs, indices)), Listed(all));
    if i :| i in Scripts(hs) && !Visible(hs[i].job) {
      ImageSize(hs, Scripts(hs));
      assert hs[i].job in all && hs[i].job !in Listed(all);
      assert Listed(all) <= all - {hs[i].job};
      SubsetSize(Listed(all), all - {hs[i].job});
    } else {
      var i: nat, j: nat :| i in Scripts(hs) && j in Scripts(hs) && i != j && hs[i].job == hs[j].job;
      ImageSize(hs, Scripts(hs) - {i});
      assert all <= Jobs(hs, Scripts(hs) - {i}) by {
        forall name | name in all ensures name in Jobs(hs, Scripts(hs) - {i}) {
          var k :| k in Scripts(hs) && hs[k].job == name;
          assert (if k == i then j else k) in Scripts(hs) - {i};
        }
      }
      SubsetSize(all, Jobs(hs, Scripts(hs) - {i}));
      SubsetSize(Listed(all), all);
    }
  }

  lemma NobodyExits(w: World, hs: seq<PreStop>, schedule: nat -> nat, t: nat, i: nat)
    requires Barrier(hs) && !DistinctStamps(hs) && i < |hs|
    ensures !At(w, hs, schedule, t).phases[i].Exited?
  {
    var s := At(w, hs, schedule, t);
    InvAlways(w, hs, schedule, t);
    assert HandlerInv(w, hs[i], s.phases[i], s.runs[i]);
    TooFewStamps(hs, StampedScripts(hs, s));
  }

  /** Handlers that have all exited show that every drain came to an end. */
  lemma ExitedDrainsAreFinite(w: World, hs: seq<PreStop>, schedule: nat -> nat, t: nat)
    requires Barrier(hs) && ExitedBy(w, hs, schedule, t)
    ensures FiniteDrains(w, hs)
  {
    var s := At(w, hs, schedule, t);
    forall i | i in Scripts(hs) && w.executable(hs[i].job) ensures exists k: nat :: !AskedAgain(w.drain(hs[i].job, k)) {
      NoExitBeforeDrainsEnd(w, hs, schedule, t, i, i);
      assert !AskedAgain(w.drain(hs[i].job, s.runs[i] - 1));
    }
  }

  /**
   Drain progress, with its exact condition: a fair schedule lets every handler exit if and
   only if the drain scripts re-run only finitely often, the stamp names are pairwise distinct
   and none is hidden from `ls`.
   */
  lemma CompletesIff(w: World, hs: seq<PreStop>, schedule: nat -> nat)
    requires Barrier(hs) && Fair(schedule, |hs|)
    ensures (exists t: nat :: ExitedBy(w, hs, schedule, t)) <==> DistinctStamps(hs) && FiniteDrains(w, hs)
  {
    if DistinctStamps(hs) && FiniteDrains(w, hs) {
      var end := ExitsFrom(w, hs, schedule, 0);
      assert ExitedBy(w, hs, schedule, end);
    }
    if t: nat :| ExitedBy(w, hs, schedule, t) {
      ExitedDrainsAreFinite(w, hs, schedule, t);
      if !DistinctStamps(hs) {
        var i :| i in Scripts(hs);
        NobodyExits(w, hs, schedule, t, i);
      }
    }
  }
}
