/** What holds of every session history, however it was reached. */
module SessionSafety {
  import opened Wrappers
  import opened RepairApplier
  import opened RepairedEnvironment
  import opened EnvironmentManifest
  import opened Attempt
  import opened ProgressOracle
  import opened IterationSession
  import opened PathOrder
  import MB = ManifestBuilder

  /** An active session whose tail has run was asked for a repair, saw a new state and has budget left. */
  lemma {:induction false} ActiveTail(p: Params, steps: seq<Step>)
    requires steps != [] && AllRun(steps) && StandingOf(p, steps) == (SessionActive, None)
    ensures ResultFor(Last(steps)).outcome == RepairRequired
    ensures FingerprintFor(Last(steps)) !in Fingerprints(Init(steps))
    ensures |steps| < p.budget
    ensures exists k :: 0 <= k < |PlanOf(Last(steps))| && PlanOf(Last(steps))[k].automatic
  {
    hide Observe, BuildMetrics, RunUsable;
    var prior := Fingerprints(Init(steps));
    var last := Last(steps);
    var o := ObservationFor(last.env, last.run.value);
    assert Decide(prior, o, |steps| - 1, p.budget).None?;
    NotAmong(prior, o.fingerprint);
    ObservedCandidates(last.env, last.run.value);
    assert o.metrics.automaticCandidates > 0;
    var k :| 0 <= k < |last.run.value.artifacts.plan| && last.run.value.artifacts.plan[k].automatic;
    assert PlanOf(last)[k].automatic;
  }

  /** The run timed out: it was told so, or the guest's exit code is that of the timeout. */
  predicate RanOut(run: Run) {
    run.timedOut || run.exitCode == Some(124)
  }

  predicate Signalled(run: Run) {
    exists i :: 0 <= i < |run.artifacts.guest| && run.artifacts.guest[i].Signal?
  }

  predicate OffersRepair(run: Run) {
    exists i :: 0 <= i < |run.artifacts.plan| && run.artifacts.plan[i].automatic
  }

  /** The last step was in the state of step i. */
  predicate SameAs(steps: seq<Step>, i: nat)
    requires i < |steps| && steps[i].run.Some? && Last(steps).run.Some?
  {
    FingerprintFor(steps[i]) == FingerprintFor(Last(steps))
  }

  ghost predicate SeenBefore(steps: seq<Step>)
    requires steps != [] && AllRun(steps)
  {
    exists i: nat :: i < |steps| - 1 && SameAs(steps, i)
  }

  /** When a session goes on after a run, and for which reason it stops otherwise: the first of these that holds. */
  lemma {:induction false} StopsExactly(p: Params, steps: seq<Step>)
    requires steps != [] && AllRun(steps)
    ensures var run, reason := Last(steps).run.value, StandingOf(p, steps).1;
            var went := !run.goalReached && !RanOut(run) && !Signalled(run);
            var repeats := |steps| > 1 && SameAs(steps, |steps| - 2);
            && (reason == Some(GoalStop) <==> run.goalReached)
            && (reason == Some(ExecutionTimedOut) <==> !run.goalReached && RanOut(run))
            && (reason == Some(ExecutionCrashed) <==> !run.goalReached && !RanOut(run) && Signalled(run))
            && (reason == Some(FixedPoint) <==> went && repeats)
            && (reason == Some(CycleDetected) <==> went && !repeats && SeenBefore(steps))
            && (reason == Some(NoAutomaticRepairs) <==> went && !SeenBefore(steps) && !OffersRepair(run))
            && (reason == Some(BudgetExhausted) <==>
                  went && !SeenBefore(steps) && OffersRepair(run) && |steps| >= p.budget)
            && (reason == None <==> went && !SeenBefore(steps) && OffersRepair(run) && |steps| < p.budget)
    ensures var (state, reason) := StandingOf(p, steps);
            && (state == SessionActive <==> reason == None)
            && (state == SessionFailed <==> reason in {Some(ExecutionTimedOut), Some(ExecutionCrashed)})
  {
    hide Observe, BuildMetrics, RunUsable, FingerprintFor, RanOut, Signalled, OffersRepair;
    PriorStates(steps);
    RunFacts(steps, Last(steps).run.value);
  }

  /** What a run's result records: how it came out, and for a failure the least resource a repair was offered for. */
  lemma {:induction false} ResultExactly(step: Step)
    requires step.run.Some?
    ensures var run, r := step.run.value, ResultFor(step);
            && (r.outcome == Attempt.GoalReached <==> run.goalReached)
            && (r.outcome == TimedOut <==> !run.goalReached && RanOut(run))
            && (r.outcome == Crashed <==> !run.goalReached && !RanOut(run) && Signalled(run))
            && (r.outcome == RepairRequired <==> !run.goalReached && !RanOut(run) && !Signalled(run) && OffersRepair(run))
            && (r.outcome == Exited <==> !run.goalReached && !RanOut(run) && !Signalled(run) && !OffersRepair(run))
    ensures var run, r := step.run.value, ResultFor(step);
            && r.attempt == step.contract.id && r.goalReached == run.goalReached
            && r.initialStage == r.finalStage == step.contract.initialStage && r.transitions == []
            && r.guestEvents == |run.artifacts.guest|
            && (r.failure.None? <==> r.outcome in {Attempt.GoalReached, Exited})
            && (r.failure.Some? ==>
                  && r.failure.value.outcome == r.outcome && r.failure.value.exitCode == run.exitCode
                  && r.failure.value.errorCode == Some(match r.outcome
                                                       case TimedOut => "execution_timeout"
                                                       case Crashed => "fatal_guest_signal"
                                                       case _ => "automatic_repair_candidate")
                  && LeastResource(run.artifacts.plan, r.failure.value.resource))
  {
    hide Observe, BuildMetrics, RunUsable, RanOut, Signalled, OffersRepair, LeastResource;
    var run := step.run.value;
    RunFacts([step], run);
    FirstIsLeast(run.artifacts.plan);
    EventsCounted(step.env, run);
  }

  lemma {:induction false} EventsCounted(env: Env, run: UsableRun)
    ensures ObservationFor(env, run).metrics.guestEventsTotal == |run.artifacts.guest|
  {
  }

  /** The least resource of an automatic decision, when there is one. */
  predicate LeastResource(plan: seq<Decision>, resource: Option<string>) {
    if resource.None? then forall i | 0 <= i < |plan| :: !plan[i].automatic
    else
      && (exists i :: 0 <= i < |plan| && plan[i].automatic && plan[i].resource == resource.value)
      && (forall i | 0 <= i < |plan| && plan[i].automatic :: AtMost(resource.value, plan[i].resource))
  }

  lemma {:induction false} FirstIsLeast(plan: seq<Decision>)
    ensures LeastResource(plan, FirstResource(plan))
  {
    if plan != [] {
      var n := |plan| - 1;
      var before, d := FirstResource(plan[..n]), plan[n];
      FirstIsLeast(plan[..n]);
      assert forall i | 0 <= i < n :: plan[..n][i] == plan[i];
      if before.Some? {
        var i :| 0 <= i < n && plan[..n][i].automatic && plan[..n][i].resource == before.value;
        assert plan[i].automatic && plan[i].resource == before.value;
        LessTotal(before.value, d.resource);
        forall j | 0 <= j < n && plan[j].automatic && AtMost(d.resource, before.value)
          ensures AtMost(d.resource, plan[j].resource)
        {
          AtMostTransitive(d.resource, before.value, plan[j].resource);
        }
      }
    }
  }

  lemma {:induction false} AtMostTransitive(a: string, b: string, c: string)
    requires AtMost(a, b) && AtMost(b, c)
    ensures AtMost(a, c)
  {
    if a != b && b != c {
      LessTransitive(a, b, c);
    }
  }

  lemma {:induction false} PriorStates(steps: seq<Step>)
    requires steps != [] && AllRun(steps)
    ensures var prior, f := Fingerprints(Init(steps)), FingerprintFor(Last(steps));
            && |prior| == |steps| - 1
            && (prior != [] ==> (f == prior[|prior| - 1] <==> SameAs(steps, |steps| - 2)))
            && (SeenBefore(steps) <==> prior != [] && (f == prior[|prior| - 1] || f in prior[..|prior| - 1]))
  {
    hide FingerprintFor;
    var prior, f := Fingerprints(Init(steps)), FingerprintFor(Last(steps));
    NotAmong(prior, f);
    forall i: nat | i < |steps| - 1 ensures prior[i] == f <==> SameAs(steps, i) {
    }
  }

  lemma {:induction false} RunFacts(steps: seq<Step>, run: UsableRun)
    requires steps != [] && Last(steps).run == Some(run)
    ensures var o := ObservationFor(Last(steps).env, run);
            && o.goalReached == run.goalReached && o.fingerprint == FingerprintFor(Last(steps))
            && (o.metrics.fatalSignals > 0 <==> Signalled(run)) && (o.metrics.automaticCandidates > 0 <==> OffersRepair(run))
            && OutcomeFor(o, run.exitCode, run.timedOut) ==
                 (if run.goalReached then Attempt.GoalReached else if RanOut(run) then TimedOut
                  else if Signalled(run) then Crashed else if OffersRepair(run) then RepairRequired else Exited)
  {
    CountPositive(run.artifacts.guest, (e: GuestEvent) => e.Signal?);
    ObservedCandidates(Last(steps).env, run);
  }

  lemma {:induction false} NotAmong(prior: seq<Fingerprint>, f: Fingerprint)
    ensures prior == [] || (f != prior[|prior| - 1] && f !in prior[..|prior| - 1]) ==> f !in prior
  {
    if prior != [] {
      assert prior == prior[..|prior| - 1] + [prior[|prior| - 1]];
    }
  }

  lemma {:induction false} ObservedCandidates(env: Env, run: UsableRun)
    ensures ObservationFor(env, run).metrics.automaticCandidates > 0 <==>
              exists k :: 0 <= k < |run.artifacts.plan| && run.artifacts.plan[k].automatic
  {
    CandidatesAreSelected(run.artifacts);
  }

  /** Up to a completed step every step is completed. */
  lemma {:induction false} RunsUpTo(p: Params, steps: seq<Step>, j: nat)
    requires Good(p, steps) && j < |steps| && steps[j].run.Some?
    ensures AllRun(steps[..j + 1])
  {
    hide Good;
    GoodPrefix(p, steps, j + 1);
    Take(steps, j + 1);
    InitHasRun(p, steps[..j + 1]);
    assert steps[..j + 1] == steps[..j] + [steps[j]];
  }

  /** Up to a completed step that was followed by another, or left the session active, the session stood active. */
  lemma {:induction false} StoodActive(p: Params, steps: seq<Step>, j: nat)
    requires Good(p, steps) && j < |steps| && steps[j].run.Some?
    requires j == |steps| - 1 ==> AllRun(Init(steps)) && StandingOf(p, steps) == (SessionActive, None)
    ensures AllRun(steps[..j + 1]) && StandingOf(p, steps[..j + 1]) == (SessionActive, None)
  {
    hide Good, StandingOf, RepairsTo;
    RunsUpTo(p, steps, j);
    Take(steps, j + 1);
    if j + 1 < |steps| {
      EarlierSteps(p, steps, j);
    }
  }

  /** No two completed iterations of a session that went on after the later one were in the same state. */
  lemma {:induction false} DistinctStates(p: Params, steps: seq<Step>, i: nat, j: nat)
    requires Good(p, steps) && i < j < |steps| && steps[i].run.Some? && steps[j].run.Some?
    requires j == |steps| - 1 ==> AllRun(Init(steps)) && StandingOf(p, steps) == (SessionActive, None)
    ensures FingerprintFor(steps[i]) != FingerprintFor(steps[j])
  {
    hide Good, StandingOf, FingerprintFor;
    StoodActive(p, steps, j);
    Take(steps, j + 1);
    ActiveTail(p, steps[..j + 1]);
    assert Fingerprints(steps[..j])[i] == FingerprintFor(steps[i]);
  }

  /** A session never ends as exited without goal: what could end that way has no automatic repairs, and that
   * reason comes first. */
  lemma {:induction false} ExitReasonUnreachable(p: Params, steps: seq<Step>)
    requires steps != [] ==> AllRun(Init(steps))
    ensures StandingOf(p, steps).1 != Some(ExitedWithoutGoal)
    ensures StandingOf(p, steps).0 == SessionActive <==> StandingOf(p, steps).1.None?
  {
    hide Observe, BuildMetrics, RunUsable, Fingerprints, FingerprintFor;
  }

  /** Only the stop decision bounds a session: each iteration but the first follows one that left budget over. */
  lemma {:induction false} WithinBudget(p: Params, steps: seq<Step>)
    requires Good(p, steps)
    ensures |steps| <= p.budget
  {
    hide RootedEnv, StandingOf, GoodAt;
    if steps != [] {
      GoodContinues(p, steps);
      if Init(steps) != [] {
        ActiveTail(p, Init(steps));
      }
    }
  }

  lemma {:induction false} LastRooted(p: Params, steps: seq<Step>)
    requires Good(p, steps) && steps != []
    ensures RootedEnv(Last(steps).env)
  {
    hide RootedEnv, Followed, MB.AllValid, EvidenceOlder;
    GoodByStep(p, steps);
  }

  /** Environments only grow along a session. */
  lemma {:induction false} EnvironmentsGrow(p: Params, steps: seq<Step>, i: nat, j: nat)
    requires Good(p, steps) && i <= j < |steps|
    ensures Grows(steps[i].env, steps[j].env)
    decreases j
  {
    hide Good, Grows;
    if i == j {
      GrowsSelf(steps[i].env);
    } else {
      EnvironmentsGrow(p, steps, i, j - 1);
      OneRepairGrows(p, steps, j);
      GrowsTransitive(steps[i].env, steps[j - 1].env, steps[j].env);
    }
  }

  lemma {:induction false} OneRepairGrows(p: Params, steps: seq<Step>, j: nat)
    requires Good(p, steps) && 0 < j < |steps|
    ensures Grows(steps[j - 1].env, steps[j].env)
  {
    hide Good, StandingOf, RootedEnv, Repairable, Repaired, IsChild, Reloads, ResultFor, Grows;
    EarlierSteps(p, steps, j - 1);
    Take(steps, j);
    GoodPrefix(p, steps, j);
    LastRooted(p, steps[..j]);
    RepairGrows(steps[j - 1].env, Requests(PlanOf(steps[j - 1])));
  }

  lemma {:induction false} GrowsSelf(a: Env)
    ensures Grows(a, a)
  {
  }

  lemma {:induction false} GrowsTransitive(a: Env, b: Env, c: Env)
    requires Grows(a, b) && Grows(b, c)
    ensures Grows(a, c)
  {
  }

  lemma {:induction false} GrowsBothWays(a: Env, b: Env)
    requires Grows(a, b) && Grows(b, a)
    ensures a == b
  {
    assert a.Keys == b.Keys;
  }

  /** A state seen again, as a fixed point or around a cycle, means no repair in between changed the environment. */
  lemma {:induction false} RepeatedStateIsStatic(p: Params, steps: seq<Step>, i: nat, k: nat, j: nat)
    requires Good(p, steps) && i <= k <= j < |steps| && steps[i].run.Some? && steps[j].run.Some?
    requires FingerprintFor(steps[i]) == FingerprintFor(steps[j])
    ensures steps[k].env == steps[i].env
  {
    hide Good, Grows;
    EnvironmentsGrow(p, steps, i, k);
    EnvironmentsGrow(p, steps, k, j);
    assert steps[i].env == FingerprintFor(steps[i]).environment == FingerprintFor(steps[j]).environment == steps[j].env;
    GrowsBothWays(steps[i].env, steps[k].env);
  }

  /** The environment of every iteration is decided by the seed and the plans before it, by nothing an execution
   * did to its rootfs. */
  lemma {:induction false} EnvironmentsFromPlans(p: Params, a: seq<Step>, b: seq<Step>, j: nat)
    requires Good(p, a) && Good(p, b) && j < |a| && j < |b|
    requires forall i | 0 <= i < j :: a[i].run.Some? && b[i].run.Some? && PlanOf(a[i]) == PlanOf(b[i])
    ensures a[j].env == b[j].env
  {
    hide Good, StandingOf, Repairable, Repaired, IsChild, Reloads, ResultFor;
    if j > 0 {
      EnvironmentsFromPlans(p, a, b, j - 1);
      EarlierSteps(p, a, j - 1);
      EarlierSteps(p, b, j - 1);
      Take(a, j);
      Take(b, j);
    } else {
      SeedFirst(p, a);
      SeedFirst(p, b);
    }
  }

  lemma {:induction false} SeedFirst(p: Params, steps: seq<Step>)
    requires Good(p, steps) && steps != []
    ensures steps[0].env == p.seed && steps[0].manifest == Seed(p.sample, p.seed) && steps[0].savedAt == p.seededAt
  {
    hide Good, Followed;
    GoodPrefix(p, steps, 1);
    Take(steps, 1);
    GoodContinues(p, steps[..1]);
  }

  /** Version i of the manifest chain describes the environment of iteration i, and each descends from the one before. */
  lemma {:induction false} ManifestsChained(p: Params, steps: seq<Step>, i: nat)
    requires Good(p, steps) && i < |steps|
    ensures steps[i].manifest.version == i && WellFormed(steps[i].manifest) && steps[i].manifest.snapshot == steps[i].env
    ensures steps[i].contract == ContractFor(p, i, steps[i].manifest)
    ensures i > 0 ==> IsChild(steps[i].manifest, steps[i - 1].manifest)
  {
    hide Good, StandingOf, RepairsTo, IsChild, Reloads, ResultFor;
    GoodPrefix(p, steps, i + 1);
    Take(steps, i + 1);
    LastDescribed(p, steps[..i + 1]);
    if i > 0 {
      EarlierSteps(p, steps, i - 1);
      Take(steps, i);
    }
  }

  lemma {:induction false} LastDescribed(p: Params, steps: seq<Step>)
    requires Good(p, steps) && steps != []
    ensures WellFormed(Last(steps).manifest) && Last(steps).manifest.version == |steps| - 1
    ensures Last(steps).manifest.snapshot == Last(steps).env
    ensures Last(steps).contract == ContractFor(p, |steps| - 1, Last(steps).manifest)
  {
    hide RootedEnv, Followed, MB.AllValid, EvidenceOlder;
    GoodByStep(p, steps);
  }
}
