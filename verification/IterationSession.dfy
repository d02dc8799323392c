/** A session as the history of its iterations, and what the controller has on disk for a history. */
module IterationSession {
  import opened Wrappers
  import opened PathOrder
  import opened RepairApplier
  import opened RepairedEnvironment
  import opened EnvironmentManifest
  import opened Attempt
  import opened ProgressOracle
  import MB = ManifestBuilder

  datatype SessionState = SessionActive | SessionCompleted | SessionFailed

  datatype StopReason =
    | GoalStop | FixedPoint | CycleDetected | NoAutomaticRepairs | BudgetExhausted
    | ExecutionTimedOut | ExecutionCrashed | ExitedWithoutGoal

  // ----- one execution and what is made of it -----

  /** What complete_iteration is given. */
  datatype Run = Run(artifacts: Artifacts, goalReached: bool, goalReason: Option<string>, exitCode: Option<int>, timedOut: bool)

  /** Iteration: the environment it ran in, the manifest of that environment, its contract, and its run once completed. */
  datatype Step = Step(env: Env, manifest: Manifest, contract: Contract, savedAt: nat, run: Option<UsableRun>)

  /** A run whose plan loads and was made from its requirements; complete_iteration refuses any other. */
  type UsableRun = r: Run | RunUsable(r) witness Run(Artifacts([], [], [], [], []), false, None, None, false)

  datatype Params = Params(sample: string, packed: string, goal: string, budget: nat, seed: Env, seededAt: nat)

  /** What RepairPlan.load checks of the decisions. */
  predicate PlanLoads(plan: seq<Decision>) {
    && MB.DistinctIds(plan)
    && forall i | 0 <= i < |plan| && plan[i].automatic :: plan[i].disposition == AutoCandidate && plan[i].action != NoAction
  }

  predicate RunUsable(run: Run) {
    PlanLoads(run.artifacts.plan) && PlanMatches(run.artifacts)
  }

  function ObservationFor(env: Env, run: UsableRun): (o: Observation)
    ensures o.goalReached ==> o.goalReason.Some? && o.goalReason.value != ""
    ensures o.fingerprint.environment == env && o.artifacts == run.artifacts
  {
    Observe(run.artifacts, env, run.goalReached, run.goalReason).value
  }

  function OutcomeFor(o: Observation, exitCode: Option<int>, timedOut: bool): Outcome {
    if o.goalReached then Attempt.GoalReached
    else if timedOut || exitCode == Some(124) then TimedOut
    else if o.metrics.fatalSignals > 0 then Crashed
    else if o.metrics.automaticCandidates > 0 then RepairRequired
    else Exited
  }

  function ErrorCode(outcome: Outcome): Option<string> {
    match outcome
    case TimedOut => Some("execution_timeout")
    case Crashed => Some("fatal_guest_signal")
    case RepairRequired => Some("automatic_repair_candidate")
    case _ => None
  }

  /** The least resource of a selected decision. */
  function FirstResource(plan: seq<Decision>): Option<string> {
    if plan == [] then None
    else
      var before, d := FirstResource(plan[..|plan| - 1]), plan[|plan| - 1];
      if !d.automatic || (before.Some? && AtMost(before.value, d.resource)) then before else Some(d.resource)
  }

  function BuildResult(c: Contract, o: Observation, exitCode: Option<int>, timedOut: bool): (r: AttemptResult)
    requires o.goalReached ==> o.goalReason.Some? && o.goalReason.value != ""
    ensures ValidResult(r) && LinksTo(r, c)
  {
    var outcome := OutcomeFor(o, exitCode, timedOut);
    AttemptResult(
      c.id, c, outcome, c.initialStage, c.initialStage, [], o.goalReached, o.goalReason, o.metrics.guestEventsTotal,
      OfObservation(o),
      if outcome in {RepairRequired, TimedOut, Crashed} then
        Some(Failure(outcome, c.initialStage, exitCode, ErrorCode(outcome), FirstResource(o.artifacts.plan)))
      else None)
  }

  function ResultFor(step: Step): AttemptResult
    requires step.run.Some?
  {
    BuildResult(step.contract, ObservationFor(step.env, step.run.value), step.run.value.exitCode, step.run.value.timedOut)
  }

  /** The reason to stop after an observation, given the fingerprints of the iterations before it. */
  function Decide(prior: seq<Fingerprint>, o: Observation, index: nat, budget: nat): Option<StopReason> {
    if o.goalReached then Some(GoalStop)
    else if prior != [] && o.fingerprint == prior[|prior| - 1] then Some(FixedPoint)
    else if prior != [] && o.fingerprint in prior[..|prior| - 1] then Some(CycleDetected)
    else if o.metrics.automaticCandidates == 0 then Some(NoAutomaticRepairs)
    else if index + 1 >= budget then Some(BudgetExhausted)
    else None
  }

  /** How an attempt's outcome and the oracle's reason decide the session. */
  function Resolve(outcome: Outcome, oracle: Option<StopReason>): (SessionState, Option<StopReason>) {
    if outcome == Attempt.GoalReached then (SessionCompleted, Some(GoalStop))
    else if outcome == TimedOut then (SessionFailed, Some(ExecutionTimedOut))
    else if outcome == Crashed then (SessionFailed, Some(ExecutionCrashed))
    else if oracle.Some? then (SessionCompleted, oracle)
    else if outcome == RepairRequired then (SessionActive, None)
    else (SessionFailed, Some(ExitedWithoutGoal))
  }

  // ----- histories the controller can write -----

  function Init(steps: seq<Step>): seq<Step>
    requires steps != []
  {
    steps[..|steps| - 1]
  }

  function Last(steps: seq<Step>): Step
    requires steps != []
  {
    steps[|steps| - 1]
  }

  ghost predicate AllRun(steps: seq<Step>) {
    forall i | 0 <= i < |steps| :: steps[i].run.Some?
  }

  function FingerprintFor(step: Step): Fingerprint
    requires step.run.Some?
  {
    ObservationFor(step.env, step.run.value).fingerprint
  }

  ghost function Fingerprints(steps: seq<Step>): (r: seq<Fingerprint>)
    requires AllRun(steps)
    ensures |r| == |steps|
  {
    seq(|steps|, i requires 0 <= i < |steps| => FingerprintFor(steps[i]))
  }

  /** How a history stands: active while nothing has run or the last run asks for a repair. */
  ghost function StandingOf(p: Params, steps: seq<Step>): (SessionState, Option<StopReason>)
    requires steps != [] ==> AllRun(Init(steps))
  {
    if steps == [] || Last(steps).run.None? then (SessionActive, None)
    else
      var last := Last(steps);
      var o := ObservationFor(last.env, last.run.value);
      Resolve(ResultFor(last).outcome, Decide(Fingerprints(Init(steps)), o, |steps| - 1, p.budget))
  }

  function ContractFor(p: Params, index: nat, m: Manifest): Contract {
    Contract(AttemptId(index, p.sample, ManifestId(m)), index, p.sample, p.packed, ManifestId(m), m.version, p.goal,
             PreOepDiscovery)
  }

  function PlanOf(step: Step): seq<Decision>
    requires step.run.Some?
  {
    step.run.value.artifacts.plan
  }

  ghost predicate EvidenceOlder(m: Manifest) {
    forall r, id | r in m.entries && id in m.entries[r].evidence :: id.attempt.index < m.version
  }

  /** The plan is accepted in env, and env repaired by it is next. */
  ghost predicate RepairsTo(env: Env, plan: seq<Decision>, next: Env) {
    Repairable(env, Requests(plan)) && next == Repaired(env, Requests(plan))
  }

  /** A step that follows completed ones: the session is still active and the last of them was repaired into it. */
  ghost predicate Followed(p: Params, before: seq<Step>, next: Step)
    requires before != []
  {
    var previous := Last(before);
    && AllRun(before) && StandingOf(p, before) == (SessionActive, None)
    && Reloads(ResultFor(previous))
    && RepairsTo(previous.env, PlanOf(previous), next.env)
    && IsChild(next.manifest, previous.manifest)
  }

  /** The last step continues the ones before it. */
  ghost predicate Continues(p: Params, steps: seq<Step>)
    requires steps != []
  {
    if Init(steps) == [] then
      Last(steps).env == p.seed && Last(steps).manifest == Seed(p.sample, p.seed) && Last(steps).savedAt == p.seededAt
    else Followed(p, Init(steps), Last(steps))
  }

  ghost predicate GoodLast(p: Params, steps: seq<Step>)
    requires steps != []
  {
    var last := Last(steps);
    && Continues(p, steps)
    && RootedEnv(last.env)
    && WellFormed(last.manifest) && last.manifest.version == |steps| - 1 && last.manifest.snapshot == last.env
    && MB.AllValid(last.manifest.entries) && EvidenceOlder(last.manifest)
    && last.contract == ContractFor(p, |steps| - 1, last.manifest)
  }

  /** A history some sequence of controller operations leads to. */
  ghost predicate Good(p: Params, steps: seq<Step>) {
    && p.budget >= 1 && RootedEnv(p.seed)
    && forall n: nat | n < |steps| :: GoodAt(p, steps, n)
  }

  ghost predicate GoodAt(p: Params, steps: seq<Step>, n: nat)
    requires n < |steps|
  {
    GoodLast(p, steps[..n + 1])
  }

  /** One step at a time. */
  lemma {:induction false} GoodByStep(p: Params, steps: seq<Step>)
    requires steps != []
    ensures Good(p, steps) <==> Good(p, Init(steps)) && GoodLast(p, steps)
  {
    hide GoodLast, RootedEnv;
    var init := Init(steps);
    assert steps[..|steps|] == steps;
    assert GoodAt(p, steps, |steps| - 1) <==> GoodLast(p, steps);
    forall n: nat | n < |init| ensures GoodAt(p, init, n) <==> GoodAt(p, steps, n) {
      assert init[..n + 1] == steps[..n + 1];
    }
  }

  lemma {:induction false} Take(steps: seq<Step>, n: nat)
    requires n <= |steps|
    ensures n > 0 ==> Init(steps[..n]) == steps[..n - 1] && Last(steps[..n]) == steps[n - 1]
    ensures n < |steps| ==> Init(steps)[..n] == steps[..n]
    ensures n == |steps| ==> steps[..n] == steps
  {
  }

  lemma {:induction false} GoodInit(p: Params, steps: seq<Step>)
    requires Good(p, steps) && steps != []
    ensures Good(p, Init(steps))
  {
    GoodByStep(p, steps);
  }

  lemma {:induction false} GoodPrefix(p: Params, steps: seq<Step>, n: nat)
    requires Good(p, steps) && n <= |steps|
    ensures Good(p, steps[..n])
    decreases |steps|
  {
    Take(steps, n);
    if n < |steps| {
      GoodInit(p, steps);
      GoodPrefix(p, Init(steps), n);
    }
  }

  lemma {:induction false} GoodContinues(p: Params, steps: seq<Step>)
    requires Good(p, steps) && steps != []
    ensures Continues(p, steps)
  {
    GoodByStep(p, steps);
  }

  /** In a good history every step but the last has run, asked for a repair and left the session active. */
  lemma {:induction false} EarlierSteps(p: Params, steps: seq<Step>, i: nat)
    requires Good(p, steps) && i + 1 < |steps|
    ensures Followed(p, steps[..i + 1], steps[i + 1])
  {
    GoodPrefix(p, steps, i + 2);
    Take(steps, i + 2);
    GoodContinues(p, steps[..i + 2]);
  }

  lemma {:induction false} InitHasRun(p: Params, steps: seq<Step>)
    requires Good(p, steps) && steps != []
    ensures AllRun(Init(steps))
  {
    GoodContinues(p, steps);
  }
}
