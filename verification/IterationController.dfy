/** The iteration controller: it prepares and completes iterations and checks what it finds on disk. */
module IterationController {
  import opened Wrappers
  import opened Rootfs
  import opened Snapshot
  import opened RepairApplier
  import opened RepairedEnvironment
  import opened EnvironmentManifest
  import opened Attempt
  import opened ProgressOracle
  import opened IterationSession
  import opened SessionSafety
  import opened SessionDisk
  import opened SessionSteps
  import opened RepairedSnapshot
  import opened ReportOrder
  import RT = RepairTransaction
  import MB = ManifestBuilder

  datatype SessionError =
    | Inactive | StillPrepared | BudgetSpent | BadIndex | NotPrepared | NotLatest | ClaimNotReady | BadArtifacts | ArtifactsExist
    | NoObservation | NoRepairInputs | NotRepairRequired | NotBound | SeedMismatch | ManifestMismatch | SnapshotMismatch
    | NoSnapshot | RepairRejected | Underivable(builder: MB.BuilderError) | ManifestStoreError(store: ManifestError)
    | AttemptStoreError(attempt: AttemptError) | Unaccepted

  // ----- what the controller finds on disk, in terms of the history -----

  /** The tail of a history as it lies on disk. */
  ghost predicate TailLies(d: Disk, last: Step, n: nat) {
    && n >= 1 && |d.iterations| == n && last.run.Some?
    && var r := d.iterations[n - 1];
       && r.completed && r.evidence && r.index == n - 1 && r.version == n - 1
       && r.manifestId == ManifestId(last.manifest) && r.snapshot == last.env && r.attempt == last.contract.id
       && last.manifest.snapshot == last.env && last.env in d.snapshots
       && n - 1 in d.directories && d.directories[n - 1].artifacts == Some(last.run.value.artifacts)
       && d.directories[n - 1].observation == Some(ObservationFor(last.env, last.run.value))
       && n - 1 in d.manifests && d.manifests[n - 1].manifest == last.manifest && Loads(d.manifests[n - 1])
       && r.attempt in d.contracts && d.contracts[r.attempt] == last.contract
       && Binds(d.sample, d.packed, d.goal, r, last.contract)
       && r.attempt in d.results && d.results[r.attempt] == ResultFor(last)
       && LinksTo(ResultFor(last), last.contract)
  }

  lemma {:induction false} TailOnDisk(p: Params, steps: seq<Step>, extra: set<Env>)
    requires Good(p, steps) && Runs(steps) && steps != [] && Last(steps).run.Some?
    ensures TailLies(DiskOf(p, steps, extra), Last(steps), |steps|)
  {
    hide Good, StandingOf, ResultFor, ObservationFor, Records, Directories, ManifestFiles, Contracts, Results, Environments,
         RecordFor, Runs, Loads;
    var n := |steps| - 1;
    RecordNames(p, steps, n);
    RecordAt(p, steps, n);
    Take(steps, n + 1);
    FileAt(p, steps, n);
    FileLoads(p, steps);
    GoodNumbered(p, steps);
    ContractAt(steps, n);
    ManifestsChained(p, steps, n);
    EnvironmentAt(p, steps, n);
    ResultAgrees(Last(steps));
  }

  lemma {:induction false} FileLoads(p: Params, steps: seq<Step>)
    requires Good(p, steps) && steps != []
    ensures Loads(FileFor(Last(steps)))
  {
    hide Good;
    LastDescribed(p, steps);
  }

  /** What a repair of the tail is based on. */
  datatype Tail = Tail(
    env: Env, artifacts: Artifacts, observation: Observation, manifest: Manifest, contract: Contract, result: AttemptResult)

  function TailOf(last: Step): Tail
    requires last.run.Some?
  {
    Tail(last.env, last.run.value.artifacts, ObservationFor(last.env, last.run.value), last.manifest, last.contract,
      ResultFor(last))
  }

  lemma {:induction false} NextParts(p: Params, steps: seq<Step>, env: Env, m: Manifest)
    requires NextFits(p, steps, env, m)
    ensures WellFormed(m) && IsChild(m, Last(steps).manifest)
  {
  }

  /** Applies a plan to a tree, scans what is left and puts the report in order. */
  method RepairAndReport(tree: Tree, plan: seq<Decision>)
    returns (r: Option<(Env, Tree, seq<MB.AppliedResult>)>, ghost statuses: seq<RT.Status>, ghost order: seq<nat>)
    requires ValidTree(tree)
    ensures r.Some? <==> Repairable(Entries(tree), Requests(plan))
    ensures r.Some? ==> r.value.0 == Repaired(Entries(tree), Requests(plan))
    ensures r.Some? ==> ValidTree(r.value.1) && Entries(r.value.1) == r.value.0
    ensures r.Some? ==> MB.Fits(plan, statuses) && MB.Reports(r.value.2, order, plan, statuses) && Covers(order, plan)
  {
    hide Repairable, Repaired, ValidTree, Lists, Entries, MB.Fits, MB.Reports, Covers, PassesAt, PreparedAt, Requests;
    statuses, order := [], [];
    var applied := ApplyToTree(tree, plan);
    if applied.Err? {
      return None, statuses, order;
    }
    var after := applied.value.0;
    statuses := applied.value.1;
    AppliedFits(tree, plan, statuses);
    var items := ScanEnvironment(after);
    EntryMapIs(items, Entries(after));
    var results: seq<MB.AppliedResult>;
    results, order := SortResults(plan, applied.value.1);
    r := Some((EntryMap(items), after, results));
  }

  /** Repairs a clone of the tail's snapshot and derives the next manifest from what was applied. */
  method RepairTail(tail: Tail, tree: Tree, stamp: nat, ghost p: Params, ghost steps: seq<Step>)
    returns (r: Result<(Env, Tree, Result<Manifest, MB.BuilderError>), SessionError>)
    requires ValidTree(tree) && Entries(tree) == tail.env
    ensures r.Ok? ==> ValidTree(r.value.1) && Entries(r.value.1) == r.value.0
    ensures r.Ok? && r.value.2.Ok? ==> WellFormed(r.value.2.value)
    ensures TailWaits(p, steps, tail) ==>
              && (r.Ok? <==> Repairable(tail.env, Requests(PlanOf(Last(steps)))))
              && (r.Ok? ==> (r.value.2.Ok? <==> Nameable(PlanOf(Last(steps)))))
              && (r.Ok? && r.value.2.Ok? ==> NextFits(p, steps, r.value.0, r.value.2.value))
  {
    hide Good, StandingOf, Repairable, Repaired, ValidTree, Entries, NextFits, MB.CanDerive, MB.Fold, PlanLoads, PlanMatches,
         MB.Fits, MB.Reports, Covers, ResultFor, ObservationFor, Nameable, Reloadable, Requests;
    ghost var waits := TailWaits(p, steps, tail);
    var plan := tail.artifacts.plan;
    if waits {
      TailNeeds(p, steps);
    }
    if !PlanLoads(plan) || !PlanMatches(tail.artifacts) {
      return Err(RepairRejected);
    }
    var applied, statuses, order := RepairAndReport(tree, plan);
    if applied.None? {
      return Err(RepairRejected);
    }
    var (env, after, results) := applied.value;
    if waits {
      RepairRecorded(p, steps, env, statuses, results, order, stamp);
    }
    var application := MB.Application(true, false, plan, tail.artifacts.planSource, results, stamp);
    var derived := MB.DeriveFromRepair(tail.manifest, env, tail.contract, tail.result, plan, tail.observation, application);
    r := Ok((env, after, derived));
  }

  /** The tail is that of an active history whose last run can be read back. */
  ghost predicate TailWaits(p: Params, steps: seq<Step>, tail: Tail) {
    && Good(p, steps) && steps != [] && AllRun(steps) && StandingOf(p, steps) == (SessionActive, None)
    && Reloadable(Last(steps).run.value) && tail == TailOf(Last(steps))
  }

  lemma {:induction false} AppliedFits(tree: Tree, plan: seq<Decision>, statuses: seq<RT.Status>)
    requires ValidTree(tree) && Repairable(Entries(tree), Requests(plan)) && |statuses| == |plan|
    requires forall i | 0 <= i < |plan| :: PassesAt(tree.nodes, Requests(plan), i)
                                           && statuses[i] == RT.AppliedStatus(PreparedAt(tree.nodes, Requests(plan), i))
    ensures MB.Fits(plan, statuses)
  {
    hide ValidTree, PassesAt, PreparedAt, Repaired, Shape;
    NamedRequests(plan);
    RepairCommutesWithScan(tree, Requests(plan));
    StatusesFit(tree.nodes, plan, statuses);
  }

  /** What stands between an active tail and the next iteration. */
  lemma {:induction false} TailNeeds(p: Params, steps: seq<Step>)
    requires steps != [] && AllRun(steps) && StandingOf(p, steps) == (SessionActive, None)
    ensures CanPrepare(p, steps) <==>
              && Reloadable(Last(steps).run.value)
              && Repairable(Last(steps).env, Requests(PlanOf(Last(steps)))) && Nameable(PlanOf(Last(steps)))
    ensures Reloads(ResultFor(Last(steps))) <==> Reloadable(Last(steps).run.value)
    ensures ResultFor(Last(steps)).outcome == RepairRequired
    ensures PlanLoads(PlanOf(Last(steps))) && PlanMatches(Last(steps).run.value.artifacts)
  {
    hide StandingOf, Repairable, Nameable, Reloadable, Reloads, ResultFor;
    ReloadsExactly(Last(steps));
    ActiveTail(p, steps);
  }

  /** The manifest that follows the tail can be saved. */
  lemma {:induction false} NextSaves(p: Params, steps: seq<Step>, m: Manifest)
    requires Good(p, steps) && steps != [] && WellFormed(m) && IsChild(m, Last(steps).manifest)
    ensures m.version == |steps| && m.version !in ManifestFiles(p, steps) && CanSave(ManifestFiles(p, steps), m)
  {
    hide Good, ManifestFiles;
    LastDescribed(p, steps);
    FileAt(p, steps, |steps| - 1);
    FileLoads(p, steps);
    FileKeys(p, steps, |steps|);
    VersionOfChild(m, Last(steps).manifest);
  }

  /** Where a history stands, read off its disk. */
  lemma {:induction false} Situation(p: Params, steps: seq<Step>, extra: set<Env>)
    requires Good(p, steps) && Runs(steps)
    ensures var d := DiskOf(p, steps, extra);
            && |d.iterations| == |steps| && (d.state == SessionActive <==> d.stop.None?)
            && (steps != [] ==> d.iterations[|steps| - 1].completed == Last(steps).run.Some?
                                && d.iterations[|steps| - 1].snapshot == Last(steps).env)
            && (steps != [] && d.state == SessionActive && Last(steps).run.Some? ==>
                  AllRun(steps) && StandingOf(p, steps) == (SessionActive, None) && |steps| < p.budget)
            && (CanPrepare(p, steps) ==> d.state == SessionActive && (steps != [] ==> Last(steps).run.Some?))
            && (steps == [] ==> CanPrepare(p, steps) && p.budget >= 1 && 0 in d.manifests
                                && d.manifests[0].manifest == Seed(p.sample, p.seed) && Loads(d.manifests[0]))
  {
    hide Good, StandingOf, Records, Directories, ManifestFiles, Contracts, Results, Environments, RecordFor, Repairable,
         Nameable,
         Reloadable;
    GoodStart(p, steps);
    if steps == [] {
      SeedOnly(p, steps);
      EmptyStands(p, steps);
    } else {
      RecordNames(p, steps, |steps| - 1);
      ExitReasonUnreachable(p, steps);
      if Last(steps).run.Some? {
        RunsUpTo(p, steps, |steps| - 1);
        assert steps[..|steps|] == steps;
        if DiskOf(p, steps, extra).state == SessionActive {
          ActiveTail(p, steps);
        }
      }
    }
  }

  lemma {:induction false} EmptyStands(p: Params, steps: seq<Step>)
    requires steps == []
    ensures StandingOf(p, steps) == (SessionActive, None)
  {
  }

  /** A disk with more snapshots than a history needs still holds it. */
  lemma {:induction false} MoreSnapshots(p: Params, steps: seq<Step>, extra: set<Env>, kept: set<Env>)
    requires Runs(steps) && DiskOf(p, steps, extra).snapshots <= kept
    ensures DiskOf(p, steps, kept) == DiskOf(p, steps, extra).(snapshots := kept)
  {
    hide StandingOf, Records, Directories, ManifestFiles, Contracts, Results, Environments, Runs;
    assert Environments(p, steps) + kept == kept;
  }

  /** What was repaired, recorded and prepared is a step of the session's runs. */
  lemma {:induction false} PreparesNext(p: Params, steps: seq<Step>, env: Env, m: Manifest, now: nat)
    requires CanPrepare(p, steps) && NextOk(p, steps, env, m)
    ensures Prepares(p, steps, steps + [StepAfter(p, steps, env, m, now)])
  {
    hide CanPrepare, RepairsTo, FromRepair, RootedEnv, MB.AllValid, EvidenceOlder, MB.Extends, WellFormed, IsChild, Reloadable;
    var after := steps + [StepAfter(p, steps, env, m, now)];
    assert Init(after) == steps && Last(after) == StepAfter(p, steps, env, m, now);
  }

  /** The step that was prepared extends the history, and its attempt is new. */
  lemma {:induction false} NextReady(p: Params, steps: seq<Step>, extra: set<Env>, next: Step)
    requires Good(p, steps) && CanPrepare(p, steps)
    requires if steps == [] then next == FirstStep(p)
             else NextFits(p, steps, next.env, next.manifest)
                  && next == NextStep(p, |steps|, next.env, next.manifest, next.savedAt)
    ensures Good(p, steps + [next]) && AllRun(steps) && Runs(steps) && Runs(steps + [next])
    ensures next.contract.id !in Contracts(steps)
    ensures next.contract == ContractFor(p, |steps|, next.manifest)
    ensures RecordFor(p, steps + [next]) ==
              Record(|steps|, false, next.env, if steps == [] then None else Some(Last(steps).env), ManifestId(next.manifest),
                     next.manifest.version, next.contract.id, steps != [], false, None)
  {
    hide Good, StandingOf, Contracts, Repairable, Nameable, Reloadable, NextFits;
    GoodNumbered(p, steps);
    OnlyThese(steps, next.contract.id);
    var after := steps + [next];
    assert Init(after) == steps && Last(after) == next;
    if steps == [] {
      FirstIsGood(p);
      assert after == [FirstStep(p)];
    } else {
      NextUnfolds(p, steps, next.env, next.manifest);
      NextIsGood(p, steps, next.env, next.manifest, next.savedAt);
    }
    NothingRunYet(p, after);
  }

  lemma {:induction false} NothingRunYet(p: Params, steps: seq<Step>)
    requires steps != [] && Runs(steps) && Last(steps).run.None?
    ensures StandingOf(p, steps) == (SessionActive, None)
  {
  }

  lemma {:induction false} NextUnpacks(p: Params, steps: seq<Step>, env: Env, m: Manifest)
    requires NextOk(p, steps, env, m)
    ensures m.snapshot == env && (steps != [] ==> NextFits(p, steps, env, m))
    ensures steps != [] ==> MB.Extends(Last(steps).manifest.entries, m.entries)
  {
    hide RepairsTo, RootedEnv, MB.AllValid, EvidenceOlder, MB.Extends;
  }

  lemma {:induction false} NextUnfolds(p: Params, steps: seq<Step>, env: Env, m: Manifest)
    requires NextFits(p, steps, env, m)
    ensures Reloadable(Last(steps).run.value) && RepairsTo(Last(steps).env, PlanOf(Last(steps)), env) && RootedEnv(env)
    ensures WellFormed(m) && IsChild(m, Last(steps).manifest) && m.snapshot == env
    ensures MB.AllValid(m.entries) && EvidenceOlder(m) && MB.Extends(Last(steps).manifest.entries, m.entries)
  {
    hide RepairsTo, RootedEnv, MB.AllValid, EvidenceOlder, MB.Extends;
  }

  /** The session can go on: nothing was prepared yet, or the tail ran and left it active. */
  ghost predicate Goes(p: Params, steps: seq<Step>) {
    steps == [] || (AllRun(steps) && StandingOf(p, steps) == (SessionActive, None))
  }

  ghost predicate NextOk(p: Params, steps: seq<Step>, env: Env, m: Manifest) {
    if steps == [] then env == p.seed && m == Seed(p.sample, p.seed) else NextFits(p, steps, env, m)
  }

  function NextFiles(p: Params, steps: seq<Step>, m: Manifest, now: nat): map<nat, ManifestFile> {
    if steps == [] then ManifestFiles(p, steps)
    else ManifestFiles(p, steps)[|steps| := ManifestFile(m, ManifestId(m), now)]
  }

  function StepAfter(p: Params, steps: seq<Step>, env: Env, m: Manifest, now: nat): Step {
    if steps == [] then FirstStep(p) else NextStep(p, |steps|, env, m, now)
  }

  /** What completing an iteration asks for. */
  ghost predicate CanComplete(steps: seq<Step>, index: int, artifacts: Option<Artifacts>, claimReady: bool) {
    && steps != [] && Last(steps).run.None? && index == |steps| - 1 && claimReady
    && artifacts.Some? && PlanLoads(artifacts.value.plan) && PlanMatches(artifacts.value)
  }

  /** A prepared tail as it lies on disk. */
  lemma {:induction false} PreparedOnDisk(p: Params, steps: seq<Step>, extra: set<Env>)
    requires Good(p, steps) && Runs(steps) && steps != [] && Last(steps).run.None?
    ensures var d := DiskOf(p, steps, extra); var n := |steps| - 1;
            && d.state == SessionActive && d.stop.None?
            && |d.iterations| == n + 1 && !d.iterations[n].completed && d.iterations[n] == RecordFor(p, steps)
            && d.iterations[n].snapshot == Last(steps).env && d.iterations[n].attempt == Last(steps).contract.id
            && d.iterations[n].index == n
            && Last(steps).contract.id in d.contracts && d.contracts[Last(steps).contract.id] == Last(steps).contract
            && Last(steps).contract.id !in d.results
            && Binds(d.sample, d.packed, d.goal, d.iterations[n], Last(steps).contract)
            && n in d.directories && d.directories[n] == IterationDir(RecordFor(p, steps), None, None, None)
            && (n > 0 ==> d.iterations[n - 1].evidence && n - 1 in d.directories && d.directories[n - 1].observation.Some?)
            && PriorLoads(d, n) && Prior(d, n) == Fingerprints(Init(steps))
  {
    hide Good, Records, Directories, ManifestFiles, Contracts, Results, Environments, RecordFor, Runs, FingerprintFor,
         ObservationFor, ResultFor;
    var n := |steps| - 1;
    NothingRunYet(p, steps);
    RecordNames(p, steps, n);
    RecordAt(p, steps, n);
    Take(steps, n + 1);
    GoodNumbered(p, steps);
    ContractAt(steps, n);
    ManifestsChained(p, steps, n);
    forall i | 0 <= i < |steps| ensures DirectoryHas(p, steps, i) {
      DirectoryHolds(p, steps, i);
    }
    PriorIs(p, steps, extra, n);
    if n > 0 {
      RecordNames(p, steps, n - 1);
      InitHasRun(p, steps);
      assert Init(steps)[n - 1] == steps[n - 1];
      assert DirectoryHas(p, steps, n - 1);
    }
  }

  lemma {:induction false} PriorFrame(d: Disk, e: Disk, index: nat)
    requires index <= |d.iterations| && index <= |e.iterations|
    requires forall k | 0 <= k < index :: d.iterations[k] == e.iterations[k]
    requires forall k | 0 <= k < index :: (k in d.directories <==> k in e.directories)
                                          && (k in d.directories ==> d.directories[k] == e.directories[k])
    ensures PriorLoads(d, index) <==> PriorLoads(e, index)
    ensures PriorLoads(d, index) ==> Prior(d, index) == Prior(e, index)
  {
    if index > 0 {
      PriorFrame(d, e, index - 1);
    }
  }

  /** A disk on which iteration n has been completed. */
  function CompletedDisk(
    d: Disk, n: nat, standing: (SessionState, Option<StopReason>), artifacts: Artifacts, o: Observation,
    result: AttemptResult): Disk
    requires n < |d.iterations|
  {
    var record := d.iterations[n].(completed := true, evidence := true, stop := standing.1);
    d.(state := standing.0, stop := standing.1, iterations := d.iterations[n := record],
       directories := d.directories[n := IterationDir(record, Some(artifacts), Some(artifacts), Some(o))],
       results := d.results[result.attempt := result])
  }

  lemma {:induction false} CompletedStanding(p: Params, steps: seq<Step>, run: UsableRun)
    requires steps != [] && Runs(steps) && Last(steps).run.None?
    ensures Runs(WithRun(steps, run)) && Init(WithRun(steps, run)) == Init(steps)
    ensures Last(WithRun(steps, run)) == Last(steps).(run := Some(run))
    ensures var o := ObservationFor(Last(steps).env, run);
            StandingOf(p, WithRun(steps, run)) ==
              Resolve(BuildResult(Last(steps).contract, o, run.exitCode, run.timedOut).outcome,
                      Decide(Fingerprints(Init(steps)), o, |steps| - 1, p.budget))
    ensures ResultFor(Last(WithRun(steps, run))) ==
              BuildResult(Last(steps).contract, ObservationFor(Last(steps).env, run), run.exitCode, run.timedOut)
  {
    hide ObservationFor, BuildResult, Decide, Resolve, Fingerprints;
    var after := WithRun(steps, run);
    assert Init(after) == Init(steps) && Last(after) == Last(steps).(run := Some(run));
  }

  lemma {:induction false} CompletedRecord(p: Params, steps: seq<Step>, run: UsableRun)
    requires steps != [] && Runs(steps) && Last(steps).run.None?
    ensures Runs(WithRun(steps, run))
    ensures RecordFor(p, WithRun(steps, run)) ==
              RecordFor(p, steps).(completed := true, evidence := true, stop := StandingOf(p, WithRun(steps, run)).1)
    ensures DirectoryFor(p, WithRun(steps, run)) ==
              IterationDir(RecordFor(p, WithRun(steps, run)), Some(run.artifacts), Some(run.artifacts),
                           Some(ObservationFor(Last(steps).env, run)))
  {
    hide ObservationFor, StandingOf;
    CompletedStanding(p, steps, run);
  }

  /** Nothing stands in the way of completing a prepared tail. */
  lemma {:induction false} BeforeCompletion(p: Params, steps: seq<Step>, extra: set<Env>, result: AttemptResult)
    requires Good(p, steps) && Runs(steps) && steps != [] && Last(steps).run.None? && LinksTo(result, Last(steps).contract)
    ensures var d := DiskOf(p, steps, extra);
            |d.iterations| == |steps| && PriorLoads(d, |steps| - 1) && CanSaveResult(d.contracts, d.results, result)
            && d.iterations[|steps| - 1] == RecordFor(p, steps) && |steps| - 1 in d.directories
            && d.directories[|steps| - 1].record == RecordFor(p, steps)
  {
    hide Good, Records, Directories, ManifestFiles, Contracts, Results, Environments, RecordFor, StandingOf, Runs, Prior,
         PriorLoads,
         Binds, Fingerprints;
    PreparedOnDisk(p, steps, extra);
  }

  /** Completing turns the disk of a history into that of the history with its tail run. */
  lemma {:induction false} AfterCompletion(
    p: Params, steps: seq<Step>, extra: set<Env>, run: UsableRun, o: Observation, result: AttemptResult,
    standing: (SessionState, Option<StopReason>))
    requires Good(p, steps) && Runs(steps) && steps != [] && Last(steps).run.None?
    requires o == ObservationFor(Last(steps).env, run)
    requires result == BuildResult(Last(steps).contract, o, run.exitCode, run.timedOut)
    requires var d := DiskOf(p, steps, extra);
             |d.iterations| == |steps| && PriorLoads(d, |steps| - 1)
             && standing == Resolve(result.outcome, Decide(Prior(d, |steps| - 1), o, |steps| - 1, p.budget))
    ensures Good(p, WithRun(steps, run)) && Runs(WithRun(steps, run))
    ensures DiskOf(p, WithRun(steps, run), extra) == CompletedDisk(DiskOf(p, steps, extra), |steps| - 1, standing,
            run.artifacts, o, result)
    ensures RecordFor(p, WithRun(steps, run)) == RecordFor(p, steps).(completed := true, evidence := true, stop := standing.1)
  {
    hide Good, Records, Directories, ManifestFiles, Contracts, Results, Environments, ObservationFor, Decide, Resolve,
         BuildResult,
         RecordFor, DirectoryFor, StandingOf, Runs, ResultFor, Prior, PriorLoads, Binds;
    CompletedIsGood(p, steps, run);
    DiskCompletes(p, steps, extra, run);
    PreparedOnDisk(p, steps, extra);
    CompletedStanding(p, steps, run);
    CompletedRecord(p, steps, run);
  }

  lemma {:induction false} CompletableTail(steps: seq<Step>, index: int, artifacts: Option<Artifacts>, claimReady: bool)
    requires CanComplete(steps, index, artifacts, claimReady)
    ensures steps != [] && Last(steps).run.None? && index == |steps| - 1
  {
  }

  lemma {:induction false} UsableIs(
    env: Env, artifacts: Artifacts, goalReached: bool, goalReason: Option<string>, exitCode: Option<int>, timedOut: bool)
    requires PlanLoads(artifacts.plan) && PlanMatches(artifacts)
    ensures var run := Run(artifacts, goalReached, goalReason, exitCode, timedOut);
            RunUsable(run) && ObservationFor(env, run) == Observe(artifacts, env, goalReached, goalReason).value
    ensures var o := Observe(artifacts, env, goalReached, goalReason).value;
            o.goalReached ==> o.goalReason.Some? && o.goalReason.value != ""
  {
  }

  lemma {:induction false} ListedOnce(expected: seq<AttemptId>, ids: seq<AttemptId>, contracts: map<AttemptId, Contract>)
    requires ListsAttempts(ids, contracts)
    ensures StrictlyByIndex(expected) && ListsAttempts(expected, contracts) ==> ids == expected
  {
    if StrictlyByIndex(expected) && ListsAttempts(expected, contracts) {
      ListingOnce(expected, ids);
    }
  }

  /** An accepted record of a completed iteration has a result and an observation. */
  lemma {:induction false} AcceptedTail(d: Disk, chain: seq<Manifest>)
    requires d.iterations != [] && RecordAccepted(d, chain, |d.iterations| - 1)
    ensures var tail := d.iterations[|d.iterations| - 1];
            tail.completed ==>
              && tail.attempt in d.results && |d.iterations| - 1 in d.directories
              && d.directories[|d.iterations| - 1].observation.Some?
  {
  }

  class Controller {
    const sample: string
    const packed: string
    const goal: string
    const budget: nat
    const seed: Env
    const seedManifest: ManifestId
    var state: SessionState
    var stop: Option<StopReason>
    var iterations: seq<Record>
    var directories: map<nat, IterationDir>
    /** The snapshot store, by the entries a snapshot id is made of. */
    var snapshots: map<Env, Tree>
    const manifests: ManifestStore
    const attempts: AttemptStore

    function Contents(): Disk
      reads this, manifests, attempts
    {
      Disk(sample, packed, goal, budget, seed, seedManifest, state, stop, iterations, directories, manifests.files,
           attempts.contracts, attempts.results, snapshots.Keys)
    }

    /** Every snapshot is a tree of the entries it is kept under. */
    ghost predicate Valid()
      reads this
    {
      forall e | e in snapshots :: ValidTree(snapshots[e]) && Entries(snapshots[e]) == e
    }

    /** The session's own stores hold a history, perhaps beside snapshots no iteration uses. */
    ghost predicate Holds(p: Params, steps: seq<Step>, extra: set<Env>)
      reads this, manifests, attempts
    {
      Good(p, steps) && Runs(steps) && Contents() == DiskOf(p, steps, extra)
    }

    /** The history is active and its tail has run. */
    ghost predicate Awaits(p: Params, steps: seq<Step>, extra: set<Env>)
      reads this, manifests, attempts
    {
      Holds(p, steps, extra) && steps != [] && AllRun(steps) && StandingOf(p, steps) == (SessionActive, None)
    }

    /** The next manifest and its snapshot are saved, and nothing else of the next iteration. */
    ghost predicate Written(p: Params, steps: seq<Step>, extra: set<Env>, env: Env, m: Manifest, now: nat, parent: Option<Env>)
      reads this, manifests, attempts
    {
      && Good(p, steps) && Runs(steps) && CanPrepare(p, steps) && NextOk(p, steps, env, m)
      && parent == (if steps == [] then None else Some(Last(steps).env))
      && Contents() == DiskOf(p, steps, extra).(
           manifests := NextFiles(p, steps, m, now), snapshots := DiskOf(p, steps, extra).snapshots + {env})
    }

    /** The tail is prepared and this is its contract and what was observed of its run. */
    ghost predicate Finishing(p: Params, steps: seq<Step>, extra: set<Env>, contract: Contract, observation: Observation,
        run: UsableRun)
      reads this, manifests, attempts
    {
      && Holds(p, steps, extra) && steps != [] && Last(steps).run.None? && contract == Last(steps).contract
      && observation == ObservationFor(Last(steps).env, run)
    }

    /** initialize, once the seed rootfs is captured. */
    constructor (sample: string, packed: string, goal: string, budget: nat, rootfs: Tree, now: nat)
      requires budget >= 1 && ValidTree(rootfs)
      ensures Valid() && Holds(Params(sample, packed, goal, budget, Entries(rootfs), now), [], {})
      ensures fresh(manifests) && fresh(attempts)
    {
      var items := ScanEnvironment(rootfs);
      EntryMapIs(items, Entries(rootfs));
      var env := EntryMap(items);
      var m := Seed(sample, env);
      this.sample, this.packed, this.goal, this.budget := sample, packed, goal, budget;
      seed, seedManifest := env, ManifestId(m);
      state, stop, iterations, directories := SessionActive, None, [], map[];
      snapshots := map[env := rootfs];
      manifests := new ManifestStore();
      attempts := new AttemptStore();
      new;
      var _ := manifests.Save(m, now);
      ghost var p := Params(sample, packed, goal, budget, env, now);
      RootedEntries(rootfs);
      GoodFromStart(p);
      SeedFiles(p);
    }

    /** Loads the completed tail with everything its repair will be based on. */
    method LoadTail(ghost p: Params, ghost steps: seq<Step>, ghost extra: set<Env>) returns (r: Result<Tail, SessionError>)
      requires iterations != []
      ensures Awaits(p, steps, extra) ==> (r.Ok? <==> Reloadable(Last(steps).run.value))
      ensures Awaits(p, steps, extra) && r.Ok? ==> r.value == TailOf(Last(steps)) && Last(steps).env in snapshots
    {
      hide Good, StandingOf, RepairsTo, Repairable, Reloads, LinksTo, PlanLoads, CanPrepare, Runs, Loads, PlanMatches,
           ResultFor,
           ObservationFor, Records, Directories, ManifestFiles, Contracts, Results, Environments, Reloadable, Nameable;
      ghost var awaits := Awaits(p, steps, extra);
      if awaits {
        TailOnDisk(p, steps, extra);
        TailNeeds(p, steps);
      }
      var previous := iterations[|iterations| - 1];
      if !previous.completed {
        return Err(NotPrepared);
      }
      if previous.index !in directories || directories[previous.index].artifacts.None? {
        return Err(NoRepairInputs);
      }
      var dir := directories[previous.index];
      if !previous.evidence || dir.observation.None? {
        return Err(NoObservation);
      }
      var loaded := manifests.Load(previous.version);
      if loaded.Err? {
        return Err(ManifestStoreError(loaded.error));
      }
      var verified := attempts.VerifyAttempt(previous.attempt, true);
      if verified.Err? {
        return Err(AttemptStoreError(verified.error));
      }
      var (contract, result) := verified.value;
      if result.value.outcome != RepairRequired {
        return Err(NotRepairRequired);
      }
      if !Binds(sample, packed, goal, previous, contract) {
        return Err(NotBound);
      }
      if ManifestId(loaded.value) != previous.manifestId || loaded.value.snapshot != previous.snapshot {
        return Err(ManifestMismatch);
      }
      if previous.snapshot !in snapshots {
        return Err(NoSnapshot);
      }
      r := Ok(Tail(previous.snapshot, dir.artifacts.value, dir.observation.value, loaded.value, contract, result.value));
    }

    /** Before a new contract is written: repair the tail's environment, capture it and save the manifest derived
     * from the repair. */
    method RepairPrevious(now: nat, stamp: nat, ghost p: Params, ghost steps: seq<Step>, ghost extra: set<Env>)
      returns (r: Result<(Env, Manifest), SessionError>)
      requires Valid() && iterations != []
      modifies this`snapshots, manifests
      ensures Valid() && old(snapshots.Keys) <= snapshots.Keys
      ensures old(Awaits(p, steps, extra)) ==> (r.Ok? <==> CanPrepare(p, steps))
      ensures old(Awaits(p, steps, extra)) && r.Ok? ==>
                && NextFits(p, steps, r.value.0, r.value.1)
                && snapshots.Keys == old(snapshots.Keys) + {r.value.0}
                && manifests.files == old(manifests.files)[|steps| := ManifestFile(r.value.1, ManifestId(r.value.1), now)]
      ensures old(Awaits(p, steps, extra)) && r.Err? ==> manifests.files == old(manifests.files)
    {
      hide Good, StandingOf, Repairable, ValidTree, Entries, NextFits, CanPrepare, Runs, CanSave, Records, Directories,
           ManifestFiles,
           Contracts, Results, Environments, Reloadable, Nameable, RepairsTo, ResultFor, ObservationFor;
      ghost var awaits := Awaits(p, steps, extra);
      if awaits {
        TailNeeds(p, steps);
      }
      var tail := LoadTail(p, steps, extra);
      if tail.Err? {
        return Err(tail.error);
      }
      if tail.value.env !in snapshots {
        return Err(NoSnapshot);
      }
      var repaired := RepairTail(tail.value, snapshots[tail.value.env], stamp, p, steps);
      match repaired {
        case Err(error) => return Err(error);
        case Ok(value) =>
          var (env, tree, m) := value;
          if env !in snapshots {
            snapshots := snapshots[env := tree];
          }
      }
      if repaired.value.2.Err? {
        return Err(Underivable(repaired.value.2.error));
      }
      var m := repaired.value.2.value;
      if awaits {
        NextParts(p, steps, repaired.value.0, m);
        NextSaves(p, steps, m);
      }
      var saved := manifests.Save(m, now);
      if saved.Err? {
        return Err(ManifestStoreError(saved.error));
      }
      r := Ok((repaired.value.0, m));
    }

    /** The environment the next iteration runs in, with its manifest: the seed's, or the tail's after its repair. */
    method NextEnvironment(now: nat, stamp: nat, ghost p: Params, ghost steps: seq<Step>, ghost extra: set<Env>)
      returns (r: Result<(Env, Manifest), SessionError>)
      requires Valid()
      modifies this`snapshots, manifests
      ensures Valid() && old(snapshots.Keys) <= snapshots.Keys
      ensures old(Holds(p, steps, extra)) && Goes(p, steps) ==> (r.Ok? <==> CanPrepare(p, steps))
      ensures old(Holds(p, steps, extra)) && Goes(p, steps) && r.Ok? ==>
                && NextOk(p, steps, r.value.0, r.value.1)
                && Contents() == DiskOf(p, steps, extra).(
                     manifests := NextFiles(p, steps, r.value.1, now), snapshots := old(snapshots.Keys) + {r.value.0})
      ensures old(Holds(p, steps, extra)) && Goes(p, steps) && r.Err? ==> manifests.files == old(manifests.files)
    {
      hide Good, StandingOf, ValidTree, Entries, NextFits, CanPrepare, Runs, AllRun, Records, Directories, ManifestFiles,
           Contracts, Results, Environments, Loads;
      ghost var holds := Holds(p, steps, extra) && Goes(p, steps);
      if holds {
        Situation(p, steps, extra);
        SeedKept(p, steps);
      }
      if |iterations| == 0 {
        var loaded := manifests.Load(0);
        if loaded.Err? {
          return Err(ManifestStoreError(loaded.error));
        }
        if ManifestId(loaded.value) != seedManifest {
          return Err(SeedMismatch);
        }
        r := Ok((seed, loaded.value));
        assert holds ==> snapshots.Keys == snapshots.Keys + {seed};
      } else {
        assert holds ==> Awaits(p, steps, extra);
        r := RepairPrevious(now, stamp, p, steps, extra);
      }
    }

    /** Writes the contract, the iteration's directory and the session manifest. */
    method Commit(env: Env, manifest: Manifest, parent: Option<Env>, ghost p: Params, ghost steps: seq<Step>,
        ghost extra: set<Env>, ghost now: nat)
      returns (r: Result<Record, SessionError>)
      modifies this`directories, this`iterations, attempts`contracts
      ensures old(Written(p, steps, extra, env, manifest, now, parent)) ==>
                && r.Ok? && Holds(p, steps + [StepAfter(p, steps, env, manifest, now)], extra)
                && r.value == RecordFor(p, steps + [StepAfter(p, steps, env, manifest, now)])
    {
      hide Good, StandingOf, NextFits, CanPrepare, AllRun, Records, Directories, ManifestFiles, Contracts, Results,
           Environments,
           RecordFor, Runs;
      ghost var written, next := Written(p, steps, extra, env, manifest, now, parent), StepAfter(p, steps, env, manifest, now);
      if written {
        Situation(p, steps, extra);
        NextUnpacks(p, steps, env, manifest);
        NextReady(p, steps, extra, next);
        DiskGrows(p, steps, extra, next);
      }
      if manifest.snapshot != env {
        return Err(SnapshotMismatch);
      }
      var n := |iterations|;
      var id := AttemptId(n, sample, ManifestId(manifest));
      var contract := Contract(id, n, sample, packed, ManifestId(manifest), manifest.version, goal, PreOepDiscovery);
      var saved := attempts.SaveContract(contract);
      if saved.Err? {
        return Err(AttemptStoreError(saved.error));
      }
      if env !in snapshots {
        return Err(NoSnapshot);
      }
      var record := Record(n, false, env, parent, ManifestId(manifest), manifest.version, id, n > 0, false, None);
      directories := directories[n := IterationDir(record, None, None, None)];
      iterations := iterations + [record];
      if written {
        assert n == |steps| && contract == next.contract && env == next.env && manifest == next.manifest;
        assert record == RecordFor(p, steps + [next]);
      }
      r := Ok(record);
    }

    /** prepare_next. */
    method PrepareNext(now: nat, stamp: nat, ghost p: Params, ghost steps: seq<Step>, ghost extra: set<Env>)
      returns (r: Result<Record, SessionError>, ghost next: Step, ghost kept: set<Env>)
      requires Valid()
      modifies this, manifests, attempts
      ensures Valid()
      ensures old(Holds(p, steps, extra)) ==> (r.Ok? <==> CanPrepare(p, steps))
      ensures old(Holds(p, steps, extra)) && r.Ok? ==>
                && next.run.None? && Holds(p, steps + [next], extra) && r.value == RecordFor(p, steps + [next])
                && Prepares(p, steps, steps + [next])
                && (steps != [] ==> MB.Extends(Last(steps).manifest.entries, next.manifest.entries))
      ensures old(Holds(p, steps, extra)) && r.Err? ==> Holds(p, steps, kept)
    {
      hide Good, StandingOf, ValidTree, Entries, NextFits, CanPrepare, Runs, AllRun, Records, Directories, ManifestFiles,
           Contracts, Results, Environments, RecordFor, MB.Extends, Loads, Prepares;
      next, kept := FirstStep(p), extra;
      ghost var holds := Holds(p, steps, extra);
      if holds {
        Situation(p, steps, extra);
      }
      var n := |iterations|;
      if state != SessionActive {
        return Err(Inactive), next, kept;
      }
      if n > 0 && !iterations[n - 1].completed {
        return Err(StillPrepared), next, kept;
      }
      if n >= budget {
        return Err(BudgetSpent), next, kept;
      }
      var chosen := NextEnvironment(now, stamp, p, steps, extra);
      if chosen.Err? {
        kept := snapshots.Keys;
        if holds {
          MoreSnapshots(p, steps, extra, kept);
        }
        return Err(chosen.error), next, kept;
      }
      var (env, manifest) := chosen.value;
      next := StepAfter(p, steps, env, manifest, now);
      if holds {
        NextUnpacks(p, steps, env, manifest);
        PreparesNext(p, steps, env, manifest, now);
      }
      r := Commit(env, manifest, if n == 0 then None else Some(iterations[n - 1].snapshot), p, steps, extra, now);
    }

    /** _decide_stop_reason. */
    method DecideStopReason(index: nat, observation: Observation) returns (r: Result<Option<StopReason>, SessionError>)
      requires index <= |iterations|
      ensures PriorLoads(Contents(), index) ==>
                r == Ok(Decide(Prior(Contents(), index), observation, index, budget))
      ensures if observation.goalReached then r == Ok(Some(GoalStop)) else r.Ok? <==> PriorLoads(Contents(), index)
    {
      if observation.goalReached {
        return Ok(Some(GoalStop));
      }
      var prior: seq<Fingerprint> := [];
      for k := 0 to index
        invariant forall j | 0 <= j < k && iterations[j].evidence :: j in directories && directories[j].observation.Some?
        invariant PriorLoads(Contents(), k) && prior == Prior(Contents(), k)
      {
        if iterations[k].evidence {
          if k !in directories || directories[k].observation.None? {
            return Err(NoObservation);
          }
          prior := prior + [directories[k].observation.value.fingerprint];
        }
      }
      if prior != [] && observation.fingerprint == prior[|prior| - 1] {
        return Ok(Some(FixedPoint));
      }
      if prior != [] && observation.fingerprint in prior[..|prior| - 1] {
        return Ok(Some(CycleDetected));
      }
      if observation.metrics.automaticCandidates == 0 {
        return Ok(Some(NoAutomaticRepairs));
      }
      r := Ok(if index + 1 >= budget then Some(BudgetExhausted) else None);
    }

    /** What complete_iteration checks before it writes anything: the contract, and the observation made of the artifacts. */
    method ObserveRun(index: int, artifacts: Option<Artifacts>, goalReached: bool, goalReason: Option<string>, claimReady: bool,
                      ghost p: Params, ghost steps: seq<Step>, ghost extra: set<Env>)
      returns (r: Result<(Contract, Observation), SessionError>)
      ensures Holds(p, steps, extra) ==> (r.Ok? <==> CanComplete(steps, index, artifacts, claimReady))
      ensures r.Ok? ==> 0 <= index == |iterations| - 1 && artifacts.Some? && index in directories
      ensures r.Ok? && Holds(p, steps, extra) ==> r.value.0 == Last(steps).contract
      ensures r.Ok? ==> PlanLoads(artifacts.value.plan) && PlanMatches(artifacts.value)
                        && r.value.1 == Observe(artifacts.value, iterations[index].snapshot, goalReached, goalReason).value
    {
      hide Good, StandingOf, Runs, AllRun, Records, Directories, ManifestFiles, Contracts, Results, Environments,
           PlanLoads, BuildMetrics;
      ghost var holds := Holds(p, steps, extra);
      if holds {
        Situation(p, steps, extra);
        if steps != [] && Last(steps).run.None? {
          PreparedOnDisk(p, steps, extra);
        }
      }
      if state != SessionActive {
        return Err(Inactive);
      }
      if index < 0 || index >= |iterations| {
        return Err(BadIndex);
      }
      var record := iterations[index];
      if record.completed {
        return Err(NotPrepared);
      }
      if index != |iterations| - 1 {
        return Err(NotLatest);
      }
      if record.attempt !in attempts.contracts {
        return Err(AttemptStoreError(NoContract));
      }
      var contract := attempts.contracts[record.attempt];
      if !Binds(sample, packed, goal, record, contract) {
        return Err(NotBound);
      }
      if !claimReady {
        return Err(ClaimNotReady);
      }
      if artifacts.None? || index !in directories {
        return Err(BadArtifacts);
      }
      if directories[index].artifacts.Some? {
        return Err(ArtifactsExist);
      }
      if !PlanLoads(artifacts.value.plan) {
        return Err(BadArtifacts);
      }
      var observed := Observe(artifacts.value, record.snapshot, goalReached, goalReason);
      if observed.None? {
        return Err(BadArtifacts);
      }
      if index > 0 && (!iterations[index - 1].evidence || index - 1 !in directories
        || directories[index - 1].observation.None?) {
        return Err(NoObservation);
      }
      r := Ok((contract, observed.value));
    }

    /** Puts artifacts and observation in the tail's directory and decides whether the oracle has a reason to stop. */
    method SaveObservation(observation: Observation, artifacts: Artifacts) returns (r: Result<Option<StopReason>, SessionError>)
      requires iterations != [] && |iterations| - 1 in directories
      modifies this`directories
      ensures var n := |iterations| - 1;
              directories == old(directories)[n := IterationDir(old(directories)[n].record, Some(artifacts),
                Some(artifacts), Some(observation))]
      ensures old(PriorLoads(Contents(), |iterations| - 1)) ==>
                r == Ok(Decide(old(Prior(Contents(), |iterations| - 1)), observation, |iterations| - 1, budget))
    {
      hide Prior, PriorLoads, Decide;
      ghost var began := Contents();
      var n := |iterations| - 1;
      directories := directories[n := IterationDir(directories[n].record, Some(artifacts), Some(artifacts), Some(observation))];
      PriorFrame(began, Contents(), n);
      r := DecideStopReason(n, observation);
    }

    /** Writes the tail's record and moves the session on. */
    method MoveOn(standing: (SessionState, Option<StopReason>)) returns (completed: Record)
      requires iterations != [] && |iterations| - 1 in directories
      modifies this`state, this`stop, this`iterations, this`directories
      ensures var n := |old(iterations)| - 1;
              && completed == old(iterations)[n].(completed := true, evidence := true, stop := standing.1)
              && iterations == old(iterations)[n := completed]
              && directories == old(directories)[n := old(directories)[n].(record := completed)]
      ensures (state, stop) == standing
    {
      var n := |iterations| - 1;
      completed := iterations[n].(completed := true, evidence := true, stop := standing.1);
      directories := directories[n := directories[n].(record := completed)];
      iterations := iterations[n := completed];
      state, stop := standing.0, standing.1;
    }

    /** Writes artifacts, observation, result and record of the tail, and moves the session on. */
    method FinishRun(contract: Contract, observation: Observation, run: UsableRun,
                     ghost p: Params, ghost steps: seq<Step>, ghost extra: set<Env>)
      returns (r: Result<Record, SessionError>)
      requires iterations != [] && |iterations| - 1 in directories
      requires observation.goalReached ==> observation.goalReason.Some? && observation.goalReason.value != ""
      modifies this`state, this`stop, this`iterations, this`directories, attempts`results
      ensures old(Finishing(p, steps, extra, contract, observation, run)) ==>
                && r.Ok? && Holds(p, WithRun(steps, run), extra) && r.value == RecordFor(p, WithRun(steps, run))
    {
      hide Good, StandingOf, Runs, AllRun, Records, Directories, ManifestFiles, Contracts, Results, Environments,
           RecordFor, Decide, Prior,
           Reloads, PriorLoads, ObservationFor, BuildResult, Resolve, CanSaveResult, RunUsable, WithRun, Fingerprints,
             Binds, LinksTo,
           ValidResult;
      ghost var finishing, began := Finishing(p, steps, extra, contract, observation, run), Contents();
      var result := BuildResult(contract, observation, run.exitCode, run.timedOut);
      if finishing {
        BeforeCompletion(p, steps, extra, result);
      }
      var decided := SaveObservation(observation, run.artifacts);
      if decided.Err? {
        return Err(decided.error);
      }
      var saved := attempts.SaveResult(result);
      if saved.Err? {
        return Err(AttemptStoreError(saved.error));
      }
      var standing := Resolve(result.outcome, decided.value);
      var completed := MoveOn(standing);
      if finishing {
        AfterCompletion(p, steps, extra, run, observation, result, standing);
        assert Contents() == CompletedDisk(began, |steps| - 1, standing, run.artifacts, observation, result);
      }
      r := Ok(completed);
    }

    /** complete_iteration; claimReady says that no execution claim is there, or that it matches and is completing. */
    method CompleteIteration(index: int, artifacts: Option<Artifacts>, goalReached: bool, goalReason: Option<string>,
                             exitCode: Option<int>, timedOut: bool, claimReady: bool,
                             ghost p: Params, ghost steps: seq<Step>, ghost extra: set<Env>)
      returns (r: Result<Record, SessionError>)
      modifies this`state, this`stop, this`iterations, this`directories, attempts`results
      ensures old(Holds(p, steps, extra)) ==> (r.Ok? <==> CanComplete(steps, index, artifacts, claimReady))
      ensures old(Holds(p, steps, extra)) && r.Ok? ==>
                var run := Run(artifacts.value, goalReached, goalReason, exitCode, timedOut);
                RunUsable(run) && Holds(p, WithRun(steps, run), extra) && r.value == RecordFor(p, WithRun(steps, run))
      ensures old(Holds(p, steps, extra)) && r.Err? ==> Holds(p, steps, extra)
    {
      hide Good, StandingOf, Runs, AllRun, Records, Directories, ManifestFiles, Contracts, Results, Environments,
           PlanLoads, PlanMatches,
           BuildMetrics, RecordFor, Observe, CanComplete, ObservationFor, RunUsable, WithRun, Fingerprints;
      var observed := ObserveRun(index, artifacts, goalReached, goalReason, claimReady, p, steps, extra);
      if observed.Err? {
        return Err(observed.error);
      }
      var (contract, observation) := observed.value;
      UsableIs(iterations[index].snapshot, artifacts.value, goalReached, goalReason, exitCode, timedOut);
      if Holds(p, steps, extra) {
        CompletableTail(steps, index, artifacts, claimReady);
        PreparedOnDisk(p, steps, extra);
      }
      r := FinishRun(contract, observation, Run(artifacts.value, goalReached, goalReason, exitCode, timedOut), p, steps, extra);
    }

    // ----- the independent check -----

    method CheckRecord(chain: seq<Manifest>, i: nat) returns (ok: bool)
      requires i < |iterations|
      ensures ok <==> RecordAccepted(Contents(), chain, i)
    {
      hide Reloads, LinksTo;
      var r := iterations[i];
      if r.snapshot !in snapshots || r.version != r.index || r.version >= |chain| {
        return false;
      }
      var m := chain[r.version];
      if ManifestId(m) != r.manifestId || m.snapshot != r.snapshot || m.sample != sample {
        return false;
      }
      if i !in directories || directories[i].record != r {
        return false;
      }
      var verified := attempts.VerifyAttempt(r.attempt, r.completed);
      if verified.Err? {
        return false;
      }
      var (contract, result) := verified.value;
      if !Binds(sample, packed, goal, r, contract) {
        return false;
      }
      if !r.completed {
        return result.None?;
      }
      var dir := directories[i];
      if !r.evidence || dir.observation.None? || dir.artifacts.None? || dir.bundle != dir.artifacts {
        return false;
      }
      var o := dir.observation.value;
      ok := result.value.observation == OfObservation(o) && result.value.goalReached == o.goalReached
            && result.value.oracleReason == o.goalReason && result.value.guestEvents == o.metrics.guestEventsTotal;
    }

    /** _verify_session_terminal_state, with the oracle's reason recomputed. */
    method CheckTail() returns (ok: bool)
      requires iterations != [] && iterations[|iterations| - 1].completed ==>
                 && iterations[|iterations| - 1].attempt in attempts.results
                 && |iterations| - 1 in directories && directories[|iterations| - 1].observation.Some?
      ensures ok <==> TailAccepted(Contents())
    {
      hide Decide, Resolve, Prior;
      var n := |iterations|;
      if n == 0 {
        return state == SessionActive && stop.None?;
      }
      var tail := iterations[n - 1];
      if !tail.completed {
        return state == SessionActive && stop.None? && tail.stop.None? && tail.attempt !in attempts.results;
      }
      var decided := DecideStopReason(n - 1, directories[n - 1].observation.value);
      if decided.Err? {
        return false;
      }
      ok := (state, stop) == Resolve(attempts.results[tail.attempt].outcome, decided.value) && tail.stop == stop;
    }

    /** A session's own stores verify, unless it has more than 10000 iterations or its last goal reason is empty text. */
    lemma {:induction false} HeldVerifies(p: Params, steps: seq<Step>, extra: set<Env>)
      requires Holds(p, steps, extra)
      ensures SessionDisk.Accepts(Contents(), VISIBLE) <==>
                |steps| <= VISIBLE && (steps != [] && Last(steps).run.Some? ==> Reloadable(Last(steps).run.value))
      ensures StrictlyByIndex(AttemptIds(iterations))
    {
      hide *;
      HeldParts(p, steps, extra);
      AcceptedExactly(p, steps, extra, VISIBLE);
      AttemptsListed(p, steps);
    }

    lemma {:induction false} HeldParts(p: Params, steps: seq<Step>, extra: set<Env>)
      requires Holds(p, steps, extra)
      ensures Good(p, steps) && Runs(steps) && Contents() == DiskOf(p, steps, extra) && iterations == Records(p, steps)
      ensures VISIBLE > 0
    {
      hide Good, StandingOf, Records, Directories, ManifestFiles, Contracts, Results, Environments;
    }

    /** verify: what it accepts is accepted whatever lies on disk; the converse asks only that attempt indexes are distinct. */
    method Verify() returns (ok: bool)
      ensures ok ==> SessionDisk.Accepts(Contents(), VISIBLE)
      ensures SessionDisk.Accepts(Contents(), VISIBLE) && StrictlyByIndex(AttemptIds(iterations)) ==> ok
    {
      hide RecordAccepted, TailAccepted, Listing, Chained, Loads, ListsAttempts, StrictlyByIndex;
      ghost var d := Contents();
      if budget < 1 || seedManifest.manifest.version != 0 || seed !in snapshots {
        return false;
      }
      for i := 0 to |iterations|
        invariant forall k | 0 <= k < i :: iterations[k].index == k
      {
        if iterations[i].index != i {
          return false;
        }
      }
      var verified := manifests.VerifyChain(VISIBLE);
      if verified.Err? {
        return false;
      }
      var chain := verified.value;
      if ManifestId(chain[0]) != seedManifest || chain[0].snapshot != seed || chain[0].sample != sample {
        return false;
      }
      var ids := attempts.ListAttemptIds();
      var expected := AttemptIds(iterations);
      ListedOnce(expected, ids, attempts.contracts);
      if ids != expected {
        return false;
      }
      for i := 0 to |iterations|
        invariant forall k | 0 <= k < i :: RecordAccepted(d, chain, k)
      {
        var accepted := CheckRecord(chain, i);
        if !accepted {
          return false;
        }
      }
      if |chain| != (if iterations == [] then 1 else |iterations|) {
        return false;
      }
      if iterations != [] {
        AcceptedTail(d, chain);
      }
      ok := CheckTail();
    }
  }

  lemma {:induction false} RootedEntries(t: Tree)
    requires ValidTree(t)
    ensures RootedEnv(Entries(t))
  {
    var nodes := NodesOf(Entries(t));
    assert t.nodes.Keys == nodes.Keys;
    forall p | p in nodes && p != [] ensures IsDir(nodes, Parent(p)) {
      assert IsDir(t.nodes, Parent(p));
    }
    assert IsDir(t.nodes, []);
  }

  lemma {:induction false} SeedFiles(p: Params)
    ensures ManifestFiles(p, []) == Saved(map[], Seed(p.sample, p.seed), p.seededAt)
    ensures Environments(p, []) == {p.seed}
  {
  }
}
