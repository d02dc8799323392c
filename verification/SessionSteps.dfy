/** How the two controller operations extend a history and its disk. */
module SessionSteps {
  import opened Wrappers
  import opened Rootfs
  import opened RepairApplier
  import opened RepairedEnvironment
  import opened EnvironmentManifest
  import opened Attempt
  import opened ProgressOracle
  import opened IterationSession
  import opened SessionSafety
  import opened SessionDisk
  import RT = RepairTransaction
  import MB = ManifestBuilder

  // ----- starting -----

  lemma {:induction false} GoodFromStart(p: Params)
    requires p.budget >= 1 && RootedEnv(p.seed)
    ensures Good(p, []) && Runs([])
  {
    hide RootedEnv;
  }

  // ----- preparing -----

  /** All resources a plan repairs have names a manifest can hold. */
  predicate Nameable(plan: seq<Decision>) {
    forall i | 0 <= i < |plan| && plan[i].automatic :: MB.IsIdentifier(MB.ResourceId(plan[i].resource))
  }

  /** When the next iteration can be prepared: none yet, or the last one ran, left the session active, and its
   * repair goes through. */
  ghost predicate CanPrepare(p: Params, steps: seq<Step>) {
    steps == []
    || (AllRun(steps) && StandingOf(p, steps) == (SessionActive, None) && Reloadable(Last(steps).run.value)
        && Repairable(Last(steps).env, Requests(PlanOf(Last(steps)))) && Nameable(PlanOf(Last(steps))))
  }

  function FirstStep(p: Params): Step {
    var m := Seed(p.sample, p.seed);
    Step(p.seed, m, ContractFor(p, 0, m), p.seededAt, None)
  }

  function NextStep(p: Params, index: nat, env: Env, m: Manifest, now: nat): Step {
    Step(env, m, ContractFor(p, index, m), now, None)
  }

  lemma {:induction false} FirstIsGood(p: Params)
    requires Good(p, [])
    ensures Good(p, [FirstStep(p)])
  {
    hide RootedEnv;
    var steps := [FirstStep(p)];
    assert Init(steps) == [] && Last(steps) == FirstStep(p);
    assert GoodLast(p, steps);
  }

  /** A step that repairs the last one continues a good history. */
  lemma {:induction false} NextIsGood(p: Params, steps: seq<Step>, env: Env, m: Manifest, now: nat)
    requires Good(p, steps) && steps != [] && AllRun(steps) && StandingOf(p, steps) == (SessionActive, None)
    requires Reloadable(Last(steps).run.value) && RepairsTo(Last(steps).env, PlanOf(Last(steps)), env) && RootedEnv(env)
    requires WellFormed(m) && IsChild(m, Last(steps).manifest) && m.snapshot == env
    requires MB.AllValid(m.entries) && EvidenceOlder(m)
    ensures Good(p, steps + [NextStep(p, |steps|, env, m, now)])
  {
    hide Good, StandingOf, RepairsTo, RootedEnv, MB.AllValid, EvidenceOlder, Reloads, ResultFor, Reloadable, IsChild;
    var next := NextStep(p, |steps|, env, m, now);
    var after := steps + [next];
    assert Init(after) == steps && Last(after) == next;
    ReloadsExactly(Last(steps));
    LastDescribed(p, steps);
    VersionOfChild(m, Last(steps).manifest);
    assert Followed(p, steps, next);
    assert GoodLast(p, after);
    GoodByStep(p, after);
  }

  lemma {:induction false} VersionOfChild(child: Manifest, parent: Manifest)
    requires WellFormed(child) && IsChild(child, parent)
    ensures child.version == parent.version + 1
  {
  }

  /** What preparing adds to the disk. */
  lemma {:induction false} DiskGrows(p: Params, steps: seq<Step>, extra: set<Env>, next: Step)
    requires AllRun(steps) && next.run.None? && (steps == [] ==> next == FirstStep(p))
    ensures Runs(steps) && Runs(steps + [next])
    ensures var after := steps + [next]; var d := DiskOf(p, steps, extra);
            DiskOf(p, after, extra) == d.(
              state := SessionActive, stop := None,
              iterations := d.iterations + [RecordFor(p, after)],
              directories := d.directories[|steps| := IterationDir(RecordFor(p, after), None, None, None)],
              manifests := if steps == [] then d.manifests else d.manifests[|steps| := FileFor(next)],
              contracts := d.contracts[next.contract.id := next.contract],
              snapshots := d.snapshots + {next.env})
  {
    hide RecordFor;
    var after := steps + [next];
    assert Init(after) == steps && Last(after) == next;
    assert DirectoryFor(p, after) == IterationDir(RecordFor(p, after), None, None, None);
    if steps == [] {
      assert ManifestFiles(p, after) == ManifestFiles(p, steps);
    }
  }

  // ----- completing -----

  function WithRun(steps: seq<Step>, run: UsableRun): seq<Step>
    requires steps != []
  {
    Init(steps) + [Last(steps).(run := Some(run))]
  }

  lemma {:induction false} CompletedIsGood(p: Params, steps: seq<Step>, run: UsableRun)
    requires Good(p, steps) && steps != [] && Last(steps).run.None?
    ensures Good(p, WithRun(steps, run))
  {
    hide Good, StandingOf, RepairsTo, RootedEnv, MB.AllValid, EvidenceOlder, Reloads, ResultFor, RunUsable, IsChild;
    var after := WithRun(steps, run);
    assert Init(after) == Init(steps) && Last(after) == Last(steps).(run := Some(run));
    GoodByStep(p, steps);
    assert Continues(p, after);
    assert GoodLast(p, after);
    GoodByStep(p, after);
  }

  /** What completing changes on disk. */
  lemma {:induction false} DiskCompletes(p: Params, steps: seq<Step>, extra: set<Env>, run: UsableRun)
    requires steps != [] && Runs(steps) && Last(steps).run.None?
    ensures Runs(WithRun(steps, run))
    ensures var after := WithRun(steps, run); var d := DiskOf(p, steps, extra); var n := |steps| - 1;
            DiskOf(p, after, extra) == d.(
              state := StandingOf(p, after).0, stop := StandingOf(p, after).1,
              iterations := d.iterations[n := RecordFor(p, after)],
              directories := d.directories[n := DirectoryFor(p, after)],
              results := d.results[Last(steps).contract.id := ResultFor(Last(after))])
  {
    hide RecordFor, DirectoryFor, ResultFor, StandingOf;
    var after := WithRun(steps, run);
    var n := |steps| - 1;
    assert Init(after) == Init(steps) && Last(after) == Last(steps).(run := Some(run));
    assert Records(p, after) == Records(p, steps)[n := RecordFor(p, after)];
    assert Directories(p, after) == Directories(p, steps)[n := DirectoryFor(p, after)];
  }

  // ----- recording the repair -----

  /** A completed application reports each selected decision applied or satisfied, and every other unselected. */
  lemma {:induction false} StatusesFit(nodes: Nodes, plan: seq<Decision>, statuses: seq<RT.Status>)
    requires RepairApplier.Accepts(nodes, Requests(plan)) && |statuses| == |plan|
    requires forall i | 0 <= i < |plan| :: PassesAt(nodes, Requests(plan), i)
                                           && statuses[i] == RT.AppliedStatus(PreparedAt(nodes, Requests(plan), i))
    ensures MB.Fits(plan, statuses)
  {
    hide Virtual, Shape;
    forall i | 0 <= i < |plan|
      ensures if plan[i].automatic then statuses[i] in {RT.Applied, RT.AlreadySatisfied} else statuses[i] == RT.Unselected
    {
      assert Requests(plan)[i] == RequestOf(plan[i]);
      assert PassesAt(nodes, Requests(plan), i);
    }
  }

  lemma {:induction false} RepairCarried(env: Env, plan: seq<Decision>)
    requires RootedEnv(env) && Repairable(env, Requests(plan))
    ensures MB.Carried(Repaired(env, Requests(plan)), plan)
  {
    hide Shape, Repaired, RootedEnv, RepairApplier.Accepts, Stands;
    var next := Repaired(env, Requests(plan));
    RepairedDirectories(env, Requests(plan));
    forall i | 0 <= i < |plan| && plan[i].automatic ensures Shape(plan[i]).Ok? && Stands(NodesOf(next), RequestOf(plan[i])) {
      assert Requests(plan)[i] == RequestOf(plan[i]);
      ShapeIsRight(env, Requests(plan), i);
    }
  }

  /** order names every decision of the plan once. */
  ghost predicate Covers(order: seq<nat>, plan: seq<Decision>) {
    && (forall n | 0 <= n < |order| :: order[n] < |plan|)
    && (forall i | 0 <= i < |plan| :: i in order)
  }

  lemma {:induction false} CoveredIds(order: seq<nat>, plan: seq<Decision>)
    requires Covers(order, plan)
    ensures MB.IdsOf(plan, order) == MB.DecisionIds(plan)
    ensures MB.AllIdentified(plan, order) <==> Nameable(plan)
    ensures (exists k :: 0 <= k < |plan| && plan[k].automatic) ==> MB.SomeSelected(plan, order)
  {
    hide MB.IsIdentifier;
    forall id ensures id in MB.IdsOf(plan, order) <==> id in MB.DecisionIds(plan) {
      if id in MB.DecisionIds(plan) {
        var d :| d in plan && d.id == id;
        var i :| 0 <= i < |plan| && plan[i] == d;
        assert i in order;
        var n :| 0 <= n < |order| && order[n] == i;
        assert plan[order[n]].id == id;
      }
    }
    if MB.AllIdentified(plan, order) {
      forall i | 0 <= i < |plan| && plan[i].automatic ensures MB.IsIdentifier(MB.ResourceId(plan[i].resource)) {
        assert i in order;
        var n :| 0 <= n < |order| && order[n] == i;
      }
    }
    if exists k :: 0 <= k < |plan| && plan[k].automatic {
      var k :| 0 <= k < |plan| && plan[k].automatic;
      assert k in order;
      var n :| 0 <= n < |order| && order[n] == k;
      assert plan[order[n]].automatic;
    }
  }

  function SourcesOf(last: Step, env: Env, stamp: nat): MB.Sources
    requires last.run.Some?
  {
    MB.Sources(env, last.contract, PlanOf(last), OfObservation(ObservationFor(last.env, last.run.value)), stamp)
  }

  function ApplicationOf(last: Step, results: seq<MB.AppliedResult>, stamp: nat): MB.Application
    requires last.run.Some?
  {
    MB.Application(true, false, PlanOf(last), last.run.value.artifacts.planSource, results, stamp)
  }

  /** The evidence in a good history's last manifest is older than the attempt made from it. */
  lemma {:induction false} FreshStart(p: Params, steps: seq<Step>, env: Env, stamp: nat)
    requires Good(p, steps) && steps != [] && AllRun(steps)
    ensures MB.Fresh(SourcesOf(Last(steps), env, stamp), Last(steps).manifest.entries, {})
    ensures MB.AllValid(Last(steps).manifest.entries)
    ensures Last(steps).contract.id.index == Last(steps).manifest.version == |steps| - 1
  {
    hide RootedEnv, Followed, MB.AllValid, ObservationFor;
    GoodByStep(p, steps);
  }

  lemma {:induction false} OlderThanNext(s: MB.Sources, entries: map<string, ManifestEntry>, seen: set<string>, m: Manifest)
    requires MB.Fresh(s, entries, seen) && m.entries == entries && m.version == s.contract.id.index + 1
    ensures EvidenceOlder(m)
  {
  }

  /** The folded entries a derivation starts from the parent's. */
  ghost function Folded(last: Step, env: Env, results: seq<MB.AppliedResult>, stamp: nat): Option<MB.Progress>
    requires last.run.Some?
  {
    MB.Fold(SourcesOf(last, env, stamp), MB.Progress(last.manifest.entries, 0, {}), results)
  }

  /** After a completed repair the next manifest can be derived exactly when the plan's resources can be named. */
  lemma {:induction false} DeriveSucceeds(
    p: Params, steps: seq<Step>, env: Env, statuses: seq<RT.Status>, results: seq<MB.AppliedResult>, order: seq<nat>,
    stamp: nat)
    requires Good(p, steps) && steps != [] && AllRun(steps) && StandingOf(p, steps) == (SessionActive, None)
    requires RepairsTo(Last(steps).env, PlanOf(Last(steps)), env)
    requires MB.Fits(PlanOf(Last(steps)), statuses) && MB.Reports(results, order, PlanOf(Last(steps)), statuses)
    requires Covers(order, PlanOf(Last(steps)))
    ensures var last := Last(steps);
            MB.CanDerive(last.manifest, env, last.contract, ResultFor(last), PlanOf(last),
              ObservationFor(last.env, last.run.value),
                         ApplicationOf(last, results, stamp))
            <==> Nameable(PlanOf(last))
    ensures var last := Last(steps); var folded := Folded(last, env, results, stamp);
            Nameable(PlanOf(last)) ==>
              && folded.Some? && MB.Extends(last.manifest.entries, folded.value.entries) && MB.AllValid(folded.value.entries)
              && EvidenceOlder(Derive(last.manifest, env, folded.value.entries, last.contract.id, folded.value.selected))
  {
    hide Good, StandingOf, Repairable, Repaired, RootedEnv, MB.Fits, MB.Reports, Covers, MB.Carried, MB.Fresh,
         MB.AllValid, MB.Extends,
         Nameable, MB.AllIdentified, MB.SomeSelected, MB.DistinctIds, ResultFor, ObservationFor, EvidenceOlder, MB.Fold,
         FingerprintFor, MB.IdsOf, MB.DecisionIds;
    var last := Last(steps);
    var s, start := SourcesOf(last, env, stamp), MB.Progress(last.manifest.entries, 0, {});
    LastRooted(p, steps);
    RepairCarried(last.env, PlanOf(last));
    FreshStart(p, steps, env, stamp);
    UsablePlan(last.run.value);
    MB.FoldAfterRepair(s, start, results, order, statuses);
    CoveredIds(order, PlanOf(last));
    ActiveTail(p, steps);
    SourcesFit(p, steps, results, stamp);
    var folded := Folded(last, env, results, stamp);
    if folded.Some? {
      MB.FoldExtends(s, start, results);
      OlderThanNext(s, folded.value.entries, folded.value.seen,
                    Derive(last.manifest, env, folded.value.entries, last.contract.id, folded.value.selected));
    }
  }

  lemma {:induction false} UsablePlan(run: UsableRun)
    ensures MB.DistinctIds(run.artifacts.plan) && PlanMatches(run.artifacts)
  {
  }

  lemma {:induction false} SourcesFit(p: Params, steps: seq<Step>, results: seq<MB.AppliedResult>, stamp: nat)
    requires Good(p, steps) && steps != [] && AllRun(steps) && ResultFor(Last(steps)).outcome == RepairRequired
    ensures var last := Last(steps);
            MB.SourcesAgree(last.manifest, last.contract, ResultFor(last), PlanOf(last),
              ObservationFor(last.env, last.run.value),
                            ApplicationOf(last, results, stamp))
  {
    hide Good, ResultFor, ObservationFor, RunUsable;
    var last := Last(steps);
    LastDescribed(p, steps);
    SampleKept(p, steps, |steps| - 1);
    ResultAgrees(last);
    UsablePlan(last.run.value);
  }

  // ----- what preparing computes -----

  /** A repair report: how each decision went, and the results in the order they are recorded in. */
  datatype Recording = Recording(statuses: seq<RT.Status>, results: seq<MB.AppliedResult>, order: seq<nat>, stamp: nat)

  /** m is what the derivation makes of this report of a completed application. */
  ghost predicate RecordedAs(last: Step, env: Env, m: Manifest, report: Recording)
    requires last.run.Some?
  {
    && MB.Fits(PlanOf(last), report.statuses) && MB.Reports(report.results, report.order, PlanOf(last), report.statuses)
    && Covers(report.order, PlanOf(last))
    && MB.CanDerive(last.manifest, env, last.contract, ResultFor(last), PlanOf(last),
                    ObservationFor(last.env, last.run.value), ApplicationOf(last, report.results, report.stamp))
    && var folded := Folded(last, env, report.results, report.stamp);
       folded.Some? && m == Derive(last.manifest, env, folded.value.entries, last.contract.id, folded.value.selected)
  }

  ghost predicate FromRepair(last: Step, env: Env, m: Manifest)
    requires last.run.Some?
  {
    exists report :: RecordedAs(last, env, m, report)
  }

  /** What the next environment and manifest must be for the history to go on. */
  ghost predicate NextFits(p: Params, steps: seq<Step>, env: Env, m: Manifest) {
    && steps != [] && Last(steps).run.Some? && Reloadable(Last(steps).run.value)
    && RepairsTo(Last(steps).env, PlanOf(Last(steps)), env) && RootedEnv(env)
    && WellFormed(m) && IsChild(m, Last(steps).manifest) && m.snapshot == env
    && MB.AllValid(m.entries) && EvidenceOlder(m)
    && MB.Extends(Last(steps).manifest.entries, m.entries) && FromRepair(Last(steps), env, m)
  }

  /** Recording the tail's repair succeeds exactly when its resources can be named, and then the history can go on. */
  lemma {:induction false} RepairRecorded(
    p: Params, steps: seq<Step>, env: Env, statuses: seq<RT.Status>, results: seq<MB.AppliedResult>, order: seq<nat>,
    stamp: nat)
    requires Good(p, steps) && steps != [] && AllRun(steps) && StandingOf(p, steps) == (SessionActive, None)
    requires Reloadable(Last(steps).run.value)
    requires Repairable(Last(steps).env, Requests(PlanOf(Last(steps))))
             && env == Repaired(Last(steps).env, Requests(PlanOf(Last(steps))))
    requires MB.Fits(PlanOf(Last(steps)), statuses) && MB.Reports(results, order, PlanOf(Last(steps)), statuses)
    requires Covers(order, PlanOf(Last(steps)))
    ensures var last := Last(steps);
            MB.CanDerive(last.manifest, env, last.contract, ResultFor(last), PlanOf(last),
              ObservationFor(last.env, last.run.value),
                         ApplicationOf(last, results, stamp))
            <==> Nameable(PlanOf(last))
    ensures var last := Last(steps); var folded := Folded(last, env, results, stamp);
            Nameable(PlanOf(last)) ==>
              folded.Some?
              && NextFits(p, steps, env, Derive(last.manifest, env, folded.value.entries, last.contract.id,
                folded.value.selected))
  {
    hide Good, StandingOf, Repairable, Repaired, RootedEnv, MB.Fits, MB.Reports, Covers, Nameable, ResultFor, ObservationFor,
         EvidenceOlder, MB.CanDerive, MB.AllValid, MB.Extends, Folded, Reloadable, WellFormed, IsChild;
    var last := Last(steps);
    DeriveSucceeds(p, steps, env, statuses, results, order, stamp);
    var folded := Folded(last, env, results, stamp);
    if Nameable(PlanOf(last)) {
      var m := Derive(last.manifest, env, folded.value.entries, last.contract.id, folded.value.selected);
      assert RecordedAs(last, env, m, Recording(statuses, results, order, stamp));
    }
    LastRooted(p, steps);
    NamedRequests(PlanOf(last));
    RepairKeepsRooted(last.env, Requests(PlanOf(last)));
  }

  // ----- whole runs -----

  /** prepare_next, as a change of the history: the seed's step, or a clone repaired and recorded by the tail's plan. */
  ghost predicate Prepares(p: Params, a: seq<Step>, b: seq<Step>) {
    && CanPrepare(p, a) && b != [] && Init(b) == a
    && if a == [] then Last(b) == FirstStep(p)
       else
         && Last(a).run.Some? && RepairsTo(Last(a).env, PlanOf(Last(a)), Last(b).env)
         && FromRepair(Last(a), Last(b).env, Last(b).manifest)
         && Last(b) == NextStep(p, |a|, Last(b).env, Last(b).manifest, Last(b).savedAt)
  }

  /** complete_iteration, as a change of the history: the prepared tail gets a run. */
  ghost predicate Completes(a: seq<Step>, b: seq<Step>) {
    a != [] && Last(a).run.None? && b != [] && Last(b).run.Some? && b == WithRun(a, Last(b).run.value)
  }

  /** One call of the controller; a call that is refused changes nothing. */
  ghost predicate Moves(p: Params, a: seq<Step>, b: seq<Step>) {
    a == b || Prepares(p, a, b) || Completes(a, b)
  }

  lemma {:induction false} PreparedIsGood(p: Params, a: seq<Step>, b: seq<Step>)
    requires Good(p, a) && Prepares(p, a, b)
    ensures Good(p, b)
  {
    hide Good, StandingOf, Repairable, Repaired, RootedEnv, RecordedAs, Nameable, Reloadable, WellFormed, IsChild;
    assert b == a + [Last(b)];
    if a == [] {
      FirstIsGood(p);
    } else {
      var env, m := Last(b).env, Last(b).manifest;
      var report :| RecordedAs(Last(a), env, m, report);
      RecordedFits(p, a, env, m, report);
      NextIsGood(p, a, env, m, Last(b).savedAt);
    }
  }

  lemma {:induction false} RecordedFits(p: Params, steps: seq<Step>, env: Env, m: Manifest, report: Recording)
    requires Good(p, steps) && steps != [] && AllRun(steps) && StandingOf(p, steps) == (SessionActive, None)
    requires Reloadable(Last(steps).run.value) && RepairsTo(Last(steps).env, PlanOf(Last(steps)), env)
    requires RecordedAs(Last(steps), env, m, report)
    ensures NextFits(p, steps, env, m)
  {
    hide Good, StandingOf, Repairable, Repaired, MB.Fits, MB.Reports, Covers, MB.CanDerive, Folded, Nameable, Reloadable,
         NextFits, ResultFor, ObservationFor;
    RepairRecorded(p, steps, env, report.statuses, report.results, report.order, report.stamp);
  }

  /** Whatever the controller was asked to do, a session is a good history and stays within its budget. */
  lemma {:induction false} EveryRun(p: Params, run: seq<seq<Step>>, k: nat)
    requires p.budget >= 1 && RootedEnv(p.seed) && k < |run| && run[0] == []
    requires forall i | 0 < i < |run| :: Moves(p, run[i - 1], run[i])
    ensures Good(p, run[k]) && |run[k]| <= p.budget
  {
    hide RootedEnv, Prepares, Good;
    if k == 0 {
      GoodFromStart(p);
    } else {
      EveryRun(p, run, k - 1);
      var a, b := run[k - 1], run[k];
      assert Moves(p, a, b);
      if Prepares(p, a, b) {
        PreparedIsGood(p, a, b);
      } else if a != b {
        CompletedIsGood(p, a, Last(b).run.value);
      }
    }
    WithinBudget(p, run[k]);
  }

  /** A session that has ended stays as it is. */
  lemma {:induction false} EndedStays(p: Params, a: seq<Step>, b: seq<Step>)
    requires Runs(a) && StandingOf(p, a).0 != SessionActive && Moves(p, a, b)
    ensures a == b
  {
    hide Repairable, Nameable, Reloadable, FromRepair, Decide, Resolve;
  }
}
