/** Deriving the next environment manifest from a repair that was applied. */
module ManifestBuilder {
  import opened Wrappers
  import opened Rootfs
  import opened RepairApplier
  import opened RepairedEnvironment
  import opened EnvironmentManifest
  import opened Attempt
  import PosixPath
  import RT = RepairTransaction
  import ProgressOracle

  /** One result of a repair report. */
  datatype AppliedResult = AppliedResult(
    decisionId: string, requirementId: string, resource: string, action: Action, status: RT.Status)

  /** A repair report; digest is the digest of its file. */
  datatype Application = Application(
    completed: bool, dryRun: bool, plan: seq<Decision>, requirements: seq<ProgressOracle.Requirement>,
    results: seq<AppliedResult>, digest: nat)

  datatype BuilderError =
    | ParentMismatch | WrongContract | NotRepairable | WrongObservation | WrongApplication | BadResult | ConflictingEvidence
    | MissingResults | NothingRepaired | BadIdentifier

  // ----- entries -----

  predicate IdentifierStart(c: char) {
    'A' <= c <= 'Z' || 'a' <= c <= 'z' || '0' <= c <= '9'
  }

  predicate IdentifierChar(c: char) {
    IdentifierStart(c) || c in {'_', '.', ':', '/', '-'}
  }

  predicate IsIdentifier(s: string) {
    1 <= |s| <= 256 && IdentifierStart(s[0]) && forall i | 0 <= i < |s| :: IdentifierChar(s[i])
  }

  function ResourceId(resource: string): string {
    "fs:" + resource
  }

  /** Which resources can be recorded at all. */
  lemma {:induction false} RecordableResources(resource: string)
    ensures IsIdentifier(ResourceId(resource)) <==>
              |resource| <= 253 && forall i | 0 <= i < |resource| :: IdentifierChar(resource[i])
  {
    var s := ResourceId(resource);
    assert forall i | 3 <= i < |s| :: s[i] == resource[i - 3];
    assert forall i | 0 <= i < |resource| :: resource[i] == s[i + 3];
  }

  /** Every component of the resource is a directory of the environment. */
  ghost predicate Observable(env: Env, path: Path) {
    && path != [] && path in env && env[path].DirEntry?
    && forall k | 1 <= k <= |path| :: path[..k] in env && env[path[..k]].DirEntry?
  }

  method ObservedMode(env: Env, path: Path) returns (r: Option<nat>)
    ensures r.Some? <==> Observable(env, path)
    ensures r.Some? ==> r.value == env[path].mode
  {
    r := None;
    for k := 1 to |path| + 1
      invariant forall j | 1 <= j < k :: path[..j] in env && env[path[..j]].DirEntry?
      invariant r == if k == 1 then None else Some(env[path[..k - 1]].mode)
    {
      var current := path[..k];
      if current !in env || !env[current].DirEntry? {
        return None;
      }
      r := Some(env[current].mode);
    }
    assert path[..|path|] == path;
  }

  function NewEvidence(attempt: AttemptId, decision: string, observation: FileDigest, application: nat): map<EvidenceId,
      Evidence> {
    map[ObservationOf(attempt) := Evidence(RuntimeEvent, attempt, observation),
        RepairOf(attempt, decision) := Evidence(EvidenceKind.RepairApplication, attempt, OfApplication(application))]
  }

  function DirectoryEntry(contract: Contract, d: Decision, mode: nat, observation: FileDigest,
      application: nat): (e: ManifestEntry)
    ensures ValidEntry(e)
  {
    assert ObservationOf(contract.id) in NewEvidence(contract.id, d.id, observation, application);
    ManifestEntry(EnvironmentManifest.Directory, UnknownScope, contract.initialStage, contract.id, None, "static_directory",
                  DirectoryValue(d.resource, mode), NewEvidence(contract.id, d.id, observation, application),
                  Observed, Active)
  }

  predicate Compatible(a: map<EvidenceId, Evidence>, b: map<EvidenceId, Evidence>) {
    forall id | id in a && id in b :: a[id] == b[id]
  }

  predicate Mergeable(entries: map<string, ManifestEntry>, resource: string, e: ManifestEntry) {
    resource in entries ==> Compatible(entries[resource].evidence, e.evidence)
  }

  /** What an entry becomes when it is recorded again: where and when it was first seen is kept, evidence is added. */
  function Merged(existing: ManifestEntry, e: ManifestEntry): ManifestEntry {
    var same := existing.kind == e.kind && existing.provider == e.provider && existing.value == e.value;
    e.(firstStage := existing.firstStage, firstAttempt := existing.firstAttempt, consumerPc := existing.consumerPc,
       scope := existing.scope, evidence := existing.evidence + e.evidence,
       confidence := if same then existing.confidence else e.confidence,
       status := if same then existing.status else e.status)
  }

  function MergeEntry(entries: map<string, ManifestEntry>, resource: string, e: ManifestEntry): map<string, ManifestEntry> {
    entries[resource := if resource in entries then Merged(entries[resource], e) else e]
  }

  /** How far later entries may differ from earlier ones. */
  ghost predicate Extends(before: map<string, ManifestEntry>, after: map<string, ManifestEntry>) {
    forall r | r in before ::
      && r in after
      && after[r].firstStage == before[r].firstStage && after[r].firstAttempt == before[r].firstAttempt
      && after[r].scope == before[r].scope && after[r].consumerPc == before[r].consumerPc
      && (forall id | id in before[r].evidence :: id in after[r].evidence && after[r].evidence[id] == before[r].evidence[id])
  }

  ghost predicate AllValid(entries: map<string, ManifestEntry>) {
    forall r | r in entries :: ValidEntry(entries[r])
  }

  /** Recording forgets nothing: no resource, no first sighting, no evidence; and entries stay valid. */
  lemma {:induction false} MergeExtends(entries: map<string, ManifestEntry>, resource: string, e: ManifestEntry)
    requires AllValid(entries) && ValidEntry(e) && Mergeable(entries, resource, e)
    ensures Extends(entries, MergeEntry(entries, resource, e)) && AllValid(MergeEntry(entries, resource, e))
    ensures MergeEntry(entries, resource, e)[resource].value == e.value
    ensures resource in entries && entries[resource].kind == e.kind && entries[resource].provider == e.provider
            && entries[resource].value == e.value ==>
              MergeEntry(entries, resource, e)[resource].confidence == entries[resource].confidence
              && MergeEntry(entries, resource, e)[resource].status == entries[resource].status
    ensures forall id | id in e.evidence ::
              id in MergeEntry(entries, resource, e)[resource].evidence
              && MergeEntry(entries, resource, e)[resource].evidence[id] == e.evidence[id]
  {
    if resource in entries {
      var id :| id in e.evidence;
      assert id in Merged(entries[resource], e).evidence;
    }
  }

  // ----- the loop over the report's results -----

  datatype Progress = Progress(entries: map<string, ManifestEntry>, selected: nat, seen: set<string>)

  function Lookup(plan: seq<Decision>, id: string): Option<Decision> {
    if plan == [] then None
    else if plan[|plan| - 1].id == id then Some(plan[|plan| - 1])
    else Lookup(plan[..|plan| - 1], id)
  }

  /** The source evidence of a derivation, in one place. */
  datatype Sources = Sources(env: Env, contract: Contract, plan: seq<Decision>, observation: FileDigest, application: nat)

  predicate Reported(r: AppliedResult, d: Decision) {
    && r.resource == d.resource && r.action == d.action && r.requirementId == d.requirementId
    && (if d.automatic then d.disposition == AutoCandidate && r.status in {RT.Applied, RT.AlreadySatisfied}
        else r.status == RT.Unselected)
  }

  /** A selected directory repair that can be recorded: where it lies, and the entry it becomes. */
  ghost predicate Recordable(s: Sources, d: Decision) {
    && d.action == CreateDirectory && d.parents && ParseMode(d.mode).Ok?
    && GuestShape(d.resource).Some? && Observable(s.env, GuestShape(d.resource).value)
    && IsIdentifier(ResourceId(d.resource))
  }

  /** The path check made when the repaired directory is observed. */
  function GuestShape(resource: string): Option<Path> {
    if resource == "" || resource[0] != '/' || resource == "/" || ".." in PosixPath.Components(resource)
       || PosixPath.AsPosix(resource) != StripSlashes(resource) then None
    else Some(PosixPath.Components(resource))
  }

  ghost function EntryFor(s: Sources, d: Decision): ManifestEntry
    requires Recordable(s, d)
  {
    DirectoryEntry(s.contract, d, s.env[GuestShape(d.resource).value].mode, s.observation, s.application)
  }

  ghost predicate CanStep(s: Sources, p: Progress, r: AppliedResult) {
    && r.decisionId !in p.seen
    && Lookup(s.plan, r.decisionId).Some?
    && var d := Lookup(s.plan, r.decisionId).value;
       Reported(r, d)
       && (d.automatic ==> Recordable(s, d) && Mergeable(p.entries, ResourceId(d.resource), EntryFor(s, d)))
  }

  ghost function Step(s: Sources, p: Progress, r: AppliedResult): Progress
    requires CanStep(s, p, r)
  {
    var d := Lookup(s.plan, r.decisionId).value;
    if d.automatic then
      Progress(MergeEntry(p.entries, ResourceId(d.resource), EntryFor(s, d)), p.selected + 1, p.seen + {r.decisionId})
    else p.(seen := p.seen + {r.decisionId})
  }

  ghost function Fold(s: Sources, start: Progress, results: seq<AppliedResult>): Option<Progress> {
    if results == [] then Some(start)
    else
      var n := |results| - 1;
      var before := Fold(s, start, results[..n]);
      if before.None? || !CanStep(s, before.value, results[n]) then None
      else Some(Step(s, before.value, results[n]))
  }

  lemma {:induction false} FoldNever(s: Sources, start: Progress, results: seq<AppliedResult>, n: nat)
    requires n <= |results| && Fold(s, start, results[..n]).None?
    ensures Fold(s, start, results).None?
    decreases |results|
  {
    if n < |results| {
      var m := |results| - 1;
      assert results[..m][..n] == results[..n];
      FoldNever(s, start, results[..m], n);
    } else {
      assert results[..n] == results;
    }
  }

  function DecisionIds(plan: seq<Decision>): set<string> {
    set d | d in plan :: d.id
  }

  /** Every check before the loop. */
  predicate SourcesAgree(
    parent: Manifest, contract: Contract, result: AttemptResult, plan: seq<Decision>,
    observation: ProgressOracle.Observation, application: Application)
  {
    && contract.sample == parent.sample && contract.manifestId == ManifestId(parent)
      && contract.manifestVersion == parent.version
    && result.attempt == contract.id && result.contract == contract && result.outcome == RepairRequired
    && result.observation == OfObservation(observation)
    && observation.artifacts.plan == plan && observation.artifacts.requirements == observation.artifacts.planSource
    && application.completed && !application.dryRun
    && application.plan == plan && application.requirements == observation.artifacts.planSource
  }

  ghost predicate CanDerive(
    parent: Manifest, env: Env, contract: Contract, result: AttemptResult, plan: seq<Decision>,
    observation: ProgressOracle.Observation, application: Application)
  {
    && SourcesAgree(parent, contract, result, plan, observation, application)
    && var s := Sources(env, contract, plan, OfObservation(observation), application.digest);
       var folded := Fold(s, Progress(parent.entries, 0, {}), application.results);
       folded.Some? && folded.value.seen == DecisionIds(plan) && folded.value.selected > 0
  }

  /** One result: checked against its decision, and recorded when the decision was selected. */
  method RecordOne(s: Sources, p: Progress, one: AppliedResult) returns (r: Result<Progress, BuilderError>)
    ensures r.Ok? <==> CanStep(s, p, one)
    ensures r.Ok? ==> r.value == Step(s, p, one)
  {
    if one.decisionId in p.seen {
      return Err(BadResult);
    }
    var found := Lookup(s.plan, one.decisionId);
    if found.None? || !Reported(one, found.value) {
      return Err(BadResult);
    }
    var d := found.value;
    var entries, selected := p.entries, p.selected;
    if d.automatic {
      if d.action != CreateDirectory || !d.parents || ParseMode(d.mode).Err? || GuestShape(d.resource).None? {
        return Err(BadResult);
      }
      var mode := ObservedMode(s.env, GuestShape(d.resource).value);
      if mode.None? {
        return Err(BadResult);
      }
      if !IsIdentifier(ResourceId(d.resource)) {
        return Err(BadIdentifier);
      }
      var e := DirectoryEntry(s.contract, d, mode.value, s.observation, s.application);
      if !Mergeable(entries, ResourceId(d.resource), e) {
        return Err(ConflictingEvidence);
      }
      entries, selected := MergeEntry(entries, ResourceId(d.resource), e), selected + 1;
    }
    r := Ok(Progress(entries, selected, p.seen + {one.decisionId}));
  }

  method RecordResults(s: Sources, start: Progress, results: seq<AppliedResult>) returns (r: Result<Progress, BuilderError>)
    ensures r.Ok? <==> Fold(s, start, results).Some?
    ensures r.Ok? ==> r.value == Fold(s, start, results).value
  {
    var p := start;
    for n := 0 to |results|
      invariant Fold(s, start, results[..n]) == Some(p)
    {
      assert results[..n + 1][..n] == results[..n];
      var one := RecordOne(s, p, results[n]);
      if one.Err? {
        FoldNever(s, start, results, n + 1);
        return Err(one.error);
      }
      p := one.value;
    }
    assert results[..|results|] == results;
    r := Ok(p);
  }

  /** derive_environment_manifest_from_repair; the report's results come in decision order. */
  method DeriveFromRepair(
    parent: Manifest, env: Env, contract: Contract, result: AttemptResult, plan: seq<Decision>,
    observation: ProgressOracle.Observation, application: Application) returns (r: Result<Manifest, BuilderError>)
    ensures r.Ok? <==> CanDerive(parent, env, contract, result, plan, observation, application)
    ensures r.Ok? ==>
              var s := Sources(env, contract, plan, OfObservation(observation), application.digest);
              var folded := Fold(s, Progress(parent.entries, 0, {}), application.results).value;
              r.value == Derive(parent, env, folded.entries, contract.id, folded.selected)
    ensures r.Ok? ==>
              && IsChild(r.value, parent) && r.value.version == parent.version + 1 && r.value.snapshot == env
              && r.value.createdBy == ByAttempt(contract.id)
              && r.value.reason.Recorded? && r.value.reason.attempt == contract.id
  {
    if contract.sample != parent.sample || contract.manifestId != ManifestId(parent)
       || contract.manifestVersion != parent.version {
      return Err(ParentMismatch);
    }
    if result.attempt != contract.id || result.contract != contract {
      return Err(WrongContract);
    }
    if result.outcome != RepairRequired {
      return Err(NotRepairable);
    }
    if result.observation != OfObservation(observation) || observation.artifacts.plan != plan
       || observation.artifacts.requirements != observation.artifacts.planSource {
      return Err(WrongObservation);
    }
    if !application.completed || application.dryRun || application.plan != plan
       || application.requirements != observation.artifacts.planSource {
      return Err(WrongApplication);
    }
    var s := Sources(env, contract, plan, OfObservation(observation), application.digest);
    var recorded := RecordResults(s, Progress(parent.entries, 0, {}), application.results);
    if recorded.Err? {
      return Err(recorded.error);
    }
    var Progress(entries, selected, seen) := recorded.value;
    if seen != DecisionIds(plan) {
      return Err(MissingResults);
    }
    if selected == 0 {
      return Err(NothingRepaired);
    }
    r := Ok(Derive(parent, env, entries, contract.id, selected));
  }

  /** However many results are recorded, nothing the parent manifest knew is lost. */
  lemma {:induction false} FoldExtends(s: Sources, start: Progress, results: seq<AppliedResult>)
    requires AllValid(start.entries) && Fold(s, start, results).Some?
    ensures Extends(start.entries, Fold(s, start, results).value.entries)
    ensures AllValid(Fold(s, start, results).value.entries)
    decreases |results|
  {
    if results != [] {
      var n := |results| - 1;
      FoldExtends(s, start, results[..n]);
      var before := Fold(s, start, results[..n]).value;
      var d := Lookup(s.plan, results[n].decisionId).value;
      if d.automatic {
        MergeExtends(before.entries, ResourceId(d.resource), EntryFor(s, d));
        ExtendsTransitive(start.entries, before.entries, Fold(s, start, results).value.entries);
      }
    }
  }

  lemma {:induction false} ExtendsTransitive(
    a: map<string, ManifestEntry>, b: map<string, ManifestEntry>, c: map<string, ManifestEntry>)
    requires Extends(a, b) && Extends(b, c)
    ensures Extends(a, c)
  {
    forall r | r in a ensures forall id | id in a[r].evidence :: id in c[r].evidence && c[r].evidence[id] == a[r].evidence[id] {
      assert r in b;
    }
  }

  // ----- after a completed repair only an unrecordable resource name can stop a derivation -----

  predicate DistinctIds(plan: seq<Decision>) {
    forall i, j | 0 <= i < j < |plan| :: plan[i].id != plan[j].id
  }

  lemma {:induction false} LookupFinds(plan: seq<Decision>, i: nat)
    requires DistinctIds(plan) && i < |plan|
    ensures Lookup(plan, plan[i].id) == Some(plan[i])
  {
    if i < |plan| - 1 {
      LookupFinds(plan[..|plan| - 1], i);
    }
  }

  function ResultFor(d: Decision, status: RT.Status): AppliedResult {
    AppliedResult(d.id, d.requirementId, d.resource, d.action, status)
  }

  /** order[n] is the decision that result n reports on. */
  ghost predicate Reports(results: seq<AppliedResult>, order: seq<nat>, plan: seq<Decision>, statuses: seq<RT.Status>) {
    && |results| == |order| && |statuses| == |plan|
    && (forall n | 0 <= n < |order| :: order[n] < |plan| && results[n] == ResultFor(plan[order[n]], statuses[order[n]]))
    && (forall m, n | 0 <= m < n < |order| :: order[m] != order[n])
  }

  /** The statuses a completed application gives. */
  ghost predicate Fits(plan: seq<Decision>, statuses: seq<RT.Status>) {
    |statuses| == |plan| && forall i | 0 <= i < |plan| ::
      if plan[i].automatic then statuses[i] in {RT.Applied, RT.AlreadySatisfied} else statuses[i] == RT.Unselected
  }

  /** The directories of every selected decision stand in the environment. */
  ghost predicate Carried(env: Env, plan: seq<Decision>) {
    forall i | 0 <= i < |plan| && plan[i].automatic ::
      Shape(plan[i]).Ok? && Stands(NodesOf(env), RequestOf(plan[i]))
  }

  lemma {:induction false} CarriedRecordable(s: Sources, d: Decision)
    requires d.automatic && Shape(d).Ok? && Stands(NodesOf(s.env), RequestOf(d))
    ensures Recordable(s, d) <==> IsIdentifier(ResourceId(d.resource))
    ensures d.disposition == AutoCandidate
  {
    var path := GuestPath(d.resource).value;
    var q := RequestOf(d);
    NormalNotEmpty(d.resource);
    forall k | 1 <= k <= |path| ensures path[..k] in s.env && s.env[path[..k]].DirEntry? {
      assert Wants(q, path[..k]);
      assert IsDir(NodesOf(s.env), path[..k]);
    }
    assert path[..|path|] == path;
  }

  /** A normalized resource other than the root names something. */
  lemma {:induction false} NormalNotEmpty(resource: string)
    requires GuestPath(resource).Ok?
    ensures GuestPath(resource).value != []
  {
    StripNeverSlash(resource);
    BareRoot(resource);
  }

  lemma {:induction false} BareRoot(resource: string)
    requires resource != "" && resource[0] == '/'
    ensures var text := PosixPath.AsPosix(resource);
            PosixPath.Components(resource) == [] ==> text != "" && text[|text| - 1] == '/'
  {
    if PosixPath.Components(resource) == [] {
      assert PosixPath.Join([]) == "";
      assert PosixPath.AsPosix(resource) == PosixPath.Root(resource);
    }
  }

  lemma {:induction false} StripNeverSlash(s: string)
    ensures StripSlashes(s) == "" || StripSlashes(s)[|StripSlashes(s)| - 1] != '/'
  {
    if s != "" && s[|s| - 1] == '/' {
      StripNeverSlash(s[..|s| - 1]);
    }
  }

  /** Evidence on record is older than this attempt, or this attempt's own from decisions already seen. */
  ghost predicate Fresh(s: Sources, entries: map<string, ManifestEntry>, seen: set<string>) {
    forall r, id | r in entries && id in entries[r].evidence ::
      || id.attempt.index < s.contract.id.index
      || (id == ObservationOf(s.contract.id)
          && entries[r].evidence[id] == Evidence(RuntimeEvent, s.contract.id, s.observation))
      || (id.RepairOf? && id.attempt == s.contract.id && id.decision in seen)
  }

  lemma {:induction false} FreshMerges(s: Sources, p: Progress, d: Decision)
    requires Fresh(s, p.entries, p.seen) && d.id !in p.seen && Recordable(s, d)
    ensures Mergeable(p.entries, ResourceId(d.resource), EntryFor(s, d))
    ensures Fresh(s, MergeEntry(p.entries, ResourceId(d.resource), EntryFor(s, d)), p.seen + {d.id})
  {
    var resource, e := ResourceId(d.resource), EntryFor(s, d);
    var after := MergeEntry(p.entries, resource, e);
    assert e.evidence.Keys == {ObservationOf(s.contract.id), RepairOf(s.contract.id, d.id)};
    forall r, id | r in after && id in after[r].evidence
      ensures
        || id.attempt.index < s.contract.id.index
        || (id == ObservationOf(s.contract.id)
            && after[r].evidence[id] == Evidence(RuntimeEvent, s.contract.id, s.observation))
        || (id.RepairOf? && id.attempt == s.contract.id && id.decision in p.seen + {d.id})
    {
      if r in p.entries && id in p.entries[r].evidence {
        assert id !in e.evidence || r != resource ==> after[r].evidence[id] == p.entries[r].evidence[id];
      }
    }
  }

  ghost predicate AllIdentified(plan: seq<Decision>, order: seq<nat>) {
    forall n | 0 <= n < |order| :: order[n] < |plan|
      && (plan[order[n]].automatic ==> IsIdentifier(ResourceId(plan[order[n]].resource)))
  }

  ghost predicate SomeSelected(plan: seq<Decision>, order: seq<nat>) {
    exists n :: 0 <= n < |order| && order[n] < |plan| && plan[order[n]].automatic
  }

  function IdsOf(plan: seq<Decision>, order: seq<nat>): set<string>
    requires forall n | 0 <= n < |order| :: order[n] < |plan|
  {
    set n | 0 <= n < |order| :: plan[order[n]].id
  }

  lemma {:induction false} FoldAfterRepair(
    s: Sources, start: Progress, results: seq<AppliedResult>, order: seq<nat>, statuses: seq<RT.Status>)
    requires start.selected == 0 && start.seen == {} && Fresh(s, start.entries, {})
    requires DistinctIds(s.plan) && Fits(s.plan, statuses) && Carried(s.env, s.plan)
             && Reports(results, order, s.plan, statuses)
    ensures Fold(s, start, results).Some? <==> AllIdentified(s.plan, order)
    ensures Fold(s, start, results).Some? ==>
              var p := Fold(s, start, results).value;
              && p.seen == IdsOf(s.plan, order) && Fresh(s, p.entries, p.seen)
              && (p.selected > 0 <==> SomeSelected(s.plan, order))
    decreases |results|
  {
    if results != [] {
      var n := |results| - 1;
      FoldAfterRepair(s, start, results[..n], order[..n], statuses);
      var before, d := Fold(s, start, results[..n]), s.plan[order[n]];
      LookupFinds(s.plan, order[n]);
      IdentifiedStep(s.plan, order);
      if before.Some? {
        NotSeen(s.plan, order);
        if d.automatic {
          CarriedRecordable(s, d);
          if IsIdentifier(ResourceId(d.resource)) {
            FreshMerges(s, before.value, d);
          }
        } else {
          FreshGrows(s, before.value.entries, before.value.seen, d.id);
        }
      }
    }
  }

  lemma {:induction false} FreshGrows(s: Sources, entries: map<string, ManifestEntry>, seen: set<string>, id: string)
    requires Fresh(s, entries, seen)
    ensures Fresh(s, entries, seen + {id})
  {
  }

  lemma {:induction false} IdentifiedStep(plan: seq<Decision>, order: seq<nat>)
    requires order != [] && forall n | 0 <= n < |order| :: order[n] < |plan|
    ensures var n := |order| - 1; var d := plan[order[n]];
            && (AllIdentified(plan, order) <==>
                  AllIdentified(plan, order[..n]) && (d.automatic ==> IsIdentifier(ResourceId(d.resource))))
            && (SomeSelected(plan, order) <==> SomeSelected(plan, order[..n]) || d.automatic)
            && IdsOf(plan, order) == IdsOf(plan, order[..n]) + {d.id}
  {
    var n := |order| - 1;
    var init := order[..n];
    assert forall k | 0 <= k < n :: init[k] == order[k];
    if SomeSelected(plan, init) {
      var k :| 0 <= k < n && plan[init[k]].automatic;
      assert plan[order[k]].automatic;
    }
    if SomeSelected(plan, order) {
      var k :| 0 <= k < |order| && plan[order[k]].automatic;
      assert k < n ==> plan[init[k]].automatic;
    }
    forall id ensures id in IdsOf(plan, order) <==> id in IdsOf(plan, init) + {plan[order[n]].id} {
      if id in IdsOf(plan, init) {
        var k :| 0 <= k < n && plan[init[k]].id == id;
        assert plan[order[k]].id == id;
      }
    }
  }

  lemma {:induction false} NotSeen(plan: seq<Decision>, order: seq<nat>)
    requires order != [] && DistinctIds(plan) && forall n | 0 <= n < |order| :: order[n] < |plan|
    requires forall m, n | 0 <= m < n < |order| :: order[m] != order[n]
    ensures plan[order[|order| - 1]].id !in IdsOf(plan, order[..|order| - 1])
  {
    var n := |order| - 1;
    forall k | 0 <= k < n ensures plan[order[..n][k]].id != plan[order[n]].id {
      assert order[..n][k] == order[k] && order[k] != order[n];
      assert order[k] < order[n] || order[n] < order[k];
    }
  }
}
