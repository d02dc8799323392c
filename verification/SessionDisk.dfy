/** What a session has on disk, what a history leaves there, and what the independent check accepts. */
module SessionDisk {
  import opened Wrappers
  import opened RepairedEnvironment
  import opened EnvironmentManifest
  import opened Attempt
  import opened ProgressOracle
  import opened IterationSession
  import opened SessionSafety

  /** An iteration record; evidence says that it names an observation, an artifact manifest and a result. */
  datatype Record = Record(
    index: nat, completed: bool, snapshot: Env, parent: Option<Env>, manifestId: ManifestId, version: nat,
    attempt: AttemptId, repaired: bool, evidence: bool, stop: Option<StopReason>)

  /** An iteration's directory: its record, its artifacts, the bundle their manifest was made of, its observation. */
  datatype IterationDir = IterationDir(
    record: Record, artifacts: Option<Artifacts>, bundle: Option<Artifacts>, observation: Option<Observation>)

  datatype Disk = Disk(
    sample: string, packed: string, goal: string, budget: nat, seed: Env, seedManifest: ManifestId,
    state: SessionState, stop: Option<StopReason>, iterations: seq<Record>,
    directories: map<nat, IterationDir>, manifests: map<nat, ManifestFile>,
    contracts: map<AttemptId, Contract>, results: map<AttemptId, AttemptResult>, snapshots: set<Env>)

  // ----- what a history leaves on disk -----

  /** Every step but the last has run. */
  ghost predicate Runs(steps: seq<Step>) {
    steps != [] ==> AllRun(Init(steps))
  }

  ghost function RecordFor(p: Params, steps: seq<Step>): Record
    requires steps != [] && Runs(steps)
  {
    var last := Last(steps);
    Record(|steps| - 1, last.run.Some?, last.env, if Init(steps) == [] then None else Some(Last(Init(steps)).env),
           ManifestId(last.manifest), last.manifest.version, last.contract.id, Init(steps) != [], last.run.Some?,
           StandingOf(p, steps).1)
  }

  ghost function DirectoryFor(p: Params, steps: seq<Step>): IterationDir
    requires steps != [] && Runs(steps)
  {
    var last := Last(steps);
    if last.run.None? then IterationDir(RecordFor(p, steps), None, None, None)
    else
      IterationDir(RecordFor(p, steps), Some(last.run.value.artifacts), Some(last.run.value.artifacts),
                Some(ObservationFor(last.env, last.run.value)))
  }

  ghost function Records(p: Params, steps: seq<Step>): (r: seq<Record>)
    requires Runs(steps)
    ensures |r| == |steps|
  {
    if steps == [] then [] else Records(p, Init(steps)) + [RecordFor(p, steps)]
  }

  ghost function Directories(p: Params, steps: seq<Step>): map<nat, IterationDir>
    requires Runs(steps)
  {
    if steps == [] then map[] else Directories(p, Init(steps))[|steps| - 1 := DirectoryFor(p, steps)]
  }

  function FileFor(step: Step): ManifestFile {
    ManifestFile(step.manifest, ManifestId(step.manifest), step.savedAt)
  }

  function ManifestFiles(p: Params, steps: seq<Step>): map<nat, ManifestFile> {
    if steps == [] then map[0 := ManifestFile(Seed(p.sample, p.seed), ManifestId(Seed(p.sample, p.seed)), p.seededAt)]
    else ManifestFiles(p, Init(steps))[|steps| - 1 := FileFor(Last(steps))]
  }

  function Contracts(steps: seq<Step>): map<AttemptId, Contract> {
    if steps == [] then map[] else Contracts(Init(steps))[Last(steps).contract.id := Last(steps).contract]
  }

  function Results(steps: seq<Step>): map<AttemptId, AttemptResult> {
    if steps == [] then map[]
    else if Last(steps).run.None? then Results(Init(steps))
    else Results(Init(steps))[Last(steps).contract.id := ResultFor(Last(steps))]
  }

  function Environments(p: Params, steps: seq<Step>): set<Env> {
    if steps == [] then {p.seed} else Environments(p, Init(steps)) + {Last(steps).env}
  }

  ghost function DiskOf(p: Params, steps: seq<Step>, extra: set<Env>): Disk
    requires Runs(steps)
  {
    Disk(p.sample, p.packed, p.goal, p.budget, p.seed, ManifestId(Seed(p.sample, p.seed)),
         StandingOf(p, steps).0, StandingOf(p, steps).1, Records(p, steps), Directories(p, steps), ManifestFiles(p, steps),
         Contracts(steps), Results(steps), Environments(p, steps) + extra)
  }

  // ----- what verify accepts -----

  predicate Binds(sample: string, packed: string, goal: string, r: Record, c: Contract) {
    && c.id == r.attempt && c.index == r.index && c.sample == sample && c.packed == packed && c.goal == goal
    && c.manifestId == r.manifestId && c.manifestVersion == r.version
  }

  /** The evidence of a completed iteration agrees with its result. */
  predicate EvidenceAccepted(dir: IterationDir, r: Record, result: AttemptResult) {
    && r.evidence && dir.observation.Some?
    && dir.artifacts.Some? && dir.bundle == dir.artifacts
    && result.observation == OfObservation(dir.observation.value)
    && result.goalReached == dir.observation.value.goalReached
    && result.oracleReason == dir.observation.value.goalReason
    && result.guestEvents == dir.observation.value.metrics.guestEventsTotal
  }

  predicate RecordAccepted(d: Disk, chain: seq<Manifest>, i: nat)
    requires i < |d.iterations|
  {
    var r := d.iterations[i];
    && r.snapshot in d.snapshots
    && r.version == r.index && r.version < |chain|
    && ManifestId(chain[r.version]) == r.manifestId
    && chain[r.version].snapshot == r.snapshot && chain[r.version].sample == d.sample
    && i in d.directories && d.directories[i].record == r
    && AttemptVerifies(d.contracts, d.results, r.attempt, r.completed)
    && Binds(d.sample, d.packed, d.goal, r, d.contracts[r.attempt])
    && (!r.completed ==> r.attempt !in d.results)
    && (r.completed ==> EvidenceAccepted(d.directories[i], r, d.results[r.attempt]))
  }

  /** The fingerprints a stop decision looks at: those of the records before index that name an observation. */
  function Prior(d: Disk, index: nat): seq<Fingerprint>
    requires index <= |d.iterations|
    requires forall k | 0 <= k < index && d.iterations[k].evidence :: k in d.directories && d.directories[k].observation.Some?
  {
    if index == 0 then []
    else Prior(d, index - 1) + if d.iterations[index - 1].evidence
      then [d.directories[index - 1].observation.value.fingerprint] else []
  }

  ghost predicate PriorLoads(d: Disk, index: nat)
    requires index <= |d.iterations|
  {
    forall k | 0 <= k < index && d.iterations[k].evidence :: k in d.directories && d.directories[k].observation.Some?
  }

  /** The session's state is the one its tail calls for. */
  ghost predicate TailAccepted(d: Disk) {
    var n := |d.iterations|;
    if n == 0 then d.state == SessionActive && d.stop.None?
    else
      var tail := d.iterations[n - 1];
      if !tail.completed then d.state == SessionActive && d.stop.None? && tail.stop.None? && tail.attempt !in d.results
      else
        && tail.attempt in d.results && n - 1 in d.directories && d.directories[n - 1].observation.Some?
        && var o := d.directories[n - 1].observation.value;
           && (o.goalReached || PriorLoads(d, n - 1))
           && (d.state, d.stop) == Resolve(d.results[tail.attempt].outcome,
                                           if o.goalReached then Some(GoalStop)
                                             else Decide(Prior(d, n - 1), o, n - 1, d.budget))
           && tail.stop == d.stop
  }

  function AttemptIds(records: seq<Record>): (r: seq<AttemptId>)
    ensures |r| == |records|
  {
    seq(|records|, i requires 0 <= i < |records| => records[i].attempt)
  }

  predicate SessionLoads(d: Disk) {
    && d.budget >= 1 && d.seedManifest.manifest.version == 0
    && forall i | 0 <= i < |d.iterations| :: d.iterations[i].index == i
  }

  predicate SeedAccepted(d: Disk, m: Manifest) {
    ManifestId(m) == d.seedManifest && m.snapshot == d.seed && m.sample == d.sample
  }

  function ChainLength(d: Disk): nat {
    if d.iterations == [] then 1 else |d.iterations|
  }

  /** Everything the independent check asks, with the chain read as far as bound. */
  ghost predicate Accepts(d: Disk, bound: nat) {
    && SessionLoads(d)
    && d.seed in d.snapshots
    && ChainAccepted(d.manifests, bound)
    && var chain := ManifestsOf(Listing(d.manifests, bound));
       && SeedAccepted(d, chain[0])
       && ListsAttempts(AttemptIds(d.iterations), d.contracts)
       && (forall i | 0 <= i < |d.iterations| :: RecordAccepted(d, chain, i))
       && |chain| == ChainLength(d)
       && TailAccepted(d)
  }

  // ----- a controller's history lies on disk piece by piece -----

  lemma {:induction false} RecordAt(p: Params, steps: seq<Step>, i: nat)
    requires Runs(steps) && i < |steps|
    ensures Runs(steps[..i + 1]) && Records(p, steps)[i] == RecordFor(p, steps[..i + 1])
    ensures i in Directories(p, steps) && Directories(p, steps)[i] == DirectoryFor(p, steps[..i + 1])
    decreases |steps|
  {
    hide RecordFor, DirectoryFor;
    Take(steps, i + 1);
    if i < |steps| - 1 {
      RecordAt(p, Init(steps), i);
      Take(Init(steps), i + 1);
    }
  }

  lemma {:induction false} FileAt(p: Params, steps: seq<Step>, i: nat)
    requires i < |steps|
    ensures i in ManifestFiles(p, steps) && ManifestFiles(p, steps)[i] == FileFor(steps[i])
    decreases |steps|
  {
    hide FileFor;
    if i < |steps| - 1 {
      FileAt(p, Init(steps), i);
    }
  }

  lemma {:induction false} FileKeys(p: Params, steps: seq<Step>, v: nat)
    ensures v in ManifestFiles(p, steps) <==> v == 0 || v < |steps|
  {
    if steps != [] {
      FileKeys(p, Init(steps), v);
    }
  }

  /** Steps numbered by the index in their attempt ids. */
  ghost predicate Numbered(steps: seq<Step>) {
    forall i | 0 <= i < |steps| :: steps[i].contract.id.index == i
  }

  lemma {:induction false} GoodNumbered(p: Params, steps: seq<Step>)
    requires Good(p, steps)
    ensures Numbered(steps)
  {
    hide Good;
    forall i | 0 <= i < |steps| ensures steps[i].contract.id.index == i {
      ManifestsChained(p, steps, i);
    }
  }

  lemma {:induction false} ContractAt(steps: seq<Step>, i: nat)
    requires Numbered(steps) && i < |steps|
    ensures steps[i].contract.id in Contracts(steps) && Contracts(steps)[steps[i].contract.id] == steps[i].contract
    ensures steps[i].contract.id in Results(steps) <==> steps[i].run.Some?
    ensures steps[i].run.Some? ==> Results(steps)[steps[i].contract.id] == ResultFor(steps[i])
    decreases |steps|
  {
    hide ResultFor;
    if i < |steps| - 1 {
      ContractAt(Init(steps), i);
    } else {
      OnlyThese(Init(steps), steps[i].contract.id);
    }
  }

  /** The attempt store holds the attempts of the history and no other. */
  lemma {:induction false} OnlyThese(steps: seq<Step>, id: AttemptId)
    requires Numbered(steps)
    ensures id in Contracts(steps) ==> id.index < |steps| && steps[id.index].contract.id == id
    ensures id in Results(steps) ==> id in Contracts(steps)
  {
    hide ResultFor;
    if steps != [] {
      OnlyThese(Init(steps), id);
    }
  }

  lemma {:induction false} EnvironmentAt(p: Params, steps: seq<Step>, i: nat)
    requires i < |steps|
    ensures steps[i].env in Environments(p, steps) && p.seed in Environments(p, steps)
    decreases |steps|
  {
    if i < |steps| - 1 {
      EnvironmentAt(p, Init(steps), i);
    } else {
      SeedKept(p, Init(steps));
    }
  }

  lemma {:induction false} SeedKept(p: Params, steps: seq<Step>)
    ensures p.seed in Environments(p, steps)
  {
    if steps != [] {
      SeedKept(p, Init(steps));
    }
  }

  function ChainSize(steps: seq<Step>): nat {
    if steps == [] then 1 else |steps|
  }

  lemma {:induction false} FilesGrown(p: Params, steps: seq<Step>)
    requires Good(p, steps)
    ensures Grown(ManifestFiles(p, steps), ChainSize(steps))
    ensures 0 in ManifestFiles(p, steps) && ManifestFiles(p, steps)[0].manifest == Seed(p.sample, p.seed)
  {
    hide *;
    if steps == [] {
      SeedOnly(p, steps);
    } else {
      var files := ManifestFiles(p, steps);
      forall v: nat ensures v in files <==> v < |steps| {
        FileKeys(p, steps, v);
      }
      forall v: nat | v in files ensures FilePlaced(files, v) {
        PlacedFile(p, steps, v);
      }
      AllPlaced(files, |steps|);
      FirstFile(p, steps);
    }
  }

  lemma {:induction false} SeedOnly(p: Params, steps: seq<Step>)
    requires steps == []
    ensures Grown(ManifestFiles(p, steps), ChainSize(steps))
    ensures 0 in ManifestFiles(p, steps) && ManifestFiles(p, steps)[0].manifest == Seed(p.sample, p.seed)
  {
    assert ManifestFiles(p, steps) == map[0 := ManifestFile(Seed(p.sample, p.seed), ManifestId(Seed(p.sample, p.seed)),
           p.seededAt)];
  }

  lemma {:induction false} FirstFile(p: Params, steps: seq<Step>)
    requires Good(p, steps) && steps != []
    ensures 0 in ManifestFiles(p, steps) && ManifestFiles(p, steps)[0].manifest == Seed(p.sample, p.seed)
    ensures ChainSize(steps) == |steps|
  {
    hide Good, ManifestFiles;
    SeedFirst(p, steps);
    FileAt(p, steps, 0);
  }

  lemma {:induction false} AllPlaced(files: map<nat, ManifestFile>, n: nat)
    requires forall v: nat :: v in files <==> v < n
    requires forall v: nat | v in files :: FilePlaced(files, v)
    ensures Grown(files, n)
  {
    hide Loads, IsChild;
    forall v | v in files && v > 0 ensures v - 1 in files && IsChild(files[v].manifest, files[v - 1].manifest) {
      assert FilePlaced(files, v);
    }
    forall v | v in files ensures Loads(files[v]) && files[v].manifest.version == v {
      assert FilePlaced(files, v);
    }
  }

  /** File v loads, is of version v and follows the file before it. */
  ghost predicate FilePlaced(files: map<nat, ManifestFile>, v: nat)
    requires v in files
  {
    && Loads(files[v]) && files[v].manifest.version == v
    && (v > 0 ==> v - 1 in files && IsChild(files[v].manifest, files[v - 1].manifest))
  }

  lemma {:induction false} PlacedFile(p: Params, steps: seq<Step>, v: nat)
    requires Good(p, steps) && v < |steps|
    ensures v in ManifestFiles(p, steps) && FilePlaced(ManifestFiles(p, steps), v)
  {
    hide Good, StandingOf, RepairsTo, ManifestFiles;
    FileAt(p, steps, v);
    ManifestsChained(p, steps, v);
    if v > 0 {
      FileAt(p, steps, v - 1);
    }
  }

  lemma {:induction false} AttemptsListed(p: Params, steps: seq<Step>)
    requires Good(p, steps) && Runs(steps)
    ensures ListsAttempts(AttemptIds(Records(p, steps)), Contracts(steps))
    ensures StrictlyByIndex(AttemptIds(Records(p, steps)))
  {
    hide Good, RecordFor, StandingOf;
    GoodNumbered(p, steps);
    var ids := AttemptIds(Records(p, steps));
    forall i | 0 <= i < |ids| ensures ids[i] == steps[i].contract.id {
      RecordNames(p, steps, i);
    }
    forall id ensures id in ids <==> id in Contracts(steps) {
      OnlyThese(steps, id);
      if id in ids {
        var i :| 0 <= i < |ids| && ids[i] == id;
        ContractAt(steps, i);
      }
      if id in Contracts(steps) {
        assert ids[id.index] == id;
      }
    }
  }

  lemma {:induction false} RecordNames(p: Params, steps: seq<Step>, i: nat)
    requires Runs(steps) && i < |steps|
    ensures var r := Records(p, steps)[i];
            && r.index == i && r.completed == r.evidence == steps[i].run.Some? && r.snapshot == steps[i].env
            && r.manifestId == ManifestId(steps[i].manifest) && r.version == steps[i].manifest.version
            && r.attempt == steps[i].contract.id
  {
    RecordAt(p, steps, i);
    Take(steps, i + 1);
  }

  /** What a history's records and directories say of its steps. */
  lemma {:induction false} RecordTells(p: Params, steps: seq<Step>, i: nat)
    requires Runs(steps) && i < |steps|
    ensures var r := Records(p, steps)[i];
            && r.index == i && r.snapshot == steps[i].env && r.attempt == steps[i].contract.id
            && r.manifestId == ManifestId(steps[i].manifest) && r.version == steps[i].manifest.version
            && r.parent == (if i == 0 then None else Some(steps[i - 1].env)) && (r.repaired <==> i > 0)
            && (r.completed <==> steps[i].run.Some?) && (r.evidence <==> steps[i].run.Some?)
    ensures Runs(steps[..i + 1]) && Records(p, steps)[i].stop == StandingOf(p, steps[..i + 1]).1
    ensures i in Directories(p, steps) && Directories(p, steps)[i].record == Records(p, steps)[i]
    ensures var dir := Directories(p, steps)[i];
            if steps[i].run.None? then dir.artifacts.None? && dir.bundle.None? && dir.observation.None?
            else
              && dir.artifacts == dir.bundle == Some(steps[i].run.value.artifacts)
              && dir.observation == Some(ObservationFor(steps[i].env, steps[i].run.value))
  {
    hide StandingOf, ObservationFor;
    RecordAt(p, steps, i);
    Take(steps, i + 1);
    if i > 0 {
      assert steps[..i + 1][..i] == steps[..i];
      assert steps[..i][i - 1] == steps[i - 1];
    }
  }

  // ----- the controller and the check agree -----

  /** A run whose reason can be read back. */
  predicate Reloadable(run: Run) {
    run.goalReached || run.goalReason != Some("")
  }

  lemma {:induction false} ReloadsExactly(step: Step)
    requires step.run.Some?
    ensures Reloads(ResultFor(step)) <==> Reloadable(step.run.value)
  {
    hide BuildMetrics;
  }

  lemma {:induction false} ResultAgrees(step: Step)
    requires step.run.Some?
    ensures var o, r := ObservationFor(step.env, step.run.value), ResultFor(step);
            && r.observation == OfObservation(o) && r.goalReached == o.goalReached && r.oracleReason == o.goalReason
            && r.guestEvents == o.metrics.guestEventsTotal && LinksTo(r, step.contract) && ValidResult(r)
  {
    hide Observe, BuildMetrics, RunUsable, OutcomeFor, FirstResource, ErrorCode;
  }

  /** Everything but a result that cannot be read back is accepted about a record. */
  lemma {:induction false} RecordPasses(p: Params, steps: seq<Step>, extra: set<Env>, chain: seq<Manifest>, i: nat)
    requires Good(p, steps) && Runs(steps) && i < |steps| && |chain| > i && chain[i] == steps[i].manifest
    ensures RecordAccepted(DiskOf(p, steps, extra), chain, i) <==> (steps[i].run.Some? ==> Reloadable(steps[i].run.value))
  {
    hide Good, StandingOf, RepairsTo, ResultFor, ObservationFor, RecordFor, Reloads, Records, Directories, Contracts, Results,
         Environments, ManifestFiles;
    var d := DiskOf(p, steps, extra);
    RecordNames(p, steps, i);
    RecordAt(p, steps, i);
    Take(steps, i + 1);
    EnvironmentAt(p, steps, i);
    GoodNumbered(p, steps);
    ContractAt(steps, i);
    ManifestsChained(p, steps, i);
    SampleKept(p, steps, i);
    if steps[i].run.Some? {
      ReloadsExactly(steps[i]);
      ResultAgrees(steps[i]);
    }
  }

  lemma {:induction false} SampleKept(p: Params, steps: seq<Step>, i: nat)
    requires Good(p, steps) && i < |steps|
    ensures steps[i].manifest.sample == p.sample
  {
    hide Good;
    if i == 0 {
      SeedFirst(p, steps);
    } else {
      SampleKept(p, steps, i - 1);
      ManifestsChained(p, steps, i);
    }
  }

  lemma {:induction false} PriorIs(p: Params, steps: seq<Step>, extra: set<Env>, k: nat)
    requires Runs(steps) && k < |steps|
    requires forall i | 0 <= i < |steps| :: DirectoryHas(p, steps, i)
    ensures AllRun(steps[..k]) && PriorLoads(DiskOf(p, steps, extra), k)
    ensures Prior(DiskOf(p, steps, extra), k) == Fingerprints(steps[..k])
  {
    hide StandingOf, ObservationFor, RecordFor, Records, Directories, Contracts, Results, Environments, ManifestFiles,
         FingerprintFor;
    forall i | 0 <= i < k ensures steps[i].run.Some? {
      assert Init(steps)[i] == steps[i];
    }
    assert forall i | 0 <= i < k :: DirectoryHas(p, steps, i);
    if k > 0 {
      PriorIs(p, steps, extra, k - 1);
      assert DirectoryHas(p, steps, k - 1);
      assert steps[..k] == steps[..k - 1] + [steps[k - 1]];
      assert Fingerprints(steps[..k]) == Fingerprints(steps[..k - 1]) + [FingerprintFor(steps[k - 1])];
    }
  }

  /** Directory i holds the observation of run i, if there is one. */
  ghost predicate DirectoryHas(p: Params, steps: seq<Step>, i: nat)
    requires Runs(steps) && i < |steps|
  {
    && i in Directories(p, steps)
    && Records(p, steps)[i].evidence == steps[i].run.Some?
    && (steps[i].run.Some? ==>
          && Directories(p, steps)[i].observation.Some?
          && Directories(p, steps)[i].observation.value == ObservationFor(steps[i].env, steps[i].run.value)
          && Directories(p, steps)[i].observation.value.fingerprint == FingerprintFor(steps[i]))
  }

  lemma {:induction false} DirectoryHolds(p: Params, steps: seq<Step>, i: nat)
    requires Runs(steps) && i < |steps|
    ensures DirectoryHas(p, steps, i)
  {
    hide StandingOf, ObservationFor, RecordFor, Records, Directories;
    RecordNames(p, steps, i);
    RecordAt(p, steps, i);
    Take(steps, i + 1);
  }

  lemma {:induction false} TailPasses(p: Params, steps: seq<Step>, extra: set<Env>)
    requires Good(p, steps) && Runs(steps)
    ensures TailAccepted(DiskOf(p, steps, extra))
  {
    hide Good, RepairsTo, ResultFor, ObservationFor, Records, Directories, Contracts, Results,
         Environments, ManifestFiles, Resolve, FingerprintFor, DirectoryHas;
    if steps != [] {
      var n := |steps| - 1;
      RecordAt(p, steps, n);
      Take(steps, n + 1);
      GoodNumbered(p, steps);
      ContractAt(steps, n);
      forall i | 0 <= i < |steps| ensures DirectoryHas(p, steps, i) {
        DirectoryHolds(p, steps, i);
      }
      PriorIs(p, steps, extra, n);
    }
  }

  /** What the controller writes the check accepts, unless there are more versions than it lists or the last reason is empty. */
  lemma {:induction false} AcceptedExactly(p: Params, steps: seq<Step>, extra: set<Env>, bound: nat)
    requires Good(p, steps) && bound > 0
    ensures Runs(steps)
    ensures Accepts(DiskOf(p, steps, extra), bound) <==>
              |steps| <= bound && (steps != [] && Last(steps).run.Some? ==> Reloadable(Last(steps).run.value))
  {
    hide Good, StandingOf, RecordAccepted, TailAccepted, Records, Directories, Contracts, Results, Environments, ManifestFiles,
         ChainAccepted, ListsAttempts, Grown, Reloadable, Listing;
    if steps != [] {
      InitHasRun(p, steps);
    }
    var d := DiskOf(p, steps, extra);
    var chain := ManifestsOf(Listing(d.manifests, bound));
    FilesGrown(p, steps);
    GrownVerifies(d.manifests, ChainSize(steps), bound);
    AttemptsListed(p, steps);
    SeedKept(p, steps);
    TailPasses(p, steps, extra);
    GoodStart(p, steps);
    forall i | 0 <= i < |steps| ensures Records(p, steps)[i].index == i {
      RecordNames(p, steps, i);
    }
    if |chain| == ChainLength(d) {
      forall i | 0 <= i < |steps|
        ensures RecordAccepted(d, chain, i) <==> (steps[i].run.Some? ==> Reloadable(steps[i].run.value))
        ensures i < |steps| - 1 ==> RecordAccepted(d, chain, i)
      {
        FileAt(p, steps, i);
        RecordPasses(p, steps, extra, chain, i);
        EarlierReloads(p, steps, i);
      }
      if steps != [] {
        assert Last(steps) == steps[|steps| - 1];
      }
    }
  }

  lemma {:induction false} GoodStart(p: Params, steps: seq<Step>)
    requires Good(p, steps)
    ensures p.budget >= 1
  {
  }

  lemma {:induction false} EarlierReloads(p: Params, steps: seq<Step>, i: nat)
    requires Good(p, steps) && i < |steps|
    ensures i < |steps| - 1 ==> steps[i].run.Some? && Reloadable(steps[i].run.value)
  {
    hide Good, StandingOf, RepairsTo, Reloads, ResultFor, Reloadable;
    if i < |steps| - 1 {
      EarlierSteps(p, steps, i);
      Take(steps, i + 1);
      ReloadsExactly(steps[i]);
    }
  }
}
