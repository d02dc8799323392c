/** Environment manifests: their identity, their version chain and the append-only store that holds it. */
module EnvironmentManifest {
  import opened Wrappers
  import opened RepairedEnvironment
  import ProgressOracle

  /** manifest_id, as a function of the manifest that loses nothing. */
  datatype ManifestId = ManifestId(manifest: Manifest)

  /** attempt_id is made from the index, the sample and the manifest; controller attempts are all discovery runs. */
  datatype AttemptId = AttemptId(index: nat, sample: string, manifest: ManifestId)

  datatype Creator = Preflight | ByAttempt(attempt: AttemptId)

  datatype ChangeReason = Seeded | Recorded(repairs: nat, attempt: AttemptId)

  /** snapshot stands for the snapshot id; entries are sorted by resource without repetition, so they are a map. */
  datatype Manifest = Manifest(
    sample: string, version: nat, parentVersion: Option<nat>, parentId: Option<ManifestId>,
    snapshot: Env, entries: map<string, ManifestEntry>, createdBy: Creator, reason: ChangeReason)

  datatype Kind =
    | Directory | RegularFile | Device | NetworkEndpoint | NetworkService | Library | Loader | SyscallModel | Persona

  datatype Scope = RebuildOnly | IterationRuntime | Shared | UnknownScope

  datatype Confidence = Hypothesis | Observed | Validated | RejectedConfidence

  datatype EntryStatus = Active | Unresolved | Removable | Rejected

  datatype EvidenceId = ObservationOf(attempt: AttemptId) | RepairOf(attempt: AttemptId, decision: string)

  datatype EvidenceKind = RuntimeEvent | RepairApplication

  /** The digest of a file: the observation, or a repair report, whose own digest depends on when it was written. */
  datatype FileDigest = OfObservation(observation: ProgressOracle.Observation) | OfApplication(application: nat)

  datatype Evidence = Evidence(kind: EvidenceKind, attempt: AttemptId, artifact: FileDigest)

  /** value_sha256 of a directory. */
  datatype Value = DirectoryValue(resource: string, mode: nat)

  datatype Stage =
    | StaticPreflight | PreOepDiscovery | OepCandidate | OepValidation | PostOepStabilization | BoundaryDiscovery
    | BoundaryReady | Fuzzing | Reconstruction

  datatype ManifestEntry = ManifestEntry(
    kind: Kind, scope: Scope, firstStage: Stage, firstAttempt: AttemptId, consumerPc: Option<string>,
    provider: string, value: Value, evidence: map<EvidenceId, Evidence>, confidence: Confidence, status: EntryStatus)

  predicate ValidEntry(e: ManifestEntry) {
    && e.evidence != map[]
    && !(e.status == Active && e.confidence == RejectedConfidence)
    && (e.status == Rejected ==> e.confidence == RejectedConfidence)
  }

  /** What constructing a manifest checks. */
  predicate WellFormed(m: Manifest) {
    if m.version == 0 then m.parentVersion.None? && m.parentId.None?
    else m.parentVersion == Some(m.version - 1) && m.parentId.Some?
  }

  predicate IsChild(child: Manifest, parent: Manifest) {
    && child.sample == parent.sample
    && child.parentVersion == Some(parent.version)
    && child.parentId == Some(ManifestId(parent))
  }

  // ----- deriving and comparing -----

  function Seed(sample: string, snapshot: Env): Manifest {
    Manifest(sample, 0, None, None, snapshot, map[], Preflight, Seeded)
  }

  function Derive(parent: Manifest, snapshot: Env, entries: map<string, ManifestEntry>, attempt: AttemptId,
      repairs: nat): (m: Manifest)
    ensures WellFormed(m) && IsChild(m, parent)
  {
    Manifest(parent.sample, parent.version + 1, Some(parent.version), Some(ManifestId(parent)), snapshot, entries,
             ByAttempt(attempt), Recorded(repairs, attempt))
  }

  datatype Diff = Diff(added: set<string>, removed: set<string>, changed: set<string>, rootfsChanged: bool)

  function DiffOf(child: Manifest, parent: Manifest): Option<Diff> {
    if child.parentVersion != Some(parent.version) || child.parentId != Some(ManifestId(parent))
       || child.sample != parent.sample then None
    else
      Some(Diff(
        child.entries.Keys - parent.entries.Keys,
        parent.entries.Keys - child.entries.Keys,
        (set r | r in child.entries && r in parent.entries && child.entries[r] != parent.entries[r]),
        child.snapshot != parent.snapshot))
  }

  /** A diff exists for direct children only, and is empty exactly when neither rootfs nor entries changed. */
  lemma {:induction false} DiffIsExact(child: Manifest, parent: Manifest)
    ensures DiffOf(child, parent).Some? <==> IsChild(child, parent)
    ensures IsChild(child, parent) ==>
              var d := DiffOf(child, parent).value;
              && (d == Diff({}, {}, {}, false) <==> child.entries == parent.entries && child.snapshot == parent.snapshot)
              && child.entries.Keys == parent.entries.Keys - d.removed + d.added
              && forall r | r in parent.entries && r !in d.removed + d.changed :: child.entries[r] == parent.entries[r]
  {
    if IsChild(child, parent) {
      var d := DiffOf(child, parent).value;
      if d == Diff({}, {}, {}, false) {
        assert forall r | r in child.entries :: r !in child.entries.Keys - parent.entries.Keys;
        assert forall r | r in parent.entries :: r !in parent.entries.Keys - child.entries.Keys;
        forall r | r in child.entries ensures r in parent.entries && child.entries[r] == parent.entries[r] {
          assert r !in d.changed;
        }
        assert child.entries == parent.entries;
      }
    }
  }

  // ----- the store -----

  datatype ManifestError = NoSuchVersion | Corrupt | Immutable | WrongParent | EmptyStore | Gap

  /** A saved manifest carries its own id and the time it was written, which no id depends on. */
  datatype ManifestFile = ManifestFile(manifest: Manifest, statedId: ManifestId, generatedAt: nat)

  predicate Loads(f: ManifestFile) {
    WellFormed(f.manifest) && f.statedId == ManifestId(f.manifest)
  }

  /** Four digits is what the chain is globbed with. */
  const VISIBLE: nat := 10000

  predicate CanSave(files: map<nat, ManifestFile>, m: Manifest) {
    var v := m.version;
    if v in files then Loads(files[v]) && files[v].manifest == m
    else v == 0 || (v - 1 in files && Loads(files[v - 1]) && IsChild(m, files[v - 1].manifest))
  }

  function Saved(files: map<nat, ManifestFile>, m: Manifest, now: nat): map<nat, ManifestFile> {
    if m.version in files then files else files[m.version := ManifestFile(m, ManifestId(m), now)]
  }

  /** The first n versions are there and nothing else, each the child of the one before. */
  ghost predicate Grown(files: map<nat, ManifestFile>, n: nat) {
    && (forall v: nat :: v in files <==> v < n)
    && (forall v | v in files :: Loads(files[v]) && files[v].manifest.version == v)
    && (forall v | v in files && v > 0 :: v - 1 in files && IsChild(files[v].manifest, files[v - 1].manifest))
  }

  function CountWith(m: Manifest, n: nat): nat {
    if m.version < n then n else n + 1
  }

  /** Saving what can be saved keeps the store gap-free; it changes no version that is there. */
  lemma {:induction false} SavingGrows(files: map<nat, ManifestFile>, n: nat, m: Manifest, now: nat)
    requires Grown(files, n) && WellFormed(m) && CanSave(files, m)
    ensures Grown(Saved(files, m, now), CountWith(m, n))
    ensures m.version <= n
    ensures forall v | v in files :: v in Saved(files, m, now) && Saved(files, m, now)[v] == files[v]
    ensures m.version in Saved(files, m, now) && Saved(files, m, now)[m.version].manifest == m
  {
  }

  predicate Chained(chain: seq<Manifest>) {
    && (forall i | 0 <= i < |chain| :: chain[i].version == i && WellFormed(chain[i]))
    && (forall i | 0 < i < |chain| :: IsChild(chain[i], chain[i - 1]))
  }

  /** Equal ids at one version mean equal manifests at every version up to it. */
  lemma {:induction false} ChainsAgree(a: seq<Manifest>, b: seq<Manifest>, k: nat)
    requires Chained(a) && Chained(b) && k < |a| && k < |b| && ManifestId(a[k]) == ManifestId(b[k])
    ensures a[..k + 1] == b[..k + 1]
  {
    if k > 0 {
      assert IsChild(a[k], a[k - 1]) && IsChild(b[k], b[k - 1]);
      ChainsAgree(a, b, k - 1);
    }
    assert a[..k + 1] == a[..k] + [a[k]] && b[..k + 1] == b[..k] + [b[k]];
  }

  /** The files whose version is below bound, in ascending order. */
  function Listing(files: map<nat, ManifestFile>, bound: nat): seq<ManifestFile> {
    if bound == 0 then []
    else Listing(files, bound - 1) + if bound - 1 in files then [files[bound - 1]] else []
  }

  function ManifestsOf(listing: seq<ManifestFile>): seq<Manifest> {
    seq(|listing|, i requires 0 <= i < |listing| => listing[i].manifest)
  }

  ghost predicate ChainAccepted(files: map<nat, ManifestFile>, bound: nat) {
    var listing := Listing(files, bound);
    && listing != []
    && (forall i | 0 <= i < |listing| :: Loads(listing[i]))
    && Chained(ManifestsOf(listing))
  }

  class ManifestStore {
    var files: map<nat, ManifestFile>

    constructor ()
      ensures files == map[]
    {
      files := map[];
    }

    method Load(version: nat) returns (r: Result<Manifest, ManifestError>)
      ensures r.Ok? <==> version in files && Loads(files[version])
      ensures r.Ok? ==> r.value == files[version].manifest
    {
      if version !in files {
        return Err(NoSuchVersion);
      }
      var f := files[version];
      r := if Loads(f) then Ok(f.manifest) else Err(Corrupt);
    }

    /** save: a version that is there is never rewritten; a new one must be the child of the one before. */
    method Save(m: Manifest, now: nat) returns (r: Result<nat, ManifestError>)
      requires WellFormed(m)
      modifies this
      ensures r.Ok? <==> CanSave(old(files), m)
      ensures files == if r.Ok? then Saved(old(files), m, now) else old(files)
      ensures forall n: nat :: Grown(old(files), n) && r.Ok? ==> Grown(files, CountWith(m, n))
    {
      ghost var before := files;
      var v := m.version;
      if v in files {
        var existing := Load(v);
        if existing.Err? {
          return Err(existing.error);
        }
        if ManifestId(existing.value) != ManifestId(m) {
          return Err(Immutable);
        }
        return Ok(v);
      }
      if v > 0 {
        var parent := Load(v - 1);
        if parent.Err? {
          return Err(parent.error);
        }
        if !IsChild(m, parent.value) {
          return Err(WrongParent);
        }
      }
      files := files[v := ManifestFile(m, ManifestId(m), now)];
      forall n: nat | Grown(before, n) ensures Grown(files, CountWith(m, n)) {
        SavingGrows(before, n, m, now);
      }
      r := Ok(v);
    }

    /** verify_chain: the visible files, in name order, must load, count up from zero and be linked. */
    method VerifyChain(bound: nat) returns (r: Result<seq<Manifest>, ManifestError>)
      ensures r.Ok? <==> ChainAccepted(files, bound)
      ensures r.Ok? ==> r.value == ManifestsOf(Listing(files, bound))
    {
      var listing: seq<ManifestFile> := [];
      for v := 0 to bound
        invariant listing == Listing(files, v)
      {
        if v in files {
          listing := listing + [files[v]];
        }
      }
      if listing == [] {
        return Err(EmptyStore);
      }
      var chain: seq<Manifest> := [];
      for i := 0 to |listing|
        invariant forall j | 0 <= j < i :: Loads(listing[j])
        invariant chain == ManifestsOf(listing[..i])
      {
        if !Loads(listing[i]) {
          return Err(Corrupt);
        }
        chain := chain + [listing[i].manifest];
        assert listing[..i + 1] == listing[..i] + [listing[i]];
      }
      assert listing[..|listing|] == listing;
      for i := 0 to |chain|
        invariant forall j | 0 <= j < i :: chain[j].version == j
      {
        if chain[i].version != i {
          assert !Chained(chain);
          return Err(Gap);
        }
      }
      for i := 1 to |chain|
        invariant forall j | 0 < j < i :: IsChild(chain[j], chain[j - 1])
      {
        if !IsChild(chain[i], chain[i - 1]) {
          assert !Chained(chain);
          return Err(WrongParent);
        }
      }
      assert forall i | 0 <= i < |chain| :: Loads(listing[i]);
      r := Ok(chain);
    }
  }

  lemma {:induction false} ListingGrown(files: map<nat, ManifestFile>, n: nat, bound: nat)
    requires Grown(files, n)
    ensures |Listing(files, bound)| == if bound <= n then bound else n
    ensures forall i | 0 <= i < |Listing(files, bound)| :: i in files && Listing(files, bound)[i] == files[i]
  {
    if bound > 0 {
      ListingGrown(files, n, bound - 1);
    }
  }

  /** A store that was only ever saved into verifies as soon as it holds anything; of more than 10000 versions it
   * sees the first 10000. */
  lemma {:induction false} GrownVerifies(files: map<nat, ManifestFile>, n: nat, bound: nat)
    requires Grown(files, n) && bound > 0
    ensures ChainAccepted(files, bound) <==> n > 0
    ensures var chain := ManifestsOf(Listing(files, bound));
            && |chain| == (if bound <= n then bound else n)
            && forall v | 0 <= v < |chain| :: v in files && chain[v] == files[v].manifest
  {
    ListingGrown(files, n, bound);
    var listing := Listing(files, bound);
    var chain := ManifestsOf(listing);
    forall i | 0 <= i < |chain| ensures chain[i].version == i && WellFormed(chain[i]) {
      assert listing[i] == files[i];
    }
    forall i | 0 < i < |chain| ensures IsChild(chain[i], chain[i - 1]) {
      assert listing[i] == files[i] && listing[i - 1] == files[i - 1];
    }
  }

  // ----- runs of saves -----

  /** One call of save; what cannot be saved changes nothing. */
  function AfterSave(files: map<nat, ManifestFile>, m: Manifest, now: nat): map<nat, ManifestFile> {
    if CanSave(files, m) then Saved(files, m, now) else files
  }

  /** A new store and what each call left of it. */
  ghost predicate SaveRun(states: seq<map<nat, ManifestFile>>, calls: seq<(Manifest, nat)>) {
    && |states| == |calls| + 1 && states[0] == map[]
    && forall i | 0 <= i < |calls| :: WellFormed(calls[i].0) && states[i + 1] == AfterSave(states[i], calls[i].0, calls[i].1)
  }

  lemma {:induction false} SavesGrow(states: seq<map<nat, ManifestFile>>, calls: seq<(Manifest, nat)>, k: nat) returns (n: nat)
    requires SaveRun(states, calls) && k < |states|
    ensures Grown(states[k], n)
  {
    hide Grown, WellFormed, CanSave, Saved;
    if k == 0 {
      NothingGrown();
      return 0;
    }
    n := SavesGrow(states, calls, k - 1);
    var m, now := calls[k - 1].0, calls[k - 1].1;
    if CanSave(states[k - 1], m) {
      SavingGrows(states[k - 1], n, m, now);
      n := CountWith(m, n);
    }
    assert states[k] == AfterSave(states[k - 1], m, now);
  }

  lemma {:induction false} NothingGrown()
    ensures Grown(map[], 0)
  {
  }

  /** Whatever was saved or refused before, the store verifies once it holds anything. */
  lemma {:induction false} SavesVerify(states: seq<map<nat, ManifestFile>>, calls: seq<(Manifest, nat)>, k: nat)
    requires SaveRun(states, calls) && k < |states|
    ensures ChainAccepted(states[k], VISIBLE) <==> states[k] != map[]
  {
    hide ChainAccepted;
    var n := SavesGrow(states, calls, k);
    GrownVerifies(states[k], n, VISIBLE);
    if n > 0 {
      assert 0 in states[k];
    } else {
      assert forall v: nat :: v !in states[k];
    }
  }

  /** No later call changes or removes a version. */
  lemma {:induction false} SavesKeep(states: seq<map<nat, ManifestFile>>, calls: seq<(Manifest, nat)>, j: nat, k: nat, v: nat)
    requires SaveRun(states, calls) && j <= k < |states| && v in states[j]
    ensures v in states[k] && states[k][v] == states[j][v]
  {
    hide WellFormed, CanSave;
    if j < k {
      SavesKeep(states, calls, j, k - 1, v);
      assert states[k] == AfterSave(states[k - 1], calls[k - 1].0, calls[k - 1].1);
    }
  }
}
