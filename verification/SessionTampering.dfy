/** What the independent check notices: of an accepted session, which single changes to what lies on disk it refuses. */
module SessionTampering {
  import opened Wrappers
  import opened RepairedEnvironment
  import opened EnvironmentManifest
  import opened Attempt
  import opened ProgressOracle
  import opened IterationSession
  import opened SessionDisk

  /** An accepted session with a gap-free manifest store, of which only the last iteration may be waiting for its run. */
  ghost predicate Held(d: Disk, bound: nat) {
    && Accepts(d, bound) && bound > 0
    && Grown(d.manifests, ChainLength(d))
    && forall k | 0 <= k < |d.iterations| - 1 :: d.iterations[k].completed
  }

  /** What a controller left behind and the check accepts. */
  lemma {:induction false} HistoriesHeld(p: Params, steps: seq<Step>, extra: set<Env>, bound: nat)
    requires Good(p, steps) && Runs(steps) && bound > 0 && |steps| <= bound
    requires steps != [] && Last(steps).run.Some? ==> Reloadable(Last(steps).run.value)
    ensures Held(DiskOf(p, steps, extra), bound)
  {
    hide Good, StandingOf, Accepts, Records, Directories, Contracts, Results, Environments, ManifestFiles, Reloadable, Grown;
    AcceptedExactly(p, steps, extra, bound);
    FilesGrown(p, steps);
    forall k | 0 <= k < |steps| - 1 ensures Records(p, steps)[k].completed {
      RecordNames(p, steps, k);
      assert Init(steps)[k] == steps[k];
    }
  }

  // ----- the chain an accepted session has -----

  ghost function ChainOf(d: Disk, bound: nat): seq<Manifest> {
    ManifestsOf(Listing(d.manifests, bound))
  }

  lemma {:induction false} ChainIs(d: Disk, bound: nat)
    requires Held(d, bound)
    ensures |ChainOf(d, bound)| == ChainLength(d) <= bound
    ensures forall v | 0 <= v < ChainLength(d) :: v in d.manifests && ChainOf(d, bound)[v] == d.manifests[v].manifest
  {
    hide SessionLoads, ChainAccepted, SeedAccepted, ListsAttempts, RecordAccepted, TailAccepted, Listing, ManifestsOf;
    GrownVerifies(d.manifests, ChainLength(d), bound);
  }

  lemma {:induction false} SamePrior(d: Disk, e: Disk, k: nat)
    requires k <= |d.iterations| && k <= |e.iterations|
    requires forall j | 0 <= j < k :: d.iterations[j].evidence && e.iterations[j].evidence
    requires forall j | 0 <= j < k ::
      && j in d.directories && j in e.directories && d.directories[j].observation.Some?
      && e.directories[j].observation == d.directories[j].observation
    ensures PriorLoads(d, k) && PriorLoads(e, k) && Prior(d, k) == Prior(e, k)
  {
    if k > 0 {
      SamePrior(d, e, k - 1);
    }
  }

  lemma {:induction false} EarlierEvidence(d: Disk, bound: nat)
    requires Held(d, bound)
    ensures forall j | 0 <= j < |d.iterations| - 1 ::
      && d.iterations[j].evidence && j in d.directories && d.directories[j].observation.Some?
  {
    hide SessionLoads, ChainAccepted, SeedAccepted, ListsAttempts, TailAccepted, Listing, ManifestsOf, Grown, AttemptVerifies,
         Binds;
    forall j | 0 <= j < |d.iterations| - 1
      ensures d.iterations[j].evidence && j in d.directories && d.directories[j].observation.Some?
    {
      assert RecordAccepted(d, ChainOf(d, bound), j);
    }
  }

  ghost predicate AllRecorded(d: Disk, chain: seq<Manifest>) {
    forall j | 0 <= j < |d.iterations| :: RecordAccepted(d, chain, j)
  }

  /** The tail is accepted as long as records, results and the observations of completed iterations stay. */
  lemma {:induction false} TailSame(d: Disk, bound: nat, e: Disk)
    requires Held(d, bound)
    requires e.iterations == d.iterations && e.results == d.results && e.state == d.state && e.stop == d.stop
             && e.budget == d.budget
    requires forall j | 0 <= j < |d.iterations| && d.iterations[j].completed ::
      && j in d.directories && j in e.directories && e.directories[j].observation == d.directories[j].observation
    ensures TailAccepted(e)
  {
    hide Resolve, Decide, ListsAttempts, Listing, RecordAccepted, Grown, ChainAccepted, ManifestsOf, SessionLoads, SeedAccepted,
         Prior;
    EarlierEvidence(d, bound);
    if d.iterations != [] {
      SamePrior(d, e, |d.iterations| - 1);
    }
  }

  lemma {:induction false} DirectoriesThere(d: Disk, bound: nat)
    requires Held(d, bound)
    ensures forall j | 0 <= j < |d.iterations| :: j in d.directories
  {
    hide SessionLoads, ChainAccepted, SeedAccepted, ListsAttempts, TailAccepted, Listing, ManifestsOf, Grown, AttemptVerifies,
         Binds;
    forall j | 0 <= j < |d.iterations| ensures j in d.directories {
      assert RecordAccepted(d, ChainOf(d, bound), j);
    }
  }

  // ----- the session manifest -----

  /** The state and the stop reason that are on record are the only ones accepted. */
  lemma {:induction false} StateTold(d: Disk, bound: nat, state: SessionState, stop: Option<StopReason>)
    requires Held(d, bound)
    ensures Accepts(d.(state := state, stop := stop), bound) <==> state == d.state && stop == d.stop
  {
    hide ChainAccepted, ListsAttempts, Listing, ManifestsOf, Grown, Resolve, Decide;
    var e := d.(state := state, stop := stop);
    forall i | 0 <= i < |d.iterations|
      ensures RecordAccepted(d, ChainOf(d, bound), i) ==> RecordAccepted(e, ChainOf(d, bound), i)
    {
    }
    EarlierEvidence(d, bound);
    if d.iterations != [] {
      SamePrior(d, e, |d.iterations| - 1);
    }
  }

  /** Once an iteration is on record the sample, the packed file and the goal are bound; before it, the sample is. */
  lemma {:induction false} TargetTold(d: Disk, bound: nat, sample: string, packed: string, goal: string)
    requires Held(d, bound)
    ensures Accepts(d.(sample := sample, packed := packed, goal := goal), bound) <==>
              sample == d.sample && (d.iterations == [] || (packed == d.packed && goal == d.goal))
  {
    hide ChainAccepted, ListsAttempts, Listing, ManifestsOf, Grown, TailAccepted, AttemptVerifies, EvidenceAccepted;
    var e := d.(sample := sample, packed := packed, goal := goal);
    DirectoriesThere(d, bound);
    TailSame(d, bound, e);
    if d.iterations != [] {
      assert RecordAccepted(d, ChainOf(d, bound), 0);
      if Accepts(e, bound) {
        assert RecordAccepted(e, ChainOf(e, bound), 0);
      }
      forall i | 0 <= i < |d.iterations| && sample == d.sample && packed == d.packed && goal == d.goal
        ensures RecordAccepted(e, ChainOf(d, bound), i)
      {
        assert RecordAccepted(d, ChainOf(d, bound), i);
      }
    }
  }

  /** The seed snapshot and the seed manifest are bound. */
  lemma {:induction false} SeedTold(d: Disk, bound: nat, seed: Env, seedManifest: ManifestId)
    requires Held(d, bound)
    ensures Accepts(d.(seed := seed, seedManifest := seedManifest), bound) <==>
              seed == d.seed && seedManifest == d.seedManifest
  {
    hide ChainAccepted, ListsAttempts, Listing, ManifestsOf, Grown, RecordAccepted, TailAccepted;
  }

  /** Every snapshot the session names must be in the store, and no other. */
  lemma {:induction false} SnapshotsTold(d: Disk, bound: nat, snapshots: set<Env>)
    requires Held(d, bound)
    ensures Accepts(d.(snapshots := snapshots), bound) <==>
              d.seed in snapshots && forall i | 0 <= i < |d.iterations| :: d.iterations[i].snapshot in snapshots
  {
    hide ChainAccepted, ListsAttempts, Listing, ManifestsOf, Grown, RecordAccepted, TailAccepted;
    var e := d.(snapshots := snapshots);
    DirectoriesThere(d, bound);
    TailSame(d, bound, e);
    SnapshotsRecorded(d, bound, snapshots);
  }

  lemma {:induction false} SnapshotsRecorded(d: Disk, bound: nat, snapshots: set<Env>)
    requires Held(d, bound)
    ensures AllRecorded(d.(snapshots := snapshots), ChainOf(d, bound)) <==>
              forall i | 0 <= i < |d.iterations| :: d.iterations[i].snapshot in snapshots
  {
    hide ChainAccepted, ListsAttempts, Listing, ManifestsOf, Grown, TailAccepted, SeedAccepted, SessionLoads, AttemptVerifies,
         Binds, EvidenceAccepted;
    forall i | 0 <= i < |d.iterations|
      ensures RecordAccepted(d.(snapshots := snapshots), ChainOf(d, bound), i) <==> d.iterations[i].snapshot in snapshots
    {
      assert RecordAccepted(d, ChainOf(d, bound), i);
    }
  }

  // ----- one iteration's record and directory -----

  /** The record of iteration i rewritten in the session and in its directory alike. */
  function WithRecord(d: Disk, i: nat, r: Record): Disk
    requires i < |d.iterations| && i in d.directories
  {
    d.(iterations := d.iterations[i := r], directories := d.directories[i := d.directories[i].(record := r)])
  }

  /** All of a record that the check binds. */
  predicate SameBound(d: Disk, i: nat, r: Record)
    requires i < |d.iterations|
  {
    var was := d.iterations[i];
    && r.index == was.index && r.completed == was.completed && r.snapshot == was.snapshot
    && r.manifestId == was.manifestId && r.version == was.version && r.attempt == was.attempt
    && (r.completed ==> r.evidence) && (i == |d.iterations| - 1 ==> r.stop == was.stop)
  }

  /** A listing determines which attempt stands where, if only one may have been exchanged. */
  lemma {:induction false} AttemptStands(ids: seq<AttemptId>, i: nat, id: AttemptId, contracts: map<AttemptId, Contract>)
    requires i < |ids| && ListsAttempts(ids, contracts)
    ensures ListsAttempts(ids[i := id], contracts) <==> id == ids[i]
  {
    var changed := ids[i := id];
    assert changed[i] == id;
    if id == ids[i] {
      assert changed == ids;
    } else if id in contracts {
      var j :| 0 <= j < |ids| && ids[j] == id;
      assert changed[j] == changed[i] && (j < i || i < j);
    } else {
      assert id in changed;
    }
  }

  lemma {:induction false} RecordNoticed(d: Disk, bound: nat, i: nat, r: Record)
    requires Held(d, bound) && i < |d.iterations| && i in d.directories && Accepts(WithRecord(d, i, r), bound)
    ensures SameBound(d, i, r)
  {
    hide ChainAccepted, Listing, ManifestsOf, Grown, ListsAttempts, SeedAccepted, TailAccepted, AttemptVerifies, Binds;
    assert RecordAccepted(d, ChainOf(d, bound), i);
    var e := WithRecord(d, i, r);
    assert AttemptIds(e.iterations) == AttemptIds(d.iterations)[i := r.attempt];
    AttemptStands(AttemptIds(d.iterations), i, r.attempt, d.contracts);
    assert RecordAccepted(e, ChainOf(d, bound), i);
    assert e.iterations[i].index == i;
    CompletedHasResult(d, bound, i);
    CompletedHasResult(e, bound, i);
    StopNoticed(d, bound, e);
  }

  lemma {:induction false} CompletedHasResult(d: Disk, bound: nat, i: nat)
    requires Accepts(d, bound) && i < |d.iterations|
    ensures d.iterations[i].completed <==> d.iterations[i].attempt in d.results
  {
    hide ChainAccepted, Listing, ManifestsOf, ListsAttempts, SeedAccepted, TailAccepted, Binds, EvidenceAccepted;
    assert RecordAccepted(d, ChainOf(d, bound), i);
  }

  /** The last record repeats the session's stop reason. */
  lemma {:induction false} StopNoticed(d: Disk, bound: nat, e: Disk)
    requires Accepts(d, bound) && Accepts(e, bound) && |e.iterations| == |d.iterations| > 0 && e.stop == d.stop
    ensures e.iterations[|d.iterations| - 1].stop == d.iterations[|d.iterations| - 1].stop
  {
    hide ChainAccepted, Listing, ManifestsOf, ListsAttempts, SeedAccepted, RecordAccepted, Resolve, Decide, Prior, PriorLoads,
         SessionLoads;
  }

  lemma {:induction false} RecordHarmless(d: Disk, bound: nat, i: nat, r: Record)
    requires Held(d, bound) && i < |d.iterations| && i in d.directories && SameBound(d, i, r)
    ensures Accepts(WithRecord(d, i, r), bound)
  {
    hide ChainAccepted, Listing, ManifestsOf, Grown, ListsAttempts, RecordAccepted, TailAccepted;
    var e := WithRecord(d, i, r);
    assert AttemptIds(e.iterations) == AttemptIds(d.iterations);
    forall j | 0 <= j < |d.iterations| ensures RecordAccepted(e, ChainOf(d, bound), j) {
      RecordStillGood(d, bound, i, r, j);
    }
    RecordEndsAlike(d, bound, i, r);
    assert SessionLoads(e);
    assert e.seed in e.snapshots;
    assert ChainAccepted(e.manifests, bound);
    assert SeedAccepted(e, ChainOf(d, bound)[0]);
    assert ListsAttempts(AttemptIds(e.iterations), e.contracts);
    assert |ChainOf(d, bound)| == ChainLength(e);
  }

  lemma {:induction false} RecordStillGood(d: Disk, bound: nat, i: nat, r: Record, j: nat)
    requires Held(d, bound) && i < |d.iterations| && i in d.directories && SameBound(d, i, r) && j < |d.iterations|
    ensures RecordAccepted(WithRecord(d, i, r), ChainOf(d, bound), j)
  {
    hide ChainAccepted, Listing, ManifestsOf, Grown, ListsAttempts, SeedAccepted, TailAccepted, AttemptVerifies, SessionLoads;
    assert RecordAccepted(d, ChainOf(d, bound), j);
  }

  lemma {:induction false} RecordEndsAlike(d: Disk, bound: nat, i: nat, r: Record)
    requires Held(d, bound) && i < |d.iterations| && i in d.directories && SameBound(d, i, r)
    ensures TailAccepted(WithRecord(d, i, r))
  {
    hide ChainAccepted, Listing, ManifestsOf, Grown, ListsAttempts, SeedAccepted, RecordAccepted, SessionLoads, Resolve, Decide,
         Prior;
    EarlierEvidence(d, bound);
    EarlierCompleted(d, bound, i, r);
    SamePrior(d, WithRecord(d, i, r), |d.iterations| - 1);
  }

  lemma {:induction false} EarlierCompleted(d: Disk, bound: nat, i: nat, r: Record)
    requires Held(d, bound) && i < |d.iterations| && i in d.directories && SameBound(d, i, r)
    ensures forall j | 0 <= j < |d.iterations| - 1 :: WithRecord(d, i, r).iterations[j].evidence
  {
    hide Accepts;
    EarlierEvidence(d, bound);
  }

  /** Consistently rewritten, a record is accepted exactly when everything bound is as it was: what stays open is whether it
   * names a parent snapshot and a repair report, and an earlier iteration's stop reason. */
  lemma {:induction false} RecordTold(d: Disk, bound: nat, i: nat, r: Record)
    requires Held(d, bound) && i < |d.iterations|
    ensures i in d.directories
    ensures Accepts(WithRecord(d, i, r), bound) <==> SameBound(d, i, r)
  {
    assert RecordAccepted(d, ChainOf(d, bound), i);
    hide *;
    if Accepts(WithRecord(d, i, r), bound) {
      RecordNoticed(d, bound, i, r);
    }
    if SameBound(d, i, r) {
      RecordHarmless(d, bound, i, r);
    }
  }

  /** A directory must repeat the record; of a completed iteration it must hold the observation that was made, and artifacts
   * that are those of their manifest. */
  lemma {:induction false} DirectoryTold(d: Disk, bound: nat, i: nat, x: IterationDir)
    requires Held(d, bound) && i < |d.iterations|
    ensures i in d.directories
    ensures Accepts(d.(directories := d.directories[i := x]), bound) <==>
              && x.record == d.iterations[i]
              && (d.iterations[i].completed ==>
                    && x.observation == d.directories[i].observation
                    && x.artifacts.Some? && x.bundle == x.artifacts)
  {
    hide ChainAccepted, Listing, ManifestsOf, Grown, ListsAttempts, RecordAccepted, TailAccepted;
    DirectoriesThere(d, bound);
    DirectoryRecorded(d, bound, i, x);
    if SameEvidence(d, i, x) {
      TailSame(d, bound, d.(directories := d.directories[i := x]));
    }
  }

  predicate SameEvidence(d: Disk, i: nat, x: IterationDir)
    requires i < |d.iterations| && i in d.directories
  {
    && x.record == d.iterations[i]
    && (d.iterations[i].completed ==>
          && x.observation == d.directories[i].observation
          && x.artifacts.Some? && x.bundle == x.artifacts)
  }

  lemma {:induction false} DirectoryRecorded(d: Disk, bound: nat, i: nat, x: IterationDir)
    requires Held(d, bound) && i < |d.iterations| && i in d.directories
    ensures AllRecorded(d.(directories := d.directories[i := x]), ChainOf(d, bound)) <==> SameEvidence(d, i, x)
  {
    hide ChainAccepted, Listing, ManifestsOf, Grown, ListsAttempts, AttemptVerifies, Binds, TailAccepted, SeedAccepted,
         SessionLoads;
    var e := d.(directories := d.directories[i := x]);
    assert RecordAccepted(d, ChainOf(d, bound), i);
    assert RecordAccepted(e, ChainOf(d, bound), i) <==> SameEvidence(d, i, x);
    forall j | 0 <= j < |d.iterations| && j != i ensures RecordAccepted(e, ChainOf(d, bound), j) {
      assert RecordAccepted(d, ChainOf(d, bound), j);
    }
  }

  /** No iteration can do without its directory. */
  lemma {:induction false} DirectoryNeeded(d: Disk, bound: nat, i: nat)
    requires Held(d, bound) && i < |d.iterations|
    ensures !Accepts(d.(directories := d.directories - {i}), bound)
  {
    hide ChainAccepted, Listing, ManifestsOf, Grown, Resolve, Decide, ListsAttempts, AttemptVerifies, Binds;
    assert !RecordAccepted(d.(directories := d.directories - {i}), ChainOf(d, bound), i);
  }

  // ----- the attempt store -----

  /** Every contract belongs to one iteration. */
  lemma {:induction false} IterationOf(d: Disk, bound: nat, id: AttemptId) returns (i: nat)
    requires Held(d, bound) && id in d.contracts
    ensures i < |d.iterations| && d.iterations[i].attempt == id
    ensures forall j | 0 <= j < |d.iterations| && j != i :: d.iterations[j].attempt != id
    ensures d.iterations[i].completed <==> id in d.results
  {
    hide ChainAccepted, Listing, ManifestsOf, Grown, Resolve, Decide, Binds, EvidenceAccepted, TailAccepted;
    var ids := AttemptIds(d.iterations);
    assert id in ids;
    i :| 0 <= i < |ids| && ids[i] == id;
    assert RecordAccepted(d, ChainOf(d, bound), i);
    forall j | 0 <= j < |d.iterations| && j != i ensures d.iterations[j].attempt != id {
      assert ids[j] == d.iterations[j].attempt && (j < i || i < j);
    }
  }

  /** A contract that has its result is bound whole; one that is waiting for its run, in all but its stage. No contract
   * can be added. */
  lemma {:induction false} ContractTold(d: Disk, bound: nat, id: AttemptId, c: Contract)
    requires Held(d, bound)
    ensures Accepts(d.(contracts := d.contracts[id := c]), bound) <==>
              && id in d.contracts
              && (if id in d.results then c == d.contracts[id] else c == d.contracts[id].(initialStage := c.initialStage))
  {
    hide ChainAccepted, Listing, ManifestsOf, Grown, RecordAccepted, TailAccepted;
    var e := d.(contracts := d.contracts[id := c]);
    if id in d.contracts {
      DirectoriesThere(d, bound);
      TailSame(d, bound, e);
      ContractRecorded(d, bound, id, c);
    } else {
      assert id in e.contracts && id !in AttemptIds(e.iterations);
    }
  }

  lemma {:induction false} ContractRecorded(d: Disk, bound: nat, id: AttemptId, c: Contract)
    requires Held(d, bound) && id in d.contracts
    ensures AllRecorded(d.(contracts := d.contracts[id := c]), ChainOf(d, bound)) <==>
              if id in d.results then c == d.contracts[id] else c == d.contracts[id].(initialStage := c.initialStage)
  {
    hide ChainAccepted, Listing, ManifestsOf, Grown, ListsAttempts, TailAccepted, SeedAccepted, SessionLoads, EvidenceAccepted,
         Reloads;
    var e := d.(contracts := d.contracts[id := c]);
    var i := IterationOf(d, bound, id);
    assert RecordAccepted(d, ChainOf(d, bound), i);
    assert RecordAccepted(e, ChainOf(d, bound), i) <==>
             if id in d.results then c == d.contracts[id] else c == d.contracts[id].(initialStage := c.initialStage);
    forall j | 0 <= j < |d.iterations| && j != i ensures RecordAccepted(e, ChainOf(d, bound), j) {
      assert RecordAccepted(d, ChainOf(d, bound), j);
    }
  }

  /** No contract can be taken away. */
  lemma {:induction false} ContractNeeded(d: Disk, bound: nat, id: AttemptId)
    requires Held(d, bound) && id in d.contracts
    ensures !Accepts(d.(contracts := d.contracts - {id}), bound)
  {
    hide ChainAccepted, Listing, ManifestsOf, Grown, Resolve, Decide, RecordAccepted, TailAccepted;
    assert id in AttemptIds(d.iterations);
  }

  /** Which outcomes end a session alike. */
  predicate SameEnding(d: Disk, a: Outcome, b: Outcome) {
    var decisive := {Outcome.GoalReached, TimedOut, Crashed};
    a == b || (a !in decisive && b !in decisive && d.state != SessionActive
               && (d.stop == Some(ExitedWithoutGoal) ==> RepairRequired !in {a, b}))
  }

  /** What stays as it was when the result of an attempt is exchanged. */
  predicate SameFacts(d: Disk, id: AttemptId, x: AttemptResult)
    requires id in d.contracts
  {
    && id in d.results && Reloads(x)
    && x.attempt == id && x.contract == d.contracts[id] && x.initialStage == d.contracts[id].initialStage
    && x.observation == d.results[id].observation && x.goalReached == d.results[id].goalReached
    && x.oracleReason == d.results[id].oracleReason && x.guestEvents == d.results[id].guestEvents
  }

  lemma {:induction false} ResultsRecorded(d: Disk, bound: nat, id: AttemptId, x: AttemptResult)
    requires Held(d, bound) && id in d.contracts
    ensures AllRecorded(d.(results := d.results[id := x]), ChainOf(d, bound)) <==> SameFacts(d, id, x)
  {
    hide ChainAccepted, Listing, ManifestsOf, Grown, ListsAttempts, Reloads, TailAccepted, SeedAccepted,
         SessionLoads;
    var e := d.(results := d.results[id := x]);
    var i := IterationOf(d, bound, id);
    assert RecordAccepted(d, ChainOf(d, bound), i);
    assert RecordAccepted(e, ChainOf(d, bound), i) <==> SameFacts(d, id, x);
    forall j | 0 <= j < |d.iterations| && j != i ensures RecordAccepted(e, ChainOf(d, bound), j) {
      assert RecordAccepted(d, ChainOf(d, bound), j);
    }
  }

  lemma {:induction false} EndingsCompared(d: Disk, a: Outcome, b: Outcome, oracle: Option<StopReason>)
    requires a == Outcome.GoalReached <==> b == Outcome.GoalReached
    requires (d.state, d.stop) == Resolve(a, oracle)
    requires oracle.Some? ==> oracle.value in {GoalStop, FixedPoint, CycleDetected, NoAutomaticRepairs, BudgetExhausted}
    ensures (d.state, d.stop) == Resolve(b, oracle) <==> SameEnding(d, a, b)
  {
  }

  lemma {:induction false} GoalsAgree(d: Disk, bound: nat, i: nat, x: AttemptResult)
    requires Held(d, bound) && i < |d.iterations| && d.iterations[i].attempt in d.contracts
    requires SameFacts(d, d.iterations[i].attempt, x)
    ensures d.results[d.iterations[i].attempt].outcome == Outcome.GoalReached <==> x.outcome == Outcome.GoalReached
  {
    hide ChainAccepted, Listing, ManifestsOf, Grown, ListsAttempts, SeedAccepted, SessionLoads, TailAccepted, Binds,
         EvidenceAccepted;
    assert RecordAccepted(d, ChainOf(d, bound), i);
  }

  lemma {:induction false} EndsAlike(d: Disk, bound: nat, id: AttemptId, x: AttemptResult)
    requires Held(d, bound) && id in d.contracts && SameFacts(d, id, x)
    ensures TailAccepted(d.(results := d.results[id := x])) <==>
              (d.iterations[|d.iterations| - 1].attempt == id ==> SameEnding(d, d.results[id].outcome, x.outcome))
  {
    hide ChainAccepted, Listing, ManifestsOf, Grown, ListsAttempts, RecordAccepted, SeedAccepted, SessionLoads, Prior, Resolve,
         SameEnding, Reloads;
    var e, n := d.(results := d.results[id := x]), |d.iterations| - 1;
    EarlierEvidence(d, bound);
    var i := IterationOf(d, bound, id);
    SamePrior(d, e, n);
    if i == n {
      GoalsAgree(d, bound, i, x);
      var o := d.directories[n].observation.value;
      EndingsCompared(d, d.results[id].outcome, x.outcome,
                      if o.goalReached then Some(GoalStop) else Decide(Prior(d, n), o, n, d.budget));
    }
  }

  /** A result is bound by its contract, its observation and what it says of that; the last one also by how the session ended.
   * None can be added to a waiting iteration. */
  lemma {:induction false} ResultTold(d: Disk, bound: nat, id: AttemptId, x: AttemptResult)
    requires Held(d, bound) && id in d.contracts
    ensures Accepts(d.(results := d.results[id := x]), bound) <==>
              && SameFacts(d, id, x)
              && (d.iterations[|d.iterations| - 1].attempt == id ==> SameEnding(d, d.results[id].outcome, x.outcome))
  {
    hide ChainAccepted, Listing, ManifestsOf, Grown, ListsAttempts, RecordAccepted, TailAccepted, SameFacts, SameEnding;
    var i := IterationOf(d, bound, id);
    ResultsRecorded(d, bound, id, x);
    if SameFacts(d, id, x) {
      EndsAlike(d, bound, id, x);
    }
  }

  /** No result can be taken away. */
  lemma {:induction false} ResultNeeded(d: Disk, bound: nat, id: AttemptId)
    requires Held(d, bound) && id in d.contracts && id in d.results
    ensures !Accepts(d.(results := d.results - {id}), bound)
  {
    hide ChainAccepted, Listing, ManifestsOf, Grown, ListsAttempts, Binds, EvidenceAccepted, TailAccepted;
    var i := IterationOf(d, bound, id);
    assert !RecordAccepted(d.(results := d.results - {id}), ChainOf(d, bound), i);
  }

  // ----- the manifest store -----

  /** Versions below n and possibly one more: what is listed of them. */
  lemma {:induction false} ListingChanged(files: map<nat, ManifestFile>, v: nat, f: ManifestFile, n: nat, bound: nat)
    requires Grown(files, n)
    ensures var listing := Listing(files[v := f], bound);
            && |listing| == (if bound <= n then bound else n) + (if n <= v < bound then 1 else 0)
            && forall i | 0 <= i < bound && i < n :: listing[i] == if i == v then f else files[i]
  {
    if bound > 0 {
      ListingChanged(files, v, f, n, bound - 1);
    }
  }

  lemma {:induction false} ListingWithout(files: map<nat, ManifestFile>, v: nat, n: nat, bound: nat)
    requires Grown(files, n) && v < n
    ensures |Listing(files - {v}, bound)| == (if bound <= n then bound else n) - if v < bound then 1 else 0
  {
    if bound > 0 {
      ListingWithout(files, v, n, bound - 1);
    }
  }

  lemma {:induction false} ManifestNoticed(d: Disk, bound: nat, v: nat, f: ManifestFile)
    requires Held(d, bound) && v < bound && Accepts(d.(manifests := d.manifests[v := f]), bound)
    ensures v in d.manifests && f == d.manifests[v].(generatedAt := f.generatedAt)
  {
    hide ListsAttempts, Binds, AttemptVerifies, EvidenceAccepted, Listing, TailAccepted, IsChild;
    var e, n := d.(manifests := d.manifests[v := f]), ChainLength(d);
    ChainIs(d, bound);
    ListingChanged(d.manifests, v, f, n, bound);
    assert v < n && Loads(Listing(e.manifests, bound)[v]);
    assert ChainOf(e, bound)[v] == f.manifest;
    if d.iterations != [] {
      assert RecordAccepted(e, ChainOf(e, bound), v) && RecordAccepted(d, ChainOf(d, bound), v);
    }
    assert Loads(d.manifests[v]);
  }

  lemma {:induction false} ManifestHarmless(d: Disk, bound: nat, v: nat, f: ManifestFile)
    requires Held(d, bound) && v < bound && v in d.manifests && f == d.manifests[v].(generatedAt := f.generatedAt)
    ensures Accepts(d.(manifests := d.manifests[v := f]), bound)
  {
    hide ListsAttempts, RecordAccepted, TailAccepted, Listing;
    var e, n := d.(manifests := d.manifests[v := f]), ChainLength(d);
    ChainIs(d, bound);
    ListingGrown(d.manifests, n, bound);
    ListingChanged(d.manifests, v, f, n, bound);
    DirectoriesThere(d, bound);
    TailSame(d, bound, e);
    SameListing(d, bound, v, f);
    forall j | 0 <= j < |d.iterations| ensures RecordAccepted(e, ChainOf(e, bound), j) {
      SameRecord(d, bound, e, j);
    }
  }

  lemma {:induction false} SameRecord(d: Disk, bound: nat, e: Disk, j: nat)
    requires Held(d, bound) && e == d.(manifests := e.manifests) && ChainOf(e, bound) == ChainOf(d, bound)
    requires j < |d.iterations|
    ensures RecordAccepted(e, ChainOf(e, bound), j)
  {
    hide ListsAttempts, Binds, AttemptVerifies, EvidenceAccepted, TailAccepted, Listing, ChainAccepted, Grown;
    assert RecordAccepted(d, ChainOf(d, bound), j);
  }

  lemma {:induction false} SameListing(d: Disk, bound: nat, v: nat, f: ManifestFile)
    requires Held(d, bound) && v < bound && v in d.manifests && f == d.manifests[v].(generatedAt := f.generatedAt)
    ensures ChainOf(d.(manifests := d.manifests[v := f]), bound) == ChainOf(d, bound)
    ensures ChainAccepted(d.manifests[v := f], bound)
  {
    hide ListsAttempts, RecordAccepted, TailAccepted, Listing, Chained;
    var files, n := d.manifests[v := f], ChainLength(d);
    ChainIs(d, bound);
    ListingGrown(d.manifests, n, bound);
    ListingChanged(d.manifests, v, f, n, bound);
    var was, listing := Listing(d.manifests, bound), Listing(files, bound);
    forall j | 0 <= j < |was| ensures listing[j].manifest == was[j].manifest && Loads(listing[j]) {
      assert Loads(was[j]);
    }
    assert ManifestsOf(listing) == ManifestsOf(was);
  }

  /** A manifest file that is listed can change in nothing but the time it was written, and none can be added. */
  lemma {:induction false} ManifestTold(d: Disk, bound: nat, v: nat, f: ManifestFile)
    requires Held(d, bound) && v < bound
    ensures Accepts(d.(manifests := d.manifests[v := f]), bound) <==>
              v in d.manifests && f == d.manifests[v].(generatedAt := f.generatedAt)
  {
    hide *;
    if Accepts(d.(manifests := d.manifests[v := f]), bound) {
      ManifestNoticed(d, bound, v, f);
    }
    if v in d.manifests && f == d.manifests[v].(generatedAt := f.generatedAt) {
      ManifestHarmless(d, bound, v, f);
    }
  }

  /** No version can be taken away. */
  lemma {:induction false} ManifestNeeded(d: Disk, bound: nat, v: nat)
    requires Held(d, bound) && v in d.manifests
    ensures !Accepts(d.(manifests := d.manifests - {v}), bound)
  {
    hide Resolve, Decide, ListsAttempts, Binds, AttemptVerifies, EvidenceAccepted, Listing, RecordAccepted, TailAccepted;
    ChainIs(d, bound);
    ListingWithout(d.manifests, v, ChainLength(d), bound);
  }
}
