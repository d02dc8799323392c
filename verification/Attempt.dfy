/** Attempt contracts and results, and the append-only store that binds them. */
module Attempt {
  import opened Wrappers
  import opened EnvironmentManifest

  // ----- execution stages -----

  predicate Allowed(from: Stage, next: Stage) {
    match from
    case StaticPreflight => next in {PreOepDiscovery, Reconstruction}
    case PreOepDiscovery => next == OepCandidate
    case OepCandidate => next in {PreOepDiscovery, OepValidation}
    case OepValidation => next in {PreOepDiscovery, OepCandidate, PostOepStabilization}
    case PostOepStabilization => next in {OepCandidate, BoundaryDiscovery}
    case BoundaryDiscovery => next in {PostOepStabilization, BoundaryReady}
    case BoundaryReady => next in {Fuzzing, Reconstruction}
    case Fuzzing => next == BoundaryReady
    case Reconstruction => false
  }

  datatype Transition = Transition(sequence: nat, from: Stage, next: Stage)

  function StageBefore(initial: Stage, transitions: seq<Transition>, i: nat): Stage
    requires i <= |transitions|
  {
    if i == 0 then initial else transitions[i - 1].next
  }

  /** A walk through the allowed stages from initial to final, numbered from zero. */
  predicate Walk(initial: Stage, final: Stage, transitions: seq<Transition>) {
    && (forall i | 0 <= i < |transitions| ::
          transitions[i].sequence == i && transitions[i].from == StageBefore(initial, transitions, i))
    && final == StageBefore(initial, transitions, |transitions|)
  }

  predicate AllAllowed(transitions: seq<Transition>) {
    forall i | 0 <= i < |transitions| :: Allowed(transitions[i].from, transitions[i].next)
  }

  method ValidateTransitionChain(initial: Stage, final: Stage, transitions: seq<Transition>) returns (ok: bool)
    ensures ok <==> Walk(initial, final, transitions)
  {
    var expected := initial;
    for i := 0 to |transitions|
      invariant expected == StageBefore(initial, transitions, i)
      invariant forall k | 0 <= k < i ::
                  transitions[k].sequence == k && transitions[k].from == StageBefore(initial, transitions, k)
    {
      if transitions[i].sequence != i || transitions[i].from != expected {
        return false;
      }
      expected := transitions[i].next;
    }
    ok := expected == final;
  }

  predicate BeforeStabilization(s: Stage) {
    s in {StaticPreflight, PreOepDiscovery, OepCandidate, OepValidation, Reconstruction}
  }

  /** A discovery attempt gets to a boundary, or to fuzzing, only through a validated entry point and stabilization. */
  lemma {:induction false} StabilizationComesFirst(initial: Stage, final: Stage, transitions: seq<Transition>)
    requires Walk(initial, final, transitions) && AllAllowed(transitions) && BeforeStabilization(initial)
    requires !BeforeStabilization(final)
    ensures exists i | 0 <= i < |transitions| ::
              transitions[i].from == OepValidation && transitions[i].next == PostOepStabilization
    decreases |transitions|
  {
    var n := |transitions| - 1;
    assert Allowed(transitions[n].from, transitions[n].next);
    if BeforeStabilization(transitions[n].from) {
      assert transitions[n].from == OepValidation && transitions[n].next == PostOepStabilization;
    } else {
      var init := transitions[..n];
      forall i | 0 <= i < n ensures init[i].from == StageBefore(initial, init, i) {
        assert init[i] == transitions[i];
      }
      StabilizationComesFirst(initial, transitions[n].from, init);
      var i :| 0 <= i < n && init[i].from == OepValidation && init[i].next == PostOepStabilization;
      assert transitions[i] == init[i];
    }
  }

  // ----- contracts and results -----

  /** A discovery contract; its digest is the contract itself. */
  datatype Contract = Contract(
    id: AttemptId, index: nat, sample: string, packed: string, manifestId: ManifestId, manifestVersion: nat, goal: string,
    initialStage: Stage)

  datatype Outcome =
    | GoalReached | RepairRequired | Exited | TimedOut | Crashed
    | UnsupportedDependency | IsolationViolation | BackendIncompatible | ExecutionError

  datatype Failure = Failure(outcome: Outcome, stage: Stage, exitCode: Option<int>, errorCode: Option<string>,
      resource: Option<string>)

  datatype AttemptResult = AttemptResult(
    attempt: AttemptId, contract: Contract, outcome: Outcome, initialStage: Stage, finalStage: Stage,
    transitions: seq<Transition>, goalReached: bool, oracleReason: Option<string>, guestEvents: nat,
    observation: FileDigest, failure: Option<Failure>)

  predicate NeedsFingerprint(o: Outcome) {
    o !in {GoalReached, Exited}
  }

  /** What constructing a result checks. */
  predicate ValidResult(r: AttemptResult) {
    && (r.goalReached ==> r.oracleReason.Some? && r.oracleReason.value != "")
    && Walk(r.initialStage, r.finalStage, r.transitions) && AllAllowed(r.transitions)
    && (NeedsFingerprint(r.outcome) ==> r.failure.Some?)
    && (r.outcome == GoalReached <==> r.goalReached)
  }

  /** What reading one back asks in addition: a reason that is there is not empty. */
  predicate Reloads(r: AttemptResult) {
    ValidResult(r) && r.oracleReason != Some("")
  }

  predicate LinksTo(r: AttemptResult, c: Contract) {
    r.attempt == c.id && r.contract == c && r.initialStage == c.initialStage
  }

  datatype AttemptError = NoContract | NoResult | ContractImmutable | ResultImmutable | BadLink | Unreadable

  predicate CanSaveContract(contracts: map<AttemptId, Contract>, c: Contract) {
    c.id in contracts ==> contracts[c.id] == c
  }

  predicate CanSaveResult(contracts: map<AttemptId, Contract>, results: map<AttemptId, AttemptResult>, r: AttemptResult) {
    && r.attempt in contracts && LinksTo(r, contracts[r.attempt])
    && (r.attempt in results ==> Reloads(results[r.attempt]) && results[r.attempt] == r)
  }

  /** verify_attempt succeeds: the contract is there, and the result, if there is one or there must be one, reloads
   * and links. */
  predicate AttemptVerifies(contracts: map<AttemptId, Contract>, results: map<AttemptId, AttemptResult>, id: AttemptId,
      needed: bool) {
    && id in contracts
    && (needed ==> id in results)
    && (id in results ==> Reloads(results[id]) && LinksTo(results[id], contracts[id]))
  }

  function ResultOf(results: map<AttemptId, AttemptResult>, id: AttemptId): Option<AttemptResult> {
    if id in results then Some(results[id]) else None
  }

  predicate ByIndex(ids: seq<AttemptId>) {
    forall i, j | 0 <= i < j < |ids| :: ids[i].index <= ids[j].index
  }

  predicate Distinct(ids: seq<AttemptId>) {
    forall i, j | 0 <= i < j < |ids| :: ids[i] != ids[j]
  }

  ghost predicate ListsAttempts(ids: seq<AttemptId>, contracts: map<AttemptId, Contract>) {
    ByIndex(ids) && Distinct(ids) && forall id :: id in ids <==> id in contracts
  }

  class AttemptStore {
    var contracts: map<AttemptId, Contract>
    var results: map<AttemptId, AttemptResult>

    constructor ()
      ensures contracts == map[] && results == map[]
    {
      contracts, results := map[], map[];
    }

    method SaveContract(c: Contract) returns (r: Result<AttemptId, AttemptError>)
      modifies this`contracts
      ensures r.Ok? <==> CanSaveContract(old(contracts), c)
      ensures contracts == if r.Ok? then old(contracts)[c.id := c] else old(contracts)
    {
      if c.id in contracts {
        r := if contracts[c.id] == c then Ok(c.id) else Err(ContractImmutable);
      } else {
        contracts := contracts[c.id := c];
        r := Ok(c.id);
      }
    }

    method SaveResult(result: AttemptResult) returns (r: Result<AttemptId, AttemptError>)
      requires ValidResult(result)
      modifies this`results
      ensures r.Ok? <==> CanSaveResult(contracts, old(results), result)
      ensures results == if r.Ok? then old(results)[result.attempt := result] else old(results)
    {
      var id := result.attempt;
      if id !in contracts {
        return Err(NoContract);
      }
      if !LinksTo(result, contracts[id]) {
        return Err(BadLink);
      }
      if id in results {
        if !Reloads(results[id]) {
          return Err(Unreadable);
        }
        return if results[id] == result then Ok(id) else Err(ResultImmutable);
      }
      results := results[id := result];
      r := Ok(id);
    }

    method VerifyAttempt(id: AttemptId, needed: bool) returns (r: Result<(Contract, Option<AttemptResult>), AttemptError>)
      ensures r.Ok? <==> AttemptVerifies(contracts, results, id, needed)
      ensures r.Ok? ==> r.value == (contracts[id], ResultOf(results, id))
    {
      if id !in contracts {
        return Err(NoContract);
      }
      if id !in results {
        return if needed then Err(NoResult) else Ok((contracts[id], None));
      }
      if !Reloads(results[id]) {
        return Err(Unreadable);
      }
      r := if LinksTo(results[id], contracts[id]) then Ok((contracts[id], Some(results[id]))) else Err(BadLink);
    }

    method ListAttemptIds() returns (ids: seq<AttemptId>)
      ensures ListsAttempts(ids, contracts)
    {
      ids := [];
      var left := contracts.Keys;
      while left != {}
        invariant left <= contracts.Keys && ByIndex(ids) && Distinct(ids)
        invariant forall id :: id in ids <==> id in contracts.Keys - left
      {
        var id :| id in left;
        ids := InsertByIndex(ids, id);
        left := left - {id};
      }
    }
  }

  method InsertByIndex(ids: seq<AttemptId>, id: AttemptId) returns (r: seq<AttemptId>)
    requires ByIndex(ids) && Distinct(ids) && id !in ids
    ensures ByIndex(r) && Distinct(r)
    ensures forall x :: x in r <==> x in ids || x == id
  {
    var at := 0;
    while at < |ids| && ids[at].index <= id.index
      invariant 0 <= at <= |ids|
      invariant forall k | 0 <= k < at :: ids[k].index <= id.index
    {
      at := at + 1;
    }
    r := ids[..at] + [id] + ids[at..];
    Inserted(ids, id, at);
  }

  lemma {:induction false} Inserted(ids: seq<AttemptId>, id: AttemptId, at: nat)
    requires ByIndex(ids) && Distinct(ids) && id !in ids && at <= |ids|
    requires forall k | 0 <= k < at :: ids[k].index <= id.index
    requires at < |ids| ==> id.index <= ids[at].index
    ensures ByIndex(ids[..at] + [id] + ids[at..]) && Distinct(ids[..at] + [id] + ids[at..])
    ensures forall x :: x in ids[..at] + [id] + ids[at..] <==> x in ids || x == id
  {
    var r := ids[..at] + [id] + ids[at..];
    forall i, j | 0 <= i < j < |r| ensures r[i].index <= r[j].index && r[i] != r[j] {
      assert r[j] == if j < at then ids[j] else if j == at then id else ids[j - 1];
      assert r[i] == if i < at then ids[i] else if i == at then id else ids[i - 1];
    }
    assert ids == ids[..at] + ids[at..];
  }

  predicate StrictlyByIndex(ids: seq<AttemptId>) {
    forall i, j | 0 <= i < j < |ids| :: ids[i].index < ids[j].index
  }

  /** When indexes are distinct there is one listing. */
  lemma {:induction false} ListingOnce(a: seq<AttemptId>, b: seq<AttemptId>)
    requires StrictlyByIndex(a) && ByIndex(b) && Distinct(b)
    requires forall id :: id in a <==> id in b
    ensures a == b
    decreases |a|
  {
    SameEmptiness(a, b);
    SameEmptiness(b, a);
    if a != [] {
      var n, m := |a| - 1, |b| - 1;
      var x, y := a[n], b[m];
      assert y in a && x in b;
      var i :| 0 <= i < |a| && a[i] == y;
      var j :| 0 <= j < |b| && b[j] == x;
      assert x == y;
      forall id ensures id in a[..n] <==> id in a && id != x {
        assert a == a[..n] + [x];
      }
      forall id ensures id in b[..m] <==> id in b && id != x {
        assert b == b[..m] + [x];
      }
      ListingOnce(a[..n], b[..m]);
      assert a == a[..n] + [x] && b == b[..m] + [x];
    }
  }

  lemma {:induction false} SameEmptiness(a: seq<AttemptId>, b: seq<AttemptId>)
    requires forall id :: id in a ==> id in b
    ensures a != [] ==> b != []
  {
    if a != [] {
      assert a[0] in b;
    }
  }
}
