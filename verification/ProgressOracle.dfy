/** Observing an iteration's artifacts and comparing two observations. */
module ProgressOracle {
  import opened Wrappers
  import opened RepairApplier
  import opened RepairedEnvironment

  datatype Requirement = Requirement(
    id: string, kind: string, resource: string, operation: string, status: string, blocking: string,
    repairable: bool, errno: Option<string>)

  /** A repair decision as the oracle sees it. */
  datatype Repair = Repair(
    id: string, requirementId: string, resource: string, action: Action, disposition: Disposition, automatic: bool)

  datatype GuestEvent =
    | Syscall(name: string, errno: Option<string>, success: Option<bool>, path: Option<string>,
              ip: Option<string>, port: Option<int>)
    | Signal(outcome: string)
    | ProcessExit(outcome: string)
    | OtherEvent(kind: string)

  datatype NetworkEvent = NetworkEvent(
    kind: string, listener: Option<string>, ip: Option<string>, port: Option<int>, udpRole: Option<string>)

  /** The artifacts of one execution; planSource is what the plan's source digest was taken of. */
  datatype Artifacts = Artifacts(
    requirements: seq<Requirement>, plan: seq<Decision>, planSource: seq<Requirement>,
    guest: seq<GuestEvent>, network: seq<NetworkEvent>)

  datatype Metrics = Metrics(
    guestEventsTotal: nat, uniqueGuestEvents: nat, networkEventsTotal: nat, uniqueNetworkTargets: nat,
    requirementsTotal: nat, unmetTotal: nat, likelyUnmetTotal: nat,
    automaticCandidates: nat, reviewRequired: nat, manualAnalysis: nat, fatalSignals: nat)

  /** state_fingerprint, as a function that loses nothing; lists that are sorted before hashing are multisets. */
  datatype Fingerprint = Fingerprint(
    environment: Env, requirements: multiset<Requirement>, repairs: multiset<Repair>,
    guest: seq<GuestEvent>, network: seq<NetworkEvent>)

  datatype Observation = Observation(
    artifacts: Artifacts, fingerprint: Fingerprint, metrics: Metrics, goalReached: bool, goalReason: Option<string>)

  function ToRepair(d: Decision): Repair {
    Repair(d.id, d.requirementId, d.resource, d.action, d.disposition, d.automatic)
  }

  function Repairs(plan: seq<Decision>): seq<Repair> {
    seq(|plan|, i requires 0 <= i < |plan| => ToRepair(plan[i]))
  }

  function Count<T>(items: seq<T>, counts: T -> bool): nat {
    if items == [] then 0
    else Count(items[..|items| - 1], counts) + if counts(items[|items| - 1]) then 1 else 0
  }

  function Targets(network: seq<NetworkEvent>): set<(string, int)> {
    set e | e in network && e.ip.Some? && e.port.Some? :: (e.ip.value, e.port.value)
  }

  function GuestSet(guest: seq<GuestEvent>): set<GuestEvent> {
    set e | e in guest
  }

  function BuildMetrics(a: Artifacts): Metrics {
    Metrics(
      |a.guest|, |GuestSet(a.guest)|, |a.network|, |Targets(a.network)|,
      |a.requirements|,
      Count(a.requirements, (r: Requirement) => r.status == "unmet"),
      Count(a.requirements, (r: Requirement) => r.status == "unmet" && r.blocking == "likely"),
      Count(a.plan, (d: Decision) => d.automatic),
      Count(a.plan, (d: Decision) => d.disposition == ReviewRequired),
      Count(a.plan, (d: Decision) => d.disposition == ManualAnalysis),
      Count(a.guest, (e: GuestEvent) => e.Signal?))
  }

  predicate PlanMatches(a: Artifacts) {
    a.planSource == a.requirements
  }

  /** observe: refused when the plan was not made from exactly these requirements. */
  function Observe(a: Artifacts, environment: Env, goalReached: bool, goalReason: Option<string>): Option<Observation> {
    if !PlanMatches(a) then None
    else
      var reason := if goalReached && (goalReason.None? || goalReason.value == "") then Some("explicit goal marker supplied")
                    else goalReason;
      Some(Observation(
        a, Fingerprint(environment, multiset(a.requirements), multiset(Repairs(a.plan)), a.guest, a.network),
        BuildMetrics(a), goalReached, reason))
  }

  lemma {:induction false} CountPositive<T>(items: seq<T>, counts: T -> bool)
    ensures Count(items, counts) > 0 <==> exists i :: 0 <= i < |items| && counts(items[i])
  {
    if items != [] {
      var n := |items| - 1;
      CountPositive(items[..n], counts);
      if exists i :: 0 <= i < n && counts(items[..n][i]) {
        var i :| 0 <= i < n && counts(items[..n][i]);
        assert counts(items[i]);
      }
      if exists i :: 0 <= i < |items| && counts(items[i]) {
        var i :| 0 <= i < |items| && counts(items[i]);
        assert i < n ==> counts(items[..n][i]);
      }
    }
  }

  /** Counting is taking the size of the set of positions that count. */
  lemma {:induction false} CountIs<T>(items: seq<T>, counts: T -> bool, places: set<int>)
    requires forall i :: i in places <==> 0 <= i < |items| && counts(items[i])
    ensures Count(items, counts) == |places|
  {
    if items == [] {
      assert forall i :: i !in places;
      assert places == {};
    } else {
      var n := |items| - 1;
      CountIs(items[..n], counts, places - {n});
      assert places == (places - {n}) + if n in places then {n} else {};
    }
  }

  /** What the metrics count, position by position. */
  lemma {:induction false} MetricsCount(a: Artifacts)
    ensures var m := BuildMetrics(a);
            && m.unmetTotal == |set i | 0 <= i < |a.requirements| && a.requirements[i].status == "unmet"|
            && m.likelyUnmetTotal ==
                 |set i | 0 <= i < |a.requirements| && a.requirements[i].status == "unmet"
                          && a.requirements[i].blocking == "likely"|
            && m.fatalSignals == |set i | 0 <= i < |a.guest| && a.guest[i].Signal?|
            && m.automaticCandidates == |set i | 0 <= i < |a.plan| && a.plan[i].automatic|
            && m.reviewRequired == |set i | 0 <= i < |a.plan| && a.plan[i].disposition == ReviewRequired|
            && m.manualAnalysis == |set i | 0 <= i < |a.plan| && a.plan[i].disposition == ManualAnalysis|
  {
    CountIs(a.requirements, (r: Requirement) => r.status == "unmet",
            (set i | 0 <= i < |a.requirements| && a.requirements[i].status == "unmet"));
    CountIs(a.requirements, (r: Requirement) => r.status == "unmet" && r.blocking == "likely",
            (set i | 0 <= i < |a.requirements| && a.requirements[i].status == "unmet" && a.requirements[i].blocking == "likely"));
    CountIs(a.guest, (e: GuestEvent) => e.Signal?, (set i | 0 <= i < |a.guest| && a.guest[i].Signal?));
    CountIs(a.plan, (d: Decision) => d.automatic, (set i | 0 <= i < |a.plan| && a.plan[i].automatic));
    CountIs(a.plan, (d: Decision) => d.disposition == ReviewRequired,
            (set i | 0 <= i < |a.plan| && a.plan[i].disposition == ReviewRequired));
    CountIs(a.plan, (d: Decision) => d.disposition == ManualAnalysis,
            (set i | 0 <= i < |a.plan| && a.plan[i].disposition == ManualAnalysis));
  }

  /** The same state: environment, requirements and repairs up to order, and both event lists. */
  lemma {:induction false} SameState(a: Artifacts, b: Artifacts, envA: Env, envB: Env)
    requires PlanMatches(a) && PlanMatches(b)
    ensures Observe(a, envA, false, None).value.fingerprint == Observe(b, envB, false, None).value.fingerprint <==>
              && envA == envB && multiset(a.requirements) == multiset(b.requirements)
              && multiset(Repairs(a.plan)) == multiset(Repairs(b.plan)) && a.guest == b.guest && a.network == b.network
  {
  }

  /** There are automatic candidates exactly when some decision of the plan is selected for application. */
  lemma {:induction false} CandidatesAreSelected(a: Artifacts)
    ensures BuildMetrics(a).automaticCandidates > 0 <==> exists i :: 0 <= i < |a.plan| && a.plan[i].automatic
  {
    var automatic := (d: Decision) => d.automatic;
    CountPositive(a.plan, automatic);
  }

  // ----- comparing -----

  datatype Classification = Baseline | Progress | NoProgress | Regression | GoalReached

  datatype Reason =
    | NewGuestEvents(n: int) | NewTargets(n: int) | LikelyDecreased(n: int) | UnmetDecreased(n: int)
    | FatalIncreased | LikelyIncreased(n: int) | GuestEventsGone(n: int)
    | FirstIteration | Goal(text: string) | NothingChanged

  datatype Verdict = Verdict(
    classification: Classification, reasons: seq<Reason>, newGuest: nat, removedGuest: nat, newTargets: nat,
    likelyDelta: int, unmetDelta: int)

  ghost predicate Better(previous: Observation, current: Observation) {
    || !(GuestSet(current.artifacts.guest) <= GuestSet(previous.artifacts.guest))
    || !(Targets(current.artifacts.network) <= Targets(previous.artifacts.network))
    || current.metrics.likelyUnmetTotal < previous.metrics.likelyUnmetTotal
    || current.metrics.unmetTotal < previous.metrics.unmetTotal
  }

  ghost predicate Worse(previous: Observation, current: Observation) {
    || current.metrics.fatalSignals > previous.metrics.fatalSignals
    || current.metrics.likelyUnmetTotal > previous.metrics.likelyUnmetTotal
    || GuestSet(current.artifacts.guest) < GuestSet(previous.artifacts.guest)
  }

  ghost function Classify(previous: Option<Observation>, current: Observation): Classification {
    if current.goalReached then GoalReached
    else if previous.None? then Baseline
    else if Better(previous.value, current) && !Worse(previous.value, current) then Progress
    else if Worse(previous.value, current) && !Better(previous.value, current) then Regression
    else NoProgress
  }

  /** The counts a comparison is made of. */
  datatype Change = Change(
    newGuest: nat, removedGuest: nat, newTargets: nat, likelyDelta: int, unmetDelta: int, moreSignals: bool)

  predicate IsGain(r: Reason) {
    r.NewGuestEvents? || r.NewTargets? || r.LikelyDecreased? || r.UnmetDecreased?
  }

  /** A reason given for a change, and the change it stands for. */
  predicate Applies(r: Reason, c: Change) {
    match r
    case NewGuestEvents(n) => n == c.newGuest > 0
    case NewTargets(n) => n == c.newTargets > 0
    case LikelyDecreased(n) => n == -c.likelyDelta > 0
    case UnmetDecreased(n) => n == -c.unmetDelta > 0
    case FatalIncreased => c.moreSignals
    case LikelyIncreased(n) => n == c.likelyDelta > 0
    case GuestEventsGone(n) => n == c.removedGuest > 0 && c.newGuest == 0
    case _ => false
  }

  /** positive_reasons. */
  method Gains(c: Change) returns (reasons: seq<Reason>)
    ensures forall r :: r in reasons <==> IsGain(r) && Applies(r, c)
    ensures reasons != [] <==> c.newGuest > 0 || c.newTargets > 0 || c.likelyDelta < 0 || c.unmetDelta < 0
  {
    reasons := [];
    if c.newGuest > 0 {
      reasons := reasons + [NewGuestEvents(c.newGuest)];
    }
    if c.newTargets > 0 {
      reasons := reasons + [NewTargets(c.newTargets)];
    }
    if c.likelyDelta < 0 {
      reasons := reasons + [LikelyDecreased(-c.likelyDelta)];
    }
    if c.unmetDelta < 0 {
      reasons := reasons + [UnmetDecreased(-c.unmetDelta)];
    }
  }

  /** negative_reasons. */
  method Losses(c: Change) returns (reasons: seq<Reason>)
    ensures forall r :: r in reasons <==> !IsGain(r) && Applies(r, c)
    ensures reasons != [] <==> c.moreSignals || c.likelyDelta > 0 || (c.removedGuest > 0 && c.newGuest == 0)
  {
    reasons := [];
    if c.moreSignals {
      reasons := reasons + [FatalIncreased];
    }
    if c.likelyDelta > 0 {
      reasons := reasons + [LikelyIncreased(c.likelyDelta)];
    }
    if c.removedGuest > 0 && c.newGuest == 0 {
      reasons := reasons + [GuestEventsGone(c.removedGuest)];
    }
  }

  method Compare(previous: Option<Observation>, current: Observation) returns (v: Verdict)
    ensures v.classification == Classify(previous, current)
    ensures v.reasons != []
    ensures v.classification in {Progress, Regression, NoProgress} ==>
              && v.newGuest == |GuestSet(current.artifacts.guest) - GuestSet(previous.value.artifacts.guest)|
              && v.removedGuest == |GuestSet(previous.value.artifacts.guest) - GuestSet(current.artifacts.guest)|
              && v.newTargets == |Targets(current.artifacts.network) - Targets(previous.value.artifacts.network)|
              && v.likelyDelta == current.metrics.likelyUnmetTotal - previous.value.metrics.likelyUnmetTotal
              && v.unmetDelta == current.metrics.unmetTotal - previous.value.metrics.unmetTotal
    ensures v.classification in {Progress, Regression, NoProgress} ==>
              v.reasons == [NothingChanged]
              || forall r :: r in v.reasons <==>
                   Applies(r, Change(v.newGuest, v.removedGuest, v.newTargets, v.likelyDelta, v.unmetDelta,
                                     current.metrics.fatalSignals > previous.value.metrics.fatalSignals))
    ensures v.classification in {Progress, Regression, NoProgress} ==>
              (v.reasons == [NothingChanged] <==> !Better(previous.value, current) && !Worse(previous.value, current))
    ensures v.classification == Baseline ==>
              v == Verdict(Baseline, [FirstIteration], current.metrics.uniqueGuestEvents, 0,
                           current.metrics.uniqueNetworkTargets, 0, 0)
    ensures v.classification == GoalReached ==>
              v == Verdict(GoalReached, [Goal(if current.goalReason.Some? && current.goalReason.value != ""
                                              then current.goalReason.value else "explicit goal reached")], 0, 0, 0, 0, 0)
  {
    if current.goalReached {
      var text := if current.goalReason.Some? && current.goalReason.value != "" then current.goalReason.value
                  else "explicit goal reached";
      return Verdict(GoalReached, [Goal(text)], 0, 0, 0, 0, 0);
    }
    if previous.None? {
      return Verdict(Baseline, [FirstIteration], current.metrics.uniqueGuestEvents, 0,
                     current.metrics.uniqueNetworkTargets, 0, 0);
    }
    var before := previous.value;
    var was, now := GuestSet(before.artifacts.guest), GuestSet(current.artifacts.guest);
    var wasTargets, nowTargets := Targets(before.artifacts.network), Targets(current.artifacts.network);
    Missing(now, was);
    Missing(was, now);
    Missing(nowTargets, wasTargets);
    var newGuest, removedGuest, newTargets := |now - was|, |was - now|, |nowTargets - wasTargets|;
    var likelyDelta := current.metrics.likelyUnmetTotal - before.metrics.likelyUnmetTotal;
    var unmetDelta := current.metrics.unmetTotal - before.metrics.unmetTotal;
    var change := Change(newGuest, removedGuest, newTargets, likelyDelta, unmetDelta,
                         current.metrics.fatalSignals > before.metrics.fatalSignals);
    var positive := Gains(change);
    var negative := Losses(change);
    assert positive != [] <==> Better(before, current);
    assert negative != [] <==> Worse(before, current);
    hide GuestSet, Targets, Better, Worse;
    assert NothingChanged !in positive + negative;
    var classification, reasons := NoProgress, positive + negative;
    if positive != [] && negative == [] {
      classification, reasons := Progress, positive;
    } else if negative != [] && positive == [] {
      classification, reasons := Regression, negative;
    } else if reasons == [] {
      reasons := [NothingChanged];
    }
    v := Verdict(classification, reasons, newGuest, removedGuest, newTargets, likelyDelta, unmetDelta);
  }

  lemma {:induction false} Missing<T>(a: set<T>, b: set<T>)
    ensures |a - b| == 0 <==> a <= b
  {
    if a <= b {
      assert a - b == {};
    }
    if |a - b| == 0 {
      assert a - b == {};
      assert forall x | x in a :: x !in a - b;
    }
  }

  ghost predicate Regresses(a: Observation, b: Observation) {
    Classify(Some(a), b) == Regression
  }

  /** Regression is a strict partial order. */
  lemma {:induction false} RegressionOrders(a: Observation, b: Observation, c: Observation)
    ensures !Regresses(a, a)
    ensures Regresses(a, b) ==> !Regresses(b, a)
    ensures Regresses(a, b) && Regresses(b, c) ==> Regresses(a, c)
  {
  }

  // ----- what of the guest events matters -----

  function Signals(guest: seq<GuestEvent>): nat {
    Count(guest, (e: GuestEvent) => e.Signal?)
  }

  /** Artifacts that differ in their guest events at most. */
  predicate SameBesidesGuest(a: Artifacts, b: Artifacts) {
    b == a.(guest := b.guest)
  }

  /** What is observed of artifacts whose plan belongs to them. */
  function Observed(a: Artifacts, environment: Env, goalReached: bool, goalReason: Option<string>): Observation
    requires PlanMatches(a)
  {
    Observe(a, environment, goalReached, goalReason).value
  }

  /** The same verdict against every earlier observation, and on every later one. */
  ghost predicate Indistinguishable(a: Observation, b: Observation) {
    && (forall previous :: Classify(previous, a) == Classify(previous, b))
    && (forall current :: Classify(Some(a), current) == Classify(Some(b), current))
  }

  lemma {:induction false} CountPermuted<T>(a: seq<T>, b: seq<T>, counts: T -> bool)
    requires multiset(a) == multiset(b)
    ensures Count(a, counts) == Count(b, counts)
  {
    if a == [] {
      assert |b| == |multiset(b)| == 0;
    } else {
      hide Count;
      var n, x := |a| - 1, a[|a| - 1];
      assert x in multiset(b);
      var i :| 0 <= i < |b| && b[i] == x;
      CountWithout(a, n, counts);
      CountWithout(b, i, counts);
      CountPermuted(a[..n] + a[n + 1..], b[..i] + b[i + 1..], counts);
    }
  }

  lemma {:induction false} CountWithout<T>(a: seq<T>, i: nat, counts: T -> bool)
    requires i < |a|
    ensures multiset(a[..i] + a[i + 1..]) == multiset(a) - multiset{a[i]}
    ensures Count(a, counts) == Count(a[..i] + a[i + 1..], counts) + if counts(a[i]) then 1 else 0
  {
    hide Count;
    assert a == a[..i] + [a[i]] + a[i + 1..];
    CountConcat(a[..i], a[i + 1..], counts);
    CountConcat(a[..i] + [a[i]], a[i + 1..], counts);
    CountConcat(a[..i], [a[i]], counts);
    CountOne(a[i], counts);
  }

  lemma {:induction false} CountOne<T>(x: T, counts: T -> bool)
    ensures Count([x], counts) == if counts(x) then 1 else 0
  {
    assert [x][..0] == [];
  }

  lemma {:induction false} CountConcat<T>(a: seq<T>, b: seq<T>, counts: T -> bool)
    ensures Count(a + b, counts) == Count(a, counts) + Count(b, counts)
  {
    if b == [] {
      assert a + b == a;
    } else {
      var n := |b| - 1;
      assert (a + b)[..|a| + n] == a + b[..n];
      CountConcat(a, b[..n], counts);
    }
  }

  /** The order of guest events never changes a verdict. */
  lemma {:induction false} EventOrderIsIrrelevant(
    a: Artifacts, b: Artifacts, envA: Env, envB: Env, goalReached: bool, goalReason: Option<string>)
    requires PlanMatches(a) && SameBesidesGuest(a, b) && multiset(a.guest) == multiset(b.guest)
    ensures Indistinguishable(Observed(a, envA, goalReached, goalReason), Observed(b, envB, goalReached, goalReason))
  {
    CountPermuted(a.guest, b.guest, (e: GuestEvent) => e.Signal?);
    forall e ensures e in a.guest <==> e in b.guest {
      assert e in a.guest <==> e in multiset(a.guest);
      assert e in b.guest <==> e in multiset(b.guest);
    }
    SignalsDecide(a, b, envA, envB, goalReached, goalReason);
  }

  /** How often an event came never changes a verdict, with the one exception of fatal signals, which are counted. */
  lemma {:induction false} SignalsDecide(
    a: Artifacts, b: Artifacts, envA: Env, envB: Env, goalReached: bool, goalReason: Option<string>)
    requires PlanMatches(a) && SameBesidesGuest(a, b) && GuestSet(a.guest) == GuestSet(b.guest)
    ensures (forall previous :: Classify(previous, Observed(a, envA, goalReached, goalReason)) ==
                                Classify(previous, Observed(b, envB, goalReached, goalReason)))
            <==> goalReached || Signals(a.guest) == Signals(b.guest)
    ensures Indistinguishable(Observed(a, envA, goalReached, goalReason), Observed(b, envB, goalReached, goalReason))
            <==> Signals(a.guest) == Signals(b.guest)
  {
    hide Count;
    var x, y := Observed(a, envA, goalReached, goalReason), Observed(b, envB, goalReached, goalReason);
    var before, after := Observed(a, envA, false, None), Observed(b, envB, false, None);
    MoreSignalsRegress(before, after);
    MoreSignalsRegress(after, before);
    assert Classify(Some(x), before) == Classify(Some(before), before);
    assert Classify(Some(y), after) == Classify(Some(after), after);
    assert Classify(Some(x), after) == Classify(Some(before), after);
    assert Classify(Some(y), before) == Classify(Some(after), before);
    assert goalReached || (Classify(Some(before), x) == NoProgress && Classify(Some(after), y) == NoProgress);
  }

  /** All else equal, one run regresses from another exactly by more fatal signals. */
  lemma {:induction false} MoreSignalsRegress(a: Observation, b: Observation)
    requires GuestSet(a.artifacts.guest) == GuestSet(b.artifacts.guest) && !b.goalReached
    requires a.artifacts.network == b.artifacts.network
    requires a.metrics.likelyUnmetTotal == b.metrics.likelyUnmetTotal && a.metrics.unmetTotal == b.metrics.unmetTotal
    ensures Classify(Some(a), b) == if b.metrics.fatalSignals > a.metrics.fatalSignals then Regression else NoProgress
  {
  }

  /** With one unmet requirement settled and all else as it was, a run is progress. */
  lemma {:induction false} SettlingIsProgress(
    a: Artifacts, b: Artifacts, i: nat, settled: Requirement, envA: Env, envB: Env, goalReason: Option<string>)
    requires i < |a.requirements| && a.requirements[i].status == "unmet" && settled.status != "unmet"
    requires PlanMatches(a) && PlanMatches(b)
    requires b.requirements == a.requirements[i := settled] && b.guest == a.guest && b.network == a.network
    ensures Classify(Some(Observed(a, envA, false, None)), Observed(b, envB, false, goalReason)) == Progress
    ensures Classify(Some(Observed(b, envB, false, goalReason)), Observed(a, envA, false, None)) in {Regression, NoProgress}
  {
    CountReplaced(a.requirements, i, settled, (r: Requirement) => r.status == "unmet");
    CountReplaced(a.requirements, i, settled, (r: Requirement) => r.status == "unmet" && r.blocking == "likely");
  }

  lemma {:induction false} CountReplaced<T>(items: seq<T>, i: nat, x: T, counts: T -> bool)
    requires i < |items|
    ensures Count(items[i := x], counts) + (if counts(items[i]) then 1 else 0) ==
            Count(items, counts) + (if counts(x) then 1 else 0)
  {
    CountWithout(items, i, counts);
    CountWithout(items[i := x], i, counts);
    assert items[i := x][..i] == items[..i] && items[i := x][i + 1..] == items[i + 1..];
  }

  /** An input: the same signal delivered once is no change, delivered twice a regression. */
  lemma {:induction false} RepeatedSignalRegresses(outcome: string)
    ensures var once, twice := Artifacts([], [], [], [Signal(outcome)], []),
                               Artifacts([], [], [], [Signal(outcome), Signal(outcome)], []);
            && GuestSet(once.guest) == GuestSet(twice.guest)
            && Classify(Some(Observed(once, map[], false, None)), Observed(once, map[], false, None)) == NoProgress
            && Classify(Some(Observed(once, map[], false, None)), Observed(twice, map[], false, None)) == Regression
  {
    var x := Signal(outcome);
    var once, twice := Artifacts([], [], [], [x], []), Artifacts([], [], [], [x, x], []);
    CountOne(x, (e: GuestEvent) => e.Signal?);
    CountConcat([x], [x], (e: GuestEvent) => e.Signal?);
    assert [x] + [x] == [x, x];
    MoreSignalsRegress(Observed(once, map[], false, None), Observed(once, map[], false, None));
    MoreSignalsRegress(Observed(once, map[], false, None), Observed(twice, map[], false, None));
  }

  // ----- progress is no order -----

  ghost predicate Advances(a: Observation, b: Observation) {
    Classify(Some(a), b) == Progress
  }

  predicate Incomparable<T>(a: set<T>, b: set<T>) {
    !(a <= b) && !(b <= a)
  }

  /** Each run saw something the other did not, or each lacks what the other gained. */
  ghost predicate Trade(a: Observation, b: Observation) {
    var guestA, guestB := GuestSet(a.artifacts.guest), GuestSet(b.artifacts.guest);
    var targetsA, targetsB := Targets(a.artifacts.network), Targets(b.artifacts.network);
    || Incomparable(guestA, guestB)
    || (guestA == guestB
        && (|| Incomparable(targetsA, targetsB)
            || (targetsA < targetsB && a.metrics.unmetTotal < b.metrics.unmetTotal)
            || (targetsB < targetsA && b.metrics.unmetTotal < a.metrics.unmetTotal)))
  }

  /** Two runs are progress over each other exactly when signals and likely blockers agree and the rest is a trade. */
  lemma {:induction false} MutualProgress(a: Observation, b: Observation)
    ensures Advances(a, b) && Advances(b, a) <==>
              && !a.goalReached && !b.goalReached
              && a.metrics.fatalSignals == b.metrics.fatalSignals
              && a.metrics.likelyUnmetTotal == b.metrics.likelyUnmetTotal
              && Trade(a, b)
  {
    hide GuestSet, Targets;
  }

  /** An input: two runs, each progress over the other. */
  lemma {:induction false} ProgressIsNoOrder() returns (a: Observation, b: Observation)
    ensures Classify(Some(a), b) == Progress && Classify(Some(b), a) == Progress
  {
    var x := Artifacts([], [], [], [OtherEvent("x")], []);
    var y := Artifacts([], [], [], [OtherEvent("y")], []);
    a := Observe(x, map[], false, None).value;
    b := Observe(y, map[], false, None).value;
    assert OtherEvent("y") in GuestSet(y.guest) && OtherEvent("y") !in GuestSet(x.guest);
    assert OtherEvent("x") in GuestSet(x.guest) && OtherEvent("x") !in GuestSet(y.guest);
    assert Count(x.guest[..0], (e: GuestEvent) => e.Signal?) == 0;
    assert Count(y.guest[..0], (e: GuestEvent) => e.Signal?) == 0;
  }
}
