/** Which stage of an attempt can lead to which. */
module StageReach {
  import opened EnvironmentManifest
  import opened Attempt

  /** Discovery can move to and fro until a boundary is ready; from then on there is only fuzzing and reconstruction, and
   * reconstruction is final. */
  predicate LeadsTo(a: Stage, b: Stage) {
    || a == b
    || (b != StaticPreflight && a != Reconstruction
        && (a in {BoundaryReady, Fuzzing} ==> b in {BoundaryReady, Fuzzing, Reconstruction}))
  }

  /** Every allowed step is one LeadsTo knows, and it composes. */
  lemma {:induction false} StepLeads(a: Stage, b: Stage, c: Stage)
    requires LeadsTo(a, b) && Allowed(b, c)
    ensures LeadsTo(a, c)
  {
  }

  lemma {:induction false} WalkLeads(initial: Stage, final: Stage, transitions: seq<Transition>)
    requires Walk(initial, final, transitions) && AllAllowed(transitions)
    ensures LeadsTo(initial, final)
    decreases |transitions|
  {
    if transitions != [] {
      var n := |transitions| - 1;
      var init := transitions[..n];
      forall i | 0 <= i < n ensures init[i].from == StageBefore(initial, init, i) {
        assert init[i] == transitions[i];
      }
      assert StageBefore(initial, init, n) == transitions[n].from;
      WalkLeads(initial, transitions[n].from, init);
      StepLeads(initial, transitions[n].from, final);
    }
  }

  // ----- a way for every pair -----

  ghost predicate Way(stages: seq<Stage>) {
    stages != [] && forall i | 0 < i < |stages| :: Allowed(stages[i - 1], stages[i])
  }

  function Steps(stages: seq<Stage>): seq<Transition>
    requires stages != []
  {
    seq(|stages| - 1, i requires 0 <= i < |stages| - 1 => Transition(i, stages[i], stages[i + 1]))
  }

  lemma {:induction false} WayWalks(stages: seq<Stage>)
    requires Way(stages)
    ensures Walk(stages[0], stages[|stages| - 1], Steps(stages)) && AllAllowed(Steps(stages))
  {
    var steps := Steps(stages);
    forall i | 0 <= i <= |steps| ensures StageBefore(stages[0], steps, i) == stages[i] {
      assert i > 0 ==> steps[i - 1].next == stages[i];
    }
    forall i | 0 <= i < |steps| ensures Allowed(steps[i].from, steps[i].next) {
      assert Allowed(stages[i + 1 - 1], stages[i + 1]);
    }
  }

  /** On to boundary discovery. */
  function Onward(a: Stage): seq<Stage> {
    match a
    case StaticPreflight =>
      [StaticPreflight, PreOepDiscovery, OepCandidate, OepValidation, PostOepStabilization, BoundaryDiscovery]
    case PreOepDiscovery => [PreOepDiscovery, OepCandidate, OepValidation, PostOepStabilization, BoundaryDiscovery]
    case OepCandidate => [OepCandidate, OepValidation, PostOepStabilization, BoundaryDiscovery]
    case OepValidation => [OepValidation, PostOepStabilization, BoundaryDiscovery]
    case PostOepStabilization => [PostOepStabilization, BoundaryDiscovery]
    case _ => [BoundaryDiscovery]
  }

  /** From boundary discovery back, or on. */
  function Beyond(b: Stage): seq<Stage> {
    match b
    case PreOepDiscovery => [PostOepStabilization, OepCandidate, PreOepDiscovery]
    case OepCandidate => [PostOepStabilization, OepCandidate]
    case OepValidation => [PostOepStabilization, OepCandidate, OepValidation]
    case PostOepStabilization => [PostOepStabilization]
    case BoundaryReady => [BoundaryReady]
    case Fuzzing => [BoundaryReady, Fuzzing]
    case Reconstruction => [BoundaryReady, Reconstruction]
    case _ => []
  }

  function WayTo(a: Stage, b: Stage): seq<Stage> {
    if a == b then [a]
    else if a == BoundaryReady then [a, b]
    else if a == Fuzzing then if b == BoundaryReady then [a, b] else [a, BoundaryReady, b]
    else Onward(a) + Beyond(b)
  }

  lemma {:induction false} OnwardIsWay(a: Stage)
    requires a !in {BoundaryReady, Fuzzing, Reconstruction}
    ensures Way(Onward(a)) && Onward(a)[0] == a && Onward(a)[|Onward(a)| - 1] == BoundaryDiscovery
  {
  }

  lemma {:induction false} BeyondIsWay(b: Stage)
    requires b != StaticPreflight
    ensures var way := [BoundaryDiscovery] + Beyond(b); Way(way) && way[|way| - 1] == b
  {
  }

  lemma {:induction false} WaysJoin(a: seq<Stage>, b: seq<Stage>)
    requires Way(a) && Way([a[|a| - 1]] + b)
    ensures Way(a + b)
  {
    var tail := [a[|a| - 1]] + b;
    forall i | 0 < i < |a + b| ensures Allowed((a + b)[i - 1], (a + b)[i]) {
      if i >= |a| {
        assert Allowed(tail[i - |a|], tail[i - |a| + 1]);
      }
    }
  }

  lemma {:induction false} WayLeads(a: Stage, b: Stage)
    requires LeadsTo(a, b)
    ensures Way(WayTo(a, b)) && WayTo(a, b)[0] == a && WayTo(a, b)[|WayTo(a, b)| - 1] == b
  {
    if a != b && a !in {BoundaryReady, Fuzzing} {
      OnwardIsWay(a);
      BeyondIsWay(b);
      WaysJoin(Onward(a), Beyond(b));
      var way := [BoundaryDiscovery] + Beyond(b);
      assert way[|way| - 1] == if Beyond(b) == [] then BoundaryDiscovery else Beyond(b)[|Beyond(b)| - 1];
    }
  }

  /** A chain of allowed transitions leads from one stage to another exactly when LeadsTo says so. */
  lemma {:induction false} ReachedExactly(a: Stage, b: Stage)
    ensures LeadsTo(a, b) <==> exists transitions :: Walk(a, b, transitions) && AllAllowed(transitions)
  {
    if LeadsTo(a, b) {
      WayLeads(a, b);
      WayWalks(WayTo(a, b));
    }
    if transitions :| Walk(a, b, transitions) && AllAllowed(transitions) {
      WalkLeads(a, b, transitions);
    }
  }
}
