/** The execution claim of one prepared iteration: runners, their sandbox scripts, resets and completions, interleaved. */
module ExecutionClaim {
  import opened Wrappers

  datatype Stage = StageClaimed | StageValidated | StagePrepared | StageExecuting | StagePostprocessing | StageCompleting
                 | StageCompleted | StageFailed

  /** execution_attempt.json; owner is the runner that created it. */
  datatype Claim = Claim(owner: nat, stage: Stage, started: bool, retrySafe: bool)

  /** How far a runner has come; Failing and what follows is its exception handler. */
  datatype Pc =
    | Idle | Checked
    | Claimed | AtValidated | HasDir | AtPrepared | AtExecuting | Running | AfterRun | AtPost | AtCompleting | AtDone
    | Failing | FailRead(started: bool) | FailChecked(started: bool, safe: bool)
    | Gone

  /** The sandbox script a runner launches; it outlives a runner that is killed. */
  datatype Script = NotLaunched | Launched | Marked | Started | Ended(ran: bool)

  datatype Runner = Runner(pc: Pc, script: Script)

  datatype Completion = NotYet | ByRunner | ByOperator(claimless: bool)

  datatype ResetStage = ResetChecked | ResetRemoved

  /** late counts guest starts that came after the iteration was completed. */
  datatype State = State(
    runners: map<nat, Runner>, claim: Option<Claim>, runDir: bool, marker: bool, clean: bool, completion: Completion,
    reset: Option<ResetStage>, starts: nat, late: nat)

  datatype Event =
    | Validated(r: nat) | ClaimTaken(r: nat) | ClaimLost(r: nat) | DirMade(r: nat) | Updated(r: nat) | LaunchedScript(r: nat)
    | ScriptMarks(r: nat) | ScriptStarts(r: nat) | ScriptTouches(r: nat, cleanAfter: bool) | ScriptEnds(r: nat)
    | Returned(r: nat) | Raised(r: nat) | ReadMarker(r: nat) | CheckedRootfs(r: nat) | WroteFailed(r: nat) | Crashed(r: nat)
    | CompletedBy(r: nat) | CompletedByOperator
    | ResetBegins | ResetRemoves | ResetUnlinks | ResetDies

  const START: State := State(map[], None, false, false, true, NotYet, None, 0, 0)

  function RunnerOf(s: State, r: nat): Runner {
    if r in s.runners then s.runners[r] else Runner(Idle, NotLaunched)
  }

  function WithPc(s: State, r: nat, pc: Pc): State {
    s.(runners := s.runners[r := RunnerOf(s, r).(pc := pc)])
  }

  function WithScript(s: State, r: nat, script: Script): State {
    s.(runners := s.runners[r := RunnerOf(s, r).(script := script)])
  }

  /** Inside the try block, where an exception leads to the handler. */
  predicate Trying(pc: Pc) {
    pc in {Claimed, AtValidated, HasDir, AtPrepared, AtExecuting, Running, AfterRun, AtPost, AtCompleting, AtDone}
  }

  predicate Active(script: Script) {
    script in {Launched, Marked, Started}
  }

  /** The stage the next _update_claim of a runner at pc writes, and where it is then. */
  function NextUpdate(pc: Pc): Option<(Stage, bool, Pc)> {
    match pc
    case Claimed => Some((StageValidated, false, AtValidated))
    case HasDir => Some((StagePrepared, false, AtPrepared))
    case AtPrepared => Some((StageExecuting, false, AtExecuting))
    case AfterRun => Some((StagePostprocessing, true, AtPost))
    case AtPost => Some((StageCompleting, true, AtCompleting))
    case AtDone => Some((StageCompleted, true, Gone))
    case _ => None
  }

  /** A claim complete_iteration lets pass. */
  predicate ReadyForCompletion(claim: Option<Claim>) {
    claim.Some? ==> claim.value.stage == StageCompleting
  }

  predicate Enabled(s: State, e: Event) {
    match e
    case Validated(r) =>
      RunnerOf(s, r).pc == Idle && s.reset.None? && s.completion == NotYet && s.clean && !s.runDir && s.claim.None?
    case ClaimTaken(r) => RunnerOf(s, r).pc == Checked && s.claim.None?
    case ClaimLost(r) => RunnerOf(s, r).pc == Checked && s.claim.Some?
    case DirMade(r) => RunnerOf(s, r).pc == AtValidated && !s.runDir
    case Updated(r) => NextUpdate(RunnerOf(s, r).pc).Some?
    case LaunchedScript(r) => RunnerOf(s, r).pc == AtExecuting
    case ScriptMarks(r) => RunnerOf(s, r).script == Launched && s.runDir
    case ScriptStarts(r) => RunnerOf(s, r).script == Marked
    case ScriptTouches(r, _) => Active(RunnerOf(s, r).script)
    case ScriptEnds(r) => Active(RunnerOf(s, r).script)
    case Returned(r) => RunnerOf(s, r).pc == Running && RunnerOf(s, r).script == Ended(true)
    case Raised(r) => Trying(RunnerOf(s, r).pc) && (RunnerOf(s, r).pc == Running ==> RunnerOf(s, r).script.Ended?)
    case ReadMarker(r) => RunnerOf(s, r).pc == Failing
    case CheckedRootfs(r) => RunnerOf(s, r).pc.FailRead?
    case WroteFailed(r) => RunnerOf(s, r).pc.FailChecked?
    case Crashed(r) => true
    case CompletedBy(r) =>
      RunnerOf(s, r).pc == AtCompleting && s.reset.None? && s.completion == NotYet && ReadyForCompletion(s.claim)
    case CompletedByOperator => s.reset.None? && s.completion == NotYet && ReadyForCompletion(s.claim)
    case ResetBegins =>
      && s.reset.None? && s.completion == NotYet && s.claim.Some? && s.claim.value.stage == StageFailed
      && !s.claim.value.started && s.claim.value.retrySafe && s.clean
    case ResetRemoves => s.reset == Some(ResetChecked)
    case ResetUnlinks => s.reset == Some(ResetRemoved)
    case ResetDies => s.reset.Some?
  }

  function Apply(s: State, e: Event): State
    requires Enabled(s, e)
  {
    match e
    case Validated(r) => WithPc(s, r, Checked)
    case ClaimTaken(r) => WithPc(s, r, Claimed).(claim := Some(Claim(r, StageClaimed, false, false)))
    case ClaimLost(r) => WithPc(s, r, Gone)
    case DirMade(r) => WithPc(s, r, HasDir).(runDir := true, marker := false)
    case Updated(r) =>
      var (stage, started, pc) := NextUpdate(RunnerOf(s, r).pc).value;
      WithPc(s, r, pc).(claim := Some(Claim(r, stage, started, false)))
    case LaunchedScript(r) => WithScript(WithPc(s, r, Running), r, Launched)
    case ScriptMarks(r) => WithScript(s, r, Marked).(marker := true)
    case ScriptStarts(r) =>
      WithScript(s, r, Started).(starts := s.starts + 1, late := s.late + if s.completion == NotYet then 0 else 1)
    case ScriptTouches(r, cleanAfter) => s.(clean := cleanAfter)
    case ScriptEnds(r) => WithScript(s, r, Ended(RunnerOf(s, r).script == Started))
    case Returned(r) => WithPc(s, r, AfterRun)
    case Raised(r) => WithPc(s, r, Failing)
    case ReadMarker(r) => WithPc(s, r, FailRead(s.marker))
    case CheckedRootfs(r) =>
      var started := RunnerOf(s, r).pc.started;
      WithPc(s, r, FailChecked(started, !started && s.clean))
    case WroteFailed(r) =>
      var FailChecked(started, safe) := RunnerOf(s, r).pc;
      WithPc(s, r, Gone).(claim := Some(Claim(r, StageFailed, started, safe)))
    case Crashed(r) => WithPc(s, r, Gone)
    case CompletedBy(r) => WithPc(s, r, AtDone).(completion := ByRunner)
    case CompletedByOperator => s.(completion := ByOperator(s.claim.None?))
    case ResetBegins => s.(reset := Some(ResetChecked))
    case ResetRemoves => s.(reset := Some(ResetRemoved), runDir := false, marker := false)
    case ResetUnlinks => s.(reset := None, claim := None)
    case ResetDies => s.(reset := None)
  }

  // ----- the invariant -----

  predicate Owns(pc: Pc) {
    Trying(pc) || pc == Failing || pc.FailRead? || pc.FailChecked?
  }

  /** Nothing this runner will still do can start a guest. */
  predicate Past(pc: Pc) {
    pc in {AfterRun, AtPost, AtCompleting, AtDone}
  }

  /** What holds of each runner. */
  predicate RunnerFits(s: State, r: nat) {
    var Runner(pc, script) := RunnerOf(s, r);
    && (Owns(pc) ==> s.claim.Some? && s.claim.value.owner == r && s.claim.value.stage != StageFailed)
    && (pc in {Idle, Checked, Claimed, AtValidated, HasDir, AtPrepared, AtExecuting} ==> script == NotLaunched)
    && (pc in {HasDir, AtPrepared, AtExecuting, Running} ==> s.runDir)
    && (pc in {AtExecuting, Running} ==> s.claim.value.stage == StageExecuting)
    && (pc == Running ==> script != NotLaunched)
    && (Active(script) ==>
          && pc in {Running, Gone} && s.claim.Some? && s.claim.value.owner == r && s.claim.value.stage == StageExecuting
            && s.runDir)
    && (script in {Marked, Started} ==> s.marker)
    && (script in {Launched, Marked} ==> s.starts == 0)
    && (script in {Started, Ended(true)} ==> s.starts > 0)
    && (Past(pc) ==> script == Ended(true))
    && ((pc == Failing || pc.FailRead? || pc.FailChecked?) ==> !Active(script))
    && (pc.FailRead? || pc.FailChecked? ==> pc.started == s.marker)
  }

  /** What holds of the files. */
  ghost predicate FilesFit(s: State) {
    && (s.starts > 0 ==>
          && s.claim.Some? && s.marker && s.runDir && s.reset.None?
          && RunnerOf(s, s.claim.value.owner).script in {Started, Ended(true)}
          && (s.claim.value.stage == StageFailed ==> s.claim.value.started))
    && s.starts <= 1
    && (s.reset.Some? ==> s.claim.Some? && s.claim.value.stage == StageFailed && !s.claim.value.started && s.starts == 0
                          && s.completion == NotYet)
    && (s.claim.Some? && s.claim.value.stage in {StagePostprocessing, StageCompleting, StageCompleted} ==> s.starts == 1)
    && (s.marker ==> s.runDir)
    && (s.claim.None? || s.reset == Some(ResetRemoved) ==> !s.runDir)
    && (s.completion == ByRunner || s.completion == ByOperator(false) ==> s.starts == 1 && s.late == 0)
    && (s.late > 0 ==> s.completion == ByOperator(true))
  }

  ghost predicate Inv(s: State) {
    (forall r: nat :: RunnerFits(s, r)) && FilesFit(s)
  }

  lemma {:induction false} Begins()
    ensures Inv(START)
  {
  }

  /** The runner whose file or script an event is about. */
  function ActorOf(s: State, e: Event): nat {
    match e
    case CompletedByOperator => 0
    case ResetBegins => 0
    case ResetRemoves => 0
    case ResetUnlinks => 0
    case ResetDies => 0
    case _ => e.r
  }

  function ClaimOwner(s: State): nat {
    if s.claim.Some? then s.claim.value.owner else 0
  }

  predicate ByScript(e: Event) {
    e.ScriptMarks? || e.ScriptStarts? || e.ScriptTouches? || e.ScriptEnds?
  }

  predicate ByNoRunner(e: Event) {
    e.CompletedByOperator? || e.ResetBegins? || e.ResetRemoves? || e.ResetUnlinks? || e.ResetDies?
  }

  predicate Fails(e: Event) {
    e.Raised? || e.ReadMarker? || e.CheckedRootfs? || e.WroteFailed?
  }

  predicate BeforeRun(e: Event) {
    e.Validated? || e.ClaimTaken? || e.ClaimLost? || e.DirMade? || e.LaunchedScript?
  }

  lemma {:induction false} KeepsEarly(s: State, e: Event)
    requires Enabled(s, e) && FilesFit(s) && BeforeRun(e) && RunnerFits(s, ActorOf(s, e))
    ensures RunnerFits(Apply(s, e), ActorOf(s, e))
  {
  }

  lemma {:induction false} KeepsUpdate(s: State, e: Event)
    requires Enabled(s, e) && FilesFit(s) && e.Updated? && RunnerFits(s, ActorOf(s, e))
    ensures RunnerFits(Apply(s, e), ActorOf(s, e))
  {
  }

  lemma {:induction false} KeepsFailing(s: State, e: Event)
    requires Enabled(s, e) && FilesFit(s) && Fails(e) && RunnerFits(s, ActorOf(s, e))
    ensures RunnerFits(Apply(s, e), ActorOf(s, e))
  {
  }

  lemma {:induction false} KeepsLate(s: State, e: Event)
    requires Enabled(s, e) && FilesFit(s) && !ByScript(e) && !ByNoRunner(e) && !BeforeRun(e) && !e.Updated? && !Fails(e)
    requires RunnerFits(s, ActorOf(s, e))
    ensures RunnerFits(Apply(s, e), ActorOf(s, e))
  {
  }

  lemma {:induction false} KeepsScript(s: State, e: Event)
    requires Enabled(s, e) && FilesFit(s) && ByScript(e) && RunnerFits(s, ActorOf(s, e))
    ensures RunnerFits(Apply(s, e), ActorOf(s, e))
  {
  }

  lemma {:induction false} KeepsOther(s: State, e: Event, r: nat)
    requires Enabled(s, e) && FilesFit(s) && !ByNoRunner(e) && r != ActorOf(s, e)
    requires RunnerFits(s, r) && RunnerFits(s, ActorOf(s, e)) && RunnerFits(s, ClaimOwner(s))
    ensures RunnerFits(Apply(s, e), r)
  {
    hide RunnerFits, FilesFit, Enabled, Apply;
    if ByScript(e) {
      OtherSeesScript(s, e, r);
    } else if BeforeRun(e) || e.Updated? {
      OtherSeesEarly(s, e, r);
    } else {
      OtherSeesLate(s, e, r);
    }
  }

  lemma {:induction false} OtherSeesScript(s: State, e: Event, r: nat)
    requires Enabled(s, e) && FilesFit(s) && ByScript(e) && r != ActorOf(s, e)
    requires RunnerFits(s, r) && RunnerFits(s, ActorOf(s, e))
    ensures RunnerFits(Apply(s, e), r)
  {
  }

  lemma {:induction false} OtherSeesEarly(s: State, e: Event, r: nat)
    requires Enabled(s, e) && FilesFit(s) && (BeforeRun(e) || e.Updated?) && r != ActorOf(s, e)
    requires RunnerFits(s, r) && RunnerFits(s, ActorOf(s, e)) && RunnerFits(s, ClaimOwner(s))
    ensures RunnerFits(Apply(s, e), r)
  {
  }

  lemma {:induction false} OtherSeesLate(s: State, e: Event, r: nat)
    requires Enabled(s, e) && FilesFit(s) && !ByNoRunner(e) && !ByScript(e) && !BeforeRun(e) && !e.Updated?
    requires r != ActorOf(s, e) && RunnerFits(s, r) && RunnerFits(s, ActorOf(s, e))
    ensures RunnerFits(Apply(s, e), r)
  {
  }

  lemma {:induction false} KeepsAll(s: State, e: Event, r: nat)
    requires Enabled(s, e) && FilesFit(s) && ByNoRunner(e)
    requires RunnerFits(s, r) && RunnerFits(s, ClaimOwner(s))
    ensures RunnerFits(Apply(s, e), r)
  {
  }

  lemma {:induction false} KeepsRunner(s: State, e: Event, r: nat)
    requires Enabled(s, e) && FilesFit(s)
    requires RunnerFits(s, r) && RunnerFits(s, ActorOf(s, e)) && RunnerFits(s, ClaimOwner(s))
    ensures RunnerFits(Apply(s, e), r)
  {
    hide FilesFit, RunnerFits, Apply, Enabled;
    if ByNoRunner(e) {
      KeepsAll(s, e, r);
    } else if r != ActorOf(s, e) {
      KeepsOther(s, e, r);
    } else if ByScript(e) {
      KeepsScript(s, e);
    } else if BeforeRun(e) {
      KeepsEarly(s, e);
    } else if e.Updated? {
      KeepsUpdate(s, e);
    } else if Fails(e) {
      KeepsFailing(s, e);
    } else {
      KeepsLate(s, e);
    }
  }

  lemma {:induction false} KeepsFiles(s: State, e: Event)
    requires Enabled(s, e) && FilesFit(s)
    requires RunnerFits(s, ActorOf(s, e)) && RunnerFits(s, ClaimOwner(s))
    ensures FilesFit(Apply(s, e))
  {
    hide RunnerFits, FilesFit, Enabled, Apply;
    if ByScript(e) {
      ScriptKeepsFiles(s, e);
    } else if ByNoRunner(e) {
      OthersKeepFiles(s, e);
    } else if BeforeRun(e) || e.Updated? {
      EarlyKeepsFiles(s, e);
    } else {
      LateKeepsFiles(s, e);
    }
  }

  lemma {:induction false} ScriptKeepsFiles(s: State, e: Event)
    requires Enabled(s, e) && FilesFit(s) && ByScript(e) && RunnerFits(s, ActorOf(s, e))
    ensures FilesFit(Apply(s, e))
  {
  }

  lemma {:induction false} OthersKeepFiles(s: State, e: Event)
    requires Enabled(s, e) && FilesFit(s) && ByNoRunner(e) && RunnerFits(s, ClaimOwner(s))
    ensures FilesFit(Apply(s, e))
  {
  }

  lemma {:induction false} EarlyKeepsFiles(s: State, e: Event)
    requires Enabled(s, e) && FilesFit(s) && (BeforeRun(e) || e.Updated?)
    requires RunnerFits(s, ActorOf(s, e)) && RunnerFits(s, ClaimOwner(s))
    ensures FilesFit(Apply(s, e))
  {
  }

  lemma {:induction false} LateKeepsFiles(s: State, e: Event)
    requires Enabled(s, e) && FilesFit(s) && !ByScript(e) && !ByNoRunner(e) && !BeforeRun(e) && !e.Updated?
    requires RunnerFits(s, ActorOf(s, e))
    ensures FilesFit(Apply(s, e))
  {
  }

  lemma {:induction false} Keeps(s: State, e: Event)
    requires Inv(s) && Enabled(s, e)
    ensures Inv(Apply(s, e))
  {
    hide FilesFit, RunnerFits, Apply, Enabled;
    forall r: nat ensures RunnerFits(Apply(s, e), r) {
      KeepsRunner(s, e, r);
    }
    KeepsFiles(s, e);
  }

  // ----- whole runs -----

  /** Any interleaving of any number of runners, scripts, crashes, exceptions, resets and completions. */
  ghost predicate Run(states: seq<State>, events: seq<Event>) {
    && |states| == |events| + 1 && states[0] == START
    && forall i | 0 <= i < |events| :: Enabled(states[i], events[i]) && states[i + 1] == Apply(states[i], events[i])
  }

  lemma {:induction false} RunKeeps(states: seq<State>, events: seq<Event>, k: nat)
    requires Run(states, events) && k < |states|
    ensures Inv(states[k])
  {
    hide Inv, Apply, Enabled;
    if k == 0 {
      Begins();
    } else {
      RunKeeps(states, events, k - 1);
      Keeps(states[k - 1], events[k - 1]);
    }
  }

  /** A prepared iteration starts its guest at most once; a completion that went by the claim has had its one start. */
  lemma {:induction false} AtMostOneStart(states: seq<State>, events: seq<Event>, k: nat)
    requires Run(states, events) && k < |states|
    ensures states[k].starts <= 1
    ensures states[k].completion == ByRunner || states[k].completion == ByOperator(false) ==>
              states[k].starts == 1 && states[k].late == 0
    ensures states[k].late > 0 ==> states[k].completion == ByOperator(true)
    ensures states[k].reset.Some? ==> states[k].starts == 0
  {
    RunKeeps(states, events, k);
  }

  /** A runner that checked the rootfs calls a retry safe only if there was no start marker. */
  predicate ChecksSoundly(s: State, r: nat) {
    var pc := RunnerOf(s, r).pc;
    pc.FailChecked? && pc.safe ==> !pc.started
  }

  /** A claim says that the guest started exactly from the stage on that follows its run, or when it failed with a start
   * marker there; and that a retry is safe only when it failed without one. */
  predicate ClaimTells(s: State) {
    s.claim.Some? ==>
      var claim := s.claim.value;
      && (claim.started <==>
            claim.stage in {StagePostprocessing, StageCompleting, StageCompleted} || (claim.stage == StageFailed && s.marker))
      && (claim.retrySafe ==> claim.stage == StageFailed && !claim.started)
  }

  lemma {:induction false} StepTells(s: State, e: Event)
    requires Inv(s) && Enabled(s, e) && ClaimTells(s) && forall r: nat :: ChecksSoundly(s, r)
    ensures ClaimTells(Apply(s, e))
  {
    assert RunnerFits(s, ActorOf(s, e)) && ChecksSoundly(s, ActorOf(s, e));
  }

  lemma {:induction false} StepChecks(s: State, e: Event)
    requires Enabled(s, e) && forall r: nat :: ChecksSoundly(s, r)
    ensures forall r: nat :: ChecksSoundly(Apply(s, e), r)
  {
    forall r: nat ensures ChecksSoundly(Apply(s, e), r) {
      assert ChecksSoundly(s, r);
    }
  }

  /** What the claim file says is so, in every state of every run. */
  lemma {:induction false} ClaimsTell(states: seq<State>, events: seq<Event>, k: nat)
    requires Run(states, events) && k < |states|
    ensures ClaimTells(states[k]) && forall r: nat :: ChecksSoundly(states[k], r)
  {
    hide Inv, Apply, Enabled, ClaimTells, ChecksSoundly;
    if k == 0 {
      NothingClaimed();
    } else {
      ClaimsTell(states, events, k - 1);
      RunKeeps(states, events, k - 1);
      StepTells(states[k - 1], events[k - 1]);
      StepChecks(states[k - 1], events[k - 1]);
    }
  }

  lemma {:induction false} NothingClaimed()
    ensures ClaimTells(START) && forall r: nat :: ChecksSoundly(START, r)
  {
  }

  /** Once a guest has started nobody can ever claim the iteration again, and no reset can begin. */
  lemma {:induction false} StartedForGood(states: seq<State>, events: seq<Event>, k: nat, r: nat)
    requires Run(states, events) && k < |states| && states[k].starts > 0
    ensures !Enabled(states[k], ClaimTaken(r)) && !Enabled(states[k], ResetBegins)
    ensures !Enabled(states[k], Validated(r)) && !Enabled(states[k], ScriptStarts(r))
  {
    RunKeeps(states, events, k);
    assert RunnerFits(states[k], r);
  }

  function After(s: State, events: seq<Event>): Option<State>
    decreases |events|
  {
    if events == [] then Some(s)
    else if !Enabled(s, events[0]) then None
    else After(Apply(s, events[0]), events[1..])
  }

  lemma {:induction false} Then(s: State, e: Event, rest: seq<Event>, final: State)
    requires Enabled(s, e) && After(Apply(s, e), rest) == Some(final)
    ensures After(s, [e] + rest) == Some(final)
  {
    hide Apply, Enabled;
    assert ([e] + rest)[1..] == rest;
  }

  lemma {:induction false} AfterNothing(s: State)
    ensures After(s, []) == Some(s)
  {
  }

  // ----- starts after a completion -----

  /** The runner can still get to a guest start on its own. */
  predicate Poised(s: State, r: nat) {
    var Runner(pc, script) := RunnerOf(s, r);
    || script == Marked
    || (s.runDir && (script == Launched || pc in {HasDir, AtPrepared, AtExecuting}))
    || (!s.runDir && (pc in {Claimed, AtValidated} || (pc == Checked && s.claim.None?)))
  }

  /** Its next event on the way. */
  function Onward(s: State, r: nat): Event
    requires Poised(s, r)
  {
    var Runner(pc, script) := RunnerOf(s, r);
    if script == Marked then ScriptStarts(r)
    else if script == Launched && s.runDir then ScriptMarks(r)
    else
      match pc
      case Checked => ClaimTaken(r)
      case AtValidated => DirMade(r)
      case AtExecuting => LaunchedScript(r)
      case _ => Updated(r)
  }

  function StepsLeft(runner: Runner): nat {
    if runner.script == Marked then 0
    else if runner.script == Launched then 1
    else
      match runner.pc
      case AtExecuting => 2
      case AtPrepared => 3
      case HasDir => 4
      case AtValidated => 5
      case Claimed => 6
      case _ => 7
  }

  lemma {:induction false} OnwardStep(s: State, r: nat)
    requires Poised(s, r) && RunnerFits(s, r)
    ensures Enabled(s, Onward(s, r))
    ensures var next := Apply(s, Onward(s, r));
            next.completion == s.completion &&
            if RunnerOf(s, r).script == Marked then
              next.starts == s.starts + 1 && next.late == s.late + if s.completion == NotYet then 0 else 1
            else
              && next.late == s.late && next.starts == s.starts && Poised(next, r)
              && StepsLeft(RunnerOf(next, r)) < StepsLeft(RunnerOf(s, r))
    ensures var (next, was) := (RunnerOf(Apply(s, Onward(s, r)), r), RunnerOf(s, r));
            && (next.pc == Gone <==> was.pc == Gone)
            && (was.script == Marked ==> next.script == Started && next.pc in {Running, Gone})
  {
  }

  /** A poised runner gets there. */
  lemma {:induction false} PoisedStarts(s: State, r: nat) returns (events: seq<Event>, final: State)
    requires Inv(s) && Poised(s, r)
    ensures After(s, events) == Some(final) && final.starts == s.starts + 1 && final.completion == s.completion
    ensures final.late == s.late + if s.completion == NotYet then 0 else 1
    ensures Inv(final) && RunnerOf(final, r).script == Started
    ensures RunnerOf(s, r).pc != Gone ==> RunnerOf(final, r).pc == Running
    decreases StepsLeft(RunnerOf(s, r))
  {
    hide After, Poised, Apply, Enabled, Onward, RunnerFits, FilesFit, StepsLeft;
    OnwardStep(s, r);
    var next := Apply(s, Onward(s, r));
    Keeps(s, Onward(s, r));
    if RunnerOf(s, r).script == Marked {
      AfterNothing(next);
      Then(s, Onward(s, r), [], next);
      return [Onward(s, r)] + [], next;
    }
    events, final := PoisedStarts(next, r);
    Then(s, Onward(s, r), events, final);
    events := [Onward(s, r)] + events;
  }

  /** Completed, with no runner poised. */
  ghost predicate Settled(s: State) {
    s.completion != NotYet && s.reset.None? && forall r: nat :: !Poised(s, r)
  }

  lemma {:induction false} StaysSettled(s: State, e: Event)
    requires Settled(s) && Enabled(s, e)
    ensures Settled(Apply(s, e)) && Apply(s, e).starts == s.starts
  {
    assert !Poised(s, ActorOf(s, e));
    forall r: nat ensures !Poised(Apply(s, e), r) {
      assert !Poised(s, r);
    }
  }

  lemma {:induction false} SettledStays(s: State, events: seq<Event>)
    requires Settled(s) && After(s, events).Some?
    ensures After(s, events).value.starts == s.starts
    decreases |events|
  {
    hide Settled, Apply, Enabled;
    if events != [] {
      StaysSettled(s, events[0]);
      SettledStays(Apply(s, events[0]), events[1..]);
    }
  }

  ghost predicate CanStillStart(s: State) {
    exists events :: After(s, events).Some? && After(s, events).value.starts > s.starts
  }

  /** After a completion a guest can still start exactly when some runner is poised. */
  lemma {:induction false} LateStartExactly(states: seq<State>, events: seq<Event>, k: nat)
    requires Run(states, events) && k < |states| && states[k].completion != NotYet
    ensures CanStillStart(states[k]) <==> exists r: nat :: Poised(states[k], r)
    ensures CanStillStart(states[k]) ==> states[k].completion == ByOperator(true) && states[k].starts == 0
  {
    hide Poised, After, RunnerFits;
    var s := states[k];
    RunKeeps(states, events, k);
    if exists r: nat :: Poised(s, r) {
      var r: nat :| Poised(s, r);
      PoisedIsUnstarted(s, r);
      var more, final := PoisedStarts(s, r);
      assert CanStillStart(s);
    }
    if CanStillStart(s) {
      var more :| After(s, more).Some? && After(s, more).value.starts > s.starts;
      if forall r: nat :: !Poised(s, r) {
        SettledStays(s, more);
      }
    }
  }

  lemma {:induction false} PoisedIsUnstarted(s: State, r: nat)
    requires Inv(s) && Poised(s, r) && s.completion != NotYet
    ensures s.completion == ByOperator(true) && s.starts == 0
  {
    assert RunnerFits(s, r) && RunnerFits(s, ClaimOwner(s));
  }

  /** An operator's completion leaves a late start open exactly when no claim is there and some runner has validated. */
  lemma {:induction false} OperatorLeavesOpen(states: seq<State>, events: seq<Event>, k: nat)
    requires Run(states, events) && k < |states| && Enabled(states[k], CompletedByOperator)
    ensures CanStillStart(Apply(states[k], CompletedByOperator)) <==>
              states[k].claim.None? && exists r: nat :: RunnerOf(states[k], r).pc == Checked
  {
    var s := states[k];
    RunKeeps(states, events, k);
    var all, run := states[..k + 1] + [Apply(s, CompletedByOperator)], events[..k] + [CompletedByOperator];
    ExtendedRun(states, events, k);
    LateStartExactly(all, run, k + 1);
    forall r: nat
      ensures Poised(Apply(s, CompletedByOperator), r) <==> s.claim.None? && RunnerOf(s, r).pc == Checked
    {
      OpenRunner(s, r);
    }
  }

  lemma {:induction false} ExtendedRun(states: seq<State>, events: seq<Event>, k: nat)
    requires Run(states, events) && k < |states| && Enabled(states[k], CompletedByOperator)
    ensures Run(states[..k + 1] + [Apply(states[k], CompletedByOperator)], events[..k] + [CompletedByOperator])
  {
    hide Enabled, Apply;
  }

  lemma {:induction false} OpenRunner(s: State, r: nat)
    requires Inv(s) && Enabled(s, CompletedByOperator)
    ensures Poised(Apply(s, CompletedByOperator), r) <==> s.claim.None? && RunnerOf(s, r).pc == Checked
  {
    assert RunnerFits(s, r) && RunnerFits(s, ClaimOwner(s));
  }

  // ----- what a runner can do -----

  /** A runner whose guest has started, and whose script runs on, can end it and complete the iteration. */
  lemma {:induction false} StartedCompletes(s: State, r: nat) returns (events: seq<Event>, final: State)
    requires Inv(s) && RunnerOf(s, r) == Runner(Running, Started) && s.completion == NotYet
    ensures After(s, events) == Some(final)
    ensures final.completion == ByRunner && final.starts == s.starts && final.late == s.late
    ensures final.claim.Some? && final.claim.value.stage == StageCompleted && final.claim.value.started
  {
    hide After, Inv, Enabled, Apply;
    StartedNeverReset(s, r);
    var s1 := ScriptDone(s, r);
    var s2 := Advances(s1, r);
    var s3 := Advances(s2, r);
    var s4 := CompletesNow(s3, r);
    final := Advances(s4, r);
    AfterNothing(final);
    Then(s4, Updated(r), [], final);
    events := [Updated(r)] + [];
    Then(s3, CompletedBy(r), events, final);
    events := [CompletedBy(r)] + events;
    Then(s2, Updated(r), events, final);
    events := [Updated(r)] + events;
    Then(s1, Updated(r), events, final);
    events := [Updated(r)] + events;
    var s0 := Apply(s, ScriptEnds(r));
    Then(s0, Returned(r), events, final);
    events := [Returned(r)] + events;
    Then(s, ScriptEnds(r), events, final);
    events := [ScriptEnds(r)] + events;
  }

  /** The script ends and the runner returns from it. */
  lemma {:induction false} ScriptDone(s: State, r: nat) returns (next: State)
    requires RunnerOf(s, r) == Runner(Running, Started)
    ensures Enabled(s, ScriptEnds(r)) && Enabled(Apply(s, ScriptEnds(r)), Returned(r))
    ensures next == Apply(Apply(s, ScriptEnds(r)), Returned(r)) && RunnerOf(next, r).pc == AfterRun
    ensures next.completion == s.completion && next.reset == s.reset && next.starts == s.starts && next.late == s.late
  {
    next := Apply(Apply(s, ScriptEnds(r)), Returned(r));
  }

  /** One update of the claim. */
  lemma {:induction false} Advances(s: State, r: nat) returns (next: State)
    requires NextUpdate(RunnerOf(s, r).pc).Some?
    ensures Enabled(s, Updated(r)) && next == Apply(s, Updated(r))
    ensures var (stage, started, pc) := NextUpdate(RunnerOf(s, r).pc).value;
            RunnerOf(next, r).pc == pc && next.claim == Some(Claim(r, stage, started, false))
    ensures next.completion == s.completion && next.reset == s.reset && next.starts == s.starts && next.late == s.late
  {
    next := Apply(s, Updated(r));
  }

  lemma {:induction false} CompletesNow(s: State, r: nat) returns (next: State)
    requires RunnerOf(s, r).pc == AtCompleting && s.reset.None? && s.completion == NotYet
    requires s.claim.Some? && s.claim.value.stage == StageCompleting
    ensures Enabled(s, CompletedBy(r)) && next == Apply(s, CompletedBy(r))
    ensures RunnerOf(next, r).pc == AtDone && next.completion == ByRunner
    ensures next.reset == s.reset && next.starts == s.starts && next.late == s.late
  {
    next := Apply(s, CompletedBy(r));
  }

  lemma {:induction false} StartedNeverReset(s: State, r: nat)
    requires Inv(s) && RunnerOf(s, r).script == Started
    ensures s.reset.None? && s.starts > 0
  {
    assert RunnerFits(s, r);
  }

  /** Alone, a runner starts the guest once and completes its iteration. */
  lemma {:induction false} UndisturbedRun(r: nat) returns (before: seq<Event>, middle: State, after: seq<Event>, final: State)
    ensures After(START, before) == Some(middle) && middle.starts == 1 && middle.completion == NotYet
    ensures After(middle, after) == Some(final) && final.starts == 1 && final.completion == ByRunner && final.late == 0
  {
    hide After;
    var s := Apply(START, Validated(r));
    Begins();
    Keeps(START, Validated(r));
    assert Poised(s, r) && s.starts == 0 && s.late == 0 && s.completion == NotYet;
    before, middle := PoisedStarts(s, r);
    Then(START, Validated(r), before, middle);
    before := [Validated(r)] + before;
    after, final := StartedCompletes(middle, r);
  }

  /** After a failure that started nothing and left the rootfs as it was, a reset lets the next runner validate. */
  lemma {:induction false} SafeFailureResets(s: State, r: nat) returns (events: seq<Event>, final: State)
    requires s.completion == NotYet && s.reset.None? && s.clean && RunnerOf(s, r).pc == Idle
    requires s.claim.Some? && s.claim.value.stage == StageFailed && !s.claim.value.started && s.claim.value.retrySafe
    ensures After(s, events) == Some(final) && final.claim.None? && final.starts == s.starts && Enabled(final, Validated(r))
  {
    hide After;
    var s1 := Apply(s, ResetBegins);
    var s2 := Apply(s1, ResetRemoves);
    final := Apply(s2, ResetUnlinks);
    AfterNothing(final);
    Then(s2, ResetUnlinks, [], final);
    events := [ResetUnlinks] + [];
    Then(s1, ResetRemoves, events, final);
    events := [ResetRemoves] + events;
    Then(s, ResetBegins, events, final);
    events := [ResetBegins] + events;
  }

  /** A runner that fails records whether the guest was marked, and as safe only what was neither marked nor dirty. */
  lemma {:induction false} FailureTells(s: State, r: nat) returns (events: seq<Event>, final: State)
    requires RunnerOf(s, r).pc == Failing
    ensures After(s, events) == Some(final)
    ensures final.claim == Some(Claim(r, StageFailed, s.marker, !s.marker && s.clean))
  {
    hide After;
    var s1 := Apply(s, ReadMarker(r));
    var s2 := Apply(s1, CheckedRootfs(r));
    final := Apply(s2, WroteFailed(r));
    AfterNothing(final);
    Then(s2, WroteFailed(r), [], final);
    events := [WroteFailed(r)] + [];
    Then(s1, CheckedRootfs(r), events, final);
    events := [CheckedRootfs(r)] + events;
    Then(s, ReadMarker(r), events, final);
    events := [ReadMarker(r)] + events;
  }

  /** An input: a runner that validated before an operator completed the iteration without a claim starts the guest. */
  lemma {:induction false} LateStart() returns (events: seq<Event>, s: State)
    ensures After(START, events) == Some(s) && s.late == 1 && s.completion == ByOperator(true)
  {
    hide After;
    var s1 := Apply(START, Validated(0));
    var s2 := Apply(s1, CompletedByOperator);
    Begins();
    Keeps(START, Validated(0));
    Keeps(s1, CompletedByOperator);
    assert s1.late == 0 && s1.claim.None? && s2.late == 0 && s2.completion == ByOperator(true);
    events, s := PoisedStarts(s2, 0);
    Then(s1, CompletedByOperator, events, s);
    events := [CompletedByOperator] + events;
    Then(START, Validated(0), events, s);
    events := [Validated(0)] + events;
  }
}
