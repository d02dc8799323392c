/** The mutable half of the applier: creating directories in a rootfs and undoing them when a step fails. */
module RepairTransaction {
  import opened Wrappers
  import opened Rootfs
  import opened RepairApplier

  /** The one operating-system failure a run may meet: the n-th mkdir, the n-th chmod, or saving the report. */
  datatype Fault = NoFault | MkdirFails(n: nat) | ChmodFails(n: nat) | SaveFails

  datatype Status = Unselected | Planned | Applied | AlreadySatisfied | RolledBack

  datatype State = DryRun | Completed | Failed

  datatype Report = Report(state: State, statuses: seq<Status>, rollbackErrors: seq<Path>, error: Option<ApplyError>)

  function PlannedStatus(p: Prepared): Status {
    if p.Skipped? then Unselected else if p.satisfied then AlreadySatisfied else Planned
  }

  function AppliedStatus(p: Prepared): Status {
    if PlannedStatus(p) == Planned then Applied else PlannedStatus(p)
  }

  /** created lists the paths of the first makes. */
  ghost predicate Follows(created: seq<Path>, makes: seq<Make>) {
    |created| <= |makes| && forall i | 0 <= i < |created| :: created[i] == makes[i].path
  }

  /** The prefixes of a directory that got stuck which the old tree lacked. */
  ghost predicate Stays(base: Nodes, stuck: Option<Path>, p: Path) {
    stuck.Some? && p <= stuck.value && p !in base
  }

  /** The call at which creation stops, when the fault falls inside the list. */
  function StopsAt(fault: Fault, total: nat): Option<nat> {
    match fault
    case MkdirFails(n) => if n < total then Some(n) else None
    case ChmodFails(n) => if n < total then Some(n) else None
    case _ => None
  }

  class Transaction {
    var nodes: Nodes
    var created: seq<Path>
    var calls: nat
    const fault: Fault
    const masked: nat -> nat
    const inspects: Path -> bool

    /** A transaction over this rootfs; `masked` is what the process umask leaves of a mode, and `inspects` says where
     * lstat tells what is there, or that nothing is. */
    constructor (nodes: Nodes, fault: Fault, masked: nat -> nat, inspects: Path -> bool)
      ensures this.nodes == nodes && created == [] && calls == 0
      ensures this.fault == fault && this.masked == masked && this.inspects == inspects
    {
      this.nodes := nodes;
      this.created := [];
      this.calls := 0;
      this.fault := fault;
      this.masked := masked;
      this.inspects := inspects;
    }

    /** path.mkdir then chmod; only after both is the path logged for rollback. */
    method MakeDirectory(path: Path, mode: nat) returns (error: Option<ApplyError>, made: bool)
      requires path != []
      modifies this
      ensures calls == old(calls) + 1
      ensures error.None? ==> created == if made then old(created) + [path] else old(created)
      ensures error.Some? ==> created == old(created)
      ensures path !in old(nodes) && IsDir(old(nodes), Parent(path)) ==>
                && (error.None? <==> StopsAt(fault, calls) != Some(old(calls)))
                && (error.Some? ==> error == Some(ErrorOf(fault)))
                && (error.None? ==> made && nodes == old(nodes)[path := Dir(mode)])
                && (fault == MkdirFails(old(calls)) ==> nodes == old(nodes))
                && (fault == ChmodFails(old(calls)) ==> nodes == old(nodes)[path := Dir(masked(mode))])
      ensures path in old(nodes) ==> nodes == old(nodes) && !made
    {
      var call := calls;
      calls := calls + 1;
      made := false;
      if fault == MkdirFails(call) {
        return Some(MkdirFailed), false;
      }
      if path in nodes {
        match nodes[path] {
          case Link(_) => return Some(SymlinkCrossed), false;
          case File(_) => return Some(NotADirectory), false;
          case Dir(_) => return None, false;
        }
      }
      if !IsDir(nodes, Parent(path)) {
        return Some(MkdirFailed), false;
      }
      nodes := nodes[path := Dir(masked(mode))];
      if fault == ChmodFails(call) {
        return Some(ChmodFailed), false;
      }
      nodes := nodes[path := Dir(mode)];
      created := created + [path];
      return None, true;
    }

    /** The first k directories of the plan are made, and the fault lies further on. */
    ghost predicate Progress(base: Nodes, makes: seq<Make>, k: nat)
      reads this
    {
      && k <= |makes| && nodes == Made(base, makes[..k])
      && Follows(created, makes) && |created| == calls == k
      && forall n | 0 <= n < k :: StopsAt(fault, |makes|) != Some(n)
    }

    /** Make the directories of one prepared decision; `makes` lists every directory of the plan. */
    method ApplyItem(item: Prepared, ghost base: Nodes, ghost makes: seq<Make>, ghost first: nat)
      returns (error: Option<ApplyError>)
      requires item.Prepared? && first + |item.creates| <= |makes| && Orderly(base, makes)
      requires makes[first..first + |item.creates|] == MakesOf(item)
      requires Progress(base, makes, first)
      modifies this
      ensures error.None? ==> Progress(base, makes, first + |item.creates|)
      ensures error.Some? ==> StoppedAt(base, makes) && error == Some(ErrorOf(fault))
    {
      for j := 0 to |item.creates|
        invariant Progress(base, makes, first + j)
      {
        assert makes[first + j] == makes[first..first + |item.creates|][j] == Make(item.creates[j], item.mode);
        error := ApplyNext(item.creates[j], item.mode, base, makes, first + j);
        if error.Some? {
          return;
        }
      }
      error := None;
    }

    method ApplyNext(path: Path, mode: nat, ghost base: Nodes, ghost makes: seq<Make>, ghost at: nat)
      returns (error: Option<ApplyError>)
      requires at < |makes| && makes[at] == Make(path, mode)
      requires Orderly(base, makes) && Progress(base, makes, at)
      modifies this
      ensures error.None? ==> Progress(base, makes, at + 1)
      ensures error.Some? ==> StoppedAt(base, makes) && error == Some(ErrorOf(fault))
    {
      NextMake(base, makes, at);
      var made;
      error, made := MakeDirectory(path, mode);
    }

    /** Creation stopped at the fault: what is made so far, and the directory whose chmod failed, if that is why. */
    ghost predicate StoppedAt(base: Nodes, makes: seq<Make>)
      reads this
    {
      match StopsAt(fault, |makes|)
      case None => false
      case Some(n) =>
        && n < |makes| && |created| == n && Follows(created, makes)
        && nodes == if fault.ChmodFails? then Made(base, makes[..n])[makes[n].path := Dir(masked(makes[n].mode))]
                    else Made(base, makes[..n])
    }

    /** A decision that selects nothing, or whose directory is there, needs no step. */
    method ApplyOne(item: Prepared, ghost base: Nodes, ghost makes: seq<Make>, ghost first: nat)
      returns (error: Option<ApplyError>)
      requires item.Prepared? ==> (item.satisfied <==> item.creates == [])
      requires Orderly(base, makes) && Progress(base, makes, first) && Slot(item, makes, first, first + |MakesOf(item)|)
      modifies this
      ensures error.None? ==> Progress(base, makes, first + |MakesOf(item)|)
      ensures error.Some? ==> StoppedAt(base, makes) && error == Some(ErrorOf(fault))
    {
      error := None;
      if item.Prepared? && !item.satisfied {
        error := ApplyItem(item, base, makes, first);
      }
    }

    method ApplyPrepared(prepared: seq<Prepared>, ghost base: Nodes, ghost makes: seq<Make>, ghost offsets: seq<nat>)
      returns (r: Result<seq<Status>, ApplyError>)
      requires Orderly(base, makes) && LaidOut(prepared, makes, offsets)
      requires forall i | 0 <= i < |prepared| && prepared[i].Prepared? :: prepared[i].satisfied <==> prepared[i].creates == []
      requires nodes == base && created == [] && calls == 0
      modifies this
      ensures r.Ok? ==> Progress(base, makes, |makes|)
      ensures r.Ok? ==> |r.value| == |prepared| && forall i | 0 <= i < |prepared| :: r.value[i] == AppliedStatus(prepared[i])
      ensures r.Err? ==> StoppedAt(base, makes) && r.error == ErrorOf(fault)
    {
      var statuses: seq<Status> := [];
      assert makes[..0] == [];
      for i := 0 to |prepared|
        invariant |statuses| == i && forall k | 0 <= k < i :: statuses[k] == AppliedStatus(prepared[k])
        invariant Progress(base, makes, offsets[i])
      {
        assert Slot(prepared[i], makes, offsets[i], offsets[i + 1]);
        var error := ApplyOne(prepared[i], base, makes, offsets[i]);
        if error.Some? {
          return Err(error.value);
        }
        statuses := statuses + [AppliedStatus(prepared[i])];
      }
      r := Ok(statuses);
    }

    /** rmdir of the logged paths in reverse; a directory that is not empty stays and is reported. */
    method Rollback(ghost base: Nodes, ghost makes: seq<Make>, ghost stuck: Option<Path>) returns (errors: seq<Path>)
      requires Rooted(base) && Orderly(base, makes) && Follows(created, makes)
      requires stuck.Some? ==> |created| < |makes| && stuck.value == makes[|created|].path
      requires forall p :: p in nodes <==> Remains(base, makes, |created|, stuck, p)
      requires forall i | 0 <= i < |created| :: IsDir(nodes, makes[i].path)
      modifies this`nodes
      ensures forall p :: p in nodes <==> p in base || Stays(base, stuck, p)
      ensures forall p | p in nodes :: p in old(nodes) && nodes[p] == old(nodes)[p]
      ensures forall p :: p in errors <==> p in created && Stays(base, stuck, p)
    {
      errors := [];
      for i := |created| downto 0
        invariant forall p :: p in nodes <==> Remains(base, makes, i, stuck, p)
        invariant forall p | p in nodes :: p in old(nodes) && nodes[p] == old(nodes)[p]
        invariant forall p :: p in errors <==> p in created[i..] && Stays(base, stuck, p)
      {
        var path := created[i];
        assert path == makes[i].path;
        ChildRemains(base, makes, i, stuck, nodes);
        RemovalStep(base, makes, i, stuck);
        assert created[i..] == [path] + created[i + 1..];
        if path in nodes {
          if !IsDir(nodes, path) || HasChild(nodes, path) {
            errors := errors + [path];
          } else {
            nodes := nodes - {path};
          }
        }
      }
      assert created[0..] == created && makes[..0] == [];
    }

    /** Roll back from wherever creation stopped, or from the end when only the report could not be saved. */
    method Undo(ghost base: Nodes, ghost makes: seq<Make>) returns (errors: seq<Path>)
      requires Rooted(base) && Orderly(base, makes)
      requires StoppedAt(base, makes) || Progress(base, makes, |makes|)
      modifies this`nodes
      ensures Undone(base, makes, old(StoppedAt(base, makes)))
      ensures forall p :: p in errors <==> p in created && Stays(base, Stuck(makes, old(StoppedAt(base, makes))), p)
    {
      ghost var stuck := Stuck(makes, StoppedAt(base, makes));
      StoppedNodes(base, makes);
      errors := Rollback(base, makes, stuck);
    }

    /** The directory whose chmod failed, when that is how creation stopped. */
    ghost function Stuck(makes: seq<Make>, stopped: bool): Option<Path> {
      match StopsAt(fault, |makes|)
      case Some(n) => if stopped && fault.ChmodFails? && n < |makes| then Some(makes[n].path) else None
      case None => None
    }

    /** The old tree is back, but for a directory whose chmod failed and its new ancestors. */
    ghost predicate Undone(base: Nodes, makes: seq<Make>, stopped: bool)
      reads this
    {
      && (forall p :: p in nodes <==> p in base || Stays(base, Stuck(makes, stopped), p))
      && (forall p | p in base :: p in nodes && nodes[p] == base[p])
    }

    lemma {:induction false} StoppedNodes(base: Nodes, makes: seq<Make>)
      requires Rooted(base) && Orderly(base, makes)
      requires StoppedAt(base, makes) || Progress(base, makes, |makes|)
      ensures Follows(created, makes)
      ensures var stuck := Stuck(makes, StoppedAt(base, makes));
              && (stuck.Some? ==> |created| < |makes| && stuck.value == makes[|created|].path)
              && (forall p :: p in nodes <==> Remains(base, makes, |created|, stuck, p))
      ensures forall i | 0 <= i < |created| :: IsDir(nodes, makes[i].path)
      ensures forall p | p in base :: p in nodes && nodes[p] == base[p]
    {
      var n := |created|;
      OrderlyPrefix(base, makes, n);
      MadeExtends(base, makes[..n]);
      forall i | 0 <= i < n ensures IsDir(Made(base, makes[..n]), makes[i].path) {
        assert makes[..n][i].path == makes[i].path;
      }
      if StoppedAt(base, makes) && fault.ChmodFails? {
        assert OrderlyAt(base, makes, n);
        StuckPrefixes(base, makes, n);
      }
    }

    /** apply_file after the plan is read: preflight, then creation, then the report; any failure is rolled back. */
    method ApplyFile(requests: seq<Request>, dryRun: bool) returns (report: Report)
      requires Rooted(nodes) && created == [] && calls == 0
      modifies this
      ensures report.state == Outcome(old(nodes), requests, dryRun, fault, inspects)
      ensures report.state == Completed ==> nodes == Made(old(nodes), PlanMakes(old(nodes), requests))
      ensures report.state == DryRun ==> nodes == old(nodes)
      ensures Ready(old(nodes), requests, inspects) ==> |report.statuses| == |requests|
      ensures report.state == Completed ==>
                forall i | 0 <= i < |requests| :: report.statuses[i] == AppliedStatus(PreparedAt(old(nodes), requests, i))
      ensures report.state == Completed ==>
                forall i | 0 <= i < |requests| :: StatusTells(old(nodes), requests, i, report.statuses[i], Applied)
      ensures report.state == DryRun ==>
                forall i | 0 <= i < |requests| :: StatusTells(old(nodes), requests, i, report.statuses[i], Planned)
      ensures report.error.Some? <==> report.state == Failed
      ensures Ready(old(nodes), requests, inspects) && report.state == Failed ==> report.error == Some(ErrorOf(fault))
      ensures !Ready(old(nodes), requests, inspects) ==> report.error.Some? && exists n ::
                0 <= n < |requests| && RefusedAt(old(nodes), requests, n, inspects, report.error.value)
      ensures report.state == Failed ==> forall p ::
                p in report.rollbackErrors <==>
                  p in created && Stays(old(nodes), Leftover(old(nodes), requests, dryRun, fault, inspects), p)
      ensures Ready(old(nodes), requests, inspects) && report.state == Failed && !dryRun ==>
                Follows(created, PlanMakes(old(nodes), requests))
                && |created| == (if fault == SaveFails then |PlanMakes(old(nodes), requests)| else fault.n)
      ensures report.state == DryRun ==>
                forall i | 0 <= i < |requests| :: report.statuses[i] == PlannedStatus(PreparedAt(old(nodes), requests, i))
      ensures report.state == Failed && Ready(old(nodes), requests, inspects) && !dryRun ==>
                forall i | 0 <= i < |requests| :: report.statuses[i] == RolledBack
                  <==> exists p :: p in created && p in CreatesOf(PreparedAt(old(nodes), requests, i))
      ensures report.state == Failed ==> forall p ::
                p in nodes <==> p in old(nodes) || Stays(old(nodes), Leftover(old(nodes), requests, dryRun, fault, inspects), p)
      ensures report.state == Failed ==> forall p | p in old(nodes) :: p in nodes && nodes[p] == old(nodes)[p]
      ensures report.state == Failed ==>
                (nodes == old(nodes) <==> Leftover(old(nodes), requests, dryRun, fault, inspects).None?)
    {
      hide StatusTells, AppliedStatus, PlannedStatus, PreparedAt, Made, CreatesOf, PlanMakes, RefusedAt;
      ghost var base := nodes;
      if Accepts(nodes, requests) {
        StatusesTell(nodes, requests);
      }
      var preflight := Preflight(nodes, requests, inspects);
      if preflight.Err? {
        return Report(Failed, [], [], Some(preflight.error));
      }
      var prepared := preflight.value;
      if dryRun {
        var planned := seq(|prepared|, i requires 0 <= i < |prepared| => PlannedStatus(prepared[i]));
        if fault == SaveFails {
          return Report(Failed, planned, [], Some(SaveFailed));
        }
        return Report(DryRun, planned, [], None);
      }
      report := Execute(requests, prepared);
    }

    /** Creation and the report, once preflight has passed; any failure is rolled back. */
    method Execute(requests: seq<Request>, prepared: seq<Prepared>) returns (report: Report)
      requires Rooted(nodes) && created == [] && calls == 0 && Ready(nodes, requests, inspects)
      requires |prepared| == |requests| && forall i | 0 <= i < |requests| :: prepared[i] == PreparedAt(nodes, requests, i)
      modifies this
      ensures report.state == Outcome(old(nodes), requests, false, fault, inspects)
      ensures |report.statuses| == |requests|
      ensures report.error == if report.state == Failed then Some(ErrorOf(fault)) else None
      ensures report.state == Completed ==> nodes == Made(old(nodes), PlanMakes(old(nodes), requests))
      ensures report.state == Completed ==>
                forall i | 0 <= i < |requests| :: report.statuses[i] == AppliedStatus(PreparedAt(old(nodes), requests, i))
      ensures report.state == Failed ==>
                Follows(created, PlanMakes(old(nodes), requests))
                && |created| == (if fault == SaveFails then |PlanMakes(old(nodes), requests)| else fault.n)
      ensures report.state == Failed ==>
                forall i | 0 <= i < |requests| :: report.statuses[i] == RolledBack
                  <==> exists p :: p in created && p in CreatesOf(PreparedAt(old(nodes), requests, i))
      ensures report.state == Failed ==> forall p ::
                p in report.rollbackErrors <==>
                  p in created && Stays(old(nodes), Leftover(old(nodes), requests, false, fault, inspects), p)
      ensures report.state == Failed ==> forall p ::
                p in nodes <==> p in old(nodes) || Stays(old(nodes), Leftover(old(nodes), requests, false, fault, inspects), p)
      ensures report.state == Failed ==> forall p | p in old(nodes) :: p in nodes && nodes[p] == old(nodes)[p]
      ensures report.state == Failed ==>
                (nodes == old(nodes) <==> Leftover(old(nodes), requests, false, fault, inspects).None?)
    {
      hide Made, CreatesOf, Inspectable, Stays, PreparedAt, Accepts, Rooted;
      ghost var base := nodes;
      LeftoverIsNew(base, requests, false, fault, inspects);
      ghost var makes := PlanMakes(base, requests);
      ghost var offsets := PlanLaidOut(base, requests, prepared);
      var applied := ApplyPrepared(prepared, base, makes, offsets);
      if applied.Ok? && fault != SaveFails {
        assert makes[..|makes|] == makes;
        return Report(Completed, applied.value, [], None);
      }
      var errors := Undo(base, makes);
      var planned := seq(|prepared|, i requires 0 <= i < |prepared| => PlannedStatus(prepared[i]));
      var marked := MarkRolledBack(if applied.Ok? then applied.value else planned, prepared, created);
      report := Report(Failed, marked, errors, Some(if applied.Err? then applied.error else SaveFailed));
      Restored(base, nodes, Leftover(base, requests, false, fault, inspects));
    }

  }

  /** Some directory on the way to request i is neither there nor on the way to an earlier selected one. */
  ghost predicate AsksForNew(nodes: Nodes, requests: seq<Request>, i: nat)
    requires i < |requests|
  {
    exists p :: Wants(requests[i], p) && p !in nodes && !WantedBy(requests, i, p)
  }

  /** A decision that asks for a new directory has this status; another one is satisfied if it is selected. */
  ghost predicate StatusTells(nodes: Nodes, requests: seq<Request>, i: nat, status: Status, asked: Status)
    requires i < |requests|
  {
    && (status == asked <==> AsksForNew(nodes, requests, i))
    && (status == AlreadySatisfied <==> requests[i].Selected? && !AsksForNew(nodes, requests, i))
    && (status == Unselected <==> requests[i].NotSelected?)
  }

  lemma {:induction false} StatusesTell(nodes: Nodes, requests: seq<Request>)
    requires Rooted(nodes) && Accepts(nodes, requests)
    ensures forall i | 0 <= i < |requests| ::
              && StatusTells(nodes, requests, i, PlannedStatus(PreparedAt(nodes, requests, i)), Planned)
              && StatusTells(nodes, requests, i, AppliedStatus(PreparedAt(nodes, requests, i)), Applied)
  {
    hide PassesAt, StatusTells, PreparedAt;
    forall i | 0 <= i < |requests|
      ensures StatusTells(nodes, requests, i, PlannedStatus(PreparedAt(nodes, requests, i)), Planned)
      ensures StatusTells(nodes, requests, i, AppliedStatus(PreparedAt(nodes, requests, i)), Applied)
    {
      PassesThere(nodes, requests, i);
      CreatesAreNew(nodes, requests, i);
      StatusTold(nodes, requests, i);
    }
  }

  lemma {:induction false} PassesThere(nodes: Nodes, requests: seq<Request>, i: nat)
    requires Accepts(nodes, requests) && i < |requests|
    ensures PassesAt(nodes, requests, i)
  {
  }

  lemma {:induction false} StatusTold(nodes: Nodes, requests: seq<Request>, i: nat)
    requires i < |requests| && PassesAt(nodes, requests, i)
    requires requests[i].Selected? ==>
               (CreatesOf(PreparedAt(nodes, requests, i)) != [] <==> AsksForNew(nodes, requests, i))
    ensures StatusTells(nodes, requests, i, PlannedStatus(PreparedAt(nodes, requests, i)), Planned)
    ensures StatusTells(nodes, requests, i, AppliedStatus(PreparedAt(nodes, requests, i)), Applied)
  {
    hide AsksForNew, Virtual, Missing, Clear;
    NothingAsked(nodes, requests, i);
  }

  lemma {:induction false} NothingAsked(nodes: Nodes, requests: seq<Request>, i: nat)
    requires i < |requests|
    ensures AsksForNew(nodes, requests, i) ==> requests[i].Selected?
  {
  }

  /** What a decision creates are the prefixes of its path that nobody else made or will have made. */
  lemma {:induction false} CreatesAreNew(nodes: Nodes, requests: seq<Request>, i: nat)
    requires Rooted(nodes) && Accepts(nodes, requests) && i < |requests| && PassesAt(nodes, requests, i)
    ensures requests[i].Selected? ==>
              (CreatesOf(PreparedAt(nodes, requests, i)) != [] <==> AsksForNew(nodes, requests, i))
  {
    if requests[i].Selected? {
      var path, virtual := requests[i].shape.value.0, Virtual(nodes, requests, i);
      MakesUpTo(nodes, requests, i);
      MissingMembers(nodes, virtual, path, |path|);
      hide Missing, Virtual, Accepts, PassesAt;
      forall p ensures p in virtual <==> p !in nodes && WantedBy(requests, i, p) {
      }
      var creates := CreatesOf(PreparedAt(nodes, requests, i));
      assert creates == Missing(nodes, virtual, path, |path|);
      if creates != [] {
        assert creates[0] in creates;
        assert Wants(requests[i], creates[0]);
      }
      if AsksForNew(nodes, requests, i) {
        var p :| Wants(requests[i], p) && p !in nodes && !WantedBy(requests, i, p);
        assert p in creates;
      }
    }
  }

  lemma {:induction false} MissingMembers(nodes: Nodes, virtual: set<Path>, path: Path, k: nat)
    requires k <= |path|
    ensures forall p :: p in Missing(nodes, virtual, path, k) <==>
                          p != [] && p <= path && |p| <= k && p !in virtual && p !in nodes
  {
    if k > 0 {
      MissingMembers(nodes, virtual, path, k - 1);
      assert forall p | p <= path && |p| == k :: p == path[..k];
    }
  }

  /** What a run that failed after preflight failed of. */
  function ErrorOf(fault: Fault): ApplyError {
    match fault
    case MkdirFails(_) => MkdirFailed
    case ChmodFails(_) => ChmodFailed
    case _ => SaveFailed
  }

  function Outcome(nodes: Nodes, requests: seq<Request>, dryRun: bool, fault: Fault, inspects: Path -> bool): State {
    if !Ready(nodes, requests, inspects) || fault == SaveFails then Failed
    else if dryRun then DryRun
    else if StopsAt(fault, |PlanMakes(nodes, requests)|).Some? then Failed
    else Completed
  }

  /** The directory a failed run cannot take back: the one whose chmod failed. */
  function Leftover(nodes: Nodes, requests: seq<Request>, dryRun: bool, fault: Fault, inspects: Path -> bool): Option<Path> {
    if dryRun || !Ready(nodes, requests, inspects) || !fault.ChmodFails? then None
    else
      var makes := PlanMakes(nodes, requests);
      if fault.n < |makes| then Some(makes[fault.n].path) else None
  }

  /** Decisions some of whose planned directories had been made are reported as rolled back. */
  method MarkRolledBack(statuses: seq<Status>, prepared: seq<Prepared>, created: seq<Path>) returns (r: seq<Status>)
    requires |statuses| == |prepared|
    ensures |r| == |statuses|
    ensures forall i | 0 <= i < |r| ::
              r[i] == if exists p :: p in created && p in CreatesOf(prepared[i]) then RolledBack else statuses[i]
  {
    r := [];
    for i := 0 to |statuses|
      invariant |r| == i
      invariant forall k | 0 <= k < i ::
                  r[k] == if exists p :: p in created && p in CreatesOf(prepared[k]) then RolledBack else statuses[k]
    {
      if exists p :: p in created && p in CreatesOf(prepared[i]) {
        r := r + [RolledBack];
      } else {
        r := r + [statuses[i]];
      }
    }
  }

  lemma {:induction false} PlanLaidOut(nodes: Nodes, requests: seq<Request>, prepared: seq<Prepared>)
    returns (offsets: seq<nat>)
    requires Rooted(nodes) && Accepts(nodes, requests) && |prepared| == |requests|
    requires forall i | 0 <= i < |requests| :: prepared[i] == PreparedAt(nodes, requests, i)
    ensures Orderly(nodes, PlanMakes(nodes, requests))
    ensures LaidOut(prepared, PlanMakes(nodes, requests), offsets)
    ensures forall i | 0 <= i < |prepared| && prepared[i].Prepared? :: prepared[i].satisfied <==> prepared[i].creates == []
  {
    PreparedAgree(nodes, requests, |requests|, prepared);
    assert prepared[..|requests|] == prepared;
    MakesUpTo(nodes, requests, |requests|);
    offsets := AllMakesLaidOut(prepared);
    forall i | 0 <= i < |prepared| && prepared[i].Prepared? ensures prepared[i].satisfied <==> prepared[i].creates == [] {
      assert prepared[i] == PreparedAt(nodes, requests, i);
    }
  }

  lemma {:induction false} PreparedAgree(nodes: Nodes, requests: seq<Request>, n: nat, prepared: seq<Prepared>)
    requires Accepts(nodes, requests) && n <= |requests| == |prepared|
    requires forall i | 0 <= i < |requests| :: PassesAt(nodes, requests, i) && prepared[i] == PreparedAt(nodes, requests, i)
    ensures prepared[..n] == PreparedUpTo(nodes, requests, n)
  {
    if n > 0 {
      PreparedAgree(nodes, requests, n - 1, prepared);
      assert prepared[..n] == prepared[..n - 1] + [prepared[n - 1]];
    }
  }

  /** What a failed chmod leaves was not there before. */
  lemma {:induction false} LeftoverIsNew(
    nodes: Nodes, requests: seq<Request>, dryRun: bool, fault: Fault, inspects: Path -> bool)
    requires Rooted(nodes)
    ensures var left := Leftover(nodes, requests, dryRun, fault, inspects); left.Some? ==> left.value !in nodes
  {
    if Leftover(nodes, requests, dryRun, fault, inspects).Some? {
      MakesUpTo(nodes, requests, |requests|);
      assert OrderlyAt(nodes, PlanMakes(nodes, requests), fault.n);
    }
  }

  lemma {:induction false} Restored(base: Nodes, after: Nodes, stuck: Option<Path>)
    requires stuck.Some? ==> stuck.value !in base
    requires forall p :: p in after <==> p in base || Stays(base, stuck, p)
    requires forall p | p in base :: p in after && after[p] == base[p]
    ensures after == base <==> stuck.None?
  {
    if stuck.Some? {
      assert Stays(base, stuck, stuck.value);
    }
  }

  /** An input: one missing directory whose chmod fails. The run fails, and the directory is still there. */
  method FailedChmodStays(masked: nat -> nat) returns (report: Report, before: Nodes, after: Nodes)
    ensures Rooted(before) && Accepts(before, [Selected(Ok((["a"], 493)))])
    ensures report.state == Failed && before != after && ["a"] !in before && ["a"] in after
  {
    before := map[[] := Dir(493)];
    var requests := [Selected(Ok((["a"], 493)))];
    OneMissing(before, ["a"], 493);
    var run := new Transaction(before, ChmodFails(0), masked, _ => true);
    report := run.ApplyFile(requests, false);
    after := run.nodes;
    assert Stays(before, Leftover(before, requests, false, ChmodFails(0), _ => true), ["a"]);
  }

  lemma {:induction false} OneMissing(nodes: Nodes, p: Path, mode: nat)
    requires nodes == map[[] := Dir(493)] && |p| == 1
    ensures Rooted(nodes) && Accepts(nodes, [Selected(Ok((p, mode)))])
    ensures PlanMakes(nodes, [Selected(Ok((p, mode)))]) == [Make(p, mode)]
  {
    var requests := [Selected(Ok((p, mode)))];
    assert p[..1] == p && p[..0] == [];
    AcceptsExactly(nodes, requests);
    assert Missing(nodes, {}, p, 0) == [] && Missing(nodes, {}, p, 1) == [p];
    assert Virtual(nodes, requests, 0) == {};
    assert PreparedAt(nodes, requests, 0) == Prepared(p, mode, [p], false);
    assert PreparedUpTo(nodes, requests, 0) == [];
    assert PreparedUpTo(nodes, requests, 1) == [Prepared(p, mode, [p], false)];
    assert AllMakes([]) == [] && [Prepared(p, mode, [p], false)][..0] == [];
    assert ToMakes([p], mode) == [Make(p, mode)];
  }

  /** A completed run added exactly the missing directories the selected requests want, each with its first asker's mode. */
  lemma {:induction false} CompletedTree(nodes: Nodes, requests: seq<Request>)
    requires Rooted(nodes) && Accepts(nodes, requests)
    ensures var after := Made(nodes, PlanMakes(nodes, requests));
            && (forall p :: p in after <==> p in nodes || WantedBy(requests, |requests|, p))
            && (forall p | p in nodes :: after[p] == nodes[p])
            && Rooted(after)
            && (forall p | p in after && p !in nodes :: exists i | 0 <= i < |requests| ::
                  Wants(requests[i], p) && !WantedBy(requests, i, p) && after[p] == Dir(requests[i].shape.value.1))
  {
    var makes := PlanMakes(nodes, requests);
    var after := Made(nodes, makes);
    MakesUpTo(nodes, requests, |requests|);
    MadeExtends(nodes, makes);
    forall p | p in after && p !in nodes
      ensures exists i | 0 <= i < |requests| ::
                Wants(requests[i], p) && !WantedBy(requests, i, p) && after[p] == Dir(requests[i].shape.value.1)
      ensures p != [] && IsDir(after, Parent(p))
    {
      var k :| 0 <= k < |makes| && makes[k].path == p;
      assert FirstAsked(requests, |requests|, makes[k]);
      MadeParent(nodes, makes, k);
    }
    forall p | p in after && p != [] ensures IsDir(after, Parent(p)) {
      if p in nodes {
        assert IsDir(nodes, Parent(p));
      }
    }
  }

  lemma {:induction false} MadeParent(nodes: Nodes, makes: seq<Make>, k: nat)
    requires Rooted(nodes) && Orderly(nodes, makes) && k < |makes|
    ensures makes[k].path != [] && IsDir(Made(nodes, makes), Parent(makes[k].path))
  {
    MadeExtends(nodes, makes);
    assert OrderlyAt(nodes, makes, k);
    if !IsDir(nodes, Parent(makes[k].path)) {
      var j :| 0 <= j < k && makes[..k][j].path == Parent(makes[k].path);
      assert makes[j].path == Parent(makes[k].path);
    }
  }

  /** Every prefix of entry n that the old tree lacks was made before it. */
  lemma {:induction false} StuckPrefixes(base: Nodes, makes: seq<Make>, n: nat)
    requires Rooted(base) && Orderly(base, makes) && n < |makes|
    ensures forall p | Stays(base, Some(makes[n].path), p) && p != makes[n].path :: MakesPath(makes[..n], p)
    decreases n
  {
    assert OrderlyAt(base, makes, n);
    var q := makes[n].path;
    forall p | Stays(base, Some(q), p) && p != q ensures MakesPath(makes[..n], p) {
      assert p <= Parent(q);
      if Parent(q) in base {
        AncestorOrSelf(base, Parent(q), p);
      } else {
        var k :| 0 <= k < n && makes[..n][k].path == Parent(q);
        assert makes[k].path == Parent(q);
        if p != Parent(q) {
          StuckPrefixes(base, makes, k);
          MakesPathPrefix(makes, k, n, p);
        }
      }
    }
  }

  lemma {:induction false} AncestorOrSelf(base: Nodes, q: Path, p: Path)
    requires Rooted(base) && q in base && p <= q
    ensures p in base
  {
    if p != q {
      AncestorIsDir(base, q, |p|);
      assert q[..|p|] == p;
    }
  }

  /** After everything but the first i creations was undone where possible. */
  ghost predicate Remains(base: Nodes, makes: seq<Make>, i: nat, stuck: Option<Path>, p: Path)
    requires i <= |makes|
  {
    p in base || MakesPath(makes[..i], p) || Stays(base, stuck, p)
  }

  /** The directories of one decision occupy makes[first..next]. */
  ghost predicate Slot(item: Prepared, makes: seq<Make>, first: nat, next: nat) {
    next == first + |MakesOf(item)| && next <= |makes| && makes[first..next] == MakesOf(item)
  }

  /** makes is what the decisions make one after the other; offsets says where each begins. */
  ghost predicate LaidOut(prepared: seq<Prepared>, makes: seq<Make>, offsets: seq<nat>) {
    && |offsets| == |prepared| + 1 && offsets[0] == 0 && offsets[|prepared|] == |makes|
    && forall i | 0 <= i < |prepared| :: Slot(prepared[i], makes, offsets[i], offsets[i + 1])
  }

  lemma {:induction false} AllMakesLaidOut(prepared: seq<Prepared>) returns (offsets: seq<nat>)
    ensures LaidOut(prepared, AllMakes(prepared), offsets)
  {
    if prepared == [] {
      offsets := [0];
    } else {
      var n := |prepared| - 1;
      var before := AllMakesLaidOut(prepared[..n]);
      var makes, init := AllMakes(prepared), AllMakes(prepared[..n]);
      offsets := before + [|makes|];
      forall i | 0 <= i < |prepared| ensures Slot(prepared[i], makes, offsets[i], offsets[i + 1]) {
        if i < n {
          assert Slot(prepared[..n][i], init, before[i], before[i + 1]);
          assert makes[before[i]..before[i + 1]] == init[before[i]..before[i + 1]];
        } else {
          assert makes[|init|..] == MakesOf(prepared[n]);
        }
      }
    }
  }

  // ----- rollback -----

  /** In an orderly list, nothing made before entry i, and nothing of the old tree, lies inside entry i. */
  lemma {:induction false} NoEarlierChild(base: Nodes, makes: seq<Make>, i: nat, c: Path)
    requires Rooted(base) && Orderly(base, makes) && i < |makes| && c != [] && Parent(c) == makes[i].path
    ensures c !in base && forall j | 0 <= j <= i :: makes[j].path != c
  {
    assert OrderlyAt(base, makes, i);
    forall j | 0 <= j <= i ensures makes[j].path != c {
      assert OrderlyAt(base, makes, j);
      MakesPathPrefix(makes, j, i, makes[i].path);
    }
  }

  lemma {:induction false} MakesPathPrefix(makes: seq<Make>, j: nat, i: nat, p: Path)
    requires j <= i <= |makes|
    ensures MakesPath(makes[..j], p) ==> MakesPath(makes[..i], p)
  {
    if MakesPath(makes[..j], p) {
      var k :| 0 <= k < j && makes[..j][k].path == p;
      assert makes[..i][k].path == p;
    }
  }

  /** A stuck directory's prefix that is missing from the old tree has the next prefix inside it. */
  lemma {:induction false} StaysDown(base: Nodes, stuck: Path, p: Path)
    requires Rooted(base) && Stays(base, Some(stuck), p) && p != stuck
    ensures Stays(base, Some(stuck), stuck[..|p| + 1]) && Parent(stuck[..|p| + 1]) == p
  {
    var c := stuck[..|p| + 1];
    assert Parent(c) == p;
  }

  /** Undoing entry i: only that path can go, and it goes exactly when it does not have to stay. */
  lemma {:induction false} RemovalStep(base: Nodes, makes: seq<Make>, i: nat, stuck: Option<Path>)
    requires Orderly(base, makes) && i < |makes|
    ensures forall p :: Remains(base, makes, i + 1, stuck, p) <==> Remains(base, makes, i, stuck, p) || p == makes[i].path
    ensures Remains(base, makes, i, stuck, makes[i].path) <==> Stays(base, stuck, makes[i].path)
  {
    assert OrderlyAt(base, makes, i);
    var next := makes[..i + 1];
    assert next[..i] == makes[..i] && next[i] == makes[i];
    forall p ensures MakesPath(next, p) <==> MakesPath(makes[..i], p) || p == makes[i].path {
      MakesPathAppend(next, p);
    }
    forall p ensures Remains(base, makes, i + 1, stuck, p) <==> Remains(base, makes, i, stuck, p) || p == makes[i].path {
      assert MakesPath(next, p) <==> MakesPath(makes[..i], p) || p == makes[i].path;
    }
  }

  /** Entry i, due for removal, still holds something exactly when it lies above the stuck directory. */
  lemma {:induction false} ChildRemains(base: Nodes, makes: seq<Make>, i: nat, stuck: Option<Path>, nodes: Nodes)
    requires Rooted(base) && Orderly(base, makes) && i < |makes|
    requires stuck.Some? ==> exists k | i < k < |makes| :: makes[k].path == stuck.value
    requires forall p :: p in nodes <==> Remains(base, makes, i + 1, stuck, p)
    ensures HasChild(nodes, makes[i].path) <==> Stays(base, stuck, makes[i].path)
  {
    var path := makes[i].path;
    assert OrderlyAt(base, makes, i);
    if Stays(base, stuck, path) {
      OtherEntry(base, makes, i, stuck.value);
      StaysDown(base, stuck.value, path);
      assert stuck.value[..|path| + 1] in nodes;
    }
    if HasChild(nodes, path) {
      var c :| c in nodes && c != [] && Parent(c) == path;
      NoEarlierChild(base, makes, i, c);
      NotMadeBefore(makes, i + 1, c);
      assert Stays(base, stuck, c);
    }
  }

  lemma {:induction false} NotMadeBefore(makes: seq<Make>, n: nat, c: Path)
    requires n <= |makes| && forall j | 0 <= j < n :: makes[j].path != c
    ensures !MakesPath(makes[..n], c)
  {
  }

  lemma {:induction false} OtherEntry(base: Nodes, makes: seq<Make>, i: nat, q: Path)
    requires Orderly(base, makes) && i < |makes| && exists k | i < k < |makes| :: makes[k].path == q
    ensures makes[i].path != q
  {
    var k :| i < k < |makes| && makes[k].path == q;
    assert OrderlyAt(base, makes, k);
    assert makes[..k][i] == makes[i];
  }
}
