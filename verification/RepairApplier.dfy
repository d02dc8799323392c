/** Applying a repair plan to a rootfs as one transaction: preflight, ordered creation, rollback. */
module RepairApplier {
  import opened Wrappers
  import opened Rootfs
  import PosixPath

  datatype Action =
    | NoAction | CreateDirectory | ProvideFile | AdjustPathAccess | MakePathWritable | RepairPathLayout
    | ProvideDeviceBackend | ConfigureTcpService | ConfigureUdpService | ResolveLibrary | ProvideInterpreter
    | ProvideExecutable

  datatype Disposition = AutoCandidate | ReviewRequired | ManualAnalysis | NotRequired

  /** The fields of a decision the applier looks at; mode is None when it is no string. */
  datatype Decision = Decision(
    id: string, requirementId: string, resource: string, action: Action, disposition: Disposition,
    automatic: bool, parents: bool, mode: Option<string>)

  datatype ApplyError =
    | NotAutoCandidate | ActionDisabled | BadPath | DeniedPath | ParentsRequired | BadMode
    | CannotInspect | SymlinkCrossed | NotADirectory | MkdirFailed | ChmodFailed | SaveFailed

  // ----- the shape of a decision -----

  function StripSlashes(s: string): string {
    if s != "" && s[|s| - 1] == '/' then StripSlashes(s[..|s| - 1]) else s
  }

  const DENIED: seq<string> := ["/proc", "/sys", "/dev"]

  predicate Below(path: string, prefix: string) {
    path == prefix || prefix + "/" <= path
  }

  predicate Denied(path: string) {
    exists i | 0 <= i < |DENIED| :: Below(path, DENIED[i])
  }

  function GuestPath(resource: string): Result<Path, ApplyError> {
    if '\0' in resource then Err(BadPath)
    else if resource == "" || resource[0] != '/' then Err(BadPath)
    else if resource == "/" then Err(BadPath)
    else if ".." in PosixPath.Components(resource) then Err(BadPath)
    else if PosixPath.AsPosix(resource) != StripSlashes(resource) then Err(BadPath)
    else if Denied(PosixPath.AsPosix(resource)) then Err(DeniedPath)
    else Ok(PosixPath.Components(resource))
  }

  predicate Octal(c: char) {
    '0' <= c <= '7'
  }

  /** Three octal digits, optionally behind a zero. */
  function ParseMode(mode: Option<string>): Result<nat, ApplyError> {
    match mode
    case None => Err(BadMode)
    case Some(s) =>
      var digits := if |s| == 4 && s[0] == '0' then s[1..] else s;
      if |digits| == 3 && Octal(digits[0]) && Octal(digits[1]) && Octal(digits[2]) then
        Ok((digits[0] as int - '0' as int) * 64 + (digits[1] as int - '0' as int) * 8 + (digits[2] as int - '0' as int))
      else Err(BadMode)
  }

  /** Everything preflight asks of a selected decision before it looks at the rootfs. */
  function Shape(d: Decision): Result<(Path, nat), ApplyError> {
    if d.disposition != AutoCandidate then Err(NotAutoCandidate)
    else if d.action != CreateDirectory then Err(ActionDisabled)
    else
      match GuestPath(d.resource)
      case Err(e) => Err(e)
      case Ok(path) =>
        if !d.parents then Err(ParentsRequired)
        else
          match ParseMode(d.mode)
          case Err(e) => Err(e)
          case Ok(mode) => Ok((path, mode))
  }

  /** What a decision asks of the rootfs: nothing, or a directory path with a mode, or a refusal. */
  datatype Request = NotSelected | Selected(shape: Result<(Path, nat), ApplyError>)

  function RequestOf(d: Decision): Request {
    if d.automatic then Selected(Shape(d)) else NotSelected
  }

  function Requests(decisions: seq<Decision>): (r: seq<Request>)
    ensures |r| == |decisions|
  {
    seq(|decisions|, i requires 0 <= i < |decisions| => RequestOf(decisions[i]))
  }

  // ----- preflight -----

  /** What preflight prepares for one decision. */
  datatype Prepared = Skipped | Prepared(path: Path, mode: nat, creates: seq<Path>, satisfied: bool)

  /** The missing prefixes of path up to length k that no earlier decision will have made. */
  function Missing(nodes: Nodes, virtual: set<Path>, path: Path, k: nat): seq<Path>
    requires k <= |path|
  {
    if k == 0 then []
    else Missing(nodes, virtual, path, k - 1)
         + (if path[..k] in virtual || path[..k] in nodes then [] else [path[..k]])
  }

  /** No prefix of path up to length k exists as anything but a directory. */
  predicate Clear(nodes: Nodes, virtual: set<Path>, path: Path, k: nat)
    requires k <= |path|
  {
    forall i | 1 <= i <= k :: path[..i] in virtual || path[..i] !in nodes || nodes[path[..i]].Dir?
  }

  /** A request passes when its shape is right and nothing stands in its way. */
  predicate Passes(nodes: Nodes, virtual: set<Path>, q: Request) {
    q.Selected? ==> q.shape.Ok? && Clear(nodes, virtual, q.shape.value.0, |q.shape.value.0|)
  }

  function Prepare(nodes: Nodes, virtual: set<Path>, q: Request): Prepared
    requires Passes(nodes, virtual, q)
  {
    if q.NotSelected? then Skipped
    else
      var (path, mode) := q.shape.value;
      var creates := Missing(nodes, virtual, path, |path|);
      Prepared(path, mode, creates, creates == [])
  }

  /** lstat tells what each prefix of path up to length k is, or that it is missing, unless the prefix is only planned. */
  predicate Inspected(inspects: Path -> bool, virtual: set<Path>, path: Path, k: nat)
    requires k <= |path|
  {
    forall i | 1 <= i <= k :: path[..i] in virtual || inspects(path[..i])
  }

  /** Prefix k of path is the first that stops the walk, and this is why. */
  predicate StopsAtPrefix(
    nodes: Nodes, virtual: set<Path>, path: Path, k: nat, inspects: Path -> bool, error: ApplyError)
    requires 1 <= k <= |path|
  {
    && Clear(nodes, virtual, path, k - 1) && Inspected(inspects, virtual, path, k - 1) && path[..k] !in virtual
    && if !inspects(path[..k]) then error == CannotInspect
       else path[..k] in nodes && !nodes[path[..k]].Dir?
            && error == if nodes[path[..k]].Link? then SymlinkCrossed else NotADirectory
  }

  method PrepareDirectory(nodes: Nodes, virtual: set<Path>, path: Path, mode: nat, inspects: Path -> bool)
    returns (r: Result<Prepared, ApplyError>)
    ensures r.Ok? <==>
              Passes(nodes, virtual, Selected(Ok((path, mode)))) && Inspected(inspects, virtual, path, |path|)
    ensures r.Ok? ==> r.value == Prepare(nodes, virtual, Selected(Ok((path, mode))))
    ensures r.Err? ==> exists k :: 1 <= k <= |path| && StopsAtPrefix(nodes, virtual, path, k, inspects, r.error)
  {
    var creates: seq<Path> := [];
    var satisfied := true;
    for index := 0 to |path|
      invariant Clear(nodes, virtual, path, index) && Inspected(inspects, virtual, path, index)
      invariant creates == Missing(nodes, virtual, path, index)
      invariant satisfied <==> creates == []
    {
      var current := path[..index + 1];
      if current !in virtual {
        if !inspects(current) {
          assert StopsAtPrefix(nodes, virtual, path, index + 1, inspects, CannotInspect);
          return Err(CannotInspect);
        } else if current !in nodes {
          satisfied := false;
          creates := creates + [current];
        } else if nodes[current].Link? {
          assert StopsAtPrefix(nodes, virtual, path, index + 1, inspects, SymlinkCrossed);
          return Err(SymlinkCrossed);
        } else if !nodes[current].Dir? {
          assert StopsAtPrefix(nodes, virtual, path, index + 1, inspects, NotADirectory);
          return Err(NotADirectory);
        }
      }
    }
    r := Ok(Prepared(path, mode, creates, satisfied));
  }

  function Elements(s: seq<Path>): set<Path> {
    set q | q in s
  }

  function CreatesOf(p: Prepared): seq<Path> {
    if p.Skipped? then [] else p.creates
  }

  /** The paths the first n requests will have created. */
  function Virtual(nodes: Nodes, requests: seq<Request>, n: nat): set<Path>
    requires n <= |requests|
  {
    if n == 0 then {}
    else
      var before := Virtual(nodes, requests, n - 1);
      if Passes(nodes, before, requests[n - 1]) then
        before + Elements(CreatesOf(Prepare(nodes, before, requests[n - 1])))
      else before
  }

  predicate PassesAt(nodes: Nodes, requests: seq<Request>, i: nat)
    requires i < |requests|
  {
    Passes(nodes, Virtual(nodes, requests, i), requests[i])
  }

  predicate Accepts(nodes: Nodes, requests: seq<Request>) {
    forall i | 0 <= i < |requests| :: PassesAt(nodes, requests, i)
  }

  function PreparedAt(nodes: Nodes, requests: seq<Request>, i: nat): Prepared
    requires i < |requests| && PassesAt(nodes, requests, i)
  {
    Prepare(nodes, Virtual(nodes, requests, i), requests[i])
  }

  /** Every path on the way to a selected directory can be inspected. */
  predicate Inspectable(requests: seq<Request>, inspects: Path -> bool) {
    forall i | 0 <= i < |requests| :: InspectableAt(requests[i], inspects)
  }

  predicate InspectableAt(q: Request, inspects: Path -> bool) {
    q.Selected? && q.shape.Ok? ==> Inspected(inspects, {}, q.shape.value.0, |q.shape.value.0|)
  }

  /** What preflight passes: nothing stands in the way, and that can be seen. */
  predicate Ready(nodes: Nodes, requests: seq<Request>, inspects: Path -> bool) {
    Accepts(nodes, requests) && Inspectable(requests, inspects)
  }

  lemma {:induction false} PlannedWereInspected(
    nodes: Nodes, virtual: set<Path>, path: Path, k: nat, inspects: Path -> bool)
    requires k <= |path| && Inspected(inspects, virtual, path, k)
    ensures forall p | p in Missing(nodes, virtual, path, k) :: inspects(p)
  {
    if k > 0 {
      PlannedWereInspected(nodes, virtual, path, k - 1, inspects);
    }
  }

  /** Request n is the first that is refused, and this is why. */
  ghost predicate RefusedAt(nodes: Nodes, requests: seq<Request>, n: nat, inspects: Path -> bool, error: ApplyError)
    requires n < |requests|
  {
    && requests[n].Selected?
    && (forall i | 0 <= i < n :: PassesAt(nodes, requests, i) && InspectableAt(requests[i], inspects))
    && match requests[n].shape
       case Err(wrong) => error == wrong
       case Ok((path, _)) =>
         exists k :: 1 <= k <= |path| && StopsAtPrefix(nodes, Virtual(nodes, requests, n), path, k, inspects, error)
  }

  method Preflight(nodes: Nodes, requests: seq<Request>, inspects: Path -> bool) returns (r: Result<seq<Prepared>, ApplyError>)
    ensures r.Ok? <==> Ready(nodes, requests, inspects)
    ensures r.Err? ==> exists n :: 0 <= n < |requests| && RefusedAt(nodes, requests, n, inspects, r.error)
    ensures r.Ok? ==> |r.value| == |requests|
    ensures r.Ok? ==> forall i | 0 <= i < |requests| :: r.value[i] == PreparedAt(nodes, requests, i)
  {
    var prepared: seq<Prepared> := [];
    var virtual: set<Path> := {};
    for n := 0 to |requests|
      invariant |prepared| == n && virtual == Virtual(nodes, requests, n)
      invariant forall i | 0 <= i < n :: PassesAt(nodes, requests, i) && prepared[i] == PreparedAt(nodes, requests, i)
      invariant forall i | 0 <= i < n :: InspectableAt(requests[i], inspects)
      invariant forall p | p in virtual :: inspects(p)
    {
      var item := Skipped;
      if requests[n].Selected? {
        var shape := requests[n].shape;
        if shape.Err? {
          assert !PassesAt(nodes, requests, n) && RefusedAt(nodes, requests, n, inspects, shape.error);
          return Err(shape.error);
        }
        var one := PrepareDirectory(nodes, virtual, shape.value.0, shape.value.1, inspects);
        if one.Err? {
          assert !PassesAt(nodes, requests, n) || !InspectableAt(requests[n], inspects);
          assert RefusedAt(nodes, requests, n, inspects, one.error);
          return Err(one.error);
        }
        PlannedWereInspected(nodes, virtual, shape.value.0, |shape.value.0|, inspects);
        item := one.value;
      }
      assert PassesAt(nodes, requests, n) && item == PreparedAt(nodes, requests, n);
      prepared := prepared + [item];
      virtual := virtual + Elements(CreatesOf(item));
    }
    r := Ok(prepared);
  }

  /** Nothing but directories exists on the way to path. */
  predicate Unobstructed(nodes: Nodes, path: Path) {
    Clear(nodes, {}, path, |path|)
  }

  /** Preflight only plans paths that do not exist. */
  lemma {:induction false} VirtualIsAbsent(nodes: Nodes, requests: seq<Request>, n: nat)
    requires n <= |requests|
    ensures forall p | p in Virtual(nodes, requests, n) :: p !in nodes
  {
    hide Clear;
    if n > 0 {
      VirtualIsAbsent(nodes, requests, n - 1);
      var before, q := Virtual(nodes, requests, n - 1), requests[n - 1];
      if Passes(nodes, before, q) && q.Selected? {
        MissingIsAbsent(nodes, before, q.shape.value.0, |q.shape.value.0|);
      }
    }
  }

  lemma {:induction false} MissingIsAbsent(nodes: Nodes, virtual: set<Path>, path: Path, k: nat)
    requires k <= |path|
    ensures forall p | p in Missing(nodes, virtual, path, k) :: p !in nodes
  {
    if k > 0 {
      MissingIsAbsent(nodes, virtual, path, k - 1);
    }
  }

  /** What earlier decisions will create never matters to acceptance: each request is judged on the rootfs as it stands. */
  lemma {:induction false} AcceptsExactly(nodes: Nodes, requests: seq<Request>)
    ensures Accepts(nodes, requests) <==>
              forall i | 0 <= i < |requests| && requests[i].Selected? ::
                requests[i].shape.Ok? && Unobstructed(nodes, requests[i].shape.value.0)
  {
    forall i | 0 <= i < |requests|
      ensures PassesAt(nodes, requests, i) <==>
                (requests[i].Selected? ==> requests[i].shape.Ok? && Unobstructed(nodes, requests[i].shape.value.0))
    {
      VirtualIsAbsent(nodes, requests, i);
    }
  }

  /** The way to path is clear, and can be inspected. */
  predicate Open(nodes: Nodes, path: Path, inspects: Path -> bool) {
    Unobstructed(nodes, path) && Inspected(inspects, {}, path, |path|)
  }

  /** Preflight passes exactly when every selected decision has its shape right and an open way. */
  lemma {:induction false} ReadyExactly(nodes: Nodes, requests: seq<Request>, inspects: Path -> bool)
    ensures Ready(nodes, requests, inspects) <==>
              forall i | 0 <= i < |requests| && requests[i].Selected? ::
                requests[i].shape.Ok? && Open(nodes, requests[i].shape.value.0, inspects)
  {
    AcceptsExactly(nodes, requests);
    hide Accepts, Unobstructed, Inspected;
    forall i | 0 <= i < |requests| && requests[i].Selected? && requests[i].shape.Ok?
      ensures InspectableAt(requests[i], inspects) <==>
                Inspected(inspects, {}, requests[i].shape.value.0, |requests[i].shape.value.0|)
    {
    }
  }

  // ----- the directories a plan makes, in order -----

  datatype Make = Make(path: Path, mode: nat)

  function ToMakes(paths: seq<Path>, mode: nat): (r: seq<Make>)
    ensures |r| == |paths|
  {
    seq(|paths|, i requires 0 <= i < |paths| => Make(paths[i], mode))
  }

  function MakesOf(p: Prepared): seq<Make> {
    if p.Skipped? then [] else ToMakes(p.creates, p.mode)
  }

  function AllMakes(prepared: seq<Prepared>): seq<Make> {
    if prepared == [] then []
    else AllMakes(prepared[..|prepared| - 1]) + MakesOf(prepared[|prepared| - 1])
  }

  function Made(nodes: Nodes, makes: seq<Make>): Nodes {
    if makes == [] then nodes
    else Made(nodes, makes[..|makes| - 1])[makes[|makes| - 1].path := Dir(makes[|makes| - 1].mode)]
  }

  predicate MakesPath(makes: seq<Make>, p: Path) {
    exists i | 0 <= i < |makes| :: makes[i].path == p
  }

  /** Entry i is new, made once, and made inside a directory that is there by then. */
  ghost predicate OrderlyAt(nodes: Nodes, makes: seq<Make>, i: nat)
    requires i < |makes|
  {
    && makes[i].path != [] && makes[i].path !in nodes
    && !MakesPath(makes[..i], makes[i].path)
    && (IsDir(nodes, Parent(makes[i].path)) || MakesPath(makes[..i], Parent(makes[i].path)))
  }

  ghost predicate Orderly(nodes: Nodes, makes: seq<Make>) {
    forall i | 0 <= i < |makes| :: OrderlyAt(nodes, makes, i)
  }

  lemma {:induction false} OrderlyPrefix(nodes: Nodes, makes: seq<Make>, n: nat)
    requires Orderly(nodes, makes) && n <= |makes|
    ensures Orderly(nodes, makes[..n])
  {
    forall i | 0 <= i < n ensures OrderlyAt(nodes, makes[..n], i) {
      assert OrderlyAt(nodes, makes, i);
      assert makes[..n][..i] == makes[..i];
    }
  }

  lemma {:induction false} MakesPathAppend(makes: seq<Make>, p: Path)
    requires makes != []
    ensures MakesPath(makes, p) <==> MakesPath(makes[..|makes| - 1], p) || makes[|makes| - 1].path == p
  {
    var n := |makes| - 1;
    if MakesPath(makes[..n], p) {
      var i :| 0 <= i < n && makes[..n][i].path == p;
      assert makes[i].path == p;
    }
    if MakesPath(makes, p) && makes[n].path != p {
      var i :| 0 <= i < |makes| && makes[i].path == p;
      assert makes[..n][i].path == p;
    }
  }

  /** The made tree: the old nodes untouched, and every made path a directory of its mode. */
  ghost predicate Extends(made: Nodes, nodes: Nodes, makes: seq<Make>) {
    && (forall p :: p in made <==> p in nodes || MakesPath(makes, p))
    && (forall p | p in nodes :: made[p] == nodes[p])
    && (forall i | 0 <= i < |makes| :: makes[i].path in made && made[makes[i].path] == Dir(makes[i].mode))
  }

  lemma {:induction false} MadeExtends(nodes: Nodes, makes: seq<Make>)
    requires Orderly(nodes, makes)
    ensures Extends(Made(nodes, makes), nodes, makes)
  {
    if makes == [] {
      assert forall p :: !MakesPath(makes, p);
    } else {
      var n := |makes| - 1;
      OrderlyPrefix(nodes, makes, n);
      MadeExtends(nodes, makes[..n]);
      assert OrderlyAt(nodes, makes, n);
      var made, before := Made(nodes, makes), Made(nodes, makes[..n]);
      forall p ensures p in made <==> p in nodes || MakesPath(makes, p) {
        MakesPathAppend(makes, p);
      }
      forall i | 0 <= i < |makes| ensures makes[i].path in made && made[makes[i].path] == Dir(makes[i].mode) {
        if i < n {
          assert makes[..n][i].path == makes[i].path;
          assert makes[i].path != makes[n].path;
        }
      }
    }
  }

  /** When the next directory of an orderly list is due, it is missing and its parent is a directory. */
  lemma {:induction false} NextMake(nodes: Nodes, makes: seq<Make>, i: nat)
    requires Orderly(nodes, makes) && i < |makes|
    ensures makes[i].path != [] && makes[i].path !in Made(nodes, makes[..i])
    ensures IsDir(Made(nodes, makes[..i]), Parent(makes[i].path))
    ensures Made(nodes, makes[..i + 1]) == Made(nodes, makes[..i])[makes[i].path := Dir(makes[i].mode)]
  {
    OrderlyPrefix(nodes, makes, i);
    MadeExtends(nodes, makes[..i]);
    assert OrderlyAt(nodes, makes, i);
    assert makes[..i + 1][..i] == makes[..i];
    if MakesPath(makes[..i], Parent(makes[i].path)) {
      var j :| 0 <= j < i && makes[..i][j].path == Parent(makes[i].path);
      assert makes[..i][j].path in Made(nodes, makes[..i]);
    }
  }

  // ----- what an accepted plan makes -----

  /** The request selects a directory that is p or lies below p. */
  predicate Wants(q: Request, p: Path) {
    q.Selected? && q.shape.Ok? && p != [] && p <= q.shape.value.0
  }

  predicate WantedBy(requests: seq<Request>, n: nat, p: Path)
    requires n <= |requests|
  {
    exists i | 0 <= i < n :: Wants(requests[i], p)
  }

  /** The make is asked for with this mode by the first request that wants its path. */
  ghost predicate FirstAsked(requests: seq<Request>, n: nat, m: Make)
    requires n <= |requests|
  {
    exists i | 0 <= i < n :: Wants(requests[i], m.path) && !WantedBy(requests, i, m.path)
                             && m.mode == requests[i].shape.value.1
  }

  function PreparedUpTo(nodes: Nodes, requests: seq<Request>, n: nat): (r: seq<Prepared>)
    requires Accepts(nodes, requests) && n <= |requests|
    ensures |r| == n
  {
    if n == 0 then []
    else
      assert PassesAt(nodes, requests, n - 1);
      PreparedUpTo(nodes, requests, n - 1) + [PreparedAt(nodes, requests, n - 1)]
  }

  /** Every directory an accepted plan makes, in the order it is made. */
  function PlanMakes(nodes: Nodes, requests: seq<Request>): seq<Make>
    requires Accepts(nodes, requests)
  {
    AllMakes(PreparedUpTo(nodes, requests, |requests|))
  }

  predicate PrefixUpTo(p: Path, path: Path, k: nat) {
    1 <= |p| <= k && p <= path
  }

  lemma {:induction false} OrderlyAppend(nodes: Nodes, makes: seq<Make>, m: Make)
    requires Orderly(nodes, makes)
    requires m.path != [] && m.path !in nodes && !MakesPath(makes, m.path)
    requires IsDir(nodes, Parent(m.path)) || MakesPath(makes, Parent(m.path))
    ensures Orderly(nodes, makes + [m])
    ensures forall p :: MakesPath(makes + [m], p) <==> MakesPath(makes, p) || p == m.path
  {
    var all := makes + [m];
    assert all[..|makes|] == makes;
    forall i | 0 <= i < |all| ensures OrderlyAt(nodes, all, i) {
      if i < |makes| {
        assert OrderlyAt(nodes, makes, i);
        assert all[..i] == makes[..i];
      }
    }
    forall p ensures MakesPath(all, p) <==> MakesPath(makes, p) || p == m.path {
      MakesPathAppend(all, p);
    }
  }

  lemma {:induction false} PrefixStep(path: Path, k: nat)
    requires 1 <= k <= |path|
    ensures forall q :: PrefixUpTo(q, path, k) <==> PrefixUpTo(q, path, k - 1) || q == path[..k]
    ensures Parent(path[..k]) == path[..k - 1]
    ensures k > 1 ==> PrefixUpTo(path[..k - 1], path, k - 1)
  {
  }

  /** The makes after the missing prefixes of path up to length k are added. */
  function Extended(nodes: Nodes, makes: seq<Make>, virtual: set<Path>, path: Path, mode: nat, k: nat): seq<Make>
    requires k <= |path|
  {
    makes + ToMakes(Missing(nodes, virtual, path, k), mode)
  }

  lemma {:induction false} ExtendedStep(nodes: Nodes, makes: seq<Make>, virtual: set<Path>, path: Path, mode: nat, k: nat)
    requires 1 <= k <= |path|
    ensures Extended(nodes, makes, virtual, path, mode, k) == Extended(nodes, makes, virtual, path, mode, k - 1)
              + (if path[..k] in virtual || path[..k] in nodes then [] else [Make(path[..k], mode)])
  {
  }

  lemma {:induction false} AppendMissing(nodes: Nodes, makes: seq<Make>, virtual: set<Path>, path: Path, mode: nat, k: nat)
    requires Rooted(nodes) && Orderly(nodes, makes) && k <= |path| && Clear(nodes, virtual, path, |path|)
    requires forall p :: p in virtual <==> MakesPath(makes, p)
    ensures Orderly(nodes, Extended(nodes, makes, virtual, path, mode, k))
    ensures forall p :: MakesPath(Extended(nodes, makes, virtual, path, mode, k), p)
                        <==> p in virtual || (p !in nodes && PrefixUpTo(p, path, k))
  {
    if k == 0 {
      assert Extended(nodes, makes, virtual, path, mode, 0) == makes;
    } else {
      AppendMissing(nodes, makes, virtual, path, mode, k - 1);
      ExtendedStep(nodes, makes, virtual, path, mode, k);
      PrefixStep(path, k);
      var all := Extended(nodes, makes, virtual, path, mode, k - 1);
      var p, up := path[..k], path[..k - 1];
      if p !in virtual && p !in nodes {
        if k > 1 && up !in virtual && up in nodes {
          assert nodes[path[..k - 1]].Dir?;
        }
        OrderlyAppend(nodes, all, Make(p, mode));
      } else {
        assert Extended(nodes, makes, virtual, path, mode, k) == all;
      }
    }
  }

  /** After n requests: the makes are orderly, and they are exactly the missing prefixes of what was selected. */
  ghost predicate Exact(nodes: Nodes, requests: seq<Request>, n: nat, makes: seq<Make>)
    requires n <= |requests|
  {
    && Orderly(nodes, makes)
    && (forall p :: MakesPath(makes, p) <==> p !in nodes && WantedBy(requests, n, p))
    && (forall i | 0 <= i < |makes| :: FirstAsked(requests, n, makes[i]))
  }

  lemma {:induction false} MakesUpTo(nodes: Nodes, requests: seq<Request>, n: nat)
    requires Rooted(nodes) && Accepts(nodes, requests) && n <= |requests|
    ensures Exact(nodes, requests, n, AllMakes(PreparedUpTo(nodes, requests, n)))
    ensures forall p :: p in Virtual(nodes, requests, n) <==> MakesPath(AllMakes(PreparedUpTo(nodes, requests, n)), p)
  {
    if n > 0 {
      MakesUpTo(nodes, requests, n - 1);
      assert PassesAt(nodes, requests, n - 1);
      var prepared := PreparedUpTo(nodes, requests, n);
      assert prepared[..n - 1] == PreparedUpTo(nodes, requests, n - 1);
      StepExact(nodes, requests, n - 1, AllMakes(prepared[..n - 1]));
    }
  }

  lemma {:induction false} StepExact(nodes: Nodes, requests: seq<Request>, n: nat, makes: seq<Make>)
    requires Rooted(nodes) && n < |requests| && PassesAt(nodes, requests, n)
    requires Exact(nodes, requests, n, makes)
    requires forall p :: p in Virtual(nodes, requests, n) <==> MakesPath(makes, p)
    ensures Exact(nodes, requests, n + 1, makes + MakesOf(PreparedAt(nodes, requests, n)))
    ensures forall p :: p in Virtual(nodes, requests, n + 1)
                        <==> MakesPath(makes + MakesOf(PreparedAt(nodes, requests, n)), p)
  {
    var virtual, q := Virtual(nodes, requests, n), requests[n];
    forall p ensures WantedBy(requests, n + 1, p) <==> WantedBy(requests, n, p) || Wants(q, p) {
    }
    if q.NotSelected? {
      assert makes + MakesOf(PreparedAt(nodes, requests, n)) == makes;
      assert forall i | 0 <= i < |makes| :: FirstAsked(requests, n, makes[i]);
    } else {
      var (path, mode) := q.shape.value;
      AppendMissing(nodes, makes, virtual, path, mode, |path|);
      forall p ensures PrefixUpTo(p, path, |path|) <==> Wants(q, p) {
      }
      var all := Extended(nodes, makes, virtual, path, mode, |path|);
      assert all == makes + MakesOf(PreparedAt(nodes, requests, n));
      forall i | 0 <= i < |all| ensures FirstAsked(requests, n + 1, all[i]) {
        if i < |makes| {
          assert FirstAsked(requests, n, makes[i]);
        } else {
          NewlyAsked(nodes, requests, n, makes, all, i, path, mode);
        }
      }
      NewVirtual(nodes, requests, n, makes);
    }
  }

  /** A directory the n-th request adds was wanted by none before it. */
  lemma {:induction false} NewlyAsked(nodes: Nodes, requests: seq<Request>, n: nat, makes: seq<Make>, all: seq<Make>,
      i: nat, path: Path, mode: nat)
    requires n < |requests| && requests[n] == Selected(Ok((path, mode)))
    requires all == makes + ToMakes(Missing(nodes, Virtual(nodes, requests, n), path, |path|), mode)
    requires |makes| <= i < |all| && Orderly(nodes, all)
    requires forall p :: MakesPath(makes, p) <==> p !in nodes && WantedBy(requests, n, p)
    requires forall p :: MakesPath(all, p) ==> MakesPath(makes, p) || Wants(requests[n], p)
    ensures FirstAsked(requests, n + 1, all[i])
  {
    var m := all[i];
    assert OrderlyAt(nodes, all, i);
    assert all[..i] == makes + all[|makes|..i];
    MakesPathConcat(makes, all[|makes|..i], m.path);
    assert MakesPath(all, m.path);
    assert Wants(requests[n], m.path) && !WantedBy(requests, n, m.path);
  }

  lemma {:induction false} NewVirtual(nodes: Nodes, requests: seq<Request>, n: nat, makes: seq<Make>)
    requires n < |requests| && PassesAt(nodes, requests, n)
    requires forall p :: p in Virtual(nodes, requests, n) <==> MakesPath(makes, p)
    ensures forall p :: p in Virtual(nodes, requests, n + 1)
                        <==> MakesPath(makes + MakesOf(PreparedAt(nodes, requests, n)), p)
  {
    var item := PreparedAt(nodes, requests, n);
    var added := MakesOf(item);
    forall p ensures MakesPath(makes + added, p) <==> MakesPath(makes, p) || p in CreatesOf(item) {
      MakesPathConcat(makes, added, p);
      if p in CreatesOf(item) {
        var k :| 0 <= k < |CreatesOf(item)| && CreatesOf(item)[k] == p;
        assert added[k].path == p;
      }
    }
  }

  lemma {:induction false} MakesPathConcat(a: seq<Make>, b: seq<Make>, p: Path)
    ensures MakesPath(a + b, p) <==> MakesPath(a, p) || MakesPath(b, p)
  {
    if MakesPath(a, p) {
      var i :| 0 <= i < |a| && a[i].path == p;
      assert (a + b)[i].path == p;
    }
    if MakesPath(b, p) {
      var i :| 0 <= i < |b| && b[i].path == p;
      assert (a + b)[|a| + i].path == p;
    }
    if MakesPath(a + b, p) {
      var i :| 0 <= i < |a + b| && (a + b)[i].path == p;
      assert if i < |a| then a[i].path == p else b[i - |a|].path == p;
    }
  }
}
