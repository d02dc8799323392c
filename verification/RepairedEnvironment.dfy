/** What a repair does to an environment seen only as the entries of its scan. */
module RepairedEnvironment {
  import opened Wrappers
  import opened Rootfs
  import opened PathOrder
  import opened Snapshot
  import opened RepairApplier
  import PosixPath

  type Env = map<Path, Entry>

  /** The nodes an applier sees when it is given a clone of env; which inode a file is makes no difference to it. */
  function NodesOf(env: Env): Nodes {
    map p | p in env ::
      match env[p]
      case DirEntry(mode) => Dir(mode)
      case FileEntry(_, _, _) => File(0)
      case LinkEntry(target) => Link(target)
  }

  // ----- preflight and the plan's directories depend only on which paths are directories, links or files -----

  predicate Alike(a: Node, b: Node) {
    (a.Dir? <==> b.Dir?) && (a.Link? <==> b.Link?)
  }

  ghost predicate SameShape(a: Nodes, b: Nodes) {
    a.Keys == b.Keys && forall p | p in a :: Alike(a[p], b[p])
  }

  lemma {:induction false} ShapeMissing(a: Nodes, b: Nodes, virtual: set<Path>, path: Path, k: nat)
    requires SameShape(a, b) && k <= |path|
    ensures Missing(a, virtual, path, k) == Missing(b, virtual, path, k)
  {
    if k > 0 {
      ShapeMissing(a, b, virtual, path, k - 1);
    }
  }

  lemma {:induction false} ShapePasses(a: Nodes, b: Nodes, virtual: set<Path>, q: Request)
    requires SameShape(a, b)
    ensures Passes(a, virtual, q) == Passes(b, virtual, q)
    ensures Passes(a, virtual, q) ==> Prepare(a, virtual, q) == Prepare(b, virtual, q)
  {
    if q.Selected? && q.shape.Ok? {
      var path := q.shape.value.0;
      ShapeMissing(a, b, virtual, path, |path|);
      ShapeClear(a, b, virtual, path);
      ShapeClear(b, a, virtual, path);
    }
  }

  lemma {:induction false} ShapeClear(a: Nodes, b: Nodes, virtual: set<Path>, path: Path)
    requires SameShape(a, b)
    ensures Clear(a, virtual, path, |path|) ==> Clear(b, virtual, path, |path|)
  {
    if Clear(a, virtual, path, |path|) {
      forall i | 1 <= i <= |path|
        ensures path[..i] in virtual || path[..i] !in b || b[path[..i]].Dir?
      {
        if path[..i] in a {
          assert Alike(a[path[..i]], b[path[..i]]);
        }
      }
    }
  }

  lemma {:induction false} ShapeVirtual(a: Nodes, b: Nodes, requests: seq<Request>, n: nat)
    requires SameShape(a, b) && n <= |requests|
    ensures Virtual(a, requests, n) == Virtual(b, requests, n)
  {
    if n > 0 {
      ShapeVirtual(a, b, requests, n - 1);
      ShapePasses(a, b, Virtual(a, requests, n - 1), requests[n - 1]);
    }
  }

  lemma {:induction false} ShapeAccepts(a: Nodes, b: Nodes, requests: seq<Request>)
    requires SameShape(a, b) && Accepts(a, requests)
    ensures Accepts(b, requests)
  {
    forall i | 0 <= i < |requests| ensures PassesAt(b, requests, i) {
      assert PassesAt(a, requests, i);
      ShapeVirtual(a, b, requests, i);
      ShapePasses(a, b, Virtual(a, requests, i), requests[i]);
    }
  }

  lemma {:induction false} ShapePrepared(a: Nodes, b: Nodes, requests: seq<Request>, n: nat)
    requires SameShape(a, b) && Accepts(a, requests) && Accepts(b, requests) && n <= |requests|
    ensures PreparedUpTo(a, requests, n) == PreparedUpTo(b, requests, n)
  {
    if n > 0 {
      ShapePrepared(a, b, requests, n - 1);
      ShapeVirtual(a, b, requests, n - 1);
      assert PassesAt(a, requests, n - 1) && PassesAt(b, requests, n - 1);
      ShapePasses(a, b, Virtual(a, requests, n - 1), requests[n - 1]);
    }
  }

  /** File contents, modes, link targets and inodes decide nothing about a repair. */
  lemma {:induction false} ShapeDecides(a: Nodes, b: Nodes, requests: seq<Request>)
    requires SameShape(a, b)
    ensures Accepts(a, requests) <==> Accepts(b, requests)
    ensures Accepts(a, requests) ==> PlanMakes(a, requests) == PlanMakes(b, requests)
  {
    assert SameShape(b, a);
    if Accepts(a, requests) {
      ShapeAccepts(a, b, requests);
      ShapePrepared(a, b, requests, |requests|);
    }
    if Accepts(b, requests) {
      ShapeAccepts(b, a, requests);
    }
  }

  // ----- the repaired environment -----

  function MadeEntries(makes: seq<Make>): Env {
    if makes == [] then map[]
    else MadeEntries(makes[..|makes| - 1])[makes[|makes| - 1].path := DirEntry(makes[|makes| - 1].mode)]
  }

  predicate Repairable(env: Env, requests: seq<Request>) {
    Accepts(NodesOf(env), requests)
  }

  /** The environment with the plan's directories added. */
  function Repaired(env: Env, requests: seq<Request>): Env
    requires Repairable(env, requests)
  {
    env + MadeEntries(PlanMakes(NodesOf(env), requests))
  }

  ghost predicate Grows(env: Env, next: Env) {
    forall p | p in env :: p in next && next[p] == env[p]
  }

  ghost predicate RootedEnv(env: Env) {
    Rooted(NodesOf(env)) && forall p | p in env :: Named(p)
  }

  lemma {:induction false} MadeKeys(makes: seq<Make>, p: Path)
    ensures p in MadeEntries(makes) <==> MakesPath(makes, p)
  {
    if makes != [] {
      MadeKeys(makes[..|makes| - 1], p);
      MakesPathAppend(makes, p);
    }
  }

  /** A repair changes no entry; it adds exactly the missing directories the plan wants. */
  lemma {:induction false} RepairGrows(env: Env, requests: seq<Request>)
    requires RootedEnv(env) && Repairable(env, requests)
    ensures Grows(env, Repaired(env, requests))
    ensures forall p :: p in Repaired(env, requests) <==> p in env || WantedBy(requests, |requests|, p)
  {
    var nodes := NodesOf(env);
    var makes := PlanMakes(nodes, requests);
    MakesUpTo(nodes, requests, |requests|);
    forall p ensures p in MadeEntries(makes) <==> p !in env && WantedBy(requests, |requests|, p) {
      MadeKeys(makes, p);
    }
  }

  lemma {:induction false} MadeAgrees(nodes: Nodes, makes: seq<Make>, p: Path)
    ensures p in Made(nodes, makes) <==> p in nodes || p in MadeEntries(makes)
    ensures p in MadeEntries(makes) ==>
              MadeEntries(makes)[p].DirEntry? && Made(nodes, makes)[p] == Dir(MadeEntries(makes)[p].mode)
    ensures p in nodes && p !in MadeEntries(makes) ==> Made(nodes, makes)[p] == nodes[p]
  {
    if makes != [] {
      MadeAgrees(nodes, makes[..|makes| - 1], p);
    }
  }

  predicate NamedRequest(q: Request) {
    q.Selected? && q.shape.Ok? ==> Named(q.shape.value.0)
  }

  /** Scanning a repaired clone of env gives Repaired(env), whichever tree the clone is. */
  lemma {:induction false} RepairCommutesWithScan(t: Tree, requests: seq<Request>)
    requires ValidTree(t) && forall i | 0 <= i < |requests| :: NamedRequest(requests[i])
    ensures Repairable(Entries(t), requests) <==> Accepts(t.nodes, requests)
    ensures Accepts(t.nodes, requests) ==>
              var after := Tree(Made(t.nodes, PlanMakes(t.nodes, requests)), t.inodes);
              ValidTree(after) && Entries(after) == Repaired(Entries(t), requests)
  {
    var env := Entries(t);
    assert SameShape(t.nodes, NodesOf(env));
    ShapeDecides(t.nodes, NodesOf(env), requests);
    if Accepts(t.nodes, requests) {
      RepairedTree(t, requests, PlanMakes(t.nodes, requests));
    }
  }

  lemma {:induction false} RepairedTree(t: Tree, requests: seq<Request>, makes: seq<Make>)
    requires ValidTree(t) && Accepts(t.nodes, requests) && makes == PlanMakes(t.nodes, requests)
    requires forall i | 0 <= i < |requests| :: NamedRequest(requests[i])
    ensures ValidTree(Tree(Made(t.nodes, makes), t.inodes))
    ensures Entries(Tree(Made(t.nodes, makes), t.inodes)) == Entries(t) + MadeEntries(makes)
  {
    var nodes := Made(t.nodes, makes);
    var after := Tree(nodes, t.inodes);
    MakesUpTo(t.nodes, requests, |requests|);
    MadeExtends(t.nodes, makes);
    RootedMade(t.nodes, makes);
    forall p ensures p in nodes <==> p in t.nodes || p in MadeEntries(makes) {
      MadeAgrees(t.nodes, makes, p);
    }
    forall p | p in nodes
      ensures Named(p) && (nodes[p].File? ==> p in t.nodes && nodes[p] == t.nodes[p])
      ensures p in t.nodes ==> p !in MadeEntries(makes) && nodes[p] == t.nodes[p]
      ensures p !in t.nodes ==> p in MadeEntries(makes) && MadeEntries(makes)[p].DirEntry?
                                && nodes[p] == Dir(MadeEntries(makes)[p].mode)
    {
      MadeAgrees(t.nodes, makes, p);
      MadeKeys(makes, p);
      if p !in t.nodes {
        WantedNamed(requests, p);
      }
    }
    forall ino ensures SharedBy(nodes, ino) == SharedBy(t.nodes, ino) {
    }
    SameEntries(t, after, MadeEntries(makes));
  }

  lemma {:induction false} SameEntries(t: Tree, after: Tree, made: Env)
    requires ValidTree(t) && ValidTree(after) && after.inodes == t.inodes
    requires forall p :: p in after.nodes <==> p in t.nodes || p in made
    requires forall p | p in t.nodes :: p !in made && after.nodes[p] == t.nodes[p]
    requires forall p | p in made :: made[p].DirEntry? && after.nodes[p] == Dir(made[p].mode)
    requires forall ino :: SharedBy(after.nodes, ino) == SharedBy(t.nodes, ino)
    ensures Entries(after) == Entries(t) + made
  {
    forall p | p in after.nodes ensures Entries(after)[p] == (Entries(t) + made)[p] {
      if p in t.nodes {
        SameEntry(t, after, p);
      }
    }
  }

  lemma {:induction false} SameEntry(t: Tree, after: Tree, p: Path)
    requires HasInodes(t) && HasInodes(after) && after.inodes == t.inodes
    requires p in t.nodes && p in after.nodes && after.nodes[p] == t.nodes[p]
    requires forall ino :: SharedBy(after.nodes, ino) == SharedBy(t.nodes, ino)
    ensures EntryOf(after, p) == EntryOf(t, p)
  {
  }

  lemma {:induction false} RootedMade(nodes: Nodes, makes: seq<Make>)
    requires Rooted(nodes) && Orderly(nodes, makes)
    ensures Rooted(Made(nodes, makes))
  {
    if makes != [] {
      var n := |makes| - 1;
      OrderlyPrefix(nodes, makes, n);
      RootedMade(nodes, makes[..n]);
      NextMake(nodes, makes, n);
      assert makes[..n + 1] == makes;
    }
  }

  lemma {:induction false} WantedNamed(requests: seq<Request>, p: Path)
    requires forall i | 0 <= i < |requests| :: NamedRequest(requests[i])
    ensures WantedBy(requests, |requests|, p) ==> Named(p)
  {
    if WantedBy(requests, |requests|, p) {
      var i :| 0 <= i < |requests| && Wants(requests[i], p);
      assert NamedRequest(requests[i]);
      var path := requests[i].shape.value.0;
      assert forall k | 0 <= k < |p| :: p[k] == path[k];
    }
  }

  // ----- every request made from a decision names its directories properly -----

  lemma {:induction false} SplitNoSlash(s: string, k: nat)
    requires k < |PosixPath.Split(s)|
    ensures '/' !in PosixPath.Split(s)[k]
  {
    if s != "" {
      if s[0] == '/' {
        if k > 0 {
          SplitNoSlash(s[1..], k - 1);
        }
      } else {
        SplitNoSlash(s[1..], k);
      }
    }
  }

  lemma {:induction false} NamedPieces(pieces: seq<string>)
    requires forall k | 0 <= k < |pieces| :: '/' !in pieces[k]
    ensures Named(PosixPath.Named(pieces))
  {
    if pieces != [] {
      NamedPieces(pieces[1..]);
    }
  }

  lemma {:induction false} NamedRequests(decisions: seq<Decision>)
    ensures forall i | 0 <= i < |Requests(decisions)| :: NamedRequest(Requests(decisions)[i])
  {
    forall i | 0 <= i < |decisions| ensures NamedRequest(RequestOf(decisions[i])) {
      var s := decisions[i].resource;
      forall k | 0 <= k < |PosixPath.Split(s)| ensures '/' !in PosixPath.Split(s)[k] {
        SplitNoSlash(s, k);
      }
      NamedPieces(PosixPath.Split(s));
    }
  }

  /** Repairing again with the same plan is accepted and changes nothing. */
  lemma {:induction false} RepairOnce(env: Env, requests: seq<Request>)
    requires RootedEnv(env) && Repairable(env, requests)
    ensures Repairable(Repaired(env, requests), requests)
    ensures Repaired(Repaired(env, requests), requests) == Repaired(env, requests)
  {
    var next := Repaired(env, requests);
    RepairGrows(env, requests);
    RepairedDirectories(env, requests);
    SecondTime(NodesOf(next), requests, |requests|);
    forall i | 0 <= i < |requests| ensures PassesAt(NodesOf(next), requests, i) {
      SecondTime(NodesOf(next), requests, i);
      ShapeIsRight(env, requests, i);
      AllThere(NodesOf(next), requests[i]);
    }
    RepairedRooted(env, requests);
    NothingMade(NodesOf(next), requests);
    assert MadeEntries([]) == map[];
  }

  lemma {:induction false} ShapeIsRight(env: Env, requests: seq<Request>, i: nat)
    requires Repairable(env, requests) && i < |requests|
    ensures requests[i].Selected? ==> requests[i].shape.Ok?
  {
    assert PassesAt(NodesOf(env), requests, i);
  }

  lemma {:induction false} RepairedRooted(env: Env, requests: seq<Request>)
    requires RootedEnv(env) && Repairable(env, requests)
    ensures Rooted(NodesOf(Repaired(env, requests)))
    ensures NodesOf(Repaired(env, requests)) == Made(NodesOf(env), PlanMakes(NodesOf(env), requests))
  {
    var nodes, makes := NodesOf(env), PlanMakes(NodesOf(env), requests);
    MakesUpTo(nodes, requests, |requests|);
    RootedMade(nodes, makes);
    forall p ensures p in Made(nodes, makes) <==> p in Repaired(env, requests) {
      MadeAgrees(nodes, makes, p);
    }
    forall p | p in Made(nodes, makes) ensures Made(nodes, makes)[p] == NodesOf(Repaired(env, requests))[p] {
      MadeAgrees(nodes, makes, p);
    }
  }

  /** A repaired environment can be repaired again. */
  lemma {:induction false} RepairKeepsRooted(env: Env, requests: seq<Request>)
    requires RootedEnv(env) && Repairable(env, requests)
    requires forall i | 0 <= i < |requests| :: NamedRequest(requests[i])
    ensures RootedEnv(Repaired(env, requests))
  {
    RepairedRooted(env, requests);
    RepairGrows(env, requests);
    forall p | p in Repaired(env, requests) ensures Named(p) {
      WantedNamed(requests, p);
    }
  }

  /** All the directories a request wants stand already. */
  ghost predicate Stands(nodes: Nodes, q: Request) {
    forall p | Wants(q, p) :: IsDir(nodes, p)
  }

  lemma {:induction false} RepairedDirectories(env: Env, requests: seq<Request>)
    requires RootedEnv(env) && Repairable(env, requests)
    ensures forall i | 0 <= i < |requests| :: Stands(NodesOf(Repaired(env, requests)), requests[i])
  {
    var nodes, next := NodesOf(env), Repaired(env, requests);
    var makes := PlanMakes(nodes, requests);
    MakesUpTo(nodes, requests, |requests|);
    forall i, p | 0 <= i < |requests| && Wants(requests[i], p) ensures IsDir(NodesOf(next), p) {
      assert WantedBy(requests, |requests|, p);
      MadeKeys(makes, p);
      MadeAgrees(nodes, makes, p);
      if p in env {
        WantedThere(nodes, requests, i, p);
      }
    }
  }

  lemma {:induction false} WantedThere(nodes: Nodes, requests: seq<Request>, i: nat, p: Path)
    requires Rooted(nodes) && Accepts(nodes, requests) && i < |requests| && Wants(requests[i], p) && p in nodes
    ensures IsDir(nodes, p)
  {
    assert PassesAt(nodes, requests, i);
    MakesUpTo(nodes, requests, i);
    assert p == requests[i].shape.value.0[..|p|];
  }

  lemma {:induction false} AllThere(nodes: Nodes, q: Request)
    requires Stands(nodes, q) && (q.Selected? ==> q.shape.Ok?)
    ensures Passes(nodes, {}, q) && MakesOf(Prepare(nodes, {}, q)) == []
    ensures CreatesOf(Prepare(nodes, {}, q)) == []
  {
    if q.Selected? {
      var path := q.shape.value.0;
      forall k | 1 <= k <= |path| ensures IsDir(nodes, path[..k]) {
        assert Wants(q, path[..k]);
      }
      NothingMissing(nodes, path, |path|);
    }
  }

  lemma {:induction false} NothingMissing(nodes: Nodes, path: Path, k: nat)
    requires k <= |path| && forall i | 1 <= i <= |path| :: IsDir(nodes, path[..i])
    ensures Missing(nodes, {}, path, k) == []
  {
    if k > 0 {
      NothingMissing(nodes, path, k - 1);
      assert IsDir(nodes, path[..k]);
    }
  }

  lemma {:induction false} SecondTime(nodes: Nodes, requests: seq<Request>, n: nat)
    requires n <= |requests| && forall i | 0 <= i < |requests| :: Stands(nodes, requests[i])
    ensures Virtual(nodes, requests, n) == {}
  {
    if n > 0 {
      SecondTime(nodes, requests, n - 1);
      if Passes(nodes, {}, requests[n - 1]) {
        assert Stands(nodes, requests[n - 1]);
        AllThere(nodes, requests[n - 1]);
      }
    }
  }

  lemma {:induction false} NothingMade(nodes: Nodes, requests: seq<Request>)
    requires Rooted(nodes) && Accepts(nodes, requests)
    requires forall i | 0 <= i < |requests| :: Stands(nodes, requests[i])
    ensures PlanMakes(nodes, requests) == []
  {
    var makes := PlanMakes(nodes, requests);
    MakesUpTo(nodes, requests, |requests|);
    forall p ensures !(p !in nodes && WantedBy(requests, |requests|, p)) {
      if WantedBy(requests, |requests|, p) {
        var i :| 0 <= i < |requests| && Wants(requests[i], p);
        assert Stands(nodes, requests[i]);
      }
    }
    NoPaths(makes);
  }

  lemma {:induction false} NoPaths(makes: seq<Make>)
    ensures (forall p :: !MakesPath(makes, p)) ==> makes == []
  {
    if makes != [] {
      assert MakesPath(makes, makes[0].path);
    }
  }
}
