/** Cloning a rootfs: entries are recreated in path order, directory modes are set last and deepest first. */
module SnapshotClone {
  import opened Wrappers
  import opened Bytes
  import opened Rootfs
  import opened PathOrder
  import opened Snapshot

  /** The mode every directory has while the clone is being filled: 0700. */
  const PRIVATE: nat := 448

  predicate OwnerWrite(mode: nat) {
    mode / 128 % 2 == 1
  }

  predicate OwnerSearch(mode: nat) {
    mode / 64 % 2 == 1
  }

  /** The owner may search every directory above p. */
  ghost predicate Reachable(nodes: Nodes, p: Path) {
    forall k | 0 <= k < |p| :: IsDir(nodes, p[..k]) && OwnerSearch(nodes[p[..k]].mode)
  }

  /** The owner may create an entry p. */
  ghost predicate Creatable(nodes: Nodes, p: Path) {
    p !in nodes && Reachable(nodes, p) && (p != [] ==> IsDir(nodes, Parent(p)) && OwnerWrite(nodes[Parent(p)].mode))
  }

  predicate SameFile(m: map<Path, Entry>, p: Path, q: Path)
    requires p in m && q in m && m[p].FileEntry? && m[q].FileEntry?
  {
    p == q || (m[p].group.Some? && m[p].group == m[q].group)
  }

  /** Paths in one group are one file, so they agree in mode and content. */
  ghost predicate Coherent(m: map<Path, Entry>) {
    forall p, q | p in m && q in m && m[p].FileEntry? && m[q].FileEntry? && SameFile(m, p, q) :: m[p] == m[q]
  }

  /** Node p is what entry m[p] asks for, except that directories are still private. */
  ghost predicate CopiedAt(m: map<Path, Entry>, nodes: Nodes, inodes: map<nat, Inode>, p: Path)
    requires p in m && p in nodes
  {
    match m[p]
    case DirEntry(_) => nodes[p] == Dir(PRIVATE)
    case LinkEntry(target) => nodes[p] == Link(target)
    case FileEntry(mode, bytes, _) =>
      && nodes[p].File? && nodes[p].ino in inodes
      && inodes[nodes[p].ino].mode == mode && inodes[nodes[p].ino].bytes == bytes
  }

  /** Two copied files are one inode exactly when their entries are in one group. */
  ghost predicate Linked(m: map<Path, Entry>, nodes: Nodes) {
    forall p, q | p in nodes && q in nodes && p in m && q in m && m[p].FileEntry? && m[q].FileEntry? ::
      nodes[p] == nodes[q] <==> SameFile(m, p, q)
  }

  ghost predicate Counted(nodes: Nodes, inodes: map<nat, Inode>) {
    forall ino | ino in inodes :: inodes[ino].nlink == |SharedBy(nodes, ino)|
  }

  ghost predicate Copied(m: map<Path, Entry>, nodes: Nodes, inodes: map<nat, Inode>) {
    && nodes.Keys <= m.Keys
    && (forall p | p in nodes :: CopiedAt(m, nodes, inodes, p))
    && Linked(m, nodes)
    && Counted(nodes, inodes)
  }

  /** hardlink_targets: each group that has been copied, with one of its paths. */
  ghost predicate Targets(m: map<Path, Entry>, nodes: Nodes, targets: map<set<Path>, Path>)
    requires nodes.Keys <= m.Keys
  {
    && (forall g | g in targets ::
          targets[g] in nodes && m[targets[g]].FileEntry? && m[targets[g]].group == Some(g))
    && (forall p | p in nodes && m[p].FileEntry? && m[p].group.Some? :: m[p].group.value in targets)
  }

  lemma {:induction false} AddDirectory(m: map<Path, Entry>, nodes: Nodes, inodes: map<nat, Inode>, p: Path)
    requires Copied(m, nodes, inodes) && p in m && p !in nodes && m[p].DirEntry?
    ensures Copied(m, nodes[p := Dir(PRIVATE)], inodes)
  {
    var after := nodes[p := Dir(PRIVATE)];
    SameShares(nodes, p, Dir(PRIVATE), inodes);
    forall q | q in after ensures CopiedAt(m, after, inodes, q) {
      assert q != p ==> CopiedAt(m, nodes, inodes, q);
    }
  }

  lemma {:induction false} AddLink(m: map<Path, Entry>, nodes: Nodes, inodes: map<nat, Inode>, p: Path)
    requires Copied(m, nodes, inodes) && p in m && p !in nodes && m[p].LinkEntry?
    ensures Copied(m, nodes[p := Link(m[p].target)], inodes)
  {
    var after := nodes[p := Link(m[p].target)];
    SameShares(nodes, p, Link(m[p].target), inodes);
    forall q | q in after ensures CopiedAt(m, after, inodes, q) {
      assert q != p ==> CopiedAt(m, nodes, inodes, q);
    }
  }

  lemma {:induction false} SameShares(nodes: Nodes, p: Path, node: Node, inodes: map<nat, Inode>)
    requires p !in nodes && !node.File? && Counted(nodes, inodes)
    ensures Counted(nodes[p := node], inodes)
  {
    forall ino | ino in inodes ensures SharedBy(nodes[p := node], ino) == SharedBy(nodes, ino) {
    }
  }

  lemma {:induction false} AddFile(m: map<Path, Entry>, nodes: Nodes, inodes: map<nat, Inode>, p: Path, ino: nat)
    requires Copied(m, nodes, inodes) && p in m && p !in nodes && m[p].FileEntry? && ino !in inodes
    requires forall q | q in nodes && m[q].FileEntry? :: !SameFile(m, p, q)
    ensures Copied(m, nodes[p := File(ino)], inodes[ino := Inode(m[p].mode, m[p].bytes, 1)])
  {
    var after, files := nodes[p := File(ino)], inodes[ino := Inode(m[p].mode, m[p].bytes, 1)];
    forall q | q in nodes ensures CopiedAt(m, after, files, q) && nodes[q] != File(ino) {
      assert CopiedAt(m, nodes, inodes, q);
    }
    forall i | i in files ensures files[i].nlink == |SharedBy(after, i)| {
      assert SharedBy(after, i) == if i == ino then {p} else SharedBy(nodes, i);
    }
  }

  lemma {:induction false} AddHardlink(m: map<Path, Entry>, nodes: Nodes, inodes: map<nat, Inode>, p: Path, first: Path)
    requires Coherent(m) && Copied(m, nodes, inodes) && p in m && p !in nodes && m[p].FileEntry?
    requires first in nodes && m[first].FileEntry? && SameFile(m, p, first)
    ensures CopiedAt(m, nodes, inodes, first)
    ensures var ino := nodes[first].ino;
            Copied(m, nodes[p := File(ino)], inodes[ino := Inode(m[p].mode, m[p].bytes, inodes[ino].nlink + 1)])
  {
    assert CopiedAt(m, nodes, inodes, first) && m[p] == m[first];
    var ino := nodes[first].ino;
    var after, files := nodes[p := File(ino)], inodes[ino := Inode(m[p].mode, m[p].bytes, inodes[ino].nlink + 1)];
    forall q | q in after ensures CopiedAt(m, after, files, q) {
      assert q != p ==> CopiedAt(m, nodes, inodes, q);
    }
    OneMoreLink(nodes, inodes, p, ino, files);
    StillLinked(m, nodes, p, first);
  }

  lemma {:induction false} OneMoreLink(nodes: Nodes, inodes: map<nat, Inode>, p: Path, ino: nat, files: map<nat, Inode>)
    requires Counted(nodes, inodes) && p !in nodes && ino in inodes && files.Keys == inodes.Keys
    requires forall i | i in inodes ::
               files[i].nlink == if i == ino then inodes[i].nlink + 1 else inodes[i].nlink
    ensures Counted(nodes[p := File(ino)], files)
  {
    var after := nodes[p := File(ino)];
    forall i | i in files ensures files[i].nlink == |SharedBy(after, i)| {
      SharesAfter(nodes, p, ino, i);
    }
  }

  lemma {:induction false} SharesAfter(nodes: Nodes, p: Path, ino: nat, i: nat)
    requires p !in nodes
    ensures SharedBy(nodes[p := File(ino)], i) == if i == ino then SharedBy(nodes, i) + {p} else SharedBy(nodes, i)
    ensures |SharedBy(nodes[p := File(ino)], i)| == |SharedBy(nodes, i)| + if i == ino then 1 else 0
  {
    var before, after := SharedBy(nodes, i), SharedBy(nodes[p := File(ino)], i);
    assert p !in before;
    if i == ino {
      assert after == before + {p};
    } else {
      assert after == before;
    }
  }

  lemma {:induction false} StillLinked(m: map<Path, Entry>, nodes: Nodes, p: Path, first: Path)
    requires nodes.Keys <= m.Keys && Linked(m, nodes) && p in m && p !in nodes && m[p].FileEntry?
    requires first in nodes && m[first].FileEntry? && SameFile(m, p, first)
    ensures Linked(m, nodes[p := nodes[first]])
  {
    forall q | q in nodes && m[q].FileEntry? ensures nodes[q] == nodes[first] <==> SameFile(m, p, q) {
      assert nodes[q] == nodes[first] <==> SameFile(m, q, first);
    }
  }

  // ----- the directory modes, deepest first -----

  datatype Chmod = Chmod(path: Path, mode: nat)

  /** Longer paths come first. */
  ghost predicate DeepestFirst(dirs: seq<Chmod>) {
    forall i, j | 0 <= i < j < |dirs| :: |dirs[i].path| >= |dirs[j].path|
  }

  /** Stable insertion sort by depth, descending. */
  method SortByDepth(dirs: seq<Chmod>) returns (r: seq<Chmod>)
    ensures DeepestFirst(r) && multiset(r) == multiset(dirs)
  {
    r := [];
    for n := 0 to |dirs|
      invariant DeepestFirst(r) && multiset(r) == multiset(dirs[..n])
    {
      assert dirs[..n + 1] == dirs[..n] + [dirs[n]];
      r := InsertByDepth(r, dirs[n]);
    }
    assert dirs[..|dirs|] == dirs;
  }

  method InsertByDepth(sorted: seq<Chmod>, c: Chmod) returns (r: seq<Chmod>)
    requires DeepestFirst(sorted)
    ensures DeepestFirst(r) && multiset(r) == multiset(sorted) + multiset{c}
  {
    var at := 0;
    while at < |sorted| && |sorted[at].path| >= |c.path|
      invariant 0 <= at <= |sorted|
      invariant forall k | 0 <= k < at :: |sorted[k].path| >= |c.path|
    {
      at := at + 1;
    }
    r := sorted[..at] + [c] + sorted[at..];
    InsertedByDepth(sorted, c, at);
  }

  lemma {:induction false} InsertedByDepth(sorted: seq<Chmod>, c: Chmod, at: nat)
    requires DeepestFirst(sorted) && at <= |sorted|
    requires forall k | 0 <= k < at :: |sorted[k].path| >= |c.path|
    requires at < |sorted| ==> |sorted[at].path| <= |c.path|
    ensures DeepestFirst(sorted[..at] + [c] + sorted[at..])
    ensures multiset(sorted[..at] + [c] + sorted[at..]) == multiset(sorted) + multiset{c}
  {
    assert sorted == sorted[..at] + sorted[at..];
    forall i, j | 0 <= i < j <= |sorted|
      ensures |(sorted[..at] + [c] + sorted[at..])[i].path| >= |(sorted[..at] + [c] + sorted[at..])[j].path|
    {
      InsertedAt(sorted, c, at, i);
      InsertedAt(sorted, c, at, j);
    }
  }

  lemma {:induction false} InsertedAt(sorted: seq<Chmod>, c: Chmod, at: nat, i: nat)
    requires at <= |sorted| && i <= |sorted|
    ensures (sorted[..at] + [c] + sorted[at..])[i] == if i < at then sorted[i] else if i == at then c else sorted[i - 1]
  {
  }

  // ----- cloning -----

  /** The new rootfs while it is being written. Inode numbers grow. */
  class Destination {
    var nodes: Nodes
    var inodes: map<nat, Inode>
    var next: nat

    constructor ()
      ensures nodes == map[] && inodes == map[] && Valid()
    {
      nodes, inodes, next := map[], map[], 0;
    }

    ghost predicate Valid() reads this {
      && (forall ino | ino in inodes :: ino < next)
      && (forall p | p in nodes && nodes[p].File? :: nodes[p].ino in inodes)
    }

    method Mkdir(p: Path, mode: nat)
      requires Valid() && Creatable(nodes, p)
      modifies this`nodes
      ensures Valid() && nodes == old(nodes)[p := Dir(mode)]
    {
      nodes := nodes[p := Dir(mode)];
    }

    method Symlink(target: string, p: Path)
      requires Valid() && Creatable(nodes, p)
      modifies this`nodes
      ensures Valid() && nodes == old(nodes)[p := Link(target)]
    {
      nodes := nodes[p := Link(target)];
    }

    method CopyFile(bytes: seq<byte>, p: Path, umaskMode: nat) returns (ino: nat)
      requires Valid() && Creatable(nodes, p)
      modifies this
      ensures Valid() && ino !in old(inodes) && nodes == old(nodes)[p := File(ino)]
      ensures inodes == old(inodes)[ino := Inode(umaskMode, bytes, 1)]
    {
      ino := next;
      nodes, inodes, next := nodes[p := File(ino)], inodes[ino := Inode(umaskMode, bytes, 1)], next + 1;
    }

    method HardLink(first: Path, p: Path)
      requires Valid() && Creatable(nodes, p) && Reachable(nodes, first) && first in nodes && nodes[first].File?
      modifies this`nodes, this`inodes
      ensures Valid() && nodes == old(nodes)[p := old(nodes)[first]]
      ensures var ino := old(nodes)[first].ino;
              inodes == old(inodes)[ino := old(inodes)[ino].(nlink := old(inodes)[ino].nlink + 1)]
    {
      var ino := nodes[first].ino;
      nodes := nodes[p := File(ino)];
      inodes := inodes[ino := inodes[ino].(nlink := inodes[ino].nlink + 1)];
    }

    method ChmodFile(p: Path, mode: nat)
      requires Valid() && Reachable(nodes, p) && p in nodes && nodes[p].File?
      modifies this`inodes
      ensures Valid() && inodes == old(inodes)[nodes[p].ino := old(inodes)[nodes[p].ino].(mode := mode)]
    {
      inodes := inodes[nodes[p].ino := inodes[nodes[p].ino].(mode := mode)];
    }

    method ChmodDirectory(p: Path, mode: nat)
      requires Valid() && Reachable(nodes, p) && IsDir(nodes, p)
      modifies this`nodes
      ensures Valid() && nodes == old(nodes)[p := Dir(mode)]
    {
      nodes := nodes[p := Dir(mode)];
    }

    /** A file whose group has been copied: a hardlink to that copy, with the mode set again. */
    method LinkFile(ghost m: map<Path, Entry>, p: Path, mode: nat, first: Path)
      requires Valid() && Coherent(m) && Copied(m, nodes, inodes) && Rooted(nodes)
      requires p in m && m[p].FileEntry? && p !in nodes && p != [] && IsDir(nodes, Parent(p))
      requires m[p].mode == mode && first in nodes && m[first].FileEntry? && SameFile(m, p, first)
      modifies this
      ensures Valid() && Copied(m, nodes, inodes)
      ensures nodes == old(nodes)[p := old(nodes)[first]] && nodes[p].File?
    {
      ghost var files, ino := inodes, nodes[first].ino;
      PrivateTree(m, nodes, inodes);
      PrivateParent(nodes, p);
      PrivatePrefixes(nodes, first);
      AddHardlink(m, nodes, inodes, p, first);
      HardLink(first, p);
      ReachableStill(old(nodes), p, nodes[p]);
      ChmodFile(p, mode);
      assert inodes == files[ino := Inode(m[p].mode, m[p].bytes, files[ino].nlink + 1)];
    }

    /** A file on its own, or the first of its group: a copy. */
    method CopyNew(ghost m: map<Path, Entry>, p: Path, mode: nat, bytes: seq<byte>, umaskMode: nat)
      requires Valid() && Copied(m, nodes, inodes) && Rooted(nodes)
      requires p in m && m[p].FileEntry? && p !in nodes && p != [] && IsDir(nodes, Parent(p))
      requires m[p].mode == mode && m[p].bytes == bytes
      requires forall q | q in nodes && m[q].FileEntry? :: !SameFile(m, p, q)
      modifies this
      ensures Valid() && Copied(m, nodes, inodes)
      ensures p in nodes && nodes[p].File? && nodes == old(nodes)[p := nodes[p]]
    {
      ghost var files := inodes;
      PrivateTree(m, nodes, inodes);
      PrivateParent(nodes, p);
      var ino := CopyFile(bytes, p, umaskMode);
      AddFile(m, old(nodes), files, p, ino);
      ReachableStill(old(nodes), p, nodes[p]);
      ChmodFile(p, mode);
      assert inodes == files[ino := Inode(m[p].mode, m[p].bytes, 1)];
    }

    /** A file entry, with hardlink_targets kept up to date. */
    method CloneFile(ghost m: map<Path, Entry>, p: Path, entry: Entry, targets: map<set<Path>, Path>, umaskMode: nat)
      returns (after: map<set<Path>, Path>)
      requires Valid() && Coherent(m) && Copied(m, nodes, inodes) && Rooted(nodes) && Targets(m, nodes, targets)
      requires p in m && m[p] == entry && entry.FileEntry? && p !in nodes && p != [] && IsDir(nodes, Parent(p))
      modifies this
      ensures Valid() && Copied(m, nodes, inodes) && Targets(m, nodes, after)
      ensures p in nodes && nodes[p].File? && nodes == old(nodes)[p := nodes[p]]
    {
      after := targets;
      var group := entry.group;
      if group.Some? && group.value in targets {
        LinkFile(m, p, entry.mode, targets[group.value]);
      } else {
        CopyNew(m, p, entry.mode, entry.bytes, umaskMode);
        if group.Some? {
          after := after[group.value := p];
        }
      }
    }

    /** One entry after the root. */
    method CloneEntry(ghost m: map<Path, Entry>, p: Path, entry: Entry, targets: map<set<Path>, Path>, umaskMode: nat)
      returns (after: map<set<Path>, Path>)
      requires Valid() && Coherent(m) && Copied(m, nodes, inodes) && Rooted(nodes) && Targets(m, nodes, targets)
      requires p in m && m[p] == entry && p !in nodes && p != [] && IsDir(nodes, Parent(p))
      modifies this
      ensures Valid() && Copied(m, nodes, inodes) && Targets(m, nodes, after)
      ensures p in nodes && nodes == old(nodes)[p := nodes[p]]
    {
      after := targets;
      match entry {
        case DirEntry(_) =>
          AddDirectory(m, nodes, inodes, p);
          PrivateTree(m, nodes, inodes);
          PrivateParent(nodes, p);
          Mkdir(p, PRIVATE);
        case LinkEntry(target) =>
          AddLink(m, nodes, inodes, p);
          PrivateTree(m, nodes, inodes);
          PrivateParent(nodes, p);
          Symlink(target, p);
        case FileEntry(_, _, _) =>
          after := CloneFile(m, p, entry, targets, umaskMode);
      }
    }

    /** The first loop: every entry after the root, in path order. */
    method Fill(ghost source: Tree, entries: seq<Item>, umaskMode: nat) returns (directories: seq<Chmod>)
      requires ValidTree(source) && Lists(entries, Entries(source))
      requires Valid() && nodes == map[[] := Dir(PRIVATE)] && inodes == map[]
      modifies this
      ensures Valid() && Copied(Entries(source), nodes, inodes) && Rooted(nodes)
      ensures Awaiting(Entries(source), nodes, directories)
      ensures nodes.Keys == source.nodes.Keys
    {
      ghost var m := Entries(source);
      var targets: map<set<Path>, Path> := map[];
      directories := [];
      CoherentEntries(source);
      RootFirst(source, entries);
      RootCopied(m, nodes);
      for n := 1 to |entries|
        invariant Valid() && Copied(m, nodes, inodes) && Rooted(nodes) && Targets(m, nodes, targets)
        invariant Awaiting(m, nodes, directories)
        invariant nodes.Keys == Elements(Paths(entries)[..n])
      {
        var p := entries[n].path;
        NextEntry(source, entries, n, nodes, inodes);
        ghost var before := nodes;
        targets := CloneEntry(m, p, entries[n].entry, targets, umaskMode);
        RootedGrows(before, p, nodes);
        AwaitingGrows(m, before, p, nodes, directories);
        if entries[n].entry.DirEntry? {
          directories := directories + [Chmod(p, entries[n].entry.mode)];
        }
      }
      assert Paths(entries)[..|entries|] == Paths(entries);
    }

    /** chmod of every directory, deepest first, so that each is still reachable when its turn comes. */
    method SetModes(ordered: seq<Chmod>)
      requires Valid() && Rooted(nodes) && AllPrivate(nodes) && DeepestFirst(ordered)
      requires forall i | 0 <= i < |ordered| :: IsDir(nodes, ordered[i].path)
      modifies this`nodes
      ensures Valid() && nodes.Keys == old(nodes.Keys)
      ensures forall p | p in nodes :: ModeSet(old(nodes), nodes, ordered, |ordered|, p)
    {
      ghost var filled := nodes;
      for k := 0 to |ordered|
        invariant Valid() && nodes.Keys == filled.Keys
        invariant forall p | p in nodes :: ModeSet(filled, nodes, ordered, k, p)
      {
        StillReachable(filled, nodes, ordered, k);
        ghost var before := nodes;
        ChmodDirectory(ordered[k].path, ordered[k].mode);
        ModeStep(filled, before, nodes, ordered, k);
      }
    }

    /** clone_environment: a destination that exists is refused, otherwise the clone scans exactly as the source does. */
    method CloneEnvironment(source: Tree, umaskMode: nat) returns (ok: bool)
      requires ValidTree(source) && Valid() && (nodes == map[] ==> inodes == map[])
      modifies this
      ensures ok <==> old(nodes) == map[]
      ensures !ok ==> nodes == old(nodes) && inodes == old(inodes)
      ensures ok ==> ValidTree(Tree(nodes, inodes)) && Entries(Tree(nodes, inodes)) == Entries(source)
      ensures ok ==> SameTree(Tree(nodes, inodes), source)
    {
      hide Copied, Awaiting, ModeSet, Lists, Entries;
      hide SameTree, Tells;
      if nodes != map[] {
        return false;
      }
      var entries := ScanEnvironment(source);
      RootFirst(source, entries);
      Mkdir([], PRIVATE);
      var directories := Fill(source, entries, umaskMode);
      ghost var m, filled, files := Entries(source), nodes, inodes;
      PrivateTree(m, nodes, inodes);
      var ordered := SortByDepth(directories);
      StillAwaiting(m, nodes, directories, ordered);
      AwaitingDirectories(m, nodes, inodes, ordered);
      SetModes(ordered);
      RootLast(source, filled, nodes, files, ordered);
      ChmodDirectory([], entries[0].entry.mode);
      ScansAgree(Tree(nodes, inodes), source);
      ok := true;
    }
  }

  lemma {:induction false} ReachableStill(nodes: Nodes, p: Path, node: Node)
    requires Creatable(nodes, p)
    ensures Reachable(nodes[p := node], p)
  {
  }

  /** While the clone is being filled every directory in it is private. */
  ghost predicate AllPrivate(nodes: Nodes) {
    forall p | p in nodes && nodes[p].Dir? :: nodes[p].mode == PRIVATE
  }

  lemma {:induction false} PrivateTree(m: map<Path, Entry>, nodes: Nodes, inodes: map<nat, Inode>)
    requires Copied(m, nodes, inodes)
    ensures AllPrivate(nodes)
  {
    forall p | p in nodes && nodes[p].Dir? ensures nodes[p].mode == PRIVATE {
      assert CopiedAt(m, nodes, inodes, p);
    }
  }

  lemma {:induction false} PrivatePrefixes(nodes: Nodes, p: Path)
    requires AllPrivate(nodes) && Rooted(nodes) && p in nodes
    ensures Reachable(nodes, p)
  {
    forall k | 0 <= k < |p| ensures IsDir(nodes, p[..k]) && OwnerSearch(nodes[p[..k]].mode) {
      AncestorIsDir(nodes, p, k);
    }
  }

  lemma {:induction false} PrivateParent(nodes: Nodes, p: Path)
    requires AllPrivate(nodes) && Rooted(nodes) && p !in nodes && p != [] && IsDir(nodes, Parent(p))
    ensures Creatable(nodes, p)
  {
    PrivatePrefixes(nodes, Parent(p));
    forall k | 0 <= k < |p| ensures IsDir(nodes, p[..k]) && OwnerSearch(nodes[p[..k]].mode) {
      assert k < |p| - 1 ==> Parent(p)[..k] == p[..k];
    }
  }

  /** One of the first k chmods is of p. */
  predicate Listed(ordered: seq<Chmod>, k: nat, p: Path)
    requires k <= |ordered|
  {
    exists i :: 0 <= i < k && ordered[i].path == p
  }

  predicate HasMode(ordered: seq<Chmod>, k: nat, p: Path, node: Node)
    requires k <= |ordered|
  {
    exists i :: 0 <= i < k && ordered[i].path == p && node == Dir(ordered[i].mode)
  }

  /** After k chmods: a listed directory has one of the modes listed for it, any other node is as it was. */
  ghost predicate ModeSet(filled: Nodes, nodes: Nodes, ordered: seq<Chmod>, k: nat, p: Path)
    requires k <= |ordered| && p in nodes && p in filled
  {
    if Listed(ordered, k, p) then HasMode(ordered, k, p, nodes[p]) else nodes[p] == filled[p]
  }

  lemma {:induction false} ShorterComesLater(ordered: seq<Chmod>, k: nat, p: Path)
    requires DeepestFirst(ordered) && k < |ordered| && |p| < |ordered[k].path|
    ensures !Listed(ordered, k, p)
  {
  }

  lemma {:induction false} StillReachable(filled: Nodes, nodes: Nodes, ordered: seq<Chmod>, k: nat)
    requires Rooted(filled) && AllPrivate(filled) && DeepestFirst(ordered) && k < |ordered| && nodes.Keys == filled.Keys
    requires IsDir(filled, ordered[k].path)
    requires forall p | p in nodes :: ModeSet(filled, nodes, ordered, k, p)
    ensures Reachable(nodes, ordered[k].path) && IsDir(nodes, ordered[k].path)
  {
    var path := ordered[k].path;
    forall j | 0 <= j < |path| ensures IsDir(nodes, path[..j]) && OwnerSearch(nodes[path[..j]].mode) {
      AncestorStillPrivate(filled, nodes, ordered, k, j);
    }
    assert ModeSet(filled, nodes, ordered, k, path);
  }

  lemma {:induction false} AncestorStillPrivate(filled: Nodes, nodes: Nodes, ordered: seq<Chmod>, k: nat, j: nat)
    requires Rooted(filled) && AllPrivate(filled) && DeepestFirst(ordered) && k < |ordered| && nodes.Keys == filled.Keys
    requires IsDir(filled, ordered[k].path) && j < |ordered[k].path|
    requires forall p | p in nodes :: ModeSet(filled, nodes, ordered, k, p)
    ensures IsDir(nodes, ordered[k].path[..j]) && OwnerSearch(nodes[ordered[k].path[..j]].mode)
  {
    hide Rooted, DeepestFirst, Listed, HasMode;
    var ancestor := ordered[k].path[..j];
    AncestorIsDir(filled, ordered[k].path, j);
    ShorterComesLater(ordered, k, ancestor);
    assert ModeSet(filled, nodes, ordered, k, ancestor);
  }

  lemma {:induction false} ListedStep(ordered: seq<Chmod>, k: nat, p: Path, node: Node)
    requires k < |ordered|
    ensures Listed(ordered, k + 1, p) <==> Listed(ordered, k, p) || p == ordered[k].path
    ensures HasMode(ordered, k, p, node) || (p == ordered[k].path && node == Dir(ordered[k].mode)) ==>
              HasMode(ordered, k + 1, p, node)
  {
  }

  lemma {:induction false} ModeStep(filled: Nodes, before: Nodes, nodes: Nodes, ordered: seq<Chmod>, k: nat)
    requires k < |ordered| && before.Keys == filled.Keys && ordered[k].path in before
    requires nodes == before[ordered[k].path := Dir(ordered[k].mode)]
    requires forall p | p in before :: ModeSet(filled, before, ordered, k, p)
    ensures forall p | p in nodes :: ModeSet(filled, nodes, ordered, k + 1, p)
  {
    forall p | p in nodes ensures ModeSet(filled, nodes, ordered, k + 1, p) {
      assert ModeSet(filled, before, ordered, k, p);
      ListedStep(ordered, k, p, nodes[p]);
    }
  }

  // ----- the whole clone -----

  /** directory_modes: every directory copied so far but the root, with the mode it is to get. */
  ghost predicate Awaiting(m: map<Path, Entry>, nodes: Nodes, directories: seq<Chmod>)
    requires nodes.Keys <= m.Keys
  {
    && (forall c | c in directories :: c.path in nodes && c.path != [] && m[c.path] == DirEntry(c.mode))
    && (forall p | p in nodes && p != [] && m[p].DirEntry? :: Chmod(p, m[p].mode) in directories)
  }

  /** The root is the first entry, whatever else is in the tree. */
  lemma {:induction false} RootFirst(t: Tree, entries: seq<Item>)
    requires ValidTree(t) && Lists(entries, Entries(t))
    ensures entries != [] && entries[0].path == [] && entries[0].entry == DirEntry(t.nodes[[]].mode)
    ensures Elements(Paths(entries)[..1]) == {[]}
  {
    var paths := Paths(entries);
    assert [] in Elements(paths);
    var i :| 0 <= i < |paths| && paths[i] == [];
    RootLeast(t.nodes, paths[0]);
    assert paths[0] in Elements(paths);
    LessTotal(Render(paths[0]), Render([]));
    assert paths[..1] == [paths[0]];
  }

  lemma {:induction false} RootLeast(nodes: Nodes, p: Path)
    requires Rooted(nodes) && p in nodes && forall q | q in nodes :: Named(q)
    ensures p == [] || Before([], p)
  {
    if p != [] {
      ParentFirst(p);
      RootLeast(nodes, Parent(p));
      if Parent(p) != [] {
        LessTransitive(Render([]), Render(Parent(p)), Render(p));
      }
    }
  }

  lemma {:induction false} RootCopied(m: map<Path, Entry>, nodes: Nodes)
    requires [] in m && m[[]].DirEntry? && nodes == map[[] := Dir(PRIVATE)]
    ensures Copied(m, nodes, map[]) && Rooted(nodes)
  {
  }

  lemma {:induction false} NextIsNew(entries: seq<Item>, n: nat)
    requires Sorted(Paths(entries)) && n < |entries|
    ensures entries[n].path !in Elements(Paths(entries)[..n])
    ensures Elements(Paths(entries)[..n + 1]) == Elements(Paths(entries)[..n]) + {entries[n].path}
  {
    var paths, p := Paths(entries), entries[n].path;
    forall i | 0 <= i < n ensures paths[i] != p {
      assert Before(paths[i], paths[n]);
      LessIrreflexive(Render(p));
    }
    assert p !in paths[..n];
    assert paths[..n + 1] == paths[..n] + [p];
  }

  /** When an entry's turn comes, it is not yet there and its parent is, as a directory. */
  lemma {:induction false} NextEntry(t: Tree, entries: seq<Item>, n: nat, nodes: Nodes, inodes: map<nat, Inode>)
    requires ValidTree(t) && Lists(entries, Entries(t)) && 1 <= n < |entries|
    requires Copied(Entries(t), nodes, inodes) && nodes.Keys == Elements(Paths(entries)[..n])
    ensures var p := entries[n].path;
            p in t.nodes && p !in nodes && p != [] && IsDir(nodes, Parent(p))
    ensures Elements(Paths(entries)[..n + 1]) == nodes.Keys + {entries[n].path}
  {
    var m, paths, p := Entries(t), Paths(entries), entries[n].path;
    assert p in m;
    NextIsNew(entries, n);
    RootFirst(t, entries);
    assert paths[0] in paths[..n];
    assert Parent(p) in t.nodes && t.nodes[Parent(p)].Dir?;
    ParentFirst(p);
    EarlierIndex(paths, Parent(p), n);
    assert CopiedAt(m, nodes, inodes, Parent(p));
  }

  lemma {:induction false} EarlierIndex(paths: seq<Path>, q: Path, n: nat)
    requires Sorted(paths) && n < |paths| && q in Elements(paths) && Before(q, paths[n])
    ensures q in paths[..n]
  {
    var i :| 0 <= i < |paths| && paths[i] == q;
    LessTotal(Render(q), Render(paths[n]));
    assert i < n;
    assert paths[..n][i] == q;
  }

  lemma {:induction false} AwaitingGrows(m: map<Path, Entry>, before: Nodes, p: Path, nodes: Nodes, directories: seq<Chmod>)
    requires nodes.Keys <= m.Keys && before.Keys + {p} == nodes.Keys && p != [] && Awaiting(m, before, directories)
    ensures m[p].DirEntry? ==> Awaiting(m, nodes, directories + [Chmod(p, m[p].mode)])
    ensures !m[p].DirEntry? ==> Awaiting(m, nodes, directories)
  {
    if m[p].DirEntry? {
      var c := Chmod(p, m[p].mode);
      assert forall d :: d in directories + [c] <==> d in directories || d == c;
    }
  }

  lemma {:induction false} RootedGrows(before: Nodes, p: Path, nodes: Nodes)
    requires Rooted(before) && p !in before && p != [] && IsDir(before, Parent(p))
    requires p in nodes && nodes == before[p := nodes[p]]
    ensures Rooted(nodes) && nodes.Keys == before.Keys + {p}
  {
    assert Parent(p) != p;
  }

  lemma {:induction false} SameChmods(a: seq<Chmod>, b: seq<Chmod>)
    requires multiset(a) == multiset(b)
    ensures forall c :: c in a <==> c in b
  {
    forall c ensures c in a <==> c in b {
      assert c in a <==> c in multiset(a);
      assert c in b <==> c in multiset(b);
    }
  }

  lemma {:induction false} AwaitingDirectories(m: map<Path, Entry>, nodes: Nodes, inodes: map<nat, Inode>, ordered: seq<Chmod>)
    requires Copied(m, nodes, inodes) && Awaiting(m, nodes, ordered)
    ensures forall i | 0 <= i < |ordered| :: IsDir(nodes, ordered[i].path)
  {
    forall i | 0 <= i < |ordered| ensures IsDir(nodes, ordered[i].path) {
      assert ordered[i] in ordered;
      assert CopiedAt(m, nodes, inodes, ordered[i].path);
    }
  }

  /** After the second loop every directory but the root has its own mode, and nothing else has changed. */
  lemma {:induction false} OnlyRootLeft(m: map<Path, Entry>, filled: Nodes, nodes: Nodes, ordered: seq<Chmod>)
    requires filled.Keys == nodes.Keys == m.Keys && Awaiting(m, filled, ordered)
    requires forall p | p in nodes :: ModeSet(filled, nodes, ordered, |ordered|, p)
    ensures forall p | p in nodes && p != [] :: nodes[p] == if m[p].DirEntry? then Dir(m[p].mode) else filled[p]
    ensures [] in nodes ==> nodes[[]] == filled[[]]
  {
    forall p | p in nodes ensures Listed(ordered, |ordered|, p) <==> m[p].DirEntry? && p != [] {
      ListedAwaits(m, filled, ordered, p);
    }
    forall p | p in nodes && p != [] ensures nodes[p] == if m[p].DirEntry? then Dir(m[p].mode) else filled[p] {
      assert ModeSet(filled, nodes, ordered, |ordered|, p);
      if m[p].DirEntry? {
        var i :| 0 <= i < |ordered| && ordered[i].path == p && nodes[p] == Dir(ordered[i].mode);
        assert ordered[i] in ordered;
      }
    }
    if [] in nodes {
      assert ModeSet(filled, nodes, ordered, |ordered|, []);
    }
  }

  lemma {:induction false} ListedAwaits(m: map<Path, Entry>, nodes: Nodes, ordered: seq<Chmod>, p: Path)
    requires nodes.Keys == m.Keys && Awaiting(m, nodes, ordered) && p in nodes
    ensures Listed(ordered, |ordered|, p) <==> m[p].DirEntry? && p != []
  {
    if Listed(ordered, |ordered|, p) {
      var i :| 0 <= i < |ordered| && ordered[i].path == p;
      assert ordered[i] in ordered;
    }
    if m[p].DirEntry? && p != [] {
      var i :| 0 <= i < |ordered| && ordered[i] == Chmod(p, m[p].mode);
      assert ordered[i].path == p;
    }
  }

  lemma {:induction false} CoherentEntries(t: Tree)
    requires ValidTree(t)
    ensures Coherent(Entries(t))
  {
    var m := Entries(t);
    forall p, q | p in m && q in m && m[p].FileEntry? && m[q].FileEntry? && SameFile(m, p, q) ensures m[p] == m[q] {
      SameInode(t, p, q);
    }
  }

  /** Scanning tells apart exactly the files that are different inodes. */
  lemma {:induction false} SameInode(t: Tree, p: Path, q: Path)
    requires ValidTree(t) && p in t.nodes && q in t.nodes && t.nodes[p].File? && t.nodes[q].File?
    ensures SameFile(Entries(t), p, q) <==> t.nodes[p] == t.nodes[q]
  {
    var a, b := SharedBy(t.nodes, t.nodes[p].ino), SharedBy(t.nodes, t.nodes[q].ino);
    assert p in a && q in b;
    if t.nodes[p] == t.nodes[q] && p != q {
      assert {p, q} <= a;
      SubsetSize({p, q}, a);
    }
  }

  lemma {:induction false} SubsetSize<T>(a: set<T>, b: set<T>)
    requires a <= b
    ensures |a| <= |b|
  {
    assert b == a + (b - a);
  }

  /** In the finished clone every path's group is the one its entry names. */
  lemma {:induction false} GroupRestored(t: Tree, nodes: Nodes, inodes: map<nat, Inode>, p: Path)
    requires ValidTree(t) && Copied(Entries(t), nodes, inodes) && nodes.Keys == t.nodes.Keys
    requires p in nodes && Entries(t)[p].FileEntry?
    ensures nodes[p].File? && GroupOf(nodes, nodes[p].ino) == Entries(t)[p].group
  {
    var m := Entries(t);
    assert CopiedAt(m, nodes, inodes, p);
    var now, origin := SharedBy(nodes, nodes[p].ino), SharedBy(t.nodes, t.nodes[p].ino);
    forall q | q in nodes ensures q in now <==> q in origin {
      if m[q].FileEntry? {
        SameInode(t, p, q);
      } else {
        assert CopiedAt(m, nodes, inodes, q);
      }
    }
    assert now == origin;
  }

  lemma {:induction false} StillAwaiting(m: map<Path, Entry>, nodes: Nodes, directories: seq<Chmod>, ordered: seq<Chmod>)
    requires nodes.Keys <= m.Keys && Awaiting(m, nodes, directories) && multiset(ordered) == multiset(directories)
    ensures Awaiting(m, nodes, ordered)
  {
    SameChmods(directories, ordered);
  }

  /** With every other directory's mode set, the root's mode completes the clone. */
  lemma {:induction false} RootLast(source: Tree, filled: Nodes, nodes: Nodes, inodes: map<nat, Inode>, ordered: seq<Chmod>)
    requires ValidTree(source) && Copied(Entries(source), filled, inodes) && filled.Keys == nodes.Keys == source.nodes.Keys
    requires Awaiting(Entries(source), filled, ordered)
    requires forall p | p in nodes :: ModeSet(filled, nodes, ordered, |ordered|, p)
    ensures IsDir(nodes, [])
    ensures var clone := Tree(nodes[[] := Dir(source.nodes[[]].mode)], inodes);
            ValidTree(clone) && Entries(clone) == Entries(source)
  {
    OnlyRootLeft(Entries(source), filled, nodes, ordered);
    assert CopiedAt(Entries(source), filled, inodes, []);
    hide ModeSet, Awaiting;
    CloneScans(source, filled, inodes, nodes[[] := Dir(source.nodes[[]].mode)]);
  }

  /** Once the directory modes are set the clone is a valid tree that scans as the source does. */
  lemma {:induction false} CloneScans(t: Tree, filled: Nodes, inodes: map<nat, Inode>, nodes: Nodes)
    requires ValidTree(t) && Copied(Entries(t), filled, inodes) && filled.Keys == nodes.Keys == t.nodes.Keys
    requires forall p | p in nodes ::
               nodes[p] == if Entries(t)[p].DirEntry? then Dir(Entries(t)[p].mode) else filled[p]
    ensures ValidTree(Tree(nodes, inodes)) && Entries(Tree(nodes, inodes)) == Entries(t)
  {
    var m, clone := Entries(t), Tree(nodes, inodes);
    forall p | p in nodes ensures (nodes[p].File? <==> m[p].FileEntry?) && (nodes[p].Dir? <==> m[p].DirEntry?)
                                  && (nodes[p].File? ==> nodes[p].ino in inodes) {
      assert CopiedAt(m, filled, inodes, p);
    }
    forall ino ensures SharedBy(nodes, ino) == SharedBy(filled, ino) {
      SameFiles(m, filled, inodes, nodes, ino);
    }
    forall p | p in nodes ensures EntryOf(clone, p) == m[p] {
      assert CopiedAt(m, filled, inodes, p);
      if m[p].FileEntry? {
        GroupRestored(t, filled, inodes, p);
      }
    }
    forall p | p in nodes && p != [] ensures IsDir(nodes, Parent(p)) {
      assert IsDir(t.nodes, Parent(p));
    }
    assert IsDir(nodes, []);
  }

  lemma {:induction false} SameFiles(m: map<Path, Entry>, filled: Nodes, inodes: map<nat, Inode>, nodes: Nodes, ino: nat)
    requires Copied(m, filled, inodes) && filled.Keys == nodes.Keys == m.Keys
    requires forall p | p in nodes :: nodes[p] == if m[p].DirEntry? then Dir(m[p].mode) else filled[p]
    ensures SharedBy(nodes, ino) == SharedBy(filled, ino)
  {
    forall p | p in nodes ensures nodes[p] == File(ino) <==> filled[p] == File(ino) {
      assert CopiedAt(m, filled, inodes, p);
    }
  }
}
