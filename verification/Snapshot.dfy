/** Scanning a rootfs into sorted entries, and cloning a rootfs from its scan. */
module Snapshot {
  import opened Wrappers
  import opened Bytes
  import opened Rootfs
  import opened PathOrder

  datatype Inode = Inode(mode: nat, bytes: seq<byte>, nlink: nat)

  datatype Tree = Tree(nodes: Nodes, inodes: map<nat, Inode>)

  /** A file's digest is modelled by its bytes, a hardlink group's name by the paths it is computed from. */
  datatype Entry =
    | DirEntry(mode: nat)
    | FileEntry(mode: nat, bytes: seq<byte>, group: Option<set<Path>>)
    | LinkEntry(target: string)

  datatype Item = Item(path: Path, entry: Entry)

  function SharedBy(nodes: Nodes, ino: nat): set<Path> {
    set p | p in nodes && nodes[p] == File(ino)
  }

  ghost predicate HasInodes(t: Tree) {
    forall p | p in t.nodes && t.nodes[p].File? :: t.nodes[p].ino in t.inodes
  }

  /** Links from outside the tree may make nlink larger than the number of paths. */
  ghost predicate ValidTree(t: Tree) {
    && Rooted(t.nodes)
    && (forall p | p in t.nodes :: Named(p))
    && HasInodes(t)
    && (forall ino | ino in t.inodes :: |SharedBy(t.nodes, ino)| <= t.inodes[ino].nlink)
  }

  function GroupOf(nodes: Nodes, ino: nat): Option<set<Path>> {
    if |SharedBy(nodes, ino)| >= 2 then Some(SharedBy(nodes, ino)) else None
  }

  function EntryOf(t: Tree, p: Path): Entry
    requires p in t.nodes && (t.nodes[p].File? ==> t.nodes[p].ino in t.inodes)
  {
    match t.nodes[p]
    case Dir(mode) => DirEntry(mode)
    case Link(target) => LinkEntry(target)
    case File(ino) => FileEntry(t.inodes[ino].mode, t.inodes[ino].bytes, GroupOf(t.nodes, ino))
  }

  /** What a scan records: each path's type, mode, content and the set of paths it is hardlinked with. */
  ghost function Entries(t: Tree): map<Path, Entry>
    requires ValidTree(t)
  {
    map p | p in t.nodes :: EntryOf(t, p)
  }

  // ----- what a scan says -----

  /** The same kind of node at p, with the same mode, target, or file mode and bytes. */
  ghost predicate SameNode(a: Tree, b: Tree, p: Path)
    requires p in a.nodes && p in b.nodes && HasInodes(a) && HasInodes(b)
  {
    match a.nodes[p]
    case Dir(mode) => b.nodes[p] == Dir(mode)
    case Link(target) => b.nodes[p] == Link(target)
    case File(ino) =>
      && b.nodes[p].File? && a.inodes[ino].mode == b.inodes[b.nodes[p].ino].mode
      && a.inodes[ino].bytes == b.inodes[b.nodes[p].ino].bytes
  }

  /** The same paths are hardlinks of each other. */
  ghost predicate SameLinks(a: Nodes, b: Nodes)
    requires a.Keys == b.Keys
  {
    forall p, q | p in a && q in a && a[p].File? && a[q].File? :: a[p] == a[q] <==> b[p] == b[q]
  }

  /** Trees that differ in inode numbers and links from outside at most. */
  ghost predicate SameTree(a: Tree, b: Tree)
    requires HasInodes(a) && HasInodes(b)
  {
    a.nodes.Keys == b.nodes.Keys && (forall p | p in a.nodes :: SameNode(a, b, p)) && SameLinks(a.nodes, b.nodes)
  }

  /** A scan keeps exactly this of a tree. */
  lemma {:induction false} ScansAgree(a: Tree, b: Tree)
    requires ValidTree(a) && ValidTree(b)
    ensures Entries(a) == Entries(b) <==> SameTree(a, b)
  {
    if Entries(a) == Entries(b) {
      assert a.nodes.Keys == Entries(a).Keys == Entries(b).Keys == b.nodes.Keys;
      forall p | p in a.nodes ensures SameNode(a, b, p) {
        assert Entries(a)[p] == Entries(b)[p];
      }
      forall p, q | p in a.nodes && q in a.nodes && a.nodes[p].File? && a.nodes[q].File?
        ensures a.nodes[p] == a.nodes[q] <==> b.nodes[p] == b.nodes[q]
      {
        assert Entries(a)[p] == Entries(b)[p] && Entries(a)[q] == Entries(b)[q];
        LinkedInBoth(a, b, p, q);
        LinkedInBoth(b, a, p, q);
      }
    }
    if SameTree(a, b) {
      forall p | p in a.nodes ensures EntryOf(a, p) == EntryOf(b, p) {
        assert SameNode(a, b, p);
        if a.nodes[p].File? {
          SharedInBoth(a, b, p);
        }
      }
      assert Entries(a).Keys == Entries(b).Keys;
    }
  }

  lemma {:induction false} LinkedInBoth(a: Tree, b: Tree, p: Path, q: Path)
    requires HasInodes(a) && HasInodes(b) && p in a.nodes && q in a.nodes && p in b.nodes && q in b.nodes
    requires a.nodes[p].File? && a.nodes[q].File? && a.nodes[p] == a.nodes[q] ==> EntryOf(a, p) == EntryOf(b, p)
    ensures a.nodes[p].File? && a.nodes[q].File? && a.nodes[p] == a.nodes[q] ==> b.nodes[p] == b.nodes[q]
  {
    if a.nodes[p].File? && a.nodes[p] == a.nodes[q] && p != q {
      var shared := SharedBy(a.nodes, a.nodes[p].ino);
      assert {p, q} <= shared;
      assert |{p, q}| == 2;
      Larger({p, q}, shared);
      assert q in SharedBy(b.nodes, b.nodes[p].ino);
    }
  }

  lemma {:induction false} Larger(a: set<Path>, b: set<Path>)
    requires a <= b
    ensures |a| <= |b|
  {
    assert b == a + (b - a);
  }

  lemma {:induction false} SharedInBoth(a: Tree, b: Tree, p: Path)
    requires HasInodes(a) && HasInodes(b) && SameTree(a, b) && p in a.nodes && a.nodes[p].File?
    ensures b.nodes[p].File? && SharedBy(a.nodes, a.nodes[p].ino) == SharedBy(b.nodes, b.nodes[p].ino)
  {
    assert SameNode(a, b, p);
    forall q ensures q in SharedBy(a.nodes, a.nodes[p].ino) <==> q in SharedBy(b.nodes, b.nodes[p].ino) {
      if q in a.nodes {
        assert SameNode(a, b, q);
      }
    }
  }

  /** What one entry says of the node at p, on the tree itself. */
  ghost predicate Tells(t: Tree, p: Path, e: Entry)
    requires HasInodes(t)
  {
    && p in t.nodes
    && match e
       case DirEntry(mode) => t.nodes[p] == Dir(mode)
       case LinkEntry(target) => t.nodes[p] == Link(target)
       case FileEntry(mode, bytes, group) =>
         && t.nodes[p].File? && t.inodes[t.nodes[p].ino].mode == mode && t.inodes[t.nodes[p].ino].bytes == bytes
         && forall q | q != p ::
              (q in t.nodes && t.nodes[q] == t.nodes[p]) <==> (group.Some? && q in group.value)
  }

  lemma {:induction false} EntryTells(t: Tree, p: Path)
    requires ValidTree(t) && p in t.nodes
    ensures Tells(t, p, Entries(t)[p])
  {
    if t.nodes[p].File? {
      var shared := SharedBy(t.nodes, t.nodes[p].ino);
      forall q | q != p && q in t.nodes && t.nodes[q] == t.nodes[p] ensures |shared| >= 2 {
        assert {p, q} <= shared && |{p, q}| == 2;
        Larger({p, q}, shared);
      }
    }
  }

  function Paths(entries: seq<Item>): (r: seq<Path>)
    ensures |r| == |entries|
  {
    seq(|entries|, i requires 0 <= i < |entries| => entries[i].path)
  }

  /** The entries are m, sorted by path. */
  ghost predicate Lists(entries: seq<Item>, m: map<Path, Entry>) {
    && Sorted(Paths(entries))
    && Elements(Paths(entries)) == m.Keys
    && forall i | 0 <= i < |entries| :: entries[i].path in m && entries[i].entry == m[entries[i].path]
  }

  /** Two trees scan alike exactly when their entries agree. */
  lemma {:induction false} ListsOnce(a: seq<Item>, b: seq<Item>, m: map<Path, Entry>, n: map<Path, Entry>)
    requires Lists(a, m) && Lists(b, n)
    ensures a == b <==> m == n
  {
    if m == n {
      SortedOnce(Paths(a), Paths(b));
      forall i | 0 <= i < |a| ensures a[i] == b[i] {
        assert Paths(a)[i] == Paths(b)[i];
      }
    }
    if a == b {
      assert m.Keys == n.Keys;
      forall p | p in m ensures m[p] == n[p] {
        assert p in Elements(Paths(a));
        var i :| 0 <= i < |a| && Paths(a)[i] == p;
        assert a[i].path == p;
      }
    }
  }

  // ----- scanning -----

  /** The hardlinked paths met so far, by inode; files with a single link are not kept. */
  ghost predicate Tracks(t: Tree, seen: set<Path>, hardlinks: map<nat, set<Path>>)
    requires HasInodes(t) && seen <= t.nodes.Keys
  {
    && (forall ino | ino in hardlinks :: ino in t.inodes && t.inodes[ino].nlink > 1
                                         && hardlinks[ino] == seen * SharedBy(t.nodes, ino))
    && (forall p | p in seen && t.nodes[p].File? && t.inodes[t.nodes[p].ino].nlink > 1 :: t.nodes[p].ino in hardlinks)
  }

  function Note(t: Tree, hardlinks: map<nat, set<Path>>, p: Path): map<nat, set<Path>>
    requires p in t.nodes && (t.nodes[p].File? ==> t.nodes[p].ino in t.inodes)
  {
    if t.nodes[p].File? && t.inodes[t.nodes[p].ino].nlink > 1 then
      var ino := t.nodes[p].ino;
      hardlinks[ino := (if ino in hardlinks then hardlinks[ino] else {}) + {p}]
    else hardlinks
  }

  lemma {:induction false} TracksOneMore(t: Tree, seen: set<Path>, hardlinks: map<nat, set<Path>>, p: Path)
    requires HasInodes(t) && seen <= t.nodes.Keys && Tracks(t, seen, hardlinks) && p in t.nodes
    ensures Tracks(t, seen + {p}, Note(t, hardlinks, p))
  {
    var found := Note(t, hardlinks, p);
    forall ino | ino in found
      ensures ino in t.inodes && t.inodes[ino].nlink > 1 && found[ino] == (seen + {p}) * SharedBy(t.nodes, ino)
    {
      if ino !in hardlinks {
        assert seen * SharedBy(t.nodes, ino) == {};
      }
    }
  }

  /** The walk so far: everything directly inside a visited directory has been seen. */
  ghost predicate Walked(nodes: Nodes, seen: set<Path>, pending: set<Path>) {
    && [] in seen && pending <= seen <= nodes.Keys
    && (forall p | p in pending :: nodes[p].Dir?)
    && (forall p | p in nodes && p != [] && Parent(p) in seen && Parent(p) !in pending :: p in seen)
    && (forall p | p in seen && p != [] :: Parent(p) in seen && Parent(p) !in pending)
  }

  lemma {:induction false} WalkComplete(nodes: Nodes, seen: set<Path>, p: Path)
    requires Rooted(nodes) && Walked(nodes, seen, {}) && p in nodes
    ensures p in seen
  {
    if p != [] {
      WalkComplete(nodes, seen, Parent(p));
    }
  }

  function ChildrenOf(nodes: Nodes, dir: Path): set<Path> {
    set p | p in nodes && p != [] && Parent(p) == dir
  }

  lemma {:induction false} WalkStep(nodes: Nodes, seen: set<Path>, pending: set<Path>, dir: Path)
    requires Rooted(nodes) && Walked(nodes, seen, pending) && dir in pending
    ensures ChildrenOf(nodes, dir) !! seen
    ensures Walked(nodes, seen + ChildrenOf(nodes, dir), pending - {dir} + Subdirectories(nodes, dir))
  {
    var children := ChildrenOf(nodes, dir);
    var now, left := seen + children, pending - {dir} + Subdirectories(nodes, dir);
    forall p | p in now && p != [] ensures Parent(p) in now && Parent(p) !in left {
      assert Parent(p) in seen;
    }
    forall p | p in nodes && p != [] && Parent(p) in now && Parent(p) !in left ensures p in now {
      assert IsDir(nodes, Parent(p));
      assert Parent(p) in seen;
    }
  }

  function Subdirectories(nodes: Nodes, dir: Path): set<Path> {
    set p | p in ChildrenOf(nodes, dir) && nodes[p].Dir?
  }

  /** Visits what lies directly inside one directory. */
  method Visit(t: Tree, dir: Path, seen: set<Path>, hardlinks: map<nat, set<Path>>)
    returns (found: map<nat, set<Path>>)
    requires ValidTree(t) && seen <= t.nodes.Keys && Tracks(t, seen, hardlinks) && ChildrenOf(t.nodes, dir) !! seen
    ensures seen + ChildrenOf(t.nodes, dir) <= t.nodes.Keys
    ensures Tracks(t, seen + ChildrenOf(t.nodes, dir), found)
  {
    hide Tracks, Note;
    found := hardlinks;
    var children := ChildrenOf(t.nodes, dir);
    var left := children;
    assert seen + (children - left) == seen;
    while left != {}
      invariant left <= children
      invariant Tracks(t, seen + (children - left), found)
    {
      var p :| p in left;
      TracksOneMore(t, seen + (children - left), found, p);
      assert seen + (children - (left - {p})) == seen + (children - left) + {p};
      found := Note(t, found, p);
      left := left - {p};
    }
    assert children - left == children;
  }

  /** Each directory visited leaves less to see, or less to visit. */
  lemma {:induction false} Progress(nodes: Nodes, seen: set<Path>, pending: set<Path>, dir: Path)
    requires ChildrenOf(nodes, dir) !! seen && dir in pending
    ensures nodes.Keys - (seen + ChildrenOf(nodes, dir)) < nodes.Keys - seen
            || (seen + ChildrenOf(nodes, dir) == seen && pending - {dir} + Subdirectories(nodes, dir) < pending)
  {
    var children := ChildrenOf(nodes, dir);
    if children == {} {
      assert Subdirectories(nodes, dir) == {};
    } else {
      var p :| p in children;
      assert p in nodes.Keys - seen && p !in nodes.Keys - (seen + children);
    }
  }

  /** The walk: every node is seen, and the hardlinked ones are grouped by inode. */
  method Walk(t: Tree) returns (seen: set<Path>, hardlinks: map<nat, set<Path>>)
    requires ValidTree(t)
    ensures seen == t.nodes.Keys && Tracks(t, seen, hardlinks)
  {
    seen := {[]};
    hardlinks := map[];
    var pending: set<Path> := {[]};
    while pending != {}
      invariant Walked(t.nodes, seen, pending) && Tracks(t, seen, hardlinks)
      decreases t.nodes.Keys - seen, pending
    {
      hide Tracks, Walked, Rooted, ChildrenOf, Subdirectories;
      var dir :| dir in pending;
      WalkStep(t.nodes, seen, pending, dir);
      hardlinks := Visit(t, dir, seen, hardlinks);
      Progress(t.nodes, seen, pending, dir);
      seen := seen + ChildrenOf(t.nodes, dir);
      pending := pending - {dir} + Subdirectories(t.nodes, dir);
    }
    forall p | p in t.nodes ensures p in seen {
      WalkComplete(t.nodes, seen, p);
    }
  }

  function Group(hardlinks: map<nat, set<Path>>, ino: nat): Option<set<Path>> {
    if ino in hardlinks && |hardlinks[ino]| >= 2 then Some(hardlinks[ino]) else None
  }

  /** Leaving out files with one link, and groups of one path, loses no group. */
  lemma {:induction false} GroupFound(t: Tree, hardlinks: map<nat, set<Path>>, p: Path)
    requires ValidTree(t) && Tracks(t, t.nodes.Keys, hardlinks) && p in t.nodes
    ensures Recorded(t, hardlinks, p) == EntryOf(t, p)
  {
    if t.nodes[p].File? {
      var ino := t.nodes[p].ino;
      assert t.nodes.Keys * SharedBy(t.nodes, ino) == SharedBy(t.nodes, ino);
      assert p in SharedBy(t.nodes, ino);
    }
  }

  /** scan_environment: walk the tree, group hardlinked paths, then list the entries by path. */
  method ScanEnvironment(t: Tree) returns (entries: seq<Item>)
    requires ValidTree(t)
    ensures Lists(entries, Entries(t))
    ensures Sorted(Paths(entries)) && Elements(Paths(entries)) == t.nodes.Keys
    ensures forall i | 0 <= i < |entries| :: Tells(t, entries[i].path, entries[i].entry)
  {
    var seen, hardlinks := Walk(t);
    var order := SortPaths(seen);
    entries := ListEntries(t, order, hardlinks);
    hide *;
    ListTells(t, entries);
  }

  /** The second loop: an entry for every path, in the order given. */
  method ListEntries(t: Tree, order: seq<Path>, hardlinks: map<nat, set<Path>>) returns (entries: seq<Item>)
    requires ValidTree(t) && Tracks(t, t.nodes.Keys, hardlinks)
    requires Sorted(order) && Elements(order) == t.nodes.Keys
    ensures Lists(entries, Entries(t))
  {
    entries := [];
    for i := 0 to |order|
      invariant |entries| == i
      invariant forall k | 0 <= k < i :: entries[k].path == order[k] && order[k] in t.nodes
      invariant forall k | 0 <= k < i :: entries[k].entry == EntryOf(t, order[k])
    {
      var p := order[i];
      assert p in Elements(order);
      GroupFound(t, hardlinks, p);
      entries := entries + [Item(p, Recorded(t, hardlinks, p))];
    }
    assert Paths(entries) == order;
  }

  lemma {:induction false} ListTells(t: Tree, entries: seq<Item>)
    requires ValidTree(t) && Lists(entries, Entries(t))
    ensures Sorted(Paths(entries)) && Elements(Paths(entries)) == t.nodes.Keys
    ensures forall i | 0 <= i < |entries| :: Tells(t, entries[i].path, entries[i].entry)
  {
    hide Tells;
    forall i | 0 <= i < |entries| ensures Tells(t, entries[i].path, entries[i].entry) {
      EntryTells(t, entries[i].path);
    }
  }

  /** The entry made from a node and the group its path was found in. */
  function Recorded(t: Tree, hardlinks: map<nat, set<Path>>, p: Path): (r: Entry)
    requires p in t.nodes && (t.nodes[p].File? ==> t.nodes[p].ino in t.inodes)
  {
    match t.nodes[p]
    case Dir(mode) => DirEntry(mode)
    case Link(target) => LinkEntry(target)
    case File(ino) => FileEntry(t.inodes[ino].mode, t.inodes[ino].bytes, Group(hardlinks, ino))
  }

  // ----- the entries as a map -----

  function EntryMap(items: seq<Item>): map<Path, Entry> {
    if items == [] then map[]
    else EntryMap(items[..|items| - 1])[items[|items| - 1].path := items[|items| - 1].entry]
  }

  lemma {:induction false} EntryMapLists(items: seq<Item>, n: nat, m: map<Path, Entry>)
    requires Lists(items, m) && n <= |items|
    ensures forall p :: p in EntryMap(items[..n]) <==> p in Elements(Paths(items)[..n])
    ensures forall p | p in EntryMap(items[..n]) :: p in m && EntryMap(items[..n])[p] == m[p]
  {
    if n > 0 {
      EntryMapLists(items, n - 1, m);
      EntryMapNext(items, n);
      Listed(items, m, n - 1);
      hide *;
    }
  }

  lemma {:induction false} EntryMapNext(items: seq<Item>, n: nat)
    requires 0 < n <= |items|
    ensures EntryMap(items[..n]) == EntryMap(items[..n - 1])[items[n - 1].path := items[n - 1].entry]
    ensures forall p :: p in Elements(Paths(items)[..n]) <==> p in Elements(Paths(items)[..n - 1]) || p == items[n - 1].path
  {
    assert items[..n][..n - 1] == items[..n - 1];
    assert Paths(items)[..n] == Paths(items)[..n - 1] + [items[n - 1].path];
  }

  lemma {:induction false} Listed(items: seq<Item>, m: map<Path, Entry>, i: nat)
    requires Lists(items, m) && i < |items|
    ensures items[i].path in m && items[i].entry == m[items[i].path]
  {
  }

  lemma {:induction false} EntryMapIs(items: seq<Item>, m: map<Path, Entry>)
    requires Lists(items, m)
    ensures EntryMap(items) == m
  {
    EntryMapLists(items, |items|, m);
    assert items[..|items|] == items && Paths(items)[..|items|] == Paths(items);
    assert forall p :: p in m <==> p in Elements(Paths(items));
  }
}
