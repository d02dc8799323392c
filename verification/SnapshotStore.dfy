/** The content-addressed snapshot store: capture, verify and clone. */
module SnapshotStore {
  import opened Wrappers
  import opened PathOrder
  import opened Snapshot
  import opened SnapshotClone

  /** tree_digest and the id made from it, as a function that loses nothing. */
  datatype Digest = Digest(entries: seq<Item>)

  datatype Manifest = Manifest(id: Digest, tree: Digest, entries: seq<Item>)

  datatype Stored = Stored(manifest: Manifest, rootfs: Tree)

  datatype StoreError = NoSnapshot | BadManifest | EntriesDiffer | WrongSnapshot | DestinationExists

  /** The checks made when a manifest is loaded. */
  predicate Loads(m: Manifest) {
    && m.id == m.tree
    && (forall i | 0 < i < |m.entries| :: Before(m.entries[i - 1].path, m.entries[i].path))
    && m.entries != [] && m.entries[0].path == []
    && m.tree == Digest(m.entries)
  }

  /** What verify accepts: a manifest that loads, over a rootfs whose scan it is. */
  ghost predicate Verified(s: Stored)
    requires ValidTree(s.rootfs)
  {
    Loads(s.manifest) && Lists(s.manifest.entries, Entries(s.rootfs))
  }

  lemma {:induction false} ScanLoads(t: Tree, entries: seq<Item>)
    requires ValidTree(t) && Lists(entries, Entries(t))
    ensures Loads(Manifest(Digest(entries), Digest(entries), entries))
  {
    RootFirst(t, entries);
    forall i | 0 < i < |entries| ensures Before(entries[i - 1].path, entries[i].path) {
      assert Before(Paths(entries)[i - 1], Paths(entries)[i]);
    }
  }

  /** Whatever is done to a verified rootfs, verify notices exactly when some path, type, mode, content, target or
   * group changed. */
  lemma {:induction false} TamperingNoticed(s: Stored, t: Tree)
    requires ValidTree(s.rootfs) && Verified(s) && ValidTree(t)
    ensures Verified(s.(rootfs := t)) <==> SameTree(t, s.rootfs)
  {
    ScansAgree(t, s.rootfs);
    if Verified(s.(rootfs := t)) {
      ListsOnce(s.manifest.entries, s.manifest.entries, Entries(t), Entries(s.rootfs));
    }
  }

  class Store {
    var snapshots: map<Digest, Stored>

    constructor ()
      ensures snapshots == map[]
    {
      snapshots := map[];
    }

    /** Every rootfs on disk is a tree. */
    ghost predicate Valid() reads this {
      forall id | id in snapshots :: ValidTree(snapshots[id].rootfs)
    }

    /** Nobody has written into the store from outside: each snapshot verifies and lies under its own id. */
    ghost predicate Intact() reads this {
      Valid() && forall id | id in snapshots :: Verified(snapshots[id]) && snapshots[id].manifest.id == id
    }

    method Verify(id: Digest) returns (r: Result<Manifest, StoreError>)
      requires Valid()
      ensures r.Ok? <==> id in snapshots && Verified(snapshots[id])
      ensures r.Ok? ==> r.value == snapshots[id].manifest
    {
      if id !in snapshots {
        return Err(NoSnapshot);
      }
      var s := snapshots[id];
      if !Loads(s.manifest) {
        return Err(BadManifest);
      }
      var actual := ScanEnvironment(s.rootfs);
      if actual != s.manifest.entries {
        if Lists(s.manifest.entries, Entries(s.rootfs)) {
          ListsOnce(actual, s.manifest.entries, Entries(s.rootfs), Entries(s.rootfs));
        }
        return Err(EntriesDiffer);
      }
      r := Ok(s.manifest);
    }

    /** Captures a rootfs under the digest of its entries, or reuses the snapshot that is there. */
    method Capture(source: Tree, umaskMode: nat)
      returns (id: Digest, r: Result<Manifest, StoreError>, reused: bool)
      requires Valid() && ValidTree(source)
      modifies this
      ensures Valid() && Lists(id.entries, Entries(source))
      ensures id !in old(snapshots) ==>
                && r == Ok(Manifest(id, id, id.entries)) && !reused && id in snapshots
                && snapshots[id].manifest == r.value
                && Entries(snapshots[id].rootfs) == Entries(source)
                && snapshots == old(snapshots)[id := snapshots[id]]
      ensures id in old(snapshots) ==> snapshots == old(snapshots)
      ensures id in old(snapshots) ==>
                (r.Ok? <==> Verified(snapshots[id]) && snapshots[id].manifest.id == id)
      ensures id in old(snapshots) && r.Ok? ==> reused && r.value == Manifest(id, id, id.entries)
      ensures r.Ok? ==> id in snapshots && Entries(snapshots[id].rootfs) == Entries(source)
      ensures r.Ok? ==> SameTree(snapshots[id].rootfs, source)
      ensures old(Intact()) ==> Intact() && r.Ok?
    {
      hide SameTree, Tells;
      var entries := ScanEnvironment(source);
      id := Digest(entries);
      if id in snapshots {
        r := Verify(id);
        if r.Ok? && r.value.tree != id {
          r := Err(WrongSnapshot);
        }
        reused := r.Ok?;
        if r.Ok? {
          ListsOnce(entries, entries, Entries(source), Entries(snapshots[id].rootfs));
          ScansAgree(snapshots[id].rootfs, source);
        }
        return;
      }
      var copy := new Destination();
      var _ := copy.CloneEnvironment(source, umaskMode);
      var cloned := ScanEnvironment(Tree(copy.nodes, copy.inodes));
      ListsOnce(entries, cloned, Entries(source), Entries(Tree(copy.nodes, copy.inodes)));
      ScanLoads(source, entries);
      var manifest := Manifest(id, id, cloned);
      snapshots := snapshots[id := Stored(manifest, Tree(copy.nodes, copy.inodes))];
      r, reused := Ok(manifest), false;
    }

    /** A clone of a snapshot that verifies has exactly the entries its manifest lists. */
    method Clone(id: Digest, destination: Destination, umaskMode: nat) returns (r: Result<Manifest, StoreError>)
      requires Valid() && destination.Valid() && (destination.nodes == map[] ==> destination.inodes == map[])
      modifies destination
      ensures r.Ok? <==> id in snapshots && Verified(snapshots[id]) && old(destination.nodes) == map[]
      ensures r.Err? ==> destination.nodes == old(destination.nodes)
      ensures r.Ok? ==> ValidTree(Tree(destination.nodes, destination.inodes))
      ensures r.Ok? ==> Lists(r.value.entries, Entries(Tree(destination.nodes, destination.inodes)))
      ensures r.Ok? ==> SameTree(Tree(destination.nodes, destination.inodes), snapshots[id].rootfs)
      ensures r.Ok? ==> r.value == snapshots[id].manifest
    {
      r := Verify(id);
      if r.Err? {
        return;
      }
      var ok := destination.CloneEnvironment(snapshots[id].rootfs, umaskMode);
      if !ok {
        r := Err(DestinationExists);
      }
    }
  }
}
