/** Repairing an environment: the applier runs on a clone, and what it leaves is captured. */
module RepairedSnapshot {
  import opened Wrappers
  import opened Snapshot
  import opened SnapshotClone
  import opened SnapshotStore
  import opened RepairApplier
  import opened RepairedEnvironment
  import RT = RepairTransaction

  datatype RepairError =
    | CloneFailed(store: StoreError) | ApplyFailed(apply: Option<ApplyError>) | CaptureFailed(store: StoreError)

  /** apply_file on a tree that only the applier touches. */
  method ApplyToTree(tree: Tree, plan: seq<Decision>) returns (r: Result<(Tree, seq<RT.Status>), Option<ApplyError>>)
    requires ValidTree(tree)
    ensures r.Ok? <==> Repairable(Entries(tree), Requests(plan))
    ensures r.Ok? ==> ValidTree(r.value.0) && Entries(r.value.0) == Repaired(Entries(tree), Requests(plan))
    ensures r.Ok? ==> |r.value.1| == |plan|
    ensures r.Ok? ==> forall i | 0 <= i < |plan| :: PassesAt(tree.nodes, Requests(plan), i)
                        && r.value.1[i] == RT.AppliedStatus(PreparedAt(tree.nodes, Requests(plan), i))
  {
    hide HasInodes, PassesAt, PreparedAt, Made, PlanMakes, Shape, Repaired, SameShape;
    NamedRequests(plan);
    RepairCommutesWithScan(tree, Requests(plan));
    var applier := new RT.Transaction(tree.nodes, RT.NoFault, mode => mode, _ => true);
    var report := applier.ApplyFile(Requests(plan), false);
    if report.state != RT.Completed {
      return Err(report.error);
    }
    r := Ok((Tree(applier.nodes, tree.inodes), report.statuses));
  }

  /** _build_repaired_snapshot, without manifests: clone the parent, apply the plan to the clone, capture the clone. */
  method BuildRepairedSnapshot(store: Store, parent: Digest, plan: seq<Decision>, umaskMode: nat)
    returns (r: Result<(Digest, seq<RT.Status>), RepairError>)
    requires store.Valid()
    modifies store
    ensures store.Valid() && (old(store.Intact()) ==> store.Intact())
    ensures r.Ok? ==>
              && parent in old(store.snapshots) && r.value.0 in store.snapshots
              && var env := Entries(old(store.snapshots)[parent].rootfs);
                 Repairable(env, Requests(plan))
                 && Entries(store.snapshots[r.value.0].rootfs) == Repaired(env, Requests(plan))
                 && Lists(r.value.0.entries, Repaired(env, Requests(plan)))
    ensures old(store.Intact()) && parent in old(store.snapshots) ==>
              (r.Ok? <==> Repairable(Entries(old(store.snapshots)[parent].rootfs), Requests(plan)))
    ensures forall id | id in old(store.snapshots) :: id in store.snapshots && store.snapshots[id] == old(store.snapshots)[id]
  {
    hide ValidTree, Lists, Repairable, Repaired, Loads, Entries, HasInodes;
    var candidate := new Destination();
    var cloned := store.Clone(parent, candidate, umaskMode);
    if cloned.Err? {
      return Err(CloneFailed(cloned.error));
    }
    var tree := Tree(candidate.nodes, candidate.inodes);
    ListsOnce(cloned.value.entries, cloned.value.entries, Entries(tree), Entries(store.snapshots[parent].rootfs));
    var applied := ApplyToTree(tree, plan);
    if applied.Err? {
      return Err(ApplyFailed(applied.error));
    }
    var id, captured, _ := store.Capture(applied.value.0, umaskMode);
    if captured.Err? {
      return Err(CaptureFailed(captured.error));
    }
    r := Ok((id, applied.value.1));
  }
}
