/** From contributions of evidence through requirements and a plan to what the applier accepts. */
module EvidenceToPlan {
  import opened Wrappers
  import opened RepairApplier
  import opened RepairPlan
  import opened RequirementExtractor
  import opened RepairPlanner
  import PosixPath
  import Rootfs

  /** make_requirement_id: any function of the key that is never empty and tells keys apart. */
  ghost predicate SoundKeyIds(ids: Key -> string) {
    (forall k :: ids(k) != "") && forall a, b | ids(a) == ids(b) :: a == b
  }

  /** The report lists what was gathered, each key once. */
  ghost predicate Freezes(report: seq<Runtime>, m: Requirements, ids: Key -> string) {
    && (forall i | 0 <= i < |report| :: FrozenAt(report[i], m, ids))
    && (forall i, j | 0 <= i < j < |report| :: report[i].key != report[j].key)
    && (forall k | k in m :: HasKey(report, k))
  }

  ghost predicate FrozenAt(r: Runtime, m: Requirements, ids: Key -> string) {
    r.key in m && r == Runtime(ids(r.key), r.key, m[r.key])
  }

  predicate HasKey(report: seq<Runtime>, k: Key) {
    exists i :: 0 <= i < |report| && report[i].key == k
  }

  predicate Named(k: Key) {
    k.resource != "" && k.operation != ""
  }

  /** The report is one the planner can load exactly when every contribution named its resource and operation. */
  lemma {:induction false} ReportValidExactly(cs: seq<Contribution>, maxEvidence: nat, report: seq<Runtime>, ids: Key -> string)
    requires SoundKeyIds(ids) && Freezes(report, Folded(cs, maxEvidence), ids)
    ensures ReportIsValid(report) <==> forall i | 0 <= i < |cs| :: Named(cs[i].key)
  {
    hide Folded;
    forall i | 0 <= i < |cs| ensures HasKey(report, cs[i].key) {
      FoldJoins(cs, maxEvidence, cs[i].key);
      assert cs[i] in cs;
    }
    forall i | 0 <= i < |report| ensures exists k :: 0 <= k < |cs| && cs[k].key == report[i].key {
      assert FrozenAt(report[i], Folded(cs, maxEvidence), ids);
      FoldJoins(cs, maxEvidence, report[i].key);
      var c :| c in cs && c.key == report[i].key;
    }
    forall i | 0 <= i < |report| ensures report[i].id == ids(report[i].key) {
      assert FrozenAt(report[i], Folded(cs, maxEvidence), ids);
    }
    if forall i | 0 <= i < |cs| :: Named(cs[i].key) {
      forall i | 0 <= i < |report| ensures Named(report[i].key) {
        var k :| 0 <= k < |cs| && cs[k].key == report[i].key;
      }
    }
    if ReportIsValid(report) {
      forall i | 0 <= i < |cs| ensures Named(cs[i].key) {
        var k :| 0 <= k < |report| && report[k].key == cs[i].key;
      }
    }
  }

  /** Whatever evidence was gathered, its plan is written and read back as it was made. */
  lemma {:induction false} EvidenceReadsBack(
    c: Config, cs: seq<Contribution>, maxEvidence: nat, report: seq<Runtime>, ids: Key -> string, p: Plan)
    requires SoundKeyIds(ids) && SoundIds(c.makeId) && Freezes(report, Folded(cs, maxEvidence), ids)
    requires forall i | 0 <= i < |cs| :: Named(cs[i].key)
    requires PlanWritten(p) && multiset(p.decisions) == multiset(Planned(c, report))
    ensures PlanFromJson(PlanToJson(p), c.makeId) == Some(p)
  {
    ReportValidExactly(cs, maxEvidence, report, ids);
    hide *;
    PlanReadsBack(c, report, p);
  }

  /** The evidence for the key makes an automatic decision. */
  ghost predicate Selected(c: Config, m: Requirements, ids: Key -> string, k: Key)
    requires k in m
  {
    PlanRequirement(c, Runtime(ids(k), k, m[k])).automatic
  }

  /** The applier accepts the plan of any evidence exactly when the way to each directory it selects is
   * open: nothing but directories stands on it, and all of it can be inspected. */
  lemma {:induction false} EvidenceAccepted(
    c: Config, m: Requirements, report: seq<Runtime>, ids: Key -> string, decisions: seq<RepairDecision>,
    nodes: Rootfs.Nodes, inspects: Rootfs.Path -> bool)
    requires Freezes(report, m, ids) && multiset(decisions) == multiset(Planned(c, report))
    ensures Ready(nodes, Requested(decisions), inspects) <==>
              forall k | k in m && Selected(c, m, ids, k) :: Open(nodes, PosixPath.Components(k.resource), inspects)
  {
    hide PlanRequirement, Open, Ready, Requested, Planned;
    OnlyTheRootfsRefuses(c, report, decisions, nodes, inspects);
    forall i | 0 <= i < |report|
      ensures report[i].key in m && (PlanRequirement(c, report[i]).automatic <==> Selected(c, m, ids, report[i].key))
    {
      assert FrozenAt(report[i], m, ids);
    }
    forall k | k in m ensures exists i :: 0 <= i < |report| && report[i].key == k {
      assert HasKey(report, k);
    }
  }

  /** An automatic decision says no more than its requirement's key, id and blocking do. */
  lemma {:induction false} AutomaticIsPlain(c: Config, r: Runtime)
    requires PlanRequirement(c, r).automatic
    ensures PlanRequirement(c, r) ==
              Decided(c, r, CreateDirectory, AutoCandidate, PriorityOf(r.requirement.blocking), LowRisk, true, AbsentDirectory,
                      DIRECTORY)
  {
    AuthorizedExactly(c, r);
    hide PathIsValid, IsPseudo, Explained, Decided;
  }

  /** Evidence in another order selects the same directories by the same decisions. */
  lemma {:induction false} OrderSelectsTheSame(
    c: Config, a: seq<Contribution>, b: seq<Contribution>, maxEvidence: nat, ids: Key -> string, k: Key)
    requires multiset(a) == multiset(b) && k in Folded(a, maxEvidence)
    ensures k in Folded(b, maxEvidence)
    ensures var x := PlanRequirement(c, Runtime(ids(k), k, Folded(a, maxEvidence)[k]));
            var y := PlanRequirement(c, Runtime(ids(k), k, Folded(b, maxEvidence)[k]));
            (x.automatic <==> y.automatic) && (x.automatic ==> x == y)
  {
    OrderDoesNotMatter(a, b, maxEvidence, k);
    hide Folded, PlanRequirement, PathIsValid, IsPseudo, Explained;
    var r, s := Runtime(ids(k), k, Folded(a, maxEvidence)[k]), Runtime(ids(k), k, Folded(b, maxEvidence)[k]);
    AuthorizedExactly(c, r);
    AuthorizedExactly(c, s);
    if PlanRequirement(c, r).automatic {
      AutomaticIsPlain(c, r);
      AutomaticIsPlain(c, s);
    }
  }

  /** So the applier's answer does not depend on the order evidence came in either. */
  lemma {:induction false} OrderAccepted(
    c: Config, a: seq<Contribution>, b: seq<Contribution>, maxEvidence: nat, ids: Key -> string,
    reportA: seq<Runtime>, reportB: seq<Runtime>, decisionsA: seq<RepairDecision>, decisionsB: seq<RepairDecision>,
    nodes: Rootfs.Nodes, inspects: Rootfs.Path -> bool)
    requires multiset(a) == multiset(b)
    requires Freezes(reportA, Folded(a, maxEvidence), ids) && multiset(decisionsA) == multiset(Planned(c, reportA))
    requires Freezes(reportB, Folded(b, maxEvidence), ids) && multiset(decisionsB) == multiset(Planned(c, reportB))
    ensures Ready(nodes, Requested(decisionsA), inspects) <==> Ready(nodes, Requested(decisionsB), inspects)
  {
    var m, n := Folded(a, maxEvidence), Folded(b, maxEvidence);
    EvidenceAccepted(c, m, reportA, ids, decisionsA, nodes, inspects);
    EvidenceAccepted(c, n, reportB, ids, decisionsB, nodes, inspects);
    hide Folded, PlanRequirement, Open, Ready, Requested, Planned, Freezes;
    forall k ensures k in m <==> k in n {
      OrderDoesNotMatter(a, b, maxEvidence, k);
    }
    forall k | k in m ensures Selected(c, m, ids, k) <==> Selected(c, n, ids, k) {
      OrderSelectsTheSame(c, a, b, maxEvidence, ids, k);
    }
  }
}
