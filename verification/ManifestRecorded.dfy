/** What a derived manifest says of each resource, in terms of the repairs that were reported. */
module ManifestRecorded {
  import opened Wrappers
  import opened Rootfs
  import opened RepairApplier
  import opened RepairedEnvironment
  import opened EnvironmentManifest
  import opened Attempt
  import opened ManifestBuilder
  import PosixPath

  /** Result n reports a selected decision about the resource of this id. */
  ghost predicate Records(s: Sources, results: seq<AppliedResult>, id: string, n: int) {
    && 0 <= n < |results| && Lookup(s.plan, results[n].decisionId).Some?
    && var d := Lookup(s.plan, results[n].decisionId).value;
       d.automatic && "fs:" + d.resource == id
  }

  ghost predicate Touched(s: Sources, results: seq<AppliedResult>, id: string) {
    exists n :: Records(s, results, id, n)
  }

  /** The directory as it was observed in the repaired environment. */
  ghost predicate ValueSeen(s: Sources, id: string, e: ManifestEntry) {
    && |id| > 3 && id[..3] == "fs:" && PosixPath.Components(id[3..]) in s.env
    && s.env[PosixPath.Components(id[3..])].DirEntry?
    && e.kind == EnvironmentManifest.Directory && e.provider == "static_directory"
    && e.value == DirectoryValue(id[3..], s.env[PosixPath.Components(id[3..])].mode)
  }

  /** The evidence there was, the observation, and the repair of every decision about the resource. */
  ghost predicate EvidenceSeen(s: Sources, results: seq<AppliedResult>, before: map<string, ManifestEntry>, id: string,
      e: ManifestEntry) {
    var attempt := s.contract.id;
    && (forall k :: k in e.evidence <==>
          || (id in before && k in before[id].evidence)
          || k == ObservationOf(attempt)
          || (k.RepairOf? && k.attempt == attempt
              && exists n :: Records(s, results, id, n) && results[n].decisionId == k.decision))
    && ObservationOf(attempt) in e.evidence
    && e.evidence[ObservationOf(attempt)] == Evidence(RuntimeEvent, attempt, s.observation)
    && (forall n | Records(s, results, id, n) ::
          && RepairOf(attempt, results[n].decisionId) in e.evidence
          && e.evidence[RepairOf(attempt, results[n].decisionId)]
             == Evidence(EvidenceKind.RepairApplication, attempt, OfApplication(s.application)))
  }

  /** Where a resource comes from, and how sure it is: as before if it was known, and as sure if it was known to be the same. */
  ghost predicate OriginSeen(s: Sources, before: map<string, ManifestEntry>, id: string, e: ManifestEntry) {
    if id in before then
      var was := before[id];
      && e.firstStage == was.firstStage && e.firstAttempt == was.firstAttempt
      && e.consumerPc == was.consumerPc && e.scope == was.scope
      && (if was.kind == e.kind && was.provider == e.provider && was.value == e.value
          then e.confidence == was.confidence && e.status == was.status
          else e.confidence == Observed && e.status == Active)
    else
      && e.firstStage == s.contract.initialStage && e.firstAttempt == s.contract.id
      && e.consumerPc.None? && e.scope == UnknownScope && e.confidence == Observed && e.status == Active
  }

  /** What a manifest says of one resource after the results were recorded. */
  ghost predicate Says(s: Sources, results: seq<AppliedResult>, before: map<string, ManifestEntry>, id: string,
      after: map<string, ManifestEntry>) {
    if Touched(s, results, id) then
      && id in after && ValueSeen(s, id, after[id]) && EvidenceSeen(s, results, before, id, after[id])
      && OriginSeen(s, before, id, after[id])
    else
      (id in after <==> id in before) && (id in before ==> after[id] == before[id])
  }

  /** A recorded resource is described by what was observed and carries the evidence of every repair of it; every other
   * entry is the parent's. */
  lemma {:induction false} FoldSays(s: Sources, start: Progress, results: seq<AppliedResult>, id: string)
    requires Fold(s, start, results).Some?
    ensures Says(s, results, start.entries, id, Fold(s, start, results).value.entries)
    decreases |results|
  {
    if results != [] {
      var n := |results| - 1;
      FoldSays(s, start, results[..n], id);
      SaysStep(s, start.entries, Fold(s, start, results[..n]).value, results, id);
    }
  }

  lemma {:induction false} RecordsStep(s: Sources, results: seq<AppliedResult>, id: string)
    requires results != []
    ensures forall n :: Records(s, results[..|results| - 1], id, n) <==> Records(s, results, id, n) && n < |results| - 1
    ensures Touched(s, results, id) <==>
              Touched(s, results[..|results| - 1], id) || Records(s, results, id, |results| - 1)
  {
    var init := results[..|results| - 1];
    if Touched(s, init, id) {
      var n :| Records(s, init, id, n);
      assert Records(s, results, id, n);
    }
    if Touched(s, results, id) {
      var n :| Records(s, results, id, n);
      assert n < |init| ==> Records(s, init, id, n);
    }
  }

  lemma {:induction false} SaysStep(s: Sources, before: map<string, ManifestEntry>, p: Progress, results: seq<AppliedResult>,
      id: string)
    requires results != [] && CanStep(s, p, results[|results| - 1])
    requires Says(s, results[..|results| - 1], before, id, p.entries)
    ensures Says(s, results, before, id, Step(s, p, results[|results| - 1]).entries)
  {
    hide Recordable, Mergeable, Reported, EvidenceSeen, OriginSeen, ValueSeen;
    var n := |results| - 1;
    var d := Lookup(s.plan, results[n].decisionId).value;
    RecordsStep(s, results, id);
    if Records(s, results, id, n) {
      EntrySays(s, before, p, results, id);
    } else if d.automatic {
      assert ResourceId(d.resource) != id;
    }
    if !Records(s, results, id, n) && Touched(s, results, id) {
      EvidenceKeptBy(s, results, before, id, p.entries[id]);
    }
  }

  lemma {:induction false} EvidenceKeptBy(s: Sources, results: seq<AppliedResult>, before: map<string, ManifestEntry>,
      id: string, e: ManifestEntry)
    requires results != [] && !Records(s, results, id, |results| - 1)
    requires EvidenceSeen(s, results[..|results| - 1], before, id, e)
    ensures EvidenceSeen(s, results, before, id, e)
  {
    var init := results[..|results| - 1];
    RecordsStep(s, results, id);
    assert forall n :: Records(s, init, id, n) <==> Records(s, results, id, n);
    assert forall n | 0 <= n < |init| :: init[n] == results[n];
  }

  lemma {:induction false} EntrySays(s: Sources, before: map<string, ManifestEntry>, p: Progress, results: seq<AppliedResult>,
      id: string)
    requires results != [] && CanStep(s, p, results[|results| - 1]) && Records(s, results, id, |results| - 1)
    requires Says(s, results[..|results| - 1], before, id, p.entries)
    ensures var after := Step(s, p, results[|results| - 1]).entries;
            && id in after && ValueSeen(s, id, after[id]) && OriginSeen(s, before, id, after[id])
            && EvidenceSeen(s, results, before, id, after[id])
  {
    var n := |results| - 1;
    var d := Lookup(s.plan, results[n].decisionId).value;
    assert id[3..] == d.resource;
    assert ResourceId(d.resource) == id;
    EvidenceGrows(s, before, p, results, id);
  }

  lemma {:induction false} EvidenceGrows(s: Sources, before: map<string, ManifestEntry>, p: Progress,
      results: seq<AppliedResult>, id: string)
    requires results != [] && CanStep(s, p, results[|results| - 1]) && Records(s, results, id, |results| - 1)
    requires Says(s, results[..|results| - 1], before, id, p.entries)
    ensures var after := Step(s, p, results[|results| - 1]).entries;
            id in after && EvidenceSeen(s, results, before, id, after[id])
  {
    hide Says, EvidenceSeen, Reported, Recordable, Mergeable, NewEvidence;
    var decision := results[|results| - 1].decisionId;
    LookupNames(s.plan, decision);
    EvidenceAdds(s, before, p.entries, results, id, Step(s, p, results[|results| - 1]).entries[id]);
  }

  lemma {:induction false} EvidenceAdds(s: Sources, before: map<string, ManifestEntry>, entries: map<string, ManifestEntry>,
      results: seq<AppliedResult>, id: string, e: ManifestEntry)
    requires results != [] && Records(s, results, id, |results| - 1)
    requires Says(s, results[..|results| - 1], before, id, entries)
    requires var added := NewEvidence(s.contract.id, results[|results| - 1].decisionId, s.observation, s.application);
             e.evidence == if id in entries then entries[id].evidence + added else added
    ensures EvidenceSeen(s, results, before, id, e)
  {
    hide ValueSeen, OriginSeen, Records;
    var n := |results| - 1;
    var init := results[..n];
    var attempt, decision := s.contract.id, results[n].decisionId;
    RecordsStep(s, results, id);
    assert forall m | 0 <= m < n :: init[m] == results[m];
    RecordsBounded(s, results, id);
    assert forall k :: k in NewEvidence(attempt, decision, s.observation, s.application) <==>
                         k == ObservationOf(attempt) || k == RepairOf(attempt, decision);
    forall k ensures k in e.evidence <==>
      || (id in before && k in before[id].evidence)
      || k == ObservationOf(attempt)
      || (k.RepairOf? && k.attempt == attempt
          && exists m :: Records(s, results, id, m) && results[m].decisionId == k.decision)
    {
      KeyAdded(s, before, entries, results, id, e, k);
    }
  }

  lemma {:induction false} RecordsBounded(s: Sources, results: seq<AppliedResult>, id: string)
    ensures forall n | Records(s, results, id, n) :: 0 <= n < |results|
  {
  }

  /** One key, held or not. */
  lemma {:induction false} KeyAdded(s: Sources, before: map<string, ManifestEntry>, entries: map<string, ManifestEntry>,
      results: seq<AppliedResult>, id: string, e: ManifestEntry, k: EvidenceId)
    requires results != [] && Records(s, results, id, |results| - 1)
    requires Says(s, results[..|results| - 1], before, id, entries)
    requires var added := NewEvidence(s.contract.id, results[|results| - 1].decisionId, s.observation, s.application);
             e.evidence == if id in entries then entries[id].evidence + added else added
    ensures k in e.evidence <==>
              || (id in before && k in before[id].evidence)
              || k == ObservationOf(s.contract.id)
              || (k.RepairOf? && k.attempt == s.contract.id
                  && exists m :: Records(s, results, id, m) && results[m].decisionId == k.decision)
  {
    hide ValueSeen, OriginSeen, Records;
    var n := |results| - 1;
    var init := results[..n];
    RecordsStep(s, results, id);
    RecordsBounded(s, results, id);
    RecordsBounded(s, init, id);
    assert forall m | 0 <= m < n :: init[m] == results[m];
    if k.RepairOf? && k.attempt == s.contract.id {
      if m :| Records(s, init, id, m) && init[m].decisionId == k.decision {
        assert Records(s, results, id, m) && results[m].decisionId == k.decision;
      }
      if m :| Records(s, results, id, m) && results[m].decisionId == k.decision && m < n {
        assert Records(s, init, id, m) && init[m].decisionId == k.decision;
      }
    }
  }

  lemma {:induction false} LookupNames(plan: seq<Decision>, id: string)
    ensures Lookup(plan, id).Some? ==> Lookup(plan, id).value.id == id
  {
    if plan != [] {
      LookupNames(plan[..|plan| - 1], id);
    }
  }

  // ----- how many repairs a manifest says it records -----

  ghost function Selected(s: Sources, results: seq<AppliedResult>): set<nat> {
    set n: nat | n < |results| && Lookup(s.plan, results[n].decisionId).Some?
                 && Lookup(s.plan, results[n].decisionId).value.automatic
  }

  lemma {:induction false} SelectedCounted(s: Sources, start: Progress, results: seq<AppliedResult>)
    requires Fold(s, start, results).Some?
    ensures Fold(s, start, results).value.selected == start.selected + |Selected(s, results)|
    decreases |results|
  {
    hide Recordable, Mergeable, Reported, EntryFor, MergeEntry;
    if results != [] {
      SelectedCounted(s, start, results[..|results| - 1]);
      SelectedGrows(s, results);
    } else {
      assert Selected(s, results) == {};
    }
  }

  lemma {:induction false} SelectedGrows(s: Sources, results: seq<AppliedResult>)
    requires results != [] && Lookup(s.plan, results[|results| - 1].decisionId).Some?
    ensures |Selected(s, results)| == |Selected(s, results[..|results| - 1])|
                                      + if Lookup(s.plan, results[|results| - 1].decisionId).value.automatic then 1 else 0
  {
    hide Lookup;
    var n := |results| - 1;
    var init := results[..n];
    assert forall m: nat | m < n :: init[m] == results[m];
    var d := Lookup(s.plan, results[n].decisionId).value;
    assert Selected(s, results) == Selected(s, init) + if d.automatic then {n} else {};
  }
}
