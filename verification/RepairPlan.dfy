/** Repair plans and their JSON form. */
module RepairPlan {
  import opened Wrappers
  import opened RepairApplier

  /** The keys of the objects written here; only a decision's parameters have keys of their own. */
  datatype Field =
    | FDecisionId | FRequirementId | FKind | FResource | FOperation | FAction | FDisposition | FPriority | FRisk | FAutomatic
    | FReason | FParameters
    | FSchemaVersion | FPlannerVersion | FGeneratedAt | FSourceRequirements | FSourceDigest | FWarnings | FDecisions

  datatype Json =
    | JNull | JBool(b: bool) | JNum(n: int) | JStr(s: string) | JArr(items: seq<Json>) | JObj(entries: map<string, Json>)
    | JRecord(fields: map<Field, Json>)

  datatype Priority = Critical | High | Normal | Low

  datatype Risk = LowRisk | MediumRisk | HighRisk

  datatype RepairDecision = RepairDecision(
    id: string, requirementId: string, kind: string, resource: string, operation: string, action: Action,
    disposition: Disposition, priority: Priority, risk: Risk, automatic: bool, reason: string, parameters: map<string, Json>)

  datatype Plan = Plan(
    sourceRequirements: string, sourceDigest: string, decisions: seq<RepairDecision>, warnings: seq<string>,
    generatedAt: string)

  /** make_decision_id: any function of these four that is used on both sides. */
  type IdMaker = (string, Action, Disposition, string) -> string

  // ----- names -----

  const ACTIONS: seq<(string, Action)> := [
    ("none", NoAction), ("create_directory", CreateDirectory), ("provide_file", ProvideFile),
    ("adjust_path_access", AdjustPathAccess), ("make_path_writable", MakePathWritable),
    ("repair_path_layout", RepairPathLayout), ("provide_device_backend", ProvideDeviceBackend),
    ("configure_tcp_service", ConfigureTcpService), ("configure_udp_service", ConfigureUdpService),
    ("resolve_library", ResolveLibrary), ("provide_interpreter", ProvideInterpreter), ("provide_executable", ProvideExecutable)]

  const DISPOSITIONS: seq<(string, Disposition)> := [
    ("auto_candidate", AutoCandidate), ("review_required", ReviewRequired), ("manual_analysis", ManualAnalysis),
    ("not_required", NotRequired)]

  const PRIORITIES: seq<(string, Priority)> := [("critical", Critical), ("high", High), ("normal", Normal), ("low", Low)]

  const RISKS: seq<(string, Risk)> := [("low", LowRisk), ("medium", MediumRisk), ("high", HighRisk)]

  /** The name a table gives a value. */
  function NameOf<T(==)>(table: seq<(string, T)>, value: T): string {
    if table == [] then "" else if table[0].1 == value then table[0].0 else NameOf(table[1..], value)
  }

  /** The value a table gives a name. */
  function ValueOf<T>(table: seq<(string, T)>, name: string): Option<T> {
    if table == [] then None else if table[0].0 == name then Some(table[0].1) else ValueOf(table[1..], name)
  }

  /** No name occurs twice, so names and values determine each other. */
  predicate Distinct<T(==)>(table: seq<(string, T)>) {
    forall i, j | 0 <= i < j < |table| :: table[i].0 != table[j].0 && table[i].1 != table[j].1
  }

  predicate HasValue<T(==)>(table: seq<(string, T)>, value: T) {
    exists i :: 0 <= i < |table| && table[i].1 == value
  }

  lemma {:induction false} NamesRoundTrip<T>(table: seq<(string, T)>, value: T)
    requires Distinct(table) && HasValue(table, value)
    ensures ValueOf(table, NameOf(table, value)) == Some(value)
    ensures exists i :: 0 <= i < |table| && table[i] == (NameOf(table, value), value)
  {
    var i :| 0 <= i < |table| && table[i].1 == value;
    if i > 0 {
      assert table[0].1 != table[i].1;
      assert table[1..][i - 1].1 == value;
      NamesRoundTrip(table[1..], value);
      var j :| 0 <= j < |table| - 1 && table[1..][j] == (NameOf(table[1..], value), value);
      assert table[j + 1] == (NameOf(table, value), value);
    }
  }

  lemma {:induction false} TablesCover(a: Action, d: Disposition, p: Priority, r: Risk)
    ensures HasValue(ACTIONS, a) && HasValue(DISPOSITIONS, d) && HasValue(PRIORITIES, p) && HasValue(RISKS, r)
  {
    assert ACTIONS[0].1 == NoAction && ACTIONS[1].1 == CreateDirectory && ACTIONS[2].1 == ProvideFile
           && ACTIONS[3].1 == AdjustPathAccess && ACTIONS[4].1 == MakePathWritable && ACTIONS[5].1 == RepairPathLayout
           && ACTIONS[6].1 == ProvideDeviceBackend && ACTIONS[7].1 == ConfigureTcpService && ACTIONS[8].1 == ConfigureUdpService
           && ACTIONS[9].1 == ResolveLibrary && ACTIONS[10].1 == ProvideInterpreter && ACTIONS[11].1 == ProvideExecutable;
    assert DISPOSITIONS[0].1 == AutoCandidate && DISPOSITIONS[1].1 == ReviewRequired && DISPOSITIONS[2].1 == ManualAnalysis
           && DISPOSITIONS[3].1 == NotRequired;
    assert PRIORITIES[0].1 == Critical && PRIORITIES[1].1 == High && PRIORITIES[2].1 == Normal && PRIORITIES[3].1 == Low;
    assert RISKS[0].1 == LowRisk && RISKS[1].1 == MediumRisk && RISKS[2].1 == HighRisk;
  }

  /** Names told apart by a number: their length, or a letter where lengths agree. */
  function Mark(name: string): int {
    |name| * 1000 + if |name| == 18 then name[0] as int else if |name| == 21 then name[10] as int else 0
  }

  lemma {:induction false} ActionsDistinct()
    ensures Distinct(ACTIONS)
  {
    assert Mark(ACTIONS[0].0) == 4000 && Mark(ACTIONS[1].0) == 16000 && Mark(ACTIONS[2].0) == 12000;
    assert Mark(ACTIONS[3].0) == 18000 + 'a' as int && Mark(ACTIONS[4].0) == 18000 + 'm' as int;
    assert Mark(ACTIONS[5].0) == 18000 + 'r' as int && Mark(ACTIONS[11].0) == 18000 + 'p' as int;
    assert Mark(ACTIONS[6].0) == 22000 && Mark(ACTIONS[9].0) == 15000 && Mark(ACTIONS[10].0) == 19000;
    assert Mark(ACTIONS[7].0) == 21000 + 't' as int && Mark(ACTIONS[8].0) == 21000 + 'u' as int;
    forall i, j | 0 <= i < j < |ACTIONS| ensures ACTIONS[i].0 != ACTIONS[j].0 && ACTIONS[i].1 != ACTIONS[j].1 {
      assert Mark(ACTIONS[i].0) != Mark(ACTIONS[j].0);
    }
  }

  lemma {:induction false} SmallTablesDistinct()
    ensures Distinct(DISPOSITIONS) && Distinct(PRIORITIES) && Distinct(RISKS)
  {
    assert DISPOSITIONS[0].0[0] == 'a' && DISPOSITIONS[1].0[0] == 'r' && DISPOSITIONS[2].0[0] == 'm'
           && DISPOSITIONS[3].0[0] == 'n';
    assert PRIORITIES[0].0[0] == 'c' && PRIORITIES[1].0[0] == 'h' && PRIORITIES[2].0[0] == 'n' && PRIORITIES[3].0[0] == 'l';
    assert RISKS[0].0[0] == 'l' && RISKS[1].0[0] == 'm' && RISKS[2].0[0] == 'h';
  }

  // ----- decisions to JSON and back -----

  function ToJson(d: RepairDecision): Json {
    JRecord(map[
      FDecisionId := JStr(d.id), FRequirementId := JStr(d.requirementId), FKind := JStr(d.kind), FResource := JStr(d.resource),
      FOperation := JStr(d.operation), FAction := JStr(NameOf(ACTIONS, d.action)),
      FDisposition := JStr(NameOf(DISPOSITIONS, d.disposition)), FPriority := JStr(NameOf(PRIORITIES, d.priority)),
      FRisk := JStr(NameOf(RISKS, d.risk)), FAutomatic := JBool(d.automatic), FReason := JStr(d.reason),
      FParameters := JObj(d.parameters)])
  }

  /** A non-empty string. */
  function Text(j: Json, f: Field): Option<string> {
    if j.JRecord? && f in j.fields && j.fields[f].JStr? && j.fields[f].s != "" then Some(j.fields[f].s) else None
  }

  function Enum<T>(j: Json, f: Field, table: seq<(string, T)>): Option<T> {
    if j.JRecord? && f in j.fields && j.fields[f].JStr? then ValueOf(table, j.fields[f].s) else None
  }

  function Flag(j: Json, f: Field): Option<bool> {
    if j.JRecord? && f in j.fields && j.fields[f].JBool? then Some(j.fields[f].b) else None
  }

  /** Parameters that are left out are none. */
  function Parameters(j: Json): Option<map<string, Json>> {
    if !j.JRecord? then None
    else if FParameters !in j.fields then Some(map[])
    else if j.fields[FParameters].JObj? && "" !in j.fields[FParameters].entries then Some(j.fields[FParameters].entries)
    else None
  }

  /** The checks that span fields. */
  predicate Consistent(d: RepairDecision, makeId: IdMaker) {
    && (d.automatic ==> d.disposition == AutoCandidate && d.action != NoAction)
    && d.id == makeId(d.requirementId, d.action, d.disposition, d.resource)
  }

  function FromJson(j: Json, makeId: IdMaker): Option<RepairDecision> {
    var id, requirementId, kind := Text(j, FDecisionId), Text(j, FRequirementId), Text(j, FKind);
    var resource, operation, reason := Text(j, FResource), Text(j, FOperation), Text(j, FReason);
    var action, disposition := Enum(j, FAction, ACTIONS), Enum(j, FDisposition, DISPOSITIONS);
    var priority, risk := Enum(j, FPriority, PRIORITIES), Enum(j, FRisk, RISKS);
    var automatic, parameters := Flag(j, FAutomatic), Parameters(j);
    if id.None? || requirementId.None? || kind.None? || resource.None? || operation.None? || reason.None? || action.None?
       || disposition.None? || priority.None? || risk.None? || automatic.None? || parameters.None? then None
    else
      var d := RepairDecision(id.value, requirementId.value, kind.value, resource.value, operation.value, action.value,
                              disposition.value, priority.value, risk.value, automatic.value, reason.value, parameters.value);
      if Consistent(d, makeId) then Some(d) else None
  }

  predicate Written(d: RepairDecision) {
    && d.id != "" && d.requirementId != "" && d.kind != "" && d.resource != "" && d.operation != "" && d.reason != ""
    && "" !in d.parameters
  }

  /** A decision survives being written and read exactly when it names everything and its fields agree. */
  lemma {:induction false} DecisionRoundTrip(d: RepairDecision, makeId: IdMaker)
    ensures FromJson(ToJson(d), makeId) == if Written(d) && Consistent(d, makeId) then Some(d) else None
  {
    hide Consistent, ToJson, Text, Enum, Flag, Parameters, HasValue, Distinct;
    TablesCover(d.action, d.disposition, d.priority, d.risk);
    ActionsDistinct();
    SmallTablesDistinct();
    EnumBack(d);
    TextBack(d);
  }

  function NonEmpty(s: string): Option<string> {
    if s == "" then None else Some(s)
  }

  lemma {:induction false} TextBack(d: RepairDecision)
    ensures Text(ToJson(d), FDecisionId) == NonEmpty(d.id) && Text(ToJson(d), FRequirementId) == NonEmpty(d.requirementId)
    ensures Text(ToJson(d), FKind) == NonEmpty(d.kind) && Text(ToJson(d), FResource) == NonEmpty(d.resource)
    ensures Text(ToJson(d), FOperation) == NonEmpty(d.operation) && Text(ToJson(d), FReason) == NonEmpty(d.reason)
    ensures Flag(ToJson(d), FAutomatic) == Some(d.automatic)
    ensures Parameters(ToJson(d)) == if "" in d.parameters then None else Some(d.parameters)
  {
    hide NameOf;
  }

  lemma {:induction false} EnumBack(d: RepairDecision)
    requires Distinct(ACTIONS) && Distinct(DISPOSITIONS) && Distinct(PRIORITIES) && Distinct(RISKS)
    requires HasValue(ACTIONS, d.action) && HasValue(DISPOSITIONS, d.disposition) && HasValue(PRIORITIES, d.priority)
    requires HasValue(RISKS, d.risk)
    ensures Enum(ToJson(d), FAction, ACTIONS) == Some(d.action)
    ensures Enum(ToJson(d), FDisposition, DISPOSITIONS) == Some(d.disposition)
    ensures Enum(ToJson(d), FPriority, PRIORITIES) == Some(d.priority)
    ensures Enum(ToJson(d), FRisk, RISKS) == Some(d.risk)
  {
    hide NameOf, ValueOf, Distinct, HasValue;
    NamesRoundTrip(ACTIONS, d.action);
    NamesRoundTrip(DISPOSITIONS, d.disposition);
    NamesRoundTrip(PRIORITIES, d.priority);
    NamesRoundTrip(RISKS, d.risk);
  }

  // ----- plans -----

  predicate IsDigest(s: string) {
    |s| == 64 && forall i | 0 <= i < |s| :: '0' <= s[i] <= '9' || 'a' <= s[i] <= 'f'
  }

  function DecisionsToJson(ds: seq<RepairDecision>): (r: seq<Json>)
    ensures |r| == |ds|
  {
    seq(|ds|, i requires 0 <= i < |ds| => ToJson(ds[i]))
  }

  function TextsToJson(texts: seq<string>): (r: seq<Json>)
    ensures |r| == |texts|
  {
    seq(|texts|, i requires 0 <= i < |texts| => JStr(texts[i]))
  }

  function PlanToJson(p: Plan): Json {
    JRecord(map[
      FSchemaVersion := JNum(1), FPlannerVersion := JNum(1), FGeneratedAt := JStr(p.generatedAt),
      FSourceRequirements := JStr(p.sourceRequirements), FSourceDigest := JStr(p.sourceDigest),
      FWarnings := JArr(TextsToJson(p.warnings)), FDecisions := JArr(DecisionsToJson(p.decisions))])
  }

  function DecisionsFromJson(items: seq<Json>, makeId: IdMaker): Option<seq<RepairDecision>> {
    if items == [] then Some([])
    else
      var init := DecisionsFromJson(items[..|items| - 1], makeId);
      var last := FromJson(items[|items| - 1], makeId);
      if init.None? || last.None? then None else Some(init.value + [last.value])
  }

  function TextsFromJson(items: seq<Json>): Option<seq<string>> {
    if items == [] then Some([])
    else
      var init, last := TextsFromJson(items[..|items| - 1]), items[|items| - 1];
      if init.None? || !last.JStr? then None else Some(init.value + [last.s])
  }

  predicate DistinctDecisions(ds: seq<RepairDecision>) {
    forall i, j | 0 <= i < j < |ds| :: ds[i].id != ds[j].id && ds[i].requirementId != ds[j].requirementId
  }

  predicate One(j: Json, f: Field) {
    j.JRecord? && f in j.fields && j.fields[f] == JNum(1)
  }

  function Items(j: Json, f: Field): Option<seq<Json>> {
    if j.JRecord? && f in j.fields && j.fields[f].JArr? then Some(j.fields[f].items) else None
  }

  function PlanFromJson(j: Json, makeId: IdMaker): Option<Plan> {
    var generatedAt, source, digest := Text(j, FGeneratedAt), Text(j, FSourceRequirements), Text(j, FSourceDigest);
    var items := Items(j, FDecisions);
    var warnings := if j.JRecord? && FWarnings !in j.fields then Some([]) else Items(j, FWarnings);
    if !One(j, FSchemaVersion) || !One(j, FPlannerVersion) || generatedAt.None? || source.None? || digest.None?
       || !IsDigest(digest.value) || items.None? || warnings.None? then None
    else
      var decisions, texts := DecisionsFromJson(items.value, makeId), TextsFromJson(warnings.value);
      if decisions.None? || texts.None? || !DistinctDecisions(decisions.value) then None
      else Some(Plan(source.value, digest.value, decisions.value, texts.value, generatedAt.value))
  }

  predicate AllReadable(ds: seq<RepairDecision>, makeId: IdMaker) {
    forall i | 0 <= i < |ds| :: Written(ds[i]) && Consistent(ds[i], makeId)
  }

  lemma {:induction false} DecisionsRoundTrip(ds: seq<RepairDecision>, makeId: IdMaker)
    ensures DecisionsFromJson(DecisionsToJson(ds), makeId) == if AllReadable(ds, makeId) then Some(ds) else None
  {
    hide Written, Consistent, FromJson, ToJson;
    if ds != [] {
      var n := |ds| - 1;
      DecisionsRoundTrip(ds[..n], makeId);
      DecisionRoundTrip(ds[n], makeId);
      assert DecisionsToJson(ds)[..n] == DecisionsToJson(ds[..n]);
      assert ds == ds[..n] + [ds[n]];
      assert AllReadable(ds, makeId) <==> AllReadable(ds[..n], makeId) && Written(ds[n]) && Consistent(ds[n], makeId);
    }
  }

  lemma {:induction false} TextsRoundTrip(texts: seq<string>)
    ensures TextsFromJson(TextsToJson(texts)) == Some(texts)
  {
    if texts != [] {
      var n := |texts| - 1;
      TextsRoundTrip(texts[..n]);
      assert TextsToJson(texts)[..n] == TextsToJson(texts[..n]);
      assert texts == texts[..n] + [texts[n]];
    }
  }

  predicate PlanWritten(p: Plan) {
    p.generatedAt != "" && p.sourceRequirements != "" && IsDigest(p.sourceDigest)
  }

  /** A plan survives being written and read exactly when its header is there, each decision does, and no id repeats. */
  lemma {:induction false} PlanRoundTrip(p: Plan, makeId: IdMaker)
    ensures PlanFromJson(PlanToJson(p), makeId) ==
              if PlanWritten(p) && AllReadable(p.decisions, makeId) && DistinctDecisions(p.decisions) then Some(p) else None
  {
    hide AllReadable, DistinctDecisions, DecisionsFromJson, TextsFromJson, DecisionsToJson, TextsToJson;
    DecisionsRoundTrip(p.decisions, makeId);
    TextsRoundTrip(p.warnings);
  }

  // ----- what the applier reads of a decision -----

  function ToApplier(d: RepairDecision): Decision {
    Decision(
      d.id, d.requirementId, d.resource, d.action, d.disposition, d.automatic,
      "parents" in d.parameters && d.parameters["parents"] == JBool(true),
      if "mode" in d.parameters && d.parameters["mode"].JStr? then Some(d.parameters["mode"].s) else None)
  }
}
