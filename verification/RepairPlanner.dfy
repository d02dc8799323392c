/** Turning requirements into repair decisions. */
module RepairPlanner {
  import opened Wrappers
  import opened RepairApplier
  import opened RepairPlan
  import opened RequirementExtractor
  import PosixPath
  import PathOrder
  import Rootfs

  /** A frozen requirement. */
  datatype Runtime = Runtime(id: string, key: Key, requirement: Requirement)

  /** What urlsplit makes of a resource, if it is a tcp or udp endpoint with a port. */
  datatype Endpoint = Endpoint(transport: string, host: string, port: nat)

  datatype Config = Config(minimum: real, makeId: IdMaker, endpoint: string -> Option<Endpoint>)

  function PriorityOf(b: Blocking): Priority {
    match b
    case Likely => Critical
    case Possible => High
    case UnknownBlocking => Normal
    case Unlikely => Low
  }

  function KindName(k: Kind): string {
    match k
    case Filesystem => "filesystem"
    case Device => "device"
    case Network => "network"
    case Library => "library"
    case SyscallKind => "syscall"
    case Execution => "execution"
  }

  predicate NeedsNetworkReview(r: Runtime) {
    r.key.kind == Network
    && !("semantic_satisfaction" in r.requirement.details && r.requirement.details["semantic_satisfaction"] == "confirmed")
  }

  /** _validate_guest_path. */
  predicate PathIsValid(path: string) {
    && '\0' !in path && path != "" && path[0] == '/' && ".." !in PosixPath.Components(path)
    && (path == "/" || PosixPath.AsPosix(path) == StripSlashes(path))
  }

  predicate IsPseudo(path: string) {
    exists i | 0 <= i < |DENIED| :: Below(path, DENIED[i])
  }

  type Reason = s: string | s != "" witness "-"

  /** Parameters a plan's reader accepts: every key is written out. */
  type Settings = m: map<string, Json> | "" !in m witness map[]

  /** Why a decision came out as it did. */
  datatype Grounds =
    | AlreadyProvided | NotRepairable | UnsafePath | PseudoPath | AbsentDirectory | WeakEvidence | UnknownContent
    | UnjustifiedAccess | UnknownMechanism | AncestorConflict | NoRule | DeviceSemantics | BadEndpoint | ReachedOnly
    | WrongAbi | UnknownBytes | Crash | KernelSupport

  function Explained(g: Grounds): Reason {
    match g
    case AlreadyProvided => "provided"
    case NotRepairable => "no mutation repairs this"
    case UnsafePath => "unsafe path"
    case PseudoPath => "needs a mount"
    case AbsentDirectory => "absent directory"
    case WeakEvidence => "weak evidence"
    case UnknownContent => "unknown content"
    case UnjustifiedAccess => "access not justified"
    case UnknownMechanism => "unknown mechanism"
    case AncestorConflict => "ancestor is no directory"
    case NoRule => "no rule"
    case DeviceSemantics => "needs a device backend"
    case BadEndpoint => "no endpoint"
    case ReachedOnly => "reached is not satisfied"
    case WrongAbi => "must match the ABI"
    case UnknownBytes => "unknown bytes"
    case Crash => "crash analysis"
    case KernelSupport => "needs kernel support"
  }

  function Decided(
    c: Config, r: Runtime, action: Action, disposition: Disposition, priority: Priority, risk: Risk, automatic: bool,
    grounds: Grounds, parameters: Settings): RepairDecision
  {
    RepairDecision(
      c.makeId(r.id, action, disposition, r.key.resource), r.id, KindName(r.key.kind), r.key.resource, r.key.operation, action,
      disposition, priority, risk, automatic, Explained(grounds), parameters)
  }

  const DIRECTORY: Settings := map["mode" := JStr("0755"), "parents" := JBool(true)]

  const CONTENT: Settings := map["content_strategy" := JStr("derive_or_supply"), "create_empty" := JBool(false)]

  const ACCESS: Settings := map["preserve_entry_type" := JBool(true)]

  const WRITABLE: Settings := map["strategy" := JStr("overlay_or_permissions")]

  const BACKEND: Settings := map["backend_semantics_required" := JBool(true)]

  const LIBRARY: Settings :=
    map["source" := JStr("verified_sysroot_or_bundle"), "exact_architecture_required" := JBool(true),
        "dependency_closure_required" := JBool(true)]

  const EXECUTABLE: Settings := map["source" := JStr("verified_artifact")]

  function PlanFilesystem(c: Config, r: Runtime, p: Priority): RepairDecision {
    if !PathIsValid(r.key.resource) then
      Decided(c, r, NoAction, ManualAnalysis, p, HighRisk, false, UnsafePath, map[])
    else
      match r.key.operation
      case "directory_exists" => PlanDirectory(c, r, p)
      case "path_exists" => Decided(c, r, ProvideFile, ReviewRequired, p, MediumRisk, false, UnknownContent, CONTENT)
      case "path_access" => Decided(c, r, AdjustPathAccess, ReviewRequired, p, HighRisk, false, UnjustifiedAccess, ACCESS)
      case "path_writable" => Decided(c, r, MakePathWritable, ReviewRequired, p, MediumRisk, false, UnknownMechanism, WRITABLE)
      case "valid_path_layout" => Decided(c, r, RepairPathLayout, ManualAnalysis, p, HighRisk, false, AncestorConflict, map[])
      case _ => Decided(c, r, NoAction, ManualAnalysis, p, HighRisk, false, NoRule, map[])
  }

  function PlanDirectory(c: Config, r: Runtime, p: Priority): RepairDecision {
    if r.key.resource == "/" || IsPseudo(r.key.resource) then
      Decided(c, r, CreateDirectory, ManualAnalysis, p, HighRisk, false, PseudoPath, DIRECTORY)
    else if r.requirement.status == Unmet && r.requirement.confidence >= c.minimum then
      Decided(c, r, CreateDirectory, AutoCandidate, p, LowRisk, true, AbsentDirectory, DIRECTORY)
    else Decided(c, r, CreateDirectory, ReviewRequired, p, LowRisk, false, WeakEvidence, DIRECTORY)
  }

  function Copied(details: map<string, string>, key: Reason, settings: Settings): Settings {
    if key in details then settings[key := JStr(details[key])] else settings
  }

  function EndpointSettings(e: Endpoint): Settings {
    map["transport" := JStr(e.transport), "remote_ip" := JStr(e.host), "remote_port" := JNum(e.port),
        "response_strategy" := JStr("recorded_or_protocol_specific")]
  }

  function PlanNetwork(c: Config, r: Runtime, p: Priority): RepairDecision {
    match c.endpoint(r.key.resource)
    case None => Decided(c, r, NoAction, ManualAnalysis, p, HighRisk, false, BadEndpoint, map[])
    case Some(e) =>
      var details := r.requirement.details;
      Decided(c, r, if e.transport == "tcp" then ConfigureTcpService else ConfigureUdpService, ReviewRequired, p, MediumRisk,
              false, ReachedOnly, Copied(details, "listener_type", Copied(details, "role", EndpointSettings(e))))
  }

  function PlanLibrary(c: Config, r: Runtime, p: Priority): RepairDecision {
    Decided(c, r, if r.key.operation == "interpreter_available" then ProvideInterpreter else ResolveLibrary, ReviewRequired, p,
            MediumRisk, false, WrongAbi, LIBRARY)
  }

  function PlanExecution(c: Config, r: Runtime, p: Priority): RepairDecision {
    if r.key.operation == "executable_available" then
      Decided(c, r, ProvideExecutable, ReviewRequired, p, HighRisk, false, UnknownBytes, EXECUTABLE)
    else Decided(c, r, NoAction, ManualAnalysis, p, HighRisk, false, Crash, map[])
  }

  /** _plan_requirement. */
  function PlanRequirement(c: Config, r: Runtime): RepairDecision {
    var p := PriorityOf(r.requirement.blocking);
    if r.requirement.status == Provided && !NeedsNetworkReview(r) then
      Decided(c, r, NoAction, NotRequired, Low, LowRisk, false, AlreadyProvided, map[])
    else if !r.requirement.repairable then
      Decided(c, r, NoAction, ManualAnalysis, p, HighRisk, false, NotRepairable, map[])
    else
      match r.key.kind
      case Filesystem => PlanFilesystem(c, r, p)
      case Device => Decided(c, r, ProvideDeviceBackend, ManualAnalysis, p, HighRisk, false, DeviceSemantics, BACKEND)
      case Network => PlanNetwork(c, r, p)
      case Library => PlanLibrary(c, r, p)
      case Execution => PlanExecution(c, r, p)
      case SyscallKind => Decided(c, r, NoAction, ManualAnalysis, p, HighRisk, false, KernelSupport, map[])
  }

  // ----- what is authorized -----

  /** Exactly the absent, well-evidenced directories on a sound path outside the pseudo filesystems are applied
   * automatically. */
  lemma {:induction false} AuthorizedExactly(c: Config, r: Runtime)
    ensures PlanRequirement(c, r).automatic <==>
              && r.key.kind == Filesystem && r.key.operation == "directory_exists" && PathIsValid(r.key.resource)
              && r.key.resource != "/" && !IsPseudo(r.key.resource)
              && r.requirement.status == Unmet && r.requirement.repairable && r.requirement.confidence >= c.minimum
    ensures PlanRequirement(c, r).automatic ==>
              && PlanRequirement(c, r).action == CreateDirectory && PlanRequirement(c, r).disposition == AutoCandidate
              && PlanRequirement(c, r).parameters == DIRECTORY
  {
    DirectoryAuthorized(c, r, PriorityOf(r.requirement.blocking));
    OthersAreNot(c, r, PriorityOf(r.requirement.blocking));
    hide PathIsValid, IsPseudo, Explained, PlanFilesystem, PlanNetwork, PlanLibrary, PlanExecution;
  }

  lemma {:induction false} DirectoryAuthorized(c: Config, r: Runtime, p: Priority)
    ensures PlanFilesystem(c, r, p).automatic <==>
              && r.key.operation == "directory_exists" && PathIsValid(r.key.resource)
              && r.key.resource != "/" && !IsPseudo(r.key.resource)
              && r.requirement.status == Unmet && r.requirement.confidence >= c.minimum
    ensures PlanFilesystem(c, r, p).automatic ==> PlanFilesystem(c, r, p) == PlanDirectory(c, r, p)
    ensures PlanDirectory(c, r, p).automatic ==>
              && PlanDirectory(c, r, p).action == CreateDirectory && PlanDirectory(c, r, p).disposition == AutoCandidate
              && PlanDirectory(c, r, p).parameters == DIRECTORY
  {
    hide PathIsValid, IsPseudo, Explained;
  }

  lemma {:induction false} OthersAreNot(c: Config, r: Runtime, p: Priority)
    ensures !PlanNetwork(c, r, p).automatic && !PlanLibrary(c, r, p).automatic && !PlanExecution(c, r, p).automatic
  {
    hide Explained, Copied, EndpointSettings;
  }

  /** Stripping takes nothing but slashes off the end. */
  lemma {:induction false} StripIsPrefix(s: string)
    ensures StripSlashes(s) <= s && forall k | |StripSlashes(s)| <= k < |s| :: s[k] == '/'
  {
    if s != "" && s[|s| - 1] == '/' {
      StripIsPrefix(s[..|s| - 1]);
    }
  }

  /** A path whose stripped form lies at or below a denied prefix lies there itself. */
  lemma {:induction false} DeniedIsPseudo(s: string, prefix: string)
    requires Below(StripSlashes(s), prefix)
    ensures Below(s, prefix)
  {
    StripIsPrefix(s);
    var t := StripSlashes(s);
    if t == prefix && s != prefix {
      assert s[|prefix|] == '/';
      assert s[..|prefix| + 1] == prefix + "/";
    }
  }

  // ----- what is decided, question by question -----

  /** The environment showed that it provides this; only a network service has to be confirmed beyond that. */
  predicate Settled(r: Runtime) {
    r.requirement.status == Provided && (r.key.kind == Network ==> Confirmed(r.requirement.details))
  }

  predicate Confirmed(details: map<string, string>) {
    "semantic_satisfaction" in details && details["semantic_satisfaction"] == "confirmed"
  }

  /** A mutation of the environment could help. */
  predicate Repairable(r: Runtime) {
    !Settled(r) && r.requirement.repairable
  }

  /** A repairable filesystem requirement of this operation on a sound path. */
  predicate Asks(r: Runtime, operation: string) {
    Repairable(r) && r.key.kind == Filesystem && PathIsValid(r.key.resource) && r.key.operation == operation
  }

  /** How soon a decision matters is how likely its requirement blocked the sample. */
  lemma {:induction false} PriorityTable(c: Config, r: Runtime)
    ensures var d := PlanRequirement(c, r);
            if Settled(r) then d.priority == Low
            else
              && (d.priority == Critical <==> r.requirement.blocking == Likely)
              && (d.priority == High <==> r.requirement.blocking == Possible)
              && (d.priority == Normal <==> r.requirement.blocking == UnknownBlocking)
              && (d.priority == Low <==> r.requirement.blocking == Unlikely)
  {
    var p := PriorityOf(r.requirement.blocking);
    SamePriority(c, r, p);
    hide PlanFilesystem, PlanNetwork, PlanLibrary, PlanExecution, Explained, KindName, BACKEND;
  }

  lemma {:induction false} SamePriority(c: Config, r: Runtime, p: Priority)
    ensures PlanFilesystem(c, r, p).priority == PlanNetwork(c, r, p).priority == p
    ensures PlanLibrary(c, r, p).priority == PlanExecution(c, r, p).priority == p
  {
    DirectoryPriority(c, r, p);
    hide PathIsValid, PlanDirectory, Explained, Copied, EndpointSettings, KindName, CONTENT, ACCESS, WRITABLE, LIBRARY,
         EXECUTABLE;
  }

  lemma {:induction false} DirectoryPriority(c: Config, r: Runtime, p: Priority)
    ensures PlanDirectory(c, r, p).priority == p
  {
    hide IsPseudo, Explained, KindName, DIRECTORY;
  }

  /** Which action is decided on. */
  lemma {:induction false} ActionTable(c: Config, r: Runtime)
    ensures var d := PlanRequirement(c, r);
            && (d.action == CreateDirectory <==> Asks(r, "directory_exists"))
            && (d.action == ProvideFile <==> Asks(r, "path_exists"))
            && (d.action == AdjustPathAccess <==> Asks(r, "path_access"))
            && (d.action == MakePathWritable <==> Asks(r, "path_writable"))
            && (d.action == RepairPathLayout <==> Asks(r, "valid_path_layout"))
  {
    FilesystemActions(c, r, PriorityOf(r.requirement.blocking));
    OtherActions(c, r, PriorityOf(r.requirement.blocking));
    hide PathIsValid, IsPseudo, Explained, PlanFilesystem, PlanNetwork, PlanLibrary, PlanExecution, KindName, BACKEND;
  }

  lemma {:induction false} FilesystemActions(c: Config, r: Runtime, p: Priority)
    ensures var d := PlanFilesystem(c, r, p);
            && (d.action == CreateDirectory <==> PathIsValid(r.key.resource) && r.key.operation == "directory_exists")
            && (d.action == ProvideFile <==> PathIsValid(r.key.resource) && r.key.operation == "path_exists")
            && (d.action == AdjustPathAccess <==> PathIsValid(r.key.resource) && r.key.operation == "path_access")
            && (d.action == MakePathWritable <==> PathIsValid(r.key.resource) && r.key.operation == "path_writable")
            && (d.action == RepairPathLayout <==> PathIsValid(r.key.resource) && r.key.operation == "valid_path_layout")
            && d.action in {NoAction, CreateDirectory, ProvideFile, AdjustPathAccess, MakePathWritable, RepairPathLayout}
  {
    hide PathIsValid, IsPseudo, Explained, KindName, DIRECTORY, CONTENT, ACCESS, WRITABLE;
  }

  /** The actions on anything but the filesystem. */
  lemma {:induction false} OtherActions(c: Config, r: Runtime, p: Priority)
    ensures PlanNetwork(c, r, p).action ==
              match c.endpoint(r.key.resource)
              case None => NoAction
              case Some(e) => if e.transport == "tcp" then ConfigureTcpService else ConfigureUdpService
    ensures PlanLibrary(c, r, p).action ==
              if r.key.operation == "interpreter_available" then ProvideInterpreter else ResolveLibrary
    ensures PlanExecution(c, r, p).action ==
              if r.key.operation == "executable_available" then ProvideExecutable else NoAction
  {
    hide Explained, Copied, EndpointSettings, KindName, LIBRARY, EXECUTABLE;
  }

  /** Which services, libraries and files are asked for. */
  lemma {:induction false} ServiceTable(c: Config, r: Runtime)
    ensures var d, endpoint := PlanRequirement(c, r), c.endpoint(r.key.resource);
            && (d.action == ProvideDeviceBackend <==> Repairable(r) && r.key.kind == Device)
            && (d.action == ConfigureTcpService <==>
                  Repairable(r) && r.key.kind == Network && endpoint.Some? && endpoint.value.transport == "tcp")
            && (d.action == ConfigureUdpService <==>
                  Repairable(r) && r.key.kind == Network && endpoint.Some? && endpoint.value.transport != "tcp")
            && (d.action == ProvideInterpreter <==>
                  Repairable(r) && r.key.kind == Library && r.key.operation == "interpreter_available")
            && (d.action == ResolveLibrary <==>
                  Repairable(r) && r.key.kind == Library && r.key.operation != "interpreter_available")
            && (d.action == ProvideExecutable <==>
                  Repairable(r) && r.key.kind == Execution && r.key.operation == "executable_available")
  {
    FilesystemActions(c, r, PriorityOf(r.requirement.blocking));
    OtherActions(c, r, PriorityOf(r.requirement.blocking));
    hide PathIsValid, IsPseudo, Explained, PlanFilesystem, PlanNetwork, PlanLibrary, PlanExecution, KindName, BACKEND;
  }

  /** Who has to act: nobody on what is settled, the applier on what is automatic, the rest is reviewed or analysed by hand. */
  lemma {:induction false} DispositionTable(c: Config, r: Runtime)
    ensures var d := PlanRequirement(c, r);
            && (d.disposition == NotRequired <==> Settled(r))
            && (d.disposition == AutoCandidate <==> d.automatic)
            && (d.disposition == ReviewRequired <==>
                  || d.action in {ProvideFile, AdjustPathAccess, MakePathWritable, ConfigureTcpService, ConfigureUdpService,
                                  ResolveLibrary, ProvideInterpreter, ProvideExecutable}
                  || (d.action == CreateDirectory && !d.automatic && r.key.resource != "/" && !IsPseudo(r.key.resource)))
  {
    FilesystemDispositions(c, r, PriorityOf(r.requirement.blocking));
    OtherDispositions(c, r, PriorityOf(r.requirement.blocking));
    hide PathIsValid, IsPseudo, Explained, PlanFilesystem, PlanNetwork, PlanLibrary, PlanExecution, KindName, BACKEND;
  }

  lemma {:induction false} FilesystemDispositions(c: Config, r: Runtime, p: Priority)
    ensures var d := PlanFilesystem(c, r, p);
            && d.disposition != NotRequired && (d.disposition == AutoCandidate <==> d.automatic)
            && d.action in {NoAction, CreateDirectory, ProvideFile, AdjustPathAccess, MakePathWritable, RepairPathLayout}
            && (d.disposition == ReviewRequired <==>
                  || d.action in {ProvideFile, AdjustPathAccess, MakePathWritable}
                  || (d.action == CreateDirectory && !d.automatic && r.key.resource != "/" && !IsPseudo(r.key.resource)))
  {
    DirectoryDispositions(c, r, p);
    if PlanFilesystem(c, r, p) == PlanDirectory(c, r, p) {
      hide PlanFilesystem, PlanDirectory, IsPseudo;
    } else {
      PlainDispositions(c, r, p);
      hide PlanFilesystem, PlanDirectory, IsPseudo;
    }
  }

  lemma {:induction false} PlainDispositions(c: Config, r: Runtime, p: Priority)
    ensures var d := PlanFilesystem(c, r, p);
            d == PlanDirectory(c, r, p)
            || (!d.automatic && (d.action, d.disposition) in {(NoAction, ManualAnalysis), (RepairPathLayout, ManualAnalysis),
                                                               (ProvideFile, ReviewRequired), (AdjustPathAccess, ReviewRequired),
                                                               (MakePathWritable, ReviewRequired)})
  {
    hide PathIsValid, PlanDirectory, Explained, KindName, CONTENT, ACCESS, WRITABLE;
  }

  lemma {:induction false} DirectoryDispositions(c: Config, r: Runtime, p: Priority)
    ensures var d := PlanDirectory(c, r, p);
            && d.action == CreateDirectory && d.disposition != NotRequired && (d.disposition == AutoCandidate <==> d.automatic)
            && (d.disposition == ReviewRequired <==> !d.automatic && r.key.resource != "/" && !IsPseudo(r.key.resource))
  {
    hide IsPseudo, Explained, KindName, DIRECTORY;
  }

  lemma {:induction false} OtherDispositions(c: Config, r: Runtime, p: Priority)
    ensures forall d | d in {PlanNetwork(c, r, p), PlanLibrary(c, r, p), PlanExecution(c, r, p)} ::
              && !d.automatic
              && d.disposition == (if d.action == NoAction then ManualAnalysis else ReviewRequired)
              && d.action in {NoAction, ConfigureTcpService, ConfigureUdpService, ResolveLibrary, ProvideInterpreter,
                              ProvideExecutable}
  {
    hide Explained, Copied, EndpointSettings, KindName, LIBRARY, EXECUTABLE;
  }

  predicate Says(parameters: map<string, Json>, key: string, value: Json) {
    key in parameters && parameters[key] == value
  }

  /** Directories are made with mode 0755 and their parents, no decision claims that an empty file would do, and a service
   * is asked for at the endpoint the requirement names. */
  predicate Parametrized(d: RepairDecision, endpoint: Option<Endpoint>) {
    && (d.action == CreateDirectory ==>
          Says(d.parameters, "mode", JStr("0755")) && Says(d.parameters, "parents", JBool(true)))
    && (d.action == ProvideFile ==> Says(d.parameters, "create_empty", JBool(false)))
    && (d.action in {ConfigureTcpService, ConfigureUdpService} ==>
          && endpoint.Some? && Says(d.parameters, "transport", JStr(endpoint.value.transport))
          && Says(d.parameters, "remote_ip", JStr(endpoint.value.host))
          && Says(d.parameters, "remote_port", JNum(endpoint.value.port)))
  }

  lemma {:induction false} ParametersSay(c: Config, r: Runtime)
    ensures Parametrized(PlanRequirement(c, r), c.endpoint(r.key.resource))
  {
    var d := PlanRequirement(c, r);
    if d.action in {NoAction, ProvideDeviceBackend} {
      hide Says;
    } else {
      FileParameters(c, r, PriorityOf(r.requirement.blocking));
      OtherParameters(c, r, PriorityOf(r.requirement.blocking));
      hide PathIsValid, IsPseudo, Explained, PlanFilesystem, PlanNetwork, PlanLibrary, PlanExecution, KindName, BACKEND,
           Parametrized;
    }
  }

  lemma {:induction false} FileParameters(c: Config, r: Runtime, p: Priority)
    ensures Parametrized(PlanFilesystem(c, r, p), c.endpoint(r.key.resource))
  {
    var d := PlanFilesystem(c, r, p);
    FilesystemActions(c, r, p);
    if d.action == ProvideFile {
      ContentSays();
      ContentMeant(c, r, p);
      hide PlanFilesystem, Says;
    } else if d.action == CreateDirectory {
      DirectoryParameters(c, r, p);
      hide PlanDirectory, Says, PathIsValid;
    } else {
      hide PlanFilesystem, Says;
    }
  }

  lemma {:induction false} ContentMeant(c: Config, r: Runtime, p: Priority)
    ensures PlanFilesystem(c, r, p).action == ProvideFile ==> PlanFilesystem(c, r, p).parameters == CONTENT
  {
    hide PathIsValid, IsPseudo, Explained, KindName, DIRECTORY, CONTENT, ACCESS, WRITABLE;
  }

  lemma {:induction false} DirectoryParameters(c: Config, r: Runtime, p: Priority)
    ensures var d := PlanDirectory(c, r, p);
            && d.action == CreateDirectory
            && Says(d.parameters, "mode", JStr("0755")) && Says(d.parameters, "parents", JBool(true))
  {
    hide IsPseudo, Explained, KindName;
  }

  lemma {:induction false} OtherParameters(c: Config, r: Runtime, p: Priority)
    ensures forall d | d in {PlanNetwork(c, r, p), PlanLibrary(c, r, p), PlanExecution(c, r, p)} ::
              Parametrized(d, c.endpoint(r.key.resource))
  {
    OtherActions(c, r, p);
    ServiceParameters(c, r, p);
    hide PlanNetwork, PlanLibrary, PlanExecution, Says;
  }

  lemma {:induction false} ContentSays()
    ensures Says(CONTENT, "create_empty", JBool(false))
  {
  }

  lemma {:induction false} ServiceParameters(c: Config, r: Runtime, p: Priority)
    ensures Parametrized(PlanNetwork(c, r, p), c.endpoint(r.key.resource))
  {
    hide Explained, KindName;
  }

  /** How risky a decision is: nothing to do or one more directory is a low risk, bytes and services of known shape a
   * medium one, everything else a high one. */
  lemma {:induction false} RiskTable(c: Config, r: Runtime)
    ensures var d := PlanRequirement(c, r);
            && (d.risk == LowRisk <==>
                  Settled(r) || (Asks(r, "directory_exists") && r.key.resource != "/" && !IsPseudo(r.key.resource)))
            && (d.risk == MediumRisk <==>
                  d.action in {ProvideFile, MakePathWritable, ConfigureTcpService, ConfigureUdpService, ResolveLibrary,
                               ProvideInterpreter})
  {
    FilesystemRisks(c, r, PriorityOf(r.requirement.blocking));
    OtherRisks(c, r, PriorityOf(r.requirement.blocking));
    hide PathIsValid, IsPseudo, Explained, PlanFilesystem, PlanNetwork, PlanLibrary, PlanExecution, KindName, BACKEND;
  }

  lemma {:induction false} FilesystemRisks(c: Config, r: Runtime, p: Priority)
    ensures var d := PlanFilesystem(c, r, p);
            && d.action in {NoAction, CreateDirectory, ProvideFile, AdjustPathAccess, MakePathWritable, RepairPathLayout}
            && (d.risk == LowRisk <==> PathIsValid(r.key.resource) && r.key.operation == "directory_exists"
                                         && r.key.resource != "/" && !IsPseudo(r.key.resource))
            && (d.risk == MediumRisk <==> d.action in {ProvideFile, MakePathWritable})
  {
    FilesystemActions(c, r, p);
    if PlanFilesystem(c, r, p).action == CreateDirectory {
      DirectoryRisks(c, r, p);
      DirectoryPlanned(c, r, p);
      hide PlanFilesystem, PlanDirectory, IsPseudo, PathIsValid;
    } else {
      PlainRisks(c, r, p);
      hide PlanFilesystem, IsPseudo, PathIsValid;
    }
  }

  lemma {:induction false} DirectoryPlanned(c: Config, r: Runtime, p: Priority)
    ensures PathIsValid(r.key.resource) && r.key.operation == "directory_exists" ==>
              PlanFilesystem(c, r, p) == PlanDirectory(c, r, p)
  {
    hide PathIsValid, PlanDirectory, Explained, KindName;
  }

  lemma {:induction false} PlainRisks(c: Config, r: Runtime, p: Priority)
    ensures var d := PlanFilesystem(c, r, p);
            d == PlanDirectory(c, r, p)
            || (d.action, d.risk) in {(NoAction, HighRisk), (RepairPathLayout, HighRisk), (ProvideFile, MediumRisk),
                                       (AdjustPathAccess, HighRisk), (MakePathWritable, MediumRisk)}
    ensures PlanDirectory(c, r, p).action == CreateDirectory
  {
    DirectoryParameters(c, r, p);
    hide PathIsValid, PlanDirectory, Explained, KindName, CONTENT, ACCESS, WRITABLE, Says;
  }

  lemma {:induction false} DirectoryRisks(c: Config, r: Runtime, p: Priority)
    ensures var d := PlanDirectory(c, r, p);
            && d.action == CreateDirectory
            && d.risk == if r.key.resource == "/" || IsPseudo(r.key.resource) then HighRisk else LowRisk
  {
    hide IsPseudo, Explained, KindName, DIRECTORY;
  }

  lemma {:induction false} OtherRisks(c: Config, r: Runtime, p: Priority)
    ensures forall d | d in {PlanNetwork(c, r, p), PlanLibrary(c, r, p), PlanExecution(c, r, p)} ::
              && d.action in {NoAction, ConfigureTcpService, ConfigureUdpService, ResolveLibrary, ProvideInterpreter,
                              ProvideExecutable}
              && d.risk == if d.action in {NoAction, ProvideExecutable} then HighRisk else MediumRisk
  {
    hide Explained, Copied, EndpointSettings, KindName, LIBRARY, EXECUTABLE;
  }

  const PSEUDO: seq<string> := ["proc", "sys", "dev"]

  /** The prefixes are compared as text: an automatic directory lies in a pseudo filesystem exactly when its text is that
   * of a path there behind one more slash. */
  lemma {:induction false} PseudoByTwoSlashes(c: Config, r: Runtime, i: nat)
    requires PlanRequirement(c, r).automatic && i < |PSEUDO|
    ensures var parts, path := PosixPath.Components(r.key.resource), r.key.resource;
            parts != [] && parts[0] == PSEUDO[i] <==> "//" <= path && Below(path[1..], "/" + PSEUDO[i])
  {
    AuthorizedExactly(c, r);
    var parts, path := PosixPath.Components(r.key.resource), r.key.resource;
    hide PlanRequirement, PathIsValid, Below, PosixPath.Components, StripSlashes;
    assert DENIED[i] == "/" + PSEUDO[i];
    if parts != [] && parts[0] == PSEUDO[i] {
      PseudoText(path, PSEUDO[i]);
      if PosixPath.Root(path) == "/" {
        DeniedIsPseudo(path, DENIED[i]);
      }
    }
    if "//" <= path && Below(path[1..], "/" + PSEUDO[i]) {
      PseudoFirst(path, PSEUDO[i]);
    }
  }

  /** A normalized text whose first component is name is name behind its root. */
  lemma {:induction false} PseudoText(path: string, name: string)
    requires PathIsValid(path) && path != "/" && PosixPath.Components(path) != [] && PosixPath.Components(path)[0] == name
    ensures PosixPath.Root(path) == "/" ==> Below(StripSlashes(path), "/" + name)
    ensures PosixPath.Root(path) == "//" ==> "//" <= path && Below(path[1..], "/" + name)
    ensures PosixPath.Root(path) in {"/", "//"}
  {
    hide PathIsValid, PosixPath.Root, PosixPath.Components, PosixPath.Join, StripSlashes, Below;
    NormalText(path);
    var text := "/" + PosixPath.Join(PosixPath.Components(path));
    JoinedBelow(PosixPath.Components(path), name);
    if PosixPath.Root(path) == "//" {
      assert StripSlashes(path) == "/" + text;
      BehindSlash(path, text);
      StillBelow(path[1..], text, "/" + name);
    } else {
      assert StripSlashes(path) == text;
    }
  }

  lemma {:induction false} BehindSlash(path: string, text: string)
    requires StripSlashes(path) == "/" + text
    ensures path != "" && text <= path[1..] && forall k | |text| <= k < |path[1..]| :: path[1..][k] == '/'
  {
    hide StripSlashes;
    StripIsPrefix(path);
  }

  lemma {:induction false} NormalText(path: string)
    requires PathIsValid(path) && path != "/" && PosixPath.Components(path) != []
    ensures PosixPath.Root(path) in {"/", "//"} && (PosixPath.Root(path) == "//" ==> "//" <= path)
    ensures StripSlashes(path) == PosixPath.Root(path) + PosixPath.Join(PosixPath.Components(path))
  {
    hide PosixPath.Components, PosixPath.Join, StripSlashes;
  }

  lemma {:induction false} StillBelow(s: string, t: string, prefix: string)
    requires t <= s && Below(t, prefix) && forall k | |t| <= k < |s| :: s[k] == '/'
    ensures Below(s, prefix)
  {
    if t == prefix && s != prefix {
      assert s[|prefix|] == '/';
      assert s[..|prefix| + 1] == prefix + "/";
    }
  }

  lemma {:induction false} PseudoFirst(path: string, name: string)
    requires "//" <= path && Below(path[1..], "/" + name) && '/' !in name && name != "" && name != "."
    ensures PosixPath.Components(path) != [] && PosixPath.Components(path)[0] == name
  {
    var rest := path[2 + |name|..];
    assert path[2..] == name + rest;
    SplitName(name, rest);
    SplitSlash(path[2..]);
    SplitSlash(path[1..]);
    assert path == ['/'] + path[1..] && path[1..] == ['/'] + path[2..];
    NamedPiece("", PosixPath.Split(path[1..]));
    NamedPiece("", PosixPath.Split(path[2..]));
    NamedPiece(name, PosixPath.Split(path[2..])[1..]);
    assert PosixPath.Split(path[2..]) == [name] + PosixPath.Split(path[2..])[1..];
  }

  lemma {:induction false} SplitName(name: string, rest: string)
    requires '/' !in name && (rest == "" || rest[0] == '/')
    ensures PosixPath.Split(name + rest)[0] == name
  {
    if name == "" {
      assert name + rest == rest;
    } else {
      SplitName(name[1..], rest);
      assert (name + rest)[1..] == name[1..] + rest;
    }
  }

  lemma {:induction false} JoinedBelow(parts: seq<string>, first: string)
    requires parts != [] && parts[0] == first
    ensures Below("/" + PosixPath.Join(parts), "/" + first)
  {
    var text := "/" + PosixPath.Join(parts);
    if |parts| > 1 {
      assert text == ("/" + first) + "/" + PosixPath.Join(parts[1..]);
    }
  }

  /** An input: the planner takes this for a directory beside the pseudo filesystems, and the applier makes proc/x. */
  lemma {:induction false} TwoSlashesPass()
    ensures PathIsValid("//proc/x") && !IsPseudo("//proc/x") && PosixPath.Components("//proc/x") == ["proc", "x"]
  {
    TwoSlashesSplit();
    TwoSlashesNamed();
    hide PosixPath.Split, PosixPath.Named, PosixPath.Join;
    var path := "//proc/x";
    assert PosixPath.Components(path) == ["proc", "x"];
    assert path[0] == path[1] == '/' && path[2] == 'p' && path[7] == 'x';
    assert PosixPath.Root(path) == "//" && PosixPath.AsPosix(path) == "//" + "proc/x";
    assert StripSlashes(path) == path;
    forall i | 0 <= i < |DENIED| ensures !Below(path, DENIED[i]) {
      assert DENIED[i][1] != '/';
    }
  }

  lemma {:induction false} TwoSlashesSplit()
    ensures PosixPath.Split("//proc/x") == ["", "", "proc", "x"]
  {
    hide PosixPath.Split;
    SplitLetter('x', "");
    SplitSlash("x");
    SplitLetter('c', "/x");
    SplitLetter('o', "c/x");
    SplitLetter('r', "oc/x");
    SplitLetter('p', "roc/x");
    SplitSlash("proc/x");
    SplitSlash("/proc/x");
    SplitNothing();
    assert ['x'] + "" == "x" && ['/'] + "x" == "/x" && ['c'] + "/x" == "c/x" && ['o'] + "c/x" == "oc/x";
    assert ['r'] + "oc/x" == "roc/x" && ['p'] + "roc/x" == "proc/x";
    assert ['/'] + "proc/x" == "/proc/x" && ['/'] + "/proc/x" == "//proc/x";
    assert ['c'] + "" == "c" && ['o'] + "c" == "oc" && ['r'] + "oc" == "roc" && ['p'] + "roc" == "proc";
    assert PosixPath.Split("x") == ["x"] && PosixPath.Split("/x") == ["", "x"] && PosixPath.Split("c/x") == ["c", "x"];
    assert PosixPath.Split("oc/x") == ["oc", "x"] && PosixPath.Split("roc/x") == ["roc", "x"];
    assert PosixPath.Split("proc/x") == ["proc", "x"];
  }

  lemma {:induction false} SplitNothing()
    ensures PosixPath.Split("") == [""]
  {
  }

  lemma {:induction false} SplitSlash(rest: string)
    ensures PosixPath.Split(['/'] + rest) == [""] + PosixPath.Split(rest)
  {
    assert (['/'] + rest)[1..] == rest;
  }

  lemma {:induction false} SplitLetter(c: char, rest: string)
    requires c != '/'
    ensures PosixPath.Split([c] + rest) == [[c] + PosixPath.Split(rest)[0]] + PosixPath.Split(rest)[1..]
  {
    assert ([c] + rest)[1..] == rest;
  }

  lemma {:induction false} TwoSlashesNamed()
    ensures PosixPath.Named(["", "", "proc", "x"]) == ["proc", "x"]
    ensures PosixPath.Join(["proc", "x"]) == "proc/x"
  {
    hide PosixPath.Named;
    NamedPiece("", ["", "proc", "x"]);
    NamedPiece("", ["proc", "x"]);
    NamedPiece("proc", ["x"]);
    NamedPiece("x", []);
    NoPieces();
    assert [""] + ["", "proc", "x"] == ["", "", "proc", "x"] && [""] + ["proc", "x"] == ["", "proc", "x"];
    assert ["proc"] + ["x"] == ["proc", "x"] && ["x"] + [] == ["x"] && ["proc", "x"][1..] == ["x"];
    assert "proc" + "/" + "x" == "proc/x";
  }

  lemma {:induction false} NoPieces()
    ensures PosixPath.Named([]) == []
  {
  }

  lemma {:induction false} NamedPiece(piece: string, rest: seq<string>)
    ensures PosixPath.Named([piece] + rest) == (if piece == "" || piece == "." then [] else [piece]) + PosixPath.Named(rest)
  {
    assert ([piece] + rest)[1..] == rest;
  }

  /** Whatever the resource text, a decision the planner authorizes has the shape the applier asks for: only the
   * rootfs can refuse it. */
  lemma {:induction false} AuthorizedIsApplicable(c: Config, r: Runtime)
    requires PlanRequirement(c, r).automatic
    ensures Shape(ToApplier(PlanRequirement(c, r))) == Ok((PosixPath.Components(r.key.resource), 493))
  {
    AuthorizedExactly(c, r);
    var d := PlanRequirement(c, r);
    var path := r.key.resource;
    forall i | 0 <= i < |DENIED| ensures !Below(PosixPath.AsPosix(path), DENIED[i]) {
      if Below(PosixPath.AsPosix(path), DENIED[i]) {
        DeniedIsPseudo(path, DENIED[i]);
      }
    }
    assert !Denied(PosixPath.AsPosix(path));
    ModeParses();
    DirectoryShape(d);
  }

  lemma {:induction false} ModeParses()
    ensures ParseMode(Some("0755")) == Ok(493)
  {
    var digits := "0755"[1..];
    assert digits == "755";
  }

  lemma {:induction false} DirectoryShape(d: RepairDecision)
    requires d.parameters == DIRECTORY
    ensures ToApplier(d).parents && ToApplier(d).mode == Some("0755")
  {
    assert "mode"[0] != "parents"[0];
  }

  // ----- whole plans -----

  /** The order decisions are listed in. */
  predicate Precedes(a: RepairDecision, b: RepairDecision) {
    if a.priority != b.priority then Rank(a.priority) < Rank(b.priority)
    else if a.kind != b.kind then PathOrder.Less(a.kind, b.kind)
    else if a.resource != b.resource then PathOrder.Less(a.resource, b.resource)
    else if a.operation != b.operation then PathOrder.Less(a.operation, b.operation)
    else PathOrder.AtMost(a.id, b.id)
  }

  function Rank(p: Priority): nat {
    match p
    case Critical => 0
    case High => 1
    case Normal => 2
    case Low => 3
  }

  function Planned(c: Config, report: seq<Runtime>): (r: seq<RepairDecision>)
    ensures |r| == |report|
  {
    seq(|report|, i requires 0 <= i < |report| => PlanRequirement(c, report[i]))
  }

  /** plan: a decision for every requirement, in listing order. */
  method MakePlan(c: Config, report: seq<Runtime>) returns (decisions: seq<RepairDecision>)
    ensures multiset(decisions) == multiset(Planned(c, report))
    ensures forall i | 0 < i < |decisions| :: Precedes(decisions[i - 1], decisions[i])
  {
    hide Precedes, PlanRequirement;
    decisions := [];
    for n := 0 to |report|
      invariant multiset(decisions) == multiset(Planned(c, report)[..n])
      invariant forall i | 0 < i < |decisions| :: Precedes(decisions[i - 1], decisions[i])
    {
      assert Planned(c, report)[..n + 1] == Planned(c, report)[..n] + [PlanRequirement(c, report[n])];
      decisions := InsertDecision(decisions, PlanRequirement(c, report[n]));
    }
    assert Planned(c, report)[..|report|] == Planned(c, report);
  }

  method InsertDecision(ds: seq<RepairDecision>, d: RepairDecision) returns (r: seq<RepairDecision>)
    requires forall i | 0 < i < |ds| :: Precedes(ds[i - 1], ds[i])
    ensures multiset(r) == multiset(ds) + multiset{d}
    ensures forall i | 0 < i < |r| :: Precedes(r[i - 1], r[i])
  {
    hide Precedes;
    var at := 0;
    while at < |ds| && Precedes(ds[at], d)
      invariant 0 <= at <= |ds|
      invariant at > 0 ==> Precedes(ds[at - 1], d)
    {
      at := at + 1;
    }
    if at < |ds| {
      PrecedesTotal(ds[at], d);
    }
    StaysListed(ds, d, at);
    r := ds[..at] + [d] + ds[at..];
  }

  lemma {:induction false} StaysListed(ds: seq<RepairDecision>, d: RepairDecision, at: nat)
    requires forall i | 0 < i < |ds| :: Precedes(ds[i - 1], ds[i])
    requires at <= |ds| && (at > 0 ==> Precedes(ds[at - 1], d)) && (at < |ds| ==> Precedes(d, ds[at]))
    ensures forall i | 0 < i < |ds| + 1 :: Precedes((ds[..at] + [d] + ds[at..])[i - 1], (ds[..at] + [d] + ds[at..])[i])
    ensures multiset(ds[..at] + [d] + ds[at..]) == multiset(ds) + multiset{d}
  {
    hide Precedes;
    assert ds == ds[..at] + ds[at..];
    forall i | 0 < i < |ds| + 1 ensures Precedes((ds[..at] + [d] + ds[at..])[i - 1], (ds[..at] + [d] + ds[at..])[i]) {
      InsertedAt(ds, d, at, i - 1);
      InsertedAt(ds, d, at, i);
    }
  }

  lemma {:induction false} InsertedAt(ds: seq<RepairDecision>, d: RepairDecision, at: nat, i: nat)
    requires at <= |ds| && i <= |ds|
    ensures (ds[..at] + [d] + ds[at..])[i] == if i < at then ds[i] else if i == at then d else ds[i - 1]
  {
  }

  lemma {:induction false} PrecedesTotal(a: RepairDecision, b: RepairDecision)
    ensures Precedes(a, b) || Precedes(b, a)
  {
    PathOrder.LessTotal(a.kind, b.kind);
    PathOrder.LessTotal(a.resource, b.resource);
    PathOrder.LessTotal(a.operation, b.operation);
    PathOrder.LessTotal(a.id, b.id);
  }

  /** No decision id is empty, and decisions about different requirements get different ids. */
  ghost predicate SoundIds(makeId: IdMaker) {
    && (forall r, a, d, p :: makeId(r, a, d, p) != "")
    && (forall r1, a1, d1, p1, r2, a2, d2, p2 | makeId(r1, a1, d1, p1) == makeId(r2, a2, d2, p2) :: r1 == r2)
  }

  /** A report whose requirements are named and have distinct ids. */
  predicate ReportIsValid(report: seq<Runtime>) {
    && (forall i | 0 <= i < |report| :: report[i].id != "" && report[i].key.resource != "" && report[i].key.operation != "")
    && (forall i, j | 0 <= i < j < |report| :: report[i].id != report[j].id)
  }

  /** A decision about this requirement that fits together. */
  predicate Fits(c: Config, r: Runtime, d: RepairDecision) {
    && d.requirementId == r.id && d.kind == KindName(r.key.kind) && d.resource == r.key.resource
      && d.operation == r.key.operation
    && d.reason != "" && "" !in d.parameters && Consistent(d, c.makeId)
  }

  lemma {:induction false} DecidedFits(c: Config, r: Runtime)
    ensures forall a: Action, d, p, k, g, s: Settings :: Fits(c, r, Decided(c, r, a, d, p, k, false, g, s))
    ensures forall p, k, g, s: Settings :: Fits(c, r, Decided(c, r, CreateDirectory, AutoCandidate, p, k, true, g, s))
  {
    hide Explained, KindName;
  }

  lemma {:induction false} PlannedFits(c: Config, r: Runtime)
    ensures Fits(c, r, PlanRequirement(c, r))
  {
    DecidedFits(c, r);
    hide Fits, Decided, PathIsValid, IsPseudo, Copied, EndpointSettings, DIRECTORY, CONTENT, ACCESS, WRITABLE, BACKEND, LIBRARY,
         EXECUTABLE;
    var p := PriorityOf(r.requirement.blocking);
    assert Fits(c, r, PlanFilesystem(c, r, p));
    assert Fits(c, r, PlanNetwork(c, r, p));
    assert Fits(c, r, PlanLibrary(c, r, p)) && Fits(c, r, PlanExecution(c, r, p));
  }

  lemma {:induction false} KindNamed(k: Kind)
    ensures KindName(k) != ""
  {
  }

  /** The plan of any such report is written and read back exactly as it was made. */
  lemma {:induction false} PlanReadsBack(c: Config, report: seq<Runtime>, p: Plan)
    requires ReportIsValid(report) && SoundIds(c.makeId) && PlanWritten(p)
    requires multiset(p.decisions) == multiset(Planned(c, report))
    ensures PlanFromJson(PlanToJson(p), c.makeId) == Some(p)
  {
    hide *;
    PlanRoundTrip(p, c.makeId);
    PlannedReadable(c, report);
    PlannedDistinct(c, report);
    ReadableAnyOrder(p.decisions, Planned(c, report), c.makeId);
    DistinctAnyOrder(p.decisions, Planned(c, report));
  }

  /** What the applier is given of a plan. */
  function Requested(decisions: seq<RepairDecision>): seq<Request> {
    Requests(seq(|decisions|, i requires 0 <= i < |decisions| => ToApplier(decisions[i])))
  }

  /** Preflight refuses a plan only for what stands, or cannot be inspected, on the way to one of its automatic directories. */
  lemma {:induction false} OnlyTheRootfsRefuses(
    c: Config, report: seq<Runtime>, decisions: seq<RepairDecision>, nodes: Rootfs.Nodes, inspects: Rootfs.Path -> bool)
    requires multiset(decisions) == multiset(Planned(c, report))
    ensures Ready(nodes, Requested(decisions), inspects) <==>
              forall i | 0 <= i < |report| && PlanRequirement(c, report[i]).automatic ::
                Open(nodes, PosixPath.Components(report[i].key.resource), inspects)
  {
    var requests := Requested(decisions);
    ReadyExactly(nodes, requests, inspects);
    hide PlanRequirement, Open, Shape, Ready;
    forall i | 0 <= i < |decisions| && decisions[i].automatic
      ensures requests[i].shape == Ok((PosixPath.Components(decisions[i].resource), 493))
    {
      assert decisions[i] in multiset(Planned(c, report));
      AuthorizedAt(c, report, decisions[i]);
    }
    forall i | 0 <= i < |report| && PlanRequirement(c, report[i]).automatic
      ensures exists j :: 0 <= j < |decisions| && decisions[j].automatic && decisions[j].resource == report[i].key.resource
    {
      assert Planned(c, report)[i] in multiset(decisions);
      AboutIt(c, report[i]);
    }
    forall j | 0 <= j < |decisions| && decisions[j].automatic
      ensures exists i :: 0 <= i < |report| && PlanRequirement(c, report[i]).automatic
                          && decisions[j].resource == report[i].key.resource
    {
      assert decisions[j] in multiset(Planned(c, report));
      var i :| 0 <= i < |report| && Planned(c, report)[i] == decisions[j];
      AboutIt(c, report[i]);
    }
  }

  lemma {:induction false} AboutIt(c: Config, r: Runtime)
    ensures PlanRequirement(c, r).resource == r.key.resource
  {
    PlannedFits(c, r);
  }

  lemma {:induction false} AuthorizedAt(c: Config, report: seq<Runtime>, d: RepairDecision)
    requires d in Planned(c, report) && d.automatic
    ensures Shape(ToApplier(d)) == Ok((PosixPath.Components(d.resource), 493))
  {
    hide PlanRequirement, Shape;
    var i :| 0 <= i < |report| && Planned(c, report)[i] == d;
    AuthorizedIsApplicable(c, report[i]);
    AboutIt(c, report[i]);
  }

  lemma {:induction false} PlannedReadable(c: Config, report: seq<Runtime>)
    requires ReportIsValid(report) && SoundIds(c.makeId)
    ensures AllReadable(Planned(c, report), c.makeId)
  {
    hide PlanRequirement, Consistent, KindName;
    forall i | 0 <= i < |report| ensures Written(PlanRequirement(c, report[i]))
      && Consistent(PlanRequirement(c, report[i]), c.makeId) {
      PlannedFits(c, report[i]);
      KindNamed(report[i].key.kind);
      NamedId(c, PlanRequirement(c, report[i]));
    }
  }

  lemma {:induction false} NamedId(c: Config, d: RepairDecision)
    requires Consistent(d, c.makeId) && SoundIds(c.makeId)
    ensures d.id != ""
  {
  }

  lemma {:induction false} PlannedDistinct(c: Config, report: seq<Runtime>)
    requires ReportIsValid(report) && SoundIds(c.makeId)
    ensures DistinctDecisions(Planned(c, report))
  {
    hide PlanRequirement;
    forall i, j | 0 <= i < j < |report|
      ensures PlanRequirement(c, report[i]).id != PlanRequirement(c, report[j]).id
      ensures PlanRequirement(c, report[i]).requirementId != PlanRequirement(c, report[j]).requirementId
    {
      PlannedFits(c, report[i]);
      PlannedFits(c, report[j]);
      assert report[i].id != report[j].id;
    }
  }

  lemma {:induction false} ReadableAnyOrder(ds: seq<RepairDecision>, was: seq<RepairDecision>, makeId: IdMaker)
    requires multiset(ds) == multiset(was) && AllReadable(was, makeId)
    ensures AllReadable(ds, makeId)
  {
    hide Written, Consistent;
    forall i | 0 <= i < |ds| ensures Written(ds[i]) && Consistent(ds[i], makeId) {
      assert ds[i] in multiset(was);
    }
  }

  lemma {:induction false} DistinctAnyOrder(ds: seq<RepairDecision>, was: seq<RepairDecision>)
    requires multiset(ds) == multiset(was) && DistinctDecisions(was)
    ensures DistinctDecisions(ds)
  {
    forall i, j | 0 <= i < j < |ds| ensures ds[i].id != ds[j].id && ds[i].requirementId != ds[j].requirementId {
      Twice(ds, i, j);
      OnlyOnce(was, ds[i]);
      assert ds[i] in multiset(was) && ds[j] in multiset(was);
      OnePlace(was, ds[i], ds[j]);
    }
  }

  lemma {:induction false} Twice(ds: seq<RepairDecision>, i: nat, j: nat)
    requires i < j < |ds|
    ensures ds[i] == ds[j] ==> multiset(ds)[ds[i]] >= 2
  {
    assert ds == ds[..j] + [ds[j]] + ds[j + 1..];
    assert ds[..j][i] == ds[i];
  }

  lemma {:induction false} OnlyOnce(ds: seq<RepairDecision>, d: RepairDecision)
    requires DistinctDecisions(ds)
    ensures multiset(ds)[d] <= 1
  {
    if ds != [] {
      var n := |ds| - 1;
      OnlyOnce(ds[..n], d);
      assert ds == ds[..n] + [ds[n]];
      assert ds[n] !in ds[..n];
    }
  }

  lemma {:induction false} OnePlace(ds: seq<RepairDecision>, d: RepairDecision, e: RepairDecision)
    requires DistinctDecisions(ds) && d in ds && e in ds
    ensures d.id == e.id || d.requirementId == e.requirementId ==> d == e
  {
  }
}
