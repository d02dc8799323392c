/** The recording relay: two pumps and a timeout monitor, interleaved at their awaits. */
module RecordBroker {
  import opened Bytes

  // ----- one direction -----

  /** hashed is what has been fed to the digest, recorded the aggregate file, sent what the destination was given. */
  datatype Direction = Direction(limit: nat, total: nat, chunks: seq<seq<byte>>, hashed: seq<byte>, recorded: seq<byte>,
      sent: seq<byte>)

  function Concat(chunks: seq<seq<byte>>): seq<byte> {
    if chunks == [] then [] else Concat(chunks[..|chunks| - 1]) + chunks[|chunks| - 1]
  }

  /** What was recorded, chunk by chunk and as a whole, hashed, counted and passed on is one stream, within its limit. */
  predicate Faithful(d: Direction) {
    && d.recorded == Concat(d.chunks) == d.hashed == d.sent
    && |d.recorded| == d.total <= d.limit
    && forall i | 0 <= i < |d.chunks| :: d.chunks[i] != []
  }

  datatype PumpStep = Eof | OverLimit | Passed(after: Direction)

  /** One read of a pump: end of stream, a chunk that would exceed the limit, or a chunk recorded and passed on. */
  function Absorb(d: Direction, data: seq<byte>): PumpStep {
    if data == [] then Eof
    else if d.total + |data| > d.limit then OverLimit
    else
      Passed(Direction(d.limit, d.total + |data|, d.chunks + [data], d.hashed + data, d.recorded + data, d.sent + data))
  }

  lemma {:induction false} AbsorbFaithful(d: Direction, data: seq<byte>)
    requires Faithful(d) && Absorb(d, data).Passed?
    ensures var after := Absorb(d, data).after;
            && Faithful(after) && after.limit == d.limit && after.recorded == d.recorded + data
              && |after.chunks| == |d.chunks| + 1
  {
    var chunks := d.chunks + [data];
    assert chunks[..|chunks| - 1] == d.chunks;
  }

  class DirectionState {
    const limit: nat
    var total: nat
    var chunks: nat
    var hashed: seq<byte>
    var aggregate: seq<byte>
    var files: seq<seq<byte>>
    var destination: seq<byte>

    constructor (limit: nat)
      ensures Contents() == Direction(limit, 0, [], [], [], []) && chunks == 0
    {
      this.limit := limit;
      total, chunks, hashed, aggregate, files, destination := 0, 0, [], [], [], [];
    }

    function Contents(): Direction
      reads this
    {
      Direction(limit, total, files, hashed, aggregate, destination)
    }

    /** The body of the pump's loop from one await to the next. */
    method Pump(data: seq<byte>) returns (step: PumpStep)
      requires chunks == |files|
      modifies this
      ensures step == Absorb(old(Contents()), data)
      ensures Contents() == if step.Passed? then step.after else old(Contents())
      ensures chunks == |files|
      ensures old(Faithful(Contents())) ==> Faithful(Contents())
      ensures old(Faithful(Contents())) ==>
                && (step.Eof? <==> data == [])
                && (step.OverLimit? <==> data != [] && |old(aggregate)| + |data| > limit)
                && (step.Passed? <==> data != [] && |old(aggregate)| + |data| <= limit)
      ensures aggregate == old(aggregate) + if step.Passed? then data else []
      ensures destination == old(destination) + if step.Passed? then data else []
      ensures files == old(files) + if step.Passed? then [data] else []
      ensures chunks == old(chunks) + if step.Passed? then 1 else 0
    {
      if data == [] {
        return Eof;
      }
      if total + |data| > limit {
        return OverLimit;
      }
      if Faithful(Contents()) {
        AbsorbFaithful(Contents(), data);
      }
      total := total + |data|;
      chunks := chunks + 1;
      hashed := hashed + data;
      aggregate := aggregate + data;
      files := files + [data];
      destination := destination + data;
      step := Passed(Contents());
    }
  }

  // ----- connections -----

  class Broker {
    const maxConnections: nat
    var accepted: nat
    var active: set<nat>

    constructor (maxConnections: nat)
      ensures Valid() && this.maxConnections == maxConnections && accepted == 0 && active == {}
    {
      this.maxConnections := maxConnections;
      accepted, active := 0, {};
    }

    /** Connections are counted over the broker's whole life; the active sessions are among them. */
    ghost predicate Valid()
      reads this
    {
      |active| <= accepted <= maxConnections
    }

    method AcceptClient(task: nat) returns (ok: bool)
      requires Valid() && task !in active
      modifies this
      ensures Valid()
      ensures ok <==> old(accepted) < maxConnections
      ensures accepted == old(accepted) + (if ok then 1 else 0)
      ensures active == if ok then old(active) + {task} else old(active)
    {
      if accepted >= maxConnections {
        return false;
      }
      accepted := accepted + 1;
      active := active + {task};
      ok := true;
    }

    /** The end of a session frees no connection. */
    method Finish(task: nat)
      requires Valid()
      modifies this`active
      ensures Valid() && active == old(active) - {task}
    {
      assert active == (active - {task}) + (active * {task});
      active := active - {task};
    }
  }

  // ----- one connected session -----

  datatype Task = C2s | S2c | Monitor

  datatype Ending = PumpEof | PumpLimit | PumpError | Fired(reason: CloseReason) | Cancelled

  datatype TaskState = Running | Done(how: Ending)

  datatype CloseReason =
    | Unknown | SessionTimeout | IdleTimeout | LimitExceeded(task: Task) | RelayError | UpstreamClosed | ClientClosed | Completed

  /** waiting is the handler's set tasks; batch is what its last wait returned and it has not looked at, pending
   * what that wait left. */
  datatype Session = Session(
    client: Direction, server: Direction, c2s: TaskState, s2c: TaskState, monitor: TaskState,
    waiting: set<Task>, pending: set<Task>, batch: seq<Task>, halfClosed: bool, reason: CloseReason)

  datatype Event =
    | Read(task: Task, data: seq<byte>)   // a pump's read comes back, and its drain after it
    | PumpFails(task: Task)               // a read, a drain or a write raises
    | MonitorFires(reason: CloseReason)
    | Wakes(done: seq<Task>)              // asyncio.wait returns, its set taken in this order
    | Handles                             // the handler looks at the next finished task

  function Connected(clientLimit: nat, serverLimit: nat): Session {
    Session(Direction(clientLimit, 0, [], [], [], []), Direction(serverLimit, 0, [], [], [], []), Running, Running, Running,
            {C2s, S2c, Monitor}, {}, [], false, Unknown)
  }

  function StateOf(s: Session, t: Task): TaskState {
    match t
    case C2s => s.c2s
    case S2c => s.s2c
    case Monitor => s.monitor
  }

  function EndTask(s: Session, t: Task, how: Ending): (r: Session)
    ensures r.client == s.client && r.server == s.server
  {
    match t
    case C2s => s.(c2s := Done(how))
    case S2c => s.(s2c := Done(how))
    case Monitor => s.(monitor := Done(how))
  }

  function CancelIn(s: Session, t: Task): (r: Session)
    ensures r.client == s.client && r.server == s.server
  {
    if t in s.pending && StateOf(s, t).Running? then EndTask(s, t, Cancelled) else s
  }

  /** The loop is left: what was pending is cancelled and no task is waited for. */
  function Leave(s: Session, reason: CloseReason): (r: Session)
    ensures r.client == s.client && r.server == s.server
  {
    CancelIn(CancelIn(CancelIn(s, C2s), S2c), Monitor).(waiting := {}, pending := {}, batch := [], reason := reason)
  }

  ghost predicate Enabled(s: Session, e: Event) {
    match e
    case Read(task, _) => s.batch == [] && task != Monitor && StateOf(s, task).Running?
    case PumpFails(task) => s.batch == [] && task != Monitor && StateOf(s, task).Running?
    case MonitorFires(reason) => s.batch == [] && s.monitor.Running? && (reason == SessionTimeout || reason == IdleTimeout)
    case Wakes(done) =>
      && s.batch == [] && s.waiting != {} && done != []
      && (forall i, j | 0 <= i < j < |done| :: done[i] != done[j])
      && (forall t :: t in done <==> t in s.waiting && StateOf(s, t).Done?)
    case Handles => s.batch != [] && StateOf(s, s.batch[0]).Done?
  }

  function Apply(s: Session, e: Event): Session {
    match e
    case Read(task, data) =>
      (match Absorb(if task == C2s then s.client else s.server, data)
       case Eof => EndTask(s, task, PumpEof)
       case OverLimit => EndTask(s, task, PumpLimit)
       case Passed(after) => if task == C2s then s.(client := after) else s.(server := after))
    case PumpFails(task) => EndTask(s, task, PumpError)
    case MonitorFires(reason) => EndTask(s, Monitor, Fired(reason))
    case Wakes(done) => s.(batch := done, pending := s.waiting - (set t | t in done))
    case Handles =>
      if s.batch == [] || StateOf(s, s.batch[0]).Running? then s
      else
        var finished, rest := s.batch[0], s.batch[1..];
        match StateOf(s, finished).how
        case Fired(reason) => Leave(s, reason)
        case PumpLimit => Leave(s, LimitExceeded(finished))
        case PumpError => Leave(s, RelayError)
        case Cancelled => s.(batch := rest)
        case PumpEof =>
          var tasks := s.waiting - {finished};
          if finished == S2c then Leave(s.(waiting := tasks), UpstreamClosed)
          else
            s.(waiting := tasks, batch := rest, halfClosed := true,
               reason := if tasks == {} || tasks == {Monitor} then ClientClosed else s.reason)
  }

  // ----- what every interleaving keeps -----

  predicate PumpFits(t: TaskState) {
    t.Done? ==> t.how in {PumpEof, PumpLimit, PumpError, Cancelled}
  }

  predicate MonitorFits(t: TaskState) {
    t.Done? ==> t.how in {Fired(SessionTimeout), Fired(IdleTimeout), Cancelled}
  }

  predicate NotCancelled(t: TaskState) {
    t.Done? ==> t.how != Cancelled
  }

  /** A close reason names what actually happened. */
  predicate Justified(s: Session) {
    match s.reason
    case SessionTimeout => s.monitor == Done(Fired(SessionTimeout))
    case IdleTimeout => s.monitor == Done(Fired(IdleTimeout))
    case LimitExceeded(task) => task != Monitor && StateOf(s, task) == Done(PumpLimit)
    case RelayError => s.c2s == Done(PumpError) || s.s2c == Done(PumpError)
    case UpstreamClosed => s.s2c == Done(PumpEof)
    case _ => false
  }

  /** While the loop runs it waits for the upstream pump, the monitor and, until it saw the client's end of stream,
   * the client pump. */
  ghost predicate Looping(s: Session) {
    && s.waiting == (if s.halfClosed then {S2c, Monitor} else {C2s, S2c, Monitor}) && s.reason == Unknown
    && NotCancelled(s.c2s) && NotCancelled(s.s2c) && NotCancelled(s.monitor)
    && (s.halfClosed ==> s.c2s == Done(PumpEof))
    && (forall t | t in s.batch :: t in s.waiting && StateOf(s, t).Done?)
    && (forall i, j | 0 <= i < j < |s.batch| :: s.batch[i] != s.batch[j])
    && (s.batch != [] ==> forall t | t in s.waiting && StateOf(s, t).Running? :: t in s.pending)
  }

  /** Once it is left every task has ended and the reason is one of five, with its cause. */
  predicate Left(s: Session) {
    s.waiting == {} && s.batch == [] && Justified(s) && s.c2s.Done? && s.s2c.Done? && s.monitor.Done?
  }

  ghost predicate Handled(s: Session) {
    PumpFits(s.c2s) && PumpFits(s.s2c) && MonitorFits(s.monitor) && (Looping(s) || Left(s))
  }

  ghost predicate Inv(s: Session) {
    Faithful(s.client) && Faithful(s.server) && Handled(s)
  }

  lemma {:induction false} Begins(clientLimit: nat, serverLimit: nat)
    ensures Inv(Connected(clientLimit, serverLimit))
  {
    assert Concat([]) == [];
  }

  lemma {:induction false} StreamsKeep(s: Session, e: Event)
    requires Faithful(s.client) && Faithful(s.server)
    ensures Faithful(Apply(s, e).client) && Faithful(Apply(s, e).server)
  {
    hide Faithful;
    if e.Read? {
      var d := if e.task == C2s then s.client else s.server;
      if Absorb(d, e.data).Passed? {
        AbsorbFaithful(d, e.data);
      }
    }
  }

  lemma {:induction false} TasksKeep(s: Session, e: Event)
    requires Handled(s) && Enabled(s, e) && (e.Read? || e.PumpFails? || e.MonitorFires?)
    ensures Handled(Apply(s, e))
  {
    hide Absorb;
  }

  lemma {:induction false} WakesKeep(s: Session, done: seq<Task>)
    requires Handled(s) && Enabled(s, Wakes(done))
    ensures Handled(Apply(s, Wakes(done)))
  {
  }

  /** Leaving ends what still ran and changes nothing that had ended. */
  lemma {:induction false} LeaveEnds(s: Session, reason: CloseReason)
    requires forall t | StateOf(s, t).Running? :: t in s.pending
    ensures var after := Leave(s, reason);
            && after.waiting == {} && after.batch == [] && after.reason == reason
            && after.c2s == (if s.c2s.Done? then s.c2s else Done(Cancelled))
            && after.s2c == (if s.s2c.Done? then s.s2c else Done(Cancelled))
            && after.monitor == (if s.monitor.Done? then s.monitor else Done(Cancelled))
  {
    assert StateOf(s, C2s) == s.c2s && StateOf(s, S2c) == s.s2c && StateOf(s, Monitor) == s.monitor;
  }

  lemma {:induction false} RunningIsPending(s: Session)
    requires Looping(s) && s.batch != []
    ensures forall t | StateOf(s, t).Running? :: t in s.pending
    ensures StateOf(s, s.batch[0]).Done? && s.batch[0] in s.waiting && NotCancelled(StateOf(s, s.batch[0]))
  {
    assert s.batch[0] in s.batch;
    forall t | StateOf(s, t).Running? ensures t in s.pending {
      assert t in s.waiting;
    }
  }

  /** The client's end of stream leaves the loop waiting for upstream and monitor. */
  lemma {:induction false} ClientEofKeeps(s: Session)
    requires Looping(s) && s.batch != [] && s.batch[0] == C2s && s.c2s == Done(PumpEof)
    ensures Looping(Apply(s, Handles))
  {
    assert s.batch[0] in s.batch;
    var rest := s.batch[1..];
    forall t | t in rest ensures t in s.batch && t != C2s {
      var i :| 0 <= i < |rest| && rest[i] == t;
      assert s.batch[i + 1] == t;
    }
  }

  lemma {:induction false} HandlesKeep(s: Session)
    requires Handled(s) && Enabled(s, Handles)
    ensures Handled(Apply(s, Handles))
  {
    hide Looping, Leave;
    RunningIsPending(s);
    LoopingPumps(s);
    if s.batch[0] == C2s && s.c2s == Done(PumpEof) {
      ClientEofKeeps(s);
    } else {
      LeaveEnds(s, LeaveReason(s));
      LeaveEnds(s.(waiting := s.waiting - {S2c}), UpstreamClosed);
    }
  }

  /** The reason the handler leaves with, when a task it looks at is not the client's end of stream. */
  function LeaveReason(s: Session): CloseReason
    requires s.batch != [] && StateOf(s, s.batch[0]).Done?
  {
    match StateOf(s, s.batch[0]).how
    case Fired(reason) => reason
    case PumpLimit => LimitExceeded(s.batch[0])
    case PumpError => RelayError
    case _ => UpstreamClosed
  }

  lemma {:induction false} LoopingPumps(s: Session)
    requires Looping(s) && s.batch != []
    ensures StateOf(s, C2s) == s.c2s && StateOf(s, S2c) == s.s2c && StateOf(s, Monitor) == s.monitor
    ensures !Left(s)
  {
  }

  lemma {:induction false} Keeps(s: Session, e: Event)
    requires Inv(s) && Enabled(s, e)
    ensures Inv(Apply(s, e))
  {
    hide Faithful, Handled, Apply, Enabled;
    StreamsKeep(s, e);
    match e {
      case Wakes(done) => WakesKeep(s, done);
      case Handles => HandlesKeep(s);
      case _ => TasksKeep(s, e);
    }
  }

  /** Any interleaving of reads, errors, timeouts, wake-ups and handling. */
  ghost predicate Run(states: seq<Session>, events: seq<Event>, clientLimit: nat, serverLimit: nat) {
    && |states| == |events| + 1 && states[0] == Connected(clientLimit, serverLimit)
    && forall i | 0 <= i < |events| :: Enabled(states[i], events[i]) && states[i + 1] == Apply(states[i], events[i])
  }

  lemma {:induction false} RunKeeps(states: seq<Session>, events: seq<Event>, clientLimit: nat, serverLimit: nat, k: nat)
    requires Run(states, events, clientLimit, serverLimit) && k < |states|
    ensures Inv(states[k])
  {
    hide Inv, Apply, Enabled;
    if k == 0 {
      Begins(clientLimit, serverLimit);
    } else {
      RunKeeps(states, events, clientLimit, serverLimit, k - 1);
      Keeps(states[k - 1], events[k - 1]);
    }
  }

  /** At every await of every interleaving: both streams are recorded as they were passed on, within their limits. */
  lemma {:induction false} RecordedIsForwarded(
    states: seq<Session>, events: seq<Event>, clientLimit: nat, serverLimit: nat, k: nat)
    requires Run(states, events, clientLimit, serverLimit) && k < |states|
    ensures Faithful(states[k].client) && Faithful(states[k].server)
    ensures states[k].client.limit == clientLimit && states[k].server.limit == serverLimit
  {
    RunKeeps(states, events, clientLimit, serverLimit, k);
    LimitsStay(states, events, clientLimit, serverLimit, k);
  }

  lemma {:induction false} LimitsStay(states: seq<Session>, events: seq<Event>, clientLimit: nat, serverLimit: nat, k: nat)
    requires Run(states, events, clientLimit, serverLimit) && k < |states|
    ensures states[k].client.limit == clientLimit && states[k].server.limit == serverLimit
  {
    hide Enabled, Apply;
    if k > 0 {
      LimitsStay(states, events, clientLimit, serverLimit, k - 1);
      LimitStays(states[k - 1], events[k - 1]);
    }
  }

  lemma {:induction false} LimitStays(s: Session, e: Event)
    ensures Apply(s, e).client.limit == s.client.limit && Apply(s, e).server.limit == s.server.limit
  {
    hide Leave, CancelIn, EndTask;
  }

  function DirectionOf(s: Session, task: Task): Direction
    requires task != Monitor
  {
    if task == C2s then s.client else s.server
  }

  /** The data of a direction's reads up to state k, the read that ended its pump left out. */
  ghost function PassedOn(states: seq<Session>, events: seq<Event>, task: Task, k: nat): seq<byte>
    requires task != Monitor && k <= |events| && |states| == |events| + 1
  {
    if k == 0 then []
    else
      PassedOn(states, events, task, k - 1)
      + if events[k - 1].Read? && events[k - 1].task == task && StateOf(states[k], task).Running? then events[k - 1].data
        else []
  }

  /** What is recorded at any state is what was read until then. */
  lemma {:induction false} RecordedIsRead(
    states: seq<Session>, events: seq<Event>, clientLimit: nat, serverLimit: nat, task: Task, k: nat)
    requires Run(states, events, clientLimit, serverLimit) && k < |states| && task != Monitor
    ensures DirectionOf(states[k], task).recorded == PassedOn(states, events, task, k)
  {
    if k > 0 {
      hide Enabled, Apply;
      RecordedIsRead(states, events, clientLimit, serverLimit, task, k - 1);
      assert Enabled(states[k - 1], events[k - 1]) && states[k] == Apply(states[k - 1], events[k - 1]);
      OneEventRecords(states[k - 1], events[k - 1], task);
    }
  }

  lemma {:induction false} OneEventRecords(s: Session, e: Event, task: Task)
    requires Enabled(s, e) && task != Monitor
    ensures DirectionOf(Apply(s, e), task).recorded == DirectionOf(s, task).recorded
              + if e.Read? && e.task == task && StateOf(Apply(s, e), task).Running? then e.data else []
  {
    hide Leave, CancelIn;
  }

  /** When a read ends its pump: at the end of stream, and when it does not fit into what the limit leaves. */
  lemma {:induction false} ReadEndsExactly(
    states: seq<Session>, events: seq<Event>, clientLimit: nat, serverLimit: nat, k: nat)
    requires Run(states, events, clientLimit, serverLimit) && k < |events| && events[k].Read?
    ensures events[k].task != Monitor
    ensures var (task, data) := (events[k].task, events[k].data);
            var room := if task == C2s then clientLimit else serverLimit;
            var after := StateOf(states[k + 1], task);
            && (after == Done(PumpEof) <==> data == [])
            && (after == Done(PumpLimit) <==> data != [] && |PassedOn(states, events, task, k)| + |data| > room)
            && (after == Running <==> data != [] && |PassedOn(states, events, task, k)| + |data| <= room)
  {
    hide Faithful, PassedOn;
    var task := events[k].task;
    assert Enabled(states[k], events[k]) && states[k + 1] == Apply(states[k], events[k]);
    RecordedIsRead(states, events, clientLimit, serverLimit, task, k);
    RecordedIsForwarded(states, events, clientLimit, serverLimit, k);
    Counted(DirectionOf(states[k], task));
  }

  lemma {:induction false} Counted(d: Direction)
    requires Faithful(d)
    ensures d.total == |d.recorded|
  {
  }

  /** What looking at a finished task does: only the client's end of stream leaves the session going. */
  lemma {:induction false} HandlesExactly(
    states: seq<Session>, events: seq<Event>, clientLimit: nat, serverLimit: nat, k: nat)
    requires Run(states, events, clientLimit, serverLimit) && k < |events| && events[k].Handles?
    ensures states[k].batch != [] && StateOf(states[k], states[k].batch[0]).Done?
    ensures var task, after := states[k].batch[0], states[k + 1];
            match StateOf(states[k], task).how
            case PumpEof =>
              if task == C2s then after.waiting == {S2c, Monitor} && after.reason == Unknown
              else after.waiting == {} && after.reason == UpstreamClosed
            case PumpLimit => after.waiting == {} && after.reason == LimitExceeded(task)
            case PumpError => after.waiting == {} && after.reason == RelayError
            case Fired(reason) => after.waiting == {} && after.reason == reason
            case Cancelled => false
  {
    hide Faithful;
    RunKeeps(states, events, clientLimit, serverLimit, k);
    assert Enabled(states[k], events[k]) && states[k + 1] == Apply(states[k], events[k]);
    HandledOne(states[k]);
  }

  lemma {:induction false} HandledOne(s: Session)
    requires Handled(s) && Enabled(s, Handles)
    ensures var task, after := s.batch[0], Apply(s, Handles);
            match StateOf(s, task).how
            case PumpEof =>
              if task == C2s then after.waiting == {S2c, Monitor} && after.reason == Unknown
              else after.waiting == {} && after.reason == UpstreamClosed
            case PumpLimit => after.waiting == {} && after.reason == LimitExceeded(task)
            case PumpError => after.waiting == {} && after.reason == RelayError
            case Fired(reason) => after.waiting == {} && after.reason == reason
            case Cancelled => false
  {
    RunningIsPending(s);
    LoopingPumps(s);
    if s.batch[0] == C2s && s.c2s == Done(PumpEof) {
      ClientEofKeeps(s);
    }
  }

  /** A session that is over closes for a cause that occurred; it never closes as client_closed or completed. */
  lemma {:induction false} CloseReasons(
    states: seq<Session>, events: seq<Event>, clientLimit: nat, serverLimit: nat, k: nat)
    requires Run(states, events, clientLimit, serverLimit) && k < |states| && states[k].waiting == {}
    ensures Justified(states[k])
    ensures states[k].reason !in {Unknown, ClientClosed, Completed}
    ensures states[k].c2s.Done? && states[k].s2c.Done? && states[k].monitor.Done?
  {
    hide Faithful;
    RunKeeps(states, events, clientLimit, serverLimit, k);
    assert !Looping(states[k]);
  }

  /** The client's end of stream alone ends nothing: upstream and monitor are still waited for. */
  lemma {:induction false} ClientEofContinues(
    states: seq<Session>, events: seq<Event>, clientLimit: nat, serverLimit: nat, k: nat)
    requires Run(states, events, clientLimit, serverLimit) && k < |states| && states[k].s2c.Running?
             && states[k].monitor.Running?
    requires states[k].c2s == Done(PumpEof)
    ensures {S2c, Monitor} <= states[k].waiting && states[k].reason == Unknown
  {
    hide Faithful;
    RunKeeps(states, events, clientLimit, serverLimit, k);
  }
}
