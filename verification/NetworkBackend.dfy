/** Building the controlled network's plan and compiling it to iptables commands. */
module NetworkBackend {
  import opened Wrappers
  import opened Firewall

  // ----- ports -----

  const MIN_PORT: nat := 20000
  const MAX_PORT: nat := 39999

  function Clamped(preferred: int): nat {
    if preferred < MIN_PORT then MIN_PORT else if preferred > MAX_PORT then MAX_PORT else preferred
  }

  /** How many ports are tried before this one, starting at start and going round. */
  function Distance(start: nat, port: nat): int {
    if port >= start then port - start else port - start + (MAX_PORT - MIN_PORT + 1)
  }

  predicate InRange(port: nat) {
    20000 <= port <= 39999
  }

  ghost predicate NoneFree(free: nat -> bool) {
    forall q: nat | InRange(q) :: !free(q)
  }

  /** The port that is free first, counted from the preferred one. */
  ghost predicate FirstFree(free: nat -> bool, preferred: int, port: nat) {
    && InRange(port) && free(port)
    && forall q: nat | InRange(q) && Distance(Clamped(preferred), q) < Distance(Clamped(preferred), port) :: !free(q)
  }

  /** allocate: the first free port at or after the preferred one, going round once; free says which ports can be bound. */
  method Allocate(free: nat -> bool, preferred: int) returns (r: Option<nat>)
    ensures r.Some? ==> FirstFree(free, preferred, r.value)
    ensures r.None? <==> NoneFree(free)
  {
    var start := Clamped(preferred);
    for port := start to MAX_PORT + 1
      invariant forall q: nat | start <= q < port :: !free(q)
    {
      if free(port) {
        return Some(port);
      }
    }
    for port := MIN_PORT to start
      invariant forall q: nat | start <= q <= MAX_PORT || MIN_PORT <= q < port :: !free(q)
    {
      if free(port) {
        return Some(port);
      }
    }
    r := None;
  }

  // ----- the plan -----

  /** remote_ip as it parses. */
  datatype RemoteIp = Missing | Invalid | V6 | V4(ip: nat)

  /** An entry of the policy's service list; the port is what it converts to, if it does. */
  datatype Service = NotAnObject | Service(tcp: bool, remoteIp: RemoteIp, remotePort: Option<int>)

  /** catch_all, with its ports as they convert. */
  datatype CatchAll = CatchAll(enabled: bool, tcpPort: Option<int>, udpPort: Option<int>)

  datatype PlanError = NoFreePort | BadTcpPort | BadUdpPort | SamePorts

  predicate ValidPort(port: Option<int>) {
    port.Some? && 1 <= port.value <= 65535
  }

  /** A TCP service on an IPv4 endpoint; every other entry is skipped. */
  predicate Usable(s: Service) {
    s.Service? && s.tcp && s.remoteIp.V4? && ValidPort(s.remotePort)
  }

  /** The services of one kind among the first n, in order. */
  function Chosen(services: seq<Service>, n: nat, loopback: bool): seq<Service>
    requires n <= |services|
  {
    if n == 0 then []
    else
      Chosen(services, n - 1, loopback)
      + if Usable(services[n - 1]) && IsLoopback(services[n - 1].remoteIp.ip) == loopback then [services[n - 1]] else []
  }

  predicate MapsTo(m: Mapping, s: Service) {
    Usable(s) && m.remoteIp == s.remoteIp.ip && m.remotePort == s.remotePort.value
  }

  /** Mappings stand for the chosen services, one each and in order. */
  ghost predicate Stand(mappings: seq<Mapping>, services: seq<Service>) {
    |mappings| == |services| && forall i | 0 <= i < |mappings| :: MapsTo(mappings[i], services[i])
  }

  /** _build_plan. free(n) says which gateway ports can be bound when the n-th port is asked for. */
  method BuildPlan(services: seq<Service>, catchAll: CatchAll, hostIp: nat, namespaceIp: nat, portSeed: nat,
      free: nat -> nat -> bool)
    returns (r: Result<Plan, PlanError>, skipped: seq<nat>)
    ensures r.Ok? ==>
              && Stand(r.value.hosts, Chosen(services, |services|, false))
              && Stand(r.value.loopbacks, Chosen(services, |services|, true))
              && r.value.hostIp == hostIp && r.value.namespaceIp == namespaceIp
    ensures r.Ok? ==> forall i | 0 <= i < |r.value.hosts| ::
                        r.value.hosts[i].bindIp == hostIp && FirstFree(free(i), portSeed + i, r.value.hosts[i].bindPort)
    ensures r.Ok? ==> forall i | 0 <= i < |r.value.loopbacks| ::
                        r.value.loopbacks[i].bindIp == r.value.loopbacks[i].remoteIp
                        && r.value.loopbacks[i].bindPort == r.value.loopbacks[i].remotePort
    ensures r.Ok? ==> forall i ::
              i in skipped <==>
                && 0 <= i < |services|
                && (services[i].Service? && services[i].tcp && services[i].remoteIp.V4? && services[i].remotePort.Some? ==>
                      !(1 <= services[i].remotePort.value <= 65535))
    ensures r.Ok? ==>
              && r.value.catchAll == catchAll.enabled && catchAll.tcpPort == Some(r.value.tcpPort)
                && catchAll.udpPort == Some(r.value.udpPort)
    ensures r.Err? && r.error != NoFreePort ==>
              && (r.error == BadTcpPort <==> !ValidPort(catchAll.tcpPort))
              && (r.error == BadUdpPort <==> ValidPort(catchAll.tcpPort) && !ValidPort(catchAll.udpPort))
              && (r.error == SamePorts ==> catchAll.tcpPort == catchAll.udpPort)
    ensures r.Ok? ==> ValidPort(catchAll.tcpPort) && ValidPort(catchAll.udpPort) && catchAll.tcpPort != catchAll.udpPort
    ensures r.Err? && r.error == NoFreePort <==>
              exists n: nat :: n < |Chosen(services, |services|, false)| && NoneFree(free(n))
  {
    hide FirstFree, NoneFree;
    var hosts: seq<Mapping>, loopbacks: seq<Mapping> := [], [];
    skipped := [];
    for n := 0 to |services|
      invariant forall k | 0 <= k < |hosts| :: !NoneFree(free(k))
      invariant Stand(hosts, Chosen(services, n, false)) && Stand(loopbacks, Chosen(services, n, true))
      invariant forall i | 0 <= i < |hosts| ::
                  hosts[i].bindIp == hostIp && FirstFree(free(i), portSeed + i, hosts[i].bindPort)
      invariant forall i | 0 <= i < |loopbacks| ::
                  loopbacks[i].bindIp == loopbacks[i].remoteIp && loopbacks[i].bindPort == loopbacks[i].remotePort
      invariant forall i :: i in skipped <==> 0 <= i < n && !Usable(services[i])
    {
      var s := services[n];
      if s.NotAnObject? || !s.tcp || !s.remoteIp.V4? || s.remotePort.None? || !(1 <= s.remotePort.value <= 65535) {
        skipped := skipped + [n];
      } else if IsLoopback(s.remoteIp.ip) {
        loopbacks := loopbacks + [Mapping(s.remoteIp.ip, s.remotePort.value, s.remoteIp.ip, s.remotePort.value)];
      } else {
        var port := Allocate(free(|hosts|), portSeed + |hosts|);
        if port.None? {
          ChosenGrows(services, n + 1, false);
          return Err(NoFreePort), skipped;
        }
        FirstIsFree(free(|hosts|), portSeed + |hosts|, port.value);
        hosts := hosts + [Mapping(s.remoteIp.ip, s.remotePort.value, hostIp, port.value)];
      }
    }
    if !ValidPort(catchAll.tcpPort) {
      return Err(BadTcpPort), skipped;
    }
    if !ValidPort(catchAll.udpPort) {
      return Err(BadUdpPort), skipped;
    }
    if catchAll.tcpPort == catchAll.udpPort {
      return Err(SamePorts), skipped;
    }
    r := Ok(Plan(hostIp, namespaceIp, catchAll.enabled, catchAll.tcpPort.value, catchAll.udpPort.value, hosts, loopbacks));
  }

  lemma {:induction false} FirstIsFree(free: nat -> bool, preferred: int, port: nat)
    requires FirstFree(free, preferred, port)
    ensures !NoneFree(free)
  {
  }

  lemma {:induction false} ChosenGrows(services: seq<Service>, n: nat, loopback: bool)
    requires n <= |services|
    ensures |Chosen(services, n, loopback)| <= |Chosen(services, |services|, loopback)|
    decreases |services| - n
  {
    if n < |services| {
      ChosenGrows(services, n + 1, loopback);
    }
  }

  lemma {:induction false} ChosenKind(services: seq<Service>, n: nat, loopback: bool, i: nat)
    requires n <= |services| && i < |Chosen(services, n, loopback)|
    ensures Usable(Chosen(services, n, loopback)[i]) && IsLoopback(Chosen(services, n, loopback)[i].remoteIp.ip) == loopback
    ensures exists k :: 0 <= k < n && services[k] == Chosen(services, n, loopback)[i]
  {
    if i < |Chosen(services, n - 1, loopback)| {
      ChosenKind(services, n - 1, loopback, i);
    } else {
      assert services[n - 1] == Chosen(services, n, loopback)[i];
    }
  }

  lemma {:induction false} EveryServiceChosen(services: seq<Service>, n: nat, loopback: bool, k: nat)
    requires k < n <= |services| && Usable(services[k]) && IsLoopback(services[k].remoteIp.ip) == loopback
    ensures services[k] in Chosen(services, n, loopback)
  {
    if k < n - 1 {
      EveryServiceChosen(services, n - 1, loopback, k);
    }
  }

  /** A built plan has its listeners on the gateway, so everything proved of valid plans holds of it. */
  lemma {:induction false} BuiltIsValid(plan: Plan, services: seq<Service>)
    requires Stand(plan.hosts, Chosen(services, |services|, false)) && !IsLocal(plan.hostIp, plan.namespaceIp)
    requires forall i | 0 <= i < |plan.hosts| :: plan.hosts[i].bindIp == plan.hostIp
    ensures ValidPlan(plan)
  {
    forall i | 0 <= i < |plan.hosts| ensures !IsLoopback(plan.hosts[i].remoteIp) {
      ChosenKind(services, |services|, false, i);
      assert MapsTo(plan.hosts[i], Chosen(services, |services|, false)[i]);
    }
  }

  /** Every usable service of a policy answers at its own endpoint: through a gateway listener, or untouched on loopback. */
  lemma {:induction false} ServiceAnswers(t: Tables, plan: Plan, services: seq<Service>, k: nat, p: Packet)
    requires Compiled(t, plan) && !IsLocal(plan.hostIp, plan.namespaceIp)
    requires Stand(plan.hosts, Chosen(services, |services|, false))
    requires forall i | 0 <= i < |plan.hosts| :: plan.hosts[i].bindIp == plan.hostIp
    requires k < |services| && Usable(services[k])
    requires !p.known && p.proto == Tcp && p.dst == services[k].remoteIp.ip && p.dport == services[k].remotePort.value
    ensures var d := Deliver(t, plan.namespaceIp, p);
            if IsLoopback(p.dst) then d == Some((p.dst, p.dport))
            else exists i :: 0 <= i < |plan.hosts| && plan.hosts[i].remoteIp == p.dst && plan.hosts[i].remotePort == p.dport
                             && d == Some((plan.hostIp, plan.hosts[i].bindPort))
  {
    hide Compiled, Deliver;
    BuiltIsValid(plan, services);
    if IsLoopback(p.dst) {
      LoopbackUntouched(t, plan, p);
    } else {
      EveryServiceChosen(services, |services|, false, k);
      var i :| 0 <= i < |plan.hosts| && Chosen(services, |services|, false)[i] == services[k];
      assert MapsTo(plan.hosts[i], services[k]);
      FirstIsOne(plan.hosts, p.dst, p.dport);
      KnownEndpointServed(t, plan, p);
    }
  }

  // ----- the commands -----

  lemma {:induction false} ExecConcat(t: Tables, a: seq<Command>, b: seq<Command>)
    ensures ExecAll(t, a + b) == var m := ExecAll(t, a); if m.None? then None else ExecAll(m.value, b)
  {
    hide Exec;
    if b == [] {
      assert a + b == a;
    } else {
      var n := |b| - 1;
      ExecConcat(t, a, b[..n]);
      assert (a + b)[..|a + b| - 1] == a + b[..n];
    }
  }

  /** Only the built-in chains, all there. */
  ghost predicate BuiltIn(t: Tables) {
    NewNamespace(t)
  }

  ghost predicate AllDrop(t: Tables) {
    && FilterOutput in t.policies && t.policies[FilterOutput] == Drop
    && FilterInput in t.policies && t.policies[FilterInput] == Drop
    && FilterForward in t.policies && t.policies[FilterForward] == Drop
  }

  /** The chains once the first n mappings are in. */
  ghost predicate Partial(t: Tables, hosts: seq<Mapping>, n: nat)
    requires n <= |hosts|
  {
    && BuiltIn(t) && AllDrop(t)
    && t.chains[NatOutput] == DnatRules(hosts[..n])
    && t.chains[FilterOutput] == BASE + AcceptRules(hosts[..n])
    && t.chains[FilterInput] == BASE + ReplyRules(hosts[..n])
    && t.chains[FilterForward] == []
  }

  lemma {:induction false} One(t: Tables, c: Command)
    ensures ExecAll(t, [c]) == Exec(t, c)
  {
    assert [c][..0] == [];
    assert ExecAll(t, []) == Some(t);
  }

  lemma {:induction false} Preamble(t: Tables)
    requires NewNamespace(t)
    ensures var m := ExecAll(t, PREAMBLE);
            m.Some? && BuiltIn(m.value) && AllDrop(m.value) && m.value.chains[NatOutput] == []
              && m.value.chains[FilterForward] == []
            && m.value.chains[FilterOutput] == BASE && m.value.chains[FilterInput] == BASE
  {
    var flush := [FlushFilter, FlushNat];
    var policies := [SetPolicy(FilterOutput, Drop), SetPolicy(FilterInput, Drop), SetPolicy(FilterForward, Drop)];
    var first := [Append(FilterOutput, ANY.(lo := true)), Append(FilterInput, ANY.(lo := true))];
    var second := [Append(FilterOutput, ANY.(known := true)), Append(FilterInput, ANY.(known := true))];
    assert PREAMBLE == flush + (policies + (first + second));
    var t1 := Flushed(t);
    var t2 := Policies(t1);
    var t3 := Both(t2, ANY.(lo := true));
    var t4 := Both(t3, ANY.(known := true));
    ExecConcat(t, flush, policies + (first + second));
    ExecConcat(t1, policies, first + second);
    ExecConcat(t2, first, second);
  }

  lemma {:induction false} Flushed(t: Tables) returns (m: Tables)
    requires NewNamespace(t)
    ensures ExecAll(t, [FlushFilter, FlushNat]) == Some(m) && BuiltIn(m)
    ensures m.chains[NatOutput] == [] && m.chains[FilterForward] == [] && m.chains[FilterOutput] == []
            && m.chains[FilterInput] == []
  {
    assert [FlushFilter, FlushNat] == [FlushFilter] + [FlushNat];
    ExecConcat(t, [FlushFilter], [FlushNat]);
    One(t, FlushFilter);
    var t1 := Exec(t, FlushFilter).value;
    One(t1, FlushNat);
    m := Exec(t1, FlushNat).value;
  }

  lemma {:induction false} Policies(t: Tables) returns (m: Tables)
    ensures ExecAll(t, [SetPolicy(FilterOutput, Drop), SetPolicy(FilterInput, Drop), SetPolicy(FilterForward, Drop)]) == Some(m)
    ensures m.chains == t.chains && AllDrop(m)
  {
    var a, b, c := SetPolicy(FilterOutput, Drop), SetPolicy(FilterInput, Drop), SetPolicy(FilterForward, Drop);
    assert [a, b, c] == [a] + ([b] + [c]);
    ExecConcat(t, [a], [b] + [c]);
    One(t, a);
    var t1 := Exec(t, a).value;
    ExecConcat(t1, [b], [c]);
    One(t1, b);
    var t2 := Exec(t1, b).value;
    One(t2, c);
    m := Exec(t2, c).value;
  }

  /** The same rule appended to both filter chains. */
  lemma {:induction false} Both(t: Tables, r: Rule) returns (m: Tables)
    requires BuiltIn(t)
    ensures ExecAll(t, [Append(FilterOutput, r), Append(FilterInput, r)]) == Some(m)
    ensures m == t.(chains := t.chains[FilterOutput := t.chains[FilterOutput] + [r]][FilterInput := t.chains[FilterInput]
            + [r]])
    ensures BuiltIn(m)
  {
    var a, b := Append(FilterOutput, r), Append(FilterInput, r);
    assert [a, b] == [a] + [b];
    ExecConcat(t, [a], [b]);
    One(t, a);
    var t1 := Exec(t, a).value;
    One(t1, b);
    m := Exec(t1, b).value;
  }

  /** Three commands that append to three built-in chains. */
  lemma {:induction false} MappingAdds(t: Tables, mapping: Mapping) returns (m: Tables)
    requires BuiltIn(t)
    ensures ExecAll(t, MappingCommands(mapping)) == Some(m) && BuiltIn(m) && m.policies == t.policies
    ensures m.chains == t.chains[NatOutput := t.chains[NatOutput] + [DnatRule(mapping)]]
                                [FilterOutput := t.chains[FilterOutput] + [AcceptRule(mapping)]]
                                [FilterInput := t.chains[FilterInput] + [ReplyRule(mapping)]]
  {
    var a, b, c := Append(NatOutput, DnatRule(mapping)), Append(FilterOutput, AcceptRule(mapping)),
      Append(FilterInput, ReplyRule(mapping));
    assert MappingCommands(mapping) == [a] + ([b] + [c]);
    ExecConcat(t, [a], [b] + [c]);
    One(t, a);
    var t1 := Exec(t, a).value;
    ExecConcat(t1, [b], [c]);
    One(t1, b);
    var t2 := Exec(t1, b).value;
    One(t2, c);
    m := Exec(t2, c).value;
  }

  lemma {:induction false} PartialStep(t: Tables, hosts: seq<Mapping>, n: nat)
    requires n < |hosts| && Partial(t, hosts, n)
    ensures var m := ExecAll(t, MappingCommands(hosts[n])); m.Some? && Partial(m.value, hosts, n + 1)
  {
    var m := MappingAdds(t, hosts[n]);
    assert hosts[..n + 1] == hosts[..n] + [hosts[n]];
    assert DnatRules(hosts[..n + 1]) == DnatRules(hosts[..n]) + [DnatRule(hosts[n])];
    assert AcceptRules(hosts[..n + 1]) == AcceptRules(hosts[..n]) + [AcceptRule(hosts[n])];
    assert ReplyRules(hosts[..n + 1]) == ReplyRules(hosts[..n]) + [ReplyRule(hosts[n])];
  }

  // ----- the catch-all -----

  /** Two commands in a row. */
  lemma {:induction false} Two(t: Tables, a: Command, b: Command)
    ensures ExecAll(t, [a, b]) == var m := Exec(t, a); if m.None? then None else Exec(m.value, b)
  {
    assert [a, b] == [a] + [b];
    ExecConcat(t, [a], [b]);
    One(t, a);
    if Exec(t, a).Some? {
      One(Exec(t, a).value, b);
    }
  }

  lemma {:induction false} ChainsMade(t: Tables) returns (m: Tables)
    requires NatChain(TCP_CHAIN) !in t.chains && NatChain(UDP_CHAIN) !in t.chains
    ensures ExecAll(t, [NewChain(TCP_CHAIN), NewChain(UDP_CHAIN)]) == Some(m)
    ensures m == t.(chains := t.chains[NatChain(TCP_CHAIN) := []][NatChain(UDP_CHAIN) := []])
  {
    assert TCP_CHAIN[3] != UDP_CHAIN[3];
    Two(t, NewChain(TCP_CHAIN), NewChain(UDP_CHAIN));
    m := ExecAll(t, [NewChain(TCP_CHAIN), NewChain(UDP_CHAIN)]).value;
  }

  /** Two rules appended to two different chains. */
  lemma {:induction false} Pair(t: Tables, a: Chain, ra: Rule, b: Chain, rb: Rule) returns (m: Tables)
    requires a in t.chains && b in t.chains && a != b
    ensures ExecAll(t, [Append(a, ra), Append(b, rb)]) == Some(m)
    ensures m == t.(chains := t.chains[a := t.chains[a] + [ra]][b := t.chains[b] + [rb]])
  {
    Two(t, Append(a, ra), Append(b, rb));
    m := ExecAll(t, [Append(a, ra), Append(b, rb)]).value;
  }

  /** Two rules appended to one chain. */
  lemma {:induction false} Twice(t: Tables, a: Chain, ra: Rule, rb: Rule) returns (m: Tables)
    requires a in t.chains
    ensures ExecAll(t, [Append(a, ra), Append(a, rb)]) == Some(m)
    ensures m == t.(chains := t.chains[a := t.chains[a] + [ra, rb]])
  {
    Two(t, Append(a, ra), Append(a, rb));
    m := ExecAll(t, [Append(a, ra), Append(a, rb)]).value;
    assert t.chains[a] + [ra] + [rb] == t.chains[a] + [ra, rb];
  }

  /** The nat half of the catch-all: its two chains. */
  lemma {:induction false} CatchAllChains(t: Tables, plan: Plan, commands: seq<Command>) returns (m: Tables)
    requires NatChain(TCP_CHAIN) !in t.chains && NatChain(UDP_CHAIN) !in t.chains
    requires commands == CatchAllCommands(plan)[..8]
    ensures ExecAll(t, commands) == Some(m)
    ensures m == t.(chains := t.chains[NatChain(TCP_CHAIN) := RedirectChain(plan, Tcp, plan.tcpPort)]
                                      [NatChain(UDP_CHAIN) := RedirectChain(plan, Udp, plan.udpPort)])
  {
    var tcp, udp := NatChain(TCP_CHAIN), NatChain(UDP_CHAIN);
    assert TCP_CHAIN[3] != UDP_CHAIN[3];
    var p1 := [NewChain(TCP_CHAIN), NewChain(UDP_CHAIN)];
    var p2 := [Append(tcp, GatewayReturns(plan.hostIp)), Append(udp, GatewayReturns(plan.hostIp))];
    var p3 := [Append(tcp, LOOPBACK_RETURNS), Append(udp, LOOPBACK_RETURNS)];
    var p4 := [Append(tcp, RedirectRule(Tcp, plan.tcpPort)), Append(udp, RedirectRule(Udp, plan.udpPort))];
    assert commands == p1 + (p2 + (p3 + p4));
    var t1 := ChainsMade(t);
    var t2 := Pair(t1, tcp, GatewayReturns(plan.hostIp), udp, GatewayReturns(plan.hostIp));
    var t3 := Pair(t2, tcp, LOOPBACK_RETURNS, udp, LOOPBACK_RETURNS);
    m := Pair(t3, tcp, RedirectRule(Tcp, plan.tcpPort), udp, RedirectRule(Udp, plan.udpPort));
    ExecConcat(t, p1, p2 + (p3 + p4));
    ExecConcat(t1, p2, p3 + p4);
    ExecConcat(t2, p3, p4);
    assert m.chains[tcp] == RedirectChain(plan, Tcp, plan.tcpPort);
    assert m.chains[udp] == RedirectChain(plan, Udp, plan.udpPort);
  }

  /** The rest: the jumps into the chains and the filter's ports. */
  lemma {:induction false} CatchAllPorts(t: Tables, plan: Plan, commands: seq<Command>) returns (m: Tables)
    requires {NatOutput, FilterOutput, FilterInput} <= t.chains.Keys && commands == CatchAllCommands(plan)[8..]
    ensures ExecAll(t, commands) == Some(m)
    ensures m == t.(chains :=
                      t.chains[NatOutput := t.chains[NatOutput] + [JumpRule(Tcp, TCP_CHAIN), JumpRule(Udp, UDP_CHAIN)]]
                              [FilterOutput := t.chains[FilterOutput]
                                + [PortOut(Tcp, plan.tcpPort), PortOut(Udp, plan.udpPort)]]
                              [FilterInput := t.chains[FilterInput] + [PortIn(Tcp, plan.tcpPort), PortIn(Udp, plan.udpPort)]])
  {
    var p1 := [Append(NatOutput, JumpRule(Tcp, TCP_CHAIN)), Append(NatOutput, JumpRule(Udp, UDP_CHAIN))];
    var p2 := [Append(FilterOutput, PortOut(Tcp, plan.tcpPort)), Append(FilterInput, PortIn(Tcp, plan.tcpPort))];
    var p3 := [Append(FilterOutput, PortOut(Udp, plan.udpPort)), Append(FilterInput, PortIn(Udp, plan.udpPort))];
    assert commands == p1 + (p2 + p3);
    var t1 := Twice(t, NatOutput, JumpRule(Tcp, TCP_CHAIN), JumpRule(Udp, UDP_CHAIN));
    var t2 := Pair(t1, FilterOutput, PortOut(Tcp, plan.tcpPort), FilterInput, PortIn(Tcp, plan.tcpPort));
    m := Pair(t2, FilterOutput, PortOut(Udp, plan.udpPort), FilterInput, PortIn(Udp, plan.udpPort));
    ExecConcat(t, p1, p2 + p3);
    ExecConcat(t1, p2, p3);
    assert m.chains[FilterOutput] == t.chains[FilterOutput] + [PortOut(Tcp, plan.tcpPort), PortOut(Udp, plan.udpPort)];
    assert m.chains[FilterInput] == t.chains[FilterInput] + [PortIn(Tcp, plan.tcpPort), PortIn(Udp, plan.udpPort)];
  }

  /** With all mappings in and the catch-all appended where the plan asks for it, the tables are the compiled ones. */
  lemma {:induction false} Completes(t: Tables, plan: Plan)
    requires Partial(t, plan.hosts, |plan.hosts|)
    ensures var m := ExecAll(t, if plan.catchAll then CatchAllCommands(plan) else []); m.Some? && Compiled(m.value, plan)
  {
    assert plan.hosts[..|plan.hosts|] == plan.hosts;
    if plan.catchAll {
      var commands := CatchAllCommands(plan);
      assert commands == commands[..8] + commands[8..];
      ExecConcat(t, commands[..8], commands[8..]);
      var t1 := CatchAllChains(t, plan, commands[..8]);
      var t2 := CatchAllPorts(t1, plan, commands[8..]);
      assert TCP_CHAIN[3] != UDP_CHAIN[3];
    } else {
      assert ExecAll(t, []) == Some(t);
    }
  }

  /** Run in a new namespace the commands leave the mappings up to n compiled. */
  ghost predicate LeavesPartial(t: Tables, commands: seq<Command>, hosts: seq<Mapping>, n: nat)
    requires n <= |hosts|
  {
    var m := ExecAll(t, commands);
    m.Some? && Partial(m.value, hosts, n)
  }

  ghost predicate LeavesCompiled(t: Tables, commands: seq<Command>, plan: Plan) {
    var m := ExecAll(t, commands);
    m.Some? && Compiled(m.value, plan)
  }

  /** _configure_firewall: in any new namespace the commands all succeed and leave exactly the compiled tables. */
  method ConfigureFirewall(plan: Plan) returns (commands: seq<Command>)
    ensures forall t | NewNamespace(t) :: LeavesCompiled(t, commands, plan)
  {
    hide Partial, Compiled, NewNamespace, ExecAll, MappingCommands, CatchAllCommands;
    commands := PREAMBLE;
    forall t | NewNamespace(t) ensures LeavesPartial(t, commands, plan.hosts, 0) {
      PreamblePartial(t, plan.hosts);
    }
    for n := 0 to |plan.hosts|
      invariant forall t | NewNamespace(t) :: LeavesPartial(t, commands, plan.hosts, n)
    {
      var more := MappingCommands(plan.hosts[n]);
      forall t | NewNamespace(t) ensures LeavesPartial(t, commands + more, plan.hosts, n + 1) {
        assert LeavesPartial(t, commands, plan.hosts, n);
        ExecConcat(t, commands, more);
        PartialStep(ExecAll(t, commands).value, plan.hosts, n);
      }
      commands := commands + more;
    }
    var last := if plan.catchAll then CatchAllCommands(plan) else [];
    forall t | NewNamespace(t) ensures LeavesCompiled(t, commands + last, plan) {
      assert LeavesPartial(t, commands, plan.hosts, |plan.hosts|);
      ExecConcat(t, commands, last);
      Completes(ExecAll(t, commands).value, plan);
    }
    commands := commands + last;
  }

  lemma {:induction false} PreamblePartial(t: Tables, hosts: seq<Mapping>)
    requires NewNamespace(t)
    ensures LeavesPartial(t, PREAMBLE, hosts, 0)
  {
    hide ExecAll;
    Preamble(t);
    assert hosts[..0] == [] && DnatRules([]) == [] && BASE + AcceptRules([]) == BASE && BASE + ReplyRules([]) == BASE;
  }
}
