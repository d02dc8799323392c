/** The namespace firewall: a plan compiled to rules, and what the rules do to packets. */
module Firewall {
  import opened Wrappers

  // ----- rules and their interpreter -----

  datatype Proto = Tcp | Udp | OtherProto

  /** known: conntrack calls the packet ESTABLISHED or RELATED. */
  datatype Packet = Packet(proto: Proto, src: nat, sport: nat, dst: nat, dport: nat, known: bool)

  datatype Net = Host(ip: nat) | LoopbackNet

  datatype Target = Accept | Drop | Return | Jump(chain: string) | Dnat(ip: nat, port: nat) | Redirect(port: nat)

  /** An absent field matches every packet; lo asks for the loopback device. */
  datatype Rule = Rule(
    proto: Option<Proto>, src: Option<nat>, sport: Option<nat>, dst: Option<Net>, dport: Option<nat>, lo: bool, known: bool,
    target: Target)

  datatype Chain = FilterOutput | FilterInput | FilterForward | NatOutput | NatChain(name: string)

  datatype Tables = Tables(chains: map<Chain, seq<Rule>>, policies: map<Chain, Target>)

  datatype Command =
    | FlushFilter | FlushNat | SetPolicy(chain: Chain, target: Target) | NewChain(name: string) | Append(chain: Chain,
      rule: Rule)

  const LOCALHOST: nat := 127 * 0x100_0000 + 1

  predicate IsLoopback(ip: nat) {
    ip / 0x100_0000 == 127
  }

  /** Packets to these addresses leave through the loopback device. */
  predicate IsLocal(ip: nat, namespaceIp: nat) {
    IsLoopback(ip) || ip == namespaceIp
  }

  predicate Matches(r: Rule, p: Packet, onLo: bool) {
    && (r.proto.Some? ==> r.proto.value == p.proto)
    && (r.src.Some? ==> r.src.value == p.src)
    && (r.sport.Some? ==> r.sport.value == p.sport)
    && (r.dst.Some? ==> if r.dst.value.Host? then r.dst.value.ip == p.dst else IsLoopback(p.dst))
    && (r.dport.Some? ==> r.dport.value == p.dport)
    && (r.lo ==> onLo)
    && (r.known ==> p.known)
  }

  function Rules(t: Tables, c: Chain): seq<Rule> {
    if c in t.chains then t.chains[c] else []
  }

  /** The first terminating target a packet meets, calls into depth further chains included. */
  function Eval(t: Tables, rules: seq<Rule>, p: Packet, onLo: bool, depth: nat): Option<Target>
    decreases depth, |rules|
  {
    if rules == [] then None
    else if !Matches(rules[0], p, onLo) then Eval(t, rules[1..], p, onLo, depth)
    else
      match rules[0].target
      case Return => None
      case Jump(c) =>
        if depth == 0 then None
        else
          var inner := Eval(t, Rules(t, NatChain(c)), p, onLo, depth - 1);
          if inner.Some? then inner else Eval(t, rules[1..], p, onLo, depth)
      case target => Some(target)
  }

  /** Where the nat table sends the first packet of a connection. */
  function Translated(t: Tables, p: Packet): (nat, nat) {
    match Eval(t, Rules(t, NatOutput), p, false, 1)
    case Some(Dnat(ip, port)) => (ip, port)
    case Some(Redirect(port)) => (LOCALHOST, port)
    case _ => (p.dst, p.dport)
  }

  predicate Passes(t: Tables, c: Chain, p: Packet, onLo: bool) {
    match Eval(t, Rules(t, c), p, onLo, 0)
    case Some(Accept) => true
    case Some(_) => false
    case None => !(c in t.policies && t.policies[c] == Drop)
  }

  /** A packet that opens a connection: its final destination if the filter lets it out. */
  function Deliver(t: Tables, namespaceIp: nat, p: Packet): Option<(nat, nat)> {
    var (ip, port) := Translated(t, p);
    if Passes(t, FilterOutput, p.(dst := ip, dport := port), IsLocal(ip, namespaceIp)) then Some((ip, port)) else None
  }

  // ----- running iptables -----

  function Exec(t: Tables, c: Command): Option<Tables> {
    match c
    case FlushFilter => Some(t.(chains := t.chains + map[FilterOutput := [], FilterInput := [], FilterForward := []]))
    case FlushNat => Some(t.(chains := map k | k in t.chains :: if k == NatOutput || k.NatChain? then [] else t.chains[k]))
    case SetPolicy(chain, target) => Some(t.(policies := t.policies[chain := target]))
    case NewChain(name) => if NatChain(name) in t.chains then None else Some(t.(chains := t.chains[NatChain(name) := []]))
    case Append(chain, rule) =>
      if chain !in t.chains then None else Some(t.(chains := t.chains[chain := t.chains[chain] + [rule]]))
  }

  /** Commands run in order; the first that fails stops the setup. */
  function ExecAll(t: Tables, commands: seq<Command>): Option<Tables> {
    if commands == [] then Some(t)
    else
      var before := ExecAll(t, commands[..|commands| - 1]);
      if before.None? then None else Exec(before.value, commands[|commands| - 1])
  }

  /** The tables of a new namespace: built-in chains only, with whatever rules and policies. */
  ghost predicate NewNamespace(t: Tables) {
    && {FilterOutput, FilterInput, FilterForward, NatOutput} <= t.chains.Keys
    && forall k | k in t.chains :: !k.NatChain?
  }

  // ----- the plan and its compilation -----

  datatype Mapping = Mapping(remoteIp: nat, remotePort: nat, bindIp: nat, bindPort: nat)

  datatype Plan = Plan(
    hostIp: nat, namespaceIp: nat, catchAll: bool, tcpPort: nat, udpPort: nat, hosts: seq<Mapping>, loopbacks: seq<Mapping>)

  const ANY: Rule := Rule(None, None, None, None, None, false, false, Accept)

  function DnatRule(m: Mapping): Rule {
    ANY.(proto := Some(Tcp), dst := Some(Host(m.remoteIp)), dport := Some(m.remotePort), target := Dnat(m.bindIp, m.bindPort))
  }

  function AcceptRule(m: Mapping): Rule {
    ANY.(proto := Some(Tcp), dst := Some(Host(m.bindIp)), dport := Some(m.bindPort))
  }

  function ReplyRule(m: Mapping): Rule {
    ANY.(proto := Some(Tcp), src := Some(m.bindIp), sport := Some(m.bindPort))
  }

  const TCP_CHAIN := "TF_TCP_CATCHALL"
  const UDP_CHAIN := "TF_UDP_CATCHALL"

  function GatewayReturns(hostIp: nat): Rule {
    ANY.(dst := Some(Host(hostIp)), target := Return)
  }

  const LOOPBACK_RETURNS: Rule := ANY.(dst := Some(LoopbackNet), target := Return)

  function RedirectRule(proto: Proto, port: nat): Rule {
    ANY.(proto := Some(proto), target := Redirect(port))
  }

  function JumpRule(proto: Proto, chain: string): Rule {
    ANY.(proto := Some(proto), target := Jump(chain))
  }

  function PortOut(proto: Proto, port: nat): Rule {
    ANY.(proto := Some(proto), dport := Some(port))
  }

  function PortIn(proto: Proto, port: nat): Rule {
    ANY.(proto := Some(proto), sport := Some(port))
  }

  const PREAMBLE: seq<Command> := [
    FlushFilter, FlushNat,
    SetPolicy(FilterOutput, Drop), SetPolicy(FilterInput, Drop), SetPolicy(FilterForward, Drop),
    Append(FilterOutput, ANY.(lo := true)), Append(FilterInput, ANY.(lo := true)),
    Append(FilterOutput, ANY.(known := true)), Append(FilterInput, ANY.(known := true))]

  function MappingCommands(m: Mapping): seq<Command> {
    [Append(NatOutput, DnatRule(m)), Append(FilterOutput, AcceptRule(m)), Append(FilterInput, ReplyRule(m))]
  }

  function CatchAllCommands(plan: Plan): seq<Command> {
    [NewChain(TCP_CHAIN), NewChain(UDP_CHAIN),
     Append(NatChain(TCP_CHAIN), GatewayReturns(plan.hostIp)), Append(NatChain(UDP_CHAIN), GatewayReturns(plan.hostIp)),
     Append(NatChain(TCP_CHAIN), LOOPBACK_RETURNS), Append(NatChain(UDP_CHAIN), LOOPBACK_RETURNS),
     Append(NatChain(TCP_CHAIN), RedirectRule(Tcp, plan.tcpPort)), Append(NatChain(UDP_CHAIN), RedirectRule(Udp, plan.udpPort)),
     Append(NatOutput, JumpRule(Tcp, TCP_CHAIN)), Append(NatOutput, JumpRule(Udp, UDP_CHAIN)),
     Append(FilterOutput, PortOut(Tcp, plan.tcpPort)), Append(FilterInput, PortIn(Tcp, plan.tcpPort)),
     Append(FilterOutput, PortOut(Udp, plan.udpPort)), Append(FilterInput, PortIn(Udp, plan.udpPort))]
  }

  // ----- what the plan means -----

  /** The mapping that was declared first for an endpoint. */
  function FirstMapping(hosts: seq<Mapping>, ip: nat, port: nat): Option<Mapping> {
    if hosts == [] then None
    else if hosts[0].remoteIp == ip && hosts[0].remotePort == port then Some(hosts[0])
    else FirstMapping(hosts[1..], ip, port)
  }

  /** Where the plan wants the first packet of a connection to go. */
  function Meant(plan: Plan, p: Packet): (nat, nat) {
    var known := if p.proto == Tcp then FirstMapping(plan.hosts, p.dst, p.dport) else None;
    if known.Some? then (known.value.bindIp, known.value.bindPort)
    else if plan.catchAll && p.proto != OtherProto && p.dst != plan.hostIp && !IsLoopback(p.dst) then
      (LOCALHOST, if p.proto == Tcp then plan.tcpPort else plan.udpPort)
    else (p.dst, p.dport)
  }

  predicate Serves(hosts: seq<Mapping>, ip: nat, port: nat) {
    exists i :: 0 <= i < |hosts| && hosts[i].bindIp == ip && hosts[i].bindPort == port
  }

  /** Whether the plan lets a connection to this final destination out. */
  predicate Allowed(plan: Plan, proto: Proto, ip: nat, port: nat) {
    || IsLocal(ip, plan.namespaceIp)
    || (proto == Tcp && Serves(plan.hosts, ip, port))
    || (plan.catchAll && proto == Tcp && port == plan.tcpPort)
    || (plan.catchAll && proto == Udp && port == plan.udpPort)
  }

  // ----- the compiled tables -----

  function DnatRules(hosts: seq<Mapping>): (r: seq<Rule>)
    ensures |r| == |hosts|
  {
    seq(|hosts|, i requires 0 <= i < |hosts| => DnatRule(hosts[i]))
  }

  function AcceptRules(hosts: seq<Mapping>): (r: seq<Rule>)
    ensures |r| == |hosts|
  {
    seq(|hosts|, i requires 0 <= i < |hosts| => AcceptRule(hosts[i]))
  }

  function ReplyRules(hosts: seq<Mapping>): (r: seq<Rule>)
    ensures |r| == |hosts|
  {
    seq(|hosts|, i requires 0 <= i < |hosts| => ReplyRule(hosts[i]))
  }

  const BASE: seq<Rule> := [ANY.(lo := true), ANY.(known := true)]

  function RedirectChain(plan: Plan, proto: Proto, port: nat): seq<Rule> {
    [GatewayReturns(plan.hostIp), LOOPBACK_RETURNS, RedirectRule(proto, port)]
  }

  /** The chains a plan's rules end up in. */
  ghost predicate Compiled(t: Tables, plan: Plan) {
    && Rules(t, NatOutput) == DnatRules(plan.hosts)
         + (if plan.catchAll then [JumpRule(Tcp, TCP_CHAIN), JumpRule(Udp, UDP_CHAIN)] else [])
    && Rules(t, FilterOutput) == BASE + AcceptRules(plan.hosts)
         + (if plan.catchAll then [PortOut(Tcp, plan.tcpPort), PortOut(Udp, plan.udpPort)] else [])
    && Rules(t, FilterInput) == BASE + ReplyRules(plan.hosts)
         + (if plan.catchAll then [PortIn(Tcp, plan.tcpPort), PortIn(Udp, plan.udpPort)] else [])
    && (plan.catchAll ==>
          && Rules(t, NatChain(TCP_CHAIN)) == RedirectChain(plan, Tcp, plan.tcpPort)
          && Rules(t, NatChain(UDP_CHAIN)) == RedirectChain(plan, Udp, plan.udpPort))
    && t.policies.Keys >= {FilterOutput, FilterInput, FilterForward}
    && t.policies[FilterOutput] == Drop && t.policies[FilterInput] == Drop && t.policies[FilterForward] == Drop
    && Rules(t, FilterForward) == []
  }

  // ----- the rules mean the plan -----

  lemma {:induction false} EvalDnats(t: Tables, hosts: seq<Mapping>, rest: seq<Rule>, p: Packet, depth: nat)
    ensures Eval(t, DnatRules(hosts) + rest, p, false, depth) ==
              var m := if p.proto == Tcp then FirstMapping(hosts, p.dst, p.dport) else None;
              if m.Some? then Some(Dnat(m.value.bindIp, m.value.bindPort)) else Eval(t, rest, p, false, depth)
  {
    if hosts == [] {
      assert DnatRules(hosts) + rest == rest;
    } else {
      EvalDnats(t, hosts[1..], rest, p, depth);
      assert (DnatRules(hosts) + rest)[1..] == DnatRules(hosts[1..]) + rest;
      assert (DnatRules(hosts) + rest)[0] == DnatRule(hosts[0]);
    }
  }

  lemma {:induction false} EvalAccepts(t: Tables, hosts: seq<Mapping>, rest: seq<Rule>, p: Packet)
    ensures Eval(t, AcceptRules(hosts) + rest, p, false, 0) ==
              if p.proto == Tcp && Serves(hosts, p.dst, p.dport) then Some(Accept) else Eval(t, rest, p, false, 0)
  {
    if hosts == [] {
      assert AcceptRules(hosts) + rest == rest;
    } else {
      EvalAccepts(t, hosts[1..], rest, p);
      assert (AcceptRules(hosts) + rest)[1..] == AcceptRules(hosts[1..]) + rest;
      assert (AcceptRules(hosts) + rest)[0] == AcceptRule(hosts[0]);
      ServesFirst(hosts, p.dst, p.dport);
    }
  }

  lemma {:induction false} ServesFirst(hosts: seq<Mapping>, ip: nat, port: nat)
    requires hosts != []
    ensures Serves(hosts, ip, port) <==> (hosts[0].bindIp == ip && hosts[0].bindPort == port) || Serves(hosts[1..], ip, port)
  {
    if Serves(hosts[1..], ip, port) {
      var i :| 0 <= i < |hosts| - 1 && hosts[1..][i].bindIp == ip && hosts[1..][i].bindPort == port;
      assert hosts[i + 1].bindIp == ip;
    }
    if Serves(hosts, ip, port) {
      var i :| 0 <= i < |hosts| && hosts[i].bindIp == ip && hosts[i].bindPort == port;
      assert i > 0 ==> hosts[1..][i - 1] == hosts[i];
    }
  }

  /** A catch-all chain redirects everything of its protocol but what is for the gateway or for loopback. */
  lemma {:induction false} EvalCatchAll(t: Tables, plan: Plan, proto: Proto, port: nat, p: Packet)
    requires p.proto == proto
    ensures Eval(t, RedirectChain(plan, proto, port), p, false, 0) ==
              if p.dst == plan.hostIp || IsLoopback(p.dst) then None else Some(Redirect(port))
  {
    var rules := RedirectChain(plan, proto, port);
    var two := [LOOPBACK_RETURNS, RedirectRule(proto, port)];
    var one := [RedirectRule(proto, port)];
    assert rules[1..] == two && two[1..] == one;
    assert Matches(one[0], p, false);
    assert Eval(t, one, p, false, 0) == Some(Redirect(port));
    assert Matches(two[0], p, false) <==> IsLoopback(p.dst);
    assert Eval(t, two, p, false, 0) == if IsLoopback(p.dst) then None else Some(Redirect(port));
    assert Matches(rules[0], p, false) <==> p.dst == plan.hostIp;
  }

  lemma {:induction false} EvalJumps(t: Tables, plan: Plan, p: Packet)
    requires Compiled(t, plan) && plan.catchAll
    ensures Eval(t, [JumpRule(Tcp, TCP_CHAIN), JumpRule(Udp, UDP_CHAIN)], p, false, 1) ==
              if p.proto == OtherProto || p.dst == plan.hostIp || IsLoopback(p.dst) then None
              else Some(Redirect(if p.proto == Tcp then plan.tcpPort else plan.udpPort))
  {
    hide Compiled;
    var both, second := [JumpRule(Tcp, TCP_CHAIN), JumpRule(Udp, UDP_CHAIN)], [JumpRule(Udp, UDP_CHAIN)];
    CompiledChains(t, plan);
    assert both[1..] == second && second[1..] == [];
    assert Eval(t, [], p, false, 1) == None;
    if p.proto == Tcp {
      EvalCatchAll(t, plan, Tcp, plan.tcpPort, p);
      assert Eval(t, second, p, false, 1) == None;
    } else if p.proto == Udp {
      EvalCatchAll(t, plan, Udp, plan.udpPort, p);
      assert Eval(t, both, p, false, 1) == Eval(t, second, p, false, 1);
    } else {
      assert Eval(t, both, p, false, 1) == Eval(t, second, p, false, 1) == None;
    }
  }

  lemma {:induction false} CompiledChains(t: Tables, plan: Plan)
    requires Compiled(t, plan) && plan.catchAll
    ensures Rules(t, NatChain(TCP_CHAIN)) == RedirectChain(plan, Tcp, plan.tcpPort)
    ensures Rules(t, NatChain(UDP_CHAIN)) == RedirectChain(plan, Udp, plan.udpPort)
  {
  }

  /** The nat rules send the first packet of a connection where the plan means it to go. */
  lemma {:induction false} TranslationIsMeant(t: Tables, plan: Plan, p: Packet)
    requires Compiled(t, plan)
    ensures Translated(t, p) == Meant(plan, p)
  {
    var rest := if plan.catchAll then [JumpRule(Tcp, TCP_CHAIN), JumpRule(Udp, UDP_CHAIN)] else [];
    EvalDnats(t, plan.hosts, rest, p, 1);
    if plan.catchAll {
      EvalJumps(t, plan, p);
    } else {
      assert Eval(t, rest, p, false, 1) == None;
    }
  }

  lemma {:induction false} EvalPorts(t: Tables, plan: Plan, p: Packet)
    ensures Eval(t, [PortOut(Tcp, plan.tcpPort), PortOut(Udp, plan.udpPort)], p, false, 0) ==
              if (p.proto == Tcp && p.dport == plan.tcpPort) || (p.proto == Udp && p.dport == plan.udpPort)
                then Some(Accept) else None
  {
    var both, second := [PortOut(Tcp, plan.tcpPort), PortOut(Udp, plan.udpPort)], [PortOut(Udp, plan.udpPort)];
    assert both[1..] == second && second[1..] == [];
    assert Eval(t, [], p, false, 0) == None;
    assert Eval(t, second, p, false, 0) == if p.proto == Udp && p.dport == plan.udpPort then Some(Accept) else None;
  }

  /** The output filter lets out exactly what the plan allows. */
  lemma {:induction false} FilterIsMeant(t: Tables, plan: Plan, p: Packet)
    requires Compiled(t, plan)
    ensures Passes(t, FilterOutput, p, IsLocal(p.dst, plan.namespaceIp)) <==> p.known || Allowed(plan, p.proto, p.dst, p.dport)
  {
    var ports := if plan.catchAll then [PortOut(Tcp, plan.tcpPort), PortOut(Udp, plan.udpPort)] else [];
    var tail := AcceptRules(plan.hosts) + ports;
    var rules := Rules(t, FilterOutput);
    assert rules == BASE + tail;
    assert rules[0] == ANY.(lo := true) && rules[1..][0] == ANY.(known := true) && rules[1..][1..] == tail;
    var onLo := IsLocal(p.dst, plan.namespaceIp);
    assert Matches(rules[0], p, onLo) <==> onLo;
    if onLo {
      assert Eval(t, rules, p, onLo, 0) == Some(Accept);
    } else if p.known {
      assert Eval(t, rules, p, onLo, 0) == Eval(t, rules[1..], p, onLo, 0) == Some(Accept);
    } else {
      EvalAccepts(t, plan.hosts, ports, p);
      assert Eval(t, rules, p, false, 0) == Eval(t, rules[1..], p, false, 0) == Eval(t, tail, p, false, 0);
      if plan.catchAll {
        EvalPorts(t, plan, p);
      } else {
        assert Eval(t, ports, p, false, 0) == None;
      }
    }
  }

  lemma {:induction false} EvalReplies(t: Tables, hosts: seq<Mapping>, rest: seq<Rule>, p: Packet, onLo: bool)
    ensures Eval(t, ReplyRules(hosts) + rest, p, onLo, 0) ==
              if p.proto == Tcp && Serves(hosts, p.src, p.sport) then Some(Accept) else Eval(t, rest, p, onLo, 0)
  {
    if hosts == [] {
      assert ReplyRules(hosts) + rest == rest;
    } else {
      EvalReplies(t, hosts[1..], rest, p, onLo);
      assert (ReplyRules(hosts) + rest)[1..] == ReplyRules(hosts[1..]) + rest;
      assert (ReplyRules(hosts) + rest)[0] == ReplyRule(hosts[0]);
      ServesFirst(hosts, p.src, p.sport);
    }
  }

  lemma {:induction false} EvalReplyPorts(t: Tables, plan: Plan, p: Packet, onLo: bool)
    ensures Eval(t, [PortIn(Tcp, plan.tcpPort), PortIn(Udp, plan.udpPort)], p, onLo, 0) ==
              if (p.proto == Tcp && p.sport == plan.tcpPort) || (p.proto == Udp && p.sport == plan.udpPort)
                then Some(Accept) else None
  {
    var both, second := [PortIn(Tcp, plan.tcpPort), PortIn(Udp, plan.udpPort)], [PortIn(Udp, plan.udpPort)];
    assert both[1..] == second && second[1..] == [];
    assert Eval(t, [], p, onLo, 0) == None;
    assert Eval(t, second, p, onLo, 0) == if p.proto == Udp && p.sport == plan.udpPort then Some(Accept) else None;
  }

  /** The input filter takes in loopback traffic, tracked flows, and what comes from a listener or a logger port. */
  lemma {:induction false} InputIsMeant(t: Tables, plan: Plan, p: Packet, onLo: bool)
    requires Compiled(t, plan)
    ensures Passes(t, FilterInput, p, onLo) <==>
              || onLo || p.known
              || (p.proto == Tcp && Serves(plan.hosts, p.src, p.sport))
              || (plan.catchAll && p.proto == Tcp && p.sport == plan.tcpPort)
              || (plan.catchAll && p.proto == Udp && p.sport == plan.udpPort)
  {
    var ports := if plan.catchAll then [PortIn(Tcp, plan.tcpPort), PortIn(Udp, plan.udpPort)] else [];
    var tail := ReplyRules(plan.hosts) + ports;
    var rules := Rules(t, FilterInput);
    assert rules == BASE + tail;
    assert rules[0] == ANY.(lo := true) && rules[1..][0] == ANY.(known := true) && rules[1..][1..] == tail;
    if onLo {
      assert Eval(t, rules, p, onLo, 0) == Some(Accept);
    } else if p.known {
      assert Eval(t, rules, p, onLo, 0) == Eval(t, rules[1..], p, onLo, 0) == Some(Accept);
    } else {
      EvalReplies(t, plan.hosts, ports, p, false);
      assert Eval(t, rules, p, false, 0) == Eval(t, rules[1..], p, false, 0) == Eval(t, tail, p, false, 0);
      if plan.catchAll {
        EvalReplyPorts(t, plan, p, false);
      } else {
        assert Eval(t, ports, p, false, 0) == None;
      }
    }
  }

  /** Nothing is forwarded. */
  lemma {:induction false} NothingForwarded(t: Tables, plan: Plan, p: Packet, onLo: bool)
    requires Compiled(t, plan)
    ensures !Passes(t, FilterForward, p, onLo)
  {
  }

  /** Compiled rules mean the plan: a new connection goes where the plan says, if the plan lets it. */
  lemma {:induction false} RulesMeanPlan(t: Tables, plan: Plan, p: Packet)
    requires Compiled(t, plan) && !p.known
    ensures var (ip, port) := Meant(plan, p);
            Deliver(t, plan.namespaceIp, p) == if Allowed(plan, p.proto, ip, port) then Some((ip, port)) else None
  {
    hide Compiled, Passes, Eval;
    TranslationIsMeant(t, plan, p);
    var (ip, port) := Meant(plan, p);
    FilterIsMeant(t, plan, p.(dst := ip, dport := port));
  }

  // ----- what follows for a plan whose listeners are on the gateway -----

  /** What building a plan guarantees: listeners on the gateway, which is no address of the namespace. */
  ghost predicate ValidPlan(plan: Plan) {
    && !IsLocal(plan.hostIp, plan.namespaceIp)
    && forall i | 0 <= i < |plan.hosts| :: plan.hosts[i].bindIp == plan.hostIp && !IsLoopback(plan.hosts[i].remoteIp)
  }

  lemma {:induction false} FirstIsOne(hosts: seq<Mapping>, ip: nat, port: nat)
    ensures var m := FirstMapping(hosts, ip, port);
            if m.Some? then exists i :: 0 <= i < |hosts| && hosts[i] == m.value && hosts[i].remoteIp == ip
                                        && hosts[i].remotePort == port
                                        && forall k | 0 <= k < i :: hosts[k].remoteIp != ip || hosts[k].remotePort != port
            else forall i | 0 <= i < |hosts| :: hosts[i].remoteIp != ip || hosts[i].remotePort != port
  {
    if hosts != [] && (hosts[0].remoteIp != ip || hosts[0].remotePort != port) {
      FirstIsOne(hosts[1..], ip, port);
      var m := FirstMapping(hosts[1..], ip, port);
      if m.Some? {
        var i :| 0 <= i < |hosts| - 1 && hosts[1..][i] == m.value && hosts[1..][i].remoteIp == ip
          && hosts[1..][i].remotePort == port
                 && forall k | 0 <= k < i :: hosts[1..][k].remoteIp != ip || hosts[1..][k].remotePort != port;
        assert hosts[i + 1] == m.value;
        forall k | 0 <= k < i + 1 ensures hosts[k].remoteIp != ip || hosts[k].remotePort != port {
          assert k > 0 ==> hosts[1..][k - 1] == hosts[k];
        }
      } else {
        forall k | 0 <= k < |hosts| ensures hosts[k].remoteIp != ip || hosts[k].remotePort != port {
          assert k > 0 ==> hosts[1..][k - 1] == hosts[k];
        }
      }
    }
  }

  /** A known endpoint always reaches the listener of the first mapping declared for it. */
  lemma {:induction false} KnownEndpointServed(t: Tables, plan: Plan, p: Packet)
    requires Compiled(t, plan) && !p.known && p.proto == Tcp && FirstMapping(plan.hosts, p.dst, p.dport).Some?
    ensures var m := FirstMapping(plan.hosts, p.dst, p.dport).value;
            Deliver(t, plan.namespaceIp, p) == Some((m.bindIp, m.bindPort))
  {
    hide Compiled;
    RulesMeanPlan(t, plan, p);
    FirstIsOne(plan.hosts, p.dst, p.dport);
    assert Serves(plan.hosts, FirstMapping(plan.hosts, p.dst, p.dport).value.bindIp,
           FirstMapping(plan.hosts, p.dst, p.dport).value.bindPort);
  }

  /** Loopback traffic is let out as it is. */
  lemma {:induction false} LoopbackUntouched(t: Tables, plan: Plan, p: Packet)
    requires Compiled(t, plan) && ValidPlan(plan) && !p.known && 127 * 0x100_0000 <= p.dst < 128 * 0x100_0000
    ensures Deliver(t, plan.namespaceIp, p) == Some((p.dst, p.dport))
  {
    hide Compiled;
    RulesMeanPlan(t, plan, p);
    FirstIsOne(plan.hosts, p.dst, p.dport);
  }

  /** With the catch-all on, every other TCP or UDP connection but one to the gateway ends at the transparent logger. */
  lemma {:induction false} UnknownCaught(t: Tables, plan: Plan, p: Packet)
    requires Compiled(t, plan) && !p.known && plan.catchAll && p.proto != OtherProto
    requires p.dst != plan.hostIp && !(127 * 0x100_0000 <= p.dst < 128 * 0x100_0000)
    requires p.proto == Tcp ==> FirstMapping(plan.hosts, p.dst, p.dport).None?
    ensures Deliver(t, plan.namespaceIp, p) == Some((0x7f00_0001, if p.proto == Tcp then plan.tcpPort else plan.udpPort))
  {
    hide Compiled;
    RulesMeanPlan(t, plan, p);
  }

  /** Nothing leaves for anywhere but the namespace itself and the gateway. */
  lemma {:induction false} NoEgress(t: Tables, plan: Plan, p: Packet)
    requires Compiled(t, plan) && ValidPlan(plan) && !p.known
    ensures var d := Deliver(t, plan.namespaceIp, p);
            d.Some? ==>
              127 * 0x100_0000 <= d.value.0 < 128 * 0x100_0000 || d.value.0 == plan.namespaceIp || d.value.0 == plan.hostIp
  {
    hide Compiled;
    RulesMeanPlan(t, plan, p);
    FirstIsOne(plan.hosts, p.dst, p.dport);
  }

  /** Without the catch-all a connection gets out exactly when it is local, known, or to a listener's own address. */
  lemma {:induction false} UnknownDropped(t: Tables, plan: Plan, p: Packet)
    requires Compiled(t, plan) && ValidPlan(plan) && !p.known && !plan.catchAll
    ensures Deliver(t, plan.namespaceIp, p).Some? <==>
              || IsLocal(p.dst, plan.namespaceIp)
              || (p.proto == Tcp && FirstMapping(plan.hosts, p.dst, p.dport).Some?)
              || (p.proto == Tcp && Serves(plan.hosts, p.dst, p.dport))
  {
    hide Compiled;
    RulesMeanPlan(t, plan, p);
    if p.proto == Tcp && FirstMapping(plan.hosts, p.dst, p.dport).Some? {
      KnownEndpointServed(t, plan, p);
    }
  }

  // ----- connections over time -----

  /** A connection's tuple as the guest sent it, and where it was translated to. */
  datatype Flow = Flow(proto: Proto, src: nat, sport: nat, dst: nat, dport: nat)

  /** What conntrack remembers, and every destination a packet was let out to. */
  datatype Tracker = Tracker(flows: map<Flow, (nat, nat)>, sent: seq<(nat, nat)>)

  function FlowOf(p: Packet): Flow {
    Flow(p.proto, p.src, p.sport, p.dst, p.dport)
  }

  /** One packet: of a tracked flow it is known and translated as before, otherwise it goes through both tables and
   * is tracked if let out. */
  function Send(t: Tables, namespaceIp: nat, c: Tracker, p: Packet): Tracker {
    if FlowOf(p) in c.flows then
      var (ip, port) := c.flows[FlowOf(p)];
      if Passes(t, FilterOutput, p.(dst := ip, dport := port, known := true), IsLocal(ip, namespaceIp))
      then c.(sent := c.sent + [(ip, port)]) else c
    else
      match Deliver(t, namespaceIp, p.(known := false))
      case None => c
      case Some(d) => Tracker(c.flows[FlowOf(p) := d], c.sent + [d])
  }

  function SendAll(t: Tables, namespaceIp: nat, packets: seq<Packet>): Tracker {
    if packets == [] then Tracker(map[], [])
    else Send(t, namespaceIp, SendAll(t, namespaceIp, packets[..|packets| - 1]), packets[|packets| - 1])
  }

  predicate Inside(plan: Plan, d: (nat, nat)) {
    IsLocal(d.0, plan.namespaceIp) || d.0 == plan.hostIp
  }

  ghost predicate AllInside(plan: Plan, c: Tracker) {
    && (forall f | f in c.flows :: Inside(plan, c.flows[f]))
    && (forall i | 0 <= i < |c.sent| :: Inside(plan, c.sent[i]))
  }

  lemma {:induction false} SendKeepsInside(t: Tables, plan: Plan, c: Tracker, p: Packet)
    requires Compiled(t, plan) && ValidPlan(plan) && AllInside(plan, c)
    ensures AllInside(plan, Send(t, plan.namespaceIp, c, p))
  {
    hide Compiled, ValidPlan, Deliver, Passes;
    NoEgress(t, plan, p.(known := false));
    assert Deliver(t, plan.namespaceIp, p.(known := false)).Some? ==>
             Inside(plan, Deliver(t, plan.namespaceIp, p.(known := false)).value);
  }

  /** Whatever the guest sends, in whatever order, every packet let out ends in the namespace or at the gateway. */
  lemma {:induction false} NeverOutside(t: Tables, plan: Plan, packets: seq<Packet>)
    requires Compiled(t, plan) && ValidPlan(plan)
    ensures AllInside(plan, SendAll(t, plan.namespaceIp, packets))
  {
    hide Compiled, ValidPlan, Send;
    if packets != [] {
      NeverOutside(t, plan, packets[..|packets| - 1]);
      SendKeepsInside(t, plan, SendAll(t, plan.namespaceIp, packets[..|packets| - 1]), packets[|packets| - 1]);
    }
  }
}
