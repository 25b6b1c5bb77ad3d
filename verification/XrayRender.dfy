/**
 The Xray config of panel/cmd/agent/xray_render.go and xray.go: which proxies become inbounds, and
 what the parser of a previous config says about listeners and firewall rules. JSON is taken as
 lossless, so a config is its outbound strategy and its list of inbounds. `valid` is the per-protocol validation.
 */
module XrayRender {
  import opened Wrappers
  import opened Sorting
  import Firewall

  type Rule = Firewall.Rule

  datatype Proxy = Proxy(id: int, listen: string, port: int, protocol: string, clients: nat)

  datatype Inbound = Inbound(proxyID: int, listen: string, port: int, protocol: string)

  /** `strategy` is the direct outbound's domainStrategy. */
  datatype Config = Config(strategy: Option<string>, inbounds: seq<Inbound>)

  datatype Listener = Listener(address: string, port: int)

  datatype Refusal = UnsupportedManagedConfig

  /** A Shadowsocks proxy nobody may use is checked and then left out. */
  predicate Included(p: Proxy) {
    !(p.protocol == "shadowsocks" && p.clients == 0)
  }

  /** None for a preference the renderer does not know. */
  function Strategy(preference: string): (s: Option<Option<string>>) {
    match preference
    case "" => Some(None)
    case "auto" => Some(None)
    case "prefer_ipv4" => Some(Some("UseIPv4v6"))
    case "prefer_ipv6" => Some(Some("UseIPv6v4"))
    case _ => None
  }

  predicate Acceptable(valid: Proxy -> bool, p: Proxy) {
    (p.protocol == "vless" || p.protocol == "shadowsocks") && valid(p)
  }

  function ToInbound(p: Proxy): (i: Inbound) {
    Inbound(p.id, p.listen, p.port, p.protocol)
  }

  function Inbounds(proxies: seq<Proxy>): (ins: seq<Inbound>) {
    if proxies == [] then [] else (if Included(proxies[0]) then [ToInbound(proxies[0])] else []) + Inbounds(proxies[1..])
  }

  predicate DistinctPorts(ins: seq<Inbound>) {
    forall i, j :: 0 <= i < j < |ins| ==> ins[i].port != ins[j].port
  }

  function Ports(ins: seq<Inbound>): (ports: set<int>) {
    set i | i in ins :: i.port
  }

  lemma {:induction false} InboundsSnoc(proxies: seq<Proxy>, p: Proxy)
    ensures Included(p) ==> Inbounds(proxies + [p]) == Inbounds(proxies) + [ToInbound(p)]
    ensures !Included(p) ==> Inbounds(proxies + [p]) == Inbounds(proxies)
  {
    if proxies == [] {
      assert [] + [p] == [p] && [p][1..] == [];
      assert Inbounds([]) == [];
    } else {
      assert (proxies + [p])[0] == proxies[0] && (proxies + [p])[1..] == proxies[1..] + [p];
      InboundsSnoc(proxies[1..], p);
    }
  }

  lemma {:induction false} InboundsPrefix(proxies: seq<Proxy>, i: nat)
    requires i <= |proxies|
    ensures Inbounds(proxies[..i]) <= Inbounds(proxies)
    decreases |proxies| - i
  {
    if i < |proxies| {
      assert proxies[..i + 1] == proxies[..i] + [proxies[i]];
      InboundsSnoc(proxies[..i], proxies[i]);
      InboundsPrefix(proxies, i + 1);
    } else {
      assert proxies[..i] == proxies;
    }
  }

  /** One round of the loops: the next proxy joins the inbounds or is left out. */
  lemma NextProxy(proxies: seq<Proxy>, i: nat)
    requires i < |proxies|
    ensures Inbounds(proxies[..i + 1]) <= Inbounds(proxies)
    ensures Inbounds(proxies[..i + 1]) == if Included(proxies[i]) then Inbounds(proxies[..i]) + [ToInbound(proxies[i])] else Inbounds(proxies[..i])
  {
    assert proxies[..i + 1] == proxies[..i] + [proxies[i]];
    InboundsSnoc(proxies[..i], proxies[i]);
    InboundsPrefix(proxies, i + 1);
  }

  /** A repeated port cannot be repaired by what follows. */
  lemma PortTaken(all: seq<Inbound>, placed: seq<Inbound>, next: Inbound)
    requires placed + [next] <= all && next.port in Ports(placed)
    ensures !DistinctPorts(all)
  {
    var k :| 0 <= k < |placed| && placed[k].port == next.port;
    assert all[k] == (placed + [next])[k] && all[|placed|] == (placed + [next])[|placed|];
  }

  lemma PortFree(placed: seq<Inbound>, next: Inbound)
    requires next.port !in Ports(placed)
    ensures Ports(placed + [next]) == Ports(placed) + {next.port}
    ensures DistinctPorts(placed) ==> DistinctPorts(placed + [next])
  {
  }

  /** A known preference, every proxy acceptable, and no two included ones on one port. */
  ghost predicate Renders(valid: Proxy -> bool, proxies: seq<Proxy>, preference: string) {
    Strategy(preference).Some? && (forall p :: p in proxies ==> Acceptable(valid, p)) && DistinctPorts(Inbounds(proxies))
  }

  lemma UnknownStrategy(valid: Proxy -> bool, proxies: seq<Proxy>, preference: string)
    requires Strategy(preference).None?
    ensures !Renders(valid, proxies, preference)
  {
  }

  lemma UnacceptableProxy(valid: Proxy -> bool, proxies: seq<Proxy>, preference: string, i: nat)
    requires i < |proxies| && !Acceptable(valid, proxies[i])
    ensures !Renders(valid, proxies, preference)
  {
  }

  lemma AllAcceptable(valid: Proxy -> bool, proxies: seq<Proxy>, preference: string)
    requires Strategy(preference).Some?
    requires forall k :: 0 <= k < |proxies| ==> Acceptable(valid, proxies[k])
    requires DistinctPorts(Inbounds(proxies))
    ensures Renders(valid, proxies, preference)
  {
  }

  /** `renderManagedXrayConfig`: the included proxies in order, or a refusal. */
  method Render(valid: Proxy -> bool, proxies: seq<Proxy>, preference: string) returns (r: Result<Config, Refusal>)
    ensures r.Ok? <==> Renders(valid, proxies, preference)
    ensures r.Ok? ==> r.value == Config(Strategy(preference).value, Inbounds(proxies))
    ensures r.Ok? ==> Prefers(preference, r.value.strategy) && Carries(proxies, r.value.inbounds)
    ensures r.Ok? <==> Renderable(valid, proxies, preference)
  {
    hide Inbounds, Ports, DistinctPorts, Acceptable, Included, Renders, Strategy, Renderable, Carries, Prefers;
    RendersIs(valid, proxies, preference);
    InboundsCarry(proxies);
    StrategyIs(preference);
    var strategy := Strategy(preference);
    if strategy.None? {
      UnknownStrategy(valid, proxies, preference);
      return Err(UnsupportedManagedConfig);
    }
    NothingYet(proxies);
    var inbounds: seq<Inbound> := [];
    var ports: set<int> := {};
    for i := 0 to |proxies|
      invariant forall k :: 0 <= k < i ==> Acceptable(valid, proxies[k])
      invariant inbounds == Inbounds(proxies[..i]) && DistinctPorts(inbounds)
      invariant ports == Ports(inbounds)
    {
      var proxy := proxies[i];
      NextProxy(proxies, i);
      if !Acceptable(valid, proxy) {
        UnacceptableProxy(valid, proxies, preference, i);
        return Err(UnsupportedManagedConfig);
      }
      if Included(proxy) {
        if proxy.port in ports {
          PortTaken(Inbounds(proxies), inbounds, ToInbound(proxy));
          SharedPort(valid, proxies, preference);
          return Err(UnsupportedManagedConfig);
        }
        PortFree(inbounds, ToInbound(proxy));
        ports := ports + {proxy.port};
        inbounds := inbounds + [ToInbound(proxy)];
      }
    }
    assert proxies[..|proxies|] == proxies;
    AllAcceptable(valid, proxies, preference);
    return Ok(Config(strategy.value, inbounds));
  }

  // What the functions above come to, by protocol, port and address ---------------------------------

  /** A proxy that gets an inbound: any VLESS one, and a Shadowsocks one with a client. */
  predicate Serves(p: Proxy) {
    p.protocol != "shadowsocks" || p.clients > 0
  }

  /** TCP on the port of every serving proxy, and UDP too where it speaks Shadowsocks. */
  ghost predicate Opens(proxies: seq<Proxy>, rule: Rule) {
    exists p :: p in proxies && Serves(p) && rule.port == p.port
                && (rule.protocol == "tcp" || (rule.protocol == "udp" && p.protocol == "shadowsocks"))
  }

  /** The health check dials the loopback address of the family the proxy listens on. */
  ghost predicate Dials(proxies: seq<Proxy>, l: Listener) {
    exists p :: p in proxies && Serves(p) && l.port == p.port && l.address == if p.listen == "::" then "::1" else "127.0.0.1"
  }

  predicate Writes(p: Proxy, i: Inbound) {
    i.proxyID == p.id && i.listen == p.listen && i.port == p.port && i.protocol == p.protocol
  }

  /** The inbounds are the proxies at these places, and no other one serves. */
  ghost predicate CarriedAt(proxies: seq<Proxy>, ins: seq<Inbound>, at: seq<int>) {
    && |at| == |ins| && (forall j, k :: 0 <= j < k < |at| ==> at[j] < at[k])
    && (forall k :: 0 <= k < |at| ==> 0 <= at[k] < |proxies| && Serves(proxies[at[k]]) && Writes(proxies[at[k]], ins[k]))
    && forall i :: 0 <= i < |proxies| && Serves(proxies[i]) ==> i in at
  }

  /** The inbounds are the serving proxies, field by field and in order. */
  ghost predicate Carries(proxies: seq<Proxy>, ins: seq<Inbound>) {
    exists at :: CarriedAt(proxies, ins, at)
  }

  lemma {:induction false} InboundsCarry(proxies: seq<Proxy>)
    ensures Carries(proxies, Inbounds(proxies))
    decreases |proxies|
  {
    if proxies == [] {
      assert CarriedAt(proxies, [], []);
    } else {
      var init, p := proxies[..|proxies| - 1], proxies[|proxies| - 1];
      InboundsCarry(init);
      assert proxies == init + [p];
      InboundsSnoc(init, p);
      hide Inbounds, CarriedAt;
      var at :| CarriedAt(init, Inbounds(init), at);
      if Serves(p) {
        CarryOne(init, Inbounds(init), at, p, ToInbound(p));
      } else {
        CarryNone(init, Inbounds(init), at, p);
      }
    }
  }

  lemma CarryOne(init: seq<Proxy>, ins: seq<Inbound>, at: seq<int>, p: Proxy, i: Inbound)
    requires CarriedAt(init, ins, at) && Serves(p) && Writes(p, i)
    ensures CarriedAt(init + [p], ins + [i], at + [|init|])
  {
    hide Serves, Writes;
    var more := at + [|init|];
    assert more[|at|] == |init|;
    assert forall k :: k in at ==> k in more;
  }

  lemma CarryNone(init: seq<Proxy>, ins: seq<Inbound>, at: seq<int>, p: Proxy)
    requires CarriedAt(init, ins, at) && !Serves(p)
    ensures CarriedAt(init + [p], ins, at)
  {
    hide Serves, Writes;
  }

  /** Two serving proxies share a port. */
  ghost predicate Clash(proxies: seq<Proxy>) {
    exists i, j :: 0 <= i < j < |proxies| && Serves(proxies[i]) && Serves(proxies[j]) && proxies[i].port == proxies[j].port
  }

  lemma ClashIs(proxies: seq<Proxy>, ins: seq<Inbound>)
    requires Carries(proxies, ins)
    ensures DistinctPorts(ins) <==> !Clash(proxies)
  {
    hide Serves, CarriedAt;
    var at :| CarriedAt(proxies, ins, at);
    if !DistinctPorts(ins) {
      var j, k :| 0 <= j < k < |ins| && ins[j].port == ins[k].port;
      ClashBehind(proxies, ins, at, j, k);
    }
    if Clash(proxies) {
      var i, j :| 0 <= i < j < |proxies| && Serves(proxies[i]) && Serves(proxies[j]) && proxies[i].port == proxies[j].port;
      var k := PlaceOf(proxies, ins, at, i);
      var l := PlaceOf(proxies, ins, at, j);
      InPlaces(proxies, ins, at, k, l);
    }
  }

  lemma ClashBehind(proxies: seq<Proxy>, ins: seq<Inbound>, at: seq<int>, j: nat, k: nat)
    requires CarriedAt(proxies, ins, at) && j < k < |ins| && ins[j].port == ins[k].port
    ensures Clash(proxies)
  {
    hide Serves;
    assert at[j] < at[k] && proxies[at[j]].port == proxies[at[k]].port;
  }

  lemma PlaceOf(proxies: seq<Proxy>, ins: seq<Inbound>, at: seq<int>, i: nat) returns (k: nat)
    requires CarriedAt(proxies, ins, at) && i < |proxies| && Serves(proxies[i])
    ensures k < |ins| && k < |at| && at[k] == i && ins[k].port == proxies[i].port
  {
    hide Serves;
    assert i in at;
    k :| 0 <= k < |at| && at[k] == i;
  }

  lemma InPlaces(proxies: seq<Proxy>, ins: seq<Inbound>, at: seq<int>, k: nat, l: nat)
    requires CarriedAt(proxies, ins, at) && k < |at| && l < |at| && at[k] < at[l] && ins[k].port == ins[l].port
    ensures !DistinctPorts(ins)
  {
    hide Serves, Writes;
    assert k < l;
  }

  /** The preference is known, every proxy is of a known protocol and valid, and none shares a port. */
  ghost predicate Renderable(valid: Proxy -> bool, proxies: seq<Proxy>, preference: string) {
    && preference in ["", "auto", "prefer_ipv4", "prefer_ipv6"]
    && (forall p :: p in proxies ==> p.protocol in ["vless", "shadowsocks"] && valid(p)) && !Clash(proxies)
  }

  lemma RendersIs(valid: Proxy -> bool, proxies: seq<Proxy>, preference: string)
    ensures Renders(valid, proxies, preference) <==> Renderable(valid, proxies, preference)
  {
    InboundsCarry(proxies);
    hide Inbounds, Carries, DistinctPorts, Clash;
    ClashIs(proxies, Inbounds(proxies));
  }

  lemma {:induction false} RulesAre(proxies: seq<Proxy>, rule: Rule)
    ensures rule in ConfigRules(Inbounds(proxies)) <==> Opens(proxies, rule)
    decreases |proxies|
  {
    if proxies != [] {
      var init, p := proxies[..|proxies| - 1], proxies[|proxies| - 1];
      RulesAre(init, rule);
      assert proxies == init + [p];
      InboundsSnoc(init, p);
      ConfigRulesSnoc(Inbounds(init), ToInbound(p));
      hide Inbounds, ConfigRules;
      assert Serves(p) <==> Included(p);
      assert forall q :: q in proxies <==> q in init || q == p;
    }
  }

  lemma {:induction false} ListenersAre(proxies: seq<Proxy>, l: Listener)
    ensures l in ConfigListeners(Inbounds(proxies)) <==> Dials(proxies, l)
    decreases |proxies|
  {
    if proxies != [] {
      var init, p := proxies[..|proxies| - 1], proxies[|proxies| - 1];
      ListenersAre(init, l);
      assert proxies == init + [p];
      InboundsSnoc(init, p);
      ConfigListenersSnoc(Inbounds(init), ToInbound(p));
      hide Inbounds, ConfigListeners;
      assert Serves(p) <==> Included(p);
      assert forall q :: q in proxies <==> q in init || q == p;
    }
  }

  /** The four preferences there are, and the domain strategy each stands for. */
  ghost predicate Prefers(preference: string, strategy: Option<string>) {
    || ((preference == "" || preference == "auto") && strategy.None?)
    || (preference == "prefer_ipv4" && strategy == Some("UseIPv4v6"))
    || (preference == "prefer_ipv6" && strategy == Some("UseIPv6v4"))
  }

  lemma StrategyIs(preference: string)
    ensures Strategy(preference).Some? ==> Prefers(preference, Strategy(preference).value)
    ensures Strategy(preference).None? ==> forall strategy :: !Prefers(preference, strategy)
  {
  }

  lemma SharedPort(valid: Proxy -> bool, proxies: seq<Proxy>, preference: string)
    requires !DistinctPorts(Inbounds(proxies))
    ensures !Renders(valid, proxies, preference)
  {
  }

  lemma NothingYet(proxies: seq<Proxy>)
    ensures Inbounds(proxies[..0]) == [] && Ports([]) == {} && DistinctPorts([])
  {
  }

  function HealthAddress(listen: string): (a: string) {
    if listen == "::" then "::1" else "127.0.0.1"
  }

  function RulesFor(port: int, protocol: string): (rules: seq<Rule>) {
    [Firewall.Rule(port, "tcp")] + (if protocol == "shadowsocks" then [Firewall.Rule(port, "udp")] else [])
  }

  function ConfigRules(ins: seq<Inbound>): (rules: seq<Rule>) {
    if ins == [] then [] else RulesFor(ins[0].port, ins[0].protocol) + ConfigRules(ins[1..])
  }

  function ConfigListeners(ins: seq<Inbound>): (ls: seq<Listener>) {
    seq(|ins|, i requires 0 <= i < |ins| => Listener(HealthAddress(ins[i].listen), ins[i].port))
  }

  lemma {:induction false} ConfigRulesSnoc(ins: seq<Inbound>, next: Inbound)
    ensures ConfigRules(ins + [next]) == ConfigRules(ins) + RulesFor(next.port, next.protocol)
  {
    if ins == [] {
      assert [next][1..] == [];
    } else {
      assert (ins + [next])[1..] == ins[1..] + [next];
      ConfigRulesSnoc(ins[1..], next);
    }
  }

  /** `renderedConfigState` of a config that decodes. */
  method ConfigState(config: Config) returns (listeners: seq<Listener>, rules: seq<Rule>)
    ensures listeners == ConfigListeners(config.inbounds) && rules == ConfigRules(config.inbounds)
  {
    var ins := config.inbounds;
    listeners, rules := [], [];
    for i := 0 to |ins|
      invariant listeners == ConfigListeners(ins[..i]) && rules == ConfigRules(ins[..i])
    {
      assert ins[..i + 1] == ins[..i] + [ins[i]];
      ConfigRulesSnoc(ins[..i], ins[i]);
      listeners := listeners + [Listener(HealthAddress(ins[i].listen), ins[i].port)];
      rules := rules + [Firewall.Rule(ins[i].port, "tcp")];
      if ins[i].protocol == "shadowsocks" {
        rules := rules + [Firewall.Rule(ins[i].port, "udp")];
      }
    }
    assert ins[..|ins|] == ins;
  }

  /** `expectedProxyFirewallRules`: the rules of the config the proxies render to, element by element. */
  method ExpectedRules(proxies: seq<Proxy>) returns (rules: seq<Rule>)
    ensures rules == ConfigRules(Inbounds(proxies))
    ensures forall rule :: rule in rules <==> Opens(proxies, rule)
  {
    forall rule: Rule
      ensures rule in ConfigRules(Inbounds(proxies)) <==> Opens(proxies, rule)
    {
      RulesAre(proxies, rule);
    }
    rules := [];
    for i := 0 to |proxies|
      invariant rules == ConfigRules(Inbounds(proxies[..i]))
    {
      var proxy := proxies[i];
      assert proxies[..i + 1] == proxies[..i] + [proxy];
      InboundsSnoc(proxies[..i], proxy);
      if proxy.protocol == "shadowsocks" && proxy.clients == 0 {
        continue;
      }
      ConfigRulesSnoc(Inbounds(proxies[..i]), ToInbound(proxy));
      rules := rules + [Firewall.Rule(proxy.port, "tcp")];
      if proxy.protocol == "shadowsocks" {
        rules := rules + [Firewall.Rule(proxy.port, "udp")];
      }
    }
    assert proxies[..|proxies|] == proxies;
  }

  predicate ByPort(a: Listener, b: Listener) {
    a.port < b.port
  }

  lemma ConfigListenersSnoc(ins: seq<Inbound>, next: Inbound)
    ensures ConfigListeners(ins + [next]) == ConfigListeners(ins) + [Listener(HealthAddress(next.listen), next.port)]
  {
  }

  predicate OnePerPort(found: seq<Listener>, seen: set<int>) {
    && (forall k :: 0 <= k < |found| ==> found[k].port in seen) && (forall port :: port in seen ==> exists l :: l in found && l.port == port)
    && forall j, k :: 0 <= j < k < |found| ==> found[j].port != found[k].port
  }

  lemma NewListener(found: seq<Listener>, seen: set<int>, next: Listener)
    requires OnePerPort(found, seen) && next.port !in seen
    ensures OnePerPort(found + [next], seen + {next.port})
  {
    forall port | port in seen + {next.port}
      ensures exists l :: l in found + [next] && l.port == port
    {
      if port in seen {
        var l :| l in found && l.port == port;
        assert l in found + [next];
      } else {
        assert next in found + [next];
      }
    }
  }

  lemma SortedOnePerPort(found: seq<Listener>, seen: set<int>, listeners: seq<Listener>)
    requires OnePerPort(found, seen) && Elements(listeners) == Elements(found) && InOrder(listeners, ByPort)
    ensures forall i, j :: 0 <= i < j < |listeners| ==> listeners[i].port < listeners[j].port
    ensures forall port :: port in seen <==> exists l :: l in listeners && l.port == port
  {
    forall i, j | 0 <= i < j < |listeners|
      ensures listeners[i].port < listeners[j].port
    {
      assert listeners[i] in Elements(found) && listeners[j] in Elements(found);
    }
    forall port
      ensures port in seen <==> exists l :: l in listeners && l.port == port
    {
      forall l: Listener
        ensures l in listeners <==> l in found
      {
        assert l in Elements(listeners) <==> l in Elements(found);
      }
    }
  }

  lemma SeenAgain(placed: seq<Inbound>, next: Inbound)
    requires next.port in Ports(placed)
    ensures Ports(placed + [next]) == Ports(placed)
  {
  }

  /** `expectedProxyListeners`: one listener a port, by port. For proxies that render, these are the
      config's listeners in another order. */
  method ExpectedListeners(proxies: seq<Proxy>) returns (listeners: seq<Listener>)
    ensures forall i, j :: 0 <= i < j < |listeners| ==> listeners[i].port < listeners[j].port
    ensures forall port :: (exists l :: l in listeners && l.port == port) <==> port in Ports(Inbounds(proxies))
    ensures DistinctPorts(Inbounds(proxies)) ==>
              Elements(listeners) == Elements(ConfigListeners(Inbounds(proxies))) && |listeners| == |Inbounds(proxies)|
  {
    var found: seq<Listener> := [];
    var seen: set<int> := {};
    ghost var all := Inbounds(proxies);
    assert Ports([]) == {} && Inbounds(proxies[..0]) == [];
    assert ConfigListeners([]) == [];
    hide Inbounds, Ports, DistinctPorts, HealthAddress, ConfigListeners;
    for i := 0 to |proxies|
      invariant seen == Ports(Inbounds(proxies[..i]))
      invariant OnePerPort(found, seen)
      invariant DistinctPorts(all) ==> found == ConfigListeners(Inbounds(proxies[..i]))
    {
      var proxy := proxies[i];
      ghost var placed := Inbounds(proxies[..i]);
      NextProxy(proxies, i);
      if proxy.protocol == "shadowsocks" && proxy.clients == 0 {
        continue;
      }
      if proxy.port in seen {
        PortTaken(all, placed, ToInbound(proxy));
        SeenAgain(placed, ToInbound(proxy));
        continue;
      }
      PortFree(placed, ToInbound(proxy));
      ConfigListenersSnoc(placed, ToInbound(proxy));
      NewListener(found, seen, Listener(HealthAddress(proxy.listen), proxy.port));
      seen := seen + {proxy.port};
      found := found + [Listener(HealthAddress(proxy.listen), proxy.port)];
    }
    assert proxies[..|proxies|] == proxies;
    DistinctCount(found);
    listeners := Sorted(Elements(found), ByPort);
    SortedOnePerPort(found, seen, listeners);
  }

  lemma {:induction false} DistinctCount(ls: seq<Listener>)
    requires forall j, k :: 0 <= j < k < |ls| ==> ls[j] != ls[k]
    ensures |Elements(ls)| == |ls|
  {
    if ls != [] {
      var init := ls[..|ls| - 1];
      DistinctCount(init);
      assert Elements(ls) == Elements(init) + {ls[|ls| - 1]};
      assert ls[|ls| - 1] !in Elements(init);
    }
  }

  /** Rendering and reading back, as a rollback does: the rules come back exactly as expected of the
      proxies, the listeners up to order. */
  method RenderThenRead(valid: Proxy -> bool, proxies: seq<Proxy>, preference: string)
      returns (known: Option<(seq<Listener>, seq<Rule>)>, wanted: (seq<Listener>, seq<Rule>))
    ensures known.Some? <==> Renders(valid, proxies, preference)
    ensures known.Some? ==> known.value == (ConfigListeners(Inbounds(proxies)), ConfigRules(Inbounds(proxies)))
    ensures wanted.1 == ConfigRules(Inbounds(proxies)) && (forall i, j :: 0 <= i < j < |wanted.0| ==> wanted.0[i].port < wanted.0[j].port)
    ensures known.Some? ==> Elements(known.value.0) == Elements(wanted.0) && |known.value.0| == |wanted.0|
    ensures known.Some? ==> forall l :: l in known.value.0 <==> Dials(proxies, l)
    ensures known.Some? ==> forall rule :: rule in known.value.1 <==> Opens(proxies, rule)
  {
    forall rule: Rule
      ensures rule in ConfigRules(Inbounds(proxies)) <==> Opens(proxies, rule)
    {
      RulesAre(proxies, rule);
    }
    forall l: Listener
      ensures l in ConfigListeners(Inbounds(proxies)) <==> Dials(proxies, l)
    {
      ListenersAre(proxies, l);
    }
    var config := Render(valid, proxies, preference);
    var wantedRules := ExpectedRules(proxies);
    var wantedListeners := ExpectedListeners(proxies);
    wanted := (wantedListeners, wantedRules);
    if config.Err? {
      return None, wanted;
    }
    var listeners, rules := ConfigState(config.value);
    known := Some((listeners, rules));
  }
}
