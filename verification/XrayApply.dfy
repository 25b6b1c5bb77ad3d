/**
 The Xray half of the Agent's apply, put together. `encode` writes a config's JSON and `decode` reads it.
 All that is taken of JSON is that what was encoded is decoded; what the runtime then finds in a config
 text is `ConfigState` of what it decodes.
 */
module XrayApply {
  import opened Wrappers
  import opened Sorting
  import opened XrayRender
  import opened ManagedRuntime
  import Firewall
  import Health
  import HostFirewall

  datatype Json = Json(encode: Config -> string, decode: string -> Option<Config>)

  /** A value of Go's int. */
  predicate Int64(n: int) {
    -0x8000_0000_0000_0000 <= n < 0x8000_0000_0000_0000
  }

  predicate Machine(p: Proxy) {
    Int64(p.id) && Int64(p.port)
  }

  /** The configs there are to encode: with a strategy the renderer writes, and machine numbers. */
  predicate Portable(config: Config) {
    && config.strategy in [None, Some("UseIPv4v6"), Some("UseIPv6v4")]
    && forall i :: i in config.inbounds ==> Int64(i.proxyID) && Int64(i.port)
  }

  /** Decoding gives back what was encoded, which is never nothing. */
  ghost predicate Lossless(json: Json) {
    forall config :: Portable(config) ==> json.encode(config) != "" && json.decode(json.encode(config)) == Some(config)
  }

  lemma RenderedIsPortable(proxies: seq<Proxy>, preference: string)
    requires Strategy(preference).Some? && forall p :: p in proxies ==> Machine(p)
    ensures Portable(ConfigFor(proxies, preference))
  {
    MachineInbounds(proxies);
  }

  lemma {:induction false} MachineInbounds(proxies: seq<Proxy>)
    requires forall p :: p in proxies ==> Machine(p)
    ensures forall i :: i in Inbounds(proxies) ==> Int64(i.proxyID) && Int64(i.port)
  {
    if proxies != [] {
      assert proxies[0] in proxies;
      MachineInbounds(proxies[1..]);
    }
  }

  /** The rules `renderedConfigState` finds in a text; a text that is no config stands for none. */
  function XrayRulesOf(json: Json): (rulesOf: string -> Option<seq<Firewall.Rule>>) {
    (text: string) =>
      if text == "" || json.decode(text).None? then None else Some(ConfigRules(json.decode(text).value.inbounds))
  }

  function ConfigFor(proxies: seq<Proxy>, preference: string): (config: Config)
    requires Strategy(preference).Some?
  {
    Config(Strategy(preference).value, Inbounds(proxies))
  }

  function TextFor(json: Json, proxies: seq<Proxy>, preference: string): (text: string)
    requires Strategy(preference).Some?
  {
    json.encode(ConfigFor(proxies, preference))
  }

  /** The rules the proxies ask for. */
  function Wanted(proxies: seq<Proxy>): (rules: set<Firewall.Rule>) {
    Elements(ConfigRules(Inbounds(proxies)))
  }

  /** `renderedConfigState` from the text on. */
  method ReadState(json: Json, text: string) returns (known: Option<(seq<Listener>, seq<Firewall.Rule>)>)
    ensures known.Some? <==> XrayRulesOf(json)(text).Some?
    ensures known.Some? ==> known.value.1 == XrayRulesOf(json)(text).value
    ensures known.Some? ==> known.value.0 == ConfigListeners(json.decode(text).value.inbounds)
  {
    if text == "" || json.decode(text).None? {
      return None;
    }
    var listeners, rules := ConfigState(json.decode(text).value);
    return Some((listeners, rules));
  }

  /** `xrayManager.apply` with the state enabled, as for Realm. With no config to go back to a rollback
      leaves the firewall where the failed run left it; see `ManagedRuntime.Settled`. */
  method ApplyProxies(host: Host, json: Json, valid: Proxy -> bool, proxies: seq<Proxy>, preference: string)
      returns (outcome: Outcome, ghost news: seq<Step>)
    requires host.kind == Health.Xray && host.rulesOf == XrayRulesOf(json)
    modifies host, HostFirewall.Objects(host.backend)
    ensures (old(host.Owned()) ==> host.Owned()) && (old(host.crashed) ==> host.crashed) && (old(host.Honest()) ==> host.Honest())
    ensures host.failed == old(host.failed) + news && host.blind >= old(host.blind)
    ensures !Renders(valid, proxies, preference) || old(host.Stranded()) ==> outcome.Refused? && Kept(host)
    ensures Renders(valid, proxies, preference) && !old(host.Stranded()) && !host.crashed ==>
              Judged(outcome, news, old(host.config) != Some(TextFor(json, proxies, preference)))
    ensures outcome.Applied? ==>
              Renders(valid, proxies, preference) && host.config == Some(TextFor(json, proxies, preference)) && host.marker
    ensures outcome.Applied? && host.blind == old(host.blind) ==>
              HostFirewall.Through(old(host.State()), host.State(), Firewall.Proxy, Wanted(proxies))
    ensures outcome.Applied? ==>
              (host.running == host.config <==> old(host.config) != host.config || !host.found.Up? || old(host.running) == host.config)
    ensures outcome.Refused? || outcome == RolledBack(true) ==> host.config == old(host.config)
    ensures outcome == RolledBack(true) ==> host.running == old(host.config)
    ensures Settled(old(host.State()), host.State(), Firewall.Proxy, old(host.Target()), ConfigRules(Inbounds(proxies)), outcome,
                    Reached(news), host.blind != old(host.blind))
    ensures Calm(old(host.State()), Firewall.Proxy, old(host.Target()), ConfigRules(Inbounds(proxies))) ==>
              host.State().Of(Firewall.Realm) == old(host.State()).Of(Firewall.Realm)
  {
    hide ConfigRules, Inbounds, Acceptable, DistinctPorts, XrayRulesOf, Host.Honest, Host.FairAt, Host.Seen, Host.Owned,
      Host.Stranded, Host.Untouched, Host.Target, Judged, AtMostOnce, Undone, OnlyHealth, Early, Reached,
      HostFirewall.Reconciled, HostFirewall.Succeeds, HostFirewall.Ends, HostFirewall.Moves, HostFirewall.Through,
      HostFirewall.Later, HostFirewall.Valid, HostFirewall.State.Entries, HostFirewall.State.KeyFor,
      HostFirewall.State.Rules, HostFirewall.State.Blind, HostFirewall.State.Right, HostFirewall.State.EndsWith,
      HostFirewall.State.Inert, StepByStep;
    var rules := ExpectedRules(proxies);
    var candidate := Render(valid, proxies, preference);
    if candidate.Err? {
      RefusedIsSettled(host.State(), host.Owner(), host.Target(), rules);
      return Refused, [];
    }
    ghost var before := host.State();
    outcome, news := Enable(host, Some(json.encode(candidate.value)), rules);
    if outcome.Applied? {
      AppliedMeans(before, host.State(), host.Owner(), rules, host.blind != old(host.blind));
    }
  }

  /** What the runtime reads in a rendered text: JSON is lossless, and a config's inbounds give its rules. */
  lemma Known(json: Json, proxies: seq<Proxy>, preference: string)
    requires Lossless(json) && Strategy(preference).Some? && forall p :: p in proxies ==> Machine(p)
    ensures var known := XrayRulesOf(json)(TextFor(json, proxies, preference)); known.Some? && Elements(known.value) == Wanted(proxies)
  {
    hide ConfigRules, Inbounds;
    var config := ConfigFor(proxies, preference);
    RenderedIsPortable(proxies, preference);
    assert json.decode(json.encode(config)) == Some(config);
  }

  /** One apply works, and in the next one restart, health or firewall fails and nothing but a health check
      after that: the host is back at the text and the rules of the first proxies. */
  method ApplyThenRollBack(host: Host, json: Json, valid: Proxy -> bool, preference: string, first: seq<Proxy>, second: seq<Proxy>)
      returns (outcomes: (Outcome, Outcome), ghost newsOne: seq<Step>, ghost newsTwo: seq<Step>)
    requires host.kind == Health.Xray && host.rulesOf == XrayRulesOf(json) && Lossless(json)
    requires Renders(valid, first, preference) && Renders(valid, second, preference)
    requires TextFor(json, first, preference) != TextFor(json, second, preference) && forall p :: p in first ==> Machine(p)
    modifies host, HostFirewall.Objects(host.backend)
    ensures host.failed == old(host.failed) + newsOne + newsTwo && (old(host.Honest()) ==> host.Honest())
    ensures !old(host.Stranded()) && !host.crashed && newsOne == [] ==> outcomes.0 == Applied
    ensures outcomes.0 == Applied && !host.crashed && newsTwo == [] ==>
              outcomes.1 == Applied && host.config == Some(TextFor(json, second, preference))
    ensures outcomes.0 == Applied && !host.crashed && newsTwo != []
            && (newsTwo[0].Restart? || newsTwo[0].Health? || newsTwo[0].Reconcile?) && (forall k :: k in newsTwo[1..] ==> k.Health?) ==>
              outcomes.1 == RolledBack(true) && host.config == Some(TextFor(json, first, preference)) == host.running
    ensures outcomes.0 == Applied && !host.crashed && newsTwo != []
            && (newsTwo[0].Restart? || newsTwo[0].Health? || newsTwo[0].Reconcile?) && (forall k :: k in newsTwo[1..] ==> k.Health?)
            && host.blind == old(host.blind)
            && old(host.State()).Right(Firewall.Proxy, Wanted(first)) && (Reached(newsTwo) && old(host.State()).Numbered? ==> !old(host.State()).ipv6) ==>
              host.State().Rules(Firewall.Proxy) == Wanted(first)
  {
    assert Strategy(preference).Some?;
    hide ConfigRules, Inbounds, Renders, TextFor;
    var one, two;
    one, newsOne := ApplyProxies(host, json, valid, first, preference);
    ghost var mid, target := host.State(), host.Target();
    two, newsTwo := ApplyProxies(host, json, valid, second, preference);
    outcomes := (one, two);
    if one == Applied && !host.crashed && OneLateFailure(newsTwo) {
      Known(json, first, preference);
      if host.blind == old(host.blind) && old(host.State()).Right(host.Owner(), Wanted(first)) {
        LateFailureIsUndone(mid, host.State(), host.Owner(), target.value, ConfigRules(Inbounds(second)), two, newsTwo, false);
      }
    }
  }
}
