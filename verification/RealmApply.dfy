/**
 The Realm half of the Agent's apply, put together: render, install, and on failure restore from
 what the parser reads in the old text.
 */
module RealmApply {
  import opened Wrappers
  import opened Sorting
  import opened RealmRender
  import opened ManagedRuntime
  import Firewall
  import Health
  import HostFirewall

  /** The parser as the runtime uses it. */
  function RealmRulesOf(syntax: Syntax): (rulesOf: string -> Option<seq<Firewall.Rule>>) {
    (text: string) => if ParseSpec(syntax, text).Some? then Some(ParseSpec(syntax, text).value.rules) else None
  }

  function TextFor(syntax: Syntax, relays: seq<Relay>): (text: Result<string, Refusal>) {
    RenderSpec(syntax, SortById(relays), false)
  }

  /** The rules the relays ask for. */
  function Wanted(relays: seq<Relay>): (rules: set<Firewall.Rule>) {
    Elements(ExpectedRules(relays))
  }

  /** `realmManager.apply` with the state enabled. Relays that cannot be rendered change nothing. On a host
      that is not stranded the steps that failed decide the outcome; success means this very text and,
      unless the chain could not be listed, the rules of these relays if and only if the firewall was right
      for them; and a clean rollback means the old text and, with a firewall that was in step, the old
      rules. */
  method ApplyRelays(host: Host, syntax: Syntax, relays: seq<Relay>) returns (outcome: Outcome, ghost news: seq<Step>)
    requires Sane(syntax) && host.kind == Health.Realm && host.rulesOf == RealmRulesOf(syntax)
    modifies host, HostFirewall.Objects(host.backend)
    ensures (old(host.Owned()) ==> host.Owned()) && (old(host.crashed) ==> host.crashed) && (old(host.Honest()) ==> host.Honest())
    ensures host.failed == old(host.failed) + news && host.blind >= old(host.blind)
    ensures TextFor(syntax, relays).Err? || old(host.Stranded()) ==> outcome.Refused? && Kept(host)
    ensures TextFor(syntax, relays).Ok? && !old(host.Stranded()) && !host.crashed ==>
              Judged(outcome, news, old(host.config) != Some(TextFor(syntax, relays).value))
    ensures outcome.Applied? ==> TextFor(syntax, relays).Ok? && host.config == Some(TextFor(syntax, relays).value) && host.marker
    ensures outcome.Applied? && host.blind == old(host.blind) ==>
              HostFirewall.Through(old(host.State()), host.State(), Firewall.Realm, Wanted(relays))
    ensures outcome.Applied? ==>
              (host.running == host.config <==> old(host.config) != host.config || !host.found.Up? || old(host.running) == host.config)
    ensures outcome.Refused? || outcome == RolledBack(true) ==> host.config == old(host.config)
    ensures outcome == RolledBack(true) ==> host.running == old(host.config)
    ensures Settled(old(host.State()), host.State(), Firewall.Realm, old(host.Target()), ExpectedRules(relays), outcome,
                    Reached(news), host.blind != old(host.blind))
    ensures Calm(old(host.State()), Firewall.Realm, old(host.Target()), ExpectedRules(relays)) ==>
              host.State().Of(Firewall.Proxy) == old(host.State()).Of(Firewall.Proxy)
  {
    hide ParseSpec, RenderSpec, ExpectedRules, SortById, Accepted, Sane, RealmRulesOf, Host.Honest, Host.FairAt,
      Host.Seen, Host.Owned, Host.Stranded, Host.Untouched, Host.Target, Judged, AtMostOnce, Undone, OnlyHealth,
      Early, Reached, HostFirewall.Reconciled, HostFirewall.Succeeds, HostFirewall.Ends, HostFirewall.Moves,
      HostFirewall.Through, HostFirewall.Later, HostFirewall.Valid, HostFirewall.State.Entries,
      HostFirewall.State.KeyFor, HostFirewall.State.Rules, HostFirewall.State.Blind, HostFirewall.State.Right,
      HostFirewall.State.EndsWith, HostFirewall.State.Inert, StepByStep;
    var text := RenderRealmConfig(syntax, relays, false);
    if text.Err? {
      RefusedIsSettled(host.State(), host.Owner(), host.Target(), ExpectedRules(relays));
      return Refused, [];
    }
    ghost var before := host.State();
    outcome, news := Enable(host, Some(text.value), ExpectedRules(relays));
    if outcome.Applied? {
      AppliedMeans(before, host.State(), host.Owner(), ExpectedRules(relays), host.blind != old(host.blind));
    }
  }

  /** One apply works, and in the next one restart, health or firewall fails and nothing but a health check
      after that: the host is back at the text and the rules of the first relays. */
  method ApplyThenRollBack(host: Host, syntax: Syntax, first: seq<Relay>, second: seq<Relay>)
      returns (outcomes: (Outcome, Outcome), ghost newsOne: seq<Step>, ghost newsTwo: seq<Step>)
    requires Sane(syntax) && host.kind == Health.Realm && host.rulesOf == RealmRulesOf(syntax)
    requires TextFor(syntax, first).Ok? && TextFor(syntax, second).Ok? && TextFor(syntax, first) != TextFor(syntax, second)
    modifies host, HostFirewall.Objects(host.backend)
    ensures host.failed == old(host.failed) + newsOne + newsTwo && (old(host.Honest()) ==> host.Honest())
    ensures !old(host.Stranded()) && !host.crashed && newsOne == [] ==> outcomes.0 == Applied
    ensures outcomes.0 == Applied && !host.crashed && newsTwo == [] ==> outcomes.1 == Applied && host.config == Some(TextFor(syntax, second).value)
    ensures outcomes.0 == Applied && !host.crashed && newsTwo != []
            && (newsTwo[0].Restart? || newsTwo[0].Health? || newsTwo[0].Reconcile?) && (forall k :: k in newsTwo[1..] ==> k.Health?) ==>
              outcomes.1 == RolledBack(true) && host.config == Some(TextFor(syntax, first).value) == host.running
    ensures outcomes.0 == Applied && !host.crashed && newsTwo != []
            && (newsTwo[0].Restart? || newsTwo[0].Health? || newsTwo[0].Reconcile?) && (forall k :: k in newsTwo[1..] ==> k.Health?)
            && host.blind == old(host.blind)
            && old(host.State()).Right(Firewall.Realm, Wanted(first)) && (Reached(newsTwo) && old(host.State()).Numbered? ==> !old(host.State()).ipv6) ==>
              host.State().Rules(Firewall.Realm) == Wanted(first)
  {
    hide ParseSpec, RenderSpec, ExpectedRules, SortById;
    var one, two;
    one, newsOne := ApplyRelays(host, syntax, first);
    ghost var mid, target := host.State(), host.Target();
    two, newsTwo := ApplyRelays(host, syntax, second);
    outcomes := (one, two);
    if one == Applied && !host.crashed && OneLateFailure(newsTwo) {
      Known(syntax, first);
      if host.blind == old(host.blind) && old(host.State()).Right(host.Owner(), Wanted(first)) {
        LateFailureIsUndone(mid, host.State(), host.Owner(), target.value, ExpectedRules(second), two, newsTwo, false);
      }
    }
  }

  /** What the runtime's parser reads in a rendered text. */
  lemma Known(syntax: Syntax, relays: seq<Relay>)
    requires Sane(syntax) && TextFor(syntax, relays).Ok?
    ensures var known := RealmRulesOf(syntax)(TextFor(syntax, relays).value); known.Some? && Elements(known.value) == Wanted(relays)
  {
    SortByIdSorts(relays);
    RestoredRules(syntax, relays);
  }
}
