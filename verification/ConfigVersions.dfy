/**
 Versioned desired state between Panel and Agent: panel/internal/agentcontrol/result.go on one side,
 `configSynchronizer.sync` of panel/cmd/agent/config_sync.go on the other, and a network that loses,
 repeats and reorders reports in between.
 */
module ConfigVersions {
  import opened Wrappers

  datatype Status = Success | Failed

  datatype Report = Report(version: int, status: Status, message: string)

  datatype RecordError = InvalidConfigResult | InvalidAgentToken | ConfigVersionAhead

  const MAX_CONFIG_SYNC_ERROR_BYTES: nat := 4096

  /** The columns of one agent row joined with its server. */
  class PanelRow {
    var live: bool
    var desired: int
    var applied: int
    var status: Option<Status>
    var error: string

    constructor (desired: int)
      requires desired >= 0
      ensures live && this.desired == desired && applied == 0 && status.None?
    {
      live, this.desired, applied, status, error := true, desired, 0, None, "";
    }

    /** `RecordConfigResult`: an older report changes nothing, a newer one than desired is refused, and
        the applied version follows successes only, upwards. */
    method RecordConfigResult(report: Report) returns (refusal: Option<RecordError>)
      modifies `applied, `status, `error
      ensures refusal == (if report.version <= 0 || |report.message| > 4096 then Some(InvalidConfigResult)
                          else if !live then Some(InvalidAgentToken)
                          else if report.version > desired then Some(ConfigVersionAhead) else None)
      ensures applied == if refusal.None? && report.status.Success? && report.version > old(applied) then report.version else old(applied)
      ensures refusal.Some? || report.version < old(applied) ==> status == old(status) && error == old(error)
      ensures refusal.None? && report.version >= old(applied) ==>
                status == Some(report.status) && error == if report.status.Success? then "" else report.message
    {
      if report.version <= 0 || |report.message| > MAX_CONFIG_SYNC_ERROR_BYTES {
        return Some(InvalidConfigResult);
      }
      if !live {
        return Some(InvalidAgentToken);
      }
      if report.version > desired {
        return Some(ConfigVersionAhead);
      }
      if report.version < applied {
        return None;
      }
      if report.status.Success? {
        applied := if applied > report.version then applied else report.version;
        status, error := Some(Success), "";
      } else {
        status, error := Some(Failed), report.message;
      }
      return None;
    }

    /** `RecordDesiredStateFailure`: the status only. */
    method RecordDesiredStateFailure(message: string) returns (refusal: Option<RecordError>)
      modifies `status, `error
      ensures refusal.None? <==> message != "" && |message| <= 4096 && live
      ensures if refusal.None? then status == Some(Failed) && error == message else status == old(status) && error == old(error)
    {
      if message == "" || |message| > MAX_CONFIG_SYNC_ERROR_BYTES {
        return Some(InvalidConfigResult);
      }
      if !live {
        return Some(InvalidAgentToken);
      }
      status, error := Some(Failed), message;
      return None;
    }
  }

  /** The parts of a desired state that steer the synchronizer; of proxies and relays only how many. */
  datatype Desired = Desired(
    version: int, decommission: bool, blockChina: bool,
    xrayEnabled: bool, xrayPurge: bool, proxies: nat,
    realmEnabled: bool, realmPurge: bool, relays: nat)
  {
    /** A decommission that asks for nothing but the purges. */
    predicate Pure() {
      !blockChina && !xrayEnabled && xrayPurge && proxies == 0 && !realmEnabled && realmPurge && relays == 0
    }
  }

  /** What becomes of a staged self-uninstall helper. */
  datatype Helper = Absent | Prepared | Activated | CleanedUp

  /** The outside of one sync: which of its steps work. `purges` are Xray, Realm, China firewall and
      ACME, in this order. */
  datatype Environment = Environment(
    fetched: Option<Desired>, applies: bool, purges: seq<bool>, prepares: bool, accepted: bool, activates: bool)

  /** Whether applying what was fetched works: for a decommission every purge and the staging of the
      helper, otherwise the one apply. */
  predicate Succeeds(env: Environment) {
    env.fetched.Some? &&
    if env.fetched.value.decommission
    then env.fetched.value.Pure() && (forall p :: p in env.purges ==> p) && env.prepares
    else env.applies
  }

  class Synchronizer {
    var lastSuccessfulVersion: int
    var lastSuccessfulState: Option<Desired>
    var helper: Helper
    /** The versions this Agent finished applying. */
    ghost var completed: set<int>

    constructor ()
      ensures lastSuccessfulVersion == 0 && lastSuccessfulState.None? && helper.Absent? && completed == {}
    {
      lastSuccessfulVersion, lastSuccessfulState, helper, completed := 0, None, Absent, {};
    }

    /** A new process knows of no success. */
    method Restart()
      modifies this
      ensures lastSuccessfulVersion == 0 && lastSuccessfulState.None? && helper.Absent? && completed == old(completed)
    {
      lastSuccessfulVersion, lastSuccessfulState, helper := 0, None, Absent;
    }

    /** `refreshChinaPrefixes`: whether the China firewall is refreshed, from the last applied state. */
    method RefreshChinaPrefixes() returns (refreshed: Option<Desired>)
      ensures refreshed.Some? ==> lastSuccessfulState == refreshed && refreshed.value.blockChina
      ensures refreshed.None? ==> lastSuccessfulState.None? || !lastSuccessfulState.value.blockChina
    {
      refreshed := if lastSuccessfulState.None? || !lastSuccessfulState.value.blockChina then None else lastSuccessfulState;
    }

    /** The purges of `applyDecommission`, stopping at the first that fails. */
    method ApplyDecommission(state: Desired, purges: seq<bool>) returns (ok: bool)
      ensures !(forall p :: p in purges ==> p) ==> !ok
      ensures state.blockChina || state.xrayEnabled || !state.xrayPurge || state.proxies > 0 ==> !ok
      ensures state.realmEnabled || !state.realmPurge || state.relays > 0 ==> !ok
      ensures !ok ==> !state.Pure() || exists p :: p in purges && !p
    {
      if state.blockChina || state.xrayEnabled || !state.xrayPurge || state.proxies != 0
         || state.realmEnabled || !state.realmPurge || state.relays != 0 {
        return false;
      }
      for i := 0 to |purges|
        invariant forall k :: 0 <= k < i ==> purges[k]
      {
        if !purges[i] {
          assert purges[i] in purges;
          return false;
        }
      }
      return true;
    }

    /** `sync`. It reports a new version, as a success exactly when that was applied; it succeeds exactly
        when nothing was new, or the version was applied, the report accepted and the helper, if one was
        staged, activated. Only such a version becomes the last successful one, and what the China firewall
        is refreshed from is the last state that was applied and no decommission. The helper is staged only
        behind a complete decommission and never outlives the call unactivated. */
    method Sync(env: Environment) returns (report: Option<Report>, ok: bool)
      requires helper != Prepared
      modifies this
      ensures report.Some? <==> env.fetched.Some? && env.fetched.value.version > 0 && env.fetched.value.version != old(lastSuccessfulVersion)
      ensures report.None? ==>
                (ok <==> env.fetched.Some? && env.fetched.value.version > 0 && env.fetched.value.version == old(lastSuccessfulVersion))
      ensures report.Some? ==>
                && report.value.version == env.fetched.value.version && (report.value.status.Success? <==> Succeeds(env))
                && (report.value.message == "" <==> Succeeds(env)) && |report.value.message| <= 4096
                && (ok <==> Succeeds(env) && env.accepted && (env.fetched.value.decommission ==> env.activates))
      ensures lastSuccessfulVersion == if report.Some? && ok then env.fetched.value.version else old(lastSuccessfulVersion)
      ensures lastSuccessfulState == if report.Some? && Succeeds(env) && !env.fetched.value.decommission then env.fetched else old(lastSuccessfulState)
      ensures completed == if report.Some? && Succeeds(env) then old(completed) + {env.fetched.value.version} else old(completed)
      ensures helper == if report.Some? && Succeeds(env) && env.fetched.value.decommission then if ok then Activated else CleanedUp
                        else old(helper)
    {
      if env.fetched.None? || env.fetched.value.version <= 0 {
        return None, false;
      }
      var state := env.fetched.value;
      if state.version == lastSuccessfulVersion {
        return None, true;
      }
      var applied := env.applies;
      var staged := false;
      if state.decommission {
        applied := ApplyDecommission(state, env.purges);
        if applied {
          applied := env.prepares;
          if applied {
            staged := true;
            helper := Prepared;
          }
        }
      }
      var result := Report(state.version, Success, "");
      if !applied {
        result := Report(state.version, Failed, "managed runtime apply failed");
      } else {
        completed := completed + {state.version};
        if !state.decommission {
          lastSuccessfulState := Some(state);
        }
      }
      report := Some(result);
      if !env.accepted {
        if staged {
          helper := CleanedUp;
        }
        return report, false;
      }
      if !applied {
        return report, false;
      }
      if staged {
        if !env.activates {
          helper := CleanedUp;
          return report, false;
        }
        helper := Activated;
      }
      lastSuccessfulVersion := state.version;
      return report, true;
    }
  }

  /** Panel, Agent and network at one moment: whether the server exists, the panel's two versions, the last
      successful one of the Agent's process, the versions it ever finished applying, and every report it ever
      sent. */
  datatype Net = Net(live: bool, applied: int, desired: int, last: int, completed: set<int>, sent: set<Report>)

  /** What may happen next: a new desired version; a sync, whose report arrives at once or does not; a report
      ever sent arriving, for the first time or again; a failure reported before anything was applied; or the
      Agent's process starting again. */
  datatype Event = Raises | AgentSyncs(env: Environment, arrives: bool) | Delivers(report: Report) | Fails(message: string) | Restarts

  /** What is fetched was desired when the Panel answered, and a report is accepted only by arriving. */
  predicate Possible(live: bool, desired: int, env: Environment, arrives: bool) {
    (env.fetched.Some? ==> env.fetched.value.version <= desired) && (env.accepted ==> arrives && live)
  }

  /** The report of a sync with something new. */
  ghost predicate Reports(env: Environment, r: Report) {
    && env.fetched.Some? && r.version == env.fetched.value.version && (r.status.Success? <==> Succeeds(env))
    && |r.message| <= 4096
  }

  /** The applied version after a report that arrived: a success raises it, and nothing lowers it. */
  ghost function Recorded(s: Net, r: Report): (applied: int) {
    if s.live && r.status.Success? && s.applied < r.version <= s.desired then r.version else s.applied
  }

  ghost predicate Synced(s: Net, env: Environment, arrives: bool, t: Net) {
    if env.fetched.None? || env.fetched.value.version <= 0 || env.fetched.value.version > s.desired || env.fetched.value.version == s.last
       || (env.accepted && !(arrives && s.live))
    then t == s
    else
      exists r :: Reports(env, r) &&
        t == s.(sent := s.sent + {r}, applied := if arrives then Recorded(s, r) else s.applied,
                completed := if Succeeds(env) then s.completed + {r.version} else s.completed,
                last := if Succeeds(env) && env.accepted && (env.fetched.value.decommission ==> env.activates) then r.version else s.last)
  }

  /** One event; what cannot happen changes nothing. */
  ghost predicate Happens(s: Net, e: Event, t: Net) {
    match e
    case Raises => t == s.(desired := s.desired + 1)
    case AgentSyncs(env, arrives) => Synced(s, env, arrives, t)
    case Delivers(r) => t == if r in s.sent then s.(applied := Recorded(s, r)) else s
    case Fails(_) => t == s
    case Restarts => t == s.(last := 0)
  }

  /** The version soundness invariant. */
  ghost predicate Sound(s: Net) {
    && 0 <= s.last <= s.applied <= s.desired && (s.applied > 0 ==> s.applied in s.completed)
    && (forall r :: r in s.sent ==> 0 < r.version <= s.desired && |r.message| <= 4096 && (r.status.Success? ==> r.version in s.completed))
    && (forall v :: v in s.completed ==> 0 < v <= s.desired)
  }

  lemma HappensKeeps(s: Net, e: Event, t: Net)
    requires Sound(s) && Happens(s, e, t)
    ensures Sound(t) && s.applied <= t.applied && s.desired <= t.desired
  {
    hide Succeeds, Desired.Pure;
  }

  ghost predicate IsRun(states: seq<Net>, events: seq<Event>) {
    |states| == |events| + 1 && forall i :: 0 <= i < |events| ==> Happens(states[i], events[i], states[i + 1])
  }

  /** In every state of every run the applied version is one the Agent finished, and no newer than the
      desired one; what the Agent takes for done is recorded, so an Agent with nothing to do means a Panel
      that knows; and from any state to any later one neither version falls. */
  lemma {:induction false} AppliedIsTrue(states: seq<Net>, events: seq<Event>, j: nat, i: nat)
    requires IsRun(states, events) && Sound(states[0]) && j <= i < |states|
    ensures Sound(states[i]) && Sound(states[j]) && states[j].applied <= states[i].applied && states[j].desired <= states[i].desired
    ensures 0 <= states[i].applied <= states[i].desired && (states[i].applied > 0 ==> states[i].applied in states[i].completed)
    ensures states[i].last <= states[i].applied && (states[i].last == states[i].desired ==> states[i].applied == states[i].desired)
    decreases i
  {
    hide Happens, Sound;
    if i > 0 {
      AppliedIsTrue(states, events, if j < i then j else i - 1, i - 1);
      HappensKeeps(states[i - 1], events[i - 1], states[i]);
    }
    SoundMeans(states[i]);
  }

  lemma SoundMeans(s: Net)
    ensures Sound(s) ==> 0 <= s.last <= s.applied <= s.desired && (s.applied > 0 ==> s.applied in s.completed)
  {
  }

  /** However the two got apart, one sync at the desired version in which everything works brings them
      together. */
  lemma OneGoodSyncCatchesUp(s: Net, env: Environment, t: Net)
    requires Sound(s) && s.live && env.fetched.Some? && env.fetched.value.version == s.desired
    requires Succeeds(env) && env.accepted && (env.fetched.value.decommission ==> env.activates)
    requires Happens(s, AgentSyncs(env, true), t)
    ensures t.applied == t.desired == t.last
  {
    hide Succeeds;
  }

  /** Panel, Agent and the reports ever sent. */
  class World {
    const panel: PanelRow
    const agent: Synchronizer
    var sent: set<Report>

    ghost function Now(): (s: Net)
      reads this, panel, agent
    {
      Net(panel.live, panel.applied, panel.desired, agent.lastSuccessfulVersion, agent.completed, sent)
    }

    ghost predicate Valid()
      reads this, panel, agent
    {
      Sound(Now()) && agent.helper != Prepared
    }

    constructor (panel: PanelRow, agent: Synchronizer)
      requires panel.applied == 0 <= panel.desired && agent.completed == {} && agent.helper.Absent? && agent.lastSuccessfulVersion == 0
      ensures Valid() && this.panel == panel && this.agent == agent && sent == {}
    {
      this.panel, this.agent, sent := panel, agent, {};
    }

    /** A sync, on an answer that was true when the Panel gave it, and its report on the way. */
    method Syncs(env: Environment, arrives: bool)
      requires Valid() && Possible(panel.live, panel.desired, env, arrives)
      modifies this, panel, agent
      ensures agent.helper != Prepared && Synced(old(Now()), env, arrives, Now())
    {
      var report, _ := agent.Sync(env);
      if report.Some? {
        sent := sent + {report.value};
        if arrives {
          var _ := panel.RecordConfigResult(report.value);
        }
        assert Reports(env, report.value);
      }
    }

    /** One event. */
    method OneStep(e: Event)
      requires Valid()
      modifies this, panel, agent
      ensures Valid() && Happens(old(Now()), e, Now())
    {
      ghost var before := Now();
      match e {
        case Raises =>
          panel.desired := panel.desired + 1;
        case AgentSyncs(env, arrives) =>
          if Possible(panel.live, panel.desired, env, arrives) {
            Syncs(env, arrives);
          }
        case Delivers(report) =>
          if report in sent {
            var _ := panel.RecordConfigResult(report);
          }
        case Fails(message) =>
          var _ := panel.RecordDesiredStateFailure(message);
        case Restarts =>
          agent.Restart();
      }
      HappensKeeps(before, e, Now());
    }

    /** Any events in any order. */
    method Run(events: seq<Event>) returns (ghost states: seq<Net>)
      requires Valid()
      modifies this, panel, agent
      ensures Valid() && IsRun(states, events) && states[0] == old(Now()) && states[|events|] == Now()
      ensures old(panel.applied) <= panel.applied <= panel.desired && (panel.applied > 0 ==> panel.applied in agent.completed)
      ensures agent.lastSuccessfulVersion == panel.desired ==> panel.applied == panel.desired
    {
      states := [Now()];
      for i := 0 to |events|
        invariant Valid() && IsRun(states, events[..i]) && states[0] == old(Now()) && states[i] == Now()
      {
        hide Sound, Happens;
        OneStep(events[i]);
        ghost var before := states;
        states := states + [Now()];
        assert events[..i + 1] == events[..i] + [events[i]];
        LongerRun(before, events[..i], events[i], Now());
      }
      assert events[..|events|] == events;
      AppliedIsTrue(states, events, 0, |events|);
    }
  }

  lemma LongerRun(states: seq<Net>, events: seq<Event>, e: Event, next: Net)
    requires IsRun(states, events) && Happens(states[|events|], e, next)
    ensures IsRun(states + [next], events + [e])
  {
    hide Happens;
    var ss, es := states + [next], events + [e];
    forall i | 0 <= i < |es|
      ensures Happens(ss[i], es[i], ss[i + 1])
    {
      if i < |events| {
        assert Happens(states[i], events[i], states[i + 1]);
      }
    }
  }
}
