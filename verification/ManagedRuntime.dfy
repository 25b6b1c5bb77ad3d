/**
 The managed Xray and Realm runtimes of panel/cmd/agent/xray.go and realm.go: enable with its
 rollback, disable and purge, as steps on one host that can fail or be cut short by a crash.

 `plan` says of every step, in the order they are taken, whether it works, fails, or is where the process
 stops; after that no step is taken until the Agent is started again. The firewall's commands have their
 own plan in the back end, and `sees` is what the health checks find.
 */
module ManagedRuntime {
  import opened Wrappers
  import opened Sorting
  import opened Health
  import opened HostFirewall
  import Firewall
  import IpTables

  datatype Fate = Works | Fails | Stops

  /** The steps whose failure the source acts on. The version check of an installed binary and the removal
      of temporary files fail silently. */
  datatype Step =
    | Prepare | Download | Extract | Verify | Claim | Place | Mode | ConfigDir | Candidate | Validate
    | Unit | EnableUnit | Save | Replace | Secure | Query | Start | Restart | Health | Reconcile
    | Stop | DisableUnit | Restore | Remove | Reload | Check | Tidy

  /** `rulesOf` is the parser of previous configs: the managed rules a config text stands for. `accepts` is
      the runtime's own check of a config. */
  class Host {
    const kind: Kind
    const backend: Backend
    const rulesOf: string -> Option<seq<Firewall.Rule>>
    const accepts: string -> bool
    const plan: nat -> Fate
    const sees: (nat, nat) -> Attempt
    const healthAttempts: nat

    var marker: bool
    var binary: bool
    var unit: bool
    var config: Option<string>
    var previous: Option<string>
    /** The config the service was last started with, None when it was stopped; and whether it is started
        with the host. */
    var running: Option<string>
    var enabled: bool
    /** Temporary files left in the install and the config directory. */
    var installTemp: bool
    var configTemp: bool
    var crashed: bool
    var steps: nat
    /** The steps that were tried, in order. */
    ghost var tried: seq<Step>
    /** The steps that failed so far, and their numbers. */
    ghost var failed: seq<Step>
    ghost var failedAt: seq<nat>
    /** How often a chain that could not be listed passed for an inactive firewall. */
    ghost var blind: nat
    /** What the last look at the service found. */
    ghost var found: Look
    /** The config the service ran when it last passed the health check. */
    ghost var proven: Option<string>
    /** What the panel has asked of the runtime. */
    ghost var asked: seq<Request>

    constructor (kind: Kind, backend: Backend, rulesOf: string -> Option<seq<Firewall.Rule>>, accepts: string -> bool,
                 plan: nat -> Fate, sees: (nat, nat) -> Attempt, healthAttempts: nat)
      ensures !marker && Untouched() && running.None? && !enabled && !crashed && steps == 0 && tried == failed == [] && Honest() && blind == 0 && asked == []
      ensures this.kind == kind && this.backend == backend && this.rulesOf == rulesOf && this.plan == plan
      ensures this.sees == sees && this.healthAttempts == healthAttempts && this.accepts == accepts
    {
      this.kind, this.backend, this.rulesOf, this.plan := kind, backend, rulesOf, plan;
      this.sees, this.healthAttempts, this.accepts := sees, healthAttempts, accepts;
      marker, binary, unit, config, previous := false, false, false, None, None;
      running, enabled, found, proven := None, false, Inactive, None;
      installTemp, configTemp, crashed, steps, tried, failed, failedAt, blind, asked := false, false, false, 0, [], [], [], 0, [];
    }

    /** The ownership invariant: whatever the Agent installed is covered by its marker. */
    predicate Owned()
      reads this
    {
      binary || unit || config.Some? || previous.Some? || configTemp ==> marker
    }

    /** Nothing at all is in the runtime's places. */
    predicate Untouched()
      reads this
    {
      !binary && !unit && config.None? && previous.None? && !installTemp && !configTemp
    }

    /** Something is there and nothing says that it is ours. */
    predicate Stranded()
      reads this
    {
      !marker && !Untouched()
    }

    ghost function Serving(): (service: Service)
      reads `unit, `enabled, `config, `running, `proven, `found
    {
      Service(unit, enabled, config, running, proven, found)
    }

    function Owner(): (owner: Firewall.Owner) {
      if kind == Realm then Firewall.Realm else Firewall.Proxy
    }

    function State(): (state: State)
      reads Objects(backend)
    {
      StateOf(backend)
    }

    function Rules(): (rules: set<Firewall.Rule>)
      reads Objects(backend)
    {
      State().Rules(Owner())
    }

    /** The rules a rollback to the present config goes back to. Without a config Realm clears its rules
        and Xray leaves the firewall alone; so do both with a config the parser cannot read. */
    function Target(): (rules: Option<seq<Firewall.Rule>>)
      reads `config
    {
      if config.Some? then rulesOf(config.value) else if kind == Realm then Some([]) else None
    }

    /** What the attempts of a health check at a step find. */
    function Seen(step: nat): (looks: seq<Attempt>) {
      seq(healthAttempts, n requires 0 <= n < healthAttempts => sees(step, n))
    }

    /** The step works, and whoever looks at the service then finds it healthy. */
    ghost predicate FairAt(step: nat) {
      plan(step).Works? && !sees(step, 0).look.QueryFailed? && exists j :: Confirmed(kind, Seen(step), j)
    }

    /** Every failure on record is one: only a firewall run, which has commands of its own, and the check of
        a config can fail at a fair step. */
    ghost predicate Honest()
      reads `failed, `failedAt, `steps
    {
      && |failedAt| == |failed|
      && (forall k :: 0 <= k < |failed| ==> failedAt[k] < steps && (failed[k].Reconcile? || failed[k].Validate? || !FairAt(failedAt[k])))
      && (forall j, k :: 0 <= j < k < |failed| ==> failedAt[j] < failedAt[k])
    }

    /** One fallible step. */
    method Try(step: Step) returns (ok: bool)
      modifies `tried, `crashed, `steps, `failed, `failedAt
      ensures ok == (!old(crashed) && plan(old(steps)).Works?)
      ensures crashed == (old(crashed) || plan(old(steps)).Stops?)
      ensures steps == if old(crashed) then old(steps) else old(steps) + 1
      ensures tried == if old(crashed) then old(tried) else old(tried) + [step]
      ensures failed == if ok || old(crashed) then old(failed) else old(failed) + [step]
      ensures failedAt == if ok || old(crashed) then old(failedAt) else old(failedAt) + [old(steps)]
      ensures old(Honest()) ==> Honest()
    {
      ok := TryQuietly(step);
      if !ok && !(old(crashed)) {
        failed, failedAt := failed + [step], failedAt + [old(steps)];
      }
    }

    /** A step whose failure goes unnoticed. */
    method TryQuietly(step: Step) returns (ok: bool)
      modifies `tried, `crashed, `steps
      ensures ok == (!old(crashed) && plan(old(steps)).Works?)
      ensures crashed == (old(crashed) || plan(old(steps)).Stops?)
      ensures steps == if old(crashed) then old(steps) else old(steps) + 1
      ensures tried == if old(crashed) then old(tried) else old(tried) + [step]
      ensures old(Honest()) ==> Honest()
    {
      if crashed {
        return false;
      }
      ok := plan(steps).Works?;
      crashed := plan(steps).Stops?;
      steps := steps + 1;
      tried := tried + [step];
    }

    /** `waitUntilHealthy`. */
    method Wait() returns (ok: bool)
      modifies `tried, `crashed, `steps, `failed, `failedAt, `proven
      ensures proven == if ok then running else old(proven)
      ensures ok == (!old(crashed) && plan(old(steps)).Works? && exists j :: Confirmed(kind, Seen(old(steps)), j))
      ensures crashed == (old(crashed) || plan(old(steps)).Stops?)
      ensures steps == if old(crashed) then old(steps) else old(steps) + 1
      ensures tried == if old(crashed) then old(tried) else old(tried) + [Health]
      ensures failed == if ok || old(crashed) then old(failed) else old(failed) + [Health]
      ensures old(Honest()) ==> Honest()
    {
      var verdict := WaitUntilHealthy(kind, Seen(steps));
      ok := Try(Health);
      if ok && !verdict.Healthy? {
        ok := false;
        failed, failedAt := failed + [Health], failedAt + [old(steps)];
      }
      if ok {
        proven := running;
      }
    }

    /** Start or restart of the service with the config in place; failing, it leaves the service in any state. */
    method Run(step: Step) returns (ok: bool)
      modifies `running, `tried, `crashed, `steps, `failed, `failedAt
      ensures ok == (!old(crashed) && plan(old(steps)).Works?)
      ensures crashed == (old(crashed) || plan(old(steps)).Stops?)
      ensures steps == if old(crashed) then old(steps) else old(steps) + 1
      ensures tried == if old(crashed) then old(tried) else old(tried) + [step]
      ensures failed == if ok || old(crashed) then old(failed) else old(failed) + [step]
      ensures (ok ==> running == config) && (old(crashed) ==> running == old(running))
      ensures old(Honest()) ==> Honest()
    {
      hide FairAt;
      if crashed {
        return false;
      }
      ok := Try(step);
      running := config;
      if !ok {
        running := *;
      }
    }

    /** Stop of the service. */
    method Halt() returns (ok: bool)
      modifies `running, `tried, `crashed, `steps, `failed, `failedAt
      ensures ok == (!old(crashed) && plan(old(steps)).Works?)
      ensures crashed == (old(crashed) || plan(old(steps)).Stops?)
      ensures steps == if old(crashed) then old(steps) else old(steps) + 1
      ensures tried == if old(crashed) then old(tried) else old(tried) + [Stop]
      ensures failed == if ok || old(crashed) then old(failed) else old(failed) + [Stop]
      ensures (ok ==> running.None?) && (old(crashed) ==> running == old(running))
      ensures old(Honest()) ==> Honest()
    {
      hide FairAt;
      if crashed {
        return false;
      }
      ok := Try(Stop);
      running := None;
      if !ok {
        running := *;
      }
    }

    /** The runtime's own check of a config text. */
    method ValidateConfig(text: string) returns (ok: bool)
      modifies `tried, `crashed, `steps, `failed, `failedAt
      ensures ok == (!old(crashed) && plan(old(steps)).Works? && accepts(text))
      ensures crashed == (old(crashed) || plan(old(steps)).Stops?)
      ensures steps == if old(crashed) then old(steps) else old(steps) + 1
      ensures tried == if old(crashed) then old(tried) else old(tried) + [Validate]
      ensures failed == if ok || old(crashed) then old(failed) else old(failed) + [Validate]
      ensures old(Honest()) ==> Honest()
    {
      hide FairAt;
      ok := Try(Validate);
      if ok && !accepts(text) {
        ok := false;
        failed, failedAt := failed + [Validate], failedAt + [old(steps)];
      }
    }

    /** One look at the service: is it up, with its listeners. */
    method Ask() returns (look: Look)
      modifies `tried, `crashed, `steps, `failed, `failedAt, `found
      ensures found == look
      ensures look == if !old(crashed) && plan(old(steps)).Works? then sees(old(steps), 0).look else QueryFailed
      ensures crashed == (old(crashed) || plan(old(steps)).Stops?)
      ensures steps == if old(crashed) then old(steps) else old(steps) + 1
      ensures tried == if old(crashed) then old(tried) else old(tried) + [Query]
      ensures failed == if look.QueryFailed? && !old(crashed) then old(failed) + [Query] else old(failed)
      ensures old(Honest()) ==> Honest()
    {
      var step := steps;
      var ok := Try(Query);
      look := if ok then sees(step, 0).look else QueryFailed;
      if ok && look.QueryFailed? {
        failed, failedAt := failed + [Query], failedAt + [step];
      }
      found := look;
    }

    /** `reconcileFirewall`. The commands' own plan decides how far it gets and whether it is `done`; a
        process that stops in it does not hear of it. */
    method Reconcile(rules: seq<Firewall.Rule>) returns (ok: bool, ghost done: bool)
      modifies `tried, `crashed, `steps, `failed, `failedAt, `blind, Objects(backend)
      ensures old(crashed) ==> !ok && State() == old(State())
      ensures !old(crashed) ==> Reconciled(old(State()), State(), Owner(), rules, done) && ok == (done && !plan(old(steps)).Stops?)
      ensures crashed == (old(crashed) || plan(old(steps)).Stops?)
      ensures steps == if old(crashed) then old(steps) else old(steps) + 1
      ensures tried == if old(crashed) then old(tried) else old(tried) + [Step.Reconcile]
      ensures failed == if ok || old(crashed) then old(failed) else old(failed) + [Step.Reconcile]
      ensures blind == if !old(crashed) && old(State()).Blind() then old(blind) + 1 else old(blind)
      ensures old(Honest()) ==> Honest()
    {
      hide Reconciled, FairAt;
      done := false;
      if crashed {
        return false, done;
      }
      if State().Blind() {
        blind := blind + 1;
      }
      ok := ReconcileRules(backend, Owner(), rules);
      done := ok;
      crashed := plan(steps).Stops?;
      steps := steps + 1;
      tried := tried + [Step.Reconcile];
      ok := ok && !crashed;
      if !ok {
        failed, failedAt := failed + [Step.Reconcile], failedAt + [old(steps)];
      }
    }

    /** `purgeFirewall`. */
    method PurgeFirewall() returns (ok: bool, ghost done: bool)
      modifies `tried, `crashed, `steps, `failed, `failedAt, `blind, Objects(backend)
      ensures old(crashed) ==> !ok && State() == old(State())
      ensures !old(crashed) ==> Purged(old(State()), State(), Owner(), done) && ok == (done && !plan(old(steps)).Stops?)
      ensures crashed == (old(crashed) || plan(old(steps)).Stops?)
      ensures steps == if old(crashed) then old(steps) else old(steps) + 1
      ensures tried == if old(crashed) then old(tried) else old(tried) + [Step.Reconcile]
      ensures failed == if ok || old(crashed) then old(failed) else old(failed) + [Step.Reconcile]
      ensures blind == if !old(crashed) && old(State()).Blind() then old(blind) + 1 else old(blind)
      ensures old(Honest()) ==> Honest()
    {
      hide Purged, FairAt;
      done := false;
      if crashed {
        return false, done;
      }
      if State().Blind() {
        blind := blind + 1;
      }
      ok := HostFirewall.Purge(backend, Owner());
      done := ok;
      crashed := plan(steps).Stops?;
      steps := steps + 1;
      tried := tried + [Step.Reconcile];
      ok := ok && !crashed;
      if !ok {
        failed, failedAt := failed + [Step.Reconcile], failedAt + [old(steps)];
      }
    }
  }

  // The steps, in the order in which they are made ---------------------------------------------------

  /** What brings the runtime in place: a check of what is there, or, without it or when it fails, a new copy. */
  function Managing(there: bool, verified: bool): (steps: seq<Step>) {
    if there && verified then [Check, Mode]
    else (if there then [Check] else []) + [Prepare, Download, Extract, Verify, Claim, Mode, Place, Mode, Tidy]
  }

  /** What makes the config in place run. */
  function Waking(up: bool): (steps: seq<Step>) {
    if up then [Secure, Query] else [Secure, Query, Start, Health]
  }

  /** What makes a new config run, as far as it gets. */
  function Launching(news: seq<Step>): (steps: seq<Step>) {
    if news == [] || news[0].Reconcile? then [Restart, Health, Step.Reconcile]
    else if news[0].Health? then [Restart, Health]
    else [Restart]
  }

  /** What puts the old config back, or takes the new one away; `known` says that it has rules to go back to. */
  function Undoing(kind: Kind, saved: bool, known: bool): (steps: seq<Step>) {
    if saved then [Restore, Mode, Restart] + (if kind == Xray || known then [Health] else []) + (if known then [Step.Reconcile] else [])
    else [Stop, DisableUnit, Remove] + (if kind == Realm then [Step.Reconcile] else [])
  }

  /** What puts a new config in place of one that differs. */
  function Exchanging(saved: bool): (steps: seq<Step>) {
    (if saved then [Save, Mode] else []) + [Replace, Secure]
  }

  /** What an apply finds: whether the config is in place already, whether the service was up, whether there
      was a config, and whether its rules were known. */
  datatype Way = Way(kind: Kind, same: bool, up: bool, saved: bool, known: bool)

  /** From the service on. */
  function Installing(way: Way, outcome: Outcome, news: seq<Step>): (steps: seq<Step>) {
    if way.same then Waking(way.up) + [Step.Reconcile]
    else Exchanging(way.saved) + Launching(news) + (if outcome.Applied? then [] else Undoing(way.kind, way.saved, way.known))
  }

  /** What was tried between two moments, when the apply was brought to its end. */
  ghost predicate Traced(before: seq<Step>, after: seq<Step>, first: seq<Step>, way: Way, outcome: Outcome, news: seq<Step>, last: seq<Step>) {
    Done(outcome) ==> after == before + first + Installing(way, outcome, news) + last
  }

  lemma RefusedIsTraced()
    ensures !Done(Refused) && forall before, after, first, way, news, last :: Traced(before, after, first, way, Refused, news, last)
  {
    hide Installing;
  }

  lemma TracedLater(before: seq<Step>, mid: seq<Step>, after: seq<Step>, earlier: seq<Step>, first: seq<Step>, way: Way, outcome: Outcome,
                    news: seq<Step>)
    requires mid == before + earlier
    ensures Traced(mid, after, first, way, outcome, news, [Tidy]) ==> Traced(before, after, earlier + first, way, outcome, news, [Tidy])
  {
    hide Installing, Done;
    assert before + earlier + first == before + (earlier + first);
  }

  lemma ValidatedIsTraced(before: seq<Step>, after: seq<Step>, way: Way, outcome: Outcome, news: seq<Step>)
    requires Traced(before + [Validate], after, [Unit, EnableUnit], way, outcome, news, [])
    ensures Traced(before, after, [Validate, Unit, EnableUnit], way, outcome, news, [])
  {
    hide Installing, Done;
    var first, rest := [Validate], [Unit, EnableUnit];
    assert first + rest == [Validate, Unit, EnableUnit] && before + first + rest == before + (first + rest);
  }

  lemma WrittenIsTraced(before: seq<Step>, after: seq<Step>, way: Way, outcome: Outcome, news: seq<Step>)
    requires Traced(before + [ConfigDir, Candidate], after, [Validate, Unit, EnableUnit], way, outcome, news, [])
    ensures Traced(before, after, [ConfigDir, Candidate, Validate, Unit, EnableUnit], way, outcome, news, [])
  {
    hide Installing, Done;
    var first, rest := [ConfigDir, Candidate], [Validate, Unit, EnableUnit];
    assert first + rest == [ConfigDir, Candidate, Validate, Unit, EnableUnit] && before + first + rest == before + (first + rest);
  }

  lemma TidiedIsTraced(before: seq<Step>, mid: seq<Step>, after: seq<Step>, way: Way, outcome: Outcome, news: seq<Step>)
    requires Traced(before, mid, [ConfigDir, Candidate, Validate, Unit, EnableUnit], way, outcome, news, [])
    requires Done(outcome) ==> after == mid + [Tidy]
    ensures Traced(before, after, [ConfigDir, Candidate, Validate, Unit, EnableUnit], way, outcome, news, [Tidy])
  {
    hide Installing, Done;
  }

  /** The two ways. */
  lemma InstallingIs(t: seq<Step>, after: seq<Step>, way: Way, outcome: Outcome, news: seq<Step>)
    ensures way.same && !outcome.RolledBack? && (outcome.Applied? ==> after == t + [Unit, EnableUnit] + Waking(way.up) + [Step.Reconcile]) ==>
              Traced(t, after, [Unit, EnableUnit], way, outcome, news, [])
    ensures !way.same && (outcome == Applied && news == [] ==> after == t + [Unit, EnableUnit] + Exchanging(way.saved) + Launching([]))
            && (outcome == RolledBack(true) ==>
                  after == t + [Unit, EnableUnit] + Exchanging(way.saved) + Launching(news) + Undoing(way.kind, way.saved, way.known))
            && (outcome.Applied? ==> news == []) ==>
              Traced(t, after, [Unit, EnableUnit], way, outcome, news, [])
  {
    hide Exchanging, Launching, Undoing, Waking;
  }

  lemma ManagingIs(t: seq<Step>)
    ensures t + [Check] + [Mode] == t + Managing(true, true) && t + [Check] + Managing(false, false) == t + Managing(true, false)
    ensures forall verified :: Managing(false, verified) == Managing(false, false)
    ensures t + [Prepare] + [Download, Extract, Verify, Claim, Mode, Place, Mode] + [Tidy] == t + Managing(false, false)
  {
  }

  lemma ExchangingIs(t: seq<Step>, saved: bool, a: seq<Step>, b: seq<Step>)
    ensures t + (if saved then [Save, Mode] else []) + [Replace, Secure] + a == t + Exchanging(saved) + a
    ensures t + (if saved then [Save, Mode] else []) + [Replace, Secure] + a + b == t + Exchanging(saved) + a + b
  {
    assert t + (if saved then [Save, Mode] else []) + [Replace, Secure] == t + Exchanging(saved);
  }

  lemma UndoingIs(t: seq<Step>, kind: Kind, known: bool)
    ensures t + Undoing(kind, true, known)
         == t + [Restore, Mode, Restart] + (if kind == Xray || known then [Health] else []) + (if known then [Step.Reconcile] else [])
    ensures var gone := t + [Stop, DisableUnit, Remove];
            t + Undoing(kind, false, known) == if kind == Realm then gone + [Step.Reconcile] else gone
  {
  }

  /** Brought to its end, forwards or all the way back. */
  predicate Done(outcome: Outcome) {
    outcome == Applied || outcome == RolledBack(true)
  }

  /** How an enable ended: Applied; Refused before the config was touched; NotReapplied with the same
      config in place; InstallFailed in the two-step replacement; RolledBack, cleanly or not. */
  datatype Outcome = Applied | Refused | NotReapplied | InstallFailed | RolledBack(clean: bool)

  predicate OnlyHealth(news: seq<Step>) {
    forall i :: 0 <= i < |news| ==> news[i].Health?
  }

  /** The first failure was the firewall's: the run for the new rules was begun. */
  predicate Reached(news: seq<Step>) {
    news != [] && news[0].Reconcile?
  }

  /** The steps up to the installed unit, before anything is replaced or started. */
  predicate Early(step: Step) {
    !step.Secure? && !step.Query? && !step.Start? && !step.Restart? && !step.Health? && !step.Reconcile?
  }

  /** The service and its config: whether the unit is there and enabled, the config in place, the one the
      service runs, the one it last passed the health check with, and what the last look at it found. */
  datatype Service = Service(unit: bool, enabled: bool, config: Option<string>, running: Option<string>, proven: Option<string>, found: Look)

  /** What an outcome means for the service. After a success it is enabled, has passed the health check with
      the candidate and runs it; only where the candidate was already in place and the service was found up
      it goes on with what it ran. A clean rollback has it run the old config again, or stopped and disabled
      when there was none. */
  predicate Served(outcome: Outcome, before: Service, after: Service, candidate: string) {
    match outcome
    case Applied =>
      && after.unit && after.enabled && after.config == Some(candidate)
      && (before.config != after.config || !after.found.Up? ==> after.running == after.config == after.proven)
      && (before.config == after.config && after.found.Up? ==> after.running == before.running)
    case Refused => after.config == before.config && after.running == before.running
    case NotReapplied => after.config == before.config == Some(candidate)
    case InstallFailed => after.config == Some(candidate) && after.running == before.running
    case RolledBack(clean) =>
      && (after.config == Some(candidate) || after.config == before.config)
      && (clean ==> after.config == before.config == after.running && (before.config.None? ==> !after.enabled))
  }

  /** How an enable that was let in ends, by the steps that failed in it; `differs` when the config in place
      is not the candidate. */
  predicate Judged(outcome: Outcome, news: seq<Step>, differs: bool) {
    if news == [] then outcome == Applied
    else if Early(news[0]) then outcome == Refused
    else if !differs then outcome == NotReapplied
    else if news[0].Secure? then outcome == InstallFailed
    else outcome == RolledBack(OnlyHealth(news[1..]))
  }

  /** `checkConflicts` without the foreign units. */
  method CheckConflicts(host: Host) returns (ok: bool)
    ensures ok <==> !host.Stranded()
  {
    if host.marker {
      return true;
    }
    if host.installTemp || host.binary || host.configTemp || host.config.Some? || host.previous.Some? {
      return false;
    }
    ok := !host.unit;
  }

  /** The install directory is prepared, and the process stops while it downloads into it. */
  predicate CutShort(plan: nat -> Fate, step: nat) {
    plan(step).Works? && plan(step + 1).Stops?
  }

  /** The `n` steps from `from` on all work. */
  ghost predicate AllWork(plan: nat -> Fate, from: nat, n: nat) {
    forall k: nat :: from <= k < from + n ==> plan(k).Works?
  }

  /** How many steps it takes to keep the config in place as the previous one. */
  function Saves(config: Option<string>): (n: nat) {
    if config.Some? then 2 else 0
  }

  /** After `done` more steps, the unit's two and the previous config's, the process stops between the two
      halves of replacing the config. */
  ghost predicate StopsInReplace(plan: nat -> Fate, step: nat, done: nat, config: Option<string>) {
    AllWork(plan, step, done + 2 + Saves(config)) && CutShort(plan, step + done + 2 + Saves(config))
  }

  /** After `done` more steps and the unit's two the service is found up, and no firewall is in the way. */
  ghost predicate ComesUp(host: Host, step: nat, done: nat, desired: seq<Firewall.Rule>) {
    AllWork(host.plan, step, done + 2) && FoundUp(host, step + done + 2) && FreeRun(host, step + done + 4, desired)
  }

  lemma StopsLater(plan: nat -> Fate, step: nat, done: nat, n: nat, config: Option<string>)
    requires n <= done
    ensures StopsInReplace(plan, step, done, config) ==> AllWork(plan, step, n) && StopsInReplace(plan, step + n, done - n, config)
  {
  }

  lemma StopsNow(plan: nat -> Fate, step: nat, config: Option<string>)
    ensures StopsInReplace(plan, step, 0, config) ==>
              AllWork(plan, step, 2) && AllWork(plan, step + 2, Saves(config)) && CutShort(plan, step + 2 + Saves(config))
  {
  }

  lemma ComesUpLater(host: Host, step: nat, done: nat, n: nat, desired: seq<Firewall.Rule>)
    requires n <= done
    ensures ComesUp(host, step, done, desired) ==> AllWork(host.plan, step, n) && ComesUp(host, step + n, done - n, desired)
  {
  }

  /** `ensureManagedRealm` / `ensureManagedXray`: the marker is written before the binary is. It gets
      through if and only if the host is not stranded and no step fails. A process that stops in the first
      download leaves a stranded host. */
  method EnsureManaged(host: Host) returns (ok: bool, ghost news: seq<Step>)
    modifies host`marker, host`binary, host`installTemp, host`tried, host`crashed, host`steps, host`failed, host`failedAt
    ensures old(host.Honest()) ==> host.Honest()
    ensures host.failed == old(host.failed) + news && (old(host.crashed) ==> host.crashed)
    ensures old(host.Owned()) ==> host.Owned()
    ensures old(host.Stranded()) ==>
              !ok && news == [] && host.marker == old(host.marker) && host.binary == old(host.binary) && host.installTemp == old(host.installTemp)
              && host.crashed == old(host.crashed) && host.steps == old(host.steps)
    ensures !old(host.Stranded()) && !host.crashed ==> (ok <==> news == []) && (!ok ==> |news| == 1 && Early(news[0]))
    ensures ok ==> !host.crashed && host.marker && host.binary && news == []
    ensures old(host.marker) ==> host.marker
    ensures !old(host.crashed) && !old(host.marker) && old(host.Untouched()) && CutShort(host.plan, old(host.steps)) ==>
              host.Stranded() && host.crashed
    ensures !old(host.crashed) && old(host.marker) && old(host.binary) && AllWork(host.plan, old(host.steps), 2) ==>
              ok && host.steps == old(host.steps) + 2
    ensures ok ==> host.tried == old(host.tried) + Managing(old(host.marker) && old(host.binary), host.plan(old(host.steps)).Works?)
    ensures ok ==> host.steps > 0 && (host.installTemp ==> old(host.installTemp) || !host.plan(host.steps - 1).Works?)
  {
    hide Host.Honest, Host.FairAt, Managing;
    ManagingIs(host.tried);
    news := [];
    ok := CheckConflicts(host);
    if !ok {
      return;
    }
    if host.marker && host.binary {
      var verified := host.TryQuietly(Check);
      if verified {
        ok := host.Try(Mode);
        news := if ok || old(host.crashed) then [] else [Mode];
        return;
      }
    }
    ok, news := Fetch(host);
  }

  /** Download, marker, binary; the temporary files go at the end, if that works. */
  method Fetch(host: Host) returns (ok: bool, ghost news: seq<Step>)
    requires host.marker || host.Untouched()
    modifies host`marker, host`binary, host`installTemp, host`tried, host`crashed, host`steps, host`failed, host`failedAt
    ensures old(host.Honest()) ==> host.Honest()
    ensures host.failed == old(host.failed) + news && (old(host.crashed) ==> host.crashed)
    ensures old(host.Owned()) ==> host.Owned()
    ensures !host.crashed ==> (ok <==> news == []) && (!ok ==> |news| == 1 && Early(news[0]))
    ensures ok ==> !host.crashed && host.marker && host.binary && news == []
    ensures old(host.marker) ==> host.marker
    ensures !old(host.crashed) && !old(host.marker) && CutShort(host.plan, old(host.steps)) ==> host.Stranded() && host.crashed
    ensures ok ==> host.tried == old(host.tried) + Managing(false, false)
    ensures ok ==> host.steps > 0 && (host.installTemp ==> !host.plan(host.steps - 1).Works?)
  {
    hide Host.Honest, Host.FairAt, Managing;
    ManagingIs(host.tried);
    ok := host.Try(Prepare);
    if !ok {
      news := if old(host.crashed) then [] else [Prepare];
      return;
    }
    host.installTemp := true;
    ok, news := Obtain(host);
    var cleaned := host.TryQuietly(Tidy);
    if cleaned {
      host.installTemp := false;
    }
    ok := ok && !host.crashed;
  }

  method Obtain(host: Host) returns (ok: bool, ghost news: seq<Step>)
    requires !host.crashed && host.installTemp
    modifies host`marker, host`binary, host`tried, host`crashed, host`steps, host`failed, host`failedAt
    ensures old(host.Honest()) ==> host.Honest()
    ensures host.failed == old(host.failed) + news && (ok <==> news == []) && (!ok ==> |news| == 1 && Early(news[0]))
    ensures old(host.Owned()) ==> host.Owned()
    ensures ok ==> !host.crashed && host.marker && host.binary
    ensures old(host.marker) ==> host.marker
    ensures host.plan(old(host.steps)).Stops? ==> host.crashed && host.marker == old(host.marker)
    ensures ok ==> host.tried == old(host.tried) + [Download, Extract, Verify, Claim, Mode, Place, Mode]
  {
    hide Host.Honest, Host.FairAt;
    ok, news := Stage(host);
    if ok {
      ok, news := PutInPlace(host);
    }
  }

  /** The archive is downloaded, and the binary extracted and tried. */
  method Stage(host: Host) returns (ok: bool, ghost news: seq<Step>)
    requires !host.crashed
    modifies host`tried, host`crashed, host`steps, host`failed, host`failedAt
    ensures old(host.Honest()) ==> host.Honest()
    ensures host.failed == old(host.failed) + news && (ok <==> news == []) && (!ok ==> |news| == 1 && Early(news[0]))
    ensures ok ==> !host.crashed
    ensures host.plan(old(host.steps)).Stops? ==> !ok && host.crashed
    ensures ok ==> host.tried == old(host.tried) + [Download, Extract, Verify]
  {
    hide Host.Honest, Host.FairAt;
    ok := host.Try(Download);
    if !ok {
      return false, [Download];
    }
    ok := host.Try(Extract);
    if !ok {
      return false, [Extract];
    }
    ok := host.Try(Verify);
    news := if ok then [] else [Verify];
  }

  /** The marker, and then the binary. */
  method PutInPlace(host: Host) returns (ok: bool, ghost news: seq<Step>)
    requires !host.crashed
    modifies host`marker, host`binary, host`tried, host`crashed, host`steps, host`failed, host`failedAt
    ensures old(host.Honest()) ==> host.Honest()
    ensures host.failed == old(host.failed) + news && (ok <==> news == []) && (!ok ==> |news| == 1 && Early(news[0]))
    ensures old(host.Owned()) ==> host.Owned()
    ensures ok ==> !host.crashed && host.marker && host.binary
    ensures old(host.marker) ==> host.marker
    ensures ok ==> host.tried == old(host.tried) + [Claim, Mode, Place, Mode]
  {
    hide Host.Honest, Host.FairAt;
    ok := host.Try(Claim);
    if !ok {
      return false, [Claim];
    }
    host.marker := true;
    ok := host.Try(Mode);
    if !ok {
      return false, [Mode];
    }
    ok := host.Try(Place);
    if !ok {
      return false, [Place];
    }
    host.binary := true;
    ok := host.Try(Mode);
    news := if ok then [] else [Mode];
  }

  /** `rollbackFailedApply`; the failed candidate is in place now. Whatever stands in the saved config,
      `target` is what goes back into the firewall. It is clean if and only if no step fails but the health
      check, which is only reported. */
  method Rollback(host: Host, hasPrevious: bool, target: Option<seq<Firewall.Rule>>) returns (clean: bool, ghost news: seq<Step>)
    requires hasPrevious ==> host.previous.Some?
    requires !hasPrevious ==> target == if host.kind == Realm then Some([]) else None
    modifies host`config, host`running, host`enabled, host`proven, host`tried, host`crashed, host`steps, host`failed
    modifies host`failedAt, host`blind, Objects(host.backend)
    ensures old(host.Honest()) ==> host.Honest()
    ensures host.failed == old(host.failed) + news && (old(host.crashed) ==> host.crashed)
    ensures host.blind >= old(host.blind)
    ensures !host.crashed ==> (clean <==> OnlyHealth(news))
    ensures clean ==> !host.crashed && host.config == if hasPrevious then host.previous else None
    ensures clean ==> host.running == if hasPrevious then host.previous else None
    ensures clean && !hasPrevious ==> !host.enabled
    ensures host.config == old(host.config) || host.config == if hasPrevious then host.previous else None
    ensures target.None? ==> host.State() == old(host.State())
    ensures target.Some? ==> AtMostOnce(old(host.State()), host.State(), host.Owner(), target.value)
    ensures clean && target.Some? ==> Reconciled(old(host.State()), host.State(), host.Owner(), target.value, true)
                                      && (host.blind == old(host.blind) ==> !old(host.State()).Blind())
    ensures clean ==> host.tried == old(host.tried) + Undoing(host.kind, hasPrevious, target.Some?)
  {
    hide Host.Honest, Host.FairAt, Reconciled, Undoing;
    if hasPrevious {
      clean, news := PutBack(host, target);
    } else {
      clean, news := TakeAway(host, target);
    }
  }

  method PutBack(host: Host, target: Option<seq<Firewall.Rule>>) returns (clean: bool, ghost news: seq<Step>)
    requires host.previous.Some?
    modifies host`config, host`running, host`proven, host`tried, host`crashed, host`steps, host`failed, host`failedAt
    modifies host`blind, Objects(host.backend)
    ensures old(host.Honest()) ==> host.Honest()
    ensures host.failed == old(host.failed) + news && (old(host.crashed) ==> host.crashed)
    ensures host.blind >= old(host.blind)
    ensures !host.crashed ==> (clean <==> OnlyHealth(news))
    ensures clean ==> !host.crashed && host.config == host.previous
    ensures clean ==> host.running == host.previous
    ensures host.config == old(host.config) || host.config == host.previous
    ensures target.None? ==> host.State() == old(host.State())
    ensures target.Some? ==> AtMostOnce(old(host.State()), host.State(), host.Owner(), target.value)
    ensures clean && target.Some? ==> Reconciled(old(host.State()), host.State(), host.Owner(), target.value, true)
                                      && (host.blind == old(host.blind) ==> !old(host.State()).Blind())
    ensures clean ==> host.tried == old(host.tried) + Undoing(host.kind, true, target.Some?)
  {
    hide Host.Honest, Host.FairAt, Reconciled, Undoing, Host.Seen, Host.Owner, State.Blind, Host.Target;
    UndoingIs(host.tried, host.kind, target.Some?);
    clean, news := RestoreConfig(host);
    if !clean {
      return;
    }
    clean, news := SeeThrough(host, target);
  }

  /** The restored config is looked at and its rules, when they are known, are run for. */
  method SeeThrough(host: Host, target: Option<seq<Firewall.Rule>>) returns (clean: bool, ghost news: seq<Step>)
    requires !host.crashed
    modifies host`proven, host`tried, host`crashed, host`steps, host`failed, host`failedAt, host`blind, Objects(host.backend)
    ensures old(host.Honest()) ==> host.Honest()
    ensures host.failed == old(host.failed) + news && host.blind >= old(host.blind)
    ensures !host.crashed ==> (clean <==> OnlyHealth(news))
    ensures clean ==> !host.crashed
    ensures target.None? ==> host.State() == old(host.State())
    ensures target.Some? ==> AtMostOnce(old(host.State()), host.State(), host.Owner(), target.value)
    ensures clean && target.Some? ==> Reconciled(old(host.State()), host.State(), host.Owner(), target.value, true)
                                      && (host.blind == old(host.blind) ==> !old(host.State()).Blind())
    ensures clean ==> host.tried == old(host.tried) + (if host.kind == Xray || target.Some? then [Health] else [])
                                    + (if target.Some? then [Step.Reconcile] else [])
  {
    hide Host.Honest, Host.FairAt, Reconciled, Host.Seen, Host.Owner, State.Blind, Host.Target;
    clean, news := true, [];
    if host.kind == Xray || target.Some? {
      var healthy := host.Wait();
      news := if healthy then [] else [Health];
    }
    if target.Some? {
      ghost var crashed := host.crashed;
      ghost var done;
      clean, done := host.Reconcile(target.value);
      news := if clean || crashed then news else news + [Step.Reconcile];
      assert clean || crashed || news[|news| - 1].Reconcile?;
    }
    clean := clean && !host.crashed;
  }

  /** The saved config is put back and the service restarted with it. */
  method RestoreConfig(host: Host) returns (ok: bool, ghost news: seq<Step>)
    modifies host`config, host`running, host`tried, host`crashed, host`steps, host`failed, host`failedAt
    ensures old(host.Honest()) ==> host.Honest()
    ensures host.failed == old(host.failed) + news && (old(host.crashed) ==> host.crashed)
    ensures ok ==> news == [] && !host.crashed && host.config == host.previous
    ensures ok ==> host.running == host.previous
    ensures !ok && !host.crashed ==> !OnlyHealth(news)
    ensures host.config == old(host.config) || host.config == host.previous
    ensures ok ==> host.tried == old(host.tried) + [Restore, Mode, Restart]
  {
    hide Host.Honest, Host.FairAt;
    ok, news := false, [];
    if host.crashed {
      return;
    }
    ok := host.Try(Restore);
    if ok {
      host.config := host.previous;
      ok := host.Try(Mode);
      if ok {
        ok := host.Run(Restart);
        news := if ok then [] else [Restart];
      } else {
        news := [Mode];
      }
    } else {
      news := [Restore];
    }
    assert ok || !news[0].Health?;
    assert ok ==> host.tried == old(host.tried) + [Restore, Mode, Restart];
  }

  method TakeAway(host: Host, target: Option<seq<Firewall.Rule>>) returns (clean: bool, ghost news: seq<Step>)
    requires target == if host.kind == Realm then Some([]) else None
    modifies host`config, host`running, host`enabled, host`proven, host`tried, host`crashed, host`steps, host`failed
    modifies host`failedAt, host`blind, Objects(host.backend)
    ensures old(host.Honest()) ==> host.Honest()
    ensures host.failed == old(host.failed) + news && (old(host.crashed) ==> host.crashed)
    ensures host.blind >= old(host.blind)
    ensures !host.crashed ==> (clean <==> OnlyHealth(news))
    ensures clean ==> !host.crashed && host.config.None?
    ensures clean ==> host.running.None?
    ensures clean ==> !host.enabled
    ensures host.config == old(host.config) || host.config.None?
    ensures target.None? ==> host.State() == old(host.State())
    ensures target.Some? ==> AtMostOnce(old(host.State()), host.State(), host.Owner(), target.value)
    ensures clean && target.Some? ==> Reconciled(old(host.State()), host.State(), host.Owner(), target.value, true)
                                      && (host.blind == old(host.blind) ==> !old(host.State()).Blind())
    ensures clean ==> host.tried == old(host.tried) + Undoing(host.kind, false, target.Some?)
  {
    hide Host.Honest, Host.FairAt, Reconciled, Undoing;
    UndoingIs(host.tried, host.kind, target.Some?);
    var stopped, disabled, removed;
    stopped, disabled, removed, news := StopAndRemove(host);
    var cleared := true;
    ghost var done;
    if host.kind == Realm {
      ghost var crashed := host.crashed;
      cleared, done := host.Reconcile([]);
      news := if cleared || crashed then news else news + [Step.Reconcile];
      assert cleared || crashed || news[|news| - 1].Reconcile?;
    }
    clean := stopped && disabled && removed && cleared && !host.crashed;
  }

  method StopAndDisable(host: Host) returns (stopped: bool, disabled: bool, ghost news: seq<Step>)
    modifies host`running, host`enabled, host`tried, host`crashed, host`steps, host`failed, host`failedAt
    ensures old(host.Honest()) ==> host.Honest()
    ensures host.failed == old(host.failed) + news && (old(host.crashed) ==> host.crashed)
    ensures stopped ==> host.running.None?
    ensures disabled ==> !host.enabled
    ensures !host.crashed ==> (stopped && disabled <==> news == []) && (news == [] || !news[0].Health?)
    ensures !disabled ==> host.enabled == old(host.enabled)
    ensures !host.crashed ==> host.tried == old(host.tried) + [Stop, DisableUnit]
  {
    hide Host.Honest, Host.FairAt;
    ghost var crashed := host.crashed;
    stopped := host.Halt();
    news := if stopped || crashed then [] else [Stop];
    crashed := host.crashed;
    disabled := host.Try(DisableUnit);
    if disabled {
      host.enabled := false;
    }
    news := if disabled || crashed then news else news + [DisableUnit];
  }

  method StopAndRemove(host: Host) returns (stopped: bool, disabled: bool, removed: bool, ghost news: seq<Step>)
    modifies host`config, host`running, host`enabled, host`tried, host`crashed, host`steps, host`failed, host`failedAt
    ensures old(host.Honest()) ==> host.Honest()
    ensures host.failed == old(host.failed) + news && (old(host.crashed) ==> host.crashed)
    ensures host.config == if removed then None else old(host.config)
    ensures stopped ==> host.running.None?
    ensures disabled ==> !host.enabled
    ensures !host.crashed ==> (stopped && disabled && removed <==> news == []) && (news == [] || !news[0].Health?)
    ensures !host.crashed ==> host.tried == old(host.tried) + [Stop, DisableUnit, Remove]
  {
    hide Host.Honest, Host.FairAt;
    stopped, disabled, news := StopAndDisable(host);
    ghost var crashed := host.crashed;
    removed := host.Try(Remove);
    news := if removed || crashed then news else news + [Remove];
    if removed {
      host.config := None;
    }
  }

  /** The firewall was not touched, or one run for these rules was made. */
  ghost predicate AtMostOnce(before: State, after: State, owner: Firewall.Owner, rules: seq<Firewall.Rule>) {
    after == before || exists done :: Reconciled(before, after, owner, rules, done)
  }

  /** The config in place is secured, and the service started with it unless it is found up. */
  method Wake(host: Host) returns (ok: bool, ghost news: seq<Step>)
    requires !host.crashed
    modifies host`running, host`found, host`proven, host`tried, host`crashed, host`steps, host`failed, host`failedAt
    ensures old(host.Honest()) ==> host.Honest()
    ensures host.failed == old(host.failed) + news
    ensures ok ==> news == [] && !host.crashed && host.running == if host.found.Up? then old(host.running) else host.config
    ensures ok && !host.found.Up? ==> host.proven == host.config
    ensures !ok ==> |news| == 1 && !Early(news[0])
    ensures FoundUp(host, old(host.steps)) ==> ok && host.found.Up? && host.steps == old(host.steps) + 2
    ensures ok ==> host.tried == old(host.tried) + Waking(host.found.Up?)
  {
    hide Host.Honest, Host.FairAt;
    ok := host.Try(Secure);
    if !ok {
      return false, [Secure];
    }
    var look := host.Ask();
    if look.QueryFailed? {
      return false, [Query];
    }
    if look.Up? {
      return true, [];
    }
    ok := host.Run(Start);
    if !ok {
      return false, [Start];
    }
    ok := host.Wait();
    news := if ok then [] else [Health];
  }

  /** The permissions are set and the look succeeds, from this step on. */
  predicate FoundUp(host: Host, step: nat) {
    host.plan(step).Works? && host.plan(step + 1).Works? && host.sees(step + 1, 0).look.Up?
  }

  /** Nothing stands in the way of a run at this step: there is no firewall. */
  predicate FreeRun(host: Host, step: nat, desired: seq<Firewall.Rule>) {
    host.plan(step).Works? && host.backend.NoFirewall? && Valid(desired)
  }

  /** The config that is already in place is made to run. A service that is found up is not restarted, so
      it may go on with the config it was started with. */
  method Reapply(host: Host, desired: seq<Firewall.Rule>) returns (outcome: Outcome, ghost news: seq<Step>)
    modifies host`running, host`found, host`proven, host`tried, host`crashed, host`steps, host`failed, host`failedAt, host`blind
    modifies Objects(host.backend)
    ensures old(host.Honest()) ==> host.Honest()
    ensures host.failed == old(host.failed) + news && (old(host.crashed) ==> host.crashed)
    ensures host.blind >= old(host.blind)
    ensures outcome.Applied? || outcome.NotReapplied?
    ensures outcome.Applied? ==> host.running == if host.found.Up? then old(host.running) else host.config
    ensures outcome.Applied? && !host.found.Up? ==> host.proven == host.config
    ensures !host.crashed ==> Judged(outcome, news, false)
    ensures outcome.Applied? ==> !host.crashed && Reconciled(old(host.State()), host.State(), host.Owner(), desired, true)
                                 && (host.blind == old(host.blind) ==> !old(host.State()).Blind())
    ensures outcome.NotReapplied? ==> AtMostOnce(old(host.State()), host.State(), host.Owner(), desired)
    ensures !old(host.crashed) && FoundUp(host, old(host.steps)) && FreeRun(host, old(host.steps) + 2, desired) ==>
              outcome.Applied? && host.found.Up?
    ensures outcome.Applied? ==> host.tried == old(host.tried) + Waking(host.found.Up?) + [Step.Reconcile]
  {
    hide Host.Honest, Host.FairAt, Reconciled, FoundUp, Valid;
    outcome, news := NotReapplied, [];
    if host.crashed {
      return;
    }
    var ok;
    ok, news := Wake(host);
    if !ok {
      return;
    }
    ghost var done, before := false, host.State();
    ok, done := host.Reconcile(desired);
    if host.backend.NoFirewall? && Valid(desired) {
      BareSucceeds(host.Owner(), desired, done);
    }
    return if ok then Applied else NotReapplied, if ok then [] else [Step.Reconcile];
  }

  lemma BareSucceeds(owner: Firewall.Owner, rules: seq<Firewall.Rule>, ok: bool)
    requires Valid(rules) && Reconciled(Bare, Bare, owner, rules, ok)
    ensures ok
  {
  }

  /** The run for the new rules failed, and the run back ends with the old ones if and only if the firewall
      was right for them where the failed run left it, which the state before it decides. */
  ghost predicate Undone(before: State, after: State, owner: Firewall.Owner, target: seq<Firewall.Rule>, desired: seq<Firewall.Rule>) {
    after.Rules(owner) == Elements(target) <==> before.AfterCall(owner, desired).Right(owner, Elements(target))
  }

  /** The runs an install can come to, one for the new rules and one back, spare the other owner's entries:
      always on iptables, and on ufw when they are right and no entry counts for both. */
  ghost predicate Calm(before: State, owner: Firewall.Owner, target: Option<seq<Firewall.Rule>>, desired: seq<Firewall.Rule>) {
    before.Numbered? ==>
      && before.Parted() && before.Right(owner, Elements(desired))
      && (target.Some? ==> before.Right(owner, Elements(target.value))
                           && before.AfterCall(owner, desired).Right(owner, Elements(target.value)))
  }

  /** What became of the firewall, by the way an install ended. The other owner's entries are what they were
      when the runs are calm. With the config's own rules in it before,
      a clean rollback has them there again: as they were when the firewall had not been reached; and when
      it had, if and only if it is right for them where the failed run leaves it, which it is on any host but
      ufw with IPv6. That is unless the chain could not be listed. A rollback with nothing to go back to
      leaves the firewall where the failed run left it. */
  ghost predicate Settled(before: State, after: State, owner: Firewall.Owner, target: Option<seq<Firewall.Rule>>, desired: seq<Firewall.Rule>,
                          outcome: Outcome, reached: bool, blind: bool)
  {
    (Calm(before, owner, target, desired) ==> Spared(before, after, owner)) &&
    match outcome
    case Applied => Reconciled(before, after, owner, desired, true) && (!blind ==> !before.Blind())
    case Refused => after == before
    case InstallFailed => after == before
    case NotReapplied => AtMostOnce(before, after, owner, desired)
    case RolledBack(clean) =>
      && (clean && reached && target.Some? && !blind ==> Undone(before, after, owner, target.value, desired))
      && (clean && target.Some? && before.Rules(owner) == Elements(target.value) ==>
            && (!reached ==> after.Entries() == before.Entries() && after.Rules(owner) == before.Rules(owner))
            && ((before.Numbered? ==> !before.ipv6) && !blind ==> after.Rules(owner) == before.Rules(owner)))
      && (target.None? && (before.Numbered? ==> before.Right(owner, Elements(desired))) ==>
            (after.Entries() == before.Entries() <==> !reached || !Valid(desired) || before.Inert(owner, Elements(desired))))
  }

  /** A failed run for the new rules, and then one for the old ones. */
  lemma BackFromReconcile(before: State, mid: State, after: State, owner: Firewall.Owner, target: seq<Firewall.Rule>, desired: seq<Firewall.Rule>)
    requires Reconciled(before, mid, owner, desired, false) && Reconciled(mid, after, owner, target, true)
    requires (before.Numbered? ==> !before.ipv6) && before.Rules(owner) == Elements(target) && !mid.Blind()
    ensures after.Rules(owner) == before.Rules(owner)
  {
    hide State.Right, State.Rules;
  }

  lemma SettledByRollback(before: State, mid: State, after: State, owner: Firewall.Owner, target: Option<seq<Firewall.Rule>>,
                          desired: seq<Firewall.Rule>, outcome: Outcome, reached: bool, done: bool, blind: bool)
    requires outcome.RolledBack?
    requires if reached then Reconciled(before, mid, owner, desired, done) else mid == before
    requires outcome.clean ==> !done
    requires target.None? ==> after == mid
    requires target.Some? ==> AtMostOnce(mid, after, owner, target.value)
    requires outcome.clean && target.Some? ==> Reconciled(mid, after, owner, target.value, true) && (!blind ==> !mid.Blind())
    ensures Settled(before, after, owner, target, desired, outcome, reached, blind)
  {
    RollbackSpares(before, mid, after, owner, target, desired, reached, done);
    if outcome.clean && reached && target.Some? && !blind {
      assert Undone(before, after, owner, target.value, desired) by {
        hide State.Right, State.Rules, State.Entries, State.Inert, State.AfterRun;
      }
    }
    if outcome.clean && target.Some? && before.Rules(owner) == Elements(target.value) {
      if reached {
        if (before.Numbered? ==> !before.ipv6) && !blind {
          BackFromReconcile(before, mid, after, owner, target.value, desired);
        }
      } else {
        assert after.Entries() == before.Entries() by {
          hide State.Right, State.Rules, State.Entries, State.Inert;
        }
        SameEntries(before, after, owner, target.value);
      }
    }
    hide State.Right, State.Rules, State.Entries, State.Inert;
  }

  lemma RollbackSpares(before: State, mid: State, after: State, owner: Firewall.Owner, target: Option<seq<Firewall.Rule>>,
                       desired: seq<Firewall.Rule>, reached: bool, done: bool)
    requires if reached then Reconciled(before, mid, owner, desired, done) else mid == before
    requires target.None? ==> after == mid
    requires target.Some? ==> AtMostOnce(mid, after, owner, target.value)
    ensures Calm(before, owner, target, desired) ==> Spared(before, after, owner)
  {
    hide State.Right, State.Rules, State.Entries, State.Inert, State.AfterRun, State.Of, Succeeds, Ends, Moves, Valid, State.Parted;
  }

  lemma SameEntries(before: State, after: State, owner: Firewall.Owner, rules: seq<Firewall.Rule>)
    requires Reconciled(before, after, owner, rules, true) && after.Entries() == before.Entries()
    ensures after.Rules(owner) == before.Rules(owner)
  {
  }

  /** Restart, health, firewall: the new config is made to run. */
  method Launch(host: Host, desired: seq<Firewall.Rule>) returns (ok: bool, ghost done: bool, ghost news: seq<Step>)
    requires !host.crashed
    modifies host`running, host`proven, host`tried, host`crashed, host`steps, host`failed, host`failedAt, host`blind
    modifies Objects(host.backend)
    ensures old(host.Honest()) ==> host.Honest()
    ensures host.failed == old(host.failed) + news && host.blind >= old(host.blind)
    ensures ok ==> news == [] && done && !host.crashed && (host.blind == old(host.blind) ==> !old(host.State()).Blind())
    ensures ok ==> host.running == host.config
    ensures ok ==> host.proven == host.config
    ensures !ok ==> (news == [Restart] || news == [Health] || news == [Step.Reconcile]) && (done ==> host.crashed)
    ensures if ok || news == [Step.Reconcile] then Reconciled(old(host.State()), host.State(), host.Owner(), desired, done)
            else host.State() == old(host.State())
    ensures host.tried == old(host.tried) + Launching(news)
  {
    hide Host.Honest, Host.FairAt, Reconciled,
      Host.Seen, Host.Owner, State.Blind;
    done := false;
    ok := host.Run(Restart);
    if !ok {
      return false, done, [Restart];
    }
    ok := host.Wait();
    if !ok {
      return false, done, [Health];
    }
    ok, done := host.Reconcile(desired);
    news := if ok then [] else [Step.Reconcile];
  }

  /** The rollback after a failed launch. */
  method FallBack(host: Host, hasPrevious: bool, target: Option<seq<Firewall.Rule>>, desired: seq<Firewall.Rule>,
                  ghost before: State, ghost reached: bool, ghost done: bool, ghost blind: bool)
      returns (outcome: Outcome, ghost news: seq<Step>)
    requires hasPrevious ==> host.previous.Some?
    requires !hasPrevious ==> target == if host.kind == Realm then Some([]) else None
    requires if reached then Reconciled(before, host.State(), host.Owner(), desired, done) else host.State() == before
    requires done ==> host.crashed
    modifies host`config, host`running, host`enabled, host`proven, host`tried, host`crashed, host`steps, host`failed
    modifies host`failedAt, host`blind, Objects(host.backend)
    ensures old(host.Honest()) ==> host.Honest()
    ensures host.failed == old(host.failed) + news && (old(host.crashed) ==> host.crashed) && host.blind >= old(host.blind)
    ensures outcome.RolledBack? && (!host.crashed ==> outcome == RolledBack(OnlyHealth(news)))
    ensures outcome.clean ==> !host.crashed
    ensures host.config == old(host.config) || host.config == if hasPrevious then host.previous else None
    ensures outcome.clean ==> host.config == if hasPrevious then host.previous else None
    ensures outcome.clean ==> host.running == if hasPrevious then host.previous else None
    ensures outcome.clean && !hasPrevious ==> !host.enabled
    ensures Settled(before, host.State(), host.Owner(), target, desired, outcome, reached, blind || host.blind != old(host.blind))
    ensures outcome.clean ==> host.tried == old(host.tried) + Undoing(host.kind, hasPrevious, target.Some?)
  {
    hide Host.Honest, Host.FairAt, Reconciled, Settled, Undoing;
    ghost var mid := host.State();
    var clean;
    clean, news := Rollback(host, hasPrevious, target);
    outcome := RolledBack(clean);
    SettledByRollback(before, mid, host.State(), host.Owner(), target, desired, outcome, reached, done, blind || host.blind != old(host.blind));
  }

  /** The installed candidate is made to run, and the old state put back if that does not work. */
  method Settle(host: Host, hasPrevious: bool, target: Option<seq<Firewall.Rule>>, desired: seq<Firewall.Rule>)
      returns (outcome: Outcome, ghost news: seq<Step>)
    requires !host.crashed && (hasPrevious ==> host.previous.Some?)
    requires !hasPrevious ==> target == if host.kind == Realm then Some([]) else None
    modifies host`config, host`running, host`enabled, host`proven, host`tried, host`crashed, host`steps, host`failed
    modifies host`failedAt, host`blind, Objects(host.backend)
    ensures old(host.Honest()) ==> host.Honest()
    ensures host.failed == old(host.failed) + news && host.blind >= old(host.blind)
    ensures outcome == Applied || (outcome.RolledBack? && news != [] && !Early(news[0]) && !news[0].Secure?)
    ensures outcome.Applied? ==> news == [] && !host.crashed && host.config == old(host.config)
    ensures outcome.Applied? ==> host.running == host.config
    ensures outcome.Applied? ==> host.proven == host.config && host.enabled == old(host.enabled)
    ensures outcome == RolledBack(true) && !hasPrevious ==> !host.enabled
    ensures outcome == RolledBack(true) ==> host.running == if hasPrevious then host.previous else None
    ensures outcome.RolledBack? && !host.crashed ==> outcome == RolledBack(OnlyHealth(news[1..]))
    ensures outcome == RolledBack(true) ==> !host.crashed && host.config == if hasPrevious then host.previous else None
    ensures host.config == old(host.config) || host.config == if hasPrevious then host.previous else None
    ensures Settled(old(host.State()), host.State(), host.Owner(), target, desired, outcome, Reached(news), host.blind != old(host.blind))
    ensures outcome.Applied? ==> host.tried == old(host.tried) + Launching([])
    ensures outcome == RolledBack(true) ==> host.tried == old(host.tried) + Launching(news) + Undoing(host.kind, hasPrevious, target.Some?)
  {
    hide Host.Honest, Host.FairAt, Reconciled, State.Rules, State.Entries, State.Right, State.Inert, State.AfterCall, Valid, Settled, Undoing;
    ghost var before := host.State();
    var ok;
    ghost var done, first, later;
    ok, done, first := Launch(host, desired);
    if ok {
      AppliedIsSettled(before, host.State(), host.Owner(), target, desired, Reached([]), host.blind != old(host.blind));
      return Applied, [];
    }
    outcome, later := FallBack(host, hasPrevious, target, desired, before, first[0].Reconcile?, done, host.blind != old(host.blind));
    news := first + later;
    assert news[0] == first[0] && news[1..] == later;
  }

  /** The config in place is replaced by the candidate, and put back if that does not run. */
  method Switch(host: Host, candidate: string, desired: seq<Firewall.Rule>) returns (outcome: Outcome, ghost news: seq<Step>)
    requires !host.crashed && (host.config.Some? ==> host.previous == host.config)
    modifies host`config, host`running, host`enabled, host`proven, host`tried, host`crashed, host`steps, host`failed
    modifies host`failedAt, host`blind, Objects(host.backend)
    ensures old(host.Honest()) ==> host.Honest()
    ensures host.failed == old(host.failed) + news && host.blind >= old(host.blind)
    ensures !host.crashed ==> Judged(outcome, news, true)
    ensures !outcome.NotReapplied? && (news == [] <==> outcome.Applied?)
    ensures outcome.Applied? ==> !host.crashed && host.config == Some(candidate)
    ensures outcome.Refused? ==> host.config == old(host.config)
    ensures outcome.InstallFailed? ==> host.config == Some(candidate)
    ensures outcome.RolledBack? ==> host.config == Some(candidate) || host.config == old(host.config)
    ensures outcome == RolledBack(true) ==> !host.crashed && host.config == old(host.config)
    ensures outcome.Applied? ==> host.running == host.config
    ensures outcome.Applied? ==> host.proven == host.config && host.enabled == old(host.enabled)
    ensures outcome == RolledBack(true) && old(host.config).None? ==> !host.enabled
    ensures outcome == RolledBack(true) ==> host.running == old(host.config)
    ensures outcome.Refused? || outcome.InstallFailed? ==> host.running == old(host.running)
    ensures host.plan(old(host.steps)).Works? && !host.plan(old(host.steps) + 1).Works? ==>
              outcome.InstallFailed? && host.steps == old(host.steps) + 2 && host.crashed == host.plan(old(host.steps) + 1).Stops?
    ensures Settled(old(host.State()), host.State(), host.Owner(), old(host.Target()), desired, outcome,
                    Reached(news), host.blind != old(host.blind))
    ensures outcome.Applied? ==> host.tried == old(host.tried) + [Replace, Secure] + Launching([])
    ensures outcome == RolledBack(true) ==>
              host.tried == old(host.tried) + [Replace, Secure] + Launching(news) + Undoing(host.kind, old(host.config).Some?, old(host.Target()).Some?)
  {
    hide Host.Honest, Host.FairAt, Reconciled, State.Rules, State.Entries, State.Right, State.Inert, State.AfterCall, Valid, Settled, Launching, Undoing;
    var hasPrevious, target := host.config.Some?, host.Target();
    RefusedIsSettled(host.State(), host.Owner(), target, desired);
    var ok := host.Try(Replace);
    if !ok {
      return Refused, [Replace];
    }
    host.config := Some(candidate);
    ok := host.Try(Secure);
    if !ok {
      FailedIsSettled(host.State(), host.Owner(), target, desired);
      return InstallFailed, [Secure];
    }
    assert host.tried == old(host.tried) + [Replace, Secure];
    outcome, news := Settle(host, hasPrevious, target, desired);
  }

  /** The service file is written and the service enabled. */
  method InstallUnit(host: Host) returns (ok: bool, ghost news: seq<Step>)
    requires !host.crashed
    modifies host`unit, host`enabled, host`tried, host`crashed, host`steps, host`failed, host`failedAt
    ensures old(host.Honest()) ==> host.Honest()
    ensures host.failed == old(host.failed) + news && (ok ==> news == [] && !host.crashed)
    ensures !ok ==> |news| == 1 && Early(news[0])
    ensures ok ==> host.unit && host.enabled
    ensures AllWork(host.plan, old(host.steps), 2) ==> ok && host.steps == old(host.steps) + 2
    ensures !ok ==> host.enabled == old(host.enabled)
    ensures ok ==> host.tried == old(host.tried) + [Unit, EnableUnit]
  {
    hide Host.Honest, Host.FairAt;
    ok := host.Try(Unit);
    if !ok {
      return false, [Unit];
    }
    host.unit := true;
    ok := host.Try(EnableUnit);
    if ok {
      host.enabled := true;
    }
    news := if ok then [] else [EnableUnit];
  }

  /** The config in place, if there is one, is kept as the previous one. */
  method SavePrevious(host: Host) returns (ok: bool, ghost news: seq<Step>)
    requires !host.crashed
    modifies host`previous, host`tried, host`crashed, host`steps, host`failed, host`failedAt
    ensures old(host.Honest()) ==> host.Honest()
    ensures host.failed == old(host.failed) + news && (ok ==> news == [] && !host.crashed)
    ensures ok && host.config.Some? ==> host.previous == host.config
    ensures !ok ==> |news| == 1 && Early(news[0])
    ensures AllWork(host.plan, old(host.steps), Saves(host.config)) ==> ok && host.steps == old(host.steps) + Saves(host.config)
    ensures ok ==> host.tried == old(host.tried) + (if host.config.Some? then [Save, Mode] else [])
  {
    hide Host.Honest, Host.FairAt;
    if host.config.None? {
      return true, [];
    }
    ok := host.Try(Save);
    if !ok {
      return false, [Save];
    }
    host.previous := host.config;
    ok := host.Try(Mode);
    news := if ok then [] else [Mode];
  }

  /** From the validated candidate on: unit, service, config, restart, health, firewall. */
  method Install(host: Host, candidate: string, desired: seq<Firewall.Rule>) returns (outcome: Outcome, ghost news: seq<Step>)
    requires host.marker && !host.crashed
    modifies host`unit, host`config, host`previous, host`running, host`found, host`enabled, host`proven
    modifies host`tried, host`crashed, host`steps, host`failed, host`failedAt, host`blind, Objects(host.backend)
    ensures old(host.Honest()) ==> host.Honest()
    ensures host.failed == old(host.failed) + news && host.blind >= old(host.blind)
    ensures !host.crashed ==> Judged(outcome, news, old(host.config) != Some(candidate))
    ensures outcome.Applied? || outcome == RolledBack(true) ==> !host.crashed
    ensures Served(outcome, old(host.Serving()), host.Serving(), candidate)
    ensures Settled(old(host.State()), host.State(), host.Owner(), old(host.Target()), desired, outcome,
                    Reached(news), host.blind != old(host.blind))
    ensures old(host.config) != Some(candidate) && StopsInReplace(host.plan, old(host.steps), 0, old(host.config)) ==>
              outcome.InstallFailed? && host.crashed && host.steps == old(host.steps) + 4 + Saves(old(host.config))
    ensures old(host.config) == Some(candidate) && ComesUp(host, old(host.steps), 0, desired) ==> outcome.Applied? && host.found.Up?
    ensures Traced(old(host.tried), host.tried, [Unit, EnableUnit],
                   Way(host.kind, old(host.config) == Some(candidate), host.found.Up?, old(host.config).Some?, old(host.Target()).Some?), outcome, news, [])
  {
    hide Host.Honest, Host.FairAt, Reconciled, State.Rules, State.Entries, State.Right, State.Inert, Valid, AtMostOnce,
      OnlyHealth, StopsInReplace, AllWork, FoundUp, FreeRun, Settled, Waking, Exchanging, Launching, Undoing, Traced,
      Undone, Calm, Host.Owner, State.AfterCall, State.Of, State.Parted;
    RefusedIsTraced();
    RefusedIsSettled(host.State(), host.Owner(), host.Target(), desired);
    var ok;
    StopsNow(host.plan, host.steps, host.config);
    ok, news := InstallUnit(host);
    if !ok {
      return Refused, news;
    }
    if host.config == Some(candidate) {
      ghost var before := host.State();
      outcome, news := Reapply(host, desired);
      InstallingIs(old(host.tried), host.tried,
                   Way(host.kind, old(host.config) == Some(candidate), host.found.Up?, old(host.config).Some?, old(host.Target()).Some?), outcome, news);
      ReapplyIsSettled(before, host.State(), host.Owner(), old(host.Target()), desired, outcome, Reached(news), host.blind != old(host.blind));
      return;
    }
    outcome, news := Exchange(host, candidate, desired);
    InstallingIs(old(host.tried), host.tried,
                 Way(host.kind, old(host.config) == Some(candidate), host.found.Up?, old(host.config).Some?, old(host.Target()).Some?), outcome, news);
  }

  /** The previous config is saved, and the candidate takes its place. */
  method Exchange(host: Host, candidate: string, desired: seq<Firewall.Rule>) returns (outcome: Outcome, ghost news: seq<Step>)
    requires !host.crashed && host.unit && host.enabled && host.config != Some(candidate)
    modifies host`config, host`previous, host`running, host`enabled, host`proven
    modifies host`tried, host`crashed, host`steps, host`failed, host`failedAt, host`blind, Objects(host.backend)
    ensures old(host.Honest()) ==> host.Honest()
    ensures host.failed == old(host.failed) + news && host.blind >= old(host.blind)
    ensures !host.crashed ==> Judged(outcome, news, true)
    ensures outcome.Applied? || outcome == RolledBack(true) ==> !host.crashed
    ensures Served(outcome, old(host.Serving()), host.Serving(), candidate)
    ensures Settled(old(host.State()), host.State(), host.Owner(), old(host.Target()), desired, outcome,
                    Reached(news), host.blind != old(host.blind))
    ensures AllWork(host.plan, old(host.steps), Saves(old(host.config))) && CutShort(host.plan, old(host.steps) + Saves(old(host.config))) ==>
              outcome.InstallFailed? && host.crashed && host.steps == old(host.steps) + 2 + Saves(old(host.config))
    ensures outcome.Applied? ==> host.tried == old(host.tried) + Exchanging(old(host.config).Some?) + Launching([])
    ensures outcome == RolledBack(true) ==>
              host.tried == old(host.tried) + Exchanging(old(host.config).Some?) + Launching(news)
                            + Undoing(host.kind, old(host.config).Some?, old(host.Target()).Some?)
  {
    hide Host.Honest, Host.FairAt, Reconciled, State.Rules, State.Entries, State.Right, State.Inert, Valid, AtMostOnce,
      OnlyHealth, AllWork, Settled, Launching, Undoing, Exchanging;
    RefusedIsSettled(host.State(), host.Owner(), host.Target(), desired);
    var ok;
    ok, news := SavePrevious(host);
    if !ok {
      return Refused, news;
    }
    outcome, news := Switch(host, candidate, desired);
    ExchangingIs(old(host.tried), old(host.config).Some?, Launching(news), Undoing(host.kind, old(host.config).Some?, old(host.Target()).Some?));
  }

  /** Nothing of the runtime changed, nor did the firewall. */
  twostate predicate Kept(host: Host)
    reads host, Objects(host.backend)
  {
    && host.marker == old(host.marker) && host.binary == old(host.binary) && host.unit == old(host.unit)
    && host.config == old(host.config) && host.previous == old(host.previous)
    && host.running == old(host.running) && host.enabled == old(host.enabled)
    && host.installTemp == old(host.installTemp) && host.configTemp == old(host.configTemp)
    && host.State() == old(host.State())
  }

  /** The written candidate is validated and installed. */
  method TryCandidate(host: Host, candidate: string, desired: seq<Firewall.Rule>) returns (outcome: Outcome, ghost news: seq<Step>)
    requires host.marker && !host.crashed
    modifies host`unit, host`config, host`previous, host`running, host`found, host`enabled, host`proven
    modifies host`tried, host`crashed, host`steps, host`failed, host`failedAt, host`blind, Objects(host.backend)
    ensures old(host.Honest()) ==> host.Honest()
    ensures host.failed == old(host.failed) + news && host.blind >= old(host.blind)
    ensures !host.crashed ==> Judged(outcome, news, old(host.config) != Some(candidate))
    ensures Served(outcome, old(host.Serving()), host.Serving(), candidate)
    ensures host.config == old(host.config) || host.accepts(candidate)
    ensures outcome.Applied? ==> host.accepts(candidate)
    ensures Settled(old(host.State()), host.State(), host.Owner(), old(host.Target()), desired, outcome,
                    Reached(news), host.blind != old(host.blind))
    ensures host.accepts(candidate) && old(host.config) != Some(candidate) && StopsInReplace(host.plan, old(host.steps), 1, old(host.config)) ==>
              outcome.InstallFailed? && host.crashed && host.steps == old(host.steps) + 5 + Saves(old(host.config))
    ensures host.accepts(candidate) && old(host.config) == Some(candidate) && ComesUp(host, old(host.steps), 1, desired) ==>
              outcome.Applied? && host.found.Up?
    ensures Traced(old(host.tried), host.tried, [Validate, Unit, EnableUnit],
                   Way(host.kind, old(host.config) == Some(candidate), host.found.Up?, old(host.config).Some?, old(host.Target()).Some?), outcome, news, [])
    ensures Done(outcome) ==> !host.crashed
  {
    hide Host.Honest, Host.FairAt, Settled, Served, StopsInReplace, ComesUp, Traced;
    RefusedIsTraced();
    RefusedIsSettled(host.State(), host.Owner(), host.Target(), desired);
    RefusedIsServed(host.Serving(), Some(candidate));
    StopsLater(host.plan, host.steps, 1, 1, host.config);
    ComesUpLater(host, host.steps, 1, 1, desired);
    assert AllWork(host.plan, host.steps, 1) ==> host.plan(host.steps).Works?;
    var ok := host.ValidateConfig(candidate);
    if !ok {
      return Refused, [Validate];
    }
    outcome, news := Install(host, candidate, desired);
    ValidatedIsTraced(old(host.tried), host.tried,
                      Way(host.kind, old(host.config) == Some(candidate), host.found.Up?, old(host.config).Some?, old(host.Target()).Some?),
                      outcome, news);
  }

  /** Written, validated and installed. */
  method Attempt(host: Host, candidate: string, desired: seq<Firewall.Rule>)
      returns (written: bool, outcome: Outcome, ghost news: seq<Step>)
    requires host.marker && !host.crashed
    modifies host`configTemp, host`unit, host`config, host`previous, host`running, host`found, host`enabled
    modifies host`proven, host`tried, host`crashed, host`steps, host`failed, host`failedAt, host`blind, Objects(host.backend)
    ensures old(host.Honest()) ==> host.Honest()
    ensures host.failed == old(host.failed) + news && host.blind >= old(host.blind)
    ensures !host.crashed ==> Judged(outcome, news, old(host.config) != Some(candidate))
    ensures Served(outcome, old(host.Serving()), host.Serving(), candidate)
    ensures host.config == old(host.config) || host.accepts(candidate)
    ensures outcome.Applied? ==> host.accepts(candidate)
    ensures Settled(old(host.State()), host.State(), host.Owner(), old(host.Target()), desired, outcome,
                    Reached(news), host.blind != old(host.blind))
    ensures host.accepts(candidate) && old(host.config) != Some(candidate) && StopsInReplace(host.plan, old(host.steps), 3, old(host.config)) ==>
              outcome.InstallFailed? && host.crashed && host.steps == old(host.steps) + 7 + Saves(old(host.config))
    ensures host.accepts(candidate) && old(host.config) == Some(candidate) && ComesUp(host, old(host.steps), 3, desired) ==>
              outcome.Applied? && host.found.Up?
    ensures Traced(old(host.tried), host.tried, [ConfigDir, Candidate, Validate, Unit, EnableUnit],
                   Way(host.kind, old(host.config) == Some(candidate), host.found.Up?, old(host.config).Some?, old(host.Target()).Some?), outcome, news, [])
    ensures (Done(outcome) ==> written && !host.crashed) && (!written ==> outcome.Refused?)
  {
    hide Host.Honest, Host.FairAt, Host.Seen, Settled, Served, Judged, Reached, Early, StateOf, StopsInReplace, ComesUp, AllWork,
      Traced, Done, Host.Owner, Host.Stranded, Host.Untouched, Saves, CutShort;
    RefusedIsTraced();
    RefusedIsSettled(host.State(), host.Owner(), host.Target(), desired);
    RefusedIsServed(host.Serving(), Some(candidate));
    var ok;
    StopsLater(host.plan, host.steps, 3, 2, host.config);
    ComesUpLater(host, host.steps, 3, 2, desired);
    ok, news := WriteCandidate(host);
    if !ok {
      RefusedIsJudged(news, host.config != Some(candidate));
      return false, Refused, news;
    }
    written := true;
    outcome, news := TryCandidate(host, candidate, desired);
    WrittenIsTraced(old(host.tried), host.tried,
                    Way(host.kind, old(host.config) == Some(candidate), host.found.Up?, old(host.config).Some?, old(host.Target()).Some?),
                    outcome, news);
  }

  /** The candidate is written, validated and installed. */
  method Configure(host: Host, candidate: string, desired: seq<Firewall.Rule>) returns (outcome: Outcome, ghost news: seq<Step>)
    requires host.marker && !host.crashed
    modifies host`configTemp, host`unit, host`config, host`previous, host`running, host`found, host`enabled
    modifies host`proven, host`tried, host`crashed, host`steps, host`failed, host`failedAt, host`blind, Objects(host.backend)
    ensures old(host.Honest()) ==> host.Honest()
    ensures host.failed == old(host.failed) + news && host.blind >= old(host.blind)
    ensures !host.crashed ==> Judged(outcome, news, old(host.config) != Some(candidate))
    ensures Served(outcome, old(host.Serving()), host.Serving(), candidate)
    ensures host.config == old(host.config) || host.accepts(candidate)
    ensures outcome.Applied? ==> host.accepts(candidate)
    ensures Settled(old(host.State()), host.State(), host.Owner(), old(host.Target()), desired, outcome,
                    Reached(news), host.blind != old(host.blind))
    ensures host.accepts(candidate) && old(host.config) != Some(candidate) && StopsInReplace(host.plan, old(host.steps), 3, old(host.config)) ==>
              outcome.InstallFailed? && host.crashed && host.steps == old(host.steps) + 7 + Saves(old(host.config))
    ensures host.accepts(candidate) && old(host.config) == Some(candidate) && ComesUp(host, old(host.steps), 3, desired) ==>
              outcome.Applied? && host.found.Up?
    ensures Traced(old(host.tried), host.tried, [ConfigDir, Candidate, Validate, Unit, EnableUnit],
                   Way(host.kind, old(host.config) == Some(candidate), host.found.Up?, old(host.config).Some?, old(host.Target()).Some?), outcome, news, [Tidy])
    ensures Done(outcome) ==> host.steps > 0 && (host.configTemp ==> !host.plan(host.steps - 1).Works?)
  {
    hide Host.Honest, Host.FairAt, Host.Seen, Settled, Served, Judged, Reached, StateOf, StopsInReplace, ComesUp, Traced, Done, Host.Owner,
      Host.Stranded, Host.Untouched, Saves, CutShort, Early;
    RefusedIsTraced();
    var written;
    written, outcome, news := Attempt(host, candidate, desired);
    if !written {
      return;
    }
    ghost var mid := host.tried;
    var cleaned := host.TryQuietly(Tidy);
    if cleaned {
      host.configTemp := false;
    }
    TidiedIsTraced(old(host.tried), mid, host.tried,
                   Way(host.kind, old(host.config) == Some(candidate), host.found.Up?, old(host.config).Some?, old(host.Target()).Some?), outcome, news);
  }

  /** The candidate is written beside the config. */
  method WriteCandidate(host: Host) returns (ok: bool, ghost news: seq<Step>)
    requires !host.crashed
    modifies host`configTemp, host`tried, host`crashed, host`steps, host`failed, host`failedAt
    ensures old(host.Honest()) ==> host.Honest()
    ensures host.failed == old(host.failed) + news && (ok ==> news == [] && !host.crashed)
    ensures !ok ==> |news| == 1 && Early(news[0])
    ensures AllWork(host.plan, old(host.steps), 2) ==> ok && host.steps == old(host.steps) + 2
    ensures ok ==> host.tried == old(host.tried) + [ConfigDir, Candidate]
    ensures host.configTemp == (ok || old(host.configTemp))
  {
    hide Host.Honest, Host.FairAt;
    ok := host.Try(ConfigDir);
    if !ok {
      return false, [ConfigDir];
    }
    ok := host.Try(Candidate);
    if !ok {
      return false, [Candidate];
    }
    host.configTemp := true;
    news := [];
  }

  lemma FailedIsSettled(state: State, owner: Firewall.Owner, target: Option<seq<Firewall.Rule>>, desired: seq<Firewall.Rule>)
    ensures forall reached, blind :: Settled(state, state, owner, target, desired, InstallFailed, reached, blind)
  {
    hide Calm, State.Of, State.Parted;
  }

  lemma AppliedIsSettled(before: State, after: State, owner: Firewall.Owner, target: Option<seq<Firewall.Rule>>, desired: seq<Firewall.Rule>,
                         reached: bool, blind: bool)
    requires Reconciled(before, after, owner, desired, true) && (!blind ==> !before.Blind())
    ensures Settled(before, after, owner, target, desired, Applied, reached, blind)
  {
    OneRunSpares(before, after, owner, target, desired, true);
    hide Calm, Reconciled, Spared;
  }

  lemma NotReappliedIsSettled(before: State, after: State, owner: Firewall.Owner, target: Option<seq<Firewall.Rule>>,
                              desired: seq<Firewall.Rule>, reached: bool, blind: bool)
    requires AtMostOnce(before, after, owner, desired)
    ensures Settled(before, after, owner, target, desired, NotReapplied, reached, blind)
  {
    if after != before {
      var done :| Reconciled(before, after, owner, desired, done);
      OneRunSpares(before, after, owner, target, desired, done);
    }
    hide Calm, Reconciled;
  }

  lemma ReapplyIsSettled(before: State, after: State, owner: Firewall.Owner, target: Option<seq<Firewall.Rule>>,
                         desired: seq<Firewall.Rule>, outcome: Outcome, reached: bool, blind: bool)
    requires outcome.Applied? ==> Reconciled(before, after, owner, desired, true) && (!blind ==> !before.Blind())
    requires outcome.NotReapplied? ==> AtMostOnce(before, after, owner, desired)
    requires outcome.Applied? || outcome.NotReapplied?
    ensures Settled(before, after, owner, target, desired, outcome, reached, blind)
  {
    hide Settled, Reconciled;
    if outcome.Applied? {
      AppliedIsSettled(before, after, owner, target, desired, reached, blind);
    } else {
      NotReappliedIsSettled(before, after, owner, target, desired, reached, blind);
    }
  }

  lemma OneRunSpares(before: State, after: State, owner: Firewall.Owner, target: Option<seq<Firewall.Rule>>, desired: seq<Firewall.Rule>,
                     done: bool)
    requires Reconciled(before, after, owner, desired, done)
    ensures Calm(before, owner, target, desired) ==> Spared(before, after, owner)
  {
    hide State.Right, State.Rules, State.Entries, State.Inert, State.AfterRun, State.AfterCall, State.Of, State.Parted, Spared,
      Succeeds, Ends, Moves, Valid;
  }

  lemma RefusedIsSettled(state: State, owner: Firewall.Owner, target: Option<seq<Firewall.Rule>>, desired: seq<Firewall.Rule>)
    ensures forall reached, blind :: Settled(state, state, owner, target, desired, Refused, reached, blind)
  {
  }

  /** For Realm the proxy's firewall entries are what they were, and for Xray the realm's. */
  ghost predicate Undisturbed(kind: Kind, before: State, after: State) {
    && (kind == Realm ==> after.Of(Firewall.Proxy) == before.Of(Firewall.Proxy))
    && (kind == Xray ==> after.Of(Firewall.Realm) == before.Of(Firewall.Realm))
  }

  lemma SparedIsUndisturbed(host: Host, before: State, after: State)
    requires Spared(before, after, host.Owner())
    ensures Undisturbed(host.kind, before, after)
  {
  }

  lemma NothingIsUndisturbed(kind: Kind, state: State)
    ensures Undisturbed(kind, state, state)
  {
  }

  lemma SettledIsUndisturbed(host: Host, before: State, after: State, target: Option<seq<Firewall.Rule>>, desired: seq<Firewall.Rule>,
                             outcome: Outcome, reached: bool, blind: bool)
    requires Settled(before, after, host.Owner(), target, desired, outcome, reached, blind)
    ensures Calm(before, host.Owner(), target, desired) ==> Undisturbed(host.kind, before, after)
  {
    hide Calm, Undisturbed, Spared, Host.Owner;
    if Calm(before, host.Owner(), target, desired) {
      SparedIsUndisturbed(host, before, after);
    }
  }

  /** An apply brought to its end made exactly its steps, and in their order. */
  twostate predicate StepByStep(host: Host, candidate: string, outcome: Outcome, news: seq<Step>)
    reads host
  {
    Traced(old(host.tried), host.tried,
           Managing(old(host.marker) && old(host.binary), host.plan(old(host.steps)).Works?) + [ConfigDir, Candidate, Validate, Unit, EnableUnit],
           Way(host.kind, old(host.config) == Some(candidate), host.found.Up?, old(host.config).Some?, old(host.Target()).Some?), outcome, news, [Tidy])
  }

  /** The runtime is installed, and accepts the candidate. */
  predicate Ready(host: Host, candidate: Option<string>)
    reads host
  {
    candidate.Some? && host.accepts(candidate.value) && !host.crashed && host.marker && host.binary
  }

  /** `enable`; `candidate` is None when the config cannot be rendered. What failed decides how it ends. An
      apply takes effect entirely, or is refused before the config is touched, or, when restart, health or
      firewall fails and then nothing but a health check, leaves the config and the rules as they were. What
      is left out of that is a failure between the two halves of replacing the config. */
  method Enable(host: Host, candidate: Option<string>, desired: seq<Firewall.Rule>) returns (outcome: Outcome, ghost news: seq<Step>)
    modifies host, Objects(host.backend)
    ensures old(host.Honest()) ==> host.Honest()
    ensures host.failed == old(host.failed) + news && host.blind >= old(host.blind)
    ensures (old(host.Owned()) ==> host.Owned()) && (old(host.crashed) ==> host.crashed) && (!outcome.Refused? ==> host.marker && host.binary)
    ensures candidate.None? || old(host.Stranded()) ==> outcome.Refused? && Kept(host) && host.steps == old(host.steps)
    ensures candidate.Some? && !old(host.Stranded()) && !host.crashed ==> Judged(outcome, news, old(host.config) != candidate)
    ensures if candidate.Some? then Served(outcome, old(host.Serving()), host.Serving(), candidate.value) else outcome.Refused?
    ensures outcome.Applied? || host.config != old(host.config) ==> candidate.Some? && host.accepts(candidate.value)
    ensures Settled(old(host.State()), host.State(), host.Owner(), old(host.Target()), desired, outcome,
                    Reached(news), host.blind != old(host.blind))
    ensures candidate.Some? && !old(host.crashed) && !old(host.marker) && old(host.Untouched()) && CutShort(host.plan, old(host.steps)) ==>
              host.Stranded() && host.crashed
    ensures host.asked == old(host.asked) + [EnableWith(candidate, desired)]
    ensures Calm(old(host.State()), host.Owner(), old(host.Target()), desired) ==> Undisturbed(host.kind, old(host.State()), host.State())
    ensures old(Ready(host, candidate)) && old(host.config) != candidate && StopsInReplace(host.plan, old(host.steps), 5, old(host.config)) ==>
              outcome.InstallFailed? && host.crashed && host.steps == old(host.steps) + 9 + Saves(old(host.config))
    ensures old(Ready(host, candidate)) && old(host.config) == candidate && ComesUp(host, old(host.steps), 5, desired) ==>
              outcome.Applied? && host.found.Up?
    ensures candidate.Some? ==> StepByStep(host, candidate.value, outcome, news)
  {
    hide Host.Honest, Host.FairAt, Host.Seen, Settled, Served, Judged, AtMostOnce, Undone, OnlyHealth, Early, Reached,
      Reconciled, Purged, Succeeds, Ends, Moves, Through, Later, CommandsWorked, Valid, State.Entries, State.KeyFor,
      State.Rules, State.Blind, State.Right, State.EndsWith, State.Deletable, State.Inert, StateOf,
      Elements, StopsInReplace, ComesUp, AllWork, CutShort, Saves, Host.Owner, Undisturbed, Calm, State.Of, State.Parted, Traced, Managing, Done;
    ghost var service, before, target := host.Serving(), host.State(), host.Target();
    RefusedIsSettled(host.State(), host.Owner(), host.Target(), desired);
    RefusedIsServed(service, candidate);
    if candidate.None? {
      outcome, news := Refused, [];
    } else {
      outcome, news := Apply(host, candidate.value, desired);
    }
    host.asked := host.asked + [EnableWith(candidate, desired)];
    SettledIsUndisturbed(host, before, host.State(), target, desired, outcome, Reached(news), host.blind != old(host.blind));
  }

  /** The apply of a rendered config. */
  method Apply(host: Host, candidate: string, desired: seq<Firewall.Rule>) returns (outcome: Outcome, ghost news: seq<Step>)
    modifies host`marker, host`binary, host`installTemp, host`configTemp, host`unit, host`config, host`previous, host`running, host`found
    modifies host`enabled, host`proven, host`tried, host`crashed, host`steps, host`failed, host`failedAt, host`blind, Objects(host.backend)
    ensures old(host.Honest()) ==> host.Honest()
    ensures host.failed == old(host.failed) + news && host.blind >= old(host.blind)
    ensures (old(host.Owned()) ==> host.Owned()) && (old(host.crashed) ==> host.crashed) && (!outcome.Refused? ==> host.marker && host.binary)
    ensures old(host.Stranded()) ==> outcome.Refused? && Kept(host) && host.steps == old(host.steps)
    ensures !old(host.Stranded()) && !host.crashed ==> Judged(outcome, news, old(host.config) != Some(candidate))
    ensures Served(outcome, old(host.Serving()), host.Serving(), candidate)
    ensures outcome.Applied? || host.config != old(host.config) ==> host.accepts(candidate)
    ensures Settled(old(host.State()), host.State(), host.Owner(), old(host.Target()), desired, outcome,
                    Reached(news), host.blind != old(host.blind))
    ensures !old(host.crashed) && !old(host.marker) && old(host.Untouched()) && CutShort(host.plan, old(host.steps)) ==>
              host.Stranded() && host.crashed
    ensures old(Ready(host, Some(candidate))) && old(host.config) != Some(candidate)
            && StopsInReplace(host.plan, old(host.steps), 5, old(host.config)) ==>
              outcome.InstallFailed? && host.crashed && host.steps == old(host.steps) + 9 + Saves(old(host.config))
    ensures old(Ready(host, Some(candidate))) && old(host.config) == Some(candidate) && ComesUp(host, old(host.steps), 5, desired) ==>
              outcome.Applied? && host.found.Up?
    ensures StepByStep(host, candidate, outcome, news)
  {
    hide Host.Honest, Host.FairAt, Host.Seen, Settled, Served, Judged, AtMostOnce, Undone, OnlyHealth, Early, Reached,
      Reconciled, Purged, Succeeds, Ends, Moves, Through, Later, CommandsWorked, Valid, State.Entries, State.KeyFor,
      State.Rules, State.Blind, State.Right, State.EndsWith, State.Deletable, State.Inert, StateOf,
      Elements, StopsInReplace, ComesUp, AllWork, CutShort, Saves, Host.Owner, Traced, Managing, Done, Host.Serving, Installing, Host.Target;
    RefusedIsTraced();
    RefusedIsSettled(host.State(), host.Owner(), host.Target(), desired);
    RefusedIsServed(host.Serving(), Some(candidate));
    StopsLater(host.plan, host.steps, 5, 2, host.config);
    ComesUpLater(host, host.steps, 5, 2, desired);
    var ok;
    ok, news := EnsureManaged(host);
    if !ok {
      RefusedIsJudged(news, host.config != Some(candidate));
      return Refused, news;
    }
    ghost var mid := host.tried;
    outcome, news := Configure(host, candidate, desired);
    TracedLater(old(host.tried), mid, host.tried, Managing(old(host.marker) && old(host.binary), host.plan(old(host.steps)).Works?),
                [ConfigDir, Candidate, Validate, Unit, EnableUnit],
                Way(host.kind, old(host.config) == Some(candidate), host.found.Up?, old(host.config).Some?, old(host.Target()).Some?), outcome, news);
  }

  lemma RefusedIsServed(service: Service, candidate: Option<string>)
    ensures candidate.Some? ==> Served(Refused, service, service, candidate.value)
  {
  }

  /** Where every step is fair, only the firewall can fail, or the config be refused. */
  lemma OnlyTheFirewall(host: Host, before: seq<Step>, news: seq<Step>)
    requires host.Honest() && host.failed == before + news && forall n: nat :: host.FairAt(n)
    ensures forall k :: 0 <= k < |news| ==> news[k].Reconcile? || news[k].Validate?
  {
    forall k | 0 <= k < |news|
      ensures news[k].Reconcile? || news[k].Validate?
    {
      assert host.failed[|before| + k] == news[k];
    }
  }

  lemma RefusedIsJudged(news: seq<Step>, differs: bool)
    ensures |news| == 1 && Early(news[0]) ==> Judged(Refused, news, differs)
  {
  }

  /** `disable`: a host without the marker is left alone; any other loses its config, and its rules if the
      firewall is right for that. It succeeds if and only if no step fails. */
  method Disable(host: Host) returns (ok: bool, ghost news: seq<Step>)
    modifies host`config, host`previous, host`running, host`enabled, host`tried, host`crashed, host`steps, host`failed
    modifies host`failedAt, host`blind, host`asked, Objects(host.backend)
    ensures host.asked == old(host.asked) + [DisableIt]
    ensures old(host.State()).Parted() ==> Undisturbed(host.kind, old(host.State()), host.State())
    ensures old(host.Honest()) ==> host.Honest()
    ensures host.failed == old(host.failed) + news && host.blind >= old(host.blind)
    ensures old(host.Owned()) ==> host.Owned()
    ensures !old(host.marker) ==> ok && news == [] && Kept(host)
    ensures old(host.marker) && !host.crashed ==> (ok <==> news == [])
    ensures ok && old(host.marker) ==> !host.crashed && host.config.None? && host.previous.None?
    ensures ok && old(host.marker) && host.unit ==> host.running.None? && !host.enabled
    ensures ok && old(host.marker) ==> Reconciled(old(host.State()), host.State(), host.Owner(), [], true)
    ensures ok && old(host.marker) && host.blind == old(host.blind) ==> Through(old(host.State()), host.State(), host.Owner(), {})
    ensures ok && old(host.marker) ==>
              host.tried == old(host.tried) + (if host.unit then [Stop, DisableUnit] else []) + [Remove, Remove, Step.Reconcile]
  {
    hide Host.Honest, Host.FairAt, Host.Seen, Settled, Judged, AtMostOnce, Undone, OnlyHealth, Early, Reached,
      Reconciled, Purged, Succeeds, Ends, Moves, Through, Later, CommandsWorked, Valid, State.Entries, State.KeyFor,
      State.Rules, State.Blind, State.Right, State.EndsWith, State.Deletable, State.Inert, StateOf,
      Elements, Host.Stranded, Host.Untouched, Host.Target, State.Parted, State.Of, Undisturbed;
    NothingIsUndisturbed(host.kind, host.State());
    host.asked := host.asked + [DisableIt];
    news := [];
    if !host.marker {
      return true, [];
    }
    ok, news := StopService(host);
    if !ok {
      return;
    }
    ok, news := RemoveConfigs(host);
    if !ok {
      return;
    }
    ghost var done;
    ghost var before := host.State();
    ok, done := host.Reconcile([]);
    NoneSpares(host, before, host.State(), done);
    news := if ok then [] else [Step.Reconcile];
    if ok {
      NoneLeft(before, host.State(), host.Owner());
    }
  }

  /** The config and the saved one. */
  method RemoveConfigs(host: Host) returns (ok: bool, ghost news: seq<Step>)
    modifies host`config, host`previous, host`tried, host`crashed, host`steps, host`failed, host`failedAt
    ensures old(host.Honest()) ==> host.Honest()
    ensures host.failed == old(host.failed) + news && (old(host.crashed) ==> host.crashed) && (!host.crashed ==> (ok <==> news == []))
    ensures ok ==> news == [] && !host.crashed && host.config.None? && host.previous.None?
    ensures host.config.None? || host.config == old(host.config)
    ensures host.previous.None? || host.previous == old(host.previous)
    ensures ok ==> host.tried == old(host.tried) + [Remove, Remove]
  {
    hide Host.Honest, Host.FairAt;
    ok := host.Try(Remove);
    if !ok {
      return false, if old(host.crashed) then [] else [Remove];
    }
    host.config := None;
    ok := host.Try(Remove);
    if !ok {
      return false, [Remove];
    }
    host.previous := None;
    news := [];
  }

  /** Nothing is added in a run for no rules, so on ufw it is right. */
  lemma NoneSpares(host: Host, before: State, after: State, done: bool)
    requires Reconciled(before, after, host.Owner(), [], done)
    ensures before.Parted() ==> Undisturbed(host.kind, before, after)
  {
    assert Elements<Firewall.Rule>([]) == {};
    NoneIsRight(before, host.Owner());
    hide State.Right, State.Parted, State.Of, Succeeds, Ends, Moves, Undisturbed, Host.Owner;
    if before.Parted() {
      SparedIsUndisturbed(host, before, after);
    }
  }

  lemma NoneIsRight(state: State, owner: Firewall.Owner)
    ensures state.Numbered? ==> state.Right(owner, {})
  {
  }

  lemma NoneLeft(before: State, after: State, owner: Firewall.Owner)
    requires Reconciled(before, after, owner, [], true)
    ensures !before.Blind() ==> Through(before, after, owner, {})
  {
    assert Elements<Firewall.Rule>([]) == {};
    hide Through, State.Right, State.Rules, State.Inert, State.Entries;
  }

  /** Stop and disable, when the unit is there. */
  method StopService(host: Host) returns (ok: bool, ghost news: seq<Step>)
    modifies host`running, host`enabled, host`tried, host`crashed, host`steps, host`failed, host`failedAt
    ensures old(host.Honest()) ==> host.Honest()
    ensures host.failed == old(host.failed) + news && (old(host.crashed) ==> host.crashed)
    ensures !host.crashed ==> (ok <==> news == [])
    ensures ok ==> news == [] && (host.crashed ==> old(host.crashed))
    ensures ok && host.unit ==> host.running.None?
    ensures ok && host.unit ==> !host.enabled
    ensures !host.unit ==> host.running == old(host.running)
    ensures ok ==> host.tried == old(host.tried) + (if host.unit then [Stop, DisableUnit] else [])
    ensures !ok ==> host.enabled == old(host.enabled)
  {
    hide Host.Honest, Host.FairAt;
    news := [];
    if !host.unit {
      return true, [];
    }
    ok := host.Halt();
    if !ok {
      return false, if old(host.crashed) then [] else [Stop];
    }
    ok := host.Try(DisableUnit);
    if ok {
      host.enabled := false;
    }
    news := if ok then [] else [DisableUnit];
  }

  /** `removeDirectoryContents` of the config directory, entry by entry in the order of their names; cut
      short it leaves the later ones. */
  method RemoveConfigDir(host: Host) returns (ok: bool, ghost news: seq<Step>)
    requires !host.crashed
    modifies host`config, host`previous, host`configTemp, host`tried, host`crashed, host`steps, host`failed, host`failedAt
    ensures old(host.Honest()) ==> host.Honest()
    ensures host.failed == old(host.failed) + news && (ok <==> news == [])
    ensures host.config.None? || host.config == old(host.config)
    ensures host.previous.None? || host.previous == old(host.previous)
    ensures host.configTemp ==> old(host.configTemp)
    ensures ok ==> !host.crashed && host.config.None? && host.previous.None? && !host.configTemp
    ensures ok ==> host.tried == old(host.tried) + [Remove, Remove, Remove]
    ensures host.configTemp ==> host.config == old(host.config) && host.previous == old(host.previous)
    ensures host.kind == Xray && host.config.Some? ==> host.previous == old(host.previous)
    ensures host.kind == Realm && host.previous.Some? ==> host.config == old(host.config)
  {
    hide Host.Honest, Host.FairAt;
    news := [Remove];
    ok := host.Try(Remove);
    if !ok {
      return;
    }
    host.configTemp := false;
    ok := host.Try(Remove);
    if !ok {
      return;
    }
    if host.kind == Xray {
      host.config := None;
    } else {
      host.previous := None;
    }
    ok := host.Try(Remove);
    if !ok {
      return;
    }
    host.config, host.previous := None, None;
    news := [];
  }

  /** The service file. */
  method RemoveUnit(host: Host) returns (ok: bool, ghost news: seq<Step>)
    requires !host.crashed
    modifies host`unit, host`tried, host`crashed, host`steps, host`failed, host`failedAt
    ensures old(host.Honest()) ==> host.Honest()
    ensures host.failed == old(host.failed) + news && (ok <==> news == [])
    ensures ok ==> !host.crashed && !host.unit
    ensures ok ==> host.tried == old(host.tried) + [Remove, Reload]
  {
    hide Host.Honest, Host.FairAt;
    ok := host.Try(Remove);
    if !ok {
      return false, [Remove];
    }
    host.unit := false;
    ok := host.Try(Reload);
    news := if ok then [] else [Reload];
  }

  /** The install directory, and last of all the marker. */
  method RemoveInstallDir(host: Host) returns (ok: bool, ghost news: seq<Step>)
    requires host.marker && !host.crashed
    modifies host`marker, host`installTemp, host`binary, host`tried, host`crashed, host`steps, host`failed, host`failedAt
    ensures old(host.Honest()) ==> host.Honest()
    ensures host.failed == old(host.failed) + news && (ok <==> news == [])
    ensures if ok then !host.crashed && !host.marker && !host.binary && !host.installTemp else host.marker
    ensures ok ==> host.tried == old(host.tried) + [Remove, Remove, Remove]
    ensures host.installTemp ==> host.binary == old(host.binary)
  {
    hide Host.Honest, Host.FairAt;
    news := [Remove];
    ok := host.Try(Remove);
    if !ok {
      return;
    }
    host.installTemp := false;
    ok := host.Try(Remove);
    if !ok {
      return;
    }
    host.binary := false;
    ok := host.Try(Remove);
    if !ok {
      return;
    }
    host.marker := false;
    news := [];
  }

  /** The service file, the config, the runtime, the marker. */
  method RemoveRuntime(host: Host, unitExists: bool) returns (ok: bool, ghost news: seq<Step>)
    requires host.marker && !host.crashed && unitExists == host.unit
    modifies host`marker, host`unit, host`config, host`previous, host`configTemp, host`installTemp, host`binary
    modifies host`tried, host`crashed, host`steps, host`failed, host`failedAt
    ensures old(host.Honest()) ==> host.Honest()
    ensures host.failed == old(host.failed) + news && (ok <==> news == [])
    ensures if ok then !host.crashed && !host.marker && host.Untouched() else host.marker
    ensures ok ==> host.tried == old(host.tried) + (if unitExists then [Remove, Reload] else []) + [Remove, Remove, Remove, Remove, Remove, Remove]
  {
    hide Host.Honest, Host.FairAt;
    if unitExists {
      ok, news := RemoveUnit(host);
      if !ok {
        return;
      }
    }
    ok, news := RemoveConfigDir(host);
    if !ok {
      return;
    }
    ok, news := RemoveInstallDir(host);
  }

  /** `purge`: the marker goes last, so a purge cut short anywhere is still recognised as ours and can
      be run again; success leaves nothing of the runtime, and no rules if the firewall is right for that.
      Without the marker only the firewall is cleared. */
  method Purge(host: Host) returns (ok: bool, ghost news: seq<Step>)
    modifies host, Objects(host.backend)
    ensures old(host.Honest()) ==> host.Honest()
    ensures host.failed == old(host.failed) + news && host.blind >= old(host.blind)
    ensures old(host.Owned()) ==> host.Owned()
    ensures !old(host.marker) ==> NothingOfOurs(host)
    ensures !host.crashed ==> (ok <==> news == [])
    ensures ok ==> !host.crashed
    ensures ok && old(host.marker) && old(host.unit) ==> host.running.None? && !host.enabled
    ensures host.marker == (old(host.marker) && !ok) && (ok && old(host.marker) ==> host.Untouched())
    ensures ok && host.blind == old(host.blind) ==> Through(old(host.State()), host.State(), host.Owner(), {})
    ensures host.asked == old(host.asked) + [PurgeIt]
    ensures old(host.State()).Parted() ==> Undisturbed(host.kind, old(host.State()), host.State())
    ensures ok && !old(host.marker) ==> host.tried == old(host.tried) + [Step.Reconcile]
    ensures ok && old(host.marker) ==>
              host.tried == old(host.tried) + (if old(host.unit) then [Stop, DisableUnit] else []) + [Step.Reconcile]
                            + (if old(host.unit) then [Remove, Reload] else []) + [Remove, Remove, Remove, Remove, Remove, Remove]
  {
    hide Host.Honest, Host.FairAt, Through, State.Right, State.Rules, State.Parted, State.Of, Undisturbed;
    NothingIsUndisturbed(host.kind, host.State());
    host.asked := host.asked + [PurgeIt];
    news := [];
    if host.crashed {
      return false, [];
    }
    var managed, unitExists := host.marker, host.unit;
    ok, news := StopAndClear(host, managed);
    if !ok {
      return;
    }
    if managed {
      ok, news := RemoveRuntime(host, unitExists);
    }
  }

  /** The service and the firewall. */
  method StopAndClear(host: Host, managed: bool) returns (ok: bool, ghost news: seq<Step>)
    requires !host.crashed
    modifies host`running, host`enabled, host`tried, host`crashed, host`steps, host`failed, host`failedAt, host`blind, Objects(host.backend)
    ensures old(host.Honest()) ==> host.Honest()
    ensures host.failed == old(host.failed) + news && host.blind >= old(host.blind)
    ensures (!host.crashed ==> (ok <==> news == [])) && (ok ==> !host.crashed && news == [])
    ensures ok && managed && host.unit ==> host.running.None? && !host.enabled
    ensures ok && host.blind == old(host.blind) ==> Through(old(host.State()), host.State(), host.Owner(), {})
    ensures old(host.State()).Parted() ==> Undisturbed(host.kind, old(host.State()), host.State())
    ensures ok ==> host.tried == old(host.tried) + (if managed && host.unit then [Stop, DisableUnit] else []) + [Step.Reconcile]
  {
    hide Host.Honest, Host.FairAt, Purged, State.Right, State.Rules, State.Parted, State.Of, Undisturbed;
    NothingIsUndisturbed(host.kind, host.State());
    ghost var before, owner := host.State(), host.Owner();
    ghost var done;
    news := [];
    if managed {
      ok, news := StopService(host);
      if !ok {
        return;
      }
    }
    ok, done := host.PurgeFirewall();
    PurgedSpares(host, before, host.State(), done);
    if !ok {
      news := [Step.Reconcile];
      return;
    }
    NonePurged(before, host.State(), owner);
  }

  lemma PurgedSpares(host: Host, before: State, after: State, done: bool)
    requires Purged(before, after, host.Owner(), done)
    ensures before.Parted() ==> Undisturbed(host.kind, before, after)
  {
    hide State.Right, State.Parted, State.Of, Undisturbed, Host.Owner;
    if before.Parted() {
      SparedIsUndisturbed(host, before, after);
    }
  }

  lemma NonePurged(before: State, after: State, owner: Firewall.Owner)
    requires Purged(before, after, owner, true)
    ensures !before.Blind() ==> Through(before, after, owner, {})
  {
    hide Through, State.Right, State.Rules;
  }

  /** The runtime's files are as they were. */
  twostate predicate NothingOfOurs(host: Host)
    reads host
  {
    && host.marker == old(host.marker) && host.binary == old(host.binary) && host.unit == old(host.unit)
    && host.config == old(host.config) && host.previous == old(host.previous)
    && host.installTemp == old(host.installTemp) && host.configTemp == old(host.configTemp)
  }

  /** What the panel asks of the runtime. */
  datatype Request = EnableWith(candidate: Option<string>, desired: seq<Firewall.Rule>) | DisableIt | PurgeIt

  /** One request, to an Agent that was started again if it had stopped. */
  method Serve(host: Host, request: Request) returns (applied: bool)
    modifies host, Objects(host.backend)
    ensures (old(host.Owned()) ==> host.Owned()) && (old(host.Honest()) ==> host.Honest())
    ensures host.asked == old(host.asked) + [request]
    ensures !host.backend.OverUfw? ==> Undisturbed(host.kind, old(host.State()), host.State())
    ensures old(host.Stranded()) ==> host.Stranded() && !applied && NothingOfOurs(host)
    ensures applied ==> request.EnableWith? && request.candidate.Some? && host.config == request.candidate && host.accepts(request.candidate.value)
    ensures request.EnableWith? && request.candidate.Some? && !old(host.Stranded()) && !host.crashed && host.failed == old(host.failed) ==> applied
  {
    hide Host.Honest, Host.FairAt, Settled, StepByStep, Through, Undisturbed, State.Of;
    host.crashed := false;
    applied := false;
    match request {
      case EnableWith(candidate, desired) =>
        var outcome, _ := Enable(host, candidate, desired);
        applied := outcome.Applied?;
      case DisableIt =>
        var _, _ := Disable(host);
      case PurgeIt =>
        var _, _ := Purge(host);
    }
  }

  /** Whole lives of one host, restarts after crashes included: nothing of the runtime is ever there
      without the marker, and a stranded host stays as it is and refuses every config. On iptables the other
      of proxy and realm keeps its entries through all of it. */
  method Lives(host: Host, requests: seq<Request>) returns (applied: seq<bool>)
    modifies host, Objects(host.backend)
    ensures |applied| == |requests| && host.asked == old(host.asked) + requests
    ensures !host.backend.OverUfw? ==> Undisturbed(host.kind, old(host.State()), host.State())
    ensures (old(host.binary || host.unit || host.config.Some? || host.previous.Some? || host.configTemp) ==> old(host.marker)) ==>
              (host.binary || host.unit || host.config.Some? || host.previous.Some? || host.configTemp ==> host.marker)
    ensures old(host.Stranded()) ==> host.Stranded() && NothingOfOurs(host) && forall i :: 0 <= i < |applied| ==> !applied[i]
  {
    hide Host.Honest, Host.FairAt;
    applied := [];
    for i := 0 to |requests|
      invariant |applied| == i && (old(host.Owned()) ==> host.Owned())
      invariant host.asked == old(host.asked) + requests[..i]
      invariant !host.backend.OverUfw? ==> Undisturbed(host.kind, old(host.State()), host.State())
      invariant old(host.Stranded()) ==> host.Stranded() && NothingOfOurs(host) && forall k :: 0 <= k < i ==> !applied[k]
    {
      var one := Serve(host, requests[i]);
      applied := applied + [one];
    }
  }

  /** A first install cut short in its download, and whatever is asked afterwards: nothing is ever applied. */
  method CutShortInDownload(host: Host, candidate: string, desired: seq<Firewall.Rule>, requests: seq<Request>) returns (applied: seq<bool>)
    requires !host.crashed && !host.marker && host.Untouched() && host.plan(host.steps).Works? && host.plan(host.steps + 1).Stops?
    modifies host, Objects(host.backend)
    ensures host.asked == old(host.asked) + [EnableWith(Some(candidate), desired)] + requests
    ensures host.Stranded() && |applied| == |requests| && forall i :: 0 <= i < |applied| ==> !applied[i]
  {
    hide Host.Honest, Host.FairAt, Settled, Judged;
    var _, _ := Enable(host, Some(candidate), desired);
    applied := Lives(host, requests);
  }

  lemma StopsAndComesUp(host: Host, step: nat, config: Option<string>, desired: seq<Firewall.Rule>)
    requires var s := step + Saves(config);
             && (forall k: nat :: step <= k < s + 19 && k != s + 8 ==> host.plan(k).Works?) && host.plan(s + 8).Stops?
             && host.sees(s + 17, 0).look.Up?
    requires host.backend.NoFirewall? && Valid(desired)
    ensures StopsInReplace(host.plan, step, 5, config) && ComesUp(host, step + 9 + Saves(config), 5, desired)
  {
  }

  /** An apply whose process stops between the replacement of the config and the restart, and the next apply
      of the same config: the service is found up, with the config it was started with before, and the apply
      is a success without a restart. */
  method NeverRestarted(host: Host, candidate: string, desired: seq<Firewall.Rule>) returns (outcome: Outcome)
    requires Ready(host, Some(candidate)) && host.config != Some(candidate) && host.running != Some(candidate)
    requires var s := host.steps + (if host.config.Some? then 2 else 0);
             && (forall k: nat :: host.steps <= k < s + 19 && k != s + 8 ==> host.plan(k).Works?) && host.plan(s + 8).Stops?
             && host.sees(s + 17, 0).look.Up?
    requires host.backend.NoFirewall? && Valid(desired)
    modifies host, Objects(host.backend)
    ensures host.asked == old(host.asked) + [EnableWith(Some(candidate), desired), EnableWith(Some(candidate), desired)]
    ensures outcome.Applied? && host.config == Some(candidate) && host.running == old(host.running) != host.config
  {
    hide Host.Honest, Host.FairAt, Settled, Judged, Reconciled, AtMostOnce, Valid, FoundUp, FreeRun, StopsInReplace, ComesUp,
      StepByStep, Calm, Undisturbed, State.Of, State.Parted, Reached, Kept, StateOf, Host.Owner;
    StopsAndComesUp(host, host.steps, host.config, desired);
    ghost var news;
    outcome, news := Enable(host, Some(candidate), desired);
    host.crashed := false;
    outcome, news := Enable(host, Some(candidate), desired);
  }

  // What the apply comes to ---------------------------------------------------------------------------

  /** After a success the rules are the wanted ones if and only if the firewall was right for them. */
  lemma AppliedMeans(before: State, after: State, owner: Firewall.Owner, desired: seq<Firewall.Rule>, blind: bool)
    requires Reconciled(before, after, owner, desired, true) && (!blind ==> !before.Blind())
    ensures !blind ==> Through(before, after, owner, Elements(desired))
  {
    hide State.Rules, State.Right, State.Entries, State.Inert;
  }

  /** Restart, health or firewall failed, and after that nothing but a health check. */
  predicate OneLateFailure(news: seq<Step>) {
    news != [] && (news[0].Restart? || news[0].Health? || news[0].Reconcile?) && OnlyHealth(news[1..])
  }

  /** Such an apply of a new config is rolled back cleanly, to the old config and its rules. */
  lemma LateFailureIsUndone(before: State, after: State, owner: Firewall.Owner, target: seq<Firewall.Rule>, desired: seq<Firewall.Rule>,
                            outcome: Outcome, news: seq<Step>, blind: bool)
    requires OneLateFailure(news) && Judged(outcome, news, true)
    requires Settled(before, after, owner, Some(target), desired, outcome, Reached(news), blind)
    requires before.Rules(owner) == Elements(target)
    ensures outcome == RolledBack(true)
    ensures !news[0].Reconcile? ==> after.Entries() == before.Entries()
    ensures !news[0].Reconcile? || ((before.Numbered? ==> !before.ipv6) && !blind) ==> after.Rules(owner) == Elements(target)
  {
    hide State.Rules, State.Entries, Reconciled;
  }

  /** Xray with no config to go back to: the second of two commands fails on an empty chain, and after the
      clean rollback the rule of the first one is still there. */
  lemma FirstRuleStays(after: State, works: nat -> bool, blind: bool)
    requires works == ((n: nat) => n != 2)
    requires Settled(Chained([], true, works, 0), after, Firewall.Proxy, None, [Firewall.Rule(80, "tcp"), Firewall.Rule(443, "tcp")],
                     RolledBack(true), true, blind)
    ensures after.Entries() != []
  {
    var desired := [Firewall.Rule(80, "tcp"), Firewall.Rule(443, "tcp")];
    var before := Chained([], true, works, 0);
    assert desired[0] in Elements(desired);
    assert desired[0] in IpTables.JobOf(Firewall.Proxy, Elements(desired), []).Missing();
    assert !before.Inert(Firewall.Proxy, Elements(desired));
    assert Valid(desired);
  }
}
