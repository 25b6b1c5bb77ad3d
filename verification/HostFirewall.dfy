/**
 The firewall of a host as `proxyFirewall` of panel/cmd/agent/firewall.go finds it: ufw, iptables, or
 none at all. One call of `reconcileRules` or `purge` on it is a run of that back end's reconciler.
 */
module HostFirewall {
  import opened Sorting
  import opened Firewall
  import opened Listing
  import Ufw
  import IpTables

  datatype Backend = OverUfw(table: Ufw.Table) | OverIptables(chain: IpTables.Chain) | NoFirewall

  function Objects(b: Backend): (objects: set<object>) {
    match b
    case OverUfw(table) => {table}
    case OverIptables(chain) => {chain}
    case NoFirewall => {}
  }

  /** What a back end holds at one moment, and which of the commands to come work. */
  datatype State =
    | Numbered(v4: seq<Entry>, v6: seq<Entry>, ipv6: bool, works: nat -> bool, calls: nat)
    | Chained(chained: seq<Entry>, drop: bool, works: nat -> bool, calls: nat)
    | Bare
  {
    function Entries(): (entries: seq<Entry>) {
      match this
      case Numbered(_, _, _, _, _) => v4 + v6
      case Chained(_, _, _, _) => chained
      case Bare => []
    }

    function KeyFor(owner: Owner): (key: KeyOf) {
      if Numbered? then Ufw.UfwKey(owner) else IpTables.IptKey(owner)
    }

    /** The rules the owner manages now. */
    function Rules(owner: Owner): (rules: set<Rule>) {
      Managed(KeyFor(owner), Entries())
    }

    /** The entries that count for the owner. */
    function Of(owner: Owner): (entries: seq<Entry>) {
      Filter(Entries(), Mine(KeyFor(owner)))
    }

    /** No listed ufw comment mentions both proxy and realm; on iptables none can. */
    ghost predicate Parted() {
      Numbered? ==> Apart(Ufw.UfwKey(Proxy), Ufw.UfwKey(Realm), Entries())
    }

    /** The next listing of the chain fails, and that is taken for an inactive firewall. */
    predicate Blind() {
      Chained? && !works(calls)
    }

    /** Whether a successful run for these rules ends with exactly these rules. */
    ghost predicate Right(owner: Owner, desired: set<Rule>) {
      match this
      case Numbered(_, _, _, _, _) => Ufw.Run(Ufw.HandOf(owner), desired, v4, v6, ipv6).Steady()
      case Chained(_, _, _, _) =>
        if chained != [] || drop then IpTables.JobOf(owner, desired, chained).Doubled() == {} else desired == {}
      case Bare => desired == {}
    }

    /** What a successful run for these rules ends with; on ufw that is said of the runs that are right. */
    function EndsWith(owner: Owner, desired: set<Rule>): (rules: set<Rule>) {
      match this
      case Numbered(_, _, _, _, _) => desired
      case Chained(_, _, _, _) =>
        if chained != [] || drop then desired + IpTables.JobOf(owner, desired, chained).Doubled() else {}
      case Bare => {}
    }

    /** What a run for these rules leaves, whichever of the commands work. */
    ghost function AfterRun(owner: Owner, desired: set<Rule>): (after: State) {
      match this
      case Numbered(_, _, _, _, _) =>
        var left := Ufw.Played(Ufw.Run(Ufw.HandOf(owner), desired, v4, v6, ipv6), works, calls);
        Numbered(left.blocks.0, left.blocks.1, ipv6, works, left.calls)
      case Chained(_, _, _, _) =>
        if !works(calls) || (chained == [] && !drop) then Chained(chained, drop, works, calls + 1)
        else
          var left := IpTables.Played(IpTables.JobOf(owner, desired, chained), works, calls + 1);
          Chained(left.entries, drop, works, left.calls)
      case Bare => Bare
    }

    /** What one call leaves: rules that are not valid are refused before any command. */
    ghost function AfterCall(owner: Owner, rules: seq<Rule>): (after: State) {
      if Valid(rules) then AfterRun(owner, Elements(rules)) else this
    }

    /** Nothing in the listing is in the way of success. */
    predicate Deletable(owner: Owner, desired: set<Rule>) {
      Chained? ==> (chained == [] && !drop) || IpTables.JobOf(owner, desired, chained).Deletable()
    }

    /** The first command that would change an entry is not given, or fails. */
    ghost predicate Inert(owner: Owner, desired: set<Rule>) {
      match this
      case Numbered(_, _, _, _, _) =>
        !Ufw.Busy(Ufw.Run(Ufw.HandOf(owner), desired, v4, v6, ipv6)) || !works(calls) || !works(calls + 1)
      case Chained(_, _, _, _) =>
        var job := IpTables.JobOf(owner, desired, chained);
        || !works(calls) || (chained == [] && !drop)
        || (job.Missing() == {} && job.Stale() == {}) || job.FailsAtFirst(works, calls + 1)
      case Bare => true
    }
  }

  function StateOf(b: Backend): (state: State)
    reads Objects(b)
  {
    match b
    case OverUfw(table) => Numbered(table.v4, table.v6, table.ipv6, table.works, table.calls)
    case OverIptables(chain) => Chained(chain.entries, chain.drop, chain.works, chain.calls)
    case NoFirewall => Bare
  }

  predicate Valid(rules: seq<Rule>) {
    forall r :: r in rules ==> ValidRule(r)
  }

  predicate Has(owner: Owner) {
    owner == Proxy || owner == Realm
  }

  function Other(owner: Owner): (other: Owner) {
    if owner == Proxy then Realm else Proxy
  }

  /** The same back end, later. */
  ghost predicate Later(before: State, after: State) {
    match before
    case Numbered(_, _, _, _, _) =>
      after.Numbered? && after.ipv6 == before.ipv6 && after.works == before.works && before.calls <= after.calls
    case Chained(_, _, _, _) =>
      after.Chained? && after.drop == before.drop && after.works == before.works && before.calls <= after.calls
    case Bare => after.Bare?
  }

  /** The commands in between all worked. */
  ghost predicate CommandsWorked(before: State, after: State)
    requires Later(before, after)
  {
    before.Bare? || forall i :: before.calls <= i < after.calls ==> before.works(i)
  }

  /** When the run of a valid set of rules succeeds, and that a blind one is no run at all. */
  ghost predicate Succeeds(before: State, after: State, owner: Owner, desired: set<Rule>, ok: bool)
    requires Later(before, after)
  {
    && (before.Blind() ==> ok && after.Entries() == before.Entries())
    && (!before.Blind() ==> (ok <==> CommandsWorked(before, after) && before.Deletable(owner, desired)))
  }

  /** After a success: the wanted rules, if and only if the firewall was right for them, and which they are
      where it was not. */
  ghost predicate Through(before: State, after: State, owner: Owner, desired: set<Rule>) {
    && (after.Rules(owner) == desired <==> before.Right(owner, desired))
    && ((before.Numbered? ==> before.Right(owner, desired)) ==> after.Rules(owner) == before.EndsWith(owner, desired))
  }

  /** What is managed after a success; and after a failure the firewall is right for the rules there were. */
  ghost predicate Ends(before: State, after: State, owner: Owner, desired: set<Rule>, ok: bool) {
    && (ok && !before.Blind() ==> Through(before, after, owner, desired))
    && (!ok && (before.Numbered? ==> !before.ipv6) ==> after.Right(owner, before.Rules(owner)))
  }

  /** A run for the rules there are changes nothing, and any other leaves the entries alone exactly when
      it is inert; for ufw that is said of the runs that are right. */
  ghost predicate Moves(before: State, after: State, owner: Owner, desired: set<Rule>) {
    && (desired == before.Rules(owner) ==> after.Entries() == before.Entries())
    && ((before.Numbered? ==> before.Right(owner, desired)) ==> (after.Entries() == before.Entries() <==> before.Inert(owner, desired)))
  }

  /** The entries of the other of proxy and realm are what they were, all of them and in order. */
  ghost predicate Spared(before: State, after: State, owner: Owner) {
    after.Of(Other(owner)) == before.Of(Other(owner)) && (before.Parted() ==> after.Parted())
  }

  /** A run spares the other owner's entries, on ufw when it is right and no entry counts for both. */
  ghost predicate Spares(before: State, after: State, owner: Owner, desired: set<Rule>) {
    (before.Numbered? ==> before.Parted() && before.Right(owner, desired)) ==> Spared(before, after, owner)
  }

  /** One call of `reconcileRules`: where it ends, and what that means. */
  ghost predicate Reconciled(before: State, after: State, owner: Owner, rules: seq<Rule>, ok: bool) {
    && Later(before, after) && after == before.AfterCall(owner, rules)
    && (!Valid(rules) ==> !ok)
    && (Valid(rules) ==> Succeeds(before, after, owner, Elements(rules), ok) && Moves(before, after, owner, Elements(rules)))
    && Ends(before, after, owner, Elements(rules), ok)
    && Spares(before, after, owner, Elements(rules))
  }

  // ufw -----------------------------------------------------------------------------------------------

  lemma UfwEnds(before: State, after: State, owner: Owner, desired: set<Rule>, ok: bool)
    requires before.Numbered? && Later(before, after)
    requires Ufw.Leaves(after.v4, after.v6, Ufw.Run(Ufw.HandOf(owner), desired, before.v4, before.v6, before.ipv6))
    requires ok ==> (Managed(Ufw.UfwKey(owner), after.v4 + after.v6) == desired <==> before.Right(owner, desired))
    ensures Ends(before, after, owner, desired, ok)
  {
    var run := Ufw.Run(Ufw.HandOf(owner), desired, before.v4, before.v6, before.ipv6);
    hide Ufw.Leaves, Ufw.UfwKey, Ufw.Commented, Ufw.CommentedV6, Ufw.Run.Steady, Managed;
    if before.Numbered? ==> !before.ipv6 {
      Ufw.BackIsSteady(after.v4, after.v6, run);
    }
  }

  lemma UfwSpares(before: State, after: State, owner: Owner, desired: set<Rule>)
    requires Has(owner) && before.Numbered? && after.Numbered?
    requires before.Right(owner, desired) && Apart(Ufw.UfwKey(owner), Ufw.UfwKey(Other(owner)), before.Entries()) ==>
               && Apart(Ufw.UfwKey(owner), Ufw.UfwKey(Other(owner)), after.Entries())
               && Filter(after.Entries(), Mine(Ufw.UfwKey(Other(owner)))) == Filter(before.Entries(), Mine(Ufw.UfwKey(Other(owner))))
    ensures Spares(before, after, owner, desired)
  {
    hide Ufw.UfwKey, Filter, State.Right, State.Entries;
  }

  lemma UfwMoves(before: State, after: State, owner: Owner, desired: set<Rule>)
    requires before.Numbered? && Later(before, after)
    requires before.Right(owner, desired) ==> (after.Entries() == before.Entries() <==> before.Inert(owner, desired))
    ensures Moves(before, after, owner, desired)
  {
    hide Ufw.UfwKey, Ufw.Commented, Ufw.CommentedV6, Ufw.Busy, Ufw.Run.Steady, Managed;
    if desired == before.Rules(owner) {
      Ufw.SameIsIdle(Ufw.Run(Ufw.HandOf(owner), desired, before.v4, before.v6, before.ipv6));
    }
  }

  method OnUfw(b: Backend, owner: Owner, rules: seq<Rule>) returns (ok: bool)
    requires Has(owner) && b.OverUfw?
    modifies Objects(b)
    ensures Reconciled(old(StateOf(b)), StateOf(b), owner, rules, ok)
  {
    ghost var before := StateOf(b);
    hide Ufw.Played, Ufw.UfwKey, Ufw.HandOf, Ufw.Leaves, Ufw.Busy, Ufw.Run.Steady, Managed, Elements, Safe, Apart, Moves, Ends, Spares;
    ok := Ufw.ReconcileRules(b.table, owner, rules, Other(owner));
    ghost var after := StateOf(b);
    UfwSpares(before, after, owner, Elements(rules));
    UfwEnds(before, after, owner, Elements(rules), ok);
    if Valid(rules) {
      UfwMoves(before, after, owner, Elements(rules));
    }
  }

  // iptables ------------------------------------------------------------------------------------------

  lemma ChainEnds(before: State, after: State, owner: Owner, desired: set<Rule>, ok: bool)
    requires before.Chained? && Later(before, after) && IpTables.Leaves(IpTables.JobOf(owner, desired, before.chained), after.chained)
    requires ok && !before.Blind() ==>
               if before.chained != [] || before.drop
               then after.Rules(owner) == desired + IpTables.JobOf(owner, desired, before.chained).Doubled()
               else after.chained == before.chained
    requires !ok ==> after.chained == before.chained || after.chained != []
    ensures Ends(before, after, owner, desired, ok)
  {
    var job := IpTables.JobOf(owner, desired, before.chained);
    DoubledIsExtra(job);
    NoneInNone(IpTables.IptKey(owner));
    IpTables.BackAgain(job, after.chained);
  }

  lemma ChainSpares(before: State, after: State, owner: Owner, desired: set<Rule>)
    requires before.Chained? && after.Chained?
    requires Filter(after.chained, Mine(IpTables.IptKey(Other(owner)))) == Filter(before.chained, Mine(IpTables.IptKey(Other(owner))))
    ensures Spares(before, after, owner, desired)
  {
    hide IpTables.IptKey, Filter;
  }

  lemma NoneInNone(key: KeyOf)
    ensures Managed(key, []) == {}
  {
  }

  lemma DoubledIsExtra(job: IpTables.Job)
    ensures job.desired + job.Doubled() == job.desired <==> job.Doubled() == {}
  {
    assert job.Doubled() !! job.desired;
  }

  lemma ChainMoves(before: State, after: State, owner: Owner, desired: set<Rule>)
    requires before.Chained? && Later(before, after)
    requires after.chained == before.chained <==> before.Inert(owner, desired)
    ensures Moves(before, after, owner, desired)
  {
  }

  method OnIptables(b: Backend, owner: Owner, rules: seq<Rule>) returns (ok: bool)
    requires Has(owner) && b.OverIptables?
    modifies Objects(b)
    ensures Reconciled(old(StateOf(b)), StateOf(b), owner, rules, ok)
  {
    ghost var before := StateOf(b);
    hide IpTables.IptKey, Ufw.Commented, IpTables.Leaves, IpTables.Partly, IpTables.Job.FailsAtFirst, IpTables.Job.Deletable,
      IpTables.Job.Doubled, IpTables.Job.Missing, IpTables.Job.Stale, IpTables.Played, Managed, Elements, Safe, Moves, Ends, Spares;
    ok := IpTables.ReconcileRules(b.chain, owner, rules, Other(owner));
    ghost var after := StateOf(b);
    ChainSpares(before, after, owner, Elements(rules));
    ChainEnds(before, after, owner, Elements(rules), ok);
    if Valid(rules) {
      ChainMoves(before, after, owner, Elements(rules));
    }
  }

  // Either, or none -----------------------------------------------------------------------------------

  /** `reconcileRules`. */
  method ReconcileRules(b: Backend, owner: Owner, rules: seq<Rule>) returns (ok: bool)
    requires Has(owner)
    modifies Objects(b)
    ensures Reconciled(old(StateOf(b)), StateOf(b), owner, rules, ok)
  {
    hide Reconciled;
    match b {
      case OverUfw(_) =>
        ok := OnUfw(b, owner, rules);
      case OverIptables(_) =>
        ok := OnIptables(b, owner, rules);
      case NoFirewall =>
        ok := forall r :: r in rules ==> ValidRule(r);
        BareReconciled(owner, rules, ok);
    }
  }

  lemma BareReconciled(owner: Owner, rules: seq<Rule>, ok: bool)
    requires ok <==> Valid(rules)
    ensures Reconciled(Bare, Bare, owner, rules, ok)
  {
    NoneInNone(Bare.KeyFor(owner));
  }

  /** One call of `purge`: a run for no rules, which an inactive chain is not spared, but has nothing for. */
  ghost predicate Purged(before: State, after: State, owner: Owner, ok: bool) {
    && Later(before, after)
    && (before.Blind() ==> ok && after.Entries() == before.Entries())
    && (!before.Blind() ==>
          (ok <==> CommandsWorked(before, after) && (before.Chained? ==> IpTables.JobOf(owner, {}, before.chained).Deletable())))
    && (ok && !before.Blind() ==> Through(before, after, owner, {}))
    && (before.Parted() ==> Spared(before, after, owner))
  }

  /** `purge`. */
  method Purge(b: Backend, owner: Owner) returns (ok: bool)
    requires Has(owner)
    modifies Objects(b)
    ensures Purged(old(StateOf(b)), StateOf(b), owner, ok)
  {
    ghost var before := StateOf(b);
    hide Reconciled, Purged;
    match b {
      case OverIptables(_) =>
        ok := PurgeChain(b, owner);
      case _ =>
        ok := ReconcileRules(b, owner, []);
        NoRulesPurge(before, StateOf(b), owner, ok);
    }
  }

  lemma NoRulesPurge(before: State, after: State, owner: Owner, ok: bool)
    requires !before.Chained? && Reconciled(before, after, owner, [], ok)
    ensures Purged(before, after, owner, ok)
  {
    assert Elements<Rule>([]) == {};
    hide State.Right, State.Rules;
  }

  method PurgeChain(b: Backend, owner: Owner) returns (ok: bool)
    requires Has(owner) && b.OverIptables?
    modifies Objects(b)
    ensures Purged(old(StateOf(b)), StateOf(b), owner, ok)
  {
    ghost var before := StateOf(b);
    NoneDoubled(owner);
    hide IpTables.IptKey, Ufw.Commented, IpTables.Leaves, IpTables.Partly, IpTables.Job.FailsAtFirst, IpTables.Job.Deletable,
      IpTables.Job.Doubled, IpTables.Job.Missing, IpTables.Job.Stale, Managed;
    ok := IpTables.PurgeRules(b.chain, owner, Other(owner));
  }

  lemma NoneDoubled(owner: Owner)
    ensures IpTables.JobOf(owner, {}, []).Doubled() == {}
  {
    NoneInNone(IpTables.IptKey(owner));
  }
}
