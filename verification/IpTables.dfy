/**
 `reconcileIPTables`: rules are inserted at the top and deleted by their text, which removes the
 first copy only. firewalld's direct rules go through the same two loops, on a table that holds no
 copies.
 */
module IpTables {
  import opened Wrappers
  import opened Sorting
  import opened Firewall
  import opened Listing
  import Ufw

  /** The copies of a managed rule in a chain. */
  function Count(key: KeyOf, entries: seq<Entry>, r: Rule): (n: nat) {
    |Filter(entries, (e: Entry) => key(e) == Some(r))|
  }

  function RemoveFirst(entries: seq<Entry>, e: Entry): (rest: seq<Entry>) {
    if entries == [] then [] else if entries[0] == e then entries[1..] else [entries[0]] + RemoveFirst(entries[1..], e)
  }

  /** The parser's view: exact comment, port in range, ACCEPT. */
  function IptKey(owner: Owner): (key: KeyOf) {
    (e: Entry) =>
      if e.rule.Some? && 1 <= e.rule.value.port <= 65535 && e.comment == Comment(owner, e.rule.value.protocol)
      then e.rule else None
  }

  /** `works` says which of the commands succeed, in the order they are given. */
  class Chain {
    var entries: seq<Entry>
    /** The policy is DROP or REJECT. */
    const drop: bool
    const works: nat -> bool
    var calls: nat

    constructor (entries: seq<Entry>, drop: bool, works: nat -> bool)
      ensures this.entries == entries && this.drop == drop && this.works == works && calls == 0
    {
      this.entries, this.drop, this.works, calls := entries, drop, works, 0;
    }

    method Command() returns (ok: bool)
      modifies `calls
      ensures calls == old(calls) + 1 && ok == works(old(calls))
    {
      ok := works(calls);
      calls := calls + 1;
    }

    /** "iptables -S INPUT". */
    method Show() returns (listing: Option<seq<Entry>>)
      modifies `calls
      ensures calls == old(calls) + 1 && listing == if works(old(calls)) then Some(entries) else None
    {
      var ok := Command();
      listing := if ok then Some(entries) else None;
    }

    /** "iptables -I INPUT 1 rule". */
    method Insert(entry: Entry) returns (ok: bool)
      modifies this
      ensures calls == old(calls) + 1 && ok == works(old(calls))
      ensures entries == if ok then [entry] + old(entries) else old(entries)
    {
      ok := Command();
      if ok {
        entries := [entry] + entries;
      }
    }

    /** "iptables -D INPUT rule": fails when no entry has exactly this text. */
    method DeleteRule(entry: Entry) returns (ok: bool)
      modifies this
      ensures calls == old(calls) + 1 && ok == (works(old(calls)) && entry in old(entries))
      ensures entries == if ok then RemoveFirst(old(entries), entry) else old(entries)
    {
      ok := Command();
      ok := ok && entry in entries;
      if ok {
        entries := RemoveFirst(entries, entry);
      }
    }
  }

  lemma {:induction false} RemoveFirstOthers(entries: seq<Entry>, e: Entry, other: Entry)
    ensures other in RemoveFirst(entries, e) ==> other in entries
    ensures other != e && other in entries ==> other in RemoveFirst(entries, e)
  {
    if entries != [] && entries[0] != e {
      RemoveFirstOthers(entries[1..], e, other);
      assert entries == [entries[0]] + entries[1..];
    }
  }

  lemma {:induction false} RemoveFirstCounts(key: KeyOf, entries: seq<Entry>, e: Entry, r: Rule)
    requires e in entries && key(e).Some?
    ensures Count(key, RemoveFirst(entries, e), r) == Count(key, entries, r) - (if key(e) == Some(r) then 1 else 0)
    ensures Filter(RemoveFirst(entries, e), Foreign(key)) == Filter(entries, Foreign(key))
  {
    if entries[0] != e {
      var rest := RemoveFirst(entries[1..], e);
      RemoveFirstCounts(key, entries[1..], e, r);
      assert ([entries[0]] + rest)[1..] == rest;
    }
  }

  lemma {:induction false} CountPositive(key: KeyOf, entries: seq<Entry>, r: Rule)
    ensures Count(key, entries, r) > 0 <==> r in Managed(key, entries)
    decreases entries
  {
    if entries != [] {
      CountPositive(key, entries[1..], r);
      assert [entries[0]] + entries[1..] == entries;
      ManagedConcat(key, [entries[0]], entries[1..]);
      assert Managed(key, [entries[0]]) == if key(entries[0]).Some? then {key(entries[0]).value} else {} by {
        if key(entries[0]).Some? {
          assert key([entries[0]][0]).value in Managed(key, [entries[0]]);
        }
      }
    }
  }

  function Bonus(rules: set<Rule>, r: Rule): (n: int) {
    if r in rules then 1 else 0
  }

  /** `after` has `plus` more and `minus` fewer copies than `before`, and the same foreign entries. */
  ghost predicate Shifted(key: KeyOf, before: seq<Entry>, after: seq<Entry>, plus: set<Rule>, minus: set<Rule>) {
    && Filter(after, Foreign(key)) == Filter(before, Foreign(key))
    && forall r :: Count(key, after, r) == Count(key, before, r) + Bonus(plus, r) - Bonus(minus, r)
  }

  lemma ShiftInsert(key: KeyOf, before: seq<Entry>, now: seq<Entry>, plus: set<Rule>, minus: set<Rule>, e: Entry)
    requires Shifted(key, before, now, plus, minus) && key(e).Some? && key(e).value !in plus
    ensures Shifted(key, before, [e] + now, plus + {key(e).value}, minus)
  {
  }

  lemma ShiftRemove(key: KeyOf, before: seq<Entry>, now: seq<Entry>, plus: set<Rule>, minus: set<Rule>, e: Entry)
    requires Shifted(key, before, now, plus, minus) && key(e).Some? && key(e).value !in minus && e in now
    ensures Shifted(key, before, RemoveFirst(now, e), plus, minus + {key(e).value})
  {
    RemoveFirstCounts(key, now, e, key(e).value);
    forall r
      ensures Count(key, RemoveFirst(now, e), r) == Count(key, before, r) + Bonus(plus, r) - Bonus(minus + {key(e).value}, r)
    {
      RemoveFirstCounts(key, now, e, r);
    }
  }

  /** What an owner's run on a chain is about. */
  datatype Job = Job(key: KeyOf, make: Rule -> Entry, desired: set<Rule>, before: seq<Entry>) {
    function Existing(): (rules: set<Rule>) {
      Managed(key, before)
    }

    function Missing(): (rules: set<Rule>) {
      desired - Existing()
    }

    function Stale(): (rules: set<Rule>) {
      Existing() - desired
    }

    ghost predicate Legible() {
      ReadsBack(key, make, desired + Existing())
    }

    /** Every stale rule is there in the very words "-D" is given. */
    predicate Deletable() {
      forall r :: r in Stale() ==> make(r) in before
    }

    /** The stale rules that are there more than once. */
    function Doubled(): (rules: set<Rule>) {
      set r | r in Stale() && Count(key, before, r) > 1
    }

    /** The stale rule that is deleted first. */
    predicate First(r: Rule) {
      r in Stale() && forall s :: s in Stale() ==> s == r || Before(r, s)
    }

    /** The first command that would change something does not. */
    ghost predicate FailsAtFirst(works: nat -> bool, call: nat) {
      !works(call) || (Missing() == {} && exists r :: First(r) && make(r) !in before)
    }
  }

  function JobOf(owner: Owner, desired: set<Rule>, entries: seq<Entry>): (job: Job) {
    Job(IptKey(owner), Ufw.Commented(owner), desired, entries)
  }

  /** `plus` is in and `minus` is out, in this order; only rules with an entry of their own words go. */
  ghost predicate Partly(job: Job, now: seq<Entry>, plus: set<Rule>, minus: set<Rule>) {
    && plus <= job.Missing() && minus <= job.Stale() && (minus != {} ==> plus == job.Missing())
    && Shifted(job.key, job.before, now, plus, minus)
    && (forall r :: r in minus ==> job.make(r) in job.before)
    && (forall r :: r in plus ==> job.make(r) in now)
    && (forall e :: e in now ==> e in job.before || exists r :: r in plus && e == job.make(r))
  }

  /** What a run leaves, whatever the commands did. */
  ghost predicate Leaves(job: Job, now: seq<Entry>) {
    exists plus, minus :: Partly(job, now, plus, minus)
  }

  /** The rules still to be deleted are there or not as they were. */
  ghost predicate StillThere(job: Job, now: seq<Entry>, rules: set<Rule>) {
    forall r :: r in rules ==> (job.make(r) in now <==> job.make(r) in job.before)
  }

  lemma PartlyAtStart(job: Job)
    ensures Partly(job, job.before, {}, {}) && StillThere(job, job.before, job.Stale())
  {
  }

  ghost predicate Legal(job: Job, r: Rule) {
    job.key(job.make(r)) == Some(r)
  }

  /** Missing and stale rules are different ones, and each is read back when written. */
  lemma MissingOrStale(job: Job)
    requires job.Legible()
    ensures job.Missing() !! job.Stale() && job.Missing() <= job.desired
    ensures forall r :: r in job.Missing() || r in job.Stale() ==> Legal(job, r)
  {
  }

  lemma PartlyInserted(job: Job, now: seq<Entry>, plus: set<Rule>, r: Rule)
    requires job.Legible() && Partly(job, now, plus, {}) && r in job.Missing() - plus
    requires StillThere(job, now, job.Stale())
    ensures Partly(job, [job.make(r)] + now, plus + {r}, {}) && StillThere(job, [job.make(r)] + now, job.Stale())
  {
    hide Shifted, Job.Missing, Job.Stale, Job.Existing, Job.Legible;
    MissingOrStale(job);
    assert Legal(job, r);
    ShiftInsert(job.key, job.before, now, plus, {}, job.make(r));
    forall s | s in job.Stale()
      ensures job.make(s) != job.make(r)
    {
      assert Legal(job, s);
    }
  }

  lemma PartlyDeleted(job: Job, now: seq<Entry>, minus: set<Rule>, r: Rule, rest: set<Rule>)
    requires job.Legible() && Partly(job, now, job.Missing(), minus)
    requires r in job.Stale() - minus && r in rest && rest <= job.Stale() && StillThere(job, now, rest) && job.make(r) in now
    ensures Partly(job, RemoveFirst(now, job.make(r)), job.Missing(), minus + {r})
    ensures StillThere(job, RemoveFirst(now, job.make(r)), rest - {r})
  {
    hide Shifted, Job.Missing, Job.Stale, Job.Existing, Job.Legible, RemoveFirst;
    MissingOrStale(job);
    var after := RemoveFirst(now, job.make(r));
    assert Legal(job, r);
    ShiftRemove(job.key, job.before, now, job.Missing(), minus, job.make(r));
    forall s | s in rest - {r} || s in job.Missing()
      ensures job.make(s) in after <==> job.make(s) in now
    {
      assert Legal(job, s) && s != r;
      RemoveFirstOthers(now, job.make(r), job.make(s));
    }
    forall e | e in after
      ensures e in now
    {
      RemoveFirstOthers(now, job.make(r), e);
    }
  }

  /** Where a run, or a loop of it, is left: the chain, the number of commands given, and whether it is through. */
  datatype Left = Left(entries: seq<Entry>, calls: nat, through: bool)

  /** The insertions up to the first that does not work. */
  function Inserting(entries: seq<Entry>, make: Rule -> Entry, rules: seq<Rule>, works: nat -> bool, from: nat): (left: Left)
    decreases |rules|
  {
    if rules == [] then Left(entries, from, true)
    else if works(from) then Inserting([make(rules[0])] + entries, make, rules[1..], works, from + 1)
    else Left(entries, from + 1, false)
  }

  /** The deletions up to the first that does not work or finds nothing to delete. */
  function Deleting(entries: seq<Entry>, make: Rule -> Entry, rules: seq<Rule>, works: nat -> bool, from: nat): (left: Left)
    decreases |rules|
  {
    if rules == [] then Left(entries, from, true)
    else if works(from) && make(rules[0]) in entries
    then Deleting(RemoveFirst(entries, make(rules[0])), make, rules[1..], works, from + 1)
    else Left(entries, from + 1, false)
  }

  /** What any run leaves, whichever commands work. */
  ghost function Played(job: Job, works: nat -> bool, from: nat): (left: Left) {
    BeforeIsOrder();
    PlayedWith(job, Arranged(job.Missing(), Before), Arranged(job.Stale(), Before), works, from)
  }

  ghost function PlayedWith(job: Job, missing: seq<Rule>, stale: seq<Rule>, works: nat -> bool, from: nat): (left: Left) {
    var inserted := Inserting(job.before, job.make, missing, works, from);
    if inserted.through then Deleting(inserted.entries, job.make, stale, works, inserted.calls) else inserted
  }

  lemma PlayedIs(job: Job, missing: seq<Rule>, stale: seq<Rule>, works: nat -> bool, from: nat)
    requires Elements(missing) == job.Missing() && InOrder(missing, Before) && Elements(stale) == job.Stale() && InOrder(stale, Before)
    ensures Played(job, works, from) == PlayedWith(job, missing, stale, works, from)
  {
    hide PlayedWith;
    BeforeIsOrder();
    ArrangedIsUnique(missing, job.Missing(), Before);
    ArrangedIsUnique(stale, job.Stale(), Before);
  }

  lemma InsertingNext(entries: seq<Entry>, make: Rule -> Entry, rules: seq<Rule>, i: nat, works: nat -> bool, from: nat)
    requires i <= |rules|
    ensures Inserting(entries, make, rules[i..], works, from)
         == if i == |rules| then Left(entries, from, true)
            else if works(from) then Inserting([make(rules[i])] + entries, make, rules[i + 1..], works, from + 1)
            else Left(entries, from + 1, false)
  {
    if i < |rules| {
      assert rules[i..][1..] == rules[i + 1..];
    }
  }

  lemma DeletingNext(entries: seq<Entry>, make: Rule -> Entry, rules: seq<Rule>, i: nat, works: nat -> bool, from: nat)
    requires i <= |rules|
    ensures Deleting(entries, make, rules[i..], works, from)
         == if i == |rules| then Left(entries, from, true)
            else if works(from) && make(rules[i]) in entries
            then Deleting(RemoveFirst(entries, make(rules[i])), make, rules[i + 1..], works, from + 1)
            else Left(entries, from + 1, false)
  {
    if i < |rules| {
      assert rules[i..][1..] == rules[i + 1..];
    }
  }

  lemma NextOf(rules: seq<Rule>, i: nat)
    requires i < |rules| && InOrder(rules, Before)
    ensures Elements(rules[..i + 1]) == Elements(rules[..i]) + {rules[i]} && Elements(rules[i + 1..]) == Elements(rules[i..]) - {rules[i]}
    ensures rules[i] !in Elements(rules[..i]) && rules[i] in Elements(rules[i..])
    ensures rules[i] in Elements(rules) && Elements(rules[i..]) <= Elements(rules)
  {
  }

  /** The insertion loop; `done` counts the insertions that worked. */
  method InsertAll(chain: Chain, ghost job: Job, make: Rule -> Entry, missing: seq<Rule>) returns (ok: bool, ghost done: nat)
    requires job.Legible() && job.before == chain.entries && job.make == make
    requires Elements(missing) == job.Missing() && InOrder(missing, Before)
    modifies chain
    ensures done <= |missing| && (ok <==> done == |missing|) && chain.calls == old(chain.calls) + done + if ok then 0 else 1
    ensures (forall i :: old(chain.calls) <= i < old(chain.calls) + done ==> chain.works(i)) && (!ok ==> !chain.works(old(chain.calls) + done))
    ensures Partly(job, chain.entries, Elements(missing[..done]), {}) && StillThere(job, chain.entries, job.Stale())
    ensures done == 0 ==> chain.entries == old(chain.entries)
    ensures Left(chain.entries, chain.calls, ok) == Inserting(old(chain.entries), make, missing, chain.works, old(chain.calls))
  {
    PartlyAtStart(job);
    hide Inserting, Partly, StillThere, Job.Legible, Job.Stale, Job.Missing;
    done := 0;
    assert Elements(missing[..0]) == {} && missing[0..] == missing;
    for i := 0 to |missing|
      invariant done == i && chain.calls == old(chain.calls) + i
      invariant Partly(job, chain.entries, Elements(missing[..i]), {}) && StillThere(job, chain.entries, job.Stale())
      invariant i == 0 ==> chain.entries == old(chain.entries)
      invariant forall k :: old(chain.calls) <= k < old(chain.calls) + i ==> chain.works(k)
      invariant Inserting(chain.entries, make, missing[i..], chain.works, chain.calls)
             == Inserting(old(chain.entries), make, missing, chain.works, old(chain.calls))
    {
      NextOf(missing, i);
      InsertingNext(chain.entries, make, missing, i, chain.works, chain.calls);
      PartlyInserted(job, chain.entries, Elements(missing[..i]), missing[i]);
      ok := chain.Insert(make(missing[i]));
      if !ok {
        return;
      }
      done := i + 1;
    }
    InsertingNext(chain.entries, make, missing, |missing|, chain.works, chain.calls);
    ok := true;
  }

  /** The deletion loop. */
  method DeleteAll(chain: Chain, ghost job: Job, make: Rule -> Entry, stale: seq<Rule>) returns (ok: bool, ghost done: nat)
    requires job.Legible() && job.make == make && Elements(stale) == job.Stale() && InOrder(stale, Before)
    requires Partly(job, chain.entries, job.Missing(), {}) && StillThere(job, chain.entries, job.Stale())
    modifies chain
    ensures done <= |stale| && (ok <==> done == |stale|) && chain.calls == old(chain.calls) + done + if ok then 0 else 1
    ensures forall i :: old(chain.calls) <= i < old(chain.calls) + done ==> chain.works(i)
    ensures forall k :: 0 <= k < done ==> make(stale[k]) in job.before
    ensures !ok ==> !chain.works(old(chain.calls) + done) || make(stale[done]) !in job.before
    ensures Partly(job, chain.entries, job.Missing(), Elements(stale[..done]))
    ensures done == 0 ==> chain.entries == old(chain.entries)
    ensures Left(chain.entries, chain.calls, ok) == Deleting(old(chain.entries), make, stale, chain.works, old(chain.calls))
  {
    hide Deleting, Partly, Job.Legible, Job.Stale, Job.Missing, RemoveFirst;
    done := 0;
    assert stale[0..] == stale && Elements(stale[..0]) == {};
    for i := 0 to |stale|
      invariant done == i && chain.calls == old(chain.calls) + i
      invariant Partly(job, chain.entries, job.Missing(), Elements(stale[..i])) && StillThere(job, chain.entries, Elements(stale[i..]))
      invariant i == 0 ==> chain.entries == old(chain.entries)
      invariant forall k :: old(chain.calls) <= k < old(chain.calls) + i ==> chain.works(k)
      invariant forall k :: 0 <= k < i ==> make(stale[k]) in job.before
      invariant Deleting(chain.entries, make, stale[i..], chain.works, chain.calls)
             == Deleting(old(chain.entries), make, stale, chain.works, old(chain.calls))
    {
      NextOf(stale, i);
      DeletingNext(chain.entries, make, stale, i, chain.works, chain.calls);
      if make(stale[i]) in chain.entries {
        PartlyDeleted(job, chain.entries, Elements(stale[..i]), stale[i], Elements(stale[i..]));
      }
      ok := chain.DeleteRule(make(stale[i]));
      if !ok {
        return;
      }
      done := i + 1;
    }
    DeletingNext(chain.entries, make, stale, |stale|, chain.works, chain.calls);
    ok := true;
  }

  /** What a state reached on the way says. */
  lemma Summary(job: Job, now: seq<Entry>, plus: set<Rule>, minus: set<Rule>)
    requires Partly(job, now, plus, minus)
    ensures Leaves(job, now)
    ensures plus != {} || minus != {} ==> now != job.before
    ensures plus != {} || (exists r :: r in job.Stale() - minus) ==> now != []
    ensures plus == job.Missing() ==> job.desired <= Managed(job.key, now)
  {
    if r :| r in plus {
      CountPositive(job.key, job.before, r);
    }
    if r :| r in minus {
      CountPositive(job.key, job.before, r);
    }
    if r :| r in job.Stale() - minus {
      CountPositive(job.key, job.before, r);
      CountPositive(job.key, now, r);
    }
    forall r | r in job.desired && plus == job.Missing()
      ensures r in Managed(job.key, now)
    {
      CountPositive(job.key, job.before, r);
      CountPositive(job.key, now, r);
    }
  }

  lemma InsertedSome(job: Job, now: seq<Entry>, missing: seq<Rule>, n: nat)
    requires n <= |missing| && Partly(job, now, Elements(missing[..n]), {}) && (n == 0 ==> now == job.before)
    ensures Leaves(job, now) && (n > 0 ==> now != []) && (now == job.before <==> n == 0)
  {
    Summary(job, now, Elements(missing[..n]), {});
    if n > 0 {
      assert missing[..n][0] in Elements(missing[..n]);
    }
  }

  lemma DeletedSome(job: Job, now: seq<Entry>, missing: seq<Rule>, stale: seq<Rule>, n: nat)
    requires n <= |stale| && Partly(job, now, job.Missing(), Elements(stale[..n]))
    requires Elements(missing) == job.Missing() && Elements(stale) == job.Stale() && InOrder(stale, Before)
    requires missing == [] && n == 0 ==> now == job.before
    ensures Leaves(job, now) && (n < |stale| ==> now != []) && (now == job.before <==> missing == [] && n == 0)
    ensures job.desired <= Managed(job.key, now)
  {
    Summary(job, now, job.Missing(), Elements(stale[..n]));
    if n > 0 {
      assert stale[..n][0] in Elements(stale[..n]);
    }
    if n < |stale| {
      assert stale[n] in Elements(stale) && stale[n] !in Elements(stale[..n]);
      assert stale[n] in job.Stale() - Elements(stale[..n]);
    }
    if missing != [] {
      assert missing[0] in Elements(missing);
    }
  }

  /** The first command of a run. */
  lemma FirstOf(job: Job, missing: seq<Rule>, stale: seq<Rule>)
    requires Elements(missing) == job.Missing() && Elements(stale) == job.Stale() && InOrder(stale, Before)
    ensures missing == [] <==> job.Missing() == {}
    ensures stale == [] <==> job.Stale() == {}
    ensures stale != [] ==> forall r :: job.First(r) <==> r == stale[0]
    ensures stale == [] ==> forall r :: !job.First(r)
    ensures job.Deletable() <==> forall k :: 0 <= k < |stale| ==> job.make(stale[k]) in job.before
  {
    hide Job.Missing, Job.Stale;
    assert missing != [] ==> missing[0] in Elements(missing);
    assert stale != [] ==> stale[0] in Elements(stale);
    BeforeIsOrder();
    if stale != [] {
      forall s | s in job.Stale()
        ensures s == stale[0] || Before(stale[0], s)
      {
        assert s in Elements(stale);
      }
    }
    forall k | 0 <= k < |stale|
      ensures stale[k] in job.Stale()
    {
      assert stale[k] in Elements(stale);
    }
    forall r | r in job.Stale()
      ensures exists k :: 0 <= k < |stale| && stale[k] == r
    {
      assert r in Elements(stale);
    }
  }

  predicate AllWork(works: nat -> bool, from: nat, to: nat) {
    forall i :: from <= i < to ==> works(i)
  }

  /** The commands from one call to another were a run of the job. It is a success if and only if every
      command works and every stale rule is there in its own words. Every copy of every rule is accounted
      for: missing rules gain one, stale rules lose one, all others keep their number, and foreign entries
      stay untouched and in order; a run that fails has done a first part of that. The chain is what it
      was exactly when there is nothing to do or the first command changes nothing. */
  ghost predicate Ran(job: Job, now: seq<Entry>, ok: bool, works: nat -> bool, from: nat, to: nat) {
    && from <= to && Leaves(job, now)
    && (ok <==> AllWork(works, from, to) && job.Deletable())
    && (ok ==> Partly(job, now, job.Missing(), job.Stale()))
    && (AllWork(works, from, to) ==> job.desired <= Managed(job.key, now))
    && (now == job.before <==> (job.Missing() == {} && job.Stale() == {}) || job.FailsAtFirst(works, from))
    && (!ok ==> now == job.before || now != [])
  }

  /** The parser's set, copies folded. */
  function Parsed(key: KeyOf, listing: seq<Entry>): (rules: set<Rule>)
    ensures rules == Managed(key, listing)
  {
    set i | 0 <= i < |listing| && key(listing[i]).Some? :: key(listing[i]).value
  }

  /** The insertions came to an end at a failing one. */
  lemma InsertingRan(job: Job, now: seq<Entry>, missing: seq<Rule>, n: nat, works: nat -> bool, from: nat)
    requires n < |missing| && Partly(job, now, Elements(missing[..n]), {}) && (n == 0 ==> now == job.before)
    requires Elements(missing) == job.Missing() && (n > 0 ==> works(from)) && !works(from + n)
    ensures Ran(job, now, false, works, from, from + n + 1)
  {
    hide Partly, Managed, Job.Deletable;
    InsertedSome(job, now, missing, n);
    assert missing[0] in Elements(missing);
  }

  /** All insertions worked, and the deletions came to an end. */
  lemma DeletingRan(job: Job, now: seq<Entry>, missing: seq<Rule>, stale: seq<Rule>, n: nat, works: nat -> bool, from: nat, ok: bool)
    requires n <= |stale| && Partly(job, now, job.Missing(), Elements(stale[..n])) && (ok <==> n == |stale|)
    requires Elements(missing) == job.Missing() && Elements(stale) == job.Stale() && InOrder(stale, Before)
    requires missing == [] && n == 0 ==> now == job.before
    requires forall i :: from <= i < from + |missing| + n ==> works(i)
    requires forall k :: 0 <= k < n ==> job.make(stale[k]) in job.before
    requires !ok ==> !works(from + |missing| + n) || job.make(stale[n]) !in job.before
    ensures Ran(job, now, ok, works, from, from + |missing| + n + if ok then 0 else 1)
  {
    hide Partly, Managed, Leaves;
    DeletedSome(job, now, missing, stale, n);
    FirstOf(job, missing, stale);
    hide Elements, InOrder, Job.First, Job.Deletable, Job.Missing, Job.Stale;
    if ok {
      assert stale[..n] == stale;
    }
  }

  /** `reconcileIPTables` on the listing `-S` printed. */
  method Reconcile(chain: Chain, key: KeyOf, make: Rule -> Entry, desired: set<Rule>, ghost job: Job) returns (ok: bool)
    requires job == Job(key, make, desired, chain.entries) && job.Legible()
    modifies chain
    ensures Ran(job, chain.entries, ok, chain.works, old(chain.calls), chain.calls)
    ensures Left(chain.entries, chain.calls, ok) == Played(job, chain.works, old(chain.calls))
  {
    hide Partly, Ran, StillThere, Job.Legible, InOrder, Elements, Managed, Played, Inserting, Deleting;
    var existing := Parsed(key, chain.entries);
    var missing := RulesWithout(desired, existing);
    var stale := RulesWithout(existing, desired);
    PlayedIs(job, missing, stale, chain.works, chain.calls);
    ghost var inserted: nat, deleted: nat;
    ok, inserted := InsertAll(chain, job, make, missing);
    if !ok {
      InsertingRan(job, chain.entries, missing, inserted, chain.works, old(chain.calls));
      return;
    }
    assert missing[..inserted] == missing;
    ok, deleted := DeleteAll(chain, job, make, stale);
    DeletingRan(job, chain.entries, missing, stale, deleted, chain.works, old(chain.calls), ok);
  }

  // What a run means --------------------------------------------------------------------------------

  lemma LeavesIsSafe(job: Job, now: seq<Entry>)
    requires Leaves(job, now)
    ensures Safe(now, job.key, job.desired, job.before)
  {
    var plus, minus :| Partly(job, now, plus, minus);
    forall r
      ensures r in Managed(job.key, now) ==> r in job.Existing() || r in plus
      ensures r in job.Existing() && r in job.desired ==> r in Managed(job.key, now)
    {
      CountPositive(job.key, job.before, r);
      CountPositive(job.key, now, r);
    }
  }

  /** Success leaves the desired rules and those stale ones that were there more than once: deletion by
      text removes one copy, and the parser had folded the copies together. */
  lemma EndsAs(job: Job, now: seq<Entry>)
    requires Partly(job, now, job.Missing(), job.Stale())
    ensures Managed(job.key, now) == job.desired + job.Doubled()
    ensures Managed(job.key, now) == job.desired <==> job.Doubled() == {}
  {
    forall r
      ensures r in Managed(job.key, now) <==> r in job.desired || r in job.Doubled()
    {
      CountPositive(job.key, job.before, r);
      CountPositive(job.key, now, r);
    }
    assert job.Doubled() !! job.desired;
  }

  /** A stale rule that is not there in its own words outlives every run. */
  lemma StuckStays(job: Job, now: seq<Entry>, r: Rule)
    requires job.Legible() && Leaves(job, now) && r in job.Stale() && job.make(r) !in job.before
    ensures r in Managed(job.key, now) && job.make(r) !in now && !job.Deletable()
  {
    var plus, minus :| Partly(job, now, plus, minus);
    CountPositive(job.key, job.before, r);
    CountPositive(job.key, now, r);
    forall e | e in now
      ensures e != job.make(r)
    {
      if e !in job.before {
        var p :| p in plus && e == job.make(p);
        assert job.key(job.make(p)) == Some(p) && job.key(job.make(r)) == Some(r);
      }
    }
  }

  /** Going back to the rules there were: what has to go was just written, once and in its own words. */
  lemma BackAgain(job: Job, now: seq<Entry>)
    requires Leaves(job, now)
    ensures Job(job.key, job.make, job.Existing(), now).Deletable() && Job(job.key, job.make, job.Existing(), now).Doubled() == {}
  {
    var plus, minus :| Partly(job, now, plus, minus);
    var back := Job(job.key, job.make, job.Existing(), now);
    forall r | r in back.Stale()
      ensures r in plus && Count(job.key, now, r) == 1
    {
      CountPositive(job.key, job.before, r);
      CountPositive(job.key, now, r);
    }
  }

  /** An entry is one of the owner's rules if and only if it is for that port and protocol, the port is one,
      and the comment is the owner's; and a rule is written as the entry with nothing but these. */
  lemma KeyMeans(owner: Owner, e: Entry, r: Rule)
    ensures IptKey(owner)(e) == Some(r) <==> e.rule == Some(r) && 0 < r.port < 65536 && Bears(e.comment, owner, r.protocol)
    ensures e == JobOf(owner, {}, []).make(r) <==> e.rule == Some(r) && Bears(e.comment, owner, r.protocol) && e.extra == 0
  {
  }

  /** What the Agent writes, and whatever it recognises, can be written again. */
  lemma IptReadsBack(owner: Owner, desired: set<Rule>, entries: seq<Entry>)
    requires forall r :: r in desired ==> ValidRule(r)
    ensures JobOf(owner, desired, entries).Legible()
  {
  }

  /** The exact comments keep proxy and realm apart in any listing. */
  lemma AlwaysApart(owner: Owner, other: Owner, entries: seq<Entry>)
    requires (owner == Proxy && other == Realm) || (owner == Realm && other == Proxy)
    ensures Apart(IptKey(owner), IptKey(other), entries)
  {
    forall e | e in entries && e.rule.Some?
      ensures Comment(owner, e.rule.value.protocol) != Comment(other, e.rule.value.protocol)
    {
      Ufw.CommentsDiffer(e.rule.value.protocol);
    }
  }

  lemma OthersKept(owner: Owner, other: Owner, desired: set<Rule>, before: seq<Entry>, now: seq<Entry>)
    requires (owner == Proxy && other == Realm) || (owner == Realm && other == Proxy)
    requires Leaves(JobOf(owner, desired, before), now)
    ensures Filter(now, Mine(IptKey(other))) == Filter(before, Mine(IptKey(other)))
    ensures Safe(now, IptKey(owner), desired, before)
  {
    LeavesIsSafe(JobOf(owner, desired, before), now);
    AlwaysApart(owner, other, before);
    AlwaysApart(owner, other, now);
    hide IptKey;
    OtherOwnerKept(IptKey(owner), IptKey(other), before, now);
  }

  lemma NothingDone(job: Job)
    ensures Leaves(job, job.before)
  {
    PartlyAtStart(job);
  }

  /** `reconcileRules` on a host with iptables, for one of proxy and realm. Refused rules touch nothing.
      A chain that cannot be listed, or is not active, is left alone and that counts as success. On any
      other the run is carried out; whatever fails, the other owner's entries are what they were, and of
      the own rules none that is wanted before and now goes and none comes that was neither. */
  method ReconcileRules(chain: Chain, owner: Owner, rules: seq<Rule>, ghost other: Owner) returns (ok: bool)
    requires (owner == Proxy && other == Realm) || (owner == Realm && other == Proxy)
    modifies chain
    ensures !(forall r :: r in rules ==> ValidRule(r)) ==> !ok && chain.entries == old(chain.entries) && chain.calls == old(chain.calls)
    ensures (forall r :: r in rules ==> ValidRule(r)) ==> chain.calls > old(chain.calls)
    ensures (forall r :: r in rules ==> ValidRule(r)) && (!chain.works(old(chain.calls)) || (old(chain.entries) == [] && !chain.drop)) ==>
              ok && chain.entries == old(chain.entries) && chain.calls == old(chain.calls) + 1
    ensures (forall r :: r in rules ==> ValidRule(r)) && chain.works(old(chain.calls)) && (old(chain.entries) != [] || chain.drop) ==>
              && Ran(JobOf(owner, Elements(rules), old(chain.entries)), chain.entries, ok, chain.works, old(chain.calls) + 1, chain.calls)
              && Left(chain.entries, chain.calls, ok)
              == Played(JobOf(owner, Elements(rules), old(chain.entries)), chain.works, old(chain.calls) + 1)
    ensures ok && chain.works(old(chain.calls)) && (old(chain.entries) != [] || chain.drop) ==>
              Managed(IptKey(owner), chain.entries) == Elements(rules) + JobOf(owner, Elements(rules), old(chain.entries)).Doubled()
    ensures Filter(chain.entries, Mine(IptKey(other))) == Filter(old(chain.entries), Mine(IptKey(other)))
    ensures Safe(chain.entries, IptKey(owner), Elements(rules), old(chain.entries))
    ensures Leaves(JobOf(owner, Elements(rules), old(chain.entries)), chain.entries)
  {
    hide IptKey, Leaves, Safe, Played, Partly;
    ghost var job := JobOf(owner, Elements(rules), chain.entries);
    NothingDone(job);
    OthersKept(owner, other, job.desired, chain.entries, chain.entries);
    var desired := Normalize(rules);
    if desired.Err? {
      return false;
    }
    var listing := chain.Show();
    // `iptablesIsActive`: a rule, or a policy that refuses.
    if listing.None? || !(listing.value != [] || chain.drop) {
      return true;
    }
    ok := Run(chain, owner, desired.value, other, job);
  }

  /** The run itself, when the chain could be listed. */
  method Run(chain: Chain, owner: Owner, desired: set<Rule>, ghost other: Owner, ghost job: Job) returns (ok: bool)
    requires (owner == Proxy && other == Realm) || (owner == Realm && other == Proxy)
    requires job == JobOf(owner, desired, chain.entries) && forall r :: r in desired ==> ValidRule(r)
    modifies chain
    ensures Ran(job, chain.entries, ok, chain.works, old(chain.calls), chain.calls) && Leaves(job, chain.entries)
    ensures Left(chain.entries, chain.calls, ok) == Played(job, chain.works, old(chain.calls))
    ensures ok ==> Managed(IptKey(owner), chain.entries) == desired + job.Doubled()
    ensures Filter(chain.entries, Mine(IptKey(other))) == Filter(old(chain.entries), Mine(IptKey(other)))
    ensures Safe(chain.entries, IptKey(owner), desired, old(chain.entries))
  {
    ghost var before := chain.entries;
    IptReadsBack(owner, desired, before);
    hide IptKey, Ufw.Commented, Job.Legible, Partly, Job.FailsAtFirst, Job.Deletable, Job.Doubled, Safe, Played;
    ok := Reconcile(chain, IptKey(owner), Ufw.Commented(owner), desired, job);
    OthersKept(owner, other, desired, before, chain.entries);
    if ok {
      EndsAs(job, chain.entries);
    }
  }

  /** The iptables part of `purge`: no rule is wanted, and only a chain that cannot be listed is left
      alone. */
  method PurgeRules(chain: Chain, owner: Owner, ghost other: Owner) returns (ok: bool)
    requires (owner == Proxy && other == Realm) || (owner == Realm && other == Proxy)
    modifies chain
    ensures chain.calls > old(chain.calls)
    ensures !chain.works(old(chain.calls)) ==> ok && chain.entries == old(chain.entries)
    ensures chain.works(old(chain.calls)) ==>
              && Ran(JobOf(owner, {}, old(chain.entries)), chain.entries, ok, chain.works, old(chain.calls) + 1, chain.calls)
              && Left(chain.entries, chain.calls, ok) == Played(JobOf(owner, {}, old(chain.entries)), chain.works, old(chain.calls) + 1)
    ensures ok && chain.works(old(chain.calls)) ==> Managed(IptKey(owner), chain.entries) == JobOf(owner, {}, old(chain.entries)).Doubled()
    ensures Filter(chain.entries, Mine(IptKey(other))) == Filter(old(chain.entries), Mine(IptKey(other)))
    ensures Leaves(JobOf(owner, {}, old(chain.entries)), chain.entries)
  {
    hide IptKey, Leaves, Safe, Played, Partly;
    ghost var job := JobOf(owner, {}, chain.entries);
    NothingDone(job);
    var listing := chain.Show();
    if listing.None? {
      return true;
    }
    ok := Run(chain, owner, {}, other, job);
  }

  // The two chains on which a run does not do what it says ------------------------------------------

  const PORT_80: Rule := Rule(80, "tcp")
  /** The rule for 80, narrowed by hand, say to one source address, under the Agent's comment. */
  const NARROWED: Entry := Entry(Some(PORT_80), "vps-panel-proxy-tcp", 1)

  /** The parser counts the narrowed rule and no "-D" matches it. */
  lemma NarrowedRuleIsStuck()
    ensures var job := JobOf(Proxy, {}, [NARROWED]);
            job.Stale() == {PORT_80} && job.make(PORT_80) !in job.before && !job.Deletable()
  {
    var job := JobOf(Proxy, {}, [NARROWED]);
    assert job.key(job.before[0]) == Some(PORT_80);
  }

  /** Of two copies one stays, and the run is a success. */
  lemma SecondCopyStays(now: seq<Entry>, ok: bool, works: nat -> bool, from: nat, to: nat)
    requires Ran(JobOf(Proxy, {}, [Ufw.Commented(Proxy)(PORT_80), Ufw.Commented(Proxy)(PORT_80)]), now, ok, works, from, to)
    requires AllWork(works, from, to)
    ensures ok && Managed(IptKey(Proxy), now) == {PORT_80}
  {
    TwoCopies();
    hide IptKey, Ufw.Commented, Partly, Job.Stale, Job.Doubled;
    EndsAs(JobOf(Proxy, {}, [Ufw.Commented(Proxy)(PORT_80), Ufw.Commented(Proxy)(PORT_80)]), now);
  }

  lemma TwoCopies()
    ensures var job := JobOf(Proxy, {}, [Ufw.Commented(Proxy)(PORT_80), Ufw.Commented(Proxy)(PORT_80)]);
            job.Deletable() && job.Doubled() == {PORT_80}
  {
    var one := Ufw.Commented(Proxy)(PORT_80);
    var job := JobOf(Proxy, {}, [one, one]);
    assert job.key(job.before[0]) == Some(PORT_80);
    assert job.Stale() == {PORT_80};
    var same := (e: Entry) => job.key(e) == Some(PORT_80);
    FilterAll(job.before, same);
    assert Count(job.key, job.before, PORT_80) == 2;
  }

  /** Once a rule is stuck no run removes it, and with every command working every run that does not
      want it fails. */
  method Retries(chain: Chain, owner: Owner, wanted: seq<seq<Rule>>, ghost other: Owner, ghost stuck: Rule) returns (oks: seq<bool>)
    requires (owner == Proxy && other == Realm) || (owner == Realm && other == Proxy)
    requires stuck in Managed(IptKey(owner), chain.entries) && Ufw.Commented(owner)(stuck) !in chain.entries
    requires forall i :: 0 <= i < |wanted| ==> stuck !in wanted[i]
    modifies chain
    ensures stuck in Managed(IptKey(owner), chain.entries) && Ufw.Commented(owner)(stuck) !in chain.entries
    ensures |oks| == |wanted| && ((forall n: nat :: chain.works(n)) ==> forall i :: 0 <= i < |oks| ==> !oks[i])
  {
    oks := [];
    for i := 0 to |wanted|
      invariant |oks| == i && ((forall n: nat :: chain.works(n)) ==> forall k :: 0 <= k < i ==> !oks[k])
      invariant stuck in Managed(IptKey(owner), chain.entries) && Ufw.Commented(owner)(stuck) !in chain.entries
    {
      var ok := Retry(chain, owner, wanted[i], other, stuck);
      oks := oks + [ok];
    }
  }

  method Retry(chain: Chain, owner: Owner, rules: seq<Rule>, ghost other: Owner, ghost stuck: Rule) returns (ok: bool)
    requires (owner == Proxy && other == Realm) || (owner == Realm && other == Proxy)
    requires stuck in Managed(IptKey(owner), chain.entries) && Ufw.Commented(owner)(stuck) !in chain.entries && stuck !in rules
    modifies chain
    ensures stuck in Managed(IptKey(owner), chain.entries) && Ufw.Commented(owner)(stuck) !in chain.entries
    ensures (forall n: nat :: chain.works(n)) ==> !ok
  {
    ghost var job := JobOf(owner, Elements(rules), chain.entries);
    assert stuck in job.Stale() && chain.entries != [];
    if forall r :: r in rules ==> ValidRule(r) {
      IptReadsBack(owner, Elements(rules), chain.entries);
    }
    hide IptKey, Ufw.Commented, Partly, Job.FailsAtFirst, Job.Doubled, Safe, Leaves;
    ok := ReconcileRules(chain, owner, rules, other);
    if forall r :: r in rules ==> ValidRule(r) {
      StuckStays(job, chain.entries, stuck);
    }
  }
}
