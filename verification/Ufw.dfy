/**
 `reconcileUFW` of panel/cmd/agent/firewall.go: numbered rules, deleted by number while the numbers
 shift. ufw lists the IPv4 entries first and the IPv6 ones behind them, and a new rule goes to the end
 of its own block, so the numbers of the IPv6 block shift with every addition.
 */
module Ufw {
  import opened Wrappers
  import opened Sorting
  import opened Firewall
  import opened Listing

  /** ufw prints "# comment" and the parser looks for the owner's comment right after a "# ". */
  predicate Mentions(comment: string, wanted: string) {
    wanted <= comment || exists i :: 0 <= i <= |comment| && "# " + wanted <= comment[i..]
  }

  function UfwKey(owner: Owner): (key: KeyOf) {
    (e: Entry) =>
      if e.rule.Some? && 1 <= e.rule.value.port <= 65535 && Mentions(e.comment, Comment(owner, e.rule.value.protocol))
      then e.rule else None
  }

  function Commented(owner: Owner): (make: Rule -> Entry) {
    (r: Rule) => Entry(Some(r), Comment(owner, r.protocol), 0)
  }

  /** The IPv6 entry ufw writes along; `extra` tells it from the IPv4 one. */
  function CommentedV6(owner: Owner): (make: Rule -> Entry) {
    (r: Rule) => Entry(Some(r), Comment(owner, r.protocol), 6)
  }

  /** How an owner's entries are read and written. */
  datatype Hand = Hand(key: KeyOf, make: Rule -> Entry, twin: Rule -> Entry)

  function HandOf(owner: Owner): (hand: Hand) {
    Hand(UfwKey(owner), Commented(owner), CommentedV6(owner))
  }

  /** `works` says which of the commands succeed, in the order they are given. */
  class Table {
    var v4: seq<Entry>
    var v6: seq<Entry>
    /** Whether ufw manages IPv6 and writes two entries for a rule. */
    const ipv6: bool
    const works: nat -> bool
    var calls: nat

    constructor (v4: seq<Entry>, v6: seq<Entry>, ipv6: bool, works: nat -> bool)
      ensures this.v4 == v4 && this.v6 == v6 && this.ipv6 == ipv6 && this.works == works && calls == 0
    {
      this.v4, this.v6, this.ipv6, this.works, calls := v4, v6, ipv6, works, 0;
    }

    function Listing(): (listing: seq<Entry>)
      reads this
    {
      v4 + v6
    }

    method Command() returns (ok: bool)
      modifies `calls
      ensures calls == old(calls) + 1 && ok == works(old(calls))
    {
      ok := works(calls);
      calls := calls + 1;
    }

    /** "ufw status numbered". */
    method Status() returns (listing: Option<seq<Entry>>)
      modifies `calls
      ensures calls == old(calls) + 1 && listing == if works(old(calls)) then Some(Listing()) else None
    {
      var ok := Command();
      listing := if ok then Some(Listing()) else None;
    }

    /** "ufw allow port/protocol comment c". */
    method Allow(entry: Entry, twin: Entry) returns (ok: bool)
      modifies this
      ensures calls == old(calls) + 1 && ok == works(old(calls))
      ensures v4 == if ok then old(v4) + [entry] else old(v4)
      ensures v6 == if ok && ipv6 then old(v6) + [twin] else old(v6)
    {
      ok := Command();
      if ok {
        v4 := v4 + [entry];
        if ipv6 {
          v6 := v6 + [twin];
        }
      }
    }

    /** "ufw --force delete number", numbers counting from 1 through both blocks as they are now. */
    method Delete(number: int) returns (ok: bool)
      modifies this
      ensures calls == old(calls) + 1 && ok == (works(old(calls)) && 1 <= number <= |old(Listing())|)
      ensures ok && number <= |old(v4)| ==> v4 == old(v4)[..number - 1] + old(v4)[number..] && v6 == old(v6)
      ensures ok && number > |old(v4)| ==>
                var i := number - |old(v4)|;
                v4 == old(v4) && v6 == old(v6)[..i - 1] + old(v6)[i..]
      ensures !ok ==> v4 == old(v4) && v6 == old(v6)
    {
      ok := Command();
      ok := ok && 1 <= number <= |Listing()|;
      if ok {
        if number <= |v4| {
          v4 := v4[..number - 1] + v4[number..];
        } else {
          v6 := v6[..number - |v4| - 1] + v6[number - |v4|..];
        }
      }
    }
  }

  datatype Numbered = Numbered(number: int, rule: Rule)

  predicate Lists(n: Numbered, key: KeyOf, listing: seq<Entry>) {
    1 <= n.number <= |listing| && key(listing[n.number - 1]) == Some(n.rule)
  }

  /** `parseUFWManagedRules`. */
  method ParseManaged(key: KeyOf, listing: seq<Entry>) returns (rules: set<Rule>, numbered: seq<Numbered>)
    ensures rules == Managed(key, listing)
    ensures forall n :: n in numbered <==> Lists(n, key, listing)
  {
    rules, numbered := {}, [];
    for i := 0 to |listing|
      invariant rules == Managed(key, listing[..i])
      invariant forall n :: n in numbered <==> n.number <= i && Lists(n, key, listing)
    {
      ManagedConcat(key, listing[..i], [listing[i]]);
      assert listing[..i + 1] == listing[..i] + [listing[i]];
      if key(listing[i]).Some? {
        rules := rules + {key(listing[i]).value};
        numbered := numbered + [Numbered(i + 1, key(listing[i]).value)];
      }
    }
    assert listing[..|listing|] == listing;
  }

  predicate Descends(a: int, b: int) {
    a > b
  }

  /** One block while its stale entries from `bound` on are gone: places below are still right. */
  function Cleared(s: seq<Entry>, keep: Entry -> bool, bound: nat): (r: seq<Entry>)
    requires bound <= |s|
  {
    s[..bound] + Filter(s[bound..], keep)
  }

  /** Deleting the last stale entry below the bound moves the bound to it. */
  lemma ClearNext(s: seq<Entry>, keep: Entry -> bool, added: seq<Entry>, bound: nat, n: nat)
    requires 1 <= n <= bound <= |s| && !keep(s[n - 1])
    requires forall i :: n <= i < bound ==> keep(s[i])
    ensures var now := Cleared(s, keep, bound) + added;
            n <= |now| && now[..n - 1] + now[n..] == Cleared(s, keep, n - 1) + added
  {
    ClearedGap(s, keep, bound, n);
    var tail := Filter(s[bound..], keep) + added;
    var now := Cleared(s, keep, bound) + added;
    assert now == s[..bound] + tail;
    assert now[..n - 1] == s[..n - 1] && now[n..] == s[n..bound] + tail;
  }

  lemma ClearedGap(s: seq<Entry>, keep: Entry -> bool, bound: nat, n: nat)
    requires 1 <= n <= bound <= |s| && !keep(s[n - 1])
    requires forall i :: n <= i < bound ==> keep(s[i])
    ensures Filter(s[n - 1..], keep) == s[n..bound] + Filter(s[bound..], keep)
  {
    assert s[n - 1..] == [s[n - 1]] + (s[n..bound] + s[bound..]);
    FilterConcat([s[n - 1]], s[n..bound] + s[bound..], keep);
    FilterConcat(s[n..bound], s[bound..], keep);
    FilterAll(s[n..bound], keep);
    FilterNone([s[n - 1]], keep);
  }

  lemma ClearedAll(s: seq<Entry>, keep: Entry -> bool)
    ensures Cleared(s, keep, 0) == Filter(s, keep)
  {
    hide Filter;
    assert s[0..] == s && s[..0] == [];
  }

  /** Without stale entries below it the bound may go to the front. */
  lemma ClearRest(s: seq<Entry>, keep: Entry -> bool, bound: nat)
    requires bound <= |s| && forall i :: 0 <= i < bound ==> keep(s[i])
    ensures Cleared(s, keep, bound) == Cleared(s, keep, 0) == Filter(s, keep)
  {
    ClearedAll(s, keep);
    assert s == s[..bound] + s[bound..];
    FilterConcat(s[..bound], s[bound..], keep);
    forall x | x in s[..bound]
      ensures keep(x)
    {
      var i :| 0 <= i < bound && s[i] == x;
    }
    FilterAll(s[..bound], keep);
  }

  lemma ClearedMembers(s: seq<Entry>, keep: Entry -> bool, bound: nat)
    requires bound <= |s|
    ensures forall e :: e in Cleared(s, keep, bound) ==> e in s
  {
    forall e | e in Filter(s[bound..], keep)
      ensures e in s
    {
      FilterMember(s[bound..], keep, e);
    }
  }

  /** A partly cleared block keeps its foreign entries and every rule that is wanted. */
  lemma ClearedIsSafe(s: seq<Entry>, key: KeyOf, desired: set<Rule>, bound: nat)
    requires bound <= |s|
    ensures Safe(Cleared(s, Keep(key, desired), bound), key, desired, s)
  {
    var keep, low, high := Keep(key, desired), s[..bound], s[bound..];
    assert s == low + high;
    FilterConcat(low, high, Foreign(key));
    FilterConcat(low, Filter(high, keep), Foreign(key));
    FilterFilter(high, Foreign(key), keep);
    ManagedConcat(key, low, Filter(high, keep));
    ManagedConcat(key, low, high);
    ManagedKept(key, desired, high);
  }

  lemma SafeConcat(a: seq<Entry>, b: seq<Entry>, key: KeyOf, desired: set<Rule>, la: seq<Entry>, lb: seq<Entry>)
    requires Safe(a, key, desired, la) && Safe(b, key, desired, lb)
    ensures Safe(a + b, key, desired, la + lb)
  {
    FilterConcat(a, b, Foreign(key));
    FilterConcat(la, lb, Foreign(key));
    ManagedConcat(key, a, b);
    ManagedConcat(key, la, lb);
  }

  lemma SafeAdded(a: seq<Entry>, key: KeyOf, make: Rule -> Entry, desired: set<Rule>, la: seq<Entry>, rules: seq<Rule>)
    requires Safe(a, key, desired, la) && Elements(rules) <= desired && ReadsBack(key, make, desired)
    ensures Safe(a + Made(make, rules), key, desired, la)
  {
    ManagedMade(key, make, rules);
    FilterConcat(a, Made(make, rules), Foreign(key));
    ManagedConcat(key, a, Made(make, rules));
    assert Filter(a, Foreign(key)) + [] == Filter(a, Foreign(key));
  }

  /** What one reconciliation is about: the blocks it found, and what it is to make of them. */
  datatype Run = Run(hand: Hand, desired: set<Rule>, v4: seq<Entry>, v6: seq<Entry>, ipv6: bool) {
    function Wanted(): (keep: Entry -> bool) {
      Keep(hand.key, desired)
    }

    function Listed(): (listing: seq<Entry>) {
      v4 + v6
    }

    function Twins(rules: seq<Rule>): (entries: seq<Entry>) {
      if ipv6 then Made(hand.twin, rules) else []
    }

    /** Whether `e` is to go. */
    predicate Drops(e: Entry) {
      Stale(hand.key, desired, e)
    }

    /** No addition comes before a stale number: nothing is missing, or nothing in the IPv6 block is stale. */
    ghost predicate Steady() {
      desired <= Managed(hand.key, Listed()) || forall e :: e in v6 ==> !Drops(e)
    }

    /** The n-th entry of the listing is to go. */
    predicate StaleAt(n: int) {
      1 <= n <= |Listed()| && Drops(Listed()[n - 1])
    }

    /** The rules to add and the numbers to delete, in the order in which that is done. */
    ghost function Missing(): (rules: seq<Rule>) {
      BeforeIsOrder();
      Arranged(desired - Managed(hand.key, Listed()), Before)
    }

    ghost function Numbers(): (numbers: seq<int>) {
      Arranged((set n: int | 1 <= n <= |Listed()| && StaleAt(n)), Descends)
    }

    /** The blocks after the first additions. */
    ghost function With(added: seq<Rule>): (blocks: (seq<Entry>, seq<Entry>)) {
      (v4 + Made(hand.make, added), v6 + Twins(added))
    }

    ghost predicate Legible() {
      ReadsBack(hand.key, hand.make, desired) && ReadsBack(hand.key, hand.twin, desired)
    }
  }

  /** The blocks after the rules have been added and the stale numbers above the bounds deleted. */
  ghost predicate Reached(t4: seq<Entry>, t6: seq<Entry>, run: Run, rules: seq<Rule>, b4: nat, b6: nat) {
    && b4 <= |run.v4| && b6 <= |run.v6|
    && t4 == Cleared(run.v4, run.Wanted(), b4) + Made(run.hand.make, rules)
    && t6 == Cleared(run.v6, run.Wanted(), b6) + run.Twins(rules)
  }

  lemma ReachedIsSafe(t4: seq<Entry>, t6: seq<Entry>, run: Run, rules: seq<Rule>, b4: nat, b6: nat)
    requires Reached(t4, t6, run, rules, b4, b6) && Elements(rules) <= run.desired && run.Legible()
    ensures Safe(t4 + t6, run.hand.key, run.desired, run.Listed())
  {
    var keep, key := run.Wanted(), run.hand.key;
    hide Safe, Cleared;
    ClearedIsSafe(run.v4, key, run.desired, b4);
    ClearedIsSafe(run.v6, key, run.desired, b6);
    SafeAdded(Cleared(run.v4, keep, b4), key, run.hand.make, run.desired, run.v4, rules);
    SafeAdded(Cleared(run.v6, keep, b6), key, run.hand.twin, run.desired, run.v6, rules);
    assert Cleared(run.v6, keep, b6) + [] == Cleared(run.v6, keep, b6);
    SafeConcat(t4, t6, key, run.desired, run.v4, run.v6);
  }

  lemma ReachedStart(run: Run)
    ensures Reached(run.v4, run.v6, run, [], |run.v4|, |run.v6|)
  {
    assert run.v4[|run.v4|..] == [] && run.v6[|run.v6|..] == [];
    assert Made(run.hand.make, []) == [] && run.Twins([]) == [];
  }

  lemma ReachedAdded(t4: seq<Entry>, t6: seq<Entry>, run: Run, rules: seq<Rule>, r: Rule, b4: nat, b6: nat)
    requires Reached(t4, t6, run, rules, b4, b6)
    ensures Reached(t4 + [run.hand.make(r)], if run.ipv6 then t6 + [run.hand.twin(r)] else t6, run, rules + [r], b4, b6)
  {
    assert Made(run.hand.make, rules + [r]) == Made(run.hand.make, rules) + [run.hand.make(r)];
    assert Made(run.hand.twin, rules + [r]) == Made(run.hand.twin, rules) + [run.hand.twin(r)];
  }

  /** The part of a bound that falls into the IPv4 block, and the part in the IPv6 block. */
  function Low(run: Run, bound: nat): (b: nat) {
    if bound < |run.v4| then bound else |run.v4|
  }

  function High(run: Run, bound: nat): (b: nat) {
    if bound < |run.v4| then 0 else bound - |run.v4|
  }

  lemma ReachedDeletedLow(t4: seq<Entry>, t6: seq<Entry>, run: Run, rules: seq<Rule>, bound: nat, n: nat)
    requires bound <= |run.Listed()| && Reached(t4, t6, run, rules, Low(run, bound), High(run, bound))
    requires 1 <= n <= bound && n <= |run.v4| && run.Drops(run.v4[n - 1])
    requires forall i :: n <= i < Low(run, bound) ==> !run.Drops(run.v4[i])
    requires forall i :: 0 <= i < High(run, bound) ==> !run.Drops(run.v6[i])
    ensures n <= |t4| && Reached(t4[..n - 1] + t4[n..], t6, run, rules, n - 1, 0)
  {
    hide Cleared;
    ClearNext(run.v4, run.Wanted(), Made(run.hand.make, rules), Low(run, bound), n);
    ClearRest(run.v6, run.Wanted(), High(run, bound));
  }

  lemma ReachedDeletedHigh(t4: seq<Entry>, t6: seq<Entry>, run: Run, rules: seq<Rule>, b6: nat, n: nat)
    requires Reached(t4, t6, run, rules, |run.v4|, b6) && rules == []
    requires 1 <= n <= b6 && run.Drops(run.v6[n - 1])
    requires forall i :: n <= i < b6 ==> !run.Drops(run.v6[i])
    ensures |t4| == |run.v4| && n <= |t6| && Reached(t4, t6[..n - 1] + t6[n..], run, rules, |run.v4|, n - 1)
  {
    assert run.v4[|run.v4|..] == [] && Made(run.hand.make, rules) == [];
    assert Cleared(run.v4, run.Wanted(), |run.v4|) == run.v4;
    hide Cleared;
    ClearNext(run.v6, run.Wanted(), run.Twins(rules), b6, n);
  }

  /** The next stale number of a steady run finds the entry it was listed for. */
  lemma ReachedDeleted(t4: seq<Entry>, t6: seq<Entry>, run: Run, rules: seq<Rule>, bound: nat, n: nat)
    requires bound <= |run.Listed()| && Reached(t4, t6, run, rules, Low(run, bound), High(run, bound))
    requires rules == [] || forall e :: e in run.v6 ==> !run.Drops(e)
    requires 1 <= n <= bound && run.Drops(run.Listed()[n - 1])
    requires forall i :: n <= i < bound ==> !run.Drops(run.Listed()[i])
    ensures n <= |run.v4| ==> n <= |t4| && Reached(t4[..n - 1] + t4[n..], t6, run, rules, Low(run, n - 1), High(run, n - 1))
    ensures n > |run.v4| ==> |t4| == |run.v4| && n - |t4| <= |t6|
                             && Reached(t4, t6[..n - |t4| - 1] + t6[n - |t4|..], run, rules, Low(run, n - 1), High(run, n - 1))
  {
    ListedAt(run);
    hide Reached, Run.Listed, Run.Drops;
    if n <= |run.v4| {
      forall i | 0 <= i < High(run, bound)
        ensures !run.Drops(run.v6[i])
      {
        assert run.Listed()[|run.v4| + i] == run.v6[i];
      }
      ReachedDeletedLow(t4, t6, run, rules, bound, n);
    } else {
      assert run.Listed()[|run.v4| + (n - |run.v4| - 1)] == run.v6[n - |run.v4| - 1];
      forall i | n - |run.v4| <= i < bound - |run.v4|
        ensures !run.Drops(run.v6[i])
      {
        assert run.Listed()[|run.v4| + i] == run.v6[i];
      }
      ReachedDeletedHigh(t4, t6, run, rules, bound - |run.v4|, n - |run.v4|);
    }
  }

  lemma ListedAt(run: Run)
    ensures |run.Listed()| == |run.v4| + |run.v6|
    ensures forall i :: 0 <= i < |run.v4| ==> run.Listed()[i] == run.v4[i]
    ensures forall i :: 0 <= i < |run.v6| ==> run.Listed()[|run.v4| + i] == run.v6[i]
  {
  }

  /** The numbers from the i-th on are the stale ones up to `bound`, highest first. */
  ghost predicate LeftToDelete(numbers: seq<int>, i: nat, run: Run, bound: nat) {
    && i <= |numbers| && bound <= |run.Listed()| && InOrder(numbers, Descends)
    && (forall k :: 0 <= k < bound && run.Drops(run.Listed()[k]) ==> k + 1 in numbers[i..])
    && (forall k :: i <= k < |numbers| ==> 1 <= numbers[k] <= bound && run.Drops(run.Listed()[numbers[k] - 1]))
  }

  lemma NextIsHighest(numbers: seq<int>, i: nat, run: Run, bound: nat)
    requires LeftToDelete(numbers, i, run, bound) && i < |numbers|
    ensures forall k :: numbers[i] <= k < bound ==> !run.Drops(run.Listed()[k])
    ensures LeftToDelete(numbers, i + 1, run, numbers[i] - 1)
  {
  }

  /** Nothing is in either block that was not there or was not written for a desired rule. */
  ghost predicate OnlyNew(t4: seq<Entry>, t6: seq<Entry>, run: Run) {
    && (forall e :: e in t4 ==> e in run.v4 || exists r :: r in run.desired && e == run.hand.make(r))
    && (forall e :: e in t6 ==> e in run.v6 || (run.ipv6 && exists r :: r in run.desired && e == run.hand.twin(r)))
  }

  lemma ReachedOnlyNew(t4: seq<Entry>, t6: seq<Entry>, run: Run, rules: seq<Rule>, b4: nat, b6: nat)
    requires Reached(t4, t6, run, rules, b4, b6) && Elements(rules) <= run.desired
    ensures OnlyNew(t4, t6, run)
  {
    ClearedMembers(run.v4, run.Wanted(), b4);
    ClearedMembers(run.v6, run.Wanted(), b6);
    forall i | 0 <= i < |rules|
      ensures rules[i] in run.desired
    {
      assert rules[i] in Elements(rules);
    }
  }

  /** The addition loop; `done` counts the additions that worked. */
  method AllowAll(table: Table, ghost run: Run, hand: Hand, missing: seq<Rule>) returns (ok: bool, ghost done: nat)
    requires run.v4 == table.v4 && run.v6 == table.v6 && run.ipv6 == table.ipv6 && run.hand == hand
    modifies table
    ensures done <= |missing| && (ok <==> done == |missing|)
    ensures Reached(table.v4, table.v6, run, missing[..done], |run.v4|, |run.v6|)
    ensures table.calls == old(table.calls) + done + if ok then 0 else 1
    ensures (forall i :: old(table.calls) <= i < old(table.calls) + done ==> table.works(i)) && (!ok ==> !table.works(old(table.calls) + done))
  {
    hide Reached;
    ReachedStart(run);
    assert missing[..0] == [];
    done := 0;
    for i := 0 to |missing|
      invariant done == i && table.calls == old(table.calls) + i
      invariant Reached(table.v4, table.v6, run, missing[..i], |run.v4|, |run.v6|)
      invariant forall k :: old(table.calls) <= k < old(table.calls) + i ==> table.works(k)
    {
      ReachedAdded(table.v4, table.v6, run, missing[..i], missing[i], |run.v4|, |run.v6|);
      assert missing[..i + 1] == missing[..i] + [missing[i]];
      ok := table.Allow(hand.make(missing[i]), hand.twin(missing[i]));
      if !ok {
        return;
      }
      done := i + 1;
    }
    ok := true;
  }

  /** When something was added and something behind the additions is stale, the highest stale number
      points below its entry, and no deletion ever reaches that entry. */
  ghost predicate Survives(listing: seq<Entry>, run: Run, rules: seq<Rule>, numbers: seq<int>, i: nat) {
    && numbers != [] && 1 <= numbers[0] <= |run.Listed()|
    && 0 <= numbers[0] - 1 + |rules| - i < |listing|
    && listing[numbers[0] - 1 + |rules| - i] == run.Listed()[numbers[0] - 1]
  }

  ghost predicate OffTarget(run: Run, rules: seq<Rule>) {
    rules != [] && exists e :: e in run.v6 && run.Drops(e)
  }

  lemma SurvivesAtFirst(t4: seq<Entry>, t6: seq<Entry>, run: Run, rules: seq<Rule>, numbers: seq<int>)
    requires OffTarget(run, rules) && LeftToDelete(numbers, 0, run, |run.Listed()|)
    requires Reached(t4, t6, run, rules, |run.v4|, |run.v6|)
    ensures Survives(t4 + t6, run, rules, numbers, 0)
  {
    hide Reached, Run.Drops;
    var j :| 0 <= j < |run.v6| && run.Drops(run.v6[j]);
    assert run.Listed()[|run.v4| + j] == run.v6[j] && numbers[0..] == numbers;
    assert |run.v4| + j + 1 in numbers;
    assert numbers[0] >= |run.v4| + j + 1;
    AddedBlocks(t4, t6, run, rules);
    var i := numbers[0] - 1 - |run.v4|;
    assert (t4 + t6)[|t4| + i] == t6[i] == run.v6[i];
  }

  /** One deletion below the survivor. */
  lemma SurvivesDeletion(listing: seq<Entry>, run: Run, rules: seq<Rule>, numbers: seq<int>, i: nat)
    requires rules != [] && i < |numbers| && InOrder(numbers, Descends) && 1 <= numbers[i] <= numbers[0] - i
    requires Survives(listing, run, rules, numbers, i)
    ensures numbers[i] <= |listing| && Survives(listing[..numbers[i] - 1] + listing[numbers[i]..], run, rules, numbers, i + 1)
  {
  }

  /** Deleting by number through both blocks is deleting from the listing. */
  lemma DeletedFromListing(v4: seq<Entry>, v6: seq<Entry>, n: nat)
    requires 1 <= n <= |v4| + |v6|
    ensures n <= |v4| ==> (v4[..n - 1] + v4[n..]) + v6 == (v4 + v6)[..n - 1] + (v4 + v6)[n..]
    ensures n > |v4| ==> v4 + (v6[..n - |v4| - 1] + v6[n - |v4|..]) == (v4 + v6)[..n - 1] + (v4 + v6)[n..]
  {
  }

  /** Where the deletion loop is before its i-th number. */
  ghost predicate Deleting(t4: seq<Entry>, t6: seq<Entry>, run: Run, rules: seq<Rule>, numbers: seq<int>, i: nat, bound: nat) {
    && LeftToDelete(numbers, i, run, bound) && OnlyNew(t4, t6, run)
    && (!OffTarget(run, rules) ==> Reached(t4, t6, run, rules, Low(run, bound), High(run, bound)))
    && (OffTarget(run, rules) ==> Survives(t4 + t6, run, rules, numbers, i))
    && (i < |numbers| ==> numbers[i] <= numbers[0] - i)
  }

  lemma DeletingStarts(t4: seq<Entry>, t6: seq<Entry>, run: Run, rules: seq<Rule>, numbers: seq<int>)
    requires Reached(t4, t6, run, rules, |run.v4|, |run.v6|) && Elements(rules) <= run.desired
    requires LeftToDelete(numbers, 0, run, |run.Listed()|)
    ensures Deleting(t4, t6, run, rules, numbers, 0, |run.Listed()|)
  {
    ReachedOnlyNew(t4, t6, run, rules, |run.v4|, |run.v6|);
    FullBound(run);
    if OffTarget(run, rules) {
      SurvivesAtFirst(t4, t6, run, rules, numbers);
    }
  }

  lemma LeftAfter(run: Run, numbers: seq<int>, i: nat, bound: nat)
    requires i < |numbers| && LeftToDelete(numbers, i, run, bound) && numbers[i] <= numbers[0] - i
    ensures 1 <= numbers[i] <= bound && LeftToDelete(numbers, i + 1, run, numbers[i] - 1)
    ensures i + 1 < |numbers| ==> numbers[i + 1] <= numbers[0] - (i + 1)
  {
    NextIsHighest(numbers, i, run, bound);
    assert i + 1 < |numbers| ==> numbers[i + 1] < numbers[i];
  }

  /** The blocks `d4` and `d6` are `t4` and `t6` without the entry numbered n. */
  ghost predicate Without(t4: seq<Entry>, t6: seq<Entry>, n: int, d4: seq<Entry>, d6: seq<Entry>) {
    && 1 <= n <= |t4| + |t6|
    && (n <= |t4| ==> d4 == t4[..n - 1] + t4[n..] && d6 == t6)
    && (n > |t4| ==> d4 == t4 && d6 == t6[..n - |t4| - 1] + t6[n - |t4|..])
  }

  lemma OffTargetGoesOn(t4: seq<Entry>, t6: seq<Entry>, d4: seq<Entry>, d6: seq<Entry>, run: Run, rules: seq<Rule>, numbers: seq<int>, i: nat, bound: nat)
    requires i < |numbers| && LeftToDelete(numbers, i, run, bound) && OffTarget(run, rules) && numbers[i] <= numbers[0] - i
    requires Survives(t4 + t6, run, rules, numbers, i)
    ensures 1 <= numbers[i] <= |t4| + |t6|
    ensures Without(t4, t6, numbers[i], d4, d6) ==> Survives(d4 + d6, run, rules, numbers, i + 1)
  {
    SurvivesDeletion(t4 + t6, run, rules, numbers, i);
    hide Survives;
    DeletedFromListing(t4, t6, numbers[i]);
  }

  lemma SteadyGoesOn(t4: seq<Entry>, t6: seq<Entry>, d4: seq<Entry>, d6: seq<Entry>, run: Run, rules: seq<Rule>, numbers: seq<int>, i: nat, bound: nat)
    requires i < |numbers| && LeftToDelete(numbers, i, run, bound) && !OffTarget(run, rules)
    requires Reached(t4, t6, run, rules, Low(run, bound), High(run, bound))
    ensures 1 <= numbers[i] <= |t4| + |t6|
    ensures Without(t4, t6, numbers[i], d4, d6) ==> Reached(d4, d6, run, rules, Low(run, numbers[i] - 1), High(run, numbers[i] - 1))
  {
    NextIsHighest(numbers, i, run, bound);
    hide Reached, Low, High;
    ReachedDeleted(t4, t6, run, rules, bound, numbers[i]);
    LongEnough(t4, run, rules, t6, bound, numbers[i]);
  }

  /** A number of the IPv4 block is found in the IPv4 block. */
  lemma LongEnough(t4: seq<Entry>, run: Run, rules: seq<Rule>, t6: seq<Entry>, bound: nat, n: nat)
    requires bound <= |run.Listed()| && Reached(t4, t6, run, rules, Low(run, bound), High(run, bound)) && n <= bound
    ensures n <= |run.v4| ==> n <= |t4|
  {
  }

  /** The i-th deletion, in either kind of run. */
  lemma DeletingGoesOn(t4: seq<Entry>, t6: seq<Entry>, d4: seq<Entry>, d6: seq<Entry>, run: Run, rules: seq<Rule>, numbers: seq<int>, i: nat, bound: nat)
    requires i < |numbers| && Deleting(t4, t6, run, rules, numbers, i, bound)
    ensures 1 <= numbers[i] <= |t4| + |t6|
    ensures Without(t4, t6, numbers[i], d4, d6) ==> Deleting(d4, d6, run, rules, numbers, i + 1, numbers[i] - 1)
  {
    LeftAfter(run, numbers, i, bound);
    if OffTarget(run, rules) {
      OffTargetGoesOn(t4, t6, d4, d6, run, rules, numbers, i, bound);
    } else {
      SteadyGoesOn(t4, t6, d4, d6, run, rules, numbers, i, bound);
    }
    hide LeftToDelete, Reached, Survives, OnlyNew, OffTarget, Low, High;
    if Without(t4, t6, numbers[i], d4, d6) {
      DeletedFromListing(t4, t6, numbers[i]);
      FewerOnlyNew(t4, t6, d4, d6, run);
    }
  }

  /** Both blocks without the entry numbered n, and without the entries of a list of numbers, each
      counted when its turn comes. */
  function Drop(blocks: (seq<Entry>, seq<Entry>), n: int): (left: (seq<Entry>, seq<Entry>)) {
    var (t4, t6) := blocks;
    if 1 <= n <= |t4| then (t4[..n - 1] + t4[n..], t6)
    else if |t4| < n <= |t4| + |t6| then (t4, t6[..n - |t4| - 1] + t6[n - |t4|..])
    else blocks
  }

  function DropAll(blocks: (seq<Entry>, seq<Entry>), numbers: seq<int>): (left: (seq<Entry>, seq<Entry>))
    decreases |numbers|
  {
    if numbers == [] then blocks else DropAll(Drop(blocks, numbers[0]), numbers[1..])
  }

  lemma {:induction false} DropLast(blocks: (seq<Entry>, seq<Entry>), numbers: seq<int>, i: nat)
    requires i < |numbers|
    ensures DropAll(blocks, numbers[..i + 1]) == Drop(DropAll(blocks, numbers[..i]), numbers[i])
    decreases |numbers|
  {
    if i == 0 {
      assert numbers[..1][1..] == [] && numbers[..0] == [];
    } else {
      assert numbers[..i + 1][1..] == numbers[1..][..i] && numbers[..i][1..] == numbers[1..][..i - 1];
      DropLast(Drop(blocks, numbers[0]), numbers[1..], i - 1);
    }
  }

  /** How many of the commands from the given one on work before one fails, `most` at most. */
  function Streak(works: nat -> bool, from: nat, most: nat): (n: nat)
    ensures n <= most
    decreases most
  {
    if most == 0 || !works(from) then 0 else 1 + Streak(works, from + 1, most - 1)
  }

  lemma {:induction false} StreakIs(works: nat -> bool, from: nat, most: nat, n: nat)
    requires n <= most && (forall i :: from <= i < from + n ==> works(i)) && (n < most ==> !works(from + n))
    ensures Streak(works, from, most) == n
    decreases most
  {
    if n > 0 {
      StreakIs(works, from + 1, most - 1, n - 1);
    }
  }

  /** Where a run is left: the blocks, and the number of commands given. */
  datatype Left = Left(blocks: (seq<Entry>, seq<Entry>), calls: nat)

  /** The deletions that work, from the given command on. */
  ghost function PlayedDeleting(run: Run, works: nat -> bool, from: nat): (left: Left) {
    var d := Streak(works, from, |run.Numbers()|);
    Left(DropAll(run.With(run.Missing()), run.Numbers()[..d]), from + d + if d < |run.Numbers()| then 1 else 0)
  }

  /** The additions that work, and then the deletions. */
  ghost function PlayedAdding(run: Run, works: nat -> bool, from: nat): (left: Left) {
    var a := Streak(works, from, |run.Missing()|);
    if a < |run.Missing()| then Left(run.With(run.Missing()[..a]), from + a + 1) else PlayedDeleting(run, works, from + a)
  }

  /** What any run leaves, whichever commands work. */
  ghost function Played(run: Run, works: nat -> bool, from: nat): (left: Left) {
    if works(from) then PlayedAdding(run, works, from + 1) else Left((run.v4, run.v6), from + 1)
  }

  lemma NumbersAre(run: Run, numbers: seq<int>)
    requires LeftToDelete(numbers, 0, run, |run.Listed()|)
    ensures numbers == run.Numbers()
  {
    assert numbers[0..] == numbers;
    var stale := set n: int | 1 <= n <= |run.Listed()| && run.StaleAt(n);
    assert forall n :: n in stale ==> n - 1 + 1 in numbers;
    assert Elements(numbers) == stale;
    ArrangedIsUnique(numbers, stale, Descends);
  }

  lemma MissingIs(run: Run, missing: seq<Rule>)
    requires Elements(missing) == run.desired - Managed(run.hand.key, run.Listed()) && InOrder(missing, Before)
    ensures missing == run.Missing()
  {
    BeforeIsOrder();
    ArrangedIsUnique(missing, run.desired - Managed(run.hand.key, run.Listed()), Before);
  }

  method DeleteOne(table: Table, ghost run: Run, ghost rules: seq<Rule>, numbers: seq<int>, i: nat, ghost bound: nat) returns (ok: bool)
    requires i < |numbers| && Deleting(table.v4, table.v6, run, rules, numbers, i, bound)
    modifies table
    ensures ok == table.works(old(table.calls)) && table.calls == old(table.calls) + 1
    ensures if ok then Deleting(table.v4, table.v6, run, rules, numbers, i + 1, numbers[i] - 1) && |table.Listing()| == |old(table.Listing())| - 1
            else Deleting(table.v4, table.v6, run, rules, numbers, i, bound) && table.Listing() == old(table.Listing())
    ensures !ok ==> table.v4 == old(table.v4) && table.v6 == old(table.v6)
    ensures 1 <= numbers[i] && (ok ==> (table.v4, table.v6) == Drop((old(table.v4), old(table.v6)), numbers[i]))
  {
    hide Deleting;
    ghost var t4, t6 := table.v4, table.v6;
    DeletingGoesOn(t4, t6, t4, t6, run, rules, numbers, i, bound);
    ok := table.Delete(numbers[i]);
    if ok {
      DeletingGoesOn(t4, t6, table.v4, table.v6, run, rules, numbers, i, bound);
    }
  }

  /** The deletion loop, highest number first; `done` counts the deletions that worked. */
  method DeleteNumbers(table: Table, ghost run: Run, ghost rules: seq<Rule>, numbers: seq<int>) returns (ok: bool, ghost done: nat, ghost bound: nat)
    requires Reached(table.v4, table.v6, run, rules, |run.v4|, |run.v6|) && Elements(rules) <= run.desired
    requires LeftToDelete(numbers, 0, run, |run.Listed()|)
    modifies table
    ensures done <= |numbers| && (ok <==> done == |numbers|)
    ensures table.calls == old(table.calls) + done + if ok then 0 else 1
    ensures (forall i :: old(table.calls) <= i < old(table.calls) + done ==> table.works(i)) && (!ok ==> !table.works(old(table.calls) + done))
    ensures |table.Listing()| == |old(table.Listing())| - done && (done == 0 ==> table.Listing() == old(table.Listing()))
    ensures Deleting(table.v4, table.v6, run, rules, numbers, done, bound)
    ensures (table.v4, table.v6) == DropAll((old(table.v4), old(table.v6)), numbers[..done])
  {
    hide Drop, DropAll;
    hide Deleting, Reached, LeftToDelete, Elements, Run.Listed, Table.Listing;
    bound := |run.Listed()|;
    done := 0;
    DeletingStarts(table.v4, table.v6, run, rules, numbers);
    DropNone((table.v4, table.v6), numbers);
    for i := 0 to |numbers|
      invariant done == i && table.calls == old(table.calls) + i && |table.Listing()| == |old(table.Listing())| - i
      invariant forall k :: old(table.calls) <= k < old(table.calls) + i ==> table.works(k)
      invariant Deleting(table.v4, table.v6, run, rules, numbers, i, bound)
      invariant i == 0 ==> table.Listing() == old(table.Listing())
      invariant (table.v4, table.v6) == DropAll((old(table.v4), old(table.v6)), numbers[..i])
    {
      DropLast((old(table.v4), old(table.v6)), numbers, i);
      ok := DeleteOne(table, run, rules, numbers, i, bound);
      if !ok {
        return;
      }
      bound := numbers[i] - 1;
      done := i + 1;
    }
    ok := true;
  }

  lemma DropNone(blocks: (seq<Entry>, seq<Entry>), numbers: seq<int>)
    ensures DropAll(blocks, numbers[..0]) == blocks
  {
  }

  /** When all stale numbers are deleted: a steady run is through, and any other has kept a stale entry. */
  lemma DeletingEnds(t4: seq<Entry>, t6: seq<Entry>, run: Run, rules: seq<Rule>, numbers: seq<int>, bound: nat)
    requires Deleting(t4, t6, run, rules, numbers, |numbers|, bound) && LeftToDelete(numbers, 0, run, |run.Listed()|)
    ensures !OffTarget(run, rules) ==> Reached(t4, t6, run, rules, 0, 0)
    ensures OffTarget(run, rules) ==> exists e :: e in t4 + t6 && run.Drops(e)
  {
    hide Reached, Survives, OnlyNew, OffTarget;
    if OffTarget(run, rules) {
      SurvivesMeansNumbers(t4 + t6, run, rules, numbers);
      SurvivorIsStale(t4 + t6, run, rules, numbers);
    } else {
      NothingLeft(t4, t6, run, rules, numbers, bound);
    }
  }

  lemma SurvivesMeansNumbers(listing: seq<Entry>, run: Run, rules: seq<Rule>, numbers: seq<int>)
    requires Survives(listing, run, rules, numbers, |numbers|)
    ensures numbers != []
  {
  }

  lemma FullBound(run: Run)
    ensures Low(run, |run.Listed()|) == |run.v4| && High(run, |run.Listed()|) == |run.v6|
  {
  }

  lemma FewerOnlyNew(t4: seq<Entry>, t6: seq<Entry>, d4: seq<Entry>, d6: seq<Entry>, run: Run)
    requires OnlyNew(t4, t6, run) && (forall e :: e in d4 ==> e in t4) && (forall e :: e in d6 ==> e in t6)
    ensures OnlyNew(d4, d6, run)
  {
  }

  lemma SurvivorIsStale(listing: seq<Entry>, run: Run, rules: seq<Rule>, numbers: seq<int>)
    requires Survives(listing, run, rules, numbers, |numbers|)
    requires run.Drops(run.Listed()[numbers[0] - 1])
    ensures exists e :: e in listing && run.Drops(e)
  {
    assert listing[numbers[0] - 1 + |rules| - |numbers|] in listing;
  }

  lemma NothingLeft(t4: seq<Entry>, t6: seq<Entry>, run: Run, rules: seq<Rule>, numbers: seq<int>, bound: nat)
    requires bound <= |run.Listed()| && Reached(t4, t6, run, rules, Low(run, bound), High(run, bound))
    requires LeftToDelete(numbers, |numbers|, run, bound)
    ensures Reached(t4, t6, run, rules, 0, 0)
  {
    forall i | 0 <= i < Low(run, bound)
      ensures !run.Drops(run.v4[i])
    {
      assert run.Listed()[i] == run.v4[i];
    }
    forall i | 0 <= i < High(run, bound)
      ensures !run.Drops(run.v6[i])
    {
      assert run.Listed()[|run.v4| + i] == run.v6[i];
    }
    ClearRest(run.v4, run.Wanted(), Low(run, bound));
    ClearRest(run.v6, run.Wanted(), High(run, bound));
  }

  /** The stale numbers, highest first. */
  method StaleNumbers(ghost run: Run, desired: set<Rule>, numbered: seq<Numbered>) returns (numbers: seq<int>)
    requires run.desired == desired && forall n :: n in numbered <==> Lists(n, run.hand.key, run.Listed())
    ensures LeftToDelete(numbers, 0, run, |run.Listed()|)
  {
    var stale := set n | n in numbered && n.rule !in desired :: n.number;
    numbers := Sorted(stale, Descends);
    forall k | 0 <= k < |numbers|
      ensures 1 <= numbers[k] <= |run.Listed()| && run.Drops(run.Listed()[numbers[k] - 1])
    {
      assert numbers[k] in Elements(numbers);
    }
    assert numbers[0..] == numbers;
    forall k | 0 <= k < |run.Listed()| && run.Drops(run.Listed()[k])
      ensures k + 1 in numbers
    {
      assert Numbered(k + 1, run.hand.key(run.Listed()[k]).value) in numbered;
      assert k + 1 in Elements(numbers);
    }
  }

  /** A steady run that is through manages exactly the desired rules. */
  lemma ThroughIsDesired(t4: seq<Entry>, t6: seq<Entry>, run: Run, rules: seq<Rule>)
    requires Reached(t4, t6, run, rules, 0, 0) && run.Legible()
    requires Elements(rules) == run.desired - Managed(run.hand.key, run.Listed())
    ensures Managed(run.hand.key, t4 + t6) == run.desired
  {
    var key, keep, desired := run.hand.key, run.Wanted(), run.desired;
    assert Cleared(run.v4, keep, 0) == Filter(run.v4, keep) && Cleared(run.v6, keep, 0) == Filter(run.v6, keep) by {
      assert run.v4[0..] == run.v4 && run.v6[0..] == run.v6;
    }
    ManagedKept(key, desired, run.v4);
    ManagedKept(key, desired, run.v6);
    ManagedMade(key, run.hand.make, rules);
    ManagedMade(key, run.hand.twin, rules);
    ManagedConcat(key, run.v4, run.v6);
    ManagedConcat(key, t4, t6);
    ManagedConcat(key, Filter(run.v4, keep), Made(run.hand.make, rules));
    ManagedConcat(key, Filter(run.v6, keep), run.Twins(rules));
    assert Managed(key, []) == {};
    hide Managed, Made, Filter, Cleared;
    assert Managed(key, t4) == Managed(key, run.v4) * desired + Elements(rules);
    assert Managed(key, t6) <= Managed(key, run.v6) * desired + Elements(rules);
    assert Managed(key, run.v6) * desired <= Managed(key, t6);
  }

  /** Something was added that was missing: the table is not what it was. */
  lemma AddedIsChanged(t4: seq<Entry>, t6: seq<Entry>, run: Run, rules: seq<Rule>, b4: nat, b6: nat)
    requires Reached(t4, t6, run, rules, b4, b6) && run.Legible() && rules != []
    requires Elements(rules) <= run.desired - Managed(run.hand.key, run.Listed())
    ensures t4 + t6 != run.Listed()
  {
    var key := run.hand.key;
    assert rules[0] in Elements(rules);
    ManagedMade(key, run.hand.make, rules);
    ManagedConcat(key, Cleared(run.v4, run.Wanted(), b4), Made(run.hand.make, rules));
    ManagedConcat(key, t4, t6);
  }

  /** What there is to do for a run. */
  ghost predicate Busy(run: Run) {
    !(run.desired <= Managed(run.hand.key, run.Listed())) || exists e :: e in run.Listed() && run.Drops(e)
  }

  ghost function RunOf(table: Table, hand: Hand, desired: set<Rule>): (run: Run)
    reads table
  {
    Run(hand, desired, table.v4, table.v6, table.ipv6)
  }

  /** What is left when every command works: the missing rules added, then the stale numbers of the old
      listing deleted, highest first, from the new one. */
  ghost predicate Result(t4: seq<Entry>, t6: seq<Entry>, run: Run, missing: seq<Rule>) {
    exists numbers ::
      && LeftToDelete(numbers, 0, run, |run.Listed()|)
      && (t4, t6) == DropAll((run.v4 + Made(run.hand.make, missing), run.v6 + run.Twins(missing)), numbers)
  }

  /** What a reconciliation leaves, whatever the commands did. */
  ghost predicate Leaves(t4: seq<Entry>, t6: seq<Entry>, run: Run) {
    && OnlyNew(t4, t6, run)
    && (run.Steady() ==> Safe(t4 + t6, run.hand.key, run.desired, run.Listed()))
  }

  lemma AddingLeaves(t4: seq<Entry>, t6: seq<Entry>, run: Run, missing: seq<Rule>, added: nat)
    requires added <= |missing| && Reached(t4, t6, run, missing[..added], |run.v4|, |run.v6|)
    requires Elements(missing) == run.desired - Managed(run.hand.key, run.Listed()) && run.Legible()
    ensures Leaves(t4, t6, run) && (added > 0 <==> t4 + t6 != run.Listed())
  {
    PrefixElements(missing, added);
    ReachedIsSafe(t4, t6, run, missing[..added], |run.v4|, |run.v6|);
    ReachedOnlyNew(t4, t6, run, missing[..added], |run.v4|, |run.v6|);
    hide Reached, Safe, OnlyNew;
    ChangedByAdding(t4, t6, run, missing, added, |run.v4|, |run.v6|);
  }

  lemma DeletingLeaves(t4: seq<Entry>, t6: seq<Entry>, run: Run, missing: seq<Rule>, numbers: seq<int>, done: nat, bound: nat)
    requires Deleting(t4, t6, run, missing, numbers, done, bound)
    requires Elements(missing) == run.desired - Managed(run.hand.key, run.Listed()) && run.Legible()
    ensures Leaves(t4, t6, run) && (run.Steady() && missing != [] ==> t4 + t6 != run.Listed())
  {
    MissingMeans(run, missing);
    hide Reached, Safe, OnlyNew, Survives, LeftToDelete;
    if run.Steady() {
      ReachedIsSafe(t4, t6, run, missing, Low(run, bound), High(run, bound));
      assert missing[..|missing|] == missing;
      ChangedByAdding(t4, t6, run, missing, |missing|, Low(run, bound), High(run, bound));
    }
  }

  /** When everything worked: the desired rules are managed if and only if the run was steady. */
  lemma DeletingThrough(t4: seq<Entry>, t6: seq<Entry>, run: Run, missing: seq<Rule>, numbers: seq<int>, bound: nat)
    requires Deleting(t4, t6, run, missing, numbers, |numbers|, bound) && LeftToDelete(numbers, 0, run, |run.Listed()|)
    requires Elements(missing) == run.desired - Managed(run.hand.key, run.Listed()) && run.Legible()
    ensures Managed(run.hand.key, t4 + t6) == run.desired <==> run.Steady()
    ensures run.Steady() ==> Reached(t4, t6, run, missing, 0, 0)
  {
    MissingMeans(run, missing);
    DeletingEnds(t4, t6, run, missing, numbers, bound);
    hide Deleting, LeftToDelete, Managed, Reached, OffTarget;
    if run.Steady() {
      ThroughIsDesired(t4, t6, run, missing);
    } else {
      StaleIsManaged(t4 + t6, run);
    }
  }

  lemma NothingMissing(run: Run, missing: seq<Rule>)
    requires Elements(missing) == run.desired - Managed(run.hand.key, run.Listed())
    ensures missing != [] ==> Busy(run)
  {
    MissingMeans(run, missing);
  }

  lemma NoNumbers(run: Run, missing: seq<Rule>, numbers: seq<int>)
    requires Elements(missing) == run.desired - Managed(run.hand.key, run.Listed())
    requires LeftToDelete(numbers, 0, run, |run.Listed()|)
    ensures missing != [] || numbers != [] <==> Busy(run)
  {
    MissingMeans(run, missing);
    NumbersAreStale(run, numbers);
  }

  /** The commands of a reconciliation, after the listing. */
  method Carry(table: Table, ghost run: Run, hand: Hand, desired: set<Rule>, existing: set<Rule>, numbered: seq<Numbered>)
      returns (ok: bool, ghost missing: seq<Rule>)
    requires run == RunOf(table, hand, desired) && run.Legible()
    requires existing == Managed(hand.key, run.Listed()) && forall n :: n in numbered <==> Lists(n, hand.key, run.Listed())
    modifies table
    ensures table.calls >= old(table.calls) && (ok <==> forall i :: old(table.calls) <= i < table.calls ==> table.works(i))
    ensures Elements(missing) == desired - existing && InOrder(missing, Before)
    ensures Leaves(table.v4, table.v6, run)
    ensures ok ==> (Managed(hand.key, table.Listing()) == desired <==> run.Steady())
    ensures ok && run.Steady() ==> Reached(table.v4, table.v6, run, missing, 0, 0)
    ensures ok ==> Result(table.v4, table.v6, run, missing)
    ensures Stands(table, PlayedAdding(run, table.works, old(table.calls)))
    ensures run.Steady() ==> (table.Listing() == run.Listed() <==> !Busy(run) || !table.works(old(table.calls)))
  {
    var absent := RulesWithout(desired, existing);
    missing := absent;
    hide Busy, Reached, Leaves, Result, Managed, InOrder, Elements, Lists, Run.Steady, Run.Legible, Run.Missing, PlayedDeleting, Streak, Run.With;
    NothingMissing(run, absent);
    ghost var added: nat;
    ok, added := AllowAll(table, run, hand, absent);
    AddingLeaves(table.v4, table.v6, run, absent, added);
    AddingPlays(table, run, absent, added, old(table.calls));
    if ok {
      assert absent[..added] == absent;
      ok := Prune(table, run, desired, absent, numbered);
    }
  }

  lemma AddedBlocks(t4: seq<Entry>, t6: seq<Entry>, run: Run, missing: seq<Rule>)
    requires Reached(t4, t6, run, missing, |run.v4|, |run.v6|)
    ensures t4 == run.v4 + Made(run.hand.make, missing) && t6 == run.v6 + run.Twins(missing)
  {
    assert run.v4[|run.v4|..] == [] && run.v6[|run.v6|..] == [];
  }

  /** The table is where a run is left. */
  ghost predicate Stands(table: Table, left: Left)
    reads table
  {
    (table.v4, table.v6) == left.blocks && table.calls == left.calls
  }

  lemma DeletingPlays(table: Table, run: Run, missing: seq<Rule>, numbers: seq<int>, done: nat, from: nat)
    requires Elements(missing) == run.desired - Managed(run.hand.key, run.Listed())
    requires LeftToDelete(numbers, 0, run, |run.Listed()|) && done <= |numbers|
    requires (forall i :: from <= i < from + done ==> table.works(i)) && (done < |numbers| ==> !table.works(from + done))
    requires (table.v4, table.v6) == DropAll(run.With(missing), numbers[..done])
    requires table.calls == from + done + if done < |numbers| then 1 else 0
    ensures InOrder(missing, Before) ==> Stands(table, PlayedDeleting(run, table.works, from))
  {
    hide LeftToDelete, DropAll, Run.With, Managed, InOrder, Elements, Run.Missing, Run.Numbers;
    NumbersAre(run, numbers);
    StreakIs(table.works, from, |numbers|, done);
    if InOrder(missing, Before) {
      MissingIs(run, missing);
      assert missing[..|missing|] == missing;
    }
  }

  lemma AddingPlays(table: Table, run: Run, missing: seq<Rule>, done: nat, from: nat)
    requires Elements(missing) == run.desired - Managed(run.hand.key, run.Listed()) && InOrder(missing, Before)
    requires done <= |missing|
    requires (forall i :: from <= i < from + done ==> table.works(i)) && (done < |missing| ==> !table.works(from + done))
    requires Reached(table.v4, table.v6, run, missing[..done], |run.v4|, |run.v6|)
    requires table.calls == from + done + if done < |missing| then 1 else 0
    ensures missing == run.Missing() && Streak(table.works, from, |missing|) == done
    ensures done < |missing| ==> Stands(table, PlayedAdding(run, table.works, from))
  {
    MissingIs(run, missing);
    StreakIs(table.works, from, |missing|, done);
    AddedBlocks(table.v4, table.v6, run, missing[..done]);
  }

  /** The second half, when every missing rule is in. */
  method Prune(table: Table, ghost run: Run, desired: set<Rule>, ghost missing: seq<Rule>, numbered: seq<Numbered>) returns (ok: bool)
    requires run.desired == desired && run.Legible() && forall n :: n in numbered <==> Lists(n, run.hand.key, run.Listed())
    requires Elements(missing) == desired - Managed(run.hand.key, run.Listed())
    requires Reached(table.v4, table.v6, run, missing, |run.v4|, |run.v6|)
    requires missing == [] ==> table.Listing() == run.Listed()
    modifies table
    ensures table.calls >= old(table.calls) && (ok <==> forall i :: old(table.calls) <= i < table.calls ==> table.works(i))
    ensures Leaves(table.v4, table.v6, run)
    ensures ok ==> (Managed(run.hand.key, table.Listing()) == desired <==> run.Steady())
    ensures ok && run.Steady() ==> Reached(table.v4, table.v6, run, missing, 0, 0)
    ensures ok ==> Result(table.v4, table.v6, run, missing)
    ensures InOrder(missing, Before) ==> Stands(table, PlayedDeleting(run, table.works, old(table.calls)))
    ensures run.Steady() && missing != [] ==> table.Listing() != run.Listed()
    ensures missing == [] ==> (table.Listing() == run.Listed() <==> !Busy(run) || !table.works(old(table.calls)))
  {
    hide Busy, Reached, Leaves, Deleting, LeftToDelete, Managed, Elements, Lists, Run.Steady, Run.Legible, PlayedDeleting, InOrder;
    var numbers := StaleNumbers(run, desired, numbered);
    NoNumbers(run, missing, numbers);
    ghost var deleted: nat, bound: nat;
    AddedBlocks(table.v4, table.v6, run, missing);
    ok, deleted, bound := DeleteNumbers(table, run, missing, numbers);
    DeletingLeaves(table.v4, table.v6, run, missing, numbers, deleted, bound);
    DeletingPlays(table, run, missing, numbers, deleted, old(table.calls));
    if ok {
      assert numbers[..deleted] == numbers;
      DeletingThrough(table.v4, table.v6, run, missing, numbers, bound);
    }
  }

  /** `reconcileUFW`. It succeeds if and only if all its commands work, and then the managed rules are
      the desired ones if and only if the run was steady. A steady run is safe after every command, and
      leaves the table as it was exactly when there is nothing to do or one of its first two commands
      fails. */
  method Reconcile(table: Table, hand: Hand, desired: set<Rule>) returns (ok: bool, ghost missing: seq<Rule>)
    requires RunOf(table, hand, desired).Legible()
    modifies table
    ensures table.calls > old(table.calls) && (ok <==> forall i :: old(table.calls) <= i < table.calls ==> table.works(i))
    ensures Leaves(table.v4, table.v6, old(RunOf(table, hand, desired)))
    ensures ok ==> (Managed(hand.key, table.Listing()) == desired <==> old(RunOf(table, hand, desired)).Steady())
    ensures ok ==> Elements(missing) == desired - Managed(hand.key, old(table.Listing())) && InOrder(missing, Before)
    ensures ok && old(RunOf(table, hand, desired)).Steady() ==> Reached(table.v4, table.v6, old(RunOf(table, hand, desired)), missing, 0, 0)
    ensures ok ==> Result(table.v4, table.v6, old(RunOf(table, hand, desired)), missing)
    ensures Stands(table, Played(old(RunOf(table, hand, desired)), table.works, old(table.calls)))
    ensures old(RunOf(table, hand, desired)).Steady() ==>
              (table.Listing() == old(table.Listing()) <==> !Busy(old(RunOf(table, hand, desired)))
                                                            || !table.works(old(table.calls)) || !table.works(old(table.calls) + 1))
  {
    hide Reached, Leaves, Result, Managed, InOrder, Elements, Lists, Run.Steady, Run.Legible, Run.Listed, Busy, PlayedAdding;
    ghost var run := RunOf(table, hand, desired);
    missing := [];
    NothingLeaves(run);
    ListingOf(table, run);
    var status := table.Status();
    if status.None? {
      return false, missing;
    }
    var existing, numbered := ParseManaged(hand.key, status.value);
    ok, missing := Carry(table, run, hand, desired, existing, numbered);
  }

  lemma StaleIsManaged(listing: seq<Entry>, run: Run)
    requires exists e :: e in listing && run.Drops(e)
    ensures Managed(run.hand.key, listing) != run.desired
  {
    var i :| 0 <= i < |listing| && run.Drops(listing[i]);
    assert run.hand.key(listing[i]).value in Managed(run.hand.key, listing);
  }

  lemma NumbersAreStale(run: Run, numbers: seq<int>)
    requires LeftToDelete(numbers, 0, run, |run.Listed()|)
    ensures numbers != [] <==> exists e :: e in run.Listed() && run.Drops(e)
  {
    assert numbers[0..] == numbers;
    if e :| e in run.Listed() && run.Drops(e) {
      var k :| 0 <= k < |run.Listed()| && run.Listed()[k] == e;
      assert k + 1 in numbers;
    }
    if numbers != [] {
      assert run.Listed()[numbers[0] - 1] in run.Listed();
    }
  }

  /** The table differs from what it was as soon as one missing rule is in. */
  lemma ChangedByAdding(t4: seq<Entry>, t6: seq<Entry>, run: Run, missing: seq<Rule>, added: nat, b4: nat, b6: nat)
    requires added <= |missing| && Reached(t4, t6, run, missing[..added], b4, b6) && run.Legible()
    requires Elements(missing) == run.desired - Managed(run.hand.key, run.Listed())
    ensures missing != [] <==> !(run.desired <= Managed(run.hand.key, run.Listed()))
    ensures added > 0 ==> t4 + t6 != run.Listed()
    ensures added == 0 && b4 == |run.v4| && b6 == |run.v6| ==> t4 + t6 == run.Listed()
  {
    MissingMeans(run, missing);
    if added > 0 {
      PrefixElements(missing, added);
      AddedIsChanged(t4, t6, run, missing[..added], b4, b6);
    } else {
      ReachedStart(run);
    }
  }

  lemma MissingMeans(run: Run, rules: seq<Rule>)
    requires Elements(rules) == run.desired - Managed(run.hand.key, run.Listed())
    ensures rules == [] <==> run.desired <= Managed(run.hand.key, run.Listed())
    ensures OffTarget(run, rules) <==> !run.Steady()
  {
    hide Managed;
    if rules == [] {
      forall r | r in run.desired
        ensures r in Managed(run.hand.key, run.Listed())
      {
        assert r !in Elements(rules);
      }
    } else {
      assert rules[0] in Elements(rules);
    }
  }

  lemma PrefixElements(rules: seq<Rule>, n: nat)
    requires n <= |rules|
    ensures Elements(rules[..n]) <= Elements(rules)
  {
  }

  /** An entry is one of the owner's rules if and only if it is for that port and protocol, the port is one,
      and the owner's comment is at the start of its comment or somewhere in it behind a "# "; and a rule is
      written as two entries with that comment, one for each kind of address. */
  lemma KeyMeans(owner: Owner, e: Entry, r: Rule, wanted: string)
    requires Bears(wanted, owner, r.protocol)
    ensures UfwKey(owner)(e) == Some(r) <==>
              e.rule == Some(r) && 0 < r.port < 65536
              && (wanted <= e.comment || exists i: nat :: i <= |e.comment| && "# " + wanted <= e.comment[i..])
    ensures HandOf(owner).make(r) == Entry(Some(r), wanted, 0) && HandOf(owner).twin(r) == Entry(Some(r), wanted, 6)
  {
    assert wanted == Comment(owner, r.protocol);
  }

  /** The entries the Agent writes are entries it recognises. */
  lemma UfwReadsBack(owner: Owner, desired: set<Rule>)
    requires forall r :: r in desired ==> ValidRule(r)
    ensures ReadsBack(UfwKey(owner), Commented(owner), desired) && ReadsBack(UfwKey(owner), CommentedV6(owner), desired)
  {
  }

  /** `reconcileRules` on a host with ufw, for one of proxy and realm: refused rules touch nothing; with
      all commands working the managed rules are the wanted ones if and only if the run was steady; and a
      steady run leaves the other owner's entries as they were, whichever command fails. */
  method ReconcileRules(table: Table, owner: Owner, rules: seq<Rule>, ghost other: Owner) returns (ok: bool)
    requires (owner == Proxy && other == Realm) || (owner == Realm && other == Proxy)
    modifies table
    ensures !(forall r :: r in rules ==> ValidRule(r)) ==>
              !ok && table.v4 == old(table.v4) && table.v6 == old(table.v6) && table.calls == old(table.calls)
    ensures (forall r :: r in rules ==> ValidRule(r)) ==>
              table.calls > old(table.calls) && (ok <==> forall i :: old(table.calls) <= i < table.calls ==> table.works(i))
    ensures ok ==> (Managed(UfwKey(owner), table.Listing()) == Elements(rules)
                    <==> old(RunOf(table, HandOf(owner), Elements(rules))).Steady())
    ensures (forall r :: r in rules ==> ValidRule(r)) ==>
              Stands(table, Played(old(RunOf(table, HandOf(owner), Elements(rules))), table.works, old(table.calls)))
    ensures Leaves(table.v4, table.v6, old(RunOf(table, HandOf(owner), Elements(rules))))
    ensures old(RunOf(table, HandOf(owner), Elements(rules))).Steady() ==>
              Safe(table.Listing(), UfwKey(owner), Elements(rules), old(table.Listing()))
    ensures old(RunOf(table, HandOf(owner), Elements(rules))).Steady() && (forall r :: r in rules ==> ValidRule(r)) ==>
              (table.Listing() == old(table.Listing()) <==> !Busy(old(RunOf(table, HandOf(owner), Elements(rules))))
                                                            || !table.works(old(table.calls)) || !table.works(old(table.calls) + 1))
    ensures old(RunOf(table, HandOf(owner), Elements(rules))).Steady() && Apart(UfwKey(owner), UfwKey(other), old(table.Listing())) ==>
              && Apart(UfwKey(owner), UfwKey(other), table.Listing())
              && Filter(table.Listing(), Mine(UfwKey(other))) == Filter(old(table.Listing()), Mine(UfwKey(other)))
  {
    hide UfwKey, Commented, CommentedV6, Safe, Apart, Leaves, Managed, Run.Steady, Run.Listed, Run.Legible, Busy,
      Reached, Result, Played;
    ghost var run := RunOf(table, HandOf(owner), Elements(rules));
    NothingLeaves(run);
    ListingOf(table, run);
    LeavesOthers(owner, other, run, table.v4, table.v6);
    var desired := Normalize(rules);
    if desired.Err? {
      return false;
    }
    UfwLegible(owner, run);
    ghost var missing;
    ok, missing := Reconcile(table, HandOf(owner), desired.value);
    ListingIs(table);
    LeavesOthers(owner, other, run, table.v4, table.v6);
  }

  lemma ListingIs(table: Table)
    ensures table.Listing() == table.v4 + table.v6
  {
  }

  lemma ListingOf(table: Table, run: Run)
    requires run.v4 == table.v4 && run.v6 == table.v6
    ensures run.Listed() == table.Listing() == table.v4 + table.v6
  {
  }

  lemma UfwLegible(owner: Owner, run: Run)
    requires run.hand == HandOf(owner) && forall r :: r in run.desired ==> ValidRule(r)
    ensures run.Legible()
  {
    UfwReadsBack(owner, run.desired);
  }

  lemma LeavesOthers(owner: Owner, other: Owner, run: Run, t4: seq<Entry>, t6: seq<Entry>)
    requires (owner == Proxy && other == Realm) || (owner == Realm && other == Proxy)
    requires run.hand == HandOf(owner) && Leaves(t4, t6, run) && ((forall r :: r in run.desired ==> ValidRule(r)) || (t4, t6) == (run.v4, run.v6))
    ensures run.Steady() ==> Safe(t4 + t6, UfwKey(owner), run.desired, run.Listed())
    ensures run.Steady() && Apart(UfwKey(owner), UfwKey(other), run.Listed()) ==>
              && Apart(UfwKey(owner), UfwKey(other), t4 + t6)
              && Filter(t4 + t6, Mine(UfwKey(other))) == Filter(run.Listed(), Mine(UfwKey(other)))
  {
    hide UfwKey, Commented, CommentedV6, Safe, Apart, OnlyNew, Run.Steady;
    if run.Steady() && Apart(UfwKey(owner), UfwKey(other), run.Listed()) && (t4, t6) != (run.v4, run.v6) {
      StaysApart(owner, other, run, t4, t6);
    }
  }

  lemma NothingLeaves(run: Run)
    ensures Leaves(run.v4, run.v6, run)
  {
    NothingIsSafe(run.Listed(), run.hand.key, run.desired);
  }

  /** Going back to the rules there were is steady on a host without IPv6, whatever the run before left. */
  lemma BackIsSteady(t4: seq<Entry>, t6: seq<Entry>, run: Run)
    requires Leaves(t4, t6, run) && !run.ipv6
    ensures Run(run.hand, Managed(run.hand.key, run.Listed()), t4, t6, run.ipv6).Steady()
  {
    var back := Run(run.hand, Managed(run.hand.key, run.Listed()), t4, t6, run.ipv6);
    forall e | e in back.v6
      ensures !back.Drops(e)
    {
      var i :| 0 <= i < |run.v6| && run.v6[i] == e;
      assert run.Listed()[|run.v4| + i] == e;
    }
  }

  /** Nothing is to be done for the rules there are. */
  lemma SameIsIdle(run: Run)
    requires run.desired == Managed(run.hand.key, run.Listed())
    ensures !Busy(run) && run.Steady()
  {
  }

  lemma NothingIsSafe(entries: seq<Entry>, key: KeyOf, desired: set<Rule>)
    ensures Safe(entries, key, desired, entries)
  {
  }

  lemma StaysApart(owner: Owner, other: Owner, run: Run, t4: seq<Entry>, t6: seq<Entry>)
    requires (owner == Proxy && other == Realm) || (owner == Realm && other == Proxy)
    requires run.hand == HandOf(owner) && forall r :: r in run.desired ==> ValidRule(r)
    requires Safe(t4 + t6, UfwKey(owner), run.desired, run.Listed()) && OnlyNew(t4, t6, run) && Apart(UfwKey(owner), UfwKey(other), run.Listed())
    ensures Apart(UfwKey(owner), UfwKey(other), t4 + t6)
    ensures Filter(t4 + t6, Mine(UfwKey(other))) == Filter(run.Listed(), Mine(UfwKey(other)))
  {
    forall e | e in t4 + t6
      ensures UfwKey(owner)(e).None? || UfwKey(other)(e).None?
    {
      if e !in run.Listed() {
        var r :| r in run.desired && (e == Commented(owner)(r) || e == CommentedV6(owner)(r));
        OwnersDoNotMeet(r, e.extra);
      }
    }
    hide UfwKey, Commented, CommentedV6;
    OtherOwnerKept(UfwKey(owner), UfwKey(other), run.Listed(), t4 + t6);
  }

  // An addition before a stale number of the IPv6 block --------------------------------------------

  const SSH: Entry := Entry(Some(Rule(22, "tcp")), "", 0)
  const SSH_V6: Entry := Entry(Some(Rule(22, "tcp")), "", 6)

  /** 22 is somebody else's, 80 is managed, both with their IPv6 entries, and 443 takes the place of 80. */
  function Moving(): (run: Run) {
    var hand := HandOf(Proxy);
    Run(hand, {Rule(443, "tcp")}, [SSH, hand.make(Rule(80, "tcp"))], [SSH_V6, hand.twin(Rule(80, "tcp"))], true)
  }

  lemma MovingKeys()
    ensures var key, v4, v6 := Moving().hand.key, Moving().v4, Moving().v6;
            && key(v4[0]).None? && key(v4[1]) == Some(Rule(80, "tcp")) && key(v6[0]).None? && key(v6[1]) == Some(Rule(80, "tcp"))
  {
    UfwReadsBack(Proxy, {Rule(80, "tcp")});
    assert !Mentions("", Comment(Proxy, "tcp"));
  }

  lemma MovingStale()
    ensures |Moving().Listed()| == 4
    ensures forall k :: 0 <= k < 4 ==> (Moving().Drops(Moving().Listed()[k]) <==> k == 1 || k == 3)
  {
    MovingKeys();
    var run := Moving();
    hide UfwKey;
    assert run.Listed() == [run.v4[0], run.v4[1], run.v6[0], run.v6[1]];
  }

  lemma MovingNumbers(numbers: seq<int>)
    requires LeftToDelete(numbers, 0, Moving(), 4)
    ensures numbers == [4, 2]
  {
    MovingStale();
    hide Moving, Run.Drops, Run.Listed;
    assert numbers[0..] == numbers;
    assert Moving().Drops(Moving().Listed()[1]) && Moving().Drops(Moving().Listed()[3]);
    assert 1 + 1 in numbers && 3 + 1 in numbers;
    assert forall k :: 0 <= k < |numbers| ==> numbers[k] == 2 || numbers[k] == 4;
    assert numbers[0] > numbers[1];
    assert numbers[1] == 2 && numbers[|numbers| - 1] >= 2;
  }

  lemma MovingMissing(missing: seq<Rule>)
    requires Elements(missing) == Moving().desired - Managed(Moving().hand.key, Moving().Listed()) && InOrder(missing, Before)
    ensures missing == [Rule(443, "tcp")]
  {
    MovingKeys();
    var run := Moving();
    assert run.Listed() == [run.v4[0], run.v4[1], run.v6[0], run.v6[1]];
    hide UfwKey;
    assert Rule(443, "tcp") !in Managed(run.hand.key, run.Listed());
    assert Rule(443, "tcp") in Elements(missing);
    forall k | 0 <= k < |missing|
      ensures missing[k] == Rule(443, "tcp")
    {
      assert missing[k] in Elements(missing);
    }
    assert missing[0] == missing[|missing| - 1];
  }

  lemma MovingAdded()
    ensures var run, m, t := Moving(), Moving().hand.make(Rule(443, "tcp")), Moving().hand.twin(Rule(443, "tcp"));
            && run.v4 + Made(run.hand.make, [Rule(443, "tcp")]) == [run.v4[0], run.v4[1], m]
            && run.v6 + run.Twins([Rule(443, "tcp")]) == [run.v6[0], run.v6[1], t]
  {
    hide UfwKey, Commented, CommentedV6;
    var run := Moving();
    assert Made(run.hand.make, [Rule(443, "tcp")]) == [run.hand.make(Rule(443, "tcp"))];
    assert Made(run.hand.twin, [Rule(443, "tcp")]) == [run.hand.twin(Rule(443, "tcp"))];
  }

  lemma MovingEnds(t4: seq<Entry>, t6: seq<Entry>)
    requires Result(t4, t6, Moving(), [Rule(443, "tcp")])
    ensures t4 == [Moving().v4[0], Moving().hand.make(Rule(443, "tcp"))] && t6 == [Moving().v6[1], Moving().hand.twin(Rule(443, "tcp"))]
  {
    var run := Moving();
    hide LeftToDelete, DropAll, UfwKey, Commented, CommentedV6, Made, Run.Twins;
    var numbers :| LeftToDelete(numbers, 0, run, |run.Listed()|)
      && (t4, t6) == DropAll((run.v4 + Made(run.hand.make, [Rule(443, "tcp")]), run.v6 + run.Twins([Rule(443, "tcp")])), numbers);
    MovingNumbers(numbers);
    MovingAdded();
    MovingDrops(run.v4[0], run.v4[1], run.hand.make(Rule(443, "tcp")), run.v6[0], run.v6[1], run.hand.twin(Rule(443, "tcp")));
  }

  lemma MovingIsNotSteady(missing: seq<Rule>)
    requires Elements(missing) == Moving().desired - Managed(Moving().hand.key, Moving().Listed()) && missing != []
    ensures !Moving().Steady()
  {
    var run := Moving();
    MovingKeys();
    hide UfwKey, Managed;
    assert run.v6[1] in run.v6 && run.Drops(run.v6[1]);
    MissingMeans(run, missing);
  }

  /** With every command working the run deletes the foreign IPv6 entry for 22 and leaves the stale one
      for 80. */
  lemma MovingAPortHitsTheWrongEntry(t4: seq<Entry>, t6: seq<Entry>, missing: seq<Rule>)
    requires Result(t4, t6, Moving(), missing) && InOrder(missing, Before)
    requires Elements(missing) == Moving().desired - Managed(Moving().hand.key, Moving().Listed())
    ensures !Moving().Steady() && SSH_V6 in Moving().v6 && SSH_V6 !in t4 + t6
    ensures Moving().hand.twin(Rule(80, "tcp")) in t6
  {
    hide Result, Managed, Run.Steady, UfwKey;
    MovingMissing(missing);
    MovingIsNotSteady(missing);
    MovingEnds(t4, t6);
  }

  lemma MovingDrops(a: Entry, b: Entry, m: Entry, c: Entry, d: Entry, t: Entry)
    ensures DropAll(([a, b, m], [c, d, t]), [4, 2]) == ([a, m], [d, t])
  {
    var blocks := ([a, b, m], [c, d, t]);
    assert blocks.1[..0] + blocks.1[1..] == [d, t];
    assert Drop(blocks, 4) == ([a, b, m], [d, t]);
    assert blocks.0[..1] + blocks.0[2..] == [a, m];
    assert Drop(([a, b, m], [d, t]), 2) == ([a, m], [d, t]);
    assert [4, 2][1..] == [2] && [2][1..] == [];
  }

  /** A rule written for one of proxy and realm is foreign to the other, so neither's reconciliation
      can touch it; acme shares the proxy comments and is not separated. */
  lemma OwnersDoNotMeet(rule: Rule, extra: int)
    requires ValidRule(rule)
    ensures UfwKey(Proxy)(Entry(Some(rule), Comment(Realm, rule.protocol), extra)).None?
    ensures UfwKey(Realm)(Entry(Some(rule), Comment(Proxy, rule.protocol), extra)).None?
    ensures UfwKey(Acme)(Entry(Some(rule), Comment(Proxy, rule.protocol), extra)) == Some(rule)
  {
    CommentsDiffer(rule.protocol);
    NotMentioned(Comment(Realm, rule.protocol), Comment(Proxy, rule.protocol));
    NotMentioned(Comment(Proxy, rule.protocol), Comment(Realm, rule.protocol));
    assert Mentions(Comment(Proxy, rule.protocol), Comment(Acme, rule.protocol));
    hide Mentions, Comment;
  }

  lemma CommentsDiffer(protocol: string)
    ensures |Comment(Realm, protocol)| == |Comment(Proxy, protocol)| == 19
    ensures Comment(Realm, protocol)[10] != Comment(Proxy, protocol)[10]
    ensures '#' !in Comment(Realm, protocol) && '#' !in Comment(Proxy, protocol)
    ensures Comment(Acme, protocol) == Comment(Proxy, protocol)
  {
  }

  lemma NotMentioned(comment: string, wanted: string)
    requires |comment| == |wanted| == 19 && comment[10] != wanted[10] && '#' !in comment
    ensures !Mentions(comment, wanted)
  {
  }
}
