/**
 panel/cmd/agent/firewall.go: which rules belong to an owner, and the reconcilers that move the
 owner's rules to a desired set while leaving everybody else's alone.

 A listing is a sequence of entries. Printing and re-reading a listing is taken as faithful; the
 commands themselves may fail at any point.
 */
module Firewall {
  import opened Wrappers
  import opened Sorting

  datatype Rule = Rule(port: int, protocol: string)

  datatype Owner = Proxy | Realm | Acme

  /** `rule` is None for an entry that is not a plain port/protocol rule; `extra` stands for further
      match conditions, 0 when there are none. */
  datatype Entry = Entry(rule: Option<Rule>, comment: string, extra: int)

  predicate ValidRule(r: Rule) {
    1 <= r.port <= 65535 && (r.protocol == "tcp" || r.protocol == "udp")
  }

  function Comment(owner: Owner, protocol: string): (c: string) {
    if owner == Realm then
      if protocol == "udp" then "vps-panel-realm-udp" else "vps-panel-realm-tcp"
    else if protocol == "udp" then "vps-panel-proxy-udp" else "vps-panel-proxy-tcp"
  }

  /** The comment the owner's rules of the protocol bear: anything but udp is commented like tcp, and any
      owner but realm like proxy. */
  ghost predicate Bears(comment: string, owner: Owner, protocol: string) {
    && (owner == Realm && protocol == "udp" ==> comment == "vps-panel-realm-udp")
    && (owner == Realm && protocol != "udp" ==> comment == "vps-panel-realm-tcp")
    && (owner != Realm && protocol == "udp" ==> comment == "vps-panel-proxy-udp")
    && (owner != Realm && protocol != "udp" ==> comment == "vps-panel-proxy-tcp")
  }

  /** Go's order on strings. */
  predicate Less(a: string, b: string) {
    b != "" && (a == "" || a[0] < b[0] || (a[0] == b[0] && Less(a[1..], b[1..])))
  }

  /** Set order for the command loops: by port, then protocol. */
  predicate Before(a: Rule, b: Rule) {
    a.port < b.port || (a.port == b.port && Less(a.protocol, b.protocol))
  }

  lemma {:induction false} LessIsTransitive(a: string, b: string, c: string)
    requires Less(a, b) && Less(b, c)
    ensures Less(a, c)
  {
    if a != "" && a[0] == b[0] == c[0] {
      LessIsTransitive(a[1..], b[1..], c[1..]);
    }
  }

  lemma {:induction false} LessIsStrict(a: string, b: string)
    ensures Less(a, b) ==> !Less(b, a)
    ensures a == b || Less(a, b) || Less(b, a)
  {
    if a != "" && b != "" && a[0] == b[0] {
      LessIsStrict(a[1..], b[1..]);
      assert a == [a[0]] + a[1..] && b == [b[0]] + b[1..];
    }
  }

  lemma BeforeIsOrder()
    ensures Transitive(Before) && Total(Before)
  {
    forall a: Rule, b: Rule
      ensures !Before(a, a) && (a == b || Before(a, b) || Before(b, a))
    {
      LessIsStrict(a.protocol, a.protocol);
      LessIsStrict(a.protocol, b.protocol);
    }
    forall a: Rule, b: Rule, c: Rule | Before(a, b) && Before(b, c)
      ensures Before(a, c)
    {
      if a.port == b.port == c.port {
        LessIsTransitive(a.protocol, b.protocol, c.protocol);
      }
    }
  }

  /** `normalizeFirewallRules`. */
  method Normalize(rules: seq<Rule>) returns (r: Result<set<Rule>, string>)
    ensures r.Ok? <==> forall rule :: rule in rules ==> ValidRule(rule)
    ensures r.Ok? ==> r.value == Elements(rules)
  {
    var result: set<Rule> := {};
    for i := 0 to |rules|
      invariant result == Elements(rules[..i])
      invariant forall k :: 0 <= k < i ==> ValidRule(rules[k])
    {
      var rule := rules[i];
      if rule.port < 1 || rule.port > 65535 || (rule.protocol != "tcp" && rule.protocol != "udp") {
        assert rule in rules && !ValidRule(rule);
        return Err("invalid proxy firewall rule");
      }
      result := result + {rules[i]};
      assert rules[..i + 1] == rules[..i] + [rules[i]];
    }
    assert rules[..|rules|] == rules;
    return Ok(result);
  }

  /** `missingFirewallRules` and `staleFirewallRules`: the rules of one set that are not in the other, in
      the order the commands go through them. */
  method RulesWithout(rules: set<Rule>, others: set<Rule>) returns (result: seq<Rule>)
    ensures Elements(result) == rules - others && InOrder(result, Before)
  {
    BeforeIsOrder();
    result := Sorted(rules - others, Before);
  }

  function Filter<T>(s: seq<T>, keep: T -> bool): (r: seq<T>) {
    if s == [] then [] else (if keep(s[0]) then [s[0]] else []) + Filter(s[1..], keep)
  }

  lemma {:induction false} FilterConcat<T>(a: seq<T>, b: seq<T>, keep: T -> bool)
    ensures Filter(a + b, keep) == Filter(a, keep) + Filter(b, keep)
  {
    if a == [] {
      assert a + b == b;
    } else {
      var head := if keep(a[0]) then [a[0]] else [];
      assert (a + b)[0] == a[0] && (a + b)[1..] == a[1..] + b;
      FilterConcat(a[1..], b, keep);
      assert Filter(a + b, keep) == head + (Filter(a[1..], keep) + Filter(b, keep));
      assert Filter(a, keep) == head + Filter(a[1..], keep);
    }
  }

  lemma {:induction false} FilterAll<T>(s: seq<T>, keep: T -> bool)
    requires forall x :: x in s ==> keep(x)
    ensures Filter(s, keep) == s
  {
    if s != [] {
      FilterAll(s[1..], keep);
    }
  }

  lemma {:induction false} FilterNone<T>(s: seq<T>, keep: T -> bool)
    requires forall x :: x in s ==> !keep(x)
    ensures Filter(s, keep) == []
  {
    if s != [] {
      FilterNone(s[1..], keep);
    }
  }

  lemma {:induction false} FilterMember<T>(s: seq<T>, keep: T -> bool, x: T)
    ensures x in Filter(s, keep) <==> x in s && keep(x)
  {
    if s != [] {
      FilterMember(s[1..], keep, x);
    }
  }

  lemma {:induction false} FilterFilter<T>(s: seq<T>, keep: T -> bool, weaker: T -> bool)
    requires forall x :: x in s && keep(x) ==> weaker(x)
    ensures Filter(Filter(s, weaker), keep) == Filter(s, keep)
  {
    if s != [] {
      FilterFilter(s[1..], keep, weaker);
      FilterConcat(if weaker(s[0]) then [s[0]] else [], Filter(s[1..], weaker), keep);
    }
  }
}

/**
 Listings read through a key: the rule an entry manages for one owner, None for everybody else's.
 What the reconcilers need from a key is only that a freshly written entry reads back as its rule.
 */
module Listing {
  import opened Wrappers
  import opened Sorting
  import opened Firewall

  type KeyOf = Entry -> Option<Rule>

  function Managed(key: KeyOf, entries: seq<Entry>): (rules: set<Rule>) {
    set i | 0 <= i < |entries| && key(entries[i]).Some? :: key(entries[i]).value
  }

  predicate Stale(key: KeyOf, desired: set<Rule>, e: Entry) {
    key(e).Some? && key(e).value !in desired
  }

  function Keep(key: KeyOf, desired: set<Rule>): (keep: Entry -> bool) {
    e => !Stale(key, desired, e)
  }

  function Foreign(key: KeyOf): (keep: Entry -> bool) {
    e => key(e).None?
  }

  function Made(make: Rule -> Entry, rules: seq<Rule>): (entries: seq<Entry>) {
    seq(|rules|, i requires 0 <= i < |rules| => make(rules[i]))
  }

  /** Every desired rule, once written, is read back as itself. */
  ghost predicate ReadsBack(key: KeyOf, make: Rule -> Entry, desired: set<Rule>) {
    forall r :: r in desired ==> key(make(r)) == Some(r)
  }

  lemma ManagedConcat(key: KeyOf, a: seq<Entry>, b: seq<Entry>)
    ensures Managed(key, a + b) == Managed(key, a) + Managed(key, b)
  {
    forall i | 0 <= i < |b| && key(b[i]).Some?
      ensures key(b[i]).value in Managed(key, a + b)
    {
      assert (a + b)[|a| + i] == b[i];
    }
    forall i | 0 <= i < |a| && key(a[i]).Some?
      ensures key(a[i]).value in Managed(key, a + b)
    {
      assert (a + b)[i] == a[i];
    }
  }

  lemma ManagedMade(key: KeyOf, make: Rule -> Entry, rules: seq<Rule>)
    requires ReadsBack(key, make, Elements(rules))
    ensures Managed(key, Made(make, rules)) == Elements(rules)
    ensures Filter(Made(make, rules), Foreign(key)) == []
  {
    var made := Made(make, rules);
    forall i | 0 <= i < |rules|
      ensures key(made[i]) == Some(rules[i])
    {
      assert rules[i] in Elements(rules);
    }
    FilterNone(made, Foreign(key));
    forall r | r in Elements(rules)
      ensures r in Managed(key, made)
    {
      var i :| 0 <= i < |rules| && rules[i] == r;
      assert key(made[i]).value == r;
    }
  }

  lemma ManagedKept(key: KeyOf, desired: set<Rule>, entries: seq<Entry>)
    ensures Managed(key, Filter(entries, Keep(key, desired))) == Managed(key, entries) * desired
  {
    var kept := Filter(entries, Keep(key, desired));
    forall r | r in Managed(key, kept)
      ensures r in Managed(key, entries) * desired
    {
      var i :| 0 <= i < |kept| && key(kept[i]).Some? && key(kept[i]).value == r;
      FilterMember(entries, Keep(key, desired), kept[i]);
      var j :| 0 <= j < |entries| && entries[j] == kept[i];
    }
    forall r | r in Managed(key, entries) * desired
      ensures r in Managed(key, kept)
    {
      var i :| 0 <= i < |entries| && key(entries[i]).Some? && key(entries[i]).value == r;
      FilterMember(entries, Keep(key, desired), entries[i]);
      var j :| 0 <= j < |kept| && kept[j] == entries[i];
    }
  }

  /** What holds after every single command: foreign entries untouched and in order, no rule wanted
      both before and now ever missing, nothing invented. */
  ghost predicate Safe(entries: seq<Entry>, key: KeyOf, desired: set<Rule>, listing: seq<Entry>) {
    && Filter(entries, Foreign(key)) == Filter(listing, Foreign(key))
    && Managed(key, listing) * desired <= Managed(key, entries)
    && Managed(key, entries) <= Managed(key, listing) + desired
  }

  function Mine(key: KeyOf): (keep: Entry -> bool) {
    e => key(e).Some?
  }

  /** No entry counts for both owners. */
  ghost predicate Apart(key: KeyOf, other: KeyOf, entries: seq<Entry>) {
    forall e :: e in entries ==> key(e).None? || other(e).None?
  }

  /** As long as no entry counts for both, keeping what is foreign to one owner keeps the other's
      entries, all of them and in order. */
  lemma OtherOwnerKept(key: KeyOf, other: KeyOf, before: seq<Entry>, after: seq<Entry>)
    requires Apart(key, other, before) && Apart(key, other, after)
    requires Filter(after, Foreign(key)) == Filter(before, Foreign(key))
    ensures Filter(after, Mine(other)) == Filter(before, Mine(other))
  {
    FilterFilter(before, Mine(other), Foreign(key));
    FilterFilter(after, Mine(other), Foreign(key));
  }
}
