/**
 What `parseRenderedRealmState` reads in any text at all, whoever wrote it: an endpoint is a stretch of
 lines, and of the lines in it that say the same thing the last one counts.
 */
module RealmParse {
  import opened Wrappers
  import opened Text
  import opened RealmRender
  import opened RealmText
  import Firewall

  ghost predicate IsHead(lines: seq<string>, i: nat) {
    i < |lines| && TrimSpace(lines[i]) == "[[endpoints]]"
  }

  /** A listen line, and what it says: an address literal and a port. */
  ghost predicate IsListen(lines: seq<string>, i: nat) {
    i < |lines| && "listen = " <= TrimSpace(lines[i])
  }

  ghost predicate Says(syntax: Syntax, lines: seq<string>, i: nat, address: string, port: int) {
    && IsListen(lines, i) && syntax.isIP(address) && 1 <= port <= 65535
    && Names("listen = " + TrimSpace(TrimSpace(lines[i])[9..]), "listen = ", address, port)
  }

  /** The last of the two switches between these lines is `on`. */
  ghost predicate TurnedOn(lines: seq<string>, from: nat, to: nat, on: string, off: string) {
    exists i: nat :: from < i < to <= |lines| && TrimSpace(lines[i]) == on && NoneAfter(lines, i, to, off)
  }

  ghost predicate NoneAfter(lines: seq<string>, from: nat, to: nat, text: string) {
    forall i: nat :: from < i < to <= |lines| ==> TrimSpace(lines[i]) != text
  }

  ghost predicate NoListen(lines: seq<string>, from: nat, to: nat) {
    forall i: nat :: from < i < to ==> !IsListen(lines, i)
  }

  /** The endpoint between these lines: its protocols, and where it listens, with port 0 for nowhere. */
  ghost predicate Describes(syntax: Syntax, lines: seq<string>, from: nat, to: nat, l: Listener) {
    && (l.tcp <==> TurnedOn(lines, from, to, "no_tcp = false", "no_tcp = true"))
    && (l.udp <==> TurnedOn(lines, from, to, "use_udp = true", "use_udp = false"))
    && ListensAt(syntax, lines, from, to, l)
  }

  ghost predicate ListensAt(syntax: Syntax, lines: seq<string>, from: nat, to: nat, l: Listener) {
    && (l.port == 0 ==> NoListen(lines, from, to) && l.address == "")
    && (l.port != 0 ==> exists i: nat :: from < i < to && Says(syntax, lines, i, l.address, l.port) && NoListen(lines, i, to))
  }

  /** `heads` are the first lines of the endpoints among the first `end` lines. */
  ghost predicate AreHeads(lines: seq<string>, end: nat, heads: seq<nat>) {
    && (forall k :: 0 <= k < |heads| ==> heads[k] < end && IsHead(lines, heads[k]))
    && (forall j, k :: 0 <= j < k < |heads| ==> heads[j] < heads[k])
    && forall i: nat :: i < end && IsHead(lines, i) ==> i in heads
  }

  function EndOf(heads: seq<nat>, k: nat, end: nat): (to: nat)
    requires k < |heads|
  {
    if k + 1 < |heads| then heads[k + 1] else end
  }

  /** One listener for each endpoint. */
  ghost predicate Described(syntax: Syntax, lines: seq<string>, end: nat, heads: seq<nat>, listeners: seq<Listener>) {
    && end <= |lines| && AreHeads(lines, end, heads) && |listeners| == |heads|
    && forall k :: 0 <= k < |heads| ==> Describes(syntax, lines, heads[k], EndOf(heads, k, end), listeners[k])
  }

  /** Every listen line of an endpoint says something. */
  ghost predicate Readable(syntax: Syntax, lines: seq<string>, end: nat) {
    forall h: nat, i: nat :: h < i < end && IsHead(lines, h) && IsListen(lines, i) ==> exists address, port :: Says(syntax, lines, i, address, port)
  }

  /** What one more line changes for the endpoint it is in. */
  ghost predicate Grows(syntax: Syntax, l: Listener, line: string, next: Listener) {
    && next.tcp == (if line == "no_tcp = false" then true else if line == "no_tcp = true" then false else l.tcp)
    && next.udp == (if line == "use_udp = true" then true else if line == "use_udp = false" then false else l.udp)
    && (!("listen = " <= line) ==> next.address == l.address && next.port == l.port)
  }

  lemma OneMoreSwitch(lines: seq<string>, from: nat, to: nat, on: string, off: string)
    requires from < to < |lines| && on != off
    ensures TurnedOn(lines, from, to + 1, on, off) <==>
              TrimSpace(lines[to]) == on || (TrimSpace(lines[to]) != off && TurnedOn(lines, from, to, on, off))
  {
    hide TrimSpace;
    if TurnedOn(lines, from, to + 1, on, off) {
      var i: nat :| from < i < to + 1 && TrimSpace(lines[i]) == on && NoneAfter(lines, i, to + 1, off);
      if i < to {
        assert TrimSpace(lines[to]) != off;
        assert NoneAfter(lines, i, to, off);
      }
    }
    if TrimSpace(lines[to]) == on {
      assert NoneAfter(lines, to, to + 1, off);
    }
    if TrimSpace(lines[to]) != off && TurnedOn(lines, from, to, on, off) {
      var i: nat :| from < i < to && TrimSpace(lines[i]) == on && NoneAfter(lines, i, to, off);
      assert NoneAfter(lines, i, to + 1, off);
    }
  }

  lemma OneMoreListen(syntax: Syntax, lines: seq<string>, from: nat, to: nat, l: Listener, next: Listener)
    requires from < to < |lines| && ListensAt(syntax, lines, from, to, l)
    requires if IsListen(lines, to) then Says(syntax, lines, to, next.address, next.port) else next.address == l.address && next.port == l.port
    ensures ListensAt(syntax, lines, from, to + 1, next)
  {
    hide Names, TrimSpace;
    if IsListen(lines, to) {
      assert NoListen(lines, to, to + 1);
    } else if l.port != 0 {
      var i: nat :| from < i < to && Says(syntax, lines, i, l.address, l.port) && NoListen(lines, i, to);
      assert NoListen(lines, i, to + 1);
    }
  }

  lemma OneMoreDescribes(syntax: Syntax, lines: seq<string>, from: nat, to: nat, l: Listener, next: Listener)
    requires from < to < |lines| && Describes(syntax, lines, from, to, l) && Grows(syntax, l, TrimSpace(lines[to]), next)
    requires IsListen(lines, to) ==> Says(syntax, lines, to, next.address, next.port)
    ensures Describes(syntax, lines, from, to + 1, next)
  {
    OneMoreSwitch(lines, from, to, "no_tcp = false", "no_tcp = true");
    OneMoreSwitch(lines, from, to, "use_udp = true", "use_udp = false");
    OneMoreListen(syntax, lines, from, to, l, next);
    hide TurnedOn, Says, ListensAt, TrimSpace;
  }

  lemma ListenSays(syntax: Syntax, lines: seq<string>, i: nat, current: Listener)
    requires IsListen(lines, i)
    ensures var next := ParseListen(syntax, current, TrimSpace(TrimSpace(lines[i])[9..]));
            && (next.Some? ==> Says(syntax, lines, i, next.value.address, next.value.port)
                               && next.value == current.(address := next.value.address, port := next.value.port))
            && (next.None? ==> forall address, port :: !Says(syntax, lines, i, address, port))
  {
    var value := TrimSpace(TrimSpace(lines[i])[9..]);
    assert ("listen = " + value)[9..] == value;
    hide Unquote, SplitHostPort, Atoi, TrimSpace;
  }

  /** A line that is neither. */
  lemma PlainLineMeans(syntax: Syntax, others: seq<Listener>, current: Listener, raw: string)
    requires TrimSpace(raw) != "[[endpoints]]" && !("listen = " <= TrimSpace(raw))
    ensures exists l :: ParseLine(syntax, others + [current], raw) == Some(others + [l]) && Grows(syntax, current, TrimSpace(raw), l)
  {
    hide ParseListen, TrimSpace, Grows;
    var ls := others + [current];
    assert ls[|ls| - 1] == current && ls[..|ls| - 1] == others;
    var line := TrimSpace(raw);
    var l := if line == "no_tcp = true" then current.(tcp := false)
             else if line == "no_tcp = false" then current.(tcp := true)
             else if line == "use_udp = true" then current.(udp := true)
             else if line == "use_udp = false" then current.(udp := false)
             else current;
    GrowsBy(syntax, current, line, l);
    assert ParseLine(syntax, ls, raw) == Some(others + [l]);
  }

  lemma GrowsBy(syntax: Syntax, l: Listener, line: string, next: Listener)
    requires next == if line == "no_tcp = true" then l.(tcp := false)
                     else if line == "no_tcp = false" then l.(tcp := true)
                     else if line == "use_udp = true" then l.(udp := true)
                     else if line == "use_udp = false" then l.(udp := false)
                     else l
    ensures Grows(syntax, l, line, next)
  {
  }

  lemma ListenLineGrows(syntax: Syntax, others: seq<Listener>, current: Listener, raw: string)
    requires "listen = " <= TrimSpace(raw)
    ensures var next := ParseListen(syntax, current, TrimSpace(TrimSpace(raw)[9..]));
            && ParseLine(syntax, others + [current], raw) == (if next.None? then None else Some(others + [next.value]))
            && (next.Some? && next.value == current.(address := next.value.address, port := next.value.port)
                ==> Grows(syntax, current, TrimSpace(raw), next.value))
  {
    hide ParseListen, TrimSpace;
    var ls := others + [current];
    assert ls[|ls| - 1] == current && ls[..|ls| - 1] == others;
    assert TrimSpace(raw)[0] == "listen = "[0];
    assert forall other :: other in {"[[endpoints]]", "no_tcp = true", "no_tcp = false", "use_udp = true", "use_udp = false"} ==> other[0] != 'l';
  }

  lemma NoEndpointYet(syntax: Syntax, raw: string)
    requires TrimSpace(raw) != "[[endpoints]]"
    ensures ParseLine(syntax, [], raw) == Some([])
  {
    hide ParseListen, TrimSpace;
  }

  lemma HeadMeans(syntax: Syntax, lines: seq<string>, i: nat, listeners: seq<Listener>)
    requires IsHead(lines, i)
    ensures ParseLine(syntax, listeners, lines[i]) == Some(listeners + [Listener("", 0, false, false)])
    ensures Describes(syntax, lines, i, i + 1, Listener("", 0, false, false))
  {
    hide TrimSpace;
  }

  lemma HeadDescribed(syntax: Syntax, lines: seq<string>, i: nat, heads: seq<nat>, listeners: seq<Listener>)
    requires Described(syntax, lines, i, heads, listeners) && IsHead(lines, i)
    ensures Described(syntax, lines, i + 1, heads + [i], listeners + [Listener("", 0, false, false)])
  {
    HeadMeans(syntax, lines, i, listeners);
    hide Describes, IsHead;
    var more, all := heads + [i], listeners + [Listener("", 0, false, false)];
    assert more[|heads|] == i;
    forall k | 0 <= k < |more|
      ensures Describes(syntax, lines, more[k], EndOf(more, k, i + 1), all[k])
    {
      if k < |heads| {
        assert EndOf(more, k, i + 1) == EndOf(heads, k, i);
      }
    }
  }

  lemma LineDescribed(syntax: Syntax, lines: seq<string>, i: nat, heads: seq<nat>, listeners: seq<Listener>, next: seq<Listener>)
    requires Described(syntax, lines, i, heads, listeners) && i < |lines| && !IsHead(lines, i) && heads != []
    requires |next| == |listeners| && next[..|next| - 1] == listeners[..|listeners| - 1]
    requires Describes(syntax, lines, heads[|heads| - 1], i + 1, next[|next| - 1])
    ensures Described(syntax, lines, i + 1, heads, next)
  {
    hide Describes, IsHead;
    forall k | 0 <= k < |heads|
      ensures Describes(syntax, lines, heads[k], EndOf(heads, k, i + 1), next[k])
    {
      if k + 1 < |heads| {
        assert EndOf(heads, k, i + 1) == EndOf(heads, k, i) && next[k] == next[..|next| - 1][k] == listeners[..|listeners| - 1][k] == listeners[k];
      }
    }
  }

  lemma NotReadable(syntax: Syntax, lines: seq<string>, h: nat, i: nat)
    requires h < i < |lines| && IsHead(lines, h) && IsListen(lines, i) && forall address, port :: !Says(syntax, lines, i, address, port)
    ensures !Readable(syntax, lines, |lines|)
  {
    hide Says, IsHead, IsListen;
  }

  lemma StillReadable(syntax: Syntax, lines: seq<string>, i: nat)
    requires i < |lines| && Readable(syntax, lines, i)
    requires IsListen(lines, i) && (exists h :: 0 <= h < i && IsHead(lines, h)) ==> exists address, port :: Says(syntax, lines, i, address, port)
    ensures Readable(syntax, lines, i + 1)
  {
    hide Says, IsHead, IsListen;
  }

  lemma HeadIsNoListen(lines: seq<string>, i: nat)
    requires IsHead(lines, i)
    ensures !IsListen(lines, i)
  {
    hide TrimSpace;
    assert "listen = "[0] != "[[endpoints]]"[0];
  }

  /** A line that opens no endpoint, when one is open: it is of use to that one, or the parser gives up. */
  lemma LineMeans(syntax: Syntax, lines: seq<string>, i: nat, heads: seq<nat>, listeners: seq<Listener>)
    requires Described(syntax, lines, i, heads, listeners) && i < |lines| && Readable(syntax, lines, i) && !IsHead(lines, i) && heads != []
    ensures var next := ParseLine(syntax, listeners, lines[i]);
            && (next.None? ==> !Readable(syntax, lines, |lines|))
            && (next.Some? ==> Described(syntax, lines, i + 1, heads, next.value) && Readable(syntax, lines, i + 1))
  {
    hide Described, Readable, Says, ParseLine, ParseListen, TrimSpace, Grows;
    LastHead(syntax, lines, i, heads, listeners);
    var n := |listeners| - 1;
    var others, current := listeners[..n], listeners[n];
    assert others + [current] == listeners;
    if IsListen(lines, i) {
      ListenLineGrows(syntax, others, current, lines[i]);
      ListenSays(syntax, lines, i, current);
      var l := ParseListen(syntax, current, TrimSpace(TrimSpace(lines[i])[9..]));
      if l.None? {
        NotReadable(syntax, lines, heads[n], i);
      } else {
        LineAdded(syntax, lines, i, heads, listeners, l.value);
      }
    } else {
      PlainLineMeans(syntax, others, current, lines[i]);
      var l :| ParseLine(syntax, others + [current], lines[i]) == Some(others + [l]) && Grows(syntax, current, TrimSpace(lines[i]), l);
      LineAdded(syntax, lines, i, heads, listeners, l);
    }
  }

  lemma LastHead(syntax: Syntax, lines: seq<string>, i: nat, heads: seq<nat>, listeners: seq<Listener>)
    requires Described(syntax, lines, i, heads, listeners) && heads != []
    ensures |listeners| == |heads| && heads[|heads| - 1] < i && IsHead(lines, heads[|heads| - 1])
  {
    hide Describes, IsHead;
  }

  lemma LineAdded(syntax: Syntax, lines: seq<string>, i: nat, heads: seq<nat>, listeners: seq<Listener>, l: Listener)
    requires Described(syntax, lines, i, heads, listeners) && i < |lines| && Readable(syntax, lines, i) && !IsHead(lines, i) && heads != []
    requires Grows(syntax, listeners[|listeners| - 1], TrimSpace(lines[i]), l) && (IsListen(lines, i) ==> Says(syntax, lines, i, l.address, l.port))
    ensures Described(syntax, lines, i + 1, heads, listeners[..|listeners| - 1] + [l]) && Readable(syntax, lines, i + 1)
  {
    hide Describes, Readable, Says, TrimSpace, Grows, IsHead, IsListen;
    var n := |listeners| - 1;
    OneMoreDescribes(syntax, lines, heads[n], i, listeners[n], l);
    LineDescribed(syntax, lines, i, heads, listeners, listeners[..n] + [l]);
    StillReadable(syntax, lines, i);
  }

  /** One more line of any kind. */
  lemma NextLine(syntax: Syntax, lines: seq<string>, i: nat, heads: seq<nat>, listeners: seq<Listener>) returns (more: seq<nat>)
    requires Described(syntax, lines, i, heads, listeners) && i < |lines| && Readable(syntax, lines, i)
    ensures var next := ParseLine(syntax, listeners, lines[i]);
            && (next.None? ==> !Readable(syntax, lines, |lines|))
            && (next.Some? ==> Described(syntax, lines, i + 1, more, next.value) && Readable(syntax, lines, i + 1))
  {
    hide Describes, Readable, Says, ParseLine, TrimSpace;
    more := heads;
    if IsHead(lines, i) {
      more := heads + [i];
      HeadMeans(syntax, lines, i, listeners);
      HeadDescribed(syntax, lines, i, heads, listeners);
      HeadIsNoListen(lines, i);
      StillReadable(syntax, lines, i);
    } else if heads == [] {
      NoEndpointYet(syntax, lines[i]);
      StillReadable(syntax, lines, i);
    } else {
      LineMeans(syntax, lines, i, heads, listeners);
    }
  }

  lemma {:induction false} AllLinesMean(syntax: Syntax, lines: seq<string>, i: nat, heads: seq<nat>, listeners: seq<Listener>)
      returns (all: seq<nat>)
    requires Described(syntax, lines, i, heads, listeners) && Readable(syntax, lines, i)
    ensures var result := ParseLines(syntax, listeners, lines[i..]);
            && (result.Some? <==> Readable(syntax, lines, |lines|))
            && (result.Some? ==> Described(syntax, lines, |lines|, all, result.value))
    decreases |lines| - i
  {
    hide Describes, Says, ParseLine, IsHead, Readable;
    all := heads;
    if i < |lines| {
      var more := NextLine(syntax, lines, i, heads, listeners);
      var next := ParseLine(syntax, listeners, lines[i]);
      assert lines[i..][1..] == lines[i + 1..];
      if next.Some? {
        all := AllLinesMean(syntax, lines, i + 1, more, next.value);
      }
    }
  }

  /** An endpoint nobody can listen for: no listen line, or neither protocol. */
  ghost predicate Unfinished(l: Listener) {
    l.port == 0 || (!l.tcp && !l.udp)
  }

  ghost predicate HasRule(listeners: seq<Listener>, rule: Rule) {
    exists l :: l in listeners && l.port == rule.port && ((l.tcp && rule.protocol == "tcp") || (l.udp && rule.protocol == "udp"))
  }

  lemma CompleteMeans(syntax: Syntax, lines: seq<string>, heads: seq<nat>, listeners: seq<Listener>)
    requires Sane(syntax) && Described(syntax, lines, |lines|, heads, listeners)
    ensures forall l :: l in listeners ==> (Complete(l) <==> !Unfinished(l))
    ensures forall l :: l in listeners && l.port != 0 ==> syntax.isIP(l.address) && 1 <= l.port <= 65535
  {
    hide TurnedOn, Names, IsHead, TrimSpace;
    forall l | l in listeners
      ensures Complete(l) <==> !Unfinished(l)
      ensures l.port != 0 ==> syntax.isIP(l.address) && 1 <= l.port <= 65535
    {
      var k :| 0 <= k < |listeners| && listeners[k] == l;
      assert Describes(syntax, lines, heads[k], EndOf(heads, k, |lines|), l);
    }
  }

  lemma {:induction false} RulesMean(listeners: seq<Listener>, rule: Rule)
    ensures rule in RulesOf(listeners) <==> HasRule(listeners, rule)
  {
    if listeners != [] {
      RulesMean(listeners[1..], rule);
      assert listeners == [listeners[0]] + listeners[1..];
    }
  }

  /** A text is known if and only if it is not empty, every listen line of an endpoint names an address and a
      port, and no endpoint is unfinished; and then its listeners are its endpoints in order, and its rules
      their ports by protocol. */
  lemma KnownMeans(syntax: Syntax, text: string) returns (heads: seq<nat>, listeners: seq<Listener>)
    requires Sane(syntax)
    ensures var lines := Lines(text);
            && (Readable(syntax, lines, |lines|) ==> Described(syntax, lines, |lines|, heads, listeners))
            && (ParseSpec(syntax, text).Some? <==>
                  text != "" && Readable(syntax, lines, |lines|) && forall l :: l in listeners ==> !Unfinished(l))
    ensures ParseSpec(syntax, text).Some? ==>
              var known := ParseSpec(syntax, text).value;
              && known.listeners == listeners && (forall l :: l in listeners ==> syntax.isIP(l.address) && 1 <= l.port <= 65535)
              && forall rule :: rule in known.rules <==> HasRule(listeners, rule)
  {
    var lines := Lines(text);
    assert Described(syntax, lines, 0, [], []) && lines[0..] == lines;
    heads := AllLinesMean(syntax, lines, 0, [], []);
    hide Describes, Says, ParseLines, IsHead, Readable, Complete, Unfinished, HasRule, RulesOf, Lines;
    var parsed := ParseLines(syntax, [], lines);
    listeners := if parsed.Some? then parsed.value else [];
    if parsed.Some? {
      CompleteMeans(syntax, lines, heads, listeners);
    }
    forall rule: Rule
      ensures rule in RulesOf(listeners) <==> HasRule(listeners, rule)
    {
      RulesMean(listeners, rule);
    }
  }
}
