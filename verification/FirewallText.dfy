/**
 The managed-rule parsers of panel/cmd/agent/firewall.go on the text the firewall commands print. They
 are what gives a listed entry its key: which rule it manages for which owner.
 */
module FirewallText {
  import opened Wrappers
  import opened Firewall
  import opened Listing
  import opened Text
  import Ufw
  import IpTables

  // iptables -S and firewalld's direct rules: a line is its fields, quotes removed ------------------

  /** `fieldAfter`. */
  function FieldAfter(fields: seq<string>, key: string): (value: Option<string>) {
    if |fields| < 2 then None else if fields[0] == key then Some(fields[1]) else FieldAfter(fields[1..], key)
  }

  function PortOf(text: Option<string>): (port: Option<int>) {
    if text.None? then None else
      var n := Atoi(text.value);
      if n.Some? && 1 <= n.value <= 65535 then n else None
  }

  /** What the loop of `parseManagedFirewallRules` makes of one line. */
  function RuleOf(owner: Owner, fields: seq<string>): (rule: Option<Rule>) {
    var protocol, comment := FieldAfter(fields, "-p"), FieldAfter(fields, "--comment");
    if protocol.None? || comment.None? || comment.value != Comment(owner, protocol.value) || FieldAfter(fields, "-j") != Some("ACCEPT") then None
    else
      var port := PortOf(FieldAfter(fields, "--dport"));
      if port.None? then None else Some(Rule(port.value, protocol.value))
  }

  /** The entry a line stands for; `extra` tells its further match conditions. */
  function EntryOf(fields: seq<string>, extra: int): (e: Entry) {
    var protocol, comment, port := FieldAfter(fields, "-p"), FieldAfter(fields, "--comment"), PortOf(FieldAfter(fields, "--dport"));
    if protocol.Some? && comment.Some? && port.Some? && FieldAfter(fields, "-j") == Some("ACCEPT")
    then Entry(Some(Rule(port.value, protocol.value)), comment.value, extra)
    else Entry(None, "", extra)
  }

  function Entries(lines: seq<seq<string>>, extra: seq<string> -> int): (entries: seq<Entry>)
    ensures |entries| == |lines|
  {
    seq(|lines|, i requires 0 <= i < |lines| => EntryOf(lines[i], extra(lines[i])))
  }

  /** `parseManagedFirewallRules`: the managed set of the listed entries. */
  method ParseManagedFirewallRules(owner: Owner, lines: seq<seq<string>>, ghost extra: seq<string> -> int) returns (rules: set<Rule>)
    ensures rules == Managed(IpTables.IptKey(owner), Entries(lines, extra))
  {
    hide EntryOf, RuleOf, IpTables.IptKey;
    rules := {};
    ghost var key := IpTables.IptKey(owner);
    for i := 0 to |lines|
      invariant rules == Managed(key, Entries(lines, extra)[..i])
    {
      ghost var entries := Entries(lines, extra);
      KeyIsParser(owner, lines[i], extra(lines[i]));
      ManagedConcat(key, entries[..i], [entries[i]]);
      assert entries[..i + 1] == entries[..i] + [entries[i]];
      assert entries[i] == [entries[i]][0];
      var rule := RuleOf(owner, lines[i]);
      if rule.Some? {
        rules := rules + {rule.value};
      }
    }
    assert Entries(lines, extra)[..|lines|] == Entries(lines, extra);
  }

  lemma KeyIsParser(owner: Owner, fields: seq<string>, extra: int)
    ensures IpTables.IptKey(owner)(EntryOf(fields, extra)) == RuleOf(owner, fields)
  {
  }

  lemma {:induction false} FieldSkips(before: seq<string>, rest: seq<string>, key: string)
    requires key !in before
    ensures FieldAfter(before + rest, key) == FieldAfter(rest, key)
  {
    if before == [] {
      assert before + rest == rest;
    } else {
      assert (before + rest)[1..] == before[1..] + rest;
      FieldSkips(before[1..], rest, key);
      if |before + rest| < 2 {
        assert rest == [];
      }
    }
  }

  predicate NoKeys(fields: seq<string>) {
    forall f :: f in fields ==> f !in ["-p", "--dport", "--comment", "-j"]
  }

  /** `managedIPTablesRule` as it is printed back, where more may stand before it and after the protocol:
      "-A INPUT", "-m tcp", a priority. */
  function PrintedRule(owner: Owner, rule: Rule, before: seq<string>, between: seq<string>): (fields: seq<string>)
    requires ValidRule(rule)
  {
    var comment := Comment(owner, rule.protocol);
    before + (["-p", rule.protocol] + (between + ["--dport", Itoa(rule.port), "-m", "comment", "--comment", comment, "-j", "ACCEPT"]))
  }

  /** A field that does not start with a dash is no key. */
  lemma PlainField(f: string)
    requires f != "" && f[0] != '-'
    ensures f != "-p" && f != "--dport" && f != "--comment" && f != "-j"
  {
  }

  lemma KeysDiffer()
    ensures "-p" != "--dport" && "-p" != "--comment" && "-p" != "-j" && "--dport" != "--comment" && "--dport" != "-j" && "--comment" != "-j"
    ensures "-m" != "--comment" && "-m" != "-j"
  {
  }

  lemma TailFields(port: string, comment: string)
    requires port != "" && port[0] != '-' && comment != "" && comment[0] != '-'
    ensures var tail := ["--dport", port, "-m", "comment", "--comment", comment, "-j", "ACCEPT"];
            && FieldAfter(tail, "--dport") == Some(port) && FieldAfter(tail, "--comment") == Some(comment)
            && FieldAfter(tail, "-j") == Some("ACCEPT")
  {
    var tail := ["--dport", port, "-m", "comment", "--comment", comment, "-j", "ACCEPT"];
    KeysDiffer();
    PlainField(port);
    PlainField(comment);
    PlainField("comment");
    FieldSkips(tail[..4], tail[4..], "--comment");
    FieldSkips(tail[..6], tail[6..], "-j");
    assert tail[..4] + tail[4..] == tail && tail[..6] + tail[6..] == tail;
  }

  lemma PrintedField(before: seq<string>, protocol: string, between: seq<string>, tail: seq<string>, key: string)
    requires NoKeys(before) && NoKeys(between) && key in ["--dport", "--comment", "-j"]
    requires protocol != "" && protocol[0] != '-'
    ensures FieldAfter(before + (["-p", protocol] + (between + tail)), key) == FieldAfter(tail, key)
    ensures FieldAfter(before + (["-p", protocol] + (between + tail)), "-p") == Some(protocol)
  {
    KeysDiffer();
    PlainField(protocol);
    FieldSkips(before, ["-p", protocol] + (between + tail), key);
    FieldSkips(before, ["-p", protocol] + (between + tail), "-p");
    FieldSkips(["-p", protocol], between + tail, key);
    FieldSkips(between, tail, key);
  }

  /** A rule the Agent wrote is read back from the listing as itself. */
  lemma PrintedRuleReadsBack(owner: Owner, rule: Rule, before: seq<string>, between: seq<string>)
    requires ValidRule(rule) && NoKeys(before) && NoKeys(between)
    ensures RuleOf(owner, PrintedRule(owner, rule, before, between)) == Some(rule)
  {
    var port, comment := Itoa(rule.port), Comment(owner, rule.protocol);
    var tail := ["--dport", port, "-m", "comment", "--comment", comment, "-j", "ACCEPT"];
    assert port[0] in port;
    TailFields(port, comment);
    PrintedField(before, rule.protocol, between, tail, "--dport");
    PrintedField(before, rule.protocol, between, tail, "--comment");
    PrintedField(before, rule.protocol, between, tail, "-j");
    AtoiItoa(rule.port);
    hide FieldAfter, Itoa, Atoi, Comment, NoKeys;
  }

  /** No line, whoever wrote it, is managed for both proxy and realm. */
  lemma OneOwner(fields: seq<string>)
    ensures RuleOf(Proxy, fields).None? || RuleOf(Realm, fields).None?
  {
  }

  // ufw status numbered: a line is its characters ---------------------------------------------------

  /** strings.Contains. */
  predicate Contains(s: string, sub: string) {
    exists i :: 0 <= i <= |s| && sub <= s[i..]
  }

  /** The first of strings.Fields of a trimmed, non-empty text. */
  function FirstField(s: string): (f: string) {
    if s == "" || Space(s[0]) then "" else [s[0]] + FirstField(s[1..])
  }

  /** What the loop of `parseUFWManagedRules` makes of one line. */
  function UfwRuleOf(owner: Owner, raw: string): (numbered: Option<Ufw.Numbered>) {
    var line := TrimSpace(raw);
    if line == "" || line[0] != '[' then None
    else
      var closing := IndexOf(line, ']');
      if closing.None? || closing.value < 2 then None
      else
        var number, rest := Atoi(TrimSpace(line[1..closing.value])), TrimSpace(line[closing.value + 1..]);
        if number.None? || rest == "" then None
        else
          var rule := PortProtocol(FirstField(rest));
          if rule.None? || !Contains(line, "# " + Comment(owner, rule.value.protocol)) then None
          else Some(Ufw.Numbered(number.value, rule.value))
  }

  /** "443/tcp": exactly one slash, a port in range before it. */
  function PortProtocol(field: string): (rule: Option<Rule>) {
    var slash := IndexOf(field, '/');
    if slash.None? || '/' in field[slash.value + 1..] then None
    else
      var port := PortOf(Some(field[..slash.value]));
      if port.None? then None else Some(Rule(port.value, field[slash.value + 1..]))
  }

  /** A numbered line: "[ 7] 443/tcp   ALLOW IN   Anywhere   # comment". */
  function UfwLine(number: nat, pad: string, rule: Rule, middle: string, comment: string): (line: string)
    requires ValidRule(rule)
  {
    Numbering(pad, number) + (Field(rule) + (" " + middle + ("# " + comment)))
  }

  function Numbering(pad: string, number: nat): (s: string) {
    "[" + (pad + Itoa(number)) + "] "
  }

  function Field(rule: Rule): (s: string)
    requires ValidRule(rule)
  {
    Itoa(rule.port) + "/" + rule.protocol
  }

  predicate Blank(pad: string) {
    forall i :: 0 <= i < |pad| ==> pad[i] == ' '
  }

  /** What ufw may put around number and rule. */
  predicate Layout(pad: string, middle: string, comment: string) {
    Blank(pad) && '#' !in middle && comment != "" && !Space(comment[|comment| - 1])
  }

  lemma PortProtocolReadsBack(rule: Rule)
    requires ValidRule(rule)
    ensures PortProtocol(Field(rule)) == Some(rule)
  {
    var port := Itoa(rule.port);
    var field := port + "/" + rule.protocol;
    assert field[..|port|] == port && field[|port| + 1..] == rule.protocol;
    assert '/' !in port && '/' !in rule.protocol;
    IndexIs(field, '/', |port|);
    AtoiItoa(rule.port);
  }

  lemma {:induction false} FirstFieldIs(field: string, after: string)
    requires (forall c :: c in field ==> !Space(c)) && (after == "" || Space(after[0]))
    ensures FirstField(field + after) == field
  {
    if field == "" {
      assert field + after == after;
    } else {
      assert (field + after)[1..] == field[1..] + after;
      FirstFieldIs(field[1..], after);
    }
  }

  lemma {:induction false} TrimPadding(pad: string, s: string)
    requires Blank(pad) && s != "" && !Space(s[0]) && !Space(s[|s| - 1])
    ensures TrimSpace(pad + s) == s
  {
    if pad == "" {
      assert pad + s == s;
    } else {
      assert (pad + s)[1..] == pad[1..] + s && (pad + s)[0] == pad[0] == ' ';
      TrimPadding(pad[1..], s);
    }
  }

  lemma NumberText(number: nat)
    ensures Itoa(number) != "" && ']' !in Itoa(number) && '#' !in Itoa(number) && '/' !in Itoa(number)
    ensures forall c :: c in Itoa(number) ==> !Space(c)
    ensures !Space(Itoa(number)[0]) && !Space(Itoa(number)[|Itoa(number)| - 1])
  {
  }

  lemma TextAfter(head: string, comment: string, wanted: string)
    requires '#' !in head
    ensures Contains(head + ("# " + comment), "# " + wanted) <==> Ufw.Mentions(comment, wanted)
  {
    var line, mark := head + ("# " + comment), "# " + wanted;
    assert forall j :: 0 <= j < |head| ==> line[j] == head[j] && line[j] in head;
    assert line[|head|..] == "# " + comment;
    if wanted <= comment {
      assert mark <= line[|head|..];
    }
    forall i | 0 <= i <= |comment| && mark <= comment[i..]
      ensures Contains(line, mark)
    {
      assert line[|head| + 2 + i..] == comment[i..];
    }
    forall i | 0 <= i <= |line| && mark <= line[i..]
      ensures Ufw.Mentions(comment, wanted)
    {
      assert mark[0] == line[i..][0] == line[i] == '#';
      if i == |head| {
        assert wanted == mark[2..] && comment == line[i..][2..];
        assert mark[2..] <= line[i..][2..];
      } else {
        assert comment[i - |head| - 2..] == line[i..];
      }
    }
  }

  /** The bracketed number of a printed line. */
  lemma NumberReadsBack(line: string, number: nat, pad: string, tail: string, closing: nat)
    requires Blank(pad) && line == Numbering(pad, number) + tail && closing == 1 + |pad| + |Itoa(number)|
    ensures |line| > closing >= 2 && line[0] == '[' && IndexOf(line, ']') == Some(closing)
    ensures TrimSpace(line[1..closing]) == Itoa(number) && line[closing + 1..] == " " + tail
  {
    var inside := pad + Itoa(number);
    NumberText(number);
    TrimPadding(pad, Itoa(number));
    hide Itoa, TrimSpace, Space;
    assert line == "[" + inside + "]" + (" " + tail);
    assert line[1..closing] == inside && line[closing] == ']';
    assert line[closing + 1..] == " " + tail;
    assert ']' !in inside;
    assert line[..closing] == "[" + inside;
    IndexIs(line, ']', closing);
  }

  /** Trimming a text that starts and ends visibly, behind a blank or behind something visible. */
  lemma TailEnds(head: string, field: string, after: string, tail: string)
    requires tail == field + after && field != "" && after != "" && head != "" && !Space(head[0])
    requires (forall c :: c in field ==> !Space(c)) && Space(after[0]) && !Space(after[|after| - 1])
    ensures tail != "" && TrimSpace(" " + tail) == tail && FirstField(tail) == field && TrimSpace(head + tail) == head + tail
  {
    assert field[0] in field && tail[0] == field[0] && tail[|tail| - 1] == after[|after| - 1];
    FirstFieldIs(field, after);
    assert (head + tail)[0] == head[0] && (head + tail)[|head + tail| - 1] == tail[|tail| - 1];
    TrimmedAlready(head + tail);
    hide Space, TrimSpace, FirstField;
    TrimPadding(" ", tail);
  }

  lemma FieldText(rule: Rule)
    requires ValidRule(rule)
    ensures Field(rule) != "" && forall c :: c in Field(rule) ==> !Space(c)
    ensures Space(' ') && !Space('[')
  {
  }

  /** The parser, step by step. */
  lemma UfwParserSteps(owner: Owner, line: string, closing: nat, number: int, rest: string, rule: Rule)
    requires TrimSpace(line) == line && line != "" && line[0] == '[' && IndexOf(line, ']') == Some(closing) && closing >= 2
    requires Atoi(TrimSpace(line[1..closing])) == Some(number) && TrimSpace(line[closing + 1..]) == rest != ""
    requires PortProtocol(FirstField(rest)) == Some(rule)
    ensures UfwRuleOf(owner, line) == if Contains(line, "# " + Comment(owner, rule.protocol)) then Some(Ufw.Numbered(number, rule)) else None
  {
  }

  /** A printed line is read back with its number and rule for exactly the owners its comment mentions:
      the key the reconciliation uses. */
  lemma UfwLineReadsBack(owner: Owner, number: nat, pad: string, rule: Rule, middle: string, comment: string, extra: int)
    requires ValidRule(rule) && Layout(pad, middle, comment)
    ensures UfwRuleOf(owner, UfwLine(number, pad, rule, middle, comment))
         == if Ufw.UfwKey(owner)(Entry(Some(rule), comment, extra)).Some? then Some(Ufw.Numbered(number, rule)) else None
  {
    var line := UfwLine(number, pad, rule, middle, comment);
    var after := " " + middle + ("# " + comment);
    var tail := Field(rule) + after;
    var closing := 1 + |pad| + |Itoa(number)|;
    CommentFound(owner, number, pad, rule, middle, comment);
    FieldText(rule);
    AtoiItoa(number);
    PortProtocolReadsBack(rule);
    KeyMentions(owner, rule, comment, extra);
    assert Numbering(pad, number)[0] == '[' && after[0] == ' ' && after[|after| - 1] == comment[|comment| - 1];
    hide Contains, FirstField, PortProtocol, IndexOf, TrimSpace, Space, Itoa, Atoi;
    hide Comment, UfwLine, Field, Numbering, UfwRuleOf, Ufw.Mentions, Ufw.UfwKey;
    NumberReadsBack(line, number, pad, tail, closing);
    TailEnds(Numbering(pad, number), Field(rule), after, tail);
    UfwParserSteps(owner, line, closing, number, tail, rule);
  }

  lemma KeyMentions(owner: Owner, rule: Rule, comment: string, extra: int)
    requires ValidRule(rule)
    ensures Ufw.UfwKey(owner)(Entry(Some(rule), comment, extra)).Some? <==> Ufw.Mentions(comment, Comment(owner, rule.protocol))
  {
  }

  lemma CommentFound(owner: Owner, number: nat, pad: string, rule: Rule, middle: string, comment: string)
    requires ValidRule(rule) && Layout(pad, middle, comment)
    ensures UfwLine(number, pad, rule, middle, comment) == Numbering(pad, number) + (Field(rule) + (" " + middle + ("# " + comment)))
    ensures Contains(UfwLine(number, pad, rule, middle, comment), "# " + Comment(owner, rule.protocol))
       <==> Ufw.Mentions(comment, Comment(owner, rule.protocol))
  {
    var head := Numbering(pad, number) + Field(rule) + " " + middle;
    NumberText(number);
    NumberText(rule.port);
    TextAfter(head, comment, Comment(owner, rule.protocol));
    assert head + ("# " + comment) == UfwLine(number, pad, rule, middle, comment);
    hide Contains, Comment, Ufw.Mentions, Itoa;
  }
}
